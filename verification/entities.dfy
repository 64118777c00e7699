/** The game's entities (paddle, ball, brick, particle, power-up, laser), the
    2D vector they are positioned by, and the two entity factories. Every
    entity is an immutable value; the source mutates them in place. */
module Entities {
  import opened Constants

  /** A 2D point or velocity; the origin is the board's top-left corner and
      y grows downward. */
  datatype Vec = Vec(x: real, y: real) {
    function Plus(other: Vec): Vec {
      Vec(x + other.x, y + other.y)
    }
    function Times(k: real): Vec {
      Vec(x * k, y * k)
    }
  }

  const Zero: Vec := Vec(0.0, 0.0)

  /** Squared speed: comparing these avoids the square root. */
  function SpeedSquared(v: Vec): real {
    v.x * v.x + v.y * v.y
  }

  datatype Paddle = Paddle(position: Vec, width: real, height: real, isLaser: bool)

  /** A ball; `trail` holds its most recent positions, oldest first. */
  datatype Ball = Ball(id: nat, position: Vec, velocity: Vec, radius: real, trail: seq<Vec>)

  datatype BrickKind = Standard | Silver

  /** A brick's id names the level, row and column it was loaded from. */
  datatype BrickId = BrickId(level: nat, row: nat, col: nat)

  datatype Brick = Brick(id: BrickId, position: Vec, width: real, height: real,
                         kind: BrickKind, hitsLeft: int, destroyed: bool)

  datatype ParticleColor = Accent | Primary | SilverGlow

  /** A particle; `createdAt` is a millisecond timestamp. */
  datatype Particle = Particle(id: nat, position: Vec, velocity: Vec, radius: real,
                               opacity: real, createdAt: int, color: ParticleColor)

  datatype PowerUpKind = Extend | LaserMode | MultiBall | PowerBall

  datatype PowerUp = PowerUp(id: nat, position: Vec, kind: PowerUpKind, width: real, height: real)

  /** Lasers are fired in volleys of two; `side` is 1 for the left and 2 for
      the right one. */
  datatype LaserId = LaserId(volley: nat, side: nat)

  datatype Laser = Laser(id: LaserId, position: Vec)

  /** The paddle every life and every level starts with. */
  function CreateInitialPaddle(): (p: Paddle)
    ensures p.position.x + p.width / 2.0 == GameWidth / 2.0
    ensures 0.0 <= p.position.x && p.position.x + p.width <= GameWidth
    ensures p.position.y == PaddleY && p.width == PaddleWidth && p.height == PaddleHeight
    ensures !p.isLaser
  {
    Paddle(Vec((GameWidth - PaddleWidth) / 2.0, PaddleY), PaddleWidth, PaddleHeight, false)
  }

  /** A new ball resting on the top of a paddle at `paddleX` of width
      `paddleWidth`. When `moving`, it is launched upward at the initial speed,
      to the right when `rightward` (the source's coin flip), else to the left. */
  function CreateInitialBall(id: nat, paddleX: real, paddleWidth: real, moving: bool, rightward: bool): (b: Ball)
    ensures b.id == id && b.radius == BallRadius && b.trail == []
    ensures b.position.x == paddleX + paddleWidth / 2.0
    ensures b.position.y + b.radius == PaddleY
    ensures !moving <==> b.velocity == Zero
    ensures moving ==> b.velocity.y == -InitialBallSpeed
                       && (b.velocity.x == InitialBallSpeed <==> rightward)
                       && (b.velocity.x == -InitialBallSpeed <==> !rightward)
  {
    var vx := if rightward then InitialBallSpeed else -InitialBallSpeed;
    Ball(id, Vec(paddleX + paddleWidth / 2.0, PaddleY - BallRadius),
         if moving then Vec(vx, -InitialBallSpeed) else Zero,
         BallRadius, [])
  }
}

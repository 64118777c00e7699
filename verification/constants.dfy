/** Board geometry and gameplay constants of the breakout game.
    Geometry is real-valued because BrickOffsetLeft is 2.5; counts, scores,
    lives and millisecond durations are integers. */
module Constants {

  const GameWidth: real := 800.0
  const GameHeight: real := 600.0

  const PaddleWidth: real := 120.0
  const PaddleHeight: real := 20.0
  const PaddleY: real := GameHeight - 40.0
  const PaddleSpeed: real := 10.0

  const BallRadius: real := 10.0
  const InitialBallSpeed: real := 4.0
  const PowerBallSpeedMultiplier: real := 1.2

  const BrickCols: int := 10
  const BrickWidth: real := 75.0
  const BrickHeight: real := 20.0
  const BrickGap: real := 5.0
  const BrickOffsetTop: real := 100.0
  /** Centres a row of BrickCols bricks on the board; evaluates to 2.5. */
  const BrickOffsetLeft: real := (GameWidth - (BrickCols as real * (BrickWidth + BrickGap) - BrickGap)) / 2.0

  const ScorePerBrick: int := 10
  const InitialLives: int := 3

  // Constants written inline in the game component.
  const ParticleLifespan: int := 800        // ms
  const LaserCooldown: int := 200           // ms between two volleys
  const LaserInset: real := 5.0             // laser distance from a paddle edge
  const LaserSpeed: real := 10.0            // upward, per normalised frame
  const PowerUpFallSpeed: real := 1.0       // downward, per normalised frame
  const PowerUpWidth: real := 30.0
  const PowerUpHeight: real := 15.0
  const TrailLength: nat := 5
  const ExtendIncrement: real := 40.0
  const MaxPaddleWidth: real := 240.0
}

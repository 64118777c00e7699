/** The first steps of a tick: moving and clamping the paddle, keeping an
    unlaunched ball on it, and firing lasers. */
module PaddleRules {
  import opened Constants
  import opened Entities

  function Min(a: real, b: real): real { if a <= b then a else b }
  function Max(a: real, b: real): real { if a >= b then a else b }
  function Abs(x: real): real { if x < 0.0 then -x else x }

  /** Clamps `x` into `[0, hi]`, `0` winning when `hi` is negative. */
  function Clamp(x: real, hi: real): (r: real)
    ensures 0.0 <= r
    ensures hi >= 0.0 ==> r <= hi
    ensures 0.0 <= x <= hi ==> r == x
    ensures r == x || r == 0.0 || r == hi
  {
    Max(0.0, Min(hi, x))
  }

  /** The paddle's x after the held arrow keys move it for `dt` normalised frames. */
  function Steer(x: real, left: bool, right: bool, dt: real): real {
    var afterLeft := if left then x - PaddleSpeed * dt else x;
    if right then afterLeft + PaddleSpeed * dt else afterLeft
  }

  /** Input handling as written: the paddle is clamped against its width from
      the previous tick and only then takes the width and laser mode of the
      game state, so the bound holds for the previous width only. */
  function MovePaddleAsWritten(p: Paddle, left: bool, right: bool, dt: real, width: real, isLaser: bool): (r: Paddle)
    ensures 0.0 <= r.position.x
    ensures p.width <= GameWidth ==> r.position.x + p.width <= GameWidth
    ensures r.width == width && r.isLaser == isLaser
    ensures r.position.y == p.position.y && r.height == p.height
  {
    var x := Clamp(Steer(p.position.x, left, right, dt), GameWidth - p.width);
    p.(position := p.position.(x := x), width := width, isLaser := isLaser)
  }

  /** A paddle at the right edge that collects `extend` overhangs the board
      in the tick that widens it. */
  lemma PaddleOverhangsAfterExtend()
    ensures var p := CreateInitialPaddle().(position := Vec(GameWidth - PaddleWidth, PaddleY));
            var r := MovePaddleAsWritten(p, false, true, 1.0, PaddleWidth + ExtendIncrement, false);
            r.position.x + r.width > GameWidth
  {
  }

  /** Input handling with the width synchronised before the clamp: the
      paddle lies inside the board whenever it fits. */
  function MovePaddle(p: Paddle, left: bool, right: bool, dt: real, width: real, isLaser: bool): (r: Paddle)
    ensures 0.0 <= r.position.x
    ensures width <= GameWidth ==> r.position.x + r.width <= GameWidth
    ensures var x := Steer(p.position.x, left, right, dt);
            0.0 <= x && x + width <= GameWidth ==> r.position.x == x
    ensures r.width == width && r.isLaser == isLaser
    ensures r.position.y == p.position.y && r.height == p.height
  {
    var x := Clamp(Steer(p.position.x, left, right, dt), GameWidth - width);
    p.(position := p.position.(x := x), width := width, isLaser := isLaser)
  }

  /** The corrected input handling differs from the written one only when the
      width changes. */
  lemma MovePaddleAgreesAtSameWidth(p: Paddle, left: bool, right: bool, dt: real, isLaser: bool)
    ensures MovePaddle(p, left, right, dt, p.width, isLaser) == MovePaddleAsWritten(p, left, right, dt, p.width, isLaser)
  {
  }

  /** A ball is stuck to the paddle when it is the only ball and has no
      vertical speed. */
  predicate Stuck(balls: seq<Ball>) {
    |balls| == 1 && balls[0].velocity.y == 0.0
  }

  /** A stuck ball follows the paddle's centre; otherwise the balls are left alone. */
  function FollowPaddle(balls: seq<Ball>, p: Paddle): (r: seq<Ball>)
    ensures |r| == |balls|
    ensures Stuck(balls) ==> r[0].position.x == p.position.x + p.width / 2.0
                              && r[0] == balls[0].(position := r[0].position)
                              && r[0].position.y == balls[0].position.y
    ensures !Stuck(balls) ==> r == balls
  {
    if Stuck(balls) then
      var b := balls[0];
      [b.(position := b.position.(x := p.position.x + p.width / 2.0))]
    else balls
  }

  /** The ball created for a new life is stuck, already at the centre of the
      new paddle, so following leaves it where it is; a launched ball is
      never stuck. */
  lemma NewLifeBallRidesPaddle(id: nat, rightward: bool)
    ensures var p := CreateInitialPaddle();
            var b := CreateInitialBall(id, p.position.x, p.width, false, rightward);
            Stuck([b]) && FollowPaddle([b], p) == [b]
    ensures var p := CreateInitialPaddle();
            !Stuck([CreateInitialBall(id, p.position.x, p.width, true, rightward)])
  {
  }

  /** The laser clock: when the last volley was fired and how many volleys
      have been fired so far. */
  datatype LaserGun = LaserGun(lastFired: int, volleys: nat)

  datatype Volley = Volley(lasers: seq<Laser>, gun: LaserGun, fired: bool)

  /** Firing: with fire held, laser mode on and more than the cooldown since
      the last volley, two lasers leave the paddle's edges. */
  function FireLasers(p: Paddle, lasers: seq<Laser>, fireHeld: bool, now: int, gun: LaserGun): (r: Volley)
    ensures r.fired <==> fireHeld && p.isLaser && now - gun.lastFired > LaserCooldown
    ensures r.fired ==>
              && |r.lasers| == |lasers| + 2 && r.lasers[..|lasers|] == lasers
              && r.lasers[|lasers|].position == Vec(p.position.x + LaserInset, p.position.y)
              && r.lasers[|lasers| + 1].position == Vec(p.position.x + p.width - LaserInset, p.position.y)
              && r.gun == LaserGun(now, gun.volleys + 1)
              && r.lasers[|lasers|].id.volley == r.lasers[|lasers| + 1].id.volley == r.gun.volleys
    ensures !r.fired ==> r.lasers == lasers && r.gun == gun
  {
    if fireHeld && p.isLaser && now - gun.lastFired > LaserCooldown then
      var volley := gun.volleys + 1;
      var left := Laser(LaserId(volley, 1), Vec(p.position.x + LaserInset, p.position.y));
      var right := Laser(LaserId(volley, 2), Vec(p.position.x + p.width - LaserInset, p.position.y));
      Volley(lasers + [left, right], LaserGun(now, volley), true)
    else
      Volley(lasers, gun, false)
  }

  /** Every laser id is unique and no newer than the gun's volley count. */
  predicate GunAccounts(lasers: seq<Laser>, gun: LaserGun) {
    && (forall i :: 0 <= i < |lasers| ==> lasers[i].id.volley <= gun.volleys)
    && (forall i, j :: 0 <= i < j < |lasers| ==> lasers[i].id != lasers[j].id)
  }

  /** Firing keeps laser ids unique, and two volleys are always more than
      the cooldown apart. */
  lemma FiringKeepsIdsAndCooldown(p: Paddle, lasers: seq<Laser>, fireHeld: bool, now: int, gun: LaserGun,
                                  fireHeld2: bool, later: int)
    requires GunAccounts(lasers, gun)
    ensures var v := FireLasers(p, lasers, fireHeld, now, gun);
            && GunAccounts(v.lasers, v.gun)
            && (v.fired && FireLasers(p, v.lasers, fireHeld2, later, v.gun).fired ==> later - now > LaserCooldown)
  {
    var v := FireLasers(p, lasers, fireHeld, now, gun);
    if v.fired {
      var n := |lasers|;
      forall i, j | 0 <= i < j < |v.lasers|
        ensures v.lasers[i].id != v.lasers[j].id
      {
        if j >= n && i < n {
          assert v.lasers[i] == lasers[i];
          assert v.lasers[i].id.volley <= gun.volleys < v.lasers[j].id.volley;
        }
      }
    }
  }
}

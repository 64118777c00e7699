/** Per-tick motion: particle ageing, falling power-ups, rising lasers and
    moving balls with their trails. `dt` is the elapsed time in normalised
    frames and `now` the wall clock in milliseconds. */
module Motion {
  import opened Constants
  import opened Entities
  import opened Seqs

  // ---- Particles ----

  predicate Alive(p: Particle, now: int) {
    now - p.createdAt <= ParticleLifespan
  }

  /** A surviving particle drifts by its velocity and fades linearly with age. */
  function Aged(p: Particle, now: int, dt: real): Particle {
    p.(position := p.position.Plus(p.velocity.Times(dt)),
       opacity := 1.0 - (now - p.createdAt) as real / ParticleLifespan as real)
  }

  /** Drops particles older than the lifespan and ages the others, in order. */
  function AgeParticles(ps: seq<Particle>, now: int, dt: real): (r: seq<Particle>)
    ensures |r| <= |ps|
    ensures forall q :: q in r ==>
              && Alive(q, now)
              && q.opacity == 1.0 - (now - q.createdAt) as real / ParticleLifespan as real
              && (q.createdAt <= now ==> 0.0 <= q.opacity <= 1.0)
    ensures forall p :: p in ps && Alive(p, now) ==> Aged(p, now, dt) in r
    ensures forall q :: q in r ==> exists p :: p in ps && Alive(p, now) && q == Aged(p, now, dt)
  {
    if |ps| == 0 then []
    else
      var rest := AgeParticles(ps[1..], now, dt);
      if Alive(ps[0], now) then [Aged(ps[0], now, dt)] + rest else rest
  }

  /** The ids of particles, in order. */
  function ParticleIds(ps: seq<Particle>): (r: seq<nat>)
    ensures |r| == |ps|
  {
    if |ps| == 0 then [] else [ps[0].id] + ParticleIds(ps[1..])
  }

  /** Ageing at `t1` and then at a later `t2` keeps exactly the particles
      that ageing once at `t2` keeps: an expired particle never comes back,
      and the drift of the earlier tick changes nothing about expiry. */
  lemma {:induction false} AgeingComposes(ps: seq<Particle>, t1: int, t2: int, dt1: real, dt2: real)
    requires t1 <= t2
    ensures ParticleIds(AgeParticles(AgeParticles(ps, t1, dt1), t2, dt2)) == ParticleIds(AgeParticles(ps, t2, dt2))
  {
    if |ps| > 0 {
      AgeingComposes(ps[1..], t1, t2, dt1, dt2);
      var rest1 := AgeParticles(ps[1..], t1, dt1);
      if Alive(ps[0], t1) {
        var once := [Aged(ps[0], t1, dt1)] + rest1;
        assert once[0] == Aged(ps[0], t1, dt1);
        assert once[1..] == rest1;
        var restBoth := AgeParticles(rest1, t2, dt2);
        var restOnce := AgeParticles(ps[1..], t2, dt2);
        if Alive(ps[0], t2) {
          var a := [Aged(Aged(ps[0], t1, dt1), t2, dt2)] + restBoth;
          var b := [Aged(ps[0], t2, dt2)] + restOnce;
          assert a[1..] == restBoth && b[1..] == restOnce;
        }
      }
    }
  }

  // ---- Power-ups ----

  function Fall(p: PowerUp, dt: real): PowerUp {
    p.(position := p.position.(y := p.position.y + PowerUpFallSpeed * dt))
  }

  /** Every power-up moved down, none removed yet. */
  function FallAll(ps: seq<PowerUp>, dt: real): (r: seq<PowerUp>)
    ensures |r| == |ps| && forall i :: 0 <= i < |ps| ==> r[i] == Fall(ps[i], dt)
  {
    seq(|ps|, i requires 0 <= i < |ps| => Fall(ps[i], dt))
  }

  predicate AboveBottom(p: PowerUp) {
    p.position.y < GameHeight
  }

  /** Power-ups fall and those that reach the bottom of the board are dropped. */
  function DropPowerUps(ps: seq<PowerUp>, dt: real): (r: seq<PowerUp>)
    ensures |r| <= |ps|
    ensures forall q :: q in r ==> q.position.y < GameHeight
    ensures forall p :: p in ps && p.position.y + PowerUpFallSpeed * dt < GameHeight ==> Fall(p, dt) in r
    ensures forall q :: q in r ==> exists i :: 0 <= i < |ps| && q == Fall(ps[i], dt)
  {
    var moved := FallAll(ps, dt);
    var r := Filter(moved, AboveBottom);
    assert forall p :: p in ps ==> Fall(p, dt) in moved;
    r
  }

  // ---- Lasers ----

  function Rise(l: Laser, dt: real): Laser {
    l.(position := l.position.(y := l.position.y - LaserSpeed * dt))
  }

  /** Every laser moved up, none removed yet. */
  function RiseAll(ls: seq<Laser>, dt: real): (r: seq<Laser>)
    ensures |r| == |ls| && forall i :: 0 <= i < |ls| ==> r[i] == Rise(ls[i], dt)
  {
    seq(|ls|, i requires 0 <= i < |ls| => Rise(ls[i], dt))
  }

  predicate BelowTop(l: Laser) {
    l.position.y > 0.0
  }

  /** Lasers rise and those that reach the top of the board are dropped. */
  function AdvanceLasers(ls: seq<Laser>, dt: real): (r: seq<Laser>)
    ensures |r| <= |ls|
    ensures forall l :: l in r ==> l.position.y > 0.0
    ensures forall l :: l in ls && l.position.y - LaserSpeed * dt > 0.0 ==> Rise(l, dt) in r
    ensures forall l :: l in r ==> exists i :: 0 <= i < |ls| && l == Rise(ls[i], dt)
  {
    var moved := RiseAll(ls, dt);
    var r := Filter(moved, BelowTop);
    assert forall l :: l in ls ==> Rise(l, dt) in moved;
    r
  }

  // ---- Balls ----

  /** The last (at most) TrailLength elements of `s`. */
  function LastFive<T>(s: seq<T>): (r: seq<T>)
    ensures |r| == if |s| <= TrailLength then |s| else TrailLength
    ensures r == s[|s| - |r|..]
  {
    if |s| <= TrailLength then s else s[|s| - TrailLength..]
  }

  /** Records `pos` as the newest trail entry, keeping at most TrailLength. */
  function PushTrail(trail: seq<Vec>, pos: Vec): (r: seq<Vec>)
    ensures |r| == if |trail| < TrailLength then |trail| + 1 else TrailLength
    ensures r == trail[|trail| - (|r| - 1)..] + [pos]
  {
    LastFive(trail + [pos])
  }

  /** Records each position of `ps` in turn. */
  function PushAll(trail: seq<Vec>, ps: seq<Vec>): seq<Vec>
    decreases |ps|
  {
    if |ps| == 0 then trail else PushAll(PushTrail(trail, ps[0]), ps[1..])
  }

  lemma LastFiveOfSuffix<T>(s: seq<T>, k: nat)
    requires k <= |s| && (k == 0 || |s| - k >= TrailLength)
    ensures LastFive(s[k..]) == LastFive(s)
  {
    if k > 0 {
      assert s[k..][|s| - k - TrailLength..] == s[|s| - TrailLength..];
    }
  }

  lemma SliceOfConcat<T>(u: seq<T>, v: seq<T>, k: nat)
    requires k <= |u|
    ensures (u + v)[k..] == u[k..] + v
  {
  }

  /** Trimming the trail early does not change its last TrailLength entries. */
  lemma PushThenAppend(trail: seq<Vec>, p: Vec, rest: seq<Vec>)
    requires |trail| <= TrailLength
    ensures LastFive(PushTrail(trail, p) + rest) == LastFive(trail + [p] + rest)
  {
    var u := trail + [p];
    var t1 := PushTrail(trail, p);
    var k := |u| - |t1|;
    assert t1 == u[k..];
    SliceOfConcat(u, rest, k);
    LastFiveOfSuffix(u + rest, k);
  }

  /** However many ticks elapse, the trail holds exactly the most recent
      positions, at most TrailLength of them, oldest first. */
  lemma {:induction false} TrailHoldsLatestPositions(trail: seq<Vec>, ps: seq<Vec>)
    requires |trail| <= TrailLength
    ensures PushAll(trail, ps) == LastFive(trail + ps)
    decreases |ps|
  {
    if |ps| == 0 {
      assert trail + ps == trail;
    } else {
      var rest := ps[1..];
      var t1 := PushTrail(trail, ps[0]);
      calc {
        PushAll(trail, ps);
        PushAll(t1, rest);
        { TrailHoldsLatestPositions(t1, rest); }
        LastFive(t1 + rest);
        { PushThenAppend(trail, ps[0], rest); }
        LastFive(trail + [ps[0]] + rest);
        { assert trail + [ps[0]] + rest == trail + ps; }
        LastFive(trail + ps);
      }
    }
  }

  function SpeedMultiplier(powerBall: bool): real {
    if powerBall then PowerBallSpeedMultiplier else 1.0
  }

  /** One ball's move: its position before the move joins the trail and it
      advances by its velocity, sped up while the power-ball is active. */
  function MoveBall(b: Ball, powerBall: bool, dt: real): (r: Ball)
    ensures r.id == b.id && r.velocity == b.velocity && r.radius == b.radius
    ensures |r.trail| == if |b.trail| < TrailLength then |b.trail| + 1 else TrailLength
    ensures r.trail == b.trail[|b.trail| - (|r.trail| - 1)..] + [b.position]
    ensures r.position == b.position.Plus(b.velocity.Times(SpeedMultiplier(powerBall) * dt))
  {
    b.(trail := PushTrail(b.trail, b.position),
       position := b.position.Plus(b.velocity.Times(SpeedMultiplier(powerBall) * dt)))
  }

  /** Every ball moves by its own velocity, independently of the others. */
  function MoveBalls(balls: seq<Ball>, powerBall: bool, dt: real): (r: seq<Ball>)
    ensures |r| == |balls|
    ensures forall i :: 0 <= i < |balls| ==> r[i] == MoveBall(balls[i], powerBall, dt)
  {
    seq(|balls|, i requires 0 <= i < |balls| => MoveBall(balls[i], powerBall, dt))
  }
}

/** The collisions of one game tick: balls against the walls and the paddle,
    balls leaving through the bottom, and lasers and balls against bricks.
    Bricks hit during a tick are collected in one set of ids, so no brick is
    hit twice in a tick. */
module Collisions {
  import opened Constants
  import opened Wrappers
  import opened Entities
  import opened Seqs
  import opened PaddleRules
  import opened Motion

  // ---- Walls ----

  predicate HitsSideWall(b: Ball) {
    b.position.x - b.radius <= 0.0 || b.position.x + b.radius >= GameWidth
  }

  predicate HitsTopWall(b: Ball) {
    b.position.y - b.radius <= 0.0
  }

  /** A ball touching a side wall has its horizontal speed reversed and is
      pushed back inside; one touching the top has its vertical speed
      reversed and is put just below it. */
  function WallBounce(b: Ball): (r: Ball)
    ensures r.id == b.id && r.radius == b.radius && r.trail == b.trail
    ensures Abs(r.velocity.x) == Abs(b.velocity.x) && Abs(r.velocity.y) == Abs(b.velocity.y)
    ensures SpeedSquared(r.velocity) == SpeedSquared(b.velocity)
    ensures HitsSideWall(b) && b.radius <= GameWidth - b.radius ==>
              b.radius <= r.position.x <= GameWidth - b.radius
    ensures HitsSideWall(b) ==> r.velocity.x == -b.velocity.x
    ensures HitsTopWall(b) ==> r.position.y == b.radius && r.velocity.y == -b.velocity.y
    ensures !HitsSideWall(b) ==> r.position.x == b.position.x && r.velocity.x == b.velocity.x
    ensures !HitsTopWall(b) ==> r.position.y == b.position.y && r.velocity.y == b.velocity.y
    ensures !HitsSideWall(b) && !HitsTopWall(b) ==> r == b
  {
    var side := HitsSideWall(b);
    var top := HitsTopWall(b);
    var x := if side then Max(b.radius, Min(GameWidth - b.radius, b.position.x)) else b.position.x;
    var vx := if side then -b.velocity.x else b.velocity.x;
    var y := if top then b.radius else b.position.y;
    var vy := if top then -b.velocity.y else b.velocity.y;
    b.(position := Vec(x, y), velocity := Vec(vx, vy))
  }

  /** A ball moving into a wall it touches is sent back into the board. */
  lemma WallBounceTurnsInward(b: Ball)
    ensures (b.position.x - b.radius <= 0.0 && b.position.x + b.radius < GameWidth && b.velocity.x < 0.0)
              ==> WallBounce(b).velocity.x > 0.0
    ensures (b.position.x + b.radius >= GameWidth && b.position.x - b.radius > 0.0 && b.velocity.x > 0.0)
              ==> WallBounce(b).velocity.x < 0.0
    ensures HitsTopWall(b) && b.velocity.y < 0.0 ==> WallBounce(b).velocity.y > 0.0
  {
  }

  // ---- Paddle ----

  /** A falling ball whose box touches the paddle's, edges included. A
      rising ball is never reflected. */
  predicate MeetsPaddle(b: Ball, p: Paddle) {
    && b.velocity.y > 0.0
    && b.position.y + b.radius >= p.position.y
    && b.position.y - b.radius <= p.position.y + p.height
    && b.position.x + b.radius >= p.position.x
    && b.position.x - b.radius <= p.position.x + p.width
  }

  /** Where the ball meets the paddle: -1 at its left end, 0 at its centre,
      1 at its right end. */
  function HitPosition(b: Ball, p: Paddle): real
    requires p.width > 0.0
  {
    (b.position.x - (p.position.x + p.width / 2.0)) / (p.width / 2.0)
  }

  /** The ball's centre may lie beyond the paddle's ends by at most its
      radius, so the hit position stays within one radius (in half-widths)
      of the ends. */
  lemma HitPositionBounded(b: Ball, p: Paddle)
    requires MeetsPaddle(b, p) && p.width > 0.0
    ensures -1.0 - b.radius / (p.width / 2.0) <= HitPosition(b, p) <= 1.0 + b.radius / (p.width / 2.0)
  {
    var h := p.width / 2.0;
    var d := b.position.x - (p.position.x + h);
    assert -h - b.radius <= d <= h + b.radius;
    assert HitPosition(b, p) == d / h;
    ShiftedQuotient(b.radius, h);
    DivMonotone(-h - b.radius, d, h);
    DivMonotone(d, h + b.radius, h);
  }

  lemma ShiftedQuotient(r: real, h: real)
    requires h > 0.0
    ensures (h + r) / h == 1.0 + r / h && (-h - r) / h == -1.0 - r / h
  {
    var q := r / h;
    assert q * h == r by { QuotientTimes(r, h); }
    QuotientUnique(h + r, 1.0 + q, h);
    QuotientUnique(-h - r, -1.0 - q, h);
  }

  lemma QuotientTimes(x: real, h: real)
    requires h != 0.0
    ensures (x / h) * h == x
  {
  }

  lemma QuotientUnique(x: real, y: real, h: real)
    requires h != 0.0 && y * h == x
    ensures x / h == y
  {
    QuotientTimes(x, h);
    assert (x / h - y) * h == 0.0;
  }

  lemma DivMonotone(a: real, b: real, h: real)
    requires a <= b && h > 0.0
    ensures a / h <= b / h
  {
    assert b / h - a / h == (b - a) / h;
  }

  /** A vertical speed below a fifth of the ball's speed is replaced by one
      between 0.15 and 0.25 times the speed, in the same direction (upward
      when it was zero); `rand` is the random draw in [0, 1). */
  function Unflatten(vy: real, speed: real, rand: real): (r: real)
    ensures Abs(vy) >= 0.2 * speed ==> r == vy
    ensures Abs(vy) < 0.2 * speed && 0.0 <= rand < 1.0 ==> (r > 0.0 <==> vy > 0.0)
    ensures Abs(vy) < 0.2 * speed && 0.0 <= rand < 1.0 ==> 0.15 * speed <= Abs(r)
    ensures Abs(vy) < 0.2 * speed && 0.0 <= rand < 1.0 ==> Abs(r) < 0.25 * speed
    ensures speed >= 0.0 && 0.0 <= rand < 1.0 ==> Abs(r) >= 0.15 * speed
  {
    var magnitude := LiftedSpeed(speed, rand);
    if Abs(vy) < 0.2 * speed then
      (if vy > 0.0 then magnitude else -magnitude)
    else vy
  }

  /** The replacement vertical speed's size: a fifth of the speed, scaled
      by a random factor in [0.75, 1.25). */
  function LiftedSpeed(speed: real, rand: real): (m: real)
    ensures speed > 0.0 && 0.0 <= rand < 1.0 ==> 0.0 < 0.15 * speed <= m < 0.25 * speed
  {
    var f := rand * 0.5 + 0.75;
    assert speed > 0.0 && 0.0 <= rand < 1.0 ==> speed * 0.75 <= speed * f < speed * 1.25;
    0.2 * speed * f
  }

  /** The reflection off the paddle. The ball is put on the paddle's top and
      sent off at the angle `HitPosition * π / 2.5`; `speed` is the ball's
      speed and `sin`, `cos` are the sine and cosine of that angle, which the
      caller computes. */
  function PaddleBounce(b: Ball, p: Paddle, speed: real, sin: real, cos: real, rand: real): (r: Ball)
    ensures r.id == b.id && r.radius == b.radius && r.trail == b.trail
    ensures r.position.x == b.position.x && r.position.y + r.radius == p.position.y
    ensures r.velocity.x == speed * sin
    ensures speed > 0.0 && cos > 0.0 && 0.0 <= rand < 1.0 ==>
              r.velocity.y < 0.0 && Abs(r.velocity.y) >= 0.15 * speed
  {
    var vy := -(speed * cos);
    assert speed > 0.0 && cos > 0.0 ==> speed * cos > 0.0;
    b.(position := Vec(b.position.x, p.position.y - b.radius),
       velocity := Vec(speed * sin, Unflatten(vy, speed, rand)))
  }

  /** The paddle step of the tick: only a ball that meets the paddle is
      reflected. */
  function PaddleStep(b: Ball, p: Paddle, speed: real, sin: real, cos: real, rand: real): (r: Ball)
    ensures b.velocity.y <= 0.0 ==> r == b
    ensures !MeetsPaddle(b, p) ==> r == b
    ensures MeetsPaddle(b, p) ==> r == PaddleBounce(b, p, speed, sin, cos, rand)
  {
    if MeetsPaddle(b, p) then PaddleBounce(b, p, speed, sin, cos, rand) else b
  }

  /** A reflected ball leaves the paddle upward, so the next tick does not
      reflect it again. */
  lemma ReflectedBallRises(b: Ball, p: Paddle, speed: real, sin: real, cos: real, rand: real)
    requires MeetsPaddle(b, p) && speed > 0.0 && cos > 0.0 && 0.0 <= rand < 1.0
    ensures !MeetsPaddle(PaddleStep(b, p, speed, sin, cos, rand), p)
    ensures PaddleStep(b, p, speed, sin, cos, rand).velocity.y < 0.0
  {
  }

  // ---- Bottom ----

  predicate OnBoard(b: Ball) {
    b.position.y - b.radius < GameHeight
  }

  datatype Survivors = Survivors(balls: seq<Ball>, lifeLost: bool)

  /** Drops the balls that fell through the bottom; a life is lost when the
      last of the balls in play falls. */
  function RemoveLost(balls: seq<Ball>): (r: Survivors)
    ensures |r.balls| <= |balls|
    ensures forall b :: b in r.balls <==> b in balls && OnBoard(b)
    ensures r.lifeLost <==> |balls| > 0 && forall i :: 0 <= i < |balls| ==> !OnBoard(balls[i])
  {
    var kept := Filter(balls, OnBoard);
    assert |kept| > 0 ==> kept[0] in kept;
    Survivors(kept, |kept| == 0 && |balls| > 0)
  }

  /** No life is lost while some ball is in play, nor when there was no ball. */
  lemma LifeLostOnlyWithLastBall(balls: seq<Ball>, i: nat)
    requires i < |balls| && OnBoard(balls[i])
    ensures !RemoveLost(balls).lifeLost && balls[i] in RemoveLost(balls).balls
    ensures !RemoveLost([]).lifeLost
  {
  }

  // ---- Bricks ----

  /** A brick that can still be hit this tick. */
  predicate Open(k: Brick, hit: set<BrickId>) {
    !k.destroyed && k.id !in hit
  }

  /** The ids of the bricks that can still be hit. */
  function OpenIds(bricks: seq<Brick>, hit: set<BrickId>): set<BrickId> {
    set j | 0 <= j < |bricks| && Open(bricks[j], hit) :: bricks[j].id
  }

  /** A laser point inside the brick, edges included. */
  predicate LaserInside(at: Vec, k: Brick) {
    && k.position.x <= at.x <= k.position.x + k.width
    && k.position.y <= at.y <= k.position.y + k.height
  }

  /** The first brick, from index `i` on, that the laser at `at` hits. */
  function LaserTarget(bricks: seq<Brick>, hit: set<BrickId>, at: Vec, i: nat): (r: Option<nat>)
    requires i <= |bricks|
    ensures r.Some? ==> i <= r.value < |bricks| && Open(bricks[r.value], hit) && LaserInside(at, bricks[r.value])
    ensures r.Some? ==> forall j :: i <= j < r.value ==> !(Open(bricks[j], hit) && LaserInside(at, bricks[j]))
    ensures r.None? <==> forall j :: i <= j < |bricks| ==> !(Open(bricks[j], hit) && LaserInside(at, bricks[j]))
    decreases |bricks| - i
  {
    if i == |bricks| then None
    else if Open(bricks[i], hit) && LaserInside(at, bricks[i]) then Some(i)
    else LaserTarget(bricks, hit, at, i + 1)
  }

  datatype LaserResult = LaserResult(remaining: seq<Laser>, hit: set<BrickId>)

  /** Every laser, first to last, destroys itself on the first brick it is
      inside that is still standing and not yet hit this tick; the others
      fly on. */
  function LaserHits(lasers: seq<Laser>, bricks: seq<Brick>, hit: set<BrickId>): (r: LaserResult)
    ensures hit <= r.hit && r.hit - hit <= OpenIds(bricks, hit)
    ensures |r.hit| == |hit| + |lasers| - |r.remaining|
    ensures multiset(r.remaining) <= multiset(lasers)
    ensures forall l :: l in r.remaining ==> l in lasers
    ensures forall l, j :: l in r.remaining && 0 <= j < |bricks| && LaserInside(l.position, bricks[j])
              ==> !Open(bricks[j], r.hit)
    decreases |lasers|
  {
    if |lasers| == 0 then LaserResult([], hit)
    else
      assert lasers == [lasers[0]] + lasers[1..];
      match LaserTarget(bricks, hit, lasers[0].position, 0)
      case Some(j) =>
        var rest := LaserHits(lasers[1..], bricks, hit + {bricks[j].id});
        assert OpenIds(bricks, hit + {bricks[j].id}) <= OpenIds(bricks, hit);
        LaserResult(rest.remaining, rest.hit)
      case None =>
        var rest := LaserHits(lasers[1..], bricks, hit);
        LaserResult([lasers[0]] + rest.remaining, rest.hit)
  }

  /** Every brick the lasers hit is a brick that was open and that a laser
      they consumed is inside; `i` and `j` name that laser and that brick. */
  lemma {:induction false} LaserHitsSound(lasers: seq<Laser>, bricks: seq<Brick>, hit: set<BrickId>, id: BrickId)
    returns (i: nat, j: nat)
    requires id in LaserHits(lasers, bricks, hit).hit - hit
    ensures i < |lasers| && j < |bricks| && Open(bricks[j], hit)
    ensures LaserInside(lasers[i].position, bricks[j]) && bricks[j].id == id
    ensures multiset(LaserHits(lasers, bricks, hit).remaining)[lasers[i]] < multiset(lasers)[lasers[i]]
    decreases |lasers|
  {
    var tail := lasers[1..];
    match LaserTarget(bricks, hit, lasers[0].position, 0)
    case Some(j0) =>
      var hit' := hit + {bricks[j0].id};
      LaserHitsWhenSome(lasers, bricks, hit, j0);
      var rest := LaserHits(tail, bricks, hit').remaining;
      if id == bricks[j0].id {
        i, j := 0, j0;
        FewerAfterDrop(lasers, rest);
      } else {
        var i', j' := LaserHitsSound(tail, bricks, hit', id);
        i, j := i' + 1, j';
        FewerCarries(lasers, rest, rest, i');
      }
    case None =>
      LaserHitsWhenNone(lasers, bricks, hit);
      var rest := LaserHits(tail, bricks, hit).remaining;
      var i', j' := LaserHitsSound(tail, bricks, hit, id);
      i, j := i' + 1, j';
      FewerCarries(lasers, rest, [lasers[0]] + rest, i');
  }

  /** Survivors drawn from the tail hold fewer copies of the head. */
  lemma FewerAfterDrop(lasers: seq<Laser>, rest: seq<Laser>)
    requires |lasers| > 0 && multiset(rest) <= multiset(lasers[1..])
    ensures multiset(rest)[lasers[0]] < multiset(lasers)[lasers[0]]
  {
    assert lasers == [lasers[0]] + lasers[1..];
    CountOfCons(lasers[0], lasers[1..], lasers[0]);
  }

  /** A laser of the tail that lost a copy among the tail's survivors has
      lost one among the whole list's, with or without the head kept. */
  lemma FewerCarries(lasers: seq<Laser>, rest: seq<Laser>, kept: seq<Laser>, k: nat)
    requires |lasers| > 0 && k < |lasers| - 1
    requires kept == rest || kept == [lasers[0]] + rest
    requires multiset(rest)[lasers[1..][k]] < multiset(lasers[1..])[lasers[1..][k]]
    ensures lasers[1..][k] == lasers[k + 1]
    ensures multiset(kept)[lasers[k + 1]] < multiset(lasers)[lasers[k + 1]]
  {
    var x := lasers[k + 1];
    assert lasers == [lasers[0]] + lasers[1..];
    CountOfCons(lasers[0], lasers[1..], x);
    CountOfCons(lasers[0], rest, x);
  }

  /** How often `x` occurs in a sequence with `a` put in front. */
  lemma CountOfCons<T>(a: T, s: seq<T>, x: T)
    ensures multiset([a] + s)[x] == multiset(s)[x] + (if x == a then 1 else 0)
  {
  }

  lemma LaserHitsWhenSome(lasers: seq<Laser>, bricks: seq<Brick>, hit: set<BrickId>, j0: nat)
    requires |lasers| > 0 && LaserTarget(bricks, hit, lasers[0].position, 0) == Some(j0)
    ensures j0 < |bricks|
    ensures LaserHits(lasers, bricks, hit) == LaserHits(lasers[1..], bricks, hit + {bricks[j0].id})
  {
  }

  lemma LaserHitsWhenNone(lasers: seq<Laser>, bricks: seq<Brick>, hit: set<BrickId>)
    requires |lasers| > 0 && LaserTarget(bricks, hit, lasers[0].position, 0).None?
    ensures LaserHits(lasers, bricks, hit).remaining == [lasers[0]] + LaserHits(lasers[1..], bricks, hit).remaining
    ensures LaserHits(lasers, bricks, hit).hit == LaserHits(lasers[1..], bricks, hit).hit
  {
  }

  /** A laser inside no open brick is never consumed: it flies on. */
  lemma {:induction false} LaserHitsKeepsMisses(lasers: seq<Laser>, bricks: seq<Brick>, hit: set<BrickId>, i: nat)
    requires i < |lasers|
    requires forall j :: 0 <= j < |bricks| ==> !(Open(bricks[j], hit) && LaserInside(lasers[i].position, bricks[j]))
    ensures lasers[i] in LaserHits(lasers, bricks, hit).remaining
    decreases |lasers|
  {
    var r := LaserHits(lasers, bricks, hit);
    match LaserTarget(bricks, hit, lasers[0].position, 0)
    case Some(j0) =>
      var hit' := hit + {bricks[j0].id};
      assert i > 0;
      assert lasers[1..][i - 1] == lasers[i];
      LaserHitsKeepsMisses(lasers[1..], bricks, hit', i - 1);
    case None =>
      var rest := LaserHits(lasers[1..], bricks, hit);
      assert r.remaining == [lasers[0]] + rest.remaining;
      if i > 0 {
        assert lasers[1..][i - 1] == lasers[i];
        LaserHitsKeepsMisses(lasers[1..], bricks, hit, i - 1);
      }
  }

  /** Lasers above the top of the board hit no brick below it, so dropping
      them before the brick pass or after it comes to the same. */
  lemma {:induction false} LasersAboveTopHitNothing(ls: seq<Laser>, bricks: seq<Brick>, hit: set<BrickId>)
    requires forall j :: 0 <= j < |bricks| ==> bricks[j].position.y > 0.0
    ensures LaserHits(Filter(ls, BelowTop), bricks, hit)
            == LaserResult(Filter(LaserHits(ls, bricks, hit).remaining, BelowTop), LaserHits(ls, bricks, hit).hit)
    decreases |ls|
  {
    if |ls| > 0 {
      var l := ls[0];
      var tail := ls[1..];
      assert ls == [l] + tail;
      FilterCons(l, tail, BelowTop);
      match LaserTarget(bricks, hit, l.position, 0)
      case Some(j0) =>
        assert BelowTop(l);
        var hit' := hit + {bricks[j0].id};
        LasersAboveTopHitNothing(tail, bricks, hit');
        LaserHitsWhenSome(ls, bricks, hit, j0);
        LaserHitsWhenSome(Filter(ls, BelowTop), bricks, hit, j0);
      case None =>
        LasersAboveTopHitNothing(tail, bricks, hit);
        LaserHitsWhenNone(ls, bricks, hit);
        FilterCons(l, LaserHits(tail, bricks, hit).remaining, BelowTop);
        if BelowTop(l) {
          LaserHitsWhenNone(Filter(ls, BelowTop), bricks, hit);
        }
    }
  }

  /** The lasers carried to the next tick, as written: the brick pass runs
      over the lasers from before the tick's top-of-board filter, all of
      them risen, and when any of them hits, its survivors replace the
      filtered list, bringing back the lasers that left the top. */
  function LasersAfterTickAsWritten(before: seq<Laser>, dt: real, bricks: seq<Brick>): (r: seq<Laser>)
    ensures forall l :: l in r ==> l in RiseAll(before, dt)
    ensures LaserHits(RiseAll(before, dt), bricks, {}).hit == {} ==> r == AdvanceLasers(before, dt)
  {
    var moved := RiseAll(before, dt);
    var res := LaserHits(moved, bricks, {});
    if |res.remaining| != |moved| then res.remaining else AdvanceLasers(before, dt)
  }

  /** The lasers carried to the next tick: those below the top after the
      rise that hit no brick. */
  function LasersAfterTick(before: seq<Laser>, dt: real, bricks: seq<Brick>): (r: seq<Laser>)
    ensures forall l :: l in r ==> l.position.y > 0.0 && l in RiseAll(before, dt)
  {
    LaserHits(AdvanceLasers(before, dt), bricks, {}).remaining
  }

  /** Both versions hit the same bricks, and they carry the same lasers
      except the ones above the top that the written version brings back. */
  lemma LaserHandOffAgreesBelowTop(before: seq<Laser>, dt: real, bricks: seq<Brick>)
    requires forall j :: 0 <= j < |bricks| ==> bricks[j].position.y > 0.0
    ensures LaserHits(RiseAll(before, dt), bricks, {}).hit == LaserHits(AdvanceLasers(before, dt), bricks, {}).hit
    ensures Filter(LasersAfterTickAsWritten(before, dt, bricks), BelowTop) == LasersAfterTick(before, dt, bricks)
  {
    var moved := RiseAll(before, dt);
    LasersAboveTopHitNothing(moved, bricks, {});
    var res := LaserHits(moved, bricks, {});
    if |res.remaining| == |moved| {
      assert res.hit == {};
      FilterIdempotent(moved, BelowTop);
    }
  }

  /** A laser that rises past the top in the tick another laser hits a
      brick stays in the written list. */
  lemma LaserReturnsFromAboveTop()
    ensures var brick := Brick(BrickId(0, 0, 0), Vec(0.0, 100.0), BrickWidth, BrickHeight, Standard, 1, false);
            var gone := Laser(LaserId(1, 1), Vec(400.0, 5.0));
            var hitter := Laser(LaserId(1, 2), Vec(10.0, 120.0));
            var carried := LasersAfterTickAsWritten([gone, hitter], 1.0, [brick]);
            && carried == [Laser(LaserId(1, 1), Vec(400.0, -5.0))]
            && LasersAfterTick([gone, hitter], 1.0, [brick]) == []
  {
    var brick := Brick(BrickId(0, 0, 0), Vec(0.0, 100.0), BrickWidth, BrickHeight, Standard, 1, false);
    var gone := Laser(LaserId(1, 1), Vec(400.0, 5.0));
    var hitter := Laser(LaserId(1, 2), Vec(10.0, 120.0));
    var moved := RiseAll([gone, hitter], 1.0);
    assert moved == [Laser(LaserId(1, 1), Vec(400.0, -5.0)), Laser(LaserId(1, 2), Vec(10.0, 110.0))];
    assert LaserTarget([brick], {}, moved[0].position, 1) == None;
    assert LaserTarget([brick], {}, moved[0].position, 0) == None;
    assert LaserTarget([brick], {}, moved[1].position, 0) == Some(0);
    LaserHitsWhenNone(moved, [brick], {});
    assert moved[1..] == [moved[1]];
    LaserHitsWhenSome(moved[1..], [brick], {}, 0);
    assert moved[1..][1..] == [];
  }

  /** The ball's box overlaps the brick, edges excluded. */
  predicate BallOverlaps(b: Ball, k: Brick) {
    && b.position.x + b.radius > k.position.x
    && b.position.x - b.radius < k.position.x + k.width
    && b.position.y + b.radius > k.position.y
    && b.position.y - b.radius < k.position.y + k.height
  }

  /** Which speeds a brick hit reverses. */
  datatype Approach = Approach(vertical: bool, horizontal: bool)

  /** Judges the side the ball came in through from where it was one radius
      back along its velocity; `speed` is the length of the velocity. A ball
      with no speed reverses nothing: the source divides zero by zero there,
      and every comparison with the result is false. */
  function ApproachOf(b: Ball, k: Brick, speed: real): Approach {
    if speed == 0.0 then Approach(false, false)
    else
      var px := b.position.x - (b.velocity.x / speed) * b.radius;
      var py := b.position.y - (b.velocity.y / speed) * b.radius;
      Approach(py + b.radius <= k.position.y || py - b.radius >= k.position.y + k.height,
               px + b.radius <= k.position.x || px - b.radius >= k.position.x + k.width)
  }

  function Deflect(b: Ball, a: Approach): (r: Ball)
    ensures r.id == b.id && r.position == b.position && r.radius == b.radius && r.trail == b.trail
    ensures Abs(r.velocity.x) == Abs(b.velocity.x) && Abs(r.velocity.y) == Abs(b.velocity.y)
  {
    b.(velocity := Vec(if a.horizontal then -b.velocity.x else b.velocity.x,
                       if a.vertical then -b.velocity.y else b.velocity.y))
  }

  /** Two balls that differ at most in the signs of their speeds. */
  predicate SameButSigns(a: Ball, b: Ball) {
    && a.id == b.id && a.position == b.position && a.radius == b.radius && a.trail == b.trail
    && Abs(a.velocity.x) == Abs(b.velocity.x) && Abs(a.velocity.y) == Abs(b.velocity.y)
  }

  /** One ball against every brick, first to last, from index `i` on: each
      brick it overlaps that is still open is hit and, unless the power-ball
      is active, reverses the ball's speeds by the side the ball came in
      through. `norm` gives a velocity's length. */
  function BallAgainstBricks(b: Ball, bricks: seq<Brick>, hit: set<BrickId>, powerBall: bool,
                             norm: Vec -> real, i: nat): (r: (Ball, set<BrickId>))
    requires i <= |bricks|
    ensures SameButSigns(r.0, b)
    ensures powerBall ==> r.0 == b
    ensures hit <= r.1
    ensures forall j :: i <= j < |bricks| && !bricks[j].destroyed && BallOverlaps(b, bricks[j]) ==> bricks[j].id in r.1
    decreases |bricks| - i
  {
    if i == |bricks| then (b, hit)
    else if Open(bricks[i], hit) && BallOverlaps(b, bricks[i]) then
      var b' := if powerBall then b else Deflect(b, ApproachOf(b, bricks[i], norm(b.velocity)));
      BallAgainstBricks(b', bricks, hit + {bricks[i].id}, powerBall, norm, i + 1)
    else
      BallAgainstBricks(b, bricks, hit, powerBall, norm, i + 1)
  }

  /** A ball whose every overlapping brick is gone or already hit this tick
      keeps its velocity: a brick deflects one ball at most per tick. */
  lemma HitBricksDeflectNoOne(b: Ball, bricks: seq<Brick>, hit: set<BrickId>, powerBall: bool, norm: Vec -> real, i: nat)
    requires i <= |bricks|
    requires forall j :: i <= j < |bricks| ==> !(Open(bricks[j], hit) && BallOverlaps(b, bricks[j]))
    ensures BallAgainstBricks(b, bricks, hit, powerBall, norm, i) == (b, hit)
    decreases |bricks| - i
  {
    if i < |bricks| {
      HitBricksDeflectNoOne(b, bricks, hit, powerBall, norm, i + 1);
    }
  }

  datatype BallResult = BallResult(balls: seq<Ball>, hit: set<BrickId>)

  /** Every ball, first to last, against every brick. */
  function BallHits(balls: seq<Ball>, bricks: seq<Brick>, hit: set<BrickId>, powerBall: bool,
                    norm: Vec -> real): (r: BallResult)
    ensures |r.balls| == |balls| && forall i :: 0 <= i < |balls| ==> SameButSigns(r.balls[i], balls[i])
    ensures powerBall ==> r.balls == balls
    ensures hit <= r.hit
    ensures forall i, j :: (0 <= i < |balls| && 0 <= j < |bricks| && !bricks[j].destroyed
              && BallOverlaps(balls[i], bricks[j])) ==> bricks[j].id in r.hit
    decreases |balls|
  {
    if |balls| == 0 then BallResult([], hit)
    else
      var (b, hit1) := BallAgainstBricks(balls[0], bricks, hit, powerBall, norm, 0);
      var rest := BallHits(balls[1..], bricks, hit1, powerBall, norm);
      assert forall i :: 0 < i < |balls| ==> balls[i] == balls[1..][i - 1];
      BallResult([b] + rest.balls, rest.hit)
  }

  /** The bricks a ball hits are open bricks it overlaps. */
  lemma {:induction false} BallAgainstBricksSound(b: Ball, bricks: seq<Brick>, hit: set<BrickId>, powerBall: bool,
                                                  norm: Vec -> real, i: nat, id: BrickId)
    requires i <= |bricks|
    requires id in BallAgainstBricks(b, bricks, hit, powerBall, norm, i).1 - hit
    ensures exists j :: i <= j < |bricks| && Open(bricks[j], hit) && BallOverlaps(b, bricks[j]) && bricks[j].id == id
    decreases |bricks| - i
  {
    if Open(bricks[i], hit) && BallOverlaps(b, bricks[i]) {
      if id != bricks[i].id {
        var b' := if powerBall then b else Deflect(b, ApproachOf(b, bricks[i], norm(b.velocity)));
        BallAgainstBricksSound(b', bricks, hit + {bricks[i].id}, powerBall, norm, i + 1, id);
        var j :| i + 1 <= j < |bricks| && Open(bricks[j], hit + {bricks[i].id}) && BallOverlaps(b', bricks[j]) && bricks[j].id == id;
        assert BallOverlaps(b, bricks[j]);
      }
    } else {
      BallAgainstBricksSound(b, bricks, hit, powerBall, norm, i + 1, id);
    }
  }

  /** Every brick the balls hit is a standing brick that one of them
      overlaps. */
  lemma {:induction false} BallHitsSound(balls: seq<Ball>, bricks: seq<Brick>, hit: set<BrickId>, powerBall: bool,
                                         norm: Vec -> real, id: BrickId)
    requires id in BallHits(balls, bricks, hit, powerBall, norm).hit - hit
    ensures exists i, j :: 0 <= i < |balls| && 0 <= j < |bricks| && !bricks[j].destroyed
                           && BallOverlaps(balls[i], bricks[j]) && bricks[j].id == id
    decreases |balls|
  {
    var (b, hit1) := BallAgainstBricks(balls[0], bricks, hit, powerBall, norm, 0);
    if id in hit1 {
      BallAgainstBricksSound(balls[0], bricks, hit, powerBall, norm, 0, id);
      var j :| 0 <= j < |bricks| && Open(bricks[j], hit) && BallOverlaps(balls[0], bricks[j]) && bricks[j].id == id;
    } else {
      BallHitsSound(balls[1..], bricks, hit1, powerBall, norm, id);
      var i, j :| 0 <= i < |balls[1..]| && 0 <= j < |bricks| && !bricks[j].destroyed
                  && BallOverlaps(balls[1..][i], bricks[j]) && bricks[j].id == id;
      assert balls[1..][i] == balls[i + 1];
    }
  }
}

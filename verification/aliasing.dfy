/** The source keeps each ball's position in a mutable object that is shared
    by reference. This module models that sharing with an explicit heap of
    position objects, to show two consequences: every trail entry is the
    ball's live position, and balls spawned by `multi-ball` share their
    parent's position. The rest of the model uses value semantics, where a
    trail entry is the position before the move and every ball moves on its
    own. */
module Aliasing {
  import opened Constants
  import opened Entities
  import opened Motion
  import opened PowerUps

  /** A reference to a position object. */
  type Ref = nat

  /** The position objects, one per reference. */
  type Heap = Ref -> Vec

  /** A ball as the source holds it: position and trail entries are references. */
  datatype RefBall = RefBall(id: nat, pos: Ref, velocity: Vec, trail: seq<Ref>)

  /** The heap with the object at `q` overwritten. */
  function Store(h: Heap, q: Ref, v: Vec): (r: Heap)
    ensures r(q) == v
    ensures forall p :: p != q ==> r(p) == h(p)
  {
    (p: Ref) => if p == q then v else h(p)
  }

  /** The ball that is drawn: references read through the heap. */
  function Read(h: Heap, b: RefBall): (r: Ball)
    ensures r.id == b.id && r.position == h(b.pos) && r.velocity == b.velocity
    ensures |r.trail| == |b.trail| && forall i :: 0 <= i < |b.trail| ==> r.trail[i] == h(b.trail[i])
  {
    Ball(b.id, h(b.pos), b.velocity, BallRadius, seq(|b.trail|, i requires 0 <= i < |b.trail| => h(b.trail[i])))
  }

  /** The ball update as written: the trail gets a reference to the position
      object, which is then moved in place. */
  function MoveRefBall(h: Heap, b: RefBall, powerBall: bool, dt: real): (r: (Heap, RefBall))
    ensures r.1.pos == b.pos && r.1.id == b.id && r.1.velocity == b.velocity
    ensures r.0(b.pos) == h(b.pos).Plus(b.velocity.Times(SpeedMultiplier(powerBall) * dt))
    ensures forall p :: p != b.pos ==> r.0(p) == h(p)
    ensures r.1.trail == LastFive(b.trail + [b.pos])
  {
    var moved := h(b.pos).Plus(b.velocity.Times(SpeedMultiplier(powerBall) * dt));
    (Store(h, b.pos, moved), b.(trail := LastFive(b.trail + [b.pos])))
  }

  /** The newest trail entry is always the ball's position after the move,
      never the one before it. */
  lemma NewestTrailEntryIsLivePosition(h: Heap, b: RefBall, powerBall: bool, dt: real)
    ensures var (h', b') := MoveRefBall(h, b, powerBall, dt);
            var seen := Read(h', b');
            |seen.trail| > 0 && seen.trail[|seen.trail| - 1] == seen.position
  {
  }

  /** Whenever the ball actually moves, the trail drawn as written and the
      trail with value semantics disagree on the newest entry: the first
      shows where the ball is, the second where it was. */
  lemma TrailDiffersFromValueTrail(h: Heap, b: RefBall, powerBall: bool, dt: real)
    requires b.velocity.Times(SpeedMultiplier(powerBall) * dt) != Zero
    ensures var (h', b') := MoveRefBall(h, b, powerBall, dt);
            var asWritten := Read(h', b').trail;
            var intended := MoveBall(Read(h, b), powerBall, dt).trail;
            && |asWritten| == |intended| > 0
            && asWritten[|asWritten| - 1] != intended[|intended| - 1]
            && intended[|intended| - 1] == h(b.pos)
  {
  }

  /** Every trail entry refers to the ball's own position object. */
  predicate SelfTrail(b: RefBall) {
    forall i :: 0 <= i < |b.trail| ==> b.trail[i] == b.pos
  }

  /** A ball whose trail only ever recorded its own position object (every
      ball does, starting from the empty trail) keeps a trail whose entries
      all coincide with the ball, so the drawn trail is invisible. */
  lemma TrailCollapsesOntoBall(h: Heap, b: RefBall, powerBall: bool, dt: real)
    requires SelfTrail(b)
    ensures var (h', b') := MoveRefBall(h, b, powerBall, dt);
            var seen := Read(h', b');
            && SelfTrail(b')
            && forall i :: 0 <= i < |seen.trail| ==> seen.trail[i] == seen.position
  {
    var (h', b') := MoveRefBall(h, b, powerBall, dt);
    var t := b.trail + [b.pos];
    assert forall i :: 0 <= i < |t| ==> t[i] == b.pos;
  }

  /** `multi-ball` as written: the spawned balls copy the parent's position
      reference and trail. */
  function SplitRefBalls(balls: seq<RefBall>, nextId: nat, spread: nat -> real): (r: seq<RefBall>)
    ensures |r| == 3 * |balls| && r[..|balls|] == balls
    ensures forall k :: |balls| <= k < |r| ==> r[k].pos == balls[(k - |balls|) / 2].pos
    ensures forall k :: |balls| <= k < |r| ==> r[k].trail == balls[(k - |balls|) / 2].trail
  {
    var spawned := seq(2 * |balls|, k requires 0 <= k < 2 * |balls| =>
                         var parent := balls[k / 2];
                         parent.(id := nextId + k + 1, velocity := SpawnVelocity(parent.velocity, nextId + k + 1, spread)));
    balls + spawned
  }

  /** Every ball updated in turn against the shared heap. */
  function MoveRefBalls(h: Heap, balls: seq<RefBall>, powerBall: bool, dt: real): (r: (Heap, seq<RefBall>))
    ensures |r.1| == |balls|
    ensures forall i :: 0 <= i < |balls| ==> r.1[i].pos == balls[i].pos
    decreases |balls|
  {
    if |balls| == 0 then (h, [])
    else
      var (h1, b1) := MoveRefBall(h, balls[0], powerBall, dt);
      var (h2, rest) := MoveRefBalls(h1, balls[1..], powerBall, dt);
      (h2, [b1] + rest)
  }

  /** Balls spawned by `multi-ball` are drawn at their parent's position
      after any number of moves: they never separate. */
  lemma SpawnedBallsMoveAsOne(h: Heap, balls: seq<RefBall>, nextId: nat, spread: nat -> real, powerBall: bool, dt: real)
    ensures var split := SplitRefBalls(balls, nextId, spread);
            var (h', moved) := MoveRefBalls(h, split, powerBall, dt);
            forall k {:trigger moved[k]} :: |balls| <= k < |moved| ==>
              Read(h', moved[k]).position == Read(h', moved[(k - |balls|) / 2]).position
  {
    var split := SplitRefBalls(balls, nextId, spread);
    assert forall k {:trigger split[k]} :: |balls| <= k < |split| ==> split[(k - |balls|) / 2] == balls[(k - |balls|) / 2];
  }

  /** The sum of the balls' velocities. */
  function SumVelocities(balls: seq<RefBall>): Vec
    decreases |balls|
  {
    if |balls| == 0 then Zero else balls[0].velocity.Plus(SumVelocities(balls[1..]))
  }

  /** Balls that share one position object move it, between them, by the sum
      of their velocities. */
  lemma {:induction false} SharedPositionMovesBySum(h: Heap, balls: seq<RefBall>, q: Ref, powerBall: bool, dt: real)
    requires forall i :: 0 <= i < |balls| ==> balls[i].pos == q
    ensures MoveRefBalls(h, balls, powerBall, dt).0(q)
            == h(q).Plus(SumVelocities(balls).Times(SpeedMultiplier(powerBall) * dt))
    decreases |balls|
  {
    var k := SpeedMultiplier(powerBall) * dt;
    if |balls| == 0 {
      assert h(q).Plus(Zero.Times(k)) == h(q);
    } else {
      var h1 := MoveRefBall(h, balls[0], powerBall, dt).0;
      assert MoveRefBalls(h, balls, powerBall, dt).0 == MoveRefBalls(h1, balls[1..], powerBall, dt).0;
      SharedPositionMovesBySum(h1, balls[1..], q, powerBall, dt);
      assert h1(q) == h(q).Plus(balls[0].velocity.Times(k));
      Distributes(h(q), balls[0].velocity, SumVelocities(balls[1..]), k);
    }
  }

  lemma Distributes(a: Vec, u: Vec, w: Vec, k: real)
    ensures a.Plus(u.Times(k)).Plus(w.Times(k)) == a.Plus(u.Plus(w).Times(k))
  {
  }

  /** A ball at (400, 300) moving at (4, -4) collects `multi-ball`: all
      three balls keep the parent's position object, so after one move they
      are drawn at the one point (404, 288), moved by the sum of their three
      velocities. */
  lemma MultiBallAsWrittenExample(h: Heap, parent: RefBall)
    requires h(parent.pos) == Vec(400.0, 300.0) && parent.velocity == Vec(4.0, -4.0)
    ensures var split := SplitRefBalls([parent], 0, Spread);
            && |split| == 3
            && (forall k :: 0 <= k < 3 ==> split[k].pos == parent.pos)
            && MoveRefBalls(h, split, false, 1.0).0(parent.pos) == Vec(404.0, 288.0)
  {
    var split := SplitRefBalls([parent], 0, Spread);
    assert split[1].velocity == Vec(-1.0, -4.0);
    assert split[2].velocity == Vec(1.0, -4.0);
    SharedPositionMovesBySum(h, split, parent.pos, false, 1.0);
    assert SumVelocities(split[2..]) == Vec(1.0, -4.0);
    assert SumVelocities(split[1..]) == Vec(0.0, -8.0);
    assert SumVelocities(split) == Vec(4.0, -12.0);
  }

  /** A fixed draw of the random spread: the first child drifts left, the
      second right. */
  function Spread(id: nat): real {
    if id == 1 then 0.25 else 0.75
  }

  /** With value semantics the same scenario leaves three separate balls,
      each moved by its own velocity (every ball moves through `MoveBall`, as
      `MoveBalls` states), and the trail holds the position before the
      move. */
  lemma MultiBallExample(b: Ball)
    requires b.position == Vec(400.0, 300.0) && b.velocity == Vec(4.0, -4.0) && b.trail == []
    ensures var split := SplitBalls([b], 0, Spread);
            && split == [b, b.(id := 1, velocity := Vec(-1.0, -4.0)), b.(id := 2, velocity := Vec(1.0, -4.0))]
            && MoveBall(split[0], false, 1.0).position == Vec(404.0, 296.0)
            && MoveBall(split[1], false, 1.0).position == Vec(399.0, 296.0)
            && MoveBall(split[2], false, 1.0).position == Vec(401.0, 296.0)
            && forall k :: 0 <= k < 3 ==> MoveBall(split[k], false, 1.0).trail == [Vec(400.0, 300.0)]
  {
    var left := b.(id := 1, velocity := Vec(-1.0, -4.0));
    var right := b.(id := 2, velocity := Vec(1.0, -4.0));
    SplitOfOne(b, left, right);
    UnitMove(b);
    UnitMove(left);
    UnitMove(right);
  }

  /** A ball with an empty trail after one unit move at normal speed. */
  lemma UnitMove(b: Ball)
    requires b.trail == []
    ensures MoveBall(b, false, 1.0).position == b.position.Plus(b.velocity)
    ensures MoveBall(b, false, 1.0).trail == [b.position]
  {
    assert SpeedMultiplier(false) * 1.0 == 1.0;
    assert b.velocity.Times(1.0) == b.velocity;
  }

  /** The example's split: the parent, then a child drifting left and one
      drifting right. */
  lemma SplitOfOne(b: Ball, left: Ball, right: Ball)
    requires b.velocity == Vec(4.0, -4.0)
    requires left == b.(id := 1, velocity := Vec(-1.0, -4.0)) && right == b.(id := 2, velocity := Vec(1.0, -4.0))
    ensures SplitBalls([b], 0, Spread) == [b, left, right]
  {
    var r := SplitBalls([b], 0, Spread);
    assert r[1] == Spawn(b, 1, Spread);
    assert r[2] == Spawn(b, 2, Spread);
  }

  /** With value semantics, after `multi-ball` and a move every ball is
      where its own velocity took it, so children with a velocity other than
      their parent's are drawn apart from it. */
  lemma SpawnedBallsSeparate(balls: seq<Ball>, nextId: nat, spread: nat -> real, powerBall: bool, dt: real)
    ensures var split := SplitBalls(balls, nextId, spread);
            var moved := MoveBalls(split, powerBall, dt);
            forall k :: 0 <= k < |moved| ==>
              moved[k].position == split[k].position.Plus(split[k].velocity.Times(SpeedMultiplier(powerBall) * dt))
                && moved[k].trail[|moved[k].trail| - 1] == split[k].position
  {
  }
}

/** Power-up collection: the paddle overlap test, the four effects, the
    collection pass over all falling power-ups, and how the list of falling
    power-ups is carried from one tick to the next. */
module PowerUps {
  import opened Constants
  import opened Wrappers
  import opened Entities
  import opened Seqs
  import opened Reducer
  import opened Motion
  import opened PaddleRules

  /** Axis-aligned overlap of a power-up with the paddle, edges included. */
  predicate Overlaps(p: PowerUp, paddle: Paddle) {
    && p.position.y + p.height >= paddle.position.y
    && p.position.y <= paddle.position.y + paddle.height
    && p.position.x + p.width >= paddle.position.x
    && p.position.x <= paddle.position.x + paddle.width
  }

  /** The paddle width after `extend`: one increment wider, capped. */
  function ExtendWidth(width: real): (r: real)
    ensures r <= MaxPaddleWidth
    ensures width + ExtendIncrement <= MaxPaddleWidth ==> r == width + ExtendIncrement
    ensures width + ExtendIncrement > MaxPaddleWidth ==> r == MaxPaddleWidth
  {
    Min(width + ExtendIncrement, MaxPaddleWidth)
  }

  /** From the default width, three `extend`s reach the cap and a fourth
      changes nothing. */
  lemma ExtendReachesCap()
    ensures ExtendWidth(ExtendWidth(ExtendWidth(PaddleWidth))) == MaxPaddleWidth
    ensures ExtendWidth(MaxPaddleWidth) == MaxPaddleWidth
  {
  }

  /** A ball spawned by `multi-ball` from `b`: same position and trail, a
      random horizontal speed (`spread(id)` is the random draw in [0, 1)
      made for the ball with that id) and an upward vertical speed as large
      as `b`'s, or the initial speed when `b` has none. */
  function Spawn(b: Ball, id: nat, spread: nat -> real): Ball {
    b.(id := id, velocity := SpawnVelocity(b.velocity, id, spread))
  }

  function SpawnVelocity(parent: Vec, id: nat, spread: nat -> real): Vec {
    var vy := if parent.y != 0.0 then parent.y else InitialBallSpeed;
    Vec((spread(id) - 0.5) * InitialBallSpeed, -Abs(vy))
  }

  /** `multi-ball`: every ball spawns two more, numbered from `nextId + 1`. */
  function SplitBalls(balls: seq<Ball>, nextId: nat, spread: nat -> real): (r: seq<Ball>)
    ensures |r| == 3 * |balls|
    ensures r[..|balls|] == balls
    ensures forall k :: |balls| <= k < |r| ==>
              var parent := balls[(k - |balls|) / 2];
              && r[k].id == nextId + (k - |balls|) + 1
              && r[k].position == parent.position && r[k].trail == parent.trail
              && r[k].radius == parent.radius
              && r[k].velocity.y < 0.0
              && (parent.velocity.y != 0.0 ==> Abs(r[k].velocity.y) == Abs(parent.velocity.y))
              && (0.0 <= spread(r[k].id) < 1.0 ==> Abs(r[k].velocity.x) <= InitialBallSpeed / 2.0)
  {
    var spawned := seq(2 * |balls|, k requires 0 <= k < 2 * |balls| => Spawn(balls[k / 2], nextId + k + 1, spread));
    balls + spawned
  }

  /** Ball ids are unique and none exceeds the id counter. */
  predicate IdsBelow(balls: seq<Ball>, nextId: nat) {
    && (forall i :: 0 <= i < |balls| ==> balls[i].id <= nextId)
    && (forall i, j :: 0 <= i < j < |balls| ==> balls[i].id != balls[j].id)
  }

  /** Spawned balls get fresh ids, so ids stay unique. */
  lemma SplitKeepsIdsUnique(balls: seq<Ball>, nextId: nat, spread: nat -> real)
    ensures IdsBelow(balls, nextId) ==> IdsBelow(SplitBalls(balls, nextId, spread), nextId + 2 * |balls|)
  {
    if !IdsBelow(balls, nextId) { return; }
    var r := SplitBalls(balls, nextId, spread);
    var n := |balls|;
    forall i, j | 0 <= i < j < |r|
      ensures r[i].id != r[j].id
    {
      if i < n && j >= n {
        assert r[i] == balls[i];
      } else if i < n {
        assert r[i] == balls[i] && r[j] == balls[j];
      }
    }
  }

  function Pow3(k: nat): (r: nat)
    ensures r >= 1
  {
    if k == 0 then 1 else 3 * Pow3(k - 1)
  }

  /** The number of `multi-ball` power-ups among `ps` touching the paddle. */
  function MultiBallsCaught(ps: seq<PowerUp>, paddle: Paddle): nat {
    if |ps| == 0 then 0
    else (if Overlaps(ps[0], paddle) && ps[0].kind == MultiBall then 1 else 0) + MultiBallsCaught(ps[1..], paddle)
  }

  /** The ids of the power-ups touching the paddle. */
  function CaughtIds(ps: seq<PowerUp>, paddle: Paddle): set<nat> {
    set p | p in ps && Overlaps(p, paddle) :: p.id
  }

  lemma CaughtIdsSplit(ps: seq<PowerUp>, paddle: Paddle)
    requires |ps| > 0
    ensures CaughtIds(ps, paddle) == (if Overlaps(ps[0], paddle) then {ps[0].id} else {}) + CaughtIds(ps[1..], paddle)
  {
    assert forall q :: q in ps <==> q == ps[0] || q in ps[1..];
  }

  /** A dispatched power-up effect: `extend` and `laser` set paddle
      properties, `power-ball` switches the effect on. */
  predicate EffectAction(a: Action) {
    || (a.SetPaddleProps? && a.width.Some? && a.width.value <= MaxPaddleWidth && a.isLaser.None?)
    || a == SetPaddleProps(None, Some(true))
    || a == SetPowerBall(true)
  }

  /** The actions one collected power-up dispatches: `extend` and `laser`
      set a paddle property, `power-ball` switches the effect on and
      `multi-ball` dispatches nothing. */
  function KindActions(kind: PowerUpKind, width: real): seq<Action> {
    match kind
    case Extend => [SetPaddleProps(Some(ExtendWidth(width)), None)]
    case LaserMode => [SetPaddleProps(None, Some(true))]
    case MultiBall => []
    case PowerBall => [SetPowerBall(true)]
  }

  /** The actions of the power-ups touching the paddle, in list order. */
  function CaughtActions(ps: seq<PowerUp>, paddle: Paddle, width: real): seq<Action> {
    if |ps| == 0 then []
    else (if Overlaps(ps[0], paddle) then KindActions(ps[0].kind, width) else [])
         + CaughtActions(ps[1..], paddle, width)
  }

  /** A kind's action is dispatched exactly when a power-up of that kind is
      caught; the actions of different kinds differ. */
  lemma {:induction false} DispatchedIffCaught(ps: seq<PowerUp>, paddle: Paddle, width: real, kind: PowerUpKind)
    requires kind != MultiBall
    ensures KindActions(kind, width)[0] in CaughtActions(ps, paddle, width)
            <==> exists i :: 0 <= i < |ps| && Overlaps(ps[i], paddle) && ps[i].kind == kind
  {
    var a := KindActions(kind, width)[0];
    if |ps| > 0 {
      DispatchedIffCaught(ps[1..], paddle, width, kind);
      var head := if Overlaps(ps[0], paddle) then KindActions(ps[0].kind, width) else [];
      assert a in head <==> Overlaps(ps[0], paddle) && ps[0].kind == kind;
      assert a in CaughtActions(ps, paddle, width) <==> a in head || a in CaughtActions(ps[1..], paddle, width);
      if exists i :: 1 <= i < |ps| && Overlaps(ps[i], paddle) && ps[i].kind == kind {
        var i :| 1 <= i < |ps| && Overlaps(ps[i], paddle) && ps[i].kind == kind;
        assert ps[1..][i - 1] == ps[i];
      }
      if exists i :: 0 <= i < |ps[1..]| && Overlaps(ps[1..][i], paddle) && ps[1..][i].kind == kind {
        var i :| 0 <= i < |ps[1..]| && Overlaps(ps[1..][i], paddle) && ps[1..][i].kind == kind;
        assert ps[i + 1] == ps[1..][i];
      }
    }
  }

  /** The result of applying effects: actions dispatched, the balls
      afterwards and the ball id counter. */
  datatype Applied = Applied(actions: seq<Action>, balls: seq<Ball>, nextBallId: nat)

  /** One collected power-up's effect. `width` is the paddle width of the
      game state the tick started from. */
  function ApplyEffect(kind: PowerUpKind, width: real, balls: seq<Ball>, nextBallId: nat, spread: nat -> real): (r: Applied)
    ensures |r.balls| == (if kind == MultiBall then 3 * |balls| else |balls|)
    ensures r.balls[..|balls|] == balls
    ensures r.nextBallId >= nextBallId
    ensures IdsBelow(balls, nextBallId) ==> IdsBelow(r.balls, r.nextBallId)
    ensures kind == Extend ==> r.actions == [SetPaddleProps(Some(ExtendWidth(width)), None)]
    ensures kind == LaserMode ==> r.actions == [SetPaddleProps(None, Some(true))]
    ensures kind == PowerBall ==> r.actions == [SetPowerBall(true)]
    ensures kind == MultiBall ==> r.actions == []
    ensures kind != MultiBall ==> r.balls == balls
    ensures r.actions == KindActions(kind, width)
    ensures forall i :: 0 <= i < |r.actions| ==> EffectAction(r.actions[i])
  {
    SplitKeepsIdsUnique(balls, nextBallId, spread);
    match kind
    case Extend => Applied([SetPaddleProps(Some(ExtendWidth(width)), None)], balls, nextBallId)
    case LaserMode => Applied([SetPaddleProps(None, Some(true))], balls, nextBallId)
    case MultiBall => Applied([], SplitBalls(balls, nextBallId, spread), nextBallId + 2 * |balls|)
    case PowerBall => Applied([SetPowerBall(true)], balls, nextBallId)
  }

  lemma TriplePow3(n: nat, k: nat)
    ensures 3 * n * Pow3(k) == n * Pow3(k + 1)
  {
  }

  /** A caught power-up triples the ball count when it is `multi-ball`. */
  lemma CaughtCount(ps: seq<PowerUp>, paddle: Paddle, n: nat)
    requires |ps| > 0 && Overlaps(ps[0], paddle)
    ensures (if ps[0].kind == MultiBall then 3 * n else n) * Pow3(MultiBallsCaught(ps[1..], paddle))
            == n * Pow3(MultiBallsCaught(ps, paddle))
  {
    TriplePow3(n, MultiBallsCaught(ps[1..], paddle));
  }

  lemma PrefixOfPrefix(a: seq<Ball>, b: seq<Ball>, c: seq<Ball>)
    requires |a| <= |b| <= |c| && b[..|a|] == a && c[..|b|] == b
    ensures c[..|a|] == a
  {
    assert c[..|a|] == c[..|b|][..|a|];
  }

  /** The outcome of a collection pass: the ids collected, the actions
      dispatched, the balls afterwards and the ball id counter. */
  datatype Collection = Collection(collected: set<nat>, actions: seq<Action>, balls: seq<Ball>, nextBallId: nat)

  /** The collection pass: every power-up touching the paddle is collected
      and applied in order. `width` is the paddle width of the state the tick
      started from, so two `extend`s in one tick widen the paddle once. */
  function CollectPowerUps(ps: seq<PowerUp>, paddle: Paddle, width: real, balls: seq<Ball>,
                           nextBallId: nat, spread: nat -> real): (r: Collection)
    ensures r.collected == CaughtIds(ps, paddle)
    ensures r.actions == CaughtActions(ps, paddle, width)
    ensures |r.balls| == |balls| * Pow3(MultiBallsCaught(ps, paddle))
    ensures |r.balls| >= |balls| && r.balls[..|balls|] == balls
    ensures r.nextBallId >= nextBallId
    ensures IdsBelow(balls, nextBallId) ==> IdsBelow(r.balls, r.nextBallId)
    ensures forall i :: 0 <= i < |r.actions| ==> EffectAction(r.actions[i])
    decreases |ps|
  {
    if |ps| == 0 then Collection({}, [], balls, nextBallId)
    else
      var p := ps[0];
      CaughtIdsSplit(ps, paddle);
      if !Overlaps(p, paddle) then
        CollectPowerUps(ps[1..], paddle, width, balls, nextBallId, spread)
      else
        var e := ApplyEffect(p.kind, width, balls, nextBallId, spread);
        var rest := CollectPowerUps(ps[1..], paddle, width, e.balls, e.nextBallId, spread);
        CaughtCount(ps, paddle, |balls|);
        PrefixOfPrefix(balls, e.balls, rest.balls);
        Collection({p.id} + rest.collected, e.actions + rest.actions, rest.balls, rest.nextBallId)
  }

  /** `ps` without the power-ups whose id is in `ids`, in order. */
  function RemoveIds(ps: seq<PowerUp>, ids: set<nat>): (r: seq<PowerUp>)
    ensures forall q :: q in r <==> q in ps && q.id !in ids
  {
    if |ps| == 0 then []
    else if ps[0].id in ids then RemoveIds(ps[1..], ids)
    else [ps[0]] + RemoveIds(ps[1..], ids)
  }

  /** The falling power-ups after a tick, as written: the collection pass
      and the final list work on the list from before the tick (with every
      power-up moved), so power-ups dropped by bricks in this tick are never
      added, and a collection brings back any power-up that fell off the
      bottom. */
  function PowerUpsAfterTickAsWritten(before: seq<PowerUp>, dt: real, paddle: Paddle, dropped: seq<PowerUp>): (r: seq<PowerUp>)
    ensures forall q :: q in r ==> q in FallAll(before, dt)
    ensures CaughtIds(FallAll(before, dt), paddle) == {} ==> r == DropPowerUps(before, dt)
  {
    var moved := FallAll(before, dt);
    var caught := CaughtIds(moved, paddle);
    if caught != {} then RemoveIds(moved, caught)
    else Filter(moved, AboveBottom)
  }

  /** A power-up dropped with a fresh id never appears. */
  lemma DroppedPowerUpsVanish(before: seq<PowerUp>, dt: real, paddle: Paddle, dropped: seq<PowerUp>)
    requires forall i, j :: 0 <= i < |before| && 0 <= j < |dropped| ==> before[i].id != dropped[j].id
    ensures forall q :: q in dropped ==> q !in PowerUpsAfterTickAsWritten(before, dt, paddle, dropped)
  {
    var moved := FallAll(before, dt);
    assert forall q :: q in moved ==> exists i :: 0 <= i < |before| && q.id == before[i].id;
  }

  /** A power-up that falls past the bottom in the tick another one is
      caught stays in the list. */
  lemma FallenPowerUpReturns()
    ensures var paddle := CreateInitialPaddle();
            var fallen := PowerUp(1, Vec(0.0, GameHeight - 0.5), Extend, PowerUpWidth, PowerUpHeight);
            var caught := PowerUp(2, paddle.position, LaserMode, PowerUpWidth, PowerUpHeight);
            var r := PowerUpsAfterTickAsWritten([fallen, caught], 1.0, paddle, []);
            r == [Fall(fallen, 1.0)] && r[0].position.y >= GameHeight
  {
    var paddle := CreateInitialPaddle();
    var fallen := PowerUp(1, Vec(0.0, GameHeight - 0.5), Extend, PowerUpWidth, PowerUpHeight);
    var caught := PowerUp(2, paddle.position, LaserMode, PowerUpWidth, PowerUpHeight);
    var moved := FallAll([fallen, caught], 1.0);
    assert moved == [Fall(fallen, 1.0), Fall(caught, 1.0)];
    assert !Overlaps(moved[0], paddle);
    assert Overlaps(moved[1], paddle);
    assert CaughtIds(moved, paddle) == {2};
    assert moved[1..] == [moved[1]] && [moved[1]][1..] == [];
    assert RemoveIds([moved[1]], {2}) == [];
    assert RemoveIds(moved, {2}) == [moved[0]];
  }

  /** The falling power-ups after a tick: those still on the board and not
      collected, followed by the ones dropped by bricks in this tick. */
  function PowerUpsAfterTick(before: seq<PowerUp>, dt: real, paddle: Paddle, dropped: seq<PowerUp>): (r: seq<PowerUp>)
    ensures forall q :: q in dropped ==> q in r
    ensures forall q :: q in r ==> q in dropped || (q in FallAll(before, dt) && AboveBottom(q) && !Overlaps(q, paddle))
    ensures forall i :: 0 <= i < |before| ==>
              var q := Fall(before[i], dt);
              AboveBottom(q) && q.id !in CaughtIds(FallAll(before, dt), paddle) ==> q in r
  {
    var moved := FallAll(before, dt);
    var caught := CaughtIds(moved, paddle);
    var r := RemoveIds(Filter(moved, AboveBottom), caught) + dropped;
    assert forall q :: q in moved && Overlaps(q, paddle) ==> q.id in caught;
    r
  }
}

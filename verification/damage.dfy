/** Resolving the bricks hit during one tick: a silver brick with hits to
    spare is cracked, every other hit brick is destroyed and scores, and a
    destroyed brick may drop a power-up. */
module Damage {
  import opened Constants
  import opened Wrappers
  import opened Entities
  import opened Collisions

  /** A hit that only cracks the brick: a silver brick with more than one hit
      left, while the power-ball is off. */
  predicate Cracks(k: Brick, powerBall: bool) {
    k.kind == Silver && k.hitsLeft > 1 && !powerBall
  }

  /** The brick after one hit. */
  function Hit(k: Brick, powerBall: bool): (r: Brick)
    ensures r.id == k.id && r.position == k.position && r.width == k.width
            && r.height == k.height && r.kind == k.kind
    ensures Cracks(k, powerBall) ==> r.destroyed == k.destroyed && r.hitsLeft == k.hitsLeft - 1
    ensures !Cracks(k, powerBall) ==> r.destroyed && r.hitsLeft == k.hitsLeft
  {
    if Cracks(k, powerBall) then k.(hitsLeft := k.hitsLeft - 1)
    else k.(destroyed := true)
  }

  /** The power-up a destroyed brick drops: centred on the brick
      horizontally, its top at the brick's middle. */
  function DropAt(k: Brick, kind: PowerUpKind, id: nat): PowerUp {
    PowerUp(id, Vec(k.position.x + k.width / 2.0 - PowerUpWidth / 2.0, k.position.y + k.height / 2.0),
            kind, PowerUpWidth, PowerUpHeight)
  }

  /** The number of hit bricks the hits destroy. */
  function Breaks(bricks: seq<Brick>, hit: set<BrickId>, powerBall: bool): (n: nat)
    ensures n <= |bricks|
  {
    if |bricks| == 0 then 0
    else (if bricks[0].id in hit && !Cracks(bricks[0], powerBall) then 1 else 0)
         + Breaks(bricks[1..], hit, powerBall)
  }

  /** The number of destroyed bricks. */
  function DestroyedCount(bricks: seq<Brick>): (n: nat)
    ensures n <= |bricks|
  {
    if |bricks| == 0 then 0
    else (if bricks[0].destroyed then 1 else 0) + DestroyedCount(bricks[1..])
  }

  /** Every hit brick hit once; the others unchanged. */
  function ApplyHits(bricks: seq<Brick>, hit: set<BrickId>, powerBall: bool): (r: seq<Brick>)
    ensures |r| == |bricks|
    ensures forall i :: 0 <= i < |bricks| && bricks[i].id !in hit ==> r[i] == bricks[i]
    ensures forall i :: 0 <= i < |bricks| && bricks[i].id in hit ==> r[i] == Hit(bricks[i], powerBall)
  {
    seq(|bricks|, i requires 0 <= i < |bricks| => if bricks[i].id in hit then Hit(bricks[i], powerBall) else bricks[i])
  }

  datatype Outcome = Outcome(bricks: seq<Brick>, scoreToAdd: int, drops: seq<PowerUp>,
                             nextPowerUpId: nat, updated: bool)

  /** Applies the tick's hits to the bricks, first to last. `drop(id)` is the
      random draw for the brick with that id: the kind of power-up it drops
      when destroyed, if any; `counter` is the last power-up id handed out. */
  function ResolveHits(bricks: seq<Brick>, hit: set<BrickId>, powerBall: bool,
                       drop: BrickId -> Option<PowerUpKind>, counter: nat): (r: Outcome)
    ensures r.bricks == ApplyHits(bricks, hit, powerBall)
    ensures r.scoreToAdd == ScorePerBrick * Breaks(bricks, hit, powerBall)
    ensures r.updated <==> exists i :: 0 <= i < |bricks| && bricks[i].id in hit
    ensures r.drops == Drops(bricks, hit, powerBall, drop, counter)
    ensures r.nextPowerUpId == counter + |r.drops|
    decreases |bricks|
  {
    if |bricks| == 0 then Outcome([], 0, [], counter, false)
    else
      var k := bricks[0];
      var isHit := k.id in hit;
      var breaks := isHit && !Cracks(k, powerBall);
      var drops := DropsFrom(k, hit, powerBall, drop);
      var dropped := if drops then [DropAt(k, drop(k.id).value, counter + 1)] else [];
      var rest := ResolveHits(bricks[1..], hit, powerBall, drop, if drops then counter + 1 else counter);
      ApplyHitsCons(bricks, hit, powerBall);
      SomeHitCons(bricks, hit);
      DropsUnfold(bricks, hit, powerBall, drop, counter);
      Outcome([if isHit then Hit(k, powerBall) else k] + rest.bricks,
              (if breaks then ScorePerBrick else 0) + rest.scoreToAdd,
              dropped + rest.drops,
              rest.nextPowerUpId,
              isHit || rest.updated)
  }

  lemma ApplyHitsCons(bricks: seq<Brick>, hit: set<BrickId>, powerBall: bool)
    requires |bricks| > 0
    ensures ApplyHits(bricks, hit, powerBall)
            == [if bricks[0].id in hit then Hit(bricks[0], powerBall) else bricks[0]] + ApplyHits(bricks[1..], hit, powerBall)
  {
    var a := ApplyHits(bricks, hit, powerBall);
    var rest := ApplyHits(bricks[1..], hit, powerBall);
    var b := [if bricks[0].id in hit then Hit(bricks[0], powerBall) else bricks[0]] + rest;
    forall i | 1 <= i < |a|
      ensures a[i] == b[i]
    {
      assert b[i] == rest[i - 1];
      assert bricks[1..][i - 1] == bricks[i];
    }
  }

  lemma SomeHitCons(bricks: seq<Brick>, hit: set<BrickId>)
    requires |bricks| > 0
    ensures (exists i :: 0 <= i < |bricks| && bricks[i].id in hit)
            <==> bricks[0].id in hit || exists i :: 0 <= i < |bricks[1..]| && bricks[1..][i].id in hit
  {
    if exists i :: 0 <= i < |bricks| && bricks[i].id in hit {
      var i :| 0 <= i < |bricks| && bricks[i].id in hit;
      if i > 0 {
        assert bricks[1..][i - 1] == bricks[i];
      }
    }
  }

  /** Every power-up the hits drop comes from a brick they broke whose draw
      was a drop, placed at that brick with the kind drawn. */
  lemma {:induction false} DropsComeFromBrokenBricks(bricks: seq<Brick>, hit: set<BrickId>, powerBall: bool,
                                                     drop: BrickId -> Option<PowerUpKind>, counter: nat, k: nat)
    requires k < |Drops(bricks, hit, powerBall, drop, counter)|
    ensures var p := Drops(bricks, hit, powerBall, drop, counter)[k];
            exists i :: 0 <= i < |bricks| && bricks[i].id in hit && !Cracks(bricks[i], powerBall)
                        && drop(bricks[i].id) == Some(p.kind) && p == DropAt(bricks[i], p.kind, counter + k + 1)
    decreases |bricks|
  {
    var b := bricks[0];
    if b.id in hit && !Cracks(b, powerBall) && drop(b.id).Some? {
      if k > 0 {
        DropsComeFromBrokenBricks(bricks[1..], hit, powerBall, drop, counter + 1, k - 1);
        var p := Drops(bricks, hit, powerBall, drop, counter)[k];
        var i :| 0 <= i < |bricks[1..]| && bricks[1..][i].id in hit && !Cracks(bricks[1..][i], powerBall)
                 && drop(bricks[1..][i].id) == Some(p.kind) && p == DropAt(bricks[1..][i], p.kind, counter + 1 + (k - 1) + 1);
        assert bricks[1..][i] == bricks[i + 1];
      }
    } else {
      DropsComeFromBrokenBricks(bricks[1..], hit, powerBall, drop, counter, k);
      var p := Drops(bricks, hit, powerBall, drop, counter)[k];
      var i :| 0 <= i < |bricks[1..]| && bricks[1..][i].id in hit && !Cracks(bricks[1..][i], powerBall)
               && drop(bricks[1..][i].id) == Some(p.kind) && p == DropAt(bricks[1..][i], p.kind, counter + k + 1);
      assert bricks[1..][i] == bricks[i + 1];
    }
  }

  /** A brick the hits break whose draw is a drop. */
  predicate DropsFrom(k: Brick, hit: set<BrickId>, powerBall: bool, drop: BrickId -> Option<PowerUpKind>) {
    k.id in hit && !Cracks(k, powerBall) && drop(k.id).Some?
  }

  /** The number of bricks the hits break whose draw is a drop. */
  function DropCount(bricks: seq<Brick>, hit: set<BrickId>, powerBall: bool,
                     drop: BrickId -> Option<PowerUpKind>): nat
  {
    if |bricks| == 0 then 0
    else (if DropsFrom(bricks[0], hit, powerBall, drop) then 1 else 0) + DropCount(bricks[1..], hit, powerBall, drop)
  }

  /** Every brick the hits break whose draw is a drop yields its power-up,
      in brick order: the bricks before it that drop fix its place in the
      list and its id. */
  lemma {:induction false} BrokenBricksDrop(bricks: seq<Brick>, hit: set<BrickId>, powerBall: bool,
                                            drop: BrickId -> Option<PowerUpKind>, counter: nat, i: nat)
    requires i < |bricks| && DropsFrom(bricks[i], hit, powerBall, drop)
    ensures var r := Drops(bricks, hit, powerBall, drop, counter);
            var k := DropCount(bricks[..i], hit, powerBall, drop);
            k < |r| && r[k] == DropAt(bricks[i], drop(bricks[i].id).value, counter + k + 1)
    decreases |bricks|
  {
    var next := if DropsFrom(bricks[0], hit, powerBall, drop) then counter + 1 else counter;
    if i == 0 {
      DropsHead(bricks, hit, powerBall, drop, counter);
      assert bricks[..0] == [];
      assert DropCount(bricks[..0], hit, powerBall, drop) == 0;
    } else {
      var k' := DropCount(bricks[1..][..i - 1], hit, powerBall, drop);
      BrokenBricksDrop(bricks[1..], hit, powerBall, drop, next, i - 1);
      assert bricks[1..][i - 1] == bricks[i];
      DropCountPrefix(bricks, hit, powerBall, drop, i);
      DropShifts(bricks, hit, powerBall, drop, counter, i, k');
      assert DropCount(bricks[..i], hit, powerBall, drop) == (if DropsFrom(bricks[0], hit, powerBall, drop) then 1 else 0) + k';
    }
  }

  lemma DropsHead(bricks: seq<Brick>, hit: set<BrickId>, powerBall: bool,
                  drop: BrickId -> Option<PowerUpKind>, counter: nat)
    requires |bricks| > 0 && DropsFrom(bricks[0], hit, powerBall, drop)
    ensures var r := Drops(bricks, hit, powerBall, drop, counter);
            0 < |r| && r[0] == DropAt(bricks[0], drop(bricks[0].id).value, counter + 1)
  {
    DropsUnfold(bricks, hit, powerBall, drop, counter);
  }

  /** There are exactly as many drops as broken bricks whose draw is a drop. */
  lemma {:induction false} DropsCount(bricks: seq<Brick>, hit: set<BrickId>, powerBall: bool,
                                      drop: BrickId -> Option<PowerUpKind>, counter: nat)
    ensures |Drops(bricks, hit, powerBall, drop, counter)| == DropCount(bricks, hit, powerBall, drop)
    decreases |bricks|
  {
    if |bricks| > 0 {
      DropsCount(bricks[1..], hit, powerBall, drop, if DropsFrom(bricks[0], hit, powerBall, drop) then counter + 1 else counter);
    }
  }

  /** The step of `BrokenBricksDrop`: a drop found in the tail keeps its
      place, one further on when the head drops too. */
  lemma DropShifts(bricks: seq<Brick>, hit: set<BrickId>, powerBall: bool,
                   drop: BrickId -> Option<PowerUpKind>, counter: nat, i: nat, k': nat)
    requires 0 < i < |bricks| && DropsFrom(bricks[i], hit, powerBall, drop)
    requires var next := if DropsFrom(bricks[0], hit, powerBall, drop) then counter + 1 else counter;
             var rest := Drops(bricks[1..], hit, powerBall, drop, next);
             k' < |rest| && rest[k'] == DropAt(bricks[i], drop(bricks[i].id).value, next + k' + 1)
    ensures var r := Drops(bricks, hit, powerBall, drop, counter);
            var k := (if DropsFrom(bricks[0], hit, powerBall, drop) then 1 else 0) + k';
            k < |r| && r[k] == DropAt(bricks[i], drop(bricks[i].id).value, counter + k + 1)
  {
    DropsUnfold(bricks, hit, powerBall, drop, counter);
  }

  lemma DropsUnfold(bricks: seq<Brick>, hit: set<BrickId>, powerBall: bool,
                    drop: BrickId -> Option<PowerUpKind>, counter: nat)
    requires |bricks| > 0
    ensures Drops(bricks, hit, powerBall, drop, counter)
            == if DropsFrom(bricks[0], hit, powerBall, drop)
               then [DropAt(bricks[0], drop(bricks[0].id).value, counter + 1)] + Drops(bricks[1..], hit, powerBall, drop, counter + 1)
               else Drops(bricks[1..], hit, powerBall, drop, counter)
  {
  }

  lemma DropCountPrefix(bricks: seq<Brick>, hit: set<BrickId>, powerBall: bool,
                        drop: BrickId -> Option<PowerUpKind>, i: nat)
    requires 0 < i <= |bricks|
    ensures DropCount(bricks[..i], hit, powerBall, drop)
            == (if DropsFrom(bricks[0], hit, powerBall, drop) then 1 else 0) + DropCount(bricks[1..][..i - 1], hit, powerBall, drop)
  {
    assert bricks[..i][1..] == bricks[1..][..i - 1];
    assert bricks[..i][0] == bricks[0];
  }

  /** The power-ups the hits drop, numbered on from `counter`. */
  function Drops(bricks: seq<Brick>, hit: set<BrickId>, powerBall: bool,
                 drop: BrickId -> Option<PowerUpKind>, counter: nat): (r: seq<PowerUp>)
    ensures |r| <= Breaks(bricks, hit, powerBall)
    ensures forall k :: 0 <= k < |r| ==> r[k].id == counter + k + 1
    decreases |bricks|
  {
    if |bricks| == 0 then []
    else
      var b := bricks[0];
      if DropsFrom(b, hit, powerBall, drop) then
        [DropAt(b, drop(b.id).value, counter + 1)] + Drops(bricks[1..], hit, powerBall, drop, counter + 1)
      else Drops(bricks[1..], hit, powerBall, drop, counter)
  }

  /** The brick after `n` hits. */
  function HitTimes(k: Brick, powerBall: bool, n: nat): (r: Brick)
    ensures r.id == k.id && r.kind == k.kind
    decreases n
  {
    if n == 0 then k else HitTimes(Hit(k, powerBall), powerBall, n - 1)
  }

  /** A silver brick with `n` hits left survives `n - 1` hits without the
      power-ball and breaks on the `n`-th. */
  lemma {:induction false} SilverBreaksOnLastHit(k: Brick, n: nat)
    requires k.kind == Silver && !k.destroyed && k.hitsLeft == n && n >= 1
    ensures !HitTimes(k, false, n - 1).destroyed && HitTimes(k, false, n - 1).hitsLeft == 1
    ensures HitTimes(k, false, n).destroyed
    decreases n
  {
    if n > 1 {
      SilverBreaksOnLastHit(Hit(k, false), n - 1);
    }
  }

  /** A standard brick breaks on the first hit, and so does any brick while
      the power-ball is active. */
  lemma OneHitBreaks(k: Brick, powerBall: bool)
    requires k.kind == Standard || powerBall
    ensures Hit(k, powerBall).destroyed
  {
  }

  /** When every hit brick was standing, the bricks the hits break are
      exactly the newly destroyed ones. */
  lemma {:induction false} BreaksAreNewlyDestroyed(bricks: seq<Brick>, hit: set<BrickId>, powerBall: bool)
    requires forall i :: 0 <= i < |bricks| && bricks[i].id in hit ==> !bricks[i].destroyed
    ensures Breaks(bricks, hit, powerBall) == DestroyedCount(ApplyHits(bricks, hit, powerBall)) - DestroyedCount(bricks)
    decreases |bricks|
  {
    if |bricks| > 0 {
      var after := ApplyHits(bricks, hit, powerBall);
      BreaksAreNewlyDestroyed(bricks[1..], hit, powerBall);
      assert after[1..] == ApplyHits(bricks[1..], hit, powerBall);
    }
  }

  /** When every hit brick was standing, the score earned is ten for each
      newly destroyed brick. */
  lemma ScoreCountsNewlyDestroyed(bricks: seq<Brick>, hit: set<BrickId>, powerBall: bool,
                                  drop: BrickId -> Option<PowerUpKind>, counter: nat)
    requires forall i :: 0 <= i < |bricks| && bricks[i].id in hit ==> !bricks[i].destroyed
    ensures var r := ResolveHits(bricks, hit, powerBall, drop, counter);
            r.scoreToAdd == ScorePerBrick * (DestroyedCount(r.bricks) - DestroyedCount(bricks))
  {
    BreaksAreNewlyDestroyed(bricks, hit, powerBall);
  }

  predicate UniqueIds(bricks: seq<Brick>) {
    forall i, j :: 0 <= i < |bricks| && 0 <= j < |bricks| && bricks[i].id == bricks[j].id ==> i == j
  }

  /** The tick's hits: lasers first, then balls, from an empty set. */
  function TickHits(lasers: seq<Laser>, balls: seq<Ball>, bricks: seq<Brick>, powerBall: bool,
                    norm: Vec -> real): set<BrickId>
  {
    BallHits(balls, bricks, LaserHits(lasers, bricks, {}).hit, powerBall, norm).hit
  }

  /** Every brick the tick hits was standing. */
  lemma TickHitsStandingBricks(lasers: seq<Laser>, balls: seq<Ball>, bricks: seq<Brick>, powerBall: bool,
                               norm: Vec -> real)
    requires UniqueIds(bricks)
    ensures forall i :: 0 <= i < |bricks| && bricks[i].id in TickHits(lasers, balls, bricks, powerBall, norm)
              ==> !bricks[i].destroyed
  {
    var h1 := LaserHits(lasers, bricks, {}).hit;
    forall i | 0 <= i < |bricks| && bricks[i].id in TickHits(lasers, balls, bricks, powerBall, norm)
      ensures !bricks[i].destroyed
    {
      var id := bricks[i].id;
      if id in h1 {
        assert id in OpenIds(bricks, {});
      } else {
        BallHitsSound(balls, bricks, h1, powerBall, norm, id);
      }
    }
  }

  /** With unique brick ids, the score a tick earns is ten for each brick it
      destroys. */
  lemma TickScoreCountsDestroyedBricks(lasers: seq<Laser>, balls: seq<Ball>, bricks: seq<Brick>, powerBall: bool,
                                       norm: Vec -> real, drop: BrickId -> Option<PowerUpKind>, counter: nat)
    requires UniqueIds(bricks)
    ensures var r := ResolveHits(bricks, TickHits(lasers, balls, bricks, powerBall, norm), powerBall, drop, counter);
            r.scoreToAdd == ScorePerBrick * (DestroyedCount(r.bricks) - DestroyedCount(bricks))
  {
    TickHitsStandingBricks(lasers, balls, bricks, powerBall, norm);
    ScoreCountsNewlyDestroyed(bricks, TickHits(lasers, balls, bricks, powerBall, norm), powerBall, drop, counter);
  }

  /** Once every brick is destroyed nothing can be hit, so the tick never
      again reports bricks and score: a level whose completion was missed
      stays unfinished. */
  lemma NothingStandingNothingReported(lasers: seq<Laser>, balls: seq<Ball>, bricks: seq<Brick>, powerBall: bool,
                                       norm: Vec -> real, drop: BrickId -> Option<PowerUpKind>, counter: nat)
    requires forall i :: 0 <= i < |bricks| ==> bricks[i].destroyed
    ensures TickHits(lasers, balls, bricks, powerBall, norm) == {}
    ensures !ResolveHits(bricks, TickHits(lasers, balls, bricks, powerBall, norm), powerBall, drop, counter).updated
  {
    var h1 := LaserHits(lasers, bricks, {}).hit;
    assert OpenIds(bricks, {}) == {};
    assert h1 == {};
    var h := TickHits(lasers, balls, bricks, powerBall, norm);
    if h != {} {
      var id :| id in h;
      BallHitsSound(balls, bricks, h1, powerBall, norm, id);
    }
  }
}

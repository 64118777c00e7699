/** The persistent game state and the pure reducer that applies the game's
    discrete actions to it, plus the order in which one tick dispatches its
    actions. */
module Reducer {
  import opened Constants
  import opened Wrappers
  import opened Entities
  import opened Levels

  datatype Status = Start | Playing | LevelStarting | LevelComplete | GameOver

  datatype GameState = GameState(
    score: int,
    level: nat,
    lives: int,
    status: Status,
    powerBall: bool,
    bricks: seq<Brick>,
    paddleWidth: real,
    paddleIsLaser: bool)

  /** A partial game state: each present field overrides the state's. */
  datatype StatePatch = StatePatch(
    score: Option<int>,
    level: Option<nat>,
    lives: Option<int>,
    status: Option<Status>,
    powerBall: Option<bool>,
    bricks: Option<seq<Brick>>,
    paddleWidth: Option<real>,
    paddleIsLaser: Option<bool>)

  datatype Action =
    | SetGameState(patch: StatePatch)
    | UpdateBricksAndScore(bricks: seq<Brick>, scoreToAdd: int)
    | IncreaseScore(amount: int)
    | StartGame
    | NextLevel
    | LoseLife
    | ResetGame
    | SetStatus(newStatus: Status)
    | SetPaddleProps(width: Option<real>, isLaser: Option<bool>)
    | SetPowerBall(on: bool)

  const InitialGameState: GameState :=
    GameState(0, 0, InitialLives, Start, false, [], PaddleWidth, false)

  predicate AllDestroyed(bricks: seq<Brick>) {
    forall i :: 0 <= i < |bricks| ==> bricks[i].destroyed
  }

  /** The power-up overrides (power-ball, paddle width, laser mode) are off. */
  predicate OverridesCleared(s: GameState) {
    !s.powerBall && s.paddleWidth == PaddleWidth && !s.paddleIsLaser
  }

  function ApplyPatch(s: GameState, p: StatePatch): (r: GameState)
    ensures p == StatePatch(None, None, None, None, None, None, None, None) ==> r == s
    ensures p.score.Some? ==> r.score == p.score.value
    ensures p.score.None? ==> r.score == s.score
    ensures p.lives.Some? ==> r.lives == p.lives.value
    ensures p.lives.None? ==> r.lives == s.lives
    ensures p.level.Some? ==> r.level == p.level.value
    ensures p.level.None? ==> r.level == s.level
    ensures p.status.Some? ==> r.status == p.status.value
    ensures p.status.None? ==> r.status == s.status
    ensures p.powerBall.Some? ==> r.powerBall == p.powerBall.value
    ensures p.powerBall.None? ==> r.powerBall == s.powerBall
    ensures p.bricks.Some? ==> r.bricks == p.bricks.value
    ensures p.bricks.None? ==> r.bricks == s.bricks
    ensures p.paddleWidth.Some? ==> r.paddleWidth == p.paddleWidth.value
    ensures p.paddleWidth.None? ==> r.paddleWidth == s.paddleWidth
    ensures p.paddleIsLaser.Some? ==> r.paddleIsLaser == p.paddleIsLaser.value
    ensures p.paddleIsLaser.None? ==> r.paddleIsLaser == s.paddleIsLaser
  {
    GameState(p.score.GetOr(s.score), p.level.GetOr(s.level), p.lives.GetOr(s.lives),
              p.status.GetOr(s.status), p.powerBall.GetOr(s.powerBall), p.bricks.GetOr(s.bricks),
              p.paddleWidth.GetOr(s.paddleWidth), p.paddleIsLaser.GetOr(s.paddleIsLaser))
  }

  /** The later of two options when it is present, else the earlier. */
  function Later<T>(earlier: Option<T>, later: Option<T>): Option<T> {
    if later.Some? then later else earlier
  }

  /** One patch holding the fields of `p` overridden by those of `q`. */
  function MergePatches(p: StatePatch, q: StatePatch): StatePatch {
    StatePatch(Later(p.score, q.score), Later(p.level, q.level), Later(p.lives, q.lives),
               Later(p.status, q.status), Later(p.powerBall, q.powerBall), Later(p.bricks, q.bricks),
               Later(p.paddleWidth, q.paddleWidth), Later(p.paddleIsLaser, q.paddleIsLaser))
  }

  /** Two patches in a row act as their merge, the later winning on every
      field both hold; in particular a patch applied twice acts once. */
  lemma PatchesMerge(s: GameState, p: StatePatch, q: StatePatch)
    ensures ApplyPatch(ApplyPatch(s, p), q) == ApplyPatch(s, MergePatches(p, q))
    ensures ApplyPatch(ApplyPatch(s, p), p) == ApplyPatch(s, p)
  {
  }

  /** The bricks reported by a tick replace the current ones and the score
      grows by `scoreToAdd`. The level is complete exactly when the game was
      playing and no brick is left standing; otherwise the status is kept. */
  function RecordBricksAndScore(s: GameState, bricks: seq<Brick>, scoreToAdd: int): (r: GameState)
    ensures r.bricks == bricks && r.score == s.score + scoreToAdd
    ensures r.status == LevelComplete <==>
              s.status == LevelComplete || (s.status == Playing && AllDestroyed(bricks))
    ensures r.status != LevelComplete ==> r.status == s.status
    ensures r.(bricks := s.bricks, score := s.score, status := s.status) == s
  {
    var complete := AllDestroyed(bricks) && s.status == Playing;
    s.(bricks := bricks, score := s.score + scoreToAdd,
       status := if complete then LevelComplete else s.status)
  }

  /** A new game: level 0's bricks, initial score and lives, no overrides,
      waiting for the level intro. */
  function BeginGame(levels: seq<Layout>): (r: GameState)
    requires |levels| > 0
    ensures r.score == 0 && r.level == 0 && r.lives == InitialLives
    ensures r.status == LevelStarting && OverridesCleared(r)
    ensures r.bricks == LoadLevel(levels, 0)
  {
    InitialGameState.(level := 0, lives := InitialLives, score := 0,
                      bricks := LoadLevel(levels, 0), status := LevelStarting)
  }

  /** The next level: its bricks loaded, overrides cleared, score and lives kept. */
  function AdvanceLevel(levels: seq<Layout>, s: GameState): (r: GameState)
    requires |levels| > 0
    ensures r.level == s.level + 1 && r.bricks == LoadLevel(levels, s.level + 1)
    ensures r.status == LevelStarting && OverridesCleared(r)
    ensures r.score == s.score && r.lives == s.lives
  {
    var next := s.level + 1;
    s.(level := next, bricks := LoadLevel(levels, next), status := LevelStarting,
       powerBall := false, paddleWidth := PaddleWidth, paddleIsLaser := false)
  }

  /** Losing a life: the last life ends the game with nothing else changed;
      otherwise exactly one life goes, play resumes and the overrides reset.
      Lives never become negative. */
  function TakeLife(s: GameState): (r: GameState)
    ensures r.lives >= 0
    ensures s.lives - 1 <= 0 ==> r == s.(lives := 0, status := GameOver)
    ensures s.lives - 1 > 0 ==>
              && r.lives == s.lives - 1 && r.status == Playing && OverridesCleared(r)
              && r.score == s.score && r.level == s.level && r.bricks == s.bricks
  {
    var lives := s.lives - 1;
    if lives <= 0 then s.(lives := 0, status := GameOver)
    else s.(lives := lives, status := Playing, powerBall := false,
            paddleWidth := PaddleWidth, paddleIsLaser := false)
  }

  /** The game's reducer: one action applied to the persistent state. */
  function Reduce(levels: seq<Layout>, s: GameState, a: Action): (r: GameState)
    requires |levels| > 0
    ensures a.ResetGame? ==> r == InitialGameState && r.status == Start && r.bricks == []
    ensures a.SetStatus? ==> r == s.(status := a.newStatus)
    ensures a.SetPowerBall? ==> r == s.(powerBall := a.on)
    ensures a.SetPaddleProps? ==>
              r == s.(paddleWidth := a.width.GetOr(s.paddleWidth), paddleIsLaser := a.isLaser.GetOr(s.paddleIsLaser))
    ensures a.IncreaseScore? ==> r == s.(score := s.score + a.amount)
  {
    match a
    case SetGameState(p) => ApplyPatch(s, p)
    case UpdateBricksAndScore(bricks, add) => RecordBricksAndScore(s, bricks, add)
    case IncreaseScore(n) => s.(score := s.score + n)
    case StartGame => BeginGame(levels)
    case NextLevel => AdvanceLevel(levels, s)
    case LoseLife => TakeLife(s)
    case ResetGame => InitialGameState.(status := Start)
    case SetStatus(st) => s.(status := st)
    case SetPaddleProps(w, l) =>
      s.(paddleWidth := w.GetOr(s.paddleWidth), paddleIsLaser := l.GetOr(s.paddleIsLaser))
    case SetPowerBall(on) => s.(powerBall := on)
  }

  /** The game state after the actions, in order. */
  function Run(levels: seq<Layout>, s: GameState, actions: seq<Action>): GameState
    requires |levels| > 0
    decreases |actions|
  {
    if |actions| == 0 then s
    else Run(levels, Reduce(levels, s, actions[0]), actions[1..])
  }

  /** The actions the game itself dispatches after a game has started: a
      tick's brick update (never with a negative score), a life loss, the
      power-up setters, the intro's switch to playing, and the next level. */
  predicate InPlay(a: Action) {
    match a
    case UpdateBricksAndScore(_, add) => add >= 0
    case LoseLife => true
    case SetPaddleProps(_, _) => true
    case SetPowerBall(_) => true
    case SetStatus(st) => st == Playing
    case NextLevel => true
    case _ => false
  }

  /** Score and lives stay within their bounds. */
  predicate Sane(s: GameState) {
    s.score >= 0 && 0 <= s.lives <= InitialLives
  }

  /** Once a game is under way its score never decreases, its lives never
      grow, and both stay within bounds. */
  lemma {:induction false} PlayKeepsScoreAndLives(levels: seq<Layout>, s: GameState, actions: seq<Action>)
    requires |levels| > 0 && Sane(s)
    requires forall i :: 0 <= i < |actions| ==> InPlay(actions[i])
    ensures var r := Run(levels, s, actions);
            Sane(r) && r.score >= s.score && r.lives <= s.lives
    decreases |actions|
  {
    if |actions| > 0 {
      var s' := Reduce(levels, s, actions[0]);
      assert InPlay(actions[0]);
      PlayKeepsScoreAndLives(levels, s', actions[1..]);
    }
  }

  /** The level-complete status is entered only from `playing` by a brick
      update that leaves every brick destroyed, or by an explicit override. */
  lemma LevelCompleteOnlyFromPlaying(levels: seq<Layout>, s: GameState, a: Action)
    requires |levels| > 0
    requires s.status != LevelComplete && Reduce(levels, s, a).status == LevelComplete
    ensures || (a.UpdateBricksAndScore? && s.status == Playing && AllDestroyed(a.bricks))
            || a == SetStatus(LevelComplete)
            || (a.SetGameState? && a.patch.status == Some(LevelComplete))
  {
  }

  /** Once the level is complete, further brick updates do not transition
      again: the status stays level-complete. */
  lemma {:induction false} LevelCompleteIsSticky(levels: seq<Layout>, s: GameState, actions: seq<Action>)
    requires |levels| > 0 && s.status == LevelComplete
    requires forall i :: 0 <= i < |actions| ==> actions[i].UpdateBricksAndScore?
    ensures Run(levels, s, actions).status == LevelComplete
    decreases |actions|
  {
    if |actions| > 0 {
      assert actions[0].UpdateBricksAndScore?;
      LevelCompleteIsSticky(levels, Reduce(levels, s, actions[0]), actions[1..]);
    }
  }

  /** Starting a game is a reset followed by loading level 0 and waiting for
      the intro, whatever the state before. */
  lemma StartIsResetThenLoad(levels: seq<Layout>, s: GameState)
    requires |levels| > 0
    ensures Reduce(levels, s, StartGame)
            == Reduce(levels, s, ResetGame).(bricks := LoadLevel(levels, 0), status := LevelStarting)
  {
  }

  /** Turning the power-ball effect off is idempotent, so a stale expiry
      arriving after a life loss or a level change is harmless. */
  lemma PowerBallExpiryIdempotent(levels: seq<Layout>, s: GameState)
    requires |levels| > 0
    ensures var once := Reduce(levels, s, SetPowerBall(false));
            Reduce(levels, once, SetPowerBall(false)) == once && !once.powerBall
  {
  }

  /** A tick's brick report: the bricks after damage and the score they earned. */
  datatype BrickUpdate = BrickUpdate(bricks: seq<Brick>, scoreToAdd: int)

  /** The end of a tick as written: the brick update, if any, is dispatched
      first and the life loss, if flagged, after it, so a life lost in the
      tick that completes the level overrides the completion. */
  function EndTickAsWritten(levels: seq<Layout>, s: GameState, update: Option<BrickUpdate>, lifeLost: bool): (r: GameState)
    requires |levels| > 0
    ensures lifeLost ==> r.status == Playing || r.status == GameOver
    ensures !lifeLost && update.Some? ==> r == RecordBricksAndScore(s, update.value.bricks, update.value.scoreToAdd)
    ensures !lifeLost && update.None? ==> r == s
  {
    var afterBricks := match update
      case Some(u) => Reduce(levels, s, UpdateBricksAndScore(u.bricks, u.scoreToAdd))
      case None => s;
    if lifeLost then Reduce(levels, afterBricks, LoseLife) else afterBricks
  }

  /** The last brick falls in the same tick as the last ball while lives
      remain: the game is left playing with every brick destroyed. */
  lemma CompletionLostToLifeLoss(levels: seq<Layout>)
    requires |levels| > 0
    ensures var b := BrickAt(0, 0, 0, 1);
            var s := InitialGameState.(status := Playing, bricks := [b]);
            var r := EndTickAsWritten(levels, s, Some(BrickUpdate([b.(destroyed := true)], ScorePerBrick)), true);
            r.status == Playing && AllDestroyed(r.bricks) && |r.bricks| == 1
  {
    var b := BrickAt(0, 0, 0, 1);
    var s := InitialGameState.(status := Playing, bricks := [b]);
    var u := BrickUpdate([b.(destroyed := true)], ScorePerBrick);
    var s1 := Reduce(levels, s, UpdateBricksAndScore(u.bricks, u.scoreToAdd));
    assert s1.status == LevelComplete;
    assert s1.lives == InitialLives;
  }

  /** The end of a tick with level completion taking precedence: a life loss
      is dispatched only while the game is still playing after the brick
      update. */
  function EndTick(levels: seq<Layout>, s: GameState, update: Option<BrickUpdate>, lifeLost: bool): (r: GameState)
    requires |levels| > 0
    ensures s.status == Playing && update.Some? && AllDestroyed(update.value.bricks) ==>
              r.status == LevelComplete && r.lives == s.lives
    ensures update.Some? && AllDestroyed(update.value.bricks) && s.status in {Playing, LevelComplete} ==>
              r.status == LevelComplete
  {
    var afterBricks := match update
      case Some(u) => Reduce(levels, s, UpdateBricksAndScore(u.bricks, u.scoreToAdd))
      case None => s;
    if lifeLost && afterBricks.status == Playing then Reduce(levels, afterBricks, LoseLife) else afterBricks
  }

  /** The two agree on every tick that does not complete the level while the
      game is playing. */
  lemma EndTickAgreesOtherwise(levels: seq<Layout>, s: GameState, update: Option<BrickUpdate>, lifeLost: bool)
    requires |levels| > 0 && s.status == Playing
    requires !(update.Some? && AllDestroyed(update.value.bricks))
    ensures EndTick(levels, s, update, lifeLost) == EndTickAsWritten(levels, s, update, lifeLost)
  {
  }
}

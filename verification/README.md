# Breakout rules and step sequencer, modelled in Dafny

This project models the discrete core of a browser breakout game written in
TypeScript and React. It covers two pieces.

The game rules in `Game.tsx`:
- the level loader, which turns a grid of cell codes into bricks;
- the reducer over the persistent game state (score, level, lives, status,
  bricks and the power-up overrides);
- the two entity factories;
- the rule fragments of one animation tick, each lifted into a pure function
  over immutable values:
  - paddle steering and clamp, the unlaunched ball riding the paddle, and
    laser fire with its cooldown;
  - particle ageing, falling power-ups, rising lasers, and ball moves with
    their trails;
  - power-up collection and the four effects (`extend`, `laser`,
    `multi-ball`, `power-ball`);
  - wall and paddle bounces, and removal of balls that fell out, with the
    life-loss flag;
  - the set of bricks hit by lasers and balls, and the damage it does (score
    and power-up drops);
  - the order in which the tick dispatches its brick update and its life loss.

The music generator in `music.ts`:
- the sixteen-step counter;
- the per-step pattern of bass, kick, snare and arpeggio;
- the look-ahead scheduler loop;
- the play, stop and mute state flags.

The source mutates shared objects in place. The model uses values instead,
except in module `Aliasing`. That module adds an explicit heap of position
objects, to show what the in-place sharing does to trails and to balls
spawned by `multi-ball`.

Every source of nondeterminism is a parameter:
- each random draw (`Math.random`) is a function from a fresh id to the value
  drawn; a sequence of music calls draws the arpeggio gates of its `j`-th
  call from the `j`-th such function;
- the clock (`Date.now`, `ctx.currentTime`) and the elapsed frame time are
  numbers;
- the square root and the sine and cosine of the paddle angle are supplied by
  the caller.

The level table (`levels`) is imported by the game but `levels.ts` is not part
of this model. It is a parameter `seq<seq<int>>` that must be non-empty, as
the game's own table is.

Modules, one per file:
- `Constants`: the board geometry and gameplay constants of `constants.ts` and
  those written inline in `Game.tsx`.
- `Entities`: the entity types of `types.ts` and the two factories.
- `Wrappers`: `Option`, standing in for optional fields and `??`.
- `Seqs`: `Filter`, standing in for `Array.filter`.
- `Levels`: the loader.
- `Reducer`: the reducer and the tick's dispatch order.
- `PaddleRules`: input, the stuck ball and lasers firing.
- `Motion`: particles, falling power-ups, rising lasers and ball moves.
- `PowerUps`: collection, the effects and the carried power-up list.
- `Collisions`: walls, the paddle, the bottom and brick hits.
- `Damage`: brick damage resolution.
- `Aliasing`: the heap model.
- `Music`: the sequencer.

Where the written code and its evident intent part, the model keeps both: an
as-written member and a corrected one (see "## Findings").

Two small departures from the types:
- `Brick.hitsLeft` is optional in `types.ts`. The loader always sets it, so it
  is a plain integer here and `hitsLeft ?? 2` reads as `hitsLeft`.
- The string ids `brick-L-R-C`, `ball-N`, `powerup-N` and `laser-N-S` are
  modelled by the numbers and tuples they encode.

## Model

| member | source | states |
|---|---|---|
| Entities.CreateInitialPaddle | src/app/components/game/Game.tsx:197-202 | the starting paddle is centred on the board, lies inside it, at the paddle row, with the default width and height and laser mode off |
| Entities.CreateInitialBall | src/app/components/game/Game.tsx:187-195 | a new ball sits on the paddle's top at its centre with an empty trail; it is still exactly when not launched, and a launched ball rises at the initial speed, to the right exactly when the coin flip says so |
| Levels.LoadLevel | src/app/components/game/Game.tsx:72-93 | the layout used is the level index modulo the table size; there is exactly one brick per non-zero cell and it carries that cell's level, row and column, so ids are distinct; the bricks come row by row, left to right, as `flatMap` over the rows gives them; every brick is standing and 75 by 20; code 2 gives a silver brick with two hits, any other non-zero code a standard brick with one hit; each brick sits at its grid position |
| Levels.LevelsCycle | src/app/components/game/Game.tsx:73 | two level indices equal modulo the table size load the same bricks, differing only in the level recorded in their ids |
| Reducer.ApplyPatch | src/app/components/game/Game.tsx:109-110 | each of the eight fields takes the patch's value when the patch holds one and keeps the state's otherwise; an empty patch changes nothing |
| Reducer.PatchesMerge | src/app/components/game/Game.tsx:109-110 | two patches in a row act as one patch holding both, the later winning on every field both hold; a patch applied twice acts once |
| Reducer.RecordBricksAndScore | src/app/components/game/Game.tsx:111-124 | bricks are replaced and the score grows by the amount given; the status is level-complete exactly when it already was, or the game was playing and every brick is destroyed; otherwise it is unchanged; nothing else changes |
| Reducer.BeginGame | src/app/components/game/Game.tsx:127-137 | a new game has score 0, level 0, the initial lives, level 0's bricks, status level-starting and all power-up overrides off |
| Reducer.AdvanceLevel | src/app/components/game/Game.tsx:138-149 | the level goes up by one with its bricks loaded, status level-starting, overrides off, and score and lives kept |
| Reducer.TakeLife | src/app/components/game/Game.tsx:150-164 | on the last life, lives become 0 and the game is over with nothing else changed; otherwise exactly one life goes, play resumes and the overrides reset; lives are never negative |
| Reducer.Reduce | src/app/components/game/Game.tsx:107-180 | reset yields the initial state with status start and no bricks; the status, power-ball, paddle-property and score setters change only their own fields, and a missing paddle property keeps its value |
| Reducer.PlayKeepsScoreAndLives | src/app/components/game/Game.tsx:111-174 | over any run of the actions the game dispatches during play, the score never falls, lives never grow, and both stay within bounds |
| Reducer.LevelCompleteOnlyFromPlaying | src/app/components/game/Game.tsx:113-114 | level-complete is entered only from playing, by a brick update that leaves every brick destroyed, or by an explicit status override |
| Reducer.LevelCompleteIsSticky | src/app/components/game/Game.tsx:113-114 | once the level is complete, brick updates never change the status again |
| Reducer.StartIsResetThenLoad | src/app/components/game/Game.tsx:127-166 | starting a game equals resetting and then loading level 0 and awaiting the intro, from any state |
| Reducer.PowerBallExpiryIdempotent | src/app/components/game/Game.tsx:173-174 | switching the power-ball off twice is the same as once, so a late expiry is harmless |
| Reducer.EndTickAsWritten | src/app/components/game/Game.tsx:571-590 | as written, a flagged life loss always leaves the game playing or over, whatever the brick update did; without one, the tick's result is the brick update alone |
| Reducer.CompletionLostToLifeLoss | src/app/components/game/Game.tsx:571-590 | when the last brick and the last ball go in the same tick with lives to spare, the game is left playing with every brick destroyed |
| Reducer.EndTick | src/app/components/game/Game.tsx:571-590 | corrected: a tick that destroys the last brick while playing completes the level and costs no life |
| Reducer.EndTickAgreesOtherwise | src/app/components/game/Game.tsx:571-590 | the corrected and written dispatch orders agree on every playing tick that does not complete the level |
| PaddleRules.Clamp | src/app/components/game/Game.tsx:321 | the clamped value is never negative, is at most the bound when the bound is non-negative, is unchanged when already in range, and is otherwise one of the two ends |
| PaddleRules.MovePaddleAsWritten | src/app/components/game/Game.tsx:318-323 | as written, the paddle is kept inside the board only for the width of the previous tick; it then takes the current width and laser mode |
| PaddleRules.PaddleOverhangsAfterExtend | src/app/components/game/Game.tsx:321-322 | a paddle at the right edge overhangs the board in the tick an `extend` widens it |
| PaddleRules.MovePaddle | src/app/components/game/Game.tsx:318-323 | corrected: the paddle lies inside the board for its current width; a move that keeps it inside is taken unchanged |
| PaddleRules.MovePaddleAgreesAtSameWidth | src/app/components/game/Game.tsx:321-322 | the corrected and written input handling agree whenever the width does not change |
| PaddleRules.FollowPaddle | src/app/components/game/Game.tsx:325-328 | a lone ball with no vertical speed is moved to the paddle's centre and is otherwise unchanged; any other set of balls is untouched |
| PaddleRules.NewLifeBallRidesPaddle | src/app/components/game/Game.tsx:187-202 | the ball created for a new life is stuck and already centred, so following leaves it in place; a launched ball is never stuck |
| PaddleRules.FireLasers | src/app/components/game/Game.tsx:330-339 | a volley fires exactly when fire is held, laser mode is on and more than 200 ms have passed; it appends two lasers at the paddle's edges, inset by 5, sharing the new volley number, and records the time; otherwise nothing changes |
| PaddleRules.FiringKeepsIdsAndCooldown | src/app/components/game/Game.tsx:330-339 | laser ids stay unique and bounded by the volley count, and two consecutive volleys are more than the cooldown apart |
| Motion.AgeParticles | src/app/components/game/Game.tsx:342-351 | exactly the particles no older than 800 ms survive; each drifts by its velocity and its opacity is one minus its age over the lifespan, within [0, 1] |
| Motion.AgeingComposes | src/app/components/game/Game.tsx:342-351 | ageing at one time and then at a later one keeps exactly the particles that ageing once at the later time keeps |
| Motion.DropPowerUps | src/app/components/game/Game.tsx:353-357 | every power-up falls by the elapsed time, and exactly those still above the bottom are kept |
| Motion.AdvanceLasers | src/app/components/game/Game.tsx:359-363 | every laser rises by ten per frame, and exactly those still below the top are kept |
| Motion.TrailHoldsLatestPositions | src/app/components/game/Game.tsx:367 | after any number of moves the trail holds exactly the most recent positions, at most five, oldest first |
| Motion.MoveBall | src/app/components/game/Game.tsx:366-372 | corrected, with positions copied by value (the written sharing is in `Aliasing`): the trail grows by the position before the move and keeps at most five entries; the ball advances by its velocity, times 1.2 while the power-ball is active |
| Motion.MoveBalls | src/app/components/game/Game.tsx:366-372 | corrected, with positions copied by value: every ball moves on its own, in order |
| PowerUps.ExtendWidth | src/app/components/game/Game.tsx:392 | `extend` widens the paddle by 40 up to a cap of 240 |
| PowerUps.ExtendReachesCap | src/app/components/game/Game.tsx:392 | three `extend`s from the default width reach the cap, and a fourth changes nothing |
| PowerUps.SplitBalls | src/app/components/game/Game.tsx:397-411 | corrected, with each spawned ball given its own copy of the position (the written sharing is in `Aliasing`): `multi-ball` triples the ball count; the existing balls stay in front, and each spawns two balls with fresh ids at its position and trail, rising as fast as it did, and drifting sideways by at most half the initial speed |
| PowerUps.SplitKeepsIdsUnique | src/app/components/game/Game.tsx:397-411 | spawned balls keep all ball ids distinct and bounded by the counter |
| PowerUps.ApplyEffect | src/app/components/game/Game.tsx:388-420 | `extend` dispatches the width capped from the tick's starting width, `laser` dispatches laser mode and `power-ball` switches the effect on; `multi-ball` dispatches nothing and triples the balls; no other effect touches the balls |
| PowerUps.CollectPowerUps | src/app/components/game/Game.tsx:376-423 | the pass collects exactly the power-ups touching the paddle; the actions dispatched are those of each caught power-up, in list order; the ball count is multiplied by three for each `multi-ball` caught; the balls before the pass keep their place; ids stay unique |
| PowerUps.DispatchedIffCaught | src/app/components/game/Game.tsx:386-423 | the action of `extend`, `laser` or `power-ball` is dispatched exactly when a power-up of that kind touches the paddle |
| PowerUps.RemoveIds | src/app/components/game/Game.tsx:424-426 | the result holds exactly the power-ups whose id was not collected |
| PowerUps.PowerUpsAfterTickAsWritten | src/app/components/game/Game.tsx:424-426 | as written, the carried list holds only power-ups from before the tick; when nothing is collected it is the plain fall-and-drop list |
| PowerUps.DroppedPowerUpsVanish | src/app/components/game/Game.tsx:556-565 | as written, no power-up dropped by a brick in the tick is ever carried on |
| PowerUps.FallenPowerUpReturns | src/app/components/game/Game.tsx:424-426 | as written, a power-up that falls past the bottom in the tick another is collected stays in the list |
| PowerUps.PowerUpsAfterTick | src/app/components/game/Game.tsx:353-565 | corrected: every power-up dropped this tick is carried on, and so is every one still on the board and not collected; nothing else is |
| Collisions.WallBounce | src/app/components/game/Game.tsx:432-443 | at a side wall the horizontal speed is reversed and the ball is put back within one radius of the edges; at the top the vertical speed is reversed and the ball put one radius down; an axis with no wall contact keeps its position and speed, so a ball touching no wall is unchanged |
| Collisions.WallBounceTurnsInward | src/app/components/game/Game.tsx:432-443 | a ball moving into a wall it touches is sent back into the board |
| Collisions.HitPositionBounded | src/app/components/game/Game.tsx:446-455 | for a ball meeting the paddle, the hit position lies within one radius, in half-widths, of the range from -1 to 1 |
| Collisions.Unflatten | src/app/components/game/Game.tsx:461-464 | a vertical speed under a fifth of the speed is replaced by one in the same direction, between 0.15 and 0.25 of the speed; any other vertical speed is kept |
| Collisions.PaddleBounce | src/app/components/game/Game.tsx:453-464 | the ball is put on the paddle's top, leaves with horizontal speed speed·sin, and, for a forward angle, rises at least 0.15 times its speed |
| Collisions.PaddleStep | src/app/components/game/Game.tsx:446-469 | a falling ball that meets the paddle is reflected; every other ball, rising, level or missing the paddle, is untouched |
| Collisions.ReflectedBallRises | src/app/components/game/Game.tsx:446-469 | a reflected ball rises, so it does not meet the paddle again straight away |
| Collisions.RemoveLost | src/app/components/game/Game.tsx:472-477 | exactly the balls still above the bottom are kept; a life is lost exactly when there were balls and none is kept |
| Collisions.LifeLostOnlyWithLastBall | src/app/components/game/Game.tsx:472-477 | no life is lost while any ball is still in play, nor when there were no balls |
| Collisions.LaserTarget | src/app/components/game/Game.tsx:484-496 | the laser's target is the first standing, not-yet-hit brick that contains it, edges included; there is none exactly when no such brick exists |
| Collisions.LaserHits | src/app/components/game/Game.tsx:479-506 | lasers only add ids of standing, not-yet-hit bricks; each laser that hits adds exactly one new id and disappears; the lasers kept are some of those given; none of them is inside a brick that is still open |
| Collisions.LaserHitsSound | src/app/components/game/Game.tsx:484-498 | every brick the lasers hit was open and is one that a laser they consumed is inside |
| Collisions.LaserHitsKeepsMisses | src/app/components/game/Game.tsx:484-501 | a laser inside no open brick is never consumed and flies on |
| Collisions.LasersAfterTickAsWritten | src/app/components/game/Game.tsx:360-506 | as written, the brick pass runs over the risen lasers before the top filter; with no hit the carried list is the filtered one, with a hit it is the pass's survivors |
| Collisions.LaserReturnsFromAboveTop | src/app/components/game/Game.tsx:484-506 | as written, a laser that rises above the top in the tick another laser hits a brick stays in the list |
| Collisions.LasersAfterTick | src/app/components/game/Game.tsx:360-506 | corrected: the carried lasers are risen lasers still below the top |
| Collisions.LasersAboveTopHitNothing | src/app/components/game/Game.tsx:484-498 | with every brick below the top, dropping the lasers above it before the brick pass or after it gives the same hits and the same lasers |
| Collisions.LaserHandOffAgreesBelowTop | src/app/components/game/Game.tsx:360-506 | both versions hit the same bricks and carry the same lasers below the top; they differ only in the lasers above it |
| Collisions.Deflect | src/app/components/game/Game.tsx:530-535 | a deflection changes at most the signs of the ball's speeds |
| Collisions.BallAgainstBricks | src/app/components/game/Game.tsx:509-538 | a ball changes at most the signs of its speeds, and not at all with the power-ball; every standing brick it overlaps ends up hit |
| Collisions.HitBricksDeflectNoOne | src/app/components/game/Game.tsx:511 | a ball whose overlapping bricks are all destroyed or already hit this tick is not deflected |
| Collisions.BallHits | src/app/components/game/Game.tsx:509-538 | every ball keeps its place and changes at most the signs of its speeds, and none changes with the power-ball; every standing brick any ball overlaps ends up hit |
| Collisions.BallAgainstBricksSound | src/app/components/game/Game.tsx:509-518 | every brick a ball hits is a brick that was open and that the ball overlaps |
| Collisions.BallHitsSound | src/app/components/game/Game.tsx:509-518 | every brick the balls hit is a standing brick that one of them overlaps |
| Damage.Hit | src/app/components/game/Game.tsx:543-567 | a silver brick with more than one hit left, without the power-ball, loses one hit and keeps its destroyed flag; any other hit brick is destroyed; position, size and kind never change |
| Damage.ApplyHits | src/app/components/game/Game.tsx:542-570 | every hit brick is hit exactly once and every other brick is unchanged, in the same order |
| Damage.ResolveHits | src/app/components/game/Game.tsx:541-572 | the bricks are the hits applied, the score is ten per brick broken, an update is reported exactly when some brick was hit, and each drop gets the next power-up id |
| Damage.Drops | src/app/components/game/Game.tsx:555-565 | there are no more drops than bricks broken, and they are numbered consecutively from the counter |
| Damage.DropsCount | src/app/components/game/Game.tsx:555-565 | there are exactly as many drops as broken bricks whose draw is a drop |
| Damage.BrokenBricksDrop | src/app/components/game/Game.tsx:555-565 | every broken brick whose draw is a drop yields a power-up of the kind drawn, centred on it, in brick order: its place in the list, and so its id, is set by the dropping bricks before it |
| Damage.DropsComeFromBrokenBricks | src/app/components/game/Game.tsx:555-565 | every drop comes from a broken brick whose draw was a drop; it has the kind drawn and is centred on that brick, 30 by 15 |
| Damage.SilverBreaksOnLastHit | src/app/components/game/Game.tsx:546-549 | a silver brick with n hits left survives n - 1 hits without the power-ball and breaks on the n-th |
| Damage.OneHitBreaks | src/app/components/game/Game.tsx:546-566 | a standard brick breaks on its first hit, and so does any brick while the power-ball is active |
| Damage.BreaksAreNewlyDestroyed | src/app/components/game/Game.tsx:541-570 | when every hit brick was standing, the bricks broken are exactly the newly destroyed ones |
| Damage.ScoreCountsNewlyDestroyed | src/app/components/game/Game.tsx:553 | when every hit brick was standing, the score earned is ten per newly destroyed brick |
| Damage.TickHitsStandingBricks | src/app/components/game/Game.tsx:479-539 | with distinct brick ids, every brick the tick's lasers and balls hit was standing |
| Damage.TickScoreCountsDestroyedBricks | src/app/components/game/Game.tsx:479-572 | with distinct brick ids, the score a tick earns is ten per brick it destroys, so it is never negative |
| Damage.NothingStandingNothingReported | src/app/components/game/Game.tsx:541-572 | with every brick destroyed, nothing is hit and no brick update is dispatched |
| Aliasing.MoveRefBall | src/app/components/game/Game.tsx:366-372 | as written, the trail receives a reference to the ball's position object, which is then moved in place |
| Aliasing.NewestTrailEntryIsLivePosition | src/app/components/game/Game.tsx:367-371 | as written, the newest trail entry is always drawn at the ball's current position |
| Aliasing.TrailDiffersFromValueTrail | src/app/components/game/Game.tsx:367-371 | whenever the ball moves, the written trail's newest entry differs from the intended one, which is the position before the move |
| Aliasing.TrailCollapsesOntoBall | src/app/components/game/Game.tsx:367-371 | as written, every trail entry of every ball is drawn at the ball itself, so the trail is invisible |
| Aliasing.SplitRefBalls | src/app/components/game/Game.tsx:400-409 | as written, spawned balls share their parent's position object and trail |
| Aliasing.SpawnedBallsMoveAsOne | src/app/components/game/Game.tsx:400-411 | as written, spawned balls are drawn at their parent's position after the move: they never separate |
| Aliasing.SharedPositionMovesBySum | src/app/components/game/Game.tsx:366-372 | balls sharing one position object move it by the sum of their velocities |
| Aliasing.MultiBallAsWrittenExample | src/app/components/game/Game.tsx:398-411 | as written, a ball at (400, 300) moving at (4, -4) that collects `multi-ball` becomes three balls at one point, (404, 288), after one move |
| Aliasing.MultiBallExample | src/app/components/game/Game.tsx:398-411 | with values, a ball at (400, 300) moving at (4, -4) splits into balls with velocities (4, -4), (-1, -4) and (1, -4); after one move each they are at (404, 296), (399, 296) and (401, 296), each with the trail [(400, 300)] |
| Aliasing.SpawnedBallsSeparate | src/app/components/game/Game.tsx:398-411 | with values, after `multi-ball` and a move, every ball is where its own velocity took it and its newest trail entry is where it was |
| Music.NextStep | src/app/game/music.ts:68-72 | the step stays in [0, 16), advancing by one and wrapping from 15 to 0 |
| Music.ScheduleNote | src/app/game/music.ts:74-97 | bass plays exactly on even steps, with a note of the bass table; kick plays exactly when the step is divisible by 4; snare plays exactly on steps 4 and 12 of the bar; the arpeggio plays a note of its table exactly when the random gate exceeds 0.1 (`BarPattern` gives the note of each step) |
| Music.BarPattern | src/app/game/music.ts:16-97 | over one bar the kicks fall on steps 0, 4, 8 and 12, the snares on 4 and 12, and the bass on the even steps: low C on steps 0 to 7, E-flat on 8 and 10, F on 12 and 14; with the gate open the arpeggio plays 60, 63, 67, 70, 72, 67, 63, 75 twice over, and with it closed nothing |
| Music.ArpPattern | src/app/game/music.ts:91-96 | the arpeggio of each step of the bar is the table entry for the step modulo 8 when the gate opens, and silence when it does not |
| Music.QueueNotes | src/app/game/music.ts:60-63 | the loop queues a note exactly when the next note starts before the horizon; the first starts at the current step and time, all start before the horizon, and the next note afterwards starts at or after it |
| Music.QueuedNotesFollowTheBar | src/app/game/music.ts:60-72 | queued notes are consecutive steps a sixteenth note apart, each with its step's pattern; the scheduler resumes after the last |
| Music.Scheduler | src/app/game/music.ts:57-72 | while stopped nothing is scheduled and nothing changes; while playing, notes are queued exactly when the next note starts within 0.1 s of now, the first being the current step at the next note time; they are consecutive steps a sixteenth note apart, each with its step's pattern, all start within 0.1 s of now, and the sequencer resumes with the step and time after the last one, at least 0.1 s ahead; with nothing queued the state is unchanged; the flags and the gain are kept |
| Music.Play | src/app/game/music.ts:21-43 | play is a no-op when already playing; otherwise it readies the audio, creating the master gain at 0.3 whatever the mute flag says, starts playing and at once queues the bar's step 0 at the current time; mute is kept |
| Music.Stop | src/app/game/music.ts:45-48 | stop clears the playing flag; readiness, mute, step, next note time and gain are kept |
| Music.ToggleMute | src/app/game/music.ts:50-55 | the mute flag becomes the value given; once the audio exists the gain heads for 0 or 0.3 accordingly, before that it is left alone; playing, readiness, step and next note time are kept |
| Music.MuteKeepsSequencer | src/app/game/music.ts:50-55 | once the audio exists, muting sets the gain's target to 0 without stopping the sequencer, unmuting restores 0.3, and with the gain in step with the flag, muting and then restoring gives back the original state |
| Music.MuteBeforeStartIsLost | src/app/game/music.ts:21-55 | a mute before the music first starts is lost: play creates the gain at 0.3 while the flag still says muted |
| Music.GainStaysInStep | src/app/game/music.ts:21-55 | once the audio exists with the gain in step with the mute flag, every later call keeps them in step |
| Music.PlayStartsOnDownbeat | src/app/game/music.ts:39-42 | music started from silence opens with the kick and the low C together, and no snare |
| Music.StoppedIsSilent | src/app/game/music.ts:45-58 | after stop the scheduler schedules nothing |
| Music.PlayingFollowsLastCommand | src/app/game/music.ts:31-72 | over any sequence of calls the step stays in the bar, and the music plays exactly when the last play has not been followed by a stop |

## Left out

- Rendering and React: the JSX, the overlay, the HUD and the components that draw entities are not modelled. Neither are `useReducer`, `useRef`, `useEffect` and `requestAnimationFrame`; the model takes the state they hold as arguments.
- Event handlers: keyboard and mouse handlers and the launch on click are left out. Held keys are booleans passed to the tick helpers.
- The game-start, next-level and life-loss callbacks (`startGame`, `resetLevel`, `loseLife`) are left out. They only reset the moving entities to the factories' output, which `CreateInitialPaddle` and `CreateInitialBall` model.
- The power-ball timer (`setTimeout`, 10 s) is modelled only as the later `SET_POWER_BALL(false)` action it dispatches.
- Screen shake, sound effects and particle creation (`createParticles`) are visual or audio effects with no bearing on the rules.
- The whole tick is not composed into one function. Its fragments are modelled in source order, and so are their hand-offs: the carried power-up and laser lists, the hit set from lasers to balls, then the damage, then the dispatch order. `TickHits` takes the lasers the brick pass sees; `LaserHandOffAgreesBelowTop` shows that the risen list before the top filter and the filtered one give the same hits.
- Floating point: positions and speeds are exact reals, so rounding is not modelled.
- The paddle angle (`Math.PI / 2.5`, `sin`, `cos`) and ball speeds (`Math.sqrt`) are not computed. The caller supplies them, so `PaddleBounce` holds for any values given. `BallAgainstBricks` takes the speed function `norm` for the same reason.
- `levels.ts` (the layout table) and `themes.ts` (a colour table) are not part of this model.
- Web Audio synthesis is left out: `playBass`, `playArp`, `playKick`, `playSnare`, `midiToFreq` and the audio context's suspension. The master gain is modelled as the value `setTargetAtTime` heads for; the 0.1 s ramp towards it is not. A scheduled note records the MIDI numbers and events it would play.
- `init` is asynchronous and can fail to create an audio context. The model assumes its synchronous part runs and succeeds, recorded as `ready`.
- Music.Scheduler, Music.QueueNotes: require the sequencer's invariant (step below 16, playing only once ready). Every operation of the model establishes and keeps that invariant.
- Reducer.ApplyPatch: a patch can only override a field with a value. A payload key explicitly set to `undefined` is not modelled; the game never dispatches one.
- Reducer.Reduce, Levels.LoadLevel: require a non-empty level table, as the game's own table is; an empty table would make the source index `undefined`.
- Collisions.PaddleBounce: states the upward direction and the 0.15 floor only for a positive cosine. For hit positions beyond ±1.25 the angle exceeds 90° and the source's sign follows the cosine.

## Findings

| source | as written | input that shows it | evidently intended | confidence | as-written member | corrected member |
|---|---|---|---|---|---|---|
| src/app/components/game/Game.tsx:321-322 | the paddle is clamped against its width from the previous tick and only then takes the new width | a paddle at x = 680 (right edge) collects `extend`: it becomes 160 wide at x = 680 and overhangs the board by 40 for a tick. Latent as written: the power-up it needs never enters play until the line 559 defect is fixed. | clamp against the width the paddle is about to take | not executed; medium | PaddleRules.MovePaddleAsWritten, PaddleRules.PaddleOverhangsAfterExtend | PaddleRules.MovePaddle |
| src/app/components/game/Game.tsx:367-371 | the trail stores a reference to the position object, which is then moved in place | any moving ball: every trail entry is drawn exactly on the ball | the trail records copies of the positions before each move | not executed; high | Aliasing.TrailCollapsesOntoBall, Aliasing.TrailDiffersFromValueTrail | Motion.MoveBall |
| src/app/components/game/Game.tsx:400-409 | spawned balls copy their parent with `...`, so all three share one position object | a ball at (400, 300) moving at (4, -4) collects `multi-ball`: after one move all three are drawn at (404, 288). Latent as written: the power-up it needs never enters play until the line 559 defect is fixed. | each spawned ball gets its own copy of the position | not executed; high | Aliasing.MultiBallAsWrittenExample, Aliasing.SpawnedBallsMoveAsOne | PowerUps.SplitBalls, Aliasing.SpawnedBallsSeparate |
| src/app/components/game/Game.tsx:559 | dropped power-ups are pushed onto the array from before the tick, which line 354 has already replaced; a collection (line 425) filters that old array | any brick's drop never appears; a power-up passing the bottom in the tick another is collected stays in play | drops join the carried list, and collection filters the list after the fall | not executed; high | PowerUps.PowerUpsAfterTickAsWritten, PowerUps.DroppedPowerUpsVanish, PowerUps.FallenPowerUpReturns | PowerUps.PowerUpsAfterTick |
| src/app/components/game/Game.tsx:571-590 | the brick update is dispatched before the life loss, and the life loss sets status `playing` | the last brick and the last ball go in one tick with 3 lives: 2 lives, status playing, every brick destroyed, and no later tick can complete the level. A ball below the board overlaps no brick, so only a laser can break the last brick in that tick; latent as written, since lasers need a power-up that never enters play until the line 559 defect is fixed | completing the level takes precedence over the lost ball | not executed; medium | Reducer.EndTickAsWritten, Reducer.CompletionLostToLifeLoss | Reducer.EndTick, Damage.NothingStandingNothingReported |
| src/app/components/game/Game.tsx:484-506 | the laser-brick pass runs over the lasers from before the top filter of line 360, and after any hit line 505 replaces the filtered list with that pass's survivors | a laser at y = 5 rises to y = -5 in the tick another laser hits a brick: it is carried on, above the board, and keeps coming back while lasers keep hitting. It hits nothing up there. Latent as written, since lasers need a power-up that never enters play until the line 559 defect is fixed | carry on the lasers below the top that hit nothing | not executed; medium | Collisions.LasersAfterTickAsWritten, Collisions.LaserReturnsFromAboveTop | Collisions.LasersAfterTick, Collisions.LaserHandOffAgreesBelowTop |

/** The background music: a sixteen-step sequencer at 105 beats per minute
    whose scheduler, called every 25 ms, queues every sixteenth note that
    starts within the next 0.1 s. Each step plays a fixed pattern of bass,
    kick, snare and a randomly gated arpeggio note. Only the step and timing
    logic is modelled; the sound synthesis is not. */
module Music {
  import opened Wrappers

  const Tempo: real := 105.0
  const ScheduleAhead: real := 0.1
  const StepsPerBar: nat := 16

  /** A sixteenth note at the tempo, in seconds. */
  const NoteLength: real := 0.25 * (60.0 / Tempo)

  const BassNotes: seq<int> := [36, 36, 36, 36, 39, 39, 41, 41]
  const ArpNotes: seq<int> := [60, 63, 67, 70, 72, 67, 63, 75]

  /** The master volume the mute flag sets. */
  const Volume: real := 0.3

  /** What one step plays at `time`: MIDI note numbers for the bass and the
      arpeggio when they play. */
  datatype Note = Note(step: nat, time: real, bass: Option<int>, kick: bool, snare: bool, arp: Option<int>)

  /** The step after `step` in the sixteen-step bar. */
  function NextStep(step: nat): (r: nat)
    ensures r < StepsPerBar
    ensures step < StepsPerBar - 1 ==> r == step + 1
    ensures step == StepsPerBar - 1 ==> r == 0
  {
    (step + 1) % StepsPerBar
  }

  /** The pattern for `beat`: bass on every eighth note, stepping through
      `BassNotes` once per bar; kick on every beat; snare on the backbeats;
      the arpeggio on every step unless the random `gate` draw in [0, 1) is
      at most 0.1. */
  function ScheduleNote(beat: nat, time: real, gate: real): (n: Note)
    ensures n.step == beat && n.time == time
    ensures n.bass.Some? <==> beat % 2 == 0
    ensures n.bass.Some? ==> n.bass.value in BassNotes
    ensures n.kick <==> beat % 4 == 0
    ensures n.snare <==> beat % 16 == 4 || beat % 16 == 12
    ensures n.arp.Some? <==> gate > 0.1
    ensures n.arp.Some? ==> n.arp.value in ArpNotes
  {
    Note(beat, time,
         if beat % 2 == 0 then Some(BassNotes[(beat / 2) % 8]) else None,
         beat % 4 == 0,
         beat % 16 == 4 || beat % 16 == 12,
         if gate > 0.1 then Some(ArpNotes[beat % 8]) else None)
  }

  /** Over one bar the bass plays C for the first half, then E-flat, then F;
      the kick falls on the four beats and the snare on the second and
      fourth. */
  lemma BarPattern(gate: real)
    ensures (set s | 0 <= s < StepsPerBar && ScheduleNote(s, 0.0, gate).kick) == {0, 4, 8, 12}
    ensures (set s | 0 <= s < StepsPerBar && ScheduleNote(s, 0.0, gate).snare) == {4, 12}
    ensures (set s | 0 <= s < StepsPerBar && ScheduleNote(s, 0.0, gate).bass.Some?) == {0, 2, 4, 6, 8, 10, 12, 14}
    ensures forall s :: 0 <= s < 8 ==> ScheduleNote(s, 0.0, gate).bass.Some? ==> ScheduleNote(s, 0.0, gate).bass == Some(36)
    ensures ScheduleNote(8, 0.0, gate).bass == Some(39) && ScheduleNote(10, 0.0, gate).bass == Some(39)
    ensures ScheduleNote(12, 0.0, gate).bass == Some(41) && ScheduleNote(14, 0.0, gate).bass == Some(41)
    ensures gate > 0.1 ==> forall s :: 0 <= s < StepsPerBar ==> ScheduleNote(s, 0.0, gate).arp == Some(ArpBar[s])
    ensures gate <= 0.1 ==> forall s :: 0 <= s < StepsPerBar ==> ScheduleNote(s, 0.0, gate).arp == None
  {
    KickPattern(gate);
    SnarePattern(gate);
    BassPattern(gate);
    ArpPattern(gate);
  }

  /** The arpeggio over one bar when every gate opens: C, E-flat, G, B-flat,
      high C, G, E-flat, high E-flat, twice. */
  const ArpBar: seq<int> := [60, 63, 67, 70, 72, 67, 63, 75, 60, 63, 67, 70, 72, 67, 63, 75]

  lemma ArpPattern(gate: real)
    ensures gate > 0.1 ==> forall s :: 0 <= s < StepsPerBar ==> ScheduleNote(s, 0.0, gate).arp == Some(ArpBar[s])
    ensures gate <= 0.1 ==> forall s :: 0 <= s < StepsPerBar ==> ScheduleNote(s, 0.0, gate).arp == None
  {
    forall s | 0 <= s < StepsPerBar && gate > 0.1
      ensures ScheduleNote(s, 0.0, gate).arp == Some(ArpBar[s])
    {
      assert ArpBar[s] == ArpNotes[s % 8];
    }
  }

  lemma KickPattern(gate: real)
    ensures (set s | 0 <= s < StepsPerBar && ScheduleNote(s, 0.0, gate).kick) == {0, 4, 8, 12}
  {
    var kicks := set s | 0 <= s < StepsPerBar && ScheduleNote(s, 0.0, gate).kick;
    assert forall s :: s in kicks <==> s in {0, 4, 8, 12};
  }

  lemma SnarePattern(gate: real)
    ensures (set s | 0 <= s < StepsPerBar && ScheduleNote(s, 0.0, gate).snare) == {4, 12}
  {
    var snares := set s | 0 <= s < StepsPerBar && ScheduleNote(s, 0.0, gate).snare;
    assert forall s :: s in snares <==> s in {4, 12};
  }

  lemma BassPattern(gate: real)
    ensures (set s | 0 <= s < StepsPerBar && ScheduleNote(s, 0.0, gate).bass.Some?) == {0, 2, 4, 6, 8, 10, 12, 14}
    ensures forall s :: 0 <= s < 8 ==> ScheduleNote(s, 0.0, gate).bass.Some? ==> ScheduleNote(s, 0.0, gate).bass == Some(36)
    ensures ScheduleNote(8, 0.0, gate).bass == Some(39) && ScheduleNote(10, 0.0, gate).bass == Some(39)
    ensures ScheduleNote(12, 0.0, gate).bass == Some(41) && ScheduleNote(14, 0.0, gate).bass == Some(41)
  {
    BassSteps(gate);
    LowBassFirstHalf(gate);
    HighBassSecondHalf(gate);
  }

  lemma LowBassFirstHalf(gate: real)
    ensures forall s :: 0 <= s < 8 ==> ScheduleNote(s, 0.0, gate).bass.Some? ==> ScheduleNote(s, 0.0, gate).bass == Some(36)
  {
    forall s | 0 <= s < 8 && ScheduleNote(s, 0.0, gate).bass.Some?
      ensures ScheduleNote(s, 0.0, gate).bass == Some(36)
    {
      assert s == 0 || s == 2 || s == 4 || s == 6;
    }
  }

  lemma HighBassSecondHalf(gate: real)
    ensures ScheduleNote(8, 0.0, gate).bass == Some(39) && ScheduleNote(10, 0.0, gate).bass == Some(39)
    ensures ScheduleNote(12, 0.0, gate).bass == Some(41) && ScheduleNote(14, 0.0, gate).bass == Some(41)
  {
  }

  lemma BassSteps(gate: real)
    ensures (set s | 0 <= s < StepsPerBar && ScheduleNote(s, 0.0, gate).bass.Some?) == {0, 2, 4, 6, 8, 10, 12, 14}
  {
    var basses := set s | 0 <= s < StepsPerBar && ScheduleNote(s, 0.0, gate).bass.Some?;
    assert forall s :: s in basses <==> s in {0, 2, 4, 6, 8, 10, 12, 14};
  }

  /** The number of whole sixteenth notes from `t` to `horizon`, which
      bounds the scheduler's loop. */
  function NotesBefore(t: real, horizon: real): nat {
    if t < horizon then ((horizon - t) / NoteLength).Floor as nat + 1 else 0
  }

  lemma NotesBeforeDecreases(t: real, horizon: real)
    requires t < horizon
    ensures NotesBefore(t + NoteLength, horizon) < NotesBefore(t, horizon)
  {
    var x := (horizon - t) / NoteLength;
    assert (horizon - (t + NoteLength)) / NoteLength == x - 1.0;
    assert (x - 1.0).Floor == x.Floor - 1;
  }

  datatype Queued = Queued(notes: seq<Note>, step: nat, nextNoteTime: real)

  /** Queues every step starting before `horizon`, from `step` at time `t`;
      `gates(k)` is the random draw for the `k`-th note queued. */
  function QueueNotes(step: nat, t: real, horizon: real, gates: nat -> real, k: nat): (r: Queued)
    requires step < StepsPerBar
    ensures r.step < StepsPerBar
    ensures t < horizon <==> |r.notes| > 0
    ensures |r.notes| > 0 ==> r.notes[0].step == step && r.notes[0].time == t
    ensures forall i :: 0 <= i < |r.notes| ==> r.notes[i].time < horizon
    ensures |r.notes| == 0 ==> r.step == step && r.nextNoteTime == t
    ensures r.nextNoteTime >= horizon
    decreases NotesBefore(t, horizon)
  {
    if t >= horizon then Queued([], step, t)
    else
      NotesBeforeDecreases(t, horizon);
      var rest := QueueNotes(NextStep(step), t + NoteLength, horizon, gates, k + 1);
      Queued([ScheduleNote(step, t, gates(k))] + rest.notes, rest.step, rest.nextNoteTime)
  }

  /** Each note is the step after the one before it, a sixteenth note later. */
  predicate Consecutive(notes: seq<Note>) {
    forall i :: 0 < i < |notes| ==>
      notes[i].step == NextStep(notes[i - 1].step) && notes[i].time == notes[i - 1].time + NoteLength
  }

  /** Each note plays the pattern of its step, with the `k + i`-th gate draw. */
  predicate Patterned(notes: seq<Note>, gates: nat -> real, k: nat) {
    forall i :: 0 <= i < |notes| ==> notes[i] == ScheduleNote(notes[i].step, notes[i].time, gates(k + i))
  }

  /** The scheduler resumes with the step and time after the last note. */
  predicate ResumesAfter(r: Queued) {
    |r.notes| > 0 ==> r.step == NextStep(r.notes[|r.notes| - 1].step)
                      && r.nextNoteTime == r.notes[|r.notes| - 1].time + NoteLength
  }

  /** The queued notes are consecutive steps of the bar, a sixteenth note
      apart, each playing the pattern of its step; the scheduler resumes
      with the step and time after the last of them. */
  lemma QueuedNotesFollowTheBar(step: nat, t: real, horizon: real, gates: nat -> real, k: nat)
    requires step < StepsPerBar
    ensures var r := QueueNotes(step, t, horizon, gates, k);
            Consecutive(r.notes) && Patterned(r.notes, gates, k) && ResumesAfter(r)
  {
    QueuedNotesConsecutive(step, t, horizon, gates, k);
    QueuedNotesPatterned(step, t, horizon, gates, k);
  }

  lemma {:induction false} QueuedNotesConsecutive(step: nat, t: real, horizon: real, gates: nat -> real, k: nat)
    requires step < StepsPerBar
    ensures var r := QueueNotes(step, t, horizon, gates, k);
            Consecutive(r.notes) && ResumesAfter(r)
    decreases NotesBefore(t, horizon)
  {
    if t < horizon {
      NotesBeforeDecreases(t, horizon);
      var next := NextStep(step);
      var rest := QueueNotes(next, t + NoteLength, horizon, gates, k + 1);
      QueuedNotesConsecutive(next, t + NoteLength, horizon, gates, k + 1);
      var notes := [ScheduleNote(step, t, gates(k))] + rest.notes;
      assert QueueNotes(step, t, horizon, gates, k) == Queued(notes, rest.step, rest.nextNoteTime);
      assert notes[0].step == step && notes[0].time == t;
      assert forall i :: 0 < i < |notes| ==> notes[i] == rest.notes[i - 1];
    }
  }

  lemma {:induction false} QueuedNotesPatterned(step: nat, t: real, horizon: real, gates: nat -> real, k: nat)
    requires step < StepsPerBar
    ensures Patterned(QueueNotes(step, t, horizon, gates, k).notes, gates, k)
    decreases NotesBefore(t, horizon)
  {
    if t < horizon {
      NotesBeforeDecreases(t, horizon);
      var next := NextStep(step);
      var rest := QueueNotes(next, t + NoteLength, horizon, gates, k + 1).notes;
      QueuedNotesPatterned(next, t + NoteLength, horizon, gates, k + 1);
      var n := ScheduleNote(step, t, gates(k));
      QueueNotesUnfolds(step, t, horizon, gates, k);
      PatternedCons(n, rest, gates, k);
    }
  }

  lemma QueueNotesUnfolds(step: nat, t: real, horizon: real, gates: nat -> real, k: nat)
    requires step < StepsPerBar && t < horizon
    ensures QueueNotes(step, t, horizon, gates, k).notes
            == [ScheduleNote(step, t, gates(k))] + QueueNotes(NextStep(step), t + NoteLength, horizon, gates, k + 1).notes
  {
    NotesBeforeDecreases(t, horizon);
  }

  lemma PatternedCons(n: Note, rest: seq<Note>, gates: nat -> real, k: nat)
    requires n == ScheduleNote(n.step, n.time, gates(k)) && Patterned(rest, gates, k + 1)
    ensures Patterned([n] + rest, gates, k)
  {
    var notes := [n] + rest;
    forall i | 0 < i < |notes|
      ensures notes[i] == ScheduleNote(notes[i].step, notes[i].time, gates(k + i))
    {
      assert notes[i] == rest[i - 1];
      assert k + 1 + (i - 1) == k + i;
    }
  }

  /** The sequencer's state; `ready` records that the audio context and its
      master gain exist, and `gain` is the volume the master gain is set to
      head for (it means nothing before the context exists). */
  datatype MusicState = MusicState(ready: bool, isPlaying: bool, isMuted: bool, step: nat, nextNoteTime: real,
                                   gain: real)

  const InitialMusic: MusicState := MusicState(false, false, false, 0, 0.0, 0.0)

  predicate Valid(s: MusicState) {
    s.step < StepsPerBar && (s.isPlaying ==> s.ready)
  }

  datatype Scheduled = Scheduled(state: MusicState, notes: seq<Note>)

  /** One call of the scheduler at time `now`: nothing while stopped, else
      every note that starts within the look-ahead window. */
  function Scheduler(s: MusicState, now: real, gates: nat -> real): (r: Scheduled)
    requires Valid(s)
    ensures Valid(r.state)
    ensures !s.isPlaying ==> r.notes == [] && r.state == s
    ensures r.state.ready == s.ready && r.state.isPlaying == s.isPlaying && r.state.isMuted == s.isMuted
    ensures r.state.gain == s.gain
    ensures s.isPlaying ==> r.state.nextNoteTime >= now + ScheduleAhead
    ensures forall i :: 0 <= i < |r.notes| ==> r.notes[i].time < now + ScheduleAhead
    ensures s.isPlaying ==> (s.nextNoteTime < now + ScheduleAhead <==> |r.notes| > 0)
    ensures |r.notes| > 0 ==> r.notes[0].step == s.step && r.notes[0].time == s.nextNoteTime
    ensures |r.notes| == 0 ==> r.state == s
    ensures Consecutive(r.notes) && Patterned(r.notes, gates, 0)
    ensures ResumesAfter(Queued(r.notes, r.state.step, r.state.nextNoteTime))
  {
    if !s.isPlaying || !s.ready then Scheduled(s, [])
    else
      var q := QueueNotes(s.step, s.nextNoteTime, now + ScheduleAhead, gates, 0);
      QueuedNotesFollowTheBar(s.step, s.nextNoteTime, now + ScheduleAhead, gates, 0);
      Scheduled(s.(step := q.step, nextNoteTime := q.nextNoteTime), q.notes)
  }

  /** Starts the music at `now` unless it is already playing: the audio
      context is created if missing, with its master gain at full volume
      whatever the mute flag says, the bar restarts at step 0 and the
      scheduler runs at once. */
  function Play(s: MusicState, now: real, gates: nat -> real): (r: Scheduled)
    requires Valid(s)
    ensures Valid(r.state) && r.state.ready && r.state.isPlaying && r.state.isMuted == s.isMuted
    ensures s.isPlaying ==> r.state == s && r.notes == []
    ensures !s.ready ==> r.state.gain == Volume
    ensures s.ready ==> r.state.gain == s.gain
    ensures !s.isPlaying ==> |r.notes| > 0 && r.notes[0].step == 0 && r.notes[0].time == now
  {
    var s1 := if s.ready then s else s.(ready := true, gain := Volume);
    if s1.isPlaying then Scheduled(s1, [])
    else Scheduler(s1.(isPlaying := true, step := 0, nextNoteTime := now), now, gates)
  }

  /** Stops the music; the pending scheduler call is cancelled. */
  function Stop(s: MusicState): (r: MusicState)
    ensures !r.isPlaying
    ensures r.ready == s.ready && r.isMuted == s.isMuted && r.step == s.step
    ensures r.nextNoteTime == s.nextNoteTime && r.gain == s.gain
    ensures Valid(s) ==> Valid(r)
  {
    s.(isPlaying := false)
  }

  /** The volume the mute flag asks for. */
  function TargetVolume(muted: bool): real {
    if muted then 0.0 else Volume
  }

  /** Sets the mute flag; once the audio context exists the master gain
      heads for the volume the flag asks for, before that it is left
      alone. */
  function ToggleMute(s: MusicState, muted: bool): (r: MusicState)
    ensures r.isMuted == muted && r.isPlaying == s.isPlaying && r.step == s.step && r.ready == s.ready
    ensures r.nextNoteTime == s.nextNoteTime
    ensures s.ready ==> r.gain == TargetVolume(muted)
    ensures !s.ready ==> r.gain == s.gain
    ensures Valid(s) ==> Valid(r)
  {
    if s.ready then s.(isMuted := muted, gain := TargetVolume(muted)) else s.(isMuted := muted)
  }

  /** The master gain agrees with the mute flag, once there is one. */
  predicate GainFollowsMute(s: MusicState) {
    s.ready ==> s.gain == TargetVolume(s.isMuted)
  }

  /** Once the audio context exists, muting silences the music without
      stopping the sequencer, unmuting restores the volume, and muting and
      then restoring the flag gives back the state. */
  lemma MuteKeepsSequencer(s: MusicState)
    requires s.ready
    ensures ToggleMute(s, true).gain == 0.0 && ToggleMute(s, false).gain == Volume
    ensures ToggleMute(s, true).isPlaying == s.isPlaying && ToggleMute(s, true).step == s.step
    ensures GainFollowsMute(s) ==> ToggleMute(ToggleMute(s, true), s.isMuted) == s
  {
  }

  /** A mute before the music first starts is lost: the audio context is
      created at full volume while the flag still says muted. */
  lemma MuteBeforeStartIsLost(now: real, gates: nat -> real)
    ensures var s := Play(ToggleMute(InitialMusic, true), now, gates).state;
            s.isMuted && s.gain == Volume && !GainFollowsMute(s)
  {
  }

  /** Music started from silence opens the bar on its downbeat: kick and the
      low C, together. */
  lemma PlayStartsOnDownbeat(s: MusicState, now: real, gates: nat -> real)
    requires Valid(s) && !s.isPlaying
    ensures var n := Play(s, now, gates).notes[0];
            n.kick && n.bass == Some(36) && !n.snare
  {
  }

  /** A stopped sequencer schedules nothing, however often the timer fires. */
  lemma StoppedIsSilent(s: MusicState, now: real, gates: nat -> real)
    requires Valid(s)
    ensures Scheduler(Stop(s), now, gates).notes == []
  {
  }

  datatype Command = PlayAt(now: real) | StopNow | Mute(muted: bool) | Tick(now: real)

  /** One call, with `gates` as the random gate draws of any notes it queues. */
  function Call(s: MusicState, c: Command, gates: nat -> real): (r: MusicState)
    requires Valid(s)
    ensures Valid(r)
  {
    match c
    case PlayAt(now) => Play(s, now, gates).state
    case StopNow => Stop(s)
    case Mute(m) => ToggleMute(s, m)
    case Tick(now) => Scheduler(s, now, gates).state
  }

  /** A sequence of calls; the `j`-th call draws its gates from `gates(j)`. */
  function Perform(s: MusicState, cmds: seq<Command>, gates: nat -> nat -> real): (r: MusicState)
    requires Valid(s)
    ensures Valid(r)
    decreases |cmds|
  {
    if |cmds| == 0 then s
    else Perform(Call(s, cmds[0], gates(0)), cmds[1..], (j: nat) => gates(j + 1))
  }

  /** Whatever calls are made, the step stays within the bar, and the music
      is playing exactly when the last play has not been followed by a
      stop. */
  lemma {:induction false} PlayingFollowsLastCommand(s: MusicState, cmds: seq<Command>, gates: nat -> nat -> real)
    requires Valid(s)
    ensures Perform(s, cmds, gates).step < StepsPerBar
    ensures Perform(s, cmds, gates).isPlaying <==> LastSwitch(cmds, s.isPlaying)
    decreases |cmds|
  {
    if |cmds| > 0 {
      var s1 := Call(s, cmds[0], gates(0));
      PlayingFollowsLastCommand(s1, cmds[1..], (j: nat) => gates(j + 1));
      assert s1.isPlaying == (match cmds[0] case PlayAt(_) => true case StopNow => false case _ => s.isPlaying);
    }
  }

  /** Once the audio context exists with the gain in step with the mute
      flag, every later call keeps them in step. */
  lemma {:induction false} GainStaysInStep(s: MusicState, cmds: seq<Command>, gates: nat -> nat -> real)
    requires Valid(s) && s.ready && GainFollowsMute(s)
    ensures Perform(s, cmds, gates).ready && GainFollowsMute(Perform(s, cmds, gates))
    decreases |cmds|
  {
    if |cmds| > 0 {
      var s1 := Call(s, cmds[0], gates(0));
      assert s1.ready && GainFollowsMute(s1);
      GainStaysInStep(s1, cmds[1..], (j: nat) => gates(j + 1));
    }
  }

  /** Whether the last play or stop among `cmds` was a play, `playing` when
      there is none. */
  function LastSwitch(cmds: seq<Command>, playing: bool): bool
    decreases |cmds|
  {
    if |cmds| == 0 then playing
    else LastSwitch(cmds[1..], match cmds[0] case PlayAt(_) => true case StopNow => false case _ => playing)
  }
}

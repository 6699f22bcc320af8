/** The recording session of `recorder.py` as a pure state machine: the
  * `recording`/`paused` flags, the queue the two capture callbacks fill, and
  * the consumer loop of `record()` that pairs microphone and system blocks,
  * tracks silence, asks the two checkpoint questions and writes to the file.
  *
  * The three threads (two capture callbacks, the keyboard hooks and the
  * consumer) are interleaved as a schedule of ticks; the clock is the `now` of
  * each consumer pass; the answers to `input()` are a script; the level meter
  * (root-mean-square of the gated microphone block and of the system block) is
  * a parameter. */
module Session {
  import opened Wrappers
  import opened Audio
  import Text

  /** A pair is quiet when both levels are below this value. */
  const SilenceThreshold: real := 0.001
  /** Seconds of silence before the silence checkpoint asks to stop. */
  const SilenceLimit: int := 120
  /** Seconds since the start before the hour checkpoint asks to continue. */
  const HourLimit: int := 3600

  // ---------------------------------------------------------------------------
  // Pause and resume

  datatype Flags = Flags(recording: bool, paused: bool)

  /** `pause_recording`: whether it fired, and the flags afterwards. */
  function Pause(f: Flags): (bool, Flags) {
    if f.recording && !f.paused then (true, f.(paused := true)) else (false, f)
  }

  /** `resume_recording`: whether it fired, and the flags afterwards. */
  function Resume(f: Flags): (bool, Flags) {
    if f.recording && f.paused then (true, f.(paused := false)) else (false, f)
  }

  /** Pause fires exactly when recording and not paused, and then only sets
    * `paused`; otherwise it changes nothing. */
  lemma PauseFires(f: Flags)
    ensures Pause(f).0 <==> f.recording && !f.paused
    ensures Pause(f).0 ==> Pause(f).1 == Flags(true, true)
    ensures !Pause(f).0 ==> Pause(f).1 == f
  {
  }

  /** Resume fires exactly when recording and paused, and then only clears
    * `paused`; otherwise it changes nothing. */
  lemma ResumeFires(f: Flags)
    ensures Resume(f).0 <==> f.recording && f.paused
    ensures Resume(f).0 ==> Resume(f).1 == Flags(true, false)
    ensures !Resume(f).0 ==> Resume(f).1 == f
  {
  }

  /** A second pause in a row does not fire and changes nothing; the same holds
    * for resume. */
  lemma PauseIdempotent(f: Flags)
    ensures !Pause(Pause(f).1).0 && Pause(Pause(f).1).1 == Pause(f).1
    ensures !Resume(Resume(f).1).0 && Resume(Resume(f).1).1 == Resume(f).1
  {
  }

  /** Resuming right after a pause that fired restores the flags. */
  lemma ResumeUndoesPause(f: Flags)
    requires Pause(f).0
    ensures Resume(Pause(f).1) == (true, f)
  {
  }

  /** The stop key clears `recording` and leaves `paused`, and the resume key
    * no longer fires once recording has stopped: a session stopped while
    * paused stays paused, and since `start_recording` sets `recording` alone,
    * the next session of the same recorder begins paused. */
  lemma PauseOutlivesStop(s: State, start: int, meter: Meter)
    requires s.paused
    ensures var r := Step(s, Press(StopKey), start, meter);
      && !r.recording && r.paused
      && Step(r, Press(ResumeKey), start, meter).paused
  {
  }

  // ---------------------------------------------------------------------------
  // The schedule

  datatype Key = PauseKey | ResumeKey | StopKey

  datatype Tick =
    | Press(key: Key)                     // a keyboard hook runs
    | Arrive(source: Source, data: Block) // a capture callback enqueues a block
    | Poll(now: int)                      // one pass of the consumer loop, at time `now`

  datatype Checkpoint = SilencePrompt | HourPrompt

  /** What the consumer hands to the mixer: the two blocks cut to one length. */
  datatype Pair = Pair(mic: seq<Frame>, sys: seq<Frame>)

  /** The level meter: levels of the (noise-gated) microphone block and of the
    * system block. */
  datatype Meter = Meter(mic: seq<Frame> -> real, sys: seq<Frame> -> real)

  /** Everything the consumer loop reads or changes.  `blocked` means it waits in
    * `input()` with no scripted answer left; `prompts` are the checkpoint
    * questions it printed; `file` is what it passed to `file.write`. */
  datatype State = State(
    recording: bool, paused: bool, queue: seq<Tagged>,
    micBuffer: seq<Block>, systemBuffer: seq<Block>,
    silenceStart: Option<int>, silenceDuration: int, hourPromptShown: bool,
    answers: seq<string>, blocked: bool,
    prompts: seq<Checkpoint>, file: seq<Pair>)

  /** The state at the top of the loop: buffers empty, no silence, no prompt. */
  function Initial(f: Flags, queue: seq<Tagged>, answers: seq<string>): State {
    State(f.recording, f.paused, queue, [], [], None, 0, false, answers, false, [], [])
  }

  // ---------------------------------------------------------------------------
  // One consumer pass

  /** Both buffers concatenated and cut to the shorter length. */
  function PairUp(mic: seq<Block>, sys: seq<Block>): (p: Pair)
    ensures |p.mic| == |p.sys| == Min(|Concat(mic)|, |Concat(sys)|)
    ensures p.mic <= Concat(mic) && p.sys <= Concat(sys)
  {
    var m, y := Concat(mic), Concat(sys);
    var n := Min(|m|, |y|);
    Pair(m[..n], y[..n])
  }

  function IsQuiet(p: Pair, meter: Meter): bool {
    meter.mic(p.mic) < SilenceThreshold && meter.sys(p.sys) < SilenceThreshold
  }

  /** The silence timer after a pair: a quiet pair starts the timer if it is not
    * running and measures from its start; any other pair resets it. */
  function TrackSilence(start: Option<int>, quiet: bool, now: int): (Option<int>, int) {
    if quiet then
      var t := if start.None? then now else start.value;
      (Some(t), now - t)
    else (None, 0)
  }

  /** The dequeued block goes to the buffer its tag names. */
  function Buffer(s: State, b: Tagged): State {
    if b.source == Mic then s.(micBuffer := s.micBuffer + [b.data])
    else s.(systemBuffer := s.systemBuffer + [b.data])
  }

  /** `file.write` of the pair, then both buffers are emptied. */
  function Write(s: State, p: Pair): State {
    s.(file := s.file + [p], micBuffer := [], systemBuffer := [])
  }

  /** `input().lower() == 'y'`: the answer that stops at the silence question. */
  predicate SaysYes(answer: string) {
    Text.Lower(answer) == "y"
  }

  /** `input().lower() == 'n'`: the answer that stops at the hour question. */
  predicate SaysNo(answer: string) {
    Text.Lower(answer) == "n"
  }

  /** The hour checkpoint: asked once elapsed time reaches an hour, unless it was
    * answered before; `n` stops before the write, anything else continues. */
  function HourCheck(s: State, p: Pair, now: int, start: int): State {
    if now - start >= HourLimit && !s.hourPromptShown then
      var s1 := s.(prompts := s.prompts + [HourPrompt]);
      if s1.answers == [] then s1.(blocked := true)
      else if SaysNo(s1.answers[0]) then s1.(recording := false, answers := s1.answers[1..])
      else Write(s1.(answers := s1.answers[1..], hourPromptShown := true), p)
    else Write(s, p)
  }

  /** The silence checkpoint: asked when the timer reaches the limit; `y` stops
    * before the write, anything else resets the timer and goes on. */
  function SilenceCheck(s: State, p: Pair, now: int, start: int): State {
    if s.silenceDuration >= SilenceLimit then
      var s1 := s.(prompts := s.prompts + [SilencePrompt]);
      if s1.answers == [] then s1.(blocked := true)
      else if SaysYes(s1.answers[0]) then s1.(recording := false, answers := s1.answers[1..])
      else HourCheck(s1.(answers := s1.answers[1..], silenceStart := None, silenceDuration := 0), p, now, start)
    else HourCheck(s, p, now, start)
  }

  /** What the loop does with one dequeued block. */
  function Consume(s: State, b: Tagged, now: int, start: int, meter: Meter): State {
    Handle(Buffer(s, b), now, start, meter)
  }

  /** What the loop does after buffering: once both buffers hold audio, the
    * trimmed pair is measured, the timer updated and the questions asked. */
  function Handle(s: State, now: int, start: int, meter: Meter): State {
    if s.micBuffer == [] || s.systemBuffer == [] then s
    else
      var p := PairUp(s.micBuffer, s.systemBuffer);
      var timer := TrackSilence(s.silenceStart, IsQuiet(p, meter), now);
      SilenceCheck(s.(silenceStart := timer.0, silenceDuration := timer.1), p, now, start)
  }

  /** One tick of the schedule.  A pass of the loop does nothing once recording
    * has stopped, while paused, while waiting for an answer, or when the queue
    * is empty (the `get` times out). */
  function Step(s: State, t: Tick, start: int, meter: Meter): State {
    match t
    case Press(PauseKey) => s.(paused := Pause(Flags(s.recording, s.paused)).1.paused)
    case Press(ResumeKey) => s.(paused := Resume(Flags(s.recording, s.paused)).1.paused)
    case Press(StopKey) => s.(recording := false)
    case Arrive(source, data) => s.(queue := s.queue + [Tagged(source, ToStereo(data))])
    case Poll(now) =>
      if s.recording && !s.paused && !s.blocked && s.queue != [] then
        Consume(s.(queue := s.queue[1..]), s.queue[0], now, start, meter)
      else s
  }

  /** The state after a whole schedule. */
  function Run(s: State, ticks: seq<Tick>, start: int, meter: Meter): State
    decreases |ticks|
  {
    if ticks == [] then s
    else Step(Run(s, ticks[..|ticks| - 1], start, meter), ticks[|ticks| - 1], start, meter)
  }

  // ---------------------------------------------------------------------------
  // What one pass does

  /** A pass that has no pull from the queue, because the loop is paused,
    * changes nothing: the queue keeps every block and the timers stand still. */
  lemma PausedPollIdle(s: State, now: int, start: int, meter: Meter)
    requires s.paused
    ensures Step(s, Poll(now), start, meter) == s
  {
  }

  /** The answers that stop: `y` or `Y` at the silence question, `n` or `N` at
    * the hour question. */
  lemma StoppingAnswers(answer: string)
    ensures SaysYes(answer) <==> answer == "y" || answer == "Y"
    ensures SaysNo(answer) <==> answer == "n" || answer == "N"
  {
    Text.LowerMatches(answer, 'y');
    Text.LowerMatches(answer, 'n');
  }

  /** Either the pair is written whole and both buffers are emptied, or the loop
    * stops or waits for an answer before the write. */
  predicate WritesOrHalts(s: State, p: Pair, r: State) {
    || (&& r.file == s.file + [p] && r.micBuffer == [] && r.systemBuffer == []
        && r.recording == s.recording && r.blocked == s.blocked)
    || (r.file == s.file && (!r.recording || r.blocked))
  }

  /** The hour checkpoint is asked exactly when an hour has passed since the
    * start, wall-clock, and it was not answered before.  Answer `n` stops
    * without writing the pair; any other answer marks it answered and the pair
    * is written.  The silence timer is left alone. */
  lemma HourRule(s: State, p: Pair, now: int, start: int)
    ensures var r := HourCheck(s, p, now, start);
      && (|r.prompts| > |s.prompts| <==> now - start >= HourLimit && !s.hourPromptShown)
      && (|r.prompts| > |s.prompts| ==> r.prompts == s.prompts + [HourPrompt])
      && (|r.prompts| == |s.prompts| ==> r == Write(s, p))
      && (now - start >= HourLimit && !s.hourPromptShown && s.answers != [] ==>
            if SaysNo(s.answers[0]) then !r.recording && r.file == s.file
            else r.hourPromptShown && r.file == s.file + [p] && r.recording == s.recording)
      && r.silenceStart == s.silenceStart && r.silenceDuration == s.silenceDuration
      && WritesOrHalts(s, p, r)
  {
  }

  /** The silence checkpoint is asked exactly when the timer has reached 120
    * seconds.  Answer `y` stops without writing the pair; any other answer
    * resets the timer to (None, 0) and goes on to the hour checkpoint. */
  lemma SilenceRule(s: State, p: Pair, now: int, start: int)
    ensures var r := SilenceCheck(s, p, now, start);
      && (|r.prompts| > |s.prompts| && r.prompts[|s.prompts|] == SilencePrompt <==> s.silenceDuration >= SilenceLimit)
      && (s.silenceDuration >= SilenceLimit && s.answers != [] ==>
            if SaysYes(s.answers[0]) then !r.recording && r.file == s.file && r.answers == s.answers[1..]
            else r.silenceStart == None && r.silenceDuration == 0)
      && (s.silenceDuration < SilenceLimit ==> r == HourCheck(s, p, now, start))
      && WritesOrHalts(s, p, r)
  {
    var s1 := s.(prompts := s.prompts + [SilencePrompt]);
    if s.silenceDuration >= SilenceLimit && s.answers != [] && !SaysYes(s.answers[0]) {
      HourRule(s1.(answers := s1.answers[1..], silenceStart := None, silenceDuration := 0), p, now, start);
    } else if s.silenceDuration < SilenceLimit {
      HourRule(s, p, now, start);
      assert |HourCheck(s, p, now, start).prompts| > |s.prompts| ==> HourCheck(s, p, now, start).prompts[|s.prompts|] == HourPrompt;
    }
  }

  /** Pairing: nothing happens to the timers, prompts or file until both buffers
    * hold a block; then the pair cut to the shorter length is either written
    * whole, leaving both buffers empty (the frames beyond the cut are dropped),
    * or the loop stops or waits for an answer before writing. */
  lemma ConsumeOutcome(s: State, b: Tagged, now: int, start: int, meter: Meter)
    ensures var s1 := Buffer(s, b);
      var r := Consume(s, b, now, start, meter);
      && (s1.micBuffer == [] || s1.systemBuffer == [] ==> r == s1)
      && (s1.micBuffer != [] && s1.systemBuffer != [] ==> WritesOrHalts(s, PairUp(s1.micBuffer, s1.systemBuffer), r))
  {
    var s1 := Buffer(s, b);
    if s1.micBuffer != [] && s1.systemBuffer != [] {
      var p := PairUp(s1.micBuffer, s1.systemBuffer);
      var timer := TrackSilence(s1.silenceStart, IsQuiet(p, meter), now);
      SilenceRule(s1.(silenceStart := timer.0, silenceDuration := timer.1), p, now, start);
    }
  }

  // ---------------------------------------------------------------------------
  // What holds after every schedule

  /** Number of hour questions asked. */
  function HourPrompts(ps: seq<Checkpoint>): nat
    decreases |ps|
  {
    if ps == [] then 0 else HourPrompts(ps[..|ps| - 1]) + (if ps[|ps| - 1] == HourPrompt then 1 else 0)
  }

  lemma HourPromptsSnoc(ps: seq<Checkpoint>, c: Checkpoint)
    ensures HourPrompts(ps + [c]) == HourPrompts(ps) + (if c == HourPrompt then 1 else 0)
  {
    assert (ps + [c])[..|ps|] == ps;
  }

  /** The invariants of the loop that do not depend on the clock:
    * - while the loop runs, at most one buffer holds blocks (a pair drains both);
    * - every written pair has the same number of microphone and system frames;
    * - the hour question was asked at most once, and once asked it is marked
    *   answered unless the loop has stopped or waits for the answer. */
  predicate Sound(s: State) {
    && (s.recording && !s.blocked ==> s.micBuffer == [] || s.systemBuffer == [])
    && (forall k :: 0 <= k < |s.file| ==> |s.file[k].mic| == |s.file[k].sys|)
    && HourPrompts(s.prompts) <= 1
    && (HourPrompts(s.prompts) == 1 ==> s.hourPromptShown || !s.recording || s.blocked)
  }

  lemma HourCheckSound(s: State, p: Pair, now: int, start: int)
    requires s.recording && !s.blocked && |p.mic| == |p.sys|
    requires forall k :: 0 <= k < |s.file| ==> |s.file[k].mic| == |s.file[k].sys|
    requires HourPrompts(s.prompts) <= 1 && (HourPrompts(s.prompts) == 1 ==> s.hourPromptShown)
    ensures Sound(HourCheck(s, p, now, start))
  {
    HourRule(s, p, now, start);
    HourPromptsSnoc(s.prompts, HourPrompt);
  }

  lemma SilenceCheckSound(s: State, p: Pair, now: int, start: int)
    requires s.recording && !s.blocked && |p.mic| == |p.sys|
    requires forall k :: 0 <= k < |s.file| ==> |s.file[k].mic| == |s.file[k].sys|
    requires HourPrompts(s.prompts) <= 1 && (HourPrompts(s.prompts) == 1 ==> s.hourPromptShown)
    ensures Sound(SilenceCheck(s, p, now, start))
  {
    HourPromptsSnoc(s.prompts, SilencePrompt);
    if s.silenceDuration >= SilenceLimit {
      var s1 := s.(prompts := s.prompts + [SilencePrompt]);
      if s1.answers != [] && !SaysYes(s1.answers[0]) {
        HourCheckSound(s1.(answers := s1.answers[1..], silenceStart := None, silenceDuration := 0), p, now, start);
      }
    } else {
      HourCheckSound(s, p, now, start);
    }
  }

  lemma ConsumeSound(s: State, b: Tagged, now: int, start: int, meter: Meter)
    requires Sound(s) && s.recording && !s.blocked
    ensures Sound(Consume(s, b, now, start, meter))
  {
    var s1 := Buffer(s, b);
    if s1.micBuffer != [] && s1.systemBuffer != [] {
      var p := PairUp(s1.micBuffer, s1.systemBuffer);
      var timer := TrackSilence(s1.silenceStart, IsQuiet(p, meter), now);
      SilenceCheckSound(s1.(silenceStart := timer.0, silenceDuration := timer.1), p, now, start);
    }
  }

  lemma StepSound(s: State, t: Tick, start: int, meter: Meter)
    requires Sound(s)
    ensures Sound(Step(s, t, start, meter))
  {
    if t.Poll? && s.recording && !s.paused && !s.blocked && s.queue != [] {
      ConsumeSound(s.(queue := s.queue[1..]), s.queue[0], t.now, start, meter);
    }
  }

  lemma {:induction false} RunSound(s: State, ticks: seq<Tick>, start: int, meter: Meter)
    requires Sound(s)
    ensures Sound(Run(s, ticks, start, meter))
    decreases |ticks|
  {
    if ticks != [] {
      RunSound(s, ticks[..|ticks| - 1], start, meter);
      StepSound(Run(s, ticks[..|ticks| - 1], start, meter), ticks[|ticks| - 1], start, meter);
    }
  }

  /** Over any schedule from the top of the loop: the hour checkpoint is asked at
    * most once, however long the session goes on; every write holds as many
    * microphone frames as system frames; and a running loop never holds blocks
    * in both buffers between passes. */
  lemma SessionInvariants(f: Flags, queue: seq<Tagged>, answers: seq<string>, ticks: seq<Tick>, start: int, meter: Meter)
    ensures var r := Run(Initial(f, queue, answers), ticks, start, meter);
      && HourPrompts(r.prompts) <= 1
      && (forall k :: 0 <= k < |r.file| ==> |r.file[k].mic| == |r.file[k].sys|)
      && (r.recording && !r.blocked ==> r.micBuffer == [] || r.systemBuffer == [])
  {
    RunSound(Initial(f, queue, answers), ticks, start, meter);
  }

  // ---------------------------------------------------------------------------
  // The silence timer under a clock that does not go back

  /** The time of the latest pass of the loop in the schedule, `t0` if none. */
  function Clock(t0: int, ticks: seq<Tick>): int
    decreases |ticks|
  {
    if ticks == [] then t0
    else if ticks[|ticks| - 1].Poll? then ticks[|ticks| - 1].now
    else Clock(t0, ticks[..|ticks| - 1])
  }

  /** The passes of the loop see a clock that starts at `t0` and never goes back. */
  predicate Monotone(t0: int, ticks: seq<Tick>)
    decreases |ticks|
  {
    ticks == [] ||
    (Monotone(t0, ticks[..|ticks| - 1]) &&
     (ticks[|ticks| - 1].Poll? ==> Clock(t0, ticks[..|ticks| - 1]) <= ticks[|ticks| - 1].now))
  }

  /** A stopped timer reads 0; a running one started no later than `clock`, and
    * its reading is between 0 and the time since it started. */
  predicate SilenceSound(s: State, clock: int) {
    match s.silenceStart
    case None => s.silenceDuration == 0
    case Some(t) => t <= clock && 0 <= s.silenceDuration <= clock - t
  }

  lemma ConsumeSilence(s: State, b: Tagged, now: int, start: int, meter: Meter, clock: int)
    requires SilenceSound(s, clock) && clock <= now
    ensures SilenceSound(Consume(s, b, now, start, meter), now)
  {
    var s1 := Buffer(s, b);
    if s1.micBuffer != [] && s1.systemBuffer != [] {
      var p := PairUp(s1.micBuffer, s1.systemBuffer);
      var timer := TrackSilence(s1.silenceStart, IsQuiet(p, meter), now);
      var s2 := s1.(silenceStart := timer.0, silenceDuration := timer.1);
      assert SilenceSound(s2, now);
      var s3 := s2.(prompts := s2.prompts + [SilencePrompt]);
      if s2.silenceDuration >= SilenceLimit && s3.answers != [] && !SaysYes(s3.answers[0]) {
        HourRule(s3.(answers := s3.answers[1..], silenceStart := None, silenceDuration := 0), p, now, start);
      } else if s2.silenceDuration < SilenceLimit {
        HourRule(s2, p, now, start);
      }
    }
  }

  lemma {:induction false} RunSilence(s: State, ticks: seq<Tick>, start: int, meter: Meter, t0: int)
    requires SilenceSound(s, t0) && Monotone(t0, ticks)
    ensures SilenceSound(Run(s, ticks, start, meter), Clock(t0, ticks))
    decreases |ticks|
  {
    if ticks != [] {
      var p := ticks[..|ticks| - 1];
      var t := ticks[|ticks| - 1];
      var r := Run(s, p, start, meter);
      RunSilence(s, p, start, meter, t0);
      if t.Poll? && r.recording && !r.paused && !r.blocked && r.queue != [] {
        ConsumeSilence(r.(queue := r.queue[1..]), r.queue[0], t.now, start, meter, Clock(t0, p));
      }
    }
  }

  /** With a clock that does not go back, the silence duration is never
    * negative, and a running timer never starts after the latest pass. */
  lemma SilenceNeverNegative(f: Flags, queue: seq<Tagged>, answers: seq<string>, ticks: seq<Tick>, start: int, meter: Meter)
    requires Monotone(start, ticks)
    ensures var r := Run(Initial(f, queue, answers), ticks, start, meter);
      && r.silenceDuration >= 0
      && (r.silenceStart.Some? ==> r.silenceStart.value <= Clock(start, ticks))
  {
    RunSilence(Initial(f, queue, answers), ticks, start, meter, start);
  }

  // ---------------------------------------------------------------------------
  // Time spent paused

  /** A pause only stops the loop from pulling blocks: the hour is measured on
    * the wall clock from the start.  Paused from the first moment until just
    * before the hour, the session is asked the hour question on the first pair
    * it forms after resuming. */
  lemma PausedTimeCountsTowardHour(b: Block, meter: Meter)
    ensures var s0 := Initial(Flags(true, false), [], ["y"]);
      var s1 := Step(s0, Press(PauseKey), 0, meter);
      var s2 := Step(s1, Arrive(Mic, b), 0, meter);
      var s3 := Step(s2, Arrive(System, b), 0, meter);
      var s4 := Step(s3, Poll(1800), 0, meter);
      var s5 := Step(s4, Press(ResumeKey), 0, meter);
      var s6 := Step(s5, Poll(3600), 0, meter);
      var s7 := Step(s6, Poll(3600), 0, meter);
      && s4 == s3
      && s7.prompts == [HourPrompt] && s7.hourPromptShown && |s7.file| == 1
  {
    var w := ToStereo(b);
    var s0 := Initial(Flags(true, false), [], ["y"]);
    var s3 := s0.(paused := true, queue := [Tagged(Mic, w), Tagged(System, w)]);
    assert Step(Step(Step(s0, Press(PauseKey), 0, meter), Arrive(Mic, b), 0, meter), Arrive(System, b), 0, meter) == s3;
    assert Step(s3, Poll(1800), 0, meter) == s3;
    var s5 := s3.(paused := false);
    assert Step(s3, Press(ResumeKey), 0, meter) == s5;
    var s6 := s5.(queue := [Tagged(System, w)], micBuffer := [w]);
    assert Step(s5, Poll(3600), 0, meter) == s6;
    assert Buffer(s6.(queue := []), Tagged(System, w)) == s6.(queue := [], systemBuffer := [w]);
    assert TrackSilence(None, IsQuiet(PairUp([w], [w]), meter), 3600).1 == 0;
    StoppingAnswers("y");
    HourAtFirstPair(s6, 3600, 0, meter);
  }

  /** A pass that forms a pair once an hour has passed, when the hour question
    * has not been answered before and the silence timer stays below the limit
    * (so the silence question does not come first): the hour question is asked,
    * and an answer other than `n` marks it answered and writes the pair. */
  lemma HourAtFirstPair(s: State, now: int, start: int, meter: Meter)
    requires s.recording && !s.paused && !s.blocked && s.queue != []
    requires var s1 := Buffer(s.(queue := s.queue[1..]), s.queue[0]);
      && s1.micBuffer != [] && s1.systemBuffer != []
      && TrackSilence(s.silenceStart, IsQuiet(PairUp(s1.micBuffer, s1.systemBuffer), meter), now).1 < SilenceLimit
    requires now - start >= HourLimit && !s.hourPromptShown
    requires s.answers != [] && !SaysNo(s.answers[0])
    ensures var s1 := Buffer(s.(queue := s.queue[1..]), s.queue[0]);
      var r := Step(s, Poll(now), start, meter);
      && r.prompts == s.prompts + [HourPrompt] && r.hourPromptShown && r.recording
      && r.answers == s.answers[1..] && r.file == s.file + [PairUp(s1.micBuffer, s1.systemBuffer)]
  {
    var s1 := Buffer(s.(queue := s.queue[1..]), s.queue[0]);
    var p := PairUp(s1.micBuffer, s1.systemBuffer);
    var timer := TrackSilence(s1.silenceStart, IsQuiet(p, meter), now);
    var s2 := s1.(silenceStart := timer.0, silenceDuration := timer.1);
    assert Step(s, Poll(now), start, meter) == Handle(s1, now, start, meter) == SilenceCheck(s2, p, now, start);
    assert SilenceCheck(s2, p, now, start) == HourCheck(s2, p, now, start);
  }

  /** A running silence timer is not stopped by a pause: 190 seconds after the
    * first quiet pair, 180 of them paused, the next quiet pair reaches the
    * silence question. */
  lemma PausedTimeCountsTowardSilence(b: Block)
    ensures var meter := Meter(_ => 0.0, _ => 0.0);
      var q := [Tagged(Mic, b), Tagged(System, b), Tagged(Mic, b), Tagged(System, b)];
      var s0 := Initial(Flags(true, false), q, []);
      var s1 := Step(s0, Poll(10), 0, meter);
      var s2 := Step(s1, Poll(10), 0, meter);
      var s3 := Step(s2, Press(PauseKey), 0, meter);
      var s4 := Step(s3, Poll(100), 0, meter);
      var s5 := Step(s4, Press(ResumeKey), 0, meter);
      var s6 := Step(s5, Poll(200), 0, meter);
      var s7 := Step(s6, Poll(200), 0, meter);
      && s2.silenceStart == Some(10) && |s2.file| == 1
      && s4 == s3
      && s7.prompts == [SilencePrompt] && s7.blocked && |s7.file| == 1
  {
    var meter := Meter(_ => 0.0, _ => 0.0);
    var q := [Tagged(Mic, b), Tagged(System, b), Tagged(Mic, b), Tagged(System, b)];
    var s0 := Initial(Flags(true, false), q, []);
    var p := PairUp([b], [b]);
    assert IsQuiet(p, meter);
    var s1 := s0.(queue := q[1..], micBuffer := [b]);
    assert Step(s0, Poll(10), 0, meter) == s1;
    var s1' := s1.(queue := q[2..], systemBuffer := [b], silenceStart := Some(10), silenceDuration := 0);
    assert Step(s1, Poll(10), 0, meter) == SilenceCheck(s1', p, 10, 0) == HourCheck(s1', p, 10, 0);
    var s2 := Write(s1', p);
    assert Step(s1, Poll(10), 0, meter) == s2;
    var s3 := s2.(paused := true);
    assert Step(s2, Press(PauseKey), 0, meter) == s3;
    assert Step(s3, Poll(100), 0, meter) == s3;
    var s5 := s2;
    assert Step(s3, Press(ResumeKey), 0, meter) == s5;
    var s6 := s5.(queue := q[3..], micBuffer := [b]);
    assert Step(s5, Poll(200), 0, meter) == s6;
    var s6' := s6.(queue := [], systemBuffer := [b], silenceDuration := 190);
    assert Step(s6, Poll(200), 0, meter) == SilenceCheck(s6', p, 200, 0);
  }
}

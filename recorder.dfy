/** The `AudioRecorder` class of `recorder.py`: the `recording` and `paused`
  * fields, the queue the two capture callbacks fill, the keyboard hooks, and
  * the consumer loop of `record()`.  Each method is proved against the state
  * machine in module `Session`, where the properties of the loop are proved. */
module Recorder {
  import opened Wrappers
  import opened Audio
  import opened Session
  import Text
  import Speakers
  import Transcript
  import Grouping

  /** The frames per second the recorder captures and writes. */
  const SampleRate := 48000

  /** The length in seconds of the preview clip sent to be labelled. */
  const PreviewSeconds := 120

  class AudioRecorder {
    var recording: bool
    var paused: bool
    var audioQueue: seq<Tagged>
    /** `speaker_names`, in the order the names were entered. */
    var speakerNames: seq<Speakers.NameEntry>

    /** The flags, the queue and the names as the constructor leaves them. */
    constructor ()
      ensures !recording && !paused && audioQueue == [] && speakerNames == []
    {
      recording := false;
      paused := false;
      audioQueue := [];
      speakerNames := [];
    }

    function FlagsOf(): Flags
      reads this
    {
      Flags(recording, paused)
    }

    /** `pause_recording`: fires only while recording and not paused, sets
      * `paused`, and says whether it fired. */
    method PauseRecording() returns (fired: bool)
      modifies this`paused
      ensures fired == (recording && !old(paused))
      ensures paused == (old(paused) || fired)
      ensures (fired, FlagsOf()) == Pause(old(FlagsOf()))
    {
      if recording && !paused {
        paused := true;
        return true;
      }
      return false;
    }

    /** `resume_recording`: fires only while recording and paused, clears
      * `paused`, and says whether it fired. */
    method ResumeRecording() returns (fired: bool)
      modifies this`paused
      ensures fired == (recording && old(paused))
      ensures paused == (old(paused) && !fired)
      ensures (fired, FlagsOf()) == Resume(old(FlagsOf()))
    {
      if recording && paused {
        paused := false;
        return true;
      }
      return false;
    }

    /** The `s` key hook: clears `recording`, whatever the other flag. */
    method StopKey()
      modifies this`recording
      ensures !recording
    {
      recording := false;
    }

    /** The three keyboard hooks of `record()`: `p` pauses unless already
      * paused, `r` resumes only when paused, `s` stops. */
    method KeyHook(key: Key)
      modifies this`recording, this`paused
      ensures FlagsOf() == match key
        case PauseKey => Pause(old(FlagsOf())).1
        case ResumeKey => Resume(old(FlagsOf())).1
        case StopKey => old(FlagsOf()).(recording := false)
    {
      if key == PauseKey {
        if !paused { var fired := PauseRecording(); }
      } else if key == ResumeKey {
        if paused { var fired := ResumeRecording(); }
      } else {
        StopKey();
      }
    }

    /** The part of `start_recording` that touches the flags: it sets
      * `recording` and leaves `paused` as an earlier session left it. */
    method StartRecording()
      modifies this`recording
      ensures recording
    {
      recording := true;
    }

    /** `mic_callback`: a copy of the block, widened to stereo when mono, joins
      * the queue tagged as microphone audio. */
    method MicCallback(indata: Block)
      modifies this`audioQueue
      ensures audioQueue == old(audioQueue) + [Tagged(Mic, ToStereo(indata))]
    {
      var data := indata;
      if IsMono(data) {
        data := ToStereo(data);
      }
      audioQueue := audioQueue + [Tagged(Mic, data)];
    }

    /** `system_callback`: the same for the system-output stream. */
    method SystemCallback(indata: Block)
      modifies this`audioQueue
      ensures audioQueue == old(audioQueue) + [Tagged(System, ToStereo(indata))]
    {
      var data := indata;
      if IsMono(data) {
        data := ToStereo(data);
      }
      audioQueue := audioQueue + [Tagged(System, data)];
    }

    /** The silence question: asked once the timer reaches the limit; with no
      * answer left the loop waits for ever, `y` stops before the write, and
      * any other answer resets the timer.  `writing` says whether the pass
      * goes on to the hour question and the write. */
    method SilenceQuestion(ghost s: State, p: Pair, now: int, start: int, silenceStart: Option<int>,
                           silenceDuration: int, pending: seq<string>, prompts: seq<Checkpoint>)
      returns (writing: bool, blocked: bool, silenceStart': Option<int>, silenceDuration': int,
               pending': seq<string>, prompts': seq<Checkpoint>)
      requires s.recording == recording && !s.blocked
      requires s.silenceStart == silenceStart && s.silenceDuration == silenceDuration
      requires s.answers == pending && s.prompts == prompts
      modifies this`recording
      ensures writing ==> !blocked && recording == old(recording)
      ensures var t := s.(recording := recording, blocked := blocked, silenceStart := silenceStart',
                          silenceDuration := silenceDuration', answers := pending', prompts := prompts');
        if writing then SilenceCheck(s, p, now, start) == HourCheck(t, p, now, start)
        else SilenceCheck(s, p, now, start) == t
    {
      writing, blocked := true, false;
      silenceStart', silenceDuration', pending', prompts' := silenceStart, silenceDuration, pending, prompts;
      if silenceDuration >= SilenceLimit {
        prompts' := prompts + [SilencePrompt];
        if pending == [] {
          blocked, writing := true, false;
        } else {
          var response := Text.Lower(pending[0]);
          pending' := pending[1..];
          if response == "y" {
            recording, writing := false, false;
          } else {
            silenceStart', silenceDuration' := None, 0;
          }
        }
      }
    }

    /** The hour question: asked once an hour has passed since the start,
      * unless it was answered before; with no answer left the loop waits for
      * ever, `n` stops before the write, and any other answer marks the
      * question as shown.  `writing` says whether the pass goes on to the
      * write. */
    method HourQuestion(ghost s: State, p: Pair, now: int, start: int, hourPromptShown: bool,
                        pending: seq<string>, prompts: seq<Checkpoint>)
      returns (writing: bool, blocked: bool, hourPromptShown': bool, pending': seq<string>,
               prompts': seq<Checkpoint>)
      requires s.recording == recording && !s.blocked
      requires s.hourPromptShown == hourPromptShown && s.answers == pending && s.prompts == prompts
      modifies this`recording
      ensures writing ==> !blocked && recording == old(recording)
      ensures var t := s.(recording := recording, blocked := blocked, hourPromptShown := hourPromptShown',
                          answers := pending', prompts := prompts');
        if writing then HourCheck(s, p, now, start) == Write(t, p)
        else HourCheck(s, p, now, start) == t
    {
      writing, blocked := true, false;
      hourPromptShown', pending', prompts' := hourPromptShown, pending, prompts;
      if now - start >= HourLimit && !hourPromptShown {
        prompts' := prompts + [HourPrompt];
        if pending == [] {
          blocked, writing := true, false;
        } else {
          var response := Text.Lower(pending[0]);
          pending' := pending[1..];
          if response == "n" {
            recording, writing := false, false;
          } else {
            hourPromptShown' := true;
          }
        }
      }
    }

    /** One tick of the schedule: a key press runs its hook, a block from a
      * stream runs its callback, and a poll is one pass of the loop. */
    method Tick(ghost pre: State, t: Session.Tick, start: int, meter: Meter,
                micBuffer: seq<Block>, systemBuffer: seq<Block>, silenceStart: Option<int>,
                silenceDuration: int, hourPromptShown: bool, pending: seq<string>, blocked: bool,
                prompts: seq<Checkpoint>, file: seq<Pair>)
      returns (micBuffer': seq<Block>, systemBuffer': seq<Block>, silenceStart': Option<int>,
               silenceDuration': int, hourPromptShown': bool, pending': seq<string>, blocked': bool,
               prompts': seq<Checkpoint>, file': seq<Pair>)
      requires pre == State(recording, paused, audioQueue, micBuffer, systemBuffer, silenceStart,
                            silenceDuration, hourPromptShown, pending, blocked, prompts, file)
      modifies this`recording, this`paused, this`audioQueue
      ensures Step(pre, t, start, meter)
        == State(recording, paused, audioQueue, micBuffer', systemBuffer', silenceStart', silenceDuration',
                 hourPromptShown', pending', blocked', prompts', file')
    {
      micBuffer', systemBuffer', silenceStart', silenceDuration' := micBuffer, systemBuffer, silenceStart, silenceDuration;
      hourPromptShown', pending', blocked', prompts', file' := hourPromptShown, pending, blocked, prompts, file;
      match t {
        case Press(key) =>
          KeyHook(key);
        case Arrive(source, data) =>
          if source == Mic { MicCallback(data); } else { SystemCallback(data); }
        case Poll(now) =>
          micBuffer', systemBuffer', silenceStart', silenceDuration', hourPromptShown', pending', blocked', prompts', file' :=
            Pass(pre, now, start, meter, micBuffer, systemBuffer, silenceStart, silenceDuration, hourPromptShown,
                 pending, blocked, prompts, file);
      }
    }

    /** One pass of the `while self.recording` loop, the locals of `record()`
      * passed in and out: nothing happens once recording has stopped, while
      * paused, while a question waits for an answer, or when the queue is
      * empty; otherwise the head of the queue is taken and buffered. */
    method Pass(ghost pre: State, now: int, start: int, meter: Meter,
                micBuffer: seq<Block>, systemBuffer: seq<Block>, silenceStart: Option<int>,
                silenceDuration: int, hourPromptShown: bool, pending: seq<string>, blocked: bool,
                prompts: seq<Checkpoint>, file: seq<Pair>)
      returns (micBuffer': seq<Block>, systemBuffer': seq<Block>, silenceStart': Option<int>,
               silenceDuration': int, hourPromptShown': bool, pending': seq<string>, blocked': bool,
               prompts': seq<Checkpoint>, file': seq<Pair>)
      requires pre == State(recording, paused, audioQueue, micBuffer, systemBuffer, silenceStart,
                            silenceDuration, hourPromptShown, pending, blocked, prompts, file)
      modifies this`recording, this`audioQueue
      ensures Step(pre, Poll(now), start, meter)
        == State(recording, paused, audioQueue, micBuffer', systemBuffer', silenceStart', silenceDuration',
                 hourPromptShown', pending', blocked', prompts', file')
    {
      if !recording || paused || blocked || audioQueue == [] {
        return micBuffer, systemBuffer, silenceStart, silenceDuration, hourPromptShown, pending, blocked,
          prompts, file;
      }
      var block := audioQueue[0];
      audioQueue := audioQueue[1..];
      micBuffer', systemBuffer' := micBuffer, systemBuffer;
      if block.source == Mic {
        micBuffer' := micBuffer + [block.data];
      } else {
        systemBuffer' := systemBuffer + [block.data];
      }
      micBuffer', systemBuffer', silenceStart', silenceDuration', hourPromptShown', pending', blocked', prompts', file' :=
        HandleBuffers(State(recording, paused, audioQueue, micBuffer', systemBuffer', silenceStart,
                            silenceDuration, hourPromptShown, pending, blocked, prompts, file),
                      now, start, meter, micBuffer', systemBuffer', silenceStart, silenceDuration,
                      hourPromptShown, pending, prompts, file);
    }

    /** Both buffers concatenated and trimmed to the length of the shorter. */
    static method PairBuffers(micBuffer: seq<Block>, systemBuffer: seq<Block>) returns (p: Pair)
      ensures p == PairUp(micBuffer, systemBuffer)
    {
      var micData := Concat(micBuffer);
      var sysData := Concat(systemBuffer);
      var minLen := Min(|micData|, |sysData|);
      p := Pair(micData[..minLen], sysData[..minLen]);
    }

    /** The rest of the pass once the block is buffered: with audio in both
      * buffers, the pair trimmed to the shorter one is measured, the silence
      * timer is updated, the two questions are asked, and the pair is written
      * and the buffers cleared unless a question stopped the pass. */
    method HandleBuffers(ghost s: State, now: int, start: int, meter: Meter,
                         micBuffer: seq<Block>, systemBuffer: seq<Block>, silenceStart: Option<int>,
                         silenceDuration: int, hourPromptShown: bool, pending: seq<string>,
                         prompts: seq<Checkpoint>, file: seq<Pair>)
      returns (micBuffer': seq<Block>, systemBuffer': seq<Block>, silenceStart': Option<int>,
               silenceDuration': int, hourPromptShown': bool, pending': seq<string>, blocked': bool,
               prompts': seq<Checkpoint>, file': seq<Pair>)
      requires s == State(recording, paused, audioQueue, micBuffer, systemBuffer, silenceStart,
                          silenceDuration, hourPromptShown, pending, false, prompts, file)
      modifies this`recording
      ensures Handle(s, now, start, meter)
        == State(recording, paused, audioQueue, micBuffer', systemBuffer', silenceStart', silenceDuration',
                 hourPromptShown', pending', blocked', prompts', file')
    {
      micBuffer', systemBuffer', silenceStart', silenceDuration' := micBuffer, systemBuffer, silenceStart, silenceDuration;
      hourPromptShown', pending', blocked', prompts', file' := hourPromptShown, pending, false, prompts, file;
      if micBuffer == [] || systemBuffer == [] {
        return;
      }
      var p := PairBuffers(micBuffer, systemBuffer);
      var micLevel, sysLevel := meter.mic(p.mic), meter.sys(p.sys);
      if micLevel < SilenceThreshold && sysLevel < SilenceThreshold {
        if silenceStart == None {
          silenceStart' := Some(now);
        }
        silenceDuration' := now - silenceStart'.value;
      } else {
        silenceStart', silenceDuration' := None, 0;
      }
      ghost var s2 := s.(silenceStart := silenceStart', silenceDuration := silenceDuration');
      assert Handle(s, now, start, meter) == SilenceCheck(s2, p, now, start);
      micBuffer', systemBuffer', silenceStart', silenceDuration', hourPromptShown', pending', blocked', prompts', file' :=
        Checkpoints(s2, p, now, start,
                    micBuffer, systemBuffer, silenceStart', silenceDuration', hourPromptShown, pending, prompts, file);
    }

    /** The two questions and the write: unless a question stops the pass or
      * finds no answer, the pair is written and both buffers are cleared. */
    method Checkpoints(ghost s: State, p: Pair, now: int, start: int,
                       micBuffer: seq<Block>, systemBuffer: seq<Block>, silenceStart: Option<int>,
                       silenceDuration: int, hourPromptShown: bool, pending: seq<string>,
                       prompts: seq<Checkpoint>, file: seq<Pair>)
      returns (micBuffer': seq<Block>, systemBuffer': seq<Block>, silenceStart': Option<int>,
               silenceDuration': int, hourPromptShown': bool, pending': seq<string>, blocked': bool,
               prompts': seq<Checkpoint>, file': seq<Pair>)
      requires s == State(recording, paused, audioQueue, micBuffer, systemBuffer, silenceStart,
                          silenceDuration, hourPromptShown, pending, false, prompts, file)
      modifies this`recording
      ensures SilenceCheck(s, p, now, start)
        == State(recording, paused, audioQueue, micBuffer', systemBuffer', silenceStart', silenceDuration',
                 hourPromptShown', pending', blocked', prompts', file')
    {
      micBuffer', systemBuffer', hourPromptShown', file' := micBuffer, systemBuffer, hourPromptShown, file;
      var writing;
      writing, blocked', silenceStart', silenceDuration', pending', prompts' :=
        SilenceQuestion(s, p, now, start, silenceStart, silenceDuration, pending, prompts);
      if writing {
        writing, blocked', hourPromptShown', pending', prompts' :=
          HourQuestion(State(recording, paused, audioQueue, micBuffer, systemBuffer, silenceStart',
                             silenceDuration', hourPromptShown, pending', blocked', prompts', file),
                       p, now, start, hourPromptShown, pending', prompts');
      }
      if writing {
        file' := file + [p];
        micBuffer', systemBuffer' := [], [];
      }
    }

    /** The consumer loop of `record()` run over a schedule of ticks, with the
      * scripted answers to its questions, the start time of the recording and
      * the level meter.  It returns what it passed to `file.write` and the
      * questions it asked; the flags and the queue end as the state machine
      * says. */
    method Record(ticks: seq<Tick>, answers: seq<string>, start: int, meter: Meter)
      returns (file: seq<Pair>, prompts: seq<Checkpoint>)
      modifies this`recording, this`paused, this`audioQueue
      ensures var r := Run(Initial(old(FlagsOf()), old(audioQueue), answers), ticks, start, meter);
        && recording == r.recording && paused == r.paused && audioQueue == r.queue
        && file == r.file && prompts == r.prompts
      ensures speakerNames == old(speakerNames)
    {
      var micBuffer: seq<Block> := [];
      var systemBuffer: seq<Block> := [];
      var silenceStart: Option<int> := None;
      var silenceDuration := 0;
      var hourPromptShown := false;
      var pending := answers;
      var blocked := false;
      file, prompts := [], [];
      ghost var s0 := Initial(FlagsOf(), audioQueue, answers);
      var i := 0;
      while i < |ticks|
        invariant 0 <= i <= |ticks|
        invariant Run(s0, ticks[..i], start, meter)
          == State(recording, paused, audioQueue, micBuffer, systemBuffer, silenceStart, silenceDuration,
                   hourPromptShown, pending, blocked, prompts, file)
      {
        assert ticks[..i + 1][..i] == ticks[..i];
        micBuffer, systemBuffer, silenceStart, silenceDuration, hourPromptShown, pending, blocked, prompts, file :=
          Tick(State(recording, paused, audioQueue, micBuffer, systemBuffer, silenceStart, silenceDuration,
                     hourPromptShown, pending, blocked, prompts, file),
               ticks[i], start, meter, micBuffer, systemBuffer, silenceStart, silenceDuration, hourPromptShown,
               pending, blocked, prompts, file);
        i := i + 1;
      }
      assert ticks[..|ticks|] == ticks;
    }

    /** The loop of `format_transcript` over the utterances: the groups closed
      * on a change of truthy name, then the last group. */
    method ScriptLines(utts: seq<Speakers.Utterance>) returns (lines: seq<string>)
      ensures lines == Transcript.Lines(speakerNames, utts)
    {
      lines := [];
      var current: Option<string> := None;
      var currentText: seq<string> := [];
      var first := if utts == [] then 0 else utts[0].start;
      for i := 0 to |utts|
        invariant Transcript.Open(Transcript.Named(speakerNames, utts[..i]), first, lines, current, currentText)
      {
        Transcript.NamedSnoc(speakerNames, utts, i);
        lines, current, currentText :=
          ScriptStep(Transcript.Named(speakerNames, utts[..i]), utts[i], first, lines, current, currentText);
      }
      assert utts[..|utts|] == utts;
      if utts != [] {
        Transcript.ScriptLast(speakerNames, utts, lines, current, currentText);
        var timeMarker := Transcript.FormatTime(utts[|utts| - 1].start);
        lines := lines + ["\n" + timeMarker + " " + current.value + ":", "    " + Text.Join(currentText, " ")];
      }
    }

    /** One utterance of the loop of `format_transcript`: its name is looked
      * up; a change of truthy name appends the open group's two lines with
      * the first utterance's stamp; the text joins the group under the name. */
    method ScriptStep(ghost items: seq<Grouping.Item>, u: Speakers.Utterance, first: int,
                      lines: seq<string>, current: Option<string>, currentText: seq<string>)
      returns (lines': seq<string>, current': Option<string>, currentText': seq<string>)
      requires Transcript.Open(items, first, lines, current, currentText)
      ensures Transcript.Open(items + [Grouping.Item(Transcript.Resolve(speakerNames, u.speaker), u.start, u.text)],
                              first, lines', current', currentText')
    {
      var speaker := Transcript.Resolve(speakerNames, u.speaker);
      ghost var x := Grouping.Item(speaker, u.start, u.text);
      lines', currentText' := lines, currentText;
      if current.Some? && current.value != "" && speaker != current.value {
        Transcript.ScriptClose(items, x, first, lines, current, currentText);
        var timeMarker := Transcript.FormatTime(first);
        lines' := lines' + ["\n" + timeMarker + " " + current.value + ":", "    " + Text.Join(currentText', " ")];
        currentText' := [];
      } else if current.Some? {
        Transcript.ScriptJoin(items, x, first, lines, current, currentText);
      } else {
        Transcript.ScriptFirst(items, x, first, lines, current, currentText);
      }
      currentText' := currentText' + [u.text];
      current' := Some(speaker);
    }

    /** `format_transcript`: the header with the mapping in the order the names
      * were entered, then the lines of the script joined by newlines. */
    method FormatTranscript(utts: seq<Speakers.Utterance>) returns (r: string)
      ensures r == Transcript.Format(speakerNames, utts)
    {
      var lines := ScriptLines(utts);
      r := MappingText();
      r := r + Transcript.Rule;
      r := r + Text.Join(lines, "\n");
    }

    /** The head of the transcript up to the rule: the title, the heading and
      * one line per entered name, in the order they were entered. */
    method MappingText() returns (r: string)
      ensures r == Transcript.Opening + Transcript.Mapping(speakerNames)
    {
      r := Transcript.Title;
      r := r + "\nSpeaker mapping:";
      for j := 0 to |speakerNames|
        invariant r == Transcript.Opening + Transcript.Mapping(speakerNames[..j])
      {
        assert speakerNames[..j + 1][..j] == speakerNames[..j];
        r := r + ("\n" + speakerNames[j].speaker + " \U{2192} " + speakerNames[j].name);
      }
      assert speakerNames[..|speakerNames|] == speakerNames;
    }

    /** `transcribe_audio`: nothing when the recording is missing; otherwise
      * the preview path and clip, the longest stretch per label in the
      * preview's utterances, one name per label in sorted order, and the
      * full transcript with those names.  When the answers run out before
      * every label is named, the prompt raises and nothing is returned. */
    method TranscribeAudio(audioFile: string, fileExists: bool, audio: seq<Frame>,
                           preview: seq<Speakers.Utterance>, full: seq<Speakers.Utterance>, inputs: seq<string>)
      returns (previewFile: string, clip: seq<Frame>, r: Option<string>)
      modifies this`speakerNames
      ensures !fileExists ==> r == None && speakerNames == old(speakerNames)
      ensures fileExists ==> (previewFile == Transcript.PreviewPath(audioFile)
        && clip == audio[..Min(|audio|, PreviewSeconds * SampleRate)])
      ensures fileExists ==> match Speakers.AskNames(Text.Sorted(Speakers.Segments(preview).Keys), inputs)
        case None => r == None && speakerNames == []
        case Some((names, _)) => speakerNames == names && r == Some(Transcript.Format(names, full))
    {
      if !fileExists {
        return "", [], None;
      }
      previewFile := Transcript.PreviewPath(audioFile);
      clip := audio[..Min(|audio|, PreviewSeconds * SampleRate)];
      var segments := Speakers.LongestSegments(preview);
      var order := Text.SortStrings(segments.Keys);
      speakerNames := [];
      var named := Speakers.PromptNames(order, inputs);
      if named == None {
        return previewFile, clip, None;
      }
      speakerNames := named.value.0;
      var formatted := FormatTranscript(full);
      r := Some(formatted);
    }
  }
}

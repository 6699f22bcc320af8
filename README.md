# Dual-stream recorder and speaker-labelled transcript

This project models the core of a desktop recorder in Dafny:

- It captures the microphone and the system output at once.
- It pairs and writes the two streams from a single consumer loop.
- It asks whether to stop after two minutes of silence, and again after an hour.
- At the end it builds a transcript whose speaker labels are replaced by names the user types.

The model covers two Python files.

`recorder.py`, class `AudioRecorder`:

- The pause, resume and stop flags and the keyboard hooks that drive them.
- The two capture callbacks, which widen mono blocks to stereo.
- The `record()` consumer loop: buffer pairing, trimming to the shorter stream, the silence timer, and the silence and hour questions.
- In `transcribe_audio`:
  - the longest-segment scan over the preview utterances;
  - the sorted name prompts;
  - the preview clip length;
  - the two derived paths.
- `format_time` and `format_transcript`.

`audio_recorder.py`, class `AudioRecorder`:

- A buffer of captured blocks guarded by a flag.
- The `save_audio` logic.
- The script at the bottom that saves a twenty-second file and a complete file.

## Layout

- `wrappers.dfy`: `Option`.
- `audio.dfy`: frames, blocks, concatenation and the mono-to-stereo widening.
- `text.dfy`: the Python string operations the core relies on:
  - `strip` over Python's whitespace set;
  - ASCII `lower`;
  - `join`, `"="*n`, `02d` padding and `replace`;
  - `sorted` on strings, as a method proved against a ghost sorted enumeration.
- `grouping.dfy`: maximal runs of equal keys: their texts and keys item by item, their count and their key set.
- `session.dfy`: the `record()` loop as a pure state machine over a schedule of ticks.
  - Each tick is a key press, a block arriving from a stream, or one pass of the loop at a given clock reading.
  - The file holds the pairs passed to `file.write`.
  - The state records the prompts that were printed.
  - The invariants are proved over whole schedules.
- `recorder.dfy`: the class `AudioRecorder` of `recorder.py`.
  - Its fields are `recording`, `paused`, the queue and `speaker_names`.
  - The consumer loop is a `while` loop over the schedule, proved equal to the state machine.
  - The two transcript-writing loops are `for` loops, proved equal to the functions of `transcript.dfy`.
- `speakers.dfy`: the longest-segment scan and the name prompts, as methods with loops proved equal to functions in the same file.
- `transcript.dfy`:
  - `format_time`;
  - name resolution;
  - grouping under truthy names;
  - line and stamp layout, the header and the path derivation.
- `simple_recorder.dfy`: the class `AudioRecorder` of `audio_recorder.py` and its main script.

## Behaviour worth knowing

The model follows these details of the code exactly.

- **Block stamps.** Transcript blocks are not stamped with the start of their own first utterance.
  - Every block closed on a change of speaker carries the start of the transcript's first utterance (`recorder.py:480`).
  - The final block carries the start of the transcript's last utterance (`recorder.py:491`).
  - `Transcript.LineAt` and `Transcript.StampExample` state this.
- **Paused time.** A pause only skips dequeuing (`recorder.py:198-200`).
  - The hour check measures wall-clock time since the start, so paused time counts towards the hour.
  - A silence timer that was running when the pause began survives it, so paused time counts towards the silence too.
  - `Session.PausedTimeCountsTowardHour` and `Session.PausedTimeCountsTowardSilence` show both.
- **Silence test.** A pair counts as quiet only when both levels are strictly below 0.001.
  - A level of exactly 0.001 therefore resets the silence timer.
- **Empty truthy name.** The transcript writer groups under `if current_speaker and ...`.
  - A group under an empty name is therefore never closed; it runs on into the next name.
  - `Transcript.EmptyNameMerges` shows this. The name prompts never produce an empty name, but an utterance label could be empty.

## Model

| member | source | states |
|---|---|---|
| Session.PauseFires | recorder.py:525-531 | pause fires exactly when recording and not paused; then it only sets `paused`, otherwise nothing changes |
| Session.ResumeFires | recorder.py:533-539 | resume fires exactly when recording and paused; then it only clears `paused`, otherwise nothing changes |
| Session.PauseIdempotent | recorder.py:525-539 | a second pause (or resume) in a row does not fire and changes nothing |
| Session.ResumeUndoesPause | recorder.py:525-539 | a resume right after a pause that fired fires and restores the flags |
| Session.PauseOutlivesStop | recorder.py:178-180 | the stop key while paused clears `recording` and keeps `paused`, and a resume pressed after the stop no longer clears it; since `Recorder.AudioRecorder.StartRecording` may change only `recording`, a restarted session begins paused |
| Recorder.AudioRecorder.constructor | recorder.py:17-22 | not recording, not paused, empty queue, no speaker names |
| Recorder.AudioRecorder.PauseRecording | recorder.py:525-531 | returns whether it fired (recording and not paused before); `paused` ends set iff it was set or the call fired; agrees with `Session.Pause` |
| Recorder.AudioRecorder.ResumeRecording | recorder.py:533-539 | returns whether it fired (recording and paused before); `paused` ends clear iff the call fired; agrees with `Session.Resume` |
| Recorder.AudioRecorder.StopKey | recorder.py:180 | the `s` hook leaves `recording` false |
| Recorder.AudioRecorder.KeyHook | recorder.py:178-180 | the flags after the `p`, `r` or `s` hook are those of pause, resume or stop |
| Recorder.AudioRecorder.StartRecording | recorder.py:321 | `recording` is set; `paused` is not touched |
| Recorder.AudioRecorder.MicCallback | recorder.py:141-147 | exactly one block is enqueued, tagged microphone, widened to stereo when mono |
| Recorder.AudioRecorder.SystemCallback | recorder.py:149-155 | exactly one block is enqueued, tagged system, widened to stereo when mono |
| Audio.ToStereo | recorder.py:145-146 | the result has the block's length; a mono block becomes two equal columns each holding its sample; any other block is unchanged |
| Audio.StereoColumns | recorder.py:145-146 | both columns of a widened mono block are the original block |
| Audio.StereoIdempotent | recorder.py:153-154 | widening an already widened block changes nothing |
| Audio.ConcatLength | recorder.py:212-214 | the concatenation has as many frames as the blocks together |
| Audio.ConcatAppend | audio_recorder.py:46 | concatenating two capture lists one after the other is concatenating each and appending |
| Session.PairUp | recorder.py:210-218 | both halves of a pair have the length of the shorter concatenated buffer and each is a prefix of its buffer's concatenation |
| Recorder.AudioRecorder.PairBuffers | recorder.py:212-218 | the pair built by concatenating and slicing the two buffers is `Session.PairUp` of them, so both halves have the shorter length and are prefixes of their buffers |
| Session.PausedPollIdle | recorder.py:198-200 | a pass of the loop while paused changes nothing, not even the queue |
| Session.StoppingAnswers | recorder.py:244-257 | the silence question stops on exactly `y` or `Y`, the hour question on exactly `n` or `N` |
| Text.LowerMatches | recorder.py:244 | a lower-cased answer is a given lower-case letter iff the answer is that letter in either case |
| Session.SilenceRule | recorder.py:242-250 | the silence question is printed iff the timer has reached 120 s; `y` stops with the pair unwritten; any other answer resets the timer to (None, 0); below the limit the pass goes straight to the hour check; the pass either writes the pair or halts |
| Session.HourRule | recorder.py:253-261 | the hour question is printed iff an hour has passed since the start and it was not answered before; `n` stops with the pair unwritten; any other answer marks it answered and the pair is written; the silence timer is untouched |
| Session.ConsumeOutcome | recorder.py:202-267 | a dequeued block only joins its buffer until both buffers hold audio; then the trimmed pair is written with both buffers cleared, or nothing is written and the loop stops or waits |
| Session.RunSound | recorder.py:195-267 | over any schedule: the loop never leaves both buffers full, every written pair has equal halves, and the hour question is printed at most once |
| Session.SessionInvariants | recorder.py:195-267 | from the starting state, after any schedule: at most one hour question, equal-length written pairs, and, while the loop is live, one buffer empty |
| Session.ConsumeSilence | recorder.py:233-239 | with a clock that does not go back, the silence timer starts no later than the current time and its duration is between 0 and the time since it started |
| Session.RunSilence | recorder.py:233-239 | that silence bound holds after any schedule whose clock is non-decreasing |
| Session.SilenceNeverNegative | recorder.py:233-239 | from the starting state with a non-decreasing clock, the silence duration is never negative and the timer never starts in the future |
| Session.PausedTimeCountsTowardHour | recorder.py:198-261 | one schedule: paused from the start at time 0, both blocks arrive while paused, a pass at 1800 s dequeues nothing, then after resuming the pair formed at 3600 s is asked the hour question and, answered `y`, written; the paused half hour counted towards the hour |
| Session.HourAtFirstPair | recorder.py:233-261 | a pass that forms a pair once an hour has passed since the start, with the hour question not yet answered and the updated silence duration below 120 s, asks the hour question; a first answer other than `n` consumes that answer, marks the question answered, keeps recording and writes the pair |
| Session.PausedTimeCountsTowardSilence | recorder.py:198-250 | one schedule with a meter that finds every pair quiet: the quiet pair at 10 s starts the timer, a pause follows and a pass at 100 s dequeues nothing; after resuming, the quiet pair at 200 s has a duration of 190 s, 180 of them paused, and reaches the silence question |
| Recorder.AudioRecorder.SilenceQuestion | recorder.py:242-250 | the silence question on the object: state and answers as in `Session.SilenceCheck`; when the pass goes on, it continues with the hour check |
| Recorder.AudioRecorder.HourQuestion | recorder.py:253-261 | the hour question on the object: state and answers as in `Session.HourCheck`; when the pass goes on, the pair is written |
| Recorder.AudioRecorder.Checkpoints | recorder.py:242-267 | the two questions and the write leave the state `Session.SilenceCheck` gives |
| Recorder.AudioRecorder.HandleBuffers | recorder.py:210-267 | from buffered blocks to the end of the pass, the object and the loop variables end as `Session.Handle` says |
| Recorder.AudioRecorder.Pass | recorder.py:195-207 | one pass of the loop leaves the state `Session.Step` gives for a poll |
| Recorder.AudioRecorder.Tick | recorder.py:141-207 | any tick (hook, callback or pass) leaves the state `Session.Step` gives; it may change only the two flags and the queue, so `speaker_names` is untouched |
| Recorder.AudioRecorder.Record | recorder.py:195-267 | after the schedule, the flags, the queue, the written pairs and the prompts are those of `Session.Run` from the starting state, so every `Session` lemma applies to the method; `speaker_names` is unchanged |
| Grouping.Runs | recorder.py:380-400 | there are no more runs than items, none iff no items; the first run opens at the first item and the last run carries the last item's key |
| Grouping.RunsSame | recorder.py:385-386 | an item with the open run's key only extends that run's texts |
| Grouping.RunsNew | recorder.py:387-400 | an item with a new key opens a run at its own start with its text alone |
| Grouping.RunsMaximal | recorder.py:380-400 | runs are non-empty and neighbouring runs have different keys |
| Grouping.RunsCover | recorder.py:380-400 | the runs' texts, in order, are the items' texts |
| Grouping.RunsCount | recorder.py:380-400 | there is one run per key change, counting the first item |
| Grouping.RunsKeys | recorder.py:380-400 | the runs carry exactly the items' keys |
| Grouping.KeysOccur | recorder.py:380-400 | a key is among the items' keys iff some item carries it |
| Grouping.RunKeysOccur | recorder.py:380-400 | a key is among the runs' keys iff some run carries it |
| Grouping.RunsKeyCover | recorder.py:380-400 | writing each run's key once per text it holds gives the items' keys in order; with `RunsCover` and `RunsMaximal` this fixes every run as the slice of items between one key change and the next |
| Speakers.ClosuresAt | recorder.py:389-404 | each run lasts until the next one starts, and the last until the last utterance's end |
| Speakers.SegmentsKeys | recorder.py:374-410 | after the scan, a label has an entry in `speaker_segments` iff some preview utterance carries it |
| Speakers.LongestChosen | recorder.py:390-410 | a label has an entry iff it has a run; its entry is the segment of that label's earliest longest run, since only a strictly longer one replaces it |
| Speakers.LongestExample | recorder.py:374-410 | for A 0-10, A 10-25, B 25-40, A 40-45, A gets (start 0, duration 25) and B gets (25, 15), and there are no other labels |
| Speakers.ScanFirst | recorder.py:381-384 | the first utterance opens the current run |
| Speakers.ScanSame | recorder.py:385-386 | an utterance by the current speaker only adds its text |
| Speakers.ScanNew | recorder.py:387-400 | a new speaker stores the finished run if it beats that label's entry, and opens a run of its own |
| Speakers.ScanLast | recorder.py:402-410 | after the last utterance, closing the open run at the last end gives the final map; with no utterances it is empty |
| Speakers.Store | recorder.py:389-395 | the entry is replaced only when the label has none or the new duration is strictly greater |
| Speakers.SegmentStep | recorder.py:380-400 | one loop iteration keeps the scan's state equal to the runs seen so far |
| Speakers.LongestSegments | recorder.py:374-410 | the map built by the loop is the fold of `Keep` over the closed runs, so everything `LongestChosen` says holds for it |
| Text.LexTotal | recorder.py:429 | any two strings are ordered one way or the other |
| Text.LexAntisymmetric | recorder.py:429 | strings ordered both ways are equal |
| Text.LexTransitive | recorder.py:429 | the string order is transitive |
| Text.LeastExists | recorder.py:429 | a nonempty set of labels has a least one |
| Text.SortedSpec | recorder.py:429 | the sorted enumeration of a set is strictly increasing and holds exactly its elements |
| Text.SortedUnique | recorder.py:429 | two strictly sorted sequences of the same length with the same elements are equal |
| Text.SortStrings | recorder.py:429 | the labels' keys in strictly increasing order, each exactly once: the one sorted enumeration |
| Text.TrimStartSpec | recorder.py:431 | the result is a suffix, everything removed is whitespace, and it does not start with whitespace |
| Text.TrimEndSpec | recorder.py:431 | the result is a prefix, everything removed is whitespace, and it does not end with whitespace |
| Text.StripBlank | recorder.py:431-432 | a stripped answer is empty iff the answer is all whitespace |
| Text.StripIdempotent | recorder.py:431 | stripping twice is stripping once |
| Speakers.FirstNameSpec | recorder.py:430-435 | the prompt for one label gets no name iff every remaining answer is blank; otherwise it takes the first non-blank answer, stripped, and leaves the answers after it |
| Speakers.FirstNameStripped | recorder.py:431-433 | an accepted name is non-empty and has no surrounding whitespace |
| Speakers.FirstNameCount | recorder.py:430-435 | one prompt succeeds iff a non-blank answer remains, and it uses up exactly one of them |
| Speakers.AskNamesEntries | recorder.py:429-434 | when every label gets a name, there is one entry per label, in label order, each non-empty and stripped |
| Speakers.AskNamesSucceeds | recorder.py:429-435 | every label gets a name iff there are at least as many non-blank answers as labels |
| Speakers.PromptNames | recorder.py:427-435 | the prompting loop yields the entries `AskNames` defines, or nothing when the answers run out |
| Transcript.FormatTimeRoundTrip | recorder.py:466-470 | for a non-negative start: `[`, digits, `:`, two digits, `]`; the seconds read back below 60 and minutes times 60 plus seconds is the whole seconds of the start |
| Transcript.FormatTimeHour | recorder.py:466-470 | minutes are not reduced to hours: an hour stamps as `[60:00]` |
| Transcript.FormatTimeNegative | recorder.py:467-470 | a negative start truncates toward zero, then floors: -1500 ms stamps as `[-1:59]` |
| Text.Pad2RoundTrip | recorder.py:417 | a zero-padded number is all digits, reads back as itself, and has two digits below 100 |
| Text.ParseDigits | recorder.py:417 | the decimal digits of a number read back as the number |
| Transcript.ResolveFound | recorder.py:475 | a label with an entered name resolves to it |
| Transcript.ResolveMissing | recorder.py:475 | a label without a name resolves to itself |
| Transcript.NamesResolve | recorder.py:429-475 | after a successful prompt over sorted labels, each label resolves to the name entered for it and every other label to itself |
| Transcript.Blocks | recorder.py:478-487 | there are no more blocks than utterances, none iff no utterances, and the last carries the last name |
| Transcript.BlocksAreRuns | recorder.py:478-487 | with no empty names, the blocks are exactly the maximal runs of equal names |
| Transcript.GroupCount | recorder.py:478-487 | with no empty names, there is one block per change of name and the blocks are maximal |
| Transcript.BlocksCover | recorder.py:478-487 | the blocks' texts, in order, are all the utterances' texts |
| Transcript.EmptyNameMerges | recorder.py:479 | a group under the empty name is not closed but continues under the next name |
| Transcript.LineAt | recorder.py:478-493 | block k gives two lines, its name and its texts joined by spaces; its stamp is the last utterance's start for the last block and the first utterance's start for every other |
| Transcript.LinesShape | recorder.py:478-493 | the script has two lines per block, laid out as `LineAt` says for every block |
| Transcript.StampExample | recorder.py:480-491 | for A at 5 s, B at 70 s, A at 130 s, the first two blocks are both stamped `[00:05]` and the last `[02:10]` |
| Transcript.ScriptClose | recorder.py:479-483 | a change from a truthy name appends the open group's two lines, stamped with the first utterance, and opens a group |
| Transcript.ScriptJoin | recorder.py:486-487 | the same name, or an empty current name, adds the text to the open group and takes the new name |
| Transcript.ScriptFirst | recorder.py:486-487 | the first utterance opens the first group |
| Transcript.ScriptLast | recorder.py:490-493 | after the last utterance, the open group's lines stamped with the last utterance's start complete the script |
| Recorder.AudioRecorder.ScriptStep | recorder.py:473-487 | one iteration of the grouping loop keeps the lines and the open group equal to the groups so far |
| Recorder.AudioRecorder.ScriptLines | recorder.py:462-493 | the lines the loop builds are `Transcript.Lines` of the entered names and the utterances, so `LinesShape` describes them |
| Recorder.AudioRecorder.MappingText | recorder.py:496-499 | the title, the mapping heading, and one `label → name` line per entry in entry order |
| Recorder.AudioRecorder.FormatTranscript | recorder.py:460-503 | the transcript is the header (title, mapping in entry order, a rule of 50 `=`) followed by the script lines joined by newlines |
| Transcript.FormatEmpty | recorder.py:495-503 | a transcript of no utterances is the header alone, and the header with no names is the heading and the rule |
| Text.Repeat | recorder.py:500 | `c * n` has length n and every character c |
| Text.ReplaceSuffix | recorder.py:349 | replacing a dot-suffix in a base with no dot replaces just that suffix |
| Transcript.RecordingPaths | recorder.py:349 | `recording_<stamp>.wav` (line 101) gets `recording_<stamp>_preview.wav` and `recording_<stamp>_transcript.txt` (line 507) |
| Recorder.AudioRecorder.TranscribeAudio | recorder.py:341-454 | a missing file gives nothing and leaves the names; otherwise the preview path, the first 120 s of the audio at 48 kHz (all of it when shorter), the names for the preview's labels in sorted order, and either the formatted full transcript or nothing when the answers run out |
| SimpleRecorder.AudioRecorder.constructor | audio_recorder.py:10-14 | not recording, nothing captured, 44100 Hz, two channels |
| SimpleRecorder.AudioRecorder.Callback | audio_recorder.py:22-27 | the block is appended exactly when recording; otherwise the capture is unchanged |
| SimpleRecorder.AudioRecorder.StartRecording | audio_recorder.py:29-33 | recording, with the capture emptied |
| SimpleRecorder.AudioRecorder.StopRecording | audio_recorder.py:35-38 | not recording; the capture is kept |
| SimpleRecorder.AudioRecorder.SaveAudio | audio_recorder.py:40-52 | nothing is written iff nothing was captured; otherwise two channels, 16-bit, at the sample rate, holding the captured blocks' frames in order |
| SimpleRecorder.AudioRecorder.Stream | audio_recorder.py:22-27 | a stream of blocks is appended in order while recording, and ignored otherwise |
| SimpleRecorder.Script | audio_recorder.py:98-122 | the twenty-second file is absent iff nothing came first and otherwise holds the first blocks; the complete file holds those followed by the rest, and nothing that arrived after the stop |

## Left out

- Device discovery, the OS-specific channel lookup and stream opening (`recorder.py:28-92`, `recorder.py:104-134`, `recorder.py:159-173`): device I/O. A block is a sequence of frames given as input; a frame is a sequence of `real` samples.
- `reduce_noise`, `mix_audio` and the RMS levels (`recorder.py:221-229`, `recorder.py:286-318`): floating-point numerics.
  - The two levels are an abstract `Session.Meter` passed in.
  - The file records the trimmed pair that would be mixed, rather than the mixed samples.
- Threads, the queue's thread safety and `time.sleep` (`recorder.py:199`, `recorder.py:202`, `recorder.py:324-328`).
  - The interleaving is an input schedule of key presses, stream deliveries and loop passes.
  - A pass with an empty queue stands for the `get` timing out.
  - `time.time()` is the clock reading carried by each pass; the clock readings are wall-clock seconds as integers.
- `input()` (`recorder.py:244`, `recorder.py:256`, `recorder.py:431`): scripted answer sequences.
  - When the loop's answers run out, it is marked as waiting for ever.
  - When the name answers run out, the prompt fails the way an end of input would.
- Recorder.AudioRecorder.TranscribeAudio: on a failed prompt the names are left empty, whereas the code leaves the names entered before the failure. The code never reads them before the next call resets them (`recorder.py:427`).
- Recorder.AudioRecorder.TranscribeAudio: the file checks and the AssemblyAI service are not modelled.
  - The file's existence, the audio read back from it, and the preview and full utterances are parameters.
  - The clip is the first 120 s of the given audio; writing it and `os.remove` are file I/O.
  - The exception handlers that turn service or file errors into `None` are not modelled.
- `start_recording`'s thread and its follow-up transcription (`recorder.py:324-339`), `audio_callback` (`recorder.py:94-97`), `save_transcript`'s file write and printing (`recorder.py:505-523`), and the menu in `main` (`recorder.py:541-594`): orchestration, output and UI.
- Printing of levels, prompts and the preview segments, and the catch-all `except` clauses in the loop (`recorder.py:269-273`): output and error plumbing.
  - The streams open with the device's `max_input_channels` (`recorder.py:111-112`, `recorder.py:161`, `recorder.py:168`). On a device with other than one or two channels, `mix_audio` or `file.write` raises on every pass (`recorder.py:307`); that `except` swallows it, both buffers stay full and nothing is ever written.
  - The model writes pairs of any width, so for such a device `Session.RunSound`'s "one buffer is empty while the loop runs" holds in the model but not in the code.
- `Text.Lower` lower-cases ASCII letters only; Python's `lower` also maps other alphabets. The answers compared are `y` and `n`, so only the ASCII case matters.
- `Transcript.FormatTime`: `int(start_ms / 1000)` goes through a float in Python. The model uses exact integer truncation toward zero, which differs only for starts beyond 2^53 ms.
- The unused `timestamp` computed per utterance in `format_transcript` (`recorder.py:476`) has no effect and is not modelled.
- Dictionaries are modelled as follows:
  - `speaker_names` is the sequence of entries in insertion order. Its labels come from sorting distinct keys, so they are distinct.
  - `speaker_segments` is a map, read through its key set.
- SimpleRecorder.AudioRecorder.SaveAudio: the bytes are not modelled.
  - The code writes float32 samples into a 16-bit WAV header with `tobytes()`.
  - The model keeps the header fields and the frames, not the encoded data.
- `setup_assemblyai` and `transcribe_audio` in `audio_recorder.py` (`audio_recorder.py:17-20`, `audio_recorder.py:54-78`): the external service and printing.
- Grouping.RunsKeyCover: each run's texts and key are pinned item by item, but its start is pinned only for the first run (`Grouping.Runs`) and, for each later run, by the step that opens it (`Grouping.RunsNew`). There is no closed form "run `k` starts at the start of item `o`".

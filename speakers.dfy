/** Speaker identification in `transcribe_audio` of `recorder.py`: the longest
  * contiguous stretch of speech of every speaker label in the preview
  * transcript, and the names typed in for the labels in sorted order. */
module Speakers {
  import opened Wrappers
  import opened Grouping
  import Text

  /** An utterance of a transcript: speaker label, text, and start and end in
    * milliseconds. */
  datatype Utterance = Utterance(speaker: string, text: string, start: int, end: int)

  /** The entry `speaker_segments` keeps per label: where the stretch starts,
    * how long it lasts, and its texts joined with single spaces. */
  datatype Segment = Segment(start: int, duration: int, text: string)

  /** A stretch once it is closed, with its label. */
  datatype Closed = Closed(speaker: string, segment: Segment)

  function ItemOf(u: Utterance): Item {
    Item(u.speaker, u.start, u.text)
  }

  /** The utterances as items keyed by their raw label. */
  function LabelItems(utts: seq<Utterance>): (items: seq<Item>)
    ensures |items| == |utts|
    decreases |utts|
  {
    if utts == [] then [] else LabelItems(utts[..|utts| - 1]) + [ItemOf(utts[|utts| - 1])]
  }

  /** A run closed at `stop`. */
  function Close(r: Run, stop: int): Closed {
    Closed(r.key, Segment(r.start, stop - r.start, Text.Join(r.texts, " ")))
  }

  /** The runs closed: each lasts until the next one starts, the last one
    * until `lastEnd`. */
  function Closures(rs: seq<Run>, lastEnd: int): (cs: seq<Closed>)
    ensures |cs| == |rs|
    decreases |rs|
  {
    if rs == [] then [] else Closures(rs[..|rs| - 1], rs[|rs| - 1].start) + [Close(rs[|rs| - 1], lastEnd)]
  }

  /** Each closed stretch lasts from its run's start to the next run's start,
    * the last one to `lastEnd`, and carries its run's texts joined with
    * single spaces. */
  lemma {:induction false} ClosuresAt(rs: seq<Run>, lastEnd: int, k: int)
    requires 0 <= k < |rs|
    ensures Closures(rs, lastEnd)[k] == Close(rs[k], if k + 1 < |rs| then rs[k + 1].start else lastEnd)
    decreases |rs|
  {
    if k < |rs| - 1 {
      ClosuresAt(rs[..|rs| - 1], rs[|rs| - 1].start, k);
    }
  }

  /** A closed stretch replaces the entry of its label only when the label is
    * new or the stretch is strictly longer. */
  function Keep(m: map<string, Segment>, c: Closed): map<string, Segment> {
    if c.speaker !in m || c.segment.duration > m[c.speaker].duration then m[c.speaker := c.segment] else m
  }

  /** `speaker_segments` after the closed stretches, in order. */
  function Longest(cs: seq<Closed>): map<string, Segment>
    decreases |cs|
  {
    if cs == [] then map[] else Keep(Longest(cs[..|cs| - 1]), cs[|cs| - 1])
  }

  lemma LongestSnoc(cs: seq<Closed>, c: Closed)
    ensures Longest(cs + [c]) == Keep(Longest(cs), c)
  {
    assert (cs + [c])[..|cs|] == cs;
  }

  /** Stretch `k` is the earliest of the longest stretches of its label. */
  predicate FirstLongest(cs: seq<Closed>, k: int)
    requires 0 <= k < |cs|
  {
    && (forall j :: 0 <= j < |cs| && cs[j].speaker == cs[k].speaker ==> cs[j].segment.duration <= cs[k].segment.duration)
    && (forall j :: 0 <= j < k && cs[j].speaker == cs[k].speaker ==> cs[j].segment.duration < cs[k].segment.duration)
  }

  predicate Occurs(cs: seq<Closed>, who: string) {
    exists k :: 0 <= k < |cs| && cs[k].speaker == who
  }

  /** `key` is entered with the segment of stretch `k`, the earliest longest. */
  predicate ChosenAt(cs: seq<Closed>, m: map<string, Segment>, key: string, k: int) {
    0 <= k < |cs| && cs[k].speaker == key && key in m && m[key] == cs[k].segment && FirstLongest(cs, k)
  }

  /** Every label that occurs gets an entry and no other; the entry is the
    * earliest of that label's longest stretches. */
  lemma {:induction false} LongestChosen(cs: seq<Closed>)
    ensures forall key :: key in Longest(cs) <==> Occurs(cs, key)
    ensures forall key :: key in Longest(cs) ==> exists k :: ChosenAt(cs, Longest(cs), key, k)
    decreases |cs|
  {
    if cs != [] {
      var p, c := cs[..|cs| - 1], cs[|cs| - 1];
      LongestChosen(p);
      var m := Longest(p);
      assert cs == p + [c];
      assert Longest(cs) == Keep(m, c);
      forall key ensures key in Longest(cs) <==> Occurs(cs, key) {
        if Occurs(p, key) {
          var k :| 0 <= k < |p| && p[k].speaker == key;
          assert cs[k] == p[k];
        }
        if Occurs(cs, key) && key != c.speaker {
          var k :| 0 <= k < |cs| && cs[k].speaker == key;
          assert k < |p| && p[k] == cs[k];
        }
      }
      forall key | key in Longest(cs) ensures exists k :: ChosenAt(cs, Longest(cs), key, k) {
        if key == c.speaker && (key !in m || c.segment.duration > m[key].duration) {
          KeepNew(p, c);
        } else {
          var k :| ChosenAt(p, m, key, k);
          KeepOld(p, c, k);
        }
      }
    }
  }

  /** The new stretch is entered: it is the earliest longest of its label. */
  lemma KeepNew(p: seq<Closed>, c: Closed)
    requires forall key :: key in Longest(p) <==> Occurs(p, key)
    requires forall key :: key in Longest(p) ==> exists k :: ChosenAt(p, Longest(p), key, k)
    requires c.speaker !in Longest(p) || c.segment.duration > Longest(p)[c.speaker].duration
    ensures ChosenAt(p + [c], Keep(Longest(p), c), c.speaker, |p|)
  {
    var cs, m := p + [c], Longest(p);
    forall j | 0 <= j < |p| && cs[j].speaker == c.speaker
      ensures cs[j].segment.duration < c.segment.duration
    {
      assert p[j] == cs[j] && Occurs(p, c.speaker);
      var k :| ChosenAt(p, m, c.speaker, k);
    }
  }

  /** The new stretch is not entered: the old entry stays the earliest
    * longest of its label. */
  lemma KeepOld(p: seq<Closed>, c: Closed, k: int)
    requires 0 <= k < |p| && ChosenAt(p, Longest(p), p[k].speaker, k)
    requires c.speaker == p[k].speaker ==> c.segment.duration <= Longest(p)[c.speaker].duration
    ensures ChosenAt(p + [c], Keep(Longest(p), c), p[k].speaker, k)
  {
    var cs := p + [c];
    assert forall j :: 0 <= j < |p| ==> cs[j] == p[j];
  }

  /** Four utterances labelled A, A, B, A, used by the lemmas below. */
  function ExampleUtterances(): seq<Utterance> {
    [Utterance("A", "a1", 0, 10), Utterance("A", "a2", 10, 25),
     Utterance("B", "b1", 25, 40), Utterance("A", "a3", 40, 45)]
  }

  /** The example's items, in order. */
  lemma ExampleItems()
    ensures LabelItems(ExampleUtterances())
         == [Item("A", 0, "a1"), Item("A", 10, "a2"), Item("B", 25, "b1"), Item("A", 40, "a3")]
  {
    var utts := ExampleUtterances();
    assert utts[..3][..2] == utts[..2] && utts[..2][..1] == utts[..1] && utts[..1][..0] == [];
    assert LabelItems(utts[..1]) == [Item("A", 0, "a1")];
    assert LabelItems(utts[..2]) == [Item("A", 0, "a1"), Item("A", 10, "a2")];
    assert LabelItems(utts[..3]) == [Item("A", 0, "a1"), Item("A", 10, "a2"), Item("B", 25, "b1")];
  }

  /** The first two items, both A, form one run. */
  lemma ExampleFirstRun()
    ensures Runs([Item("A", 0, "a1"), Item("A", 10, "a2")]) == [Run("A", 0, ["a1", "a2"])]
  {
    var i0, i1 := Item("A", 0, "a1"), Item("A", 10, "a2");
    RunsNew([], i0);
    assert [] + [i0] == [i0];
    RunsSame([i0], i1);
    assert [i0] + [i1] == [i0, i1];
    assert ["a1"] + ["a2"] == ["a1", "a2"];
  }

  /** The example gives three runs: A twice, then B, then A again. */
  lemma ExampleRuns()
    ensures Runs(LabelItems(ExampleUtterances()))
         == [Run("A", 0, ["a1", "a2"]), Run("B", 25, ["b1"]), Run("A", 40, ["a3"])]
  {
    ExampleItems();
    ExampleFirstRun();
    var i0, i1, i2, i3 := Item("A", 0, "a1"), Item("A", 10, "a2"), Item("B", 25, "b1"), Item("A", 40, "a3");
    RunsNew([i0, i1], i2);
    assert [i0, i1] + [i2] == [i0, i1, i2];
    RunsNew([i0, i1, i2], i3);
    assert [i0, i1, i2] + [i3] == [i0, i1, i2, i3];
  }

  /** The runs closed in turn: each where the next starts, the last where the
    * last utterance ends. */
  lemma ExampleClosures()
    ensures Closures([Run("A", 0, ["a1", "a2"]), Run("B", 25, ["b1"]), Run("A", 40, ["a3"])], 45)
         == [Closed("A", Segment(0, 25, "a1 a2")), Closed("B", Segment(25, 15, "b1")), Closed("A", Segment(40, 5, "a3"))]
  {
    var r0, r1, r2 := Run("A", 0, ["a1", "a2"]), Run("B", 25, ["b1"]), Run("A", 40, ["a3"]);
    assert [r0, r1, r2][..2] == [r0, r1];
    assert [r0, r1][..1] == [r0];
    assert [r0][..0] == [];
    assert Text.Join(["a1", "a2"], " ") == "a1 a2";
    assert Text.Join(["b1"], " ") == "b1";
    assert Text.Join(["a3"], " ") == "a3";
  }

  /** Speaker A's longest stretch is the first one of 25 ms (the last one is
    * 5 ms); B's is its only one. */
  lemma LongestExample()
    ensures var m := Longest(Closures(Runs(LabelItems(ExampleUtterances())), 45));
      m.Keys == {"A", "B"} && m["A"] == Segment(0, 25, "a1 a2") && m["B"] == Segment(25, 15, "b1")
  {
    ExampleRuns();
    ExampleClosures();
    var c0, c1, c2 := Closed("A", Segment(0, 25, "a1 a2")), Closed("B", Segment(25, 15, "b1")), Closed("A", Segment(40, 5, "a3"));
    LongestSnoc([], c0);
    LongestSnoc([c0], c1);
    LongestSnoc([c0, c1], c2);
    assert [c0] == [] + [c0] && [c0, c1] == [c0] + [c1] && [c0, c1, c2] == [c0, c1] + [c2];
    assert Longest([c0, c1]) == map["A" := c0.segment, "B" := c1.segment];
  }

  /** `speaker_segments` after the whole preview: the runs of equal labels,
    * each closed where the next starts and the last where the last utterance
    * ends, and per label the first longest. */
  function Segments(utts: seq<Utterance>): map<string, Segment> {
    Longest(Closures(Runs(LabelItems(utts)), if utts == [] then 0 else utts[|utts| - 1].end))
  }

  /** Utterance `i` becomes item `i`. */
  lemma {:induction false} LabelItemsAt(utts: seq<Utterance>, i: int)
    requires 0 <= i < |utts|
    ensures LabelItems(utts)[i] == ItemOf(utts[i])
    decreases |utts|
  {
    if i < |utts| - 1 {
      LabelItemsAt(utts[..|utts| - 1], i);
    }
  }

  /** `speaker_segments` has an entry for exactly the labels that occur in the
    * preview. */
  lemma SegmentsKeys(utts: seq<Utterance>)
    ensures forall key :: key in Segments(utts) <==> exists i :: 0 <= i < |utts| && utts[i].speaker == key
  {
    var items := LabelItems(utts);
    var rs := Runs(items);
    var cs := Closures(rs, if utts == [] then 0 else utts[|utts| - 1].end);
    LongestChosen(cs);
    RunsKeys(items);
    forall key ensures key in Segments(utts) <==> exists i :: 0 <= i < |utts| && utts[i].speaker == key {
      RunKeysOccur(rs, key);
      KeysOccur(items, key);
      if Occurs(cs, key) {
        var k :| 0 <= k < |cs| && cs[k].speaker == key;
        ClosuresAt(rs, if utts == [] then 0 else utts[|utts| - 1].end, k);
      }
      if exists k :: 0 <= k < |rs| && rs[k].key == key {
        var k :| 0 <= k < |rs| && rs[k].key == key;
        ClosuresAt(rs, if utts == [] then 0 else utts[|utts| - 1].end, k);
      }
      if exists i :: 0 <= i < |items| && items[i].key == key {
        var i :| 0 <= i < |items| && items[i].key == key;
        LabelItemsAt(utts, i);
      }
      if exists i :: 0 <= i < |utts| && utts[i].speaker == key {
        var i :| 0 <= i < |utts| && utts[i].speaker == key;
        LabelItemsAt(utts, i);
      }
    }
  }

  /** What `speaker_segments` holds while the last run is still open: the
    * earlier runs, the one before the last closed where the last starts. */
  function Pending(rs: seq<Run>): map<string, Segment>
    requires rs != []
  {
    Longest(Closures(rs[..|rs| - 1], rs[|rs| - 1].start))
  }

  /** An utterance of the open run's label extends the run and stores nothing. */
  lemma PendingSame(items: seq<Item>, x: Item)
    requires Runs(items) != [] && Runs(items)[|Runs(items)| - 1].key == x.key
    ensures var rs, rs' := Runs(items), Runs(items + [x]);
      && rs' != [] && Pending(rs') == Pending(rs)
      && rs'[|rs'| - 1] == rs[|rs| - 1].(texts := rs[|rs| - 1].texts + [x.text])
  {
    RunsSame(items, x);
    var rs, rs' := Runs(items), Runs(items + [x]);
    assert rs'[..|rs'| - 1] == rs[..|rs| - 1];
  }

  /** An utterance of another label closes the open run where it starts and
    * opens its own run. */
  lemma PendingNew(items: seq<Item>, x: Item)
    requires Runs(items) != [] && Runs(items)[|Runs(items)| - 1].key != x.key
    ensures var rs, rs' := Runs(items), Runs(items + [x]);
      && rs' != [] && Pending(rs') == Keep(Pending(rs), Close(rs[|rs| - 1], x.start))
      && rs'[|rs'| - 1] == Run(x.key, x.start, [x.text])
  {
    RunsNew(items, x);
    var rs, rs' := Runs(items), Runs(items + [x]);
    assert rs'[..|rs'| - 1] == rs;
    LongestSnoc(Closures(rs[..|rs| - 1], rs[|rs| - 1].start), Close(rs[|rs| - 1], x.start));
  }

  /** The first utterance opens the first run and nothing is stored. */
  lemma PendingFirst(x: Item)
    ensures Runs([x]) == [Run(x.key, x.start, [x.text])] && Pending(Runs([x])) == map[]
  {
    RunsNew([], x);
    assert [] + [x] == [x];
  }

  /** After the last utterance the open run is closed at `lastEnd`. */
  lemma PendingLast(rs: seq<Run>, lastEnd: int)
    requires rs != []
    ensures Longest(Closures(rs, lastEnd)) == Keep(Pending(rs), Close(rs[|rs| - 1], lastEnd))
  {
    LongestSnoc(Closures(rs[..|rs| - 1], rs[|rs| - 1].start), Close(rs[|rs| - 1], lastEnd));
  }

  /** The state of the loop of `transcribe_audio` after `items`: no label
    * yet and nothing stored, or the open run's label, start and texts and
    * the entries stored for the runs before it. */
  predicate Scanning(items: seq<Item>, segments: map<string, Segment>,
                     current: Option<string>, start: int, texts: seq<string>)
  {
    if items == [] then current == None && segments == map[]
    else
      var rs := Runs(items);
      current == Some(rs[|rs| - 1].key) && start == rs[|rs| - 1].start && texts == rs[|rs| - 1].texts
      && segments == Pending(rs)
  }

  lemma ScanFirst(items: seq<Item>, x: Item, segments: map<string, Segment>,
                  current: Option<string>, start: int, texts: seq<string>)
    requires Scanning(items, segments, current, start, texts) && current == None
    ensures Scanning(items + [x], segments, Some(x.key), x.start, [x.text])
  {
    PendingFirst(x);
    assert items + [x] == [x];
  }

  lemma ScanSame(items: seq<Item>, x: Item, segments: map<string, Segment>,
                 current: Option<string>, start: int, texts: seq<string>)
    requires Scanning(items, segments, current, start, texts) && current == Some(x.key)
    ensures Scanning(items + [x], segments, current, start, texts + [x.text])
  {
    PendingSame(items, x);
  }

  lemma ScanNew(items: seq<Item>, x: Item, segments: map<string, Segment>,
                current: Option<string>, start: int, texts: seq<string>)
    requires Scanning(items, segments, current, start, texts) && current.Some? && current.value != x.key
    ensures Scanning(items + [x], Keep(segments, Close(Run(current.value, start, texts), x.start)),
                     Some(x.key), x.start, [x.text])
  {
    PendingNew(items, x);
  }

  /** After the last item the open run, if any, is closed at `lastEnd`. */
  lemma ScanLast(items: seq<Item>, lastEnd: int, segments: map<string, Segment>,
                 current: Option<string>, start: int, texts: seq<string>)
    requires Scanning(items, segments, current, start, texts)
    ensures current == None ==> items == [] && Longest(Closures(Runs(items), lastEnd)) == segments
    ensures current.Some? ==> (items != [] && Longest(Closures(Runs(items), lastEnd))
      == Keep(segments, Close(Run(current.value, start, texts), lastEnd)))
  {
    if items != [] {
      PendingLast(Runs(items), lastEnd);
    }
  }

  lemma LabelSnoc(utts: seq<Utterance>, i: int)
    requires 0 <= i < |utts|
    ensures LabelItems(utts[..i + 1]) == LabelItems(utts[..i]) + [ItemOf(utts[i])]
  {
    assert utts[..i + 1][..i] == utts[..i];
  }

  /** The loop of `transcribe_audio` over the preview utterances: the current
    * label, its start and texts, and the entry stored when the label changes
    * and after the last utterance. */
  method LongestSegments(utts: seq<Utterance>) returns (segments: map<string, Segment>)
    ensures segments == Segments(utts)
  {
    segments := map[];
    var current: Option<string> := None;
    var currentStart := 0;
    var currentText: seq<string> := [];
    for i := 0 to |utts|
      invariant Scanning(LabelItems(utts[..i]), segments, current, currentStart, currentText)
    {
      LabelSnoc(utts, i);
      segments, current, currentStart, currentText :=
        SegmentStep(LabelItems(utts[..i]), utts[i], segments, current, currentStart, currentText);
    }
    assert utts[..|utts|] == utts;
    if current != None {
      ScanLast(LabelItems(utts), utts[|utts| - 1].end, segments, current, currentStart, currentText);
      segments := Store(segments, current.value, currentStart, currentText, utts[|utts| - 1].end);
    } else {
      ScanLast(LabelItems(utts), 0, segments, current, currentStart, currentText);
    }
  }

  /** One utterance of that loop: the first opens a run, one of the same
    * label extends it, one of another label stores the run it closes and
    * opens its own. */
  method SegmentStep(ghost items: seq<Item>, u: Utterance, segments: map<string, Segment>,
                     current: Option<string>, currentStart: int, currentText: seq<string>)
    returns (segments': map<string, Segment>, current': Option<string>, currentStart': int, currentText': seq<string>)
    requires Scanning(items, segments, current, currentStart, currentText)
    ensures Scanning(items + [ItemOf(u)], segments', current', currentStart', currentText')
  {
    segments', current', currentStart', currentText' := segments, current, currentStart, currentText;
    if current == None {
      ScanFirst(items, ItemOf(u), segments, current, currentStart, currentText);
      current', currentStart', currentText' := Some(u.speaker), u.start, [u.text];
    } else if u.speaker == current.value {
      ScanSame(items, ItemOf(u), segments, current, currentStart, currentText);
      currentText' := currentText + [u.text];
    } else {
      ScanNew(items, ItemOf(u), segments, current, currentStart, currentText);
      segments' := Store(segments, current.value, currentStart, currentText, u.start);
      current', currentStart', currentText' := Some(u.speaker), u.start, [u.text];
    }
  }

  /** Closes the run of `speaker` opened at `start` where `stop` is reached,
    * and stores it unless a segment at least as long is already stored. */
  method Store(segments: map<string, Segment>, speaker: string, start: int, texts: seq<string>, stop: int)
    returns (r: map<string, Segment>)
    ensures r == Keep(segments, Close(Run(speaker, start, texts), stop))
  {
    r := segments;
    var duration := stop - start;
    if speaker !in segments || duration > segments[speaker].duration {
      r := segments[speaker := Segment(start, duration, Text.Join(texts, " "))];
    }
  }

  // ---------------------------------------------------------------------------
  // Names

  /** A label and the name typed in for it. */
  datatype NameEntry = NameEntry(speaker: string, name: string)

  /** An answer the prompt rejects: nothing is left once it is stripped
    * (`Text.StripBlank`: it holds only whitespace). */
  predicate Blank(answer: string) {
    Text.Strip(answer) == []
  }

  /** What the prompt for one label reads: the first answer that is not blank,
    * stripped, and the answers after it; `None` when the input ends first. */
  function FirstName(inputs: seq<string>): Option<(string, seq<string>)>
    decreases |inputs|
  {
    if inputs == [] then None
    else if !Blank(inputs[0]) then Some((Text.Strip(inputs[0]), inputs[1..]))
    else FirstName(inputs[1..])
  }

  /** The prompt reads nothing only when every remaining answer is blank; a
    * name read is the stripped form of the first answer that is not blank,
    * and reading resumes after it. */
  lemma {:induction false} FirstNameSpec(inputs: seq<string>)
    ensures FirstName(inputs) == None <==> forall i :: 0 <= i < |inputs| ==> Blank(inputs[i])
    ensures FirstName(inputs).Some? ==>
      exists k :: 0 <= k < |inputs| && FirstAt(inputs, k) && FirstName(inputs).value == (Text.Strip(inputs[k]), inputs[k + 1..])
    decreases |inputs|
  {
    if inputs != [] {
      var tail := inputs[1..];
      FirstNameSpec(tail);
      assert forall i :: 1 <= i < |inputs| ==> inputs[i] == tail[i - 1];
      if Blank(inputs[0]) && FirstName(tail).Some? {
        var k :| 0 <= k < |tail| && FirstAt(tail, k) && FirstName(tail).value == (Text.Strip(tail[k]), tail[k + 1..]);
        assert tail[k + 1..] == inputs[k + 2..];
        assert FirstAt(inputs, k + 1);
      } else if !Blank(inputs[0]) {
        assert FirstAt(inputs, 0);
      }
    }
  }

  /** Answer `k` is the first that is not blank. */
  predicate FirstAt(inputs: seq<string>, k: int)
    requires 0 <= k < |inputs|
  {
    !Blank(inputs[k]) && forall j :: 0 <= j < k ==> Blank(inputs[j])
  }

  /** The names for `labels`, one prompt per label in order, and the answers
    * left over; `None` when the input ends before every label has a name. */
  function AskNames(labels: seq<string>, inputs: seq<string>): Option<(seq<NameEntry>, seq<string>)>
    decreases |labels|
  {
    if labels == [] then Some(([], inputs))
    else match FirstName(inputs)
      case None => None
      case Some((name, rest)) =>
        match AskNames(labels[1..], rest)
        case None => None
        case Some((entries, left)) => Some(([NameEntry(labels[0], name)] + entries, left))
  }

  /** Every label gets one entry, in order, holding a name that is not blank
    * and is already stripped. */
  lemma {:induction false} AskNamesEntries(labels: seq<string>, inputs: seq<string>)
    requires AskNames(labels, inputs).Some?
    ensures var es := AskNames(labels, inputs).value.0;
      && |es| == |labels|
      && forall i :: 0 <= i < |es| ==> es[i].speaker == labels[i] && es[i].name != [] && Text.Strip(es[i].name) == es[i].name
    decreases |labels|
  {
    if labels != [] {
      var name, rest := FirstName(inputs).value.0, FirstName(inputs).value.1;
      FirstNameStripped(inputs);
      AskNamesEntries(labels[1..], rest);
    }
  }

  /** A name read is stripped and not blank. */
  lemma {:induction false} FirstNameStripped(inputs: seq<string>)
    requires FirstName(inputs).Some?
    ensures FirstName(inputs).value.0 != []
    ensures Text.Strip(FirstName(inputs).value.0) == FirstName(inputs).value.0
    decreases |inputs|
  {
    if !Blank(inputs[0]) {
      Text.StripIdempotent(inputs[0]);
    } else {
      FirstNameStripped(inputs[1..]);
    }
  }

  /** How many answers are not blank. */
  function NonBlank(inputs: seq<string>): nat
    decreases |inputs|
  {
    if inputs == [] then 0 else (if Blank(inputs[0]) then 0 else 1) + NonBlank(inputs[1..])
  }

  /** The prompt for one label succeeds exactly when some answer is not blank,
    * and it uses up exactly one answer that is not blank. */
  lemma {:induction false} FirstNameCount(inputs: seq<string>)
    ensures FirstName(inputs).Some? <==> NonBlank(inputs) > 0
    ensures FirstName(inputs).Some? ==> NonBlank(FirstName(inputs).value.1) == NonBlank(inputs) - 1
    decreases |inputs|
  {
    if inputs != [] && Blank(inputs[0]) {
      FirstNameCount(inputs[1..]);
    }
  }

  /** Naming succeeds exactly when the input holds at least one answer that
    * is not blank per label. */
  lemma {:induction false} AskNamesSucceeds(labels: seq<string>, inputs: seq<string>)
    ensures AskNames(labels, inputs).Some? <==> NonBlank(inputs) >= |labels|
    decreases |labels|
  {
    if labels != [] {
      FirstNameCount(inputs);
      if FirstName(inputs).Some? {
        AskNamesSucceeds(labels[1..], FirstName(inputs).value.1);
      }
    }
  }

  /** `entries` put in front of the names of a later prompt. */
  function Prefix(entries: seq<NameEntry>, r: Option<(seq<NameEntry>, seq<string>)>): Option<(seq<NameEntry>, seq<string>)> {
    match r
    case None => None
    case Some((es, left)) => Some((entries + es, left))
  }

  lemma PrefixNil(r: Option<(seq<NameEntry>, seq<string>)>)
    ensures Prefix([], r) == r
  {
    if r.Some? {
      assert [] + r.value.0 == r.value.0;
    }
  }

  lemma PrefixAssoc(names: seq<NameEntry>, e: NameEntry, r: Option<(seq<NameEntry>, seq<string>)>)
    ensures Prefix(names, Prefix([e], r)) == Prefix(names + [e], r)
  {
    if r.Some? {
      assert names + ([e] + r.value.0) == (names + [e]) + r.value.0;
    }
  }

  /** The name prompts of `transcribe_audio`: for each label in turn, answers
    * are read and stripped until one is not blank; reading past the end of
    * the input raises, and no names are returned. */
  method PromptNames(labels: seq<string>, inputs: seq<string>) returns (r: Option<(seq<NameEntry>, seq<string>)>)
    ensures r == AskNames(labels, inputs)
  {
    var names: seq<NameEntry> := [];
    var pos := 0;
    assert labels[0..] == labels && inputs[0..] == inputs;
    PrefixNil(AskNames(labels, inputs));
    for i := 0 to |labels|
      invariant 0 <= pos <= |inputs|
      invariant AskNames(labels, inputs) == Prefix(names, AskNames(labels[i..], inputs[pos..]))
    {
      ghost var before := pos;
      var name := "";
      while name == []
        invariant before <= pos <= |inputs|
        invariant name == [] ==> FirstName(inputs[before..]) == FirstName(inputs[pos..])
        invariant name != [] ==> FirstName(inputs[before..]) == Some((name, inputs[pos..]))
        decreases |inputs| - pos
      {
        if pos == |inputs| {
          assert inputs[pos..] == [];
          assert FirstName(inputs[before..]) == None;
          assert AskNames(labels[i..], inputs[before..]) == None;
          return None;
        }
        assert inputs[pos..][1..] == inputs[pos + 1..];
        name := Text.Strip(inputs[pos]);
        pos := pos + 1;
      }
      assert labels[i..][1..] == labels[i + 1..];
      PrefixAssoc(names, NameEntry(labels[i], name), AskNames(labels[i + 1..], inputs[pos..]));
      names := names + [NameEntry(labels[i], name)];
    }
    assert labels[|labels|..] == [];
    assert AskNames([], inputs[pos..]) == Some(([], inputs[pos..]));
    assert names + [] == names;
    r := Some((names, inputs[pos..]));
  }
}

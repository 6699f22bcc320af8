/** The transcript text of `recorder.py`: the `[MM:SS]` stamp, the lookup of
  * a label's name, the grouping of consecutive utterances under one name, the
  * script lines, the header and the derived file paths. */
module Transcript {
  import Text
  import Grouping
  import Speakers
  import opened Wrappers

  // ---------------------------------------------------------------------------
  // format_time

  /** `int(ms / 1000)`: true division, then truncation toward zero. */
  function WholeSeconds(ms: int): int {
    if ms >= 0 then ms / 1000 else -((-ms) / 1000)
  }

  /** `[MM:SS]` for a start in milliseconds. Minutes are not reduced to hours.
    * Dafny's `/` and `%` by the positive 60 agree with Python's `//` and `%`. */
  function FormatTime(ms: int): string {
    var s := WholeSeconds(ms);
    "[" + Text.Pad2(s / 60) + ":" + Text.Pad2(s % 60) + "]"
  }

  /** A stamp of a non-negative start reads back as its whole seconds: two
    * digits of seconds below 60 behind the colon, the minutes in front. */
  lemma FormatTimeRoundTrip(ms: nat)
    ensures var t := FormatTime(ms); var n := |t|;
      && n >= 7 && t[0] == '[' && t[n - 4] == ':' && t[n - 1] == ']'
      && Text.AllDigits(t[1..n - 4]) && Text.AllDigits(t[n - 3..n - 1])
      && Text.ParseNat(t[n - 3..n - 1]) < 60
      && 60 * Text.ParseNat(t[1..n - 4]) + Text.ParseNat(t[n - 3..n - 1]) == ms / 1000
  {
    var s := ms / 1000;
    var mm, ss := Text.Pad2(s / 60), Text.Pad2(s % 60);
    Text.Pad2RoundTrip(s / 60);
    Text.Pad2RoundTrip(s % 60);
    var t := FormatTime(ms);
    assert t == "[" + mm + ":" + ss + "]";
    var n := |t|;
    assert t[1..n - 4] == mm;
    assert t[n - 3..n - 1] == ss;
  }

  /** An hour is shown as sixty minutes. */
  lemma FormatTimeHour()
    ensures FormatTime(3600000) == "[60:00]"
  {
    assert Text.Pad2(60) == "60" by {
      assert Text.Digits(60) == Text.Digits(6) + [Text.DigitChar(0)];
    }
  }

  /** A negative start is truncated toward zero and then floored into
    * minutes: -1.5 s is -1 s, which is minute -1 and second 59. */
  lemma FormatTimeNegative()
    ensures FormatTime(-1500) == "[-1:59]"
  {
    assert WholeSeconds(-1500) == -1;
    assert -1 / 60 == -1 && -1 % 60 == 59;
    assert Text.Pad2(-1) == "-1";
    assert Text.Pad2(59) == "59" by {
      assert Text.Digits(59) == Text.Digits(5) + [Text.DigitChar(9)];
    }
    assert FormatTime(-1500) == "[" + "-1" + ":" + "59" + "]";
  }

  // ---------------------------------------------------------------------------
  // speaker_names.get(label, label)

  /** The name entered for `label`, or the label itself when none was. */
  function Resolve(names: seq<Speakers.NameEntry>, who: string): string
    decreases |names|
  {
    if names == [] then who
    else if names[0].speaker == who then names[0].name
    else Resolve(names[1..], who)
  }

  /** The entry for a label is found. */
  lemma {:induction false} ResolveFound(names: seq<Speakers.NameEntry>, i: int)
    requires 0 <= i < |names|
    requires forall j :: 0 <= j < i ==> names[j].speaker != names[i].speaker
    ensures Resolve(names, names[i].speaker) == names[i].name
    decreases i
  {
    if i > 0 {
      assert names[1..][i - 1] == names[i];
      ResolveFound(names[1..], i - 1);
    }
  }

  /** A label without an entry stands for itself. */
  lemma {:induction false} ResolveMissing(names: seq<Speakers.NameEntry>, who: string)
    requires forall j :: 0 <= j < |names| ==> names[j].speaker != who
    ensures Resolve(names, who) == who
    decreases |names|
  {
    if names != [] {
      ResolveMissing(names[1..], who);
    }
  }

  /** After the name prompts over labels in sorted order, each label resolves
    * to the name entered for it and every other label to itself. */
  lemma NamesResolve(labels: seq<string>, inputs: seq<string>, who: string)
    requires Text.StrictlySorted(labels) && Speakers.AskNames(labels, inputs).Some?
    ensures var es := Speakers.AskNames(labels, inputs).value.0;
      && |es| == |labels|
      && (forall i :: 0 <= i < |labels| ==> Resolve(es, labels[i]) == es[i].name)
      && (who !in labels ==> Resolve(es, who) == who)
  {
    var es := Speakers.AskNames(labels, inputs).value.0;
    Speakers.AskNamesEntries(labels, inputs);
    forall i | 0 <= i < |labels| ensures Resolve(es, labels[i]) == es[i].name {
      ResolveFound(es, i);
    }
    if who !in labels {
      ResolveMissing(es, who);
    }
  }

  /** The utterances with their labels resolved to names. */
  function Named(names: seq<Speakers.NameEntry>, utts: seq<Speakers.Utterance>): seq<Grouping.Item> {
    seq(|utts|, i requires 0 <= i < |utts| => Grouping.Item(Resolve(names, utts[i].speaker), utts[i].start, utts[i].text))
  }

  // ---------------------------------------------------------------------------
  // Blocks

  /** The groups `format_transcript` builds. A group closes only when the
    * current name is truthy and differs from the next one, so a group under
    * the empty name runs on into the next name. */
  function Blocks(items: seq<Grouping.Item>): (bs: seq<Grouping.Run>)
    ensures |bs| <= |items|
    ensures bs == [] <==> items == []
    ensures bs != [] ==> bs[|bs| - 1].key == items[|items| - 1].key
    decreases |items|
  {
    if items == [] then []
    else
      var bs := Blocks(items[..|items| - 1]);
      var x := items[|items| - 1];
      if bs != [] && (bs[|bs| - 1].key == "" || bs[|bs| - 1].key == x.key) then
        bs[..|bs| - 1] + [bs[|bs| - 1].(key := x.key, texts := bs[|bs| - 1].texts + [x.text])]
      else
        bs + [Grouping.Run(x.key, x.start, [x.text])]
  }

  /** The next utterance joins the open group: its name is empty or the same. */
  lemma BlocksJoin(items: seq<Grouping.Item>, x: Grouping.Item)
    requires Blocks(items) != []
    requires var k := Blocks(items)[|Blocks(items)| - 1].key; k == "" || k == x.key
    ensures var bs := Blocks(items);
      Blocks(items + [x]) == bs[..|bs| - 1] + [bs[|bs| - 1].(key := x.key, texts := bs[|bs| - 1].texts + [x.text])]
  {
    assert (items + [x])[..|items|] == items;
  }

  /** The next utterance opens a group of its own. */
  lemma BlocksOpen(items: seq<Grouping.Item>, x: Grouping.Item)
    requires var bs := Blocks(items); bs == [] || (bs[|bs| - 1].key != "" && bs[|bs| - 1].key != x.key)
    ensures Blocks(items + [x]) == Blocks(items) + [Grouping.Run(x.key, x.start, [x.text])]
  {
    assert (items + [x])[..|items|] == items;
  }

  /** With no empty name, the groups are the maximal runs of equal names. */
  lemma {:induction false} BlocksAreRuns(items: seq<Grouping.Item>)
    requires forall i :: 0 <= i < |items| ==> items[i].key != ""
    ensures Blocks(items) == Grouping.Runs(items)
    decreases |items|
  {
    if items != [] {
      var p := items[..|items| - 1];
      assert forall i :: 0 <= i < |p| ==> p[i] == items[i];
      BlocksAreRuns(p);
      var bs := Blocks(p);
      var x := items[|items| - 1];
      if bs != [] && bs[|bs| - 1].key == x.key {
        assert bs[|bs| - 1].(key := x.key) == bs[|bs| - 1];
      }
    }
  }

  /** Every text lands in a group, in order, whatever the names. */
  lemma {:induction false} BlocksCover(items: seq<Grouping.Item>)
    ensures Grouping.Flatten(Blocks(items)) == Grouping.Texts(items)
    decreases |items|
  {
    if items != [] {
      var p := items[..|items| - 1];
      var x := items[|items| - 1];
      assert items == p + [x];
      var bs := Blocks(p);
      BlocksCover(p);
      assert Grouping.Texts(items) == Grouping.Texts(p) + [x.text];
      if bs != [] && (bs[|bs| - 1].key == "" || bs[|bs| - 1].key == x.key) {
        BlocksJoin(p, x);
        assert bs == bs[..|bs| - 1] + [bs[|bs| - 1]];
        JoinCover(bs[..|bs| - 1], bs[|bs| - 1], x.key, x.text);
      } else {
        BlocksOpen(p, x);
        Grouping.FlattenSnoc(bs, Grouping.Run(x.key, x.start, [x.text]));
      }
    }
  }

  /** Renaming the open group and adding a text to it adds the text to the
    * end of the texts. */
  lemma JoinCover(front: seq<Grouping.Run>, last: Grouping.Run, key: string, t: string)
    ensures Grouping.Flatten(front + [last.(key := key, texts := last.texts + [t])]) == Grouping.Flatten(front + [last]) + [t]
  {
    Grouping.FlattenSnoc(front, last.(key := key, texts := last.texts + [t]));
    Grouping.FlattenSnoc(front, last);
  }

  /** With no empty name there is one group per change of name. */
  lemma GroupCount(items: seq<Grouping.Item>)
    requires forall i :: 0 <= i < |items| ==> items[i].key != ""
    ensures |Blocks(items)| == Grouping.Openings(items)
    ensures Grouping.Maximal(Blocks(items))
  {
    BlocksAreRuns(items);
    Grouping.RunsCount(items);
    Grouping.RunsMaximal(items);
  }

  /** A group under the empty name is taken over by the name after it. */
  lemma EmptyNameMerges()
    ensures Blocks([Grouping.Item("", 0, "x"), Grouping.Item("B", 5, "y")]) == [Grouping.Run("B", 0, ["x", "y"])]
  {
    var i0, i1 := Grouping.Item("", 0, "x"), Grouping.Item("B", 5, "y");
    BlocksOpen([], i0);
    assert [] + [i0] == [i0];
    BlocksJoin([i0], i1);
    assert [i0] + [i1] == [i0, i1];
    assert ["x"] + ["y"] == ["x", "y"];
  }

  // ---------------------------------------------------------------------------
  // format_transcript

  /** The two lines of one group: the stamp and name, then the texts indented. */
  function BlockLines(b: Grouping.Run, stamp: int): seq<string> {
    ["\n" + FormatTime(stamp) + " " + b.key + ":", "    " + Text.Join(b.texts, " ")]
  }

  /** The lines of groups all given the same stamp. */
  function Stamped(bs: seq<Grouping.Run>, stamp: int): (lines: seq<string>)
    ensures |lines| == 2 * |bs|
    decreases |bs|
  {
    if bs == [] then [] else Stamped(bs[..|bs| - 1], stamp) + BlockLines(bs[|bs| - 1], stamp)
  }

  lemma {:induction false} StampedAt(bs: seq<Grouping.Run>, stamp: int, k: int)
    requires 0 <= k < |bs|
    ensures Stamped(bs, stamp)[2 * k] == BlockLines(bs[k], stamp)[0]
    ensures Stamped(bs, stamp)[2 * k + 1] == BlockLines(bs[k], stamp)[1]
    decreases |bs|
  {
    if k < |bs| - 1 {
      StampedAt(bs[..|bs| - 1], stamp, k);
    }
  }

  /** The lines of the script: every group closed on a change of name is
    * stamped with the first utterance's start, the final group with the last
    * utterance's start. */
  function Lines(names: seq<Speakers.NameEntry>, utts: seq<Speakers.Utterance>): seq<string> {
    if utts == [] then []
    else
      var bs := Blocks(Named(names, utts));
      Stamped(bs[..|bs| - 1], utts[0].start) + BlockLines(bs[|bs| - 1], utts[|utts| - 1].start)
  }

  /** The two lines of group `k`: its name and joined texts, and a stamp that
    * is the last utterance's start for the last group and the first
    * utterance's for every other, never the group's own start as such. */
  lemma LineAt(names: seq<Speakers.NameEntry>, utts: seq<Speakers.Utterance>, k: int)
    requires 0 <= k < |Blocks(Named(names, utts))|
    ensures var bs := Blocks(Named(names, utts));
      var stamp := if k == |bs| - 1 then utts[|utts| - 1].start else utts[0].start;
      && |Lines(names, utts)| == 2 * |bs|
      && Lines(names, utts)[2 * k] == "\n" + FormatTime(stamp) + " " + bs[k].key + ":"
      && Lines(names, utts)[2 * k + 1] == "    " + Text.Join(bs[k].texts, " ")
  {
    var bs := Blocks(Named(names, utts));
    var front := bs[..|bs| - 1];
    if k < |front| {
      StampedAt(front, utts[0].start, k);
    }
  }

  /** Two lines per group, in order, as `LineAt` states for each. */
  lemma LinesShape(names: seq<Speakers.NameEntry>, utts: seq<Speakers.Utterance>)
    ensures var bs := Blocks(Named(names, utts));
      && |Lines(names, utts)| == 2 * |bs|
      && forall k :: 0 <= k < |bs| ==>
        var stamp := if k == |bs| - 1 then utts[|utts| - 1].start else utts[0].start;
        && Lines(names, utts)[2 * k] == "\n" + FormatTime(stamp) + " " + bs[k].key + ":"
        && Lines(names, utts)[2 * k + 1] == "    " + Text.Join(bs[k].texts, " ")
  {
    var bs := Blocks(Named(names, utts));
    if bs != [] {
      forall k | 0 <= k < |bs| ensures
        var stamp := if k == |bs| - 1 then utts[|utts| - 1].start else utts[0].start;
        && Lines(names, utts)[2 * k] == "\n" + FormatTime(stamp) + " " + bs[k].key + ":"
        && Lines(names, utts)[2 * k + 1] == "    " + Text.Join(bs[k].texts, " ")
      {
        LineAt(names, utts, k);
      }
      LineAt(names, utts, 0);
    }
  }

  /** The lines of the utterances up to `i`, and the next one's item. */
  lemma NamedSnoc(names: seq<Speakers.NameEntry>, utts: seq<Speakers.Utterance>, i: int)
    requires 0 <= i < |utts|
    ensures Named(names, utts[..i + 1])
         == Named(names, utts[..i]) + [Grouping.Item(Resolve(names, utts[i].speaker), utts[i].start, utts[i].text)]
  {
  }

  /** A change of truthy name closes the open group with the first stamp and
    * opens one for the next utterance. */
  lemma ScriptClose(items: seq<Grouping.Item>, x: Grouping.Item, first: int,
                    lines: seq<string>, current: Option<string>, texts: seq<string>)
    requires Open(items, first, lines, current, texts)
    requires current.Some? && current.value != "" && x.key != current.value
    ensures Open(items + [x], first,
                 lines + ["\n" + FormatTime(first) + " " + current.value + ":", "    " + Text.Join(texts, " ")],
                 Some(x.key), [x.text])
  {
    BlocksOpen(items, x);
    var bs, bs' := Blocks(items), Blocks(items + [x]);
    assert bs'[..|bs'| - 1] == bs;
    assert bs[..|bs| - 1] + [bs[|bs| - 1]] == bs;
  }

  /** Otherwise the next utterance joins the open group, which takes its name. */
  lemma ScriptJoin(items: seq<Grouping.Item>, x: Grouping.Item, first: int,
                   lines: seq<string>, current: Option<string>, texts: seq<string>)
    requires Open(items, first, lines, current, texts)
    requires current.Some? && (current.value == "" || x.key == current.value)
    ensures Open(items + [x], first, lines, Some(x.key), texts + [x.text])
  {
    BlocksJoin(items, x);
    var bs, bs' := Blocks(items), Blocks(items + [x]);
    assert bs'[..|bs'| - 1] == bs[..|bs| - 1];
  }

  /** The first utterance opens the first group. */
  lemma ScriptFirst(items: seq<Grouping.Item>, x: Grouping.Item, first: int,
                    lines: seq<string>, current: Option<string>, texts: seq<string>)
    requires Open(items, first, lines, current, texts) && current == None
    ensures Open(items + [x], first, lines, Some(x.key), texts + [x.text])
  {
    BlocksOpen(items, x);
    assert [] + [x] == [x];
    assert Blocks([x])[..0] == [];
  }

  /** The state of the loop of `format_transcript` after `items`: the lines
    * of the groups already closed, stamped `first`, and the name and texts
    * of the open one. */
  predicate Open(items: seq<Grouping.Item>, first: int, lines: seq<string>, current: Option<string>, texts: seq<string>) {
    if items == [] then current == None && texts == [] && lines == []
    else
      var bs := Blocks(items);
      current == Some(bs[|bs| - 1].key) && texts == bs[|bs| - 1].texts && lines == Stamped(bs[..|bs| - 1], first)
  }

  /** After the last utterance the open group is closed with its stamp. */
  lemma ScriptLast(names: seq<Speakers.NameEntry>, utts: seq<Speakers.Utterance>,
                   lines: seq<string>, current: Option<string>, texts: seq<string>)
    requires utts != [] && Open(Named(names, utts), utts[0].start, lines, current, texts)
    ensures current.Some?
    ensures Lines(names, utts)
         == lines + ["\n" + FormatTime(utts[|utts| - 1].start) + " " + current.value + ":", "    " + Text.Join(texts, " ")]
  {
  }

  /** Three utterances A, B, A, at 00:05, 01:10 and 02:10. */
  function StampUtterances(): seq<Speakers.Utterance> {
    [Speakers.Utterance("A", "hi", 5000, 9000), Speakers.Utterance("B", "yo", 70000, 71000),
     Speakers.Utterance("A", "ok", 130000, 131000)]
  }

  /** With no names entered, every label stands for itself. */
  lemma StampItems()
    ensures Named([], StampUtterances())
         == [Grouping.Item("A", 5000, "hi"), Grouping.Item("B", 70000, "yo"), Grouping.Item("A", 130000, "ok")]
  {
  }

  /** With no names entered, the three utterances form three groups. */
  lemma StampBlocks()
    ensures Blocks(Named([], StampUtterances()))
         == [Grouping.Run("A", 5000, ["hi"]), Grouping.Run("B", 70000, ["yo"]), Grouping.Run("A", 130000, ["ok"])]
  {
    var i0, i1, i2 := Grouping.Item("A", 5000, "hi"), Grouping.Item("B", 70000, "yo"), Grouping.Item("A", 130000, "ok");
    StampItems();
    BlocksOpen([], i0);
    assert [] + [i0] == [i0];
    BlocksOpen([i0], i1);
    assert [i0] + [i1] == [i0, i1];
    BlocksOpen([i0, i1], i2);
    assert [i0, i1] + [i2] == [i0, i1, i2];
  }

  /** The stamps of the example. */
  lemma StampTimes()
    ensures FormatTime(5000) == "[00:05]" && FormatTime(70000) == "[01:10]" && FormatTime(130000) == "[02:10]"
  {
    assert Text.Pad2(0) == "00" && Text.Pad2(5) == "05" && Text.Pad2(1) == "01" && Text.Pad2(2) == "02";
    assert Text.Pad2(10) == "10" by {
      assert Text.Digits(10) == Text.Digits(1) + [Text.DigitChar(0)];
    }
    assert FormatTime(5000) == "[" + "00" + ":" + "05" + "]";
    assert FormatTime(70000) == "[" + "01" + ":" + "10" + "]";
    assert FormatTime(130000) == "[" + "02" + ":" + "10" + "]";
  }

  /** The B group, which starts at 01:10, is shown at the first utterance's
    * 00:05; the last group is shown at the last utterance's 02:10. */
  lemma StampExample()
    ensures FormatTime(5000) == "[00:05]" && FormatTime(70000) == "[01:10]" && FormatTime(130000) == "[02:10]"
    ensures Lines([], StampUtterances())
         == BlockLines(Grouping.Run("A", 5000, ["hi"]), 5000)
          + BlockLines(Grouping.Run("B", 70000, ["yo"]), 5000)
          + BlockLines(Grouping.Run("A", 130000, ["ok"]), 130000)
  {
    StampBlocks();
    StampTimes();
    var b0, b1, b2 := Grouping.Run("A", 5000, ["hi"]), Grouping.Run("B", 70000, ["yo"]), Grouping.Run("A", 130000, ["ok"]);
    var bs := [b0, b1, b2];
    var utts := StampUtterances();
    assert utts != [] && utts[0].start == 5000 && utts[|utts| - 1].start == 130000;
    assert Lines([], utts) == Stamped(bs[..2], 5000) + BlockLines(bs[2], 130000);
    assert bs[..2] == [b0, b1];
    assert Stamped([b0, b1], 5000) == BlockLines(b0, 5000) + BlockLines(b1, 5000) by {
      assert [b0, b1][..1] == [b0] && [b0][..0] == [];
    }
  }

  /** The first line of every transcript. */
  const Title := "=== Complete Transcript with Speaker Identification ===\n"

  /** The title and the heading of the mapping. */
  const Opening := Title + "\nSpeaker mapping:"

  /** The rule that ends the header. */
  const Rule := "\n\n" + Text.Repeat('=', 50) + "\n"

  /** The line of the mapping for one entry. */
  function MappingLine(e: Speakers.NameEntry): string {
    "\n" + e.speaker + " \U{2192} " + e.name
  }

  /** One line per entry, in the order the names were entered. */
  function Mapping(names: seq<Speakers.NameEntry>): string
    decreases |names|
  {
    if names == [] then "" else Mapping(names[..|names| - 1]) + MappingLine(names[|names| - 1])
  }

  function Header(names: seq<Speakers.NameEntry>): string {
    Opening + Mapping(names) + Rule
  }

  /** The complete transcript: the header, then the lines joined by newlines. */
  function Format(names: seq<Speakers.NameEntry>, utts: seq<Speakers.Utterance>): string {
    Header(names) + Text.Join(Lines(names, utts), "\n")
  }

  /** A transcript of no utterances is the header alone, and a header with no
    * names still lists the mapping's heading and the rule. */
  lemma FormatEmpty(names: seq<Speakers.NameEntry>)
    ensures Format(names, []) == Header(names)
    ensures Header([]) == Opening + Rule
  {
    assert Header(names) + "" == Header(names);
  }

  // ---------------------------------------------------------------------------
  // Paths derived from the recording's path

  function PreviewPath(path: string): string {
    Text.Replace(path, ".wav", "_preview.wav")
  }

  function TranscriptPath(path: string): string {
    Text.Replace(path, ".wav", "_transcript.txt")
  }

  /** A recording named `recording_<stamp>.wav`, with a stamp holding no `.`,
    * gets its preview and transcript beside it under the suffixed names. */
  lemma RecordingPaths(stamp: string)
    requires forall i :: 0 <= i < |stamp| ==> stamp[i] != '.'
    ensures PreviewPath("recording_" + stamp + ".wav") == "recording_" + stamp + "_preview.wav"
    ensures TranscriptPath("recording_" + stamp + ".wav") == "recording_" + stamp + "_transcript.txt"
  {
    var base := "recording_" + stamp;
    assert forall i :: 0 <= i < |base| ==> base[i] != '.' by {
      forall i | 0 <= i < |base| ensures base[i] != '.' {
        if i >= 10 { assert base[i] == stamp[i - 10]; }
      }
    }
    Text.ReplaceSuffix(base, ".wav", "_preview.wav");
    Text.ReplaceSuffix(base, ".wav", "_transcript.txt");
  }
}

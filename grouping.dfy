/** Grouping consecutive utterances with the same speaker into runs.  Both the
  * longest-segment search and the transcript writer walk the utterances this
  * way; the `Item` key is the raw speaker label for the first and the
  * resolved display name for the second. */
module Grouping {

  datatype Item = Item(key: string, start: int, text: string)

  /** A run: its key, the start of its first item and the texts of its items. */
  datatype Run = Run(key: string, start: int, texts: seq<string>)

  /** The maximal runs of consecutive items with equal keys, in order. */
  function Runs(items: seq<Item>): (rs: seq<Run>)
    ensures |rs| <= |items|
    ensures rs == [] <==> items == []
    ensures rs != [] ==> rs[|rs| - 1].key == items[|items| - 1].key
    ensures rs != [] ==> rs[0].key == items[0].key && rs[0].start == items[0].start
    decreases |items|
  {
    if items == [] then []
    else
      var rs := Runs(items[..|items| - 1]);
      var x := items[|items| - 1];
      if rs != [] && rs[|rs| - 1].key == x.key then
        rs[..|rs| - 1] + [rs[|rs| - 1].(texts := rs[|rs| - 1].texts + [x.text])]
      else
        rs + [Run(x.key, x.start, [x.text])]
  }

  /** An item with the key of the last run joins that run. */
  lemma RunsSame(items: seq<Item>, x: Item)
    requires Runs(items) != [] && Runs(items)[|Runs(items)| - 1].key == x.key
    ensures var rs := Runs(items);
      Runs(items + [x]) == rs[..|rs| - 1] + [rs[|rs| - 1].(texts := rs[|rs| - 1].texts + [x.text])]
  {
    assert (items + [x])[..|items|] == items;
  }

  /** An item with another key opens a new run. */
  lemma RunsNew(items: seq<Item>, x: Item)
    requires Runs(items) == [] || Runs(items)[|Runs(items)| - 1].key != x.key
    ensures Runs(items + [x]) == Runs(items) + [Run(x.key, x.start, [x.text])]
  {
    assert (items + [x])[..|items|] == items;
  }

  function Texts(items: seq<Item>): (ts: seq<string>)
    ensures |ts| == |items|
  {
    seq(|items|, i requires 0 <= i < |items| => items[i].text)
  }

  /** The texts of the runs, one after the other. */
  function Flatten(rs: seq<Run>): seq<string>
    decreases |rs|
  {
    if rs == [] then [] else Flatten(rs[..|rs| - 1]) + rs[|rs| - 1].texts
  }

  /** Position `i` opens a new run: it is the first item or its key differs from
    * the key before it. */
  predicate Opens(items: seq<Item>, i: int)
    requires 0 <= i < |items|
  {
    i == 0 || items[i].key != items[i - 1].key
  }

  /** How many positions open a new run. */
  function Openings(items: seq<Item>): nat
    decreases |items|
  {
    if items == [] then 0
    else Openings(items[..|items| - 1]) + (if Opens(items, |items| - 1) then 1 else 0)
  }

  /** The keys that occur. */
  function Keys(items: seq<Item>): set<string>
    decreases |items|
  {
    if items == [] then {} else Keys(items[..|items| - 1]) + {items[|items| - 1].key}
  }

  /** The keys the runs carry. */
  function RunKeys(rs: seq<Run>): set<string>
    decreases |rs|
  {
    if rs == [] then {} else RunKeys(rs[..|rs| - 1]) + {rs[|rs| - 1].key}
  }

  /** Neighbouring runs have different keys and no run is empty. */
  predicate Maximal(rs: seq<Run>) {
    && (forall k :: 0 <= k < |rs| ==> rs[k].texts != [])
    && (forall k :: 0 <= k < |rs| - 1 ==> rs[k].key != rs[k + 1].key)
  }

  /** One more text on the last run keeps the runs maximal. */
  lemma MaximalMerge(rp: seq<Run>, t: string)
    requires rp != [] && Maximal(rp)
    ensures Maximal(rp[..|rp| - 1] + [rp[|rp| - 1].(texts := rp[|rp| - 1].texts + [t])])
  {
    var rs := rp[..|rp| - 1] + [rp[|rp| - 1].(texts := rp[|rp| - 1].texts + [t])];
    assert forall k :: 0 <= k < |rs| - 1 ==> rs[k] == rp[k];
    forall k | 0 <= k < |rs| ensures rs[k].texts != [] {
      if k < |rs| - 1 { assert rp[k].texts != []; }
    }
    forall k | 0 <= k < |rs| - 1 ensures rs[k].key != rs[k + 1].key {
      assert rp[k].key != rp[k + 1].key;
    }
  }

  /** A new non-empty run whose key differs from the last keeps the runs
    * maximal. */
  lemma MaximalAppend(rp: seq<Run>, r: Run)
    requires Maximal(rp) && r.texts != []
    requires rp != [] ==> rp[|rp| - 1].key != r.key
    ensures Maximal(rp + [r])
  {
    var rs := rp + [r];
    assert forall k :: 0 <= k < |rp| ==> rs[k] == rp[k];
    forall k | 0 <= k < |rs| ensures rs[k].texts != [] {
      if k < |rp| { assert rp[k].texts != []; }
    }
    forall k | 0 <= k < |rs| - 1 ensures rs[k].key != rs[k + 1].key {
      if k < |rp| - 1 { assert rp[k].key != rp[k + 1].key; }
    }
  }

  /** The runs are maximal. */
  lemma {:induction false} RunsMaximal(items: seq<Item>)
    ensures Maximal(Runs(items))
    decreases |items|
  {
    if items != [] {
      var p := items[..|items| - 1];
      var x := items[|items| - 1];
      var rp := Runs(p);
      RunsMaximal(p);
      if rp != [] && rp[|rp| - 1].key == x.key {
        MaximalMerge(rp, x.text);
      } else {
        MaximalAppend(rp, Run(x.key, x.start, [x.text]));
      }
    }
  }

  lemma FlattenSnoc(rs: seq<Run>, r: Run)
    ensures Flatten(rs + [r]) == Flatten(rs) + r.texts
  {
    assert (rs + [r])[..|rs|] == rs;
  }

  /** Adding a text to the last run adds it to the end of the flattened texts. */
  lemma FlattenMerge(front: seq<Run>, last: Run, t: string)
    ensures Flatten(front + [last.(texts := last.texts + [t])]) == Flatten(front + [last]) + [t]
  {
    FlattenSnoc(front, last.(texts := last.texts + [t]));
    FlattenSnoc(front, last);
  }

  /** The runs hold every text, each once and in order. */
  lemma {:induction false} RunsCover(items: seq<Item>)
    ensures Flatten(Runs(items)) == Texts(items)
    decreases |items|
  {
    if items != [] {
      var p := items[..|items| - 1];
      var x := items[|items| - 1];
      var rs := Runs(p);
      RunsCover(p);
      assert Texts(items) == Texts(p) + [x.text];
      if rs != [] && rs[|rs| - 1].key == x.key {
        assert rs == rs[..|rs| - 1] + [rs[|rs| - 1]];
        FlattenMerge(rs[..|rs| - 1], rs[|rs| - 1], x.text);
      } else {
        FlattenSnoc(rs, Run(x.key, x.start, [x.text]));
      }
    }
  }

  /** There is one run per position that opens one. */
  lemma {:induction false} RunsCount(items: seq<Item>)
    ensures |Runs(items)| == Openings(items)
    decreases |items|
  {
    if items != [] {
      RunsCount(items[..|items| - 1]);
    }
  }

  /** The runs carry exactly the keys that occur. */
  lemma {:induction false} RunsKeys(items: seq<Item>)
    ensures RunKeys(Runs(items)) == Keys(items)
    decreases |items|
  {
    if items != [] {
      var p := items[..|items| - 1];
      var x := items[|items| - 1];
      var rp := Runs(p);
      RunsKeys(p);
      if rp != [] && rp[|rp| - 1].key == x.key {
        var rs := rp[..|rp| - 1] + [rp[|rp| - 1].(texts := rp[|rp| - 1].texts + [x.text])];
        assert rs[..|rs| - 1] == rp[..|rp| - 1];
        assert RunKeys(rp) == RunKeys(rp[..|rp| - 1]) + {x.key};
      } else {
        var rs := rp + [Run(x.key, x.start, [x.text])];
        assert rs[..|rs| - 1] == rp;
      }
    }
  }

  /** A key is in `Keys` exactly when some item carries it. */
  lemma {:induction false} KeysOccur(items: seq<Item>, key: string)
    ensures key in Keys(items) <==> exists i :: 0 <= i < |items| && items[i].key == key
    decreases |items|
  {
    if items != [] {
      var p := items[..|items| - 1];
      KeysOccur(p, key);
      if exists i :: 0 <= i < |p| && p[i].key == key {
        var i :| 0 <= i < |p| && p[i].key == key;
        assert items[i] == p[i];
      }
      if exists i :: 0 <= i < |items| && items[i].key == key {
        var i :| 0 <= i < |items| && items[i].key == key;
        if i < |p| { assert p[i] == items[i]; }
      }
    }
  }

  /** A key is in `RunKeys` exactly when some run carries it. */
  lemma {:induction false} RunKeysOccur(rs: seq<Run>, key: string)
    ensures key in RunKeys(rs) <==> exists k :: 0 <= k < |rs| && rs[k].key == key
    decreases |rs|
  {
    if rs != [] {
      var p := rs[..|rs| - 1];
      RunKeysOccur(p, key);
      if exists k :: 0 <= k < |p| && p[k].key == key {
        var k :| 0 <= k < |p| && p[k].key == key;
        assert rs[k] == p[k];
      }
      if exists k :: 0 <= k < |rs| && rs[k].key == key {
        var k :| 0 <= k < |rs| && rs[k].key == key;
        if k < |p| { assert p[k] == rs[k]; }
      }
    }
  }

  // ---------------------------------------------------------------------------
  // The runs follow the keys item by item

  /** The key of every item, in order. */
  function ItemKeys(items: seq<Item>): (ks: seq<string>)
    ensures |ks| == |items|
  {
    seq(|items|, i requires 0 <= i < |items| => items[i].key)
  }

  /** Each run's key, written once per text it holds, one run after the other. */
  function KeyStream(rs: seq<Run>): seq<string>
    decreases |rs|
  {
    if rs == [] then []
    else
      var r := rs[|rs| - 1];
      KeyStream(rs[..|rs| - 1]) + seq(|r.texts|, _ => r.key)
  }

  lemma KeyStreamSnoc(rs: seq<Run>, r: Run)
    ensures KeyStream(rs + [r]) == KeyStream(rs) + seq(|r.texts|, _ => r.key)
  {
    assert (rs + [r])[..|rs|] == rs;
  }

  /** Adding a text to the last run adds that run's key to the end of the stream. */
  lemma KeyStreamMerge(front: seq<Run>, last: Run, t: string)
    ensures KeyStream(front + [last.(texts := last.texts + [t])]) == KeyStream(front + [last]) + [last.key]
  {
    var n := |last.texts|;
    KeyStreamSnoc(front, last.(texts := last.texts + [t]));
    KeyStreamSnoc(front, last);
    assert seq(n + 1, _ => last.key) == seq(n, _ => last.key) + [last.key];
  }

  /** Run by run, the keys line up with the items' keys: together with
    * `RunsCover` this says that run `k` holds exactly the texts of the items
    * between its opening and the next one, and that all of them carry its key. */
  lemma {:induction false} RunsKeyCover(items: seq<Item>)
    ensures KeyStream(Runs(items)) == ItemKeys(items)
    decreases |items|
  {
    if items != [] {
      var p := items[..|items| - 1];
      var x := items[|items| - 1];
      var rs := Runs(p);
      RunsKeyCover(p);
      assert ItemKeys(items) == ItemKeys(p) + [x.key];
      if rs != [] && rs[|rs| - 1].key == x.key {
        assert rs == rs[..|rs| - 1] + [rs[|rs| - 1]];
        KeyStreamMerge(rs[..|rs| - 1], rs[|rs| - 1], x.text);
      } else {
        KeyStreamSnoc(rs, Run(x.key, x.start, [x.text]));
        assert seq(1, _ => x.key) == [x.key];
      }
    }
  }
}

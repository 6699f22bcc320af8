/** String operations with the meaning Python gives them: `str.isspace` and
  * `str.strip`, `str.lower` on the answers the prompts compare, `sep.join`,
  * `str.replace`, the `02d` integer format and the order `sorted` puts
  * strings in. */
module Text {

  // ---------------------------------------------------------------------------
  // str.strip()

  /** The characters for which Python's `str.isspace` holds. */
  predicate IsSpace(c: char) {
    || ('\t' <= c <= '\r')
    || ('\U{1C}' <= c <= '\U{1F}')
    || c == ' ' || c == '\U{85}' || c == '\U{A0}' || c == '\U{1680}'
    || ('\U{2000}' <= c <= '\U{200A}')
    || c == '\U{2028}' || c == '\U{2029}' || c == '\U{202F}' || c == '\U{205F}' || c == '\U{3000}'
  }

  predicate AllSpace(s: string) {
    forall i :: 0 <= i < |s| ==> IsSpace(s[i])
  }

  lemma AllSpaceCons(c: char, t: string)
    requires IsSpace(c) && AllSpace(t)
    ensures AllSpace([c] + t)
  {
    forall i | 0 <= i < |[c] + t| ensures IsSpace(([c] + t)[i]) {
      if i > 0 { assert ([c] + t)[i] == t[i - 1]; }
    }
  }

  lemma AllSpaceSnoc(t: string, c: char)
    requires AllSpace(t) && IsSpace(c)
    ensures AllSpace(t + [c])
  {
    forall i | 0 <= i < |t + [c]| ensures IsSpace((t + [c])[i]) {
      if i < |t| { assert (t + [c])[i] == t[i]; }
    }
  }

  /** `s.lstrip()`: every leading space dropped. */
  function TrimStart(s: string): string
    decreases |s|
  {
    if s != [] && IsSpace(s[0]) then TrimStart(s[1..]) else s
  }

  /** `s.rstrip()`: every trailing space dropped. */
  function TrimEnd(s: string): string
    decreases |s|
  {
    if s != [] && IsSpace(s[|s| - 1]) then TrimEnd(s[..|s| - 1]) else s
  }

  /** `lstrip` keeps a suffix and stops at a character that is not a space. */
  lemma {:induction false} TrimStartSuffix(s: string)
    ensures |TrimStart(s)| <= |s| && TrimStart(s) == s[|s| - |TrimStart(s)|..]
    ensures TrimStart(s) == [] || !IsSpace(TrimStart(s)[0])
    decreases |s|
  {
    if s != [] && IsSpace(s[0]) {
      TrimStartSuffix(s[1..]);
    }
  }

  /** `lstrip` drops only spaces. */
  lemma {:induction false} TrimStartSpec(s: string)
    ensures |TrimStart(s)| <= |s| && TrimStart(s) == s[|s| - |TrimStart(s)|..]
    ensures AllSpace(s[..|s| - |TrimStart(s)|])
    ensures TrimStart(s) == [] || !IsSpace(TrimStart(s)[0])
    decreases |s|
  {
    if s != [] && IsSpace(s[0]) {
      var t := s[1..];
      TrimStartSpec(t);
      var r := TrimStart(t);
      assert TrimStart(s) == r;
      var d := t[..|t| - |r|];
      AllSpaceCons(s[0], d);
      assert s[..|s| - |r|] == [s[0]] + d;
      assert s[|s| - |r|..] == t[|t| - |r|..];
    } else {
      assert s[..0] == [];
    }
  }

  /** `rstrip` keeps a prefix, drops only spaces, and stops at a character that
    * is not one. */
  lemma {:induction false} TrimEndSpec(s: string)
    ensures var r := TrimEnd(s);
      && |r| <= |s| && r == s[..|r|]
      && AllSpace(s[|r|..])
      && (r == [] || !IsSpace(r[|r| - 1]))
    decreases |s|
  {
    if s != [] && IsSpace(s[|s| - 1]) {
      var r := TrimEnd(s[..|s| - 1]);
      TrimEndSpec(s[..|s| - 1]);
      assert s[|r|..] == s[..|s| - 1][|r|..] + [s[|s| - 1]];
      AllSpaceSnoc(s[..|s| - 1][|r|..], s[|s| - 1]);
    } else {
      assert s[|s|..] == [];
    }
  }

  /** `s.strip()`. */
  function Strip(s: string): string {
    TrimEnd(TrimStart(s))
  }

  /** `s.strip()` is empty exactly when `s` holds nothing but whitespace; this is
    * the test the name prompt repeats until it fails. */
  lemma StripBlank(s: string)
    ensures Strip(s) == [] <==> AllSpace(s)
  {
    var t := TrimStart(s);
    TrimStartSpec(s);
    TrimEndSpec(t);
    if Strip(s) == [] {
      assert t[0..] == t && t == [];
      assert s[..|s| - |t|] == s;
    } else {
      assert |t| > 0 ==> t[0] == s[|s| - |t|];
    }
  }

  /** A stripped string is unchanged by stripping it again, so the names the
    * prompt records are exactly as stored. */
  lemma StripIdempotent(s: string)
    ensures Strip(Strip(s)) == Strip(s)
  {
    var t := TrimStart(s);
    var r := TrimEnd(t);
    TrimStartSpec(s);
    TrimEndSpec(t);
    if r != [] {
      assert r[0] == t[0];
      assert TrimStart(r) == r;
    }
  }

  // ---------------------------------------------------------------------------
  // str.lower(), as far as the answers to the yes/no prompts need it

  function LowerChar(c: char): char {
    if 'A' <= c <= 'Z' then (c as int + 32) as char else c
  }

  /** `s.lower()` on ASCII letters; other characters are kept. */
  function Lower(s: string): (r: string)
    ensures |r| == |s|
    ensures forall i :: 0 <= i < |s| ==> r[i] == LowerChar(s[i])
  {
    seq(|s|, i requires 0 <= i < |s| => LowerChar(s[i]))
  }

  /** `answer.lower() == [c]` for a lower-case letter `c` accepts exactly the
    * letter in either case. */
  lemma LowerMatches(answer: string, c: char)
    requires 'a' <= c <= 'z'
    ensures Lower(answer) == [c] <==> answer == [c] || answer == [(c as int - 32) as char]
  {
    if Lower(answer) == [c] {
      assert |answer| == 1 && LowerChar(answer[0]) == c;
    }
  }

  // ---------------------------------------------------------------------------
  // sep.join(parts)

  function Join(parts: seq<string>, sep: string): string
    decreases |parts|
  {
    if parts == [] then ""
    else if |parts| == 1 then parts[0]
    else Join(parts[..|parts| - 1], sep) + sep + parts[|parts| - 1]
  }

  function Repeat(c: char, n: nat): (r: string)
    ensures |r| == n && forall i :: 0 <= i < n ==> r[i] == c
  {
    seq(n, _ => c)
  }

  // ---------------------------------------------------------------------------
  // f"{n:02d}" and its inverse

  function DigitChar(d: nat): (c: char)
    requires d < 10
    ensures '0' <= c <= '9'
  {
    ('0' as int + d) as char
  }

  predicate AllDigits(s: string) {
    forall i :: 0 <= i < |s| ==> '0' <= s[i] <= '9'
  }

  /** The decimal digits of `n`, most significant first, without leading zeros. */
  function Digits(n: nat): (r: string)
    ensures |r| >= 1 && AllDigits(r)
    ensures |r| == 1 <==> n < 10
    ensures n < 100 ==> |r| <= 2
    decreases n
  {
    if n < 10 then [DigitChar(n)] else Digits(n / 10) + [DigitChar(n % 10)]
  }

  /** `f"{n:02d}"`: zero-padded to two places; a negative number gets its sign
    * and no padding, since the sign already fills the width. */
  function Pad2(n: int): string {
    if n < 0 then "-" + Digits(-n)
    else if n < 10 then "0" + Digits(n)
    else Digits(n)
  }

  /** Reads a string of decimal digits back as a number. */
  function ParseNat(s: string): nat
    requires AllDigits(s)
    decreases |s|
  {
    if s == [] then 0 else 10 * ParseNat(s[..|s| - 1]) + (s[|s| - 1] as int - '0' as int)
  }

  lemma {:induction false} ParseDigits(n: nat)
    ensures ParseNat(Digits(n)) == n
    decreases n
  {
    if n >= 10 {
      ParseDigits(n / 10);
      var d := Digits(n);
      assert d[..|d| - 1] == Digits(n / 10);
    }
  }

  lemma {:induction false} ParseLeadingZero(s: string)
    requires AllDigits(s)
    ensures AllDigits("0" + s) && ParseNat("0" + s) == ParseNat(s)
    decreases |s|
  {
    if s != [] {
      assert ("0" + s)[..|s|] == "0" + s[..|s| - 1];
      ParseLeadingZero(s[..|s| - 1]);
    }
  }

  /** `02d` loses nothing for a non-negative number: it has at least two
    * characters, exactly two below 100, and reads back as the number. */
  lemma Pad2RoundTrip(n: nat)
    ensures AllDigits(Pad2(n)) && ParseNat(Pad2(n)) == n
    ensures |Pad2(n)| >= 2 && (n < 100 ==> |Pad2(n)| == 2)
  {
    ParseDigits(n);
    if n < 10 { ParseLeadingZero(Digits(n)); }
  }

  // ---------------------------------------------------------------------------
  // s.replace(pat, rep)

  /** `s.replace(pat, rep)`: every occurrence of `pat`, scanning from the left
    * and without overlaps, is replaced. */
  function Replace(s: string, pat: string, rep: string): string
    requires pat != []
    decreases |s|
  {
    if |pat| <= |s| && s[..|pat|] == pat then rep + Replace(s[|pat|..], pat, rep)
    else if s == [] then []
    else [s[0]] + Replace(s[1..], pat, rep)
  }

  /** A name with no `.` in it, followed by one suffix starting with `.`, has that
    * single suffix replaced and nothing else. */
  lemma {:induction false} ReplaceSuffix(base: string, pat: string, rep: string)
    requires pat != [] && pat[0] == '.'
    requires forall i :: 0 <= i < |base| ==> base[i] != '.'
    ensures Replace(base + pat, pat, rep) == base + rep
    decreases |base|
  {
    var s := base + pat;
    if base == [] {
      assert s[..|pat|] == pat && s[|pat|..] == [];
    } else {
      assert s[..|pat|][0] == base[0] != '.';
      assert s[1..] == base[1..] + pat;
      ReplaceSuffix(base[1..], pat, rep);
    }
  }

  // ---------------------------------------------------------------------------
  // The order `sorted` gives strings: code point by code point, a proper prefix first

  predicate LexLe(a: string, b: string)
    decreases |a|
  {
    if a == [] then true
    else if b == [] then false
    else if a[0] != b[0] then a[0] < b[0]
    else LexLe(a[1..], b[1..])
  }

  lemma {:induction false} LexTotal(a: string, b: string)
    ensures LexLe(a, b) || LexLe(b, a)
    decreases |a|
  {
    if a != [] && b != [] && a[0] == b[0] { LexTotal(a[1..], b[1..]); }
  }

  lemma {:induction false} LexAntisymmetric(a: string, b: string)
    requires LexLe(a, b) && LexLe(b, a)
    ensures a == b
    decreases |a|
  {
    if a != [] && b != [] {
      LexAntisymmetric(a[1..], b[1..]);
      assert a == [a[0]] + a[1..] && b == [b[0]] + b[1..];
    }
  }

  lemma {:induction false} LexTransitive(a: string, b: string, c: string)
    requires LexLe(a, b) && LexLe(b, c)
    ensures LexLe(a, c)
    decreases |a|
  {
    if a != [] && b != [] && c != [] && a[0] == b[0] == c[0] {
      LexTransitive(a[1..], b[1..], c[1..]);
    }
  }

  /** `m` is the least member of `s`. */
  predicate IsLeast(m: string, s: set<string>) {
    m in s && forall y :: y in s ==> LexLe(m, y)
  }

  /** Adding one string to a set: the old least member or the new string is
    * the least member of the larger set. */
  lemma LeastOfInsert(m: string, rest: set<string>, x: string)
    requires IsLeast(m, rest)
    ensures IsLeast(m, rest + {x}) || IsLeast(x, rest + {x})
  {
    LexTotal(m, x);
    if !LexLe(m, x) {
      LexTotal(x, x);
      forall y | y in rest + {x} ensures LexLe(x, y) {
        if y != x { LexTransitive(x, m, y); }
      }
    }
  }

  /** Every finite non-empty set of strings has a least element. */
  lemma {:induction false} LeastExists(s: set<string>)
    requires s != {}
    ensures exists m :: IsLeast(m, s)
    decreases |s|
  {
    var x :| x in s;
    if s == {x} {
      LexTotal(x, x);
      assert IsLeast(x, s);
    } else {
      var rest := s - {x};
      LeastExists(rest);
      var m :| IsLeast(m, rest);
      LeastOfInsert(m, rest, x);
      assert rest + {x} == s;
    }
  }

  /** Strictly increasing in the order above, hence free of repetitions. */
  predicate StrictlySorted(r: seq<string>) {
    forall i, j :: 0 <= i < j < |r| ==> LexLe(r[i], r[j]) && r[i] != r[j]
  }

  /** A strictly sorted sequence is fixed by the strings it holds. */
  lemma {:induction false} SortedUnique(a: seq<string>, b: seq<string>)
    requires StrictlySorted(a) && StrictlySorted(b) && |a| == |b|
    requires forall x :: x in a <==> x in b
    ensures a == b
    decreases |a|
  {
    if a != [] {
      assert a[0] in b;
      assert b != [];
      assert b[0] in a;
      var i :| 0 <= i < |a| && a[i] == b[0];
      var j :| 0 <= j < |b| && b[j] == a[0];
      if i != 0 && j != 0 {
        LexAntisymmetric(a[0], b[0]);
        assert false;
      }
      assert a[0] == b[0];
      forall x ensures x in a[1..] <==> x in b[1..] {
        if x in a[1..] {
          var k :| 1 <= k < |a| && a[k] == x;
          assert a[0] != a[k];
          assert x in b;
          var m :| 0 <= m < |b| && b[m] == x;
          assert m != 0;
          assert b[1..][m - 1] == x;
        }
        if x in b[1..] {
          var k :| 1 <= k < |b| && b[k] == x;
          assert b[0] != b[k];
          assert x in a;
          var m :| 0 <= m < |a| && a[m] == x;
          assert m != 0;
          assert a[1..][m - 1] == x;
        }
      }
      SortedUnique(a[1..], b[1..]);
      assert a == [a[0]] + a[1..] && b == [b[0]] + b[1..];
    }
  }

  /** The strings of `s` in increasing order, each once. */
  ghost function Sorted(s: set<string>): seq<string>
    decreases |s|
  {
    if s == {} then []
    else
      LeastExists(s);
      var m :| IsLeast(m, s);
      [m] + Sorted(s - {m})
  }

  /** A string below every member of a strictly sorted sequence can go in front. */
  lemma SortedCons(m: string, rest: seq<string>)
    requires StrictlySorted(rest)
    requires forall i :: 0 <= i < |rest| ==> LexLe(m, rest[i]) && m != rest[i]
    ensures StrictlySorted([m] + rest)
  {
    var r := [m] + rest;
    forall i, j | 0 <= i < j < |r| ensures LexLe(r[i], r[j]) && r[i] != r[j] {
      assert r[j] == rest[j - 1];
      if i > 0 { assert r[i] == rest[i - 1]; }
    }
  }

  lemma {:induction false} SortedSpec(s: set<string>)
    ensures StrictlySorted(Sorted(s))
    ensures |Sorted(s)| == |s| && forall x :: x in s <==> x in Sorted(s)
    decreases |s|
  {
    if s != {} {
      LeastExists(s);
      var m :| IsLeast(m, s) && Sorted(s) == [m] + Sorted(s - {m});
      var rest := Sorted(s - {m});
      SortedSpec(s - {m});
      forall i | 0 <= i < |rest| ensures LexLe(m, rest[i]) && m != rest[i] {
        assert rest[i] in s - {m};
      }
      SortedCons(m, rest);
      var r := [m] + rest;
      forall x ensures x in s <==> x in r {
        if x in r && x != m {
          var k :| 0 <= k < |r| && r[k] == x;
          assert rest[k - 1] == x;
        }
      }
    }
  }

  /** `sorted(labels)` of a set of keys: the keys in increasing order, each once. */
  method SortStrings(labels: set<string>) returns (r: seq<string>)
    ensures StrictlySorted(r)
    ensures |r| == |labels| && forall x :: x in labels <==> x in r
    ensures r == Sorted(labels)
  {
    r := [];
    var rest := labels;
    while rest != {}
      invariant rest <= labels
      invariant forall x :: x in labels <==> x in rest || x in r
      invariant forall x :: x in r ==> x !in rest
      invariant |r| + |rest| == |labels|
      invariant StrictlySorted(r)
      invariant forall i, y :: 0 <= i < |r| && y in rest ==> LexLe(r[i], y)
      decreases |rest|
    {
      LeastExists(rest);
      var m :| IsLeast(m, rest);
      forall i, y | 0 <= i < |r| && y in rest - {m} ensures LexLe(r[i], y) {
      }
      r := r + [m];
      rest := rest - {m};
    }
    SortedSpec(labels);
    SortedUnique(r, Sorted(labels));
  }
}

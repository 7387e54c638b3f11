/** String primitives used by the pipeline: Python's str methods (lower, upper,
    strip, split, join, replace, startswith, `in`) and the decimal formatting of
    integers, written out over `seq<char>`. */
module Text {

  /** Characters Python's `str.strip()` and the regex class `\s` treat as
      white space (the ASCII and Latin-1 ones). */
  const Whitespace: set<char> :=
    {' ', '\t', '\n', '\r', '\U{0B}', '\U{0C}', '\U{1C}', '\U{1D}', '\U{1E}', '\U{1F}', '\U{85}', '\U{A0}'}

  predicate IsDigit(c: char) { '0' <= c <= '9' }

  predicate AllDigits(s: string) { forall i :: 0 <= i < |s| ==> IsDigit(s[i]) }

  /** The length of the run of decimal digits `s` starts with. */
  function LeadingDigits(t: string): (k: nat)
    ensures k <= |t| && AllDigits(t[..k])
    ensures k < |t| ==> !IsDigit(t[k])
    decreases |t|
  {
    if |t| > 0 && IsDigit(t[0]) then 1 + LeadingDigits(t[1..]) else 0
  }

  /** `str.lower()` on one character, for ASCII and the Latin-1 capitals. */
  function LowerChar(c: char): char
  {
    if 'A' <= c <= 'Z' || ('\U{C0}' <= c <= '\U{DE}' && c != '\U{D7}') then (c as int + 32) as char else c
  }

  /** `str.upper()` on one character, for ASCII letters. */
  function UpperChar(c: char): char
  {
    if 'a' <= c <= 'z' then (c as int - 32) as char else c
  }

  function Lower(s: string): (r: string)
    ensures |r| == |s|
    ensures forall i :: 0 <= i < |s| ==> r[i] == LowerChar(s[i])
  {
    seq(|s|, i requires 0 <= i < |s| => LowerChar(s[i]))
  }

  function Upper(s: string): (r: string)
    ensures |r| == |s|
    ensures forall i :: 0 <= i < |s| ==> r[i] == UpperChar(s[i])
  {
    seq(|s|, i requires 0 <= i < |s| => UpperChar(s[i]))
  }

  lemma LowerAppend(a: string, b: string)
    ensures Lower(a + b) == Lower(a) + Lower(b)
  {
  }

  predicate StartsWith(s: string, p: string) { |p| <= |s| && s[..|p|] == p }

  predicate EndsWith(s: string, p: string) { |p| <= |s| && s[|s| - |p|..] == p }

  /** Python's `p in s`. */
  predicate Contains(s: string, p: string)
    decreases |s|
  {
    StartsWith(s, p) || (|s| > 0 && Contains(s[1..], p))
  }

  /** Case-insensitive containment as the source writes it: `p.lower() in s.lower()`. */
  predicate ContainsIgnoringCase(s: string, p: string) { Contains(Lower(s), Lower(p)) }

  lemma ContainsAt(s: string, p: string, i: nat)
    requires i + |p| <= |s| && s[i..i + |p|] == p
    ensures Contains(s, p)
    decreases i
  {
    if i > 0 {
      assert s[1..][i - 1..i - 1 + |p|] == s[i..i + |p|];
      ContainsAt(s[1..], p, i - 1);
    }
  }

  lemma ContainsWitness(s: string, p: string) returns (i: nat)
    requires Contains(s, p)
    ensures i + |p| <= |s| && s[i..i + |p|] == p
    decreases |s|
  {
    if StartsWith(s, p) {
      i := 0;
    } else {
      var j := ContainsWitness(s[1..], p);
      i := j + 1;
      assert s[1..][j..j + |p|] == s[i..i + |p|];
    }
  }

  lemma ContainsSuffix(a: string, b: string)
    ensures Contains(a + b, b)
  {
    ContainsAt(a + b, b, |a|);
  }

  lemma ContainsInPrefix(a: string, b: string, p: string)
    requires Contains(a, p)
    ensures Contains(a + b, p)
  {
    var i := ContainsWitness(a, p);
    assert (a + b)[i..i + |p|] == a[i..i + |p|];
    ContainsAt(a + b, p, i);
  }

  lemma NotContainsShorter(s: string, p: string)
    requires |s| < |p|
    ensures !Contains(s, p)
    decreases |s|
  {
    if |s| > 0 {
      NotContainsShorter(s[1..], p);
    }
  }

  /** `p` occurs in `s` at index `i`. */
  predicate OccursAt(s: string, p: string, i: nat)
  {
    i + |p| <= |s| && s[i..i + |p|] == p
  }

  lemma NotContainsAt(s: string, p: string, i: nat)
    requires !Contains(s, p)
    ensures !OccursAt(s, p, i)
  {
    if OccursAt(s, p, i) {
      ContainsAt(s, p, i);
    }
  }

  lemma ContainsNowhere(s: string, p: string)
    requires forall i: nat :: !OccursAt(s, p, i)
    ensures !Contains(s, p)
  {
    if Contains(s, p) {
      var i := ContainsWitness(s, p);
      assert OccursAt(s, p, i);
    }
  }

  /** A character the pattern does not contain splits a search in two:
      an occurrence in `a + [c] + b` lies within `a` or within `b`. */
  lemma NotContainsJoin(a: string, c: char, b: string, p: string)
    requires c !in p && !Contains(a, p) && !Contains(b, p)
    ensures !Contains(a + [c] + b, p)
  {
    var s := a + [c] + b;
    forall i: nat ensures !OccursAt(s, p, i) {
      if i + |p| > |s| {
      } else if i + |p| <= |a| {
        SliceOfLeft(a, c, b, i, |p|);
        NotContainsAt(a, p, i);
      } else if i > |a| {
        var j: nat := i - |a| - 1;
        SliceOfRight(a, c, b, j, |p|);
        NotContainsAt(b, p, j);
      } else {
        assert s[i..i + |p|][|a| - i] == c;
      }
    }
    ContainsNowhere(s, p);
  }

  lemma SliceOfLeft(a: string, c: char, b: string, i: nat, n: nat)
    requires i + n <= |a|
    ensures (a + [c] + b)[i..i + n] == a[i..i + n]
  {
    var s := a + [c] + b;
    assert s[..|a|] == a;
    assert s[i..i + n] == s[..|a|][i..i + n];
  }

  lemma SliceOfRight(a: string, c: char, b: string, j: nat, n: nat)
    requires j + n <= |b|
    ensures (a + [c] + b)[|a| + 1 + j..|a| + 1 + j + n] == b[j..j + n]
  {
    var s := a + [c] + b;
    assert s[|a| + 1..] == b;
    assert s[|a| + 1 + j..|a| + 1 + j + n] == s[|a| + 1..][j..j + n];
  }

  /** `str.split(sep)` generalised to a set of single-character separators:
      cut at every separator character; never returns an empty list. */
  function SplitBy(s: string, seps: set<char>): (r: seq<string>)
    ensures |r| >= 1
    decreases |s|
  {
    if |s| == 0 then [""]
    else
      var rest := SplitBy(s[1..], seps);
      if s[0] in seps then [""] + rest
      else [[s[0]] + rest[0]] + rest[1..]
  }

  predicate FreeOf(s: string, seps: set<char>) { forall i :: 0 <= i < |s| ==> s[i] !in seps }

  lemma {:induction false} SplitPiecesFree(s: string, seps: set<char>)
    ensures forall k :: 0 <= k < |SplitBy(s, seps)| ==> FreeOf(SplitBy(s, seps)[k], seps)
    decreases |s|
  {
    if |s| > 0 {
      SplitPiecesFree(s[1..], seps);
    }
  }

  lemma {:induction false} SplitFree(s: string, seps: set<char>)
    requires FreeOf(s, seps)
    ensures SplitBy(s, seps) == [s]
    decreases |s|
  {
    if |s| > 0 {
      SplitFree(s[1..], seps);
      assert [s[0]] + s[1..] == s;
    }
  }

  /** Cutting at a separator splits the piece lists apart. */
  lemma {:induction false} SplitConcat(a: string, c: char, b: string, seps: set<char>)
    requires c in seps
    ensures SplitBy(a + [c] + b, seps) == SplitBy(a, seps) + SplitBy(b, seps)
    decreases |a|
  {
    if |a| == 0 {
      assert a + [c] + b == [c] + b;
      assert ([c] + b)[1..] == b;
    } else {
      assert (a + [c] + b)[1..] == a[1..] + [c] + b;
      SplitConcat(a[1..], c, b, seps);
    }
  }

  /** `sep.join(ws)`. */
  function Join(ws: seq<string>, sep: string): string
  {
    if |ws| == 0 then "" else if |ws| == 1 then ws[0] else ws[0] + sep + Join(ws[1..], sep)
  }

  /** Joining separator-free pieces with a separator and splitting again
      gives the pieces back. */
  lemma {:induction false} SplitJoin(ws: seq<string>, c: char, seps: set<char>)
    requires c in seps && |ws| >= 1
    requires forall k :: 0 <= k < |ws| ==> FreeOf(ws[k], seps)
    ensures SplitBy(Join(ws, [c]), seps) == ws
  {
    if |ws| == 1 {
      SplitFree(ws[0], seps);
    } else {
      SplitConcat(ws[0], c, Join(ws[1..], [c]), seps);
      SplitFree(ws[0], seps);
      SplitJoin(ws[1..], c, seps);
      assert [ws[0]] + ws[1..] == ws;
    }
  }

  /** `s.replace(pat, rep)`: every non-overlapping occurrence, left to right. */
  function ReplaceAll(s: string, pat: string, rep: string): string
    requires |pat| > 0
    decreases |s|
  {
    if |s| == 0 then ""
    else if StartsWith(s, pat) then rep + ReplaceAll(s[|pat|..], pat, rep)
    else [s[0]] + ReplaceAll(s[1..], pat, rep)
  }

  lemma {:induction false} ReplaceAbsent(s: string, pat: string, rep: string)
    requires |pat| > 0 && !Contains(s, pat)
    ensures ReplaceAll(s, pat, rep) == s
    decreases |s|
  {
    if |s| > 0 {
      ReplaceAbsent(s[1..], pat, rep);
      assert [s[0]] + s[1..] == s;
    }
  }

  lemma {:induction false} NatToStringDigits(n: nat)
    ensures |NatToString(n)| >= 1 && AllDigits(NatToString(n))
    ensures DigitsValue(NatToString(n)) == n
    decreases n
  {
    if n >= 10 {
      NatToStringDigits(n / 10);
      var s := NatToString(n);
      assert s[..|s| - 1] == NatToString(n / 10);
    }
  }

  /** A run of digits followed by a non-digit (or nothing) is read whole. */
  lemma {:induction false} LeadingDigitsOfRun(d: string, rest: string)
    requires AllDigits(d)
    requires |rest| == 0 || !IsDigit(rest[0])
    ensures LeadingDigits(d + rest) == |d|
    decreases |d|
  {
    if |d| > 0 {
      assert (d + rest)[1..] == d[1..] + rest;
      LeadingDigitsOfRun(d[1..], rest);
    } else {
      assert d + rest == rest;
    }
  }

  /** Replacing a pattern that occurs only as the suffix removes exactly that suffix. */
  lemma {:induction false} ReplaceAllOfSuffix(a: string, pat: string, rep: string)
    requires |pat| > 0 && !Contains(a + pat[..|pat| - 1], pat)
    ensures ReplaceAll(a + pat, pat, rep) == a + rep
    decreases |a|
  {
    if |a| == 0 {
      assert a + pat == pat;
      assert pat[|pat|..] == "";
    } else {
      assert (a + pat[..|pat| - 1])[..|pat|] == (a + pat)[..|pat|];
      assert (a + pat)[1..] == a[1..] + pat;
      assert (a + pat[..|pat| - 1])[1..] == a[1..] + pat[..|pat| - 1];
      ReplaceAllOfSuffix(a[1..], pat, rep);
      assert [a[0]] + a[1..] + rep == a + rep;
    }
  }

  /** `s.replace(c, d)` for single characters. */
  function ReplaceChar(s: string, c: char, d: char): (r: string)
    ensures |r| == |s|
    ensures forall i :: 0 <= i < |s| ==> r[i] == if s[i] == c then d else s[i]
  {
    seq(|s|, i requires 0 <= i < |s| => if s[i] == c then d else s[i])
  }

  /** After replacing `c` by another character, `c` no longer occurs. */
  lemma ReplaceCharRemoves(s: string, c: char, d: char)
    requires c != d
    ensures c !in ReplaceChar(s, c, d)
  {
    var r := ReplaceChar(s, c, d);
    forall i | 0 <= i < |r| ensures r[i] != c {
    }
  }

  /** `s.replace(c, "")` for a single character. */
  function RemoveChar(s: string, c: char): (r: string)
    ensures c !in r
    ensures forall x :: x in r ==> x in s
    decreases |s|
  {
    if |s| == 0 then "" else if s[0] == c then RemoveChar(s[1..], c) else [s[0]] + RemoveChar(s[1..], c)
  }

  function TrimLeft(s: string, cs: set<char>): string
    decreases |s|
  {
    if |s| > 0 && s[0] in cs then TrimLeft(s[1..], cs) else s
  }

  function TrimRight(s: string, cs: set<char>): string
    decreases |s|
  {
    if |s| > 0 && s[|s| - 1] in cs then TrimRight(s[..|s| - 1], cs) else s
  }

  /** `s.strip(cs)`. */
  function Strip(s: string, cs: set<char>): string { TrimRight(TrimLeft(s, cs), cs) }

  function DigitChar(d: nat): char
    requires d < 10
  {
    ('0' as int + d) as char
  }

  function DigitValue(c: char): nat
    requires IsDigit(c)
  {
    c as int - '0' as int
  }

  /** `str(n)` for a non-negative integer. */
  function NatToString(n: nat): string
    decreases n
  {
    if n < 10 then [DigitChar(n)] else NatToString(n / 10) + [DigitChar(n % 10)]
  }

  /** `int(s)` for a string of decimal digits. */
  function DigitsValue(s: string): nat
    requires AllDigits(s)
    decreases |s|
  {
    if |s| == 0 then 0 else 10 * DigitsValue(s[..|s| - 1]) + DigitValue(s[|s| - 1])
  }

  /** `f"{n:02d}"`. */
  function Pad2(n: nat): string
  {
    if n < 10 then "0" + NatToString(n) else NatToString(n)
  }

  /** A leading zero does not change the value of a digit string. */
  lemma {:induction false} LeadingZeroValue(s: string)
    requires AllDigits(s)
    ensures AllDigits("0" + s) && DigitsValue("0" + s) == DigitsValue(s)
    decreases |s|
  {
    if |s| > 0 {
      LeadingZeroValue(s[..|s| - 1]);
      assert ("0" + s)[..|s|] == "0" + s[..|s| - 1];
    }
  }

  /** `f"{n:02d}"` is a digit string of at least two digits that reads back as `n`. */
  lemma Pad2Digits(n: nat)
    ensures |Pad2(n)| >= 2 && AllDigits(Pad2(n)) && DigitsValue(Pad2(n)) == n
  {
    NatToStringDigits(n);
    if n < 10 {
      LeadingZeroValue(NatToString(n));
    } else {
      NatToStringDigits(n / 10);
    }
  }
}

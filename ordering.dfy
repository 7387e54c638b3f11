/** Python's ordering of strings (code point by code point, a proper prefix
    first) and `sorted(...)` on lists of strings. */
module Ordering {

  /** `a < b` on Python strings. */
  predicate Less(a: string, b: string)
    decreases |a|
  {
    |b| > 0 && (|a| == 0 || a[0] < b[0] || (a[0] == b[0] && Less(a[1..], b[1..])))
  }

  lemma {:induction false} LessIrreflexive(a: string)
    ensures !Less(a, a)
    decreases |a|
  {
    if |a| > 0 {
      LessIrreflexive(a[1..]);
    }
  }

  lemma {:induction false} LessTransitive(a: string, b: string, c: string)
    requires Less(a, b) && Less(b, c)
    ensures Less(a, c)
    decreases |a|
  {
    if |a| > 0 && a[0] == b[0] && b[0] == c[0] {
      LessTransitive(a[1..], b[1..], c[1..]);
    }
  }

  lemma {:induction false} LessTotal(a: string, b: string)
    requires a != b
    ensures Less(a, b) || Less(b, a)
    decreases |a|
  {
    if |a| > 0 && |b| > 0 && a[0] == b[0] {
      assert a == [a[0]] + a[1..] && b == [b[0]] + b[1..];
      LessTotal(a[1..], b[1..]);
    }
  }

  lemma LessAsymmetric(a: string, b: string)
    requires Less(a, b)
    ensures !Less(b, a)
  {
    if Less(b, a) {
      LessTransitive(a, b, a);
      LessIrreflexive(a);
    }
  }

  /** Ascending, duplicates allowed: what `sorted(...)` returns. */
  predicate Sorted(xs: seq<string>)
  {
    forall i, j :: 0 <= i < j < |xs| ==> !Less(xs[j], xs[i])
  }

  /** Ascending without duplicates: what `sorted(set(...))` returns. */
  predicate StrictlySorted(xs: seq<string>)
  {
    forall i, j :: 0 <= i < j < |xs| ==> Less(xs[i], xs[j])
  }

  /** A sorted list stays sorted behind a head no larger than its elements. */
  lemma SortedCons(h: string, rest: seq<string>)
    requires Sorted(rest)
    requires forall y :: y in rest ==> !Less(y, h)
    ensures Sorted([h] + rest)
  {
    var r := [h] + rest;
    forall i, j | 0 <= i < j < |r| ensures !Less(r[j], r[i]) {
      assert r[j] == rest[j - 1];
      if i > 0 {
        assert r[i] == rest[i - 1];
      }
    }
  }

  lemma InsertFrontSorted(xs: seq<string>, x: string)
    requires |xs| > 0 && Less(x, xs[0]) && Sorted(xs)
    ensures Sorted([x] + xs)
  {
    forall y | y in xs ensures !Less(y, x) {
      var k :| 0 <= k < |xs| && xs[k] == y;
      if Less(y, x) {
        if k == 0 {
          LessAsymmetric(x, y);
        } else {
          assert !Less(xs[k], xs[0]);
          LessTransitive(y, x, xs[0]);
        }
      }
    }
    SortedCons(x, xs);
  }

  lemma InsertLaterSorted(xs: seq<string>, x: string, rest: seq<string>)
    requires |xs| > 0 && !Less(x, xs[0]) && Sorted(xs)
    requires Sorted(rest) && multiset(rest) == multiset(xs[1..]) + multiset{x}
    ensures Sorted([xs[0]] + rest)
  {
    forall y | y in rest ensures !Less(y, xs[0]) {
      assert y in multiset(rest);
      if y != x {
        assert y in multiset(xs[1..]);
        var k :| 0 <= k < |xs[1..]| && xs[1..][k] == y;
        assert xs[k + 1] == y;
      }
    }
    SortedCons(xs[0], rest);
  }

  /** Inserts `x` in front of the first element above it. */
  function Insert(xs: seq<string>, x: string): (r: seq<string>)
    ensures multiset(r) == multiset(xs) + multiset{x}
    ensures Sorted(xs) ==> Sorted(r)
  {
    if |xs| == 0 then [x]
    else if Less(x, xs[0]) then
      if Sorted(xs) then InsertFrontSorted(xs, x); [x] + xs else [x] + xs
    else
      var rest := Insert(xs[1..], x);
      assert xs == [xs[0]] + xs[1..];
      if Sorted(xs) then InsertLaterSorted(xs, x, rest); [xs[0]] + rest else [xs[0]] + rest
  }

  /** `sorted(xs)`: insertion sort. */
  function Sort(xs: seq<string>): (r: seq<string>)
    ensures Sorted(r)
    ensures multiset(r) == multiset(xs)
    ensures |r| == |xs|
  {
    if |xs| == 0 then []
    else
      assert xs == [xs[0]] + xs[1..];
      Insert(Sort(xs[1..]), xs[0])
  }

  /** The head of a sorted list is its least element: `sorted(xs)[0]`. */
  lemma {:induction false} SortHeadIsLeast(xs: seq<string>)
    requires |xs| > 0
    ensures Sort(xs)[0] in xs
    ensures forall x :: x in xs ==> !Less(x, Sort(xs)[0])
  {
    var r := Sort(xs);
    assert r[0] in multiset(r);
    forall x | x in xs ensures !Less(x, r[0]) {
      assert x in multiset(r);
      var k :| 0 <= k < |r| && r[k] == x;
      if k > 0 { assert !Less(r[k], r[0]); } else { LessIrreflexive(x); }
    }
  }

  predicate Distinct<T(==)>(xs: seq<T>)
  {
    forall i, j :: 0 <= i < j < |xs| ==> xs[i] != xs[j]
  }

  lemma SortedDistinctIsStrict(xs: seq<string>)
    requires Sorted(xs) && Distinct(xs)
    ensures StrictlySorted(xs)
  {
    forall i, j | 0 <= i < j < |xs| ensures Less(xs[i], xs[j]) {
      LessTotal(xs[i], xs[j]);
    }
  }

  lemma {:induction false} DistinctByMultiset(xs: seq<string>, ys: seq<string>)
    requires multiset(xs) == multiset(ys) && Distinct(ys)
    ensures Distinct(xs)
  {
    forall i, j | 0 <= i < j < |xs| ensures xs[i] != xs[j] {
      if xs[i] == xs[j] {
        assert xs == xs[..i] + [xs[i]] + xs[i + 1..j] + [xs[j]] + xs[j + 1..];
        assert multiset(xs)[xs[i]] >= 2;
        DistinctCount(ys, xs[i]);
      }
    }
  }

  lemma {:induction false} DistinctCount(ys: seq<string>, x: string)
    requires Distinct(ys)
    ensures multiset(ys)[x] <= 1
  {
    if |ys| > 0 {
      assert ys == [ys[0]] + ys[1..];
      assert Distinct(ys[1..]);
      DistinctCount(ys[1..], x);
      if ys[0] == x {
        assert x !in ys[1..];
      }
    }
  }

  /** A strictly sorted list is determined by its elements. */
  lemma {:induction false} StrictlySortedUnique(xs: seq<string>, ys: seq<string>)
    requires StrictlySorted(xs) && StrictlySorted(ys)
    requires forall s :: s in xs <==> s in ys
    ensures xs == ys
  {
    assert |xs| > 0 ==> xs[0] in ys;
    assert |ys| > 0 ==> ys[0] in xs;
    if |xs| > 0 && |ys| > 0 {
      assert ys[0] in ys && xs[0] in xs;
      if xs[0] != ys[0] {
        var kx :| 0 <= kx < |xs| && xs[kx] == ys[0];
        var ky :| 0 <= ky < |ys| && ys[ky] == xs[0];
        assert kx > 0 && ky > 0;
        LessAsymmetric(xs[0], ys[0]);
      }
      forall s ensures s in xs[1..] <==> s in ys[1..] {
        if s in xs[1..] {
          var k :| 0 <= k < |xs[1..]| && xs[1..][k] == s;
          assert Less(xs[0], xs[k + 1]);
          LessIrreflexive(s);
          assert s in ys;
          var m :| 0 <= m < |ys| && ys[m] == s;
          assert m != 0;
          assert ys[1..][m - 1] == s;
        }
        if s in ys[1..] {
          var k :| 0 <= k < |ys[1..]| && ys[1..][k] == s;
          assert Less(ys[0], ys[k + 1]);
          LessIrreflexive(s);
          assert s in xs;
          var m :| 0 <= m < |xs| && xs[m] == s;
          assert m != 0;
          assert xs[1..][m - 1] == s;
        }
      }
      StrictlySortedUnique(xs[1..], ys[1..]);
      assert xs == [xs[0]] + xs[1..] && ys == [ys[0]] + ys[1..];
    }
  }
}

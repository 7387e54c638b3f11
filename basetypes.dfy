/** The base type of a transformer key: the key without its burden, wiring
    and phase tokens. Operator-maintained data (price, dimensions, comment)
    is attached per base type, so every variant of a physical model shares it. */
module BaseTypes {
  import opened Text

  /** The character class `[_\s\-]` the key is split on. */
  const Separators: set<char> := Whitespace + {'_', '-'}

  /** Wiring, reference-line and phase words, compared lower-cased. */
  const TopologyWords: seq<string> := ["parallel", "dreieck", "messstrecke", "l1", "l2", "l3"]

  /** `re.match(r"^\d+R\d*$", t, re.IGNORECASE)`: a burden designation
      such as "8R1" or "10r". */
  predicate IsBurdenToken(t: string)
  {
    var k := LeadingDigits(t);
    0 < k < |t| && (t[k] == 'R' || t[k] == 'r') && AllDigits(t[k + 1..])
  }

  /** A token `extract_base_type` skips. */
  predicate Dropped(t: string)
  {
    IsBurdenToken(t) || Lower(t) in TopologyWords || t == ""
  }

  /** The tokens that survive, in their order. */
  function KeptTokens(ts: seq<string>): seq<string>
  {
    if |ts| == 0 then []
    else KeptTokens(ts[..|ts| - 1]) + (if Dropped(ts[|ts| - 1]) then [] else [ts[|ts| - 1]])
  }

  /** `extract_base_type(wandler_key)`. Splitting on runs of separators, as the
      source does, and splitting at every separator differ only by empty
      tokens, which are dropped either way. */
  function BaseTypeOf(key: string): string
  {
    Join(KeptTokens(SplitBy(key, Separators)), " ")
  }

  /** The loop of `extract_base_type`, which collects the clean tokens one by one. */
  method ExtractBaseType(key: string) returns (r: string)
    ensures r == BaseTypeOf(key)
  {
    var tokens := SplitBy(key, Separators);
    var clean: seq<string> := [];
    var i := 0;
    while i < |tokens|
      invariant 0 <= i <= |tokens|
      invariant clean == KeptTokens(tokens[..i])
    {
      var t := tokens[i];
      assert tokens[..i + 1][..i] == tokens[..i];
      if IsBurdenToken(t) {
      } else if Lower(t) in TopologyWords {
      } else if t == "" {
      } else {
        clean := clean + [t];
      }
      i := i + 1;
    }
    assert tokens[..|tokens|] == tokens;
    r := Join(clean, " ");
  }

  lemma {:induction false} KeptTokensAppend(a: seq<string>, b: seq<string>)
    ensures KeptTokens(a + b) == KeptTokens(a) + KeptTokens(b)
    decreases |b|
  {
    if |b| > 0 {
      var b' := b[..|b| - 1];
      assert (a + b)[..|a + b| - 1] == a + b';
      KeptTokensAppend(a, b');
    } else {
      assert a + b == a;
    }
  }

  lemma {:induction false} KeptTokensProperties(ts: seq<string>)
    ensures forall t :: t in KeptTokens(ts) ==> t in ts && !Dropped(t)
    decreases |ts|
  {
    if |ts| > 0 {
      KeptTokensProperties(ts[..|ts| - 1]);
    }
  }

  lemma {:induction false} KeptTokensOfKept(ts: seq<string>)
    requires forall t :: t in ts ==> !Dropped(t)
    ensures KeptTokens(ts) == ts
    decreases |ts|
  {
    if |ts| > 0 {
      var init, last := ts[..|ts| - 1], ts[|ts| - 1];
      assert init + [last] == ts;
      assert last in ts;
      KeptTokensOfKept(init);
    }
  }

  /** Every base-type token is a non-empty, separator-free token of the key
      that is neither a burden nor a wiring/phase word. */
  lemma BaseTokensClean(key: string)
    ensures forall t :: t in KeptTokens(SplitBy(key, Separators)) ==>
      t in SplitBy(key, Separators) && t != "" && FreeOf(t, Separators) && !IsBurdenToken(t) && Lower(t) !in TopologyWords
  {
    var ts := SplitBy(key, Separators);
    KeptTokensProperties(ts);
    SplitPiecesFree(key, Separators);
    forall t | t in KeptTokens(ts) ensures FreeOf(t, Separators) {
      var k :| 0 <= k < |ts| && ts[k] == t;
    }
  }

  /** Normalising a base type again changes nothing. */
  lemma BaseTypeIdempotent(key: string)
    ensures BaseTypeOf(BaseTypeOf(key)) == BaseTypeOf(key)
  {
    var kept := KeptTokens(SplitBy(key, Separators));
    BaseTokensClean(key);
    if |kept| == 0 {
      assert BaseTypeOf(key) == "";
      assert SplitBy("", Separators) == [""];
      assert KeptTokens([""]) == KeptTokens([]) + [];
    } else {
      forall k | 0 <= k < |kept| ensures FreeOf(kept[k], Separators) {
        assert kept[k] in kept;
      }
      SplitJoin(kept, ' ', Separators);
      KeptTokensOfKept(kept);
    }
  }

  lemma {:induction false} SplitAroundToken(a: string, c: char, t: string, d: char, b: string)
    requires c in Separators && d in Separators && FreeOf(t, Separators)
    ensures SplitBy(a + [c] + t + [d] + b, Separators) == SplitBy(a, Separators) + [t] + SplitBy(b, Separators)
  {
    var tail := t + [d] + b;
    assert a + [c] + t + [d] + b == a + [c] + tail;
    SplitConcat(a, c, tail, Separators);
    SplitConcat(t, d, b, Separators);
    SplitFree(t, Separators);
  }

  lemma {:induction false} KeptAroundDropped(sa: seq<string>, t: string, sb: seq<string>)
    requires Dropped(t)
    ensures KeptTokens(sa + [t] + sb) == KeptTokens(sa + sb)
  {
    KeptTokensAppend(sa + [t], sb);
    KeptTokensAppend(sa, [t]);
    KeptTokensAppend(sa, sb);
    assert KeptTokens([t]) == KeptTokens([]) + [];
  }

  /** Inserting or removing a burden, wiring or phase token (between
      separators) leaves the base type unchanged. */
  lemma BaseTypeIgnoresDroppedToken(a: string, c: char, t: string, d: char, b: string)
    requires c in Separators && d in Separators
    requires Dropped(t) && FreeOf(t, Separators)
    ensures BaseTypeOf(a + [c] + t + [d] + b) == BaseTypeOf(a + [c] + b)
  {
    SplitAroundToken(a, c, t, d, b);
    SplitConcat(a, c, b, Separators);
    KeptAroundDropped(SplitBy(a, Separators), t, SplitBy(b, Separators));
  }

  /** The same, for a token at the end of the key. */
  lemma BaseTypeIgnoresTrailingToken(a: string, c: char, t: string)
    requires c in Separators
    requires Dropped(t) && FreeOf(t, Separators)
    ensures BaseTypeOf(a + [c] + t) == BaseTypeOf(a)
  {
    var sa := SplitBy(a, Separators);
    SplitConcat(a, c, t, Separators);
    SplitFree(t, Separators);
    assert SplitBy(a + [c] + t, Separators) == sa + [t];
    KeptAroundDropped(sa, t, []);
    assert sa + [t] + [] == sa + [t] && sa + [] == sa;
  }

  /** A run of digits is the whole leading run when a non-digit follows it. */
  lemma LeadingDigitsOf(d: string, t: string)
    requires AllDigits(d) && |t| > 0 && !IsDigit(t[0])
    ensures LeadingDigits(d + t) == |d|
  {
    var s := d + t;
    assert s[|d|] == t[0];
    assert forall j :: 0 <= j < |d| ==> s[j] == d[j];
  }

  /** `^\d+R\d*$` with IGNORECASE: one or more digits, an "R" or "r", and
      any digits after it form a burden token, which is dropped. */
  lemma BurdenTokenDropped(d: string, r: char, e: string)
    requires |d| > 0 && AllDigits(d) && (r == 'R' || r == 'r') && AllDigits(e)
    ensures IsBurdenToken(d + [r] + e) && Dropped(d + [r] + e)
  {
    var t := d + [r] + e;
    LeadingDigitsOf(d, [r] + e);
    assert t == d + ([r] + e);
    assert t[|d|] == r;
    assert t[|d| + 1..] == e;
  }

  /** Conversely, a burden token is such a run of digits, "R" or "r", and
      digits. This only spells out `IsBurdenToken` as a decomposition of the
      token; `BurdenTokenDropped` is the direction that needs proof. */
  lemma BurdenTokenShape(t: string)
    requires IsBurdenToken(t)
    ensures var k := LeadingDigits(t);
      t == t[..k] + [t[k]] + t[k + 1..] && |t[..k]| > 0 && AllDigits(t[..k]) &&
      (t[k] == 'R' || t[k] == 'r') && AllDigits(t[k + 1..])
  {
    var k := LeadingDigits(t);
    assert t == t[..k] + [t[k]] + t[k + 1..];
  }

  /** The characters of the topology words are lower-case letters and
      digits, which `lower()` leaves alone. */
  lemma TopologyWordsAreLower(v: string, i: int)
    requires v in TopologyWords && 0 <= i < |v|
    ensures LowerChar(v[i]) == v[i] && LowerChar(UpperChar(v[i])) == v[i]
  {
  }

  /** A wiring, reference-line or phase word is dropped whatever its case:
      every spelling that upper-cases some of its letters is dropped. */
  lemma TopologyWordDropped(v: string, w: string)
    requires v in TopologyWords
    requires |w| == |v| && forall i :: 0 <= i < |w| ==> w[i] == v[i] || w[i] == UpperChar(v[i])
    ensures Dropped(w)
  {
    forall i | 0 <= i < |w| ensures Lower(w)[i] == v[i] {
      TopologyWordsAreLower(v, i);
    }
    assert Lower(w) == v;
  }

  /** A key that carries a burden and a wiring word after the model name
      (as in "X 8R1 Parallel" and "X 10R Dreieck") has the model name's
      base type. */
  lemma BurdenAndWiringVariantsShareBaseType(x: string, b: string, w: string)
    requires Dropped(b) && Dropped(w)
    requires FreeOf(b, Separators) && FreeOf(w, Separators)
    ensures BaseTypeOf(x + " " + b + " " + w) == BaseTypeOf(x)
  {
    BaseTypeIgnoresTrailingToken(x + [' '] + b, ' ', w);
    BaseTypeIgnoresTrailingToken(x, ' ', b);
    assert x + " " + b + " " + w == x + [' '] + b + [' '] + w;
  }
}

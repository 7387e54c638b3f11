/** The older two-device logic of the manual tagger (`load_file_data` in
    `manual_tagger.py`) and of the plateau pre-calculation (`analyze_file`
    in `precalc.py`): the two smallest column prefixes name the reference
    and the device under test, and every phase pairs one column of each. */
module Tagging {
  import opened Text
  import opened Ordering
  import opened Domain
  import RawDevices
  import Writers
  import FileNames

  // ---------------------------------------------------------------------
  // Reference and device under test

  /** `c.split("_")[0]`. */
  function Prefix(c: string): string
  {
    SplitBy(c, {'_'})[0]
  }

  /** The prefix of a column named `<device>_<rest>` is the device. */
  lemma PrefixOf(d: string, rest: string)
    requires '_' !in d
    ensures Prefix(d + "_" + rest) == d
  {
    assert FreeOf(d, {'_'});
    SplitConcat(d, '_', rest, {'_'});
    SplitFree(d, {'_'});
  }

  /** The elements of `xs` in the order first seen, each once. */
  function Deduplicated(xs: seq<string>): (r: seq<string>)
    ensures Distinct(r)
    ensures forall x :: x in r <==> x in xs
  {
    if |xs| == 0 then []
    else
      var init := xs[..|xs| - 1];
      var x := xs[|xs| - 1];
      assert xs == init + [x];
      var r := Deduplicated(init);
      if x in r then r else r + [x]
  }

  /** `[c.split("_")[0] for c in val_cols]`. */
  function PrefixList(valCols: seq<string>): (r: seq<string>)
    ensures |r| == |valCols| && forall i :: 0 <= i < |valCols| ==> r[i] == Prefix(valCols[i])
  {
    seq(|valCols|, i requires 0 <= i < |valCols| => Prefix(valCols[i]))
  }

  /** Some value column has the prefix `p`. */
  predicate PrefixOfSome(valCols: seq<string>, p: string)
  {
    exists i :: 0 <= i < |valCols| && Prefix(valCols[i]) == p
  }

  /** `sorted(list(set([c.split("_")[0] for c in val_cols])))`. */
  function DevicePrefixes(valCols: seq<string>): (r: seq<string>)
    ensures StrictlySorted(r)
    ensures forall p :: p in r <==> PrefixOfSome(valCols, p)
  {
    var names := PrefixList(valCols);
    var found := Deduplicated(names);
    var r := Sort(found);
    DistinctByMultiset(r, found);
    SortedDistinctIsStrict(r);
    assert forall p :: p in r <==> PrefixOfSome(valCols, p) by {
      forall p ensures p in r <==> PrefixOfSome(valCols, p) {
        assert p in r <==> p in multiset(r);
        assert p in found <==> p in multiset(found);
        if p in names {
          var i :| 0 <= i < |names| && names[i] == p;
          assert Prefix(valCols[i]) == p;
        }
        if PrefixOfSome(valCols, p) {
          var i :| 0 <= i < |valCols| && Prefix(valCols[i]) == p;
          assert names[i] == p;
        }
      }
    }
    r
  }

  /** The reference (`dev_ref`) and the device under test (`dev_dut`). */
  datatype Pair = Pair(ref: string, dut: string)

  /** Both tools give up on fewer than two value columns or fewer than two
      distinct prefixes; otherwise the two smallest prefixes are the
      reference and the device under test. */
  function ChosenPair(valCols: seq<string>): Option<Pair>
  {
    if |valCols| < 2 then None
    else
      var prefixes := DevicePrefixes(valCols);
      if |prefixes| < 2 then None else Some(Pair(prefixes[0], prefixes[1]))
  }

  /** No pair is chosen exactly when there are fewer than two value columns
      or all of them share one prefix. Otherwise the reference is the
      smallest prefix and the device under test the next one: every other
      prefix is larger than both. */
  lemma ChosenPairIsSmallest(valCols: seq<string>)
    ensures ChosenPair(valCols).None? <==>
      |valCols| < 2 || forall i :: 0 <= i < |valCols| ==> Prefix(valCols[i]) == Prefix(valCols[0])
    ensures ChosenPair(valCols).Some? ==>
      var pair := ChosenPair(valCols).value;
      PrefixOfSome(valCols, pair.ref) && PrefixOfSome(valCols, pair.dut) && Less(pair.ref, pair.dut) &&
      forall i :: 0 <= i < |valCols| ==>
        Prefix(valCols[i]) == pair.ref || Prefix(valCols[i]) == pair.dut || Less(pair.dut, Prefix(valCols[i]))
  {
    if |valCols| >= 2 {
      SmallestPrefixes(valCols, DevicePrefixes(valCols));
    }
  }

  /** The sorted prefixes of at least two columns: fewer than two exactly
      when all columns share the first one's prefix; otherwise every
      prefix is one of the first two or larger than both. */
  lemma SmallestPrefixes(valCols: seq<string>, ps: seq<string>)
    requires |valCols| >= 2
    requires StrictlySorted(ps) && forall p :: p in ps <==> PrefixOfSome(valCols, p)
    ensures |ps| < 2 <==> forall i :: 0 <= i < |valCols| ==> Prefix(valCols[i]) == Prefix(valCols[0])
    ensures |ps| >= 2 ==>
      PrefixOfSome(valCols, ps[0]) && PrefixOfSome(valCols, ps[1]) && Less(ps[0], ps[1]) &&
      forall i :: 0 <= i < |valCols| ==>
        Prefix(valCols[i]) == ps[0] || Prefix(valCols[i]) == ps[1] || Less(ps[1], Prefix(valCols[i]))
  {
    assert PrefixOfSome(valCols, Prefix(valCols[0]));
    var first := Prefix(valCols[0]);
    if |ps| < 2 {
      forall i | 0 <= i < |valCols| ensures Prefix(valCols[i]) == first {
        assert PrefixOfSome(valCols, Prefix(valCols[i]));
      }
    } else {
      assert ps[0] in ps && ps[1] in ps;
      assert PrefixOfSome(valCols, ps[0]) && PrefixOfSome(valCols, ps[1]);
      forall i | 0 <= i < |valCols|
        ensures Prefix(valCols[i]) == ps[0] || Prefix(valCols[i]) == ps[1] || Less(ps[1], Prefix(valCols[i]))
      {
        assert PrefixOfSome(valCols, Prefix(valCols[i]));
        var k :| 0 <= k < |ps| && ps[k] == Prefix(valCols[i]);
      }
      var a :| 0 <= a < |valCols| && Prefix(valCols[a]) == ps[0];
      var b :| 0 <= b < |valCols| && Prefix(valCols[b]) == ps[1];
      LessIrreflexive(ps[0]);
      assert Prefix(valCols[a]) != Prefix(valCols[b]);
    }
  }

  // ---------------------------------------------------------------------
  // The columns of one phase

  /** How a column is assigned to a device. `Substring` is what both tools
      do (`dev_ref in c`); `ByPrefix` compares the prefix the device was
      named after. */
  datatype Matching = Substring | ByPrefix

  predicate Matches(m: Matching, c: string, device: string, phase: string)
  {
    (match m
     case Substring => Contains(c, device)
     case ByPrefix => Prefix(c) == device)
    && Contains(c, phase)
  }

  function Matcher(m: Matching, device: string, phase: string): string -> bool
  {
    c => Matches(m, c, device, phase)
  }

  /** `next((c for c in val_cols if dev in c and phase in c), None)`. */
  function ColumnFor(m: Matching, valCols: seq<string>, device: string, phase: string): Option<nat>
  {
    FirstIndex(valCols, Matcher(m, device, phase))
  }

  /** `pd.to_numeric(df[c], errors="coerce").fillna(0)`. */
  function Numeric(table: seq<Column>, c: string): seq<real>
  {
    ZeroMissing(Cells(table, c))
  }

  /** The reference and device-under-test samples of `phase`, when a column
      is found for each of them. */
  function PhaseColumns(m: Matching, table: seq<Column>, valCols: seq<string>, pair: Pair, phase: string)
    : Option<(seq<real>, seq<real>)>
  {
    match (ColumnFor(m, valCols, pair.ref, phase), ColumnFor(m, valCols, pair.dut, phase))
    case (Some(i), Some(j)) => Some((Numeric(table, valCols[i]), Numeric(table, valCols[j])))
    case _ => None
  }

  /** The column matching as written: for any two device names of which one
      begins with the other, such as "PAC" and "PAC1", a file whose first
      value column belongs to the longer name gives the shorter name (the
      reference) the device under test's column, so both roles read the
      same samples. */
  lemma SubstringSharesColumn(r: string, x: string, phase: string)
    requires |x| > 0 && '_' !in r + x
    ensures var valCols := [RawName(r + x, phase), RawName(r, phase)];
      ChosenPair(valCols) == Some(Pair(r, r + x)) &&
      ColumnFor(Substring, valCols, r, phase) == Some(0) &&
      ColumnFor(Substring, valCols, r + x, phase) == Some(0)
  {
    var d := r + x;
    var valCols := [RawName(d, phase), RawName(r, phase)];
    RawNamePrefix(d, phase);
    RawNamePrefix(r, phase);
    PrefixLess(r, x);
    PairOfTwoColumns(valCols, r, d);
    var first := RawName(d, phase);
    assert first == d + ("_" + phase + "_ValueY");
    ContainsAt(first, r, 0);
    ContainsAt(first, d, 0);
    assert first == (d + "_") + phase + "_ValueY";
    ContainsAt(first, phase, |d| + 1);
    FirstIndexIs(valCols, Matcher(Substring, r, phase), 0);
    FirstIndexIs(valCols, Matcher(Substring, d, phase), 0);
  }

  /** How a raw export names the samples of one device and phase. */
  function RawName(device: string, phase: string): string
  {
    device + "_" + phase + "_ValueY"
  }

  lemma RawNamePrefix(device: string, phase: string)
    requires '_' !in device
    ensures Prefix(RawName(device, phase)) == device
  {
    assert RawName(device, phase) == device + "_" + (phase + "_ValueY");
    PrefixOf(device, phase + "_ValueY");
  }

  /** Two value columns with different prefixes, the larger one first. */
  lemma PairOfTwoColumns(valCols: seq<string>, a: string, b: string)
    requires |valCols| == 2 && Prefix(valCols[0]) == b && Prefix(valCols[1]) == a && Less(a, b)
    ensures ChosenPair(valCols) == Some(Pair(a, b))
  {
    PrefixesOfTwo(valCols, DevicePrefixes(valCols), a, b);
  }

  /** The sorted prefixes of two columns with prefixes `b` and `a`. */
  lemma PrefixesOfTwo(valCols: seq<string>, ps: seq<string>, a: string, b: string)
    requires |valCols| == 2 && Prefix(valCols[0]) == b && Prefix(valCols[1]) == a && Less(a, b)
    requires StrictlySorted(ps) && forall p :: p in ps <==> PrefixOfSome(valCols, p)
    ensures ps == [a, b]
  {
    assert PrefixOfSome(valCols, a) && PrefixOfSome(valCols, b);
    forall p | p in ps ensures p == a || p == b {
      var i :| 0 <= i < |valCols| && Prefix(valCols[i]) == p;
      assert i == 0 || i == 1;
    }
    assert StrictlySorted([a, b]);
    StrictlySortedUnique(ps, [a, b]);
  }

  /** A string comes before every longer string that begins with it. */
  lemma {:induction false} PrefixLess(r: string, x: string)
    requires |x| > 0
    ensures Less(r, r + x)
    decreases |r|
  {
    if |r| > 0 {
      assert (r + x)[1..] == r[1..] + x;
      PrefixLess(r[1..], x);
    }
  }

  /** The matching as evidently intended: the reference's column carries the
      reference's prefix and the device under test's its own, so the two
      roles never share a column, and a column is found for a role exactly
      when some value column of that prefix mentions the phase. */
  lemma ByPrefixSeparatesRoles(valCols: seq<string>, phase: string)
    requires ChosenPair(valCols).Some?
    ensures var pair := ChosenPair(valCols).value;
      var i := ColumnFor(ByPrefix, valCols, pair.ref, phase);
      var j := ColumnFor(ByPrefix, valCols, pair.dut, phase);
      (i.Some? ==> Prefix(valCols[i.value]) == pair.ref) &&
      (j.Some? ==> Prefix(valCols[j.value]) == pair.dut) &&
      (i.Some? && j.Some? ==> i.value != j.value) &&
      (i.Some? <==> exists k :: 0 <= k < |valCols| && Prefix(valCols[k]) == pair.ref && Contains(valCols[k], phase))
  {
    var pair := ChosenPair(valCols).value;
    ChosenPairIsSmallest(valCols);
    LessIrreflexive(pair.ref);
    var i := ColumnFor(ByPrefix, valCols, pair.ref, phase);
    if exists k :: 0 <= k < |valCols| && Prefix(valCols[k]) == pair.ref && Contains(valCols[k], phase) {
      var k :| 0 <= k < |valCols| && Prefix(valCols[k]) == pair.ref && Contains(valCols[k], phase);
      assert Matcher(ByPrefix, pair.ref, phase)(valCols[k]);
    }
  }

  // ---------------------------------------------------------------------
  // load_file_data

  /** `data_dict[phase]`: both series, or `(None, None)` when either column
      is missing. */
  function PhasePair(m: Matching, table: seq<Column>, valCols: seq<string>, pair: Pair, phase: string)
    : (Option<seq<real>>, Option<seq<real>>)
  {
    match PhaseColumns(m, table, valCols, pair, phase)
    case Some(v) => (Some(v.0), Some(v.1))
    case None => (None, None)
  }

  function PairsOf(m: Matching, table: seq<Column>, valCols: seq<string>, pair: Pair): (r: Writers.PairData)
    ensures forall p :: p in r <==> p in Phases
    ensures forall p :: p in r ==> (r[p].0.Some? <==> r[p].1.Some?)
  {
    map p | p in Phases :: PhasePair(m, table, valCols, pair, p)
  }

  /** What `load_file_data` returns for a file it accepts. */
  datatype TaggerData = TaggerData(time: seq<nat>, pairs: Writers.PairData)

  /** `list(range(len(data_dict["L1"][0])))`, or `[]`. */
  function TimeAxis(pairs: Writers.PairData): (r: seq<nat>)
    ensures |r| == if "L1" in pairs && pairs["L1"].0.Some? then |pairs["L1"].0.value| else 0
  {
    if "L1" in pairs && pairs["L1"].0.Some? then RawDevices.Range(|pairs["L1"].0.value|) else []
  }

  /** `load_file_data` as a value: `None` for `(None, None)`. */
  function LoadedPairs(m: Matching, file: Option<seq<Column>>): Option<TaggerData>
  {
    match file
    case None => None
    case Some(raw) =>
      var table := RawDevices.CleanHeaders(raw);
      var valCols := RawDevices.ValueColumns(Names(table));
      match ChosenPair(valCols)
      case None => None
      case Some(pair) =>
        var pairs := PairsOf(m, table, valCols, pair);
        Some(TaggerData(TimeAxis(pairs), pairs))
  }

  /** The loop over `PHASES` that fills `data_dict`. */
  method FillPhases(m: Matching, table: seq<Column>, valCols: seq<string>, pair: Pair)
    returns (dataDict: Writers.PairData)
    ensures dataDict == PairsOf(m, table, valCols, pair)
  {
    ghost var entry := p => PhasePair(m, table, valCols, pair, p);
    dataDict := map[];
    for i := 0 to |Phases|
      invariant forall p :: p in dataDict <==> p in Phases[..i]
      invariant forall p :: p in dataDict ==> dataDict[p] == entry(p)
    {
      var phase := Phases[i];
      var cols := PhaseColumns(m, table, valCols, pair, phase);
      if cols.Some? {
        dataDict := dataDict[phase := (Some(cols.value.0), Some(cols.value.1))];
      } else {
        dataDict := dataDict[phase := (None, None)];
      }
      assert Phases[..i + 1] == Phases[..i] + [phase];
    }
    assert Phases[..|Phases|] == Phases;
  }

  /** `load_file_data`: clean the header, choose the two devices, and fill
      `data_dict` phase by phase. */
  method LoadFileData(m: Matching, file: Option<seq<Column>>) returns (loaded: Option<TaggerData>)
    ensures loaded == LoadedPairs(m, file)
  {
    if file.None? {
      return None;
    }
    var table := RawDevices.CleanHeaders(file.value);
    var valCols := RawDevices.ValueColumns(Names(table));
    if |valCols| < 2 {
      return None;
    }
    var prefixes := DevicePrefixes(valCols);
    if |prefixes| < 2 {
      return None;
    }
    var pair := Pair(prefixes[0], prefixes[1]);
    var dataDict := FillPhases(m, table, valCols, pair);
    loaded := Some(TaggerData(TimeAxis(dataDict), dataDict));
  }

  /** A loaded file has an entry for every phase, each entry holds both
      series or neither, the time axis is as long as the reference series
      of L1 (empty without it), and the tagger's writer finds every phase of
      both roles. A file is refused exactly when it is unreadable or no
      pair is chosen. */
  lemma LoadedShape(m: Matching, file: Option<seq<Column>>)
    ensures LoadedPairs(m, file).None? <==>
      file.None? || ChosenPair(RawDevices.ValueColumns(Names(RawDevices.CleanHeaders(file.value)))).None?
    ensures LoadedPairs(m, file).Some? ==>
      TaggerShape(LoadedPairs(m, file).value) && Writers.Covers(Writers.RoleData(LoadedPairs(m, file).value.pairs), Writers.Roles)
  {
    assert Phases[0] == "L1";
    if LoadedPairs(m, file).Some? {
      PhasesCovered(LoadedPairs(m, file).value.pairs);
    }
  }

  /** Every phase has an entry holding both series or neither, and the time
      axis is as long as the reference series of L1, or empty without it. */
  ghost predicate TaggerShape(d: TaggerData)
  {
    (forall p :: p in d.pairs <==> p in Phases) &&
    (forall p :: p in d.pairs ==> (d.pairs[p].0.Some? <==> d.pairs[p].1.Some?)) &&
    "L1" in d.pairs && |d.time| == (if d.pairs["L1"].0.Some? then |d.pairs["L1"].0.value| else 0)
  }

  /** A `data_dict` with an entry for every phase gives the tagger's writer
      every phase of both roles. */
  lemma PhasesCovered(pairs: Writers.PairData)
    requires forall p :: p in pairs <==> p in Phases
    ensures Writers.Covers(Writers.RoleData(pairs), Writers.Roles)
  {
    var data := Writers.RoleData(pairs);
    forall role | role in Writers.Roles ensures Writers.HasPhases(data, role) {
    }
  }

  /** A phase's series are the samples of the first columns that match the
      two devices, with every non-number read as 0. */
  lemma LoadedSeries(m: Matching, raw: seq<Column>, phase: string)
    requires LoadedPairs(m, Some(raw)).Some? && phase in Phases
    ensures var table := RawDevices.CleanHeaders(raw);
      var valCols := RawDevices.ValueColumns(Names(table));
      var pair := ChosenPair(valCols).value;
      var entry := LoadedPairs(m, Some(raw)).value.pairs[phase];
      var i := ColumnFor(m, valCols, pair.ref, phase);
      var j := ColumnFor(m, valCols, pair.dut, phase);
      (entry.0.Some? <==> i.Some? && j.Some?) &&
      (entry.0.Some? ==> entry.0.value == Numeric(table, valCols[i.value]) && entry.1.value == Numeric(table, valCols[j.value]))
  {
  }
}

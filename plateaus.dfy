/** The plateau pre-calculation of `precalc.py` (`analyze_file`): with the
    reference and the device under test chosen by their column prefixes,
    every phase and load level whose reference current stays within 3 % of
    the level for at least ten samples yields one record of the mean and
    spread of both series over those samples. */
module Plateaus {
  import opened Ordering
  import opened Domain
  import RawDevices
  import FileNames
  import opened Tagging

  /** `LEVEL_TOLERANCE_PCT`. */
  const Tolerance: nat := 3

  /** `MIN_PLATEAU_DURATION_SEC / ASSUMED_SAMPLING_RATE_SEC`: ten samples. */
  const MinPlateau: nat := 10

  /** `(vals_ref / nennstrom) * 100` of one sample. */
  function Percent(v: real, rated: nat): real
    requires rated > 0
  {
    v / (rated as real) * 100.0
  }

  /** The mask of `analyze_file`: the sample lies within the tolerance of
      the target level. */
  predicate InBand(v: real, rated: nat, target: nat)
    requires rated > 0
  {
    (target as real) - (Tolerance as real) <= Percent(v, rated) <= (target as real) + (Tolerance as real)
  }

  function BandMask(rated: nat, target: nat): real -> bool
    requires rated > 0
  {
    v => InBand(v, rated, target)
  }

  function NonZero(): real -> bool
  {
    v => v != 0.0
  }

  /** `np.where(mask)[0]`: the positions whose sample passes, ascending. */
  function Where(vals: seq<real>, p: real -> bool): (r: seq<nat>)
    ensures forall k: nat :: k in r <==> k < |vals| && p(vals[k])
    ensures forall i :: 0 <= i < |r| ==> r[i] < |vals|
    ensures forall i, j :: 0 <= i < j < |r| ==> r[i] < r[j]
  {
    if |vals| == 0 then []
    else
      var init := Where(vals[..|vals| - 1], p);
      if p(vals[|vals| - 1]) then init + [|vals| - 1] else init
  }

  /** `series.iloc[idx]` for positions inside the series. */
  function Take(vals: seq<real>, idx: seq<nat>): (r: seq<real>)
    requires forall i :: 0 <= i < |idx| ==> idx[i] < |vals|
    ensures |r| == |idx| && forall i :: 0 <= i < |idx| ==> r[i] == vals[idx[i]]
  {
    seq(|idx|, i requires 0 <= i < |idx| => vals[idx[i]])
  }

  /** One row of the pre-calculated store. */
  datatype PlateauRecord = PlateauRecord(
    wandlerKey: string, folder: string, phase: string, target: nat, ratedCurrent: nat,
    refMean: real, refStd: real, dutMean: real, dutStd: real, rawFile: string)

  /** What one (phase, target) step of `analyze_file` does: nothing, append
      a record, or raise (an `iloc` position beyond the device under test's
      series), which ends the whole analysis. */
  datatype Outcome = Skip | Emit(record: PlateauRecord) | Raise

  /** The body of the target loop for the series of one phase. `std` stands
      for pandas' `Series.std()`. */
  function PlateauAt(meta: FileNames.Metadata, std: seq<real> -> real, phase: string, target: nat,
                     refVals: seq<real>, dutVals: seq<real>): (o: Outcome)
    requires meta.ratedCurrent > 0
    ensures o.Emit? ==> o.record.phase == phase && o.record.target == target
  {
    var idx := Where(refVals, BandMask(meta.ratedCurrent, target));
    if |idx| == 0 then Skip
    else if |idx| < MinPlateau then Skip
    else if exists i :: 0 <= i < |idx| && idx[i] >= |dutVals| then Raise
    else
      PlateauStats(meta, std, phase, target, Take(refVals, idx), Take(dutVals, idx))
  }

  /** The zero filter and the statistics of one plateau. */
  function PlateauStats(meta: FileNames.Metadata, std: seq<real> -> real, phase: string, target: nat,
                        refPlateau: seq<real>, dutPlateau: seq<real>): (o: Outcome)
    requires |dutPlateau| == |refPlateau|
    ensures o.Emit? ==> o.record.phase == phase && o.record.target == target
  {
    var keep := Where(refPlateau, NonZero());
    var refs := Take(refPlateau, keep);
    var duts := Take(dutPlateau, keep);
    if |refs| == 0 then Skip
    else Emit(PlateauRecord(meta.wandlerKey, meta.folder, phase, target, meta.ratedCurrent,
                            Mean(refs), std(refs), Mean(duts), std(duts), meta.filename))
  }

  /** No sample of 0 lies in the band of a target level: every level is at
      least 5 %, so the band starts above 0. */
  lemma ZeroOutsideBand(rated: nat, target: nat, v: real)
    requires rated > 0 && target in TargetLevels && InBand(v, rated, target)
    ensures v > 0.0
  {
    var q := v / (rated as real);
    assert q * 100.0 >= 2.0;
    assert q > 0.0;
    assert v == q * (rated as real);
  }

  /** Where every sample passes, `np.where` keeps every position. */
  lemma {:induction false} WhereAll(vals: seq<real>, p: real -> bool)
    requires forall k :: 0 <= k < |vals| ==> p(vals[k])
    ensures Where(vals, p) == RawDevices.Range(|vals|)
    decreases |vals|
  {
    if |vals| > 0 {
      WhereAll(vals[..|vals| - 1], p);
    }
  }

  /** The samples of a plateau are never 0. */
  lemma PlateauNonZero(rated: nat, target: nat, refVals: seq<real>)
    requires rated > 0 && target in TargetLevels
    ensures var plateau := Take(refVals, Where(refVals, BandMask(rated, target)));
      forall k :: 0 <= k < |plateau| ==> NonZero()(plateau[k])
  {
    var idx := Where(refVals, BandMask(rated, target));
    var plateau := Take(refVals, idx);
    forall k | 0 <= k < |plateau| ensures NonZero()(plateau[k]) {
      assert idx[k] in idx;
      ZeroOutsideBand(rated, target, plateau[k]);
    }
  }

  /** Dropping the zero-reference samples from a plateau without any keeps
      both series as they are. */
  lemma ZeroFilterKeepsAll(refPlateau: seq<real>, dutPlateau: seq<real>)
    requires |dutPlateau| == |refPlateau|
    requires forall k :: 0 <= k < |refPlateau| ==> NonZero()(refPlateau[k])
    ensures Take(refPlateau, Where(refPlateau, NonZero())) == refPlateau
    ensures Take(dutPlateau, Where(refPlateau, NonZero())) == dutPlateau
  {
    WhereAll(refPlateau, NonZero());
  }

  /** A plateau of at least ten samples, all inside the series of the
      device under test, yields the statistics of exactly those samples. */
  lemma PlateauEmits(meta: FileNames.Metadata, std: seq<real> -> real, phase: string, target: nat,
                     refVals: seq<real>, dutVals: seq<real>)
    requires meta.ratedCurrent > 0 && target in TargetLevels
    requires var idx := Where(refVals, BandMask(meta.ratedCurrent, target));
      |idx| >= MinPlateau && forall i :: 0 <= i < |idx| ==> idx[i] < |dutVals|
    ensures var idx := Where(refVals, BandMask(meta.ratedCurrent, target));
      PlateauAt(meta, std, phase, target, refVals, dutVals) ==
        Emit(PlateauRecord(meta.wandlerKey, meta.folder, phase, target, meta.ratedCurrent,
          Mean(Take(refVals, idx)), std(Take(refVals, idx)),
          Mean(Take(dutVals, idx)), std(Take(dutVals, idx)), meta.filename))
  {
    var idx := Where(refVals, BandMask(meta.ratedCurrent, target));
    var refPlateau := Take(refVals, idx);
    var dutPlateau := Take(dutVals, idx);
    PlateauNonZero(meta.ratedCurrent, target, refVals);
    StatsOfNonZero(meta, std, phase, target, refPlateau, dutPlateau);
    assert !exists i :: 0 <= i < |idx| && idx[i] >= |dutVals|;
  }

  lemma StatsOfNonZero(meta: FileNames.Metadata, std: seq<real> -> real, phase: string, target: nat,
                       refPlateau: seq<real>, dutPlateau: seq<real>)
    requires |dutPlateau| == |refPlateau| > 0
    requires forall k :: 0 <= k < |refPlateau| ==> NonZero()(refPlateau[k])
    ensures PlateauStats(meta, std, phase, target, refPlateau, dutPlateau) ==
      Emit(PlateauRecord(meta.wandlerKey, meta.folder, phase, target, meta.ratedCurrent,
        Mean(refPlateau), std(refPlateau), Mean(dutPlateau), std(dutPlateau), meta.filename))
  {
    ZeroFilterKeepsAll(refPlateau, dutPlateau);
  }

  /** The plateau rule: a (phase, target) step records exactly when at least
      ten reference samples lie in the band and the device under test has a
      sample at each of their positions, and raises exactly when it lacks
      one. The record holds the statistics of exactly those samples: the
      zero filter of `analyze_file` never removes one. */
  lemma PlateauRule(meta: FileNames.Metadata, std: seq<real> -> real, phase: string, target: nat,
                    refVals: seq<real>, dutVals: seq<real>)
    requires meta.ratedCurrent > 0 && target in TargetLevels
    ensures var idx := Where(refVals, BandMask(meta.ratedCurrent, target));
      var o := PlateauAt(meta, std, phase, target, refVals, dutVals);
      (o.Emit? <==> |idx| >= MinPlateau && forall i :: 0 <= i < |idx| ==> idx[i] < |dutVals|) &&
      (o.Raise? <==> |idx| >= MinPlateau && exists i :: 0 <= i < |idx| && idx[i] >= |dutVals|) &&
      (o.Emit? ==>
        o.record == PlateauRecord(meta.wandlerKey, meta.folder, phase, target, meta.ratedCurrent,
          Mean(Take(refVals, idx)), std(Take(refVals, idx)),
          Mean(Take(dutVals, idx)), std(Take(dutVals, idx)), meta.filename))
  {
    var idx := Where(refVals, BandMask(meta.ratedCurrent, target));
    if |idx| >= MinPlateau && forall i :: 0 <= i < |idx| ==> idx[i] < |dutVals| {
      PlateauEmits(meta, std, phase, target, refVals, dutVals);
    }
  }

  /** The exception needs a device series shorter than the reference
      series: with as many device samples as reference samples (as in one
      table, where every column has the table's length) a plateau is never
      raised. */
  lemma EqualLengthsNeverRaise(meta: FileNames.Metadata, std: seq<real> -> real, phase: string, target: nat,
                               refVals: seq<real>, dutVals: seq<real>)
    requires meta.ratedCurrent > 0 && |refVals| <= |dutVals|
    ensures !PlateauAt(meta, std, phase, target, refVals, dutVals).Raise?
  {
  }

  // ---------------------------------------------------------------------
  // The loops over phases and targets

  /** The (phase, target) steps in the order of the nested loops. */
  function Grid(phases: seq<string>, targets: seq<nat>): (r: seq<(string, nat)>)
    ensures forall p, t :: (p, t) in r <==> p in phases && t in targets
  {
    if |phases| == 0 then []
    else Grid(phases[..|phases| - 1], targets) + Row(phases[|phases| - 1], targets)
  }

  function Row(phase: string, targets: seq<nat>): (r: seq<(string, nat)>)
    ensures |r| == |targets| && forall k :: 0 <= k < |targets| ==> r[k] == (phase, targets[k])
  {
    seq(|targets|, k requires 0 <= k < |targets| => (phase, targets[k]))
  }

  /** Everything `analyze_file` works with once the devices are chosen. */
  datatype Setting = Setting(matching: Matching, meta: FileNames.Metadata, table: seq<Column>,
                             valCols: seq<string>, pair: Pair)

  /** One step: a phase without both columns is skipped (`continue`). */
  function StepOutcome(s: Setting, std: seq<real> -> real, key: (string, nat)): Outcome
    requires s.meta.ratedCurrent > 0
  {
    match PhaseColumns(s.matching, s.table, s.valCols, s.pair, key.0)
    case None => Skip
    case Some(v) => PlateauAt(s.meta, std, key.0, key.1, v.0, v.1)
  }

  /** The steps of one file, as a value the loops can carry. */
  function Steps(s: Setting, std: seq<real> -> real): ((string, nat)) -> Outcome
    requires s.meta.ratedCurrent > 0
  {
    key => StepOutcome(s, std, key)
  }

  /** The `results` list after some steps, or the exception. */
  datatype Gathered = Fine(records: seq<PlateauRecord>) | Raised

  function Results(step: ((string, nat)) -> Outcome, keys: seq<(string, nat)>): Gathered
  {
    if |keys| == 0 then Fine([])
    else
      match Results(step, keys[..|keys| - 1])
      case Raised => Raised
      case Fine(rs) =>
        match step(keys[|keys| - 1])
        case Skip => Fine(rs)
        case Emit(r) => Fine(rs + [r])
        case Raise => Raised
  }

  lemma ResultsSnoc(step: ((string, nat)) -> Outcome, keys: seq<(string, nat)>, key: (string, nat))
    ensures Results(step, keys + [key]) ==
      match Results(step, keys)
      case Raised => Raised
      case Fine(rs) =>
        match step(key)
        case Skip => Fine(rs)
        case Emit(r) => Fine(rs + [r])
        case Raise => Raised
  {
    assert (keys + [key])[..|keys|] == keys;
  }

  /** Once raised, later steps change nothing. */
  lemma {:induction false} RaisedStays(step: ((string, nat)) -> Outcome, keys: seq<(string, nat)>, more: seq<(string, nat)>)
    requires Results(step, keys) == Raised
    ensures Results(step, keys + more) == Raised
    decreases |more|
  {
    if |more| > 0 {
      var init := more[..|more| - 1];
      RaisedStays(step, keys, init);
      assert keys + more == (keys + init) + [more[|more| - 1]];
      ResultsSnoc(step, keys + init, more[|more| - 1]);
    } else {
      assert keys + more == keys;
    }
  }

  /** Steps that all skip add nothing. */
  lemma {:induction false} SkippedSteps(step: ((string, nat)) -> Outcome, keys: seq<(string, nat)>, more: seq<(string, nat)>)
    requires forall k :: 0 <= k < |more| ==> step(more[k]).Skip?
    ensures Results(step, keys + more) == Results(step, keys)
    decreases |more|
  {
    if |more| > 0 {
      var init := more[..|more| - 1];
      SkippedSteps(step, keys, init);
      assert keys + more == (keys + init) + [more[|more| - 1]];
      ResultsSnoc(step, keys + init, more[|more| - 1]);
    } else {
      assert keys + more == keys;
    }
  }

  /** A step in the emitting set: its outcome is a record. */
  function Emits(step: ((string, nat)) -> Outcome): ((string, nat)) -> bool
  {
    key => step(key).Emit?
  }

  /** The (phase, target) of each record, in order. */
  function KeysOf(rs: seq<PlateauRecord>): (r: seq<(string, nat)>)
    ensures |r| == |rs| && forall i :: 0 <= i < |rs| ==> r[i] == (rs[i].phase, rs[i].target)
  {
    seq(|rs|, i requires 0 <= i < |rs| => (rs[i].phase, rs[i].target))
  }

  /** Every record a step emits is labelled with that step. */
  ghost predicate Keyed(step: ((string, nat)) -> Outcome)
  {
    forall key :: step(key).Emit? ==> (step(key).record.phase, step(key).record.target) == key
  }

  /** Every record a step emits carries the file's metadata. */
  ghost predicate Stamped(step: ((string, nat)) -> Outcome, meta: FileNames.Metadata)
  {
    forall key :: step(key).Emit? ==>
      var r := step(key).record;
      r.wandlerKey == meta.wandlerKey && r.folder == meta.folder &&
      r.ratedCurrent == meta.ratedCurrent && r.rawFile == meta.filename
  }

  lemma StepsKeyedAndStamped(s: Setting, std: seq<real> -> real)
    requires s.meta.ratedCurrent > 0
    ensures Keyed(Steps(s, std)) && Stamped(Steps(s, std), s.meta)
  {
  }

  /** The records are those of the emitting steps, in step order. */
  lemma {:induction false} ResultsKeys(step: ((string, nat)) -> Outcome, keys: seq<(string, nat)>)
    requires Keyed(step)
    ensures Results(step, keys).Fine? ==> KeysOf(Results(step, keys).records) == Filter(keys, Emits(step))
    decreases |keys|
  {
    if |keys| > 0 {
      var init := keys[..|keys| - 1];
      var key := keys[|keys| - 1];
      assert keys == init + [key];
      ResultsKeys(step, init);
      FilterSnoc(init, key, Emits(step));
      ResultsSnoc(step, init, key);
      if Results(step, keys).Fine? {
        var rs := Results(step, init).records;
        if step(key).Emit? {
          assert KeysOf(rs + [step(key).record]) == KeysOf(rs) + [key];
        }
      }
    }
  }

  /** Every record carries the file's metadata. */
  lemma {:induction false} ResultsStamped(step: ((string, nat)) -> Outcome, meta: FileNames.Metadata, keys: seq<(string, nat)>)
    requires Stamped(step, meta)
    ensures Results(step, keys).Fine? ==>
      var rs := Results(step, keys).records;
      forall i :: 0 <= i < |rs| ==>
        rs[i].wandlerKey == meta.wandlerKey && rs[i].folder == meta.folder &&
        rs[i].ratedCurrent == meta.ratedCurrent && rs[i].rawFile == meta.filename
    decreases |keys|
  {
    if |keys| > 0 {
      var init := keys[..|keys| - 1];
      ResultsStamped(step, meta, init);
      assert keys == init + [keys[|keys| - 1]];
      ResultsSnoc(step, init, keys[|keys| - 1]);
    }
  }

  /** Filtering keeps a list free of repeats. */
  lemma {:induction false} FilterDistinct<T(!new)>(xs: seq<T>, keep: T -> bool)
    requires Distinct(xs)
    ensures Distinct(Filter(xs, keep))
    decreases |xs|
  {
    if |xs| > 0 {
      assert Distinct(xs[1..]);
      FilterDistinct(xs[1..], keep);
      assert xs[0] !in xs[1..];
    }
  }

  /** Distinct phases and distinct targets give distinct steps. */
  lemma {:induction false} GridDistinct(phases: seq<string>, targets: seq<nat>)
    requires Distinct(phases) && Distinct(targets)
    ensures Distinct(Grid(phases, targets))
    decreases |phases|
  {
    if |phases| > 0 {
      var init := phases[..|phases| - 1];
      var last := phases[|phases| - 1];
      assert Distinct(init);
      assert last !in init;
      GridDistinct(init, targets);
      var a: seq<(string, nat)> := Grid(init, targets);
      var b: seq<(string, nat)> := Row(last, targets);
      forall i, j | 0 <= i < j < |a + b| ensures (a + b)[i] != (a + b)[j] {
        if i < |a| && j >= |a| {
          var x := a[i];
          assert (x.0, x.1) in a;
          assert x.0 in init;
          assert (a + b)[j].0 == last;
        }
      }
    }
  }

  /** What the records of one file share: at most one per phase and
      target level, each for a phase and level of the grid and carrying the
      file's metadata. */
  ghost predicate FileRecords(rs: seq<PlateauRecord>, meta: FileNames.Metadata)
  {
    (forall i, j :: 0 <= i < j < |rs| ==> (rs[i].phase, rs[i].target) != (rs[j].phase, rs[j].target)) &&
    (forall i :: 0 <= i < |rs| ==>
      rs[i].phase in Phases && rs[i].target in TargetLevels &&
      rs[i].wandlerKey == meta.wandlerKey && rs[i].folder == meta.folder &&
      rs[i].ratedCurrent == meta.ratedCurrent && rs[i].rawFile == meta.filename)
  }

  /** The records of a whole file, at most one per (phase, target). */
  lemma GridRecords(step: ((string, nat)) -> Outcome, meta: FileNames.Metadata)
    requires Keyed(step) && Stamped(step, meta)
    ensures var g := Results(step, Grid(Phases, TargetLevels));
      g.Fine? ==> FileRecords(g.records, meta)
  {
    var grid := Grid(Phases, TargetLevels);
    ResultsKeys(step, grid);
    ResultsStamped(step, meta, grid);
    FullGridDistinct();
    FilterDistinct(grid, Emits(step));
    var g := Results(step, grid);
    if g.Fine? {
      RecordsOfGridKeys(g.records, Filter(grid, Emits(step)), meta);
    }
  }

  /** The steps of the whole grid are distinct. */
  lemma FullGridDistinct()
    ensures Distinct(Grid(Phases, TargetLevels))
  {
    assert Distinct(Phases);
    assert Distinct(TargetLevels);
    GridDistinct(Phases, TargetLevels);
  }

  /** Records whose keys are distinct steps of the grid, each stamped with
      the metadata, are the records of one file. */
  lemma RecordsOfGridKeys(rs: seq<PlateauRecord>, keys: seq<(string, nat)>, meta: FileNames.Metadata)
    requires KeysOf(rs) == keys && Distinct(keys)
    requires forall k :: k in keys ==> k in Grid(Phases, TargetLevels)
    requires forall i :: 0 <= i < |rs| ==>
      rs[i].wandlerKey == meta.wandlerKey && rs[i].folder == meta.folder &&
      rs[i].ratedCurrent == meta.ratedCurrent && rs[i].rawFile == meta.filename
    ensures FileRecords(rs, meta)
  {
    forall i | 0 <= i < |rs| ensures rs[i].phase in Phases && rs[i].target in TargetLevels {
      assert keys[i] in keys;
    }
    forall i, j | 0 <= i < j < |rs| ensures (rs[i].phase, rs[i].target) != (rs[j].phase, rs[j].target) {
      assert keys[i] != keys[j];
    }
  }

  // ---------------------------------------------------------------------
  // analyze_file

  /** The status string `analyze_file` returns with its records. */
  datatype Status =
    | NoRatedCurrent        // "Kein Nennstrom"
    | ReadError             // "Lesefehler"
    | NoMeasurements        // "Keine Messdaten"
    | DevicesNotRecognised  // "Geräte nicht erkannt"
    | Failed                // `str(e)` of the exception caught
    | Ok                    // "OK"

  /** `analyze_file` as a value: the records and the status. */
  function Analysis(m: Matching, meta: FileNames.Metadata, file: Option<seq<Column>>, std: seq<real> -> real)
    : (seq<PlateauRecord>, Status)
  {
    if meta.ratedCurrent == 0 then ([], NoRatedCurrent)
    else if file.None? then ([], ReadError)
    else
      var table := RawDevices.CleanHeaders(file.value);
      var valCols := RawDevices.ValueColumns(Names(table));
      if |valCols| < 2 then ([], NoMeasurements)
      else
        match ChosenPair(valCols)
        case None => ([], DevicesNotRecognised)
        case Some(pair) =>
          match Results(Steps(Setting(m, meta, table, valCols, pair), std), Grid(Phases, TargetLevels))
          case Raised => ([], Failed)
          case Fine(rs) => (rs, Ok)
  }

  /** With both columns of `phase` found, each step of the phase is the
      plateau rule on their series. */
  lemma StepIsPlateau(s: Setting, std: seq<real> -> real, phase: string, target: nat, refVals: seq<real>, dutVals: seq<real>)
    requires s.meta.ratedCurrent > 0
    requires PhaseColumns(s.matching, s.table, s.valCols, s.pair, phase) == Some((refVals, dutVals))
    ensures Steps(s, std)((phase, target)) == PlateauAt(s.meta, std, phase, target, refVals, dutVals)
  {
  }

  /** With a column missing, every step of the phase skips. */
  /** A phase without its two series adds nothing to the results. */
  lemma PhaseSkipped(s: Setting, std: seq<real> -> real, phase: string, done: seq<(string, nat)>)
    requires s.meta.ratedCurrent > 0
    requires PhaseColumns(s.matching, s.table, s.valCols, s.pair, phase).None?
    ensures Results(Steps(s, std), done + Row(phase, TargetLevels)) == Results(Steps(s, std), done)
  {
    RowSkipped(s, std, phase);
    SkippedSteps(Steps(s, std), done, Row(phase, TargetLevels));
  }

  lemma RowSkipped(s: Setting, std: seq<real> -> real, phase: string)
    requires s.meta.ratedCurrent > 0
    requires PhaseColumns(s.matching, s.table, s.valCols, s.pair, phase).None?
    ensures forall k :: 0 <= k < |TargetLevels| ==> Steps(s, std)(Row(phase, TargetLevels)[k]).Skip?
  {
  }

  /** The inner loop over `TARGET_LEVELS` for the series of one phase. */
  method CollectTargets(s: Setting, std: seq<real> -> real, phase: string, refVals: seq<real>, dutVals: seq<real>,
                        ghost done: seq<(string, nat)>, start: Gathered) returns (gathered: Gathered)
    requires s.meta.ratedCurrent > 0
    requires PhaseColumns(s.matching, s.table, s.valCols, s.pair, phase) == Some((refVals, dutVals))
    requires start == Results(Steps(s, std), done)
    ensures gathered == Results(Steps(s, std), done + Row(phase, TargetLevels))
  {
    ghost var step := Steps(s, std);
    gathered := start;
    var j := 0;
    assert done + Row(phase, TargetLevels[..0]) == done;
    while j < |TargetLevels| && gathered.Fine?
      invariant 0 <= j <= |TargetLevels|
      invariant gathered == Results(step, done + Row(phase, TargetLevels[..j]))
    {
      var target := TargetLevels[j];
      var o := PlateauAt(s.meta, std, phase, target, refVals, dutVals);
      StepIsPlateau(s, std, phase, target, refVals, dutVals);
      ghost var before := done + Row(phase, TargetLevels[..j]);
      ResultsSnoc(step, before, (phase, target));
      RowSnoc(done, phase, j);
      match o {
        case Skip =>
        case Emit(r) => gathered := Fine(gathered.records + [r]);
        case Raise => gathered := Raised;
      }
      j := j + 1;
    }
    RowRest(step, done, phase, j);
  }

  lemma RowSnoc(done: seq<(string, nat)>, phase: string, j: nat)
    requires j < |TargetLevels|
    ensures done + Row(phase, TargetLevels[..j + 1]) == done + Row(phase, TargetLevels[..j]) + [(phase, TargetLevels[j])]
  {
    assert Row(phase, TargetLevels[..j + 1]) == Row(phase, TargetLevels[..j]) + [(phase, TargetLevels[j])];
  }

  /** After the inner loop: all targets done, or raised early. */
  lemma RowRest(step: ((string, nat)) -> Outcome, done: seq<(string, nat)>, phase: string, j: nat)
    requires j <= |TargetLevels|
    requires j < |TargetLevels| ==> Results(step, done + Row(phase, TargetLevels[..j])) == Raised
    ensures Results(step, done + Row(phase, TargetLevels)) == Results(step, done + Row(phase, TargetLevels[..j]))
  {
    var row := Row(phase, TargetLevels);
    var head := Row(phase, TargetLevels[..j]);
    var tail := row[j..];
    assert row == head + tail;
    assert done + row == (done + head) + tail;
    if j < |TargetLevels| {
      RaisedStays(step, done + head, tail);
    } else {
      assert TargetLevels[..j] == TargetLevels;
    }
  }

  /** The outer loop over the phases. */
  method CollectPlateaus(s: Setting, std: seq<real> -> real) returns (gathered: Gathered)
    requires s.meta.ratedCurrent > 0
    ensures gathered == Results(Steps(s, std), Grid(Phases, TargetLevels))
  {
    ghost var step := Steps(s, std);
    gathered := Fine([]);
    var i := 0;
    while i < |Phases| && gathered.Fine?
      invariant 0 <= i <= |Phases|
      invariant gathered == Results(step, Grid(Phases[..i], TargetLevels))
    {
      var phase := Phases[i];
      ghost var done := Grid(Phases[..i], TargetLevels);
      GridPhaseStep(Phases, TargetLevels, i);
      var cols := PhaseColumns(s.matching, s.table, s.valCols, s.pair, phase);
      if cols.Some? {
        gathered := CollectTargets(s, std, phase, cols.value.0, cols.value.1, done, gathered);
      } else {
        PhaseSkipped(s, std, phase, done);
      }
      i := i + 1;
    }
    GridRest(step, i);
  }

  /** The steps of one more phase follow those of the phases before it. */
  lemma GridPhaseStep(phases: seq<string>, targets: seq<nat>, i: nat)
    requires i < |phases|
    ensures Grid(phases[..i + 1], targets) == Grid(phases[..i], targets) + Row(phases[i], targets)
  {
    assert phases[..i + 1][..i] == phases[..i];
  }

  lemma GridRest(step: ((string, nat)) -> Outcome, i: nat)
    requires i <= |Phases|
    requires i < |Phases| ==> Results(step, Grid(Phases[..i], TargetLevels)) == Raised
    ensures Results(step, Grid(Phases, TargetLevels)) == Results(step, Grid(Phases[..i], TargetLevels))
  {
    if i < |Phases| {
      GridSplit(Phases, TargetLevels, i);
      var head := Grid(Phases[..i], TargetLevels);
      RaisedStays(step, head, Grid(Phases, TargetLevels)[|head|..]);
    } else {
      assert Phases[..i] == Phases;
    }
  }

  /** The steps of the first phases come first. */
  lemma {:induction false} GridSplit(phases: seq<string>, targets: seq<nat>, i: nat)
    requires i <= |phases|
    ensures |Grid(phases[..i], targets)| <= |Grid(phases, targets)|
    ensures Grid(phases, targets) == Grid(phases[..i], targets) + Grid(phases, targets)[|Grid(phases[..i], targets)|..]
    decreases |phases|
  {
    if i < |phases| {
      var init := phases[..|phases| - 1];
      GridSplit(init, targets, i);
      assert init[..i] == phases[..i];
    } else {
      assert phases[..i] == phases;
    }
  }

  /** `analyze_file(filepath, meta)` for the file read from `filepath`. */
  method AnalyzeFile(m: Matching, meta: FileNames.Metadata, file: Option<seq<Column>>, std: seq<real> -> real)
    returns (results: seq<PlateauRecord>, status: Status)
    ensures (results, status) == Analysis(m, meta, file, std)
  {
    if meta.ratedCurrent == 0 {
      return [], NoRatedCurrent;
    }
    if file.None? {
      return [], ReadError;
    }
    var table := RawDevices.CleanHeaders(file.value);
    var valCols := RawDevices.ValueColumns(Names(table));
    if |valCols| < 2 {
      return [], NoMeasurements;
    }
    var prefixes := DevicePrefixes(valCols);
    if |prefixes| < 2 {
      return [], DevicesNotRecognised;
    }
    var gathered := CollectPlateaus(Setting(m, meta, table, valCols, Pair(prefixes[0], prefixes[1])), std);
    match gathered
    case Raised => results, status := [], Failed;
    case Fine(rs) => results, status := rs, Ok;
  }

  // ---------------------------------------------------------------------
  // What the analysis promises

  /** Every status other than "OK" comes without records; "Kein Nennstrom"
      exactly for a rated current of 0. With "OK", the records are those of
      the (phase, target) steps that emit, at most one per phase and target
      level, and each carries the file's metadata. */
  lemma AnalysisRecords(m: Matching, meta: FileNames.Metadata, file: Option<seq<Column>>, std: seq<real> -> real)
    ensures Analysis(m, meta, file, std).1 != Ok ==> Analysis(m, meta, file, std).0 == []
    ensures Analysis(m, meta, file, std).1 == NoRatedCurrent <==> meta.ratedCurrent == 0
    ensures Analysis(m, meta, file, std).1 == Ok ==> FileRecords(Analysis(m, meta, file, std).0, meta)
  {
    if meta.ratedCurrent > 0 && file.Some? {
      var table := RawDevices.CleanHeaders(file.value);
      var valCols := RawDevices.ValueColumns(Names(table));
      if |valCols| >= 2 && ChosenPair(valCols).Some? {
        var s := Setting(m, meta, table, valCols, ChosenPair(valCols).value);
        var g := Results(Steps(s, std), Grid(Phases, TargetLevels));
        assert Analysis(m, meta, file, std) == if g.Raised? then ([], Failed) else (g.records, Ok);
        StepsKeyedAndStamped(s, std);
        GridRecords(Steps(s, std), meta);
      }
    }
  }
}

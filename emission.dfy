/** The records `analyze_sorted_file` emits: for every load level, phase and
    device with data, one comparison against the reference device and one
    against the nominal current. Mean is the arithmetic mean; the standard
    deviation is passed in as a function. */
module Emission {
  import opened Text
  import opened Domain
  import opened FileNames
  import opened Channels

  /** `comparison_mode`. */
  datatype Mode = DeviceRef | NominalRef

  /** One row of the measurement store. */
  datatype Record = Record(
    wandlerKey: string, folder: string, phase: string, targetLoad: nat, ratedCurrent: nat,
    dutMean: real, dutStd: real, dutName: string, rawFile: string,
    refMean: real, refStd: real, refName: string, mode: Mode)

  /** `create_db.py` renames placeholder devices and knows "powermeter";
      `daten_aggregator.py` does neither. */
  datatype Generation = Current | Legacy

  function Keywords(g: Generation): seq<string>
  {
    if g == Current then ReferenceKeywords else LegacyReferenceKeywords
  }

  /** Device names that stand for "the device under test". */
  const Placeholders: seq<string> := ["pruefling", "prüfling", "dut", "messwandler"]

  /** `final_dut_name`. */
  function DutName(g: Generation, device: string, manufacturer: string): string
  {
    if g == Current && Lower(device) in Placeholders then manufacturer + " (Prüfling)" else device
  }

  /** `nennstrom * (level / 100.0)`. */
  function NominalCurrent(ratedCurrent: nat, level: nat): real
  {
    (ratedCurrent as real) * ((level as real) / 100.0)
  }

  lemma NominalPositive(ratedCurrent: nat, level: nat)
    requires level > 0
    ensures NominalCurrent(ratedCurrent, level) > 0.0 <==> ratedCurrent > 0
  {
  }

  /** What every record of one level and phase shares. */
  datatype Group = Group(
    g: Generation, meta: Metadata, level: nat, phase: string,
    refName: string, refMean: real, refStd: real)

  /** The records for one device with its (coerced) cells. */
  function DeviceRecords(grp: Group, device: string, cells: seq<Option<real>>, std: seq<real> -> real): seq<Record>
  {
    var vals := DropMissing(cells);
    if |vals| == 0 then []
    else
      var m := grp.meta;
      var dut := DutName(grp.g, device, m.manufacturer);
      var nominal := NominalCurrent(m.ratedCurrent, grp.level);
      (if device != grp.refName && grp.refMean > 0.0 then
        [Record(m.wandlerKey, m.folder, grp.phase, grp.level, m.ratedCurrent, Mean(vals), std(vals), dut, m.filename,
                grp.refMean, grp.refStd, grp.refName, DeviceRef)]
       else []) +
      (if nominal > 0.0 then
        [Record(m.wandlerKey, m.folder, grp.phase, grp.level, m.ratedCurrent, Mean(vals), std(vals), dut, m.filename,
                nominal, 0.0, "Nennwert", NominalRef)]
       else [])
  }

  /** The records for the devices of `devices_map`, in map order. */
  function EntriesRecords(grp: Group, entries: seq<Entry>, table: seq<Column>, std: seq<real> -> real): seq<Record>
  {
    if |entries| == 0 then []
    else
      var last := entries[|entries| - 1];
      EntriesRecords(grp, entries[..|entries| - 1], table, std) + DeviceRecords(grp, last.device, Cells(table, last.column), std)
  }

  /** The devices map of one level and phase of a table with stripped names. */
  function GroupMap(table: seq<Column>, level: nat, phase: string): (m: seq<Entry>)
    ensures UniqueKeys(m)
  {
    var prefix := GroupPrefix(level, phase);
    DevicesMap(GroupColumns(Names(table), prefix), prefix)
  }

  /** The context of one level and phase: reference device and its statistics
      (0 when its series is empty). */
  function GroupOf(g: Generation, meta: Metadata, table: seq<Column>, level: nat, phase: string, m: seq<Entry>, std: seq<real> -> real): Group
    requires |m| > 0
  {
    var refName := Reference(Keys(m), Keywords(g));
    ReferenceIsDevice(Keys(m), Keywords(g));
    var refCol := m[IndexOf(m, refName).value].column;
    var refVals := DropMissing(Cells(table, refCol));
    var refMean := if |refVals| == 0 then 0.0 else Mean(refVals);
    var refStd := if |refVals| == 0 then 0.0 else std(refVals);
    Group(g, meta, level, phase, refName, refMean, refStd)
  }

  /** All records of one level and phase; a group without devices emits nothing. */
  function GroupRecords(g: Generation, meta: Metadata, table: seq<Column>, level: nat, phase: string, std: seq<real> -> real): seq<Record>
  {
    var m := GroupMap(table, level, phase);
    if |m| == 0 then [] else EntriesRecords(GroupOf(g, meta, table, level, phase, m, std), m, table, std)
  }

  /** The records of the phases `phases` of one level, in order. */
  function PhasesRecords(g: Generation, meta: Metadata, table: seq<Column>, level: nat, phases: seq<string>, std: seq<real> -> real): seq<Record>
  {
    if |phases| == 0 then []
    else PhasesRecords(g, meta, table, level, phases[..|phases| - 1], std) + GroupRecords(g, meta, table, level, phases[|phases| - 1], std)
  }

  lemma PhasesRecordsStep(g: Generation, meta: Metadata, table: seq<Column>, level: nat, phases: seq<string>, p: nat, std: seq<real> -> real)
    requires p < |phases|
    ensures PhasesRecords(g, meta, table, level, phases[..p + 1], std) ==
      PhasesRecords(g, meta, table, level, phases[..p], std) + GroupRecords(g, meta, table, level, phases[p], std)
  {
    assert phases[..p + 1][..p] == phases[..p];
  }

  /** The records of the levels `levels`, each with all phases. */
  function LevelsRecords(g: Generation, meta: Metadata, table: seq<Column>, levels: seq<nat>, std: seq<real> -> real): seq<Record>
  {
    if |levels| == 0 then []
    else LevelsRecords(g, meta, table, levels[..|levels| - 1], std) + PhasesRecords(g, meta, table, levels[|levels| - 1], Phases, std)
  }

  lemma LevelsRecordsStep(g: Generation, meta: Metadata, table: seq<Column>, levels: seq<nat>, l: nat, std: seq<real> -> real)
    requires l < |levels|
    ensures LevelsRecords(g, meta, table, levels[..l + 1], std) ==
      LevelsRecords(g, meta, table, levels[..l], std) + PhasesRecords(g, meta, table, levels[l], Phases, std)
  {
    assert levels[..l + 1][..l] == levels[..l];
  }

  /** Outcome of reading one sorted file. */
  datatype Status = Ok | ReadError | NoCurrentData

  /** The status string `analyze_sorted_file` reports. */
  function StatusText(s: Status): string
  {
    match s
    case Ok => "OK"
    case ReadError => "Lesefehler"
    case NoCurrentData => "Keine Strom-Daten gefunden"
  }

  predicate HasValueColumn(table: seq<Column>)
  {
    exists i :: 0 <= i < |table| && Contains(table[i].name, "_I")
  }

  /** `analyze_sorted_file`: `None` stands for a file that cannot be read. */
  method AnalyzeSortedFile(g: Generation, file: Option<seq<Column>>, meta: Metadata, std: seq<real> -> real)
    returns (records: seq<Record>, status: Status)
    ensures file.None? ==> records == [] && status == ReadError
    ensures file.Some? && !HasValueColumn(StripNames(file.value)) ==> records == [] && status == NoCurrentData
    ensures file.Some? && HasValueColumn(StripNames(file.value)) ==>
      status == Ok && records == LevelsRecords(g, meta, StripNames(file.value), TargetLevels, std)
  {
    if file.None? {
      return [], ReadError;
    }
    var table := StripNames(file.value);
    var hasValue := FindValueColumn(table);
    if !hasValue {
      return [], NoCurrentData;
    }
    records := AnalyzeLevels(g, meta, table, TargetLevels, std);
    status := Ok;
  }

  /** The loop over the load levels. */
  method AnalyzeLevels(g: Generation, meta: Metadata, table: seq<Column>, levels: seq<nat>, std: seq<real> -> real)
    returns (records: seq<Record>)
    ensures records == LevelsRecords(g, meta, table, levels, std)
  {
    records := [];
    var l := 0;
    while l < |levels|
      invariant 0 <= l <= |levels|
      invariant records == LevelsRecords(g, meta, table, levels[..l], std)
    {
      var levelRecords := AnalyzeLevel(g, meta, table, levels[l], std);
      LevelsRecordsStep(g, meta, table, levels, l, std);
      records := records + levelRecords;
      l := l + 1;
    }
    assert levels[..l] == levels;
  }

  /** `value_cols = [c for c in df.columns if "_I" in c]; if not value_cols: ...` */
  method FindValueColumn(table: seq<Column>) returns (found: bool)
    ensures found == HasValueColumn(table)
  {
    found := false;
    var c := 0;
    while c < |table| && !found
      invariant 0 <= c <= |table|
      invariant found <==> HasValueColumn(table[..c])
    {
      found := Contains(table[c].name, "_I");
      assert table[..c + 1][..c] == table[..c];
      assert found ==> table[..c + 1][c] == table[c];
      c := c + 1;
    }
    if found {
      var i :| 0 <= i < c && Contains(table[..c][i].name, "_I");
      assert table[i] == table[..c][i];
    } else {
      assert table[..c] == table;
    }
  }

  /** The phases of one level. */
  method AnalyzeLevel(g: Generation, meta: Metadata, table: seq<Column>, level: nat, std: seq<real> -> real)
    returns (records: seq<Record>)
    ensures records == PhasesRecords(g, meta, table, level, Phases, std)
  {
    records := AnalyzePhases(g, meta, table, level, Phases, std);
  }

  method AnalyzePhases(g: Generation, meta: Metadata, table: seq<Column>, level: nat, phases: seq<string>, std: seq<real> -> real)
    returns (records: seq<Record>)
    ensures records == PhasesRecords(g, meta, table, level, phases, std)
  {
    records := [];
    var p := 0;
    while p < |phases|
      invariant 0 <= p <= |phases|
      invariant records == PhasesRecords(g, meta, table, level, phases[..p], std)
    {
      var groupRecords := AnalyzeGroup(g, meta, table, level, phases[p], std);
      PhasesRecordsStep(g, meta, table, level, phases, p, std);
      records := records + groupRecords;
      p := p + 1;
    }
    assert phases[..p] == phases;
  }

  /** One level and phase: fill `devices_map`, choose the reference, emit. */
  method AnalyzeGroup(g: Generation, meta: Metadata, table: seq<Column>, level: nat, phase: string, std: seq<real> -> real)
    returns (records: seq<Record>)
    ensures records == GroupRecords(g, meta, table, level, phase, std)
  {
    var prefix := GroupPrefix(level, phase);
    var m := BuildDevicesMap(GroupColumns(Names(table), prefix), prefix);
    if |m| == 0 {
      return [];
    }
    var refName := SelectReference(m, Keywords(g));
    ReferenceIsDevice(Keys(m), Keywords(g));
    var refVals := DropMissing(Cells(table, m[IndexOf(m, refName).value].column));
    var refMean := if |refVals| == 0 then 0.0 else Mean(refVals);
    var refStd := if |refVals| == 0 then 0.0 else std(refVals);
    var grp := Group(g, meta, level, phase, refName, refMean, refStd);
    assert grp == GroupOf(g, meta, table, level, phase, m, std);
    records := EmitEntries(grp, m, table, std);
  }

  /** `for dev_name, col in devices_map.items()`: the records of every
      device of the group, in map order. */
  method EmitEntries(grp: Group, m: seq<Entry>, table: seq<Column>, std: seq<real> -> real) returns (records: seq<Record>)
    ensures records == EntriesRecords(grp, m, table, std)
  {
    records := [];
    var i := 0;
    while i < |m|
      invariant 0 <= i <= |m|
      invariant records == EntriesRecords(grp, m[..i], table, std)
    {
      assert m[..i + 1][..i] == m[..i];
      records := records + DeviceRecords(grp, m[i].device, Cells(table, m[i].column), std);
      i := i + 1;
    }
    assert m[..i] == m;
  }

  // ---------------------------------------------------------------------
  // Emission rules

  /** What holds of every record of one file. */
  predicate WellFormed(g: Generation, meta: Metadata, r: Record)
  {
    r.wandlerKey == meta.wandlerKey && r.folder == meta.folder && r.rawFile == meta.filename &&
    r.ratedCurrent == meta.ratedCurrent && r.phase in Phases &&
    (r.mode == DeviceRef ==>
      r.refMean > 0.0 && (r.dutName != r.refName || (g == Current && r.dutName == meta.manufacturer + " (Prüfling)"))) &&
    (r.mode == NominalRef ==>
      r.refName == "Nennwert" && r.refStd == 0.0 && r.refMean == NominalCurrent(meta.ratedCurrent, r.targetLoad) && r.refMean > 0.0)
  }

  lemma DeviceRecordsWellFormed(grp: Group, device: string, cells: seq<Option<real>>, std: seq<real> -> real)
    requires grp.phase in Phases
    ensures forall r :: r in DeviceRecords(grp, device, cells, std) ==> WellFormed(grp.g, grp.meta, r) && r.targetLoad == grp.level
  {
  }

  lemma {:induction false} EntriesRecordsWellFormed(grp: Group, entries: seq<Entry>, table: seq<Column>, std: seq<real> -> real)
    requires grp.phase in Phases
    ensures forall r :: r in EntriesRecords(grp, entries, table, std) ==> WellFormed(grp.g, grp.meta, r) && r.targetLoad == grp.level
    decreases |entries|
  {
    if |entries| > 0 {
      var last := entries[|entries| - 1];
      EntriesRecordsWellFormed(grp, entries[..|entries| - 1], table, std);
      DeviceRecordsWellFormed(grp, last.device, Cells(table, last.column), std);
    }
  }

  lemma {:induction false} PhasesRecordsWellFormed(g: Generation, meta: Metadata, table: seq<Column>, level: nat, phases: seq<string>, std: seq<real> -> real)
    requires forall ph :: ph in phases ==> ph in Phases
    ensures forall r :: r in PhasesRecords(g, meta, table, level, phases, std) ==> WellFormed(g, meta, r) && r.targetLoad == level
    decreases |phases|
  {
    if |phases| > 0 {
      var ph := phases[|phases| - 1];
      PhasesRecordsWellFormed(g, meta, table, level, phases[..|phases| - 1], std);
      var m := GroupMap(table, level, ph);
      if |m| > 0 {
        EntriesRecordsWellFormed(GroupOf(g, meta, table, level, ph, m, std), m, table, std);
      }
    }
  }

  lemma {:induction false} LevelsRecordsWellFormed(g: Generation, meta: Metadata, table: seq<Column>, levels: seq<nat>, std: seq<real> -> real)
    ensures forall r :: r in LevelsRecords(g, meta, table, levels, std) ==> WellFormed(g, meta, r) && r.targetLoad in levels
    decreases |levels|
  {
    if |levels| > 0 {
      var init := levels[..|levels| - 1];
      LevelsRecordsWellFormed(g, meta, table, init, std);
      PhasesRecordsWellFormed(g, meta, table, levels[|levels| - 1], Phases, std);
      assert forall l :: l in init ==> l in levels;
    }
  }

  /** Every record of a file carries the file's identity, a `device_ref`
      record never compares a device with itself (in `create_db.py` a
      renamed placeholder may coincide with a reference of that very name)
      and a `nominal_ref` record compares with the positive nominal current
      at standard deviation 0. */
  lemma FileRecordsWellFormed(g: Generation, file: seq<Column>, meta: Metadata, std: seq<real> -> real)
    ensures forall r :: r in LevelsRecords(g, meta, StripNames(file), TargetLevels, std) ==>
      WellFormed(g, meta, r) && r.targetLoad in TargetLevels
    ensures g == Legacy ==> forall r :: r in LevelsRecords(g, meta, StripNames(file), TargetLevels, std) && r.mode == DeviceRef ==>
      r.dutName != r.refName
  {
    LevelsRecordsWellFormed(g, meta, StripNames(file), TargetLevels, std);
  }

  // ---------------------------------------------------------------------
  // How many records a group emits

  function CountMode(rs: seq<Record>, mode: Mode): nat
  {
    if |rs| == 0 then 0 else CountMode(rs[..|rs| - 1], mode) + (if rs[|rs| - 1].mode == mode then 1 else 0)
  }

  lemma {:induction false} CountModeAppend(a: seq<Record>, b: seq<Record>, mode: Mode)
    ensures CountMode(a + b, mode) == CountMode(a, mode) + CountMode(b, mode)
    decreases |b|
  {
    if |b| == 0 {
      assert a + b == a;
    } else {
      assert (a + b)[..|a + b| - 1] == a + b[..|b| - 1];
      CountModeAppend(a, b[..|b| - 1], mode);
    }
  }

  predicate HasData(table: seq<Column>, e: Entry) { |DropMissing(Cells(table, e.column))| > 0 }

  /** Devices of the map whose series has at least one number. */
  function WithData(entries: seq<Entry>, table: seq<Column>): nat
  {
    if |entries| == 0 then 0
    else WithData(entries[..|entries| - 1], table) + (if HasData(table, entries[|entries| - 1]) then 1 else 0)
  }

  /** The same, leaving out the device named `reference`. */
  function OthersWithData(entries: seq<Entry>, table: seq<Column>, reference: string): nat
  {
    if |entries| == 0 then 0
    else
      var e := entries[|entries| - 1];
      OthersWithData(entries[..|entries| - 1], table, reference) + (if HasData(table, e) && e.device != reference then 1 else 0)
  }

  lemma {:induction false} EntriesCounts(grp: Group, entries: seq<Entry>, table: seq<Column>, std: seq<real> -> real)
    ensures CountMode(EntriesRecords(grp, entries, table, std), NominalRef) ==
      if NominalCurrent(grp.meta.ratedCurrent, grp.level) > 0.0 then WithData(entries, table) else 0
    ensures CountMode(EntriesRecords(grp, entries, table, std), DeviceRef) ==
      if grp.refMean > 0.0 then OthersWithData(entries, table, grp.refName) else 0
    decreases |entries|
  {
    if |entries| > 0 {
      var init := entries[..|entries| - 1];
      var last := entries[|entries| - 1];
      var dr := DeviceRecords(grp, last.device, Cells(table, last.column), std);
      EntriesCounts(grp, init, table, std);
      DeviceCounts(grp, last.device, Cells(table, last.column), std);
      CountModeAppend(EntriesRecords(grp, init, table, std), dr, NominalRef);
      CountModeAppend(EntriesRecords(grp, init, table, std), dr, DeviceRef);
    }
  }

  lemma DeviceCounts(grp: Group, device: string, cells: seq<Option<real>>, std: seq<real> -> real)
    ensures var dr := DeviceRecords(grp, device, cells, std);
      var data := |DropMissing(cells)| > 0;
      CountMode(dr, NominalRef) == (if data && NominalCurrent(grp.meta.ratedCurrent, grp.level) > 0.0 then 1 else 0) &&
      CountMode(dr, DeviceRef) == (if data && grp.refMean > 0.0 && device != grp.refName then 1 else 0)
  {
    var dr := DeviceRecords(grp, device, cells, std);
    if |DropMissing(cells)| > 0 {
      var vals := DropMissing(cells);
      var m := grp.meta;
      var dut := DutName(grp.g, device, m.manufacturer);
      var nominal := NominalCurrent(m.ratedCurrent, grp.level);
      var a := if device != grp.refName && grp.refMean > 0.0 then
        [Record(m.wandlerKey, m.folder, grp.phase, grp.level, m.ratedCurrent, Mean(vals), std(vals), dut, m.filename,
                grp.refMean, grp.refStd, grp.refName, DeviceRef)]
       else [];
      var b := if nominal > 0.0 then
        [Record(m.wandlerKey, m.folder, grp.phase, grp.level, m.ratedCurrent, Mean(vals), std(vals), dut, m.filename,
                nominal, 0.0, "Nennwert", NominalRef)]
       else [];
      assert dr == a + b;
      CountModeAppend(a, b, NominalRef);
      CountModeAppend(a, b, DeviceRef);
      assert |a| == 1 ==> a[..0] == [];
      assert |b| == 1 ==> b[..0] == [];
    }
  }

  /** With unique keys, leaving out the reference removes exactly one
      device with data, if the reference has data. */
  lemma {:induction false} OthersWithDataOfReference(entries: seq<Entry>, table: seq<Column>, i: nat)
    requires UniqueKeys(entries) && i < |entries| && HasData(table, entries[i])
    ensures OthersWithData(entries, table, entries[i].device) + 1 == WithData(entries, table)
    decreases |entries|
  {
    var init := entries[..|entries| - 1];
    if i < |entries| - 1 {
      assert init[i] == entries[i];
      OthersWithDataOfReference(init, table, i);
    } else {
      OthersAbsent(init, table, entries[i].device);
    }
  }

  lemma {:induction false} OthersAbsent(entries: seq<Entry>, table: seq<Column>, reference: string)
    requires forall e :: e in entries ==> e.device != reference
    ensures OthersWithData(entries, table, reference) == WithData(entries, table)
    decreases |entries|
  {
    if |entries| > 0 {
      OthersAbsent(entries[..|entries| - 1], table, reference);
    }
  }

  /** One level and phase: every device with data gets a `nominal_ref`
      record when the nominal current is positive (the reference included),
      and when the reference's mean is positive every other device with
      data gets exactly one `device_ref` record. */
  lemma GroupCounts(g: Generation, meta: Metadata, table: seq<Column>, level: nat, phase: string, std: seq<real> -> real)
    requires |GroupMap(table, level, phase)| > 0
    ensures var m := GroupMap(table, level, phase);
      var grp := GroupOf(g, meta, table, level, phase, m, std);
      var rs := GroupRecords(g, meta, table, level, phase, std);
      CountMode(rs, NominalRef) == (if NominalCurrent(meta.ratedCurrent, level) > 0.0 then WithData(m, table) else 0) &&
      CountMode(rs, DeviceRef) == (if grp.refMean > 0.0 then WithData(m, table) - 1 else 0)
  {
    var m := GroupMap(table, level, phase);
    var grp := GroupOf(g, meta, table, level, phase, m, std);
    EntriesCounts(grp, m, table, std);
    if grp.refMean > 0.0 {
      ReferenceIsDevice(Keys(m), Keywords(g));
      var i := IndexOf(m, grp.refName).value;
      OthersWithDataOfReference(m, table, i);
    }
  }

  /** A level and phase whose devices all have empty series emits nothing. */
  lemma {:induction false} EmptySeriesEmitNothing(grp: Group, entries: seq<Entry>, table: seq<Column>, std: seq<real> -> real)
    requires forall e :: e in entries ==> !HasData(table, e)
    ensures EntriesRecords(grp, entries, table, std) == []
    decreases |entries|
  {
    if |entries| > 0 {
      var init := entries[..|entries| - 1];
      assert forall e :: e in init ==> e in entries;
      EmptySeriesEmitNothing(grp, init, table, std);
      assert !HasData(table, entries[|entries| - 1]);
    }
  }
}

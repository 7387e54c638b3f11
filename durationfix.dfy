/** `main` of `fix_duration_600.py`: every saved configuration whose raw
    file is known gets windows of at most 560 samples ending where the old
    ones ended, and its sorted file is written anew from the raw file,
    phase by phase and device by device, in the old column format, through
    a dict turned into a frame at the end. */
module DurationFix {
  import opened Text
  import opened Ordering
  import opened Domain
  import opened Windows
  import opened Frames
  import opened SortedFile
  import RawDevices
  import Writers

  /** The saved windows of one file: `str(level)` to `[start, end]`. */
  type Ranges = map<string, Window>

  /** `saved_configs.json`: the key of a file (its name without ".csv") to
      its saved windows. */
  type Config = map<string, Ranges>

  /** The window of every target level whose key the ranges hold. */
  function LevelWindows(ranges: Ranges): (w: map<nat, Window>)
    ensures forall l :: l in TargetLevels ==>
      LevelWindow(w, l) == if NatToString(l) in ranges then ranges[NatToString(l)] else Window(0, 0)
  {
    map l | l in TargetLevels && NatToString(l) in ranges :: ranges[NatToString(l)]
  }

  // ---------------------------------------------------------------------
  // The configuration

  /** `config_data` after the run: an entry whose raw file was found has its
      windows recomputed (even when the file then cannot be read); every
      other entry is left as it was. */
  function FixedConfig(config: Config, rawFiles: map<string, string>): (r: Config)
  {
    map k | k in config :: if k in rawFiles then RecomputedRanges(config[k]) else config[k]
  }

  /** The run keeps every key, leaves the entries without a raw file alone
      and gives every level of the others a window of 560 samples ending at
      the saved end, or none when that end is at most 560. */
  lemma FixedConfigEntries(config: Config, rawFiles: map<string, string>, k: string, level: string)
    requires k in config
    ensures FixedConfig(config, rawFiles).Keys == config.Keys
    ensures k !in rawFiles ==> FixedConfig(config, rawFiles)[k] == config[k]
    ensures k in rawFiles ==> FixedConfig(config, rawFiles)[k].Keys == config[k].Keys
    ensures k in rawFiles && level in config[k] ==>
      var w, w' := config[k][level], FixedConfig(config, rawFiles)[k][level];
      w'.end == w.end && (Exported(w') <==> w.end > FixedLength) &&
      (Exported(w') ==> w'.end - w'.start == FixedLength)
  {
    if k in rawFiles && level in config[k] {
      RecomputedExported(config[k][level]);
    }
  }

  /** Running the fix a second time changes no configuration. */
  lemma FixedConfigIdempotent(config: Config, rawFiles: map<string, string>)
    ensures FixedConfig(FixedConfig(config, rawFiles), rawFiles) == FixedConfig(config, rawFiles)
  {
    var once := FixedConfig(config, rawFiles);
    forall k | k in once && k in rawFiles
      ensures RecomputedRanges(once[k]) == once[k]
    {
      forall l | l in once[k] ensures Recomputed(once[k][l]) == once[k][l] {
        RecomputedIdempotent(config[k][l]);
      }
    }
  }

  // ---------------------------------------------------------------------
  // The sorted file of one raw file

  /** The devices of the raw file, read from its first rows. */
  function PreviewDevices(header: seq<string>): seq<string>
  {
    RawDevices.IdentifiedDevices(header)
  }

  /** `full_data` as `load_raw_data` fills it: every device, every phase. */
  function FullData(raw: seq<Column>, devices: seq<string>): Data
  {
    RawDevices.Data(RawDevices.SeriesLookup(RawDevices.CleanHeaders(raw)), devices)
  }

  /** `sorted_devs`. */
  function ExportOrder(devices: seq<string>): seq<string>
  {
    RawDevices.DeviceOrder(devices, RawDevices.FixedReference(devices))
  }

  /** Every column the export loop stores, in order. */
  function FixColumns(ranges: Ranges, data: Data, order: seq<string>): seq<Column>
  {
    Export(KindFirst, data, LevelWindows(RecomputedRanges(ranges)), Slots(ByPhase, TargetLevels, order))
  }

  /** The sorted file written for one configuration whose raw file was found:
      `None` when the preview or the full read fails, or when the raw file
      has no devices (`if not full_data`). */
  function SortedOutput(ranges: Ranges, header: Option<seq<string>>, raw: Option<seq<Column>>): Option<seq<Column>>
  {
    if header.None? then None
    else
      var devices := PreviewDevices(header.value);
      if raw.None? || |devices| == 0 then None
      else Some(Table(FixColumns(ranges, FullData(raw.value, devices), ExportOrder(devices))))
  }

  /** `full_data[dev][phase]` never raises: the devices exported are the
      devices loaded, each with every phase. */
  lemma OrderCovered(raw: seq<Column>, devices: seq<string>)
    requires StrictlySorted(devices)
    ensures Writers.Covers(FullData(raw, devices), ExportOrder(devices))
    ensures Distinct(ExportOrder(devices))
    ensures multiset(ExportOrder(devices)) == multiset(devices)
  {
    var order := ExportOrder(devices);
    var look := RawDevices.SeriesLookup(RawDevices.CleanHeaders(raw));
    assert Distinct(devices) by {
      forall i, j | 0 <= i < j < |devices| ensures devices[i] != devices[j] {
        LessIrreflexive(devices[i]);
      }
    }
    RawDevices.DeviceOrderPermutes(devices, RawDevices.FixedReference(devices));
    DistinctByMultiset(order, devices);
    forall d | d in order ensures Writers.HasPhases(FullData(raw, devices), d) {
      assert d in multiset(order);
      assert d in devices;
      assert FullData(raw, devices)[d] == RawDevices.PhaseMap(look, d);
    }
  }

  /** `not full_data` holds exactly when there are no devices. */
  lemma NothingLoaded(data: Data, devices: seq<string>)
    requires data.Keys == set d | d in devices
    ensures data == map[] <==> |devices| == 0
  {
    if |devices| > 0 {
      assert devices[0] in data;
    }
  }

  // ---------------------------------------------------------------------
  // The export loops

  lemma DeviceSlotsStep(visited: seq<Slot>, done: seq<Slot>, level: nat, phase: string, order: seq<string>, j: nat)
    requires j < |order|
    requires visited == done + DeviceSlots(level, phase, order[..j])
    ensures visited + [Slot(level, phase, order[j])] == done + DeviceSlots(level, phase, order[..j + 1])
  {
    assert DeviceSlots(level, phase, order[..j + 1]) == DeviceSlots(level, phase, order[..j]) + [Slot(level, phase, order[j])];
  }

  /** `for dev in sorted_devs` for one phase of an exported level. */
  method WriteDevices(data: Data, windows: map<nat, Window>, level: nat, phase: string, order: seq<string>,
                      dict: seq<Column>, ghost done: seq<Slot>) returns (out: seq<Column>)
    requires Exported(LevelWindow(windows, level)) && phase in Phases && Writers.Covers(data, order)
    requires dict == DictOf(Export(KindFirst, data, windows, done))
    ensures out == DictOf(Export(KindFirst, data, windows, done + DeviceSlots(level, phase, order)))
  {
    out := dict;
    ghost var visited := done;
    var j := 0;
    assert order[..0] == [];
    while j < |order|
      invariant j <= |order|
      invariant visited == done + DeviceSlots(level, phase, order[..j])
      invariant out == DictOf(Export(KindFirst, data, windows, visited))
    {
      var device := order[j];
      assert Writers.HasPhases(data, device);
      var vals := data[device][phase];
      out := Writers.WriteSlot(KindFirst, true, data, windows, Slot(level, phase, device), vals, out, visited);
      DeviceSlotsStep(visited, done, level, phase, order, j);
      visited := visited + [Slot(level, phase, device)];
      j := j + 1;
    }
    assert order[..j] == order;
  }

  lemma PhaseMajorSnoc(level: nat, phases: seq<string>, order: seq<string>, k: nat)
    requires k < |phases|
    ensures PhaseMajor(level, phases[..k + 1], order) == PhaseMajor(level, phases[..k], order) + DeviceSlots(level, phases[k], order)
  {
    assert phases[..k + 1][..k] == phases[..k];
  }

  lemma PhaseMajorStep(visited: seq<Slot>, done: seq<Slot>, level: nat, phases: seq<string>, order: seq<string>, k: nat)
    requires k < |phases|
    requires visited == done + PhaseMajor(level, phases[..k], order)
    ensures visited + DeviceSlots(level, phases[k], order) == done + PhaseMajor(level, phases[..k + 1], order)
  {
    PhaseMajorSnoc(level, phases, order, k);
    SlotsAssociative(done, PhaseMajor(level, phases[..k], order), DeviceSlots(level, phases[k], order));
  }

  lemma SlotsAssociative(x: seq<Slot>, y: seq<Slot>, z: seq<Slot>)
    ensures x + y + z == x + (y + z)
  {
  }

  /** `for phase in PHASES` inside an exported level. */
  method WritePhases(data: Data, windows: map<nat, Window>, level: nat, order: seq<string>,
                     dict: seq<Column>, ghost done: seq<Slot>) returns (out: seq<Column>)
    requires Exported(LevelWindow(windows, level)) && Writers.Covers(data, order)
    requires dict == DictOf(Export(KindFirst, data, windows, done))
    ensures out == DictOf(Export(KindFirst, data, windows, done + PhaseMajor(level, Phases, order)))
  {
    out := dict;
    ghost var visited := done;
    var k := 0;
    assert Phases[..0] == [];
    while k < |Phases|
      invariant k <= |Phases|
      invariant visited == done + PhaseMajor(level, Phases[..k], order)
      invariant out == DictOf(Export(KindFirst, data, windows, visited))
    {
      var phase := Phases[k];
      out := WriteDevices(data, windows, level, phase, order, out, visited);
      PhaseMajorStep(visited, done, level, Phases, order, k);
      visited := visited + DeviceSlots(level, phase, order);
      k := k + 1;
    }
    assert Phases[..k] == Phases;
  }

  /** A level without an exported window adds no column. */
  lemma SkipLevel(data: Data, windows: map<nat, Window>, done: seq<Slot>, level: nat, order: seq<string>)
    requires !Exported(LevelWindow(windows, level))
    ensures Export(KindFirst, data, windows, done + PhaseMajor(level, Phases, order)) == Export(KindFirst, data, windows, done)
  {
    ExportAppend(KindFirst, data, windows, done, PhaseMajor(level, Phases, order));
    ExportSkipped(KindFirst, data, windows, PhaseMajor(level, Phases, order), level);
    assert Export(KindFirst, data, windows, done) + [] == Export(KindFirst, data, windows, done);
  }

  lemma LevelSlotsStep(visited: seq<Slot>, order: seq<string>, i: nat)
    requires i < |TargetLevels|
    requires visited == Slots(ByPhase, TargetLevels[..i], order)
    ensures visited + PhaseMajor(TargetLevels[i], Phases, order) == Slots(ByPhase, TargetLevels[..i + 1], order)
  {
    assert TargetLevels[..i + 1][..i] == TargetLevels[..i];
  }

  /** `for lvl_int in TARGET_LEVELS`: a level is exported only when its key
      is among the new ranges with `s > 0 and e > s`. */
  method WriteLevels(data: Data, newRanges: Ranges, order: seq<string>) returns (dict: seq<Column>)
    requires Writers.Covers(data, order)
    ensures dict == DictOf(Export(KindFirst, data, LevelWindows(newRanges), Slots(ByPhase, TargetLevels, order)))
  {
    var windows := LevelWindows(newRanges);
    dict := [];
    ghost var visited: seq<Slot> := [];
    var i := 0;
    assert TargetLevels[..0] == [];
    while i < |TargetLevels|
      invariant i <= |TargetLevels|
      invariant visited == Slots(ByPhase, TargetLevels[..i], order)
      invariant dict == DictOf(Export(KindFirst, data, windows, visited))
    {
      var level := TargetLevels[i];
      var key := NatToString(level);
      assert level in TargetLevels;
      if key in newRanges && newRanges[key].start > 0 && newRanges[key].end > newRanges[key].start {
        dict := WritePhases(data, windows, level, order, dict, visited);
      } else {
        SkipLevel(data, windows, visited, level, order);
      }
      LevelSlotsStep(visited, order, i);
      visited := visited + PhaseMajor(level, Phases, order);
      i := i + 1;
    }
    assert TargetLevels[..i] == TargetLevels;
  }

  /** Steps A and B for one configuration whose raw file was found at
      `path`: the new windows, and the sorted file if one is written.
      `preview` and `read` stand for `try_read_csv` with and without
      `nrows=5`. */
  method FixFile(ranges: Ranges, path: string,
                 preview: string -> Option<seq<string>>, read: string -> Option<seq<Column>>)
      returns (newRanges: Ranges, file: Option<seq<Column>>)
    ensures newRanges == RecomputedRanges(ranges)
    ensures file == SortedOutput(ranges, preview(path), read(path))
  {
    newRanges := RecomputeRanges(ranges);
    var header := preview(path);
    if header.None? {
      return newRanges, None;
    }
    var devices := RawDevices.IdentifyDevices(header.value);
    var raw := read(path);
    if raw.None? {
      return newRanges, None;
    }
    var table := RawDevices.CleanHeaders(raw.value);
    var fullData, _ := RawDevices.LoadDevices(table, RawDevices.ValueColumns(Names(table)), devices, RawDevices.SeriesLookup(table));
    NothingLoaded(fullData, devices);
    if fullData == map[] {
      return newRanges, None;
    }
    var reference := RawDevices.FixReference(devices);
    var order := RawDevices.DeviceOrder(devices, reference);
    OrderCovered(raw.value, devices);
    var dict := WriteLevels(fullData, newRanges, order);
    file := Some(DictFrame(dict));
    FileWritten(ranges, header.value, raw.value, dict);
  }

  /** The file `FixFile` writes once the devices are known. */
  lemma FileWritten(ranges: Ranges, header: seq<string>, raw: seq<Column>, dict: seq<Column>)
    requires |PreviewDevices(header)| > 0
    requires var devices := PreviewDevices(header);
      dict == DictOf(FixColumns(ranges, FullData(raw, devices), ExportOrder(devices)))
    ensures SortedOutput(ranges, Some(header), Some(raw)) == Some(DictFrame(dict))
  {
  }

  // ---------------------------------------------------------------------
  // The whole run

  /** What the run writes for key `k`: nothing for a key that is not
      configured or has no raw file. */
  function Result(config: Config, rawFiles: map<string, string>,
                  preview: string -> Option<seq<string>>, read: string -> Option<seq<Column>>): string -> Option<seq<Column>>
  {
    k => if k in config && k in rawFiles then SortedOutput(config[k], preview(rawFiles[k]), read(rawFiles[k])) else None
  }

  /** The sorted file written for each key of `keys`. */
  function Outputs(keys: set<string>, result: string -> Option<seq<Column>>): (r: map<string, seq<Column>>)
    ensures forall k :: k in r <==> k in keys && result(k).Some?
    ensures forall k :: k in r ==> r[k] == result(k).value
  {
    map k | k in keys && result(k).Some? :: result(k).value
  }

  /** `main` after the configuration has been loaded: the updated
      configuration, the sorted file written per key, and `files_processed`.
      `rawFiles` is `raw_files_map`. The keys are visited in some order;
      each writes only its own entry and its own file. */
  method Run(config: Config, rawFiles: map<string, string>,
             preview: string -> Option<seq<string>>, read: string -> Option<seq<Column>>)
      returns (config': Config, written: map<string, seq<Column>>, processed: nat)
    ensures config' == FixedConfig(config, rawFiles)
    ensures written == Outputs(config.Keys, Result(config, rawFiles, preview, read))
    ensures processed == |written|
  {
    ghost var result := Result(config, rawFiles, preview, read);
    config' := config;
    written := map[];
    processed := 0;
    var todo := config.Keys;
    while todo != {}
      invariant todo <= config.Keys
      invariant config' == Progress(config, rawFiles, todo)
      invariant written == Outputs(config.Keys - todo, result)
      invariant processed == |written|
      decreases todo
    {
      var key :| key in todo;
      config', written, processed := Visit(config, rawFiles, preview, read, result, todo, key, config', written, processed);
      todo := todo - {key};
    }
    ProgressDone(config, rawFiles);
    assert config.Keys - todo == config.Keys;
  }

  /** One pass of the loop over `config_data.items()`. */
  method Visit(config: Config, rawFiles: map<string, string>,
               preview: string -> Option<seq<string>>, read: string -> Option<seq<Column>>,
               ghost result: string -> Option<seq<Column>>, ghost todo: set<string>, key: string,
               config': Config, written: map<string, seq<Column>>, processed: nat)
      returns (config'': Config, written': map<string, seq<Column>>, processed': nat)
    requires result == Result(config, rawFiles, preview, read)
    requires key in todo && todo <= config.Keys
    requires config' == Progress(config, rawFiles, todo)
    requires written == Outputs(config.Keys - todo, result) && processed == |written|
    ensures config'' == Progress(config, rawFiles, todo - {key})
    ensures written' == Outputs(config.Keys - (todo - {key}), result) && processed' == |written'|
  {
    ghost var before := config.Keys - todo;
    OutputsStep(before, key, result);
    ProgressStep(config, rawFiles, todo, key);
    assert config.Keys - (todo - {key}) == before + {key};
    config'', written', processed' := config', written, processed;
    if key in rawFiles {
      var newRanges, file := FixFile(config[key], rawFiles[key], preview, read);
      assert file == result(key);
      config'' := config'[key := newRanges];
      if file.Some? {
        written' := written[key := file.value];
        processed' := processed + 1;
      }
    } else {
      assert result(key) == None;
    }
  }

  /** `config_data` while the keys in `todo` are still to be visited. */
  function Progress(config: Config, rawFiles: map<string, string>, todo: set<string>): Config
  {
    map k | k in config :: if k in rawFiles && k !in todo then RecomputedRanges(config[k]) else config[k]
  }

  lemma ProgressStep(config: Config, rawFiles: map<string, string>, todo: set<string>, key: string)
    requires key in todo && todo <= config.Keys
    ensures Progress(config, rawFiles, todo - {key}) ==
      if key in rawFiles then Progress(config, rawFiles, todo)[key := RecomputedRanges(config[key])]
      else Progress(config, rawFiles, todo)
  {
  }

  lemma ProgressDone(config: Config, rawFiles: map<string, string>)
    ensures Progress(config, rawFiles, {}) == FixedConfig(config, rawFiles)
    ensures Progress(config, rawFiles, config.Keys) == config
  {
  }

  /** Visiting one more key adds its file, if one is written, and nothing else. */
  lemma OutputsStep(done: set<string>, key: string, result: string -> Option<seq<Column>>)
    requires key !in done
    ensures key !in Outputs(done, result)
    ensures Outputs(done + {key}, result) ==
      if result(key).Some? then Outputs(done, result)[key := result(key).value] else Outputs(done, result)
  {
  }

  // ---------------------------------------------------------------------
  // What the written file holds

  /** No two columns of a written file share a name. */
  lemma FixColumnNamesDistinct(ranges: Ranges, raw: seq<Column>, devices: seq<string>)
    requires StrictlySorted(devices)
    ensures Distinct(Names(FixColumns(ranges, FullData(raw, devices), ExportOrder(devices))))
  {
    var order := ExportOrder(devices);
    OrderCovered(raw, devices);
    TargetLevelsDistinct();
    SlotsNoRepeats(ByPhase, TargetLevels, order);
    ExportNamesDistinct(KindFirst, FullData(raw, devices), LevelWindows(RecomputedRanges(ranges)), Slots(ByPhase, TargetLevels, order));
  }

  /** After the fix every series stored holds exactly 560 samples. */
  lemma FixColumnsLength(ranges: Ranges, data: Data, order: seq<string>)
    ensures forall c :: c in FixColumns(ranges, data, order) ==> |c.cells| == FixedLength
  {
    var windows := LevelWindows(RecomputedRanges(ranges));
    var slots := Slots(ByPhase, TargetLevels, order);
    ExportHas(KindFirst, data, windows, slots);
    forall c | c in FixColumns(ranges, data, order) ensures |c.cells| == FixedLength {
      var s :| s in slots && c in SlotColumns(KindFirst, data, windows, s);
      Writers.SlotCellsLength(KindFirst, data, windows, s, c);
      RecomputedWindow(ranges, s.level);
    }
  }

  /** So the frame pads nothing: the file holds the columns stored, in
      order, each of 560 samples. */
  lemma FixedFileHoldsColumns(ranges: Ranges, header: seq<string>, raw: seq<Column>)
    requires SortedOutput(ranges, Some(header), Some(raw)).Some?
    ensures var devices := PreviewDevices(header);
      var cols := FixColumns(ranges, FullData(raw, devices), ExportOrder(devices));
      SortedOutput(ranges, Some(header), Some(raw)).value == cols &&
      forall c :: c in cols ==> |c.cells| == FixedLength
  {
    var devices := PreviewDevices(header);
    var data := FullData(raw, devices);
    var cols := FixColumns(ranges, data, ExportOrder(devices));
    FixColumnNamesDistinct(ranges, raw, devices);
    FixColumnsLength(ranges, data, ExportOrder(devices));
    assert forall i :: 0 <= i < |cols| ==> |cols[i].cells| == FixedLength by {
      forall i | 0 <= i < |cols| ensures |cols[i].cells| == FixedLength {
        assert cols[i] in cols;
      }
    }
    TableOfEqualLengths(cols, FixedLength);
  }

  /** A recomputed window that is exported holds exactly 560 samples. */
  lemma RecomputedWindow(ranges: Ranges, level: nat)
    requires level in TargetLevels && Exported(LevelWindow(LevelWindows(RecomputedRanges(ranges)), level))
    ensures LevelWindow(LevelWindows(RecomputedRanges(ranges)), level).end - LevelWindow(LevelWindows(RecomputedRanges(ranges)), level).start == FixedLength
  {
    RecomputedExported(ranges[NatToString(level)]);
  }
}

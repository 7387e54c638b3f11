/** `save_sorted_raw_data` of the selector (`messdaten_selektor.py`), the
    chart page (`plotly_chart.py`) and the tagger (`manual_tagger.py`): for
    every exported level, device by device and phase by phase, the time and
    current column of every series that is long enough is assigned to a
    growing `pd.DataFrame()`. */
module Writers {
  import opened Ordering
  import opened Domain
  import opened Windows
  import opened Frames
  import opened SortedFile
  import RawDevices

  /** Where the writer collects its columns: assignment to a growing frame,
      or a dict turned into a frame afterwards (`fix_duration_600.py`). */
  function Collected(asDict: bool, cols: seq<Column>): seq<Column>
  {
    if asDict then DictOf(cols) else FrameOf(cols)
  }

  /** Visiting one more slot appends that slot's columns. */
  lemma ExportSnoc(naming: Naming, data: Data, windows: map<nat, Window>, done: seq<Slot>, s: Slot)
    ensures Export(naming, data, windows, done + [s]) == Export(naming, data, windows, done) + SlotColumns(naming, data, windows, s)
  {
    assert (done + [s])[..|done|] == done;
  }

  /** The body of the innermost loop: slice the series of `s` and store its
      time and current column, if the series exists and reaches the end of
      the window. */
  method WriteSlot(naming: Naming, asDict: bool, data: Data, windows: map<nat, Window>, s: Slot,
                   vals: Option<seq<real>>, out: seq<Column>, ghost done: seq<Slot>) returns (out': seq<Column>)
    requires Exported(LevelWindow(windows, s.level))
    requires vals == Lookup(data, s.device, s.phase)
    requires out == Collected(asDict, Export(naming, data, windows, done))
    ensures out' == Collected(asDict, Export(naming, data, windows, done + [s]))
  {
    var w := LevelWindow(windows, s.level);
    var prior := Export(naming, data, windows, done);
    ExportSnoc(naming, data, windows, done, s);
    out' := out;
    if vals.Some? && w.end <= |vals.value| {
      var slice := SliceCells(vals.value, w);
      var timeCol := Column(ColumnName(naming, s, "t"), TimeCells(|slice|));
      var currentCol := Column(ColumnName(naming, s, "I"), slice);
      assert SlotColumns(naming, data, windows, s) == [timeCol, currentCol];
      CollectedPair(asDict, prior, timeCol, currentCol);
      if asDict {
        out' := Put(Put(out', timeCol), currentCol);
      } else {
        out' := AssignColumn(AssignColumn(out', timeCol), currentCol);
      }
    } else {
      assert prior + SlotColumns(naming, data, windows, s) == prior;
    }
  }

  /** Storing a slot's two columns one after the other. */
  lemma CollectedPair(asDict: bool, prior: seq<Column>, a: Column, b: Column)
    ensures Collected(asDict, prior + [a, b]) ==
      if asDict then Put(Put(DictOf(prior), a), b) else AssignColumn(AssignColumn(FrameOf(prior), a), b)
  {
    assert prior + [a, b] == prior + [a] + [b];
    if asDict {
      DictOfSnoc(prior, a);
      DictOfSnoc(prior + [a], b);
    } else {
      FrameOfSnoc(prior, a);
      FrameOfSnoc(prior + [a], b);
    }
  }

  // ---------------------------------------------------------------------
  // The device-major writers

  /** `full_data[device][phase]` exists for every phase. */
  predicate HasPhases(data: Data, device: string)
  {
    device in data && forall p :: p in Phases ==> p in data[device]
  }

  predicate PhasesPresent(data: Data, device: string, n: nat)
    requires n <= |Phases|
  {
    forall p :: p in Phases[..n] ==> device in data && p in data[device]
  }

  lemma PhasesPresentStep(data: Data, device: string, n: nat, strict: bool)
    requires n < |Phases|
    requires strict ==> PhasesPresent(data, device, n) && device in data && Phases[n] in data[device]
    ensures strict ==> PhasesPresent(data, device, n + 1)
  {
    assert Phases[..n + 1] == Phases[..n] + [Phases[n]];
  }

  lemma PhasesPresentAll(data: Data, device: string)
    ensures PhasesPresent(data, device, |Phases|) <==> HasPhases(data, device)
  {
    assert Phases[..|Phases|] == Phases && Phases[0] in Phases;
  }

  /** No lookup of the writer raises a `KeyError`. */
  predicate Covers(data: Data, devices: seq<string>)
  {
    forall d :: d in devices ==> HasPhases(data, d)
  }

  /** Some level has a window that is exported. */
  predicate AnyExported(windows: map<nat, Window>)
  {
    exists l :: l in TargetLevels && Exported(LevelWindow(windows, l))
  }

  /** One of the first `n` levels is exported. */
  predicate ExportedBefore(windows: map<nat, Window>, n: nat)
  {
    exists k :: 0 <= k < n && k < |TargetLevels| && Exported(LevelWindow(windows, TargetLevels[k]))
  }

  lemma ExportedBeforeStep(windows: map<nat, Window>, n: nat)
    requires n < |TargetLevels|
    ensures ExportedBefore(windows, n + 1) <==> ExportedBefore(windows, n) || Exported(LevelWindow(windows, TargetLevels[n]))
  {
  }

  lemma ExportedBeforeAll(windows: map<nat, Window>)
    ensures ExportedBefore(windows, |TargetLevels|) <==> AnyExported(windows)
  {
    if AnyExported(windows) {
      var l :| l in TargetLevels && Exported(LevelWindow(windows, l));
      var k :| 0 <= k < |TargetLevels| && TargetLevels[k] == l;
    }
  }

  /** The frame a device-major writer builds, or `None` when a lookup raises
      (with `strict`, the selector and the tagger) and the `except` branch
      returns nothing. Without `strict` (the chart page) a missing entry is
      skipped. */
  function WriterOutput(naming: Naming, strict: bool, data: Data, windows: map<nat, Window>, devices: seq<string>): Option<seq<Column>>
  {
    if strict && AnyExported(windows) && !Covers(data, devices) then None
    else Some(FrameOf(Export(naming, data, windows, Slots(ByDevice, TargetLevels, devices))))
  }

  lemma PhaseSlotsStep(visited: seq<Slot>, done: seq<Slot>, level: nat, device: string, k: nat)
    requires k < |Phases|
    requires visited == done + PhaseSlots(level, device, Phases[..k])
    ensures visited + [Slot(level, Phases[k], device)] == done + PhaseSlots(level, device, Phases[..k + 1])
  {
    assert PhaseSlots(level, device, Phases[..k + 1]) == PhaseSlots(level, device, Phases[..k]) + [Slot(level, Phases[k], device)];
  }

  /** The state of the phase loop after `k` phases: the phases so far had
      entries (when `strict`), and the frame holds their columns. */
  ghost predicate PhaseProgress(naming: Naming, strict: bool, data: Data, windows: map<nat, Window>, level: nat, device: string,
                                done: seq<Slot>, k: nat, out: seq<Column>, visited: seq<Slot>)
  {
    k <= |Phases| && (strict ==> PhasesPresent(data, device, k)) &&
    visited == done + PhaseSlots(level, device, Phases[..k]) &&
    out == FrameOf(Export(naming, data, windows, visited))
  }

  /** One pass of the phase loop: look the series up (raising when `strict`
      and the entry is missing) and write its slot. */
  method PhaseStep(naming: Naming, strict: bool, data: Data, windows: map<nat, Window>, level: nat, device: string,
                   ghost done: seq<Slot>, k: nat, out: seq<Column>, ghost visited: seq<Slot>)
      returns (ok: bool, out': seq<Column>, ghost visited': seq<Slot>)
    requires k < |Phases| && Exported(LevelWindow(windows, level))
    requires PhaseProgress(naming, strict, data, windows, level, device, done, k, out, visited)
    ensures !ok ==> strict && !HasPhases(data, device)
    ensures ok ==> PhaseProgress(naming, strict, data, windows, level, device, done, k + 1, out', visited')
  {
    var phase := Phases[k];
    if strict && !(device in data && phase in data[device]) {
      assert phase in Phases;
      return false, out, visited;
    }
    var vals := if device in data && phase in data[device] then data[device][phase] else None;
    PhasesPresentStep(data, device, k, strict);
    out' := WriteSlot(naming, false, data, windows, Slot(level, phase, device), vals, out, visited);
    PhaseSlotsStep(visited, done, level, device, k);
    visited' := visited + [Slot(level, phase, device)];
    ok := true;
  }

  lemma PhasesDone(naming: Naming, strict: bool, data: Data, windows: map<nat, Window>, level: nat, device: string,
                   done: seq<Slot>, out: seq<Column>, visited: seq<Slot>)
    requires PhaseProgress(naming, strict, data, windows, level, device, done, |Phases|, out, visited)
    ensures strict ==> HasPhases(data, device)
    ensures out == FrameOf(Export(naming, data, windows, done + PhaseSlots(level, device, Phases)))
  {
    PhasesPresentAll(data, device);
    assert Phases[..|Phases|] == Phases;
  }

  /** `for phase in PHASES` for one device of an exported level. */
  method WritePhases(naming: Naming, strict: bool, data: Data, windows: map<nat, Window>, level: nat, device: string,
                     frame: seq<Column>, ghost done: seq<Slot>) returns (ok: bool, out: seq<Column>)
    requires Exported(LevelWindow(windows, level))
    requires frame == FrameOf(Export(naming, data, windows, done))
    ensures ok <==> !strict || HasPhases(data, device)
    ensures ok ==> out == FrameOf(Export(naming, data, windows, done + PhaseSlots(level, device, Phases)))
  {
    out := frame;
    ghost var visited := done;
    var k := 0;
    assert done + PhaseSlots(level, device, Phases[..0]) == done;
    while k < |Phases|
      invariant PhaseProgress(naming, strict, data, windows, level, device, done, k, out, visited)
    {
      var phaseOk;
      phaseOk, out, visited := PhaseStep(naming, strict, data, windows, level, device, done, k, out, visited);
      if !phaseOk {
        return false, out;
      }
      k := k + 1;
    }
    PhasesDone(naming, strict, data, windows, level, device, done, out, visited);
    ok := true;
  }

  lemma DeviceMajorStep(visited: seq<Slot>, done: seq<Slot>, level: nat, devices: seq<string>, j: nat)
    requires j < |devices|
    requires visited == done + DeviceMajor(level, devices[..j])
    ensures visited + PhaseSlots(level, devices[j], Phases) == done + DeviceMajor(level, devices[..j + 1])
  {
    assert devices[..j + 1][..j] == devices[..j];
  }

  /** The state of the device loop after `j` devices. */
  ghost predicate DeviceProgress(naming: Naming, strict: bool, data: Data, windows: map<nat, Window>, level: nat, devices: seq<string>,
                                 done: seq<Slot>, j: nat, out: seq<Column>, visited: seq<Slot>)
  {
    j <= |devices| && (strict ==> Covers(data, devices[..j])) &&
    visited == done + DeviceMajor(level, devices[..j]) &&
    out == FrameOf(Export(naming, data, windows, visited))
  }

  /** One pass of the device loop. */
  method DeviceStep(naming: Naming, strict: bool, data: Data, windows: map<nat, Window>, level: nat, devices: seq<string>,
                    ghost done: seq<Slot>, j: nat, out: seq<Column>, ghost visited: seq<Slot>)
      returns (ok: bool, out': seq<Column>, ghost visited': seq<Slot>)
    requires j < |devices| && Exported(LevelWindow(windows, level))
    requires DeviceProgress(naming, strict, data, windows, level, devices, done, j, out, visited)
    ensures !ok ==> strict && !Covers(data, devices)
    ensures ok ==> DeviceProgress(naming, strict, data, windows, level, devices, done, j + 1, out', visited')
  {
    var device := devices[j];
    ok, out' := WritePhases(naming, strict, data, windows, level, device, out, visited);
    CoversStep(data, devices, j);
    if !ok {
      return false, out', visited;
    }
    DeviceMajorStep(visited, done, level, devices, j);
    visited' := visited + PhaseSlots(level, device, Phases);
  }

  lemma CoversStep(data: Data, devices: seq<string>, j: nat)
    requires j < |devices|
    ensures !HasPhases(data, devices[j]) ==> !Covers(data, devices)
    ensures Covers(data, devices[..j]) && HasPhases(data, devices[j]) ==> Covers(data, devices[..j + 1])
  {
    assert devices[j] in devices;
    assert devices[..j + 1] == devices[..j] + [devices[j]];
  }

  /** `for device in devices` inside an exported level. */
  method WriteDevices(naming: Naming, strict: bool, data: Data, windows: map<nat, Window>, level: nat, devices: seq<string>,
                      frame: seq<Column>, ghost done: seq<Slot>) returns (ok: bool, out: seq<Column>)
    requires Exported(LevelWindow(windows, level))
    requires frame == FrameOf(Export(naming, data, windows, done))
    ensures ok <==> !strict || Covers(data, devices)
    ensures ok ==> out == FrameOf(Export(naming, data, windows, done + DeviceMajor(level, devices)))
  {
    out := frame;
    ghost var visited := done;
    var j := 0;
    assert done + DeviceMajor(level, devices[..0]) == done;
    while j < |devices|
      invariant DeviceProgress(naming, strict, data, windows, level, devices, done, j, out, visited)
    {
      var devicesOk;
      devicesOk, out, visited := DeviceStep(naming, strict, data, windows, level, devices, done, j, out, visited);
      if !devicesOk {
        return false, out;
      }
      j := j + 1;
    }
    assert devices[..j] == devices;
    ok := true;
  }

  lemma SlotsStep(visited: seq<Slot>, levels: seq<nat>, devices: seq<string>, i: nat)
    requires i < |levels|
    requires visited == Slots(ByDevice, levels[..i], devices)
    ensures visited + DeviceMajor(levels[i], devices) == Slots(ByDevice, levels[..i + 1], devices)
  {
    assert levels[..i + 1][..i] == levels[..i];
  }

  /** A level that is not exported adds no column. */
  lemma SkipLevel(naming: Naming, data: Data, windows: map<nat, Window>, done: seq<Slot>, level: nat, devices: seq<string>)
    requires !Exported(LevelWindow(windows, level))
    ensures Export(naming, data, windows, done + DeviceMajor(level, devices)) == Export(naming, data, windows, done)
  {
    ExportAppend(naming, data, windows, done, DeviceMajor(level, devices));
    ExportSkipped(naming, data, windows, DeviceMajor(level, devices), level);
    assert Export(naming, data, windows, done) + [] == Export(naming, data, windows, done);
  }

  /** The state of the level loop after `i` levels. */
  ghost predicate LevelProgress(naming: Naming, strict: bool, data: Data, windows: map<nat, Window>, devices: seq<string>,
                                i: nat, frame: seq<Column>, visited: seq<Slot>)
  {
    i <= |TargetLevels| && (strict && ExportedBefore(windows, i) ==> Covers(data, devices)) &&
    visited == Slots(ByDevice, TargetLevels[..i], devices) &&
    frame == FrameOf(Export(naming, data, windows, visited))
  }

  /** One pass of the level loop: an exported level writes its devices,
      any other level is skipped. */
  method LevelStep(naming: Naming, strict: bool, data: Data, windows: map<nat, Window>, devices: seq<string>,
                   i: nat, frame: seq<Column>, ghost visited: seq<Slot>)
      returns (ok: bool, frame': seq<Column>, ghost visited': seq<Slot>)
    requires i < |TargetLevels|
    requires LevelProgress(naming, strict, data, windows, devices, i, frame, visited)
    ensures !ok ==> strict && AnyExported(windows) && !Covers(data, devices)
    ensures ok ==> LevelProgress(naming, strict, data, windows, devices, i + 1, frame', visited')
  {
    var level := TargetLevels[i];
    var w := LevelWindow(windows, level);
    ExportedBeforeStep(windows, i);
    frame' := frame;
    if w.start > 0 && w.end > w.start {
      ok, frame' := WriteDevices(naming, strict, data, windows, level, devices, frame, visited);
      if !ok {
        assert level in TargetLevels;
        return false, frame', visited;
      }
    } else {
      SkipLevel(naming, data, windows, visited, level, devices);
      ok := true;
    }
    SlotsStep(visited, TargetLevels, devices, i);
    visited' := visited + DeviceMajor(level, devices);
  }

  /** `for level in TARGET_LEVELS`, then the frame is written. */
  method WriteLevels(naming: Naming, strict: bool, data: Data, windows: map<nat, Window>, devices: seq<string>)
      returns (file: Option<seq<Column>>)
    ensures file == WriterOutput(naming, strict, data, windows, devices)
  {
    var frame: seq<Column> := [];
    ghost var visited: seq<Slot> := [];
    var i := 0;
    var ok := true;
    LevelsStart(naming, strict, data, windows, devices);
    while i < |TargetLevels| && ok
      invariant ok ==> LevelProgress(naming, strict, data, windows, devices, i, frame, visited)
      invariant !ok ==> strict && AnyExported(windows) && !Covers(data, devices)
      decreases |TargetLevels| - i, ok
    {
      ok, frame, visited := LevelStep(naming, strict, data, windows, devices, i, frame, visited);
      if ok {
        i := i + 1;
      }
    }
    if ok {
      LevelsDone(naming, strict, data, windows, devices, frame, visited);
      file := Some(frame);
    } else {
      LevelsFailed(naming, strict, data, windows, devices);
      file := None;
    }
  }

  lemma LevelsFailed(naming: Naming, strict: bool, data: Data, windows: map<nat, Window>, devices: seq<string>)
    requires strict && AnyExported(windows) && !Covers(data, devices)
    ensures WriterOutput(naming, strict, data, windows, devices) == None
  {
  }

  lemma LevelsStart(naming: Naming, strict: bool, data: Data, windows: map<nat, Window>, devices: seq<string>)
    ensures LevelProgress(naming, strict, data, windows, devices, 0, [], [])
  {
    assert Slots(ByDevice, TargetLevels[..0], devices) == [];
  }

  lemma LevelsDone(naming: Naming, strict: bool, data: Data, windows: map<nat, Window>, devices: seq<string>,
                   frame: seq<Column>, visited: seq<Slot>)
    requires LevelProgress(naming, strict, data, windows, devices, |TargetLevels|, frame, visited)
    ensures WriterOutput(naming, strict, data, windows, devices) == Some(frame)
  {
    assert TargetLevels[..|TargetLevels|] == TargetLevels;
    ExportedBeforeAll(windows);
  }

  // ---------------------------------------------------------------------
  // The three pages

  /** The selector: every detected device, sorted, in the new format. */
  function SelectorFile(data: Data, windows: map<nat, Window>, allDevices: seq<string>): Option<seq<Column>>
  {
    WriterOutput(DeviceFirst, true, data, windows, Sort(allDevices))
  }

  method SaveSelector(data: Data, windows: map<nat, Window>, allDevices: seq<string>) returns (file: Option<seq<Column>>)
    ensures file == SelectorFile(data, windows, allDevices)
  {
    var devices := Sort(allDevices);
    file := WriteLevels(DeviceFirst, true, data, windows, devices);
  }

  /** The chart page: only the selected devices; an empty selection is
      refused before anything is written. */
  function ChartFile(data: Data, windows: map<nat, Window>, selected: seq<string>): Option<seq<Column>>
  {
    if |selected| == 0 then None else WriterOutput(DeviceFirst, false, data, windows, Sort(selected))
  }

  method SaveChart(data: Data, windows: map<nat, Window>, selected: seq<string>) returns (file: Option<seq<Column>>)
    ensures file == ChartFile(data, windows, selected)
  {
    if |selected| == 0 {
      return None;
    }
    var devices := Sort(selected);
    file := WriteLevels(DeviceFirst, false, data, windows, devices);
  }

  /** `full_data` as `load_all_data` fills it holds every phase of every
      device, so the selector never refuses to write. */
  lemma LoadedDataCovers(look: (string, string) -> Option<seq<real>>, allDevices: seq<string>, windows: map<nat, Window>)
    ensures Covers(RawDevices.Data(look, allDevices), Sort(allDevices))
    ensures SelectorFile(RawDevices.Data(look, allDevices), windows, allDevices).Some?
  {
    var data := RawDevices.Data(look, allDevices);
    forall d | d in Sort(allDevices) ensures HasPhases(data, d) {
      assert d in multiset(Sort(allDevices));
      assert d in allDevices;
      assert data[d] == RawDevices.PhaseMap(look, d);
    }
  }

  /** Given the same devices, the chart writes what the selector writes
      unless the selector refuses; it never refuses a non-empty selection. */
  lemma ChartAgreesWithSelector(data: Data, windows: map<nat, Window>, selected: seq<string>)
    requires |selected| > 0
    ensures ChartFile(data, windows, selected).Some?
    ensures SelectorFile(data, windows, selected).Some? ==> ChartFile(data, windows, selected) == SelectorFile(data, windows, selected)
  {
  }

  /** The tagger's two roles, in the order it writes them. */
  const Roles: seq<string> := ["Einspeisung", "Pruefling"]

  /** `data_dict`: phase to the (reference, device under test) series. */
  type PairData = map<string, (Option<seq<real>>, Option<seq<real>>)>

  /** `data_dict` seen as the writers' device-to-phase table. */
  function RoleData(pairs: PairData): (r: Data)
    ensures r.Keys == {Roles[0], Roles[1]}
    ensures forall p :: p in pairs <==> p in r[Roles[0]]
    ensures forall p :: p in pairs <==> p in r[Roles[1]]
  {
    map[Roles[0] := map p | p in pairs :: pairs[p].0, Roles[1] := map p | p in pairs :: pairs[p].1]
  }

  /** The tagger: the reference, then the device under test, in the old
      format. */
  function TaggerFile(pairs: PairData, windows: map<nat, Window>): Option<seq<Column>>
  {
    WriterOutput(KindFirst, true, RoleData(pairs), windows, Roles)
  }

  method SaveTagger(pairs: PairData, windows: map<nat, Window>) returns (file: Option<seq<Column>>)
    ensures file == TaggerFile(pairs, windows)
  {
    file := WriteLevels(KindFirst, true, RoleData(pairs), windows, Roles);
  }

  // ---------------------------------------------------------------------
  // The written frame

  /** With distinct devices the frame has the names of the columns written,
      in the order written, and no name twice. */
  lemma WrittenNamesDistinct(naming: Naming, strict: bool, data: Data, windows: map<nat, Window>, devices: seq<string>)
    requires Distinct(devices) && WriterOutput(naming, strict, data, windows, devices).Some?
    ensures var cols := Export(naming, data, windows, Slots(ByDevice, TargetLevels, devices));
      Names(WriterOutput(naming, strict, data, windows, devices).value) == Names(cols) && Distinct(Names(cols))
  {
    var slots := Slots(ByDevice, TargetLevels, devices);
    var cols := Export(naming, data, windows, slots);
    TargetLevelsDistinct();
    SlotsNoRepeats(ByDevice, TargetLevels, devices);
    ExportNamesDistinct(naming, data, windows, slots);
    if |cols| > 0 {
      FrameOfDistinct(cols);
    }
  }

  /** As written: every column of the frame is cut or padded to the length
      of the first series written, so a later window longer than the first
      loses its tail. */
  lemma WriterCutsLongerWindows(naming: Naming, strict: bool, data: Data, windows: map<nat, Window>, devices: seq<string>, i: nat)
    requires Distinct(devices) && WriterOutput(naming, strict, data, windows, devices).Some?
    requires var cols := Export(naming, data, windows, Slots(ByDevice, TargetLevels, devices));
      0 < i < |cols| && |cols[i].cells| > |cols[0].cells|
    ensures var cols := Export(naming, data, windows, Slots(ByDevice, TargetLevels, devices));
      var frame := WriterOutput(naming, strict, data, windows, devices).value;
      |frame| == |cols| && frame[i].name == cols[i].name &&
      frame[i].cells == cols[i].cells[..|cols[0].cells|] && frame[i].cells != cols[i].cells
  {
    var cols := Export(naming, data, windows, Slots(ByDevice, TargetLevels, devices));
    WrittenNamesDistinct(naming, strict, data, windows, devices);
    FrameCutsLongerSeries(cols, i);
  }

  /** Corrected: the frame built as `pd.DataFrame(dict)` from the same
      columns, as the duration fix builds its file. */
  function FullOutput(naming: Naming, strict: bool, data: Data, windows: map<nat, Window>, devices: seq<string>): Option<seq<Column>>
  {
    if strict && AnyExported(windows) && !Covers(data, devices) then None
    else Some(Table(Export(naming, data, windows, Slots(ByDevice, TargetLevels, devices))))
  }

  /** The corrected frame keeps every series written in full, padding only
      the shorter ones. */
  lemma FullOutputKeepsSeries(naming: Naming, strict: bool, data: Data, windows: map<nat, Window>, devices: seq<string>, i: nat)
    requires Distinct(devices) && FullOutput(naming, strict, data, windows, devices).Some?
    requires i < |Export(naming, data, windows, Slots(ByDevice, TargetLevels, devices))|
    ensures var cols := Export(naming, data, windows, Slots(ByDevice, TargetLevels, devices));
      var frame := FullOutput(naming, strict, data, windows, devices).value;
      |frame| == |cols| && frame[i].name == cols[i].name && |cols[i].cells| <= |frame[i].cells| &&
      frame[i].cells[..|cols[i].cells|] == cols[i].cells &&
      forall k :: |cols[i].cells| <= k < |frame[i].cells| ==> frame[i].cells[k] == None
  {
    var slots := Slots(ByDevice, TargetLevels, devices);
    var cols := Export(naming, data, windows, slots);
    TargetLevelsDistinct();
    SlotsNoRepeats(ByDevice, TargetLevels, devices);
    ExportNamesDistinct(naming, data, windows, slots);
    TableKeepsSeries(cols, i);
  }

  /** The two agree whenever every exported level has a window of the same
      length, as with the proposed 500-sample windows. */
  lemma FullOutputAgreesForEqualWindows(naming: Naming, strict: bool, data: Data, windows: map<nat, Window>, devices: seq<string>, n: nat)
    requires Distinct(devices)
    requires forall l :: l in TargetLevels && Exported(LevelWindow(windows, l)) ==> LevelWindow(windows, l).end - LevelWindow(windows, l).start == n
    ensures FullOutput(naming, strict, data, windows, devices) == WriterOutput(naming, strict, data, windows, devices)
  {
    var slots := Slots(ByDevice, TargetLevels, devices);
    var cols := Export(naming, data, windows, slots);
    if |cols| > 0 {
      TargetLevelsDistinct();
      SlotsNoRepeats(ByDevice, TargetLevels, devices);
      ExportNamesDistinct(naming, data, windows, slots);
      ExportHas(naming, data, windows, slots);
      forall i | 0 <= i < |cols| ensures |cols[i].cells| == n {
        assert cols[i] in cols;
        var s :| s in slots && cols[i] in SlotColumns(naming, data, windows, s);
        SlotCellsLength(naming, data, windows, s, cols[i]);
      }
      FrameIsTableForEqualLengths(cols);
    }
  }

  /** Both columns of a slot hold as many cells as its window has samples. */
  lemma SlotCellsLength(naming: Naming, data: Data, windows: map<nat, Window>, s: Slot, c: Column)
    requires c in SlotColumns(naming, data, windows, s)
    ensures Exported(LevelWindow(windows, s.level))
    ensures |c.cells| == LevelWindow(windows, s.level).end - LevelWindow(windows, s.level).start
  {
  }
}

/** The sorted-file writers: `save_sorted_raw_data` in
    `messdaten_selektor.py`, `plotly_chart.py` and `manual_tagger.py`, and
    the export loop of `fix_duration_600.py`. Each cuts the samples
    `[start, end)` of every exported load level out of the loaded series and
    writes a time column `0..end-start-1` and a current column per level,
    phase and device, under names the sorted-file analysis reads back. */
module SortedFile {
  import opened Text
  import opened Ordering
  import opened Domain
  import opened Channels
  import opened Windows
  import opened Frames

  /** `full_data`: device, then phase, to the loaded series (`None` where
      no column was found). */
  type Data = map<string, map<string, Option<seq<real>>>>

  /** `full_data[device][phase]`, reading an absent entry as no series. */
  function Lookup(data: Data, device: string, phase: string): Option<seq<real>>
  {
    if device in data && phase in data[device] then data[device][phase] else None
  }

  /** `start_end_map.get(level, (0, 0))`. */
  function LevelWindow(windows: map<nat, Window>, level: nat): Window
  {
    if level in windows then windows[level] else Window(0, 0)
  }

  // ---------------------------------------------------------------------
  // Column names

  /** `{lvl:02d}_{phase}_{device}_{kind}` (the selector and the chart) or
      `{lvl:02d}_{phase}_{kind}_{device}` (the tagger and the duration fix). */
  datatype Naming = DeviceFirst | KindFirst

  /** One level, phase and device the writers visit. */
  datatype Slot = Slot(level: nat, phase: string, device: string)

  function ColumnName(naming: Naming, s: Slot, kind: string): string
  {
    match naming
    case DeviceFirst => GroupPrefix(s.level, s.phase) + "_" + s.device + "_" + kind
    case KindFirst => GroupPrefix(s.level, s.phase) + "_" + kind + "_" + s.device
  }

  /** The time column is "t", the current column "I". */
  predicate IsKind(kind: string) { kind == "t" || kind == "I" }

  lemma PhaseShape(p: string)
    requires p in Phases
    ensures |p| == 2 && p[0] == 'L' && IsDigit(p[1])
  {
  }

  /** No level and phase prefix contains a capital I. */
  lemma GroupPrefixHasNoI(level: nat, phase: string)
    requires phase in Phases
    ensures 'I' !in GroupPrefix(level, phase)
  {
    Pad2Digits(level);
    PhaseShape(phase);
    var g := GroupPrefix(level, phase);
    forall i | 0 <= i < |g| ensures g[i] != 'I' {
      if i < |Pad2(level)| {
        assert g[i] == Pad2(level)[i];
      }
    }
  }

  /** A digit run followed by "_" and a two-character phase cannot be a
      prefix of a name that starts with a different such run. */
  lemma DigitRunSeparates(a: string, p1: string, b: string, p2: string, s: string)
    requires AllDigits(a) && AllDigits(b) && |p1| == 2 && |p2| == 2
    requires StartsWith(s, a + "_" + p1 + "_") && StartsWith(s, b + "_" + p2)
    ensures a == b && p1 == p2
  {
    var x, y := a + "_" + p1 + "_", b + "_" + p2;
    assert s[..|x|] == x && s[..|y|] == y;
    assert forall i :: 0 <= i < |a| ==> s[i] == x[i] == a[i];
    assert forall i :: 0 <= i < |b| ==> s[i] == y[i] == b[i];
    assert s[|a|] == x[|a|] == '_' && s[|b|] == y[|b|] == '_';
    if |a| != |b| {
      assert false;
    }
    assert a == s[..|a|] == b;
    assert p1 == s[|a| + 1..|a| + 3] == p2;
  }

  /** A name that starts with one level and phase prefix followed by "_"
      starts with no other: the two-digit level is followed by "_", and all
      phases have two characters. */
  lemma GroupPrefixSeparates(l1: nat, p1: string, l2: nat, p2: string, s: string)
    requires p1 in Phases && p2 in Phases
    requires StartsWith(s, GroupPrefix(l1, p1) + "_") && StartsWith(s, GroupPrefix(l2, p2))
    ensures l1 == l2 && p1 == p2
  {
    Pad2Digits(l1);
    Pad2Digits(l2);
    PhaseShape(p1);
    PhaseShape(p2);
    DigitRunSeparates(Pad2(l1), p1, Pad2(l2), p2, s);
  }

  lemma AfterPrefix(g: string, x: string, n: string)
    requires n == g + "_" + x
    ensures StartsWith(n, g) && StartsWith(n, g + "_") && n[|g| + 1..] == x
  {
    assert n[..|g|] == g;
    assert n[..|g| + 1] == g + "_";
  }

  /** What follows the level and phase prefix and its "_". */
  function NameTail(naming: Naming, s: Slot, kind: string): string
  {
    match naming
    case DeviceFirst => s.device + "_" + kind
    case KindFirst => kind + "_" + s.device
  }

  lemma ColumnNameSplit(naming: Naming, s: Slot, kind: string)
    ensures ColumnName(naming, s, kind) == GroupPrefix(s.level, s.phase) + "_" + NameTail(naming, s, kind)
  {
    var g := GroupPrefix(s.level, s.phase);
    match naming
    case DeviceFirst =>
      assert g + "_" + s.device + "_" + kind == g + "_" + (s.device + "_" + kind);
    case KindFirst =>
      assert g + "_" + kind + "_" + s.device == g + "_" + (kind + "_" + s.device);
  }

  /** Distinct slots and kinds give distinct column names. */
  lemma ColumnNameInjective(naming: Naming, s1: Slot, k1: string, s2: Slot, k2: string)
    requires s1.phase in Phases && s2.phase in Phases && IsKind(k1) && IsKind(k2)
    requires ColumnName(naming, s1, k1) == ColumnName(naming, s2, k2)
    ensures s1 == s2 && k1 == k2
  {
    var n := ColumnName(naming, s1, k1);
    var g1, g2 := GroupPrefix(s1.level, s1.phase), GroupPrefix(s2.level, s2.phase);
    var x1, x2 := NameTail(naming, s1, k1), NameTail(naming, s2, k2);
    ColumnNameSplit(naming, s1, k1);
    ColumnNameSplit(naming, s2, k2);
    AfterPrefix(g1, x1, n);
    AfterPrefix(g2, x2, n);
    GroupPrefixSeparates(s1.level, s1.phase, s2.level, s2.phase, n);
    assert x1 == x2;
    match naming
    case DeviceFirst =>
      assert s1.device == x1[..|x1| - 2] && k1 == x1[|x1| - 1..];
      assert s2.device == x2[..|x2| - 2] && k2 == x2[|x2| - 1..];
    case KindFirst =>
      assert s1.device == x1[2..] && k1 == x1[..1];
      assert s2.device == x2[2..] && k2 == x2[..1];
  }

  // ---------------------------------------------------------------------
  // The order in which the writers visit levels, devices and phases

  /** `for phase in phases` for one device. */
  function PhaseSlots(level: nat, device: string, phases: seq<string>): (r: seq<Slot>)
    ensures |r| == |phases| && forall k :: 0 <= k < |phases| ==> r[k] == Slot(level, phases[k], device)
  {
    seq(|phases|, k requires 0 <= k < |phases| => Slot(level, phases[k], device))
  }

  /** `for dev in devices` for one phase. */
  function DeviceSlots(level: nat, phase: string, devices: seq<string>): (r: seq<Slot>)
    ensures |r| == |devices| && forall k :: 0 <= k < |devices| ==> r[k] == Slot(level, phase, devices[k])
  {
    seq(|devices|, k requires 0 <= k < |devices| => Slot(level, phase, devices[k]))
  }

  /** `for device in devices: for phase in PHASES`. */
  function DeviceMajor(level: nat, devices: seq<string>): (r: seq<Slot>)
    ensures forall s :: s in r <==> s.level == level && s.device in devices && s.phase in Phases
  {
    if |devices| == 0 then []
    else
      var init := devices[..|devices| - 1];
      assert devices == init + [devices[|devices| - 1]];
      DeviceMajor(level, init) + PhaseSlots(level, devices[|devices| - 1], Phases)
  }

  /** `for phase in phases: for dev in devices`. */
  function PhaseMajor(level: nat, phases: seq<string>, devices: seq<string>): (r: seq<Slot>)
    ensures forall s :: s in r <==> s.level == level && s.phase in phases && s.device in devices
  {
    if |phases| == 0 then []
    else
      var init := phases[..|phases| - 1];
      assert phases == init + [phases[|phases| - 1]];
      PhaseMajor(level, init, devices) + DeviceSlots(level, phases[|phases| - 1], devices)
  }

  /** Device-major (selector, chart, tagger) or phase-major (duration fix). */
  datatype Order = ByDevice | ByPhase

  function LevelSlots(order: Order, level: nat, devices: seq<string>): (r: seq<Slot>)
    ensures forall s :: s in r <==> s.level == level && s.device in devices && s.phase in Phases
  {
    match order
    case ByDevice => DeviceMajor(level, devices)
    case ByPhase => PhaseMajor(level, Phases, devices)
  }

  /** Every slot of every level, level by level. */
  function Slots(order: Order, levels: seq<nat>, devices: seq<string>): (r: seq<Slot>)
    ensures forall s :: s in r <==> s.level in levels && s.device in devices && s.phase in Phases
  {
    if |levels| == 0 then []
    else
      var init := levels[..|levels| - 1];
      assert levels == init + [levels[|levels| - 1]];
      Slots(order, init, devices) + LevelSlots(order, levels[|levels| - 1], devices)
  }

  /** No slot is visited twice. */
  predicate NoRepeats(slots: seq<Slot>)
  {
    forall i, j :: 0 <= i < j < |slots| ==> slots[i] != slots[j]
  }

  predicate DistinctLevels(levels: seq<nat>)
  {
    forall i, j :: 0 <= i < j < |levels| ==> levels[i] != levels[j]
  }

  lemma TargetLevelsDistinct()
    ensures DistinctLevels(TargetLevels)
  {
    forall i, j | 0 <= i < j < |TargetLevels| ensures TargetLevels[i] < TargetLevels[j] {
      assert TargetLevels[i] == [5, 20, 50, 80, 90, 100, 120][i];
    }
  }

  lemma NoRepeatsAppend(a: seq<Slot>, b: seq<Slot>)
    requires NoRepeats(a) && NoRepeats(b)
    requires forall s :: s in a ==> s !in b
    ensures NoRepeats(a + b)
  {
    forall i, j | 0 <= i < j < |a + b| ensures (a + b)[i] != (a + b)[j] {
      if i < |a| && j >= |a| {
        assert (a + b)[i] in a && (a + b)[j] in b;
      }
    }
  }

  lemma {:induction false} DeviceMajorNoRepeats(level: nat, devices: seq<string>)
    requires Distinct(devices)
    ensures NoRepeats(DeviceMajor(level, devices))
    decreases |devices|
  {
    if |devices| > 0 {
      var init, last := devices[..|devices| - 1], devices[|devices| - 1];
      assert Distinct(init);
      DeviceMajorNoRepeats(level, init);
      assert last !in init;
      NoRepeatsAppend(DeviceMajor(level, init), PhaseSlots(level, last, Phases));
    }
  }

  lemma {:induction false} PhaseMajorNoRepeats(level: nat, phases: seq<string>, devices: seq<string>)
    requires Distinct(phases) && Distinct(devices)
    ensures NoRepeats(PhaseMajor(level, phases, devices))
    decreases |phases|
  {
    if |phases| > 0 {
      var init, last := phases[..|phases| - 1], phases[|phases| - 1];
      assert Distinct(init);
      PhaseMajorNoRepeats(level, init, devices);
      assert last !in init;
      NoRepeatsAppend(PhaseMajor(level, init, devices), DeviceSlots(level, last, devices));
    }
  }

  /** With distinct levels and devices, every slot is visited at most once. */
  lemma {:induction false} SlotsNoRepeats(order: Order, levels: seq<nat>, devices: seq<string>)
    requires DistinctLevels(levels) && Distinct(devices)
    ensures NoRepeats(Slots(order, levels, devices))
    decreases |levels|
  {
    if |levels| > 0 {
      var init, last := levels[..|levels| - 1], levels[|levels| - 1];
      assert DistinctLevels(init);
      SlotsNoRepeats(order, init, devices);
      assert last !in init;
      match order
      case ByDevice => DeviceMajorNoRepeats(last, devices);
      case ByPhase => PhaseMajorNoRepeats(last, Phases, devices);
      NoRepeatsAppend(Slots(order, init, devices), LevelSlots(order, last, devices));
    }
  }

  // ---------------------------------------------------------------------
  // The columns written

  /** `pd.Series(range(n))`. */
  function TimeCells(n: nat): (r: seq<Option<real>>)
    ensures |r| == n && forall k :: 0 <= k < n ==> r[k] == Some(k as real)
  {
    seq(n, k requires 0 <= k < n => Some(k as real))
  }

  /** `vals.iloc[start:end].reset_index(drop=True)`. */
  function SliceCells(vals: seq<real>, w: Window): (r: seq<Option<real>>)
    requires 0 <= w.start <= w.end <= |vals|
    ensures |r| == w.end - w.start && forall k :: 0 <= k < |r| ==> r[k] == Some(vals[w.start + k])
  {
    seq(w.end - w.start, k requires 0 <= k < w.end - w.start => Some(vals[w.start + k]))
  }

  /** `vals is not None and e <= len(vals)` inside an exported level. */
  predicate Written(vals: Option<seq<real>>, w: Window)
  {
    Exported(w) && vals.Some? && w.end <= |vals.value|
  }

  /** The time and the current column of one slot, or nothing. */
  function SlotColumns(naming: Naming, data: Data, windows: map<nat, Window>, s: Slot): (r: seq<Column>)
    ensures forall c :: c in r ==> c.name == ColumnName(naming, s, "t") || c.name == ColumnName(naming, s, "I")
  {
    var w := LevelWindow(windows, s.level);
    var vals := Lookup(data, s.device, s.phase);
    if Written(vals, w) then
      [Column(ColumnName(naming, s, "t"), TimeCells(w.end - w.start)),
       Column(ColumnName(naming, s, "I"), SliceCells(vals.value, w))]
    else []
  }

  /** Every column the writer assigns, in order, for the slots visited. */
  function Export(naming: Naming, data: Data, windows: map<nat, Window>, slots: seq<Slot>): seq<Column>
  {
    if |slots| == 0 then []
    else Export(naming, data, windows, slots[..|slots| - 1]) + SlotColumns(naming, data, windows, slots[|slots| - 1])
  }

  /** The columns written are exactly those of the slots visited. */
  lemma {:induction false} ExportHas(naming: Naming, data: Data, windows: map<nat, Window>, slots: seq<Slot>)
    ensures forall c :: c in Export(naming, data, windows, slots) ==> exists s :: s in slots && c in SlotColumns(naming, data, windows, s)
    ensures forall s, c :: s in slots && c in SlotColumns(naming, data, windows, s) ==> c in Export(naming, data, windows, slots)
    decreases |slots|
  {
    if |slots| > 0 {
      var init := slots[..|slots| - 1];
      assert slots == init + [slots[|slots| - 1]];
      ExportHas(naming, data, windows, init);
    }
  }

  lemma {:induction false} ExportAppend(naming: Naming, data: Data, windows: map<nat, Window>, a: seq<Slot>, b: seq<Slot>)
    ensures Export(naming, data, windows, a + b) == Export(naming, data, windows, a) + Export(naming, data, windows, b)
    decreases |b|
  {
    if |b| == 0 {
      assert a + b == a;
    } else {
      var init, last := b[..|b| - 1], b[|b| - 1];
      var ab := a + b;
      var ea, ei, tail := Export(naming, data, windows, a), Export(naming, data, windows, init), SlotColumns(naming, data, windows, last);
      ExportAppend(naming, data, windows, a, init);
      assert Export(naming, data, windows, ab) == ea + ei + tail by {
        assert ab[..|ab| - 1] == a + init;
        assert ab[|ab| - 1] == last;
      }
      assert Export(naming, data, windows, b) == ei + tail;
      SeqAssociative(ea, ei, tail);
    }
  }

  lemma SeqAssociative(x: seq<Column>, y: seq<Column>, z: seq<Column>)
    ensures x + y + z == x + (y + z)
  {
  }

  /** A level that is not exported contributes no column. */
  lemma {:induction false} ExportSkipped(naming: Naming, data: Data, windows: map<nat, Window>, slots: seq<Slot>, level: nat)
    requires !Exported(LevelWindow(windows, level))
    requires forall s :: s in slots ==> s.level == level
    ensures Export(naming, data, windows, slots) == []
    decreases |slots|
  {
    if |slots| > 0 {
      ExportSkipped(naming, data, windows, slots[..|slots| - 1], level);
      assert slots[|slots| - 1] in slots;
    }
  }

  lemma NamesAppend(a: seq<Column>, b: seq<Column>)
    ensures Names(a + b) == Names(a) + Names(b)
  {
  }

  lemma DistinctAppend(a: seq<string>, b: seq<string>)
    requires Distinct(a) && Distinct(b)
    requires forall x :: x in a ==> x !in b
    ensures Distinct(a + b)
  {
    forall i, j | 0 <= i < j < |a + b| ensures (a + b)[i] != (a + b)[j] {
      if i < |a| && j >= |a| {
        assert (a + b)[i] in a && (a + b)[j] in b;
      }
    }
  }

  /** Every name written is the time or current name of a slot visited. */
  lemma NameFromSlot(naming: Naming, data: Data, windows: map<nat, Window>, slots: seq<Slot>, x: string)
      returns (s: Slot, k: string)
    requires x in Names(Export(naming, data, windows, slots))
    ensures s in slots && IsKind(k) && x == ColumnName(naming, s, k)
    ensures Written(Lookup(data, s.device, s.phase), LevelWindow(windows, s.level))
  {
    ExportHas(naming, data, windows, slots);
    var cols := Export(naming, data, windows, slots);
    var i :| 0 <= i < |cols| && Names(cols)[i] == x;
    assert cols[i] in cols;
    s :| s in slots && cols[i] in SlotColumns(naming, data, windows, s);
    k := if x == ColumnName(naming, s, "t") then "t" else "I";
  }

  /** No two columns written for distinct slots share a name. */
  lemma {:induction false} ExportNamesDistinct(naming: Naming, data: Data, windows: map<nat, Window>, slots: seq<Slot>)
    requires NoRepeats(slots)
    requires forall s :: s in slots ==> s.phase in Phases
    ensures Distinct(Names(Export(naming, data, windows, slots)))
    decreases |slots|
  {
    if |slots| > 0 {
      var init, last := slots[..|slots| - 1], slots[|slots| - 1];
      assert slots == init + [last];
      assert NoRepeats(init);
      assert last !in init;
      ExportNamesDistinct(naming, data, windows, init);
      var a, b := Export(naming, data, windows, init), SlotColumns(naming, data, windows, last);
      assert Export(naming, data, windows, slots) == a + b;
      NamesAppend(a, b);
      if |b| > 0 {
        SlotNamesDistinct(naming, data, windows, last);
        SlotNamesFresh(naming, data, windows, init, last);
        DistinctAppend(Names(a), Names(b));
      } else {
        assert a + b == a;
      }
    }
  }

  /** The two columns of one slot have different names. */
  lemma SlotNamesDistinct(naming: Naming, data: Data, windows: map<nat, Window>, last: Slot)
    requires last.phase in Phases
    ensures Distinct(Names(SlotColumns(naming, data, windows, last)))
  {
    if ColumnName(naming, last, "t") == ColumnName(naming, last, "I") {
      ColumnNameInjective(naming, last, "t", last, "I");
    }
  }

  /** No column of an earlier slot is named like a column of a new one. */
  lemma SlotNamesFresh(naming: Naming, data: Data, windows: map<nat, Window>, init: seq<Slot>, last: Slot)
    requires last !in init && last.phase in Phases
    requires forall s :: s in init ==> s.phase in Phases
    ensures forall x :: x in Names(Export(naming, data, windows, init)) ==>
      x !in Names(SlotColumns(naming, data, windows, last))
  {
    var a, b := Export(naming, data, windows, init), SlotColumns(naming, data, windows, last);
    forall x | x in Names(a) ensures x !in Names(b) {
      var s, k := NameFromSlot(naming, data, windows, init, x);
      if x in Names(b) {
        var k' := if x == ColumnName(naming, last, "t") then "t" else "I";
        ColumnNameInjective(naming, s, k, last, k');
      }
    }
  }
}

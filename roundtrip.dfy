/** The sorted files the export tools write are read back by the record
    extraction (`analyze_sorted_file` in `create_db.py`): for every level and
    phase, the devices it finds are exactly the devices whose series were
    written for that level and phase, each resolved to its own current
    column. This holds for both naming schemes, given device names the
    header patterns can tell apart. */
module RoundTrip {
  import opened Text
  import opened Domain
  import opened Channels
  import opened Windows
  import opened Frames
  import opened SortedFile
  import opened Writers
  import opened Emission
  import DurationFix
  import RawDevices

  /** A device name the header patterns read back: not empty, one line,
      no "_I" marker inside or at its edges (which could make the new
      pattern stop early or the old one match), and no trailing whitespace
      (which stripping the header would remove). */
  predicate Readable(d: string)
  {
    |d| > 0 && '\n' !in d && !Contains("_" + d + "_", "_I") && d[|d| - 1] !in Whitespace
  }

  /** No "_I" can straddle a piece without an 'I' and a piece that starts
      with something else. */
  lemma NoMarkerAround(pre: string, mid: string, post: string)
    requires 'I' !in pre && 'I' !in post && |mid| > 0 && mid[0] != 'I' && !Contains(mid, "_I")
    ensures !Contains(pre + mid + post, "_I")
  {
    var s := pre + mid + post;
    forall i: nat ensures !OccursAt(s, "_I", i) {
      if OccursAt(s, "_I", i) {
        assert s[i + 1] == 'I';
        if |pre| <= i && i + 1 < |pre| + |mid| {
          assert mid[i - |pre|..i - |pre| + 2] == s[i..i + 2];
          NotContainsAt(mid, "_I", i - |pre|);
        }
      }
    }
    ContainsNowhere(s, "_I");
  }

  /** The edges of a readable name hold no "_I". */
  lemma ReadableEdges(d: string)
    requires Readable(d)
    ensures !Contains("_" + d, "_I") && !EndsWith("_" + d, "_I")
  {
    if Contains("_" + d, "_I") {
      ContainsInPrefix("_" + d, "_", "_I");
    }
    if EndsWith("_" + d, "_I") {
      ContainsAt("_" + d, "_I", |d| - 1);
      ContainsInPrefix("_" + d, "_", "_I");
    }
  }

  lemma DeviceFirstTimeIgnored(g: string, d: string)
    requires 'I' !in g && Readable(d)
    ensures !Contains(g + "_" + d + "_" + "t", "_I")
  {
    assert g + "_" + d + "_" + "t" == g + ("_" + d + "_") + "t";
    NoMarkerAround(g, "_" + d + "_", "t");
  }

  lemma KindFirstTimeIgnored(g: string, d: string)
    requires 'I' !in g && Readable(d)
    ensures !Contains(g + "_" + "t" + "_" + d, "_I")
  {
    ReadableEdges(d);
    assert g + "_" + "t" + "_" + d == (g + "_t") + ("_" + d) + "";
    NoMarkerAround(g + "_t", "_" + d, "");
  }

  /** A time column holds no "_I", so the parser never looks at it. */
  lemma TimeColumnIgnored(naming: Naming, s: Slot)
    requires s.phase in Phases && Readable(s.device)
    ensures !Contains(ColumnName(naming, s, "t"), "_I")
  {
    GroupPrefixHasNoI(s.level, s.phase);
    match naming
    case DeviceFirst => DeviceFirstTimeIgnored(GroupPrefix(s.level, s.phase), s.device);
    case KindFirst => KindFirstTimeIgnored(GroupPrefix(s.level, s.phase), s.device);
  }

  lemma DeviceFirstResolves(g: string, d: string)
    requires Readable(d)
    ensures var n := g + "_" + d + "_" + "I";
      StartsWith(n, g) && Contains(n, "_I") && DeviceOf(n, g) == Some(d)
  {
    var n := g + "_" + d + "_" + "I";
    assert n == g + "_" + d + "_I";
    assert n[..|g|] == g;
    ContainsAt(n, "_I", |n| - 2);
    NewFormatResolves(g, d);
  }

  lemma KindFirstResolves(g: string, d: string)
    requires Readable(d)
    ensures var n := g + "_" + "I" + "_" + d;
      StartsWith(n, g) && Contains(n, "_I") && DeviceOf(n, g) == Some(d)
  {
    var n := g + "_" + "I" + "_" + d;
    assert n == g + "_I_" + d;
    assert n[..|g|] == g;
    assert n[|g|..|g| + 2] == "_I";
    ContainsAt(n, "_I", |g|);
    ReadableEdges(d);
    OldFormatResolves(g, d);
  }

  /** A current column starts with its level and phase prefix, holds "_I",
      and the header patterns resolve it to its device. */
  lemma CurrentColumnResolves(naming: Naming, s: Slot)
    requires Readable(s.device)
    ensures var n, g := ColumnName(naming, s, "I"), GroupPrefix(s.level, s.phase);
      StartsWith(n, g) && Contains(n, "_I") && DeviceOf(n, g) == Some(s.device)
  {
    match naming
    case DeviceFirst => DeviceFirstResolves(GroupPrefix(s.level, s.phase), s.device);
    case KindFirst => KindFirstResolves(GroupPrefix(s.level, s.phase), s.device);
  }

  /** `s.strip()` changes nothing when neither end is whitespace. */
  lemma StripKeeps(n: string)
    requires |n| > 0 && n[0] !in Whitespace && n[|n| - 1] !in Whitespace
    ensures Strip(n, Whitespace) == n
  {
  }

  /** A name made of a digit-led prefix, "_" and a tail that does not end
      in whitespace survives `strip()`. */
  lemma StripKeepsJoin(g: string, t: string)
    requires |g| > 0 && IsDigit(g[0]) && |t| > 0 && t[|t| - 1] !in Whitespace
    ensures Strip(g + "_" + t, Whitespace) == g + "_" + t
  {
    var n := g + "_" + t;
    assert n[0] == g[0] && n[|n| - 1] == t[|t| - 1];
    DigitNotWhitespace(g[0]);
    StripKeeps(n);
  }

  /** What follows the prefix ends in "t", "I" or the device's last character. */
  lemma NameTailEnd(naming: Naming, s: Slot, kind: string)
    requires Readable(s.device) && IsKind(kind)
    ensures var t := NameTail(naming, s, kind); |t| > 0 && t[|t| - 1] !in Whitespace
  {
    var t := NameTail(naming, s, kind);
    match naming
    case DeviceFirst =>
      assert t[|t| - 1] == kind[0];
    case KindFirst =>
      assert t[|t| - 1] == s.device[|s.device| - 1];
  }

  /** Stripping the header leaves a written name as it is. */
  lemma StripKeepsName(naming: Naming, s: Slot, kind: string)
    requires Readable(s.device) && IsKind(kind)
    ensures Strip(ColumnName(naming, s, kind), Whitespace) == ColumnName(naming, s, kind)
  {
    ColumnNameSplit(naming, s, kind);
    Pad2Digits(s.level);
    NameTailEnd(naming, s, kind);
    StripKeepsJoin(GroupPrefix(s.level, s.phase), NameTail(naming, s, kind));
  }

  lemma DigitNotWhitespace(c: char)
    requires IsDigit(c)
    ensures c !in Whitespace
  {
  }

  // ---------------------------------------------------------------------
  // Reading a written file back

  /** Every column the parser considers for a level and phase is the
      current column of a slot of that level and phase whose series was
      written, and it names that slot's device. */
  lemma GroupColumnFromSlot(naming: Naming, data: Data, windows: map<nat, Window>, slots: seq<Slot>,
                            file: seq<Column>, level: nat, phase: string, c: string) returns (s: Slot)
    requires forall x :: x in slots ==> x.phase in Phases && Readable(x.device)
    requires forall n :: n in Names(file) <==> n in Names(Export(naming, data, windows, slots))
    requires phase in Phases
    requires c in GroupColumns(Names(StripNames(file)), GroupPrefix(level, phase))
    ensures s in slots && s.level == level && s.phase == phase
    ensures Written(Lookup(data, s.device, s.phase), LevelWindow(windows, s.level))
    ensures c == ColumnName(naming, s, "I") && DeviceOf(c, GroupPrefix(level, phase)) == Some(s.device)
  {
    var stripped := StripNames(file);
    var i :| 0 <= i < |stripped| && Names(stripped)[i] == c;
    var raw := file[i].name;
    assert raw == Names(file)[i];
    var k;
    s, k := NameFromSlot(naming, data, windows, slots, raw);
    StripKeepsName(naming, s, k);
    assert c == raw;
    if k == "t" {
      TimeColumnIgnored(naming, s);
      assert false;
    }
    var g := GroupPrefix(s.level, s.phase);
    ColumnNameSplit(naming, s, k);
    AfterPrefix(g, NameTail(naming, s, k), c);
    GroupPrefixSeparates(s.level, s.phase, level, phase, c);
    CurrentColumnResolves(naming, s);
  }

  /** The current column of a slot whose series was written is among the
      columns the parser considers for its level and phase. */
  lemma WrittenColumnInGroup(naming: Naming, data: Data, windows: map<nat, Window>, slots: seq<Slot>,
                             file: seq<Column>, s: Slot)
    requires Readable(s.device)
    requires forall n :: n in Names(file) <==> n in Names(Export(naming, data, windows, slots))
    requires s in slots && Written(Lookup(data, s.device, s.phase), LevelWindow(windows, s.level))
    ensures ColumnName(naming, s, "I") in GroupColumns(Names(StripNames(file)), GroupPrefix(s.level, s.phase))
  {
    var n := ColumnName(naming, s, "I");
    var cols := SlotColumns(naming, data, windows, s);
    assert |cols| == 2 && cols[1].name == n;
    ExportHas(naming, data, windows, slots);
    var written := Export(naming, data, windows, slots);
    assert cols[1] in written;
    var j :| 0 <= j < |written| && written[j] == cols[1];
    assert Names(written)[j] == n;
    assert n in Names(file);
    var i :| 0 <= i < |file| && Names(file)[i] == n;
    StripKeepsName(naming, s, "I");
    assert Names(StripNames(file))[i] == n;
    CurrentColumnResolves(naming, s);
  }

  /** The round trip: for every level and phase, the devices the parser
      finds in a written file are exactly the devices whose series were
      written for that level and phase, and each maps to its own current
      column. `file` is the file as read back: the same names as written,
      in any order. */
  lemma ReadBack(naming: Naming, data: Data, windows: map<nat, Window>, slots: seq<Slot>,
                 file: seq<Column>, level: nat, phase: string)
    requires forall x :: x in slots ==> x.phase in Phases && Readable(x.device)
    requires forall n :: n in Names(file) <==> n in Names(Export(naming, data, windows, slots))
    requires phase in Phases
    ensures forall d :: d in Keys(GroupMap(StripNames(file), level, phase)) <==>
      Slot(level, phase, d) in slots && Written(Lookup(data, d, phase), LevelWindow(windows, level))
    ensures forall d :: Slot(level, phase, d) in slots && Written(Lookup(data, d, phase), LevelWindow(windows, level)) ==>
      Entry(d, ColumnName(naming, Slot(level, phase, d), "I")) in GroupMap(StripNames(file), level, phase)
  {
    var g := GroupPrefix(level, phase);
    var cols := GroupColumns(Names(StripNames(file)), g);
    var m := GroupMap(StripNames(file), level, phase);
    DevicesMapSound(cols, g);
    DevicesMapComplete(cols, g);
    forall d | d in Keys(m)
      ensures Slot(level, phase, d) in slots && Written(Lookup(data, d, phase), LevelWindow(windows, level))
      ensures Entry(d, ColumnName(naming, Slot(level, phase, d), "I")) in m
    {
      var k :| 0 <= k < |m| && Keys(m)[k] == d;
      assert m[k] in m;
      var s := GroupColumnFromSlot(naming, data, windows, slots, file, level, phase, m[k].column);
      assert m[k] == Entry(d, ColumnName(naming, Slot(level, phase, d), "I"));
    }
    forall d | Slot(level, phase, d) in slots && Written(Lookup(data, d, phase), LevelWindow(windows, level))
      ensures d in Keys(m)
    {
      WrittenColumnInGroup(naming, data, windows, slots, file, Slot(level, phase, d));
      CurrentColumnResolves(naming, Slot(level, phase, d));
    }
  }

  /** The round trip for the selector, the chart and the tagger: a file
      they write, read back by the record extraction, yields for every
      target level and phase exactly the devices whose series were
      written, each with its own current column. */
  lemma WriterReadBack(naming: Naming, strict: bool, data: Data, windows: map<nat, Window>, devices: seq<string>,
                       file: seq<Column>, level: nat, phase: string)
    requires forall d :: d in devices ==> Readable(d)
    requires WriterOutput(naming, strict, data, windows, devices).Some?
    requires forall n :: n in Names(file) <==> n in Names(WriterOutput(naming, strict, data, windows, devices).value)
    requires level in TargetLevels && phase in Phases
    ensures forall d :: d in Keys(GroupMap(StripNames(file), level, phase)) <==>
      d in devices && Written(Lookup(data, d, phase), LevelWindow(windows, level))
    ensures forall d :: d in devices && Written(Lookup(data, d, phase), LevelWindow(windows, level)) ==>
      Entry(d, ColumnName(naming, Slot(level, phase, d), "I")) in GroupMap(StripNames(file), level, phase)
  {
    var slots := Slots(ByDevice, TargetLevels, devices);
    ReadBack(naming, data, windows, slots, file, level, phase);
  }

  /** The round trip for the duration fix: its sorted file, read back,
      yields for every target level and phase exactly the devices of the
      raw file whose series reach the end of the recomputed window. */
  lemma FixedFileReadBack(ranges: DurationFix.Ranges, header: seq<string>, raw: seq<Column>, level: nat, phase: string)
    requires DurationFix.SortedOutput(ranges, Some(header), Some(raw)).Some?
    requires forall d :: d in DurationFix.PreviewDevices(header) ==> Readable(d)
    requires level in TargetLevels && phase in Phases
    ensures var devices := DurationFix.PreviewDevices(header);
      var data := DurationFix.FullData(raw, devices);
      var w := LevelWindow(DurationFix.LevelWindows(RecomputedRanges(ranges)), level);
      var file := DurationFix.SortedOutput(ranges, Some(header), Some(raw)).value;
      forall d :: d in Keys(GroupMap(StripNames(file), level, phase)) <==> d in devices && Written(Lookup(data, d, phase), w)
  {
    var devices := DurationFix.PreviewDevices(header);
    var data := DurationFix.FullData(raw, devices);
    var order := DurationFix.ExportOrder(devices);
    var windows := DurationFix.LevelWindows(RecomputedRanges(ranges));
    var slots := Slots(ByPhase, TargetLevels, order);
    var file := DurationFix.SortedOutput(ranges, Some(header), Some(raw)).value;
    DurationFix.OrderCovered(raw, devices);
    assert forall d :: d in order <==> d in devices by {
      forall d ensures d in order <==> d in devices {
        assert d in order <==> d in multiset(order);
        assert d in devices <==> d in multiset(devices);
      }
    }
    assert file == Table(Export(KindFirst, data, windows, slots));
    ReadBack(KindFirst, data, windows, slots, file, level, phase);
  }

  /** The tagger's two role names read back. */
  lemma RolesReadable()
    ensures forall d :: d in Roles ==> Readable(d)
  {
    RoleReadable("Einspeisung");
    RoleReadable("Pruefling");
  }

  /** A name without '_' and 'I' beyond its first letter, and without
      whitespace at its end, reads back. */
  lemma RoleReadable(d: string)
    requires |d| > 0 && d[0] != 'I' && '_' !in d && 'I' !in d[1..] && '\n' !in d && d[|d| - 1] !in Whitespace
    ensures Readable(d)
  {
    var s := "_" + d + "_";
    forall i: nat ensures !OccursAt(s, "_I", i) {
      if i + 2 <= |s| {
        if i == 0 {
          assert s[1] == d[0];
        } else {
          assert s[i] == d[i - 1];
        }
        assert s[i..i + 2] != "_I";
      }
    }
    ContainsNowhere(s, "_I");
  }
}

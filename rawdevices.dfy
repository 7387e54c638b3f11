/** The devices of a raw measurement export and their channels: header
    cleaning, `identify_devices`, the column lookup of `load_all_data`, and
    the choice of the reference device that the export tools show first. */
module RawDevices {
  import opened Text
  import opened Ordering
  import opened Domain

  // ---------------------------------------------------------------------
  // Header cleaning and device names

  /** `c.strip().strip('"').strip("'")`. */
  function CleanHeader(c: string): string
  {
    Strip(Strip(Strip(c, Whitespace), {'"'}), {'\''})
  }

  /** The table with every column name cleaned. */
  function CleanHeaders(table: seq<Column>): (r: seq<Column>)
    ensures |r| == |table|
    ensures forall i :: 0 <= i < |table| ==> r[i] == Column(CleanHeader(table[i].name), table[i].cells)
  {
    seq(|table|, i requires 0 <= i < |table| => Column(CleanHeader(table[i].name), table[i].cells))
  }

  /** A raw channel carries its samples in a column named "...ValueY...". */
  predicate IsValueColumn(c: string) { Contains(c, "ValueY") }

  /** `[c for c in df.columns if "ValueY" in c]`. */
  function ValueColumns(names: seq<string>): seq<string> { Filter(names, IsValueColumn) }

  /** The separators `[_ ]` around a phase token; also what `.strip("_ ")` removes. */
  const PhaseSeparators: set<char> := {'_', ' '}

  predicate IsPhaseLetter(c: char) { c == 'L' || c == 'l' }

  predicate IsPhaseDigit(c: char) { c == '1' || c == '2' || c == '3' }

  /** The length of the match of `[_ ]?L[123][_ ]?` (ignoring case) at the
      start of `s`, or 0. Both optional separators are greedy. */
  function PhaseTokenLength(s: string): (k: nat)
    ensures k <= |s|
    ensures k == 0 || 2 <= k
  {
    if |s| >= 3 && s[0] in PhaseSeparators && IsPhaseLetter(s[1]) && IsPhaseDigit(s[2]) then
      if |s| >= 4 && s[3] in PhaseSeparators then 4 else 3
    else if |s| >= 2 && IsPhaseLetter(s[0]) && IsPhaseDigit(s[1]) then
      if |s| >= 3 && s[2] in PhaseSeparators then 3 else 2
    else 0
  }

  /** `re.sub(r"[_ ]?L[123][_ ]?", "", s, flags=re.IGNORECASE)`: the scan
      deletes each match and resumes right after it. */
  function RemovePhaseTokens(s: string): (r: string)
    ensures |r| <= |s|
    decreases |s|
  {
    if |s| == 0 then ""
    else if PhaseTokenLength(s) > 0 then RemovePhaseTokens(s[PhaseTokenLength(s)..])
    else [s[0]] + RemovePhaseTokens(s[1..])
  }

  /** No phase token starts anywhere in `s`. */
  predicate PhaseFree(s: string)
  {
    forall i :: 0 <= i < |s| ==> PhaseTokenLength(s[i..]) == 0
  }

  /** The device a (cleaned) value column belongs to: "ValueY" removed, white
      space stripped, phase tokens removed, then "_" and " " stripped. */
  function DeviceName(col: string): string
  {
    Strip(RemovePhaseTokens(Strip(ReplaceAll(col, "ValueY", ""), Whitespace)), PhaseSeparators)
  }

  /** The device name of every value column, in column order. */
  function DeviceNames(valCols: seq<string>): (r: seq<string>)
    ensures |r| == |valCols| && forall k :: 0 <= k < |valCols| ==> r[k] == DeviceName(valCols[k])
  {
    seq(|valCols|, k requires 0 <= k < |valCols| => DeviceName(valCols[k]))
  }

  /** The cleaned header names. */
  function CleanNames(header: seq<string>): (r: seq<string>)
    ensures |r| == |header| && forall i :: 0 <= i < |header| ==> r[i] == CleanHeader(header[i])
  {
    seq(|header|, i requires 0 <= i < |header| => CleanHeader(header[i]))
  }

  /** `d` is the name of the device behind one of the value columns. */
  predicate NamedBy(valCols: seq<string>, d: string)
  {
    d != "" && d in DeviceNames(valCols)
  }

  /** The set `identify_devices` fills, in the order names are first seen:
      every non-empty name once. */
  function Found(names: seq<string>): (r: seq<string>)
    ensures Distinct(r)
    ensures forall d :: d in r <==> d != "" && d in names
  {
    if |names| == 0 then []
    else
      var init := names[..|names| - 1];
      var name := names[|names| - 1];
      assert names == init + [name];
      var found := Found(init);
      if name != "" && name !in found then found + [name] else found
  }

  /** `identify_devices` on a header: the device names, sorted. */
  function IdentifiedDevices(header: seq<string>): (r: seq<string>)
    ensures StrictlySorted(r)
    ensures forall d :: d in r <==> NamedBy(ValueColumns(CleanNames(header)), d)
  {
    var valCols := ValueColumns(CleanNames(header));
    var found := Found(DeviceNames(valCols));
    var r := Sort(found);
    DistinctByMultiset(r, found);
    SortedDistinctIsStrict(r);
    assert forall d :: d in r <==> NamedBy(valCols, d) by {
      forall d ensures d in r <==> NamedBy(valCols, d) {
        assert d in r <==> d in multiset(r);
        assert d in found <==> d in multiset(found);
      }
    }
    r
  }

  /** `identify_devices(df)`: collect the non-empty device names of the value
      columns in a set, then sort them. */
  method IdentifyDevices(header: seq<string>) returns (devices: seq<string>)
    ensures devices == IdentifiedDevices(header)
    ensures StrictlySorted(devices)
    ensures forall d :: d in devices <==> NamedBy(ValueColumns(CleanNames(header)), d)
  {
    var valCols := ValueColumns(CleanNames(header));
    var names := DeviceNames(valCols);
    var found: seq<string> := [];
    var i := 0;
    while i < |valCols|
      invariant 0 <= i <= |valCols|
      invariant found == Found(names[..i])
    {
      var name := names[i];
      assert names[..i + 1][..i] == names[..i];
      if name != "" && name !in found {
        found := found + [name];
      }
      i := i + 1;
    }
    assert names[..i] == names;
    devices := Sort(found);
  }

  /** Two device lists that are strictly sorted and name the same devices
      are equal: `identify_devices` is determined by the header. */
  lemma IdentifiedDevicesUnique(header: seq<string>, a: seq<string>, b: seq<string>)
    requires StrictlySorted(a) && StrictlySorted(b)
    requires forall d :: d in a <==> NamedBy(ValueColumns(CleanNames(header)), d)
    requires forall d :: d in b <==> NamedBy(ValueColumns(CleanNames(header)), d)
    ensures a == b
  {
    StrictlySortedUnique(a, b);
  }

  // ---------------------------------------------------------------------
  // Reading a device name back from a raw header

  lemma PhaseTokenLengthBeforeSeparator(d: string, t: string)
    requires |d| > 0 && PhaseTokenLength(d) == 0
    requires |t| > 0 && !IsPhaseLetter(t[0]) && !IsPhaseDigit(t[0])
    ensures PhaseTokenLength(d + t) == 0
  {
    var s := d + t;
    if |d| >= 3 {
      assert s[0] == d[0] && s[1] == d[1] && s[2] == d[2];
    } else if |d| == 2 {
      assert s[0] == d[0] && s[1] == d[1] && s[2] == t[0];
    } else {
      assert s[0] == d[0] && s[1] == t[0];
    }
  }

  lemma {:induction false} RemovePhaseTokensPrefix(d: string, t: string)
    requires PhaseFree(d)
    requires |t| > 0 && !IsPhaseLetter(t[0]) && !IsPhaseDigit(t[0])
    ensures RemovePhaseTokens(d + t) == d + RemovePhaseTokens(t)
    decreases |d|
  {
    if |d| == 0 {
      assert d + t == t;
    } else {
      assert d[0..] == d;
      PhaseFreeTail(d);
      RemovePhaseTokensPrefix(d[1..], t);
      RemovePhaseTokensStep(d, t);
    }
  }

  /** The first character of `d` starts no phase token, so it is kept. */
  lemma RemovePhaseTokensStep(d: string, t: string)
    requires |d| > 0 && PhaseTokenLength(d) == 0
    requires |t| > 0 && !IsPhaseLetter(t[0]) && !IsPhaseDigit(t[0])
    requires RemovePhaseTokens(d[1..] + t) == d[1..] + RemovePhaseTokens(t)
    ensures RemovePhaseTokens(d + t) == d + RemovePhaseTokens(t)
  {
    FirstCharKept(d, t);
    ConsTail(d, RemovePhaseTokens(t));
  }

  lemma FirstCharKept(d: string, t: string)
    requires |d| > 0 && PhaseTokenLength(d) == 0
    requires |t| > 0 && !IsPhaseLetter(t[0]) && !IsPhaseDigit(t[0])
    ensures RemovePhaseTokens(d + t) == [d[0]] + RemovePhaseTokens(d[1..] + t)
  {
    var s := d + t;
    PhaseTokenLengthBeforeSeparator(d, t);
    assert s[1..] == d[1..] + t;
  }

  lemma ConsTail(d: string, x: string)
    requires |d| > 0
    ensures [d[0]] + (d[1..] + x) == d + x
  {
    assert [d[0]] + d[1..] == d;
  }

  lemma PhaseFreeTail(d: string)
    requires |d| > 0 && PhaseFree(d)
    ensures PhaseFree(d[1..])
  {
    forall i | 0 <= i < |d[1..]| ensures PhaseTokenLength(d[1..][i..]) == 0 {
      assert d[1..][i..] == d[i + 1..];
    }
  }

  lemma RawHeaderWithoutMarker(d: string, s: char, k: char, s': char)
    requires s in PhaseSeparators && s' in PhaseSeparators
    requires !Contains(d, "ValueY")
    ensures ReplaceAll(d + [s, 'L', k, s'] + "ValueY", "ValueY", "") == d + [s, 'L', k, s']
  {
    var head := d + [s, 'L', k, s'];
    HeadThenValueFree(d, s, k, s');
    assert "ValueY"[..|"ValueY"| - 1] == "Value";
    ReplaceAllOfSuffix(head, "ValueY", "");
    assert head + "" == head;
  }

  lemma TokenThenValueFree(k: char, s': char)
    requires s' in PhaseSeparators
    ensures !Contains("L" + [k] + [s'] + "Value", "ValueY")
  {
    NotContainsShorter("L" + [k], "ValueY");
    NotContainsShorter("Value", "ValueY");
    NotContainsJoin("L" + [k], s', "Value", "ValueY");
  }

  lemma HeadThenValueFree(d: string, s: char, k: char, s': char)
    requires s in PhaseSeparators && s' in PhaseSeparators
    requires !Contains(d, "ValueY")
    ensures !Contains(d + [s, 'L', k, s'] + "Value", "ValueY")
  {
    var t := "L" + [k] + [s'] + "Value";
    TokenThenValueFree(k, s');
    NotContainsJoin(d, s, t, "ValueY");
    assert [s, 'L', k, s'] + "Value" == [s] + t;
    AppendThree(d, [s, 'L', k, s'], "Value");
    AppendThree(d, [s], t);
  }

  lemma AppendThree(a: string, b: string, c: string)
    ensures a + b + c == a + (b + c)
  {
  }

  /** The phase token of a raw header, as `.strip()` leaves it: a trailing
      blank is stripped, a trailing underscore stays. */
  function PhaseTail(s: char, k: char, s': char): seq<char>
  {
    if s' == ' ' then [s, 'L', k] else [s, 'L', k, s']
  }

  lemma RawHeaderStripped(d: string, s: char, k: char, s': char)
    requires s in PhaseSeparators && s' in PhaseSeparators && IsPhaseDigit(k)
    requires |d| > 0 && d[0] !in Whitespace
    ensures Strip(d + [s, 'L', k, s'], Whitespace) == d + PhaseTail(s, k, s')
  {
    var head := d + [s, 'L', k, s'];
    assert head[0] == d[0];
    assert TrimLeft(head, Whitespace) == head;
    if s' == ' ' {
      assert head[..|head| - 1] == d + [s, 'L', k];
      assert TrimRight(head, Whitespace) == TrimRight(d + [s, 'L', k], Whitespace);
    }
  }

  lemma PhaseTailRemoved(d: string, s: char, k: char, s': char)
    requires s in PhaseSeparators && s' in PhaseSeparators && IsPhaseDigit(k)
    requires PhaseFree(d)
    ensures RemovePhaseTokens(d + PhaseTail(s, k, s')) == d
  {
    var tail := PhaseTail(s, k, s');
    RemovePhaseTokensPrefix(d, tail);
    assert PhaseTokenLength(tail) == |tail|;
    assert tail[|tail|..] == "";
    assert d + "" == d;
  }

  /** A device name that carries no phase token, no "ValueY", and no white
      space or separator at its ends is read back from the raw header
      `{d}{s}L{k}{s'}ValueY` exactly. */
  lemma DeviceNameOfRawHeader(d: string, s: char, k: char, s': char)
    requires s in PhaseSeparators && s' in PhaseSeparators && IsPhaseDigit(k)
    requires |d| > 0 && d[0] !in Whitespace && d[0] !in PhaseSeparators && d[|d| - 1] !in PhaseSeparators
    requires PhaseFree(d) && !Contains(d, "ValueY")
    ensures DeviceName(d + [s, 'L', k, s'] + "ValueY") == d
  {
    RawHeaderWithoutMarker(d, s, k, s');
    RawHeaderStripped(d, s, k, s');
    PhaseTailRemoved(d, s, k, s');
    assert TrimLeft(d, PhaseSeparators) == d;
    assert TrimRight(d, PhaseSeparators) == d;
  }

  // ---------------------------------------------------------------------
  // Column lookup of load_all_data

  /** The column holding `device`'s samples of `phase`: the cleaned name
      equals the device and the raw name contains the phase. */
  predicate Holds(col: string, device: string, phase: string)
  {
    DeviceName(col) == device && Contains(col, phase)
  }

  function HoldsSeries(device: string, phase: string): string -> bool
  {
    c => Holds(c, device, phase)
  }

  /** The first value column that holds the (device, phase) series. */
  function FindColumn(valCols: seq<string>, device: string, phase: string): Option<nat>
  {
    FirstIndex(valCols, HoldsSeries(device, phase))
  }

  /** The inner search loop, which breaks at the first match. */
  method MatchColumn(valCols: seq<string>, device: string, phase: string) returns (r: Option<nat>)
    ensures r == FindColumn(valCols, device, phase)
  {
    r := FirstMatch(valCols, HoldsSeries(device, phase));
  }

  /** `full_data[device][phase]`: the samples of the matching column with
      every non-number read as 0, or `None` when no column matches. */
  function Series(table: seq<Column>, device: string, phase: string): Option<seq<real>>
  {
    var valCols := ValueColumns(Names(table));
    match FindColumn(valCols, device, phase)
    case None => None
    case Some(k) => Some(ZeroMissing(Cells(table, valCols[k])))
  }

  /** `Series` on one table, as a value the loading loop can carry. */
  function SeriesLookup(table: seq<Column>): (string, string) -> Option<seq<real>>
  {
    (device, phase) => Series(table, device, phase)
  }

  /** The entries `phase -> series` that looking up `phases` writes. */
  function Row(look: (string, string) -> Option<seq<real>>, device: string, phases: seq<string>)
    : (r: map<string, Option<seq<real>>>)
    ensures r.Keys == set p | p in phases
  {
    map p | p in phases :: look(device, p)
  }

  /** `full_data[device]` once every phase has been looked up. */
  function PhaseMap(look: (string, string) -> Option<seq<real>>, device: string): (r: map<string, Option<seq<real>>>)
    ensures r.Keys == set p | p in Phases
    ensures forall p :: p in r ==> r[p] == look(device, p)
  {
    Row(look, device, Phases)
  }

  /** `full_data` once every device has been loaded. */
  function Data(look: (string, string) -> Option<seq<real>>, devices: seq<string>)
    : (r: map<string, map<string, Option<seq<real>>>>)
    ensures r.Keys == set d | d in devices
  {
    map d | d in devices :: PhaseMap(look, d)
  }

  /** `{dev: {} for dev in all_devices}`. */
  function EmptyData(devices: seq<string>): (r: map<string, map<string, Option<seq<real>>>>)
    ensures r.Keys == set d | d in devices
  {
    map d | d in devices :: map[]
  }

  lemma RowStep(entry: map<string, Option<seq<real>>>, look: (string, string) -> Option<seq<real>>,
                device: string, phases: seq<string>, p: string)
    ensures (entry + Row(look, device, phases))[p := look(device, p)] == entry + Row(look, device, phases + [p])
  {
  }

  lemma PhaseStep(entry: map<string, Option<seq<real>>>, look: (string, string) -> Option<seq<real>>,
                  device: string, phases: seq<string>, j: nat, done: seq<(string, string)>)
    requires j < |phases|
    ensures entry + Row(look, device, phases[..j + 1]) == (entry + Row(look, device, phases[..j]))[phases[j] := look(device, phases[j])]
    ensures done + Pairs(device, phases[..j + 1]) == done + Pairs(device, phases[..j]) + [(device, phases[j])]
  {
    assert phases[..j + 1] == phases[..j] + [phases[j]];
    RowStep(entry, look, device, phases[..j], phases[j]);
  }

  lemma TimeLengthStep(look: (string, string) -> Option<seq<real>>, prefix: seq<(string, string)>, x: (string, string))
    ensures TimeLength(look, prefix + [x]) ==
      var t := TimeLength(look, prefix); if t == 0 && look(x.0, x.1).Some? then |look(x.0, x.1).value| else t
  {
    assert (prefix + [x])[..|prefix|] == prefix;
  }

  lemma DataStep(devices: seq<string>, look: (string, string) -> Option<seq<real>>, done: seq<string>, d: string)
    requires d in devices
    ensures (EmptyData(devices) + Data(look, done))[d := PhaseMap(look, d)] == EmptyData(devices) + Data(look, done + [d])
  {
  }

  lemma Overwritten<K, V>(entry: map<K, V>, m: map<K, V>)
    requires entry.Keys <= m.Keys
    ensures entry + m == m
  {
  }

  /** The (device, phase) lookups in the order `load_all_data` makes them. */
  function Lookups(devices: seq<string>): seq<(string, string)>
  {
    if |devices| == 0 then []
    else Lookups(devices[..|devices| - 1]) + Pairs(devices[|devices| - 1], Phases)
  }

  function Pairs(device: string, phases: seq<string>): (r: seq<(string, string)>)
    ensures |r| == |phases| && forall k :: 0 <= k < |phases| ==> r[k] == (device, phases[k])
  {
    seq(|phases|, k requires 0 <= k < |phases| => (device, phases[k]))
  }

  /** A lookup that gave no samples: no column, or an empty one. */
  predicate NoSamples(s: Option<seq<real>>)
  {
    s.None? || |s.value| == 0
  }

  /** The length of the time axis: that of the first lookup that found a
      non-empty series (`if not t and len(vals) > 0`), else 0. */
  function TimeLength(look: (string, string) -> Option<seq<real>>, lookups: seq<(string, string)>): nat
  {
    if |lookups| == 0 then 0
    else
      var t := TimeLength(look, lookups[..|lookups| - 1]);
      var s := look(lookups[|lookups| - 1].0, lookups[|lookups| - 1].1);
      if t == 0 && s.Some? then |s.value| else t
  }

  /** `list(range(n))`. */
  function Range(n: nat): (r: seq<nat>)
    ensures |r| == n && forall k :: 0 <= k < n ==> r[k] == k
  {
    seq(n, k requires 0 <= k < n => k)
  }

  /** What `load_all_data` returns for a readable file. */
  datatype Loaded = Loaded(time: seq<nat>, data: map<string, map<string, Option<seq<real>>>>)

  /** `load_all_data` as a value: `None` for an unreadable file. */
  function LoadedData(file: Option<seq<Column>>, devices: seq<string>): Option<Loaded>
  {
    match file
    case None => None
    case Some(raw) =>
      var look := SeriesLookup(CleanHeaders(raw));
      Some(Loaded(Range(TimeLength(look, Lookups(devices))), Data(look, devices)))
  }

  /** One (device, phase) step of `load_all_data`: the samples of the first
      matching column, `None` when no column matches. */
  method FetchSeries(table: seq<Column>, valCols: seq<string>, device: string, phase: string)
    returns (series: Option<seq<real>>)
    requires valCols == ValueColumns(Names(table))
    ensures series == Series(table, device, phase)
  {
    var found := MatchColumn(valCols, device, phase);
    series := None;
    if found.Some? {
      series := Some(ZeroMissing(Cells(table, valCols[found.value])));
    }
  }

  /** `look` answers every (device, phase) lookup as `Series` on `table`. */
  ghost predicate LookupAgrees(look: (string, string) -> Option<seq<real>>, table: seq<Column>)
  {
    forall d, p {:trigger Series(table, d, p)} :: look(d, p) == Series(table, d, p)
  }

  /** The phase loop of `load_all_data` for one device: it writes the
      series of each phase into the device's entry and starts the time axis
      at the first non-empty series. */
  method LoadPhases(table: seq<Column>, valCols: seq<string>, device: string, phases: seq<string>,
                    entry: map<string, Option<seq<real>>>, t0: nat,
                    ghost look: (string, string) -> Option<seq<real>>, ghost done: seq<(string, string)>)
    returns (row: map<string, Option<seq<real>>>, t: nat)
    requires valCols == ValueColumns(Names(table)) && LookupAgrees(look, table)
    requires t0 == TimeLength(look, done)
    ensures row == entry + Row(look, device, phases)
    ensures t == TimeLength(look, done + Pairs(device, phases))
  {
    row, t := entry, t0;
    var j := 0;
    assert done + Pairs(device, phases[..0]) == done;
    assert entry + Row(look, device, phases[..0]) == entry;
    while j < |phases|
      invariant 0 <= j <= |phases|
      invariant row == entry + Row(look, device, phases[..j])
      invariant t == TimeLength(look, done + Pairs(device, phases[..j]))
    {
      var phase := phases[j];
      var series := FetchSeries(table, valCols, device, phase);
      assert series == look(device, phase);
      PhaseStep(entry, look, device, phases, j, done);
      TimeLengthStep(look, done + Pairs(device, phases[..j]), (device, phase));
      row := row[phase := series];
      if t == 0 && series.Some? {
        t := |series.value|;
      }
      j := j + 1;
    }
    assert phases[..j] == phases;
  }

  /** The device loop of `load_all_data`. */
  method LoadDevices(table: seq<Column>, valCols: seq<string>, devices: seq<string>,
                     ghost look: (string, string) -> Option<seq<real>>)
    returns (data: map<string, map<string, Option<seq<real>>>>, t: nat)
    requires valCols == ValueColumns(Names(table)) && LookupAgrees(look, table)
    ensures data == Data(look, devices)
    ensures t == TimeLength(look, Lookups(devices))
  {
    data := EmptyData(devices);
    t := 0;
    var i := 0;
    assert EmptyData(devices) + Data(look, devices[..0]) == data;
    while i < |devices|
      invariant 0 <= i <= |devices|
      invariant data == EmptyData(devices) + Data(look, devices[..i])
      invariant t == TimeLength(look, Lookups(devices[..i]))
    {
      var device := devices[i];
      var row;
      row, t := LoadPhases(table, valCols, device, Phases, data[device], t, look, Lookups(devices[..i]));
      LoadStep(devices, look, i, data, row);
      LookupsStep(devices, i);
      data := data[device := row];
      i := i + 1;
    }
    assert devices[..i] == devices;
    Overwritten(EmptyData(devices), Data(look, devices));
  }

  /** One more device: its phases replace its empty entry. */
  lemma LoadStep(devices: seq<string>, look: (string, string) -> Option<seq<real>>, i: nat,
                 data: map<string, map<string, Option<seq<real>>>>, row: map<string, Option<seq<real>>>)
    requires i < |devices| && data == EmptyData(devices) + Data(look, devices[..i])
    requires row == data[devices[i]] + Row(look, devices[i], Phases)
    ensures data[devices[i] := row] == EmptyData(devices) + Data(look, devices[..i + 1])
  {
    Overwritten(data[devices[i]], PhaseMap(look, devices[i]));
    DataStep(devices, look, devices[..i], devices[i]);
    assert devices[..i + 1] == devices[..i] + [devices[i]];
  }

  lemma LookupsStep(devices: seq<string>, i: nat)
    requires i < |devices|
    ensures Lookups(devices[..i + 1]) == Lookups(devices[..i]) + Pairs(devices[i], Phases)
  {
    assert devices[..i + 1][..i] == devices[..i];
  }

  /** `load_all_data(filepath, all_devices)`: every device, every phase. */
  method LoadAllData(file: Option<seq<Column>>, devices: seq<string>) returns (loaded: Option<Loaded>)
    ensures loaded == LoadedData(file, devices)
  {
    if file.None? {
      return None;
    }
    var table := CleanHeaders(file.value);
    var valCols := ValueColumns(Names(table));
    var data, t := LoadDevices(table, valCols, devices, SeriesLookup(table));
    loaded := Some(Loaded(Range(t), data));
  }

  /** The time axis counts the samples of the first lookup that gave any; it
      is empty only when every lookup gave none. */
  lemma {:induction false} TimeLengthIsFirstNonEmpty(look: (string, string) -> Option<seq<real>>, lookups: seq<(string, string)>)
    ensures TimeLength(look, lookups) == 0 <==> forall k :: 0 <= k < |lookups| ==> NoSamples(look(lookups[k].0, lookups[k].1))
    ensures TimeLength(look, lookups) > 0 ==>
      exists k :: 0 <= k < |lookups| && !NoSamples(look(lookups[k].0, lookups[k].1)) &&
        |look(lookups[k].0, lookups[k].1).value| == TimeLength(look, lookups) &&
        forall j :: 0 <= j < k ==> NoSamples(look(lookups[j].0, lookups[j].1))
    decreases |lookups|
  {
    if |lookups| > 0 {
      var init := lookups[..|lookups| - 1];
      TimeLengthIsFirstNonEmpty(look, init);
      forall k | 0 <= k < |init| ensures init[k] == lookups[k] { }
    }
  }

  // ---------------------------------------------------------------------
  // Default reference

  /** Keywords of the selector's default reference for the chart. */
  const SelectorKeywords: seq<string> := ["pac1", "einspeisung"]

  /** Keywords of the interactive chart's default reference. */
  const ChartKeywords: seq<string> := ["pac1", "einspeisung", "ref", "source"]

  /** `any(x in dev.lower() for x in keywords)`. */
  predicate Mentions(device: string, keywords: seq<string>)
  {
    exists x :: x in keywords && Contains(Lower(device), x)
  }

  function MentionsAny(keywords: seq<string>): string -> bool
  {
    d => Mentions(d, keywords)
  }

  /** The first device that mentions a keyword. */
  function FirstMentioning(devices: seq<string>, keywords: seq<string>): Option<nat>
  {
    FirstIndex(devices, MentionsAny(keywords))
  }

  /** `default_ref_index`: the loop that breaks at the first device
      mentioning a keyword; 0 when none does. */
  method DefaultReferenceIndex(devices: seq<string>, keywords: seq<string>) returns (index: nat)
    ensures |devices| > 0 ==> index < |devices|
    ensures index == match FirstMentioning(devices, keywords) case Some(i) => i case None => 0
  {
    var mentions := MentionsAny(keywords);
    index := 0;
    var i := 0;
    while i < |devices|
      invariant 0 <= i <= |devices|
      invariant forall j :: 0 <= j < i ==> !mentions(devices[j])
    {
      if mentions(devices[i]) {
        index := i;
        FirstIndexIs(devices, mentions, i);
        return;
      }
      i := i + 1;
    }
    FirstIndexIs(devices, mentions, |devices|);
  }

  /** The chart's longer keyword list never picks a later device than the
      selector's: whenever the selector finds a device, the chart finds the
      same one or an earlier one. */
  lemma ChartReferenceNotLater(devices: seq<string>)
    requires FirstMentioning(devices, SelectorKeywords).Some?
    ensures FirstMentioning(devices, ChartKeywords).Some?
    ensures FirstMentioning(devices, ChartKeywords).value <= FirstMentioning(devices, SelectorKeywords).value
  {
    var i := FirstMentioning(devices, SelectorKeywords).value;
    var x :| x in SelectorKeywords && Contains(Lower(devices[i]), x);
    assert x in ChartKeywords;
  }

  // ---------------------------------------------------------------------
  // Reference-first device order of the duration fix

  /** The reference of the duration fix: the first device mentioning "pac1"
      or "einspeisung", else the name "PAC1" whether or not such a device
      exists. */
  function FixedReference(devices: seq<string>): string
  {
    match FirstMentioning(devices, SelectorKeywords)
    case Some(i) => devices[i]
    case None => "PAC1"
  }

  /** The loop over `devices` that breaks at the first mention. */
  method FixReference(devices: seq<string>) returns (reference: string)
    ensures reference == FixedReference(devices)
  {
    var mentions := MentionsAny(SelectorKeywords);
    reference := "PAC1";
    var i := 0;
    while i < |devices|
      invariant 0 <= i <= |devices|
      invariant forall j :: 0 <= j < i ==> !mentions(devices[j])
    {
      if mentions(devices[i]) {
        reference := devices[i];
        FirstIndexIs(devices, mentions, i);
        return;
      }
      i := i + 1;
    }
    FirstIndexIs(devices, mentions, |devices|);
  }

  /** The default name "PAC1" is never a device the search missed, so the
      reference is one of the devices exactly when some device mentions a
      keyword. */
  lemma FixReferencePresent(devices: seq<string>)
    ensures FixedReference(devices) in devices <==> FirstMentioning(devices, SelectorKeywords).Some?
  {
    if FirstMentioning(devices, SelectorKeywords).None? && "PAC1" in devices {
      var j :| 0 <= j < |devices| && devices[j] == "PAC1";
      assert Lower("PAC1") == "pac1";
      assert StartsWith("pac1", "pac1");
      assert "pac1" in SelectorKeywords && Contains(Lower(devices[j]), "pac1");
      assert Mentions(devices[j], SelectorKeywords);
    }
  }

  function Other(reference: string): string -> bool
  {
    d => d != reference
  }

  /** `sorted_devs`: the reference first, then the others sorted; only the
      sorted others when the reference is not a device. */
  function DeviceOrder(devices: seq<string>, reference: string): (r: seq<string>)
  {
    var others := Sort(Filter(devices, Other(reference)));
    if reference in devices then [reference] + others else others
  }

  lemma {:induction false} FilterNone(xs: seq<string>, x: string)
    requires x !in xs
    ensures Filter(xs, Other(x)) == xs
    decreases |xs|
  {
    if |xs| > 0 {
      FilterNone(xs[1..], x);
      assert [xs[0]] + xs[1..] == xs;
    }
  }

  lemma {:induction false} FilterOnce(xs: seq<string>, x: string)
    requires Distinct(xs) && x in xs
    ensures multiset(Filter(xs, Other(x))) + multiset{x} == multiset(xs)
    decreases |xs|
  {
    assert xs == [xs[0]] + xs[1..];
    if xs[0] == x {
      assert x !in xs[1..];
      FilterNone(xs[1..], x);
    } else {
      FilterOnce(xs[1..], x);
    }
  }

  /** The export order lists every device once: the reference leads and the
      others follow in sorted order. */
  lemma DeviceOrderPermutes(devices: seq<string>, reference: string)
    requires Distinct(devices)
    ensures multiset(DeviceOrder(devices, reference)) == multiset(devices)
    ensures reference in devices ==> DeviceOrder(devices, reference)[0] == reference
    ensures Sorted(DeviceOrder(devices, reference)[if reference in devices then 1 else 0..])
  {
    var r := DeviceOrder(devices, reference);
    if reference in devices {
      FilterOnce(devices, reference);
      assert r[1..] == Sort(Filter(devices, Other(reference)));
    } else {
      FilterNone(devices, reference);
      assert r[0..] == r;
    }
  }
}

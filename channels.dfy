/** How a sorted file's value columns are resolved into devices for one load
    level and phase (`analyze_sorted_file` in `create_db.py` and
    `daten_aggregator.py`), and which device becomes the reference. */
module Channels {
  import opened Text
  import opened Ordering
  import opened Domain

  // ---------------------------------------------------------------------
  // Header patterns

  /** `{prefix}_{device}_I` (new) and `{prefix}_I_{device}` (old). */
  datatype Format = New | Old

  /** Where the device name starts when the pattern matches at `i`. */
  function GroupStart(f: Format, prefix: string, i: nat): nat
  {
    match f
    case New => i + |prefix| + 1
    case Old => i + |prefix| + 3
  }

  /** Where the device name ends: before the final "_I", or at the end. */
  function GroupEnd(f: Format, col: string): nat
    requires f == New ==> |col| >= 2
  {
    match f
    case New => |col| - 2
    case Old => |col|
  }

  /** `re.search(rf"{prefix}_(.+)_I$", col)` (New) or
      `re.search(rf"{prefix}_I_(.+)$", col)` (Old) matches at position `i`.
      Header names are stripped before matching, so `$` is the end of the
      name; `.+` takes at least one character and no line break. */
  predicate MatchAt(f: Format, col: string, prefix: string, i: nat)
  {
    var start := GroupStart(f, prefix, i);
    var lead := if f == New then prefix + "_" else prefix + "_I_";
    (f == New ==> EndsWith(col, "_I")) &&
    (f == New ==> start + 3 <= |col|) && (f == Old ==> start + 1 <= |col|) &&
    col[i..start] == lead && '\n' !in col[start..GroupEnd(f, col)]
  }

  /** `match.group(1)`. */
  function Group(f: Format, col: string, prefix: string, i: nat): (d: string)
    requires MatchAt(f, col, prefix, i)
    ensures |d| > 0 && '\n' !in d
  {
    col[GroupStart(f, prefix, i)..GroupEnd(f, col)]
  }

  /** `re.search`: the leftmost match at or after `from`. */
  function Search(f: Format, col: string, prefix: string, from: nat): (r: Option<nat>)
    ensures r.Some? ==> from <= r.value && MatchAt(f, col, prefix, r.value)
    ensures r.Some? ==> forall j :: from <= j < r.value ==> !MatchAt(f, col, prefix, j)
    ensures r.None? ==> forall j :: from <= j ==> !MatchAt(f, col, prefix, j)
    decreases |col| - from
  {
    if from >= |col| then None
    else if MatchAt(f, col, prefix, from) then Some(from)
    else Search(f, col, prefix, from + 1)
  }

  /** The device a value column names: the new format wins over the old one. */
  function DeviceOf(col: string, prefix: string): (r: Option<string>)
    ensures r.Some? ==> |r.value| > 0 && '\n' !in r.value
  {
    match Search(New, col, prefix, 0)
    case Some(i) => Some(Group(New, col, prefix, i))
    case None =>
      match Search(Old, col, prefix, 0)
      case Some(i) => Some(Group(Old, col, prefix, i))
      case None => None
  }

  /** A column written in the new format names its device. */
  lemma NewFormatResolves(prefix: string, d: string)
    requires |d| > 0 && '\n' !in d
    ensures DeviceOf(prefix + "_" + d + "_I", prefix) == Some(d)
  {
    var col := prefix + "_" + d + "_I";
    assert col[0..|prefix| + 1] == prefix + "_";
    assert col[|prefix| + 1..|col| - 2] == d;
    assert col[|col| - 2..] == "_I";
    assert MatchAt(New, col, prefix, 0);
  }

  /** A column written in the old format names its device, provided the
      name does not make the column end in "_I" (the new format would win). */
  lemma OldFormatResolves(prefix: string, d: string)
    requires |d| > 0 && '\n' !in d && !EndsWith("_" + d, "_I")
    ensures DeviceOf(prefix + "_I_" + d, prefix) == Some(d)
  {
    var col := prefix + "_I_" + d;
    OldColumnEnd(prefix, d);
    NoNewMatch(col, prefix);
    OldColumnMatches(prefix, d);
    assert Search(Old, col, prefix, 0) == Some(0);
  }

  /** The old-format column ends as "_" followed by the device does. */
  lemma OldColumnEnd(prefix: string, d: string)
    requires |d| > 0 && !EndsWith("_" + d, "_I")
    ensures !EndsWith(prefix + "_I_" + d, "_I")
  {
    var a, b := prefix + "_I", "_" + d;
    assert prefix + "_I_" + d == a + b by {
      assert "_I_" == "_I" + "_";
    }
    SuffixOfConcat(a, b, 2);
  }

  lemma SuffixOfConcat(a: string, b: string, n: nat)
    requires n <= |b|
    ensures (a + b)[|a + b| - n..] == b[|b| - n..]
  {
  }

  /** A column that does not end in "_I" has no new-format match. */
  lemma NoNewMatch(col: string, prefix: string)
    requires !EndsWith(col, "_I")
    ensures Search(New, col, prefix, 0) == None
  {
    forall j ensures !MatchAt(New, col, prefix, j) {
    }
  }

  /** The old pattern matches an old-format column at its start and
      captures the device. */
  lemma OldColumnMatches(prefix: string, d: string)
    requires |d| > 0 && '\n' !in d
    ensures MatchAt(Old, prefix + "_I_" + d, prefix, 0)
    ensures Group(Old, prefix + "_I_" + d, prefix, 0) == d
  {
    var col := prefix + "_I_" + d;
    assert col[0..|prefix| + 3] == prefix + "_I_";
    assert col[|prefix| + 3..] == d;
  }

  // ---------------------------------------------------------------------
  // The columns of one level and phase

  /** `[c for c in value_cols if c.startswith(prefix)]` with
      `value_cols = [c for c in columns if "_I" in c]`. */
  function GroupColumns(names: seq<string>, prefix: string): (r: seq<string>)
    ensures forall c :: c in r <==> c in names && Contains(c, "_I") && StartsWith(c, prefix)
  {
    if |names| == 0 then []
    else
      var last := names[|names| - 1];
      var r := GroupColumns(names[..|names| - 1], prefix) + (if Contains(last, "_I") && StartsWith(last, prefix) then [last] else []);
      assert names == names[..|names| - 1] + [last];
      r
  }

  lemma {:induction false} GroupColumnsAppend(a: seq<string>, b: seq<string>, prefix: string)
    ensures GroupColumns(a + b, prefix) == GroupColumns(a, prefix) + GroupColumns(b, prefix)
    decreases |b|
  {
    if |b| == 0 {
      assert a + b == a;
    } else {
      assert (a + b)[..|a + b| - 1] == a + b[..|b| - 1];
      GroupColumnsAppend(a, b[..|b| - 1], prefix);
    }
  }

  // ---------------------------------------------------------------------
  // devices_map: a Python dict, i.e. unique keys in insertion order

  datatype Entry = Entry(device: string, column: string)

  function Keys(m: seq<Entry>): (r: seq<string>)
    ensures |r| == |m| && forall i :: 0 <= i < |m| ==> r[i] == m[i].device
  {
    seq(|m|, i requires 0 <= i < |m| => m[i].device)
  }

  predicate UniqueKeys(m: seq<Entry>)
  {
    forall i, j :: 0 <= i < j < |m| ==> m[i].device != m[j].device
  }

  /** Where key `k` sits in `m`, if anywhere. */
  function IndexOf(m: seq<Entry>, k: string): (r: Option<nat>)
    ensures r.Some? ==> r.value < |m| && m[r.value].device == k
    ensures r.None? ==> k !in Keys(m)
  {
    if |m| == 0 then None
    else if m[|m| - 1].device == k then Some(|m| - 1)
    else
      var r := IndexOf(m[..|m| - 1], k);
      assert Keys(m) == Keys(m[..|m| - 1]) + [m[|m| - 1].device];
      r
  }

  /** `m[k] = v`: an existing key keeps its place, a new key goes last. */
  function Assign(m: seq<Entry>, k: string, v: string): (r: seq<Entry>)
    requires UniqueKeys(m)
    ensures k in Keys(m) ==> Keys(r) == Keys(m)
    ensures k !in Keys(m) ==> r == m + [Entry(k, v)]
    ensures Entry(k, v) in r
    ensures forall e :: e in r ==> e == Entry(k, v) || (e in m && e.device != k)
    ensures forall e :: e in m && e.device != k ==> e in r
    ensures UniqueKeys(r)
  {
    match IndexOf(m, k)
    case None => m + [Entry(k, v)]
    case Some(i) =>
      ReplaceAt(m, i, k, v);
      m[i := Entry(k, v)]
  }

  /** Overwriting the entry of an existing key. */
  lemma ReplaceAt(m: seq<Entry>, i: nat, k: string, v: string)
    requires UniqueKeys(m) && i < |m| && m[i].device == k
    ensures var r := m[i := Entry(k, v)];
      Keys(r) == Keys(m) && Entry(k, v) in r && UniqueKeys(r) &&
      (forall e :: e in r ==> e == Entry(k, v) || (e in m && e.device != k)) &&
      (forall e :: e in m && e.device != k ==> e in r)
  {
    var r := m[i := Entry(k, v)];
    assert r[i] == Entry(k, v);
    forall e | e in r ensures e == Entry(k, v) || (e in m && e.device != k) {
      var j :| 0 <= j < |r| && r[j] == e;
      if j != i { assert m[j] == e && m[j].device != m[i].device; }
    }
    forall e | e in m && e.device != k ensures e in r {
      var j :| 0 <= j < |m| && m[j] == e;
      assert r[j] == e;
    }
  }

  /** The map `analyze_sorted_file` builds from the group's columns, in order. */
  function DevicesMap(cols: seq<string>, prefix: string): (m: seq<Entry>)
    ensures UniqueKeys(m)
  {
    if |cols| == 0 then []
    else
      var m := DevicesMap(cols[..|cols| - 1], prefix);
      var col := cols[|cols| - 1];
      match DeviceOf(col, prefix)
      case None => m
      case Some(d) => Assign(m, d, col)
  }

  /** The loop filling `devices_map`. */
  method BuildDevicesMap(cols: seq<string>, prefix: string) returns (m: seq<Entry>)
    ensures m == DevicesMap(cols, prefix)
  {
    m := [];
    var i := 0;
    while i < |cols|
      invariant 0 <= i <= |cols|
      invariant m == DevicesMap(cols[..i], prefix)
    {
      assert cols[..i + 1][..i] == cols[..i];
      var d := DeviceOf(cols[i], prefix);
      if d.Some? {
        m := Assign(m, d.value, cols[i]);
      }
      i := i + 1;
    }
    assert cols[..i] == cols;
  }

  /** Every entry is one of the columns, naming the entry's device; the keys
      are unique. */
  lemma {:induction false} DevicesMapSound(cols: seq<string>, prefix: string)
    ensures UniqueKeys(DevicesMap(cols, prefix))
    ensures forall e :: e in DevicesMap(cols, prefix) ==> e.column in cols && DeviceOf(e.column, prefix) == Some(e.device)
    decreases |cols|
  {
    if |cols| > 0 {
      DevicesMapSound(cols[..|cols| - 1], prefix);
    }
  }

  /** Every device some column names is a key. */
  lemma {:induction false} DevicesMapComplete(cols: seq<string>, prefix: string)
    ensures forall c :: c in cols && DeviceOf(c, prefix).Some? ==> DeviceOf(c, prefix).value in Keys(DevicesMap(cols, prefix))
    decreases |cols|
  {
    if |cols| > 0 {
      var init := cols[..|cols| - 1];
      DevicesMapComplete(init, prefix);
      var m := DevicesMap(init, prefix);
      var col := cols[|cols| - 1];
      forall c | c in cols && DeviceOf(c, prefix).Some?
        ensures DeviceOf(c, prefix).value in Keys(DevicesMap(cols, prefix))
      {
        var d := DeviceOf(c, prefix).value;
        if c != col {
          assert c in init;
          var k :| 0 <= k < |m| && m[k].device == d;
          match DeviceOf(col, prefix)
          case None =>
          case Some(d') =>
            if d != d' {
              assert m[k] in Assign(m, d', col);
            }
        }
      }
    }
  }

  /** When a device is named by several columns, the last of them wins. */
  lemma {:induction false} DevicesMapLastWins(cols: seq<string>, prefix: string, i: nat)
    requires i < |cols| && DeviceOf(cols[i], prefix).Some?
    requires forall j :: i < j < |cols| ==> DeviceOf(cols[j], prefix) != DeviceOf(cols[i], prefix)
    ensures Entry(DeviceOf(cols[i], prefix).value, cols[i]) in DevicesMap(cols, prefix)
    decreases |cols|
  {
    var init := cols[..|cols| - 1];
    if i < |cols| - 1 {
      assert init[i] == cols[i];
      DevicesMapLastWins(init, prefix, i);
    }
  }

  /** A group whose columns name no device gives an empty map, and only then. */
  lemma DevicesMapEmpty(cols: seq<string>, prefix: string)
    ensures DevicesMap(cols, prefix) == [] <==> forall c :: c in cols ==> DeviceOf(c, prefix) == None
  {
    DevicesMapSound(cols, prefix);
    DevicesMapComplete(cols, prefix);
  }

  // ---------------------------------------------------------------------
  // Reference device

  /** `REF_KEYWORDS` of `create_db.py`. */
  const ReferenceKeywords: seq<string> := ["pac1", "einspeisung", "ref", "source", "norm", "powermeter"]

  /** `REF_KEYWORDS` of `daten_aggregator.py`. */
  const LegacyReferenceKeywords: seq<string> := ["pac1", "einspeisung", "ref", "source", "norm"]

  /** The first device whose lower-cased name contains `kw`. */
  function FirstWith(devices: seq<string>, kw: string): (r: Option<nat>)
    ensures r.Some? ==> r.value < |devices| && Contains(Lower(devices[r.value]), kw)
    ensures r.Some? ==> forall j :: 0 <= j < r.value ==> !Contains(Lower(devices[j]), kw)
    ensures r.None? ==> forall j :: 0 <= j < |devices| ==> !Contains(Lower(devices[j]), kw)
  {
    if |devices| == 0 then None
    else if Contains(Lower(devices[0]), kw) then Some(0)
    else match FirstWith(devices[1..], kw)
      case None => None
      case Some(k) => Some(k + 1)
  }

  /** The device chosen by the first keyword that hits any device. */
  function KeywordReference(devices: seq<string>, keywords: seq<string>): (r: Option<nat>)
    ensures r.Some? ==> r.value < |devices|
    ensures r.Some? ==> exists k :: 0 <= k < |keywords| && FirstWith(devices, keywords[k]) == r && (forall j :: 0 <= j < k ==> FirstWith(devices, keywords[j]) == None)
    ensures r.None? <==> forall k :: 0 <= k < |keywords| ==> FirstWith(devices, keywords[k]) == None
  {
    if |keywords| == 0 then None
    else
      var hit := FirstWith(devices, keywords[0]);
      if hit.Some? then hit
      else
        var r := KeywordReference(devices, keywords[1..]);
        assert forall k :: 1 <= k < |keywords| ==> keywords[1..][k - 1] == keywords[k];
        r
  }

  /** The reference device: by keyword, else the alphabetically first. */
  function Reference(devices: seq<string>, keywords: seq<string>): string
    requires |devices| > 0
  {
    match KeywordReference(devices, keywords)
    case Some(i) => devices[i]
    case None => Sort(devices)[0]
  }

  /** The reference is always one of the devices (`devices_map[ref]` never fails). */
  lemma ReferenceIsDevice(devices: seq<string>, keywords: seq<string>)
    requires |devices| > 0
    ensures Reference(devices, keywords) in devices
  {
    if KeywordReference(devices, keywords).None? {
      SortHeadIsLeast(devices);
    }
  }

  /** Without a keyword hit, the reference is the least device name, so it
      does not depend on the order of the columns. */
  lemma FallbackIsLeast(devices: seq<string>, keywords: seq<string>)
    requires |devices| > 0
    requires forall k, i :: 0 <= k < |keywords| && 0 <= i < |devices| ==> !Contains(Lower(devices[i]), keywords[k])
    ensures Reference(devices, keywords) in devices
    ensures forall d :: d in devices ==> !Less(d, Reference(devices, keywords))
  {
    SortHeadIsLeast(devices);
    forall k | 0 <= k < |keywords| ensures FirstWith(devices, keywords[k]) == None {
    }
  }

  /** A keyword earlier in the list wins over a later one, whatever the
      device order: a device holding the first keyword becomes reference. */
  lemma FirstKeywordWins(devices: seq<string>, keywords: seq<string>, i: nat)
    requires |keywords| > 0 && i < |devices| && Contains(Lower(devices[i]), keywords[0])
    ensures Contains(Lower(Reference(devices, keywords)), keywords[0])
  {
    var hit := FirstWith(devices, keywords[0]);
    assert hit.Some?;
  }

  /** The inner loop: the first device containing `kw`. */
  method FindFirstWith(devices: seq<string>, kw: string) returns (r: Option<nat>)
    ensures r == FirstWith(devices, kw)
  {
    r := None;
    var i := 0;
    while i < |devices| && r.None?
      invariant 0 <= i <= |devices|
      invariant r.None? ==> forall j :: 0 <= j < i ==> !Contains(Lower(devices[j]), kw)
      invariant r.Some? ==> r.value == i - 1 && r.value < |devices| && Contains(Lower(devices[r.value]), kw) &&
                            (forall j :: 0 <= j < r.value ==> !Contains(Lower(devices[j]), kw))
    {
      if Contains(Lower(devices[i]), kw) {
        r := Some(i);
      }
      i := i + 1;
    }
    FirstWithUnique(devices, kw, r);
  }

  lemma FirstWithUnique(devices: seq<string>, kw: string, r: Option<nat>)
    requires r.Some? ==> r.value < |devices| && Contains(Lower(devices[r.value]), kw) &&
                         (forall j :: 0 <= j < r.value ==> !Contains(Lower(devices[j]), kw))
    requires r.None? ==> forall j :: 0 <= j < |devices| ==> !Contains(Lower(devices[j]), kw)
    ensures r == FirstWith(devices, kw)
  {
  }

  /** The reference loop: keywords outside, devices inside, first hit wins. */
  method SelectReference(m: seq<Entry>, keywords: seq<string>) returns (reference: string)
    requires |m| > 0
    ensures reference == Reference(Keys(m), keywords)
  {
    var devices := Keys(m);
    var found: Option<nat> := None;
    var k := 0;
    while k < |keywords| && found.None?
      invariant 0 <= k <= |keywords|
      invariant found.None? ==> KeywordReference(devices, keywords) == KeywordReference(devices, keywords[k..])
      invariant found.Some? ==> found == KeywordReference(devices, keywords)
    {
      assert keywords[k..][1..] == keywords[k + 1..];
      found := FindFirstWith(devices, keywords[k]);
      k := k + 1;
    }
    if found.Some? {
      reference := devices[found.value];
    } else {
      assert keywords[k..] == [];
      reference := Sort(devices)[0];
    }
  }
}

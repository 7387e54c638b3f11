/** The sample windows an operator picks per load level in the export tools
    (`messdaten_selektor.py`, `plotly_chart.py`): the page's start and end
    fields, the callback that proposes a start 500 samples before the end,
    the reset, and the recomputation of saved windows by the duration fix
    (`fix_duration_600.py`). */
module Windows {
  import opened Text
  import opened Domain

  /** The window length the export tools propose. */
  const ProposedLength: nat := 500

  /** `NEW_DURATION` of the duration fix (5 minutes at 2 Hz, not 600). */
  const FixedLength: nat := 560

  /** `max(0, end - length)`: the start of a window of at most `length`
      samples ending at `end`. */
  function WindowStart(end: int, length: nat): (s: int)
    ensures s >= 0 && s >= end - length
    ensures s == 0 || s == end - length
  {
    if end - length > 0 then end - length else 0
  }

  /** The samples `[start, end)` of one load level. */
  datatype Window = Window(start: int, end: int)

  /** `s > 0 and e > s`: only such a window is exported. */
  predicate Exported(w: Window)
  {
    w.start > 0 && w.end > w.start
  }

  /** A window proposed for `end` is exported exactly when `end` exceeds the
      proposed length, and then it holds exactly `length` samples. */
  lemma ProposedWindow(end: int, length: nat)
    requires length > 0
    ensures var w := Window(WindowStart(end, length), end);
      (Exported(w) <==> end > length) && (Exported(w) ==> w.end - w.start == length)
  {
  }

  // ---------------------------------------------------------------------
  // The page's number fields

  /** The key of the start field of `level` in the session state. */
  function StartKey(level: nat): string { "s_" + NatToString(level) }

  /** The key of the end field of `level`. */
  function EndKey(level: nat): string { "e_" + NatToString(level) }

  lemma NatToStringInjective(a: nat, b: nat)
    requires NatToString(a) == NatToString(b)
    ensures a == b
  {
    NatToStringDigits(a);
    NatToStringDigits(b);
  }

  /** Distinct levels have distinct fields, and no start field is an end field. */
  lemma FieldKeysDistinct(a: nat, b: nat)
    ensures StartKey(a) != EndKey(b)
    ensures StartKey(a) == StartKey(b) ==> a == b
    ensures EndKey(a) == EndKey(b) ==> a == b
  {
    assert StartKey(a)[0] != EndKey(b)[0];
    if StartKey(a) == StartKey(b) {
      assert StartKey(a)[2..] == NatToString(a) && StartKey(b)[2..] == NatToString(b);
      NatToStringInjective(a, b);
    }
    if EndKey(a) == EndKey(b) {
      assert EndKey(a)[2..] == NatToString(a) && EndKey(b)[2..] == NatToString(b);
      NatToStringInjective(a, b);
    }
  }

  /** The start and end keys of `levels`. */
  function FieldKeys(levels: seq<nat>): set<string>
  {
    (set l | l in levels :: StartKey(l)) + (set l | l in levels :: EndKey(l))
  }

  /** Both fields of every level have a value. */
  predicate HasFields(values: map<string, nat>, levels: seq<nat>)
  {
    forall l :: l in levels ==> StartKey(l) in values && EndKey(l) in values
  }

  /** The session after the start-up loop: a field without a value gets 0,
      every other entry is kept. */
  function WithFields(values: map<string, nat>, levels: seq<nat>): (r: map<string, nat>)
    ensures HasFields(r, levels)
    ensures forall k :: k in values ==> k in r && r[k] == values[k]
    ensures forall k :: k in r ==> k in values || k in FieldKeys(levels)
  {
    map k | k in values.Keys + FieldKeys(levels) :: if k in values then values[k] else 0
  }

  /** Running the start-up loop on every rerun of the page changes nothing
      once the fields exist. */
  lemma WithFieldsIdempotent(values: map<string, nat>, levels: seq<nat>)
    ensures WithFields(WithFields(values, levels), levels) == WithFields(values, levels)
  {
  }

  /** The session after `reset_values`: every field of `levels` is 0, every
      other entry is kept. */
  function Cleared(values: map<string, nat>, levels: seq<nat>): (r: map<string, nat>)
    ensures HasFields(r, levels)
    ensures forall l :: l in levels ==> r[StartKey(l)] == 0 && r[EndKey(l)] == 0
    ensures forall k :: k in values && k !in FieldKeys(levels) ==> k in r && r[k] == values[k]
    ensures forall k :: k in r ==> k in values || k in FieldKeys(levels)
  {
    map k | k in values.Keys + FieldKeys(levels) :: if k in FieldKeys(levels) then 0 else values[k]
  }

  /** The session after `update_start_callback(level)`: the start field
      proposes a window of 500 samples ending at the end field. */
  function StartUpdated(values: map<string, nat>, level: nat): (r: map<string, nat>)
    requires EndKey(level) in values
  {
    values[StartKey(level) := WindowStart(values[EndKey(level)], ProposedLength) as nat]
  }

  /** `start_end_map`: the window of every level as the fields show it. */
  function WindowsOf(values: map<string, nat>, levels: seq<nat>): (w: map<nat, Window>)
    requires HasFields(values, levels)
    ensures forall l :: l in w <==> l in levels
  {
    map l | l in levels :: Window(values[StartKey(l)], values[EndKey(l)])
  }

  /** After a reset no level is exported. */
  lemma NothingExportedAfterReset(values: map<string, nat>, level: nat)
    requires level in TargetLevels
    ensures !Exported(WindowsOf(Cleared(values, TargetLevels), TargetLevels)[level])
  {
  }

  /** After the callback for `level`, that level's window starts at most 500
      samples before its end and never below 0; it is exported exactly when
      the end exceeds 500; the windows of the other levels are unchanged. */
  lemma UpdatedWindow(values: map<string, nat>, level: nat, other: nat)
    requires HasFields(values, TargetLevels) && level in TargetLevels && other in TargetLevels
    ensures var w := WindowsOf(StartUpdated(values, level), TargetLevels)[level];
      0 <= w.start <= w.end && w.end == values[EndKey(level)] && w.end - w.start <= ProposedLength &&
      (Exported(w) <==> w.end > ProposedLength)
    ensures other != level ==>
      WindowsOf(StartUpdated(values, level), TargetLevels)[other] == WindowsOf(values, TargetLevels)[other]
  {
    var r := StartUpdated(values, level);
    FieldKeysDistinct(level, level);
    FieldKeysDistinct(level, other);
    FieldKeysDistinct(other, level);
    ProposedWindow(values[EndKey(level)], ProposedLength);
    assert r[EndKey(level)] == values[EndKey(level)];
    if other != level {
      assert r[StartKey(other)] == values[StartKey(other)];
      assert r[EndKey(other)] == values[EndKey(other)];
    }
  }

  /** `st.session_state`, restricted to the page's number fields (their
      widgets have `min_value=0`). */
  class Session {
    var values: map<string, nat>

    /** A fresh browser session. */
    constructor ()
      ensures values == map[]
    {
      values := map[];
    }

    /** The start-up loop: `if key not in st.session_state: ... = 0`. */
    method InitFields(levels: seq<nat>)
      modifies this
      ensures values == WithFields(old(values), levels)
    {
      var i := 0;
      while i < |levels|
        invariant 0 <= i <= |levels|
        invariant forall k :: k in values <==> k in old(values) || k in FieldKeys(levels[..i])
        invariant forall k :: k in values ==> values[k] == if k in old(values) then old(values)[k] else 0
      {
        var level := levels[i];
        assert levels[..i + 1] == levels[..i] + [level];
        if StartKey(level) !in values {
          values := values[StartKey(level) := 0];
        }
        if EndKey(level) !in values {
          values := values[EndKey(level) := 0];
        }
        i := i + 1;
      }
      assert levels[..i] == levels;
    }

    /** `update_start_callback(lvl)`: runs when the end field of `level` changes. */
    method UpdateStart(level: nat)
      requires EndKey(level) in values
      modifies this
      ensures values == StartUpdated(old(values), level)
    {
      var currentEnd := values[EndKey(level)];
      var newStart := WindowStart(currentEnd, ProposedLength);
      values := values[StartKey(level) := newStart as nat];
    }

    /** `reset_values`: runs when another file is chosen. */
    method ResetValues(levels: seq<nat>)
      modifies this
      ensures values == Cleared(old(values), levels)
    {
      var i := 0;
      while i < |levels|
        invariant 0 <= i <= |levels|
        invariant forall k :: k in values <==> k in old(values) || k in FieldKeys(levels[..i])
        invariant forall k :: k in values ==> values[k] == if k in FieldKeys(levels[..i]) then 0 else old(values)[k]
      {
        var level := levels[i];
        assert levels[..i + 1] == levels[..i] + [level];
        values := values[StartKey(level) := 0];
        values := values[EndKey(level) := 0];
        i := i + 1;
      }
      assert levels[..i] == levels;
    }

    /** The export button's loop collecting `start_end_map`. */
    method StartEndMap(levels: seq<nat>) returns (windows: map<nat, Window>)
      requires HasFields(values, levels)
      ensures windows == WindowsOf(values, levels)
    {
      windows := map[];
      var i := 0;
      while i < |levels|
        invariant 0 <= i <= |levels|
        invariant windows == WindowsOf(values, levels[..i])
      {
        var level := levels[i];
        assert levels[..i + 1] == levels[..i] + [level];
        windows := windows[level := Window(values[StartKey(level)], values[EndKey(level)])];
        i := i + 1;
      }
      assert levels[..i] == levels;
    }
  }

  // ---------------------------------------------------------------------
  // Recomputed windows of the duration fix

  /** The new window of one saved range: `(0, 0)` for an end of 0, else a
      window of at most 560 samples ending at the same end. */
  function Recomputed(w: Window): (r: Window)
    ensures r.end == w.end
  {
    if w.end == 0 then Window(0, 0) else Window(WindowStart(w.end, FixedLength), w.end)
  }

  /** The special case for an end of 0 gives what the general rule gives. */
  lemma RecomputedIsProposal(w: Window)
    ensures Recomputed(w) == Window(WindowStart(w.end, FixedLength), w.end)
  {
  }

  /** After the fix a level is exported exactly when its end exceeds 560,
      and then with exactly 560 samples; its old start plays no part. */
  lemma RecomputedExported(w: Window)
    ensures Exported(Recomputed(w)) <==> w.end > FixedLength
    ensures Exported(Recomputed(w)) ==> Recomputed(w).end - Recomputed(w).start == FixedLength
    ensures forall s :: Recomputed(Window(s, w.end)) == Recomputed(w)
  {
    RecomputedIsProposal(w);
    ProposedWindow(w.end, FixedLength);
  }

  /** Running the fix twice gives the windows of running it once. */
  lemma RecomputedIdempotent(w: Window)
    ensures Recomputed(Recomputed(w)) == Recomputed(w)
  {
  }

  /** The saved windows of one file after the fix. */
  function RecomputedRanges(ranges: map<string, Window>): (r: map<string, Window>)
    ensures r.Keys == ranges.Keys
  {
    map k | k in ranges :: Recomputed(ranges[k])
  }

  /** The loop building `new_ranges`. */
  method RecomputeRanges(ranges: map<string, Window>) returns (newRanges: map<string, Window>)
    ensures newRanges == RecomputedRanges(ranges)
  {
    newRanges := map[];
    var todo := ranges.Keys;
    while todo != {}
      invariant todo <= ranges.Keys
      invariant newRanges.Keys == ranges.Keys - todo
      invariant forall k :: k in newRanges ==> newRanges[k] == Recomputed(ranges[k])
      decreases todo
    {
      var key :| key in todo;
      var w := ranges[key];
      if w.end == 0 {
        newRanges := newRanges[key := Window(0, 0)];
      } else {
        var newStart := WindowStart(w.end, FixedLength);
        newRanges := newRanges[key := Window(newStart, w.end)];
      }
      todo := todo - {key};
    }
  }
}

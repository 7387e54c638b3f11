/** The two ways the export tools assemble an output table from named
    series. `df[name] = series` on a growing `pd.DataFrame()`
    (`messdaten_selektor.py`, `plotly_chart.py`, `manual_tagger.py`): the
    first series fixes the row index, and every later series is aligned to
    it. `pd.DataFrame(dict)` (`fix_duration_600.py`): every series is aligned
    to the union of all indices. All series here carry the index `0..n-1`. */
module Frames {
  import opened Domain
  import opened Ordering

  /** `series.reindex(range(n))` for a series indexed `0..|cells|-1`:
      surplus cells are cut off, missing ones read as NaN. */
  function Fit(cells: seq<Option<real>>, n: nat): (r: seq<Option<real>>)
    ensures |r| == n
    ensures forall k :: 0 <= k < n ==> r[k] == if k < |cells| then cells[k] else None
  {
    seq(n, k requires 0 <= k < n => if k < |cells| then cells[k] else None)
  }

  /** Where a column of that name sits. */
  function NameIndex(table: seq<Column>, name: string): (r: Option<nat>)
    ensures r.Some? ==> r.value < |table| && table[r.value].name == name
    ensures r.None? ==> name !in Names(table)
  {
    if |table| == 0 then None
    else if table[|table| - 1].name == name then Some(|table| - 1)
    else match NameIndex(table[..|table| - 1], name)
      case Some(i) => Some(i)
      case None => assert Names(table) == Names(table[..|table| - 1]) + [table[|table| - 1].name]; None
  }

  /** Storing under a name: a column (or dict entry) of that name is
      replaced where it stands, otherwise the new one is appended. */
  function Put(table: seq<Column>, c: Column): (r: seq<Column>)
    ensures forall n :: n in Names(r) <==> n in Names(table) || n == c.name
  {
    match NameIndex(table, c.name)
    case Some(i) =>
      var r := table[i := c];
      assert forall n :: n in Names(r) <==> n in Names(table) || n == c.name by {
        forall n ensures n in Names(r) <==> n in Names(table) || n == c.name {
          if n in Names(r) {
            var j :| 0 <= j < |r| && Names(r)[j] == n;
            if j != i {
              assert Names(table)[j] == n;
            }
          }
          if n in Names(table) && n != c.name {
            var j :| 0 <= j < |table| && Names(table)[j] == n;
            assert Names(r)[j] == n;
          }
          if n == c.name {
            assert Names(r)[i] == n;
          }
        }
      }
      r
    case None =>
      assert Names(table + [c]) == Names(table) + [c.name];
      table + [c]
  }

  /** The number of rows of a frame built by column assignment: the first
      assigned series sets the index. */
  function RowCount(frame: seq<Column>, c: Column): nat
  {
    if |frame| == 0 then |c.cells| else |frame[0].cells|
  }

  /** `df[c.name] = series`. */
  function AssignColumn(frame: seq<Column>, c: Column): seq<Column>
  {
    Put(frame, Column(c.name, Fit(c.cells, RowCount(frame, c))))
  }

  /** The frame after assigning `cols` in order to an empty `pd.DataFrame()`:
      it has the names of `cols`, and every column has as many rows as the
      first series assigned. */
  function FrameOf(cols: seq<Column>): (r: seq<Column>)
    ensures forall n :: n in Names(r) <==> n in Names(cols)
    ensures |cols| > 0 ==> |r| > 0
    ensures forall i :: 0 <= i < |r| ==> |cols| > 0 && |r[i].cells| == |cols[0].cells|
  {
    if |cols| == 0 then []
    else
      var init := FrameOf(cols[..|cols| - 1]);
      assert Names(cols) == Names(cols[..|cols| - 1]) + [cols[|cols| - 1].name];
      AssignColumn(init, cols[|cols| - 1])
  }

  /** A dict filled by `d[c.name] = series` in order. */
  function DictOf(cols: seq<Column>): (r: seq<Column>)
    ensures forall n :: n in Names(r) <==> n in Names(cols)
  {
    if |cols| == 0 then []
    else
      assert Names(cols) == Names(cols[..|cols| - 1]) + [cols[|cols| - 1].name];
      Put(DictOf(cols[..|cols| - 1]), cols[|cols| - 1])
  }

  /** The length of the longest series. */
  function MaxLength(cols: seq<Column>): (n: nat)
    ensures forall i :: 0 <= i < |cols| ==> |cols[i].cells| <= n
    ensures |cols| > 0 ==> exists i :: 0 <= i < |cols| && |cols[i].cells| == n
  {
    if |cols| == 0 then 0
    else
      var m := MaxLength(cols[..|cols| - 1]);
      var last := |cols[|cols| - 1].cells|;
      if last >= m then last
      else
        assert forall j :: 0 <= j < |cols| - 1 ==> cols[..|cols| - 1][j] == cols[j];
        m
  }

  /** `pd.DataFrame(d)`: the index is the union of all indices, so every
      series is padded with NaN to the longest one. */
  function DictFrame(d: seq<Column>): (r: seq<Column>)
    ensures Names(r) == Names(d)
  {
    var n := MaxLength(d);
    var r := seq(|d|, i requires 0 <= i < |d| => Column(d[i].name, Fit(d[i].cells, n)));
    assert Names(r) == Names(d);
    r
  }

  /** `pd.DataFrame(d)` for the dict filled from `cols`. */
  function Table(cols: seq<Column>): (r: seq<Column>)
    ensures forall n :: n in Names(r) <==> n in Names(cols)
  {
    DictFrame(DictOf(cols))
  }

  /** Assigning one more series to the frame. */
  lemma FrameOfSnoc(cols: seq<Column>, c: Column)
    ensures FrameOf(cols + [c]) == AssignColumn(FrameOf(cols), c)
  {
    assert (cols + [c])[..|cols|] == cols;
  }

  /** Storing one more series in the dict. */
  lemma DictOfSnoc(cols: seq<Column>, c: Column)
    ensures DictOf(cols + [c]) == Put(DictOf(cols), c)
  {
    assert (cols + [c])[..|cols|] == cols;
  }

  // ---------------------------------------------------------------------
  // Distinct names

  lemma NotInPrefixNames(cols: seq<Column>, k: nat)
    requires k < |cols| && Distinct(Names(cols))
    ensures cols[k].name !in Names(cols[..k])
  {
  }

  lemma DistinctPrefix(cols: seq<Column>, k: nat)
    requires k <= |cols| && Distinct(Names(cols))
    ensures Distinct(Names(cols[..k]))
  {
    forall i, j | 0 <= i < j < k ensures Names(cols[..k])[i] != Names(cols[..k])[j] {
      assert Names(cols)[i] != Names(cols)[j];
    }
  }

  /** Every series of `cols` cut or padded to `n` cells. */
  function Aligned(cols: seq<Column>, n: nat): (r: seq<Column>)
    ensures |r| == |cols|
    ensures forall i :: 0 <= i < |cols| ==> r[i] == Column(cols[i].name, Fit(cols[i].cells, n))
  {
    seq(|cols|, i requires 0 <= i < |cols| => Column(cols[i].name, Fit(cols[i].cells, n)))
  }

  lemma AlignedSnoc(cols: seq<Column>, n: nat)
    requires |cols| > 0
    ensures Aligned(cols, n) == Aligned(cols[..|cols| - 1], n) + [Column(cols[|cols| - 1].name, Fit(cols[|cols| - 1].cells, n))]
  {
  }

  /** With distinct names, assignment keeps every series in its place, cut
      or padded to the length of the first one. */
  lemma {:induction false} FrameOfDistinct(cols: seq<Column>)
    requires |cols| > 0 && Distinct(Names(cols))
    ensures FrameOf(cols) == Aligned(cols, |cols[0].cells|)
    decreases |cols|
  {
    var last := cols[|cols| - 1];
    var init := cols[..|cols| - 1];
    var n := |cols[0].cells|;
    if |init| > 0 {
      DistinctPrefix(cols, |cols| - 1);
      FrameOfDistinct(init);
      assert init[0] == cols[0];
    }
    NotInPrefixNames(cols, |cols| - 1);
    var pre := FrameOf(init);
    assert pre == Aligned(init, n);
    assert NameIndex(pre, last.name) == None;
    assert RowCount(pre, last) == n;
    AlignedSnoc(cols, n);
  }

  /** With distinct names, the dict holds the series as filled in. */
  lemma {:induction false} DictOfDistinct(cols: seq<Column>)
    requires Distinct(Names(cols))
    ensures DictOf(cols) == cols
    decreases |cols|
  {
    if |cols| > 0 {
      DistinctPrefix(cols, |cols| - 1);
      DictOfDistinct(cols[..|cols| - 1]);
      NotInPrefixNames(cols, |cols| - 1);
    }
  }

  /** A table built from a dict with distinct names keeps every series in
      full: its first cells are the series and only NaN follows. */
  lemma TableKeepsSeries(cols: seq<Column>, i: nat)
    requires Distinct(Names(cols)) && i < |cols|
    ensures |Table(cols)| == |cols| && Table(cols)[i].name == cols[i].name
    ensures |cols[i].cells| <= |Table(cols)[i].cells|
    ensures Table(cols)[i].cells[..|cols[i].cells|] == cols[i].cells
    ensures forall k :: |cols[i].cells| <= k < |Table(cols)[i].cells| ==> Table(cols)[i].cells[k] == None
  {
    DictOfDistinct(cols);
    DictFrameAt(cols, i);
    var c := cols[i].cells;
    var f := Fit(c, MaxLength(cols));
    assert f[..|c|] == c;
  }

  /** Column `i` of the frame built from a dict: its series padded to the
      longest. */
  lemma DictFrameAt(d: seq<Column>, i: nat)
    requires i < |d|
    ensures |DictFrame(d)| == |d| && DictFrame(d)[i] == Column(d[i].name, Fit(d[i].cells, MaxLength(d)))
  {
  }

  /** Assignment cuts every later series to the length of the first one:
      with distinct names, a later series longer than the first loses its
      tail. */
  lemma FrameCutsLongerSeries(cols: seq<Column>, i: nat)
    requires Distinct(Names(cols)) && 0 < i < |cols|
    requires |cols[i].cells| > |cols[0].cells|
    ensures |FrameOf(cols)| == |cols| && FrameOf(cols)[i].name == cols[i].name
    ensures FrameOf(cols)[i].cells == cols[i].cells[..|cols[0].cells|]
    ensures FrameOf(cols)[i].cells != cols[i].cells
  {
    FrameOfDistinct(cols);
  }

  /** A dict of series of one length becomes a frame that holds them as
      they are. */
  lemma TableOfEqualLengths(cols: seq<Column>, n: nat)
    requires Distinct(Names(cols))
    requires forall i :: 0 <= i < |cols| ==> |cols[i].cells| == n
    ensures Table(cols) == cols
  {
    DictOfDistinct(cols);
    if |cols| > 0 {
      var m := MaxLength(cols);
      assert m == n;
      forall i | 0 <= i < |cols| ensures Fit(cols[i].cells, m) == cols[i].cells {
      }
    }
  }

  /** When all series have one length, both ways build the same table. */
  lemma FrameIsTableForEqualLengths(cols: seq<Column>)
    requires Distinct(Names(cols)) && |cols| > 0
    requires forall i :: 0 <= i < |cols| ==> |cols[i].cells| == |cols[0].cells|
    ensures FrameOf(cols) == Table(cols)
  {
    FrameOfDistinct(cols);
    DictOfDistinct(cols);
    var n := MaxLength(cols);
    assert n == |cols[0].cells|;
    forall i | 0 <= i < |cols| ensures Fit(cols[i].cells, n) == cols[i].cells {
    }
  }
}

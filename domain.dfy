/** Vocabulary shared by every stage of the pipeline: the load levels and
    phases a measurement is taken at, numeric columns of a parsed CSV table
    and the two ways pandas treats their non-numeric cells. */
module Domain {
  import opened Text

  datatype Option<T> = None | Some(value: T)

  /** A cell of the store: a number, a string, or missing (NaN/None). */
  datatype Cell = Num(x: real) | Str(s: string) | Missing

  /** Target load levels in percent of the rated current. */
  const TargetLevels: seq<nat> := [5, 20, 50, 80, 90, 100, 120]

  const Phases: seq<string> := ["L1", "L2", "L3"]

  /** One column of a parsed CSV table after `pd.to_numeric(errors="coerce")`:
      `None` stands for a cell that was missing or not a number (NaN). */
  datatype Column = Column(name: string, cells: seq<Option<real>>)

  /** `.dropna()`: the numeric cells, in order. */
  function DropMissing(cells: seq<Option<real>>): (r: seq<real>)
    ensures |r| <= |cells|
    ensures forall x :: x in r ==> Some(x) in cells
    ensures (forall k :: 0 <= k < |cells| ==> cells[k] == None) <==> r == []
  {
    if |cells| == 0 then []
    else if cells[0].Some? then [cells[0].value] + DropMissing(cells[1..])
    else DropMissing(cells[1..])
  }

  /** `.fillna(0)`: the cells with every missing one read as 0. */
  function ZeroMissing(cells: seq<Option<real>>): (r: seq<real>)
    ensures |r| == |cells|
    ensures forall k :: 0 <= k < |cells| ==> r[k] == if cells[k].Some? then cells[k].value else 0.0
  {
    seq(|cells|, k requires 0 <= k < |cells| => if cells[k].Some? then cells[k].value else 0.0)
  }

  /** A list comprehension `[x for x in xs if keep(x)]`. */
  function Filter<T(!new)>(xs: seq<T>, keep: T -> bool): (r: seq<T>)
    ensures |r| <= |xs|
    ensures forall x :: x in r <==> x in xs && keep(x)
  {
    if |xs| == 0 then []
    else (if keep(xs[0]) then [xs[0]] else []) + Filter(xs[1..], keep)
  }

  /** Filtering one more element. */
  lemma {:induction false} FilterSnoc<T(!new)>(xs: seq<T>, x: T, keep: T -> bool)
    ensures Filter(xs + [x], keep) == Filter(xs, keep) + (if keep(x) then [x] else [])
    decreases |xs|
  {
    if |xs| > 0 {
      var head: seq<T> := if keep(xs[0]) then [xs[0]] else [];
      var last: seq<T> := if keep(x) then [x] else [];
      assert (xs + [x])[1..] == xs[1..] + [x];
      FilterSnoc(xs[1..], x, keep);
      assert Filter(xs + [x], keep) == head + (Filter(xs[1..], keep) + last);
      assert Filter(xs, keep) == head + Filter(xs[1..], keep);
    }
  }

  /** The index of the first element satisfying `p`: what a search loop
      that breaks at the first hit finds. */
  function FirstIndex<T>(xs: seq<T>, p: T -> bool): (r: Option<nat>)
    ensures r.Some? ==> r.value < |xs| && p(xs[r.value])
    ensures r.Some? ==> forall k :: 0 <= k < r.value ==> !p(xs[k])
    ensures r.None? ==> forall k :: 0 <= k < |xs| ==> !p(xs[k])
  {
    if |xs| == 0 then None
    else if p(xs[0]) then Some(0)
    else match FirstIndex(xs[1..], p)
      case None => None
      case Some(k) => Some(k + 1)
  }

  /** Whatever index is first to satisfy `p` is the one `FirstIndex` names. */
  lemma {:induction false} FirstIndexIs<T>(xs: seq<T>, p: T -> bool, i: nat)
    requires i <= |xs|
    requires forall k :: 0 <= k < i ==> !p(xs[k])
    requires i < |xs| ==> p(xs[i])
    ensures FirstIndex(xs, p) == if i < |xs| then Some(i) else None
    decreases i
  {
    if i > 0 {
      FirstIndexIs(xs[1..], p, i - 1);
    }
  }

  /** A search loop that stops at the first element satisfying `p`. */
  method FirstMatch<T>(xs: seq<T>, p: T -> bool) returns (r: Option<nat>)
    ensures r == FirstIndex(xs, p)
  {
    r := None;
    var i := 0;
    while i < |xs|
      invariant 0 <= i <= |xs|
      invariant forall k :: 0 <= k < i ==> !p(xs[k])
    {
      if p(xs[i]) {
        r := Some(i);
        FirstIndexIs(xs, p, i);
        return;
      }
      i := i + 1;
    }
    FirstIndexIs(xs, p, |xs|);
  }

  function Sum(xs: seq<real>): real
  {
    if |xs| == 0 then 0.0 else xs[0] + Sum(xs[1..])
  }

  /** `Series.mean()` on a non-empty series. */
  function Mean(xs: seq<real>): real
    requires |xs| > 0
  {
    Sum(xs) / (|xs| as real)
  }

  /** `f"{level:02d}_{phase}"`: how a sorted file names the channels of one
      load level and phase. */
  function GroupPrefix(level: nat, phase: string): string
  {
    Pad2(level) + "_" + phase
  }

  /** `df[name]` for a name the table has: the first column of that name. */
  function Cells(table: seq<Column>, name: string): seq<Option<real>>
  {
    if |table| == 0 then [] else if table[0].name == name then table[0].cells else Cells(table[1..], name)
  }

  /** `df.columns = [c.strip() for c in df.columns]`. */
  function StripNames(table: seq<Column>): (r: seq<Column>)
    ensures |r| == |table|
  {
    seq(|table|, i requires 0 <= i < |table| => Column(Strip(table[i].name, Whitespace), table[i].cells))
  }

  function Names(table: seq<Column>): (r: seq<string>)
    ensures |r| == |table| && forall i :: 0 <= i < |table| ==> r[i] == table[i].name
  {
    seq(|table|, i requires 0 <= i < |table| => table[i].name)
  }
}

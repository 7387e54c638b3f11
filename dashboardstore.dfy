/** The dashboard's view of the measurement store (`dashboard_new.py`):
    `load_data` completes the columns the views and the editor rely on, and
    the editor's save button writes the operator columns back, row by row,
    for the files whose name matches. */
module DashboardStore {
  import opened Text
  import opened Domain
  import BaseTypes
  import opened Ordering

  /** A store table: its number of rows and its columns by name. */
  datatype Table = Table(height: nat, cols: map<string, seq<Cell>>)

  /** Every column has one cell per row. */
  predicate Shaped(t: Table)
  {
    forall c :: c in t.cols ==> |t.cols[c]| == t.height
  }

  /** `META_COLS_EDIT`: the columns the operator edits. */
  const EditColumns: seq<string> := ["Preis (€)", "Nennbürde (VA)", "T (mm)", "B (mm)", "H (mm)", "Kommentar"]

  /** The catalogue columns `load_data` fills when the store lacks them. */
  const FixedColumns: seq<string> := ["Hersteller", "Modell", "nennstrom", "Mess-Bürde", "Geometrie"]

  function FixedDefault(col: string): Cell
  {
    if col == "nennstrom" then Num(0.0) else Str("Unbekannt")
  }

  function EditDefault(col: string): Cell
  {
    if col == "Kommentar" then Str("") else Num(0.0)
  }

  /** A column holding `v` in every row. */
  function Fill(height: nat, v: Cell): (r: seq<Cell>)
    ensures |r| == height && forall i :: 0 <= i < height ==> r[i] == v
  {
    seq(height, _ => v)
  }

  // ---------------------------------------------------------------------
  // load_data

  /** `str(cell)` after `astype(str)`; `repr` stands for Python's `str` of
      a float. */
  function AsText(c: Cell, repr: real -> string): string
  {
    match c
    case Str(s) => s
    case Num(x) => repr(x)
    case Missing => "nan"
  }

  /** A `raw_file` written as a one-element list literal (`"['name']"`)
      loses its brackets. */
  function CleanRawFile(x: string): string
  {
    if StartsWith(x, "['") then ReplaceAll(ReplaceAll(x, "['", ""), "']", "") else x
  }

  function CleanedRawFiles(cells: seq<Cell>, repr: real -> string): (r: seq<Cell>)
    ensures |r| == |cells| && forall i :: 0 <= i < |cells| ==> r[i] == Str(CleanRawFile(AsText(cells[i], repr)))
  {
    seq(|cells|, i requires 0 <= i < |cells| => Str(CleanRawFile(AsText(cells[i], repr))))
  }

  /** `df["wandler_key"].apply(extract_base_type)`. */
  function DerivedBaseTypes(keys: seq<Cell>, repr: real -> string): (r: seq<Cell>)
    ensures |r| == |keys| && forall i :: 0 <= i < |keys| ==> r[i] == Str(BaseTypes.BaseTypeOf(AsText(keys[i], repr)))
  {
    seq(|keys|, i requires 0 <= i < |keys| => Str(BaseTypes.BaseTypeOf(AsText(keys[i], repr))))
  }

  /** The text of a comment cell, with the "nan" and "None" of an empty
      cell read as "". */
  function CommentText(c: Cell, repr: real -> string): string
  {
    var s := AsText(c, repr);
    if s == "nan" || s == "None" then "" else s
  }

  function NormalisedComments(cells: seq<Cell>, repr: real -> string): (r: seq<Cell>)
    ensures |r| == |cells| && forall i :: 0 <= i < |cells| ==> r[i] == Str(CommentText(cells[i], repr))
  {
    seq(|cells|, i requires 0 <= i < |cells| => Str(CommentText(cells[i], repr)))
  }

  /** What `load_data` returns: no store file, a store it cannot complete
      (no `base_type` and no `wandler_key` to derive it from: a `KeyError`),
      or the completed table. */
  datatype LoadResult = NoStore | KeyMissing | Loaded(table: Table)

  /** `for col in cols: if col not in df.columns: df[col] = dflt(col)`. */
  method FillMissing(t: Table, cols: seq<string>, dflt: string -> Cell) returns (r: Table)
    requires Shaped(t)
    ensures r.height == t.height && Shaped(r)
    ensures forall c :: c in r.cols <==> c in t.cols || c in cols
    ensures forall c :: c in r.cols ==> r.cols[c] == if c in t.cols then t.cols[c] else Fill(t.height, dflt(c))
  {
    r := t;
    var i := 0;
    while i < |cols|
      invariant 0 <= i <= |cols|
      invariant r.height == t.height && Shaped(r)
      invariant forall c :: c in r.cols <==> c in t.cols || c in cols[..i]
      invariant forall c :: c in r.cols ==> r.cols[c] == if c in t.cols then t.cols[c] else Fill(t.height, dflt(c))
    {
      var col := cols[i];
      assert cols[..i + 1] == cols[..i] + [col];
      if col !in r.cols {
        r := r.(cols := r.cols[col := Fill(r.height, dflt(col))]);
      }
      i := i + 1;
    }
    assert cols[..i] == cols;
  }

  /** The columns of the loaded table: those of the store, `base_type`,
      the catalogue columns and the operator columns. */
  ghost predicate LoadedColumns(t: Table, u: Table)
  {
    u.height == t.height &&
    forall c :: c in u.cols <==> c in t.cols || c == "base_type" || c in FixedColumns || c in EditColumns
  }

  /** The cells of the loaded table: `raw_file` unwrapped, a missing
      `base_type` derived from `wandler_key`, missing catalogue and operator
      columns at their defaults, comments as text with "nan"/"None" read as
      "", every other column as stored. */
  ghost predicate LoadedCells(t: Table, u: Table, repr: real -> string)
  {
    KeptCells(t, u) && RawFileCleaned(t, u, repr) && BaseTypeDerived(t, u, repr) &&
    DefaultsFilled(t, u) && CommentsLoaded(t, u, repr)
  }

  ghost predicate KeptCells(t: Table, u: Table)
  {
    forall c :: c in t.cols && c != "raw_file" && c != "Kommentar" ==> c in u.cols && u.cols[c] == t.cols[c]
  }

  ghost predicate RawFileCleaned(t: Table, u: Table, repr: real -> string)
  {
    "raw_file" in t.cols ==> "raw_file" in u.cols && u.cols["raw_file"] == CleanedRawFiles(t.cols["raw_file"], repr)
  }

  ghost predicate BaseTypeDerived(t: Table, u: Table, repr: real -> string)
  {
    "base_type" !in t.cols ==>
      "wandler_key" in t.cols && "base_type" in u.cols && u.cols["base_type"] == DerivedBaseTypes(t.cols["wandler_key"], repr)
  }

  ghost predicate DefaultsFilled(t: Table, u: Table)
  {
    (forall c :: c in FixedColumns && c !in t.cols ==> c in u.cols && u.cols[c] == Fill(t.height, FixedDefault(c))) &&
    (forall c :: c in EditColumns && c != "Kommentar" && c !in t.cols ==> c in u.cols && u.cols[c] == Fill(t.height, Num(0.0)))
  }

  ghost predicate CommentsLoaded(t: Table, u: Table, repr: real -> string)
  {
    "Kommentar" in u.cols && u.cols["Kommentar"] ==
      if "Kommentar" in t.cols then NormalisedComments(t.cols["Kommentar"], repr) else Fill(t.height, Str(""))
  }

  /** What `Prepare` promises of the table `p` it makes of `t`. */
  ghost predicate Prepared(t: Table, p: Table, repr: real -> string)
  {
    p.height == t.height &&
    (forall c :: c in p.cols <==> c in t.cols || c == "base_type") &&
    (forall c :: c in t.cols && c != "raw_file" ==> p.cols[c] == t.cols[c]) &&
    ("raw_file" in t.cols ==> p.cols["raw_file"] == CleanedRawFiles(t.cols["raw_file"], repr)) &&
    ("base_type" !in t.cols ==> "wandler_key" in t.cols && p.cols["base_type"] == DerivedBaseTypes(t.cols["wandler_key"], repr))
  }

  /** What `Complete` promises of the table `u` it makes of `p`. */
  ghost predicate Completed(p: Table, u: Table, repr: real -> string)
  {
    u.height == p.height &&
    (forall c :: c in u.cols <==> c in p.cols || c in FixedColumns || c in EditColumns) &&
    (forall c :: c in p.cols && c != "Kommentar" ==> u.cols[c] == p.cols[c]) &&
    (forall c :: c in FixedColumns && c !in p.cols ==> u.cols[c] == Fill(p.height, FixedDefault(c))) &&
    (forall c :: c in EditColumns && c != "Kommentar" && c !in p.cols ==> u.cols[c] == Fill(p.height, Num(0.0))) &&
    "Kommentar" in u.cols && u.cols["Kommentar"] ==
      if "Kommentar" in p.cols then NormalisedComments(p.cols["Kommentar"], repr) else Fill(p.height, Str(""))
  }

  /** The first steps of `load_data`: unwrap `raw_file`, derive a missing
      `base_type` (`None` for the `KeyError` without `wandler_key`). */
  method Prepare(t: Table, repr: real -> string) returns (r: Option<Table>)
    requires Shaped(t)
    ensures r.None? <==> "base_type" !in t.cols && "wandler_key" !in t.cols
    ensures r.Some? ==> Shaped(r.value) && Prepared(t, r.value, repr)
  {
    var df := t;
    if "raw_file" in df.cols {
      df := df.(cols := df.cols["raw_file" := CleanedRawFiles(df.cols["raw_file"], repr)]);
    }
    if "base_type" !in df.cols {
      if "wandler_key" !in df.cols {
        return None;
      }
      df := df.(cols := df.cols["base_type" := DerivedBaseTypes(df.cols["wandler_key"], repr)]);
    }
    return Some(df);
  }

  /** No catalogue column is an operator column. */
  lemma ColumnListsDisjoint()
    ensures forall c :: c in FixedColumns ==> c !in EditColumns
    ensures "Kommentar" in EditColumns && "Kommentar" !in FixedColumns
  {
  }

  /** `raw_file` and `base_type` are neither catalogue nor operator
      columns. */
  lemma StoreColumnsApart()
    ensures "raw_file" !in FixedColumns && "raw_file" !in EditColumns
    ensures "base_type" !in FixedColumns && "base_type" !in EditColumns
    ensures "Kommentar" in EditColumns && "Kommentar" !in FixedColumns && "Kommentar" != "base_type"
  {
  }

  /** Both `fillna` loops: a missing catalogue column gets its fixed
      default, a missing operator column 0 (its comment ""). */
  method FillDefaults(p: Table) returns (q: Table)
    requires Shaped(p)
    ensures q.height == p.height && Shaped(q)
    ensures forall c :: c in q.cols <==> c in p.cols || c in FixedColumns || c in EditColumns
    ensures forall c :: c in q.cols ==>
      (q.cols[c] ==
        if c in p.cols then p.cols[c]
        else if c in FixedColumns then Fill(p.height, FixedDefault(c))
        else Fill(p.height, EditDefault(c)))
  {
    var f := FillMissing(p, FixedColumns, FixedDefault);
    q := FillMissing(f, EditColumns, EditDefault);
  }

  /** The remaining steps: default the catalogue and operator columns,
      then normalise the comments. */
  method Complete(p: Table, repr: real -> string) returns (u: Table)
    requires Shaped(p)
    ensures Shaped(u) && Completed(p, u, repr)
  {
    var df := FillDefaults(p);
    ColumnListsDisjoint();
    var comments := df.cols["Kommentar"];
    u := df.(cols := df.cols["Kommentar" := NormalisedComments(comments, repr)]);
    if "Kommentar" !in p.cols {
      EmptyCommentsStay(p.height, repr);
    }
  }

  /** `load_data()` on the stored table, `None` when there is no store
      file. */
  method LoadData(stored: Option<Table>, repr: real -> string) returns (r: LoadResult)
    requires stored.Some? ==> Shaped(stored.value)
    ensures stored.None? <==> r.NoStore?
    ensures r.KeyMissing? <==> stored.Some? && "base_type" !in stored.value.cols && "wandler_key" !in stored.value.cols
    ensures r.Loaded? ==> (stored.Some? && Shaped(r.table) &&
      LoadedColumns(stored.value, r.table) && LoadedCells(stored.value, r.table, repr))
  {
    if stored.None? {
      return NoStore;
    }
    var t := stored.value;
    var prepared := Prepare(t, repr);
    if prepared.None? {
      return KeyMissing;
    }
    var u := Complete(prepared.value, repr);
    var p := prepared.value;
    ColumnsFromSteps(t, p, u, repr);
    KeptFromSteps(t, p, u, repr);
    RawFileFromSteps(t, p, u, repr);
    if "base_type" !in t.cols {
      PreparedBaseType(t, p, repr);
      CompletedKeeps(p, u, repr, "base_type");
    }
    DefaultsFromSteps(t, p, u, repr);
    CommentsFromSteps(t, p, u, repr);
    return Loaded(u);
  }

  /** What `Prepare` and `Complete` promise adds up to the loaded table,
      one part at a time. */
  lemma ColumnsFromSteps(t: Table, p: Table, u: Table, repr: real -> string)
    requires Prepared(t, p, repr) && Completed(p, u, repr)
    ensures LoadedColumns(t, u)
  {
  }

  lemma KeptFromSteps(t: Table, p: Table, u: Table, repr: real -> string)
    requires Prepared(t, p, repr) && Completed(p, u, repr)
    ensures KeptCells(t, u)
  {
  }

  lemma RawFileFromSteps(t: Table, p: Table, u: Table, repr: real -> string)
    requires Prepared(t, p, repr) && Completed(p, u, repr)
    ensures RawFileCleaned(t, u, repr)
  {
  }

  /** `Prepare` derives a missing `base_type` from `wandler_key`. */
  lemma PreparedBaseType(t: Table, p: Table, repr: real -> string)
    requires Prepared(t, p, repr) && "base_type" !in t.cols
    ensures "wandler_key" in t.cols && "base_type" in p.cols
    ensures p.cols["base_type"] == DerivedBaseTypes(t.cols["wandler_key"], repr)
  {
  }

  /** `Complete` leaves every column of `p` but the comments as it is. */
  lemma CompletedKeeps(p: Table, u: Table, repr: real -> string, c: string)
    requires Completed(p, u, repr) && c in p.cols && c != "Kommentar"
    ensures c in u.cols && u.cols[c] == p.cols[c]
  {
  }

  lemma DefaultsFromSteps(t: Table, p: Table, u: Table, repr: real -> string)
    requires Prepared(t, p, repr) && Completed(p, u, repr)
    ensures DefaultsFilled(t, u)
  {
    StoreColumnsApart();
  }

  lemma CommentsFromSteps(t: Table, p: Table, u: Table, repr: real -> string)
    requires Prepared(t, p, repr) && Completed(p, u, repr)
    ensures CommentsLoaded(t, u, repr)
  {
    StoreColumnsApart();
  }

  /** The "" a missing comment column is filled with survives the
      normalisation. */
  lemma EmptyCommentsStay(height: nat, repr: real -> string)
    ensures NormalisedComments(Fill(height, Str("")), repr) == Fill(height, Str(""))
  {
  }

  /** After loading, no comment reads "nan" or "None": every comment is
      text, and normalising it again changes nothing. */
  lemma CommentsNormalised(cells: seq<Cell>, repr: real -> string)
    ensures var r := NormalisedComments(cells, repr);
      (forall i :: 0 <= i < |r| ==> r[i].Str? && r[i].s != "nan" && r[i].s != "None") &&
      NormalisedComments(r, repr) == r
  {
    var r := NormalisedComments(cells, repr);
    assert forall i :: 0 <= i < |r| ==> NormalisedComments(r, repr)[i] == r[i];
  }

  /** A pattern with a character the text lacks is not found in it. */
  lemma CharAbsentNotContained(s: string, p: string, k: nat)
    requires k < |p| && p[k] !in s
    ensures !Contains(s, p)
  {
    forall i: nat ensures !OccursAt(s, p, i) {
      if i + |p| <= |s| {
        assert s[i..i + |p|][k] == s[i + k];
        assert s[i + k] in s;
      }
    }
    ContainsNowhere(s, p);
  }

  /** A file name stored as the text of a one-element list, `"['name']"`,
      reads back as the name. */
  lemma CleanRawFileUnwrapsList(name: string)
    requires '[' !in name && ']' !in name
    ensures CleanRawFile("['" + name + "']") == name
  {
    var x := "['" + name + "']";
    var tail := name + "']";
    assert x == "['" + tail;
    assert StartsWith(x, "['");
    assert x[2..] == tail;
    assert '[' !in tail;
    CharAbsentNotContained(tail, "['", 0);
    ReplaceAbsent(tail, "['", "");
    assert ReplaceAll(x, "['", "") == "" + tail;
    assert "" + tail == tail;
    assert ']' !in name + "'";
    CharAbsentNotContained(name + "'", "']", 1);
    assert "']"[..1] == "'";
    ReplaceAllOfSuffix(name, "']", "");
    assert name + "" == name;
  }

  // ---------------------------------------------------------------------
  // Saving the editor's changes

  /** One edited row of the editor: its `raw_file` and the values shown. */
  datatype Edit = Edit(file: string, attrs: map<string, Cell>)

  /** `df["raw_file"] == key`. */
  function Mask(t: Table, key: string): (m: seq<bool>)
    requires Shaped(t) && "raw_file" in t.cols
    ensures |m| == t.height && forall i :: 0 <= i < t.height ==> (m[i] <==> t.cols["raw_file"][i] == Str(key))
  {
    seq(t.height, i requires 0 <= i < t.height => t.cols["raw_file"][i] == Str(key))
  }

  predicate AnyTrue(m: seq<bool>)
  {
    exists i :: 0 <= i < |m| && m[i]
  }

  /** `df.loc[mask, c] = v` on one column. */
  function Assign(cells: seq<Cell>, m: seq<bool>, v: Cell): (r: seq<Cell>)
    requires |cells| == |m|
    ensures |r| == |cells| && forall i :: 0 <= i < |cells| ==> r[i] == if m[i] then v else cells[i]
  {
    seq(|cells|, i requires 0 <= i < |cells| => if m[i] then v else cells[i])
  }

  /** The column `c`, or the NaN column `loc` creates for a new one. */
  function ColumnOf(t: Table, c: string): (r: seq<Cell>)
    requires Shaped(t)
    ensures |r| == t.height
  {
    if c in t.cols then t.cols[c] else Fill(t.height, Missing)
  }

  /** A column the edit writes: an operator column it carries a value for. */
  predicate Writes(e: Edit, c: string)
  {
    c in EditColumns && c in e.attrs
  }

  /** One key of the editor's changes applied to the table: nothing unless
      some row has that `raw_file`, else every edited column takes the
      edit's value in those rows. */
  function ApplyEdit(t: Table, e: Edit): (r: Table)
    requires Shaped(t) && "raw_file" in t.cols
    ensures r.height == t.height && Shaped(r) && "raw_file" in r.cols
  {
    var m := Mask(t, Strip(e.file, Whitespace));
    if !AnyTrue(m) then t
    else
      Table(t.height, map c | c in t.cols.Keys + (set c | c in EditColumns && c in e.attrs) ::
        if Writes(e, c) then Assign(ColumnOf(t, c), m, e.attrs[c]) else t.cols[c])
  }

  /** The changes applied in the editor's order. */
  function Applied(t: Table, edits: seq<Edit>): (r: Table)
    requires Shaped(t) && "raw_file" in t.cols
    ensures r.height == t.height && Shaped(r) && "raw_file" in r.cols
  {
    if |edits| == 0 then t else ApplyEdit(Applied(t, edits[..|edits| - 1]), edits[|edits| - 1])
  }

  /** Some row of `t` has the edit's (stripped) file name. */
  predicate Hits(t: Table, e: Edit)
    requires Shaped(t) && "raw_file" in t.cols
  {
    AnyTrue(Mask(t, Strip(e.file, Whitespace)))
  }

  /** The number of keys that match some row. */
  function Matched(t: Table, edits: seq<Edit>): (n: nat)
    requires Shaped(t) && "raw_file" in t.cols
    ensures n <= |edits|
  {
    if |edits| == 0 then 0
    else Matched(t, edits[..|edits| - 1]) + (if Hits(t, edits[|edits| - 1]) then 1 else 0)
  }

  /** `raw_file` is not an operator column, so the edits never move a row's
      file name. */
  lemma {:induction false} RawFileKept(t: Table, edits: seq<Edit>)
    requires Shaped(t) && "raw_file" in t.cols
    ensures Applied(t, edits).cols["raw_file"] == t.cols["raw_file"]
    decreases |edits|
  {
    if |edits| > 0 {
      RawFileKept(t, edits[..|edits| - 1]);
      assert "raw_file" !in EditColumns;
    }
  }

  /** The inner loop over `META_COLS_EDIT` for one matching key:
      `df.loc[mask, c] = attrs[c]` for each listed column the edit has. */
  method WriteColumns(t: Table, m: seq<bool>, attrs: map<string, Cell>, cols: seq<string>) returns (r: Table)
    requires Shaped(t) && |m| == t.height && Distinct(cols)
    ensures r.height == t.height && Shaped(r)
    ensures forall c :: c in r.cols <==> c in t.cols || (c in cols && c in attrs)
    ensures forall c :: c in r.cols ==>
      r.cols[c] == if c in cols && c in attrs then Assign(ColumnOf(t, c), m, attrs[c]) else t.cols[c]
  {
    r := t;
    var j := 0;
    while j < |cols|
      invariant 0 <= j <= |cols|
      invariant r.height == t.height && Shaped(r)
      invariant forall c :: c in r.cols <==> c in t.cols || (c in cols[..j] && c in attrs)
      invariant forall c :: c in r.cols ==>
        r.cols[c] == if c in cols[..j] && c in attrs then Assign(ColumnOf(t, c), m, attrs[c]) else t.cols[c]
    {
      var c := cols[j];
      assert cols[..j + 1] == cols[..j] + [c];
      assert c !in cols[..j];
      if c in attrs {
        r := r.(cols := r.cols[c := Assign(ColumnOf(r, c), m, attrs[c])]);
      }
      j := j + 1;
    }
    assert cols[..j] == cols;
  }

  /** The table `WriteColumns` leaves for a matching key is the edit
      applied. */
  lemma WrittenIsApplied(t: Table, e: Edit, r: Table)
    requires Shaped(t) && "raw_file" in t.cols
    requires Hits(t, e)
    requires r.height == t.height
    requires forall c :: c in r.cols <==> c in t.cols || Writes(e, c)
    requires forall c :: c in r.cols ==>
      r.cols[c] == if Writes(e, c) then Assign(ColumnOf(t, c), Mask(t, Strip(e.file, Whitespace)), e.attrs[c]) else t.cols[c]
    ensures r == ApplyEdit(t, e)
  {
    assert r.cols == ApplyEdit(t, e).cols;
  }

  lemma EditColumnsDistinct()
    ensures Distinct(EditColumns)
  {
  }

  /** The save button: apply every key's edits, count the keys that matched
      a row, and save only if one did. */
  method SaveEdits(df: Table, changes: seq<Edit>) returns (saved: Option<Table>, count: nat)
    requires Shaped(df) && "raw_file" in df.cols
    ensures count == Matched(df, changes)
    ensures saved == if count > 0 then Some(Applied(df, changes)) else None
  {
    var dfToSave := df;
    count := 0;
    var i := 0;
    while i < |changes|
      invariant 0 <= i <= |changes|
      invariant dfToSave == Applied(df, changes[..i])
      invariant count == Matched(df, changes[..i])
    {
      var hit;
      dfToSave, hit := SaveOne(df, changes, i, dfToSave);
      if hit {
        count := count + 1;
      }
      i := i + 1;
    }
    assert changes[..i] == changes;
    if count > 0 {
      saved := Some(dfToSave);
    } else {
      saved := None;
    }
  }

  /** The body of the save loop for the key at `i`: write the edit if its
      file names a row, and report whether it did. */
  method SaveOne(df: Table, changes: seq<Edit>, i: nat, t: Table) returns (r: Table, hit: bool)
    requires Shaped(df) && "raw_file" in df.cols && i < |changes|
    requires t == Applied(df, changes[..i])
    ensures r == Applied(df, changes[..i + 1])
    ensures Matched(df, changes[..i + 1]) == Matched(df, changes[..i]) + if hit then 1 else 0
  {
    var e := changes[i];
    SavePrefixStep(df, changes, i);
    HitsKept(df, changes[..i], e);
    var m := Mask(t, Strip(e.file, Whitespace));
    hit := AnyTrue(m);
    r := t;
    if hit {
      EditColumnsDistinct();
      r := WriteColumns(t, m, e.attrs, EditColumns);
      WrittenIsApplied(t, e, r);
    }
  }

  /** One more key extends the applied edits and the count by that key. */
  lemma SavePrefixStep(t: Table, edits: seq<Edit>, i: nat)
    requires Shaped(t) && "raw_file" in t.cols && i < |edits|
    ensures Applied(t, edits[..i + 1]) == ApplyEdit(Applied(t, edits[..i]), edits[i])
    ensures Matched(t, edits[..i + 1]) == Matched(t, edits[..i]) + if Hits(t, edits[i]) then 1 else 0
  {
    assert edits[..i + 1][..i] == edits[..i];
  }

  /** Earlier edits leave the file names, so a key matches the edited table
      exactly when it matches the stored one. */
  lemma HitsKept(t: Table, edits: seq<Edit>, e: Edit)
    requires Shaped(t) && "raw_file" in t.cols
    ensures Hits(Applied(t, edits), e) == Hits(t, e)
  {
    RawFileKept(t, edits);
    assert Mask(Applied(t, edits), Strip(e.file, Whitespace)) == Mask(t, Strip(e.file, Whitespace));
  }

  // ---------------------------------------------------------------------
  // What a save does

  /** Nothing is saved exactly when no key names a file of the store. */
  lemma {:induction false} NothingMatched(t: Table, edits: seq<Edit>)
    requires Shaped(t) && "raw_file" in t.cols
    ensures Matched(t, edits) == 0 <==> forall k :: 0 <= k < |edits| ==> !Hits(t, edits[k])
    decreases |edits|
  {
    if |edits| > 0 {
      var init := edits[..|edits| - 1];
      NothingMatched(t, init);
      assert forall k :: 0 <= k < |init| ==> init[k] == edits[k];
    }
  }

  /** The last edit that writes column `c` of row `i`: the value the row
      ends up with. */
  function LastWrite(t: Table, edits: seq<Edit>, c: string, i: nat): Option<Cell>
    requires Shaped(t) && "raw_file" in t.cols && i < t.height
  {
    if |edits| == 0 then None
    else
      var e := edits[|edits| - 1];
      if Writes(e, c) && t.cols["raw_file"][i] == Str(Strip(e.file, Whitespace)) then Some(e.attrs[c])
      else LastWrite(t, edits[..|edits| - 1], c, i)
  }

  /** Each cell after saving: the value of the last key naming the row's file
      that carries that operator column, else what the cell held (a new
      column's cell holds NaN). Columns other than the operator columns keep
      every cell. */
  lemma {:induction false} AppliedCells(t: Table, edits: seq<Edit>, c: string, i: nat)
    requires Shaped(t) && "raw_file" in t.cols && i < t.height
    ensures var r := Applied(t, edits);
      c in r.cols ==> r.cols[c][i] == match LastWrite(t, edits, c, i) case Some(v) => v case None => ColumnOf(t, c)[i]
    ensures c in t.cols ==> c in Applied(t, edits).cols
    decreases |edits|
  {
    if |edits| > 0 {
      var init := edits[..|edits| - 1];
      var e := edits[|edits| - 1];
      AppliedCells(t, init, c, i);
      RawFileKept(t, init);
      var before := Applied(t, init);
      if c in Applied(t, edits).cols && c !in before.cols {
        assert Writes(e, c);
        NewColumnUnwritten(t, init, c, i);
      }
    }
  }

  /** A column the table lacked before an edit writes it was never written. */
  lemma {:induction false} NewColumnUnwritten(t: Table, edits: seq<Edit>, c: string, i: nat)
    requires Shaped(t) && "raw_file" in t.cols && i < t.height
    requires c !in Applied(t, edits).cols
    ensures LastWrite(t, edits, c, i).None? && c !in t.cols
    decreases |edits|
  {
    if |edits| > 0 {
      var init := edits[..|edits| - 1];
      var e := edits[|edits| - 1];
      RawFileKept(t, init);
      var before := Applied(t, init);
      assert c !in before.cols;
      NewColumnUnwritten(t, init, c, i);
      var m := Mask(before, Strip(e.file, Whitespace));
      assert m[i] ==> AnyTrue(m);
    }
  }

  /** Saving changes only the operator columns: every other column keeps
      all its cells, and no column disappears. */
  lemma {:induction false} OtherColumnsKept(t: Table, edits: seq<Edit>, c: string)
    requires Shaped(t) && "raw_file" in t.cols
    requires c in t.cols && c !in EditColumns
    ensures c in Applied(t, edits).cols && Applied(t, edits).cols[c] == t.cols[c]
    decreases |edits|
  {
    if |edits| > 0 {
      OtherColumnsKept(t, edits[..|edits| - 1], c);
    }
  }
}

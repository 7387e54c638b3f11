/** Building the measurement store (`main` of `create_db.py` and of
    `daten_aggregator.py`): collect the records of every sorted file, drop
    duplicates keeping the later record, and in `create_db.py` reattach the
    operator-maintained columns (price, dimensions, comment) rescued from the
    previous store per base type. */
module StoreMerge {
  import opened Text
  import opened Domain
  import opened BaseTypes
  import opened FileNames
  import opened Emission

  // ---------------------------------------------------------------------
  // drop_duplicates(subset=..., keep="last")

  function KeySet<T, K>(xs: seq<T>, key: T -> K): set<K>
  {
    set i | 0 <= i < |xs| :: key(xs[i])
  }

  /** Keep an element only if no later element has the same key. */
  function DedupLast<T, K(==)>(xs: seq<T>, key: T -> K): (r: seq<T>)
    ensures |r| <= |xs|
  {
    if |xs| == 0 then []
    else (if key(xs[0]) in KeySet(xs[1..], key) then [] else [xs[0]]) + DedupLast(xs[1..], key)
  }

  predicate UniqueBy<T, K(==)>(xs: seq<T>, key: T -> K)
  {
    forall i, j :: 0 <= i < j < |xs| ==> key(xs[i]) != key(xs[j])
  }

  lemma KeySetTail<T, K>(xs: seq<T>, key: T -> K)
    requires |xs| > 0
    ensures KeySet(xs, key) == {key(xs[0])} + KeySet(xs[1..], key)
  {
    forall k | k in KeySet(xs, key) ensures k in {key(xs[0])} + KeySet(xs[1..], key) {
      var i :| 0 <= i < |xs| && key(xs[i]) == k;
      if i > 0 { assert xs[1..][i - 1] == xs[i]; }
    }
    forall k | k in KeySet(xs[1..], key) ensures k in KeySet(xs, key) {
      var i :| 0 <= i < |xs[1..]| && key(xs[1..][i]) == k;
      assert xs[i + 1] == xs[1..][i];
    }
  }

  /** No key is lost and none is kept twice. */
  lemma {:induction false} DedupLastKeys<T, K>(xs: seq<T>, key: T -> K)
    ensures KeySet(DedupLast(xs, key), key) == KeySet(xs, key)
    ensures UniqueBy(DedupLast(xs, key), key)
    decreases |xs|
  {
    if |xs| > 0 {
      var rest := DedupLast(xs[1..], key);
      DedupLastKeys(xs[1..], key);
      KeySetTail(xs, key);
      var r := DedupLast(xs, key);
      if key(xs[0]) !in KeySet(xs[1..], key) {
        assert r == [xs[0]] + rest;
        KeySetTail(r, key);
        assert r[1..] == rest;
        forall i, j | 0 <= i < j < |r| ensures key(r[i]) != key(r[j]) {
          if i == 0 {
            assert r[j] == rest[j - 1];
            assert key(rest[j - 1]) in KeySet(rest, key);
          } else {
            assert r[i] == rest[i - 1] && r[j] == rest[j - 1];
          }
        }
      } else {
        assert r == rest;
      }
    }
  }

  /** Every kept element is the last occurrence of its key, and every last
      occurrence is kept. */
  lemma {:induction false} DedupLastKeepsLast<T, K>(xs: seq<T>, key: T -> K, i: nat)
    requires i < |xs|
    ensures xs[i] in DedupLast(xs, key) <== forall j :: i < j < |xs| ==> key(xs[j]) != key(xs[i])
    decreases |xs|
  {
    if i > 0 {
      DedupLastKeepsLast(xs[1..], key, i - 1);
      assert xs[1..][i - 1] == xs[i];
    } else if forall j :: 0 < j < |xs| ==> key(xs[j]) != key(xs[0]) {
      forall j | 0 <= j < |xs[1..]| ensures key(xs[1..][j]) != key(xs[0]) {
        assert xs[1..][j] == xs[j + 1];
      }
    }
  }

  lemma {:induction false} DedupLastOnlyLast<T, K>(xs: seq<T>, key: T -> K, x: T)
    requires x in DedupLast(xs, key)
    ensures exists i :: 0 <= i < |xs| && xs[i] == x && forall j :: i < j < |xs| ==> key(xs[j]) != key(x)
    decreases |xs|
  {
    if key(xs[0]) !in KeySet(xs[1..], key) && x == xs[0] {
      forall j | 0 < j < |xs| ensures key(xs[j]) != key(x) {
        assert xs[j] == xs[1..][j - 1];
      }
    } else {
      assert x in DedupLast(xs[1..], key);
      DedupLastOnlyLast(xs[1..], key, x);
      var i :| 0 <= i < |xs[1..]| && xs[1..][i] == x && forall j :: i < j < |xs[1..]| ==> key(xs[1..][j]) != key(x);
      forall j | i + 1 < j < |xs| ensures key(xs[j]) != key(x) {
        assert xs[j] == xs[1..][j - 1];
      }
    }
  }

  /** Without duplicate keys nothing is dropped, so deduplicating twice is
      the same as once. */
  lemma {:induction false} DedupLastOfUnique<T, K>(xs: seq<T>, key: T -> K)
    requires UniqueBy(xs, key)
    ensures DedupLast(xs, key) == xs
    decreases |xs|
  {
    if |xs| > 0 {
      assert UniqueBy(xs[1..], key);
      DedupLastOfUnique(xs[1..], key);
      forall j | 0 <= j < |xs[1..]| ensures key(xs[1..][j]) != key(xs[0]) {
        assert xs[1..][j] == xs[j + 1];
      }
    }
  }

  lemma DedupLastIdempotent<T, K>(xs: seq<T>, key: T -> K)
    ensures DedupLast(DedupLast(xs, key), key) == DedupLast(xs, key)
  {
    DedupLastKeys(xs, key);
    DedupLastOfUnique(DedupLast(xs, key), key);
  }

  /** The dedup key of `create_db.py`. */
  function StoreKey(r: Record): (string, string, string, nat, string, Mode, string)
  {
    (r.wandlerKey, r.folder, r.phase, r.targetLoad, r.dutName, r.mode, r.rawFile)
  }

  /** The dedup key of `daten_aggregator.py`, without the raw file. */
  function LegacyStoreKey(r: Record): (string, string, string, nat, string, Mode)
  {
    (r.wandlerKey, r.folder, r.phase, r.targetLoad, r.dutName, r.mode)
  }

  /** Two measurements of the same transformer that differ only in their raw
      file both survive in `create_db.py`; `daten_aggregator.py` keeps only
      the later one. */
  lemma SecondMeasurementSurvives(a: Record, b: Record)
    requires LegacyStoreKey(a) == LegacyStoreKey(b) && a.rawFile != b.rawFile
    ensures DedupLast([a, b], StoreKey) == [a, b]
    ensures DedupLast([a, b], LegacyStoreKey) == [b]
  {
    assert [a, b][1..] == [b];
    assert [b][1..] == [];
    assert StoreKey(a) != StoreKey(b);
    assert LegacyStoreKey([b][0]) in KeySet([b], LegacyStoreKey);
  }

  // ---------------------------------------------------------------------
  // Collecting the records of all sorted files

  /** A sorted file found on disk: its path and its table (`None` when it
      cannot be read). */
  datatype SortedFile = SortedFile(path: string, content: Option<seq<Column>>)

  /** The records `analyze_sorted_file` returns for one file. */
  function FileRecords(g: Generation, f: SortedFile, std: seq<real> -> real): seq<Record>
  {
    match f.content
    case None => []
    case Some(t) =>
      if HasValueColumn(StripNames(t)) then LevelsRecords(g, ExtractMetadata(f.path), StripNames(t), TargetLevels, std) else []
  }

  /** `all_data`: the records of all files, in file order. */
  function AllRecords(g: Generation, files: seq<SortedFile>, std: seq<real> -> real): seq<Record>
  {
    if |files| == 0 then [] else AllRecords(g, files[..|files| - 1], std) + FileRecords(g, files[|files| - 1], std)
  }

  /** One pass of the file loop: `analyze_sorted_file` on the file, its
      status only logged. */
  method CollectFile(g: Generation, f: SortedFile, std: seq<real> -> real) returns (stats: seq<Record>)
    ensures stats == FileRecords(g, f, std)
  {
    var status;
    stats, status := AnalyzeSortedFile(g, f.content, ExtractMetadata(f.path), std);
  }

  lemma AllRecordsStep(g: Generation, files: seq<SortedFile>, i: nat, std: seq<real> -> real)
    requires i < |files|
    ensures AllRecords(g, files[..i + 1], std) == AllRecords(g, files[..i], std) + FileRecords(g, files[i], std)
  {
    assert files[..i + 1][..i] == files[..i];
  }

  /** The loop over the sorted files. */
  method CollectRecords(g: Generation, files: seq<SortedFile>, std: seq<real> -> real) returns (all: seq<Record>)
    ensures all == AllRecords(g, files, std)
  {
    all := [];
    var i := 0;
    while i < |files|
      invariant 0 <= i <= |files|
      invariant all == AllRecords(g, files[..i], std)
    {
      var stats := CollectFile(g, files[i], std);
      AllRecordsStep(g, files, i, std);
      if |stats| > 0 {
        all := all + stats;
      }
      i := i + 1;
    }
    assert files[..i] == files;
  }

  /** `main` of `daten_aggregator.py`: `None` when nothing was extracted and
      nothing is written, else the deduplicated records. */
  method AggregateLegacy(files: seq<SortedFile>, std: seq<real> -> real) returns (written: Option<seq<Record>>)
    ensures var all := AllRecords(Legacy, files, std);
      written == if |all| == 0 then None else Some(DedupLast(all, LegacyStoreKey))
  {
    var all := CollectRecords(Legacy, files, std);
    if |all| == 0 {
      return None;
    }
    written := Some(DedupLast(all, LegacyStoreKey));
  }

  // ---------------------------------------------------------------------
  // Operator-maintained columns

  /** `META_COLS`. */
  const MetaColumns: seq<string> := ["Preis (€)", "L (mm)", "B (mm)", "H (mm)", "Kommentar"]

  /** The value a new row gets before merging: 0.0 for prices and
      dimensions, "" otherwise. */
  function Default(col: string): (c: Cell)
    ensures c != Missing
  {
    if Contains(col, "Preis") || Contains(col, "mm") then Num(0.0) else Str("")
  }

  /** A row of the previous store: its key, its base type if the store has
      that column, and the operator columns it has. */
  datatype OldRow = OldRow(wandlerKey: string, baseType: string, values: map<string, Cell>)

  datatype OldStore = OldStore(hasBaseType: bool, rows: seq<OldRow>)

  function OldBase(store: OldStore, r: OldRow): string
  {
    if store.hasBaseType then r.baseType else BaseTypeOf(r.wandlerKey)
  }

  /** The rescued values: the first row of each base type wins
      (`drop_duplicates(subset=["base_type"])` keeps the first). */
  function Rescue(store: OldStore, rows: seq<OldRow>): map<string, map<string, Cell>>
  {
    if |rows| == 0 then map[]
    else
      var m := Rescue(store, rows[..|rows| - 1]);
      var r := rows[|rows| - 1];
      if OldBase(store, r) in m then m else m[OldBase(store, r) := r.values]
  }

  /** `existing_meta_map`; an absent or unreadable store gives no values. */
  method RescueSidecar(previous: Option<OldStore>) returns (sidecar: map<string, map<string, Cell>>)
    ensures previous.None? ==> sidecar == map[]
    ensures previous.Some? ==> sidecar == Rescue(previous.value, previous.value.rows)
  {
    sidecar := map[];
    if previous.None? {
      return;
    }
    var store := previous.value;
    var i := 0;
    while i < |store.rows|
      invariant 0 <= i <= |store.rows|
      invariant sidecar == Rescue(store, store.rows[..i])
    {
      assert store.rows[..i + 1][..i] == store.rows[..i];
      var b := OldBase(store, store.rows[i]);
      if b !in sidecar {
        sidecar := sidecar[b := store.rows[i].values];
      }
      i := i + 1;
    }
    assert store.rows[..i] == store.rows;
  }

  /** The rescued values of a base type are those of its first row. */
  lemma {:induction false} RescueFirst(store: OldStore, rows: seq<OldRow>, i: nat)
    requires i < |rows| && forall j :: 0 <= j < i ==> OldBase(store, rows[j]) != OldBase(store, rows[i])
    ensures OldBase(store, rows[i]) in Rescue(store, rows)
    ensures Rescue(store, rows)[OldBase(store, rows[i])] == rows[i].values
    decreases |rows|
  {
    var init := rows[..|rows| - 1];
    if i < |rows| - 1 {
      RescueFirst(store, init, i);
    } else {
      RescueAbsent(store, init, OldBase(store, rows[i]));
    }
  }

  lemma {:induction false} RescueAbsent(store: OldStore, rows: seq<OldRow>, b: string)
    requires forall j :: 0 <= j < |rows| ==> OldBase(store, rows[j]) != b
    ensures b !in Rescue(store, rows)
    decreases |rows|
  {
    if |rows| > 0 {
      RescueAbsent(store, rows[..|rows| - 1], b);
    }
  }

  lemma {:induction false} RescueKeys(store: OldStore, rows: seq<OldRow>)
    ensures forall b :: b in Rescue(store, rows) <==> exists j :: 0 <= j < |rows| && OldBase(store, rows[j]) == b
    decreases |rows|
  {
    if |rows| > 0 {
      RescueKeys(store, rows[..|rows| - 1]);
      forall b | (exists j :: 0 <= j < |rows| && OldBase(store, rows[j]) == b) ensures b in Rescue(store, rows) {
        var j :| 0 <= j < |rows| && OldBase(store, rows[j]) == b;
        if j < |rows| - 1 {
          assert rows[..|rows| - 1][j] == rows[j];
        }
      }
    }
  }

  /** `v.get(col, 0.0)`: a column the old store lacks reads as 0.0. */
  function Get(values: map<string, Cell>, col: string): Cell
  {
    if col in values then values[col] else Num(0.0)
  }

  /** The value of `col` for a row of base type `b`: the rescued value unless
      the base type is unknown or its value is missing
      (`mapped_values.fillna(df_new[col])`). */
  function Merged(sidecar: map<string, map<string, Cell>>, b: string, col: string): (c: Cell)
    ensures c != Missing
  {
    if b in sidecar && Get(sidecar[b], col) != Missing then Get(sidecar[b], col) else Default(col)
  }

  /** A row of the new store. */
  datatype StoreRow = StoreRow(record: Record, baseType: string, meta: map<string, Cell>)

  function MetaFor(sidecar: map<string, map<string, Cell>>, b: string): map<string, Cell>
  {
    map c | c in MetaColumns :: Merged(sidecar, b, c)
  }

  /** Each record with its base type and merged operator columns. */
  function StoreRows(kept: seq<Record>, sidecar: map<string, map<string, Cell>>): (rows: seq<StoreRow>)
    ensures |rows| == |kept|
  {
    seq(|kept|, i requires 0 <= i < |kept| =>
      StoreRow(kept[i], BaseTypeOf(kept[i].wandlerKey), MetaFor(sidecar, BaseTypeOf(kept[i].wandlerKey))))
  }

  /** The new store: deduplicated records with base type and merged columns. */
  function NewStore(all: seq<Record>, sidecar: map<string, map<string, Cell>>): seq<StoreRow>
  {
    StoreRows(DedupLast(all, StoreKey), sidecar)
  }

  /** `main` of `create_db.py`: `None` when nothing was extracted, so the
      previous store stays as it is. */
  function UpdateStore(previous: Option<OldStore>, files: seq<SortedFile>, std: seq<real> -> real): Option<seq<StoreRow>>
  {
    var all := AllRecords(Current, files, std);
    var sidecar := if previous.None? then map[] else Rescue(previous.value, previous.value.rows);
    if |all| == 0 then None else Some(NewStore(all, sidecar))
  }

  /** The operator columns of a row of base type `b` after the first `k`
      columns have been merged; the others still hold their defaults. */
  function PartialMeta(sidecar: map<string, map<string, Cell>>, b: string, k: nat): map<string, Cell>
    requires k <= |MetaColumns|
  {
    map c | c in MetaColumns :: if c in MetaColumns[..k] then Merged(sidecar, b, c) else Default(c)
  }

  lemma PartialMetaStep(sidecar: map<string, map<string, Cell>>, b: string, k: nat)
    requires k < |MetaColumns|
    ensures PartialMeta(sidecar, b, k)[MetaColumns[k] := Merged(sidecar, b, MetaColumns[k])] == PartialMeta(sidecar, b, k + 1)
  {
    assert MetaColumns[..k + 1] == MetaColumns[..k] + [MetaColumns[k]];
    assert MetaColumns[k] !in MetaColumns[..k];
  }

  lemma PartialMetaEnds(sidecar: map<string, map<string, Cell>>, b: string)
    ensures PartialMeta(sidecar, b, 0) == map c | c in MetaColumns :: Default(c)
    ensures PartialMeta(sidecar, b, |MetaColumns|) == MetaFor(sidecar, b)
  {
    assert MetaColumns[..0] == [];
    assert MetaColumns[..|MetaColumns|] == MetaColumns;
  }

  /** The rows of the new store after `k` merged columns. */
  function PartialRows(kept: seq<Record>, sidecar: map<string, map<string, Cell>>, k: nat): (rows: seq<StoreRow>)
    requires k <= |MetaColumns|
    ensures |rows| == |kept|
  {
    seq(|kept|, i requires 0 <= i < |kept| =>
      StoreRow(kept[i], BaseTypeOf(kept[i].wandlerKey), PartialMeta(sidecar, BaseTypeOf(kept[i].wandlerKey), k)))
  }

  /** The column loop of `main`: every row starts with the defaults, then
      each operator column is overwritten from the rescued values. */
  method MergeColumns(kept: seq<Record>, sidecar: map<string, map<string, Cell>>) returns (rows: seq<StoreRow>)
    ensures rows == StoreRows(kept, sidecar)
  {
    rows := DefaultRows(kept);
    PartialRowsStart(kept, sidecar);
    var k := 0;
    while k < |MetaColumns|
      invariant 0 <= k <= |MetaColumns|
      invariant rows == PartialRows(kept, sidecar, k)
    {
      PartialRowsStep(kept, sidecar, k);
      rows := MergeColumn(rows, sidecar, MetaColumns[k]);
      k := k + 1;
    }
    PartialRowsEnd(kept, sidecar);
  }

  /** Every row with the default operator columns. */
  function DefaultRows(kept: seq<Record>): (rows: seq<StoreRow>)
    ensures |rows| == |kept|
  {
    var defaults := map c | c in MetaColumns :: Default(c);
    seq(|kept|, i requires 0 <= i < |kept| => StoreRow(kept[i], BaseTypeOf(kept[i].wandlerKey), defaults))
  }

  /** `df_new[col] = mapped_values.fillna(df_new[col])` for one column. */
  function MergeColumn(rows: seq<StoreRow>, sidecar: map<string, map<string, Cell>>, col: string): (next: seq<StoreRow>)
    ensures |next| == |rows|
  {
    seq(|rows|, i requires 0 <= i < |rows| =>
      rows[i].(meta := rows[i].meta[col := Merged(sidecar, rows[i].baseType, col)]))
  }

  lemma PartialRowsStart(kept: seq<Record>, sidecar: map<string, map<string, Cell>>)
    ensures DefaultRows(kept) == PartialRows(kept, sidecar, 0)
  {
    forall i | 0 <= i < |kept| ensures DefaultRows(kept)[i] == PartialRows(kept, sidecar, 0)[i] {
      PartialMetaEnds(sidecar, BaseTypeOf(kept[i].wandlerKey));
    }
  }

  lemma PartialRowsStep(kept: seq<Record>, sidecar: map<string, map<string, Cell>>, k: nat)
    requires k < |MetaColumns|
    ensures MergeColumn(PartialRows(kept, sidecar, k), sidecar, MetaColumns[k]) == PartialRows(kept, sidecar, k + 1)
  {
    var rows := PartialRows(kept, sidecar, k);
    forall i | 0 <= i < |rows| ensures MergeColumn(rows, sidecar, MetaColumns[k])[i] == PartialRows(kept, sidecar, k + 1)[i] {
      PartialMetaStep(sidecar, BaseTypeOf(kept[i].wandlerKey), k);
    }
  }

  lemma PartialRowsEnd(kept: seq<Record>, sidecar: map<string, map<string, Cell>>)
    ensures PartialRows(kept, sidecar, |MetaColumns|) == StoreRows(kept, sidecar)
  {
    forall i | 0 <= i < |kept| ensures PartialRows(kept, sidecar, |MetaColumns|)[i] == StoreRows(kept, sidecar)[i] {
      PartialMetaEnds(sidecar, BaseTypeOf(kept[i].wandlerKey));
    }
  }

  /** The store update as `main` runs it. */
  method UpdateStoreMethod(previous: Option<OldStore>, files: seq<SortedFile>, std: seq<real> -> real) returns (written: Option<seq<StoreRow>>)
    ensures written == UpdateStore(previous, files, std)
  {
    var sidecar := RescueSidecar(previous);
    var all := CollectRecords(Current, files, std);
    if |all| == 0 {
      return None;
    }
    var rows := MergeColumns(DedupLast(all, StoreKey), sidecar);
    written := Some(rows);
  }

  // ---------------------------------------------------------------------
  // What the merge promises

  lemma {:induction false} RescueValues(store: OldStore, rows: seq<OldRow>, b: string)
    requires b in Rescue(store, rows)
    ensures exists j :: 0 <= j < |rows| && OldBase(store, rows[j]) == b && Rescue(store, rows)[b] == rows[j].values
    decreases |rows|
  {
    var init := rows[..|rows| - 1];
    if b in Rescue(store, init) {
      RescueValues(store, init, b);
      var j :| 0 <= j < |init| && OldBase(store, init[j]) == b && Rescue(store, init)[b] == init[j].values;
      assert rows[j] == init[j];
    } else {
      assert OldBase(store, rows[|rows| - 1]) == b;
    }
  }

  /** The store after merging, as the next run reads it back. */
  function StoreOf(rows: seq<StoreRow>): (store: OldStore)
    ensures store.hasBaseType && |store.rows| == |rows|
  {
    OldStore(true, seq(|rows|, i requires 0 <= i < |rows| => OldRow(rows[i].record.wandlerKey, rows[i].baseType, rows[i].meta)))
  }

  /** A row whose base type had a row in the previous store gets the value
      of the first such row, for every operator column that row holds. */
  lemma RescuedValueReattached(store: OldStore, all: seq<Record>, i: nat, j: nat, col: string)
    requires i < |DedupLast(all, StoreKey)| && j < |store.rows| && col in MetaColumns
    requires OldBase(store, store.rows[j]) == BaseTypeOf(DedupLast(all, StoreKey)[i].wandlerKey)
    requires forall j' :: 0 <= j' < j ==> OldBase(store, store.rows[j']) != OldBase(store, store.rows[j])
    requires col in store.rows[j].values && store.rows[j].values[col] != Missing
    ensures NewStore(all, Rescue(store, store.rows))[i].meta[col] == store.rows[j].values[col]
  {
    RescueFirst(store, store.rows, j);
  }

  /** A column the previous store does not have at all reads as 0.0 for a
      known base type, text columns such as "Kommentar" included. */
  lemma AbsentColumnReadsZero(store: OldStore, all: seq<Record>, i: nat, j: nat, col: string)
    requires i < |DedupLast(all, StoreKey)| && j < |store.rows| && col in MetaColumns
    requires OldBase(store, store.rows[j]) == BaseTypeOf(DedupLast(all, StoreKey)[i].wandlerKey)
    requires forall j' :: 0 <= j' < j ==> OldBase(store, store.rows[j']) != OldBase(store, store.rows[j])
    requires col !in store.rows[j].values
    ensures NewStore(all, Rescue(store, store.rows))[i].meta[col] == Num(0.0)
  {
    RescueFirst(store, store.rows, j);
  }

  /** A row whose base type the previous store does not know keeps the
      defaults: 0.0 for price and dimensions, "" for the comment. */
  lemma UnknownBaseKeepsDefaults(store: OldStore, all: seq<Record>, i: nat)
    requires i < |DedupLast(all, StoreKey)|
    requires forall j :: 0 <= j < |store.rows| ==> OldBase(store, store.rows[j]) != BaseTypeOf(DedupLast(all, StoreKey)[i].wandlerKey)
    ensures NewStore(all, Rescue(store, store.rows))[i].meta == map c | c in MetaColumns :: Default(c)
  {
    RescueAbsent(store, store.rows, BaseTypeOf(DedupLast(all, StoreKey)[i].wandlerKey));
  }

  lemma MetaForStable(sidecar: map<string, map<string, Cell>>, later: map<string, map<string, Cell>>, b: string)
    requires b in later && later[b] == MetaFor(sidecar, b)
    ensures MetaFor(later, b) == MetaFor(sidecar, b)
  {
    forall c | c in MetaColumns ensures Merged(later, b, c) == Merged(sidecar, b, c) {
      assert Get(later[b], c) == Merged(sidecar, b, c);
    }
  }

  /** Every row of a written store, read back as the previous store, brings
      back the operator columns it was written with. */
  lemma RowStable(written: seq<StoreRow>, sidecar: map<string, map<string, Cell>>, i: nat)
    requires i < |written|
    requires forall k :: 0 <= k < |written| ==> written[k].meta == MetaFor(sidecar, written[k].baseType)
    ensures MetaFor(Rescue(StoreOf(written), StoreOf(written).rows), written[i].baseType) == written[i].meta
  {
    var store := StoreOf(written);
    var later := Rescue(store, store.rows);
    var b := written[i].baseType;
    RescueKeys(store, store.rows);
    assert OldBase(store, store.rows[i]) == b;
    RescueValues(store, store.rows, b);
    MetaForStable(sidecar, later, b);
  }

  lemma NewStoreStable(all: seq<Record>, sidecar: map<string, map<string, Cell>>)
    ensures var written := NewStore(all, sidecar);
      NewStore(all, Rescue(StoreOf(written), StoreOf(written).rows)) == written
  {
    var written := NewStore(all, sidecar);
    forall i | 0 <= i < |written| ensures NewStore(all, Rescue(StoreOf(written), StoreOf(written).rows))[i] == written[i] {
      RowStable(written, sidecar, i);
    }
  }

  /** Running the update again on the same sorted files, with the store it
      has just written as the previous store, writes the same store: the
      operator columns survive a rebuild. */
  lemma UpdateStoreStable(previous: Option<OldStore>, files: seq<SortedFile>, std: seq<real> -> real)
    requires UpdateStore(previous, files, std).Some?
    ensures var written := UpdateStore(previous, files, std).value;
      UpdateStore(Some(StoreOf(written)), files, std) == Some(written)
  {
    var sidecar := if previous.None? then map[] else Rescue(previous.value, previous.value.rows);
    NewStoreStable(AllRecords(Current, files, std), sidecar);
  }
}

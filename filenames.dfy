/** What the pipeline reads out of a measurement's path: folder, file name,
    rated current, manufacturer and the heuristic transformer key. Three
    generations of `extract_metadata` exist; `create_db.py` and
    `daten_aggregator.py` share one, `precalc.py` has the legacy one, and the
    interactive tools only need the clean name and the rated current. */
module FileNames {
  import opened Text
  import opened Domain

  /** `os.path.basename`: everything after the last "/". */
  function Basename(path: string): (r: string)
    ensures '/' !in r
    ensures EndsWith(path, r)
    ensures |r| < |path| ==> path[|path| - |r| - 1] == '/'
    decreases |path|
  {
    if |path| == 0 || path[|path| - 1] == '/' then ""
    else
      var b := Basename(path[..|path| - 1]);
      BasenameStep(path, b);
      b + [path[|path| - 1]]
  }

  /** One more character after the base name of the rest of the path. */
  lemma BasenameStep(path: string, b: string)
    requires |path| > 0
    requires EndsWith(path[..|path| - 1], b)
    requires |b| < |path| - 1 ==> path[..|path| - 1][|path| - 1 - |b| - 1] == '/'
    ensures EndsWith(path, b + [path[|path| - 1]])
    ensures |b| + 1 < |path| ==> path[|path| - |b| - 2] == '/'
  {
    var init := path[..|path| - 1];
    assert path == init + [path[|path| - 1]];
    assert path[|path| - |b| - 1..] == init[|init| - |b|..] + [path[|path| - 1]];
  }

  /** `os.path.dirname`: everything before the last "/", with trailing
      slashes removed unless it consists of slashes only. */
  function Dirname(path: string): string
  {
    var head := path[..|path| - |Basename(path)|];
    if forall i :: 0 <= i < |head| ==> head[i] == '/' then head else TrimRight(head, {'/'})
  }

  /** The name of the folder holding the file: `basename(dirname(path))`. */
  function FolderName(path: string): string { Basename(Dirname(path)) }

  // ---------------------------------------------------------------------
  // Rated current: re.search(r"[-_](\d+)A[-_]", name)

  const AmpSeparators: set<char> := {'-', '_'}

  /** The pattern matches at position `i`. Because "A" is not a digit, the
      greedy `\d+` must take the whole run of digits after the separator. */
  predicate AmpMatchAt(s: string, i: nat)
  {
    i < |s| && s[i] in AmpSeparators &&
    var k := LeadingDigits(s[i + 1..]);
    k > 0 && i + k + 2 < |s| && s[i + 1 + k] == 'A' && s[i + 2 + k] in AmpSeparators
  }

  /** `match.group(1)`. */
  function AmpDigits(s: string, i: nat): (d: string)
    requires AmpMatchAt(s, i)
    ensures |d| > 0 && AllDigits(d)
  {
    var k := LeadingDigits(s[i + 1..]);
    assert s[i + 1..i + 1 + k] == s[i + 1..][..k];
    s[i + 1..i + 1 + k]
  }

  /** The leftmost match at or after `from`. */
  function FirstAmpMatch(s: string, from: nat): (r: Option<nat>)
    ensures r.Some? ==> from <= r.value && AmpMatchAt(s, r.value)
    ensures r.Some? ==> forall j :: from <= j < r.value ==> !AmpMatchAt(s, j)
    ensures r.None? ==> forall j :: from <= j ==> !AmpMatchAt(s, j)
    decreases |s| - from
  {
    if from >= |s| then None
    else if AmpMatchAt(s, from) then Some(from)
    else FirstAmpMatch(s, from + 1)
  }

  /** `float(match_amp.group(1)) if match_amp else 0.0`, as a whole number. */
  function RatedCurrent(name: string): nat
  {
    match FirstAmpMatch(name, 0)
    case None => 0
    case Some(i) => DigitsValue(AmpDigits(name, i))
  }

  /** A rated current written between separators after a separator-free
      prefix is read back exactly. */
  lemma RatedCurrentReadBack(p: string, d: char, n: nat, c: char, rest: string)
    requires FreeOf(p, AmpSeparators) && d in AmpSeparators && c in AmpSeparators
    ensures RatedCurrent(p + [d] + NatToString(n) + "A" + [c] + rest) == n
  {
    var digits := NatToString(n);
    var s := p + [d] + digits + "A" + [c] + rest;
    NatToStringDigits(n);
    AmpMatchOfRun(p, d, digits, c, rest);
    NoAmpMatchBefore(p, s);
    FirstAmpMatchAt(s, |p|);
  }

  /** A separator, a run of digits, "A" and a separator form a match whose
      group is the run. */
  lemma AmpMatchOfRun(p: string, d: char, digits: string, c: char, rest: string)
    requires d in AmpSeparators && c in AmpSeparators && |digits| > 0 && AllDigits(digits)
    ensures AmpMatchAt(p + [d] + digits + "A" + [c] + rest, |p|)
    ensures AmpDigits(p + [d] + digits + "A" + [c] + rest, |p|) == digits
  {
    var s := p + [d] + digits + "A" + [c] + rest;
    assert s[|p| + 1..] == digits + ("A" + [c] + rest);
    LeadingDigitsOfRun(digits, "A" + [c] + rest);
  }

  /** No match starts inside a separator-free prefix. */
  lemma NoAmpMatchBefore(p: string, s: string)
    requires FreeOf(p, AmpSeparators) && |p| <= |s| && s[..|p|] == p
    ensures forall j :: 0 <= j < |p| ==> !AmpMatchAt(s, j)
  {
    forall j | 0 <= j < |p| ensures !AmpMatchAt(s, j) {
      assert s[j] == s[..|p|][j];
    }
  }

  /** A match with none before it is the leftmost. */
  lemma {:induction false} FirstAmpMatchAt(s: string, i: nat)
    requires AmpMatchAt(s, i) && forall j :: 0 <= j < i ==> !AmpMatchAt(s, j)
    ensures FirstAmpMatch(s, 0) == Some(i)
  {
    var m := FirstAmpMatch(s, 0);
    assert m.Some? && m.value == i;
  }

  /** A rated current at the very end of the name ("...-100A") has no
      separator after the "A" and is not recognised: the current is 0. */
  lemma TrailingRatedCurrentIsMissed(p: string, d: char, n: nat)
    requires FreeOf(p, AmpSeparators) && d in AmpSeparators
    ensures RatedCurrent(p + [d] + NatToString(n) + "A") == 0
  {
    var digits := NatToString(n);
    var s := p + [d] + digits + "A";
    NatToStringDigits(n);
    assert s[|p| + 1..] == digits + "A";
    LeadingDigitsOfRun(digits, "A");
    forall j | 0 <= j ensures !AmpMatchAt(s, j) {
      if j < |p| {
        assert s[j] == p[j];
      } else if j > |p| && j < |s| {
        assert s[j] !in AmpSeparators;
      }
    }
  }

  // ---------------------------------------------------------------------
  // Manufacturer: the first keyword contained in the lower-cased name

  /** A keyword to look for and the manufacturer name it stands for. */
  datatype Brand = Brand(keyword: string, name: string)

  /** `create_db.py` and `daten_aggregator.py`, in their priority order. */
  const Brands: seq<Brand> :=
    [Brand("messstrecke", "Messstrecke"), Brand("mbs", "MBS"), Brand("celsa", "Celsa"), Brand("redur", "Redur")]

  /** `precalc.py`. */
  const LegacyBrands: seq<Brand> := [Brand("mbs", "MBS"), Brand("celsa", "Celsa"), Brand("redur", "Redur")]

  /** The name of the first brand whose keyword occurs in `lowerName`, else
      `fallback`. */
  function FirstBrand(lowerName: string, brands: seq<Brand>, fallback: string): (r: string)
    ensures (exists k :: 0 <= k < |brands| && Contains(lowerName, brands[k].keyword)) ==>
      exists k :: 0 <= k < |brands| && Contains(lowerName, brands[k].keyword) && r == brands[k].name &&
        forall j :: 0 <= j < k ==> !Contains(lowerName, brands[j].keyword)
    ensures (forall k :: 0 <= k < |brands| ==> !Contains(lowerName, brands[k].keyword)) ==> r == fallback
  {
    if |brands| == 0 then fallback
    else if Contains(lowerName, brands[0].keyword) then brands[0].name
    else
      var r := FirstBrand(lowerName, brands[1..], fallback);
      assert forall k :: 1 <= k < |brands| ==> brands[k] == brands[1..][k - 1];
      r
  }

  function Manufacturer(name: string): string { FirstBrand(Lower(name), Brands, "Andere") }

  function LegacyManufacturer(name: string): string { FirstBrand(Lower(name), LegacyBrands, "Unbekannt") }

  /** A reference line ("Messstrecke") outranks every manufacturer keyword. */
  lemma ReferenceLineOutranksBrands(name: string)
    requires Contains(Lower(name), "messstrecke")
    ensures Manufacturer(name) == "Messstrecke"
  {
  }

  /** The manufacturer is one of the known names or "Andere", and it is
      "Andere" exactly when no keyword occurs in the name. */
  lemma ManufacturerCases(name: string)
    ensures Manufacturer(name) in ["Messstrecke", "MBS", "Celsa", "Redur", "Andere"]
    ensures Manufacturer(name) == "Andere" <==>
      forall k :: 0 <= k < |Brands| ==> !Contains(Lower(name), Brands[k].keyword)
  {
  }

  // ---------------------------------------------------------------------
  // Model name guessed from the "-" separated parts of the name

  /** `re.match(r"^\d{4}", p)`: a date or serial number. */
  predicate StartsWithYear(p: string) { |p| >= 4 && AllDigits(p[..4]) }

  /** The filter of `create_db.py`: no leading year, no manufacturer name
      (case-insensitive) and not the rated current's digits. */
  predicate KeepModelPart(p: string, manufacturer: string, current: nat)
  {
    !StartsWithYear(p) && !ContainsIgnoringCase(p, manufacturer) && !Contains(p, NatToString(current))
  }

  /** The filter of `precalc.py`: the manufacturer must equal the part to
      exclude it, and the part holding the extension is excluded too. */
  predicate KeepLegacyModelPart(p: string, manufacturer: string, current: nat)
  {
    !StartsWithYear(p) && Lower(p) != Lower(manufacturer) && !Contains(p, NatToString(current)) && !Contains(p, ".csv")
  }

  /** The parts of the name that survive the filter of `create_db.py`, in
      the order they appear in the name. */
  function ModelParts(name: string, manufacturer: string, current: nat): seq<string>
  {
    Filter(SplitBy(name, {'-'}), p => KeepModelPart(p, manufacturer, current))
  }

  /** The parts of the name that survive the filter of `precalc.py`. */
  function LegacyModelParts(name: string, manufacturer: string, current: nat): seq<string>
  {
    Filter(SplitBy(name, {'-'}), p => KeepLegacyModelPart(p, manufacturer, current))
  }

  /** The model name: the surviving parts joined with "_", or the whole name
      when none survives. */
  function ModelName(name: string, manufacturer: string, current: nat): string
  {
    var kept := ModelParts(name, manufacturer, current);
    if |kept| == 0 then name else Join(kept, "_")
  }

  /** The model name of `precalc.py`: "Standard" when no part survives. */
  function LegacyModelName(name: string, manufacturer: string, current: nat): string
  {
    var kept := LegacyModelParts(name, manufacturer, current);
    if |kept| == 0 then "Standard" else Join(kept, "_")
  }

  /** The record `extract_metadata` returns. */
  datatype Metadata = Metadata(
    filepath: string, folder: string, manufacturer: string,
    ratedCurrent: nat, wandlerKey: string, filename: string)

  /** The name of a sorted file without its "_sortiert.csv" suffix. */
  function OriginalName(filename: string): string { ReplaceAll(filename, "_sortiert.csv", "") }

  /** `extract_metadata` of `create_db.py` and `daten_aggregator.py`. */
  function ExtractMetadata(filepath: string): (m: Metadata)
    ensures m.filename == Basename(filepath) && m.folder == FolderName(filepath)
    ensures m.ratedCurrent == RatedCurrent(OriginalName(m.filename))
    ensures m.manufacturer == Manufacturer(OriginalName(m.filename))
    ensures m.wandlerKey == m.manufacturer + " " + ModelName(OriginalName(m.filename), m.manufacturer, m.ratedCurrent)
    ensures StartsWith(m.wandlerKey, m.manufacturer + " ")
  {
    var filename := Basename(filepath);
    var original := OriginalName(filename);
    var current := RatedCurrent(original);
    var manufacturer := Manufacturer(original);
    var key := manufacturer + " " + ModelName(original, manufacturer, current);
    KeyStarts(manufacturer + " ", ModelName(original, manufacturer, current));
    Metadata(filepath, FolderName(filepath), manufacturer, current, key, filename)
  }

  /** The key `precalc.py` builds: manufacturer, model name and rated
      current, as in "MBS ASK_31 (100A)". */
  function LegacyKey(manufacturer: string, model: string, current: nat): (key: string)
    ensures StartsWith(key, manufacturer + " ") && EndsWith(key, " (" + NatToString(current) + "A)")
  {
    KeyEnds(manufacturer + " ", model, " (" + NatToString(current) + "A)");
    manufacturer + " " + model + " (" + NatToString(current) + "A)"
  }

  /** `extract_metadata` of `precalc.py`: the folder has "_" turned into " ",
      the name keeps its extension and the key ends in the rated current. */
  function ExtractLegacyMetadata(filepath: string): (m: Metadata)
    ensures m.filename == Basename(filepath)
    ensures m.folder == ReplaceChar(FolderName(filepath), '_', ' ') && '_' !in m.folder
    ensures m.ratedCurrent == RatedCurrent(m.filename)
    ensures m.manufacturer == LegacyManufacturer(m.filename)
    ensures m.wandlerKey == LegacyKey(m.manufacturer, LegacyModelName(m.filename, m.manufacturer, m.ratedCurrent), m.ratedCurrent)
  {
    var filename := Basename(filepath);
    var current := RatedCurrent(filename);
    var manufacturer := LegacyManufacturer(filename);
    var folder := ReplaceChar(FolderName(filepath), '_', ' ');
    ReplaceCharRemoves(FolderName(filepath), '_', ' ');
    Metadata(filepath, folder, manufacturer, current, LegacyKey(manufacturer, LegacyModelName(filename, manufacturer, current), current), filename)
  }

  /** A key starts with the text it is built from. */
  lemma KeyStarts(pre: string, rest: string)
    ensures StartsWith(pre + rest, pre)
  {
    assert (pre + rest)[..|pre|] == pre;
  }

  /** A key built as prefix, middle and suffix starts and ends with them. */
  lemma KeyEnds(pre: string, mid: string, suf: string)
    ensures StartsWith(pre + mid + suf, pre) && EndsWith(pre + mid + suf, suf)
  {
    var key := pre + mid + suf;
    assert key[..|pre|] == pre;
    assert key[|key| - |suf|..] == suf;
  }

  /** Every part of a split name is free of the separator. */
  lemma DashFreeParts(name: string)
    ensures forall p :: p in SplitBy(name, {'-'}) ==> '-' !in p
  {
    var parts := SplitBy(name, {'-'});
    SplitPiecesFree(name, {'-'});
    forall p | p in parts ensures '-' !in p {
      var k :| 0 <= k < |parts| && parts[k] == p;
      assert FreeOf(parts[k], {'-'});
    }
  }

  /** The model name of `create_db.py`: a part of the "-" separated name is
      kept exactly when it does not start with four digits, does not contain
      the manufacturer (whatever the case) and does not contain the rated
      current's digits; the kept parts are "-"-free, and the model name is
      them joined with "_", or the whole name when none is kept. The last
      clause is the definition of `ModelName`, repeated so the lemma reads
      as a whole; the characterisation of the kept parts is what is proved. */
  lemma ModelNameParts(name: string, manufacturer: string, current: nat)
    ensures var kept := ModelParts(name, manufacturer, current);
      (forall p :: p in kept <==>
        p in SplitBy(name, {'-'}) && !StartsWithYear(p) &&
        !ContainsIgnoringCase(p, manufacturer) && !Contains(p, NatToString(current))) &&
      (forall p :: p in kept ==> '-' !in p) &&
      ModelName(name, manufacturer, current) == (if |kept| == 0 then name else Join(kept, "_"))
  {
    DashFreeParts(name);
  }

  /** The model name of `precalc.py`: a part is kept exactly when it does not
      start with four digits, is not the manufacturer's name (whatever the
      case), does not contain the rated current's digits and does not hold
      ".csv"; the model name is the kept parts joined with "_", or "Standard"
      when none is kept. The last clause repeats the definition of
      `LegacyModelName`. */
  lemma LegacyModelNameParts(name: string, manufacturer: string, current: nat)
    ensures var kept := LegacyModelParts(name, manufacturer, current);
      (forall p :: p in kept <==>
        p in SplitBy(name, {'-'}) && !StartsWithYear(p) && Lower(p) != Lower(manufacturer) &&
        !Contains(p, NatToString(current)) && !Contains(p, ".csv")) &&
      (forall p :: p in kept ==> '-' !in p) &&
      LegacyModelName(name, manufacturer, current) == (if |kept| == 0 then "Standard" else Join(kept, "_"))
  {
    DashFreeParts(name);
  }

  /** `extract_metadata` of the interactive tools: the file name without
      ".csv", and the rated current read from the file name. */
  function CleanName(filename: string): string { ReplaceAll(filename, ".csv", "") }

  /** Stripping the suffix gives back the stem the tools wrote it from. */
  lemma CleanNameOfCsv(stem: string)
    requires !Contains(stem + ".cs", ".csv")
    ensures CleanName(stem + ".csv") == stem
  {
    assert ".csv"[..3] == ".cs";
    ReplaceAllOfSuffix(stem, ".csv", "");
    assert stem + "" == stem;
  }

  lemma OriginalNameOfSortedFile(stem: string)
    requires !Contains(stem + "_sortiert.cs", "_sortiert.csv")
    ensures OriginalName(stem + "_sortiert.csv") == stem
  {
    assert "_sortiert.csv"[..12] == "_sortiert.cs";
    ReplaceAllOfSuffix(stem, "_sortiert.csv", "");
    assert stem + "" == stem;
  }
}

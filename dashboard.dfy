/** The helpers of the dashboard (`dashboard_new.py`): reading the
    catalogue fields out of a measurement's file name, the accuracy-class
    limits drawn as the "trumpet", and the display name of a transformer. */
module Dashboard {
  import opened Text
  import opened Domain
  import FileNames

  // ---------------------------------------------------------------------
  // parse_filename_info

  /** `manufacturer, model, rated current, measuring burden` of a file. */
  datatype FileInfo = FileInfo(manufacturer: string, model: string, ratedCurrent: real, burden: string)

  const Unknown: FileInfo := FileInfo("Unbekannt", "Unbekannt", 0.0, "Unbekannt")

  /** The position of the last `c` in `s`. */
  function LastIndexOf(s: string, c: char): (r: Option<nat>)
    ensures r.Some? ==> r.value < |s| && s[r.value] == c && forall k :: r.value < k < |s| ==> s[k] != c
    ensures r.None? ==> forall k :: 0 <= k < |s| ==> s[k] != c
  {
    if |s| == 0 then None
    else if s[|s| - 1] == c then Some(|s| - 1)
    else LastIndexOf(s[..|s| - 1], c)
  }

  /** `os.path.splitext(base)[0]`: the name without the text from its last
      "." on, unless only dots come before that "." (".hidden" has no
      extension). */
  function StripExtension(base: string): string
  {
    match LastIndexOf(base, '.')
    case None => base
    case Some(k) => if exists i :: 0 <= i < k && base[i] != '.' then base[..k] else base
  }

  /** `s.replace(c, "", 1)`. */
  function RemoveFirst(s: string, c: char): (r: string)
  {
    match FirstIndex(s, x => x == c)
    case None => s
    case Some(k) => s[..k] + s[k + 1..]
  }

  /** `s.replace(".", "", 1).isdigit()`: digits with at most one ".", and
      at least one digit. */
  predicate IsDecimal(s: string)
  {
    var t := RemoveFirst(s, '.');
    |t| > 0 && AllDigits(t)
  }

  function Pow10(n: nat): (r: real)
    ensures r >= 1.0
  {
    if n == 0 then 1.0 else 10.0 * Pow10(n - 1)
  }

  /** `float(s)` for a string `IsDecimal` accepts. */
  function DecimalValue(s: string): (r: real)
    requires IsDecimal(s)
    ensures r >= 0.0
  {
    match FirstIndex(s, x => x == '.')
    case None => DigitsValue(s) as real
    case Some(k) =>
      DigitsOfParts(s[..k], s[k + 1..]);
      DigitsValue(s[..k]) as real + DigitsValue(s[k + 1..]) as real / Pow10(|s| - k - 1)
  }

  lemma DigitsOfParts(a: string, b: string)
    requires AllDigits(a + b)
    ensures AllDigits(a) && AllDigits(b)
  {
    assert forall i :: 0 <= i < |a| ==> a[i] == (a + b)[i];
    assert forall i :: 0 <= i < |b| ==> b[i] == (a + b)[|a| + i];
  }

  /** The rated current field: upper-cased, every "A" removed, read as a
      number if it is one, else 0.0. */
  function CurrentField(part: string): (r: real)
    ensures r >= 0.0
    ensures IsDecimal(RemoveChar(Upper(part), 'A')) ==> r == DecimalValue(RemoveChar(Upper(part), 'A'))
    ensures !IsDecimal(RemoveChar(Upper(part), 'A')) ==> r == 0.0
  {
    var amps := RemoveChar(Upper(part), 'A');
    if IsDecimal(amps) then DecimalValue(amps) else 0.0
  }

  /** The "-" separated fields of a path's base name without its extension. */
  function NameFields(path: string): seq<string>
  {
    SplitBy(StripExtension(FileNames.Basename(path)), {'-'})
  }

  /** `parse_filename_info(filename_str)`; `None` stands for a value that is
      not a string (a missing cell). The name is
      `<date>-<manufacturer>-<model>-<current>A-<burden>[-...].<ext>`. */
  function ParseFilenameInfo(path: Option<string>): (r: FileInfo)
    ensures path.None? ==> r == Unknown
    ensures path.Some? && |NameFields(path.value)| < 5 ==> r == Unknown
    ensures path.Some? && |NameFields(path.value)| >= 5 ==>
      var parts := NameFields(path.value);
      r.ratedCurrent == CurrentField(parts[3]) && r.burden == parts[4] &&
      r.manufacturer == ReplaceChar(parts[1], '_', ' ') && r.model == ReplaceChar(parts[2], '_', ' ') &&
      '_' !in r.manufacturer && '_' !in r.model
    ensures r.ratedCurrent >= 0.0
  {
    if path.None? then Unknown
    else
      var parts := NameFields(path.value);
      if |parts| < 5 then Unknown
      else
        ReplaceCharRemoves(parts[1], '_', ' ');
        ReplaceCharRemoves(parts[2], '_', ' ');
        FileInfo(ReplaceChar(parts[1], '_', ' '), ReplaceChar(parts[2], '_', ' '),
                    CurrentField(parts[3]), parts[4])
  }

  /** A path without "/" is its own base name. */
  lemma BasenameOfName(name: string)
    requires '/' !in name
    ensures FileNames.Basename(name) == name
  {
    assert forall k :: 0 <= k < |name| ==> name[k] != '/';
  }

  /** Only the file's own name counts, not the folder it lies in. */
  lemma {:induction false} BasenameIgnoresFolder(dir: string, name: string)
    ensures FileNames.Basename(dir + "/" + name) == FileNames.Basename(name)
    decreases |name|
  {
    var p := dir + "/" + name;
    if |name| == 0 {
      assert p[|p| - 1] == '/';
    } else {
      assert p[..|p| - 1] == dir + "/" + name[..|name| - 1];
      assert p[|p| - 1] == name[|name| - 1];
      BasenameIgnoresFolder(dir, name[..|name| - 1]);
    }
  }

  lemma ParseIgnoresFolder(dir: string, name: string)
    ensures ParseFilenameInfo(Some(dir + "/" + name)) == ParseFilenameInfo(Some(name))
  {
    BasenameIgnoresFolder(dir, name);
  }

  /** A name with a dot-free extension after a non-dot character loses
      exactly that extension. */
  lemma StripExtensionOf(stem: string, ext: string, i: nat)
    requires i < |stem| && stem[i] != '.' && '.' !in ext
    ensures StripExtension(stem + "." + ext) == stem
  {
    var s := stem + "." + ext;
    var li := LastIndexOf(s, '.');
    assert s[|stem|] == '.';
    assert li.Some?;
    assert forall k :: |stem| < k < |s| ==> s[k] == ext[k - |stem| - 1];
    assert li.value == |stem|;
    assert s[i] != '.';
    assert s[..|stem|] == stem;
  }

  lemma {:induction false} RemoveCharAppend(a: string, b: string, c: char)
    ensures RemoveChar(a + b, c) == RemoveChar(a, c) + RemoveChar(b, c)
    decreases |a|
  {
    if |a| > 0 {
      assert (a + b)[1..] == a[1..] + b;
      RemoveCharAppend(a[1..], b, c);
    } else {
      assert a + b == b;
    }
  }

  lemma {:induction false} RemoveCharAbsent(s: string, c: char)
    requires c !in s
    ensures RemoveChar(s, c) == s
    decreases |s|
  {
    if |s| > 0 {
      RemoveCharAbsent(s[1..], c);
      assert [s[0]] + s[1..] == s;
    }
  }

  /** A plain digit string followed by the unit reads back as its value. */
  lemma CurrentFieldOfAmps(amps: string, unit: char)
    requires |amps| > 0 && AllDigits(amps) && (unit == 'A' || unit == 'a')
    ensures CurrentField(amps + [unit]) == DigitsValue(amps) as real
  {
    UpperOfAmps(amps, unit);
    RemoveUnit(amps);
    DigitsAreDecimal(amps);
  }

  lemma UpperOfAmps(amps: string, unit: char)
    requires AllDigits(amps) && (unit == 'A' || unit == 'a')
    ensures Upper(amps + [unit]) == amps + "A"
  {
  }

  lemma RemoveUnit(amps: string)
    requires AllDigits(amps)
    ensures RemoveChar(amps + "A", 'A') == amps
  {
    RemoveCharAppend(amps, "A", 'A');
    assert 'A' !in amps by {
      forall k | 0 <= k < |amps| ensures amps[k] != 'A' { assert IsDigit(amps[k]); }
    }
    RemoveCharAbsent(amps, 'A');
    assert RemoveChar("A", 'A') == "";
    assert amps + "" == amps;
  }

  /** `float(a + "." + b)` for digit strings: the whole part plus the
      fraction scaled by the number of fraction digits. */
  lemma DecimalOfParts(a: string, b: string)
    requires AllDigits(a) && AllDigits(b) && |a| + |b| > 0
    ensures IsDecimal(a + "." + b)
    ensures DecimalValue(a + "." + b) == DigitsValue(a) as real + DigitsValue(b) as real / Pow10(|b|)
  {
    var s := a + "." + b;
    assert s[|a|] == '.';
    assert forall k :: 0 <= k < |a| ==> s[k] == a[k] && s[k] != '.';
    FirstIndexIs(s, x => x == '.', |a|);
    assert s[..|a|] == a;
    assert s[|a| + 1..] == b;
  }

  /** A current field with a fraction, such as "2.5A", reads back as that
      fraction. */
  lemma CurrentFieldOfFraction(a: string, b: string, unit: char)
    requires AllDigits(a) && AllDigits(b) && |a| + |b| > 0 && (unit == 'A' || unit == 'a')
    ensures CurrentField(a + "." + b + [unit]) == DigitsValue(a) as real + DigitsValue(b) as real / Pow10(|b|)
  {
    var d := a + "." + b;
    assert Upper(d + [unit]) == d + "A";
    assert 'A' !in d by {
      assert forall k :: 0 <= k < |d| ==> d[k] == '.' || IsDigit(d[k]);
    }
    RemoveCharAppend(d, "A", 'A');
    RemoveCharAbsent(d, 'A');
    assert RemoveChar("A", 'A') == "";
    assert d + "" == d;
    DecimalOfParts(a, b);
  }

  lemma DigitsAreDecimal(amps: string)
    requires |amps| > 0 && AllDigits(amps)
    ensures IsDecimal(amps) && DecimalValue(amps) == DigitsValue(amps) as real
  {
    assert forall k :: 0 <= k < |amps| ==> amps[k] != '.';
    assert FirstIndex(amps, x => x == '.') == None;
  }

  lemma {:induction false} JoinFreeOf(ws: seq<string>, sep: char, cs: set<char>)
    requires sep !in cs && forall k :: 0 <= k < |ws| ==> FreeOf(ws[k], cs)
    ensures FreeOf(Join(ws, [sep]), cs)
    decreases |ws|
  {
    if |ws| > 1 {
      JoinFreeOf(ws[1..], sep, cs);
      var rest := Join(ws[1..], [sep]);
      assert Join(ws, [sep]) == ws[0] + [sep] + rest;
      assert forall k :: 0 <= k < |ws[0]| ==> (ws[0] + [sep] + rest)[k] == ws[0][k];
      assert forall k :: 0 <= k < |rest| ==> (ws[0] + [sep] + rest)[|ws[0]| + 1 + k] == rest[k];
    }
  }

  lemma AmpsFieldFree(amps: string, unit: char, cs: set<char>)
    requires AllDigits(amps) && (unit == 'A' || unit == 'a')
    requires forall c :: c in cs ==> !IsDigit(c) && c != 'A' && c != 'a'
    ensures FreeOf(amps + [unit], cs)
  {
    assert forall k :: 0 <= k < |amps| ==> (amps + [unit])[k] == amps[k];
  }

  lemma FieldsPathFree(ws: seq<string>, ext: string)
    requires '/' !in ext
    requires forall k :: 0 <= k < |ws| ==> FreeOf(ws[k], {'-', '/'})
    ensures '/' !in Join(ws, "-") + "." + ext
  {
    var stem := Join(ws, "-");
    var path := stem + "." + ext;
    assert forall k :: 0 <= k < |ws| ==> FreeOf(ws[k], {'/'});
    JoinFreeOf(ws, '-', {'/'});
    assert forall k :: 0 <= k < |stem| ==> path[k] == stem[k];
    assert forall k :: |stem| < k < |path| ==> path[k] == ext[k - |stem| - 1];
  }

  /** A name made of slash-free fields loses just its extension. */
  lemma StemOfFields(ws: seq<string>, ext: string)
    requires |ws| == 5 && '.' !in ext && '/' !in ext
    requires forall k :: 0 <= k < 5 ==> FreeOf(ws[k], {'-', '/'})
    ensures StripExtension(FileNames.Basename(Join(ws, "-") + "." + ext)) == Join(ws, "-")
  {
    FieldsPathFree(ws, ext);
    BasenameOfName(Join(ws, "-") + "." + ext);
    StemStartsWithField(ws);
    StripExtensionOf(Join(ws, "-"), ext, |ws[0]|);
  }

  lemma StemStartsWithField(ws: seq<string>)
    requires |ws| >= 2
    ensures |ws[0]| < |Join(ws, "-")| && Join(ws, "-")[|ws[0]|] == '-'
  {
    assert Join(ws, "-") == ws[0] + "-" + Join(ws[1..], "-");
  }

  /** The five fields of a name joined by "-", split again. */
  lemma FieldsReadBack(ws: seq<string>, ext: string)
    requires |ws| == 5 && '.' !in ext && '/' !in ext
    requires forall k :: 0 <= k < 5 ==> FreeOf(ws[k], {'-', '/'})
    ensures SplitBy(StripExtension(FileNames.Basename(Join(ws, "-") + "." + ext)), {'-'}) == ws
  {
    StemOfFields(ws, ext);
    assert forall k :: 0 <= k < 5 ==> FreeOf(ws[k], {'-'});
    SplitJoin(ws, '-', {'-'});
  }

  /** Five fields joined by "-". */
  lemma JoinFive(a: string, b: string, c: string, d: string, e: string)
    ensures Join([a, b, c, d, e], "-") == a + "-" + b + "-" + c + "-" + d + "-" + e
  {
    var de := d + "-" + e;
    var cde := c + "-" + de;
    var bcde := b + "-" + cde;
    assert Join([d, e], "-") == de;
    assert [c, d, e][1..] == [d, e];
    assert Join([c, d, e], "-") == cde;
    assert [b, c, d, e][1..] == [c, d, e];
    assert Join([b, c, d, e], "-") == bcde;
    assert [a, b, c, d, e][1..] == [b, c, d, e];
    assert Join([a, b, c, d, e], "-") == a + "-" + bcde;
    assert a + "-" + bcde == a + "-" + b + "-" + c + "-" + d + "-" + e;
  }

  /** The file-name convention read back: a name written as
      `date-maker-model-<digits>A-burden.ext` yields the maker and model
      (with "_" shown as " "), the digits as the rated current and the
      burden field. */
  lemma ParseFilenameReadsFields(date: string, maker: string, model: string, current: string,
                                 burden: string, ext: string)
    requires FreeOf(date, {'-', '/'}) && FreeOf(maker, {'-', '/'}) && FreeOf(model, {'-', '/'}) && FreeOf(burden, {'-', '/'})
    requires |current| >= 2 && AllDigits(current[..|current| - 1]) && current[|current| - 1] in {'A', 'a'}
    requires '.' !in ext && '/' !in ext
    ensures ParseFilenameInfo(Some(date + "-" + maker + "-" + model + "-" + current + "-" + burden + "." + ext))
         == FileInfo(ReplaceChar(maker, '_', ' '), ReplaceChar(model, '_', ' '),
                     DigitsValue(current[..|current| - 1]) as real, burden)
  {
    var amps := current[..|current| - 1];
    var unit := current[|current| - 1];
    assert current == amps + [unit];
    AmpsFieldFree(amps, unit, {'-', '/'});
    var ws := [date, maker, model, current, burden];
    JoinFive(date, maker, model, current, burden);
    FieldsReadBack(ws, ext);
    CurrentFieldOfAmps(amps, unit);
  }

  // ---------------------------------------------------------------------
  // get_trumpet_limits

  /** The load points of the limit curve, in percent of the rated current. */
  const LoadPoints: seq<nat> := [1, 5, 20, 100, 120]

  /** The ratio-error limits in percent of an accuracy class at the load
      points; class 3 has none at 1 %. Any other class uses class 0.5. */
  function ClassLimits(classValue: real): (y: seq<Option<real>>)
    ensures |y| == |LoadPoints|
  {
    if classValue == 0.2 then [Some(0.75), Some(0.35), Some(0.2), Some(0.2), Some(0.2)]
    else if classValue == 0.5 then [Some(1.5), Some(1.5), Some(0.75), Some(0.5), Some(0.5)]
    else if classValue == 1.0 then [Some(3.0), Some(1.5), Some(1.0), Some(1.0), Some(1.0)]
    else if classValue == 3.0 then [None, Some(3.0), Some(3.0), Some(3.0), Some(3.0)]
    else [Some(1.5), Some(1.5), Some(0.75), Some(0.5), Some(0.5)]
  }

  /** `[-v if v is not None else None for v in y]`. */
  function Mirrored(y: seq<Option<real>>): (r: seq<Option<real>>)
    ensures |r| == |y|
  {
    seq(|y|, i requires 0 <= i < |y| => if y[i].Some? then Some(-y[i].value) else None)
  }

  /** `get_trumpet_limits(class_val)`: the load points, the upper limits and
      the lower limits. */
  function TrumpetLimits(classValue: real): (seq<nat>, seq<Option<real>>, seq<Option<real>>)
  {
    var y := ClassLimits(classValue);
    (LoadPoints, y, Mirrored(y))
  }

  const KnownClasses: set<real> := {0.2, 0.5, 1.0, 3.0}

  /** The lower curve mirrors the upper one: mirroring it again gives the
      upper curve back, a missing limit stays missing on both. */
  lemma MirroredTwice(y: seq<Option<real>>)
    ensures Mirrored(Mirrored(y)) == y
    ensures forall i :: 0 <= i < |y| ==> (Mirrored(y)[i].Some? <==> y[i].Some?)
  {
    assert forall i :: 0 <= i < |y| ==> Mirrored(Mirrored(y))[i] == y[i];
  }

  /** The trumpet's shape: three curves over the same five load points; the
      limit narrows as the load rises and, from the rated current on, is
      the class itself (for the classes the dashboard knows); an unknown
      class is drawn as class 0.5. */
  lemma TrumpetShape(classValue: real)
    ensures var (x, y, yNeg) := TrumpetLimits(classValue);
      x == LoadPoints && |y| == |x| && |yNeg| == |x| &&
      (forall i :: 0 <= i < |y| ==> (yNeg[i].Some? <==> y[i].Some?)) &&
      (forall i :: 0 <= i < |y| && y[i].Some? ==> yNeg[i].value == -y[i].value && y[i].value > 0.0) &&
      (forall i, j :: 0 <= i < j < |y| && y[i].Some? ==> y[j].Some? && y[i].value >= y[j].value) &&
      (classValue in KnownClasses ==> y[3] == Some(classValue) && y[4] == Some(classValue)) &&
      (classValue !in KnownClasses ==> TrumpetLimits(classValue) == TrumpetLimits(0.5))
  {
    MirroredTwice(ClassLimits(classValue));
  }

  // ---------------------------------------------------------------------
  // auto_format_name

  /** What `auto_format_name` reads from a store row; `comment` is `None`
      when the row has no "Kommentar" column. */
  datatype Row = Row(wandlerKey: string, folder: string, dutName: string, comment: Option<string>)

  /** `re.split(r"[_\s]+", ...)`, up to empty pieces, which are skipped. */
  const NameSeparators: set<char> := Whitespace + {'_'}

  /** `re.match(r"^\d+R\d*$", t)`: a burden token such as "5R" or "2R5". */
  predicate IsBurden(t: string)
  {
    var k := LeadingDigits(t);
    0 < k < |t| && t[k] == 'R' && AllDigits(t[k + 1..])
  }

  predicate KeepsInName(t: string) { t != "" && !IsBurden(t) }

  /** The tokens that make up the base name, in order. */
  function NameParts(tokens: seq<string>): seq<string>
  {
    Filter(tokens, KeepsInName)
  }

  /** The last burden token, the one the name shows. */
  function LastBurden(tokens: seq<string>): Option<string>
  {
    if |tokens| == 0 then None
    else if tokens[|tokens| - 1] != "" && IsBurden(tokens[|tokens| - 1]) then Some(tokens[|tokens| - 1])
    else LastBurden(tokens[..|tokens| - 1])
  }

  /** "2R5" is shown as "2,5 Ω". */
  function BurdenLabel(t: string): string
  {
    ReplaceChar(t, 'R', ',') + " Ω"
  }

  /** The device under test is added unless the name already mentions it,
      ignoring case. */
  function WithDevice(base: string, dut: string): string
  {
    if ContainsIgnoringCase(base, dut) then base else base + " | " + dut
  }

  /** `burden_part`: the label of the last burden token, or "". */
  function BurdenPart(tokens: seq<string>): string
  {
    match LastBurden(tokens)
    case None => ""
    case Some(b) => BurdenLabel(b)
  }

  /** The base name, the device under test and the burden. */
  function NameCore(row: Row): string
  {
    var tokens := SplitBy(row.wandlerKey, NameSeparators);
    var burden := BurdenPart(tokens);
    WithDevice(Join(NameParts(tokens), " "), row.dutName) + (if burden != "" then " | " + burden else "")
  }

  /** The wiring read from the folder; "parallel" wins over "dreieck". */
  function WiringSuffix(folder: string): string
  {
    var f := Lower(folder);
    if Contains(f, "parallel") then " | Parallel"
    else if Contains(f, "dreieck") then " | Dreieck"
    else ""
  }

  /** A comment is shown unless it is blank or the "0.0" of a store whose
      comment was filled with a number. */
  function CommentSuffix(comment: Option<string>): string
  {
    match comment
    case None => ""
    case Some(c) =>
      var clean := Strip(c, Whitespace);
      if c != "" && clean != "" && clean != "0.0" then " | " + clean else ""
  }

  function FormattedName(row: Row): string
  {
    NameCore(row) + WiringSuffix(row.folder) + CommentSuffix(row.comment)
  }

  /** The token loop of `auto_format_name`. */
  method ScanTokens(tokens: seq<string>) returns (nameParts: seq<string>, burdenPart: string)
    ensures nameParts == NameParts(tokens) && burdenPart == BurdenPart(tokens)
  {
    nameParts := [];
    burdenPart := "";
    var i := 0;
    while i < |tokens|
      invariant 0 <= i <= |tokens|
      invariant nameParts == NameParts(tokens[..i])
      invariant burdenPart == BurdenPart(tokens[..i])
    {
      var t := tokens[i];
      assert tokens[..i + 1] == tokens[..i] + [t];
      FilterSnoc(tokens[..i], t, KeepsInName);
      assert tokens[..i + 1][..i] == tokens[..i];
      if t != "" {
        if IsBurden(t) {
          burdenPart := BurdenLabel(t);
        } else {
          nameParts := nameParts + [t];
        }
      }
      i := i + 1;
    }
    assert tokens[..i] == tokens;
  }

  /** The comment step of `auto_format_name`. */
  method AppendComment(baseName: string, comment: Option<string>) returns (name: string)
    ensures name == baseName + CommentSuffix(comment)
  {
    name := baseName;
    if comment.Some? && comment.value != "" {
      var cleanComment := Strip(comment.value, Whitespace);
      if cleanComment != "" && cleanComment != "0.0" {
        name := name + " | " + cleanComment;
      }
    }
  }

  /** `auto_format_name(row)`. */
  method AutoFormatName(row: Row) returns (name: string)
    ensures name == FormattedName(row)
  {
    var tokens := SplitBy(row.wandlerKey, NameSeparators);
    var nameParts, burdenPart := ScanTokens(tokens);
    var baseName := Join(nameParts, " ");
    var dut := row.dutName;
    if !ContainsIgnoringCase(baseName, dut) {
      baseName := baseName + " | " + dut;
    }
    if burdenPart != "" {
      baseName := baseName + " | " + burdenPart;
    }
    assert baseName == NameCore(row);
    var folderLower := Lower(row.folder);
    if Contains(folderLower, "parallel") {
      baseName := baseName + " | Parallel";
    } else if Contains(folderLower, "dreieck") {
      baseName := baseName + " | Dreieck";
    }
    assert baseName == NameCore(row) + WiringSuffix(row.folder);
    name := AppendComment(baseName, row.comment);
  }

  /** The last burden token is a burden token of the key and no later token
      is one; without any, there is none. */
  lemma {:induction false} LastBurdenIsLast(tokens: seq<string>)
    ensures LastBurden(tokens).Some? ==>
      exists i :: 0 <= i < |tokens| && tokens[i] == LastBurden(tokens).value && IsBurden(tokens[i]) &&
        forall j :: i < j < |tokens| ==> !IsBurden(tokens[j])
    ensures LastBurden(tokens).None? ==> forall i :: 0 <= i < |tokens| ==> !IsBurden(tokens[i])
    decreases |tokens|
  {
    if |tokens| > 0 {
      var init := tokens[..|tokens| - 1];
      LastBurdenIsLast(init);
      if !IsBurden(tokens[|tokens| - 1]) && LastBurden(tokens).Some? {
        var i :| 0 <= i < |init| && init[i] == LastBurden(init).value && IsBurden(init[i]) &&
          forall j :: i < j < |init| ==> !IsBurden(init[j]);
        assert tokens[i] == init[i];
      }
    }
  }

  /** The words of the base name are exactly the name's tokens that are
      neither empty nor a burden, in order: splitting the base name at its
      blanks gives them back. */
  lemma BaseNameWords(key: string)
    requires |NameParts(SplitBy(key, NameSeparators))| > 0
    ensures var parts := NameParts(SplitBy(key, NameSeparators));
      SplitBy(Join(parts, " "), {' '}) == parts &&
      forall t :: t in parts <==> t in SplitBy(key, NameSeparators) && t != "" && !IsBurden(t)
  {
    var tokens := SplitBy(key, NameSeparators);
    var parts := NameParts(tokens);
    SplitPiecesFree(key, NameSeparators);
    forall k | 0 <= k < |parts| ensures FreeOf(parts[k], {' '}) {
      assert parts[k] in tokens;
      var j :| 0 <= j < |tokens| && tokens[j] == parts[k];
      assert FreeOf(tokens[j], NameSeparators);
    }
    SplitJoin(parts, ' ', {' '});
  }

  /** The display name always mentions the device under test, ignoring
      case: either the transformer's name already does, or it is added. */
  lemma FormattedNameMentionsDevice(row: Row)
    ensures ContainsIgnoringCase(FormattedName(row), row.dutName)
  {
    var tokens := SplitBy(row.wandlerKey, NameSeparators);
    var base := Join(NameParts(tokens), " ");
    var burden := BurdenPart(tokens);
    var withDut := WithDevice(base, row.dutName);
    var tail := if burden != "" then " | " + burden else "";
    assert NameCore(row) == withDut + tail;
    var rest := tail + WiringSuffix(row.folder) + CommentSuffix(row.comment);
    AppendThree(withDut, tail, WiringSuffix(row.folder), CommentSuffix(row.comment));
    DeviceMentioned(base, row.dutName);
    MentionSurvivesAppend(withDut, rest, row.dutName);
  }

  lemma AppendThree(a: string, b: string, c: string, d: string)
    ensures a + b + c + d == a + (b + c + d)
  {
  }

  /** Text appended after a mention keeps it. */
  lemma MentionSurvivesAppend(x: string, rest: string, dut: string)
    requires ContainsIgnoringCase(x, dut)
    ensures ContainsIgnoringCase(x + rest, dut)
  {
    LowerAppend(x, rest);
    ContainsInPrefix(Lower(x), Lower(rest), Lower(dut));
  }

  lemma DeviceMentioned(base: string, dut: string)
    ensures ContainsIgnoringCase(WithDevice(base, dut), dut)
  {
    if !ContainsIgnoringCase(base, dut) {
      LowerAppend(base + " | ", dut);
      ContainsSuffix(Lower(base + " | "), Lower(dut));
    }
  }

  /** The burden the name shows is the key's last burden token, written
      with a decimal comma, right after the name and device. */
  lemma BurdenShownIsLast(row: Row, b: string)
    requires LastBurden(SplitBy(row.wandlerKey, NameSeparators)) == Some(b)
    ensures EndsWith(NameCore(row), " | " + ReplaceChar(b, 'R', ',') + " Ω")
    ensures IsBurden(b) && exists i :: (0 <= i < |SplitBy(row.wandlerKey, NameSeparators)| &&
      SplitBy(row.wandlerKey, NameSeparators)[i] == b)
  {
    LastBurdenIsLast(SplitBy(row.wandlerKey, NameSeparators));
  }

  /** The wiring shown: "Parallel" exactly when the folder says so,
      "Dreieck" exactly when it says "dreieck" and not "parallel". */
  lemma WiringShown(folder: string)
    ensures WiringSuffix(folder) == " | Parallel" <==> ContainsIgnoringCase(folder, "parallel")
    ensures WiringSuffix(folder) == " | Dreieck" <==>
      ContainsIgnoringCase(folder, "dreieck") && !ContainsIgnoringCase(folder, "parallel")
    ensures WiringSuffix(folder) == "" <==>
      !ContainsIgnoringCase(folder, "dreieck") && !ContainsIgnoringCase(folder, "parallel")
  {
    assert Lower("parallel") == "parallel";
    assert Lower("dreieck") == "dreieck";
  }

  /** The "0.0" a rebuilt store puts in an unset comment is never shown, with
      or without surrounding blanks, and neither is a blank comment. */
  lemma ZeroCommentHidden(pad: string, pad2: string)
    requires forall k :: 0 <= k < |pad| ==> pad[k] in Whitespace
    requires forall k :: 0 <= k < |pad2| ==> pad2[k] in Whitespace
    ensures CommentSuffix(Some(pad + "0.0" + pad2)) == ""
    ensures CommentSuffix(Some(pad)) == ""
  {
    TrimLeftBlank(pad, "0.0" + pad2);
    assert pad + "0.0" + pad2 == pad + ("0.0" + pad2);
    TrimRightBlank("0.0", pad2);
    TrimLeftBlank(pad, "");
    assert pad + "" == pad;
  }

  lemma {:induction false} TrimLeftBlank(pad: string, s: string)
    requires forall k :: 0 <= k < |pad| ==> pad[k] in Whitespace
    requires |s| == 0 || s[0] !in Whitespace
    ensures TrimLeft(pad + s, Whitespace) == s
    decreases |pad|
  {
    if |pad| > 0 {
      assert (pad + s)[1..] == pad[1..] + s;
      TrimLeftBlank(pad[1..], s);
    } else {
      assert pad + s == s;
    }
  }

  lemma {:induction false} TrimRightBlank(s: string, pad: string)
    requires forall k :: 0 <= k < |pad| ==> pad[k] in Whitespace
    requires |s| == 0 || s[|s| - 1] !in Whitespace
    ensures TrimRight(s + pad, Whitespace) == s
    decreases |pad|
  {
    if |pad| > 0 {
      assert (s + pad)[..|s + pad| - 1] == s + pad[..|pad| - 1];
      TrimRightBlank(s, pad[..|pad| - 1]);
    } else {
      assert s + pad == s;
    }
  }

  /** A comment that is shown appears stripped, after the wiring. */
  lemma CommentShown(row: Row, c: string)
    requires row.comment == Some(c)
    requires Strip(c, Whitespace) != "" && Strip(c, Whitespace) != "0.0"
    ensures EndsWith(FormattedName(row), " | " + Strip(c, Whitespace))
  {
    assert c != "";
  }
}

/**
 * The font catalog: script codes from the script part of a font file name,
 * family keys, and the per-file indexing that fills the list of all fonts and
 * the set of supported scripts.
 *
 * The file-name regular expression itself is not modelled: each listed file
 * arrives already split into the expression's groups, or without a match.
 */
module FontCatalog {
  import opened Wrappers
  import opened Text

  datatype HintStatus = Hinted | Unhinted

  /** The target platforms; a font's own platform is either absent or Windows. */
  datatype Platform = Windows | Linux | Other

  /** The three directories that are listed, in listing order. */
  datatype Directory = HintedDir | UnhintedDir | CjkDir

  /** A font file: its directory and its base name. */
  datatype FilePath = FilePath(dir: Directory, name: string)

  datatype Font = Font(
    filePath: FilePath,
    hintStatus: HintStatus,
    key: string,
    family: string,
    script: string,
    variant: Option<string>,
    weight: string,
    style: Option<string>,
    platform: Option<Platform>,
    charset: Option<set<CodePoint>>)

  datatype CatalogError =
    | UnrecognisedFile(name: string)
    | BadScriptCode(code: string)
    | BadPlatformMarker(marker: string)

  // ---------------------------------------------------------------------------
  // Script codes.

  /** Script names of Noto file names that are not Unicode long names. */
  const OddScripts: map<string, string> := map[
    "CJK" := "Qaak",
    "JP" := "Jpan",
    "KR" := "Kore",
    "NKo" := "Nkoo",
    "Pahlavi" := "Phli",
    "Parthian" := "Prti",
    "SumeroAkkadianCuneiform" := "Xsux",
    "Symbols" := "Zsym"
  ]

  /**
   * The Unicode script long names and their codes, in the dictionary's
   * iteration order.
   */
  type LongNames = seq<(string, string)>

  predicate DistinctLongNames(names: LongNames)
  {
    forall i, j :: 0 <= i < |names| && 0 <= j < |names| && i != j ==> names[i].0 != names[j].0
  }

  /** A long name with underscores removed and lower-cased. */
  function LooseKey(lname: string): string
  {
    Lower(RemoveChar(lname, '_'))
  }

  /**
   * The loop over all long names: whenever the loose form of a long name
   * equals the current script lower-cased, the script becomes that name's
   * code, and later names are compared with the new value.
   */
  function LooseScan(names: LongNames, current: string): (r: string)
    ensures r == current || exists i :: 0 <= i < |names| && r == names[i].1
  {
    if names == [] then current
    else
      var r := LooseScan(names[1..], if LooseKey(names[0].0) == Lower(current) then names[0].1 else current);
      assert forall i :: 1 <= i < |names| ==> names[i] == names[1..][i - 1];
      r
  }

  /** The script a name resolves to before the length check. */
  function ResolvedScript(names: LongNames, script: string): string
  {
    if script in OddScripts then OddScripts[script]
    else match Lookup(names, script)
      case Some(code) => code
      case None => LooseScan(names, script)
  }

  /**
   * `convert_to_four_letter`: alias table, then exact long name, then the
   * loose scan; a result whose length is neither 0 nor 4 fails the assertion.
   */
  function ConvertToFourLetter(names: LongNames, script: string): (r: Result<string, CatalogError>)
    ensures r.Ok? ==> |r.value| == 0 || |r.value| == 4
    ensures script in OddScripts ==> r == Ok(OddScripts[script])
    ensures script !in OddScripts && Lookup(names, script).Some? && |Lookup(names, script).value| == 4 ==>
      r == Ok(Lookup(names, script).value)
    ensures script !in OddScripts && Lookup(names, script).Some? && r.Ok? ==> r.value == Lookup(names, script).value
    ensures script !in OddScripts && Lookup(names, script).None? && r.Ok? ==> r.value == LooseScan(names, script)
    ensures script !in OddScripts && Lookup(names, script).None? ==>
      (r.Ok? <==> |LooseScan(names, script)| == 0 || |LooseScan(names, script)| == 4)
    ensures r.Err? ==> r.error == BadScriptCode(ResolvedScript(names, script))
    ensures r.Err? <==> |ResolvedScript(names, script)| != 0 && |ResolvedScript(names, script)| != 4
  {
    var s := ResolvedScript(names, script);
    if |s| == 0 || |s| == 4 then Ok(s) else Err(BadScriptCode(s))
  }

  /** The loop of `convert_to_four_letter` as the source writes it, with the same checks around it. */
  method ConvertToFourLetterLoop(names: LongNames, script: string) returns (r: Result<string, CatalogError>)
    ensures r == ConvertToFourLetter(names, script)
  {
    var s := script;
    if script in OddScripts {
      s := OddScripts[script];
    } else if Lookup(names, script).Some? {
      s := Lookup(names, script).value;
    } else {
      for i := 0 to |names|
        invariant LooseScan(names[i..], s) == LooseScan(names, script)
      {
        assert names[i..][0] == names[i] && names[i..][1..] == names[i + 1..];
        if LooseKey(names[i].0) == Lower(s) {
          s := names[i].1;
        }
      }
    }
    if |s| == 0 || |s| == 4 {
      r := Ok(s);
    } else {
      r := Err(BadScriptCode(s));
    }
  }

  /** No match for the lower-cased script: the scan leaves it unchanged. */
  lemma {:induction false} LooseScanNoMatch(names: LongNames, script: string)
    requires forall i :: 0 <= i < |names| ==> LooseKey(names[i].0) != Lower(script)
    ensures LooseScan(names, script) == script
  {
    if names != [] {
      assert forall i :: 0 <= i < |names[1..]| ==> names[1..][i] == names[i + 1];
      LooseScanNoMatch(names[1..], script);
    }
  }

  /** No long name loosely equals a code without having that code. */
  predicate CodesAreStable(names: LongNames)
  {
    forall i, j :: 0 <= i < |names| && 0 <= j < |names| && LooseKey(names[i].0) == Lower(names[j].1) ==> names[i].1 == names[j].1
  }

  /** With a stable table, once the script has become a code, the scan keeps it. */
  lemma {:induction false} LooseScanKeepsCode(names: LongNames, all: LongNames, k: nat)
    requires CodesAreStable(all) && k < |all|
    requires forall i :: 0 <= i < |names| ==> names[i] in all
    ensures LooseScan(names, all[k].1) == all[k].1
  {
    if names != [] {
      assert names[0] in all;
      var j :| 0 <= j < |all| && all[j] == names[0];
      assert forall i :: 0 <= i < |names[1..]| ==> names[1..][i] == names[i + 1];
      LooseScanKeepsCode(names[1..], all, k);
    }
  }

  /**
   * With a stable table the loose scan yields the code of the FIRST long name
   * that matches, because the loop compares later names with the reassigned
   * script rather than with the original one.
   */
  lemma LooseScanFirstMatch(names: LongNames, script: string, k: nat)
    requires CodesAreStable(names) && k < |names|
    requires LooseKey(names[k].0) == Lower(script)
    requires forall i :: 0 <= i < k ==> LooseKey(names[i].0) != Lower(script)
    ensures LooseScan(names, script) == names[k].1
  {
    LooseScanSplit(names, script, k);
    var rest := names[k + 1..];
    forall i | 0 <= i < |rest|
      ensures rest[i] in names
    {
      assert rest[i] == names[k + 1 + i];
    }
    LooseScanKeepsCode(rest, names, k);
  }

  /** The scan up to the first match leaves the script alone, then takes that match's code. */
  lemma {:induction false} LooseScanSplit(names: LongNames, script: string, k: nat)
    requires k < |names|
    requires LooseKey(names[k].0) == Lower(script)
    requires forall i :: 0 <= i < k ==> LooseKey(names[i].0) != Lower(script)
    ensures LooseScan(names, script) == LooseScan(names[k + 1..], names[k].1)
  {
    if k > 0 {
      assert forall i :: 0 <= i < k - 1 ==> names[1..][i] == names[i + 1];
      LooseScanSplit(names[1..], script, k - 1);
      assert names[1..][k..] == names[k + 1..];
    }
  }

  // ---------------------------------------------------------------------------
  // Family keys.

  /**
   * `family` with spaces as `-`, then `-script` when the script is non-empty,
   * then `-variant` when the variant is neither absent nor "UI", lower-cased.
   */
  function FamilyKey(family: string, script: string, variant: Option<string>): (r: string)
    ensures |r| == |family| + (if script != "" then |script| + 1 else 0) +
                   (if variant.Some? && variant.value != "UI" then |variant.value| + 1 else 0)
    ensures forall i :: 0 <= i < |r| ==> !('A' <= r[i] <= 'Z')
    ensures ' ' !in family + script + (if variant.Some? then variant.value else "") ==> ' ' !in r
    ensures Lower(ReplaceChar(family, ' ', '-')) == r[..|family|]
    ensures r[|family|..] == (if script != "" then "-" + Lower(script) else "") +
                             (if variant.Some? && variant.value != "UI" then "-" + Lower(variant.value) else "")
  {
    var head := ReplaceChar(family, ' ', '-');
    var a := if script != "" then "-" + script else "";
    var b := if variant.Some? && variant.value != "UI" then "-" + variant.value else "";
    var k := head + a + b;
    var r := Lower(k);
    KeyTail(head, a, b, script, variant);
    assert forall i :: 0 <= i < |family| ==> k[i] == ReplaceChar(family, ' ', '-')[i];
    assert ' ' !in family + script + (if variant.Some? then variant.value else "") ==> ' ' !in k by {
      if ' ' !in family + script + (if variant.Some? then variant.value else "") {
        assert forall i :: 0 <= i < |family| ==> family[i] == (family + script + (if variant.Some? then variant.value else ""))[i];
        assert forall i :: 0 <= i < |script| ==> script[i] == (family + script + (if variant.Some? then variant.value else ""))[|family| + i];
        if variant.Some? {
          assert forall i :: 0 <= i < |variant.value| ==> variant.value[i] == (family + script + variant.value)[|family| + |script| + i];
        }
      }
    }
    r
  }

  /** Past the family part, the lower-cased key is the lower-cased script and variant parts. */
  lemma KeyTail(head: string, a: string, b: string, script: string, variant: Option<string>)
    requires a == (if script != "" then "-" + script else "")
    requires b == (if variant.Some? && variant.value != "UI" then "-" + variant.value else "")
    ensures Lower(head + a + b)[|head|..] == (if script != "" then "-" + Lower(script) else "") +
                                            (if variant.Some? && variant.value != "UI" then "-" + Lower(variant.value) else "")
  {
    LowerParts(head, a, b);
    if script != "" {
      LowerDash(script);
    }
    if variant.Some? && variant.value != "UI" {
      LowerDash(variant.value);
    }
  }

  lemma LowerParts(head: string, a: string, b: string)
    ensures Lower(head + a + b)[|head|..] == Lower(a) + Lower(b)
  {
    LowerConcat(head + a, b);
    LowerConcat(head, a);
    assert Lower(head) + Lower(a) + Lower(b) == Lower(head) + (Lower(a) + Lower(b));
  }

  lemma LowerDash(x: string)
    ensures Lower("-" + x) == "-" + Lower(x)
  {
    LowerConcat("-", x);
    assert Lower("-") == "-";
  }

  /** The "UI" variant shares its key with the plain family. */
  lemma UiVariantSharesKey(family: string, script: string)
    ensures FamilyKey(family, script, Some("UI")) == FamilyKey(family, script, None)
  {
  }

  lemma NotoSansLatinKey()
    ensures FamilyKey("Noto Sans", "Latn", None) == "noto-sans-latn"
  {
    assert ReplaceChar("Noto Sans", ' ', '-') == "Noto-Sans";
    assert Lower("Noto-Sans-Latn") == "noto-sans-latn";
  }

  lemma NotoNaskhUiKey()
    ensures FamilyKey("Noto Naskh", "Arab", Some("UI")) == "noto-naskh-arab"
  {
    assert ReplaceChar("Noto Naskh", ' ', '-') == "Noto-Naskh";
    assert Lower("Noto-Naskh-Arab") == "noto-naskh-arab";
  }

  // ---------------------------------------------------------------------------
  // Indexing one file.

  /** The family alternatives of the file-name expression. */
  datatype FamilyName = NotoSans | NotoSerif | NotoNaskh | NotoKufi | Arimo | Cousine | Tinos

  /** The family as the catalog records it: "Noto" followed by a space for the Noto families. */
  function FamilyDisplay(f: FamilyName): string
  {
    match f
    case NotoSans => "Noto Sans"
    case NotoSerif => "Noto Serif"
    case NotoNaskh => "Noto Naskh"
    case NotoKufi => "Noto Kufi"
    case Arimo => "Arimo"
    case Cousine => "Cousine"
    case Tinos => "Tinos"
  }

  /** The groups of a matching file name: family, script, variant, weight, style, platform marker. */
  datatype NameGroups = NameGroups(
    family: FamilyName,
    script: string,
    variant: Option<string>,
    weight: string,
    style: Option<string>,
    platform: Option<string>)

  /** A listed file: its name, the expression's groups when it matches, and the coverage of the font. */
  datatype FileEntry = FileEntry(name: string, groups: Option<NameGroups>, coverage: set<CodePoint>)

  /** Files that may sit in a font directory without matching the expression. */
  predicate IgnorableFile(name: string)
  {
    EndsWith(name, ".ttx") || StartsWith(name, "README.") || name == "COPYING" || name == "LICENSE"
  }

  /** What indexing one file contributes: scripts to add, and possibly a font. */
  datatype Contribution = Contribution(scripts: set<string>, font: Option<Font>)

  const LgcScripts: set<string> := {"Latn", "Grek", "Cyrl"}

  function HintOf(dir: Directory): HintStatus
  {
    match dir
    case HintedDir => Hinted
    case UnhintedDir => Unhinted
    case CjkDir => Hinted
  }

  /** The shape every catalogued font has. */
  predicate WellFormedFont(f: Font)
  {
    f.family in {"Noto Sans", "Noto Serif", "Noto Naskh", "Noto Kufi"} &&
    (|f.script| == 0 || |f.script| == 4) && f.script != "Qaak" &&
    f.weight != "" &&
    (f.platform.None? || f.platform == Some(Windows)) &&
    f.hintStatus == HintOf(f.filePath.dir) &&
    f.key == FamilyKey(f.family, f.script, f.variant) &&
    (f.charset.Some? <==> EndsWith(f.filePath.name, ".ttf") || EndsWith(f.filePath.name, ".otf"))
  }

  /** The script code of a file name's script group: empty for the LGC fonts, else the converted name. */
  function ScriptCode(names: LongNames, script: string): Result<string, CatalogError>
  {
    if script == "" then Ok("") else ConvertToFourLetter(names, script)
  }

  /** One iteration of the listing loop of `find_fonts`. */
  function IndexFile(names: LongNames, dir: Directory, entry: FileEntry): (r: Result<Contribution, CatalogError>)
    ensures entry.groups.None? ==>
      (r.Err? <==> !IgnorableFile(entry.name)) && (r.Ok? ==> r.value == Contribution({}, None))
    ensures r.Ok? && r.value.font.Some? ==>
      WellFormedFont(r.value.font.value) && r.value.font.value.filePath == FilePath(dir, entry.name)
    ensures r.Ok? && r.value.font.Some? && r.value.font.value.script != "" ==> r.value.font.value.script in r.value.scripts
    ensures r.Ok? && entry.groups.Some? && entry.groups.value.script == "" && entry.groups.value.family !in {Arimo, Cousine, Tinos} ==>
      r.value.scripts == LgcScripts
    ensures r.Ok? && entry.groups.Some? && entry.groups.value.family in {Arimo, Cousine, Tinos} ==>
      r.value == Contribution({}, None)
    ensures entry.groups.Some? && entry.groups.value.family !in {Arimo, Cousine, Tinos} ==>
      var g := entry.groups.value;
      (r.Err? <==> (g.platform.Some? && g.platform.value != "-Windows") || ScriptCode(names, g.script).Err?) &&
      (g.platform.Some? && g.platform.value != "-Windows" ==> r == Err(BadPlatformMarker(g.platform.value))) &&
      (ScriptCode(names, g.script).Err? && (g.platform.None? || g.platform.value == "-Windows") ==>
        r == Err(ScriptCode(names, g.script).error))
    ensures r.Ok? && entry.groups.Some? && entry.groups.value.family !in {Arimo, Cousine, Tinos} ==>
      var g := entry.groups.value;
      ScriptCode(names, g.script).Ok? &&
      var code := ScriptCode(names, g.script).value;
      r.value.scripts == (if g.script == "" then LgcScripts else {code}) &&
      (r.value.font.Some? <==> code != "Qaak") &&
      (r.value.font.Some? ==>
        r.value.font.value.family == FamilyDisplay(g.family) && r.value.font.value.script == code &&
        r.value.font.value.variant == g.variant && r.value.font.value.style == g.style &&
        r.value.font.value.weight == (if g.weight == "" then "Regular" else g.weight) &&
        r.value.font.value.platform == (if g.platform.Some? then Some(Windows) else None) &&
        (r.value.font.value.charset.Some? ==> r.value.font.value.charset.value == entry.coverage))
  {
    match entry.groups
    case None =>
      if IgnorableFile(entry.name) then Ok(Contribution({}, None)) else Err(UnrecognisedFile(entry.name))
    case Some(g) =>
      if g.family in {Arimo, Cousine, Tinos} then Ok(Contribution({}, None))
      else
        var family := FamilyDisplay(g.family);
        var weight := if g.weight == "" then "Regular" else g.weight;
        if g.platform.Some? && g.platform.value != "-Windows" then Err(BadPlatformMarker(g.platform.value))
        else
          var platform := if g.platform.Some? then Some(Windows) else None;
          match ScriptCode(names, g.script)
          case Err(e) => Err(e)
          case Ok(code) =>
            var scripts := if g.script == "" then LgcScripts else {code};
            if code == "Qaak" then Ok(Contribution(scripts, None))
            else Ok(Contribution(scripts, Some(NewFont(dir, entry, g, family, code, weight, platform))))
  }

  /** The font record of a matched file; only TrueType and OpenType files get a character set. */
  function NewFont(dir: Directory, entry: FileEntry, g: NameGroups, family: string, code: string,
                   weight: string, platform: Option<Platform>): (f: Font)
    requires family in {"Noto Sans", "Noto Serif", "Noto Naskh", "Noto Kufi"}
    requires (|code| == 0 || |code| == 4) && code != "Qaak" && weight != ""
    requires platform.None? || platform == Some(Windows)
    ensures WellFormedFont(f)
    ensures f.filePath == FilePath(dir, entry.name) && f.family == family && f.script == code
    ensures f.variant == g.variant && f.weight == weight && f.style == g.style && f.platform == platform
  {
    var charset := if EndsWith(entry.name, ".ttf") || EndsWith(entry.name, ".otf") then Some(entry.coverage) else None;
    Font(FilePath(dir, entry.name), HintOf(dir), FamilyKey(family, code, g.variant), family, code,
         g.variant, weight, g.style, platform, charset)
  }

  /** The catalog accumulated so far. */
  datatype Catalog = Catalog(fonts: seq<Font>, scripts: set<string>)

  /** Every font is well formed and its non-empty script is supported. */
  predicate CatalogInvariant(c: Catalog)
  {
    forall i :: 0 <= i < |c.fonts| ==>
      WellFormedFont(c.fonts[i]) && (c.fonts[i].script != "" ==> c.fonts[i].script in c.scripts)
  }

  function Add(c: Catalog, k: Contribution): Catalog
  {
    Catalog(c.fonts + (if k.font.Some? then [k.font.value] else []), c.scripts + k.scripts)
  }

  /** The listing loop over (directory, file) pairs in listing order; the first error aborts it. */
  function IndexFiles(names: LongNames, files: seq<(Directory, FileEntry)>, c: Catalog): (r: Result<Catalog, CatalogError>)
    ensures r.Ok? ==> |c.fonts| <= |r.value.fonts| && r.value.fonts[..|c.fonts|] == c.fonts && c.scripts <= r.value.scripts
  {
    if files == [] then Ok(c)
    else match IndexFile(names, files[0].0, files[0].1)
      case Err(e) => Err(e)
      case Ok(k) =>
        var r := IndexFiles(names, files[1..], Add(c, k));
        assert r.Ok? ==> r.value.fonts[..|c.fonts|] == Add(c, k).fonts[..|c.fonts|];
        r
  }

  /** Indexing keeps the catalog invariant. */
  lemma {:induction false} IndexFilesKeepsInvariant(names: LongNames, files: seq<(Directory, FileEntry)>, c: Catalog)
    requires CatalogInvariant(c)
    ensures IndexFiles(names, files, c).Ok? ==> CatalogInvariant(IndexFiles(names, files, c).value)
  {
    if files != [] {
      var k := IndexFile(names, files[0].0, files[0].1);
      if k.Ok? {
        var c' := Add(c, k.value);
        assert CatalogInvariant(c') by {
          forall i | 0 <= i < |c'.fonts|
            ensures WellFormedFont(c'.fonts[i]) && (c'.fonts[i].script != "" ==> c'.fonts[i].script in c'.scripts)
          {
            if i < |c.fonts| {
              assert c'.fonts[i] == c.fonts[i];
            } else {
              assert c'.fonts[i] == k.value.font.value;
            }
          }
        }
        IndexFilesKeepsInvariant(names, files[1..], c');
      }
    }
  }

  /** Each directory paired with each of its files, in listing order. */
  function Listing(hinted: seq<FileEntry>, unhinted: seq<FileEntry>, cjk: seq<FileEntry>): (r: seq<(Directory, FileEntry)>)
    ensures |r| == |hinted| + |unhinted| + |cjk|
    ensures forall i :: 0 <= i < |hinted| ==> r[i] == (HintedDir, hinted[i])
    ensures forall i :: 0 <= i < |unhinted| ==> r[|hinted| + i] == (UnhintedDir, unhinted[i])
    ensures forall i :: 0 <= i < |cjk| ==> r[|hinted| + |unhinted| + i] == (CjkDir, cjk[i])
  {
    seq(|hinted|, i requires 0 <= i < |hinted| => (HintedDir, hinted[i])) +
    seq(|unhinted|, i requires 0 <= i < |unhinted| => (UnhintedDir, unhinted[i])) +
    seq(|cjk|, i requires 0 <= i < |cjk| => (CjkDir, cjk[i]))
  }

  /** The global list of fonts and set of supported scripts that `find_fonts` fills in. */
  class FontIndex {
    var allFonts: seq<Font>
    var supportedScripts: set<string>

    constructor ()
      ensures allFonts == [] && supportedScripts == {}
    {
      allFonts := [];
      supportedScripts := {};
    }

    /** Indexes one directory's files, appending fonts and adding scripts as it goes. */
    method IndexDirectory(names: LongNames, dir: Directory, entries: seq<FileEntry>) returns (r: Result<(), CatalogError>)
      modifies this
      ensures var pairs := seq(|entries|, i requires 0 <= i < |entries| => (dir, entries[i]));
        match IndexFiles(names, pairs, Catalog(old(allFonts), old(supportedScripts)))
        case Ok(c) => r.Ok? && allFonts == c.fonts && supportedScripts == c.scripts
        case Err(e) => r == Err(e)
    {
      ghost var pairs := seq(|entries|, i requires 0 <= i < |entries| => (dir, entries[i]));
      for i := 0 to |entries|
        invariant IndexFiles(names, pairs[i..], Catalog(allFonts, supportedScripts)) ==
                  IndexFiles(names, pairs, Catalog(old(allFonts), old(supportedScripts)))
      {
        assert pairs[i..][0] == (dir, entries[i]) && pairs[i..][1..] == pairs[i + 1..];
        var k := IndexFile(names, dir, entries[i]);
        if k.Err? {
          return Err(k.error);
        }
        ghost var next := Add(Catalog(allFonts, supportedScripts), k.value);
        if k.value.font.Some? {
          allFonts := allFonts + [k.value.font.value];
        }
        supportedScripts := supportedScripts + k.value.scripts;
        assert Catalog(allFonts, supportedScripts) == next;
      }
      return Ok(());
    }

    /** `find_fonts`: the hinted, unhinted and CJK directories in that order. */
    method FindFonts(names: LongNames, hinted: seq<FileEntry>, unhinted: seq<FileEntry>, cjk: seq<FileEntry>)
      returns (r: Result<(), CatalogError>)
      modifies this
      ensures match IndexFiles(names, Listing(hinted, unhinted, cjk), Catalog(old(allFonts), old(supportedScripts)))
        case Ok(c) => r.Ok? && allFonts == c.fonts && supportedScripts == c.scripts
        case Err(e) => r == Err(e)
    {
      ghost var c0 := Catalog(allFonts, supportedScripts);
      ghost var h := seq(|hinted|, i requires 0 <= i < |hinted| => (HintedDir, hinted[i]));
      ghost var u := seq(|unhinted|, i requires 0 <= i < |unhinted| => (UnhintedDir, unhinted[i]));
      ghost var k := seq(|cjk|, i requires 0 <= i < |cjk| => (CjkDir, cjk[i]));
      assert Listing(hinted, unhinted, cjk) == h + (u + k);
      IndexFilesConcat(names, h, u + k, c0);
      IndexFilesConcat(names, u, k, Catalog(allFonts, supportedScripts));
      r := IndexDirectory(names, HintedDir, hinted);
      if r.Err? {
        return;
      }
      ghost var c1 := Catalog(allFonts, supportedScripts);
      IndexFilesConcat(names, u, k, c1);
      r := IndexDirectory(names, UnhintedDir, unhinted);
      if r.Err? {
        return;
      }
      r := IndexDirectory(names, CjkDir, cjk);
    }
  }

  /** Indexing a concatenation indexes the first part, then the second from its result. */
  lemma {:induction false} IndexFilesConcat(names: LongNames, a: seq<(Directory, FileEntry)>, b: seq<(Directory, FileEntry)>, c: Catalog)
    ensures IndexFiles(names, a + b, c) ==
      match IndexFiles(names, a, c)
      case Ok(c') => IndexFiles(names, b, c')
      case Err(e) => Err(e)
  {
    if a == [] {
      assert a + b == b;
    } else {
      assert (a + b)[0] == a[0];
      assert (a + b)[1..] == a[1..] + b;
      match IndexFile(names, a[0].0, a[0].1)
      case Err(e) =>
      case Ok(k) =>
        IndexFilesConcat(names, a[1..], b, Add(c, k));
    }
  }
}

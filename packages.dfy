/**
 * Zip packages: the suffix decision table, the check that file base names do
 * not repeat, and the write-once record of what each package contains.
 *
 * Writing and recompressing the archive is not modelled; a package file exists
 * exactly when its base name has been recorded, since the output directory is
 * created empty at the start of the run.
 */
module Packages {
  import opened Wrappers
  import opened Text
  import opened FontCatalog

  /** The hint status of a package: one status shared by all fonts, or "various". */
  datatype PackageHint = OnlyHinted | OnlyUnhinted | Various

  /** A set of hint statuses is one of the four subsets of the two statuses. */
  lemma HintStatusSets(statuses: set<HintStatus>)
    ensures statuses == {} || statuses == {Hinted} || statuses == {Unhinted} || statuses == {Hinted, Unhinted}
  {
    assert forall s :: s in statuses ==> s == Hinted || s == Unhinted;
    if Hinted in statuses && Unhinted in statuses {
      assert statuses == {Hinted, Unhinted};
    } else if Hinted in statuses {
      assert statuses == {Hinted};
    } else if Unhinted in statuses {
      assert statuses == {Unhinted};
    } else {
      assert statuses == {};
    }
  }

  function PackageHintOf(statuses: set<HintStatus>): (h: PackageHint)
    ensures h == OnlyHinted <==> statuses == {Hinted}
    ensures h == OnlyUnhinted <==> statuses == {Unhinted}
    ensures h == Various <==> statuses == {} || statuses == {Hinted, Unhinted}
  {
    HintStatusSets(statuses);
    if |statuses| == 1 then
      if Hinted in statuses then OnlyHinted else OnlyUnhinted
    else Various
  }

  datatype PackageError =
    | RepeatedBasename
    | SmallComprehensivePackage
    | ContentsDiffer(basename: string)
    | ContentsAlreadyPackaged(basename: string)

  /** The package suffixes: none, "-hinted", "-unhinted", "-windows". */
  datatype Suffix = NoSuffix | HintedSuffix | UnhintedSuffix | WindowsSuffix

  function SuffixText(s: Suffix): string
  {
    match s
    case NoSuffix => ""
    case HintedSuffix => "-hinted"
    case UnhintedSuffix => "-unhinted"
    case WindowsSuffix => "-windows"
  }

  /**
   * The suffix table.  The "other" platform: "" for various statuses (only the
   * comprehensive package of more than 50 fonts may mix them), else the status.
   * Windows: "-windows" for hinted or mixed packages with a Windows font,
   * "-hinted" for those without, "-unhinted" otherwise.  Linux: "-hinted" for
   * more than 50 fonts or a hinted or mixed package, "-unhinted" otherwise.
   */
  function ZipSuffix(target: Platform, hint: PackageHint, count: nat, anyWindows: bool): (r: Result<Suffix, PackageError>)
    ensures r.Err? <==> target == Other && hint == Various && count <= 50
    ensures r == Ok(NoSuffix) <==> target == Other && hint == Various && count > 50
    ensures r == Ok(WindowsSuffix) <==> target == Windows && hint != OnlyUnhinted && anyWindows
    ensures r == Ok(UnhintedSuffix) <==>
      hint == OnlyUnhinted && (target != Linux || count <= 50)
    ensures r == Ok(HintedSuffix) <==>
      (target == Other && hint == OnlyHinted) ||
      (target == Windows && hint != OnlyUnhinted && !anyWindows) ||
      (target == Linux && (count > 50 || hint != OnlyUnhinted))
  {
    if target == Other then
      if hint == Various then
        if count > 50 then Ok(NoSuffix) else Err(SmallComprehensivePackage)
      else if hint == OnlyUnhinted then Ok(UnhintedSuffix)
      else
        assert hint == OnlyHinted;
        Ok(HintedSuffix)
    else if target == Windows then
      if hint == Various || hint == OnlyHinted then
        if anyWindows then Ok(WindowsSuffix) else Ok(HintedSuffix)
      else
        assert hint == OnlyUnhinted;
        assert target != Linux;
        Ok(UnhintedSuffix)
    else
      assert target == Linux;
      if count > 50 || hint == Various || hint == OnlyHinted then Ok(HintedSuffix)
      else
        assert hint == OnlyUnhinted;
        Ok(UnhintedSuffix)
  }

  /** The size of a package matters only through whether it exceeds 50 fonts. */
  lemma SuffixSeesOnlyLargeness(target: Platform, hint: PackageHint, n: nat, m: nat, anyWindows: bool)
    requires (n > 50) == (m > 50)
    ensures ZipSuffix(target, hint, n, anyWindows) == ZipSuffix(target, hint, m, anyWindows)
  {
  }

  function HintStatuses(fonts: set<Font>): set<HintStatus>
  {
    set f | f in fonts :: f.hintStatus
  }

  predicate AnyWindowsFont(fonts: set<Font>)
  {
    exists f :: f in fonts && f.platform == Some(Windows)
  }

  function Basenames(fonts: set<Font>): set<string>
  {
    set f | f in fonts :: f.filePath.name
  }

  /** No two fonts share a file base name. */
  predicate DistinctBasenames(fonts: set<Font>)
  {
    |Basenames(fonts)| == |fonts|
  }

  /** The cardinality check says exactly that the base name identifies the font. */
  lemma {:induction false} DistinctBasenamesMeansInjective(fonts: set<Font>)
    ensures DistinctBasenames(fonts) <==>
      forall f, g :: f in fonts && g in fonts && f.filePath.name == g.filePath.name ==> f == g
    decreases |fonts|
  {
    if fonts != {} {
      var f :| f in fonts;
      var rest := fonts - {f};
      DistinctBasenamesMeansInjective(rest);
      BasenamesBound(rest);
      if exists g :: g in rest && g.filePath.name == f.filePath.name {
        var g :| g in rest && g.filePath.name == f.filePath.name;
        assert Basenames(fonts) == Basenames(rest);
        assert g != f;
      } else {
        assert Basenames(fonts) == Basenames(rest) + {f.filePath.name};
        assert f.filePath.name !in Basenames(rest);
      }
    }
  }

  lemma {:induction false} BasenamesBound(fonts: set<Font>)
    ensures |Basenames(fonts)| <= |fonts|
    decreases |fonts|
  {
    if fonts != {} {
      var f :| f in fonts;
      BasenamesBound(fonts - {f});
      assert Basenames(fonts) == Basenames(fonts - {f}) + {f.filePath.name};
    }
  }

  /** The recorded contents of the packages built so far, by base name. */
  type ContentsCache = map<string, set<Font>>

  /** No two packages were recorded with the same contents. */
  predicate Injective(cache: ContentsCache)
  {
    forall a, b :: a in cache && b in cache && a != b ==> cache[a] != cache[b]
  }

  /** The suffix of a set of fonts for a target platform. */
  function PackageSuffix(target: Platform, fonts: set<Font>): Result<Suffix, PackageError>
  {
    ZipSuffix(target, PackageHintOf(HintStatuses(fonts)), |fonts|, AnyWindowsFont(fonts))
  }

  datatype Package = Package(basename: string, cache: ContentsCache)

  /**
   * `create_zip` on the contents cache: repeated base names fail, the suffix
   * table may fail, an existing package must have the same contents, and a
   * new package must not repeat the contents of another.
   */
  function CreateZip(cache: ContentsCache, majorName: string, target: Platform, fonts: set<Font>): (r: Result<Package, PackageError>)
    ensures !DistinctBasenames(fonts) ==> r == Err(RepeatedBasename)
    ensures DistinctBasenames(fonts) && PackageSuffix(target, fonts).Err? ==> r == Err(PackageSuffix(target, fonts).error)
    ensures r.Ok? ==> (PackageSuffix(target, fonts).Ok? &&
      r.value.basename == majorName + SuffixText(PackageSuffix(target, fonts).value) + ".zip")
    ensures r.Ok? <==> (DistinctBasenames(fonts) && PackageSuffix(target, fonts).Ok? &&
      var basename := majorName + SuffixText(PackageSuffix(target, fonts).value) + ".zip";
      (basename in cache && cache[basename] == fonts) || (basename !in cache && fonts !in cache.Values))
    ensures r.Ok? ==> StartsWith(r.value.basename, majorName) && EndsWith(r.value.basename, ".zip")
    ensures r.Ok? ==> r.value.basename in r.value.cache && r.value.cache[r.value.basename] == fonts
    ensures r.Ok? ==> r.value.cache.Keys == cache.Keys + {r.value.basename}
    ensures r.Ok? ==> forall k :: k in cache ==> r.value.cache[k] == cache[k]
    ensures r.Ok? && r.value.basename !in cache ==> forall k :: k in cache ==> cache[k] != fonts
  {
    if !DistinctBasenames(fonts) then Err(RepeatedBasename)
    else match PackageSuffix(target, fonts)
      case Err(e) => Err(e)
      case Ok(suffix) =>
        var basename := majorName + SuffixText(suffix) + ".zip";
        assert basename[..|majorName|] == majorName;
        assert basename[|basename| - 4..] == ".zip";
        if basename in cache then
          if cache[basename] == fonts then Ok(Package(basename, cache)) else Err(ContentsDiffer(basename))
        else if fonts in cache.Values then Err(ContentsAlreadyPackaged(basename))
        else Ok(Package(basename, cache[basename := fonts]))
  }

  /** Building the same package again returns the same name, succeeds, and changes nothing. */
  lemma CreateZipIdempotent(cache: ContentsCache, majorName: string, target: Platform, fonts: set<Font>)
    requires CreateZip(cache, majorName, target, fonts).Ok?
    ensures var p := CreateZip(cache, majorName, target, fonts).value;
      CreateZip(p.cache, majorName, target, fonts) == Ok(p)
  {
  }

  /** No two recorded packages ever share their contents. */
  lemma CreateZipKeepsInjective(cache: ContentsCache, majorName: string, target: Platform, fonts: set<Font>)
    requires Injective(cache) && CreateZip(cache, majorName, target, fonts).Ok?
    ensures Injective(CreateZip(cache, majorName, target, fonts).value.cache)
  {
    var p := CreateZip(cache, majorName, target, fonts).value;
    forall a, b | a in p.cache && b in p.cache && a != b
      ensures p.cache[a] != p.cache[b]
    {
      if a == p.basename && p.basename !in cache {
        assert b in cache;
      } else if b == p.basename && p.basename !in cache {
        assert a in cache;
      }
    }
  }

  /** The record of built packages. */
  class PackageCache {
    var contents: ContentsCache

    ghost predicate Valid()
      reads this
    {
      Injective(contents)
    }

    constructor ()
      ensures Valid() && contents == map[]
    {
      contents := map[];
    }

    /** Builds (or finds) the package of `fonts` and records it. */
    method BuildPackage(majorName: string, target: Platform, fonts: set<Font>) returns (r: Result<string, PackageError>)
      requires Valid()
      modifies this
      ensures Valid()
      ensures match CreateZip(old(contents), majorName, target, fonts)
        case Ok(p) => r == Ok(p.basename) && contents == p.cache
        case Err(e) => r == Err(e) && contents == old(contents)
    {
      var p := CreateZip(contents, majorName, target, fonts);
      match p {
        case Err(e) =>
          return Err(e);
        case Ok(pkg) =>
          CreateZipKeepsInjective(contents, majorName, target, fonts);
          contents := pkg.cache;
          return Ok(pkg.basename);
      }
    }
  }
}

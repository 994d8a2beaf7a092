/**
 * CLDR locale fallback: the parent of a locale, the chain of parents that ends
 * at "root", and the two "first success wins" walks along it (exemplar
 * characters and native language names), with their per-file memo caches.
 *
 * The parsed CLDR documents are an abstract map from a relative file path to
 * what the walk reads out of that document; a path that is not in the map is
 * a file that fails to open.
 */
module LocaleFallback {
  import opened Wrappers
  import opened Text
  import opened Exemplar

  /** Explicit parent-locale overrides, with `_` already turned into `-`. */
  type ParentTable = map<string, string>

  const Root: string := "root"

  /**
   * The parent of a locale: the explicit override, otherwise the locale with
   * its last `-` segment removed, otherwise "root".  The source's guard meant
   * to stop at "root" compares the imported module instead of the locale, so
   * it never fires and "root" itself maps to "root".
   */
  function FindParentLocale(parents: ParentTable, locl: string): (r: string)
    ensures locl in parents ==> r == parents[locl]
    ensures locl !in parents && '-' in locl ==>
      |r| < |locl| && locl[..|r|] == r && locl[|r|] == '-' && '-' !in locl[|r| + 1..]
    ensures locl !in parents && '-' !in locl ==> r == Root
  {
    if locl in parents then parents[locl]
    else match LastIndexOf(locl, '-')
      case Some(i) => locl[..i]
      case None => Root
  }

  /** The walk from `locl` meets "root" after at most `n` parent steps. */
  predicate ReachesRootWithin(parents: ParentTable, locl: string, n: nat)
    decreases n
  {
    locl == Root || (n > 0 && ReachesRootWithin(parents, FindParentLocale(parents, locl), n - 1))
  }

  /** The locales the walk visits before it reaches "root", in order. */
  function Chain(parents: ParentTable, locl: string, n: nat): (c: seq<string>)
    requires ReachesRootWithin(parents, locl, n)
    ensures |c| <= n
    ensures c == [] <==> locl == Root
    ensures c != [] ==> c[0] == locl && FindParentLocale(parents, c[|c| - 1]) == Root
    ensures forall i :: 0 <= i < |c| - 1 ==> c[i + 1] == FindParentLocale(parents, c[i])
    ensures forall i :: 0 <= i < |c| ==> c[i] != Root
    decreases n
  {
    if locl == Root then []
    else [locl] + Chain(parents, FindParentLocale(parents, locl), n - 1)
  }

  /** More fuel changes neither termination nor the chain. */
  lemma {:induction false} ChainFuel(parents: ParentTable, locl: string, n: nat, m: nat)
    requires ReachesRootWithin(parents, locl, n) && n <= m
    ensures ReachesRootWithin(parents, locl, m)
    ensures Chain(parents, locl, n) == Chain(parents, locl, m)
    decreases n
  {
    if locl != Root {
      ChainFuel(parents, FindParentLocale(parents, locl), n - 1, m - 1);
    }
  }

  /** Without an override, one step removes exactly one `-`. */
  lemma ParentDropsOneDash(parents: ParentTable, locl: string)
    requires locl !in parents && '-' in locl
    ensures Count(FindParentLocale(parents, locl), '-') + 1 == Count(locl, '-')
  {
    var r := FindParentLocale(parents, locl);
    CountBeforeLast(locl, |r|, '-');
  }

  /** With no overrides the walk reaches "root" within (number of `-`) + 1 steps. */
  lemma {:induction false} NoOverridesReachRoot(locl: string)
    ensures ReachesRootWithin(map[], locl, Count(locl, '-') + 1)
    decreases |locl|
  {
    var parent := FindParentLocale(map[], locl);
    if locl == Root {
    } else if '-' in locl {
      ParentDropsOneDash(map[], locl);
      NoOverridesReachRoot(parent);
    } else {
      assert parent == Root;
    }
  }

  /** The walk strips one segment at a time. */
  lemma PunjabiArabicPakistanChain()
    ensures ReachesRootWithin(map[], "pa-Arab-PK", 3)
    ensures Chain(map[], "pa-Arab-PK", 3) == ["pa-Arab-PK", "pa-Arab", "pa"]
  {
    PunjabiArabicPakistanParent();
    PunjabiArabicParent();
    PunjabiParent();
  }

  lemma PunjabiArabicPakistanParent()
    ensures FindParentLocale(map[], "pa-Arab-PK") == "pa-Arab"
  {
    assert LastIndexOf("pa-Arab-PK", '-') == Some(7);
  }

  lemma PunjabiArabicParent()
    ensures FindParentLocale(map[], "pa-Arab") == "pa"
  {
    assert LastIndexOf("pa-Arab", '-') == Some(2);
  }

  lemma PunjabiParent()
    ensures FindParentLocale(map[], "pa") == Root
  {
    assert '-' !in "pa";
  }

  // ---------------------------------------------------------------------------
  // "First success wins" over a sequence of keys, and along the chain.

  /**
   * Tries the keys in order: a failing lookup stops the search, a truthy value
   * is the answer, a missing or falsy value moves on.
   */
  function FirstHit<K, V, E>(look: K -> Result<Option<V>, E>, hit: V -> bool, ks: seq<K>): (r: Result<Option<V>, E>)
    ensures r.Ok? && r.value.Some? ==> hit(r.value.value)
  {
    if ks == [] then Ok(None)
    else match look(ks[0])
      case Err(e) => Err(e)
      case Ok(Some(v)) => if hit(v) then Ok(Some(v)) else FirstHit(look, hit, ks[1..])
      case Ok(None) => FirstHit(look, hit, ks[1..])
  }

  /** A key the search passes over. */
  predicate Miss<K, V, E>(look: K -> Result<Option<V>, E>, hit: V -> bool, k: K)
  {
    look(k).Ok? && (look(k).value.None? || !hit(look(k).value.value))
  }

  /** The search answers with the lookup of the first key that is not a miss, or with nothing. */
  lemma FirstHitIsFirst<K, V, E>(look: K -> Result<Option<V>, E>, hit: V -> bool, ks: seq<K>)
    ensures (forall i :: 0 <= i < |ks| ==> Miss(look, hit, ks[i])) ==> FirstHit(look, hit, ks) == Ok(None)
    ensures !(forall i :: 0 <= i < |ks| ==> Miss(look, hit, ks[i])) ==>
      exists i :: 0 <= i < |ks| && !Miss(look, hit, ks[i]) &&
        (forall j :: 0 <= j < i ==> Miss(look, hit, ks[j])) &&
        FirstHit(look, hit, ks) == look(ks[i])
  {
    if forall i :: 0 <= i < |ks| ==> Miss(look, hit, ks[i]) {
      AllMissesGiveNothing(look, hit, ks);
    } else {
      var i := 0;
      while Miss(look, hit, ks[i])
        invariant 0 <= i < |ks|
        invariant forall j :: 0 <= j < i ==> Miss(look, hit, ks[j])
        invariant exists k :: i <= k < |ks| && !Miss(look, hit, ks[k])
        decreases |ks| - i
      {
        i := i + 1;
      }
      FirstNonMissAnswers(look, hit, ks, i);
    }
  }

  /** The suffix from `i` starts with `s[i]`, followed by the suffix from `i + 1`. */
  lemma SliceStep<T>(s: seq<T>, i: nat)
    requires i < |s|
    ensures s[i..][0] == s[i] && s[i..][1..] == s[i + 1..]
  {
  }

  /** The tail of a sequence, position by position. */
  lemma TailAt<K>(ks: seq<K>)
    requires ks != []
    ensures forall i :: 0 <= i < |ks[1..]| ==> ks[1..][i] == ks[i + 1]
  {
  }

  lemma {:induction false} AllMissesGiveNothing<K, V, E>(look: K -> Result<Option<V>, E>, hit: V -> bool, ks: seq<K>)
    requires forall i :: 0 <= i < |ks| ==> Miss(look, hit, ks[i])
    ensures FirstHit(look, hit, ks) == Ok(None)
  {
    if ks != [] {
      assert Miss(look, hit, ks[0]);
      TailAt(ks);
      AllMissesGiveNothing(look, hit, ks[1..]);
    }
  }

  lemma {:induction false} FirstNonMissAnswers<K, V, E>(look: K -> Result<Option<V>, E>, hit: V -> bool, ks: seq<K>, i: nat)
    requires i < |ks| && !Miss(look, hit, ks[i]) && forall j :: 0 <= j < i ==> Miss(look, hit, ks[j])
    ensures FirstHit(look, hit, ks) == look(ks[i])
  {
    if i > 0 {
      assert Miss(look, hit, ks[0]);
      TailAt(ks);
      FirstNonMissAnswers(look, hit, ks[1..], i - 1);
    }
  }

  /** The search from key `i` on: a miss moves to key `i + 1`, anything else is the answer. */
  lemma FirstHitFrom<K, V, E>(look: K -> Result<Option<V>, E>, hit: V -> bool, ks: seq<K>, i: nat)
    requires i < |ks|
    ensures Miss(look, hit, ks[i]) ==> FirstHit(look, hit, ks[i..]) == FirstHit(look, hit, ks[i + 1..])
    ensures !Miss(look, hit, ks[i]) ==> FirstHit(look, hit, ks[i..]) == look(ks[i])
  {
    SliceStep(ks, i);
  }

  lemma {:induction false} FirstHitConcat<K, V, E>(look: K -> Result<Option<V>, E>, hit: V -> bool, a: seq<K>, b: seq<K>)
    ensures FirstHit(look, hit, a + b) ==
      if FirstHit(look, hit, a).Ok? && FirstHit(look, hit, a).value.None? then FirstHit(look, hit, b)
      else FirstHit(look, hit, a)
  {
    if a == [] {
      assert a + b == b;
    } else {
      assert (a + b)[0] == a[0];
      assert (a + b)[1..] == a[1..] + b;
      FirstHitConcat(look, hit, a[1..], b);
    }
  }

  /** The keys tried at each locale of a chain, in order. */
  function ChainKeys<K>(keysOf: string -> seq<K>, c: seq<string>): seq<K>
  {
    if c == [] then [] else keysOf(c[0]) + ChainKeys(keysOf, c[1..])
  }

  /** The walk: every key of a locale is tried before moving to its parent. */
  function Walk<K, V, E>(parents: ParentTable, look: K -> Result<Option<V>, E>, hit: V -> bool,
                         keysOf: string -> seq<K>, locl: string, n: nat): (r: Result<Option<V>, E>)
    requires ReachesRootWithin(parents, locl, n)
    ensures r.Ok? && r.value.Some? ==> hit(r.value.value)
    decreases n
  {
    if locl == Root then Ok(None)
    else
      var r := FirstHit(look, hit, keysOf(locl));
      if r.Ok? && r.value.None? then Walk(parents, look, hit, keysOf, FindParentLocale(parents, locl), n - 1)
      else r
  }

  /** One locale of the walk: its keys answer, or the walk goes on at the parent. */
  lemma WalkStep<K, V, E>(parents: ParentTable, look: K -> Result<Option<V>, E>, hit: V -> bool,
                          keysOf: string -> seq<K>, locl: string, n: nat)
    requires ReachesRootWithin(parents, locl, n) && locl != Root
    ensures n > 0 && ReachesRootWithin(parents, FindParentLocale(parents, locl), n - 1)
    ensures FirstHit(look, hit, keysOf(locl)) == Ok(None) ==>
      Walk(parents, look, hit, keysOf, locl, n) == Walk(parents, look, hit, keysOf, FindParentLocale(parents, locl), n - 1)
    ensures FirstHit(look, hit, keysOf(locl)) != Ok(None) ==>
      Walk(parents, look, hit, keysOf, locl, n) == FirstHit(look, hit, keysOf(locl))
  {
  }

  /** The walk is the first-success search over the keys of the whole chain. */
  lemma {:induction false} WalkIsFirstHit<K, V, E>(parents: ParentTable, look: K -> Result<Option<V>, E>, hit: V -> bool,
                                                   keysOf: string -> seq<K>, locl: string, n: nat)
    requires ReachesRootWithin(parents, locl, n)
    ensures Walk(parents, look, hit, keysOf, locl, n) == FirstHit(look, hit, ChainKeys(keysOf, Chain(parents, locl, n)))
    decreases n
  {
    if locl != Root {
      var c := Chain(parents, locl, n);
      var parent := FindParentLocale(parents, locl);
      assert c[0] == locl && c[1..] == Chain(parents, parent, n - 1);
      assert ChainKeys(keysOf, c) == keysOf(locl) + ChainKeys(keysOf, c[1..]);
      FirstHitConcat(look, hit, keysOf(locl), ChainKeys(keysOf, c[1..]));
      WalkIsFirstHit(parents, look, hit, keysOf, parent, n - 1);
    }
  }

  // ---------------------------------------------------------------------------
  // The CLDR documents the walks read.

  /** The three CLDR partitions, in the order the exemplar walk tries them. */
  datatype Partition = Common | Seed | Exemplars

  function PartitionName(d: Partition): string
  {
    match d
    case Common => "common"
    case Seed => "seed"
    case Exemplars => "exemplars"
  }

  /** The relative path of a locale's document in a partition, with `-` written as `_`. */
  function CldrPath(d: Partition, locl: string): (r: string)
    ensures StartsWith(r, PartitionName(d) + "/main/") && EndsWith(r, ".xml")
    ensures |r| == |PartitionName(d)| + 6 + |locl| + 4
    ensures r[|PartitionName(d)| + 6..|r| - 4] == ReplaceChar(locl, '-', '_')
  {
    var r := PartitionName(d) + "/main/" + ReplaceChar(locl, '-', '_') + ".xml";
    assert r[|r| - 4..] == ".xml";
    assert r[..|PartitionName(d) + "/main/"|] == PartitionName(d) + "/main/";
    r
  }

  /** One child of a document's `languages` element. */
  datatype LanguageTag = LanguageTag(tag: string, typ: string, text: string)

  /**
   * What the walks read out of one parsed document: the text of the first
   * `exemplarCharacters` element without a `type` attribute, and the children
   * of the `languages` element.
   */
  datatype CldrFile = CldrFile(exemplar: Option<seq<CodePoint>>, languages: Option<seq<LanguageTag>>)

  /** The parsed documents by relative path; a path not in the map fails to open. */
  type CldrTree = map<string, CldrFile>

  /**
   * The exemplar list of one document: nothing when the file does not open or
   * has no untyped exemplar element; a malformed exemplar is an error.
   */
  function ExemplarFromFile(files: CldrTree, path: string): (r: Result<Option<seq<ExemplarUnit>>, ParseError>)
    ensures path !in files || files[path].exemplar.None? ==> r == Ok(None)
    ensures path in files && files[path].exemplar.Some? ==>
      match ParseExemplar(files[path].exemplar.value)
      case Ok(u) => r == Ok(Some(u))
      case Err(e) => r == Err(e)
  {
    if path !in files then Ok(None)
    else match files[path].exemplar
      case None => Ok(None)
      case Some(text) =>
        match ParseExemplar(text)
        case Ok(u) => Ok(Some(u))
        case Err(e) => Err(e)
  }

  function ExemplarLook(files: CldrTree): string -> Result<Option<seq<ExemplarUnit>>, ParseError>
  {
    path => ExemplarFromFile(files, path)
  }

  /** Python truthiness of a list. */
  predicate NonEmptyList(u: seq<ExemplarUnit>)
  {
    u != []
  }

  const ExemplarPartitions: seq<Partition> := [Common, Seed, Exemplars]

  function ExemplarPaths(locl: string): seq<string>
  {
    seq(|ExemplarPartitions|, i requires 0 <= i < |ExemplarPartitions| => CldrPath(ExemplarPartitions[i], locl))
  }

  /** The exemplar list found for `language-script`, or nothing when the walk reaches "root". */
  function ExemplarWalk(parents: ParentTable, files: CldrTree, language: string, script: string, n: nat): (r: Result<Option<seq<ExemplarUnit>>, ParseError>)
    requires ReachesRootWithin(parents, language + "-" + script, n)
    ensures r.Ok? && r.value.Some? ==> r.value.value != []
  {
    Walk(parents, ExemplarLook(files), NonEmptyList, ExemplarPaths, language + "-" + script, n)
  }

  /**
   * The exemplar walk answers with the first (locale, partition) document, in
   * chain order and then common, seed, exemplars order, whose lookup fails or
   * yields a non-empty list.
   */
  lemma ExemplarWalkIsFirstHit(parents: ParentTable, files: CldrTree, language: string, script: string, n: nat)
    requires ReachesRootWithin(parents, language + "-" + script, n)
    ensures var ks := ChainKeys(ExemplarPaths, Chain(parents, language + "-" + script, n));
      ExemplarWalk(parents, files, language, script, n) == FirstHit(ExemplarLook(files), NonEmptyList, ks)
  {
    WalkIsFirstHit(parents, ExemplarLook(files), NonEmptyList, ExemplarPaths, language + "-" + script, n);
  }

  /** Errors of the native-name lookup: a child of `languages` that is not a `language` element. */
  datatype NameError = UnexpectedTag(tag: string)

  /** The children before `i` are all `language` elements for another language. */
  predicate NoMatchBefore(tags: seq<LanguageTag>, language: string, i: nat)
    requires i <= |tags|
  {
    forall j :: 0 <= j < i ==> tags[j].tag == "language" && ReplaceChar(tags[j].typ, '_', '-') != language
  }

  /**
   * Scans the children of `languages` for the first one whose type, with `_`
   * as `-`, is `language`; a child met before it that is not a `language`
   * element fails the assertion.
   */
  function ScanLanguages(tags: seq<LanguageTag>, language: string): (r: Result<Option<string>, NameError>)
    ensures r.Ok? && r.value.Some? ==>
      exists i :: 0 <= i < |tags| && NoMatchBefore(tags, language, i) && tags[i].tag == "language" &&
        ReplaceChar(tags[i].typ, '_', '-') == language && tags[i].text == r.value.value
    ensures r == Ok(None) <==> NoMatchBefore(tags, language, |tags|)
    ensures r.Err? <==> exists i :: 0 <= i < |tags| && NoMatchBefore(tags, language, i) && tags[i].tag != "language"
    ensures r.Err? ==> exists i :: 0 <= i < |tags| && r.error == UnexpectedTag(tags[i].tag)
  {
    if tags == [] then Ok(None)
    else if tags[0].tag != "language" then Err(UnexpectedTag(tags[0].tag))
    else if ReplaceChar(tags[0].typ, '_', '-') == language then Ok(Some(tags[0].text))
    else
      var r := ScanLanguages(tags[1..], language);
      assert forall i :: 1 <= i < |tags| ==> tags[i] == tags[1..][i - 1];
      r
  }

  /** The name of `language` in one document, or nothing when the file does not open or lacks it. */
  function LanguageNameFromFile(files: CldrTree, language: string, path: string): (r: Result<Option<string>, NameError>)
    ensures path !in files || files[path].languages.None? ==> r == Ok(None)
    ensures path in files && files[path].languages.Some? ==> r == ScanLanguages(files[path].languages.value, language)
  {
    if path !in files then Ok(None)
    else match files[path].languages
      case None => Ok(None)
      case Some(tags) => ScanLanguages(tags, language)
  }

  function NameLook(files: CldrTree): ((string, string)) -> Result<Option<string>, NameError>
  {
    (k: (string, string)) => LanguageNameFromFile(files, k.0, k.1)
  }

  /** Python truthiness of a string. */
  predicate NonEmptyName(s: string)
  {
    s != ""
  }

  const NamePartitions: seq<Partition> := [Common, Seed]

  /** At one locale: for each of common and seed, first the full tag, then the bare language. */
  function NameKeys(langScr: string, language: string, locl: string): (r: seq<(string, string)>)
    ensures |r| == 2 * |NamePartitions|
    ensures forall i :: 0 <= i < |NamePartitions| ==>
      r[2 * i] == (langScr, CldrPath(NamePartitions[i], locl)) &&
      r[2 * i + 1] == (language, CldrPath(NamePartitions[i], locl))
  {
    [(langScr, CldrPath(Common, locl)), (language, CldrPath(Common, locl)),
     (langScr, CldrPath(Seed, locl)), (language, CldrPath(Seed, locl))]
  }

  function NameKeysOf(langScr: string, language: string): string -> seq<(string, string)>
  {
    locl => NameKeys(langScr, language, locl)
  }

  /** Names the CLDR data lacks or gets wrong. */
  const HardCodedNativeNames: map<string, string> :=
    map["mn-Mong" := "\U{182E}\U{1823}\U{1828}\U{182D}\U{182D}\U{1823}\U{182F} \U{182C}\U{1821}\U{182F}\U{1821}"]

  /** The name of a language in its own locale: the hard-coded one, or the first found along the chain. */
  function NativeLanguageName(parents: ParentTable, files: CldrTree, langScr: string, n: nat): (r: Result<Option<string>, NameError>)
    requires langScr !in HardCodedNativeNames ==> ReachesRootWithin(parents, langScr, n)
    ensures langScr in HardCodedNativeNames ==> r == Ok(Some(HardCodedNativeNames[langScr]))
    ensures r.Ok? && r.value.Some? ==> r.value.value != ""
  {
    if langScr in HardCodedNativeNames then Ok(Some(HardCodedNativeNames[langScr]))
    else Walk(parents, NameLook(files), NonEmptyName, NameKeysOf(langScr, FirstField(langScr, '-')), langScr, n)
  }

  /**
   * Away from the hard-coded names, the answer is the first (locale, partition,
   * name) lookup, in chain order, then common before seed, then the full tag
   * before the bare language, that fails or yields a non-empty name.
   */
  lemma NativeNameIsFirstHit(parents: ParentTable, files: CldrTree, langScr: string, n: nat)
    requires langScr !in HardCodedNativeNames && ReachesRootWithin(parents, langScr, n)
    ensures var ks := ChainKeys(NameKeysOf(langScr, FirstField(langScr, '-')), Chain(parents, langScr, n));
      NativeLanguageName(parents, files, langScr, n) == FirstHit(NameLook(files), NonEmptyName, ks)
  {
    WalkIsFirstHit(parents, NameLook(files), NonEmptyName, NameKeysOf(langScr, FirstField(langScr, '-')), langScr, n);
  }

  // ---------------------------------------------------------------------------
  // The imperative lookups with their memo caches.

  /**
   * The CLDR data and the two memo caches.  A cached entry always equals what
   * the document gives, so a cache hit never changes an answer.
   */
  class CldrData {
    const parents: ParentTable
    const files: CldrTree
    var exemplarCache: map<string, Option<seq<ExemplarUnit>>>
    var nameCache: map<(string, string), Option<string>>

    ghost predicate Valid()
      reads this
    {
      (forall path :: path in exemplarCache ==> ExemplarFromFile(files, path) == Ok(exemplarCache[path])) &&
      (forall k :: k in nameCache ==> LanguageNameFromFile(files, k.0, k.1) == Ok(nameCache[k]))
    }

    constructor (parents: ParentTable, files: CldrTree)
      ensures Valid()
      ensures this.parents == parents && this.files == files
      ensures exemplarCache == map[] && nameCache == map[]
    {
      this.parents := parents;
      this.files := files;
      exemplarCache := map[];
      nameCache := map[];
    }

    /**
     * The exemplar list of one document, memoised: a file that does not open
     * and a parsed list are recorded; a document without an exemplar and a
     * malformed exemplar are not.
     */
    method GetExemplarFromFile(path: string) returns (r: Result<Option<seq<ExemplarUnit>>, ParseError>)
      requires Valid()
      modifies this
      ensures Valid()
      ensures r == ExemplarFromFile(files, path)
      ensures nameCache == old(nameCache)
      ensures forall p :: p in old(exemplarCache) ==> p in exemplarCache && exemplarCache[p] == old(exemplarCache)[p]
      ensures forall p :: p in exemplarCache ==> p in old(exemplarCache) || p == path
    {
      if path in exemplarCache {
        return Ok(exemplarCache[path]);
      }
      if path !in files {
        exemplarCache := exemplarCache[path := None];
        return Ok(None);
      }
      match files[path].exemplar {
        case None =>
          return Ok(None);
        case Some(text) =>
          var parsed := ExemplarStringToList(text);
          match parsed {
            case Err(e) =>
              return Err(e);
            case Ok(u) =>
              exemplarCache := exemplarCache[path := Some(u)];
              return Ok(Some(u));
          }
      }
    }

    /** The loop over the exemplar partitions of one locale: the first document that fails or has a list. */
    method GetExemplarAt(locl: string) returns (r: Result<Option<seq<ExemplarUnit>>, ParseError>)
      requires Valid()
      modifies this
      ensures Valid()
      ensures r == FirstHit(ExemplarLook(files), NonEmptyList, ExemplarPaths(locl))
    {
      ghost var look := ExemplarLook(files);
      ghost var keys := ExemplarPaths(locl);
      var i := 0;
      while i < |ExemplarPartitions|
        invariant 0 <= i <= |ExemplarPartitions|
        invariant Valid()
        invariant FirstHit(look, NonEmptyList, keys[i..]) == FirstHit(look, NonEmptyList, keys)
      {
        var path := CldrPath(ExemplarPartitions[i], locl);
        var exemplar := GetExemplarFromFile(path);
        assert keys[i] == path && look(path) == exemplar;
        FirstHitFrom(look, NonEmptyList, keys, i);
        if exemplar.Err? || (exemplar.value.Some? && exemplar.value.value != []) {
          return exemplar;
        }
        i := i + 1;
      }
      assert keys[i..] == [];
      return Ok(None);
    }

    /** The exemplar walk from `language-script`; `n` bounds its length. */
    method GetExemplar(language: string, script: string, ghost n: nat) returns (r: Result<Option<seq<ExemplarUnit>>, ParseError>)
      requires Valid() && ReachesRootWithin(parents, language + "-" + script, n)
      modifies this
      ensures Valid()
      ensures r == ExemplarWalk(parents, files, language, script, n)
    {
      var locl := language + "-" + script;
      ghost var fuel := n;
      while locl != Root
        invariant Valid() && ReachesRootWithin(parents, locl, fuel)
        invariant Walk(parents, ExemplarLook(files), NonEmptyList, ExemplarPaths, locl, fuel) ==
                  ExemplarWalk(parents, files, language, script, n)
        decreases fuel
      {
        var exemplar := GetExemplarAt(locl);
        WalkStep(parents, ExemplarLook(files), NonEmptyList, ExemplarPaths, locl, fuel);
        if exemplar != Ok(None) {
          return exemplar;
        }
        locl := FindParentLocale(parents, locl);
        fuel := fuel - 1;
      }
      return Ok(None);
    }

    /**
     * The name of `language` in one document, memoised by (language, path): a
     * file that does not open and a found name are recorded; a document
     * without `languages` and an absent name are not.
     */
    method GetLanguageNameFromFile(language: string, path: string) returns (r: Result<Option<string>, NameError>)
      requires Valid()
      modifies this
      ensures Valid()
      ensures r == LanguageNameFromFile(files, language, path)
      ensures exemplarCache == old(exemplarCache)
      ensures forall k :: k in old(nameCache) ==> k in nameCache && nameCache[k] == old(nameCache)[k]
      ensures forall k :: k in nameCache ==> k in old(nameCache) || k == (language, path)
    {
      var key := (language, path);
      if key in nameCache {
        return Ok(nameCache[key]);
      }
      if path !in files {
        nameCache := nameCache[key := None];
        return Ok(None);
      }
      match files[path].languages {
        case None =>
          return Ok(None);
        case Some(tags) =>
          var i := 0;
          while i < |tags|
            invariant 0 <= i <= |tags|
            invariant ScanLanguages(tags[i..], language) == ScanLanguages(tags, language)
            invariant nameCache == old(nameCache) && exemplarCache == old(exemplarCache)
          {
            SliceStep(tags, i);
            if tags[i].tag != "language" {
              return Err(UnexpectedTag(tags[i].tag));
            }
            if ReplaceChar(tags[i].typ, '_', '-') == language {
              nameCache := nameCache[key := Some(tags[i].text)];
              return Ok(Some(tags[i].text));
            }
            i := i + 1;
          }
          return Ok(None);
      }
    }

    /** The loop over the name keys of one locale: the first document that fails or names the language. */
    method GetNativeNameAt(langScr: string, language: string, locl: string) returns (r: Result<Option<string>, NameError>)
      requires Valid()
      modifies this
      ensures Valid()
      ensures r == FirstHit(NameLook(files), NonEmptyName, NameKeys(langScr, language, locl))
    {
      ghost var look := NameLook(files);
      var keys := NameKeys(langScr, language, locl);
      var i := 0;
      while i < |keys|
        invariant 0 <= i <= |keys|
        invariant Valid()
        invariant FirstHit(look, NonEmptyName, keys[i..]) == FirstHit(look, NonEmptyName, keys)
      {
        var name := GetLanguageNameFromFile(keys[i].0, keys[i].1);
        assert look(keys[i]) == name;
        FirstHitFrom(look, NonEmptyName, keys, i);
        if name.Err? || (name.value.Some? && name.value.value != "") {
          return name;
        }
        i := i + 1;
      }
      assert keys[i..] == [];
      return Ok(None);
    }

    /** The native name of `langScr`; `n` bounds the walk when the name is not hard-coded. */
    method GetNativeLanguageName(langScr: string, ghost n: nat) returns (r: Result<Option<string>, NameError>)
      requires Valid()
      requires langScr !in HardCodedNativeNames ==> ReachesRootWithin(parents, langScr, n)
      modifies this
      ensures Valid()
      ensures r == NativeLanguageName(parents, files, langScr, n)
    {
      if langScr in HardCodedNativeNames {
        return Ok(Some(HardCodedNativeNames[langScr]));
      }
      var language := FirstField(langScr, '-');
      ghost var keysOf := NameKeysOf(langScr, language);
      var locl := langScr;
      ghost var fuel := n;
      while locl != Root
        invariant Valid() && ReachesRootWithin(parents, locl, fuel)
        invariant Walk(parents, NameLook(files), NonEmptyName, keysOf, locl, fuel) ==
                  NativeLanguageName(parents, files, langScr, n)
        decreases fuel
      {
        var name := GetNativeNameAt(langScr, language, locl);
        assert keysOf(locl) == NameKeys(langScr, language, locl);
        WalkStep(parents, NameLook(files), NonEmptyName, keysOf, locl, fuel);
        if name != Ok(None) {
          return name;
        }
        locl := FindParentLocale(parents, locl);
        fuel := fuel - 1;
      }
      return Ok(None);
    }
  }
}

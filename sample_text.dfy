/**
 * The sample text of a language: a sample file for the language and script,
 * else the first exemplar characters that are shown, else a sample file
 * for the undetermined language in that script, else nothing.
 *
 * The sample files are an input, keyed by "language-script", holding the
 * text with surrounding white space removed. Whether a code point is a
 * letter, number, punctuation or symbol is the predicate `isShown`.
 */
module SampleText {
  import opened Wrappers
  import opened Text
  import opened Exemplar
  import opened LocaleFallback

  /** At most this many exemplar units make up a sample text. */
  const ExemplarCutoffSize: nat := 50

  datatype SampleError =
    | EmptyUnit                          // an empty cluster has no first character
    | ExemplarFormat(error: ParseError)  // a malformed exemplar string

  /** The units whose first code point is shown, in order; an empty unit has no first code point. */
  function Shown(units: seq<ExemplarUnit>, isShown: CodePoint -> bool): (r: Result<seq<ExemplarUnit>, SampleError>)
    ensures r.Err? <==> exists i :: 0 <= i < |units| && units[i] == []
    ensures r.Ok? ==> |r.value| <= |units|
    ensures r.Ok? ==> forall u :: u in r.value ==> u in units && u != [] && isShown(u[0])
    ensures r.Ok? ==> forall i :: 0 <= i < |units| && isShown(units[i][0]) ==> units[i] in r.value
  {
    if units == [] then Ok([])
    else if units[0] == [] then Err(EmptyUnit)
    else match Shown(units[1..], isShown)
      case Err(e) =>
        assert forall i :: 0 <= i < |units[1..]| ==> units[1..][i] == units[i + 1];
        Err(e)
      case Ok(rest) =>
        assert forall i :: 1 <= i < |units| ==> units[i] == units[1..][i - 1];
        Ok(if isShown(units[0][0]) then [units[0]] + rest else rest)
  }

  /** One unit of the filter: the first unit is kept or dropped, then the rest is filtered. */
  lemma ShownCons(units: seq<ExemplarUnit>, isShown: CodePoint -> bool)
    requires units != [] && units[0] != [] && Shown(units[1..], isShown).Ok?
    ensures isShown(units[0][0]) ==> Shown(units, isShown) == Ok([units[0]] + Shown(units[1..], isShown).value)
    ensures !isShown(units[0][0]) ==> Shown(units, isShown) == Shown(units[1..], isShown)
  {
  }

  /** Filtering keeps the order: the shown units of a concatenation are the concatenated shown units. */
  lemma {:induction false} ShownConcat(a: seq<ExemplarUnit>, b: seq<ExemplarUnit>, isShown: CodePoint -> bool)
    requires Shown(a, isShown).Ok? && Shown(b, isShown).Ok?
    ensures Shown(a + b, isShown) == Ok(Shown(a, isShown).value + Shown(b, isShown).value)
  {
    if a == [] {
      assert a + b == b;
      assert Shown(a, isShown).value == [];
      assert Shown(a, isShown).value + Shown(b, isShown).value == Shown(b, isShown).value;
    } else {
      assert a[0] != [] && Shown(a[1..], isShown).Ok?;
      ShownConcat(a[1..], b, isShown);
      ShownConcatCons(a, b, isShown);
    }
  }

  /** The step of `ShownConcat`: from the rest of `a` to all of it. */
  lemma ShownConcatCons(a: seq<ExemplarUnit>, b: seq<ExemplarUnit>, isShown: CodePoint -> bool)
    requires a != [] && a[0] != [] && Shown(a[1..], isShown).Ok? && Shown(b, isShown).Ok?
    requires Shown(a[1..] + b, isShown) == Ok(Shown(a[1..], isShown).value + Shown(b, isShown).value)
    ensures Shown(a + b, isShown) == Ok(Shown(a, isShown).value + Shown(b, isShown).value)
  {
    var ab := a + b;
    ConcatTail(a, b);
    var x := Shown(a[1..], isShown).value;
    var y := Shown(b, isShown).value;
    ShownCons(a, isShown);
    ShownCons(ab, isShown);
    if isShown(a[0][0]) {
      ConsAssoc(a[0], x, y);
    }
  }

  lemma ConcatTail<T>(a: seq<T>, b: seq<T>)
    requires a != []
    ensures (a + b)[0] == a[0] && (a + b)[1..] == a[1..] + b
  {
  }

  lemma ConsAssoc<T>(h: T, x: seq<T>, y: seq<T>)
    ensures [h] + (x + y) == ([h] + x) + y
  {
  }

  /** Python's `' '.join(units)`. */
  function Join(units: seq<ExemplarUnit>): (r: seq<CodePoint>)
    ensures units == [] ==> r == []
    ensures |units| == 1 ==> r == units[0]
  {
    if units == [] then []
    else if |units| == 1 then units[0]
    else units[0] + [Space] + Join(units[1..])
  }

  /** Python's `text.split(' ')`: the fields between single spaces. */
  function Split(text: seq<CodePoint>): (r: seq<ExemplarUnit>)
    ensures |r| >= 1
    ensures forall u :: u in r ==> Space !in u
    decreases |text|
  {
    var field := FirstField(text, Space);
    if |field| == |text| then [text]
    else [field] + Split(text[|field| + 1..])
  }

  /** Splitting a joined list of units without spaces gives the list back. */
  lemma {:induction false} SplitJoin(units: seq<ExemplarUnit>)
    requires units != [] && forall u :: u in units ==> Space !in u
    ensures Split(Join(units)) == units
    decreases |units|
  {
    if |units| == 1 {
      assert Space !in units[0];
    } else {
      var text := Join(units);
      assert Space !in units[0];
      assert text == units[0] + [Space] + Join(units[1..]);
      assert text[..|units[0]|] == units[0];
      assert FirstField(text, Space) == units[0] by {
        assert text[|units[0]|] == Space;
      }
      assert text[|units[0]| + 1..] == Join(units[1..]);
      assert forall u :: u in units[1..] ==> u in units;
      SplitJoin(units[1..]);
    }
  }

  /** `exemplar[:50]`: the first 50 units in order, or all of them when there are fewer. */
  function FirstUnits(shown: seq<ExemplarUnit>): (r: seq<ExemplarUnit>)
    ensures |r| == if |shown| <= ExemplarCutoffSize then |shown| else ExemplarCutoffSize
    ensures r == shown[..|r|]
  {
    if |shown| <= ExemplarCutoffSize then shown else shown[..ExemplarCutoffSize]
  }

  /**
   * `sample_text_from_exemplar`: the first 50 shown units, separated by
   * spaces.
   */
  function SampleTextFromExemplar(units: seq<ExemplarUnit>, isShown: CodePoint -> bool): (r: Result<seq<CodePoint>, SampleError>)
    ensures r.Err? <==> exists i :: 0 <= i < |units| && units[i] == []
    ensures r.Ok? ==> (Shown(units, isShown).Ok? &&
      r.value == Join(FirstUnits(Shown(units, isShown).value)))
  {
    match Shown(units, isShown)
    case Err(e) => Err(e)
    case Ok(shown) =>
      Ok(Join(FirstUnits(shown)))
  }

  /**
   * When no unit holds a space, the sample text splits back into the shown
   * units, at most 50 of them, in order: every one is a unit of the
   * exemplar whose first code point is shown.
   */
  lemma SampleTextUnits(units: seq<ExemplarUnit>, isShown: CodePoint -> bool)
    requires forall i :: 0 <= i < |units| ==> units[i] != [] && Space !in units[i]
    requires exists i :: 0 <= i < |units| && isShown(units[i][0])
    ensures SampleTextFromExemplar(units, isShown).Ok?
    ensures var parts := Split(SampleTextFromExemplar(units, isShown).value);
      1 <= |parts| <= ExemplarCutoffSize &&
      (forall u :: u in parts ==> u in units && isShown(u[0])) &&
      (|Shown(units, isShown).value| <= ExemplarCutoffSize ==> parts == Shown(units, isShown).value) &&
      parts == (var shown := Shown(units, isShown).value;
                if |shown| <= ExemplarCutoffSize then shown else shown[..ExemplarCutoffSize])
  {
    var shown := Shown(units, isShown).value;
    var i :| 0 <= i < |units| && isShown(units[i][0]);
    assert units[i] in shown;
    var kept := FirstUnits(shown);
    assert forall u :: u in kept ==> u in shown;
    SplitJoin(kept);
  }

  /** `charset_supports_text`: every code point of the text is in the charset; an unknown charset supports nothing. */
  function CharsetSupportsText(charset: Option<set<CodePoint>>, text: seq<CodePoint>): (r: bool)
    ensures r <==> charset.Some? && forall i :: 0 <= i < |text| ==> text[i] in charset.value
  {
    charset.Some? && (set c | c in text) <= charset.value
  }

  /** The stripped contents of the sample text files, keyed by "language-script". */
  type SampleFiles = map<string, seq<CodePoint>>

  /** `get_sample_from_sample_file`. */
  function SampleFromFile(samples: SampleFiles, language: string, script: string): Option<seq<CodePoint>>
  {
    var key := language + "-" + script;
    if key in samples then Some(samples[key]) else None
  }

  /** `get_sample_text`: the precedence of the four sources. */
  function SampleTextOf(samples: SampleFiles, parents: ParentTable, files: CldrTree, language: string, script: string,
                        n: nat, isShown: CodePoint -> bool): (r: Result<seq<CodePoint>, SampleError>)
    requires SampleFromFile(samples, language, script).None? ==> ReachesRootWithin(parents, language + "-" + script, n)
    ensures SampleFromFile(samples, language, script).Some? ==> r == Ok(SampleFromFile(samples, language, script).value)
    ensures SampleFromFile(samples, language, script).None? ==>
      match ExemplarWalk(parents, files, language, script, n)
      case Err(e) => r == Err(ExemplarFormat(e))
      case Ok(Some(units)) => r == SampleTextFromExemplar(units, isShown)
      case Ok(None) => r == Ok(if SampleFromFile(samples, "und", script).Some? then SampleFromFile(samples, "und", script).value else [])
  {
    match SampleFromFile(samples, language, script)
    case Some(text) => Ok(text)
    case None =>
      match ExemplarWalk(parents, files, language, script, n)
      case Err(e) => Err(ExemplarFormat(e))
      case Ok(Some(units)) => SampleTextFromExemplar(units, isShown)
      case Ok(None) =>
        match SampleFromFile(samples, "und", script)
        case Some(text) => Ok(text)
        case None => Ok([])
  }

  /**
   * A sample text that is not from a sample file comes from the exemplar of
   * the first locale on the chain, in common, seed, exemplars order, whose
   * document has a non-empty exemplar; the "und" sample file is consulted
   * only when there is none.
   */
  lemma SampleTextFromFirstExemplar(samples: SampleFiles, parents: ParentTable, files: CldrTree, language: string,
                                    script: string, n: nat, isShown: CodePoint -> bool)
    requires ReachesRootWithin(parents, language + "-" + script, n)
    requires SampleFromFile(samples, language, script).None?
    ensures var ks := ChainKeys(ExemplarPaths, Chain(parents, language + "-" + script, n));
      match FirstHit(ExemplarLook(files), NonEmptyList, ks)
      case Ok(Some(units)) =>
        units != [] && SampleTextOf(samples, parents, files, language, script, n, isShown) == SampleTextFromExemplar(units, isShown)
      case Ok(None) =>
        SampleTextOf(samples, parents, files, language, script, n, isShown).Ok?
      case Err(e) =>
        SampleTextOf(samples, parents, files, language, script, n, isShown) == Err(ExemplarFormat(e))
  {
    ExemplarWalkIsFirstHit(parents, files, language, script, n);
  }

  /** The lookup with its memoising CLDR documents. */
  method GetSampleText(cldr: CldrData, samples: SampleFiles, language: string, script: string, ghost n: nat,
                       isShown: CodePoint -> bool) returns (r: Result<seq<CodePoint>, SampleError>)
    requires cldr.Valid()
    requires SampleFromFile(samples, language, script).None? ==> ReachesRootWithin(cldr.parents, language + "-" + script, n)
    modifies cldr
    ensures cldr.Valid()
    ensures r == SampleTextOf(samples, cldr.parents, cldr.files, language, script, n, isShown)
  {
    var sample := SampleFromFile(samples, language, script);
    if sample.Some? {
      return Ok(sample.value);
    }
    var exemplar := cldr.GetExemplar(language, script, n);
    if exemplar.Err? {
      return Err(ExemplarFormat(exemplar.error));
    }
    if exemplar.value.Some? {
      return SampleTextFromExemplar(exemplar.value.value, isShown);
    }
    sample := SampleFromFile(samples, "und", script);
    if sample.Some? {
      return Ok(sample.value);
    }
    return Ok([]);
  }
}

/**
 * The script of a language: the likely script of a bare language, the
 * right-to-left flag from the script metadata, the rewrite of the kana-only
 * script to the Japanese one, and the script fonts are looked up by.
 *
 * The likely-subtags table and the script metadata table are inputs.
 */
module Scripts {
  import opened Wrappers
  import opened Text
  import opened FontCatalog

  /** A language's likely subtags, as split from the table entry (language, script, region). */
  type LikelySubtags = map<string, seq<string>>

  /** The fields after the script code on each line of the script metadata file. */
  type ScriptMetadata = map<string, seq<string>>

  datatype ScriptError =
    | UnknownLanguage(language: string)
    | MissingScriptSubtag(language: string)
    | UnknownScript(script: string)
    | MissingRtlField(script: string)
    | BadLanguageTag(langScr: string)
    | UnsupportedScript(script: string)

  /** `find_likely_script`: the second subtag of the language's entry. */
  function FindLikelyScript(likely: LikelySubtags, language: string): (r: Result<string, ScriptError>)
    ensures r == Err(UnknownLanguage(language)) <==> language !in likely
    ensures r.Ok? <==> language in likely && |likely[language]| >= 2
    ensures r.Ok? ==> r.value == likely[language][1]
  {
    if language !in likely then Err(UnknownLanguage(language))
    else if |likely[language]| < 2 then Err(MissingScriptSubtag(language))
    else Ok(likely[language][1])
  }

  /** `is_script_rtl`: the sixth metadata field is "YES"; an unknown script or a short line is an error. */
  function IsScriptRtl(meta: ScriptMetadata, script: string): (r: Result<bool, ScriptError>)
    ensures r == Err(UnknownScript(script)) <==> script !in meta
    ensures r.Ok? <==> script in meta && |meta[script]| >= 6
    ensures r == Ok(true) <==> script in meta && |meta[script]| >= 6 && meta[script][5] == "YES"
  {
    if script !in meta then Err(UnknownScript(script))
    else if |meta[script]| < 6 then Err(MissingRtlField(script))
    else Ok(meta[script][5] == "YES")
  }

  /**
   * The language and script of a "language" or "language-script" tag: a bare
   * language takes its likely script; a tag with two or more dashes does not
   * unpack into two parts.
   */
  function SplitLangScr(likely: LikelySubtags, langScr: string): (r: Result<(string, string), ScriptError>)
    ensures '-' !in langScr ==> (r.Ok? <==> FindLikelyScript(likely, langScr).Ok?)
    ensures '-' !in langScr && r.Ok? ==> r.value == (langScr, FindLikelyScript(likely, langScr).value)
    ensures '-' !in langScr && r.Err? ==> r.error == FindLikelyScript(likely, langScr).error
    ensures '-' in langScr ==> (r.Ok? <==> Count(langScr, '-') == 1)
    ensures '-' in langScr && r.Ok? ==>
      langScr == r.value.0 + "-" + r.value.1 && '-' !in r.value.0 && '-' !in r.value.1
  {
    var language := FirstField(langScr, '-');
    if |language| == |langScr| then
      match FindLikelyScript(likely, langScr)
      case Ok(script) => Ok((langScr, script))
      case Err(e) => Err(e)
    else
      var script := langScr[|language| + 1..];
      assert langScr == language + "-" + script by {
        assert langScr == langScr[..|language|] + [langScr[|language|]] + langScr[|language| + 1..];
      }
      CountConcat(language + "-", script, '-');
      CountConcat(language, "-", '-');
      CountAbsent(language, '-');
      CountAbsent(script, '-');
      if '-' in script then Err(BadLanguageTag(langScr)) else Ok((language, script))
  }

  /** The scripts no font supports yet; any other unsupported script fails the assertion. */
  const UnfontedScripts: set<string> := {"Bass", "Orya", "Plrd", "Thaa", "Tibt"}

  /** Latin, Greek and Cyrillic fonts are the LGC fonts, which carry the empty script. */
  const LgcScriptCodes: set<string> := {"Latn", "Grek", "Cyrl"}

  /** The script the fonts of a language are looked up by. */
  function QueryScript(script: string): (r: string)
    ensures r == "" <==> script in LgcScriptCodes || script == ""
    ensures r != "" ==> r == script
  {
    if script in LgcScriptCodes then "" else script
  }

  /** The keys of the families with a font of the query script. */
  function FamiliesFor(fonts: seq<Font>, query: string): set<string>
  {
    set f | f in fonts && f.script == query :: f.key
  }

  /**
   * The script part of a language object: the right-to-left flag of the
   * script as tagged, the script after the kana rewrite, and the query
   * script, or None when no font supports the script.
   */
  datatype LanguageScript = LanguageScript(language: string, script: string, rtl: bool, query: Option<string>)

  /** The kana-only script is looked up as the Japanese one. */
  function FontScript(script: string): (r: string)
    ensures r != "Kana"
    ensures script != "Kana" ==> r == script
  {
    if script == "Kana" then "Jpan" else script
  }

  function ResolveLanguage(likely: LikelySubtags, meta: ScriptMetadata, supported: set<string>,
                           langScr: string): (r: Result<LanguageScript, ScriptError>)
    ensures SplitLangScr(likely, langScr).Err? ==> r == Err(SplitLangScr(likely, langScr).error)
    ensures SplitLangScr(likely, langScr).Ok? ==>
      var split := SplitLangScr(likely, langScr).value;
      var script := FontScript(split.1);
      (IsScriptRtl(meta, split.1).Err? ==> r == Err(IsScriptRtl(meta, split.1).error)) &&
      (IsScriptRtl(meta, split.1).Ok? && script !in supported && script !in UnfontedScripts ==>
        r == Err(UnsupportedScript(script))) &&
      (r.Ok? <==> IsScriptRtl(meta, split.1).Ok? && (script in supported || script in UnfontedScripts)) &&
      (r.Ok? ==> r.value.language == split.0 && r.value.script == script && r.value.rtl == IsScriptRtl(meta, split.1).value)
    ensures r.Ok? ==> r.value.script != "Kana"
    ensures r.Ok? ==> (r.value.query.None? <==> r.value.script !in supported)
    ensures r.Ok? && r.value.query.None? ==> r.value.script in UnfontedScripts
    ensures r.Ok? && r.value.query.Some? ==> r.value.query.value == QueryScript(r.value.script)
  {
    match SplitLangScr(likely, langScr)
    case Err(e) => Err(e)
    case Ok(split) =>
      match IsScriptRtl(meta, split.1)
      case Err(e) => Err(e)
      case Ok(rtl) =>
        var script := FontScript(split.1);
        if script !in supported then
          if script in UnfontedScripts then Ok(LanguageScript(split.0, script, rtl, None))
          else Err(UnsupportedScript(script))
        else Ok(LanguageScript(split.0, script, rtl, Some(QueryScript(script))))
  }

  /**
   * A language tagged with the kana-only script is resolved to the Japanese
   * script, but keeps the right-to-left flag of the kana script.
   */
  lemma KanaResolvesToJapanese(likely: LikelySubtags, meta: ScriptMetadata, supported: set<string>, language: string)
    requires '-' !in language && "Kana" in meta && |meta["Kana"]| >= 6 && "Jpan" in supported
    ensures var r := ResolveLanguage(likely, meta, supported, language + "-Kana");
      r.Ok? && r.value.language == language && r.value.script == "Jpan" &&
      r.value.query == Some("Jpan") && r.value.rtl == (meta["Kana"][5] == "YES")
  {
    SplitKana(likely, language);
    assert IsScriptRtl(meta, "Kana") == Ok(meta["Kana"][5] == "YES");
    assert QueryScript("Jpan") == "Jpan";
  }

  lemma SplitKana(likely: LikelySubtags, language: string)
    requires '-' !in language
    ensures SplitLangScr(likely, language + "-Kana") == Ok((language, "Kana"))
  {
    assert language + "-Kana" == language + ['-'] + "Kana";
    FirstFieldOfJoin(language, '-', "Kana");
  }

  /** A bare language takes its likely script, and the Latin, Greek and Cyrillic ones query the LGC fonts. */
  lemma LgcLanguageQueriesLgcFonts(likely: LikelySubtags, meta: ScriptMetadata, supported: set<string>, language: string)
    requires '-' !in language && language in likely && |likely[language]| >= 2
    requires likely[language][1] in LgcScriptCodes && likely[language][1] in supported
    requires likely[language][1] in meta && |meta[likely[language][1]]| >= 6
    ensures var r := ResolveLanguage(likely, meta, supported, language);
      r.Ok? && r.value.language == language && r.value.script == likely[language][1] && r.value.query == Some("")
  {
  }

  /** The families of a supported language are exactly those with a font of its query script. */
  lemma FamiliesForQuery(fonts: seq<Font>, query: string, key: string)
    ensures key in FamiliesFor(fonts, query) <==> exists i :: 0 <= i < |fonts| && fonts[i].script == query && fonts[i].key == key
  {
    if key in FamiliesFor(fonts, query) {
      var f :| f in fonts && f.script == query && f.key == key;
      var i :| 0 <= i < |fonts| && fonts[i] == f;
    }
  }
}

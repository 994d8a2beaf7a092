/** The CSS helpers: weight names and numbers, font style, generic family. */
module Css {
  import opened Wrappers
  import opened Text

  datatype CssError = UnknownWeightName(name: string) | UnknownWeight(weight: int) | UnexpectedStyle(style: string)

  /** Weight names of the font files and their CSS weights. */
  const CssWeightTable: seq<(string, int)> := [
    ("Thin", 100), ("Light", 300), ("DemiLight", 350), ("Regular", 400),
    ("Medium", 500), ("Bold", 700), ("Black", 900)
  ]

  /** The table keyed by weight, as `CSS_WEIGHT_TO_STRING` inverts `CSS_WEIGHT_MAPPING`. */
  function Inverted(t: seq<(string, int)>): seq<(int, string)>
  {
    seq(|t|, i requires 0 <= i < |t| => (t[i].1, t[i].0))
  }

  /** No two entries share a name, and no two share a weight. */
  predicate Bijective(t: seq<(string, int)>)
  {
    forall i, j :: 0 <= i < |t| && 0 <= j < |t| && i != j ==> t[i].0 != t[j].0 && t[i].1 != t[j].1
  }

  /** In a table without repeated names or weights, an entry is found by its name and by its weight. */
  lemma FindEntry(t: seq<(string, int)>, k: nat)
    requires Bijective(t) && k < |t|
    ensures Lookup(t, t[k].0) == Some(t[k].1)
    ensures Lookup(Inverted(t), t[k].1) == Some(t[k].0)
  {
    var i :| 0 <= i < |t| && t[i] == (t[k].0, Lookup(t, t[k].0).value);
    assert i == k;
    var inv := Inverted(t);
    assert inv[k] == (t[k].1, t[k].0);
    var j :| 0 <= j < |inv| && inv[j] == (t[k].1, Lookup(inv, t[k].1).value);
    assert inv[j] == (t[j].1, t[j].0);
    assert j == k;
  }

  lemma WeightTableBijective()
    ensures Bijective(CssWeightTable)
  {
    var t := CssWeightTable;
    forall i, j | 0 <= i < |t| && 0 <= j < |t| && i != j
      ensures t[i].0 != t[j].0 && t[i].1 != t[j].1
    {
      // The names differ in length or in their first letter; the weights increase.
      assert |t[i].0| != |t[j].0| || t[i].0[0] != t[j].0[0];
    }
  }

  /** `css_weight`: the CSS weight of a weight name; any other name is a lookup error. */
  function CssWeight(name: string): (r: Result<int, CssError>)
    ensures r.Err? <==> forall i :: 0 <= i < |CssWeightTable| ==> CssWeightTable[i].0 != name
    ensures r.Ok? ==> (name, r.value) in CssWeightTable
  {
    match Lookup(CssWeightTable, name)
    case Some(w) => Ok(w)
    case None => Err(UnknownWeightName(name))
  }

  /** `css_weight_to_string`: the weight name of a CSS weight; any other number is a lookup error. */
  function CssWeightToString(weight: int): (r: Result<string, CssError>)
    ensures r.Err? <==> forall i :: 0 <= i < |CssWeightTable| ==> CssWeightTable[i].1 != weight
    ensures r.Ok? ==> (r.value, weight) in CssWeightTable
  {
    var inv := Inverted(CssWeightTable);
    assert forall i :: 0 <= i < |CssWeightTable| ==> inv[i] == (CssWeightTable[i].1, CssWeightTable[i].0);
    match Lookup(inv, weight)
    case Some(n) => Ok(n)
    case None => Err(UnknownWeight(weight))
  }

  /** The two lookups are inverse bijections between the seven names and the seven weights. */
  lemma WeightRoundTrips(name: string, weight: int)
    ensures CssWeight(name).Ok? ==> CssWeightToString(CssWeight(name).value) == Ok(name)
    ensures CssWeightToString(weight).Ok? ==> CssWeight(CssWeightToString(weight).value) == Ok(weight)
  {
    WeightTableBijective();
    if CssWeight(name).Ok? {
      var k :| 0 <= k < |CssWeightTable| && CssWeightTable[k] == (name, CssWeight(name).value);
      FindEntry(CssWeightTable, k);
    }
    if CssWeightToString(weight).Ok? {
      var k :| 0 <= k < |CssWeightTable| && CssWeightTable[k] == (CssWeightToString(weight).value, weight);
      FindEntry(CssWeightTable, k);
    }
  }

  /** `css_style`: upright is "normal", "Italic" is "italic", any other style fails the assertion. */
  function CssStyle(style: Option<string>): (r: Result<string, CssError>)
    ensures style.None? <==> r == Ok("normal")
    ensures style == Some("Italic") <==> r == Ok("italic")
    ensures r.Err? <==> style.Some? && style.value != "Italic"
  {
    match style
    case None => Ok("normal")
    case Some(s) => if s == "Italic" then Ok("italic") else Err(UnexpectedStyle(s))
  }

  /** `get_css_generic_family`: the CSS generic family of a display family name. */
  function CssGenericFamily(family: string): (r: Option<string>)
    ensures r == Some("serif") <==> family in {"Noto Naskh", "Noto Serif", "Tinos"}
    ensures r == Some("sans-serif") <==> family in {"Arimo", "Noto Kufi", "Noto Sans"}
    ensures r == Some("monospace") <==> family == "Cousine"
    ensures r.Some? ==> r.value in {"serif", "sans-serif", "monospace"}
  {
    if family in {"Noto Naskh", "Noto Serif", "Tinos"} then Some("serif")
    else if family in {"Arimo", "Noto Kufi", "Noto Sans"} then Some("sans-serif")
    else if family == "Cousine" then Some("monospace")
    else None
  }
}

/**
 * What the exemplar decoder promises: a text without escapes, clusters or
 * ranges yields its non-space characters in order; a `{...}` cluster yields one
 * unit; `\u` escapes decode to their hex value and need 4 to 6 digits; a range
 * appends the code points after its start up to its end and leaves the list
 * before it alone; and any list of units written out in the notation parses
 * back to itself.
 */
module ExemplarProperties {
  import opened Wrappers
  import opened Text
  import opened Exemplar

  /** A character that is read as itself outside escapes: not '{', '}', '-' or '\'. */
  predicate IsPlain(c: CodePoint)
  {
    c != LeftBrace && c != RightBrace && c != Hyphen && c != Backslash
  }

  /** Reference definition: every non-space character of `b`, as a unit of its own, in order. */
  function NonSpaceUnits(b: seq<CodePoint>): seq<ExemplarUnit>
  {
    if b == [] then [] else (if b[0] == Space then [] else [[b[0]]]) + NonSpaceUnits(b[1..])
  }

  lemma SpaceStep(s: seq<CodePoint>, p: nat, acc: seq<ExemplarUnit>)
    requires p < |s| && s[p] == Space
    ensures Step(s, p, acc) == Ok(State(p + 1, acc))
  {
  }

  lemma PlainCharStep(b: seq<CodePoint>, p: nat, acc: seq<ExemplarUnit>)
    requires p < |b| && IsPlain(b[p]) && b[p] != Space
    ensures Step(b, p, acc) == Ok(State(p + 1, acc + [[b[p]]]))
  {
    assert DecodeChar(b, p) == Ok(Decoded(p + 1, b[p]));
  }

  lemma {:induction false} ParsePlainFrom(b: seq<CodePoint>, p: nat, acc: seq<ExemplarUnit>)
    requires p <= |b|
    requires forall i :: p <= i < |b| ==> IsPlain(b[i])
    ensures ParseFrom(b, p, acc) == Ok(acc + NonSpaceUnits(b[p..]))
    decreases |b| - p
  {
    if p == |b| {
      assert b[p..] == [];
      assert acc + [] == acc;
    } else {
      assert b[p..] == [b[p]] + b[p + 1..];
      var head: seq<ExemplarUnit> := if b[p] == Space then [] else [[b[p]]];
      if b[p] == Space {
        SpaceStep(b, p, acc);
        assert acc + head == acc;
      } else {
        PlainCharStep(b, p, acc);
      }
      ParseFromStep(b, p, acc, State(p + 1, acc + head));
      ParsePlainFrom(b, p + 1, acc + head);
      assert NonSpaceUnits(b[p..]) == head + NonSpaceUnits(b[p + 1..]);
      assert acc + head + NonSpaceUnits(b[p + 1..]) == acc + (head + NonSpaceUnits(b[p + 1..]));
    }
  }

  /** A bracketed text without '{', '}', '-' or '\' parses to exactly its non-space characters, in order. */
  lemma PlainExemplar(b: seq<CodePoint>)
    requires forall i :: 0 <= i < |b| ==> IsPlain(b[i])
    ensures ParseExemplar([LeftBracket] + b + [RightBracket]) == Ok(NonSpaceUnits(b))
  {
    var s := [LeftBracket] + b + [RightBracket];
    assert s[1..|s| - 1] == b;
    assert s[|s| - 1] == RightBracket;
    assert Body(s) == Ok(b);
    ParsePlainFrom(b, 0, []);
    assert b[0..] == b;
    assert [] + NonSpaceUnits(b) == NonSpaceUnits(b);
  }

  /** The same with the closing bracket left off, as the source allows. */
  lemma PlainExemplarUnclosed(b: seq<CodePoint>)
    requires |b| > 0 && b[|b| - 1] != RightBracket
    requires forall i :: 0 <= i < |b| ==> IsPlain(b[i])
    ensures ParseExemplar([LeftBracket] + b) == Ok(NonSpaceUnits(b))
  {
    var s := [LeftBracket] + b;
    assert s[1..] == b;
    assert s[|s| - 1] == b[|b| - 1];
    assert Body(s) == Ok(b);
    ParsePlainFrom(b, 0, []);
    assert b[0..] == b;
    assert [] + NonSpaceUnits(b) == NonSpaceUnits(b);
  }

  /** A '{' whose cluster reads up to the brace at `close` adds that one unit and moves past the brace. */
  lemma ClusterStep(s: seq<CodePoint>, p: nat, acc: seq<ExemplarUnit>, u: ExemplarUnit, close: nat)
    requires p < close < |s| && s[p] == LeftBrace
    requires ReadCluster(s, p + 1, []) == Ok(Cluster(close, u))
    ensures Step(s, p, acc) == Ok(State(close + 1, acc + [u]))
  {
  }

  lemma {:induction false} ReadPlainCluster(s: seq<CodePoint>, q: nat, unit: ExemplarUnit, k: nat)
    requires q + k < |s| && s[q + k] == RightBrace
    requires forall i :: q <= i < q + k ==> IsPlain(s[i]) && s[i] != Space
    ensures ReadCluster(s, q, unit) == Ok(Cluster(q + k, unit + s[q..q + k]))
    decreases k
  {
    if k == 0 {
      assert s[q..q + k] == [];
      assert unit + [] == unit;
    } else {
      assert s[q] != RightBrace && s[q] != Backslash;
      assert DecodeChar(s, q) == Ok(Decoded(q + 1, s[q]));
      ReadPlainCluster(s, q + 1, unit + [s[q]], k - 1);
      assert s[q..q + k] == [s[q]] + s[q + 1..q + k];
      assert unit + [s[q]] + s[q + 1..q + k] == unit + s[q..q + k];
    }
  }

  /** A cluster `{c1...ck}` of plain characters adds the one unit `c1...ck` and moves past its '}'. */
  lemma PlainClusterStep(s: seq<CodePoint>, p: nat, acc: seq<ExemplarUnit>, k: nat)
    requires p + 1 + k < |s| && s[p] == LeftBrace && s[p + 1 + k] == RightBrace
    requires forall i :: p + 1 <= i < p + 1 + k ==> IsPlain(s[i]) && s[i] != Space
    ensures Step(s, p, acc) == Ok(State(p + k + 2, acc + [s[p + 1..p + 1 + k]]))
  {
    ReadPlainCluster(s, p + 1, [], k);
    assert [] + s[p + 1..p + 1 + k] == s[p + 1..p + 1 + k];
    ClusterStep(s, p, acc, s[p + 1..p + 1 + k], p + 1 + k);
  }

  /** Decoding a `\u` escape followed by exactly `k` hex digits. */
  lemma DecodeUnicodeEscape(s: seq<CodePoint>, p: nat, k: nat)
    requires p + 2 + k <= |s| && s[p] == Backslash && s[p + 1] == LowerU
    requires AllHex(s[p + 2..p + 2 + k])
    requires p + 2 + k == |s| || !IsHexDigit(s[p + 2 + k])
    ensures k < 4 || k > 6 ==> DecodeChar(s, p) == Err(BadHexDigitCount(k))
    ensures 4 <= k <= 6 && HexValue(s[p + 2..p + 2 + k]) <= MaxCodePoint ==>
      DecodeChar(s, p) == Ok(Decoded(p + 2 + k, HexValue(s[p + 2..p + 2 + k])))
    ensures 4 <= k <= 6 && HexValue(s[p + 2..p + 2 + k]) > MaxCodePoint ==>
      DecodeChar(s, p) == Err(CodePointTooLarge)
  {
    var e := HexRunEnd(s, p + 2);
    assert forall i :: p + 2 <= i < p + 2 + k ==> IsHexDigit(s[i]) by {
      forall i | p + 2 <= i < p + 2 + k ensures IsHexDigit(s[i]) {
        assert s[i] == s[p + 2..p + 2 + k][i - (p + 2)];
      }
    }
    assert e == p + 2 + k;
  }

  /** `\c` for any `c` other than `u` reads `c` and moves two places; any other character reads itself. */
  lemma DecodeOtherCases(s: seq<CodePoint>, p: nat)
    requires p < |s|
    ensures s[p] == Backslash && p + 1 < |s| && s[p + 1] != LowerU ==> DecodeChar(s, p) == Ok(Decoded(p + 2, s[p + 1]))
    ensures s[p] !in {Space, Hyphen, LeftBrace, RightBrace, Backslash} ==> DecodeChar(s, p) == Ok(Decoded(p + 1, s[p]))
    ensures s[p] in {Space, Hyphen, LeftBrace, RightBrace} ==> DecodeChar(s, p) == Err(ForbiddenCharacter)
  {
  }

  /** A step only ever appends to the list built so far. */
  lemma StepExtends(s: seq<CodePoint>, p: nat, acc: seq<ExemplarUnit>)
    requires p < |s|
    requires Step(s, p, acc).Ok?
    ensures acc <= Step(s, p, acc).value.units
  {
  }

  /** Parsing never changes the list it started from: the result extends it. */
  lemma {:induction false} ParseKeepsPrefix(s: seq<CodePoint>, p: nat, acc: seq<ExemplarUnit>)
    requires p <= |s|
    requires ParseFrom(s, p, acc).Ok?
    ensures acc <= ParseFrom(s, p, acc).value
    decreases |s| - p
  {
    if p < |s| {
      var st := Step(s, p, acc).value;
      StepExtends(s, p, acc);
      ParseKeepsPrefix(s, st.pos, st.units);
    }
  }

  /**
   * A range `-b` after a single-character unit `a` appends exactly the units
   * `a + 1`, ..., `b` in increasing order (none when `b <= a`), leaves the
   * list before it unchanged and moves past the decoded end.
   */
  lemma RangeStep(s: seq<CodePoint>, p: nat, acc: seq<ExemplarUnit>)
    requires p < |s| && s[p] == Hyphen
    requires |acc| > 0 && |acc[|acc| - 1]| == 1
    requires DecodeChar(s, p + 1).Ok? && DecodeChar(s, p + 1).value.ch !in RangeEndForbidden
    ensures var a, d := acc[|acc| - 1][0], DecodeChar(s, p + 1).value;
      && Step(s, p, acc).Ok?
      && Step(s, p, acc).value.pos == d.next
      && Step(s, p, acc).value.units[..|acc|] == acc
      && |Step(s, p, acc).value.units| == |acc| + (if a < d.ch then d.ch - a else 0)
      && forall i :: |acc| <= i < |Step(s, p, acc).value.units| ==>
           Step(s, p, acc).value.units[i] == [a + 1 + (i - |acc|)]
  {
  }

  /** The errors of a range: nothing before it, or a cluster before it. */
  lemma RangeErrors(s: seq<CodePoint>, p: nat, acc: seq<ExemplarUnit>)
    requires p < |s| && s[p] == Hyphen
    ensures |acc| == 0 ==> Step(s, p, acc) == Err(RangeWithoutStart)
    ensures |acc| > 0 && |acc[|acc| - 1]| != 1 ==> Step(s, p, acc) == Err(RangeAfterCluster)
  {
  }

  /** `[a-b]` with plain ends: the unit `a` followed by `a + 1`, ..., `b`. */
  lemma PlainRange(a: CodePoint, b: CodePoint)
    requires IsPlain(a) && a != Space && IsPlain(b) && b != Space
    ensures ParseExemplar([LeftBracket, a, Hyphen, b, RightBracket]) == Ok([[a]] + RangeUnits(a as int + 1, b as int + 1))
  {
    var s := [a, Hyphen, b];
    assert [LeftBracket, a, Hyphen, b, RightBracket][1..4] == s;
    assert DecodeChar(s, 0) == Ok(Decoded(1, a));
    assert [] + [[a]] == [[a]];
    assert Step(s, 0, []) == Ok(State(1, [[a]]));
    assert DecodeChar(s, 2) == Ok(Decoded(3, b));
    assert b !in RangeEndForbidden;
    var r := [[a]] + RangeUnits(a as int + 1, b as int + 1);
    assert Step(s, 1, [[a]]) == Ok(State(3, r));
    assert ParseFrom(s, 3, r) == Ok(r);
    assert ParseFrom(s, 1, [[a]]) == Ok(r);
    assert ParseFrom(s, 0, []) == Ok(r);
    assert Body([LeftBracket, a, Hyphen, b, RightBracket]) == Ok(s);
  }

  // ---- `\u` escapes of six hex digits ----

  function Pow16(w: nat): nat
  {
    if w == 0 then 1 else 16 * Pow16(w - 1)
  }

  function HexDigit(v: nat): (c: CodePoint)
    requires v < 16
    ensures IsHexDigit(c) && HexDigitValue(c) == v
  {
    if v < 10 then '0' as int + v else 'A' as int + v - 10
  }

  /** The `width` lowest hex digits of `n`, most significant first. */
  function HexDigits(n: nat, width: nat): (ds: seq<CodePoint>)
    ensures |ds| == width
  {
    if width == 0 then [] else HexDigits(n / 16, width - 1) + [HexDigit(n % 16)]
  }

  lemma {:induction false} HexDigitsAreHex(n: nat, w: nat)
    ensures AllHex(HexDigits(n, w))
  {
    if w > 0 {
      HexDigitsAreHex(n / 16, w - 1);
      var ds := HexDigits(n, w);
      assert forall i :: 0 <= i < |ds| - 1 ==> ds[i] == HexDigits(n / 16, w - 1)[i];
    }
  }

  /** Writing `n` out in `w` hex digits and reading them back gives `n`, when it fits. */
  lemma {:induction false} HexValueOfDigits(n: nat, w: nat)
    requires n < Pow16(w)
    ensures AllHex(HexDigits(n, w)) && HexValue(HexDigits(n, w)) == n
  {
    HexDigitsAreHex(n, w);
    if w > 0 {
      var ds := HexDigits(n, w);
      assert ds[..|ds| - 1] == HexDigits(n / 16, w - 1);
      HexValueOfDigits(n / 16, w - 1);
    }
  }

  /** `\u` followed by the six hex digits of `c`. */
  function HexEscape(c: CodePoint): (r: seq<CodePoint>)
    ensures |r| == 8
  {
    [Backslash, LowerU] + HexDigits(c, 6)
  }

  lemma SliceOfSlice(s: seq<CodePoint>, a: nat, b: nat, c: nat, d: nat)
    requires a <= b <= |s| && c <= d <= b - a
    ensures s[a..b][c..d] == s[a + c..a + d]
  {
    var x, y := s[a..b][c..d], s[a + c..a + d];
    assert |x| == |y|;
    forall i | 0 <= i < |x| ensures x[i] == y[i] {
      assert x[i] == s[a..b][c + i] == s[a + c + i];
    }
  }

  /** Every code point written as a six-digit `\u` escape, not followed by a hex digit, decodes to itself. */
  lemma DecodeHexEscape(s: seq<CodePoint>, p: nat, c: CodePoint)
    requires p + 8 <= |s| && s[p..p + 8] == HexEscape(c)
    requires p + 8 == |s| || !IsHexDigit(s[p + 8])
    ensures DecodeChar(s, p) == Ok(Decoded(p + 8, c))
  {
    SliceOfSlice(s, p, p + 8, 2, 8);
    assert s[p + 2..p + 8] == HexEscape(c)[2..] == HexDigits(c, 6);
    assert s[p] == HexEscape(c)[0] && s[p + 1] == HexEscape(c)[1];
    assert Pow16(6) == 0x100_0000;
    HexValueOfDigits(c, 6);
    DecodeUnicodeEscape(s, p, 6);
  }

  // ---- Round trip: writing units out in the notation and parsing them back ----

  /** A character written so that it reads back as itself: `u` plain, anything else as `\c`. */
  function Escape(c: CodePoint): (r: seq<CodePoint>)
    ensures |r| == 1 || |r| == 2
  {
    if c == LowerU then [c] else [Backslash, c]
  }

  function EscapeAll(u: ExemplarUnit): (r: seq<CodePoint>)
  {
    if u == [] then [] else Escape(u[0]) + EscapeAll(u[1..])
  }

  /** A one-character unit as an escape, any other unit as a `{...}` cluster of escapes. */
  function RenderUnit(u: ExemplarUnit): seq<CodePoint>
  {
    if |u| == 1 then Escape(u[0]) else [LeftBrace] + EscapeAll(u) + [RightBrace]
  }

  /** The units written out, separated by single spaces. */
  function Render(units: seq<ExemplarUnit>): seq<CodePoint>
  {
    if units == [] then []
    else if |units| == 1 then RenderUnit(units[0])
    else RenderUnit(units[0]) + [Space] + Render(units[1..])
  }

  function Notation(units: seq<ExemplarUnit>): seq<CodePoint>
  {
    [LeftBracket] + Render(units) + [RightBracket]
  }

  // Where the written-out forms stand in a text, stated one position at a time.

  predicate EscapedAt(s: seq<CodePoint>, q: nat, c: CodePoint)
  {
    if c == LowerU then q < |s| && s[q] == LowerU
    else q + 1 < |s| && s[q] == Backslash && s[q + 1] == c
  }

  predicate ClusterAt(s: seq<CodePoint>, q: nat, u: ExemplarUnit)
    decreases |u|
  {
    if u == [] then q < |s| && s[q] == RightBrace
    else EscapedAt(s, q, u[0]) && ClusterAt(s, q + |Escape(u[0])|, u[1..])
  }

  predicate UnitAt(s: seq<CodePoint>, p: nat, u: ExemplarUnit)
  {
    if |u| == 1 then EscapedAt(s, p, u[0])
    else p < |s| && s[p] == LeftBrace && ClusterAt(s, p + 1, u)
  }

  predicate RenderedAt(s: seq<CodePoint>, p: nat, units: seq<ExemplarUnit>)
    decreases |units|
  {
    if units == [] then p == |s|
    else if |units| == 1 then UnitAt(s, p, units[0]) && p + |RenderUnit(units[0])| == |s|
    else
      UnitAt(s, p, units[0]) && p + |RenderUnit(units[0])| < |s| && s[p + |RenderUnit(units[0])|] == Space &&
      RenderedAt(s, p + |RenderUnit(units[0])| + 1, units[1..])
  }

  /** `r` stands in `s` from position `p` on. */
  predicate MatchesAt(s: seq<CodePoint>, p: nat, r: seq<CodePoint>)
  {
    p + |r| <= |s| && forall i :: 0 <= i < |r| ==> s[p + i] == r[i]
  }

  lemma Assoc(a: seq<CodePoint>, b: seq<CodePoint>, c: seq<CodePoint>)
    ensures a + (b + c) == a + b + c
  {
  }

  /** Where `x + y` stands, `x` stands, and `y` right after it. */
  lemma MatchesSplit(s: seq<CodePoint>, p: nat, x: seq<CodePoint>, y: seq<CodePoint>, q: nat)
    requires MatchesAt(s, p, x + y) && q == p + |x|
    ensures MatchesAt(s, p, x) && MatchesAt(s, q, y)
  {
    forall i | 0 <= i < |x| ensures s[p + i] == x[i] {
      assert s[p + i] == (x + y)[i];
    }
    forall j | 0 <= j < |y| ensures s[p + |x| + j] == y[j] {
      assert s[p + (|x| + j)] == (x + y)[|x| + j];
    }
  }

  lemma EscapedFrom(s: seq<CodePoint>, p: nat, c: CodePoint)
    requires MatchesAt(s, p, Escape(c))
    ensures EscapedAt(s, p, c)
  {
    assert s[p + 0] == Escape(c)[0];
    if c != LowerU {
      assert s[p + 1] == Escape(c)[1];
    }
  }

  lemma {:induction false} ClusterFrom(s: seq<CodePoint>, p: nat, u: ExemplarUnit)
    requires MatchesAt(s, p, EscapeAll(u) + [RightBrace])
    ensures ClusterAt(s, p, u)
    decreases |u|
  {
    if u == [] {
      assert s[p + 0] == (EscapeAll(u) + [RightBrace])[0];
    } else {
      var e, rest := Escape(u[0]), EscapeAll(u[1..]);
      Assoc(e, rest, [RightBrace]);
      MatchesSplit(s, p, e, rest + [RightBrace], p + |e|);
      EscapedFrom(s, p, u[0]);
      ClusterFrom(s, p + |e|, u[1..]);
    }
  }

  lemma UnitFrom(s: seq<CodePoint>, p: nat, u: ExemplarUnit)
    requires MatchesAt(s, p, RenderUnit(u))
    ensures UnitAt(s, p, u)
  {
    if |u| == 1 {
      EscapedFrom(s, p, u[0]);
    } else {
      Assoc([LeftBrace], EscapeAll(u), [RightBrace]);
      MatchesSplit(s, p, [LeftBrace], EscapeAll(u) + [RightBrace], p + 1);
      assert s[p + 0] == [LeftBrace][0];
      ClusterFrom(s, p + 1, u);
    }
  }

  /** Where a rendered list of at least two units splits: first unit, a space, the rest. */
  lemma RenderSplit(units: seq<ExemplarUnit>)
    requires |units| >= 2
    ensures Render(units) == RenderUnit(units[0]) + ([Space] + Render(units[1..]))
    ensures |Render(units)| == |RenderUnit(units[0])| + 1 + |Render(units[1..])|
  {
  }

  /** A rendering standing from `p` to the end of `s` is written out there unit by unit. */
  lemma {:induction false} RenderedFrom(s: seq<CodePoint>, p: nat, units: seq<ExemplarUnit>)
    requires MatchesAt(s, p, Render(units)) && p + |Render(units)| == |s|
    ensures RenderedAt(s, p, units)
    decreases |units|
  {
    if |units| == 1 {
      UnitFrom(s, p, units[0]);
    } else if |units| >= 2 {
      var n := |RenderUnit(units[0])|;
      MatchesRenderCons(s, p, units, n);
      UnitFrom(s, p, units[0]);
      RenderedFrom(s, p + n + 1, units[1..]);
      RenderedAtCons(s, p, units, n);
    }
  }

  /** A rendering of two or more units stands as its first unit, a space, and the rendering of the rest. */
  lemma MatchesRenderCons(s: seq<CodePoint>, p: nat, units: seq<ExemplarUnit>, n: nat)
    requires |units| >= 2 && n == |RenderUnit(units[0])|
    requires MatchesAt(s, p, Render(units)) && p + |Render(units)| == |s|
    ensures MatchesAt(s, p, RenderUnit(units[0])) && p + n < |s| && s[p + n] == Space
    ensures MatchesAt(s, p + n + 1, Render(units[1..])) && p + n + 1 + |Render(units[1..])| == |s|
  {
    RenderSplit(units);
    MatchesAround(s, p, RenderUnit(units[0]), Render(units[1..]), n);
  }

  lemma MatchesAround(s: seq<CodePoint>, p: nat, w: seq<CodePoint>, r: seq<CodePoint>, n: nat)
    requires n == |w| && MatchesAt(s, p, w + ([Space] + r)) && p + |w + ([Space] + r)| == |s|
    ensures MatchesAt(s, p, w) && p + n < |s| && s[p + n] == Space
    ensures MatchesAt(s, p + n + 1, r) && p + n + 1 + |r| == |s|
  {
    MatchesSplit(s, p, w, [Space] + r, p + n);
    MatchesSplit(s, p + n, [Space], r, p + n + 1);
    assert s[p + n + 0] == [Space][0];
  }

  lemma RenderedAtCons(s: seq<CodePoint>, p: nat, units: seq<ExemplarUnit>, n: nat)
    requires |units| >= 2 && n == |RenderUnit(units[0])|
    requires UnitAt(s, p, units[0]) && p + n < |s| && s[p + n] == Space
    requires RenderedAt(s, p + n + 1, units[1..])
    ensures RenderedAt(s, p, units)
  {
  }

  // Reading the written-out forms back.

  /** A written-out character decodes to itself. */
  lemma DecodeEscapeAt(s: seq<CodePoint>, q: nat, c: CodePoint)
    requires EscapedAt(s, q, c)
    ensures DecodeChar(s, q) == Ok(Decoded(q + |Escape(c)|, c))
  {
  }

  lemma {:induction false} ReadEscapedCluster(s: seq<CodePoint>, q: nat, unit: ExemplarUnit, u: ExemplarUnit)
    requires ClusterAt(s, q, u)
    ensures q + |EscapeAll(u)| <= |s|
    ensures ReadCluster(s, q, unit) == Ok(Cluster(q + |EscapeAll(u)|, unit + u))
    decreases |u|
  {
    if u == [] {
      assert unit + u == unit;
    } else {
      DecodeEscapeAt(s, q, u[0]);
      ReadClusterChar(s, q, unit, Decoded(q + |Escape(u[0])|, u[0]));
      ReadEscapedCluster(s, q + |Escape(u[0])|, unit + [u[0]], u[1..]);
      assert unit + [u[0]] + u[1..] == unit + u;
    }
  }

  lemma StepRenderedUnit(s: seq<CodePoint>, p: nat, acc: seq<ExemplarUnit>, u: ExemplarUnit)
    requires UnitAt(s, p, u)
    ensures p + |RenderUnit(u)| <= |s|
    ensures Step(s, p, acc) == Ok(State(p + |RenderUnit(u)|, acc + [u]))
  {
    if |u| == 1 {
      DecodeEscapeAt(s, p, u[0]);
      assert [u[0]] == u;
    } else {
      ReadEscapedCluster(s, p + 1, [], u);
      assert [] + u == u;
      ClusterStep(s, p, acc, u, p + 1 + |EscapeAll(u)|);
    }
  }

  lemma ParseRenderedSingle(s: seq<CodePoint>, p: nat, acc: seq<ExemplarUnit>, units: seq<ExemplarUnit>)
    requires |units| == 1 && UnitAt(s, p, units[0]) && p + |RenderUnit(units[0])| == |s|
    ensures ParseFrom(s, p, acc) == Ok(acc + units)
  {
    StepRenderedUnit(s, p, acc, units[0]);
    ParseFromStep(s, p, acc, State(|s|, acc + [units[0]]));
    assert [units[0]] == units;
  }

  /** Parsing reads the first unit and the space after it, then goes on with the rest. */
  lemma ParseRenderedFirst(s: seq<CodePoint>, p: nat, acc: seq<ExemplarUnit>, u: ExemplarUnit)
    requires UnitAt(s, p, u) && p + |RenderUnit(u)| < |s| && s[p + |RenderUnit(u)|] == Space
    ensures ParseFrom(s, p, acc) == ParseFrom(s, p + |RenderUnit(u)| + 1, acc + [u])
  {
    var n := |RenderUnit(u)|;
    var acc' := acc + [u];
    StepRenderedUnit(s, p, acc, u);
    ParseFromStep(s, p, acc, State(p + n, acc'));
    SpaceStep(s, p + n, acc');
    ParseFromStep(s, p + n, acc', State(p + n + 1, acc'));
  }

  /** The first unit and its space parse, and the rest parses as assumed: so does the whole list. */
  lemma ParseRenderedCons(s: seq<CodePoint>, p: nat, acc: seq<ExemplarUnit>, units: seq<ExemplarUnit>)
    requires |units| >= 2 && UnitAt(s, p, units[0])
    requires p + |RenderUnit(units[0])| < |s| && s[p + |RenderUnit(units[0])|] == Space
    requires ParseFrom(s, p + |RenderUnit(units[0])| + 1, acc + [units[0]]) == Ok(acc + [units[0]] + units[1..])
    ensures ParseFrom(s, p, acc) == Ok(acc + units)
  {
    ParseRenderedFirst(s, p, acc, units[0]);
    assert acc + [units[0]] + units[1..] == acc + units;
  }

  /** From any point where a list of units stands written out to the end, parsing yields that list. */
  lemma {:induction false} ParseFromRendered(s: seq<CodePoint>, p: nat, acc: seq<ExemplarUnit>, units: seq<ExemplarUnit>)
    requires RenderedAt(s, p, units)
    ensures ParseFrom(s, p, acc) == Ok(acc + units)
    decreases |units|
  {
    if units == [] {
      assert acc + units == acc;
    } else if |units| == 1 {
      ParseRenderedSingle(s, p, acc, units);
    } else {
      ParseFromRendered(s, p + |RenderUnit(units[0])| + 1, acc + [units[0]], units[1..]);
      ParseRenderedCons(s, p, acc, units);
    }
  }

  /** Round trip: every list of units, written out in the notation, parses back to itself. */
  lemma ParseNotation(units: seq<ExemplarUnit>)
    ensures ParseExemplar(Notation(units)) == Ok(units)
  {
    var r := Render(units);
    var s := Notation(units);
    assert s[1..|s| - 1] == r;
    assert s[|s| - 1] == RightBracket;
    assert Body(s) == Ok(r);
    assert MatchesAt(r, 0, r);
    RenderedFrom(r, 0, units);
    ParseFromRendered(r, 0, [], units);
    assert [] + units == units;
  }
}

/**
 * The decoder for the bracketed exemplar notation of CLDR locale data
 * (UnicodeSet syntax as used by UTS #35): `\uXXXX` escapes of 4 to 6 hex
 * digits, `\c` literal escapes, `{...}` clusters and `a-b` ranges.
 *
 * The pure functions below follow the decoder one loop iteration at a time and
 * are the specification; the methods `ReadCharacterAt` and
 * `ExemplarStringToList` are the pointer-driven loops of the source, proved
 * equal to them.  Every assertion failure and out-of-range index of the source
 * is an `Err` here, checked in the same order as the source checks it.
 */
module Exemplar {
  import opened Wrappers
  import opened Text

  /** A display unit: one character, or a multi-character cluster. */
  type ExemplarUnit = seq<CodePoint>

  datatype ParseError =
    | IndexOutOfRange              // a read past the end of the text
    | NoOpeningBracket             // the text does not start with '['
    | ForbiddenCharacter           // a character is read where ' ', '-', '{' or '}' stands
    | BadHexDigitCount(count: nat) // `\u` followed by other than 4, 5 or 6 hex digits
    | CodePointTooLarge            // a `\u` escape above U+10FFFF
    | RangeWithoutStart            // '-' with no unit before it
    | RangeAfterCluster            // '-' after a unit that is not one character
    | BadRangeEnd                  // a range end that decodes to ' ', '\', '{', '}' or '-'

  /** What reading one (possibly escaped) character yields: where reading goes on, and the character. */
  datatype Decoded = Decoded(next: nat, ch: CodePoint)

  /** Reading state of the outer loop: the pointer and the list built so far. */
  datatype State = State(pos: nat, units: seq<ExemplarUnit>)

  /** A cluster read up to its closing brace at `close`. */
  datatype Cluster = Cluster(close: nat, unit: ExemplarUnit)

  /** `c.upper() in '0123456789ABCDEF'`: only ASCII digits and letters a-f/A-F pass. */
  predicate IsHexDigit(c: CodePoint)
  {
    '0' as int <= c <= '9' as int || 'a' as int <= c <= 'f' as int || 'A' as int <= c <= 'F' as int
  }

  function HexDigitValue(c: CodePoint): (v: nat)
    requires IsHexDigit(c)
    ensures v < 16
  {
    if c <= '9' as int then c - '0' as int
    else if c >= 'a' as int then c - 'a' as int + 10
    else c - 'A' as int + 10
  }

  predicate AllHex(ds: seq<CodePoint>)
  {
    forall i :: 0 <= i < |ds| ==> IsHexDigit(ds[i])
  }

  /** `int(ds, 16)`. */
  function HexValue(ds: seq<CodePoint>): nat
    requires AllHex(ds)
  {
    if ds == [] then 0 else HexValue(ds[..|ds| - 1]) * 16 + HexDigitValue(ds[|ds| - 1])
  }

  /** Where the scan for hex digits that starts at `i` stops: the end of the longest hex run. */
  function HexRunEnd(s: seq<CodePoint>, i: nat): (e: nat)
    requires i <= |s|
    ensures i <= e <= |s|
    ensures forall k :: i <= k < e ==> IsHexDigit(s[k])
    ensures e == |s| || !IsHexDigit(s[e])
    decreases |s| - i
  {
    if i < |s| && IsHexDigit(s[i]) then HexRunEnd(s, i + 1) else i
  }

  /** `read_character_at(s, p)`. */
  function DecodeChar(s: seq<CodePoint>, p: nat): (r: Result<Decoded, ParseError>)
    ensures r.Ok? ==> p < r.value.next <= |s|
  {
    if p >= |s| then Err(IndexOutOfRange)
    else if s[p] in {Space, Hyphen, LeftBrace, RightBrace} then Err(ForbiddenCharacter)
    else if s[p] != Backslash then Ok(Decoded(p + 1, s[p]))
    else if p + 1 >= |s| then Err(IndexOutOfRange)
    else if s[p + 1] != LowerU then Ok(Decoded(p + 2, s[p + 1]))
    else
      var e := HexRunEnd(s, p + 2);
      var count := e - (p + 2);
      if count < 4 || count > 6 then Err(BadHexDigitCount(count))
      else
        var v := HexValue(s[p + 2..e]);
        if v > MaxCodePoint then Err(CodePointTooLarge) else Ok(Decoded(e, v))
  }

  /** The inner loop over a `{...}` cluster, from `q` on, with `unit` read so far. */
  function ReadCluster(s: seq<CodePoint>, q: nat, unit: ExemplarUnit): (r: Result<Cluster, ParseError>)
    requires q <= |s|
    ensures r.Ok? ==> q <= r.value.close < |s| && s[r.value.close] == RightBrace
    decreases |s| - q
  {
    if q == |s| then Err(IndexOutOfRange)
    else if s[q] == RightBrace then Ok(Cluster(q, unit))
    else
      match DecodeChar(s, q)
      case Err(e) => Err(e)
      case Ok(d) => ReadCluster(s, d.next, unit + [d.ch])
  }

  /** The single-character units `[lo]`, `[lo + 1]`, ..., `[hi - 1]`: `range(lo, hi)`. */
  function RangeUnits(lo: int, hi: int): (r: seq<ExemplarUnit>)
    requires 0 <= lo && hi <= MaxCodePoint + 1
    ensures |r| == if lo < hi then hi - lo else 0
    ensures forall i :: 0 <= i < |r| ==> r[i] == [lo + i]
  {
    if lo < hi then seq(hi - lo, i requires 0 <= i < hi - lo => [lo + i]) else []
  }

  /** Characters a range may not end with. */
  const RangeEndForbidden: set<CodePoint> := {Space, Backslash, LeftBrace, RightBrace, Hyphen}

  /** One iteration of the outer loop. */
  function Step(s: seq<CodePoint>, p: nat, acc: seq<ExemplarUnit>): (r: Result<State, ParseError>)
    requires p < |s|
    ensures r.Ok? ==> p < r.value.pos <= |s|
  {
    if s[p] == Space then Ok(State(p + 1, acc))
    else if s[p] == LeftBrace then
      match ReadCluster(s, p + 1, [])
      case Err(e) => Err(e)
      case Ok(c) => Ok(State(c.close + 1, acc + [c.unit]))
    else if s[p] == Hyphen then
      if |acc| == 0 then Err(RangeWithoutStart)
      else if |acc[|acc| - 1]| != 1 then Err(RangeAfterCluster)
      else
        match DecodeChar(s, p + 1)
        case Err(e) => Err(e)
        case Ok(d) =>
          if d.ch in RangeEndForbidden then Err(BadRangeEnd)
          else Ok(State(d.next, acc + RangeUnits(acc[|acc| - 1][0] as int + 1, d.ch as int + 1)))
    else
      match DecodeChar(s, p)
      case Err(e) => Err(e)
      case Ok(d) => Ok(State(d.next, acc + [[d.ch]]))
  }

  /** The outer loop from pointer `p`, with `acc` the list built so far. */
  function ParseFrom(s: seq<CodePoint>, p: nat, acc: seq<ExemplarUnit>): Result<seq<ExemplarUnit>, ParseError>
    requires p <= |s|
    decreases |s| - p
  {
    if p == |s| then Ok(acc)
    else
      match Step(s, p, acc)
      case Err(e) => Err(e)
      case Ok(st) => ParseFrom(s, st.pos, st.units)
  }

  /** One successful step of the outer loop. */
  lemma ParseFromStep(s: seq<CodePoint>, p: nat, acc: seq<ExemplarUnit>, st: State)
    requires p < |s| && Step(s, p, acc) == Ok(st)
    ensures ParseFrom(s, p, acc) == ParseFrom(s, st.pos, st.units)
  {
  }

  /** A failing step ends the outer loop with its error. */
  lemma ParseFromErr(s: seq<CodePoint>, p: nat, acc: seq<ExemplarUnit>)
    requires p < |s| && Step(s, p, acc).Err?
    ensures ParseFrom(s, p, acc) == Err(Step(s, p, acc).error)
  {
  }

  /** One character of a cluster, decoded up to `next`. */
  lemma ReadClusterChar(s: seq<CodePoint>, q: nat, unit: ExemplarUnit, d: Decoded)
    requires q < |s| && s[q] != RightBrace && DecodeChar(s, q) == Ok(d)
    ensures ReadCluster(s, q, unit) == ReadCluster(s, d.next, unit + [d.ch])
  {
  }

  /** The text between the leading '[' and an optional trailing ']'. */
  function Body(exstr: seq<CodePoint>): (r: Result<seq<CodePoint>, ParseError>)
    ensures r.Ok? ==> |exstr| >= 2 && exstr[0] == LeftBracket
    ensures r.Ok? ==> r.value == exstr[1..] || (r.value == exstr[1..|exstr| - 1] && exstr[|exstr| - 1] == RightBracket)
  {
    if |exstr| == 0 then Err(IndexOutOfRange)
    else if exstr[0] != LeftBracket then Err(NoOpeningBracket)
    else if |exstr| == 1 then Err(IndexOutOfRange)
    else if exstr[|exstr| - 1] == RightBracket then Ok(exstr[1..|exstr| - 1])
    else Ok(exstr[1..])
  }

  /** `exemplar_string_to_list(exstr)`. */
  function ParseExemplar(exstr: seq<CodePoint>): Result<seq<ExemplarUnit>, ParseError>
  {
    match Body(exstr)
    case Err(e) => Err(e)
    case Ok(b) => ParseFrom(b, 0, [])
  }

  /** `read_character_at`, with its scan over the hex digits of a `\u` escape. */
  method ReadCharacterAt(source: seq<CodePoint>, pointer: nat) returns (r: Result<Decoded, ParseError>)
    ensures r == DecodeChar(source, pointer)
  {
    if pointer >= |source| {
      return Err(IndexOutOfRange);
    }
    var c := source[pointer];
    if c == Space || c == Hyphen || c == LeftBrace || c == RightBrace {
      return Err(ForbiddenCharacter);
    }
    if c != Backslash {
      return Ok(Decoded(pointer + 1, c));
    }
    if pointer + 1 >= |source| {
      return Err(IndexOutOfRange);
    }
    if source[pointer + 1] != LowerU {
      return Ok(Decoded(pointer + 2, source[pointer + 1]));
    }
    var endOfHex := pointer + 2;
    while endOfHex < |source| && IsHexDigit(source[endOfHex])
      invariant pointer + 2 <= endOfHex <= |source|
      invariant HexRunEnd(source, endOfHex) == HexRunEnd(source, pointer + 2)
      decreases |source| - endOfHex
    {
      endOfHex := endOfHex + 1;
    }
    var count := endOfHex - (pointer + 2);
    if count < 4 || count > 6 {
      return Err(BadHexDigitCount(count));
    }
    var code := HexValue(source[pointer + 2..endOfHex]);
    if code > MaxCodePoint {
      return Err(CodePointTooLarge);
    }
    return Ok(Decoded(endOfHex, code));
  }

  /** The inner loop of `exemplar_string_to_list` over a `{...}` cluster whose text starts at `start`. */
  method ReadMultiChar(body: seq<CodePoint>, start: nat) returns (r: Result<Cluster, ParseError>)
    requires start <= |body|
    ensures r == ReadCluster(body, start, [])
  {
    var multiChar: ExemplarUnit := [];
    var mcPtr := start;
    while mcPtr < |body| && body[mcPtr] != RightBrace
      invariant start <= mcPtr <= |body|
      invariant ReadCluster(body, mcPtr, multiChar) == ReadCluster(body, start, [])
      decreases |body| - mcPtr
    {
      var d := ReadCharacterAt(body, mcPtr);
      if d.Err? {
        return Err(d.error);
      }
      ReadClusterChar(body, mcPtr, multiChar, d.value);
      mcPtr, multiChar := d.value.next, multiChar + [d.value.ch];
    }
    if mcPtr == |body| {
      return Err(IndexOutOfRange);
    }
    return Ok(Cluster(mcPtr, multiChar));
  }

  /** One iteration of the loop of `exemplar_string_to_list`, at `pointer` with the list built so far. */
  method ReadUnitsAt(body: seq<CodePoint>, pointer: nat, returnList: seq<ExemplarUnit>) returns (r: Result<State, ParseError>)
    requires pointer < |body|
    ensures r == Step(body, pointer, returnList)
  {
    if body[pointer] == Space {
      return Ok(State(pointer + 1, returnList));
    } else if body[pointer] == LeftBrace {
      var c := ReadMultiChar(body, pointer + 1);
      if c.Err? {
        return Err(c.error);
      }
      var multiChar, mcPtr := c.value.unit, c.value.close;
      return Ok(State(mcPtr + 1, returnList + [multiChar]));
    } else if body[pointer] == Hyphen {
      if |returnList| == 0 {
        return Err(RangeWithoutStart);
      }
      var previous := returnList[|returnList| - 1];
      if |previous| != 1 {
        return Err(RangeAfterCluster);
      }
      var d := ReadCharacterAt(body, pointer + 1);
      if d.Err? {
        return Err(d.error);
      }
      if d.value.ch in RangeEndForbidden {
        return Err(BadRangeEnd);
      }
      var range := RangeUnits(previous[0] as int + 1, d.value.ch as int + 1);
      return Ok(State(d.value.next, returnList + range));
    } else {
      var d := ReadCharacterAt(body, pointer);
      if d.Err? {
        return Err(d.error);
      }
      return Ok(State(d.value.next, returnList + [[d.value.ch]]));
    }
  }

  /** `exemplar_string_to_list`: the pointer-driven loop appending to the result list. */
  method ExemplarStringToList(exstr: seq<CodePoint>) returns (r: Result<seq<ExemplarUnit>, ParseError>)
    ensures r == ParseExemplar(exstr)
  {
    if |exstr| == 0 {
      return Err(IndexOutOfRange);
    }
    if exstr[0] != LeftBracket {
      return Err(NoOpeningBracket);
    }
    if |exstr| == 1 {
      return Err(IndexOutOfRange);
    }
    var body := if exstr[|exstr| - 1] == RightBracket then exstr[1..|exstr| - 1] else exstr[1..];
    assert Body(exstr) == Ok(body);
    var returnList: seq<ExemplarUnit> := [];
    var pointer := 0;
    while pointer < |body|
      invariant pointer <= |body|
      invariant ParseFrom(body, pointer, returnList) == ParseFrom(body, 0, [])
      decreases |body| - pointer
    {
      var st := ReadUnitsAt(body, pointer, returnList);
      if st.Err? {
        ParseFromErr(body, pointer, returnList);
        return Err(st.error);
      }
      ParseFromStep(body, pointer, returnList, st.value);
      pointer, returnList := st.value.pos, st.value.units;
    }
    return Ok(returnList);
  }
}

/** TinyJson's recursive-descent parser (struct JsonParser), written as
    functions of the parser state: the cursor `i`, the `failed` flag and
    the first error message. Each function returns the value the member
    function returns together with the state it leaves behind; the class
    in JsonParser runs the same steps in place and is proved equal to
    these functions. Reading at `i == |s|` yields NUL, as std::string's
    operator[] does at size(). */
module JsonSpec {
  import opened JsonValues

  /** max_depth */
  const MaxDepth: nat := 200

  const NUL: Byte := 0 as char
  const BACKSPACE: Byte := 8 as char
  const FORMFEED: Byte := 12 as char

  /** The messages passed to fail(), without esc()'s formatting. */
  datatype ParseError =
    | UnexpectedEnd                          // "unexpected end of input"
    | UnexpectedEndInString                  // "unexpected end of input in std::string"
    | UnescapedControl(c: Byte)              // "unescaped ... in std::string"
    | BadUnicodeEscape(text: seq<Byte>)      // "bad \u escape: ..."
    | InvalidEscape(c: Byte)                 // "invalid escape character ..."
    | LeadingZeros                           // "leading 0s not permitted in numbers"
    | InvalidInNumber(c: Byte)               // "invalid ... in number"
    | MissingFractionDigit                   // "at least one digit required in fractional part"
    | MissingExponentDigit                   // "at least one digit required in exponent"
    | ExpectedLiteral(expected: seq<Byte>, got: seq<Byte>)  // "parse error: expected ..., got ..."
    | MaxDepthExceeded                       // "exceeded maximum nesting depth"
    | ExpectedQuoteInObject(c: Byte)         // "expected '\"' in object, got ..."
    | ExpectedColonInObject(c: Byte)         // "expected ':' in object, got ..."
    | ExpectedCommaInObject(c: Byte)         // "expected ',' in object, got ..."
    | ExpectedCommaInList(c: Byte)           // "expected ',' in list, got ..."
    | ExpectedValue(c: Byte)                 // "expected value, got ..."
    | UnexpectedTrailing(c: Byte)            // "unexpected trailing ..."

  /** The mutable part of a JsonParser. `err` is None while the caller's
      err string has not been written. */
  datatype PState = PState(i: nat, failed: bool, err: Option<ParseError>)

  datatype Tok = Tok(ch: Byte, st: PState)
  /** The bytes decoded so far, the pending escaped code point and the
      parser state after one escape sequence. */
  datatype EscRes = EscRes(out: seq<Byte>, last: int, st: PState)

  datatype StrRes = StrRes(value: seq<Byte>, st: PState)
  datatype Res = Res(value: Json, st: PState)

  /** What Json::parse returns and whether it wrote err. */
  datatype ParseResult = ParseResult(value: Json, err: Option<ParseError>)

  /** What Json::parseMulti returns, stores in parserStopPos and writes to err. */
  datatype MultiResult = MultiResult(values: seq<Json>, stopPos: nat, err: Option<ParseError>)

  /** Only the first failure writes err; once failed, a parser stays failed. */
  predicate KeepsFirstError(st: PState, st': PState)
  {
    && (st.failed ==> st'.failed && st'.err == st.err)
    && (!st'.failed ==> st'.err == st.err)
    && (st'.failed && !st.failed ==> st'.err.Some?)
  }

  /* -------------------- character classes -------------------- */

  function At(s: seq<Byte>, k: nat): Byte
  {
    if k < |s| then s[k] else NUL
  }

  predicate IsWs(c: Byte)
  {
    c == ' ' || c == '\r' || c == '\n' || c == '\t'
  }

  predicate IsDigit(c: Byte)
  {
    '0' <= c <= '9'
  }

  predicate IsHex(c: Byte)
  {
    'a' <= c <= 'f' || 'A' <= c <= 'F' || '0' <= c <= '9'
  }

  function HexDigit(c: Byte): (r: nat)
    requires IsHex(c)
    ensures r < 16
  {
    if 'a' <= c <= 'f' then c as int - 'a' as int + 10
    else if 'A' <= c <= 'F' then c as int - 'A' as int + 10
    else c as int - '0' as int
  }

  /** strtol(esc, nullptr, 16) on a run of hex digits. */
  function HexValue(ds: seq<Byte>): (r: nat)
    requires forall k :: 0 <= k < |ds| ==> IsHex(ds[k])
  {
    if |ds| == 0 then 0 else HexValue(ds[..|ds| - 1]) * 16 + HexDigit(ds[|ds| - 1])
  }

  /** The value of a run of decimal digits. */
  function DecimalValue(ds: seq<Byte>): (r: nat)
    requires forall k :: 0 <= k < |ds| ==> IsDigit(ds[k])
  {
    if |ds| == 0 then 0 else DecimalValue(ds[..|ds| - 1]) * 10 + DigitValue(ds[|ds| - 1])
  }

  function DigitValue(c: Byte): (r: nat)
    requires IsDigit(c)
    ensures r < 10
  {
    c as int - '0' as int
  }

  /** atoll on a literal of at most 19 digits: glibc's strtoll saturates at
      the int64 limits (the C standard leaves overflow undefined). */
  function Saturate(v: int): Int64
  {
    if v < -0x8000_0000_0000_0000 then -0x8000_0000_0000_0000
    else if v > 0x7FFF_FFFF_FFFF_FFFF then 0x7FFF_FFFF_FFFF_FFFF
    else v
  }

  /* -------------------- fail / consumeWhitespace / getNextToken -------------------- */

  /** fail(msg): record msg unless an earlier failure already did. */
  function Fail(st: PState, e: ParseError): PState
  {
    PState(st.i, true, if st.failed then st.err else Some(e))
  }

  /** consumeWhitespace: the end of the run of space, CR, LF and tab at i. */
  function SkipWs(s: seq<Byte>, i: nat): (j: nat)
    requires i <= |s|
    ensures i <= j <= |s|
    ensures j == |s| || !IsWs(s[j])
    decreases |s| - i
  {
    if i < |s| && IsWs(s[i]) then SkipWs(s, i + 1) else i
  }

  /** Every byte consumeWhitespace steps over is whitespace. */
  lemma {:induction false} SkipWsOnlyWs(s: seq<Byte>, i: nat)
    requires i <= |s|
    ensures forall k :: i <= k < SkipWs(s, i) ==> IsWs(s[k])
    decreases |s| - i
  {
    if i < |s| && IsWs(s[i]) {
      SkipWsOnlyWs(s, i + 1);
    }
  }

  /** getNextToken */
  function NextToken(s: seq<Byte>, st: PState): (r: Tok)
    requires st.i <= |s|
    ensures st.i <= r.st.i <= |s|
    ensures KeepsFirstError(st, r.st)
    ensures r.st.failed ==> r.ch == NUL
    ensures !r.st.failed ==> r.st.i > st.i && r.ch == s[r.st.i - 1] && !IsWs(r.ch)
  {
    var j := SkipWs(s, st.i);
    if st.failed then Tok(NUL, st.(i := j))
    else if j == |s| then Tok(NUL, Fail(st.(i := j), UnexpectedEnd))
    else Tok(s[j], st.(i := j + 1))
  }

  /* -------------------- encodeUtf8 -------------------- */

  /** static_cast<char>(x | mask) for a mask below 0x100: the low byte of x
      with the mask's bits set. */
  function OrByte(x: nat, mask: bv8): Byte
  {
    ((x % 0x100) as bv8 | mask) as int as char
  }

  /** encodeUtf8: nothing for a negative value, else the 1- to 4-byte
      form chosen by the thresholds 0x80, 0x800 and 0x10000. */
  function EncodeUtf8(pt: int): seq<Byte>
  {
    if pt < 0 then []
    else if pt < 0x80 then [pt as char]
    else if pt < 0x800 then
      [OrByte(pt / 0x40, 0xC0), OrByte(pt % 0x40, 0x80)]
    else if pt < 0x10000 then
      [OrByte(pt / 0x1000, 0xE0), OrByte((pt / 0x40) % 0x40, 0x80), OrByte(pt % 0x40, 0x80)]
    else
      [OrByte(pt / 0x40000, 0xF0), OrByte((pt / 0x1000) % 0x40, 0x80),
       OrByte((pt / 0x40) % 0x40, 0x80), OrByte(pt % 0x40, 0x80)]
  }

  /** The surrogate-pair reassembly in parseString,
      (((lead - 0xD800) << 10) | (trail - 0xDC00)) + 0x10000 on long
      values. Both operands are below 0x400, so the shift multiplies by
      0x400 and the or adds a value that fits in the ten bits the shift
      cleared (Utf8.ShiftOrIsSum proves this on the bit level). */
  function CombineSurrogates(lead: int, trail: int): int
    requires 0xD800 <= lead <= 0xDBFF && 0xDC00 <= trail <= 0xDFFF
  {
    (lead - 0xD800) * 0x400 + (trail - 0xDC00) + 0x10000
  }

  /* -------------------- parseString -------------------- */

  predicate AllHex(t: seq<Byte>)
  {
    forall k :: 0 <= k < |t| ==> IsHex(t[k])
  }

  /** The byte a one-letter escape after '\\' stands for. */
  function EscapedByte(e: Byte): (r: Option<Byte>)
    ensures r.Some? <==> e in "bfnrt\"\\/"
    ensures e in "\"\\/" ==> r == Some(e)
  {
    if e == 'b' then Some(BACKSPACE)
    else if e == 'f' then Some(FORMFEED)
    else if e == 'n' then Some('\n')
    else if e == 'r' then Some('\r')
    else if e == 't' then Some('\t')
    else if e == '"' || e == '\\' || e == '/' then Some(e)
    else None
  }

  /** One turn of parseString's loop and all the turns after it. `out`
      holds the bytes decoded so far and `last` the escaped code point not
      yet written (-1 for none). */
  function StringLoop(s: seq<Byte>, st: PState, out: seq<Byte>, last: int): (r: StrRes)
    requires st.i <= |s| && !st.failed
    ensures r.st.i <= |s|
    ensures KeepsFirstError(st, r.st)
    ensures !r.st.failed ==> r.st.i > st.i
    ensures r.st.failed ==> r.value == []
    decreases |s| - st.i
  {
    var i := st.i;
    if i == |s| then StrRes([], Fail(st, UnexpectedEndInString))
    else
      var ch := s[i];
      if ch == '"' then StrRes(out + EncodeUtf8(last), st.(i := i + 1))
      else if ch as int <= 0x1f then StrRes([], Fail(st.(i := i + 1), UnescapedControl(ch)))
      else if ch != '\\' then StringLoop(s, st.(i := i + 1), out + EncodeUtf8(last) + [ch], -1)
      else
        var e := Escape(s, st.(i := i + 1), out, last);
        if e.st.failed then StrRes([], e.st)
        else StringLoop(s, e.st, e.out, e.last)
  }

  /** The escape branch of parseString's loop, entered just after the
      backslash: the decoded bytes so far and the pending code point after
      the escape, or the failure. */
  function Escape(s: seq<Byte>, st: PState, out: seq<Byte>, last: int): (r: EscRes)
    requires st.i <= |s| && !st.failed
    ensures r.st.i <= |s|
    ensures KeepsFirstError(st, r.st)
    ensures !r.st.failed ==> r.st.i > st.i
  {
    var i := st.i;
    if i == |s| then EscRes(out, last, Fail(st, UnexpectedEndInString))
    else
      var e := s[i];
      var j := i + 1;
      if e == 'u' then
        var esc := s[j .. if j + 4 <= |s| then j + 4 else |s|];
        if |esc| < 4 || !AllHex(esc) then
          EscRes(out, last, Fail(st.(i := j), BadUnicodeEscape(esc)))
        else
          var cp := HexValue(esc);
          if 0xD800 <= last <= 0xDBFF && 0xDC00 <= cp <= 0xDFFF then
            EscRes(out + EncodeUtf8(CombineSurrogates(last, cp)), -1, st.(i := j + 4))
          else
            EscRes(out + EncodeUtf8(last), cp, st.(i := j + 4))
      else
        match EscapedByte(e)
        case Some(b) => EscRes(out + EncodeUtf8(last) + [b], -1, st.(i := j))
        case None => EscRes(out, last, Fail(st.(i := j), InvalidEscape(e)))
  }

  /** parseString, entered just after the opening quote of a parse that
      has not failed. */
  function ParseString(s: seq<Byte>, st: PState): (r: StrRes)
    requires st.i <= |s| && !st.failed
    ensures r.st.i <= |s|
    ensures KeepsFirstError(st, r.st)
    ensures !r.st.failed ==> r.st.i > st.i
    ensures r.st.failed ==> r.value == []
  {
    StringLoop(s, st, [], -1)
  }

  /* -------------------- parseNumber -------------------- */

  /** The end of the run of decimal digits at k. */
  function SkipDigits(s: seq<Byte>, k: nat): (j: nat)
    requires k <= |s|
    ensures k <= j <= |s|
    ensures !IsDigit(At(s, j))
    decreases |s| - k
  {
    if IsDigit(At(s, k)) then SkipDigits(s, k + 1) else k
  }

  /** The run SkipDigits steps over is all digits. */
  lemma {:induction false} SkipDigitsOnlyDigits(s: seq<Byte>, k: nat)
    requires k <= |s|
    ensures forall m :: k <= m < SkipDigits(s, k) ==> IsDigit(s[m])
    decreases |s| - k
  {
    if IsDigit(At(s, k)) {
      SkipDigitsOnlyDigits(s, k + 1);
    }
  }

  /** parseNumber, entered with the cursor on the '-' or first digit. */
  function ParseNumber(s: seq<Byte>, st: PState): (r: Res)
    requires st.i <= |s| && !st.failed
    ensures r.st.i <= |s|
    ensures KeepsFirstError(st, r.st)
    ensures !r.st.failed ==> r.st.i > st.i && (r.value.Int? || r.value.Double?)
    ensures r.st.failed ==> r.value == Null
  {
    var start := st.i;
    var neg := At(s, start) == '-';
    var p := if neg then start + 1 else start;
    if At(s, p) == '0' then
      if IsDigit(At(s, p + 1)) then Res(Null, Fail(st.(i := p + 1), LeadingZeros))
      else NumberTail(s, st, neg, p + 1)
    else if '1' <= At(s, p) <= '9' then
      SkipDigitsOnlyDigits(s, p + 1);
      NumberTail(s, st, neg, SkipDigits(s, p + 1))
    else Res(Null, Fail(st.(i := p), InvalidInNumber(At(s, p))))
  }

  /** parseNumber after the integer part, which ends at q: the int64 fast
      path for a literal of at most 19 digits with no '.', 'e' or 'E',
      otherwise the fraction and exponent checks. */
  function NumberTail(s: seq<Byte>, st: PState, neg: bool, q: nat): (r: Res)
    requires st.i < q <= |s| && !st.failed
    requires neg ==> st.i + 1 < q
    requires forall k :: (if neg then st.i + 1 else st.i) <= k < q ==> IsDigit(s[k])
    ensures r.st.i <= |s|
    ensures KeepsFirstError(st, r.st)
    ensures !r.st.failed ==> r.st.i >= q && (r.value.Int? || r.value.Double?)
    ensures r.st.failed ==> r.value == Null
  {
    var start := st.i;
    var c := At(s, q);
    if c != '.' && c != 'e' && c != 'E' && q - start <= 18 + (if neg then 2 else 1) then
      var first := if neg then start + 1 else start;
      DigitRun(s, first, q);
      var magnitude: int := DecimalValue(s[first..q]);
      Res(Int(Saturate(if neg then -magnitude else magnitude)), st.(i := q))
    else if c == '.' then
      if !IsDigit(At(s, q + 1)) then Res(Null, Fail(st.(i := q + 1), MissingFractionDigit))
      else ExponentPart(s, st, SkipDigits(s, q + 1))
    else ExponentPart(s, st, q)
  }

  /** A run of digits in s, sliced out. */
  lemma DigitRun(s: seq<Byte>, a: nat, b: nat)
    requires a <= b <= |s| && forall k :: a <= k < b ==> IsDigit(s[k])
    ensures forall k :: 0 <= k < |s[a..b]| ==> IsDigit(s[a..b][k])
  {
    forall k | 0 <= k < b - a
      ensures IsDigit(s[a..b][k])
    {
      assert s[a..b][k] == s[a + k];
    }
  }

  /** parseNumber's exponent part, at q; the lexeme then goes to strtod. */
  function ExponentPart(s: seq<Byte>, st: PState, q: nat): (r: Res)
    requires st.i < q <= |s| && !st.failed
    ensures r.st.i <= |s|
    ensures KeepsFirstError(st, r.st)
    ensures !r.st.failed ==> r.st.i >= q && r.value.Double?
    ensures r.st.failed ==> r.value == Null
  {
    if At(s, q) == 'e' || At(s, q) == 'E' then
      var q1 := if At(s, q + 1) == '+' || At(s, q + 1) == '-' then q + 2 else q + 1;
      if !IsDigit(At(s, q1)) then Res(Null, Fail(st.(i := q1), MissingExponentDigit))
      else
        var q2 := SkipDigits(s, q1);
        Res(Double(s[st.i..q2]), st.(i := q2))
    else Res(Double(s[st.i..q]), st.(i := q))
  }

  /* -------------------- expect -------------------- */

  /** expect(expected, res): step back onto the byte just read and match
      `expected` there. */
  function Expect(s: seq<Byte>, st: PState, expected: seq<Byte>, res: Json): (r: Res)
    requires 1 <= st.i <= |s| && !st.failed
    ensures r.st.i <= |s|
    ensures KeepsFirstError(st, r.st)
    ensures !r.st.failed <==> st.i - 1 + |expected| <= |s| && s[st.i - 1..st.i - 1 + |expected|] == expected
    ensures !r.st.failed ==> r.value == res && r.st.i == st.i - 1 + |expected|
    ensures r.st.failed ==> r.value == Null
  {
    var p := st.i - 1;
    if p + |expected| <= |s| && s[p..p + |expected|] == expected then
      Res(res, st.(i := p + |expected|))
    else
      Res(Null, Fail(st.(i := p), ExpectedLiteral(expected, s[p..if p + |expected| <= |s| then p + |expected| else |s|])))
  }

  /* -------------------- parseJson -------------------- */

  /** parseJson(depth) */
  function ParseValue(s: seq<Byte>, depth: nat, st: PState): (r: Res)
    requires st.i <= |s| && depth <= MaxDepth + 1
    ensures r.st.i <= |s|
    ensures KeepsFirstError(st, r.st)
    ensures !r.st.failed ==> r.st.i > st.i
    ensures depth > MaxDepth ==> r.st.failed
    decreases MaxDepth + 1 - depth, 3, |s| - st.i, 0
  {
    if depth > MaxDepth then Res(Null, Fail(st, MaxDepthExceeded))
    else
      var t := NextToken(s, st);
      if t.st.failed then Res(Null, t.st)
      else ValueAt(s, depth, t.ch, t.st)
  }

  /** parseJson once its first token `ch` has been read. */
  function ValueAt(s: seq<Byte>, depth: nat, ch: Byte, st: PState): (r: Res)
    requires 1 <= st.i <= |s| && depth <= MaxDepth && !st.failed
    ensures r.st.i <= |s|
    ensures KeepsFirstError(st, r.st)
    ensures !r.st.failed ==> r.st.i >= st.i
    decreases MaxDepth + 1 - depth, 2, |s| - st.i, 0
  {
    if ch == '-' || IsDigit(ch) then ParseNumber(s, st.(i := st.i - 1))
    else if ch == 't' then Expect(s, st, "true", Bool(true))
    else if ch == 'f' then Expect(s, st, "false", Bool(false))
    else if ch == 'n' then Expect(s, st, "null", Null)
    else if ch == '"' then
      var r := ParseString(s, st);
      Res(Str(r.value), r.st)
    else if ch == '{' then ObjectValue(s, depth, st)
    else if ch == '[' then ArrayValue(s, depth, st)
    else Res(Null, Fail(st, ExpectedValue(ch)))
  }

  /** parseJson's object branch, just past the '{'. */
  function ObjectValue(s: seq<Byte>, depth: nat, st: PState): (r: Res)
    requires 1 <= st.i <= |s| && depth <= MaxDepth && !st.failed
    ensures r.st.i <= |s|
    ensures KeepsFirstError(st, r.st)
    ensures !r.st.failed ==> r.st.i > st.i
    decreases MaxDepth + 1 - depth, 1, |s| - st.i, 0
  {
    var t := NextToken(s, st);
    if t.ch == '}' then Res(Obj([]), t.st)
    else ObjectLoop(s, depth, t.ch, t.st, [])
  }

  /** parseJson's array branch, just past the '['. */
  function ArrayValue(s: seq<Byte>, depth: nat, st: PState): (r: Res)
    requires 1 <= st.i <= |s| && depth <= MaxDepth && !st.failed
    ensures r.st.i <= |s|
    ensures KeepsFirstError(st, r.st)
    ensures !r.st.failed ==> r.st.i > st.i
    decreases MaxDepth + 1 - depth, 1, |s| - st.i, 0
  {
    var t := NextToken(s, st);
    if t.ch == ']' then Res(Arr([]), t.st)
    else ArrayLoop(s, depth, t.st, [])
  }

  /** The `while (1)` loop of parseJson's object branch, from the test of
      `ch` against '"' up to the value; `data` holds the entries read so
      far. */
  function ObjectLoop(s: seq<Byte>, depth: nat, ch: Byte, st: PState, data: seq<Member>): (r: Res)
    requires st.i <= |s| && depth <= MaxDepth
    requires st.failed ==> ch == NUL
    ensures r.st.i <= |s|
    ensures KeepsFirstError(st, r.st)
    ensures !r.st.failed ==> r.st.i > st.i
    decreases MaxDepth + 1 - depth, 0, |s| - st.i, 1
  {
    if ch != '"' then Res(Null, Fail(st, ExpectedQuoteInObject(ch)))
    else
      var k := ParseString(s, st);
      if k.st.failed then Res(Null, k.st)
      else
        var t := NextToken(s, k.st);
        if t.ch != ':' then Res(Null, Fail(t.st, ExpectedColonInObject(t.ch)))
        else
          var v := ParseValue(s, depth + 1, t.st);
          if v.st.failed then Res(Null, v.st)
          else ObjectNext(s, depth, v.st, Insert(data, k.value, v.value))
  }

  /** The rest of a turn of that loop, after a value: '}' ends the
      object, ',' starts the next entry. */
  function ObjectNext(s: seq<Byte>, depth: nat, st: PState, data: seq<Member>): (r: Res)
    requires st.i <= |s| && depth <= MaxDepth && !st.failed
    ensures r.st.i <= |s|
    ensures KeepsFirstError(st, r.st)
    ensures !r.st.failed ==> r.st.i > st.i
    decreases MaxDepth + 1 - depth, 0, |s| - st.i, 0
  {
    var t := NextToken(s, st);
    if t.ch == '}' then Res(Obj(data), t.st)
    else if t.ch != ',' then Res(Null, Fail(t.st, ExpectedCommaInObject(t.ch)))
    else
      var t2 := NextToken(s, t.st);
      ObjectLoop(s, depth, t2.ch, t2.st, data)
  }

  /** The `while (1)` loop of parseJson's array branch, from its `i--` up
      to the item; `data` holds the items read so far. */
  function ArrayLoop(s: seq<Byte>, depth: nat, st: PState, data: seq<Json>): (r: Res)
    requires 1 <= st.i <= |s| && depth <= MaxDepth
    ensures r.st.i <= |s|
    ensures KeepsFirstError(st, r.st)
    ensures !r.st.failed ==> r.st.i > st.i
    decreases MaxDepth + 1 - depth, 0, |s| - st.i, 1
  {
    var v := ParseValue(s, depth + 1, st.(i := st.i - 1));
    if v.st.failed then Res(Null, v.st)
    else ArrayNext(s, depth, v.st, data + [v.value])
  }

  /** The rest of a turn of that loop, after an item: ']' ends the array,
      ',' starts the next item. */
  function ArrayNext(s: seq<Byte>, depth: nat, st: PState, data: seq<Json>): (r: Res)
    requires 1 <= st.i <= |s| && depth <= MaxDepth && !st.failed
    ensures r.st.i <= |s|
    ensures KeepsFirstError(st, r.st)
    ensures !r.st.failed ==> r.st.i > st.i
    decreases MaxDepth + 1 - depth, 0, |s| - st.i, 0
  {
    var t := NextToken(s, st);
    if t.ch == ']' then Res(Arr(data), t.st)
    else if t.ch != ',' then Res(Null, Fail(t.st, ExpectedCommaInList(t.ch)))
    else ArrayLoop(s, depth, NextToken(s, t.st).st, data)
  }

  /* -------------------- Json::parse / Json::parseMulti -------------------- */

  /** Json::parse: one value, then nothing but whitespace. On failure the
      result is null and err holds the first message. */
  function Parse(s: seq<Byte>): (r: ParseResult)
    ensures r.err.Some? ==> r.value == Null
  {
    var v := ParseValue(s, 0, PState(0, false, None));
    var j := SkipWs(s, v.st.i);
    if v.st.failed then ParseResult(Null, v.st.err)
    else if j != |s| then ParseResult(Null, Some(UnexpectedTrailing(s[j])))
    else ParseResult(v.value, None)
  }

  /** The loop of Json::parseMulti from a state with cursor st.i; `stop`
      is parserStopPos and `values` the vector built so far. */
  function MultiLoop(s: seq<Byte>, st: PState, stop: nat, values: seq<Json>): (r: MultiResult)
    requires st.i <= |s| && !st.failed && st.err.None? && stop == st.i
    ensures st.i <= r.stopPos <= |s| && |r.values| >= |values|
    ensures r.err.None? ==> r.stopPos == |s|
    ensures r.err.Some? ==> |r.values| > |values|
    decreases |s| - st.i
  {
    if st.i == |s| || st.failed then MultiResult(values, stop, st.err)
    else
      var v := ParseValue(s, 0, st);
      if v.st.failed then MultiResult(values + [v.value], stop, v.st.err)
      else
        var j := SkipWs(s, v.st.i);
        MultiLoop(s, v.st.(i := j), j, values + [v.value])
  }

  /** Json::parseMulti */
  function ParseMulti(s: seq<Byte>): (r: MultiResult)
    ensures r.stopPos <= |s|
    ensures r.err.None? ==> r.stopPos == |s|
    ensures r.err.Some? ==> |r.values| > 0
  {
    MultiLoop(s, PState(0, false, None), 0, [])
  }
}

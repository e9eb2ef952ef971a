/** struct JsonParser from TinyJson.cc: a cursor `i` into the input, a
    `failed` flag and the error message, all updated in place by its member
    functions. Every method is proved to do exactly what the matching
    function of JsonSpec says; Parse and ParseMulti are Json::parse and
    Json::parseMulti. */
module JsonParsing {
  import opened JsonValues
  import opened JsonSpec

  class JsonParser {
    const str: seq<Byte>
    var i: nat
    var err: Option<ParseError>
    var failed: bool

    function State(): PState
      reads this
    {
      PState(i, failed, err)
    }

    constructor (str: seq<Byte>)
      ensures this.str == str && State() == PState(0, false, None)
    {
      this.str := str;
      i := 0;
      err := None;
      failed := false;
    }

    /** fail(msg) */
    method Fail(msg: ParseError)
      modifies this
      ensures State() == JsonSpec.Fail(old(State()), msg)
    {
      if !failed {
        err := Some(msg);
      }
      failed := true;
    }

    /** consumeWhitespace() */
    method ConsumeWhitespace()
      requires i <= |str|
      modifies this
      ensures State() == old(State()).(i := SkipWs(str, old(i)))
    {
      while i < |str| && IsWs(str[i])
        invariant old(i) <= i <= |str|
        invariant SkipWs(str, i) == SkipWs(str, old(i))
        invariant failed == old(failed) && err == old(err)
        decreases |str| - i
      {
        i := i + 1;
      }
    }

    /** getNextToken() */
    method GetNextToken() returns (ch: Byte)
      requires i <= |str|
      modifies this
      ensures Tok(ch, State()) == NextToken(str, old(State()))
    {
      ConsumeWhitespace();
      if failed {
        return JsonSpec.NUL;
      }
      if i == |str| {
        Fail(UnexpectedEnd);
        return JsonSpec.NUL;
      }
      ch := str[i];
      i := i + 1;
    }

    /** parseString() */
    method ParseString() returns (out: seq<Byte>)
      requires i <= |str| && !failed
      modifies this
      ensures StrRes(out, State()) == JsonSpec.ParseString(str, old(State()))
    {
      out := [];
      var lastEscapedCodepoint: int := -1;
      while true
        invariant i <= |str| && !failed && err == old(err)
        invariant StringLoop(str, State(), out, lastEscapedCodepoint) == JsonSpec.ParseString(str, old(State()))
        decreases |str| - i
      {
        if i == |str| {
          Fail(UnexpectedEndInString);
          return [];
        }
        var ch := str[i];
        i := i + 1;
        if ch == '"' {
          out := out + EncodeUtf8(lastEscapedCodepoint);
          return;
        }
        if ch as int <= 0x1f {
          Fail(UnescapedControl(ch));
          return [];
        }
        if ch != '\\' {
          out := out + EncodeUtf8(lastEscapedCodepoint);
          lastEscapedCodepoint := -1;
          out := out + [ch];
          continue;
        }
        out, lastEscapedCodepoint := ParseEscape(out, lastEscapedCodepoint);
        if failed {
          return [];
        }
      }
    }

    /** The escape branch of parseString's loop, entered just after the
        backslash. */
    method ParseEscape(out: seq<Byte>, last: int) returns (out': seq<Byte>, last': int)
      requires i <= |str| && !failed
      modifies this
      ensures EscRes(out', last', State()) == Escape(str, old(State()), out, last)
    {
      out', last' := out, last;
      if i == |str| {
        Fail(UnexpectedEndInString);
        return;
      }
      var ch := str[i];
      i := i + 1;
      if ch == 'u' {
        var esc := str[i..if i + 4 <= |str| then i + 4 else |str|];
        if |esc| < 4 {
          Fail(BadUnicodeEscape(esc));
          return;
        }
        var j := 0;
        while j < 4 && IsHex(esc[j])
          invariant j <= 4
          invariant forall k :: 0 <= k < j ==> IsHex(esc[k])
        {
          j := j + 1;
        }
        if j < 4 {
          Fail(BadUnicodeEscape(esc));
          return;
        }
        var codepoint := HexValue(esc);
        if 0xD800 <= last <= 0xDBFF && 0xDC00 <= codepoint <= 0xDFFF {
          out' := out + EncodeUtf8(CombineSurrogates(last, codepoint));
          last' := -1;
        } else {
          out' := out + EncodeUtf8(last);
          last' := codepoint;
        }
        i := i + 4;
        return;
      }
      var escaped := EscapedByte(ch);
      if escaped.None? {
        Fail(InvalidEscape(ch));
        return;
      }
      out' := out + EncodeUtf8(last);
      last' := -1;
      out' := out' + [escaped.value];
    }

    /** The digit loops of parseNumber: advance over decimal digits. */
    method SkipDigitRun()
      requires i <= |str|
      modifies this
      ensures State() == old(State()).(i := SkipDigits(str, old(i)))
      ensures forall k :: old(i) <= k < i ==> IsDigit(str[k])
    {
      while IsDigit(At(str, i))
        invariant old(i) <= i <= |str|
        invariant forall k :: old(i) <= k < i ==> IsDigit(str[k])
        invariant SkipDigits(str, i) == SkipDigits(str, old(i))
        invariant failed == old(failed) && err == old(err)
        decreases |str| - i
      {
        i := i + 1;
      }
    }

    /** parseNumber() */
    method ParseNumber() returns (v: Json)
      requires i <= |str| && !failed
      modifies this
      ensures Res(v, State()) == JsonSpec.ParseNumber(str, old(State()))
    {
      var startPos := i;
      var isNegative := false;
      if At(str, i) == '-' {
        i := i + 1;
        isNegative := true;
      }
      // Integer part
      if At(str, i) == '0' {
        i := i + 1;
        if IsDigit(At(str, i)) {
          Fail(LeadingZeros);
          return Null;
        }
      } else if '1' <= At(str, i) <= '9' {
        i := i + 1;
        SkipDigitRun();
      } else {
        Fail(InvalidInNumber(At(str, i)));
        return Null;
      }
      v := NumberTail(startPos, isNegative);
    }

    /** parseNumber after its integer part, which started at startPos. */
    method NumberTail(startPos: nat, isNegative: bool) returns (v: Json)
      requires startPos < i <= |str| && !failed
      requires isNegative ==> startPos + 1 < i
      requires forall k :: (if isNegative then startPos + 1 else startPos) <= k < i ==> IsDigit(str[k])
      modifies this
      ensures Res(v, State()) == JsonSpec.NumberTail(str, old(State()).(i := startPos), isNegative, old(i))
    {
      var c := At(str, i);
      if c != '.' && c != 'e' && c != 'E' && i - startPos <= 18 + (if isNegative then 2 else 1) {
        var first := if isNegative then startPos + 1 else startPos;
        DigitRun(str, first, i);
        var magnitude: int := DecimalValue(str[first..i]);
        return Int(Saturate(if isNegative then -magnitude else magnitude));
      }
      // Decimal part
      if At(str, i) == '.' {
        i := i + 1;
        if !IsDigit(At(str, i)) {
          Fail(MissingFractionDigit);
          return Null;
        }
        SkipDigitRun();
      }
      v := ExponentPart(startPos);
    }

    /** parseNumber's exponent part and the conversion of the lexeme. */
    method ExponentPart(startPos: nat) returns (v: Json)
      requires startPos < i <= |str| && !failed
      modifies this
      ensures Res(v, State()) == JsonSpec.ExponentPart(str, old(State()).(i := startPos), old(i))
    {
      if At(str, i) == 'e' || At(str, i) == 'E' {
        i := i + 1;
        if At(str, i) == '+' || At(str, i) == '-' {
          i := i + 1;
        }
        if !IsDigit(At(str, i)) {
          Fail(MissingExponentDigit);
          return Null;
        }
        SkipDigitRun();
      }
      return Double(str[startPos..i]);
    }

    /** expect(expected, res) */
    method Expect(expected: seq<Byte>, res: Json) returns (v: Json)
      requires 1 <= i <= |str| && !failed
      modifies this
      ensures Res(v, State()) == JsonSpec.Expect(str, old(State()), expected, res)
    {
      i := i - 1;
      if i + |expected| <= |str| && str[i..i + |expected|] == expected {
        i := i + |expected|;
        return res;
      }
      Fail(ExpectedLiteral(expected, str[i..if i + |expected| <= |str| then i + |expected| else |str|]));
      return Null;
    }

    /** parseJson(depth) */
    method ParseJson(depth: nat) returns (v: Json)
      requires i <= |str| && depth <= MaxDepth + 1
      modifies this
      ensures Res(v, State()) == ParseValue(str, depth, old(State()))
      decreases MaxDepth + 1 - depth, 4
    {
      if depth > MaxDepth {
        Fail(MaxDepthExceeded);
        return Null;
      }
      var ch := GetNextToken();
      if failed {
        return Null;
      }
      v := ParseValueAt(depth, ch);
    }

    /** parseJson once its first token `ch` has been read. */
    method ParseValueAt(depth: nat, ch: Byte) returns (v: Json)
      requires 1 <= i <= |str| && depth <= MaxDepth && !failed
      modifies this
      ensures Res(v, State()) == ValueAt(str, depth, ch, old(State()))
      decreases MaxDepth + 1 - depth, 3
    {
      if ch == '-' || IsDigit(ch) {
        i := i - 1;
        v := ParseNumber();
      } else if ch == 't' {
        v := Expect("true", Bool(true));
      } else if ch == 'f' {
        v := Expect("false", Bool(false));
      } else if ch == 'n' {
        v := Expect("null", Null);
      } else if ch == '"' {
        var s := ParseString();
        v := Str(s);
      } else if ch == '{' {
        v := ParseObject(depth);
      } else if ch == '[' {
        v := ParseArray(depth);
      } else {
        Fail(ExpectedValue(ch));
        v := Null;
      }
    }

    /** parseJson's object branch, just past the '{'. */
    method ParseObject(depth: nat) returns (v: Json)
      requires 1 <= i <= |str| && depth <= MaxDepth && !failed
      modifies this
      ensures Res(v, State()) == ObjectValue(str, depth, old(State()))
      decreases MaxDepth + 1 - depth, 2
    {
      var ch := GetNextToken();
      if ch == '}' {
        return Obj([]);
      }
      v := ParseObjectEntries(depth, ch);
    }

    /** parseJson's array branch, just past the '['. */
    method ParseArray(depth: nat) returns (v: Json)
      requires 1 <= i <= |str| && depth <= MaxDepth && !failed
      modifies this
      ensures Res(v, State()) == ArrayValue(str, depth, old(State()))
      decreases MaxDepth + 1 - depth, 2
    {
      var ch := GetNextToken();
      if ch == ']' {
        return Arr([]);
      }
      v := ParseArrayItems(depth);
    }

    /** The `while (1)` loop of parseJson's object branch, entered with the
        token after '{' in `ch`. */
    method ParseObjectEntries(depth: nat, ch: Byte) returns (v: Json)
      requires i <= |str| && depth <= MaxDepth && (failed ==> ch == JsonSpec.NUL)
      modifies this
      ensures Res(v, State()) == ObjectLoop(str, depth, ch, old(State()), [])
      decreases MaxDepth + 1 - depth, 1
    {
      var next := ch;
      var data: seq<Member> := [];
      while true
        invariant i <= |str| && (failed ==> next == JsonSpec.NUL)
        invariant ObjectLoop(str, depth, next, State(), data) == ObjectLoop(str, depth, ch, old(State()), [])
        decreases |str| - i
      {
        var ok;
        data, ok := ParseObjectEntry(depth, next, data);
        if !ok {
          return Null;
        }
        var more;
        next, more, v := ParseObjectSeparator(depth, data);
        if !more {
          return;
        }
      }
    }

    /** A turn of that loop up to the value: the key, ':' and the value,
        stored under the key. */
    method ParseObjectEntry(depth: nat, ch: Byte, data: seq<Member>) returns (data': seq<Member>, ok: bool)
      requires i <= |str| && depth <= MaxDepth && (failed ==> ch == JsonSpec.NUL)
      modifies this
      ensures ok ==> old(i) < i <= |str| && !failed && ObjectNext(str, depth, State(), data') == ObjectLoop(str, depth, ch, old(State()), data)
      ensures !ok ==> Res(Null, State()) == ObjectLoop(str, depth, ch, old(State()), data)
      decreases MaxDepth + 1 - depth, 0
    {
      data', ok := data, false;
      if ch != '"' {
        Fail(ExpectedQuoteInObject(ch));
        return;
      }
      var key := ParseString();
      if failed {
        return;
      }
      var next := GetNextToken();
      if next != ':' {
        Fail(ExpectedColonInObject(next));
        return;
      }
      var value := ParseJson(depth + 1);
      data' := Insert(data, key, value);
      ok := !failed;
    }

    /** The rest of a turn: '}' ends the object with `v`, ',' reads the
        next key's first token into `next`. */
    method ParseObjectSeparator(depth: nat, data: seq<Member>) returns (next: Byte, more: bool, v: Json)
      requires i <= |str| && depth <= MaxDepth && !failed
      modifies this
      ensures more ==> old(i) < i <= |str| && (failed ==> next == JsonSpec.NUL)
      ensures more ==> ObjectLoop(str, depth, next, State(), data) == ObjectNext(str, depth, old(State()), data)
      ensures !more ==> Res(v, State()) == ObjectNext(str, depth, old(State()), data)
    {
      more, v := false, Null;
      next := GetNextToken();
      if next == '}' {
        return next, false, Obj(data);
      }
      if next != ',' {
        Fail(ExpectedCommaInObject(next));
        return;
      }
      next := GetNextToken();
      more := true;
    }

    /** The `while (1)` loop of parseJson's array branch, entered just past
        the token after '['. */
    method ParseArrayItems(depth: nat) returns (v: Json)
      requires 1 <= i <= |str| && depth <= MaxDepth
      modifies this
      ensures Res(v, State()) == ArrayLoop(str, depth, old(State()), [])
      decreases MaxDepth + 1 - depth, 1
    {
      var data: seq<Json> := [];
      while true
        invariant 1 <= i <= |str|
        invariant ArrayLoop(str, depth, State(), data) == ArrayLoop(str, depth, old(State()), [])
        decreases |str| - i
      {
        var ok;
        data, ok := ParseArrayItem(depth, data);
        if !ok {
          return Null;
        }
        var more;
        more, v := ParseArraySeparator(depth, data);
        if !more {
          return;
        }
      }
    }

    /** A turn of that loop up to the item: step back onto the item's
        first byte, parse it and push it. */
    method ParseArrayItem(depth: nat, data: seq<Json>) returns (data': seq<Json>, ok: bool)
      requires 1 <= i <= |str| && depth <= MaxDepth
      modifies this
      ensures ok ==> old(i) <= i <= |str| && !failed && ArrayNext(str, depth, State(), data') == ArrayLoop(str, depth, old(State()), data)
      ensures !ok ==> Res(Null, State()) == ArrayLoop(str, depth, old(State()), data)
      decreases MaxDepth + 1 - depth, 0
    {
      ArrayLoopUnfold(str, depth, State(), data);
      i := i - 1;
      var item := ParseJson(depth + 1);
      data', ok := data + [item], !failed;
    }

    /** The rest of a turn of that loop, after an item: ']' ends the array
        with `v`, ',' moves past the next item's first byte. */
    method ParseArraySeparator(depth: nat, data: seq<Json>) returns (more: bool, v: Json)
      requires 1 <= i <= |str| && depth <= MaxDepth && !failed
      modifies this
      ensures more ==> old(i) < i <= |str|
      ensures more ==> ArrayLoop(str, depth, State(), data) == ArrayNext(str, depth, old(State()), data)
      ensures !more ==> Res(v, State()) == ArrayNext(str, depth, old(State()), data)
    {
      more, v := false, Null;
      var ch := GetNextToken();
      if ch == ']' {
        return false, Arr(data);
      }
      if ch != ',' {
        Fail(ExpectedCommaInList(ch));
        return;
      }
      ch := GetNextToken();
      more := true;
    }
  }

  /** One turn of the array loop: the item, then either the failure or
      the rest of the turn with the item appended. */
  lemma {:induction false} ArrayLoopUnfold(s: seq<Byte>, depth: nat, st: PState, data: seq<Json>)
    requires 1 <= st.i <= |s| && depth <= MaxDepth
    ensures var v := ParseValue(s, depth + 1, st.(i := st.i - 1));
      ArrayLoop(s, depth, st, data) == if v.st.failed then Res(Null, v.st) else ArrayNext(s, depth, v.st, data + [v.value])
  {
  }

  /** Json::parse(in, err): `err` is None when the caller's string is left
      as it was. */
  method Parse(input: seq<Byte>) returns (result: Json, err: Option<ParseError>)
    ensures ParseResult(result, err) == JsonSpec.Parse(input)
  {
    var parser := new JsonParser(input);
    result := parser.ParseJson(0);
    // Check for any trailing garbage
    parser.ConsumeWhitespace();
    if parser.failed {
      return Null, parser.err;
    }
    if parser.i != |input| {
      parser.Fail(UnexpectedTrailing(input[parser.i]));
      return Null, parser.err;
    }
    err := None;
  }

  /** Json::parseMulti(in, parserStopPos, err) */
  method ParseMulti(input: seq<Byte>) returns (values: seq<Json>, parserStopPos: nat, err: Option<ParseError>)
    ensures MultiResult(values, parserStopPos, err) == JsonSpec.ParseMulti(input)
  {
    var parser := new JsonParser(input);
    parserStopPos := 0;
    values := [];
    while parser.i != |input| && !parser.failed
      invariant parser.str == input && parser.i <= |input|
      invariant !parser.failed && parser.err.None? && parserStopPos == parser.i
      invariant MultiLoop(input, parser.State(), parserStopPos, values) == JsonSpec.ParseMulti(input)
      decreases |input| - parser.i
    {
      var v := parser.ParseJson(0);
      values := values + [v];
      if parser.failed {
        break;
      }
      // Check for another object
      parser.ConsumeWhitespace();
      if parser.failed {
        break;
      }
      parserStopPos := parser.i;
    }
    err := parser.err;
  }
}

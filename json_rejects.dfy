/** What parseString and parseNumber refuse, and when parseNumber gives
    an int64 rather than handing the lexeme to strtod. */
module JsonRejects {
  import opened JsonValues
  import opened JsonSpec
  import opened JsonRoundTrip
  import opened JsonTreeRoundTrip

  /* -------------------- strings -------------------- */

  /** A \u escape at j that is not four hex digits: the bytes taken for it
      (fewer than four at the end of the input). */
  function UnicodeText(s: seq<Byte>, j: nat): seq<Byte>
    requires j <= |s|
  {
    s[j .. if j + 4 <= |s| then j + 4 else |s|]
  }

  /** One turn of parseString's loop fails on the end of the input, on an
      unescaped byte 0x00-0x1F, on a backslash at the end of the input, on
      an escape letter outside b f n r t " \ / u, and on a \u not followed
      by four hex digits; each failure records its own message. */
  lemma StringRejects(s: seq<Byte>, st: PState, out: seq<Byte>, last: int)
    requires st.i <= |s| && !st.failed
    ensures st.i == |s| ==>
      StringLoop(s, st, out, last) == StrRes([], Fail(st, UnexpectedEndInString))
    ensures st.i < |s| && s[st.i] as int <= 0x1f ==>
      StringLoop(s, st, out, last) == StrRes([], Fail(st.(i := st.i + 1), UnescapedControl(s[st.i])))
    ensures st.i + 1 == |s| && s[st.i] == '\\' ==>
      StringLoop(s, st, out, last) == StrRes([], Fail(st.(i := st.i + 1), UnexpectedEndInString))
    ensures st.i + 1 < |s| && s[st.i] == '\\' && s[st.i + 1] != 'u' && EscapedByte(s[st.i + 1]).None? ==>
      StringLoop(s, st, out, last) == StrRes([], Fail(st.(i := st.i + 2), InvalidEscape(s[st.i + 1])))
    ensures (st.i + 1 < |s| && s[st.i] == '\\' && s[st.i + 1] == 'u'
             && (st.i + 6 > |s| || !AllHex(s[st.i + 2..st.i + 6]))) ==>
      StringLoop(s, st, out, last) == StrRes([], Fail(st.(i := st.i + 2), BadUnicodeEscape(UnicodeText(s, st.i + 2))))
  {
    if st.i + 1 < |s| && s[st.i] == '\\' && s[st.i + 1] == 'u' {
      var j := st.i + 2;
      if j + 4 <= |s| {
        assert UnicodeText(s, j) == s[j..j + 4];
      }
    }
  }

  /** Bytes that are neither a quote, a backslash nor a control byte, up
      to the end of the input: parseString copies them all and then fails
      with "unexpected end of input in std::string". */
  lemma {:induction false} UnterminatedString(s: seq<Byte>, st: PState, out: seq<Byte>, last: int)
    requires st.i <= |s| && !st.failed
    requires forall k :: st.i <= k < |s| ==> s[k] != '"' && s[k] != '\\' && s[k] as int > 0x1f
    ensures StringLoop(s, st, out, last) == StrRes([], Fail(st.(i := |s|), UnexpectedEndInString))
    decreases |s| - st.i
  {
    if st.i < |s| {
      UnterminatedString(s, st.(i := st.i + 1), out + EncodeUtf8(last) + [s[st.i]], -1);
    }
  }

  /** Json::parse on a quote and such bytes reports the missing closing
      quote and returns null. */
  lemma UnterminatedParse(t: seq<Byte>)
    requires forall k :: 0 <= k < |t| ==> t[k] != '"' && t[k] != '\\' && t[k] as int > 0x1f
    ensures Parse(['"'] + t) == ParseResult(Null, Some(UnexpectedEndInString))
  {
    var s := ['"'] + t;
    var st := PState(0, false, None);
    TokenAt(s, st);
    assert forall k :: 1 <= k < |s| ==> s[k] == t[k - 1];
    UnterminatedString(s, st.(i := 1), [], -1);
    var bad := Fail(st.(i := |s|), UnexpectedEndInString);
    assert ValueAt(s, 0, '"', st.(i := 1)) == Res(Str([]), bad);
    assert ParseValue(s, 0, st) == Res(Str([]), bad);
  }

  /* -------------------- numbers -------------------- */

  /** The integer part of a number starts at p and ends at q: a lone '0',
      or a digit 1-9 and the digits after it. */
  predicate IntegerPart(s: seq<Byte>, p: nat, q: nat)
  {
    && p < q <= |s|
    && !IsDigit(At(s, q))
    && (forall m :: p <= m < q ==> IsDigit(s[m]))
    && (s[p] == '0' ==> q == p + 1)
  }

  /** Where the digits of the number start: after the '-', if any. */
  function DigitsStart(s: seq<Byte>, st: PState): nat
  {
    if At(s, st.i) == '-' then st.i + 1 else st.i
  }

  /** parseNumber scans the integer part and continues from its end. */
  lemma ScanIntegerPart(s: seq<Byte>, st: PState, q: nat)
    requires st.i <= |s| && !st.failed && IntegerPart(s, DigitsStart(s, st), q)
    ensures At(s, st.i) == '-' ==> st.i + 1 < q
    ensures ParseNumber(s, st) == NumberTail(s, st, At(s, st.i) == '-', q)
  {
    var p := DigitsStart(s, st);
    if s[p] != '0' {
      SkipDigitsTo(s, p + 1, q);
    }
  }

  /** The integer part may not start with '0' followed by a digit, and
      must start with a digit at all. */
  lemma IntegerPartRejects(s: seq<Byte>, st: PState)
    requires st.i <= |s| && !st.failed
    ensures var p := DigitsStart(s, st);
      At(s, p) == '0' && IsDigit(At(s, p + 1)) ==>
      ParseNumber(s, st) == Res(Null, Fail(st.(i := p + 1), LeadingZeros))
    ensures var p := DigitsStart(s, st);
      !IsDigit(At(s, p)) ==> ParseNumber(s, st) == Res(Null, Fail(st.(i := p), InvalidInNumber(At(s, p))))
  {
  }

  /** A '.' must be followed by a digit. */
  lemma FractionRejects(s: seq<Byte>, st: PState, q: nat)
    requires st.i <= |s| && !st.failed && IntegerPart(s, DigitsStart(s, st), q)
    requires At(s, q) == '.' && !IsDigit(At(s, q + 1))
    ensures ParseNumber(s, st) == Res(Null, Fail(st.(i := q + 1), MissingFractionDigit))
  {
    ScanIntegerPart(s, st, q);
  }

  /** An 'e' or 'E', with or without a sign, must be followed by a digit. */
  lemma ExponentRejects(s: seq<Byte>, st: PState, q: nat)
    requires st.i < q <= |s| && !st.failed
    requires At(s, q) == 'e' || At(s, q) == 'E'
    ensures var q1 := if At(s, q + 1) == '+' || At(s, q + 1) == '-' then q + 2 else q + 1;
      !IsDigit(At(s, q1)) ==> ExponentPart(s, st, q) == Res(Null, Fail(st.(i := q1), MissingExponentDigit))
    ensures var q1 := if At(s, q + 1) == '+' || At(s, q + 1) == '-' then q + 2 else q + 1;
      IsDigit(At(s, q1)) ==> !ExponentPart(s, st, q).st.failed
  {
  }

  /** A number gives an int64 exactly when no '.', 'e' or 'E' follows its
      integer part and it has at most 19 characters (20 with a '-'); the
      int64 is the value of its digits, with its sign, saturated at the
      int64 limits. Any other number that parses is a double. */
  lemma IntegerFastPath(s: seq<Byte>, st: PState, q: nat)
    requires st.i <= |s| && !st.failed && IntegerPart(s, DigitsStart(s, st), q)
    ensures var c := At(s, q);
      var short := q - st.i <= 18 + (if At(s, st.i) == '-' then 2 else 1);
      c != '.' && c != 'e' && c != 'E' && short ==>
      ParseNumber(s, st) == Res(Int(Saturate(if At(s, st.i) == '-' then -(DecimalValue(s[DigitsStart(s, st)..q]) as int)
                                             else DecimalValue(s[DigitsStart(s, st)..q]))), st.(i := q))
    ensures var c := At(s, q);
      var short := q - st.i <= 18 + (if At(s, st.i) == '-' then 2 else 1);
      !(c != '.' && c != 'e' && c != 'E' && short) && !ParseNumber(s, st).st.failed ==>
      ParseNumber(s, st).value.Double?
  {
    ScanIntegerPart(s, st, q);
  }
}

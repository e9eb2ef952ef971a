/** What the parser makes of the serialiser's output: a dumped string or
    int64 parses back to the value it was dumped from. */
module JsonRoundTrip {
  import opened JsonValues
  import opened JsonSpec
  import opened JsonDump
  import opened SeqUtil

  /* -------------------- small facts -------------------- */

  /** Dropping a prefix of a concatenation. */
  lemma DropPrefix(s: seq<Byte>, p: nat, t: seq<Byte>, rest: seq<Byte>)
    requires p <= |s| && s[p..] == t + rest
    ensures p + |t| <= |s| && s[p + |t|..] == rest
  {
    assert s[p + |t|..] == s[p..][|t|..];
  }

  /** s holds t then post from i on: t's first byte is at i. */
  lemma FrontAt(s: seq<Byte>, i: nat, t: seq<Byte>, post: seq<Byte>)
    requires i <= |s| && s[i..] == t + post && |t| > 0
    ensures i < |s| && s[i] == t[0] && s[i + 1..] == t[1..] + post
  {
    assert s[i] == s[i..][0];
    assert s[i + 1..] == s[i..][1..];
    assert t[1..] + post == (t + post)[1..];
  }

  lemma SliceOne<T>(xs: seq<T>, k: nat)
    requires k < |xs|
    ensures xs[k..k + 1] == [xs[k]]
  {
  }

  /** The four hex digits "00XY". */
  lemma HexValueLow(h1: Byte, h2: Byte)
    requires IsHex(h1) && IsHex(h2)
    ensures HexValue(['0', '0', h1, h2]) == HexDigit(h1) * 16 + HexDigit(h2)
  {
    var ds: seq<Byte> := ['0', '0', h1, h2];
    assert ds[..3] == ['0', '0', h1];
    assert ds[..3][..2] == ['0', '0'];
    assert ds[..3][..2][..1] == ['0'];
    assert ds[..3][..2][..1][..0] == [];
    assert HexValue(['0']) == 0;
    assert HexValue(['0', '0']) == 0;
    assert HexValue(['0', '0', h1]) == HexDigit(h1);
  }

  /** The hex digits "2028" and "2029". */
  lemma HexValueSeparator(ds: seq<Byte>, last: Byte)
    requires last == '8' || last == '9'
    requires ds == ['2', '0', '2', last]
    ensures HexValue(ds) == 0x2020 + HexDigit(last)
  {
    assert ds[..3] == ['2', '0', '2'];
    assert ds[..3][..2] == ['2', '0'];
    assert ds[..3][..2][..1] == ['2'];
    assert ds[..3][..2][..1][..0] == [];
    assert HexValue(['2']) == 2;
    assert HexValue(['2', '0']) == 0x20;
    assert HexValue(['2', '0', '2']) == 0x202;
  }

  /** encodeUtf8 of U+2028 and U+2029 gives back E2 80 A8 and E2 80 A9. */
  lemma EncodeSeparators()
    ensures EncodeUtf8(0x2028) == [0xE2 as char, 0x80 as char, 0xA8 as char]
    ensures EncodeUtf8(0x2029) == [0xE2 as char, 0x80 as char, 0xA9 as char]
  {
    assert 0x2028 / 0x1000 == 2 && (0x2028 / 0x40) % 0x40 == 0 && 0x2028 % 0x40 == 0x28;
    assert 0x2029 / 0x1000 == 2 && (0x2029 / 0x40) % 0x40 == 0 && 0x2029 % 0x40 == 0x29;
    assert OrByte(2, 0xE0) == 0xE2 as char;
    assert OrByte(0, 0x80) == 0x80 as char;
    assert OrByte(0x28, 0x80) == 0xA8 as char;
    assert OrByte(0x29, 0x80) == 0xA9 as char;
  }

  /** The code points parseString holds back that the serialiser's output
      can leave pending: none, an ASCII byte, or a line or paragraph
      separator. */
  predicate Pending(last: int)
  {
    last == -1 || 0 <= last < 0x80 || last == 0x2028 || last == 0x2029
  }

  /* -------------------- strings -------------------- */

  /** Where dumpJson(string) copied a byte as it is, parseString copies
      it back. */
  lemma StepRaw(value: seq<Byte>, k: nat, s: seq<Byte>, st: PState, out: seq<Byte>, last: int)
    requires k < |value| && st.i < |s| && !st.failed
    requires EscapeStep(value, k).text == [s[st.i]]
    ensures EscapeStep(value, k).next == k + 1
    ensures StringLoop(s, st, out, last) == StringLoop(s, st.(i := st.i + 1), out + EncodeUtf8(last) + [value[k]], -1)
  {
  }

  /** Where dumpJson(string) wrote a one-letter escape, parseString decodes
      the byte it stands for. */
  lemma StepLetter(value: seq<Byte>, k: nat, s: seq<Byte>, st: PState, out: seq<Byte>, last: int)
    requires k < |value| && st.i + 1 < |s| && !st.failed
    requires EscapeStep(value, k).text == s[st.i..st.i + 2]
    ensures EscapeStep(value, k).next == k + 1
    ensures StringLoop(s, st, out, last) == StringLoop(s, st.(i := st.i + 2), out + EncodeUtf8(last) + [value[k]], -1)
  {
    var p := st.i;
    assert s[p] == s[p..p + 2][0] == '\\';
    assert EscapedByte(s[p + 1]) == Some(value[k]);
    assert Escape(s, st.(i := p + 1), out, last) == EscRes(out + EncodeUtf8(last) + [value[k]], -1, st.(i := p + 2));
  }

  /** parseString's loop on a backslash whose escape decodes to the
      bytes `out'` and the pending code point `last'`. */
  lemma LoopEscape(s: seq<Byte>, st: PState, out: seq<Byte>, last: int, j: nat, out': seq<Byte>, last': int)
    requires st.i < j <= |s| && !st.failed && s[st.i] == '\\'
    requires Escape(s, st.(i := st.i + 1), out, last) == EscRes(out', last', st.(i := j))
    ensures StringLoop(s, st, out, last) == StringLoop(s, st.(i := j), out', last')
  {
  }

  /** The escape branch on 'u' and four hex digits, when no lead surrogate
      is pending. */
  lemma EscapeHex(s: seq<Byte>, st: PState, out: seq<Byte>, last: int)
    requires st.i + 4 < |s| && !st.failed && Pending(last)
    requires s[st.i] == 'u' && AllHex(s[st.i + 1..st.i + 5])
    ensures Escape(s, st, out, last) ==
      EscRes(out + EncodeUtf8(last), HexValue(s[st.i + 1..st.i + 5]), st.(i := st.i + 5))
  {
  }

  /** parseString on a \u escape with four hex digits, when no lead
      surrogate is pending: it writes out the pending code point and holds
      back the escaped one. */
  lemma StepHex(s: seq<Byte>, st: PState, out: seq<Byte>, last: int)
    requires st.i + 5 < |s| && !st.failed && Pending(last)
    requires s[st.i] == '\\' && s[st.i + 1] == 'u' && AllHex(s[st.i + 2..st.i + 6])
    ensures StringLoop(s, st, out, last) ==
      StringLoop(s, st.(i := st.i + 6), out + EncodeUtf8(last), HexValue(s[st.i + 2..st.i + 6]))
  {
    EscapeHex(s, st.(i := st.i + 1), out, last);
    LoopEscape(s, st, out, last, st.i + 6, out + EncodeUtf8(last), HexValue(s[st.i + 2..st.i + 6]));
  }

  /** A slice of a slice. */
  lemma SubSlice<T>(xs: seq<T>, i: nat, j: nat, m: nat, n: nat)
    requires i <= j <= |xs| && m <= n <= j - i
    ensures xs[i..j][m..n] == xs[i + m..i + n]
  {
    forall k | 0 <= k < n - m
      ensures xs[i..j][m..n][k] == xs[i + m..i + n][k]
    {
    }
  }

  /** dumpJson(string)'s \u00XY for a control byte: its hex digits spell
      the byte, which encodeUtf8 gives back on its own. */
  lemma ControlEscape(value: seq<Byte>, k: nat) returns (cp: int)
    requires k < |value| && |EscapeStep(value, k).text| == 6 && EscapeStep(value, k).next == k + 1
    ensures 0 <= cp < 0x20 && EncodeUtf8(cp) == value[k..k + 1]
    ensures EscapeStep(value, k).text[0] == '\\' && EscapeStep(value, k).text[1] == 'u'
    ensures AllHex(EscapeStep(value, k).text[2..6]) && HexValue(EscapeStep(value, k).text[2..6]) == cp
  {
    var ch := value[k];
    assert ch as int <= 0x1f;
    var h1 := HexDigitText(ch as int / 16);
    var h2 := HexDigitText(ch as int % 16);
    var text := EscapeStep(value, k).text;
    assert text == "\\u00" + [h1, h2];
    assert text[2..6] == ['0', '0', h1, h2];
    HexValueLow(h1, h2);
    cp := ch as int;
    SliceOne(value, k);
  }

  /** Where dumpJson(string) wrote \u00XY for a control byte, parseString
      holds back that byte's code point. */
  lemma StepControl(value: seq<Byte>, k: nat, s: seq<Byte>, st: PState, out: seq<Byte>, last: int)
    returns (cp: int)
    requires k < |value| && st.i + 5 < |s| && !st.failed && Pending(last)
    requires EscapeStep(value, k) == Step(s[st.i..st.i + 6], k + 1)
    ensures 0 <= cp < 0x20 && EncodeUtf8(cp) == value[k..k + 1]
    ensures StringLoop(s, st, out, last) == StringLoop(s, st.(i := st.i + 6), out + EncodeUtf8(last), cp)
  {
    var p := st.i;
    cp := ControlEscape(value, k);
    SubSlice(s, p, p + 6, 2, 6);
    assert s[p] == s[p..p + 6][0] && s[p + 1] == s[p..p + 6][1];
    StepHex(s, st, out, last);
  }

  /** The bytes dumpJson(string) turns into \u2028 or \u2029. */
  lemma SeparatorBytes(value: seq<Byte>, k: nat) returns (sep: Byte)
    requires k < |value| && EscapeStep(value, k).next == k + 3
    ensures k + 3 <= |value| && value[k..k + 3] == [0xE2 as char, 0x80 as char, sep]
    ensures || (sep == 0xA8 as char && EscapeStep(value, k).text == "\\u2028")
            || (sep == 0xA9 as char && EscapeStep(value, k).text == "\\u2029")
  {
    sep := At(value, k + 2);
    assert value[k] as int == 0xE2 && At(value, k + 1) as int == 0x80 && (sep as int == 0xA8 || sep as int == 0xA9);
    assert k + 2 < |value|;
    assert value[k..k + 3] == [value[k], value[k + 1], value[k + 2]];
  }

  /** dumpJson(string)'s \u2028 or \u2029: its hex digits spell the code
      point, which encodeUtf8 turns back into the three bytes. */
  lemma SeparatorEscape(value: seq<Byte>, k: nat) returns (cp: int)
    requires k < |value| && EscapeStep(value, k).next == k + 3
    ensures (cp == 0x2028 || cp == 0x2029) && k + 3 <= |value| && EncodeUtf8(cp) == value[k..k + 3]
    ensures |EscapeStep(value, k).text| == 6
    ensures EscapeStep(value, k).text[0] == '\\' && EscapeStep(value, k).text[1] == 'u'
    ensures AllHex(EscapeStep(value, k).text[2..6]) && HexValue(EscapeStep(value, k).text[2..6]) == cp
  {
    var sep := SeparatorBytes(value, k);
    EncodeSeparators();
    var d: Byte := if sep == 0xA8 as char then '8' else '9';
    var text := EscapeStep(value, k).text;
    assert text[2..6] == ['2', '0', '2', d];
    HexValueSeparator(text[2..6], d);
    cp := 0x2020 + HexDigit(d);
  }

  /** Where dumpJson(string) wrote \u2028 or \u2029 for E2 80 A8 or E2 80 A9,
      parseString holds back that code point, which encodes to those three
      bytes again. */
  lemma StepSeparator(value: seq<Byte>, k: nat, s: seq<Byte>, st: PState, out: seq<Byte>, last: int)
    returns (cp: int)
    requires k < |value| && st.i + 5 < |s| && !st.failed && Pending(last)
    requires EscapeStep(value, k) == Step(s[st.i..st.i + 6], k + 3)
    ensures (cp == 0x2028 || cp == 0x2029) && k + 3 <= |value| && EncodeUtf8(cp) == value[k..k + 3]
    ensures StringLoop(s, st, out, last) == StringLoop(s, st.(i := st.i + 6), out + EncodeUtf8(last), cp)
  {
    var p := st.i;
    cp := SeparatorEscape(value, k);
    SubSlice(s, p, p + 6, 2, 6);
    assert s[p] == s[p..p + 6][0] && s[p + 1] == s[p..p + 6][1];
    StepHex(s, st, out, last);
  }

  /** A byte decoded on its own, then the rest. */
  lemma Decoded1(flushed: seq<Byte>, value: seq<Byte>, k: nat)
    requires k < |value|
    ensures flushed + [value[k]] + EncodeUtf8(-1) + value[k + 1..] == flushed + value[k..]
  {
    assert value[k..] == [value[k]] + value[k + 1..];
  }

  /** A held-back code point that encodes to value[k..j], then the rest. */
  lemma Decoded(flushed: seq<Byte>, value: seq<Byte>, k: nat, j: nat, cp: int)
    requires k <= j <= |value| && EncodeUtf8(cp) == value[k..j]
    ensures flushed + EncodeUtf8(cp) + value[j..] == flushed + value[k..]
  {
    assert value[k..] == value[k..j] + value[j..];
  }

  /** The escape dumpJson(string) wrote for value[k] sits at p. */
  lemma StepText(value: seq<Byte>, k: nat, s: seq<Byte>, p: nat, rest: seq<Byte>)
    requires k < |value| && p <= |s| && s[p..] == EscapedFrom(value, k) + rest
    ensures var step := EscapeStep(value, k);
      && p + |step.text| <= |s| && s[p..p + |step.text|] == step.text
      && s[p + |step.text|..] == EscapedFrom(value, step.next) + rest
  {
    var step := EscapeStep(value, k);
    var tail := EscapedFrom(value, step.next);
    var n := |step.text|;
    Assoc(step.text, tail, rest);
    DropPrefix(s, p, step.text, tail + rest);
    assert s[p..p + n] == s[p..][..n];
  }

  /** dumpJson(string) writes one byte, a two-byte letter escape or a
      six-byte \u escape for each step. */
  lemma StepLength(value: seq<Byte>, k: nat)
    requires k < |value|
    ensures var n := |EscapeStep(value, k).text|; n == 1 || n == 2 || n == 6
  {
  }

  /** One step of parseString's loop over a byte written as it is. */
  lemma StepOne(value: seq<Byte>, k: nat, s: seq<Byte>, st: PState,
             out: seq<Byte>, last: int, rest: seq<Byte>)
    returns (st': PState, out': seq<Byte>, last': int)
    requires k < |value| && st.i <= |s| && !st.failed && |EscapeStep(value, k).text| == 1
    requires s[st.i..] == EscapedFrom(value, k) + rest
    ensures st' == st.(i := st'.i) && st'.i <= |s| && Pending(last')
    ensures s[st'.i..] == EscapedFrom(value, EscapeStep(value, k).next) + rest
    ensures StringLoop(s, st, out, last) == StringLoop(s, st', out', last')
    ensures out' + EncodeUtf8(last') + value[EscapeStep(value, k).next..] == out + EncodeUtf8(last) + value[k..]
  {
    StepText(value, k, s, st.i, rest);
    st' := st.(i := st.i + 1);
    SliceOne(s, st.i);
    StepRaw(value, k, s, st, out, last);
    out', last' := out + EncodeUtf8(last) + [value[k]], -1;
    Decoded1(out + EncodeUtf8(last), value, k);
  }

  /** One step of parseString's loop over a two-byte letter escape. */
  lemma StepTwo(value: seq<Byte>, k: nat, s: seq<Byte>, st: PState,
             out: seq<Byte>, last: int, rest: seq<Byte>)
    returns (st': PState, out': seq<Byte>, last': int)
    requires k < |value| && st.i <= |s| && !st.failed && |EscapeStep(value, k).text| == 2
    requires s[st.i..] == EscapedFrom(value, k) + rest
    ensures st' == st.(i := st'.i) && st'.i <= |s| && Pending(last')
    ensures s[st'.i..] == EscapedFrom(value, EscapeStep(value, k).next) + rest
    ensures StringLoop(s, st, out, last) == StringLoop(s, st', out', last')
    ensures out' + EncodeUtf8(last') + value[EscapeStep(value, k).next..] == out + EncodeUtf8(last) + value[k..]
  {
    StepText(value, k, s, st.i, rest);
    st' := st.(i := st.i + 2);
    StepLetter(value, k, s, st, out, last);
    out', last' := out + EncodeUtf8(last) + [value[k]], -1;
    Decoded1(out + EncodeUtf8(last), value, k);
  }

  /** One step of parseString's loop over a six-byte \u escape. */
  lemma StepSix(value: seq<Byte>, k: nat, s: seq<Byte>, st: PState,
                out: seq<Byte>, last: int, rest: seq<Byte>)
    returns (st': PState, out': seq<Byte>, last': int)
    requires k < |value| && st.i <= |s| && !st.failed && Pending(last)
    requires |EscapeStep(value, k).text| == 6
    requires s[st.i..] == EscapedFrom(value, k) + rest
    ensures st' == st.(i := st'.i) && st'.i <= |s| && Pending(last')
    ensures s[st'.i..] == EscapedFrom(value, EscapeStep(value, k).next) + rest
    ensures StringLoop(s, st, out, last) == StringLoop(s, st', out', last')
    ensures out' + EncodeUtf8(last') + value[EscapeStep(value, k).next..] == out + EncodeUtf8(last) + value[k..]
  {
    var step := EscapeStep(value, k);
    StepText(value, k, s, st.i, rest);
    st' := st.(i := st.i + 6);
    if step.next == k + 1 {
      last' := StepControl(value, k, s, st, out, last);
    } else {
      last' := StepSeparator(value, k, s, st, out, last);
    }
    out' := out + EncodeUtf8(last);
    Decoded(out', value, k, step.next, last');
  }

  /** parseString's loop over the escaped bytes of value[k..] followed by
      the closing quote decodes exactly value[k..], after flushing the
      pending code point, and stops just past the quote. */
  lemma {:induction false} StringLoopEscaped(value: seq<Byte>, k: nat, s: seq<Byte>, st: PState,
                                             out: seq<Byte>, last: int, rest: seq<Byte>)
    requires k <= |value| && st.i <= |s| && !st.failed && Pending(last)
    requires s[st.i..] == EscapedFrom(value, k) + rest && |rest| > 0 && rest[0] == '"'
    ensures StringLoop(s, st, out, last) ==
      StrRes(out + EncodeUtf8(last) + value[k..], st.(i := |s| - |rest| + 1))
    decreases |value| - k
  {
    if k == |value| {
      assert s[st.i] == s[st.i..][0] == '"';
    } else {
      var st', out', last';
      StepLength(value, k);
      if |EscapeStep(value, k).text| == 1 {
        st', out', last' := StepOne(value, k, s, st, out, last, rest);
      } else if |EscapeStep(value, k).text| == 2 {
        st', out', last' := StepTwo(value, k, s, st, out, last, rest);
      } else {
        st', out', last' := StepSix(value, k, s, st, out, last, rest);
      }
      StringLoopEscaped(value, EscapeStep(value, k).next, s, st', out', last', rest);
    }
  }

  /** parseString on dumpJson(string)'s output followed by anything gives
      back the string and stops just past the closing quote. */
  lemma ParseStringText(value: seq<Byte>, s: seq<Byte>, st: PState, post: seq<Byte>)
    requires st.i <= |s| && !st.failed
    requires s[st.i..] == EscapedFrom(value, 0) + ['"'] + post
    ensures ParseString(s, st) == StrRes(value, st.(i := st.i + |EscapedFrom(value, 0)| + 1))
  {
    Assoc(EscapedFrom(value, 0), ['"'], post);
    StringLoopEscaped(value, 0, s, st, [], -1, ['"'] + post);
    assert value[0..] == value;
  }

  /** Json::parse reads dumpJson(string)'s output back as that string, for
      every byte string, control bytes and invalid UTF-8 included. */
  lemma StringRoundTrip(value: seq<Byte>)
    ensures Parse(StringText(value)) == ParseResult(Str(value), None)
  {
    var s := StringText(value);
    assert s[1..] == EscapedFrom(value, 0) + ['"'] + [];
    var st := PState(1, false, None);
    ParseStringText(value, s, st, []);
    assert SkipWs(s, 0) == 0;
    assert NextToken(s, PState(0, false, None)) == Tok('"', st);
    assert ValueAt(s, 0, '"', st) == Res(Str(value), st.(i := |s|));
  }

  /* -------------------- int64 -------------------- */

  function Pow10(m: nat): (r: nat)
    ensures r >= 1
  {
    if m == 0 then 1 else 10 * Pow10(m - 1)
  }

  /** A number below 10^m has at most m digits. */
  lemma {:induction false} DigitsLength(n: nat, m: nat)
    requires 1 <= m && n < Pow10(m)
    ensures |Digits(n)| <= m
  {
    if n >= 10 {
      DigitsLength(n / 10, m - 1);
    }
  }

  /** The digits read back as the number they were written from. */
  lemma {:induction false} DigitsValue(n: nat)
    ensures DecimalValue(Digits(n)) == n
  {
    if n >= 10 {
      var d := Digits(n);
      assert d[..|d| - 1] == Digits(n / 10);
      DigitsValue(n / 10);
    }
  }

  /** Only zero is written with a leading '0', and as "0" alone. */
  lemma {:induction false} DigitsLead(n: nat)
    ensures Digits(n)[0] == '0' <==> n == 0
    ensures n == 0 ==> Digits(n) == "0"
  {
    if n >= 10 {
      DigitsLead(n / 10);
      assert Digits(n)[0] == Digits(n / 10)[0];
    }
  }

  /** SkipDigits stops at the first byte that is not a digit. */
  lemma {:induction false} SkipDigitsTo(s: seq<Byte>, k: nat, j: nat)
    requires k <= j <= |s|
    requires forall m :: k <= m < j ==> IsDigit(s[m])
    requires !IsDigit(At(s, j))
    ensures SkipDigits(s, k) == j
    decreases j - k
  {
    if k < j {
      SkipDigitsTo(s, k + 1, j);
    }
  }

  /** What may follow a number without becoming part of it. */
  predicate EndsNumber(post: seq<Byte>)
  {
    post == [] || !(IsDigit(post[0]) || post[0] == '.' || post[0] == 'e' || post[0] == 'E')
  }

  /** An int64's magnitude has at most 19 digits. */
  lemma DigitsInt64(n: nat)
    requires n <= 0x8000_0000_0000_0000
    ensures |Digits(n)| <= 19
  {
    assert Pow10(6) == 1_000_000;
    assert Pow10(12) == 1_000_000_000_000;
    assert Pow10(18) == 1_000_000_000_000_000_000;
    DigitsLength(n, 19);
  }

  /** A run of digits at p in s, followed by post. */
  lemma DigitsAt(s: seq<Byte>, p: nat, d: seq<Byte>, post: seq<Byte>)
    requires p <= |s| && s[p..] == d + post
    requires forall m :: 0 <= m < |d| ==> IsDigit(d[m])
    ensures p + |d| <= |s| && s[p..p + |d|] == d
    ensures forall m :: p <= m < p + |d| ==> IsDigit(s[m])
    ensures At(s, p + |d|) == if post == [] then JsonSpec.NUL else post[0]
  {
    assert s[p..p + |d|] == s[p..][..|d|];
    forall m | p <= m < p + |d|
      ensures IsDigit(s[m])
    {
      assert s[m] == s[p..][m - p] == d[m - p];
    }
    if post != [] {
      assert s[p + |d|] == s[p..][|d|];
    }
  }

  /** parseNumber over an optional '-' and the digits of n, which end at
      q: it scans to q and takes the tail there. */
  lemma ParseNumberScans(s: seq<Byte>, st: PState, neg: bool, n: nat, q: nat)
    requires st.i <= |s| && !st.failed
    requires At(s, st.i) == '-' <==> neg
    requires var p := if neg then st.i + 1 else st.i;
      p + |Digits(n)| == q <= |s| && s[p..q] == Digits(n) && !IsDigit(At(s, q))
    requires forall m :: (if neg then st.i + 1 else st.i) <= m < q ==> IsDigit(s[m])
    ensures ParseNumber(s, st) == NumberTail(s, st, neg, q)
  {
    var p := if neg then st.i + 1 else st.i;
    var d := Digits(n);
    DigitsLead(n);
    assert At(s, p) == d[0];
    if n == 0 {
      assert q == p + 1;
    } else {
      SkipDigitsTo(s, p + 1, q);
      assert IsDigit(d[0]) && d[0] != '0';
    }
  }

  /** parseNumber's int64 path on at most 19 digits gives back the int64
      they were written from. */
  lemma NumberTailInt(s: seq<Byte>, st: PState, x: Int64, q: nat)
    requires st.i <= |s| && !st.failed
    requires var neg := x < 0;
      var n: nat := if neg then -(x as int) else x;
      var p := if neg then st.i + 1 else st.i;
      && p + |Digits(n)| == q <= |s| && s[p..q] == Digits(n)
      && (forall m :: p <= m < q ==> IsDigit(s[m]))
    requires var c := At(s, q); c != '.' && c != 'e' && c != 'E'
    ensures NumberTail(s, st, x < 0, q) == Res(Int(x), st.(i := q))
  {
    var neg := x < 0;
    var n: nat := if neg then -(x as int) else x;
    DigitsInt64(n);
    DigitsValue(n);
    assert q - st.i <= 18 + (if neg then 2 else 1);
    var magnitude: int := DecimalValue(Digits(n));
    assert Saturate(if neg then -magnitude else magnitude) == x;
  }

  /** dumpJson(int64_t)'s output at st.i: an optional '-', then the
      magnitude's digits. */
  lemma IntTextAt(x: Int64, s: seq<Byte>, start: nat, post: seq<Byte>)
    requires start <= |s| && s[start..] == IntText(x) + post
    ensures var n: nat := if x < 0 then -(x as int) else x;
      var p := if x < 0 then start + 1 else start;
      && (At(s, start) == '-' <==> x < 0)
      && p <= |s| && s[p..] == Digits(n) + post
      && p + |Digits(n)| == start + |IntText(x)|
  {
    var n: nat := if x < 0 then -(x as int) else x;
    DigitsLead(n);
    if x < 0 {
      Assoc(['-'], Digits(n), post);
      FrontAt(s, start, ['-'], Digits(n) + post);
    } else {
      FrontAt(s, start, Digits(n), post);
    }
  }

  /** parseNumber at st.i over an int64 written as an optional '-' and
      its magnitude's digits ending at q, with no '.', 'e' or 'E' after. */
  lemma ParseIntDigits(s: seq<Byte>, st: PState, x: Int64, q: nat)
    requires st.i <= |s| && !st.failed
    requires var n: nat := if x < 0 then -(x as int) else x;
      var p := if x < 0 then st.i + 1 else st.i;
      && (At(s, st.i) == '-' <==> x < 0)
      && p + |Digits(n)| == q <= |s| && s[p..q] == Digits(n)
      && (forall m :: p <= m < q ==> IsDigit(s[m]))
    requires var c := At(s, q); !IsDigit(c) && c != '.' && c != 'e' && c != 'E'
    ensures ParseNumber(s, st) == Res(Int(x), st.(i := q))
  {
    var n: nat := if x < 0 then -(x as int) else x;
    ParseNumberScans(s, st, x < 0, n, q);
    NumberTailInt(s, st, x, q);
  }

  /** parseNumber on dumpJson(int64_t)'s output gives back the int64 and
      stops at its end. */
  lemma ParseIntText(x: Int64, s: seq<Byte>, st: PState, post: seq<Byte>)
    requires st.i <= |s| && !st.failed
    requires s[st.i..] == IntText(x) + post && EndsNumber(post)
    ensures ParseNumber(s, st) == Res(Int(x), st.(i := st.i + |IntText(x)|))
  {
    var n: nat := if x < 0 then -(x as int) else x;
    var p := if x < 0 then st.i + 1 else st.i;
    IntTextAt(x, s, st.i, post);
    DigitsAt(s, p, Digits(n), post);
    ParseIntDigits(s, st, x, p + |Digits(n)|);
  }

  /** Json::parse reads dumpJson(int64_t)'s output back as that int64,
      the most negative value included. */
  lemma IntRoundTrip(x: Int64)
    ensures Parse(IntText(x)) == ParseResult(Int(x), None)
  {
    var s := IntText(x);
    var st := PState(0, false, None);
    assert s[0..] == IntText(x) + [];
    ParseIntText(x, s, st, []);
    var n: nat := if x < 0 then -(x as int) else x;
    DigitsLead(n);
    assert s[0] == '-' || s[0] == Digits(n)[0];
    assert s[0] == '-' || IsDigit(s[0]);
    assert SkipWs(s, 0) == 0;
    assert NextToken(s, st) == Tok(s[0], st.(i := 1));
    assert ValueAt(s, 0, s[0], st.(i := 1)) == Res(Int(x), st.(i := |s|));
  }
}

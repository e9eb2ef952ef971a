/** encodeUtf8 against the UTF-8 encoding of section 3 of RFC 3629, and
    the surrogate-pair reassembly of parseString against section 2 of
    RFC 2781. */
module Utf8 {
  import opened JsonValues
  import opened JsonSpec
  import opened JsonRoundTrip

  /* -------------------- the bit operations encodeUtf8 uses -------------------- */

  /** `x | 0x80` on a value below 0x40 adds the continuation marker. */
  lemma OrContinuation(x: nat)
    requires x < 0x40
    ensures OrByte(x, 0x80) as int == 0x80 + x
  {
    assert ((x as bv8) | 0x80) as int == 0x80 + x;
  }

  /** `x | 0xC0` on a value below 0x20. */
  lemma OrLead2(x: nat)
    requires x < 0x20
    ensures OrByte(x, 0xC0) as int == 0xC0 + x
  {
    assert ((x as bv8) | 0xC0) as int == 0xC0 + x;
  }

  /** `x | 0xE0` on a value below 0x10. */
  lemma OrLead3(x: nat)
    requires x < 0x10
    ensures OrByte(x, 0xE0) as int == 0xE0 + x
  {
    assert ((x as bv8) | 0xE0) as int == 0xE0 + x;
  }

  /** `x | 0xF0` on a value below 0x08. */
  lemma OrLead4(x: nat)
    requires x < 0x08
    ensures OrByte(x, 0xF0) as int == 0xF0 + x
  {
    assert ((x as bv8) | 0xF0) as int == 0xF0 + x;
  }

  /** In 32 bits, shifting a value below 0x400 left by ten and or-ing in
      another value below 0x400 is the sum the surrogate reassembly is
      written as. */
  lemma ShiftOrIsSum(a: bv32, b: bv32)
    requires a < 0x400 && b < 0x400
    ensures (a << 10) | b == a * 0x400 + b
  {
    assert a << 10 == a * 0x400;
  }

  /* -------------------- RFC 3629 -------------------- */

  /** A continuation byte, 10xxxxxx. */
  predicate IsCont(b: Byte)
  {
    0x80 <= b as int <= 0xBF
  }

  /** The second byte section 4 of RFC 3629 allows after a lead byte:
      after E0 only A0-BF (no overlong form), after ED only 80-9F (no
      surrogate), after F0 only 90-BF (no overlong form), after F4 only
      80-8F (nothing beyond 0x10FFFF), after any other lead any
      continuation byte. */
  predicate SecondByte(lead: Byte, b: Byte)
  {
    if lead as int == 0xE0 then 0xA0 <= b as int <= 0xBF
    else if lead as int == 0xED then 0x80 <= b as int <= 0x9F
    else if lead as int == 0xF0 then 0x90 <= b as int <= 0xBF
    else if lead as int == 0xF4 then 0x80 <= b as int <= 0x8F
    else IsCont(b)
  }

  /** The number of bytes of the shortest UTF-8 form of a code point. */
  function ShortestLength(cp: nat): nat
  {
    if cp < 0x80 then 1 else if cp < 0x800 then 2 else if cp < 0x10000 then 3 else 4
  }

  /** The code point a single UTF-8 character stands for, read by the
      syntax of section 4 of RFC 3629: the lead byte gives the length and
      its free bits, each continuation byte six more bits. None when the
      bytes are not one character of that syntax. What it accepts is a
      Unicode scalar value (at most 0x10FFFF, not a surrogate) in its
      shortest form. */
  function DecodeChar(bs: seq<Byte>): (r: Option<int>)
    ensures r.Some? ==> 0 <= r.value <= 0x10FFFF && !(0xD800 <= r.value <= 0xDFFF)
    ensures r.Some? ==> |bs| == ShortestLength(r.value)
  {
    if |bs| == 1 && bs[0] as int < 0x80 then Some(bs[0] as int)
    else if |bs| == 2 && 0xC2 <= bs[0] as int <= 0xDF && IsCont(bs[1]) then
      Some((bs[0] as int - 0xC0) * 0x40 + (bs[1] as int - 0x80))
    else if |bs| == 3 && 0xE0 <= bs[0] as int <= 0xEF && SecondByte(bs[0], bs[1]) && IsCont(bs[2]) then
      Some((bs[0] as int - 0xE0) * 0x1000 + (bs[1] as int - 0x80) * 0x40 + (bs[2] as int - 0x80))
    else if |bs| == 4 && 0xF0 <= bs[0] as int <= 0xF4 && SecondByte(bs[0], bs[1]) && IsCont(bs[2]) && IsCont(bs[3]) then
      Some((bs[0] as int - 0xF0) * 0x40000 + (bs[1] as int - 0x80) * 0x1000
           + (bs[2] as int - 0x80) * 0x40 + (bs[3] as int - 0x80))
    else None
  }

  /** The number of bytes encodeUtf8 writes: none for a negative value,
      then one, two, three or four by the thresholds 0x80, 0x800 and
      0x10000. */
  lemma EncodeLength(pt: int)
    ensures pt < 0 ==> EncodeUtf8(pt) == []
    ensures 0 <= pt < 0x80 ==> |EncodeUtf8(pt)| == 1
    ensures 0x80 <= pt < 0x800 ==> |EncodeUtf8(pt)| == 2
    ensures 0x800 <= pt < 0x10000 ==> |EncodeUtf8(pt)| == 3
    ensures 0x10000 <= pt ==> |EncodeUtf8(pt)| == 4
  {
  }

  /** The two-byte form: 110xxxxx 10xxxxxx. */
  lemma EncodeDecode2(pt: int)
    requires 0x80 <= pt < 0x800
    ensures DecodeChar(EncodeUtf8(pt)) == Some(pt) && 0xC2 <= EncodeUtf8(pt)[0] as int <= 0xDF
  {
    OrLead2(pt / 0x40);
    OrContinuation(pt % 0x40);
    var e := EncodeUtf8(pt);
    assert e[0] as int == 0xC0 + pt / 0x40 && e[1] as int == 0x80 + pt % 0x40;
  }

  /** Three bytes with lead 0xE0 + a and continuations 0x80 + b and
      0x80 + c are one character when the value they carry needs three
      bytes and is not a surrogate. */
  lemma DecodeThree(e: seq<Byte>, a: nat, b: nat, c: nat)
    requires a < 0x10 && b < 0x40 && c < 0x40
    requires 0x800 <= a * 0x1000 + b * 0x40 + c && !(0xD800 <= a * 0x1000 + b * 0x40 + c <= 0xDFFF)
    requires |e| == 3 && e[0] as int == 0xE0 + a && e[1] as int == 0x80 + b && e[2] as int == 0x80 + c
    ensures DecodeChar(e) == Some(a * 0x1000 + b * 0x40 + c)
  {
  }

  /** Four bytes with lead 0xF0 + a and continuations 0x80 + b, 0x80 + c
      and 0x80 + d are one character when the value they carry lies
      beyond the basic plane and within 0x10FFFF. */
  lemma DecodeFour(e: seq<Byte>, a: nat, b: nat, c: nat, d: nat)
    requires a < 0x08 && b < 0x40 && c < 0x40 && d < 0x40
    requires 0x10000 <= a * 0x40000 + b * 0x1000 + c * 0x40 + d <= 0x10FFFF
    requires |e| == 4 && e[0] as int == 0xF0 + a && e[1] as int == 0x80 + b
    requires e[2] as int == 0x80 + c && e[3] as int == 0x80 + d
    ensures DecodeChar(e) == Some(a * 0x40000 + b * 0x1000 + c * 0x40 + d)
  {
  }

  /** The six-bit groups of a value: x is q * 0x40 + r. */
  lemma SixBits(x: nat) returns (q: nat, r: nat)
    ensures q == x / 0x40 && r == x % 0x40 && x == q * 0x40 + r && r < 0x40
  {
    q, r := x / 0x40, x % 0x40;
  }

  /** The three-byte form: 1110xxxx 10xxxxxx 10xxxxxx. */
  lemma EncodeDecode3(pt: int)
    requires 0x800 <= pt < 0x10000 && !(0xD800 <= pt <= 0xDFFF)
    ensures DecodeChar(EncodeUtf8(pt)) == Some(pt) && 0xE0 <= EncodeUtf8(pt)[0] as int <= 0xEF
  {
    var q, c := SixBits(pt);
    var a, b := SixBits(q);
    assert pt / 0x1000 == a;
    OrLead3(a);
    OrContinuation(b);
    OrContinuation(c);
    DecodeThree(EncodeUtf8(pt), a, b, c);
  }

  /** The four-byte form: 11110xxx and three continuation bytes. */
  lemma EncodeDecode4(pt: int)
    requires 0x10000 <= pt <= 0x10FFFF
    ensures DecodeChar(EncodeUtf8(pt)) == Some(pt) && 0xF0 <= EncodeUtf8(pt)[0] as int <= 0xF4
  {
    var q1, d := SixBits(pt);
    var q2, c := SixBits(q1);
    var a, b := SixBits(q2);
    assert pt / 0x1000 == q2 && pt / 0x40000 == a;
    OrLead4(a);
    OrContinuation(b);
    OrContinuation(c);
    OrContinuation(d);
    DecodeFour(EncodeUtf8(pt), a, b, c, d);
  }

  /** Reading back what encodeUtf8 writes for a Unicode scalar value
      (up to 0x10FFFF, not a surrogate) gives that value: the encoder
      writes one RFC 3629 character, in its shortest form, so the lead
      byte is never C0, C1 or above F4. LoneSurrogate says what it
      writes for a surrogate. */
  lemma EncodeDecode(pt: int)
    requires 0 <= pt <= 0x10FFFF && !(0xD800 <= pt <= 0xDFFF)
    ensures DecodeChar(EncodeUtf8(pt)) == Some(pt)
    ensures |EncodeUtf8(pt)| > 1 ==> 0xC2 <= EncodeUtf8(pt)[0] as int <= 0xF4
  {
    if pt < 0x80 {
    } else if pt < 0x800 {
      EncodeDecode2(pt);
    } else if pt < 0x10000 {
      EncodeDecode3(pt);
    } else {
      EncodeDecode4(pt);
    }
  }

  /** For a surrogate, encodeUtf8 writes three bytes with lead ED and a
      second byte A0-BF: no RFC 3629 character reads as them. */
  lemma SurrogateBytes(pt: int)
    requires 0xD800 <= pt <= 0xDFFF
    ensures |EncodeUtf8(pt)| == 3 && EncodeUtf8(pt)[0] as int == 0xED
    ensures 0xA0 <= EncodeUtf8(pt)[1] as int <= 0xBF
    ensures DecodeChar(EncodeUtf8(pt)) == None
  {
    var q, c := SixBits(pt);
    var a, b := SixBits(q);
    assert pt / 0x1000 == a == 0xD && 0x20 <= b;
    OrLead3(a);
    OrContinuation(b);
  }

  /** A \u escape of a surrogate that no other half completes (here, the
      only escape before the closing quote) leaves parseString with the
      three bytes encodeUtf8 writes for the surrogate itself, with no
      error: bytes that are not UTF-8 by RFC 3629. */
  lemma LoneSurrogate(s: seq<Byte>, st: PState)
    requires st.i + 6 < |s| && !st.failed
    requires s[st.i] == '\\' && s[st.i + 1] == 'u' && AllHex(s[st.i + 2..st.i + 6])
    requires s[st.i + 6] == '"'
    requires 0xD800 <= HexValue(s[st.i + 2..st.i + 6]) <= 0xDFFF
    ensures ParseString(s, st) == StrRes(EncodeUtf8(HexValue(s[st.i + 2..st.i + 6])), st.(i := st.i + 7))
    ensures DecodeChar(ParseString(s, st).value) == None
  {
    var cp := HexValue(s[st.i + 2..st.i + 6]);
    assert StringLoop(s, st, [], -1) == StringLoop(s, st.(i := st.i + 6), [], cp) by {
      assert [] + EncodeUtf8(-1) == [];
      StepHex(s, st, [], -1);
    }
    assert [] + EncodeUtf8(cp) == EncodeUtf8(cp);
    SurrogateBytes(cp);
  }

  /* -------------------- RFC 2781 -------------------- */

  /** The surrogate pair section 2.1 of RFC 2781 writes for a code point
      beyond the basic plane: the high ten bits of cp - 0x10000 in the
      lead, the low ten in the trail. */
  function SurrogatePair(cp: int): (r: (int, int))
    requires 0x10000 <= cp <= 0x10FFFF
    ensures 0xD800 <= r.0 <= 0xDBFF && 0xDC00 <= r.1 <= 0xDFFF
  {
    (0xD800 + (cp - 0x10000) / 0x400, 0xDC00 + (cp - 0x10000) % 0x400)
  }

  /** parseString's reassembly undoes the RFC 2781 split, and every pair
      it reassembles is a split of the code point it gives: the two are
      inverse, and the result lies beyond the basic plane and within
      0x10FFFF. */
  lemma CombineSplits(lead: int, trail: int, cp: int)
    requires 0xD800 <= lead <= 0xDBFF && 0xDC00 <= trail <= 0xDFFF
    requires 0x10000 <= cp <= 0x10FFFF
    ensures 0x10000 <= CombineSurrogates(lead, trail) <= 0x10FFFF
    ensures CombineSurrogates(SurrogatePair(cp).0, SurrogatePair(cp).1) == cp
    ensures SurrogatePair(CombineSurrogates(lead, trail)) == (lead, trail)
  {
    var u := CombineSurrogates(lead, trail) - 0x10000;
    assert u == (lead - 0xD800) * 0x400 + (trail - 0xDC00);
    assert u / 0x400 == lead - 0xD800 && u % 0x400 == trail - 0xDC00;
  }

  /** The escape branch on 'u' and four hex digits that are a trail
      surrogate, while a lead surrogate is pending. */
  lemma EscapeTrail(s: seq<Byte>, st: PState, out: seq<Byte>, last: int)
    requires st.i + 4 < |s| && !st.failed && 0xD800 <= last <= 0xDBFF
    requires s[st.i] == 'u' && AllHex(s[st.i + 1..st.i + 5])
    requires 0xDC00 <= HexValue(s[st.i + 1..st.i + 5]) <= 0xDFFF
    ensures Escape(s, st, out, last) ==
      EscRes(out + EncodeUtf8(CombineSurrogates(last, HexValue(s[st.i + 1..st.i + 5]))), -1, st.(i := st.i + 5))
  {
  }

  /** The escape branch on 'u' and four hex digits that are not a trail
      surrogate: whatever is pending is written out and the escaped code
      point is held back. */
  lemma EscapeNotTrail(s: seq<Byte>, st: PState, out: seq<Byte>, last: int)
    requires st.i + 4 < |s| && !st.failed
    requires s[st.i] == 'u' && AllHex(s[st.i + 1..st.i + 5])
    requires !(0xDC00 <= HexValue(s[st.i + 1..st.i + 5]) <= 0xDFFF)
    ensures Escape(s, st, out, last) ==
      EscRes(out + EncodeUtf8(last), HexValue(s[st.i + 1..st.i + 5]), st.(i := st.i + 5))
  {
  }

  /** parseString's loop, anywhere in a string, on a \u escape of a lead
      surrogate followed by a \u escape of a trail surrogate: whatever
      code point was pending is written out, then the UTF-8 encoding of
      the single code point the pair stands for, and nothing is left
      pending, whatever came before and whatever follows. */
  lemma SurrogatePairStep(s: seq<Byte>, st: PState, out: seq<Byte>, last: int)
    requires st.i + 12 <= |s| && !st.failed
    requires s[st.i] == '\\' && s[st.i + 1] == 'u' && AllHex(s[st.i + 2..st.i + 6])
    requires s[st.i + 6] == '\\' && s[st.i + 7] == 'u' && AllHex(s[st.i + 8..st.i + 12])
    requires 0xD800 <= HexValue(s[st.i + 2..st.i + 6]) <= 0xDBFF
    requires 0xDC00 <= HexValue(s[st.i + 8..st.i + 12]) <= 0xDFFF
    ensures StringLoop(s, st, out, last) == StringLoop(s, st.(i := st.i + 12),
      out + EncodeUtf8(last) + EncodeUtf8(CombineSurrogates(HexValue(s[st.i + 2..st.i + 6]), HexValue(s[st.i + 8..st.i + 12]))), -1)
  {
    var lead := HexValue(s[st.i + 2..st.i + 6]);
    var trail := HexValue(s[st.i + 8..st.i + 12]);
    var out1 := out + EncodeUtf8(last);
    var st1 := st.(i := st.i + 6);
    var st2 := st.(i := st.i + 12);
    assert StringLoop(s, st, out, last) == StringLoop(s, st1, out1, lead) by {
      EscapeNotTrail(s, st.(i := st.i + 1), out, last);
      assert st.(i := st.i + 1).(i := st.i + 1 + 5) == st1;
      LoopEscape(s, st, out, last, st1.i, out1, lead);
    }
    assert StringLoop(s, st1, out1, lead) == StringLoop(s, st2, out1 + EncodeUtf8(CombineSurrogates(lead, trail)), -1) by {
      EscapeTrail(s, st1.(i := st1.i + 1), out1, lead);
      assert st1.(i := st1.i + 1).(i := st1.i + 1 + 5) == st1.(i := st2.i);
      LoopEscape(s, st1, out1, lead, st2.i, out1 + EncodeUtf8(CombineSurrogates(lead, trail)), -1);
    }
  }

  /** parseString on a string whose content is a \u escape of a lead
      surrogate followed by a \u escape of a trail surrogate: it gives
      the UTF-8 encoding of the single code point the pair stands for. */
  lemma ParseSurrogatePair(s: seq<Byte>, st: PState)
    requires st.i + 12 < |s| && !st.failed
    requires s[st.i] == '\\' && s[st.i + 1] == 'u' && AllHex(s[st.i + 2..st.i + 6])
    requires s[st.i + 6] == '\\' && s[st.i + 7] == 'u' && AllHex(s[st.i + 8..st.i + 12])
    requires s[st.i + 12] == '"'
    requires 0xD800 <= HexValue(s[st.i + 2..st.i + 6]) <= 0xDBFF
    requires 0xDC00 <= HexValue(s[st.i + 8..st.i + 12]) <= 0xDFFF
    ensures ParseString(s, st) == StrRes(
      EncodeUtf8(CombineSurrogates(HexValue(s[st.i + 2..st.i + 6]), HexValue(s[st.i + 8..st.i + 12]))),
      st.(i := st.i + 13))
  {
    var out := EncodeUtf8(CombineSurrogates(HexValue(s[st.i + 2..st.i + 6]), HexValue(s[st.i + 8..st.i + 12])));
    var st2 := st.(i := st.i + 12);
    SurrogatePairStep(s, st, [], -1);
    assert [] + EncodeUtf8(-1) + out == out;
    assert StringLoop(s, st2, out, -1) == StrRes(out, st.(i := st.i + 13)) by {
      assert out + EncodeUtf8(-1) == out;
      assert st2.(i := st2.i + 1) == st.(i := st.i + 13);
    }
  }
}

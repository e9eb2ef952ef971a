/** How Json::parse and Json::parseMulti end: the nesting limit, literal
    mismatches, trailing bytes, and parseMulti on a run of dumped values. */
module JsonFailures {
  import opened JsonValues
  import opened JsonSpec
  import opened JsonDump
  import opened JsonRoundTrip
  import opened JsonTreeRoundTrip
  import opened SeqUtil

  /* -------------------- the nesting limit -------------------- */

  /** k + 1 arrays, each the only item of the one around it. */
  function Nest(k: nat): (r: Json)
    ensures r.Arr? && NoDouble(r)
  {
    if k == 0 then Arr([]) else Arr([Nest(k - 1)])
  }

  /** Nest(k) holds no double, is well formed and has depth k. */
  lemma {:induction false} NestDumpable(k: nat, room: int)
    requires k <= room
    ensures Dumpable(Nest(k), room)
  {
    if k > 0 {
      NestDumpable(k - 1, room - 1);
      var items := [Nest(k - 1)];
      assert items[0] == Nest(k - 1);
      assert NestsWithin(Nest(k), room);
    }
  }

  /** Json::dump writes Nest(k) as k + 1 '[' then k + 1 ']'. */
  lemma {:induction false} NestText(k: nat)
    ensures DumpText(Nest(k)) == Copies('[', k + 1) + Copies(']', k + 1)
  {
    NestDumpable(k, k);
    if k > 0 {
      NestText(k - 1);
      var inner := DumpText(Nest(k - 1));
      assert ItemsText([Nest(k - 1)]) == inner;
      assert Copies('[', k + 1) == ['['] + Copies('[', k);
      assert Copies(']', k + 1) + [] == Copies(']', k) + [']'] by {
        CopiesSnoc(']', k);
      }
    }
  }

  lemma {:induction false} CopiesSnoc(c: Byte, n: nat)
    ensures Copies(c, n + 1) == Copies(c, n) + [c]
  {
    if n > 0 {
      CopiesSnoc(c, n - 1);
    }
  }

  /** parseJson(depth) on MaxDepth + 2 - depth '[' in a row fails with the
      nesting message: the innermost one is read at depth MaxDepth + 1. */
  lemma {:induction false} OpensFail(s: seq<Byte>, depth: nat, st: PState)
    requires depth <= MaxDepth + 1 && !st.failed && st.err.None?
    requires st.i + (MaxDepth + 2 - depth) <= |s|
    requires forall k :: st.i <= k < st.i + (MaxDepth + 2 - depth) ==> s[k] == '['
    ensures ParseValue(s, depth, st).st.failed
    ensures ParseValue(s, depth, st).st.err == Some(MaxDepthExceeded)
    decreases MaxDepth + 1 - depth
  {
    if depth <= MaxDepth {
      assert s[st.i] == '[' && s[st.i + 1] == '[';
      TokenAt(s, st);
      var st1 := st.(i := st.i + 1);
      TokenAt(s, st1);
      assert ArrayValue(s, depth, st1) == ArrayLoop(s, depth, st1.(i := st1.i + 1), []);
      OpensFail(s, depth + 1, st1);
    }
  }

  /** The nesting limit of 200: 201 arrays inside each other are read
      back, 202 are refused with "exceeded maximum nesting depth". */
  lemma DepthLimit()
    ensures Parse(DumpText(Nest(MaxDepth))) == ParseResult(Nest(MaxDepth), None)
    ensures Parse(DumpText(Nest(MaxDepth + 1))) == ParseResult(Null, Some(MaxDepthExceeded))
  {
    NestDumpable(MaxDepth, MaxDepth);
    DumpThenParse(Nest(MaxDepth));
    NestText(MaxDepth + 1);
    var s := DumpText(Nest(MaxDepth + 1));
    OpensFail(s, 0, PState(0, false, None));
  }

  /* -------------------- literals -------------------- */

  /** The three literals with the values they stand for. */
  predicate IsLiteral(lit: seq<Byte>, v: Json)
  {
    (lit == "true" && v == Bool(true)) || (lit == "false" && v == Bool(false)) || (lit == "null" && v == Null)
  }

  /** A text whose first byte starts a literal that does not follow in
      full is refused, and the message names the expected literal and the
      bytes found in its place. */
  lemma LiteralMismatch(s: seq<Byte>, lit: seq<Byte>, v: Json)
    requires IsLiteral(lit, v) && |s| > 0 && s[0] == lit[0]
    requires !(|lit| <= |s| && s[..|lit|] == lit)
    ensures Parse(s) == ParseResult(Null, Some(ExpectedLiteral(lit, s[..if |lit| <= |s| then |lit| else |s|])))
  {
    var st := PState(0, false, None);
    TokenAt(s, st);
    var r := ValueAt(s, 0, s[0], st.(i := 1));
    assert r == Expect(s, st.(i := 1), lit, v);
    assert s[0..if |lit| <= |s| then |lit| else |s|] == s[..if |lit| <= |s| then |lit| else |s|];
  }

  /* -------------------- what follows the value -------------------- */

  predicate AllWs(ws: seq<Byte>)
  {
    forall k :: 0 <= k < |ws| ==> IsWs(ws[k])
  }

  /** consumeWhitespace steps over a run of whitespace. */
  lemma {:induction false} SkipRun(s: seq<Byte>, i: nat, n: nat)
    requires i + n <= |s| && forall k :: i <= k < i + n ==> IsWs(s[k])
    ensures SkipWs(s, i) == SkipWs(s, i + n)
    decreases n
  {
    if n > 0 {
      SkipRun(s, i + 1, n - 1);
    }
  }

  /** The bytes after the value are whitespace, then c: with whitespace
      alone (c absent) the value is read back, and a byte c that is not
      whitespace makes parse fail with "unexpected trailing". */
  lemma DumpThenTrailing(v: Json, ws: seq<Byte>, rest: seq<Byte>)
    requires Dumpable(v, MaxDepth) && AllWs(ws)
    requires rest != [] ==> !IsWs(rest[0]) && (ws != [] || EndsNumber(rest))
    ensures rest == [] ==> Parse(DumpText(v) + ws + rest) == ParseResult(v, None)
    ensures rest != [] ==> Parse(DumpText(v) + ws + rest) == ParseResult(Null, Some(UnexpectedTrailing(rest[0])))
  {
    var t := DumpText(v);
    var s := t + ws + rest;
    assert s[0..] == t + (ws + rest);
    assert EndsNumber(ws + rest) by {
      if ws != [] {
        assert (ws + rest)[0] == ws[0];
      } else {
        assert ws + rest == rest;
      }
    }
    ParseDumped(v, 0, s, PState(0, false, None), ws + rest);
    SkipRun(s, |t|, |ws|);
    if rest == [] {
      assert SkipWs(s, |s|) == |s|;
    } else {
      assert s[|t| + |ws|] == rest[0];
      assert SkipWs(s, |t| + |ws|) == |t| + |ws|;
    }
  }

  /* -------------------- parseMulti -------------------- */

  /** Every value can be dumped. */
  ghost predicate AllDumpable(vs: seq<Json>)
  {
    forall q :: 0 <= q < |vs| ==> Dumpable(vs[q], MaxDepth)
  }

  /** No value holds a double. */
  ghost predicate AllPlain(vs: seq<Json>)
  {
    forall q :: 0 <= q < |vs| ==> NoDouble(vs[q])
  }

  /** The values from index k on, written one after another, each followed
      by a newline. */
  function MultiText(vs: seq<Json>, k: nat): seq<Byte>
    requires AllPlain(vs)
    decreases |vs| - k
  {
    if k >= |vs| then [] else DumpText(vs[k]) + "\n" + MultiText(vs, k + 1)
  }

  /** Past a value and its newline, consumeWhitespace stops at the next
      value or at the end. */
  lemma NewlineThenNext(vs: seq<Json>, k: nat, s: seq<Byte>, e: nat)
    requires AllPlain(vs)
    requires e <= |s| && s[e..] == "\n" + MultiText(vs, k)
    ensures SkipWs(s, e) == e + 1
  {
    FrontAt(s, e, "\n", MultiText(vs, k));
    if k < |vs| {
      DumpTextFirst(vs[k]);
      FrontAt(s, e + 1, DumpText(vs[k]), "\n" + MultiText(vs, k + 1));
    }
  }

  /** One turn of parseMulti's loop: a value parsed without failure is
      pushed and the loop goes on after the whitespace that follows it. */
  lemma MultiStep(s: seq<Byte>, p: nat, e: nat, j: nat, v: Json, values: seq<Json>, pushed: seq<Json>)
    requires p < |s| && ParseValue(s, 0, PState(p, false, None)) == Res(v, PState(e, false, None))
    requires SkipWs(s, e) == j && pushed == values + [v]
    ensures j <= |s|
    ensures MultiLoop(s, PState(p, false, None), p, values) == MultiLoop(s, PState(j, false, None), j, pushed)
  {
  }

  /** The text from the k-th value on is that value's dump followed by a
      newline and the rest. */
  lemma MultiTextSplit(vs: seq<Json>, k: nat)
    requires AllPlain(vs) && k < |vs|
    ensures MultiText(vs, k) == DumpText(vs[k]) + ("\n" + MultiText(vs, k + 1))
  {
    assert MultiText(vs, k) == DumpText(vs[k]) + "\n" + MultiText(vs, k + 1);
  }

  /** parseJson reads the k-th value back and stops at its newline. */
  lemma MultiParsed(vs: seq<Json>, k: nat, s: seq<Byte>, p: nat) returns (e: nat)
    requires AllPlain(vs) && k < |vs| && Dumpable(vs[k], MaxDepth)
    requires p <= |s| && s[p..] == MultiText(vs, k)
    ensures p < e <= |s| && s[e..] == "\n" + MultiText(vs, k + 1)
    ensures ParseValue(s, 0, PState(p, false, None)) == Res(vs[k], PState(e, false, None))
  {
    var t := DumpText(vs[k]);
    var post := "\n" + MultiText(vs, k + 1);
    MultiTextSplit(vs, k);
    assert post[0] == '\n';
    ParseDumped(vs[k], 0, s, PState(p, false, None), post);
    DropPrefix(s, p, t, post);
    DumpTextFirst(vs[k]);
    e := |s| - |post|;
  }

  /** The k-th value and its newline take parseMulti's loop to the start
      of the rest of the text, having pushed that value. */
  lemma MultiTurn(vs: seq<Json>, k: nat, s: seq<Byte>, p: nat) returns (q: nat)
    requires AllPlain(vs) && k < |vs| && Dumpable(vs[k], MaxDepth)
    requires p <= |s| && s[p..] == MultiText(vs, k)
    ensures p < q <= |s| && s[q..] == MultiText(vs, k + 1)
    ensures MultiLoop(s, PState(p, false, None), p, vs[..k])
      == MultiLoop(s, PState(q, false, None), q, vs[..k + 1])
  {
    var e := MultiParsed(vs, k, s, p);
    NewlineThenNext(vs, k + 1, s, e);
    DropPrefix(s, e, "\n", MultiText(vs, k + 1));
    TakeSnoc(vs, k);
    q := e + 1;
    MultiStep(s, p, e, q, vs[k], vs[..k], vs[..k + 1]);
  }

  /** parseMulti's loop from the k-th value of such a text. */
  lemma {:induction false} MultiFrom(vs: seq<Json>, k: nat, s: seq<Byte>, p: nat)
    requires AllPlain(vs) && AllDumpable(vs)
    requires k <= |vs| && p <= |s| && s[p..] == MultiText(vs, k)
    ensures MultiLoop(s, PState(p, false, None), p, vs[..k]) == MultiResult(vs, |s|, None)
    decreases |vs| - k
  {
    if k == |vs| {
      assert vs[..k] == vs;
    } else {
      var q := MultiTurn(vs, k, s, p);
      MultiFrom(vs, k + 1, s, q);
    }
  }

  /** parseMulti on newline-separated dumps of values reads back every
      value, stops at the end and reports no error. */
  lemma DumpThenParseMulti(vs: seq<Json>)
    requires AllDumpable(vs)
    ensures AllPlain(vs)
    ensures ParseMulti(MultiText(vs, 0)) == MultiResult(vs, |MultiText(vs, 0)|, None)
  {
    var s := MultiText(vs, 0);
    assert vs[..0] == [] && s[0..] == s;
    MultiFrom(vs, 0, s, 0);
  }
}

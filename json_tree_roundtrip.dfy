/** Json::parse(json.dump()) == json: the parser reads the serialiser's
    output back as the value it was written from, for every value without
    doubles whose objects are std::maps (keys in order) and which nests no
    deeper than max_depth. */
module JsonTreeRoundTrip {
  import opened JsonValues
  import opened JsonSpec
  import opened JsonDump
  import opened JsonRoundTrip
  import opened SeqUtil

  /* -------------------- the values that come back -------------------- */

  /** parseJson(depth) accepts the value's nesting when it starts with
      `room` levels left below max_depth: every array or object item sits
      one level deeper. */
  ghost predicate NestsWithin(v: Json, room: int)
  {
    room >= 0 &&
    match v
    case Arr(items) => forall k {:trigger NestsWithin(items[k], room - 1)} :: 0 <= k < |items| ==> NestsWithin(items[k], room - 1)
    case Obj(ms) => forall k {:trigger NestsWithin(ms[k].value, room - 1)} :: 0 <= k < |ms| ==> NestsWithin(ms[k].value, room - 1)
    case _ => true
  }

  /** A value the serialiser can write and the parser gives back. */
  ghost predicate Dumpable(v: Json, room: int)
  {
    NoDouble(v) && WellFormed(v) && NestsWithin(v, room)
  }

  /* -------------------- the serialiser's text, read from the front -------------------- */

  /** ", item" for each item from index k on. */
  function ItemsRest(items: seq<Json>, k: nat): seq<Byte>
    requires forall p {:trigger NoDouble(items[p])} :: 0 <= p < |items| ==> NoDouble(items[p])
    decreases |items| - k
  {
    if k >= |items| then [] else SEPARATOR + DumpText(items[k]) + ItemsRest(items, k + 1)
  }

  /** ", entry" for each entry from index k on. */
  function MembersRest(ms: seq<Member>, k: nat): seq<Byte>
    requires forall p {:trigger NoDouble(ms[p].value)} :: 0 <= p < |ms| ==> NoDouble(ms[p].value)
    decreases |ms| - k
  {
    if k >= |ms| then [] else SEPARATOR + EntryText(ms[k]) + MembersRest(ms, k + 1)
  }

  lemma {:induction false} ItemsSplitAt(items: seq<Json>, j: nat)
    requires 1 <= j <= |items|
    requires forall p {:trigger NoDouble(items[p])} :: 0 <= p < |items| ==> NoDouble(items[p])
    ensures ItemsText(items[..j]) + ItemsRest(items, j) == DumpText(items[0]) + ItemsRest(items, 1)
  {
    if j == 1 {
      assert items[..1][..0] == [];
    } else {
      ItemsSplitAt(items, j - 1);
      assert items[..j][..j - 1] == items[..j - 1];
      var a := ItemsText(items[..j - 1]);
      var t := DumpText(items[j - 1]);
      assert ItemsText(items[..j]) == a + SEPARATOR + t;
      assert ItemsRest(items, j - 1) == SEPARATOR + t + ItemsRest(items, j);
      Assoc(a + SEPARATOR, t, ItemsRest(items, j));
      Assoc(a, SEPARATOR, t + ItemsRest(items, j));
      Assoc(SEPARATOR, t, ItemsRest(items, j));
    }
  }

  /** dumpJson(array)'s items, read from the front: the first item, then
      ", item" for each of the others. */
  lemma ItemsSplit(items: seq<Json>)
    requires |items| > 0
    requires forall p {:trigger NoDouble(items[p])} :: 0 <= p < |items| ==> NoDouble(items[p])
    ensures ItemsText(items) == DumpText(items[0]) + ItemsRest(items, 1)
  {
    ItemsSplitAt(items, |items|);
    assert items[..|items|] == items;
  }

  lemma {:induction false} MembersSplitAt(ms: seq<Member>, j: nat)
    requires 1 <= j <= |ms|
    requires forall p {:trigger NoDouble(ms[p].value)} :: 0 <= p < |ms| ==> NoDouble(ms[p].value)
    ensures MembersText(ms[..j]) + MembersRest(ms, j) == EntryText(ms[0]) + MembersRest(ms, 1)
  {
    if j == 1 {
      assert ms[..1][..0] == [];
    } else {
      MembersSplitAt(ms, j - 1);
      assert ms[..j][..j - 1] == ms[..j - 1];
      var a := MembersText(ms[..j - 1]);
      var t := EntryText(ms[j - 1]);
      assert MembersText(ms[..j]) == a + SEPARATOR + t;
      assert MembersRest(ms, j - 1) == SEPARATOR + t + MembersRest(ms, j);
      Assoc(a + SEPARATOR, t, MembersRest(ms, j));
      Assoc(a, SEPARATOR, t + MembersRest(ms, j));
      Assoc(SEPARATOR, t, MembersRest(ms, j));
    }
  }

  /** dumpJson(object)'s entries, read from the front. */
  lemma MembersSplit(ms: seq<Member>)
    requires |ms| > 0
    requires forall p {:trigger NoDouble(ms[p].value)} :: 0 <= p < |ms| ==> NoDouble(ms[p].value)
    ensures MembersText(ms) == EntryText(ms[0]) + MembersRest(ms, 1)
  {
    MembersSplitAt(ms, |ms|);
    assert ms[..|ms|] == ms;
  }

  /** The first byte Json::dump writes: never whitespace, never ']'. */
  lemma DumpTextFirst(v: Json)
    requires NoDouble(v)
    ensures |DumpText(v)| > 0 && !IsWs(DumpText(v)[0]) && DumpText(v)[0] != ']'
  {
    if v.Int? {
      DigitsLead(if v.i < 0 then -(v.i as int) else v.i);
    }
  }

  /** std::map's entries in key order, each added by `data[key] = value`
      after the ones before it. */
  lemma {:induction false} InsertLast(ms: seq<Member>, m: Member)
    requires forall p :: 0 <= p < |ms| ==> KeyLess(ms[p].key, m.key)
    ensures Insert(ms, m.key, m.value) == ms + [m]
  {
    if ms != [] {
      KeyLessIrreflexive(m.key);
      KeyLessAsymmetric(ms[0].key, m.key);
      InsertLast(ms[1..], m);
      assert ms == [ms[0]] + ms[1..];
    }
  }

  lemma TakeSnoc<T>(xs: seq<T>, k: nat)
    requires k < |xs|
    ensures xs[..k] + [xs[k]] == xs[..k + 1]
  {
  }

  lemma TakeAll<T>(xs: seq<T>)
    ensures xs[..|xs|] == xs
  {
  }

  /* -------------------- reading text at a position -------------------- */

  /** s holds t then post from i on: t's first two bytes are at i. */
  lemma PairAt(s: seq<Byte>, i: nat, t: seq<Byte>, post: seq<Byte>)
    requires i <= |s| && s[i..] == t + post && |t| >= 2
    ensures i + 2 <= |s| && s[i] == t[0] && s[i + 1] == t[1] && s[i + 2..] == t[2..] + post
  {
    FrontAt(s, i, t, post);
    FrontAt(s, i + 1, t[1..], post);
    assert t[1..][1..] == t[2..];
  }

  /** getNextToken on a byte that is not whitespace. */
  lemma TokenAt(s: seq<Byte>, st: PState)
    requires st.i < |s| && !st.failed && !IsWs(s[st.i])
    ensures NextToken(s, st) == Tok(s[st.i], st.(i := st.i + 1))
  {
  }

  /** getNextToken on a space and then a byte that is not whitespace. */
  lemma TokenAfterSpace(s: seq<Byte>, st: PState)
    requires st.i + 1 < |s| && !st.failed && s[st.i] == ' ' && !IsWs(s[st.i + 1])
    ensures NextToken(s, st) == Tok(s[st.i + 1], st.(i := st.i + 2))
  {
    assert SkipWs(s, st.i + 1) == st.i + 1;
  }

  /** parseJson skips a space before the value. */
  lemma ParseValueAfterSpace(s: seq<Byte>, depth: nat, st: PState)
    requires st.i < |s| && s[st.i] == ' ' && depth <= MaxDepth && !st.failed
    ensures ParseValue(s, depth, st) == ParseValue(s, depth, st.(i := st.i + 1))
  {
    assert SkipWs(s, st.i) == SkipWs(s, st.i + 1);
  }

  /** s holds the literal lit from p on. */
  lemma LiteralAt(s: seq<Byte>, p: nat, lit: seq<Byte>, post: seq<Byte>)
    requires p <= |s| && s[p..] == lit + post
    ensures p + |lit| <= |s| && s[p..p + |lit|] == lit
  {
    assert s[p..p + |lit|] == s[p..][..|lit|];
  }

  /* -------------------- the round trip, value by value -------------------- */

  /** parseJson(depth) on Json::dump's output followed by post reads the
      value back and stops at post. */
  lemma {:induction false} ParseDumped(v: Json, depth: nat, s: seq<Byte>, st: PState, post: seq<Byte>)
    requires Dumpable(v, MaxDepth - depth)
    requires st.i <= |s| && !st.failed && s[st.i..] == DumpText(v) + post && EndsNumber(post)
    ensures ParseValue(s, depth, st) == Res(v, st.(i := |s| - |post|))
    decreases v, 2, 0, 0
  {
    DumpTextFirst(v);
    FrontAt(s, st.i, DumpText(v), post);
    TokenAt(s, st);
    ValueAtDumped(v, depth, s, st.(i := st.i + 1), post);
  }

  /** parseJson(depth) once it has read the first byte of Json::dump's
      output. */
  lemma {:induction false} ValueAtDumped(v: Json, depth: nat, s: seq<Byte>, st: PState, post: seq<Byte>)
    requires Dumpable(v, MaxDepth - depth)
    requires 1 <= st.i <= |s| && !st.failed && s[st.i - 1..] == DumpText(v) + post && EndsNumber(post)
    ensures ValueAt(s, depth, s[st.i - 1], st) == Res(v, st.(i := |s| - |post|))
    decreases v, 1, 0, 0
  {
    match v
    case Null => LiteralDumped(v, depth, s, st, post);
    case Bool(_) => LiteralDumped(v, depth, s, st, post);
    case Int(x) => IntDumped(x, depth, s, st, post);
    case Str(value) => StrDumped(value, depth, s, st, post);
    case Arr(items) => ArrDumped(items, depth, s, st, post);
    case Obj(ms) => ObjDumped(ms, depth, s, st, post);
  }

  /** "null", "true" and "false" read back. */
  lemma LiteralDumped(v: Json, depth: nat, s: seq<Byte>, st: PState, post: seq<Byte>)
    requires v.Null? || v.Bool?
    requires 1 <= st.i <= |s| && !st.failed && depth <= MaxDepth && s[st.i - 1..] == DumpText(v) + post
    ensures ValueAt(s, depth, s[st.i - 1], st) == Res(v, st.(i := |s| - |post|))
  {
    LiteralAt(s, st.i - 1, DumpText(v), post);
  }

  /** dumpJson(int64_t)'s digits read back. */
  lemma IntDumped(x: Int64, depth: nat, s: seq<Byte>, st: PState, post: seq<Byte>)
    requires 1 <= st.i <= |s| && !st.failed && depth <= MaxDepth && s[st.i - 1..] == IntText(x) + post && EndsNumber(post)
    ensures ValueAt(s, depth, s[st.i - 1], st) == Res(Int(x), st.(i := |s| - |post|))
  {
    var p := st.i - 1;
    DigitsLead(if x < 0 then -(x as int) else x);
    assert s[p] == s[p..][0] == IntText(x)[0];
    ParseIntText(x, s, st.(i := p), post);
  }

  /** dumpJson(string)'s output read back. */
  lemma StrDumped(value: seq<Byte>, depth: nat, s: seq<Byte>, st: PState, post: seq<Byte>)
    requires 1 <= st.i <= |s| && !st.failed && depth <= MaxDepth && s[st.i - 1..] == StringText(value) + post
    ensures ValueAt(s, depth, s[st.i - 1], st) == Res(Str(value), st.(i := |s| - |post|))
  {
    var text := StringText(value);
    FrontAt(s, st.i - 1, text, post);
    assert text[1..] == EscapedFrom(value, 0) + ['"'];
    ParseStringText(value, s, st, post);
  }

  /** dumpJson(array)'s output read back from the '['. */
  lemma {:induction false} ArrDumped(items: seq<Json>, depth: nat, s: seq<Byte>, st: PState, post: seq<Byte>)
    requires Dumpable(Arr(items), MaxDepth - depth)
    requires 1 <= st.i <= |s| && !st.failed && s[st.i - 1..] == DumpText(Arr(items)) + post && EndsNumber(post)
    ensures ValueAt(s, depth, s[st.i - 1], st) == Res(Arr(items), st.(i := |s| - |post|))
    decreases items, 1, 0, 0
  {
    ArrayOpen(items, s, st.i - 1, post);
    ValueAtArray(s, depth, st);
    if items == [] {
      ArrayEmptyStep(s, depth, st);
      assert |s| - |post| == st.i + 1;
    } else {
      var st1 := st.(i := st.i + 1);
      assert ArrayValue(s, depth, st) == ArrayLoop(s, depth, st1, items[..0]) by {
        ArrayFirstStep(s, depth, st);
        assert items[..0] == [];
      }
      ArrayLoopDumped(items, 0, depth, s, st1, post);
    }
  }

  /** dumpJson(object)'s output read back from the '{'. */
  lemma {:induction false} ObjDumped(ms: seq<Member>, depth: nat, s: seq<Byte>, st: PState, post: seq<Byte>)
    requires Dumpable(Obj(ms), MaxDepth - depth)
    requires 1 <= st.i <= |s| && !st.failed && s[st.i - 1..] == DumpText(Obj(ms)) + post && EndsNumber(post)
    ensures ValueAt(s, depth, s[st.i - 1], st) == Res(Obj(ms), st.(i := |s| - |post|))
    decreases ms, 1, 0, 0
  {
    ObjectOpen(ms, s, st.i - 1, post);
    ValueAtObject(s, depth, st);
    if ms == [] {
      ObjectEmptyStep(s, depth, st);
      assert |s| - |post| == st.i + 1;
    } else {
      var st1 := st.(i := st.i + 1);
      assert ObjectValue(s, depth, st) == ObjectLoop(s, depth, '"', st1, ms[..0]) by {
        ObjectFirstStep(s, depth, st);
        assert ms[..0] == [];
      }
      ObjectLoopDumped(ms, 0, depth, s, st1, post);
    }
  }

  /* -------------------- the parser's steps, byte by byte -------------------- */

  /** parseJson's dispatch on '['. */
  lemma ValueAtArray(s: seq<Byte>, depth: nat, st: PState)
    requires 1 <= st.i <= |s| && !st.failed && depth <= MaxDepth && s[st.i - 1] == '['
    ensures ValueAt(s, depth, s[st.i - 1], st) == ArrayValue(s, depth, st)
  {
  }

  /** parseJson's dispatch on '{'. */
  lemma ValueAtObject(s: seq<Byte>, depth: nat, st: PState)
    requires 1 <= st.i <= |s| && !st.failed && depth <= MaxDepth && s[st.i - 1] == '{'
    ensures ValueAt(s, depth, s[st.i - 1], st) == ObjectValue(s, depth, st)
  {
  }

  /** "[]": the array branch reads an empty array. */
  lemma ArrayEmptyStep(s: seq<Byte>, depth: nat, st: PState)
    requires 1 <= st.i < |s| && !st.failed && depth <= MaxDepth && s[st.i] == ']'
    ensures ArrayValue(s, depth, st) == Res(Arr([]), st.(i := st.i + 1))
  {
    TokenAt(s, st);
  }

  /** The array branch starts its loop at the first byte of an item. */
  lemma ArrayFirstStep(s: seq<Byte>, depth: nat, st: PState)
    requires 1 <= st.i < |s| && !st.failed && depth <= MaxDepth
    requires !IsWs(s[st.i]) && s[st.i] != ']'
    ensures ArrayValue(s, depth, st) == ArrayLoop(s, depth, st.(i := st.i + 1), [])
  {
    TokenAt(s, st);
  }

  /** ']' after an item ends the array. */
  lemma ArrayEndStep(s: seq<Byte>, depth: nat, st: PState, data: seq<Json>)
    requires 1 <= st.i < |s| && !st.failed && depth <= MaxDepth && s[st.i] == ']'
    ensures ArrayNext(s, depth, st, data) == Res(Arr(data), st.(i := st.i + 1))
  {
    TokenAt(s, st);
  }

  /** ", " after an item starts the next item. */
  lemma ArrayCommaStep(s: seq<Byte>, depth: nat, st: PState, data: seq<Json>)
    requires 1 <= st.i && st.i + 2 < |s| && !st.failed && depth <= MaxDepth
    requires s[st.i] == ',' && s[st.i + 1] == ' ' && !IsWs(s[st.i + 2])
    ensures ArrayNext(s, depth, st, data) == ArrayLoop(s, depth, st.(i := st.i + 3), data)
  {
    TokenAt(s, st);
    TokenAfterSpace(s, st.(i := st.i + 1));
  }

  /** "{}": the object branch reads an empty object. */
  lemma ObjectEmptyStep(s: seq<Byte>, depth: nat, st: PState)
    requires 1 <= st.i < |s| && !st.failed && depth <= MaxDepth && s[st.i] == '}'
    ensures ObjectValue(s, depth, st) == Res(Obj([]), st.(i := st.i + 1))
  {
    TokenAt(s, st);
  }

  /** The object branch starts its loop at the quote of the first key. */
  lemma ObjectFirstStep(s: seq<Byte>, depth: nat, st: PState)
    requires 1 <= st.i < |s| && !st.failed && depth <= MaxDepth && s[st.i] == '"'
    ensures ObjectValue(s, depth, st) == ObjectLoop(s, depth, '"', st.(i := st.i + 1), [])
  {
    TokenAt(s, st);
  }

  /** '}' after a value ends the object. */
  lemma ObjectEndStep(s: seq<Byte>, depth: nat, st: PState, data: seq<Member>)
    requires st.i < |s| && !st.failed && depth <= MaxDepth && s[st.i] == '}'
    ensures ObjectNext(s, depth, st, data) == Res(Obj(data), st.(i := st.i + 1))
  {
    TokenAt(s, st);
  }

  /** ", " after a value starts the next entry at its key's quote. */
  lemma ObjectCommaStep(s: seq<Byte>, depth: nat, st: PState, data: seq<Member>)
    requires st.i + 2 < |s| && !st.failed && depth <= MaxDepth
    requires s[st.i] == ',' && s[st.i + 1] == ' ' && s[st.i + 2] == '"'
    ensures ObjectNext(s, depth, st, data) == ObjectLoop(s, depth, '"', st.(i := st.i + 3), data)
  {
    TokenAt(s, st);
    TokenAfterSpace(s, st.(i := st.i + 1));
  }

  /** A key, ": " and a value make one turn of the object loop. */
  lemma ObjectEntryStep(s: seq<Byte>, depth: nat, st: PState, data: seq<Member>,
                        key: seq<Byte>, a: nat, v: Json, e: nat)
    requires 1 <= st.i <= |s| && !st.failed && depth + 1 <= MaxDepth
    requires ParseString(s, st) == StrRes(key, st.(i := a))
    requires a + 1 < |s| && s[a] == ':' && s[a + 1] == ' ' && e <= |s|
    requires ParseValue(s, depth + 1, st.(i := a + 2)) == Res(v, st.(i := e))
    ensures ObjectLoop(s, depth, '"', st, data) == ObjectNext(s, depth, st.(i := e), Insert(data, key, v))
  {
    TokenAt(s, st.(i := a));
    ParseValueAfterSpace(s, depth + 1, st.(i := a + 1));
  }

  /* -------------------- the serialiser's text, piece by piece -------------------- */

  /** What follows item k - 1 of dumpJson(array)'s output. */
  function ItemsTail(items: seq<Json>, k: nat, post: seq<Byte>): seq<Byte>
    requires forall p {:trigger NoDouble(items[p])} :: 0 <= p < |items| ==> NoDouble(items[p])
  {
    ItemsRest(items, k) + "]" + post
  }

  /** What follows entry k - 1 of dumpJson(object)'s output. */
  function MembersTail(ms: seq<Member>, k: nat, post: seq<Byte>): seq<Byte>
    requires forall p {:trigger NoDouble(ms[p].value)} :: 0 <= p < |ms| ==> NoDouble(ms[p].value)
  {
    MembersRest(ms, k) + "}" + post
  }

  /** After an item comes ']' or ", " and the next item. */
  lemma ItemsTailNext(items: seq<Json>, k: nat, post: seq<Byte>)
    requires forall p {:trigger NoDouble(items[p])} :: 0 <= p < |items| ==> NoDouble(items[p])
    ensures k >= |items| ==> ItemsTail(items, k, post) == "]" + post
    ensures k < |items| ==> ItemsTail(items, k, post) == SEPARATOR + (DumpText(items[k]) + ItemsTail(items, k + 1, post))
    ensures EndsNumber(ItemsTail(items, k, post))
  {
    if k < |items| {
      var d := DumpText(items[k]);
      var r := ItemsRest(items, k + 1);
      assert ItemsRest(items, k) == SEPARATOR + d + r;
      Assoc(SEPARATOR + d, r, "]");
      Assoc(SEPARATOR + d, r + "]", post);
      Assoc(SEPARATOR, d, r + "]" + post);
    }
  }

  /** After an entry comes '}' or ", " and the next entry. */
  lemma MembersTailNext(ms: seq<Member>, k: nat, post: seq<Byte>)
    requires forall p {:trigger NoDouble(ms[p].value)} :: 0 <= p < |ms| ==> NoDouble(ms[p].value)
    ensures k >= |ms| ==> MembersTail(ms, k, post) == "}" + post
    ensures k < |ms| ==> MembersTail(ms, k, post) == SEPARATOR + (EntryText(ms[k]) + MembersTail(ms, k + 1, post))
    ensures EndsNumber(MembersTail(ms, k, post))
  {
    if k < |ms| {
      var d := EntryText(ms[k]);
      var r := MembersRest(ms, k + 1);
      assert MembersRest(ms, k) == SEPARATOR + d + r;
      Assoc(SEPARATOR + d, r, "}");
      Assoc(SEPARATOR + d, r + "}", post);
      Assoc(SEPARATOR, d, r + "}" + post);
    }
  }

  /** dumpJson(array)'s output, read from the front: '[', then ']' or the
      first item and what follows it. */
  lemma ArrayOpen(items: seq<Json>, s: seq<Byte>, i: nat, post: seq<Byte>)
    requires forall p {:trigger NoDouble(items[p])} :: 0 <= p < |items| ==> NoDouble(items[p])
    requires i <= |s| && s[i..] == DumpText(Arr(items)) + post
    ensures i + 1 < |s| && s[i] == '['
    ensures items == [] ==> s[i + 1] == ']' && s[i + 2..] == post
    ensures items != [] ==> !IsWs(s[i + 1]) && s[i + 1] != ']'
    ensures items != [] ==> s[i + 1..] == DumpText(items[0]) + ItemsTail(items, 1, post)
  {
    assert NoDouble(Arr(items));
    var body := ItemsText(items) + "]";
    Assoc(['['], ItemsText(items), "]");
    Assoc(['['], body, post);
    FrontAt(s, i, ['['], body + post);
    if items == [] {
      FrontAt(s, i + 1, "]", post);
    } else {
      ItemsSplit(items);
      var d := DumpText(items[0]);
      var r := ItemsRest(items, 1);
      Assoc(d, r, "]");
      Assoc(d, r + "]", post);
      DumpTextFirst(items[0]);
      FrontAt(s, i + 1, d, ItemsTail(items, 1, post));
    }
  }

  /** dumpJson(object)'s output, read from the front: '{', then '}' or the
      first entry and what follows it. */
  lemma ObjectOpen(ms: seq<Member>, s: seq<Byte>, i: nat, post: seq<Byte>)
    requires forall p {:trigger NoDouble(ms[p].value)} :: 0 <= p < |ms| ==> NoDouble(ms[p].value)
    requires i <= |s| && s[i..] == DumpText(Obj(ms)) + post
    ensures i + 1 < |s| && s[i] == '{'
    ensures ms == [] ==> s[i + 1] == '}' && s[i + 2..] == post
    ensures ms != [] ==> s[i + 1] == '"'
    ensures ms != [] ==> s[i + 1..] == EntryText(ms[0]) + MembersTail(ms, 1, post)
  {
    assert NoDouble(Obj(ms));
    var body := MembersText(ms) + "}";
    Assoc(['{'], MembersText(ms), "}");
    Assoc(['{'], body, post);
    FrontAt(s, i, ['{'], body + post);
    if ms == [] {
      FrontAt(s, i + 1, "}", post);
    } else {
      MembersSplit(ms);
      var d := EntryText(ms[0]);
      var r := MembersRest(ms, 1);
      Assoc(d, r, "}");
      Assoc(d, r + "}", post);
      EntryFirst(ms[0]);
      FrontAt(s, i + 1, d, MembersTail(ms, 1, post));
    }
  }

  /** An entry is its key's string, ": " and its value. */
  lemma EntryFront(m: Member, rest: seq<Byte>)
    requires NoDouble(m.value)
    ensures EntryText(m) + rest == StringText(m.key) + (": " + (DumpText(m.value) + rest))
  {
    var k := StringText(m.key);
    var d := DumpText(m.value);
    Assoc(k + ": ", d, rest);
    Assoc(k, ": ", d + rest);
  }

  /** The first byte of an entry is the key's opening quote. */
  lemma EntryFirst(m: Member)
    requires NoDouble(m.value)
    ensures |EntryText(m)| > 0 && EntryText(m)[0] == '"'
  {
    EntryFront(m, []);
  }

  /* -------------------- arrays and objects -------------------- */

  /** A turn of parseJson's array loop on an item of dumpJson(array)'s
      output and everything after it. */
  lemma {:induction false} ArrayLoopDumped(items: seq<Json>, k: nat, depth: nat, s: seq<Byte>, st: PState, post: seq<Byte>)
    requires Dumpable(Arr(items), MaxDepth - depth) && k < |items|
    requires 1 <= st.i <= |s| && !st.failed && EndsNumber(post)
    requires s[st.i - 1..] == DumpText(items[k]) + ItemsTail(items, k + 1, post)
    ensures ArrayLoop(s, depth, st, items[..k]) == Res(Arr(items), st.(i := |s| - |post|))
    decreases items, 0, |items| - k, 1
  {
    var rest := ItemsTail(items, k + 1, post);
    ItemsTailNext(items, k + 1, post);
    assert NestsWithin(items[k], MaxDepth - depth - 1);
    ParseDumped(items[k], depth + 1, s, st.(i := st.i - 1), rest);
    DropPrefix(s, st.i - 1, DumpText(items[k]), rest);
    TakeSnoc(items, k);
    ArrayNextDumped(items, k, depth, s, st.(i := |s| - |rest|), post);
  }

  /** What follows an item in dumpJson(array)'s output: "]" or ", " and
      the next item. */
  lemma {:induction false} ArrayNextDumped(items: seq<Json>, k: nat, depth: nat, s: seq<Byte>, st: PState, post: seq<Byte>)
    requires Dumpable(Arr(items), MaxDepth - depth) && k < |items|
    requires 1 <= st.i <= |s| && !st.failed && EndsNumber(post)
    requires s[st.i..] == ItemsTail(items, k + 1, post)
    ensures ArrayNext(s, depth, st, items[..k + 1]) == Res(Arr(items), st.(i := |s| - |post|))
    decreases items, 0, |items| - k, 0
  {
    ItemsTailNext(items, k + 1, post);
    if k + 1 == |items| {
      FrontAt(s, st.i, "]", post);
      ArrayEndStep(s, depth, st, items[..k + 1]);
      TakeAll(items);
    } else {
      var item := DumpText(items[k + 1]);
      DumpTextFirst(items[k + 1]);
      PairAt(s, st.i, SEPARATOR, item + ItemsTail(items, k + 2, post));
      FrontAt(s, st.i + 2, item, ItemsTail(items, k + 2, post));
      ArrayCommaStep(s, depth, st, items[..k + 1]);
      ArrayLoopDumped(items, k + 1, depth, s, st.(i := st.i + 3), post);
    }
  }

  /** An entry of dumpJson(object)'s output: the key, then ": ". */
  lemma KeyDumped(key: seq<Byte>, s: seq<Byte>, st: PState, tail: seq<Byte>) returns (a: nat)
    requires 1 <= st.i <= |s| && !st.failed && s[st.i - 1..] == StringText(key) + (": " + tail)
    ensures a + 2 <= |s| && s[a + 2..] == tail && s[a] == ':' && s[a + 1] == ' '
    ensures ParseString(s, st) == StrRes(key, st.(i := a))
  {
    var esc := EscapedFrom(key, 0);
    var after := ": " + tail;
    Assoc(['"'] + esc, ['"'], after);
    Assoc(['"'], esc, ['"'] + after);
    FrontAt(s, st.i - 1, ['"'], esc + (['"'] + after));
    Assoc(esc, ['"'], after);
    ParseStringText(key, s, st, after);
    a := st.i + |esc| + 1;
    DropPrefix(s, st.i, esc + ['"'], after);
    PairAt(s, a, ": ", tail);
  }

  /** An entry of dumpJson(object)'s output: parseString reads the key
      and parseJson(depth + 1) the value after ": ". */
  lemma {:induction false} EntryDumped(ms: seq<Member>, k: nat, depth: nat, s: seq<Byte>, st: PState, rest: seq<Byte>)
    returns (a: nat)
    requires Dumpable(Obj(ms), MaxDepth - depth) && k < |ms|
    requires 1 <= st.i <= |s| && !st.failed && EndsNumber(rest)
    requires s[st.i - 1..] == EntryText(ms[k]) + rest
    ensures a + 1 < |s| && s[a] == ':' && s[a + 1] == ' ' && depth + 1 <= MaxDepth
    ensures ParseString(s, st) == StrRes(ms[k].key, st.(i := a))
    ensures ParseValue(s, depth + 1, st.(i := a + 2)) == Res(ms[k].value, st.(i := |s| - |rest|))
    decreases ms, 0, |ms| - k, 1
  {
    EntryFront(ms[k], rest);
    a := KeyDumped(ms[k].key, s, st, DumpText(ms[k].value) + rest);
    assert NestsWithin(ms[k].value, MaxDepth - depth - 1);
    assert ms[k].value < ms[k];
    ParseDumped(ms[k].value, depth + 1, s, st.(i := a + 2), rest);
  }

  /** The keys before entry k of a std::map are smaller than its key. */
  lemma KeysBefore(ms: seq<Member>, k: nat)
    requires Sorted(ms) && k < |ms|
    ensures forall p :: 0 <= p < |ms[..k]| ==> KeyLess(ms[..k][p].key, ms[k].key)
  {
    forall p | 0 <= p < k
      ensures KeyLess(ms[..k][p].key, ms[k].key)
    {
      assert KeyLess(ms[p].key, ms[k].key);
    }
  }

  /** A turn of parseJson's object loop on an entry of dumpJson(object)'s
      output and everything after it. */
  lemma {:induction false} ObjectLoopDumped(ms: seq<Member>, k: nat, depth: nat, s: seq<Byte>, st: PState, post: seq<Byte>)
    requires Dumpable(Obj(ms), MaxDepth - depth) && k < |ms|
    requires 1 <= st.i <= |s| && !st.failed && EndsNumber(post)
    requires s[st.i - 1..] == EntryText(ms[k]) + MembersTail(ms, k + 1, post)
    ensures ObjectLoop(s, depth, '"', st, ms[..k]) == Res(Obj(ms), st.(i := |s| - |post|))
    decreases ms, 0, |ms| - k, 2
  {
    var rest := MembersTail(ms, k + 1, post);
    MembersTailNext(ms, k + 1, post);
    var a := EntryDumped(ms, k, depth, s, st, rest);
    ObjectEntryStep(s, depth, st, ms[..k], ms[k].key, a, ms[k].value, |s| - |rest|);
    KeysBefore(ms, k);
    InsertLast(ms[..k], ms[k]);
    TakeSnoc(ms, k);
    DropPrefix(s, st.i - 1, EntryText(ms[k]), rest);
    ObjectNextDumped(ms, k, depth, s, st.(i := |s| - |rest|), post);
  }

  /** What follows an entry in dumpJson(object)'s output: "}" or ", " and
      the next entry. */
  lemma {:induction false} ObjectNextDumped(ms: seq<Member>, k: nat, depth: nat, s: seq<Byte>, st: PState, post: seq<Byte>)
    requires Dumpable(Obj(ms), MaxDepth - depth) && k < |ms|
    requires st.i <= |s| && !st.failed && EndsNumber(post)
    requires s[st.i..] == MembersTail(ms, k + 1, post)
    ensures ObjectNext(s, depth, st, ms[..k + 1]) == Res(Obj(ms), st.(i := |s| - |post|))
    decreases ms, 0, |ms| - k, 0
  {
    MembersTailNext(ms, k + 1, post);
    if k + 1 == |ms| {
      FrontAt(s, st.i, "}", post);
      ObjectEndStep(s, depth, st, ms[..k + 1]);
      TakeAll(ms);
    } else {
      var entry := EntryText(ms[k + 1]);
      EntryFirst(ms[k + 1]);
      PairAt(s, st.i, SEPARATOR, entry + MembersTail(ms, k + 2, post));
      FrontAt(s, st.i + 2, entry, MembersTail(ms, k + 2, post));
      ObjectCommaStep(s, depth, st, ms[..k + 1]);
      ObjectLoopDumped(ms, k + 1, depth, s, st.(i := st.i + 3), post);
    }
  }

  /** Json::parse(json.dump()) == json. */
  lemma DumpThenParse(v: Json)
    requires Dumpable(v, MaxDepth)
    ensures Parse(DumpText(v)) == ParseResult(v, None)
  {
    var s := DumpText(v);
    assert s[0..] == s + [];
    ParseDumped(v, 0, s, PState(0, false, None), []);
    assert SkipWs(s, |s|) == |s|;
  }
}

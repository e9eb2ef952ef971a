/** Json::intValue, stringValue, arrayItems, objectItems and the two
    operator[] overloads, read on what Json::parse gives back for the text
    Json::dump writes: each accessor returns the value of its own type and
    the default of the others, and a failed parse gives the defaults. */
module JsonAccessors {
  import opened JsonValues
  import opened JsonSpec
  import opened JsonDump
  import opened JsonRoundTrip
  import opened JsonTreeRoundTrip

  /** A dumped int64 reads back through intValue as itself, and through the
      string, array and object accessors as their empty defaults. */
  lemma IntValueReadBack(x: Int64)
    ensures Parse(IntText(x)).value.Int? && IntValue(Parse(IntText(x)).value) == x
    ensures StringValue(Parse(IntText(x)).value) == []
    ensures ArrayItems(Parse(IntText(x)).value) == [] && ObjectItems(Parse(IntText(x)).value) == []
  {
    IntRoundTrip(x);
  }

  /** A dumped byte string reads back through stringValue as itself, and
      through intValue as 0 and the container accessors as empty. */
  lemma StringValueReadBack(value: seq<Byte>)
    ensures Parse(StringText(value)).value.Str? && StringValue(Parse(StringText(value)).value) == value
    ensures IntValue(Parse(StringText(value)).value) == 0
    ensures ArrayItems(Parse(StringText(value)).value) == [] && ObjectItems(Parse(StringText(value)).value) == []
  {
    StringRoundTrip(value);
  }

  /** A dumped array reads back through arrayItems as its items, through
      operator[](size_t) as each item in turn and null past the end, and
      through objectItems as empty. */
  lemma ArrayItemsReadBack(items: seq<Json>)
    requires Dumpable(Arr(items), MaxDepth)
    ensures Parse(DumpText(Arr(items))).value.Arr? && ArrayItems(Parse(DumpText(Arr(items))).value) == items
    ensures forall k: nat :: k < |items| ==> Index(Parse(DumpText(Arr(items))).value, k) == items[k]
    ensures Index(Parse(DumpText(Arr(items))).value, |items|) == Null
    ensures ObjectItems(Parse(DumpText(Arr(items))).value) == [] && IntValue(Parse(DumpText(Arr(items))).value) == 0
  {
    DumpThenParse(Arr(items));
  }

  /** A dumped object reads back through objectItems as its entries, in key
      order, through operator[](key) as the value of each of its keys, and
      through arrayItems as empty. */
  lemma ObjectItemsReadBack(members: seq<Member>)
    requires Dumpable(Obj(members), MaxDepth)
    ensures Parse(DumpText(Obj(members))).value.Obj? && ObjectItems(Parse(DumpText(Obj(members))).value) == members
    ensures forall p :: 0 <= p < |members| ==> Lookup(Parse(DumpText(Obj(members))).value, members[p].key) == members[p].value
    ensures ArrayItems(Parse(DumpText(Obj(members))).value) == [] && IntValue(Parse(DumpText(Obj(members))).value) == 0
  {
    DumpThenParse(Obj(members));
    assert Sorted(members);
    forall p | 0 <= p < |members|
      ensures Lookup(Obj(members), members[p].key) == members[p].value
    {
      FindSorted(members, p);
    }
  }

  /** In entries sorted by key, the entry at p is the one found for its
      key: the keys are distinct, so no earlier entry shadows it. */
  lemma {:induction false} FindSorted(members: seq<Member>, p: nat)
    requires Sorted(members) && p < |members|
    ensures Find(members, members[p].key) == Some(members[p].value)
  {
    if p > 0 {
      assert KeyLess(members[0].key, members[p].key);
      KeyLessIrreflexive(members[0].key);
      var rest := members[1..];
      assert Sorted(rest) by {
        forall a, b | 0 <= a < b < |rest|
          ensures KeyLess(rest[a].key, rest[b].key)
        {
          assert rest[a] == members[a + 1] && rest[b] == members[b + 1];
        }
      }
      FindSorted(rest, p - 1);
      assert rest[p - 1] == members[p];
    }
  }

  /** Whatever the text, a parse that reports an error gives null, which
      every accessor reads as its default. */
  lemma FailedParseDefaults(s: seq<Byte>)
    requires Parse(s).err.Some?
    ensures IntValue(Parse(s).value) == 0 && !BoolValue(Parse(s).value)
    ensures StringValue(Parse(s).value) == [] && ArrayItems(Parse(s).value) == [] && ObjectItems(Parse(s).value) == []
    ensures forall k: nat :: Index(Parse(s).value, k) == Null
    ensures forall key: seq<Byte> :: Lookup(Parse(s).value, key) == Null
  {
  }
}

/** The value layer of TinyJson: the Json variant, its type tags, the
    std::map ordering of object keys and the accessors that return a
    default instead of failing. */
module JsonValues {

  /** One byte of a std::string. Bytes are compared as unsigned values,
      as std::char_traits<char> does. */
  type Byte = c: char | c as int < 0x100

  /** int64_t */
  type Int64 = x: int | -0x8000_0000_0000_0000 <= x <= 0x7FFF_FFFF_FFFF_FFFF

  datatype Option<+T> = None | Some(value: T)

  /** Json::Type */
  datatype JsonType = NUL | NUMBER | BOOL | STRING | ARRAY | OBJECT

  /** A Json value. Objects are std::map<std::string, Json>, kept here as
      their in-order list of entries; `Double` stands for the double that
      strtod makes of `lexeme` (floating point is not interpreted). */
  datatype Json =
    | Null
    | Int(i: Int64)
    | Double(lexeme: seq<Byte>)
    | Bool(b: bool)
    | Str(s: seq<Byte>)
    | Arr(items: seq<Json>)
    | Obj(members: seq<Member>)

  datatype Member = Member(key: seq<Byte>, value: Json)

  /* -------------------- keys in std::map order -------------------- */

  /** std::string operator<: lexicographic on unsigned bytes. */
  predicate KeyLess(a: seq<Byte>, b: seq<Byte>)
  {
    if |a| == 0 then |b| > 0
    else if |b| == 0 then false
    else if a[0] < b[0] then true
    else a[0] == b[0] && KeyLess(a[1..], b[1..])
  }

  lemma {:induction false} KeyLessIrreflexive(a: seq<Byte>)
    ensures !KeyLess(a, a)
  {
    if |a| > 0 {
      KeyLessIrreflexive(a[1..]);
    }
  }

  lemma {:induction false} KeyLessTransitive(a: seq<Byte>, b: seq<Byte>, c: seq<Byte>)
    requires KeyLess(a, b) && KeyLess(b, c)
    ensures KeyLess(a, c)
  {
    if |a| > 0 && |b| > 0 && |c| > 0 && a[0] == b[0] == c[0] {
      KeyLessTransitive(a[1..], b[1..], c[1..]);
    }
  }

  /** Any two distinct keys are ordered one way or the other. */
  lemma {:induction false} KeyLessTotal(a: seq<Byte>, b: seq<Byte>)
    ensures a == b || KeyLess(a, b) || KeyLess(b, a)
  {
    if |a| > 0 && |b| > 0 && a[0] == b[0] {
      KeyLessTotal(a[1..], b[1..]);
      if a[1..] == b[1..] {
        assert a == [a[0]] + a[1..] && b == [b[0]] + b[1..];
      }
    }
  }

  lemma KeyLessAsymmetric(a: seq<Byte>, b: seq<Byte>)
    requires KeyLess(a, b)
    ensures !KeyLess(b, a)
  {
    if KeyLess(b, a) {
      KeyLessTransitive(a, b, a);
      KeyLessIrreflexive(a);
    }
  }

  /** The entries of a std::map are in strictly increasing key order. */
  ghost predicate Sorted(ms: seq<Member>)
  {
    forall p, q {:trigger KeyLess(ms[p].key, ms[q].key)} :: 0 <= p < q < |ms| ==> KeyLess(ms[p].key, ms[q].key)
  }

  /** std::map::find */
  function Find(ms: seq<Member>, key: seq<Byte>): (r: Option<Json>)
    ensures r.None? <==> forall p :: 0 <= p < |ms| ==> ms[p].key != key
  {
    if ms == [] then None
    else if ms[0].key == key then Some(ms[0].value)
    else Find(ms[1..], key)
  }

  /** `data[key] = value` on a std::map: replace the entry with that key,
      or add one in key order. */
  function Insert(ms: seq<Member>, key: seq<Byte>, value: Json): (r: seq<Member>)
    ensures |ms| <= |r| <= |ms| + 1
  {
    if ms == [] then [Member(key, value)]
    else if ms[0].key == key then [Member(key, value)] + ms[1..]
    else if KeyLess(key, ms[0].key) then [Member(key, value)] + ms
    else [ms[0]] + Insert(ms[1..], key, value)
  }

  /** Every entry after an insertion is the new one or an old one. */
  lemma {:induction false} InsertMembers(ms: seq<Member>, key: seq<Byte>, value: Json)
    ensures forall p :: 0 <= p < |Insert(ms, key, value)| ==>
      Insert(ms, key, value)[p] == Member(key, value) || Insert(ms, key, value)[p] in ms
  {
    if ms != [] && ms[0].key != key && !KeyLess(key, ms[0].key) {
      InsertMembers(ms[1..], key, value);
      var tail := Insert(ms[1..], key, value);
      forall p | 0 <= p < |tail| ensures tail[p] == Member(key, value) || tail[p] in ms {
        assert tail[p] in ms[1..] ==> tail[p] in ms;
      }
    }
  }

  /** Insertion keeps the entries in key order. */
  lemma {:induction false} InsertSorted(ms: seq<Member>, key: seq<Byte>, value: Json)
    requires Sorted(ms)
    ensures Sorted(Insert(ms, key, value))
  {
    var r := Insert(ms, key, value);
    if ms == [] || ms[0].key == key {
    } else if KeyLess(key, ms[0].key) {
      forall p, q | 0 <= p < q < |r| ensures KeyLess(r[p].key, r[q].key) {
        if p == 0 && q > 1 {
          KeyLessTransitive(key, ms[0].key, ms[q - 1].key);
        }
      }
    } else {
      var tail := Insert(ms[1..], key, value);
      assert Sorted(ms[1..]);
      InsertSorted(ms[1..], key, value);
      InsertMembers(ms[1..], key, value);
      KeyLessTotal(key, ms[0].key);
      forall p, q | 0 <= p < q < |r| ensures KeyLess(r[p].key, r[q].key) {
        if p == 0 {
          assert tail[q - 1] == Member(key, value) || tail[q - 1] in ms[1..];
        }
      }
    }
  }

  /** After `data[key] = value` the key maps to the value and every other
      key keeps its entry. */
  lemma {:induction false} InsertFind(ms: seq<Member>, key: seq<Byte>, value: Json, other: seq<Byte>)
    ensures Find(Insert(ms, key, value), key) == Some(value)
    ensures other != key ==> Find(Insert(ms, key, value), other) == Find(ms, other)
  {
    if ms != [] && ms[0].key != key && !KeyLess(key, ms[0].key) {
      InsertFind(ms[1..], key, value, other);
    }
  }

  /** Every object inside the value has its entries in key order, as any
      value built from std::map has. */
  ghost predicate WellFormed(j: Json)
  {
    match j
    case Arr(items) => forall p {:trigger WellFormed(items[p])} :: 0 <= p < |items| ==> WellFormed(items[p])
    case Obj(ms) => Sorted(ms) && forall p {:trigger WellFormed(ms[p].value)} :: 0 <= p < |ms| ==> WellFormed(ms[p].value)
    case _ => true
  }

  /** The value holds no double anywhere. */
  ghost predicate NoDouble(j: Json)
  {
    match j
    case Double(_) => false
    case Arr(items) => forall p {:trigger NoDouble(items[p])} :: 0 <= p < |items| ==> NoDouble(items[p])
    case Obj(ms) => forall p {:trigger NoDouble(ms[p].value)} :: 0 <= p < |ms| ==> NoDouble(ms[p].value)
    case _ => true
  }

  /* -------------------- accessors -------------------- */

  /** Json::type */
  function TypeOf(j: Json): JsonType
  {
    match j
    case Null => NUL
    case Int(_) => NUMBER
    case Double(_) => NUMBER
    case Bool(_) => BOOL
    case Str(_) => STRING
    case Arr(_) => ARRAY
    case Obj(_) => OBJECT
  }

  /** Json::intValue; a double's truncation is not modelled. */
  function IntValue(j: Json): (r: Int64)
    requires !j.Double?
    ensures j.Int? ==> r == j.i
    ensures !j.Int? ==> r == 0
  {
    if j.Int? then j.i else 0
  }

  /** Json::boolValue */
  function BoolValue(j: Json): (r: bool)
    ensures r <==> j == Bool(true)
  {
    if j.Bool? then j.b else false
  }

  /** Json::stringValue */
  function StringValue(j: Json): (r: seq<Byte>)
    ensures j.Str? ==> r == j.s
    ensures !j.Str? ==> r == []
  {
    if j.Str? then j.s else []
  }

  /** Json::arrayItems */
  function ArrayItems(j: Json): (r: seq<Json>)
    ensures j.Arr? ==> r == j.items
    ensures !j.Arr? ==> r == []
  {
    if j.Arr? then j.items else []
  }

  /** Json::objectItems */
  function ObjectItems(j: Json): (r: seq<Member>)
    ensures j.Obj? ==> r == j.members
    ensures !j.Obj? ==> r == []
  {
    if j.Obj? then j.members else []
  }

  /** Json::operator[](size_t): the item, or null when out of range or
      not an array. */
  function Index(j: Json, k: nat): (r: Json)
    ensures k < |ArrayItems(j)| ==> r == ArrayItems(j)[k]
    ensures k >= |ArrayItems(j)| ==> r == Null
  {
    if j.Arr? && k < |j.items| then j.items[k] else Null
  }

  /** Json::operator[](const std::string&): the value, or null when the
      key is missing or the value is not an object. */
  function Lookup(j: Json, key: seq<Byte>): (r: Json)
    ensures Find(ObjectItems(j), key).Some? ==> r == Find(ObjectItems(j), key).value
    ensures Find(ObjectItems(j), key).None? ==> r == Null
  {
    if j.Obj? then
      match Find(j.members, key)
      case Some(v) => v
      case None => Null
    else Null
  }

  /** Assigning through operator[] and reading the same key back gives the
      assigned value; other keys keep theirs. */
  lemma LookupAfterInsert(ms: seq<Member>, key: seq<Byte>, value: Json, other: seq<Byte>)
    ensures Lookup(Obj(Insert(ms, key, value)), key) == value
    ensures other != key ==> Lookup(Obj(Insert(ms, key, value)), other) == Lookup(Obj(ms), other)
  {
    InsertFind(ms, key, value, other);
  }
}

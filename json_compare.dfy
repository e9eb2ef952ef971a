/** Json::operator== and Json::operator<, with the per-type equals and
    less of the Value wrappers. An int64 is compared with another through
    numberValue(), that is after its conversion to double, so RoundToDouble
    models that conversion exactly (round to nearest, ties to even, 53
    significant bits). */
module JsonCompare {
  import opened JsonValues

  /* -------------------- int64 to double -------------------- */

  /** 2^53: from here on not every integer is a double. */
  const TWO53: nat := 0x20_0000_0000_0000

  /** The spacing of the doubles around m: the power of two p with
      m / p below 2^53. */
  function Scale(m: nat): (p: nat)
    ensures p >= 1 && m < TWO53 * p
  {
    if m < TWO53 then 1
    else
      var p := Scale(m / 2);
      assert m / 2 < TWO53 * p;
      2 * p
  }

  /** The double nearest to m, ties to the one with an even significand. */
  function RoundNat(m: nat): (r: nat)
  {
    var p := Scale(m);
    var q := m / p;
    var rest := m % p;
    if 2 * rest < p || (2 * rest == p && q % 2 == 0) then q * p else (q + 1) * p
  }

  /** static_cast<double> of an int64_t under the default rounding mode. */
  function RoundToDouble(x: int): (r: int)
  {
    if x >= 0 then RoundNat(x) as int else -(RoundNat(-x) as int)
  }

  /** Every integer of magnitude up to 2^53 is a double. */
  lemma RoundExact(x: int)
    requires -(TWO53 as int) <= x <= TWO53
    ensures RoundToDouble(x) == x
  {
    var m := if x >= 0 then x else -x;
    if m == TWO53 {
      assert Scale(m / 2) == 1;
    }
  }

  /** 2^53 + 1 is not a double: it rounds to 2^53, its even neighbour. */
  lemma RoundPastTwo53()
    ensures RoundToDouble(TWO53 + 1) == TWO53
    ensures RoundToDouble(-(TWO53 as int) - 1) == -(TWO53 as int)
  {
    assert Scale((TWO53 + 1) / 2) == 1;
  }

  /* -------------------- sizes, for termination -------------------- */

  /** The number of values in j, counting j itself. */
  function Size(j: Json): (r: nat)
    ensures r >= 1
    decreases j, 1
  {
    match j
    case Arr(xs) => 1 + ItemsSize(xs, 0)
    case Obj(ms) => 1 + MembersSize(ms, 0)
    case _ => 1
  }

  function ItemsSize(xs: seq<Json>, k: nat): nat
    requires k <= |xs|
    decreases xs, 0, |xs| - k
  {
    if k == |xs| then 0 else Size(xs[k]) + ItemsSize(xs, k + 1)
  }

  function MembersSize(ms: seq<Member>, k: nat): nat
    requires k <= |ms|
    decreases ms, 0, |ms| - k
  {
    if k == |ms| then 0
    else
      assert ms[k].value < ms[k];
      Size(ms[k].value) + MembersSize(ms, k + 1)
  }

  /* -------------------- operator== -------------------- */

  /** Json::operator==: values of different types are unequal; otherwise
      the type's equals decides. Null equals null, booleans and strings
      compare their contents, two int64 compare as doubles, arrays are
      equal when they have the same length and equal items, objects when
      their entries pair up with equal keys and equal values. */
  function Equal(a: Json, b: Json): bool
    requires NoDouble(a) && NoDouble(b)
    decreases Size(a) + Size(b), 0
  {
    if TypeOf(a) != TypeOf(b) then false
    else
      match a
      case Null => true
      case Int(x) => RoundToDouble(x) == RoundToDouble(b.i)
      case Bool(x) => x == b.b
      case Str(x) => x == b.s
      case Arr(xs) => |xs| == |b.items| && ItemsEqual(xs, b.items, 0)
      case Obj(ms) => |ms| == |b.members| && MembersEqual(ms, b.members, 0)
  }

  /** std::equal on the items from index k on. */
  function ItemsEqual(xs: seq<Json>, ys: seq<Json>, k: nat): bool
    requires k <= |xs| == |ys|
    requires forall p {:trigger NoDouble(xs[p])} :: 0 <= p < |xs| ==> NoDouble(xs[p])
    requires forall p {:trigger NoDouble(ys[p])} :: 0 <= p < |ys| ==> NoDouble(ys[p])
    decreases ItemsSize(xs, k) + ItemsSize(ys, k), 1
  {
    k == |xs| || (Equal(xs[k], ys[k]) && ItemsEqual(xs, ys, k + 1))
  }

  /** std::equal on the entries from index k on: equal keys and equal
      values, pair by pair. */
  function MembersEqual(ms: seq<Member>, ns: seq<Member>, k: nat): bool
    requires k <= |ms| == |ns|
    requires forall p {:trigger NoDouble(ms[p].value)} :: 0 <= p < |ms| ==> NoDouble(ms[p].value)
    requires forall p {:trigger NoDouble(ns[p].value)} :: 0 <= p < |ns| ==> NoDouble(ns[p].value)
    decreases MembersSize(ms, k) + MembersSize(ns, k), 1
  {
    k == |ms| || (ms[k].key == ns[k].key && Equal(ms[k].value, ns[k].value) && MembersEqual(ms, ns, k + 1))
  }

  /* -------------------- operator< -------------------- */

  /** Json::operator<: values of different types are ordered by their
      types, `rank` being the order of Json::Type; otherwise the type's
      less decides. Null is never less, false is less than true, strings
      compare bytewise, two int64 compare as doubles, arrays and objects
      compare lexicographically (std::lexicographical_compare). */
  function Less(rank: JsonType -> nat, a: Json, b: Json): bool
    requires NoDouble(a) && NoDouble(b)
    decreases Size(a) + Size(b), 0
  {
    if TypeOf(a) != TypeOf(b) then rank(TypeOf(a)) < rank(TypeOf(b))
    else
      match a
      case Null => false
      case Int(x) => RoundToDouble(x) < RoundToDouble(b.i)
      case Bool(x) => !x && b.b
      case Str(x) => KeyLess(x, b.s)
      case Arr(xs) => ItemsLess(rank, xs, b.items, 0)
      case Obj(ms) => MembersLess(rank, ms, b.members, 0)
  }

  /** std::lexicographical_compare on the items from index k on: the first
      pair where one item is less decides, and a proper prefix is less. */
  function ItemsLess(rank: JsonType -> nat, xs: seq<Json>, ys: seq<Json>, k: nat): bool
    requires k <= |xs| && k <= |ys|
    requires forall p {:trigger NoDouble(xs[p])} :: 0 <= p < |xs| ==> NoDouble(xs[p])
    requires forall p {:trigger NoDouble(ys[p])} :: 0 <= p < |ys| ==> NoDouble(ys[p])
    decreases ItemsSize(xs, k) + ItemsSize(ys, k), 1
  {
    if k == |xs| then k < |ys|
    else if k == |ys| then false
    else if Less(rank, xs[k], ys[k]) then true
    else if Less(rank, ys[k], xs[k]) then false
    else ItemsLess(rank, xs, ys, k + 1)
  }

  /** std::pair operator< on two entries: the keys decide, and on equal
      keys the values. */
  function EntryLess(rank: JsonType -> nat, m: Member, n: Member): bool
    requires NoDouble(m.value) && NoDouble(n.value)
    decreases Size(m.value) + Size(n.value), 1
  {
    KeyLess(m.key, n.key) || (!KeyLess(n.key, m.key) && Less(rank, m.value, n.value))
  }

  /** std::lexicographical_compare on the entries from index k on. */
  function MembersLess(rank: JsonType -> nat, ms: seq<Member>, ns: seq<Member>, k: nat): bool
    requires k <= |ms| && k <= |ns|
    requires forall p {:trigger NoDouble(ms[p].value)} :: 0 <= p < |ms| ==> NoDouble(ms[p].value)
    requires forall p {:trigger NoDouble(ns[p].value)} :: 0 <= p < |ns| ==> NoDouble(ns[p].value)
    decreases MembersSize(ms, k) + MembersSize(ns, k), 2
  {
    if k == |ms| then k < |ns|
    else if k == |ns| then false
    else if EntryLess(rank, ms[k], ns[k]) then true
    else if EntryLess(rank, ns[k], ms[k]) then false
    else MembersLess(rank, ms, ns, k + 1)
  }

  /* -------------------- operator== is an equivalence -------------------- */

  /** Every value equals itself, so the shortcut of operator== on a shared
      pointer gives the answer the comparison would give. */
  lemma {:induction false} EqualReflexive(a: Json)
    requires NoDouble(a)
    ensures Equal(a, a)
    decreases Size(a), 0
  {
    match a
    case Arr(xs) => ItemsEqualReflexive(xs, 0);
    case Obj(ms) => MembersEqualReflexive(ms, 0);
    case _ =>
  }

  lemma {:induction false} ItemsEqualReflexive(xs: seq<Json>, k: nat)
    requires k <= |xs|
    requires forall p {:trigger NoDouble(xs[p])} :: 0 <= p < |xs| ==> NoDouble(xs[p])
    ensures ItemsEqual(xs, xs, k)
    decreases ItemsSize(xs, k), 1
  {
    if k < |xs| {
      EqualReflexive(xs[k]);
      ItemsEqualReflexive(xs, k + 1);
    }
  }

  lemma {:induction false} MembersEqualReflexive(ms: seq<Member>, k: nat)
    requires k <= |ms|
    requires forall p {:trigger NoDouble(ms[p].value)} :: 0 <= p < |ms| ==> NoDouble(ms[p].value)
    ensures MembersEqual(ms, ms, k)
    decreases MembersSize(ms, k), 1
  {
    if k < |ms| {
      EqualReflexive(ms[k].value);
      MembersEqualReflexive(ms, k + 1);
    }
  }

  lemma {:induction false} EqualSymmetric(a: Json, b: Json)
    requires NoDouble(a) && NoDouble(b)
    ensures Equal(a, b) == Equal(b, a)
    decreases Size(a) + Size(b), 0
  {
    if TypeOf(a) == TypeOf(b) {
      match a
      case Arr(xs) =>
        if |xs| == |b.items| {
          ItemsEqualSymmetric(xs, b.items, 0);
        }
      case Obj(ms) =>
        if |ms| == |b.members| {
          MembersEqualSymmetric(ms, b.members, 0);
        }
      case _ =>
    }
  }

  lemma {:induction false} ItemsEqualSymmetric(xs: seq<Json>, ys: seq<Json>, k: nat)
    requires k <= |xs| == |ys|
    requires forall p {:trigger NoDouble(xs[p])} :: 0 <= p < |xs| ==> NoDouble(xs[p])
    requires forall p {:trigger NoDouble(ys[p])} :: 0 <= p < |ys| ==> NoDouble(ys[p])
    ensures ItemsEqual(xs, ys, k) == ItemsEqual(ys, xs, k)
    decreases ItemsSize(xs, k) + ItemsSize(ys, k), 1
  {
    if k < |xs| {
      EqualSymmetric(xs[k], ys[k]);
      ItemsEqualSymmetric(xs, ys, k + 1);
    }
  }

  lemma {:induction false} MembersEqualSymmetric(ms: seq<Member>, ns: seq<Member>, k: nat)
    requires k <= |ms| == |ns|
    requires forall p {:trigger NoDouble(ms[p].value)} :: 0 <= p < |ms| ==> NoDouble(ms[p].value)
    requires forall p {:trigger NoDouble(ns[p].value)} :: 0 <= p < |ns| ==> NoDouble(ns[p].value)
    ensures MembersEqual(ms, ns, k) == MembersEqual(ns, ms, k)
    decreases MembersSize(ms, k) + MembersSize(ns, k), 1
  {
    if k < |ms| {
      EqualSymmetric(ms[k].value, ns[k].value);
      MembersEqualSymmetric(ms, ns, k + 1);
    }
  }

  lemma {:induction false} EqualTransitive(a: Json, b: Json, c: Json)
    requires NoDouble(a) && NoDouble(b) && NoDouble(c)
    requires Equal(a, b) && Equal(b, c)
    ensures Equal(a, c)
    decreases Size(a) + Size(b) + Size(c), 0
  {
    match a
    case Arr(xs) => ItemsEqualTransitive(xs, b.items, c.items, 0);
    case Obj(ms) => MembersEqualTransitive(ms, b.members, c.members, 0);
    case _ =>
  }

  lemma {:induction false} ItemsEqualTransitive(xs: seq<Json>, ys: seq<Json>, zs: seq<Json>, k: nat)
    requires k <= |xs| == |ys| == |zs|
    requires forall p {:trigger NoDouble(xs[p])} :: 0 <= p < |xs| ==> NoDouble(xs[p])
    requires forall p {:trigger NoDouble(ys[p])} :: 0 <= p < |ys| ==> NoDouble(ys[p])
    requires forall p {:trigger NoDouble(zs[p])} :: 0 <= p < |zs| ==> NoDouble(zs[p])
    requires ItemsEqual(xs, ys, k) && ItemsEqual(ys, zs, k)
    ensures ItemsEqual(xs, zs, k)
    decreases ItemsSize(xs, k) + ItemsSize(ys, k) + ItemsSize(zs, k), 1
  {
    if k < |xs| {
      EqualTransitive(xs[k], ys[k], zs[k]);
      ItemsEqualTransitive(xs, ys, zs, k + 1);
    }
  }

  lemma {:induction false} MembersEqualTransitive(ms: seq<Member>, ns: seq<Member>, os: seq<Member>, k: nat)
    requires k <= |ms| == |ns| == |os|
    requires forall p {:trigger NoDouble(ms[p].value)} :: 0 <= p < |ms| ==> NoDouble(ms[p].value)
    requires forall p {:trigger NoDouble(ns[p].value)} :: 0 <= p < |ns| ==> NoDouble(ns[p].value)
    requires forall p {:trigger NoDouble(os[p].value)} :: 0 <= p < |os| ==> NoDouble(os[p].value)
    requires MembersEqual(ms, ns, k) && MembersEqual(ns, os, k)
    ensures MembersEqual(ms, os, k)
    decreases MembersSize(ms, k) + MembersSize(ns, k) + MembersSize(os, k), 1
  {
    if k < |ms| {
      EqualTransitive(ms[k].value, ns[k].value, os[k].value);
      MembersEqualTransitive(ms, ns, os, k + 1);
    }
  }

  /* -------------------- operator< is a strict order -------------------- */

  /** No value is less than itself, so the shortcut of operator< on a
      shared pointer gives the answer the comparison would give. */
  lemma LessIrreflexive(rank: JsonType -> nat, a: Json)
    requires NoDouble(a)
    ensures !Less(rank, a, a)
  {
    LessAsymmetric(rank, a, a);
  }

  /** Of two values, at most one is less than the other. */
  lemma {:induction false} LessAsymmetric(rank: JsonType -> nat, a: Json, b: Json)
    requires NoDouble(a) && NoDouble(b)
    ensures !(Less(rank, a, b) && Less(rank, b, a))
    decreases Size(a) + Size(b), 0
  {
    if TypeOf(a) == TypeOf(b) {
      match a
      case Str(x) =>
        if KeyLess(x, b.s) {
          KeyLessAsymmetric(x, b.s);
        }
      case Arr(xs) => ItemsLessAsymmetric(rank, xs, b.items, 0);
      case Obj(ms) => MembersLessAsymmetric(rank, ms, b.members, 0);
      case _ =>
    }
  }

  lemma {:induction false} ItemsLessAsymmetric(rank: JsonType -> nat, xs: seq<Json>, ys: seq<Json>, k: nat)
    requires k <= |xs| && k <= |ys|
    requires forall p {:trigger NoDouble(xs[p])} :: 0 <= p < |xs| ==> NoDouble(xs[p])
    requires forall p {:trigger NoDouble(ys[p])} :: 0 <= p < |ys| ==> NoDouble(ys[p])
    ensures !(ItemsLess(rank, xs, ys, k) && ItemsLess(rank, ys, xs, k))
    decreases ItemsSize(xs, k) + ItemsSize(ys, k), 1
  {
    if k < |xs| && k < |ys| {
      LessAsymmetric(rank, xs[k], ys[k]);
      ItemsLessAsymmetric(rank, xs, ys, k + 1);
    }
  }

  lemma {:induction false} EntryLessAsymmetric(rank: JsonType -> nat, m: Member, n: Member)
    requires NoDouble(m.value) && NoDouble(n.value)
    ensures !(EntryLess(rank, m, n) && EntryLess(rank, n, m))
    decreases Size(m.value) + Size(n.value), 1
  {
    if KeyLess(m.key, n.key) {
      KeyLessAsymmetric(m.key, n.key);
    } else if KeyLess(n.key, m.key) {
      KeyLessAsymmetric(n.key, m.key);
    } else {
      LessAsymmetric(rank, m.value, n.value);
    }
  }

  lemma {:induction false} MembersLessAsymmetric(rank: JsonType -> nat, ms: seq<Member>, ns: seq<Member>, k: nat)
    requires k <= |ms| && k <= |ns|
    requires forall p {:trigger NoDouble(ms[p].value)} :: 0 <= p < |ms| ==> NoDouble(ms[p].value)
    requires forall p {:trigger NoDouble(ns[p].value)} :: 0 <= p < |ns| ==> NoDouble(ns[p].value)
    ensures !(MembersLess(rank, ms, ns, k) && MembersLess(rank, ns, ms, k))
    decreases MembersSize(ms, k) + MembersSize(ns, k), 2
  {
    if k < |ms| && k < |ns| {
      EntryLessAsymmetric(rank, ms[k], ns[k]);
      MembersLessAsymmetric(rank, ms, ns, k + 1);
    }
  }

  /* -------------------- operator== against operator< -------------------- */

  /** Equal values are not less than one another either way. */
  lemma {:induction false} EqualNotLess(rank: JsonType -> nat, a: Json, b: Json)
    requires NoDouble(a) && NoDouble(b) && Equal(a, b)
    ensures !Less(rank, a, b) && !Less(rank, b, a)
    decreases Size(a) + Size(b), 0
  {
    match a
    case Str(x) => KeyLessIrreflexive(x);
    case Arr(xs) => ItemsEqualNotLess(rank, xs, b.items, 0);
    case Obj(ms) => MembersEqualNotLess(rank, ms, b.members, 0);
    case _ =>
  }

  lemma {:induction false} ItemsEqualNotLess(rank: JsonType -> nat, xs: seq<Json>, ys: seq<Json>, k: nat)
    requires k <= |xs| == |ys|
    requires forall p {:trigger NoDouble(xs[p])} :: 0 <= p < |xs| ==> NoDouble(xs[p])
    requires forall p {:trigger NoDouble(ys[p])} :: 0 <= p < |ys| ==> NoDouble(ys[p])
    requires ItemsEqual(xs, ys, k)
    ensures !ItemsLess(rank, xs, ys, k) && !ItemsLess(rank, ys, xs, k)
    decreases ItemsSize(xs, k) + ItemsSize(ys, k), 1
  {
    if k < |xs| {
      EqualNotLess(rank, xs[k], ys[k]);
      ItemsEqualNotLess(rank, xs, ys, k + 1);
    }
  }

  lemma {:induction false} MembersEqualNotLess(rank: JsonType -> nat, ms: seq<Member>, ns: seq<Member>, k: nat)
    requires k <= |ms| == |ns|
    requires forall p {:trigger NoDouble(ms[p].value)} :: 0 <= p < |ms| ==> NoDouble(ms[p].value)
    requires forall p {:trigger NoDouble(ns[p].value)} :: 0 <= p < |ns| ==> NoDouble(ns[p].value)
    requires MembersEqual(ms, ns, k)
    ensures !MembersLess(rank, ms, ns, k) && !MembersLess(rank, ns, ms, k)
    decreases MembersSize(ms, k) + MembersSize(ns, k), 2
  {
    if k < |ms| {
      EqualNotLess(rank, ms[k].value, ns[k].value);
      KeyLessIrreflexive(ms[k].key);
      MembersEqualNotLess(rank, ms, ns, k + 1);
    }
  }

  /** When `rank` tells the types apart, any two values are equal or one is
      less than the other. */
  lemma {:induction false} Trichotomy(rank: JsonType -> nat, a: Json, b: Json)
    requires NoDouble(a) && NoDouble(b)
    requires forall s, t :: s != t ==> rank(s) != rank(t)
    ensures Equal(a, b) || Less(rank, a, b) || Less(rank, b, a)
    decreases Size(a) + Size(b), 0
  {
    if TypeOf(a) == TypeOf(b) {
      match a
      case Str(x) => KeyLessTotal(x, b.s);
      case Arr(xs) => ItemsTrichotomy(rank, xs, b.items, 0);
      case Obj(ms) => MembersTrichotomy(rank, ms, b.members, 0);
      case _ =>
    } else {
      assert rank(TypeOf(a)) != rank(TypeOf(b));
    }
  }

  lemma {:induction false} ItemsTrichotomy(rank: JsonType -> nat, xs: seq<Json>, ys: seq<Json>, k: nat)
    requires k <= |xs| && k <= |ys|
    requires forall p {:trigger NoDouble(xs[p])} :: 0 <= p < |xs| ==> NoDouble(xs[p])
    requires forall p {:trigger NoDouble(ys[p])} :: 0 <= p < |ys| ==> NoDouble(ys[p])
    requires forall s, t :: s != t ==> rank(s) != rank(t)
    ensures (|xs| == |ys| && ItemsEqual(xs, ys, k)) || ItemsLess(rank, xs, ys, k) || ItemsLess(rank, ys, xs, k)
    decreases ItemsSize(xs, k) + ItemsSize(ys, k), 1
  {
    if k < |xs| && k < |ys| {
      Trichotomy(rank, xs[k], ys[k]);
      ItemsTrichotomy(rank, xs, ys, k + 1);
    }
  }

  lemma {:induction false} MembersTrichotomy(rank: JsonType -> nat, ms: seq<Member>, ns: seq<Member>, k: nat)
    requires k <= |ms| && k <= |ns|
    requires forall p {:trigger NoDouble(ms[p].value)} :: 0 <= p < |ms| ==> NoDouble(ms[p].value)
    requires forall p {:trigger NoDouble(ns[p].value)} :: 0 <= p < |ns| ==> NoDouble(ns[p].value)
    requires forall s, t :: s != t ==> rank(s) != rank(t)
    ensures (|ms| == |ns| && MembersEqual(ms, ns, k)) || MembersLess(rank, ms, ns, k) || MembersLess(rank, ns, ms, k)
    decreases MembersSize(ms, k) + MembersSize(ns, k), 2
  {
    if k < |ms| && k < |ns| {
      Trichotomy(rank, ms[k].value, ns[k].value);
      KeyLessTotal(ms[k].key, ns[k].key);
      MembersTrichotomy(rank, ms, ns, k + 1);
    }
  }

  /* -------------------- integers compared as doubles -------------------- */

  /** Up to 2^53 in magnitude, two int64 compare as integers. */
  lemma IntCompareExact(rank: JsonType -> nat, x: Int64, y: Int64)
    requires -(TWO53 as int) <= x <= TWO53 && -(TWO53 as int) <= y <= TWO53
    ensures Equal(Int(x), Int(y)) <==> x == y
    ensures Less(rank, Int(x), Int(y)) <==> x < y
  {
    RoundExact(x);
    RoundExact(y);
  }

  /** Beyond 2^53 they do not: 2^53 and 2^53 + 1 are equal under
      operator==, and neither is less than the other. */
  lemma IntCompareRounded(rank: JsonType -> nat)
    ensures Equal(Int(TWO53), Int(TWO53 + 1))
    ensures !Less(rank, Int(TWO53), Int(TWO53 + 1)) && !Less(rank, Int(TWO53 + 1), Int(TWO53))
  {
    RoundExact(TWO53);
    RoundPastTwo53();
  }
}

/** BlockQueue<T>: a bounded FIFO guarded by a mutex and two condition
    variables, with an exit flag that releases every waiter. A wait on a
    condition variable is a precondition here: push is called when the
    queue is not full or exit is set, pop when it is not empty or exit is
    set. The queue's states and a run of operations are defined as values
    first; the class's methods are proved to follow them. */
module BlockQueues {
  import opened SeqUtil

  /** A C++ int. */
  type Int32 = x: int | -0x8000_0000 <= x < 0x8000_0000

  datatype Option<+T> = None | Some(value: T)

  /** The stored items, front first, and the exit flag. */
  datatype State<T> = State(items: seq<T>, exit: bool)

  /** push and pop compare m_queue.size(), a size_t, with m_max_size, an
      int: a negative capacity is converted to a huge size_t, so such a
      queue is never full. */
  function Bound(capacity: Int32): (n: nat)
  {
    if capacity >= 0 then capacity else capacity + 0x1_0000_0000_0000_0000
  }

  /** The int that a size_t count becomes when it is stored in an int:
      the count modulo 2^32, read as a two's-complement value (the
      conversion C++20 defines and GCC and Clang apply before it). */
  function ToInt32(n: nat): (r: Int32)
    ensures n < 0x8000_0000 ==> r == n
    ensures (n - r) % 0x1_0000_0000 == 0
  {
    var m := n % 0x1_0000_0000;
    if m < 0x8000_0000 then m else m - 0x1_0000_0000
  }

  /** A queue whose negative capacity let it hold 2^31 items reports a
      negative size. */
  lemma NarrowedSize()
    ensures Bound(-1) > 0x8000_0000 && ToInt32(0x8000_0000) == -0x8000_0000
  {
  }

  /** The queue never holds more than its bound. */
  predicate WithinBound(capacity: Int32, s: State)
  {
    |s.items| <= Bound(capacity)
  }

  /** push waits while the queue is full and exit is not set. */
  predicate PushWaits(capacity: Int32, s: State)
  {
    |s.items| == Bound(capacity) && !s.exit
  }

  /** pop waits while the queue is empty and exit is not set. */
  predicate PopWaits(s: State)
  {
    |s.items| == 0 && !s.exit
  }

  /** push once it no longer waits: nothing after exit, otherwise the item
      goes to the back. */
  function Pushed<T>(s: State<T>, item: T): State<T>
  {
    if s.exit then s else s.(items := s.items + [item])
  }

  /** pop once it no longer waits: T{} (here `empty`) on an empty queue
      after exit, otherwise the front item, which leaves the queue. */
  function Popped<T>(s: State<T>, empty: T): (T, State<T>)
    requires !PopWaits(s)
  {
    if s.exit && |s.items| == 0 then (empty, s) else (s.items[0], s.(items := s.items[1..]))
  }

  /** releaseAllCV */
  function Released<T>(s: State<T>): State<T>
  {
    s.(exit := true)
  }

  /** size() goes up by one on a push before exit and down by one on a
      pop of a stored item; exit itself stores or drops nothing. */
  lemma SizeSteps<T>(s: State<T>, item: T, empty: T)
    ensures !s.exit ==> |Pushed(s, item).items| == |s.items| + 1
    ensures s.exit ==> Pushed(s, item) == s
    ensures |s.items| > 0 ==> |Popped(s, empty).1.items| == |s.items| - 1 && Popped(s, empty).0 == s.items[0]
    ensures s.exit && |s.items| == 0 ==> Popped(s, empty) == (empty, s)
    ensures Released(s).items == s.items && Released(s).exit
  {
  }

  /* -------------------- one thread's operations in a row -------------------- */

  datatype Op<T> = Push(item: T) | Pop | Release

  /** The items popped and the state after running ops one after another;
      None when an operation would wait forever, no other thread being
      there to wake it. */
  function Run<T>(capacity: Int32, empty: T, s: State<T>, ops: seq<Op<T>>): Option<(seq<T>, State<T>)>
    decreases |ops|
  {
    if ops == [] then Some(([], s))
    else
      match ops[0]
      case Release => Run(capacity, empty, Released(s), ops[1..])
      case Push(x) =>
        if PushWaits(capacity, s) then None else Run(capacity, empty, Pushed(s, x), ops[1..])
      case Pop =>
        if PopWaits(s) then None
        else
          var (x, s1) := Popped(s, empty);
          match Run(capacity, empty, s1, ops[1..])
          case None => None
          case Some((outs, s2)) => Some(([x] + outs, s2))
  }

  /** The items ops push, in order. */
  function PushedItems<T>(ops: seq<Op<T>>): seq<T>
  {
    if ops == [] then []
    else if ops[0].Push? then [ops[0].item] + PushedItems(ops[1..])
    else PushedItems(ops[1..])
  }

  /** The number of pops in ops. */
  function PopCount<T>(ops: seq<Op<T>>): nat
  {
    if ops == [] then 0
    else (if ops[0].Pop? then 1 else 0) + PopCount(ops[1..])
  }

  /** Whether ops contains no releaseAllCV. */
  predicate NoRelease<T>(ops: seq<Op<T>>)
  {
    forall k :: 0 <= k < |ops| ==> !ops[k].Release?
  }

  /** First in, first out: before exit, the items popped followed by the
      items still stored are the items stored at first followed by the
      items pushed. */
  lemma {:induction false} RunFifo<T>(capacity: Int32, empty: T, s: State<T>, ops: seq<Op<T>>)
    requires !s.exit && NoRelease(ops) && Run(capacity, empty, s, ops).Some?
    ensures Run(capacity, empty, s, ops).value.0 + Run(capacity, empty, s, ops).value.1.items
      == s.items + PushedItems(ops)
    ensures !Run(capacity, empty, s, ops).value.1.exit
    decreases |ops|
  {
    if ops != [] {
      assert !ops[0].Release?;
      var rest := ops[1..];
      assert NoRelease(rest) by {
        forall k | 0 <= k < |rest| ensures !rest[k].Release? {
          assert rest[k] == ops[k + 1];
        }
      }
      match ops[0]
      case Push(x) =>
        RunFifo(capacity, empty, Pushed(s, x), rest);
        assert s.items + [x] + PushedItems(rest) == s.items + ([x] + PushedItems(rest));
      case Pop =>
        var s1 := s.(items := s.items[1..]);
        RunFifo(capacity, empty, s1, rest);
        var r := Run(capacity, empty, s1, rest).value;
        assert [s.items[0]] + r.0 + r.1.items == [s.items[0]] + (r.0 + r.1.items);
        assert [s.items[0]] + s.items[1..] == s.items;
    }
  }

  /** Every operation keeps the queue within its bound. */
  lemma {:induction false} RunWithinBound<T>(capacity: Int32, empty: T, s: State<T>, ops: seq<Op<T>>)
    requires WithinBound(capacity, s) && Run(capacity, empty, s, ops).Some?
    ensures WithinBound(capacity, Run(capacity, empty, s, ops).value.1)
    decreases |ops|
  {
    if ops != [] {
      match ops[0]
      case Release => RunWithinBound(capacity, empty, Released(s), ops[1..]);
      case Push(x) => RunWithinBound(capacity, empty, Pushed(s, x), ops[1..]);
      case Pop => RunWithinBound(capacity, empty, Popped(s, empty).1, ops[1..]);
    }
  }

  /** After exit with an empty queue every pop gives T{}. */
  lemma {:induction false} RunDrained<T>(capacity: Int32, empty: T, s: State<T>, ops: seq<Op<T>>)
    requires s.exit && s.items == []
    ensures Run(capacity, empty, s, ops) == Some((Copies(empty, PopCount(ops)), s))
    decreases |ops|
  {
    if ops != [] {
      RunDrained(capacity, empty, s, ops[1..]);
      assert Released(s) == s;
    }
  }

  /** After exit nothing waits, pushes change nothing, and pops drain the
      stored items in order, then give T{}. */
  lemma {:induction false} RunAfterExit<T>(capacity: Int32, empty: T, s: State<T>, ops: seq<Op<T>>)
    requires s.exit
    ensures Run(capacity, empty, s, ops).Some?
    ensures Run(capacity, empty, s, ops).value.0 == s.items[..Min(PopCount(ops), |s.items|)]
      + Copies(empty, PopCount(ops) - Min(PopCount(ops), |s.items|))
    ensures Run(capacity, empty, s, ops).value.1 == s.(items := s.items[Min(PopCount(ops), |s.items|)..])
    decreases |ops|
  {
    if s.items == [] {
      RunDrained(capacity, empty, s, ops);
      assert s.items[..0] == [] && s.items[0..] == s.items;
    } else if ops == [] {
      assert s.items[..0] == [] && s.items[0..] == s.items;
    } else {
      var rest := ops[1..];
      match ops[0]
      case Release =>
        assert Released(s) == s;
        RunAfterExit(capacity, empty, s, rest);
      case Push(x) =>
        RunAfterExit(capacity, empty, s, rest);
      case Pop =>
        var s1 := s.(items := s.items[1..]);
        RunAfterExit(capacity, empty, s1, rest);
        var r := Run(capacity, empty, s1, rest).value;
        assert Run(capacity, empty, s, ops) == Some(([s.items[0]] + r.0, r.1));
        PopAfterExit(s.items, PopCount(rest), Min(PopCount(rest), |s1.items|), empty);
    }
  }

  /** The arithmetic of RunAfterExit's step for a pop on a non-empty queue. */
  lemma PopAfterExit<T>(items: seq<T>, n: nat, m1: nat, empty: T)
    requires |items| > 0 && m1 == Min(n, |items| - 1)
    ensures Min(n + 1, |items|) == m1 + 1
    ensures [items[0]] + (items[1..][..m1] + Copies(empty, n - m1))
      == items[..m1 + 1] + Copies(empty, n + 1 - (m1 + 1))
    ensures items[1..][m1..] == items[m1 + 1..]
  {
    assert items[..m1 + 1] == [items[0]] + items[1..][..m1];
  }

  /* -------------------- the class -------------------- */

  class BlockQueue<T> {
    /** m_max_size */
    const capacity: Int32
    /** The T{} that pop returns on an empty queue after exit. */
    const empty: T
    /** m_queue, front first */
    var items: seq<T>
    /** bExit */
    var exit: bool

    ghost predicate Valid()
      reads this
    {
      WithinBound(capacity, State(items, exit))
    }

    /** BlockQueue(): a capacity of 1000. */
    constructor Default(empty: T)
      ensures capacity == 1000 && this.empty == empty
      ensures items == [] && !exit && Valid()
    {
      capacity := 1000;
      this.empty := empty;
      items := [];
      exit := false;
    }

    /** BlockQueue(int max_size) */
    constructor (maxSize: Int32, empty: T)
      ensures capacity == maxSize && this.empty == empty
      ensures items == [] && !exit && Valid()
    {
      capacity := maxSize;
      this.empty := empty;
      items := [];
      exit := false;
    }

    /** releaseAllCV, also run by the destructor. */
    method ReleaseAllCV()
      requires Valid()
      modifies this
      ensures State(items, exit) == Released(old(State(items, exit))) && Valid()
    {
      exit := true;
    }

    /** size(): the size_t count stored in an int. While the count fits
        in an int, which Valid() guarantees for a capacity that is not
        negative, that is the number of stored items. */
    method Size() returns (n: Int32)
      ensures n == ToInt32(|items|)
      ensures Valid() && capacity >= 0 ==> n == |items|
    {
      n := ToInt32(|items|);
    }

    /** push(item) */
    method Push(item: T)
      requires Valid() && !PushWaits(capacity, State(items, exit))
      modifies this
      ensures State(items, exit) == Pushed(old(State(items, exit)), item) && Valid()
    {
      if exit {
        return;
      }
      items := items + [item];
    }

    /** pop() */
    method Pop() returns (item: T)
      requires Valid() && !PopWaits(State(items, exit))
      modifies this
      ensures (item, State(items, exit)) == Popped(old(State(items, exit)), empty) && Valid()
    {
      if exit && |items| == 0 {
        item := empty;
        return;
      }
      item := items[0];
      items := items[1..];
    }
  }
}

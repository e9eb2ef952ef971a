/** The C++ UWB layer: UWBManager decodes 16-byte serial frames into
    distances and a tag id and queues them; UWBLocalizeSystem keeps the
    anchor list, turns each reading into a tag state and queues that.
    Distances are kept as the centimetres the frame carries; the float
    metres the source computes are Metres(cm), exact. The least-squares
    estimate is an input (its float arithmetic is not interpreted), and so
    are the serial reads. */
module UwbManager {
  import opened BlockQueues
  import opened SeqUtil

  /** An unsigned char of a frame. */
  type Byte = x: int | 0 <= x < 0x100

  /** MAX_ANCHOR_NUMS */
  const MAX_ANCHORS: nat := 3

  /** Capacity of both queues. */
  const QUEUE_SIZE: Int32 := 5

  /** The frame length readSerialData accepts. */
  const FRAME_LENGTH: nat := 16

  /** The tag-id byte that stands for tag 0 (the master tag). */
  const MASTER_TAG: Byte := 0x0F

  /** UWBData: three anchor-to-tag distances in centimetres and the tag id.
      A default-initialised member leaves the id uninitialised (None); the
      value-initialised `UWBData{}` has id 0. */
  datatype UWBData = UWBData(dis0: nat, dis1: nat, dis2: nat, tagId: Option<nat>)

  /** UWBData{}: the value a pop after exit returns. */
  const ZERO_DATA: UWBData := UWBData(0, 0, 0, Some(0))

  /** AnchorPos: the coordinates of an anchor, in metres. */
  datatype AnchorPos = AnchorPos(x: real, y: real)

  /** TAGState: the tag's estimated position and its id. */
  datatype TAGState = TAGState(x: real, y: real, tagId: Option<nat>)

  /** TAGState{}: the value a pop after exit returns. */
  const ZERO_STATE: TAGState := TAGState(0.0, 0.0, Some(0))

  /** A distance in metres: cm * 0.01, taken exactly. */
  function Metres(cm: nat): real
  {
    cm as real / 100.0
  }

  /** A big-endian pair of bytes as one number. */
  function Stitch(high: Byte, low: Byte): (r: nat)
  {
    high * 256 + low
  }

  /* -------------------- frames -------------------- */

  /** processRawData's decoding: distances from bytes (7, 6), (9, 8) and
      (11, 10), high byte first; tag id 0 for the byte 0x0F at index 3,
      otherwise that byte's value. */
  function Decode(raw: seq<Byte>): UWBData
    requires |raw| >= 12
  {
    UWBData(Stitch(raw[7], raw[6]), Stitch(raw[9], raw[8]), Stitch(raw[11], raw[10]),
            Some(if raw[3] == MASTER_TAG then 0 else raw[3]))
  }

  /** Every decoded distance is below 65536 cm, so within 0 and 655.35 m. */
  lemma DecodeRange(raw: seq<Byte>)
    requires |raw| >= 12
    ensures var d := Decode(raw);
      d.dis0 < 0x10000 && d.dis1 < 0x10000 && d.dis2 < 0x10000
      && 0.0 <= Metres(d.dis0) <= 655.35 && 0.0 <= Metres(d.dis1) <= 655.35 && 0.0 <= Metres(d.dis2) <= 655.35
      && d.tagId.Some? && d.tagId.value < 0x100
  {
  }

  /** Tag id 0 comes from two different bytes: the master marker 0x0F and
      a plain 0. */
  lemma DecodeTagZero(raw: seq<Byte>)
    requires |raw| >= 12
    ensures Decode(raw).tagId == Some(0) <==> raw[3] == MASTER_TAG || raw[3] == 0
  {
  }

  /** A frame as a sender would lay it out for three distances below
      65536 cm and a tag byte; the other bytes are `fill`. */
  function Frame(fill: seq<Byte>, tag: Byte, d0: nat, d1: nat, d2: nat): (r: seq<Byte>)
    requires |fill| == FRAME_LENGTH && d0 < 0x10000 && d1 < 0x10000 && d2 < 0x10000
    ensures |r| == FRAME_LENGTH
  {
    fill[3 := tag][6 := d0 % 256][7 := d0 / 256][8 := d1 % 256][9 := d1 / 256][10 := d2 % 256][11 := d2 / 256]
  }

  /** Decoding a laid-out frame gives back its distances and, for any tag
      byte other than the master marker, its tag byte. */
  lemma DecodeFrame(fill: seq<Byte>, tag: Byte, d0: nat, d1: nat, d2: nat)
    requires |fill| == FRAME_LENGTH && d0 < 0x10000 && d1 < 0x10000 && d2 < 0x10000
    ensures Decode(Frame(fill, tag, d0, d1, d2))
      == UWBData(d0, d1, d2, Some(if tag == MASTER_TAG then 0 else tag))
  {
  }

  /** What readSerialData pushes for a run of reads: the decoding of each
      read of exactly 16 bytes, in order; other reads add nothing. */
  function Frames(input: seq<seq<Byte>>): seq<UWBData>
  {
    if input == [] then []
    else (if |input[0]| == FRAME_LENGTH then [Decode(input[0])] else []) + Frames(input[1..])
  }

  /** Frames of reads taken in two runs is the frames of each run. */
  lemma {:induction false} FramesAppend(a: seq<seq<Byte>>, b: seq<seq<Byte>>)
    ensures Frames(a + b) == Frames(a) + Frames(b)
  {
    if a == [] {
      assert a + b == b;
    } else {
      assert (a + b)[0] == a[0] && (a + b)[1..] == a[1..] + b;
      FramesAppend(a[1..], b);
      var head := if |a[0]| == FRAME_LENGTH then [Decode(a[0])] else [];
      assert head + (Frames(a[1..]) + Frames(b)) == head + Frames(a[1..]) + Frames(b);
    }
  }

  /** A single read gives one frame when it is 16 bytes long and none
      otherwise. */
  lemma FramesOne(read: seq<Byte>)
    ensures Frames([read]) == if |read| == FRAME_LENGTH then [Decode(read)] else []
  {
    assert [read][1..] == [];
  }

  /** Read k of a run moves from the frames still to come to the frames
      already taken. */
  lemma FramesStep(input: seq<seq<Byte>>, k: nat)
    requires k < |input|
    ensures Frames(input[k..]) == Frames([input[k]]) + Frames(input[k + 1..])
    ensures Frames(input[..k + 1]) == Frames(input[..k]) + Frames([input[k]])
  {
    assert input[k..] == [input[k]] + input[k + 1..];
    FramesAppend([input[k]], input[k + 1..]);
    assert input[..k + 1] == input[..k] + [input[k]];
    FramesAppend(input[..k], [input[k]]);
  }

  /** No more frames than reads. */
  lemma {:induction false} FramesCount(input: seq<seq<Byte>>)
    ensures |Frames(input)| <= |input|
  {
    if input != [] {
      FramesCount(input[1..]);
    }
  }

  /* -------------------- anchors -------------------- */

  /** setAnchorPosition: appended only while fewer than three are kept. */
  function AddAnchor(anchors: seq<AnchorPos>, a: AnchorPos): seq<AnchorPos>
  {
    if |anchors| < MAX_ANCHORS then anchors + [a] else anchors
  }

  /** The anchor list never grows past three, and an added anchor goes to
      the back. */
  lemma AddAnchorBounded(anchors: seq<AnchorPos>, a: AnchorPos)
    requires |anchors| <= MAX_ANCHORS
    ensures |AddAnchor(anchors, a)| <= MAX_ANCHORS
    ensures |anchors| < MAX_ANCHORS <==> AddAnchor(anchors, a) == anchors + [a]
  {
  }

  /** The layout activeUWBSystem installs. */
  const DEFAULT_ANCHORS: seq<AnchorPos> := [AnchorPos(0.0, 0.0), AnchorPos(-0.5, 3.65), AnchorPos(-4.34, 1.13)]

  /** The anchor list after activeUWBSystem's three setAnchorPosition
      calls. */
  function Activated(anchors: seq<AnchorPos>): seq<AnchorPos>
  {
    AddAnchor(AddAnchor(AddAnchor(anchors, DEFAULT_ANCHORS[0]), DEFAULT_ANCHORS[1]), DEFAULT_ANCHORS[2])
  }

  /** The three calls fill the list up to three with the first defaults,
      so the check for three anchors that follows always passes. */
  lemma ActivatedFills(anchors: seq<AnchorPos>)
    requires |anchors| <= MAX_ANCHORS
    ensures Activated(anchors) == anchors + DEFAULT_ANCHORS[..MAX_ANCHORS - |anchors|]
    ensures |Activated(anchors)| == MAX_ANCHORS
  {
    var d := DEFAULT_ANCHORS;
    assert d[..3] == [d[0], d[1], d[2]] && d[..2] == [d[0], d[1]] && d[..1] == [d[0]] && d[..0] == [];
  }

  /* -------------------- readings and tag states -------------------- */

  /** The queue and the cached reading after k getUWBState calls: each
      call takes the front of a non-empty queue into the cache, and leaves
      both alone when the queue is empty. */
  function ReadState(q: seq<UWBData>, cache: UWBData, k: nat): (seq<UWBData>, UWBData)
  {
    if k == 0 then (q, cache)
    else
      var (q1, c1) := ReadState(q, cache, k - 1);
      if q1 != [] then (q1[1..], q1[0]) else (q1, c1)
  }

  /** What k getUWBState calls return: each returns the cache as it is
      after the call. */
  function Readings(q: seq<UWBData>, cache: UWBData, k: nat): (r: seq<UWBData>)
    ensures |r| == k
  {
    if k == 0 then [] else Readings(q, cache, k - 1) + [ReadState(q, cache, k).1]
  }

  /** k getUWBState calls drain the queued readings in order, then keep
      returning the last one (or the cache, when nothing was queued). */
  lemma {:induction false} ReadStateDrains(q: seq<UWBData>, cache: UWBData, k: nat)
    ensures var m := Min(k, |q|);
      ReadState(q, cache, k) == (q[m..], if m == 0 then cache else q[m - 1])
    ensures var m := Min(k, |q|);
      forall p :: 0 <= p < k ==> Readings(q, cache, k)[p] == if p < m then q[p] else if m == 0 then cache else q[m - 1]
  {
    if k == 0 {
      assert q[0..] == q;
    } else {
      ReadStateDrains(q, cache, k - 1);
      var m := Min(k - 1, |q|);
      if m < |q| {
        assert q[m..][1..] == q[m + 1..];
      }
    }
  }

  /** processMLE's result for a reading and the estimate computed from
      it: the reading's tag id is handed on. */
  function TagFor(data: UWBData, estimate: (real, real)): TAGState
  {
    TAGState(estimate.0, estimate.1, data.tagId)
  }

  /** The tag states for readings and estimates taken pairwise. */
  function TagsFor(rs: seq<UWBData>, es: seq<(real, real)>): (r: seq<TAGState>)
    requires |rs| == |es|
    ensures |r| == |rs|
    ensures forall p :: 0 <= p < |r| ==> r[p].tagId == rs[p].tagId && r[p].x == es[p].0 && r[p].y == es[p].1
  {
    seq(|rs|, p requires 0 <= p < |rs| => TagFor(rs[p], es[p]))
  }

  /* -------------------- UWBManager -------------------- */

  class UWBManager {
    /** is_serial_opened_ */
    var isSerialOpened: bool
    /** uwb_data_Q_ */
    const queue: BlockQueue<UWBData>
    /** uwb_data_, the last reading taken */
    var uwbData: UWBData

    ghost predicate Valid()
      reads this, queue
    {
      queue.capacity == QUEUE_SIZE && queue.Valid()
    }

    /** UWBManager(): `portOpened` is whether the serial port opened; the read
        thread it then starts is ReadSerialData. */
    constructor (portOpened: bool)
      ensures isSerialOpened == portOpened && uwbData == UWBData(0, 0, 0, None)
      ensures fresh(queue) && queue.items == [] && !queue.exit && queue.empty == ZERO_DATA && Valid()
    {
      isSerialOpened := portOpened;
      queue := new BlockQueue(QUEUE_SIZE, ZERO_DATA);
      uwbData := UWBData(0, 0, 0, None);
    }

    /** closeUWBManager: the read loop stops; closing the port is I/O. */
    method CloseUWBManager()
      modifies this
      ensures !isSerialOpened && uwbData == old(uwbData)
    {
      isSerialOpened := false;
    }

    /** processRawData: decode and queue one frame. */
    method ProcessRawData(raw: seq<Byte>)
      requires Valid() && |raw| >= 12 && !PushWaits(queue.capacity, State(queue.items, queue.exit))
      modifies queue
      ensures Valid() && queue.exit == old(queue.exit)
      ensures queue.items == if queue.exit then old(queue.items) else old(queue.items) + [Decode(raw)]
    {
      queue.Push(Decode(raw));
    }

    /** readSerialData over the reads the port delivers while it is open:
        only reads of exactly 16 bytes are copied into a vector, decoded
        and queued. The queue must have room for them, since push would
        otherwise wait for a consumer. */
    method ReadSerialData(input: seq<seq<Byte>>)
      requires Valid() && (queue.exit || |queue.items| + |Frames(input)| <= QUEUE_SIZE)
      modifies queue
      ensures Valid() && queue.exit == old(queue.exit)
      ensures queue.items == if !isSerialOpened || queue.exit then old(queue.items) else old(queue.items) + Frames(input)
    {
      var k := 0;
      assert input[0..] == input && input[..0] == [];
      while isSerialOpened && k < |input|
        invariant 0 <= k <= |input| && Valid() && queue.exit == old(queue.exit)
        invariant !isSerialOpened ==> k == 0
        invariant queue.exit || |queue.items| + |Frames(input[k..])| <= QUEUE_SIZE
        invariant queue.items == if queue.exit then old(queue.items) else old(queue.items) + Frames(input[..k])
      {
        var data := input[k];
        FramesStep(input, k);
        FramesOne(data);
        if |data| == FRAME_LENGTH {
          var vector: seq<Byte> := [];
          for i := 0 to |data|
            invariant vector == data[..i]
          {
            vector := vector + [data[i]];
          }
          assert vector == data;
          ProcessRawData(vector);
        }
        k := k + 1;
      }
      if isSerialOpened {
        assert input[..k] == input;
      } else {
        assert old(queue.items) + Frames(input[..k]) == old(queue.items);
      }
    }

    /** getUWBState: the front of the queue when there is one, which
        becomes the cache; otherwise the cache. */
    method GetUWBState() returns (data: UWBData)
      requires Valid()
      modifies this, queue
      ensures Valid() && queue.exit == old(queue.exit) && isSerialOpened == old(isSerialOpened)
      ensures (queue.items, uwbData) == ReadState(old(queue.items), old(uwbData), 1)
      ensures data == uwbData
    {
      var n := queue.Size();
      if n != 0 {
        uwbData := queue.Pop();
      }
      data := uwbData;
    }
  }

  /* -------------------- UWBLocalizeSystem -------------------- */

  class UWBLocalizeSystem {
    /** uwb_system_is_active_ */
    var isActive: bool
    /** anchor_pos_list_ */
    var anchors: seq<AnchorPos>
    /** tag_state_Q_ */
    const tagQueue: BlockQueue<TAGState>
    /** tag_state_, the last tag state taken */
    var tagState: TAGState
    /** uwb_manager_ */
    const manager: UWBManager

    ghost predicate Valid()
      reads this, manager, manager.queue, tagQueue
    {
      manager.Valid() && tagQueue.capacity == QUEUE_SIZE && tagQueue.Valid() && |anchors| <= MAX_ANCHORS
    }

    /** UWBLocalizeSystem(): `portOpened` is whether the manager's serial port
        opened; `initial` stands for the uninitialised tag_state_. */
    constructor (portOpened: bool, initial: TAGState)
      ensures !isActive && anchors == [] && tagState == initial
      ensures fresh(manager) && fresh(manager.queue) && fresh(tagQueue)
      ensures manager.isSerialOpened == portOpened && manager.queue.items == [] && tagQueue.items == []
      ensures !manager.queue.exit && !tagQueue.exit && tagQueue.empty == ZERO_STATE && Valid()
    {
      isActive := false;
      anchors := [];
      tagQueue := new BlockQueue(QUEUE_SIZE, ZERO_STATE);
      tagState := initial;
      manager := new UWBManager(portOpened);
    }

    /** setAnchorPosition(x, y) */
    method SetAnchorPosition(x: real, y: real)
      requires Valid()
      modifies this
      ensures Valid() && anchors == AddAnchor(old(anchors), AnchorPos(x, y))
      ensures isActive == old(isActive) && tagState == old(tagState)
    {
      if |anchors| < MAX_ANCHORS {
        anchors := anchors + [AnchorPos(x, y)];
      }
    }

    /** activeUWBSystem: install the default layout, then activate when
        three anchors are kept (the estimation thread it starts is
        CaculateTagPosition). */
    method ActiveUWBSystem()
      requires Valid()
      modifies this
      ensures Valid() && anchors == Activated(old(anchors))
      ensures isActive == (old(isActive) || |anchors| == MAX_ANCHORS)
      ensures tagState == old(tagState)
    {
      SetAnchorPosition(0.0, 0.0);
      SetAnchorPosition(-0.5, 3.65);
      SetAnchorPosition(-4.34, 1.13);
      if |anchors| == MAX_ANCHORS {
        isActive := true;
      }
    }

    /** processMLE: push the state `estimate` gives, with the reading's tag
        id. The queue must have room, since push would otherwise wait. */
    method ProcessMLE(data: UWBData, estimate: (real, real))
      requires Valid() && |anchors| >= MAX_ANCHORS
      requires !PushWaits(tagQueue.capacity, State(tagQueue.items, tagQueue.exit))
      modifies tagQueue
      ensures Valid() && tagQueue.exit == old(tagQueue.exit)
      ensures tagQueue.items == if tagQueue.exit then old(tagQueue.items) else old(tagQueue.items) + [TagFor(data, estimate)]
    {
      tagQueue.Push(TagFor(data, estimate));
    }

    /** caculateTagPosition while the system is active, one round per
        estimate: take a reading, queue the tag state for it. */
    method CaculateTagPosition(estimates: seq<(real, real)>)
      requires Valid() && (isActive ==> |anchors| >= MAX_ANCHORS)
      requires tagQueue.exit || |tagQueue.items| + |estimates| <= QUEUE_SIZE
      modifies manager, manager.queue, tagQueue
      ensures Valid() && tagQueue.exit == old(tagQueue.exit)
      ensures manager.isSerialOpened == old(manager.isSerialOpened) && manager.queue.exit == old(manager.queue.exit)
      ensures var n := if isActive then |estimates| else 0;
        (manager.queue.items, manager.uwbData) == ReadState(old(manager.queue.items), old(manager.uwbData), n)
        && tagQueue.items == if tagQueue.exit then old(tagQueue.items)
           else old(tagQueue.items) + TagsFor(Readings(old(manager.queue.items), old(manager.uwbData), n), estimates[..n])
    {
      ghost var q0, c0, t0 := manager.queue.items, manager.uwbData, tagQueue.items;
      var k := 0;
      while isActive && k < |estimates|
        invariant 0 <= k <= |estimates| && Valid() && tagQueue.exit == old(tagQueue.exit)
        invariant manager.isSerialOpened == old(manager.isSerialOpened) && manager.queue.exit == old(manager.queue.exit)
        invariant isActive ==> |anchors| >= MAX_ANCHORS
        invariant !isActive ==> k == 0
        invariant (manager.queue.items, manager.uwbData) == ReadState(q0, c0, k)
        invariant tagQueue.items == if tagQueue.exit then t0 else t0 + TagsFor(Readings(q0, c0, k), estimates[..k])
      {
        var data := manager.GetUWBState();
        ProcessMLE(data, estimates[k]);
        assert Readings(q0, c0, k + 1) == Readings(q0, c0, k) + [data];
        assert TagsFor(Readings(q0, c0, k + 1), estimates[..k + 1])
          == TagsFor(Readings(q0, c0, k), estimates[..k]) + [TagFor(data, estimates[k])];
        k := k + 1;
      }
    }

    /** getTagState: the front of the queue when there is one, which
        becomes the cache; otherwise the cache. */
    method GetTagState() returns (state: TAGState)
      requires Valid()
      modifies this, tagQueue
      ensures Valid() && tagQueue.exit == old(tagQueue.exit) && isActive == old(isActive) && anchors == old(anchors)
      ensures old(tagQueue.items) != [] ==> state == old(tagQueue.items)[0] && tagQueue.items == old(tagQueue.items)[1..]
      ensures old(tagQueue.items) == [] ==> state == old(tagState) && tagQueue.items == []
      ensures tagState == state
    {
      var n := tagQueue.Size();
      if n != 0 {
        tagState := tagQueue.Pop();
      }
      state := tagState;
    }

    /** ~UWBLocalizeSystem: deactivate and close the manager. */
    method Shutdown()
      requires Valid()
      modifies this, manager
      ensures !isActive && !manager.isSerialOpened && anchors == old(anchors)
      ensures tagState == old(tagState) && manager.uwbData == old(manager.uwbData)
    {
      isActive := false;
      manager.CloseUWBManager();
    }
  }
}

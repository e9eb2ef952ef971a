/** The Python UWB layer (uwb_manager.py): a manager that keeps the last
    decoded distances of 16-byte serial lines, and a localization system
    that keeps anchor-to-anchor distances and the tag position. Python
    numbers are taken as exact reals; the serial lines are an input, and
    so are the cosine and sine of the angle the trigonometry computes.
    The exceptions caculateCosAngle can raise are modelled. */
module UwbManagerPy {

  datatype Option<T> = None | Some(value: T)

  /** A byte of a line read from the port. */
  type Byte = x: int | 0 <= x < 0x100

  /** The line length updateSensorData accepts. */
  const LINE_LENGTH: nat := 16

  /** stitchup(high, low): a big-endian pair of bytes, in centimetres, as
      metres. */
  function Stitchup(high: Byte, low: Byte): real
  {
    (high * 256 + low) as real / 100.0
  }

  /** A stitched distance is 0 exactly when both bytes are 0, and never
      beyond 655.35. */
  lemma StitchupRange(high: Byte, low: Byte)
    ensures 0.0 <= Stitchup(high, low) <= 655.35
    ensures Stitchup(high, low) == 0.0 <==> high == 0 && low == 0
  {
  }

  /** processRawData: anchors 0, 1 and 2 from bytes (8, 7), (10, 9) and
      (12, 11), high byte first; the fourth entry stays 0. */
  function ProcessRawData(raw: seq<Byte>): (r: seq<real>)
    requires |raw| >= 13
    ensures |r| == 4
  {
    [Stitchup(raw[8], raw[7]), Stitchup(raw[10], raw[9]), Stitchup(raw[12], raw[11]), 0.0]
  }

  /** A line whose bytes 7 to 12 carry the distances d0, d1 and d2 in
      centimetres, each low byte first, after any seven leading bytes
      and before any trailing ones. */
  function DistanceLine(head: seq<Byte>, d0: nat, d1: nat, d2: nat, tail: seq<Byte>): (r: seq<Byte>)
    requires |head| == 7 && d0 < 0x10000 && d1 < 0x10000 && d2 < 0x10000
    ensures |r| == 13 + |tail| && r[..7] == head && r[13..] == tail
  {
    head + [d0 % 256, d0 / 256, d1 % 256, d1 / 256, d2 % 256, d2 / 256] + tail
  }

  /** processRawData reads such a line back as the three distances in
      metres, in anchor order, and 0 for the fourth entry. */
  lemma DecodeLine(head: seq<Byte>, d0: nat, d1: nat, d2: nat, tail: seq<Byte>)
    requires |head| == 7 && d0 < 0x10000 && d1 < 0x10000 && d2 < 0x10000
    ensures ProcessRawData(DistanceLine(head, d0, d1, d2, tail))
      == [d0 as real / 100.0, d1 as real / 100.0, d2 as real / 100.0, 0.0]
  {
    var raw := DistanceLine(head, d0, d1, d2, tail);
    assert raw[7] == d0 % 256 && raw[8] == d0 / 256;
    assert raw[9] == d1 % 256 && raw[10] == d1 / 256;
    assert raw[11] == d2 % 256 && raw[12] == d2 / 256;
  }

  /** Python's sum() over a list of numbers. */
  function Sum(xs: seq<real>): real
  {
    if xs == [] then 0.0 else xs[0] + Sum(xs[1..])
  }

  /** The guard of caculateTagPosition on decoded distances: their sum is
      positive unless every distance byte (7 to 12) is zero. */
  lemma DecodedSumPositive(raw: seq<Byte>)
    requires |raw| >= 13
    ensures Sum(ProcessRawData(raw)) > 0.0 <==> exists k :: 7 <= k <= 12 && raw[k] != 0
  {
    var d := ProcessRawData(raw);
    StitchupRange(raw[8], raw[7]);
    StitchupRange(raw[10], raw[9]);
    StitchupRange(raw[12], raw[11]);
    assert d[3..][1..] == [] && d[2..][1..] == d[3..] && d[1..][1..] == d[2..];
    assert Sum(d[3..]) == 0.0;
    assert Sum(d[2..]) == d[2];
    assert Sum(d[1..]) == d[1] + d[2];
    assert Sum(d) == d[0] + d[1] + d[2];
    if Sum(d) > 0.0 {
      if d[0] > 0.0 {
        assert raw[7] != 0 || raw[8] != 0;
      } else if d[1] > 0.0 {
        assert raw[9] != 0 || raw[10] != 0;
      } else {
        assert raw[11] != 0 || raw[12] != 0;
      }
    }
  }

  /** tag_distance after updateSensorData has read `lines`: the decoding of
      the last line of exactly 16 bytes, or `d` when there is none. */
  function Latest(d: seq<real>, lines: seq<seq<Byte>>): seq<real>
  {
    if lines == [] then d
    else
      var last := lines[|lines| - 1];
      if |last| == LINE_LENGTH then ProcessRawData(last) else Latest(d, lines[..|lines| - 1])
  }

  /** Lines of any other length leave the distances as they were, and the
      distances come from the last 16-byte line when there is one. */
  lemma {:induction false} LatestIsLastLine(d: seq<real>, lines: seq<seq<Byte>>, j: int)
    requires -1 <= j < |lines|
    requires j >= 0 ==> |lines[j]| == LINE_LENGTH
    requires forall k :: j < k < |lines| ==> |lines[k]| != LINE_LENGTH
    ensures j == -1 ==> Latest(d, lines) == d
    ensures j >= 0 ==> Latest(d, lines) == ProcessRawData(lines[j])
    decreases |lines|
  {
    if lines != [] && |lines| - 1 != j {
      var init := lines[..|lines| - 1];
      assert forall k :: j < k < |init| ==> init[k] == lines[k];
      LatestIsLastLine(d, init, j);
    }
  }

  class UWBManager {
    /** tag_distance */
    var tagDistance: seq<real>
    /** active_flag_ */
    var activeFlag: bool
    /** serial_port_.is_open */
    var portOpen: bool

    /** __init__. serial.Serial either opens the port or raises, so on
        every path that returns the port is open; `portOpen` stands for the
        abstracted port's state, which closeUWBPort later clears. */
    constructor (portOpen: bool)
      ensures tagDistance == [0.0, 0.0, 0.0, 0.0] && !activeFlag && this.portOpen == portOpen
    {
      tagDistance := [0.0, 0.0, 0.0, 0.0];
      activeFlag := false;
      this.portOpen := portOpen;
    }

    /** updateSensorData over the lines readline returns while the manager
        is active and the port open: each line of exactly 16 bytes
        replaces the distances with its decoding. */
    method UpdateSensorData(lines: seq<seq<Byte>>)
      modifies this
      ensures activeFlag == old(activeFlag) && portOpen == old(portOpen)
      ensures tagDistance == if activeFlag && portOpen then Latest(old(tagDistance), lines) else old(tagDistance)
    {
      var k := 0;
      while activeFlag && portOpen && k < |lines|
        invariant 0 <= k <= |lines| && activeFlag == old(activeFlag) && portOpen == old(portOpen)
        invariant !(activeFlag && portOpen) ==> k == 0
        invariant tagDistance == Latest(old(tagDistance), lines[..k])
      {
        var raw := lines[k];
        assert lines[..k + 1][..k] == lines[..k];
        if |raw| == LINE_LENGTH {
          tagDistance := ProcessRawData(raw);
        }
        k := k + 1;
      }
      assert activeFlag && portOpen ==> lines[..k] == lines;
    }

    /** getUWBDistance */
    method GetUWBDistance() returns (d: seq<real>)
      ensures d == tagDistance
    {
      d := tagDistance;
    }

    /** startFetchDistance: the update thread it starts is
        UpdateSensorData. */
    method StartFetchDistance()
      modifies this
      ensures activeFlag && tagDistance == old(tagDistance) && portOpen == old(portOpen)
    {
      activeFlag := true;
    }

    /** closeUWBPort: the update loop stops and the port closes. */
    method CloseUWBPort()
      modifies this
      ensures !activeFlag && !portOpen && tagDistance == old(tagDistance)
    {
      activeFlag := false;
      portOpen := false;
    }
  }

  /** After closeUWBPort, updateSensorData changes nothing, whatever the
      port would deliver. */
  method CloseThenUpdate(m: UWBManager, lines: seq<seq<Byte>>)
    modifies m
    ensures m.tagDistance == old(m.tagDistance) && !m.activeFlag
  {
    m.CloseUWBPort();
    m.UpdateSensorData(lines);
  }

  class UWBLocalizationSystem {
    /** uwb_manager_ */
    const manager: UWBManager
    /** uwb_is_active_ */
    var uwbIsActive: bool
    /** const_anchor_dis: anchor 0 to 1, anchor 0 to 2, anchor 1 to 2 */
    var constAnchorDis: seq<real>
    /** base_angle_ */
    var baseAngle: real
    /** tag_position */
    var tagPosition: seq<real>
    /** stop_localize_thread_. __init__ never sets it: Python creates the
        attribute in startLocalizeTag (as False) or closeSystem (as True).
        The model starts it at false, the value startLocalizeTag gives it
        before its loop reads it. */
    var stopLocalize: bool

    /** __init__, which ends by activateUWBManager. */
    constructor (portOpen: bool)
      ensures fresh(manager) && manager.activeFlag && manager.portOpen == portOpen
      ensures manager.tagDistance == [0.0, 0.0, 0.0, 0.0] && uwbIsActive
      ensures constAnchorDis == [2.1, 2.1, 1.5] && baseAngle == 0.0 && tagPosition == [0.0, 0.0]
    {
      manager := new UWBManager(portOpen);
      uwbIsActive := false;
      constAnchorDis := [2.1, 2.1, 1.5];
      baseAngle := 0.0;
      tagPosition := [0.0, 0.0];
      stopLocalize := false;
      new;
      ActivateUWBManager();
    }

    /** activateUWBManager */
    method ActivateUWBManager()
      modifies this, manager
      ensures uwbIsActive && manager.activeFlag && manager.portOpen == old(manager.portOpen)
      ensures manager.tagDistance == old(manager.tagDistance)
      ensures constAnchorDis == old(constAnchorDis) && baseAngle == old(baseAngle) && tagPosition == old(tagPosition)
        && stopLocalize == old(stopLocalize)
    {
      manager.StartFetchDistance();
      uwbIsActive := true;
    }

    /** setAnchorDistance: the three anchor-to-anchor distances, in order;
        nothing else changes. */
    method SetAnchorDistance(a0a1: real, a0a2: real, a1a2: real)
      requires |constAnchorDis| == 3
      modifies this
      ensures constAnchorDis == [a0a1, a0a2, a1a2]
      ensures uwbIsActive == old(uwbIsActive) && baseAngle == old(baseAngle) && tagPosition == old(tagPosition)
      ensures stopLocalize == old(stopLocalize)
    {
      constAnchorDis := constAnchorDis[0 := a0a1];
      constAnchorDis := constAnchorDis[1 := a0a2];
      constAnchorDis := constAnchorDis[2 := a1a2];
    }

    /** caculateTagPosition: when the distances add up to more than 0, it
        calls caculateCosAngle twice (tag_dis[2] against anchor 0 to 2,
        then tag_dis[1] against anchor 0 to 1, both with tag_dis[0]); if
        either raises, the exception leaves the position as it was.
        Otherwise the tag is put at distance tag_dis[0] from anchor 0 in
        the direction whose cosine and sine the trigonometry gives. With
        a sum of 0 or less the position is left as it was. */
    method CaculateTagPosition(cosTheta: real, sinTheta: real) returns (raised: Option<PyError>)
      requires |manager.tagDistance| >= 3 && |constAnchorDis| >= 2 && |tagPosition| == 2
      modifies this
      ensures constAnchorDis == old(constAnchorDis) && uwbIsActive == old(uwbIsActive)
      ensures baseAngle == old(baseAngle) && stopLocalize == old(stopLocalize)
      ensures Sum(manager.tagDistance) <= 0.0 ==> raised == None && tagPosition == old(tagPosition)
      ensures Sum(manager.tagDistance) > 0.0 ==> raised == TagAngleError(manager.tagDistance, constAnchorDis)
      ensures raised.Some? ==> tagPosition == old(tagPosition)
      ensures Sum(manager.tagDistance) > 0.0 && raised == None ==>
        tagPosition == Toward(manager.tagDistance[0], cosTheta, sinTheta)
    {
      raised := None;
      var tagDis := manager.GetUWBDistance();
      if Sum(tagDis) > 0.0 {
        var anchor2 := CosArgument(tagDis[2], constAnchorDis[1], tagDis[0]);
        if anchor2.Raises? {
          return Some(anchor2.error);
        }
        var anchor1 := CosArgument(tagDis[1], constAnchorDis[0], tagDis[0]);
        if anchor1.Raises? {
          return Some(anchor1.error);
        }
        tagPosition := tagPosition[0 := tagDis[0] * cosTheta];
        tagPosition := tagPosition[1 := tagDis[0] * sinTheta];
        assert tagPosition == Toward(tagDis[0], cosTheta, sinTheta);
      }
    }

    /** getTagPosition */
    method GetTagPosition() returns (p: seq<real>)
      ensures p == tagPosition
    {
      p := tagPosition;
    }

    /** closeSystem */
    method CloseSystem()
      modifies this, manager
      ensures stopLocalize && !manager.activeFlag && !manager.portOpen
      ensures manager.tagDistance == old(manager.tagDistance) && tagPosition == old(tagPosition)
      ensures constAnchorDis == old(constAnchorDis) && baseAngle == old(baseAngle) && uwbIsActive == old(uwbIsActive)
    {
      stopLocalize := true;
      manager.CloseUWBPort();
    }
  }

  /** The exceptions caculateCosAngle raises. */
  datatype PyError = ZeroDivisionError | ValueError

  /** caculateCosAngle up to its math.acos: the argument it hands acos,
      or the exception it raises. */
  datatype CosArg = Arg(x: real) | Raises(error: PyError)

  /** Python's abs() on a number. */
  function Abs(x: real): real
  {
    if x < 0.0 then -x else x
  }

  /** caculateCosAngle(dis_a, dis_b, dis_c): sum1 = b^2 + c^2 - a^2 and
      sum2 = 2bc; dividing by abs(sum2) = 0 raises ZeroDivisionError, and
      math.acos raises ValueError on abs(sum1) / abs(sum2) above 1. What
      reaches acos lies in [0, 1]. */
  function CosArgument(disA: real, disB: real, disC: real): (r: CosArg)
    ensures r.Arg? ==> 0.0 <= r.x <= 1.0
    ensures r == Raises(ZeroDivisionError) <==> disB * disC == 0.0
  {
    var sum1 := disB * disB + disC * disC - disA * disA;
    var sum2 := 2.0 * disB * disC;
    if Abs(sum2) == 0.0 then Raises(ZeroDivisionError)
    else if Abs(sum1) / Abs(sum2) > 1.0 then Raises(ValueError)
    else Arg(Abs(sum1) / Abs(sum2))
  }

  /** For distances that are not negative, caculateCosAngle returns
      exactly when neither distance next to the angle is 0 and the three
      distances form a triangle: the side opposite the angle lies between
      the difference and the sum of the other two. */
  lemma CosArgumentDomain(disA: real, disB: real, disC: real)
    requires disA >= 0.0 && disB >= 0.0 && disC >= 0.0
    ensures CosArgument(disA, disB, disC).Arg? <==>
      disB > 0.0 && disC > 0.0 && Abs(disB - disC) <= disA <= disB + disC
  {
    var sum1 := disB * disB + disC * disC - disA * disA;
    var sum2 := 2.0 * disB * disC;
    if disB > 0.0 && disC > 0.0 {
      assert sum2 > 0.0 && Abs(sum2) == sum2;
      AtMostOne(Abs(sum1), sum2);
      assert sum2 - sum1 == disA * disA - (disB - disC) * (disB - disC);
      assert sum2 + sum1 == (disB + disC) * (disB + disC) - disA * disA;
      SquareOrder(Abs(disB - disC), disA);
      SquareOrder(disA, disB + disC);
      assert Abs(disB - disC) * Abs(disB - disC) == (disB - disC) * (disB - disC);
    }
  }

  /** For numbers that are not negative, squaring keeps their order. */
  lemma SquareOrder(x: real, y: real)
    requires x >= 0.0 && y >= 0.0
    ensures x <= y <==> x * x <= y * y
  {
    if x <= y {
      assert x * (y - x) >= 0.0 && y * (y - x) >= 0.0;
    } else {
      assert y * (x - y) >= 0.0 && x * (x - y) > 0.0;
    }
  }

  /** A quotient by a positive number is at most 1 exactly when the
      dividend is at most the divisor. */
  lemma AtMostOne(x: real, y: real)
    requires y > 0.0
    ensures x / y <= 1.0 <==> x <= y
  {
    assert x == (x / y) * y;
    if x / y <= 1.0 {
      assert (1.0 - x / y) * y >= 0.0;
    } else {
      assert (x / y - 1.0) * y > 0.0;
    }
  }

  /** The exception caculateTagPosition's two caculateCosAngle calls
      raise, the first one to raise, or None when both return. */
  function TagAngleError(tagDis: seq<real>, anchorDis: seq<real>): (r: Option<PyError>)
    requires |tagDis| >= 3 && |anchorDis| >= 2
    ensures r == None <==>
      CosArgument(tagDis[2], anchorDis[1], tagDis[0]).Arg? && CosArgument(tagDis[1], anchorDis[0], tagDis[0]).Arg?
  {
    var anchor2 := CosArgument(tagDis[2], anchorDis[1], tagDis[0]);
    var anchor1 := CosArgument(tagDis[1], anchorDis[0], tagDis[0]);
    if anchor2.Raises? then Some(anchor2.error)
    else if anchor1.Raises? then Some(anchor1.error)
    else None
  }

  /** A tag at distance 0 from anchor 0 makes caculateTagPosition raise
      ZeroDivisionError, whatever the other distances. */
  lemma ZeroDistanceRaises(tagDis: seq<real>, anchorDis: seq<real>)
    requires |tagDis| >= 3 && |anchorDis| >= 2 && tagDis[0] == 0.0
    ensures TagAngleError(tagDis, anchorDis) == Some(ZeroDivisionError)
  {
    assert anchorDis[1] * tagDis[0] == 0.0;
  }

  /** For distances that are not negative, caculateTagPosition raises
      nothing exactly when the tag's distance to anchor 0 is positive, the
      anchor-to-anchor distances it uses are positive, and the tag with
      anchors 0 and 2 and the tag with anchors 0 and 1 each form a
      triangle. */
  lemma TagAngleDomain(tagDis: seq<real>, anchorDis: seq<real>)
    requires |tagDis| >= 3 && |anchorDis| >= 2
    requires tagDis[0] >= 0.0 && tagDis[1] >= 0.0 && tagDis[2] >= 0.0
    requires anchorDis[0] >= 0.0 && anchorDis[1] >= 0.0
    ensures TagAngleError(tagDis, anchorDis) == None <==>
      tagDis[0] > 0.0 && anchorDis[0] > 0.0 && anchorDis[1] > 0.0 &&
      Abs(anchorDis[1] - tagDis[0]) <= tagDis[2] <= anchorDis[1] + tagDis[0] &&
      Abs(anchorDis[0] - tagDis[0]) <= tagDis[1] <= anchorDis[0] + tagDis[0]
  {
    CosArgumentDomain(tagDis[2], anchorDis[1], tagDis[0]);
    CosArgumentDomain(tagDis[1], anchorDis[0], tagDis[0]);
  }

  /** The point at distance r from anchor 0 in the direction (c, s). */
  function Toward(r: real, c: real, s: real): seq<real>
  {
    [r * c, r * s]
  }

  /** A position set from a unit direction lies on the circle about
      anchor 0 whose radius is the tag's distance to it. */
  lemma PositionOnCircle(r: real, c: real, s: real)
    requires c * c + s * s == 1.0
    ensures Toward(r, c, s)[0] * Toward(r, c, s)[0] + Toward(r, c, s)[1] * Toward(r, c, s)[1] == r * r
  {
    calc {
      (r * c) * (r * c) + (r * s) * (r * s);
      r * r * (c * c + s * s);
      r * r;
    }
  }
}

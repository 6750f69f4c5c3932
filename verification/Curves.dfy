/** The piecewise-linear maps `pwm_map`, `tacho_map` and `sensor_get_duty`, which share one algorithm
    and differ in the number types of their tables. Values are reals. */
module Curves {

  datatype Point = Point(x: real, y: real)

  /** The configuration keeps at least two points in every table. */
  predicate Usable(m: seq<Point>) { 2 <= |m| }

  /** The search loop: first index from `i` on that is not left of `v`, or the last index. */
  function SegmentFrom(m: seq<Point>, v: real, i: nat): (k: nat)
    requires Usable(m) && 1 <= i < |m|
    ensures i <= k < |m|
    ensures forall j :: i <= j < k ==> m[j].x < v
    ensures k == |m| - 1 || v <= m[k].x
    decreases |m| - i
  {
    if i < |m| - 1 && m[i].x < v then SegmentFrom(m, v, i + 1) else i
  }

  function Line(a: Point, b: Point, v: real): real
    requires a.x < b.x
  {
    a.y + (b.y - a.y) / (b.x - a.x) * (v - a.x)
  }

  function Apply(m: seq<Point>, v: real): real
    requires Usable(m)
  {
    if v <= m[0].x then m[0].y
    else
      var k := SegmentFrom(m, v, 1);
      if v >= m[k].x then m[k].y else Line(m[k - 1], m[k], v)
  }

  /** The C function. The divisor is positive for every table, sorted or not: that is what makes the
      division below well defined. */
  method Map(m: seq<Point>, v: real) returns (r: real)
    requires Usable(m)
    ensures r == Apply(m, v)
  {
    if v <= m[0].x {
      return m[0].y;
    }
    var i := 1;
    while i < |m| - 1 && m[i].x < v
      invariant 1 <= i < |m|
      invariant m[i - 1].x < v
      invariant SegmentFrom(m, v, i) == SegmentFrom(m, v, 1)
    {
      i := i + 1;
    }
    if v >= m[i].x {
      return m[i].y;
    }
    var left, right := m[i - 1], m[i];
    var divisor := right.x - left.x;
    assert divisor > 0.0;
    r := Line(left, right, v);
  }

  // --------------------------------------------------------------------------------------------

  lemma MulNonNegative(a: real, b: real)
    requires 0.0 <= a && 0.0 <= b
    ensures 0.0 <= a * b
  {
  }

  lemma SlopeTimesWidth(a: Point, b: Point)
    requires a.x < b.x
    ensures (b.y - a.y) / (b.x - a.x) * (b.x - a.x) == b.y - a.y
  {
  }

  /** Difference of two values on one line. */
  lemma LineDifference(a: Point, b: Point, v: real, w: real)
    requires a.x < b.x
    ensures Line(a, b, w) - Line(a, b, v) == (b.y - a.y) / (b.x - a.x) * (w - v)
    ensures Line(a, b, a.x) == a.y && Line(a, b, b.x) == b.y
  {
    var s := (b.y - a.y) / (b.x - a.x);
    assert s * (w - a.x) - s * (v - a.x) == s * (w - v);
    SlopeTimesWidth(a, b);
  }

  /** A line moves in the direction of its end points. */
  lemma LineMonotone(a: Point, b: Point, v: real, w: real)
    requires a.x < b.x && v <= w
    ensures a.y <= b.y ==> Line(a, b, v) <= Line(a, b, w)
    ensures b.y <= a.y ==> Line(a, b, w) <= Line(a, b, v)
  {
    LineDifference(a, b, v, w);
    var s := (b.y - a.y) / (b.x - a.x);
    SlopeTimesWidth(a, b);
    if a.y <= b.y {
      assert 0.0 <= s by { if s < 0.0 { MulNonNegative(-s, b.x - a.x); } }
      MulNonNegative(s, w - v);
    }
    if b.y <= a.y {
      assert s <= 0.0 by { if s > 0.0 { MulNonNegative(s, b.x - a.x); } }
      MulNonNegative(-s, w - v);
    }
  }

  lemma LineBetween(a: Point, b: Point, v: real)
    requires a.x <= v <= b.x && a.x < b.x
    ensures a.y <= Line(a, b, v) <= b.y || b.y <= Line(a, b, v) <= a.y
  {
    LineDifference(a, b, a.x, v);
    LineMonotone(a, b, a.x, v);
    LineMonotone(a, b, v, b.x);
  }

  /** The output never leaves the range of the table's outputs, whatever the order of its inputs. */
  lemma WithinOutputs(m: seq<Point>, v: real, lo: real, hi: real)
    requires Usable(m) && forall k :: 0 <= k < |m| ==> lo <= m[k].y <= hi
    ensures lo <= Apply(m, v) <= hi
  {
    if v > m[0].x {
      var k := SegmentFrom(m, v, 1);
      if v < m[k].x { LineBetween(m[k - 1], m[k], v); }
    }
  }

  predicate Rising(m: seq<Point>) {
    forall j, k :: 0 <= j < k < |m| ==> m[j].y <= m[k].y
  }

  lemma {:induction false} SegmentMonotone(m: seq<Point>, v: real, w: real, i: nat)
    requires Usable(m) && 1 <= i < |m| && v <= w
    ensures SegmentFrom(m, v, i) <= SegmentFrom(m, w, i)
    decreases |m| - i
  {
    if i < |m| - 1 && m[i].x < v {
      SegmentMonotone(m, v, w, i + 1);
    }
  }

  /** With `k` the segment chosen for `v`, the value lies between the two outputs of the segment. */
  lemma WithinSegment(m: seq<Point>, v: real)
    requires Usable(m) && Rising(m) && v > m[0].x
    ensures var k := SegmentFrom(m, v, 1); m[k - 1].y <= Apply(m, v) <= m[k].y
  {
    var k := SegmentFrom(m, v, 1);
    if v < m[k].x { LineBetween(m[k - 1], m[k], v); }
  }

  /** Non-decreasing outputs make the whole curve non-decreasing, even on unsorted inputs. */
  lemma Monotone(m: seq<Point>, v: real, w: real)
    requires Usable(m) && Rising(m) && v <= w
    ensures Apply(m, v) <= Apply(m, w)
  {
    if w > m[0].x {
      WithinSegment(m, w);
      var l := SegmentFrom(m, w, 1);
      if v > m[0].x {
        WithinSegment(m, v);
        SegmentMonotone(m, v, w, 1);
        var k := SegmentFrom(m, v, 1);
        if k == l && w < m[k].x { LineMonotone(m[k - 1], m[k], v, w); }
        if k < l && k < l - 1 { assert m[k].y <= m[l - 1].y; }
      } else if 0 < l - 1 {
        assert m[0].y <= m[l - 1].y;
      }
    }
  }

  /** Without rising outputs a higher input can give a lower output, so the condition is needed. */
  lemma MonotoneOnlyIfRising(m: seq<Point>)
    requires Usable(m) && StrictlySorted(m)
    ensures (forall v, w :: v <= w ==> Apply(m, v) <= Apply(m, w)) <==> Rising(m)
  {
    if Rising(m) {
      forall v, w | v <= w ensures Apply(m, v) <= Apply(m, w) { Monotone(m, v, w); }
    } else {
      var j, k :| 0 <= j < k < |m| && m[j].y > m[k].y;
      HitsEveryPoint(m, j);
      HitsEveryPoint(m, k);
      assert m[j].x <= m[k].x && Apply(m, m[j].x) > Apply(m, m[k].x);
    }
  }

  predicate StrictlySorted(m: seq<Point>) {
    forall j, k :: 0 <= j < k < |m| ==> m[j].x < m[k].x
  }

  /** A strictly sorted table is met exactly at every point. */
  lemma HitsEveryPoint(m: seq<Point>, k: nat)
    requires Usable(m) && StrictlySorted(m) && k < |m|
    ensures Apply(m, m[k].x) == m[k].y
  {
    if k > 0 {
      var i := SegmentFrom(m, m[k].x, 1);
      assert i == k;
    }
  }

  /** Between two neighbouring points of a strictly sorted table the value is on the line through both,
      and outside the table it is that of the nearest point. */
  lemma OnTheLine(m: seq<Point>, v: real, k: nat)
    requires Usable(m) && StrictlySorted(m) && k + 1 < |m|
    ensures m[k].x <= v <= m[k + 1].x ==>
              (Apply(m, v) - m[k].y) * (m[k + 1].x - m[k].x) == (m[k + 1].y - m[k].y) * (v - m[k].x)
    ensures v <= m[0].x ==> Apply(m, v) == m[0].y
    ensures v >= m[|m| - 1].x ==> Apply(m, v) == m[|m| - 1].y
  {
    if v == m[k].x {
      HitsEveryPoint(m, k);
    } else if m[k].x < v <= m[k + 1].x {
      SegmentOf(m, v, k);
      LineThrough(m[k], m[k + 1], v);
    }
  }

  lemma SegmentOf(m: seq<Point>, v: real, k: nat)
    requires Usable(m) && StrictlySorted(m) && k + 1 < |m| && m[k].x < v <= m[k + 1].x
    ensures v > m[0].x && Apply(m, v) == Line(m[k], m[k + 1], v)
  {
    assert SegmentFrom(m, v, 1) == k + 1;
    LineDifference(m[k], m[k + 1], v, v);
  }

  lemma LineThrough(a: Point, b: Point, v: real)
    requires a.x < b.x
    ensures (Line(a, b, v) - a.y) * (b.x - a.x) == (b.y - a.y) * (v - a.x)
  {
    var slope := (b.y - a.y) / (b.x - a.x);
    SlopeTimesWidth(a, b);
    Swap(slope, v - a.x, b.x - a.x);
  }

  lemma Swap(x: real, y: real, z: real)
    ensures x * y * z == x * z * y
  {
  }

  function Abs(r: real): real { if r < 0.0 then -r else r }

  /** No segment is steeper than `slope`. */
  predicate SlopesWithin(m: seq<Point>, slope: real) {
    && 0.0 <= slope
    && forall k :: 0 < k < |m| ==> SegmentWithin(m, slope, k)
  }

  predicate SegmentWithin(m: seq<Point>, slope: real, k: nat)
    requires 0 < k < |m|
  {
    Abs(m[k].y - m[k - 1].y) <= slope * (m[k].x - m[k - 1].x)
  }

  lemma {:induction false} PointsLipschitz(m: seq<Point>, slope: real, j: nat, k: nat)
    requires StrictlySorted(m) && SlopesWithin(m, slope) && j <= k < |m|
    ensures Abs(m[k].y - m[j].y) <= slope * (m[k].x - m[j].x)
    decreases k - j
  {
    if j < k {
      PointsLipschitz(m, slope, j, k - 1);
      assert SegmentWithin(m, slope, k);
      Triangle(slope, m[j].x, m[k - 1].x, m[k].x, m[j].y, m[k - 1].y, m[k].y);
    }
  }

  lemma Distribute(c: real, x: real, y: real, z: real)
    ensures c * (z - x) == c * (y - x) + c * (z - y)
  {
  }

  lemma ScaledAtMost(a: real, b: real, width: real)
    requires 0.0 < width && a * width <= b * width
    ensures a <= b
  {
    if a > b {
      MulPositive(a - b, width);
      Factor(a, b, width);
    }
  }

  lemma Negated(a: real, b: real)
    ensures (-a) * b == -(a * b)
  {
  }

  /** A slope with a bounded rise over a positive width is bounded. */
  lemma SlopeBounded(s: real, slope: real, width: real)
    requires 0.0 < width && Abs(s * width) <= slope * width
    ensures -slope <= s <= slope
  {
    ScaledAtMost(s, slope, width);
    Negated(slope, width);
    ScaledAtMost(-slope, s, width);
  }

  lemma RiseBounded(s: real, slope: real, d: real)
    requires -slope <= s <= slope && 0.0 <= d
    ensures Abs(s * d) <= slope * d
  {
    MulNonNegative(slope - s, d);
    MulNonNegative(s + slope, d);
    Factor(slope, s, d);
    Factor(s, -slope, d);
    Negated(slope, d);
  }

  lemma LineLipschitz(a: Point, b: Point, slope: real, v: real, w: real)
    requires a.x < b.x && v <= w && 0.0 <= slope && Abs(b.y - a.y) <= slope * (b.x - a.x)
    ensures Abs(Line(a, b, w) - Line(a, b, v)) <= slope * (w - v)
  {
    var s, width := (b.y - a.y) / (b.x - a.x), b.x - a.x;
    SlopeTimesWidth(a, b);
    SlopeBounded(s, slope, width);
    LineDifference(a, b, v, w);
    RiseBounded(s, slope, w - v);
  }

  lemma MulPositive(a: real, b: real)
    requires 0.0 < a && 0.0 < b
    ensures 0.0 < a * b
  {
  }

  lemma Factor(a: real, b: real, c: real)
    ensures (a - b) * c == a * c - b * c
  {
  }

  function Clamped(m: seq<Point>, v: real): real
    requires Usable(m)
  {
    if v < m[0].x then m[0].x else if v > m[|m| - 1].x then m[|m| - 1].x else v
  }

  /** Inside its range a strictly sorted curve is the line through the chosen segment. */
  lemma OnSegment(m: seq<Point>, v: real) returns (k: nat)
    requires Usable(m) && StrictlySorted(m) && m[0].x <= v <= m[|m| - 1].x
    ensures 0 < k < |m| && m[k - 1].x <= v <= m[k].x && Apply(m, v) == Line(m[k - 1], m[k], v)
    ensures v > m[0].x ==> k == SegmentFrom(m, v, 1)
    ensures v == m[0].x ==> k == 1
  {
    k := if v == m[0].x then 1 else SegmentFrom(m, v, 1);
    LineDifference(m[k - 1], m[k], v, v);
  }

  lemma ClampedApply(m: seq<Point>, v: real)
    requires Usable(m) && StrictlySorted(m)
    ensures Apply(m, v) == Apply(m, Clamped(m, v))
  {
    if v > m[|m| - 1].x {
      HitsEveryPoint(m, |m| - 1);
      assert SegmentFrom(m, v, 1) == |m| - 1;
    }
  }

  lemma Triangle(slope: real, x: real, y: real, z: real, fx: real, fy: real, fz: real)
    requires Abs(fy - fx) <= slope * (y - x) && Abs(fz - fy) <= slope * (z - y)
    ensures Abs(fz - fx) <= slope * (z - x)
  {
    Distribute(slope, x, y, z);
  }

  lemma SegmentLipschitz(m: seq<Point>, slope: real, k: nat, v: real, w: real)
    requires StrictlySorted(m) && SlopesWithin(m, slope) && 0 < k < |m| && v <= w
    ensures Abs(Line(m[k - 1], m[k], w) - Line(m[k - 1], m[k], v)) <= slope * (w - v)
    ensures Line(m[k - 1], m[k], m[k - 1].x) == m[k - 1].y && Line(m[k - 1], m[k], m[k].x) == m[k].y
  {
    assert SegmentWithin(m, slope, k);
    LineLipschitz(m[k - 1], m[k], slope, v, w);
    LineDifference(m[k - 1], m[k], v, w);
  }

  lemma AcrossSegments(m: seq<Point>, slope: real, j: nat, k: nat, v: real, w: real, fv: real, fw: real)
    requires StrictlySorted(m) && SlopesWithin(m, slope) && 0 < j < k < |m|
    requires Abs(m[j].y - fv) <= slope * (m[j].x - v) && Abs(fw - m[k - 1].y) <= slope * (w - m[k - 1].x)
    ensures Abs(fw - fv) <= slope * (w - v)
  {
    PointsLipschitz(m, slope, j, k - 1);
    Triangle(slope, v, m[j].x, m[k - 1].x, fv, m[j].y, m[k - 1].y);
    Triangle(slope, v, m[k - 1].x, w, fv, m[k - 1].y, fw);
  }

  lemma InsideLipschitz(m: seq<Point>, slope: real, v: real, w: real)
    requires Usable(m) && StrictlySorted(m) && SlopesWithin(m, slope)
    requires m[0].x <= v <= w <= m[|m| - 1].x
    ensures Abs(Apply(m, w) - Apply(m, v)) <= slope * (w - v)
  {
    var j := OnSegment(m, v);
    var k := OnSegment(m, w);
    assert j <= k by { if v > m[0].x { SegmentMonotone(m, v, w, 1); } }
    LipschitzBetween(m, slope, j, k, v, w, Apply(m, v), Apply(m, w));
  }

  lemma LipschitzBetween(m: seq<Point>, slope: real, j: nat, k: nat, v: real, w: real, fv: real, fw: real)
    requires StrictlySorted(m) && SlopesWithin(m, slope) && 0 < j <= k < |m| && v <= w
    requires m[j - 1].x <= v <= m[j].x && m[k - 1].x <= w <= m[k].x
    requires fv == Line(m[j - 1], m[j], v) && fw == Line(m[k - 1], m[k], w)
    ensures Abs(fw - fv) <= slope * (w - v)
  {
    if j == k {
      SegmentLipschitz(m, slope, k, v, w);
    } else {
      SegmentLipschitz(m, slope, j, v, m[j].x);
      SegmentLipschitz(m, slope, k, m[k - 1].x, w);
      AcrossSegments(m, slope, j, k, v, w, fv, fw);
    }
  }

  lemma ClampInside(m: seq<Point>, v: real, w: real)
    requires Usable(m) && StrictlySorted(m) && v <= w
    ensures m[0].x <= Clamped(m, v) <= Clamped(m, w) <= m[|m| - 1].x
    ensures Clamped(m, w) - Clamped(m, v) <= w - v
  {
    assert m[0].x < m[|m| - 1].x;
  }

  lemma Spread(c: real, x: real, y: real, d: real)
    requires 0.0 <= c && x <= y && d <= c * x
    ensures d <= c * y
  {
    MulNonNegative(c, y - x);
    Distribute(c, 0.0, x, y);
  }

  lemma WiderBound(m: seq<Point>, slope: real, a: real, b: real, width: real)
    requires Usable(m) && 0.0 <= slope && b - a <= width
    requires Abs(Apply(m, b) - Apply(m, a)) <= slope * (b - a)
    ensures Abs(Apply(m, b) - Apply(m, a)) <= slope * width
  {
    Spread(slope, b - a, width, Abs(Apply(m, b) - Apply(m, a)));
  }

  lemma WiderLipschitz(m: seq<Point>, slope: real, a: real, b: real, width: real)
    requires Usable(m) && StrictlySorted(m) && SlopesWithin(m, slope)
    requires m[0].x <= a <= b <= m[|m| - 1].x && b - a <= width
    ensures Abs(Apply(m, b) - Apply(m, a)) <= slope * width
  {
    assert Abs(Apply(m, b) - Apply(m, a)) <= slope * (b - a) by { InsideLipschitz(m, slope, a, b); }
    WiderBound(m, slope, a, b, width);
  }

  lemma ClampedLipschitz(m: seq<Point>, slope: real, v: real, w: real, width: real)
    requires Usable(m) && StrictlySorted(m) && SlopesWithin(m, slope) && v <= w && w - v <= width
    ensures Abs(Apply(m, Clamped(m, w)) - Apply(m, Clamped(m, v))) <= slope * width
  {
    ClampInside(m, v, w);
    WiderLipschitz(m, slope, Clamped(m, v), Clamped(m, w), width);
  }

  lemma SameGap(m: seq<Point>, v: real, w: real)
    requires Usable(m) && StrictlySorted(m)
    ensures Abs(Apply(m, w) - Apply(m, v)) == Abs(Apply(m, Clamped(m, w)) - Apply(m, Clamped(m, v)))
  {
    ClampedApply(m, v);
    ClampedApply(m, w);
  }

  /** A strictly sorted curve is never steeper than its steepest segment, jumps included: inputs at
      most `distance` apart give outputs at most `slope * distance` apart. */
  lemma Lipschitz(m: seq<Point>, slope: real, v: real, w: real, distance: real)
    requires Usable(m) && StrictlySorted(m) && SlopesWithin(m, slope)
    requires v <= w && w - v <= distance
    ensures Abs(Apply(m, w) - Apply(m, v)) <= slope * distance
  {
    ClampedLipschitz(m, slope, v, w, distance);
    SameGap(m, v, w);
  }
}

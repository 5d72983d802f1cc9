/** Pose and polarity from the rotated bounding rectangle (kinematics.py).

    The rectangle itself (`cv2.minAreaRect`, `cv2.boxPoints`), the axis
    unit vector `u` (cos/sin of theta) and the sample points of each cap
    line (`linspace`, the offsets along `u` and `v`, rounding) are inputs:
    the corners and sizes as reals, and the rounded sample points through
    the `samples` parameter.  What is modelled is the decision logic on
    top of them. */
module Kinematics {
  import opened Common
  import opened Config

  /** A point with real coordinates (a rectangle corner or a cap midpoint). */
  datatype Vec = Vec(x: real, y: real)

  function Abs(r: real): real
  {
    if r < 0.0 then -r else r
  }

  /** The 1e-6 guard added to the short axis before dividing. */
  const Guard: real := 0.000001

  // ------------------------------------------------------------------
  // Pose
  // ------------------------------------------------------------------

  /** A ratio `x / d` with `d > 0` lies strictly within `eps` of 1 exactly
      when `x` lies strictly within `eps * d` of `d`. */
  lemma RatioNearOne(x: real, d: real, eps: real)
    requires d > 0.0
    ensures Abs(x / d - 1.0) < eps <==> Abs(x - d) < eps * d
  {
    var q := x / d;
    assert q * d == x;
    assert (q - 1.0) * d == x - d;
    assert (1.0 - q) * d == d - x;
    ScaleLess(q - 1.0, eps, d);
    ScaleLess(1.0 - q, eps, d);
  }

  /** classify_pose: BALL when the aspect ratio long/(short + 1e-6) is
      within BALL_ASPECT_EPS of 1, ELONGATED otherwise; without the
      division, BALL exactly when the long axis lies strictly within
      BALL_ASPECT_EPS * (short + 1e-6) of short + 1e-6. */
  function ClassifyPose(longAxis: real, shortAxis: real, cfg: Settings): (p: Pose)
    requires shortAxis >= 0.0
    ensures var d := shortAxis + Guard;
            p == Ball <==> Abs(longAxis - d) < cfg.ballAspectEps * d
  {
    var ratio := longAxis / (shortAxis + Guard);
    RatioNearOne(longAxis, shortAxis + Guard, cfg.ballAspectEps);
    if Abs(ratio - 1.0) < cfg.ballAspectEps then Ball else Elongated
  }

  /** With BALL_ASPECT_EPS = 0.25: a 10 by 10 rectangle is a ball, a 13 by
      10 one (ratio 1.3) is elongated. */
  lemma PoseExamples()
    ensures ClassifyPose(10.0, 10.0, Default) == Ball
    ensures ClassifyPose(13.0, 10.0, Default) == Elongated
  {
  }

  /** The long/short normalisation of the rectangle's sizes: the long axis
      is the larger size, and the angle turns by 90 degrees exactly when the
      height is the larger one. */
  function Normalize(w: real, h: real, angle: real): (r: (real, real, real))
    ensures r.0 >= r.1
    ensures (r.0 == w && r.1 == h) || (r.0 == h && r.1 == w)
    ensures r.2 == angle + 90.0 <==> w < h
    ensures w >= h ==> r.2 == angle
  {
    if w >= h then (w, h, angle) else (h, w, angle + 90.0)
  }

  // ------------------------------------------------------------------
  // Short edges and cap midpoints
  // ------------------------------------------------------------------

  /** Squared length of the edge from corner i to corner i+1 (mod 4);
      lengths are compared squared, which orders them the same way. */
  function EdgeLengths(box: seq<Vec>): (l: seq<real>)
    requires |box| == 4
    ensures |l| == 4
  {
    seq(4, i requires 0 <= i < 4 =>
      var p0 := box[i];
      var p1 := box[(i + 1) % 4];
      (p1.x - p0.x) * (p1.x - p0.x) + (p1.y - p0.y) * (p1.y - p0.y))
  }

  /** Whether `s[..n]` has a position other than `skip`. */
  predicate HasCandidate(skip: int, n: nat)
  {
    n >= 2 || (n == 1 && skip != 0)
  }

  /** The first position of a minimum of `s[..n]`, skipping position `skip`
      (use -1 to skip none). */
  function ArgMin(s: seq<real>, skip: int, n: nat): (m: nat)
    requires n <= |s| && HasCandidate(skip, n)
    ensures m < n && m != skip
    ensures forall k :: 0 <= k < n && k != skip ==> s[m] <= s[k]
    ensures forall k :: 0 <= k < m && k != skip ==> s[m] < s[k]
  {
    if n - 1 == skip then ArgMin(s, skip, n - 1)
    else if n == 1 || (n == 2 && skip == 0) then n - 1
    else
      var m := ArgMin(s, skip, n - 1);
      if s[n - 1] < s[m] then n - 1 else m
  }

  /** `argsort(lengths)[:2]` for four lengths: the positions of the
      shortest and of the next-shortest edge, two distinct positions, ties
      resolved towards the lower position. */
  function ShortestTwo(l: seq<real>): (r: (nat, nat))
    requires |l| == 4
    ensures r.0 < 4 && r.1 < 4 && r.0 != r.1
    ensures forall k :: 0 <= k < 4 ==> l[r.0] <= l[k]
    ensures forall k :: 0 <= k < r.0 ==> l[r.0] < l[k]
    ensures forall k :: 0 <= k < 4 && k != r.0 ==> l[r.1] <= l[k]
    ensures forall k :: 0 <= k < r.1 && k != r.0 ==> l[r.1] < l[k]
  {
    var i := ArgMin(l, -1, 4);
    (i, ArgMin(l, i, 4))
  }

  /** In a rectangle opposite edges have equal lengths; when one pair is
      strictly shorter the two caps are that pair's edges, one on each end
      of the long axis. */
  lemma CapsAreOppositeEdges(a: real, b: real)
    requires a != b
    ensures a < b ==> ShortestTwo([a, b, a, b]) == (0, 2)
    ensures a > b ==> ShortestTwo([a, b, a, b]) == (1, 3)
  {
    var l := [a, b, a, b];
    var r := ShortestTwo(l);
    assert l[r.0] <= l[0] && l[r.0] <= l[1];
    assert l[r.1] <= l[2] || l[r.1] <= l[3];
  }

  function Midpoint(p0: Vec, p1: Vec): Vec
  {
    Vec((p0.x + p1.x) / 2.0, (p0.y + p1.y) / 2.0)
  }

  /** Midpoint of edge i of the box. */
  function EdgeMid(box: seq<Vec>, i: nat): Vec
    requires |box| == 4 && i < 4
  {
    Midpoint(box[i], box[(i + 1) % 4])
  }

  /** `round` on a float: the nearest integer, halves going to the even
      neighbour. */
  function RoundHalfEven(r: real): (n: int)
    ensures Abs(r - n as real) <= 0.5
    ensures Abs(r - n as real) == 0.5 ==> n % 2 == 0
  {
    var f := r.Floor;
    var d := r - f as real;
    if d < 0.5 then f
    else if d > 0.5 then f + 1
    else if f % 2 == 0 then f else f + 1
  }

  function RoundPoint(p: Vec): Point
  {
    Point(RoundHalfEven(p.x), RoundHalfEven(p.y))
  }

  // ------------------------------------------------------------------
  // Cap integration
  // ------------------------------------------------------------------

  /** A sample point counts when it lies inside the mask and is foreground. */
  predicate Counts(mask: seq<seq<byte>>, p: Point)
    requires Rectangular(mask)
  {
    0 <= p.x < Width(mask) && 0 <= p.y < |mask| && mask[p.y][p.x] > 0
  }

  /** The foreground samples on one cap line. */
  function LineMass(mask: seq<seq<byte>>, pts: seq<Point>): (n: nat)
    requires Rectangular(mask)
    ensures n <= |pts|
  {
    if pts == [] then 0
    else LineMass(mask, pts[..|pts| - 1]) + (if Counts(mask, pts[|pts| - 1]) then 1 else 0)
  }

  /** Total number of sample points over all lines. */
  function SampleCount(lines: seq<seq<Point>>): nat
  {
    if lines == [] then 0 else SampleCount(lines[..|lines| - 1]) + |lines[|lines| - 1]|
  }

  /** The foreground samples over all cap lines. */
  function CapMass(mask: seq<seq<byte>>, lines: seq<seq<Point>>): (n: nat)
    requires Rectangular(mask)
    ensures n <= SampleCount(lines)
  {
    if lines == [] then 0
    else CapMass(mask, lines[..|lines| - 1]) + LineMass(mask, lines[|lines| - 1])
  }

  /** With NUM_CAP_LINES lines of int(short_axis) + 1 samples each, the
      cap total is at most NUM_CAP_LINES * (int(short_axis) + 1). */
  lemma {:induction false} CapMassBound(mask: seq<seq<byte>>, lines: seq<seq<Point>>, perLine: nat)
    requires Rectangular(mask)
    requires forall k :: 0 <= k < |lines| ==> |lines[k]| == perLine
    ensures CapMass(mask, lines) <= |lines| * perLine
  {
    if lines != [] {
      var init := lines[..|lines| - 1];
      assert forall k :: 0 <= k < |init| ==> init[k] == lines[k];
      CapMassBound(mask, init, perLine);
      assert |lines| * perLine == |init| * perLine + perLine;
    }
  }

  /** More foreground never lowers a cap's total. */
  lemma {:induction false} LineMassMonotone(m1: seq<seq<byte>>, m2: seq<seq<byte>>, pts: seq<Point>)
    requires Rectangular(m1) && Rectangular(m2)
    requires forall p :: Counts(m1, p) ==> Counts(m2, p)
    ensures LineMass(m1, pts) <= LineMass(m2, pts)
  {
    if pts != [] {
      LineMassMonotone(m1, m2, pts[..|pts| - 1]);
    }
  }

  lemma {:induction false} CapMassMonotone(m1: seq<seq<byte>>, m2: seq<seq<byte>>, lines: seq<seq<Point>>)
    requires Rectangular(m1) && Rectangular(m2)
    requires forall p :: Counts(m1, p) ==> Counts(m2, p)
    ensures CapMass(m1, lines) <= CapMass(m2, lines)
  {
    if lines != [] {
      CapMassMonotone(m1, m2, lines[..|lines| - 1]);
      LineMassMonotone(m1, m2, lines[|lines| - 1]);
    }
  }

  /** integrate_cap: the nested loop over cap lines and their samples. */
  method IntegrateCap(mask: seq<seq<byte>>, lines: seq<seq<Point>>) returns (total: nat)
    requires Rectangular(mask)
    ensures total == CapMass(mask, lines)
  {
    total := 0;
    var k := 0;
    while k < |lines|
      invariant 0 <= k <= |lines|
      invariant total == CapMass(mask, lines[..k])
    {
      var line := lines[k];
      var t := 0;
      while t < |line|
        invariant 0 <= t <= |line|
        invariant total == CapMass(mask, lines[..k]) + LineMass(mask, line[..t])
      {
        var p := line[t];
        if 0 <= p.x < Width(mask) && 0 <= p.y < |mask| {
          if mask[p.y][p.x] > 0 {
            total := total + 1;
          }
        }
        assert line[..t + 1][..t] == line[..t];
        t := t + 1;
      }
      assert line[..|line|] == line;
      assert lines[..k + 1][..k] == lines[..k];
      k := k + 1;
    }
    assert lines[..|lines|] == lines;
  }

  // ------------------------------------------------------------------
  // Head and tail
  // ------------------------------------------------------------------

  /** The head/tail decision: the cap with at least as much foreground is
      the head (cap 0 on a tie), the other cap is the tail, and the axis runs
      tail to head (`+u` when cap 0 is the head, `-u` otherwise). */
  function ChooseHead(sumA: nat, sumB: nat, capA: Vec, capB: Vec): (r: (Vec, Vec, bool))
    ensures r.2 <==> sumA >= sumB
    ensures sumA == sumB ==> r.0 == capA && r.1 == capB
    ensures {r.0, r.1} == {capA, capB}
    ensures r.2 ==> r.0 == capA && r.1 == capB
    ensures !r.2 ==> r.0 == capB && r.1 == capA
  {
    if sumA >= sumB then (capA, capB, true) else (capB, capA, false)
  }

  /** Swapping the labels of two caps of different mass picks the same head
      and tail with the axis sign flipped. */
  lemma ChooseHeadSwap(sumA: nat, sumB: nat, capA: Vec, capB: Vec)
    requires sumA != sumB
    ensures var r := ChooseHead(sumA, sumB, capA, capB);
            ChooseHead(sumB, sumA, capB, capA) == (r.0, r.1, !r.2)
  {
  }

  /** What head_tail_from_bbox returns: the pose, the head and tail pixels
      (absent for a BALL) and whether the axis is `+u`. */
  datatype PoseEstimate = PoseEstimate(pose: Pose, head: Option<Point>, tail: Option<Point>, axisForward: bool)

  /** The shape integrate_cap samples for every cap: `lines` width-parallel
      lines of `perLine` points each. */
  ghost predicate SamplesShape(samples: (Vec, bool) -> seq<seq<Point>>, lines: nat, perLine: nat)
  {
    forall c: Vec, d: bool {:trigger samples(c, d)} ::
      |samples(c, d)| == lines && forall k :: 0 <= k < lines ==> |samples(c, d)[k]| == perLine
  }

  /** The number of points integrate_cap samples for one cap: `lines` lines
      of `int(shortAxis) + 1` points each. */
  function CapCapacity(lines: nat, shortAxis: real): nat
    requires shortAxis >= 0.0
  {
    lines * (shortAxis.Floor as nat + 1)
  }

  /** A cap integrated over NUM_CAP_LINES lines of `int(short_axis) + 1`
      points counts at most that many foreground pixels. */
  lemma CapWithinShape(mask: seq<seq<byte>>, samples: (Vec, bool) -> seq<seq<Point>>, lines: nat, shortAxis: real,
                       c: Vec, d: bool)
    requires Rectangular(mask) && shortAxis >= 0.0
    requires SamplesShape(samples, lines, shortAxis.Floor as nat + 1)
    ensures CapMass(mask, samples(c, d)) <= CapCapacity(lines, shortAxis)
  {
    CapMassBound(mask, samples(c, d), shortAxis.Floor as nat + 1);
  }

  /** head_tail_from_bbox given the rectangle's sizes and corners; the
      rounded sample points of a cap line set come from `samples(capMid,
      inwardIsPlusU)`: NUM_CAP_LINES lines of `int(short_axis) + 1` points,
      the short axis being non-negative so that `int` is its floor. */
  method HeadTailFromBbox(mask: seq<seq<byte>>, w: real, h: real, angle: real, box: seq<Vec>,
                          samples: (Vec, bool) -> seq<seq<Point>>, cfg: Settings)
    returns (est: PoseEstimate)
    requires Rectangular(mask) && |box| == 4 && w >= 0.0 && h >= 0.0
    requires SamplesShape(samples, cfg.numCapLines, Normalize(w, h, angle).1.Floor as nat + 1)
    ensures est.pose == Elongated ==>
              var caps := ShortestTwo(EdgeLengths(box));
              var bound := CapCapacity(cfg.numCapLines, Normalize(w, h, angle).1);
              && CapMass(mask, samples(EdgeMid(box, caps.0), true)) <= bound
              && CapMass(mask, samples(EdgeMid(box, caps.1), false)) <= bound
    ensures var n := Normalize(w, h, angle);
            est.pose == ClassifyPose(n.0, n.1, cfg)
    ensures est.pose == Ball ==> est.head.None? && est.tail.None? && est.axisForward
    ensures est.pose == Elongated ==>
              var caps := ShortestTwo(EdgeLengths(box));
              var a := EdgeMid(box, caps.0);
              var b := EdgeMid(box, caps.1);
              var sumA := CapMass(mask, samples(a, true));
              var sumB := CapMass(mask, samples(b, false));
              && est.axisForward == (sumA >= sumB)
              && est.head == Some(RoundPoint(if sumA >= sumB then a else b))
              && est.tail == Some(RoundPoint(if sumA >= sumB then b else a))
  {
    var n := Normalize(w, h, angle);
    var pose := ClassifyPose(n.0, n.1, cfg);
    if pose == Ball {
      return PoseEstimate(Ball, None, None, true);
    }
    var caps := ShortestTwo(EdgeLengths(box));
    var a := EdgeMid(box, caps.0);
    var b := EdgeMid(box, caps.1);
    var sumA := IntegrateCap(mask, samples(a, true));
    var sumB := IntegrateCap(mask, samples(b, false));
    CapWithinShape(mask, samples, cfg.numCapLines, n.1, a, true);
    CapWithinShape(mask, samples, cfg.numCapLines, n.1, b, false);
    var choice := ChooseHead(sumA, sumB, a, b);
    est := PoseEstimate(Elongated, Some(RoundPoint(choice.0)), Some(RoundPoint(choice.1)), choice.2);
  }
}

/**
 * Polygon geometry of the plot analyser: the shoelace cross terms summed over
 * the edges of a closed boundary loop, the polygon area and the area-weighted
 * centroid.
 *
 * A boundary is an ordered sequence of points; edge i runs from point i to
 * point (i + 1) mod n, so the closing edge n-1 -> 0 is always present.
 */
module Geometry {
  import opened Wrappers
  import opened RealSums

  /** A point in image pixel coordinates (+y points down). */
  datatype Point = Point(x: real, y: real)

  function Abs(r: real): real { if r < 0.0 then -r else r }

  function Shift(p: Point, v: Point): Point { Point(p.x + v.x, p.y + v.y) }

  /** The boundary moved by the vector v. */
  function Translate(pts: seq<Point>, v: Point): (r: seq<Point>)
    ensures |r| == |pts|
  {
    seq(|pts|, i requires 0 <= i < |pts| => Shift(pts[i], v))
  }

  /** The same closed loop listed from vertex k on. */
  function Rotate(pts: seq<Point>, k: nat): seq<Point>
    requires k <= |pts|
  {
    pts[k..] + pts[..k]
  }

  // ---------------------------------------------------------------
  // Sums over the edges of a closed loop
  // ---------------------------------------------------------------

  /** The shoelace cross term x1*y2 - x2*y1 of the edge p -> q. */
  function Cross(p: Point, q: Point): real { p.x * q.y - q.x * p.y }

  /** The three accumulators of the centroid loop. */
  datatype Accumulator = Area2 | CxAcc | CyAcc

  /** What edge p -> q adds to accumulator acc. */
  function Term(acc: Accumulator, p: Point, q: Point): real
  {
    match acc
    case Area2 => Cross(p, q)
    case CxAcc => (p.x + q.x) * Cross(p, q)
    case CyAcc => (p.y + q.y) * Cross(p, q)
  }

  /** The vertex after vertex i on a closed loop of n vertices: (i + 1) mod n. */
  function Succ(i: nat, n: nat): (j: nat)
    requires i < n
    ensures j < n
  {
    if i + 1 == n then 0 else i + 1
  }

  lemma SuccIsMod(i: nat, n: nat)
    requires i < n
    ensures Succ(i, n) == (i + 1) % n
  {
  }

  /** Accumulator acc after the first k edges i -> (i + 1) mod n of the loop. */
  function EdgeSumTo(pts: seq<Point>, acc: Accumulator, k: nat): real
    requires k <= |pts|
  {
    if k == 0 then 0.0 else EdgeSumTo(pts, acc, k - 1) + Term(acc, pts[k - 1], pts[Succ(k - 1, |pts|)])
  }

  /** Accumulator acc after every edge of the closed loop. */
  function EdgeSum(pts: seq<Point>, acc: Accumulator): real
  {
    EdgeSumTo(pts, acc, |pts|)
  }

  /** Twice the signed area (positive when the loop turns clockwise on screen). */
  function SignedArea2(pts: seq<Point>): real
  {
    EdgeSum(pts, Area2)
  }

  // ---------------------------------------------------------------
  // Centroid (software.py:809-832)
  // ---------------------------------------------------------------

  /** Below this magnitude of 2A the polygon is treated as degenerate. */
  const DegenerateArea2: real := 0.000000001

  /**
   * The area-weighted centroid, or None for a degenerate loop:
   * Cx = sum (x1 + x2) * cross / (3 * 2A), Cy likewise.
   */
  function Centroid(pts: seq<Point>): (c: Option<Point>)
    ensures c.None? <==> Abs(SignedArea2(pts)) < DegenerateArea2
    ensures c.Some? ==> 3.0 * SignedArea2(pts) * c.value.x == EdgeSum(pts, CxAcc)
    ensures c.Some? ==> 3.0 * SignedArea2(pts) * c.value.y == EdgeSum(pts, CyAcc)
  {
    var a2 := SignedArea2(pts);
    if Abs(a2) < DegenerateArea2 then None
    else
      var cx, cy := EdgeSum(pts, CxAcc) / (3.0 * a2), EdgeSum(pts, CyAcc) / (3.0 * a2);
      DivTimes(EdgeSum(pts, CxAcc), 3.0 * a2);
      DivTimes(EdgeSum(pts, CyAcc), 3.0 * a2);
      Some(Point(cx, cy))
  }

  lemma DivTimes(s: real, q: real)
    requires q != 0.0
    ensures q * (s / q) == s
  {
  }

  /** The accumulator loop of the source, proved to compute Centroid. */
  method PolygonCentroid(points: seq<Point>) returns (c: Option<Point>)
    ensures c == Centroid(points)
    ensures c.None? <==> Abs(SignedArea2(points)) < DegenerateArea2
  {
    var area2, cxAcc, cyAcc := 0.0, 0.0, 0.0;
    var n := |points|;
    for i := 0 to n
      invariant area2 == EdgeSumTo(points, Area2, i)
      invariant cxAcc == EdgeSumTo(points, CxAcc, i)
      invariant cyAcc == EdgeSumTo(points, CyAcc, i)
    {
      SuccIsMod(i, n);
      var p, q := points[i], points[(i + 1) % n];
      area2 := area2 + Term(Area2, p, q);
      cxAcc := cxAcc + Term(CxAcc, p, q);
      cyAcc := cyAcc + Term(CyAcc, p, q);
    }
    if Abs(area2) < DegenerateArea2 {
      return None;
    }
    c := Some(Point(cxAcc / (3.0 * area2), cyAcc / (3.0 * area2)));
  }

  // ---------------------------------------------------------------
  // Area (software.py:1063-1072), in the numpy form of the source
  // ---------------------------------------------------------------

  function Xs(pts: seq<Point>): (r: seq<real>)
    ensures |r| == |pts|
  {
    seq(|pts|, i requires 0 <= i < |pts| => pts[i].x)
  }

  function Ys(pts: seq<Point>): (r: seq<real>)
    ensures |r| == |pts|
  {
    seq(|pts|, i requires 0 <= i < |pts| => pts[i].y)
  }

  /** numpy.roll(s, -1): every element moves one place to the left, the first wraps to the end. */
  function RollLeft(s: seq<real>): (r: seq<real>)
    requires |s| > 0
    ensures |r| == |s|
    ensures forall i :: 0 <= i < |s| ==> r[i] == s[Succ(i, |s|)]
  {
    s[1..] + s[..1]
  }

  /** Dot product of the first k entries. */
  function DotTo(a: seq<real>, b: seq<real>, k: nat): real
    requires k <= |a| == |b|
  {
    if k == 0 then 0.0 else DotTo(a, b, k - 1) + a[k - 1] * b[k - 1]
  }

  function Dot(a: seq<real>, b: seq<real>): real
    requires |a| == |b|
  {
    DotTo(a, b, |a|)
  }

  /**
   * 0.5 * |dot(x, roll(y, -1)) - dot(y, roll(x, -1))|. numpy fails on an empty
   * point list (the column index of a 1-D empty array), hence the precondition.
   */
  function PolygonArea(points: seq<Point>): (area: real)
    requires |points| > 0
    ensures area >= 0.0
  {
    var x, y := Xs(points), Ys(points);
    0.5 * Abs(Dot(x, RollLeft(y)) - Dot(y, RollLeft(x)))
  }

  lemma {:induction false} ShoelacePrefix(pts: seq<Point>, k: nat)
    requires 0 < |pts| && k <= |pts|
    ensures DotTo(Xs(pts), RollLeft(Ys(pts)), k) - DotTo(Ys(pts), RollLeft(Xs(pts)), k)
            == EdgeSumTo(pts, Area2, k)
  {
    if k > 0 {
      ShoelacePrefix(pts, k - 1);
    }
  }

  /** The numpy shoelace expression is half the magnitude of the centroid's area accumulator. */
  lemma AreaIsHalfSignedArea(pts: seq<Point>)
    requires |pts| > 0
    ensures PolygonArea(pts) == 0.5 * Abs(SignedArea2(pts))
  {
    ShoelacePrefix(pts, |pts|);
  }

  /** A boundary has a centroid exactly when its area is at least half the degeneracy bound. */
  lemma CentroidDefinedIffArea(pts: seq<Point>)
    requires |pts| > 0
    ensures Centroid(pts).Some? <==> PolygonArea(pts) >= 0.5 * DegenerateArea2
  {
    AreaIsHalfSignedArea(pts);
  }

  // ---------------------------------------------------------------
  // Rotating the vertex list
  // ---------------------------------------------------------------

  /** Rotating by one: every prefix of the rotated loop misses only the first original edge. */
  lemma {:induction false} EdgeSumRotateOnePrefix(pts: seq<Point>, acc: Accumulator, j: nat)
    requires 0 < |pts| && j < |pts|
    ensures EdgeSumTo(Rotate(pts, 1), acc, j)
            == EdgeSumTo(pts, acc, j + 1) - Term(acc, pts[0], pts[Succ(0, |pts|)])
  {
    var r, n := Rotate(pts, 1), |pts|;
    if j > 0 {
      EdgeSumRotateOnePrefix(pts, acc, j - 1);
      assert r[j - 1] == pts[j];
      assert r[Succ(j - 1, n)] == pts[Succ(j, n)];
    }
  }

  lemma EdgeSumRotateOne(pts: seq<Point>, acc: Accumulator)
    requires 0 < |pts|
    ensures EdgeSum(Rotate(pts, 1), acc) == EdgeSum(pts, acc)
  {
    var r, n := Rotate(pts, 1), |pts|;
    EdgeSumRotateOnePrefix(pts, acc, n - 1);
    assert r[n - 1] == pts[0];
    assert r[Succ(n - 1, n)] == pts[Succ(0, n)];
  }

  /** Every accumulator ends the same when the vertex list starts at another vertex. */
  lemma {:induction false} EdgeSumRotate(pts: seq<Point>, acc: Accumulator, k: nat)
    requires k <= |pts|
    ensures EdgeSum(Rotate(pts, k), acc) == EdgeSum(pts, acc)
  {
    if k > 0 {
      EdgeSumRotate(pts, acc, k - 1);
      var r := Rotate(pts, k - 1);
      EdgeSumRotateOne(r, acc);
      assert r[1..] == pts[k..] + pts[..k - 1];
      assert r[..1] == [pts[k - 1]];
      assert pts[..k] == pts[..k - 1] + [pts[k - 1]];
      assert Rotate(r, 1) == Rotate(pts, k);
    } else {
      assert Rotate(pts, 0) == pts;
    }
  }

  /** The area does not depend on which vertex the list starts at. */
  lemma AreaRotationInvariant(pts: seq<Point>, k: nat)
    requires 0 < |pts| && k <= |pts|
    ensures PolygonArea(Rotate(pts, k)) == PolygonArea(pts)
  {
    EdgeSumRotate(pts, Area2, k);
    AreaIsHalfSignedArea(pts);
    AreaIsHalfSignedArea(Rotate(pts, k));
  }

  /** Nor does the centroid. */
  lemma CentroidRotationInvariant(pts: seq<Point>, k: nat)
    requires k <= |pts|
    ensures Centroid(Rotate(pts, k)) == Centroid(pts)
  {
    EdgeSumRotate(pts, Area2, k);
    EdgeSumRotate(pts, CxAcc, k);
    EdgeSumRotate(pts, CyAcc, k);
  }

  // ---------------------------------------------------------------
  // Translating the boundary
  // ---------------------------------------------------------------

  /** How much a shift by v adds to an edge term, in multiples of the cross term ... */
  function ShiftCoefficient(acc: Accumulator, v: Point): real
  {
    match acc
    case Area2 => 0.0
    case CxAcc => 3.0 * v.x
    case CyAcc => 3.0 * v.y
  }

  /** ... plus the difference Potential(p) - Potential(q), which telescopes round the loop. */
  function Potential(acc: Accumulator, v: Point, p: Point): real
  {
    match acc
    case Area2 => v.y * p.x - v.x * p.y
    case CxAcc => v.y * p.x * p.x - v.x * p.x * p.y + 2.0 * v.x * v.y * p.x - 2.0 * v.x * v.x * p.y
    case CyAcc => v.y * p.x * p.y - v.x * p.y * p.y + 2.0 * v.y * v.y * p.x - 2.0 * v.x * v.y * p.y
  }

  lemma TermShift(acc: Accumulator, v: Point, p: Point, q: Point)
    ensures Term(acc, Shift(p, v), Shift(q, v))
            == Term(acc, p, q) + ShiftTerm(acc, v, p, q) + (Potential(acc, v, p) - Potential(acc, v, q))
  {
  }

  /** The edge terms of accumulator acc, one per edge. */
  function Terms(pts: seq<Point>, acc: Accumulator): (r: seq<real>)
    ensures |r| == |pts|
  {
    seq(|pts|, i requires 0 <= i < |pts| => Term(acc, pts[i], pts[Succ(i, |pts|)]))
  }

  lemma {:induction false} EdgeSumIsSum(pts: seq<Point>, acc: Accumulator, k: nat)
    requires k <= |pts|
    ensures EdgeSumTo(pts, acc, k) == SumTo(Terms(pts, acc), k)
  {
    if k > 0 {
      EdgeSumIsSum(pts, acc, k - 1);
    }
  }

  /**
   * If a[i] = b[i] + e[i] + (P[i] - P[i + 1]) for every i, the differences
   * of P telescope: sum a = sum b + sum e + (P[0] - P[k]).
   */
  lemma {:induction false} Telescope(a: seq<real>, b: seq<real>, e: seq<real>, P: seq<real>, k: nat)
    requires |a| == |b| == |e| && |P| == |a| + 1 && k <= |a|
    requires forall i :: 0 <= i < |a| ==> a[i] == b[i] + e[i] + (P[i] - P[i + 1])
    ensures SumTo(a, k) == SumTo(b, k) + SumTo(e, k) + (P[0] - P[k])
  {
    if k > 0 {
      Telescope(a, b, e, P, k - 1);
    }
  }

  /** What a shift by v adds to the term of edge p -> q, besides the telescoping part. */
  function ShiftTerm(acc: Accumulator, v: Point, p: Point, q: Point): real
  {
    ShiftCoefficient(acc, v) * Cross(p, q)
  }

  function ShiftTerms(pts: seq<Point>, acc: Accumulator, v: Point): (r: seq<real>)
    ensures |r| == |pts|
  {
    seq(|pts|, i requires 0 <= i < |pts| => ShiftTerm(acc, v, pts[i], pts[Succ(i, |pts|)]))
  }

  lemma {:induction false} ShiftTermsSum(pts: seq<Point>, acc: Accumulator, v: Point, k: nat)
    requires k <= |pts|
    ensures SumTo(ShiftTerms(pts, acc, v), k) == ShiftCoefficient(acc, v) * EdgeSumTo(pts, Area2, k)
  {
    if k > 0 {
      ShiftTermsSum(pts, acc, v, k - 1);
      var c, s := ShiftCoefficient(acc, v), EdgeSumTo(pts, Area2, k - 1);
      var x := Cross(pts[k - 1], pts[Succ(k - 1, |pts|)]);
      assert ShiftTerms(pts, acc, v)[k - 1] == c * x;
      assert EdgeSumTo(pts, Area2, k) == s + x;
      assert c * (s + x) == c * s + c * x;
    }
  }

  /** The shifted edge terms sum to the old ones plus the shift terms: the potentials cancel. */
  lemma ShiftedTerms(pts: seq<Point>, acc: Accumulator, v: Point)
    requires |pts| > 0
    ensures SumTo(Terms(Translate(pts, v), acc), |pts|)
            == SumTo(Terms(pts, acc), |pts|) + SumTo(ShiftTerms(pts, acc, v), |pts|)
  {
    var n, t := |pts|, Translate(pts, v);
    var a, b, e := Terms(t, acc), Terms(pts, acc), ShiftTerms(pts, acc, v);
    var P := seq(n + 1, i requires 0 <= i <= n => Potential(acc, v, pts[if i == n then 0 else i]));
    forall i | 0 <= i < n
      ensures a[i] == b[i] + e[i] + (P[i] - P[i + 1])
    {
      var j := Succ(i, n);
      assert t[i] == Shift(pts[i], v) && t[j] == Shift(pts[j], v);
      assert P[i + 1] == Potential(acc, v, pts[j]);
      TermShift(acc, v, pts[i], pts[j]);
    }
    Telescope(a, b, e, P, n);
    assert P[0] == P[n];
  }

  /** Shifting by v adds ShiftCoefficient(acc, v) times 2A to accumulator acc. */
  lemma EdgeSumShifted(pts: seq<Point>, acc: Accumulator, v: Point)
    ensures EdgeSum(Translate(pts, v), acc) == EdgeSum(pts, acc) + ShiftCoefficient(acc, v) * SignedArea2(pts)
  {
    if |pts| > 0 {
      EdgeSumShiftedByTerms(pts, acc, v);
      ShiftTermsTotal(pts, acc, v);
    }
  }

  lemma EdgeSumShiftedByTerms(pts: seq<Point>, acc: Accumulator, v: Point)
    requires |pts| > 0
    ensures EdgeSum(Translate(pts, v), acc) == EdgeSum(pts, acc) + SumTo(ShiftTerms(pts, acc, v), |pts|)
  {
    ShiftedTerms(pts, acc, v);
    EdgeSumIsSum(Translate(pts, v), acc, |pts|);
    EdgeSumIsSum(pts, acc, |pts|);
  }

  lemma ShiftTermsTotal(pts: seq<Point>, acc: Accumulator, v: Point)
    ensures SumTo(ShiftTerms(pts, acc, v), |pts|) == ShiftCoefficient(acc, v) * SignedArea2(pts)
  {
    ShiftTermsSum(pts, acc, v, |pts|);
  }

  /** Moving the boundary leaves its area unchanged. */
  lemma AreaTranslationInvariant(pts: seq<Point>, v: Point)
    requires |pts| > 0
    ensures PolygonArea(Translate(pts, v)) == PolygonArea(pts)
  {
    EdgeSumShifted(pts, Area2, v);
    AreaIsHalfSignedArea(pts);
    AreaIsHalfSignedArea(Translate(pts, v));
  }

  /** The centroid moves with the boundary: centroid(pts + v) == centroid(pts) + v. */
  lemma CentroidTranslates(pts: seq<Point>, v: Point)
    ensures Centroid(Translate(pts, v)) == match Centroid(pts)
                                           case None => None
                                           case Some(c) => Some(Shift(c, v))
  {
    EdgeSumShifted(pts, Area2, v);
    if Abs(SignedArea2(pts)) >= DegenerateArea2 {
      DefinedCentroidTranslates(pts, v);
    }
  }

  lemma DefinedCentroidTranslates(pts: seq<Point>, v: Point)
    requires Abs(SignedArea2(pts)) >= DegenerateArea2
    ensures Centroid(pts).Some? && Centroid(Translate(pts, v)) == Some(Shift(Centroid(pts).value, v))
  {
    var t, a2 := Translate(pts, v), SignedArea2(pts);
    EdgeSumShifted(pts, Area2, v);
    EdgeSumShifted(pts, CxAcc, v);
    EdgeSumShifted(pts, CyAcc, v);
    assert Centroid(pts) == Some(Point(EdgeSum(pts, CxAcc) / (3.0 * a2), EdgeSum(pts, CyAcc) / (3.0 * a2)));
    assert Centroid(t) == Some(Point(EdgeSum(t, CxAcc) / (3.0 * SignedArea2(t)), EdgeSum(t, CyAcc) / (3.0 * SignedArea2(t))));
    ShiftedQuotients(EdgeSum(pts, CxAcc), EdgeSum(t, CxAcc), EdgeSum(pts, CyAcc), EdgeSum(t, CyAcc), a2, SignedArea2(t), v);
  }

  lemma ShiftedQuotients(sx: real, tx: real, sy: real, ty: real, a: real, a': real, v: Point)
    requires a != 0.0 && a' == a && tx == sx + 3.0 * v.x * a && ty == sy + 3.0 * v.y * a
    ensures Point(tx / (3.0 * a'), ty / (3.0 * a')) == Shift(Point(sx / (3.0 * a), sy / (3.0 * a)), v)
  {
    DivShift(sx, tx, v.x, a, a');
    DivShift(sy, ty, v.y, a, a');
  }

  lemma DivShift(s: real, shifted: real, w: real, a: real, a': real)
    requires a != 0.0 && a' == a && shifted == s + 3.0 * w * a
    ensures shifted / (3.0 * a') == s / (3.0 * a) + w
  {
  }

  // ---------------------------------------------------------------
  // Axis-aligned squares
  // ---------------------------------------------------------------

  /** The square with corners (0, 0), (w, 0), (w, w), (0, w), listed in that order. */
  function SquareOf(w: real): seq<Point>
  {
    [Point(0.0, 0.0), Point(w, 0.0), Point(w, w), Point(0.0, w)]
  }

  /**
   * A square of side w has area w * w; it has a centroid exactly when
   * 2 * w * w reaches the degeneracy bound, and the centroid is (w / 2, w / 2).
   */
  lemma SquareAreaAndCentroid(w: real)
    ensures PolygonArea(SquareOf(w)) == w * w
    ensures Centroid(SquareOf(w)).Some? <==> 2.0 * w * w >= DegenerateArea2
    ensures Centroid(SquareOf(w)).Some? ==> Centroid(SquareOf(w)).value == Point(w / 2.0, w / 2.0)
  {
    var s, w2, w3 := SquareOf(w), w * w, w * w * w;
    AreaIsHalfSignedArea(s);
    SquareTerms(w);
    SquareSum(s, Area2, [0.0, w2, w2, 0.0], 2.0 * w2);
    SquareSum(s, CxAcc, [0.0, 2.0 * w3, w3, 0.0], 3.0 * w3);
    SquareSum(s, CyAcc, [0.0, w3, 2.0 * w3, 0.0], 3.0 * w3);
    if 2.0 * w2 >= DegenerateArea2 {
      HalfSide(w, w2, w3);
    }
  }

  lemma HalfSide(w: real, w2: real, w3: real)
    requires w2 == w * w && w3 == w * w * w && w2 > 0.0
    ensures 3.0 * w3 / (3.0 * (2.0 * w2)) == w / 2.0
  {
  }

  lemma SquareTerms(w: real)
    ensures Terms(SquareOf(w), Area2) == [0.0, w * w, w * w, 0.0]
    ensures Terms(SquareOf(w), CxAcc) == [0.0, 2.0 * (w * w * w), w * w * w, 0.0]
    ensures Terms(SquareOf(w), CyAcc) == [0.0, w * w * w, 2.0 * (w * w * w), 0.0]
  {
    var s := SquareOf(w);
    assert Succ(0, 4) == 1 && Succ(1, 4) == 2 && Succ(2, 4) == 3 && Succ(3, 4) == 0;
    assert Cross(s[0], s[1]) == 0.0 && Cross(s[3], s[0]) == 0.0;
    assert Cross(s[1], s[2]) == w * w && Cross(s[2], s[3]) == w * w;
    var w3 := w * w * w;
    assert (w + w) * (w * w) == 2.0 * w3 && (w + 0.0) * (w * w) == w3 && (0.0 + w) * (w * w) == w3;
    assert Term(CxAcc, s[1], s[2]) == 2.0 * w3 && Term(CxAcc, s[2], s[3]) == w3;
    assert Term(CyAcc, s[1], s[2]) == w3 && Term(CyAcc, s[2], s[3]) == 2.0 * w3;
  }

  /** An accumulator over a four-vertex loop is the sum of its four edge terms. */
  lemma SquareSum(s: seq<Point>, acc: Accumulator, terms: seq<real>, total: real)
    requires |s| == 4 && Terms(s, acc) == terms && |terms| == 4
    requires terms[0] + terms[1] + terms[2] + terms[3] == total
    ensures EdgeSum(s, acc) == total
  {
    EdgeSumIsSum(s, acc, 4);
    assert SumTo(terms, 1) == terms[0];
    assert SumTo(terms, 2) == terms[0] + terms[1];
    assert SumTo(terms, 4) == SumTo(terms, 2) + terms[2] + terms[3];
  }
}

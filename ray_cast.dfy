/**
 * Nearest crossing of a ray with the closed boundary loop of the plot.
 *
 * The ray is origin + t * d for t >= 0.  The direction d is (sin a, -cos a)
 * for a compass angle a, so that 0 degrees points to North in image
 * coordinates; the model takes d as given instead of computing it.
 * Edge i runs from vertex i to vertex (i + 1) mod n and is a + u * (b - a)
 * for 0 <= u <= 1.
 */
module RayCast {
  import opened Wrappers
  import opened Geometry

  /** Tolerance for parallel edges and for hits just past an edge's end points. */
  const Eps: real := 0.000000001

  /** Ray parameter t and edge parameter u of the point where the ray's line meets the edge's line. */
  datatype Crossing = Crossing(t: real, u: real)

  /** The point at parameter t along the ray. */
  function At(origin: Point, d: Point, t: real): Point
  {
    Point(origin.x + t * d.x, origin.y + t * d.y)
  }

  /** The point at parameter u along the edge from a to b. */
  function Along(a: Point, b: Point, u: real): Point
  {
    Point(a.x + u * (b.x - a.x), a.y + u * (b.y - a.y))
  }

  /** Cross product d x (b - a), which is zero exactly when the edge is parallel to the ray. */
  function Denominator(d: Point, a: Point, b: Point): real
  {
    d.x * (b.y - a.y) - d.y * (b.x - a.x)
  }

  /** Numerator of t: (a - origin) x (b - a). */
  function RayNumerator(origin: Point, a: Point, b: Point): real
  {
    (a.x - origin.x) * (b.y - a.y) - (a.y - origin.y) * (b.x - a.x)
  }

  /** Numerator of u: (a - origin) x d. */
  function EdgeNumerator(origin: Point, d: Point, a: Point): real
  {
    (a.x - origin.x) * d.y - (a.y - origin.y) * d.x
  }

  /** Solution of the 2x2 system, or None when |denominator| < Eps and the edge is skipped. */
  function Solve(origin: Point, d: Point, a: Point, b: Point): (r: Option<Crossing>)
    ensures r.None? <==> Abs(Denominator(d, a, b)) < Eps
    ensures r.Some? ==> At(origin, d, r.value.t) == Along(a, b, r.value.u)
  {
    var denom := Denominator(d, a, b);
    if Abs(denom) < Eps then None
    else
      var c := Crossing(RayNumerator(origin, a, b) / denom, EdgeNumerator(origin, d, a) / denom);
      CramerSolves(origin, d, a, b, c);
      Some(c)
  }

  /** A crossing counts when it lies ahead of the origin and within the edge up to Eps. */
  predicate Accepted(c: Crossing)
  {
    c.t >= 0.0 && -Eps <= c.u <= 1.0 + Eps
  }

  /** The accepted crossing of the ray with edge i of the loop, if any. */
  function EdgeHit(boundary: seq<Point>, origin: Point, d: Point, i: nat): Option<Crossing>
    requires i < |boundary|
  {
    var c := Solve(origin, d, boundary[i], boundary[Succ(i, |boundary|)]);
    if c.Some? && Accepted(c.value) then c else None
  }

  /**
   * The crossing kept after scanning edges 0 .. k-1: a later edge replaces the
   * kept one only when its t is strictly smaller, so the first of equal t's stays.
   */
  function NearestTo(boundary: seq<Point>, origin: Point, d: Point, k: nat): (r: Option<Crossing>)
    requires k <= |boundary|
    ensures r.Some? ==> exists i :: 0 <= i < k && EdgeHit(boundary, origin, d, i) == r
    ensures forall i :: 0 <= i < k && EdgeHit(boundary, origin, d, i).Some? ==>
      r.Some? && r.value.t <= EdgeHit(boundary, origin, d, i).value.t
  {
    if k == 0 then None
    else
      var kept := NearestTo(boundary, origin, d, k - 1);
      var h := EdgeHit(boundary, origin, d, k - 1);
      if h.Some? && (kept.None? || h.value.t < kept.value.t) then h else kept
  }

  /** The nearest hit of the ray on the boundary loop; None for fewer than two vertices. */
  function RayHit(boundary: seq<Point>, origin: Point, d: Point): (r: Option<Point>)
    ensures |boundary| < 2 ==> r.None?
    ensures r.Some? ==> exists i ::
      && 0 <= i < |boundary| && EdgeHit(boundary, origin, d, i).Some?
      && r == Some(At(origin, d, EdgeHit(boundary, origin, d, i).value.t))
      && forall j :: 0 <= j < |boundary| && EdgeHit(boundary, origin, d, j).Some? ==>
           EdgeHit(boundary, origin, d, i).value.t <= EdgeHit(boundary, origin, d, j).value.t
  {
    if |boundary| < 2 then None
    else
      match NearestTo(boundary, origin, d, |boundary|)
      case None => None
      case Some(c) => Some(At(origin, d, c.t))
  }

  /** Scans the edges, keeping the crossing with the smallest t and its point. */
  method RayBoundaryIntersection(boundary: seq<Point>, origin: Point, d: Point) returns (hit: Option<Point>)
    ensures hit == RayHit(boundary, origin, d)
  {
    var n := |boundary|;
    if n < 2 {
      return None;
    }
    var nearestT: Option<real> := None;
    var nearestPt: Option<Point> := None;
    for i := 0 to n
      invariant var kept := NearestTo(boundary, origin, d, i);
        nearestT == (if kept.None? then None else Some(kept.value.t))
      invariant nearestPt == (if nearestT.None? then None else Some(At(origin, d, nearestT.value)))
    {
      SuccIsMod(i, n);
      var a, b := boundary[i], boundary[(i + 1) % n];
      var denom := Denominator(d, a, b);
      if Abs(denom) < Eps {
        continue;
      }
      var t := RayNumerator(origin, a, b) / denom;
      var u := EdgeNumerator(origin, d, a) / denom;
      if t >= 0.0 && -Eps <= u <= 1.0 + Eps {
        if nearestT.None? || t < nearestT.value {
          nearestT := Some(t);
          nearestPt := Some(At(origin, d, t));
        }
      }
    }
    hit := nearestPt;
  }

  // ---------------------------------------------------------------
  // Properties
  // ---------------------------------------------------------------

  /** Cramer's rule: the solved parameters name the same point on the ray and on the edge. */
  lemma CramerSolves(origin: Point, d: Point, a: Point, b: Point, c: Crossing)
    requires Denominator(d, a, b) != 0.0
    requires c.t == RayNumerator(origin, a, b) / Denominator(d, a, b)
    requires c.u == EdgeNumerator(origin, d, a) / Denominator(d, a, b)
    ensures At(origin, d, c.t) == Along(a, b, c.u)
  {
    var den := Denominator(d, a, b);
    assert c.t * den == RayNumerator(origin, a, b);
    assert c.u * den == EdgeNumerator(origin, d, a);
    CramerX(origin, d, a, b, c.t, c.u);
    CramerY(origin, d, a, b, c.t, c.u);
  }

  /** First coordinate of Cramer's rule. */
  lemma CramerX(origin: Point, d: Point, a: Point, b: Point, t: real, u: real)
    requires Denominator(d, a, b) != 0.0
    requires t * Denominator(d, a, b) == RayNumerator(origin, a, b)
    requires u * Denominator(d, a, b) == EdgeNumerator(origin, d, a)
    ensures origin.x + t * d.x == a.x + u * (b.x - a.x)
  {
    var den := Denominator(d, a, b);
    assert (t * d.x - u * (b.x - a.x)) * den == (a.x - origin.x) * den by {
      assert (t * d.x - u * (b.x - a.x)) * den == (t * den) * d.x - (u * den) * (b.x - a.x);
    }
  }

  /** Second coordinate of Cramer's rule. */
  lemma CramerY(origin: Point, d: Point, a: Point, b: Point, t: real, u: real)
    requires Denominator(d, a, b) != 0.0
    requires t * Denominator(d, a, b) == RayNumerator(origin, a, b)
    requires u * Denominator(d, a, b) == EdgeNumerator(origin, d, a)
    ensures origin.y + t * d.y == a.y + u * (b.y - a.y)
  {
    var den := Denominator(d, a, b);
    assert (t * d.y - u * (b.y - a.y)) * den == (a.y - origin.y) * den by {
      assert (t * d.y - u * (b.y - a.y)) * den == (t * den) * d.y - (u * den) * (b.y - a.y);
    }
  }

  /** Nothing is kept exactly when no scanned edge has an accepted crossing. */
  lemma NearestNoneIff(boundary: seq<Point>, origin: Point, d: Point, k: nat)
    requires k <= |boundary|
    ensures NearestTo(boundary, origin, d, k).None? <==>
      forall i :: 0 <= i < k ==> EdgeHit(boundary, origin, d, i).None?
  {
  }

  /**
   * A returned hit is the point at parameter t of an accepted crossing of
   * some edge (so t >= 0 and the edge parameter is within the tolerance), it
   * lies on that edge, and no accepted crossing of any edge has a smaller t.
   */
  lemma RayHitIsNearest(boundary: seq<Point>, origin: Point, d: Point)
    requires RayHit(boundary, origin, d).Some?
    ensures exists i, c ::
      && 0 <= i < |boundary| && EdgeHit(boundary, origin, d, i) == Some(c) && Accepted(c)
      && RayHit(boundary, origin, d) == Some(At(origin, d, c.t))
      && RayHit(boundary, origin, d) == Some(Along(boundary[i], boundary[Succ(i, |boundary|)], c.u))
      && forall j :: 0 <= j < |boundary| && EdgeHit(boundary, origin, d, j).Some? ==>
           c.t <= EdgeHit(boundary, origin, d, j).value.t
  {
    var n := |boundary|;
    var c := NearestTo(boundary, origin, d, n).value;
    var i :| 0 <= i < n && EdgeHit(boundary, origin, d, i) == Some(c);
    assert Accepted(c);
    assert At(origin, d, c.t) == Along(boundary[i], boundary[Succ(i, n)], c.u);
  }

  /** There is no hit exactly when the loop has fewer than two vertices or no edge has an accepted crossing. */
  lemma RayHitNoneIff(boundary: seq<Point>, origin: Point, d: Point)
    ensures RayHit(boundary, origin, d).None? <==>
      |boundary| < 2 || forall i :: 0 <= i < |boundary| ==> EdgeHit(boundary, origin, d, i).None?
  {
    NearestNoneIff(boundary, origin, d, |boundary|);
  }

  /** A ray due North (d = (0, -1)) from the centre of the 100 x 100 square meets the top edge at (50, 0). */
  lemma NorthRayFromSquareCentre()
    ensures RayHit(SquareOf(100.0), Point(50.0, 50.0), Point(0.0, -1.0)) == Some(Point(50.0, 0.0))
  {
    var s, o, d := SquareOf(100.0), Point(50.0, 50.0), Point(0.0, -1.0);
    TopEdge();
    RightEdge();
    BottomEdge();
    LeftEdge();
    OnlyFirstOfFour(s, o, d);
  }

  /** On a four-vertex loop where only edge 0 has an accepted crossing, the hit is that crossing's point. */
  lemma OnlyFirstOfFour(boundary: seq<Point>, origin: Point, d: Point)
    requires |boundary| == 4 && EdgeHit(boundary, origin, d, 0).Some?
    requires EdgeHit(boundary, origin, d, 1).None? && EdgeHit(boundary, origin, d, 2).None?
    requires EdgeHit(boundary, origin, d, 3).None?
    ensures RayHit(boundary, origin, d) == Some(At(origin, d, EdgeHit(boundary, origin, d, 0).value.t))
  {
    assert NearestTo(boundary, origin, d, 1) == EdgeHit(boundary, origin, d, 0);
    assert NearestTo(boundary, origin, d, 2) == NearestTo(boundary, origin, d, 1);
    assert NearestTo(boundary, origin, d, 3) == NearestTo(boundary, origin, d, 2);
  }

  lemma TopEdge()
    ensures EdgeHit(SquareOf(100.0), Point(50.0, 50.0), Point(0.0, -1.0), 0) == Some(Crossing(50.0, 0.5))
  {
    var s, o, d := SquareOf(100.0), Point(50.0, 50.0), Point(0.0, -1.0);
    assert Succ(0, 4) == 1;
    assert Denominator(d, s[0], s[1]) == 100.0;
    assert RayNumerator(o, s[0], s[1]) == 5000.0;
    assert EdgeNumerator(o, d, s[0]) == 50.0;
  }

  lemma RightEdge()
    ensures EdgeHit(SquareOf(100.0), Point(50.0, 50.0), Point(0.0, -1.0), 1) == None
  {
    var s, o, d := SquareOf(100.0), Point(50.0, 50.0), Point(0.0, -1.0);
    assert Succ(1, 4) == 2;
    assert Solve(o, d, s[1], s[2]) == None by {
      assert Denominator(d, s[1], s[2]) == 0.0;
    }
  }

  lemma LeftEdge()
    ensures EdgeHit(SquareOf(100.0), Point(50.0, 50.0), Point(0.0, -1.0), 3) == None
  {
    var s, o, d := SquareOf(100.0), Point(50.0, 50.0), Point(0.0, -1.0);
    assert Succ(3, 4) == 0;
    assert Solve(o, d, s[3], s[0]) == None by {
      assert Denominator(d, s[3], s[0]) == 0.0;
    }
  }

  lemma BottomEdge()
    ensures EdgeHit(SquareOf(100.0), Point(50.0, 50.0), Point(0.0, -1.0), 2) == None
  {
    var s, o, d := SquareOf(100.0), Point(50.0, 50.0), Point(0.0, -1.0);
    assert Succ(2, 4) == 3;
    assert Denominator(d, s[2], s[3]) == -100.0;
    assert RayNumerator(o, s[2], s[3]) == 5000.0;
  }
}

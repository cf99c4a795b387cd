/**
 * Zone areas measured on pixel masks.  The plot polygon and each zone's
 * wedge are rasterised into boolean masks of the image's shape; the area of
 * a zone is the number of pixels set in both the polygon mask and the zone's
 * wedge mask.  The rasterisation itself is done by the caller, so the masks
 * arrive as arrays.
 */
module ZoneAreas {
  import opened RealSums

  /** A pixel position (row, column). */
  type Pixel = (int, int)

  /** The positions of the set pixels of a mask. */
  function Pixels(m: array2<bool>): set<Pixel>
    reads m
  {
    set i, j | 0 <= i < m.Length0 && 0 <= j < m.Length1 && m[i, j] :: (i, j)
  }

  /** Number of set pixels of a mask, as cv2.countNonZero reports it. */
  function CountNonZero(m: array2<bool>): nat
    reads m
  {
    |Pixels(m)|
  }

  predicate SameShape(a: array2<bool>, b: array2<bool>)
  {
    a.Length0 == b.Length0 && a.Length1 == b.Length1
  }

  /** The area of one zone: the pixels inside both the polygon and the zone's wedge. */
  function ZoneArea(polygonMask: array2<bool>, wedgeMask: array2<bool>): real
    reads polygonMask, wedgeMask
  {
    |Pixels(polygonMask) * Pixels(wedgeMask)| as real
  }

  /** Pixel-wise AND of two masks of one shape into a new mask, as cv2.bitwise_and. */
  method BitwiseAnd(a: array2<bool>, b: array2<bool>) returns (c: array2<bool>)
    requires SameShape(a, b)
    ensures fresh(c) && SameShape(c, a)
    ensures Pixels(c) == Pixels(a) * Pixels(b)
  {
    c := new bool[a.Length0, a.Length1];
    for i := 0 to a.Length0
      invariant forall r, k :: 0 <= r < i && 0 <= k < c.Length1 ==> c[r, k] == (a[r, k] && b[r, k])
    {
      for j := 0 to a.Length1
        invariant forall r, k :: 0 <= r < i && 0 <= k < c.Length1 ==> c[r, k] == (a[r, k] && b[r, k])
        invariant forall k :: 0 <= k < j ==> c[i, k] == (a[i, k] && b[i, k])
      {
        c[i, j] := a[i, j] && b[i, j];
      }
    }
  }

  /**
   * One area per zone, in wheel order: AND the polygon mask with the zone's
   * wedge mask and count the set pixels of the result.
   */
  method ComputeZoneAreas(polygonMask: array2<bool>, wedgeMasks: seq<array2<bool>>) returns (zoneAreas: seq<real>)
    requires |wedgeMasks| == 16
    requires forall k :: 0 <= k < 16 ==> SameShape(wedgeMasks[k], polygonMask)
    ensures |zoneAreas| == 16
    ensures forall k :: 0 <= k < 16 ==> zoneAreas[k] == |Pixels(polygonMask) * Pixels(wedgeMasks[k])| as real
  {
    zoneAreas := [];
    for i := 0 to 16
      invariant |zoneAreas| == i
      invariant forall k :: 0 <= k < i ==> zoneAreas[k] == |Pixels(polygonMask) * Pixels(wedgeMasks[k])| as real
    {
      var zoneMask := BitwiseAnd(polygonMask, wedgeMasks[i]);
      var zoneArea := CountNonZero(zoneMask) as real;
      zoneAreas := zoneAreas + [zoneArea];
    }
  }

  // ---------------------------------------------------------------
  // Properties
  // ---------------------------------------------------------------

  /** Part of a finite set is no larger than the set. */
  lemma IntersectionNoLarger<T>(a: set<T>, b: set<T>)
    ensures |a * b| <= |a|
  {
    assert a == (a * b) + (a - b);
    assert (a * b) * (a - b) == {};
  }

  /** A zone never covers more pixels than the polygon. */
  lemma ZoneAreaBounded(polygonMask: array2<bool>, wedgeMask: array2<bool>)
    ensures 0.0 <= ZoneArea(polygonMask, wedgeMask) <= CountNonZero(polygonMask) as real
  {
    IntersectionNoLarger(Pixels(polygonMask), Pixels(wedgeMask));
  }

  /** Union of the first k sets. */
  function UnionTo<T>(sets: seq<set<T>>, k: nat): set<T>
    requires k <= |sets|
  {
    if k == 0 then {} else UnionTo(sets, k - 1) + sets[k - 1]
  }

  predicate PairwiseDisjoint<T>(sets: seq<set<T>>)
  {
    forall i, j :: 0 <= i < j < |sets| ==> sets[i] * sets[j] == {}
  }

  lemma {:induction false} UnionToHolds<T>(sets: seq<set<T>>, k: nat, x: T)
    requires k <= |sets|
    ensures x in UnionTo(sets, k) <==> exists i :: 0 <= i < k && x in sets[i]
  {
    if k > 0 {
      UnionToHolds(sets, k - 1, x);
    }
  }

  /** The union of the first k of pairwise disjoint sets shares nothing with any later one. */
  lemma {:induction false} UnionDisjointFromLater<T>(sets: seq<set<T>>, k: nat, j: nat)
    requires k <= j < |sets|
    requires PairwiseDisjoint(sets)
    ensures UnionTo(sets, k) * sets[j] == {}
  {
    if k > 0 {
      UnionDisjointFromLater(sets, k - 1, j);
      assert sets[k - 1] * sets[j] == {};
    }
  }

  /** Over pairwise disjoint sets, the counts of the parts of p add up to the part of p in their union. */
  lemma {:induction false} DisjointCountsAdd<T>(p: set<T>, sets: seq<set<T>>, areas: seq<real>, k: nat)
    requires |areas| == |sets| && k <= |sets|
    requires PairwiseDisjoint(sets)
    requires forall i :: 0 <= i < |sets| ==> areas[i] == |p * sets[i]| as real
    ensures SumTo(areas, k) == |p * UnionTo(sets, k)| as real
  {
    if k > 0 {
      DisjointCountsAdd(p, sets, areas, k - 1);
      var before, last := p * UnionTo(sets, k - 1), p * sets[k - 1];
      assert p * UnionTo(sets, k) == before + last;
      UnionDisjointFromLater(sets, k - 1, k - 1);
      assert before * last == {};
    }
  }

  /**
   * When the wedge masks do not overlap, the zone areas add up to at most the
   * polygon's pixel count, and to exactly that count when every polygon pixel
   * lies in some wedge.
   */
  lemma ZoneAreasSum(polygonMask: array2<bool>, wedgeMasks: seq<array2<bool>>, zoneAreas: seq<real>)
    requires |zoneAreas| == |wedgeMasks|
    requires forall k :: 0 <= k < |wedgeMasks| ==> zoneAreas[k] == ZoneArea(polygonMask, wedgeMasks[k])
    requires forall i, j :: 0 <= i < j < |wedgeMasks| ==> Pixels(wedgeMasks[i]) * Pixels(wedgeMasks[j]) == {}
    ensures Sum(zoneAreas) <= CountNonZero(polygonMask) as real
    ensures (forall x :: x in Pixels(polygonMask) ==> exists k :: 0 <= k < |wedgeMasks| && x in Pixels(wedgeMasks[k]))
      ==> Sum(zoneAreas) == CountNonZero(polygonMask) as real
  {
    var p := Pixels(polygonMask);
    var sets := seq(|wedgeMasks|, k requires 0 <= k < |wedgeMasks| reads wedgeMasks => Pixels(wedgeMasks[k]));
    var n := |sets|;
    DisjointCountsAdd(p, sets, zoneAreas, n);
    IntersectionNoLarger(p, UnionTo(sets, n));
    if forall x :: x in p ==> exists k :: 0 <= k < n && x in Pixels(wedgeMasks[k]) {
      forall x | x in p
        ensures x in UnionTo(sets, n)
      {
        UnionToHolds(sets, n, x);
      }
      assert p * UnionTo(sets, n) == p;
    }
  }
}

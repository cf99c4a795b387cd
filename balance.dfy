/**
 * Balance lines of the zonal bar chart and the per-zone remarks.
 * LOB is the mean zone area, ULOB lies halfway between LOB and the largest
 * area, LLOB halfway between LOB and the smallest area.  A zone above ULOB is
 * High, one below LLOB is Low, and every other zone is Balanced.
 */
module Balance {
  import opened RealSums
  import opened Zones

  /** Largest entry, as Python's max() over a non-empty list. */
  function Max(s: seq<real>): (m: real)
    requires |s| > 0
    ensures forall i :: 0 <= i < |s| ==> s[i] <= m
    ensures exists i :: 0 <= i < |s| && s[i] == m
  {
    if |s| == 1 then s[0]
    else
      var rest := Max(s[..|s| - 1]);
      if s[|s| - 1] > rest then s[|s| - 1] else rest
  }

  /** Smallest entry, as Python's min() over a non-empty list. */
  function Min(s: seq<real>): (m: real)
    requires |s| > 0
    ensures forall i :: 0 <= i < |s| ==> m <= s[i]
    ensures exists i :: 0 <= i < |s| && s[i] == m
  {
    if |s| == 1 then s[0]
    else
      var rest := Min(s[..|s| - 1]);
      if s[|s| - 1] < rest then s[|s| - 1] else rest
  }

  /** Arithmetic mean, sum(areas) / len(areas). */
  function Mean(s: seq<real>): (m: real)
    requires |s| > 0
    ensures m * |s| as real == Sum(s)
  {
    Sum(s) / |s| as real
  }

  predicate Uniform(s: seq<real>)
  {
    forall i, j :: 0 <= i < |s| && 0 <= j < |s| ==> s[i] == s[j]
  }

  datatype BalanceLines = BalanceLines(lob: real, ulob: real, llob: real)

  /** The three balance lines of a non-empty list of zone areas; LLOB <= LOB <= ULOB. */
  function Lines(areas: seq<real>): (b: BalanceLines)
    requires |areas| > 0
    ensures Min(areas) <= b.llob <= b.lob <= b.ulob <= Max(areas)
  {
    var lob := Mean(areas);
    MeanBetween(areas);
    BalanceLines(lob, (lob + Max(areas)) / 2.0, (lob + Min(areas)) / 2.0)
  }

  datatype Remark = High | Low | Balanced

  /** Remark for a zone of area v: above ULOB is High, else below LLOB is Low, else Balanced. */
  function RemarkFor(b: BalanceLines, v: real): (r: Remark)
    ensures r == High <==> v > b.ulob
    ensures r == Low <==> v <= b.ulob && v < b.llob
    ensures r == Balanced <==> b.llob <= v <= b.ulob
  {
    if v > b.ulob then High
    else if v < b.llob then Low
    else Balanced
  }

  /** The zone data: each zone mapped to its area, areas given in wheel order. */
  function ZoneData(areas: seq<real>): (data: map<Zone, real>)
    requires |areas| == 16
    ensures forall z :: z in data && data[z] == areas[Index(z)]
  {
    EveryZoneListed();
    map z | z in ZoneOrder :: areas[Index(z)]
  }

  /**
   * Computes the balance lines of the sixteen zone areas and the remark of
   * every zone, visiting the zones in wheel order.
   */
  method ZoneRemarks(areas: seq<real>) returns (lines: BalanceLines, remarks: map<Zone, Remark>)
    requires |areas| == 16
    ensures lines == Lines(areas)
    ensures forall z :: z in remarks && remarks[z] == RemarkFor(lines, areas[Index(z)])
  {
    var zoneData := ZoneData(areas);
    lines := Lines(areas);
    remarks := map[];
    for i := 0 to 16
      invariant forall k :: 0 <= k < i ==> ZoneOrder[k] in remarks && remarks[ZoneOrder[k]] == RemarkFor(lines, zoneData[ZoneOrder[k]])
    {
      var z := ZoneOrder[i];
      var v := zoneData[z];
      if v > lines.ulob {
        remarks := remarks[z := High];
      } else if v < lines.llob {
        remarks := remarks[z := Low];
      } else {
        remarks := remarks[z := Balanced];
      }
    }
    forall z
      ensures z in remarks && remarks[z] == RemarkFor(lines, areas[Index(z)])
    {
      assert ZoneOrder[Index(z)] == z;
    }
  }

  // ---------------------------------------------------------------
  // Properties
  // ---------------------------------------------------------------

  lemma {:induction false} SumAtMost(s: seq<real>, k: nat, hi: real)
    requires k <= |s|
    requires forall i :: 0 <= i < |s| ==> s[i] <= hi
    ensures SumTo(s, k) <= k as real * hi
  {
    if k > 0 {
      SumAtMost(s, k - 1, hi);
      assert k as real * hi == (k - 1) as real * hi + hi;
    }
  }

  lemma {:induction false} SumAtLeast(s: seq<real>, k: nat, lo: real)
    requires k <= |s|
    requires forall i :: 0 <= i < |s| ==> lo <= s[i]
    ensures k as real * lo <= SumTo(s, k)
  {
    if k > 0 {
      SumAtLeast(s, k - 1, lo);
      assert k as real * lo == (k - 1) as real * lo + lo;
    }
  }

  /** An entry strictly below the upper bound pulls the sum strictly below k * hi. */
  lemma {:induction false} SumStrictlyBelow(s: seq<real>, k: nat, hi: real, j: nat)
    requires j < k <= |s|
    requires forall i :: 0 <= i < |s| ==> s[i] <= hi
    requires s[j] < hi
    ensures SumTo(s, k) < k as real * hi
  {
    assert k as real * hi == (k - 1) as real * hi + hi;
    if j < k - 1 {
      SumStrictlyBelow(s, k - 1, hi, j);
    } else {
      SumAtMost(s, k - 1, hi);
    }
  }

  /** An entry strictly above the lower bound pulls the sum strictly above k * lo. */
  lemma {:induction false} SumStrictlyAbove(s: seq<real>, k: nat, lo: real, j: nat)
    requires j < k <= |s|
    requires forall i :: 0 <= i < |s| ==> lo <= s[i]
    requires lo < s[j]
    ensures k as real * lo < SumTo(s, k)
  {
    assert k as real * lo == (k - 1) as real * lo + lo;
    if j < k - 1 {
      SumStrictlyAbove(s, k - 1, lo, j);
    } else {
      SumAtLeast(s, k - 1, lo);
    }
  }

  /** The mean lies between the smallest and the largest entry. */
  lemma MeanBetween(s: seq<real>)
    requires |s| > 0
    ensures Min(s) <= Mean(s) <= Max(s)
  {
    MeanAtLeast(s, Min(s));
    MeanAtMost(s, Max(s));
  }

  lemma MeanAtLeast(s: seq<real>, lo: real)
    requires |s| > 0
    requires forall i :: 0 <= i < |s| ==> lo <= s[i]
    ensures lo <= Mean(s)
  {
    SumAtLeast(s, |s|, lo);
    DivAtLeast(Sum(s), |s| as real, lo);
  }

  lemma MeanAtMost(s: seq<real>, hi: real)
    requires |s| > 0
    requires forall i :: 0 <= i < |s| ==> s[i] <= hi
    ensures Mean(s) <= hi
  {
    SumAtMost(s, |s|, hi);
    DivAtMost(Sum(s), |s| as real, hi);
  }

  lemma DivAtLeast(x: real, n: real, lo: real)
    requires n > 0.0 && n * lo <= x
    ensures lo <= x / n
  {
  }

  lemma DivAtMost(x: real, n: real, hi: real)
    requires n > 0.0 && x <= n * hi
    ensures x / n <= hi
  {
  }

  /** Unless all entries are equal, the mean lies strictly between the smallest and the largest. */
  lemma MeanStrictlyBetween(s: seq<real>)
    requires |s| > 0 && !Uniform(s)
    ensures Min(s) < Mean(s) < Max(s)
  {
    var i, j :| 0 <= i < |s| && 0 <= j < |s| && s[i] != s[j];
    var lo := if s[i] < s[j] then i else j;
    var hi := if s[i] < s[j] then j else i;
    MeanStrictlyBelow(s, Max(s), lo);
    MeanStrictlyAbove(s, Min(s), hi);
  }

  lemma MeanStrictlyBelow(s: seq<real>, hi: real, j: nat)
    requires j < |s|
    requires forall i :: 0 <= i < |s| ==> s[i] <= hi
    requires s[j] < hi
    ensures Mean(s) < hi
  {
    SumStrictlyBelow(s, |s|, hi, j);
    DivBelow(Sum(s), |s| as real, hi);
  }

  lemma MeanStrictlyAbove(s: seq<real>, lo: real, j: nat)
    requires j < |s|
    requires forall i :: 0 <= i < |s| ==> lo <= s[i]
    requires lo < s[j]
    ensures lo < Mean(s)
  {
    SumStrictlyAbove(s, |s|, lo, j);
    DivAbove(Sum(s), |s| as real, lo);
  }

  lemma DivAbove(x: real, n: real, lo: real)
    requires n > 0.0 && n * lo < x
    ensures lo < x / n
  {
  }

  lemma DivBelow(x: real, n: real, hi: real)
    requires n > 0.0 && x < n * hi
    ensures x / n < hi
  {
  }

  /** Remarks follow the thresholds: High iff above ULOB, Low iff below LLOB, Balanced iff on or between them. */
  lemma RemarkThresholds(areas: seq<real>, v: real)
    requires |areas| > 0
    ensures RemarkFor(Lines(areas), v) == High <==> v > Lines(areas).ulob
    ensures RemarkFor(Lines(areas), v) == Low <==> v < Lines(areas).llob
    ensures RemarkFor(Lines(areas), v) == Balanced <==> Lines(areas).llob <= v <= Lines(areas).ulob
  {
  }

  /** When all zones have the same area every zone is Balanced, and only then. */
  lemma AllBalancedIffUniform(areas: seq<real>)
    requires |areas| > 0
    ensures (forall i :: 0 <= i < |areas| ==> RemarkFor(Lines(areas), areas[i]) == Balanced) <==> Uniform(areas)
  {
    if Uniform(areas) {
      var m := Max(areas);
      assert Min(areas) == m;
    } else {
      MeanStrictlyBetween(areas);
      var i :| 0 <= i < |areas| && areas[i] == Max(areas);
      assert RemarkFor(Lines(areas), areas[i]) == High;
    }
  }

  /** Unless all zones are equal, a largest zone is High and a smallest zone is Low. */
  lemma ExtremesFlagged(areas: seq<real>)
    requires |areas| > 0 && !Uniform(areas)
    ensures exists i :: 0 <= i < |areas| && areas[i] == Max(areas) && RemarkFor(Lines(areas), areas[i]) == High
    ensures exists i :: 0 <= i < |areas| && areas[i] == Min(areas) && RemarkFor(Lines(areas), areas[i]) == Low
  {
    MeanStrictlyBetween(areas);
  }
}

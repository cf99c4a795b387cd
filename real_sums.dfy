/** Finite sums of real sequences, shared by the geometry and the report arithmetic. */
module RealSums {
  /** Sum of the first k entries. */
  function SumTo(s: seq<real>, k: nat): real
    requires k <= |s|
  {
    if k == 0 then 0.0 else SumTo(s, k - 1) + s[k - 1]
  }

  /** Sum of all entries, as Python's sum() over a list of floats. */
  function Sum(s: seq<real>): real
  {
    SumTo(s, |s|)
  }
}

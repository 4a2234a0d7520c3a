/**
 The intensity histogram computed once when the model is built. The per-voxel
 sampling of the source is disabled, so every bin count stays zero; the counts
 are still divided by the divisor the code computes, dim[1] * dim[1] * dim[2]
 (the second pixel size appears twice), which raises when it is zero.
 */
module Histogram {
  import opened Results
  import opened BoundingBox

  const BinCount: nat := 100

  /** The divisor as the code computes it from the pixel sizes. */
  function Total(d: Dims): nat {
    d.b * d.b * d.c
  }

  /** Bin counts divided by a positive total. */
  function Normalise(counts: seq<nat>, total: nat): (r: seq<real>)
    requires total > 0
    ensures |r| == |counts|
    ensures forall i :: 0 <= i < |counts| ==> r[i] * total as real == counts[i] as real
  {
    seq(|counts|, i requires 0 <= i < |counts| => counts[i] as real / total as real)
  }

  function SumNat(s: seq<nat>): nat
    decreases |s|
  {
    if |s| == 0 then 0 else SumNat(s[..|s| - 1]) + s[|s| - 1]
  }

  function SumReal(s: seq<real>): real
    decreases |s|
  {
    if |s| == 0 then 0.0 else SumReal(s[..|s| - 1]) + s[|s| - 1]
  }

  /** Normalising divides the total mass of the counts by the divisor. */
  lemma {:induction false} NormaliseMass(counts: seq<nat>, total: nat)
    requires total > 0
    ensures SumReal(Normalise(counts, total)) == SumNat(counts) as real / total as real
    decreases |counts|
  {
    if |counts| > 0 {
      var n := |counts| - 1;
      assert Normalise(counts, total)[..n] == Normalise(counts[..n], total);
      NormaliseMass(counts[..n], total);
      DivAdd(SumNat(counts[..n]) as real, counts[n] as real, total as real);
    }
  }

  /** Division by a positive divisor distributes over a sum. */
  lemma DivAdd(a: real, b: real, t: real)
    requires t > 0.0
    ensures a / t + b / t == (a + b) / t
  {
    assert (a / t) * t == a;
    assert (b / t) * t == b;
    assert ((a + b) / t) * t == a + b;
  }

  /** The bin counts the disabled sampling leaves behind. */
  function EmptyCounts(): (r: seq<nat>)
    ensures |r| == BinCount
    ensures SumNat(r) == 0
  {
    var z := seq(BinCount, _ => 0);
    ZeroSum(z);
    z
  }

  lemma {:induction false} ZeroSum(s: seq<nat>)
    requires forall i :: 0 <= i < |s| ==> s[i] == 0
    ensures SumNat(s) == 0
    decreases |s|
  {
    if |s| > 0 {
      ZeroSum(s[..|s| - 1]);
    }
  }

  /**
   The histogram: fails exactly when the divisor is zero; otherwise 100 bins,
   each zero.
   */
  function HistoData(d: Dims): (r: Result<seq<real>>)
    ensures r.Failure? <==> d.b == 0 || d.c == 0
    ensures r.Failure? ==> r.error == ZeroDivision
    ensures r.Success? ==> |r.value| == BinCount
    ensures r.Success? ==> forall i :: 0 <= i < BinCount ==> r.value[i] == 0.0
  {
    var total := Total(d);
    if total == 0 then Failure(ZeroDivision) else Success(Normalise(EmptyCounts(), total))
  }

  /**
   The bins do not sum to one, as a normalised frequency histogram would, but to
   zero: no sample is ever counted.
   */
  lemma HistogramMassZero(d: Dims)
    requires HistoData(d).Success?
    ensures SumReal(HistoData(d).value) == 0.0
  {
    NormaliseMass(EmptyCounts(), Total(d));
  }
}

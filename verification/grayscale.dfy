/**
 Derivation of the single-value image field from the source image: a
 three-component image is reduced to luminance with the ITU-R BT.601 luma
 weights; an image with any other number of components is used as it is.
 */
module Grayscale {

  /** ITU-R BT.601 luma weights for the first, second and third component. */
  const W1: real := 0.299
  const W2: real := 0.587
  const W3: real := 0.114

  /** An image as its component count and the component values of every sample. */
  datatype Image = Image(components: nat, samples: seq<seq<real>>)

  /** Every sample carries exactly the declared number of components. */
  predicate WellFormed(img: Image) {
    forall k :: 0 <= k < |img.samples| ==> |img.samples[k]| == img.components
  }

  predicate InUnit(v: real) {
    0.0 <= v <= 1.0
  }

  /** Every component of every sample lies in [0, 1]. */
  predicate AllInUnit(img: Image) {
    forall k, j :: 0 <= k < |img.samples| && 0 <= j < |img.samples[k]| ==> InUnit(img.samples[k][j])
  }

  /** The weighted luminance of one three-component sample. */
  function Luminance(c1: real, c2: real, c3: real): real {
    W1 * c1 + W2 * c2 + W3 * c3
  }

  /** The weights are a convex combination: non-negative and summing to one. */
  lemma WeightsConvex()
    ensures W1 >= 0.0 && W2 >= 0.0 && W3 >= 0.0
    ensures W1 + W2 + W3 == 1.0
  {
  }

  /**
   Because the weights are convex, luminance lies between the smallest and the
   largest component; in particular components in [0, 1] give a value in [0, 1],
   and a grey sample (all components equal) keeps its level.
   */
  lemma {:induction false} LuminanceBetween(c1: real, c2: real, c3: real, lo: real, hi: real)
    requires lo <= c1 <= hi && lo <= c2 <= hi && lo <= c3 <= hi
    ensures lo <= Luminance(c1, c2, c3) <= hi
  {
    assert Luminance(lo, lo, lo) == lo;
    assert Luminance(hi, hi, hi) == hi;
  }

  /** Luminance never decreases when a component increases. */
  lemma LuminanceMonotone(c1: real, c2: real, c3: real, d1: real, d2: real, d3: real)
    requires c1 <= d1 && c2 <= d2 && c3 <= d3
    ensures Luminance(c1, c2, c3) <= Luminance(d1, d2, d3)
  {
  }

  /**
   The value image: a well-formed three-component image becomes a one-component
   image with the luminance of each sample, in the same sample order; any other
   image is returned unchanged. Values in [0, 1] stay in [0, 1].
   */
  function ValueImage(img: Image): (r: Image)
    requires WellFormed(img)
    ensures WellFormed(r)
    ensures |r.samples| == |img.samples|
    ensures img.components == 3 ==> r.components == 1
    ensures img.components == 3 ==> forall k :: 0 <= k < |img.samples| ==>
      r.samples[k] == [Luminance(img.samples[k][0], img.samples[k][1], img.samples[k][2])]
    ensures img.components != 3 ==> r == img
    ensures AllInUnit(img) ==> AllInUnit(r)
  {
    if img.components == 3 then
      var out := seq(|img.samples|, k requires 0 <= k < |img.samples| =>
        [Luminance(img.samples[k][0], img.samples[k][1], img.samples[k][2])]);
      assert AllInUnit(img) ==> AllInUnit(Image(1, out)) by {
        if AllInUnit(img) {
          forall k | 0 <= k < |out|
            ensures InUnit(out[k][0])
          {
            var px := img.samples[k];
            assert InUnit(px[0]) && InUnit(px[1]) && InUnit(px[2]);
            LuminanceBetween(px[0], px[1], px[2], 0.0, 1.0);
          }
        }
      }
      Image(1, out)
    else
      img
  }

  /** A grey sample (all three components equal) maps to its own level. */
  lemma GreyPreserved(v: real)
    ensures ValueImage(Image(3, [[v, v, v]])).samples == [[v]]
  {
  }
}

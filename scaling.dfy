/** Min-max scaling of one band's pixel values over the whole array,
    `(x - min) / (max - min)`, applied once per band before training.
    The array is taken flattened: the minimum and maximum are global,
    so the shape plays no part. */
module Scaling {

  /** What the scaling yields. For a constant array numpy divides 0 by 0
      without raising and the result is NaN in every entry; for an empty
      array numpy's minimum reduction raises. */
  datatype Scaled =
    | Finite(values: seq<real>)
    | AllNaN(length: nat)
    | EmptyArrayError

  function Min(s: seq<real>): (m: real)
    requires |s| > 0
    ensures m in s
    ensures forall i :: 0 <= i < |s| ==> m <= s[i]
  {
    if |s| == 1 then s[0]
    else
      var rest := Min(s[1..]);
      if s[0] <= rest then s[0] else rest
  }

  function Max(s: seq<real>): (m: real)
    requires |s| > 0
    ensures m in s
    ensures forall i :: 0 <= i < |s| ==> s[i] <= m
  {
    if |s| == 1 then s[0]
    else
      var rest := Max(s[1..]);
      if s[0] >= rest then s[0] else rest
  }

  /** Scales every value of `x` by the global minimum and maximum.
      (The mean-centred value the source computes first is overwritten
      before use and has no effect on the result.) */
  function Scale(x: seq<real>): (r: Scaled)
    ensures r == EmptyArrayError <==> |x| == 0
    ensures r == AllNaN(|x|) <==> |x| > 0 && Min(x) == Max(x)
    ensures r.AllNaN? ==> r.length == |x|
    ensures r.Finite? <==> |x| > 0 && Min(x) < Max(x)
    ensures r.Finite? ==> |r.values| == |x|
    ensures r.Finite? ==> forall i :: 0 <= i < |x| ==> 0.0 <= r.values[i] <= 1.0
  {
    if |x| == 0 then EmptyArrayError
    else
      var lo, hi := Min(x), Max(x);
      if lo == hi then AllNaN(|x|)
      else
        Finite(seq(|x|, i requires 0 <= i < |x| => ScaleValue(x[i], lo, hi)))
  }

  function ScaleValue(v: real, lo: real, hi: real): (r: real)
    requires lo <= v <= hi && lo < hi
    ensures 0.0 <= r <= 1.0
    ensures Unscale(r, lo, hi) == v
  {
    (v - lo) / (hi - lo)
  }

  /** The inverse of the scaling: maps `[0, 1]` back onto `[lo, hi]`. */
  function Unscale(r: real, lo: real, hi: real): real {
    lo + r * (hi - lo)
  }

  /** A constant array is exactly one whose minimum equals its maximum:
      the degenerate case is detected precisely. */
  lemma ZeroRangeIffConstant(x: seq<real>)
    requires |x| > 0
    ensures Min(x) == Max(x) <==> forall i, j :: 0 <= i < |x| && 0 <= j < |x| ==> x[i] == x[j]
  {
    if forall i, j :: 0 <= i < |x| && 0 <= j < |x| ==> x[i] == x[j] {
      var a :| 0 <= a < |x| && x[a] == Min(x);
      var b :| 0 <= b < |x| && x[b] == Max(x);
      assert x[a] == x[b];
    }
  }

  /** The minimum maps to 0 and the maximum to 1. */
  lemma ScaleValueEndpoints(lo: real, hi: real)
    requires lo < hi
    ensures ScaleValue(lo, lo, hi) == 0.0 && ScaleValue(hi, lo, hi) == 1.0
  {
  }

  /** Scaling of single values keeps their order in both directions. */
  lemma ScaleValueMonotone(v: real, w: real, lo: real, hi: real)
    requires lo <= v <= hi && lo <= w <= hi && lo < hi
    ensures v <= w <==> ScaleValue(v, lo, hi) <= ScaleValue(w, lo, hi)
  {
    var r, s := ScaleValue(v, lo, hi), ScaleValue(w, lo, hi);
    var d := hi - lo;
    assert w - v == (s - r) * d;
  }

  /** The minimum maps to 0 and the maximum to 1, and both are reached. */
  lemma ScaleEndpoints(x: seq<real>)
    requires Scale(x).Finite?
    ensures forall i :: 0 <= i < |x| && x[i] == Min(x) ==> Scale(x).values[i] == 0.0
    ensures forall i :: 0 <= i < |x| && x[i] == Max(x) ==> Scale(x).values[i] == 1.0
    ensures 0.0 in Scale(x).values && 1.0 in Scale(x).values
  {
    var lo, hi := Min(x), Max(x);
    var r := Scale(x).values;
    ScaleValueEndpoints(lo, hi);
    forall i | 0 <= i < |x|
      ensures r[i] == ScaleValue(x[i], lo, hi)
    {
    }
    var a :| 0 <= a < |x| && x[a] == lo;
    var b :| 0 <= b < |x| && x[b] == hi;
    assert r[a] == 0.0 && r[b] == 1.0;
  }

  /** Scaling keeps the order of values in both directions. */
  lemma ScalePreservesOrder(x: seq<real>, i: nat, j: nat)
    requires Scale(x).Finite? && i < |x| && j < |x|
    ensures x[i] <= x[j] <==> Scale(x).values[i] <= Scale(x).values[j]
  {
    var lo, hi := Min(x), Max(x);
    ScaleValueMonotone(x[i], x[j], lo, hi);
    assert Scale(x).values[i] == ScaleValue(x[i], lo, hi);
    assert Scale(x).values[j] == ScaleValue(x[j], lo, hi);
  }

  /** Every original value is recovered from its scaled value. */
  lemma ScaleIsInvertible(x: seq<real>, i: nat)
    requires Scale(x).Finite? && i < |x|
    ensures Unscale(Scale(x).values[i], Min(x), Max(x)) == x[i]
  {
    assert Scale(x).values[i] == ScaleValue(x[i], Min(x), Max(x));
  }
}

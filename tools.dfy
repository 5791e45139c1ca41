// Generic helpers of the search (tools::bring_to_bound, bring_v_to_bound,
// average), the random choices every operator draws from, and `ceil`.
module MetaTools {
  import opened Wrappers

  /** `ceil` over exact reals: the least integer not below `x`. */
  function Ceil(x: real): (c: int)
    ensures x <= c as real < x + 1.0
  {
    -((-x).Floor)
  }

  lemma CeilMonotone(x: real, y: real)
    requires x <= y
    ensures Ceil(x) <= Ceil(y)
  {
  }

  /** The ceiling of a sum is at most the sum of the ceilings, and at least one less. */
  lemma CeilOfSum(x: real, y: real)
    ensures Ceil(x) + Ceil(y) - 1 <= Ceil(x + y) <= Ceil(x) + Ceil(y)
  {
  }

  /** Clamps `v` into `[l, u]`: below `l` gives `l`, above `u` gives `u`. */
  function BringToBound(v: int, l: int, u: int): (r: int)
    ensures l <= u ==> l <= r <= u
    ensures l <= v <= u ==> r == v
    ensures v < l ==> r == l
    ensures l <= v && u < v ==> r == u
  {
    if v < l then l
    else if v > u then u
    else v
  }

  /** Clamping twice is clamping once. */
  lemma BringToBoundIdempotent(v: int, l: int, u: int)
    requires l <= u
    ensures BringToBound(BringToBound(v, l, u), l, u) == BringToBound(v, l, u)
  {
  }

  /** Element-wise clamp, built element by element as the source pushes back. */
  method BringVToBound(v: seq<int>, l: int, u: int) returns (out: seq<int>)
    ensures |out| == |v|
    ensures forall i :: 0 <= i < |v| ==> out[i] == BringToBound(v[i], l, u)
    ensures l <= u ==> forall i :: 0 <= i < |out| ==> l <= out[i] <= u
  {
    out := [];
    var k := 0;
    while k < |v|
      invariant 0 <= k <= |v|
      invariant |out| == k
      invariant forall i :: 0 <= i < k ==> out[i] == BringToBound(v[i], l, u)
    {
      out := out + [BringToBound(v[k], l, u)];
      k := k + 1;
    }
  }

  /** Sum of the elements, as a real (the source accumulates into a float). */
  function Sum(v: seq<real>): real
  {
    if v == [] then 0.0 else Sum(v[..|v| - 1]) + v[|v| - 1]
  }

  /** Every element in [lo, hi] puts the sum in [|v| * lo, |v| * hi]. */
  lemma {:induction false} SumBounds(v: seq<real>, lo: real, hi: real)
    requires forall i :: 0 <= i < |v| ==> lo <= v[i] <= hi
    ensures (|v| as real) * lo <= Sum(v) <= (|v| as real) * hi
  {
    if v != [] {
      SumBounds(v[..|v| - 1], lo, hi);
    }
  }

  /**
   * The arithmetic mean. The source divides by the size even when the
   * vector is empty, which gives a NaN float; the model returns None there.
   */
  method Average(v: seq<real>) returns (avg: Option<real>)
    ensures v == [] <==> avg.None?
    ensures avg.Some? ==> avg.value * (|v| as real) == Sum(v)
  {
    var acc := 0.0;
    var k := 0;
    while k < |v|
      invariant 0 <= k <= |v|
      invariant acc == Sum(v[..k])
    {
      assert v[..k + 1][..k] == v[..k];
      acc := acc + v[k];
      k := k + 1;
    }
    assert v[..|v|] == v;
    if |v| == 0 {
      avg := None;
    } else {
      avg := Some(acc / (|v| as real));
    }
  }

  /** The mean of values that all lie in [lo, hi] lies in [lo, hi]. */
  lemma AverageBounds(v: seq<real>, lo: real, hi: real)
    requires v != []
    requires forall i :: 0 <= i < |v| ==> lo <= v[i] <= hi
    ensures lo <= Sum(v) / (|v| as real) <= hi
  {
    SumBounds(v, lo, hi);
  }

  /** `random::random_indx(max)`: some integer in [0, max]. */
  method RandomIndx(max: int) returns (i: int)
    requires max >= 0
    ensures 0 <= i <= max
  {
    i :| 0 <= i <= max;
  }

  /** `random::random_int(min, max)`: some integer in [min, max]. */
  method RandomInt(min: int, max: int) returns (i: int)
    requires min <= max
    ensures min <= i <= max
  {
    i :| min <= i <= max;
  }

  /** `random::random_bool()`: a coin flip; either answer may come. */
  method RandomBool() returns (b: bool)
  {
    b :| true;
  }
}

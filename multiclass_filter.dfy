/** The multi-class prosthetic controller: the smoother applied to every
    class probability, and a latching selection of the most confident class. */
module MultiClassFilter {
  import opened Smoothing

  /** `k` is the first index at which `s` attains its maximum, the index
      that a first-occurrence argmax reports. */
  ghost predicate IsFirstMax(s: seq<real>, k: int)
  {
    && 0 <= k < |s|
    && (forall j :: 0 <= j < |s| ==> s[j] <= s[k])
    && (forall j :: 0 <= j < k ==> s[j] < s[k])
  }

  /** Every non-empty vector has a first maximum. */
  lemma {:induction false} FirstMaxExists(s: seq<real>)
    requires |s| > 0
    ensures exists k :: IsFirstMax(s, k)
    decreases |s|
  {
    if |s| == 1 {
      assert IsFirstMax(s, 0);
    } else {
      var init := s[..|s| - 1];
      FirstMaxExists(init);
      var k :| IsFirstMax(init, k);
      if s[|s| - 1] > s[k] {
        assert IsFirstMax(s, |s| - 1);
      } else {
        assert IsFirstMax(s, k);
      }
    }
  }

  /** ... and only one, so the selected class is determined by the vector. */
  lemma FirstMaxUnique(s: seq<real>, j: int, k: int)
    requires IsFirstMax(s, j) && IsFirstMax(s, k)
    ensures j == k
  {
    assert s[j] == s[k];
  }

  /** The maximum exceeds the threshold exactly when some element does, so
      "max > threshold" may be read either way. */
  lemma MaxAboveIffSomeAbove(s: seq<real>, k: int, threshold: real)
    requires IsFirstMax(s, k)
    ensures s[k] > threshold <==> exists i :: 0 <= i < |s| && s[i] > threshold
  {
  }

  /** Element-wise smoothing of the whole vector. */
  method SmoothVector(alpha: real, v: seq<real>, prev: seq<real>) returns (r: seq<real>)
    requires |v| == |prev|
    ensures |r| == |prev|
    ensures forall i :: 0 <= i < |r| ==> r[i] == Blend(alpha, v[i], prev[i])
  {
    r := [];
    var i := 0;
    while i < |prev|
      invariant 0 <= i <= |prev|
      invariant |r| == i
      invariant forall j :: 0 <= j < i ==> r[j] == Blend(alpha, v[j], prev[j])
    {
      r := r + [alpha * v[i] + (1.0 - alpha) * prev[i]];
      i := i + 1;
    }
  }

  /** A first-occurrence argmax scan: a later element replaces the current
      best only when it is strictly larger. */
  method ArgMax(s: seq<real>) returns (k: int)
    requires |s| > 0
    ensures IsFirstMax(s, k)
  {
    k := 0;
    var i := 1;
    while i < |s|
      invariant 1 <= i <= |s|
      invariant IsFirstMax(s[..i], k)
    {
      if s[i] > s[k] {
        k := i;
      }
      assert s[..i + 1][..i] == s[..i];
      i := i + 1;
    }
    assert s[..|s|] == s;
  }

  /** `MultiClassSmoothController`: the class count, the smoothed vector,
      the configuration and the selected class, all updated in place. */
  class MultiClassSmoothController {
    var n: int
    var output: seq<real>
    var alpha: real
    var threshold: real
    var state: int

    ghost predicate Valid()
      reads this
    {
      n > 0 && |output| == n && 0 <= state < n
    }

    /** The output starts as the uniform vector `1/n` and the selected class
        as 0. */
    constructor (nClasses: int := 2, alpha: real := 0.3, threshold: real := 0.9)
      requires nClasses > 0
      ensures Valid()
      ensures n == nClasses && state == 0
      ensures forall i :: 0 <= i < n ==> output[i] == 1.0 / (n as real)
      ensures this.alpha == alpha && this.threshold == threshold
    {
      n := nClasses;
      output := seq(nClasses, _ => 1.0 / (nClasses as real));
      this.alpha := alpha;
      this.threshold := threshold;
      state := 0;
    }

    /** One control cycle: smooth every class probability, then latch the
        first most confident class if its smoothed value exceeds the
        threshold; otherwise keep the class selected before. */
    method Update(probVector: seq<real>) returns (s: int)
      requires Valid()
      requires |probVector| == n
      modifies this`output, this`state
      ensures Valid()
      ensures forall i :: 0 <= i < n ==> output[i] == Blend(alpha, probVector[i], old(output)[i])
      ensures (exists i :: 0 <= i < n && output[i] > threshold) ==> IsFirstMax(output, state)
      ensures (forall i :: 0 <= i < n ==> output[i] <= threshold) ==> state == old(state)
      ensures n == old(n) && alpha == old(alpha) && threshold == old(threshold)
      ensures s == state
    {
      output := SmoothVector(alpha, probVector, output);
      var k := ArgMax(output);
      MaxAboveIffSomeAbove(output, k, threshold);
      if output[k] > threshold {
        state := k;
      }
      s := state;
    }

    /** Back to the uniform vector and class 0, whatever happened before. */
    method Reset()
      requires Valid()
      modifies this`output, this`state
      ensures Valid()
      ensures forall i :: 0 <= i < n ==> output[i] == 1.0 / (n as real)
      ensures state == 0
      ensures n == old(n) && alpha == old(alpha) && threshold == old(threshold)
    {
      var m := n;
      output := seq(m, _ => 1.0 / (m as real));
      state := 0;
    }
  }
}

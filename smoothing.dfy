/** The one-pole exponential moving average (an IIR low-pass filter) that both
    prediction smoothers apply once per control cycle, and what it does when
    the same input is fed to it over and over.

    All arithmetic is over exact reals; floating-point rounding is not modelled. */
module Smoothing {

  function Abs(x: real): real
  {
    if x < 0.0 then -x else x
  }

  /** One filter step: the new output is `alpha * input + (1 - alpha) * prev`. */
  function Blend(alpha: real, input: real, prev: real): real
  {
    alpha * input + (1.0 - alpha) * prev
  }

  /** The blend read as an error equation: the distance of the new output
      from the input is the old distance scaled by `1 - alpha`. With
      `alpha = 1` the output is the input, with `alpha = 0` it is unchanged. */
  lemma BlendError(alpha: real, input: real, prev: real)
    ensures Blend(alpha, input, prev) - input == (1.0 - alpha) * (prev - input)
    ensures alpha == 1.0 ==> Blend(alpha, input, prev) == input
    ensures alpha == 0.0 ==> Blend(alpha, input, prev) == prev
  {
  }

  function Pow(q: real, k: nat): (r: real)
    ensures 0.0 <= q ==> 0.0 <= r
  {
    if k == 0 then 1.0 else q * Pow(q, k - 1)
  }

  /** The filter output after the constant input `p` has been fed `k` times,
      starting from the output `x`. */
  function Repeat(alpha: real, p: real, x: real, k: nat): real
  {
    if k == 0 then x else Blend(alpha, p, Repeat(alpha, p, x, k - 1))
  }

  /** Closed form of the constant-input response: the error after `k` steps
      is the initial error times `(1 - alpha)^k`. */
  lemma {:induction false} RepeatError(alpha: real, p: real, x: real, k: nat)
    ensures Repeat(alpha, p, x, k) - p == Pow(1.0 - alpha, k) * (x - p)
  {
    if k > 0 {
      RepeatError(alpha, p, x, k - 1);
      MulAssoc(1.0 - alpha, Pow(1.0 - alpha, k - 1), x - p);
    }
  }

  /** For `alpha <= 1` the output never crosses a constant input: after any
      number of cycles it is still on the side of `p` it started on, because
      the error is the initial error times the non-negative `(1 - alpha)^k`. */
  lemma RepeatKeepsSide(alpha: real, p: real, x: real, k: nat)
    requires alpha <= 1.0
    ensures x <= p ==> Repeat(alpha, p, x, k) <= p
    ensures p <= x ==> p <= Repeat(alpha, p, x, k)
  {
    RepeatError(alpha, p, x, k);
    MulSigns(Pow(1.0 - alpha, k), x - p);
  }

  /** The stability margin `1 - |1 - alpha|`: the fraction of the error that
      one cycle removes. It lies in (0, 1] exactly for `0 < alpha < 2`, the
      range in which the filter is stable. */
  function Margin(alpha: real): real
  {
    1.0 - Abs(1.0 - alpha)
  }

  lemma MarginRange(alpha: real)
    ensures 0.0 < alpha < 2.0 <==> 0.0 < Margin(alpha) <= 1.0
  {
  }

  /** With `0 < alpha < 2` each step multiplies the distance to a constant
      input by exactly `|1 - alpha| < 1` (by `1 - alpha` when `alpha <= 1`),
      so it strictly shrinks unless the output has already reached the input. */
  lemma ErrorShrinks(alpha: real, p: real, x: real)
    requires 0.0 < alpha < 2.0
    ensures Abs(Blend(alpha, p, x) - p) == Abs(1.0 - alpha) * Abs(x - p)
    ensures Abs(1.0 - alpha) < 1.0
    ensures alpha <= 1.0 ==> Abs(Blend(alpha, p, x) - p) == (1.0 - alpha) * Abs(x - p)
    ensures x != p ==> Abs(Blend(alpha, p, x) - p) < Abs(x - p)
  {
    BlendError(alpha, p, x);
    ScaledShrinks(1.0 - alpha, x - p, Blend(alpha, p, x) - p);
  }

  /** The arithmetic of ErrorShrinks: scaling by a factor of size below 1. */
  lemma ScaledShrinks(q: real, e: real, y: real)
    requires -1.0 < q < 1.0
    requires y == q * e
    ensures Abs(y) == Abs(q) * Abs(e)
    ensures e != 0.0 ==> Abs(y) < Abs(e)
  {
    AbsMul(q, e, y);
    if e != 0.0 {
      ProductBelow(Abs(y), Abs(q), Abs(e));
    }
  }

  lemma ProductBelow(ay: real, aq: real, ae: real)
    requires ay == aq * ae && 0.0 <= aq < 1.0 && ae > 0.0
    ensures ay < ae
  {
    MulStrict(1.0, aq, ae);
  }

  /** A step with `1 < alpha < 2` overshoots: an output below the input jumps
      above it and one above it drops below, which is why a gain below 1 is
      preferred for a monotone response. */
  lemma OvershootAboveOne(alpha: real, p: real, x: real)
    requires 1.0 < alpha < 2.0
    ensures x < p ==> Blend(alpha, p, x) > p
    ensures x > p ==> Blend(alpha, p, x) < p
  {
    BlendError(alpha, p, x);
    NegativeScaleFlips(1.0 - alpha, x - p, Blend(alpha, p, x) - p);
  }

  /** The arithmetic of OvershootAboveOne: a negative factor flips the sign. */
  lemma NegativeScaleFlips(q: real, e: real, y: real)
    requires q < 0.0
    requires y == q * e
    ensures e < 0.0 ==> y > 0.0
    ensures e > 0.0 ==> y < 0.0
  {
    MulSigns(-q, e);
    assert y == -((-q) * e);
    if e != 0.0 {
      MulStrict(-q, 0.0, Abs(e));
    }
  }

  lemma AbsMul(a: real, b: real, y: real)
    requires y == a * b
    ensures Abs(y) == Abs(a) * Abs(b)
  {
    if a < 0.0 {
      MulSigns(-a, b);
      assert y == -((-a) * b);
    } else {
      MulSigns(a, b);
    }
  }

  lemma MulAssoc(a: real, b: real, c: real)
    ensures a * (b * c) == (a * b) * c
  {
  }

  lemma MulSigns(a: real, b: real)
    requires 0.0 <= a
    ensures 0.0 <= b ==> 0.0 <= a * b
    ensures b <= 0.0 ==> a * b <= 0.0
  {
  }

  /** Monotone approach from below: with `0 < alpha <= 1` and a start at or
      below the input, the output never decreases and never overshoots. */
  lemma {:induction false} RepeatRisesToInput(alpha: real, p: real, x: real, k: nat)
    requires 0.0 < alpha <= 1.0
    requires x <= p
    ensures x <= Repeat(alpha, p, x, k) <= Repeat(alpha, p, x, k + 1) <= p
  {
    if k > 0 {
      RepeatRisesToInput(alpha, p, x, k - 1);
    }
    var y := Repeat(alpha, p, x, k);
    assert y <= p by {
      if k > 0 { RepeatRisesToInput(alpha, p, x, k - 1); }
    }
    assert Blend(alpha, p, y) - y == alpha * (p - y);
    MulSigns(alpha, p - y);
    MulSigns(1.0 - alpha, y - p);
  }

  /** Monotone approach from above, the mirror image of RepeatRisesToInput. */
  lemma {:induction false} RepeatFallsToInput(alpha: real, p: real, x: real, k: nat)
    requires 0.0 < alpha <= 1.0
    requires p <= x
    ensures p <= Repeat(alpha, p, x, k + 1) <= Repeat(alpha, p, x, k) <= x
  {
    if k > 0 {
      RepeatFallsToInput(alpha, p, x, k - 1);
    }
    var y := Repeat(alpha, p, x, k);
    assert p <= y by {
      if k > 0 { RepeatFallsToInput(alpha, p, x, k - 1); }
    }
    assert y - Blend(alpha, p, y) == alpha * (y - p);
    MulSigns(alpha, y - p);
    MulSigns(1.0 - alpha, y - p);
  }

  /** The error after `k` constant-input cycles, scaled by
      `1 + k * Margin(alpha)`, never exceeds the initial error: a
      Bernoulli-style decay bound, for every stable gain. */
  lemma {:induction false} RepeatErrorBound(alpha: real, p: real, x: real, k: nat)
    requires 0.0 < alpha < 2.0
    ensures Abs(Repeat(alpha, p, x, k) - p) * (1.0 + (k as real) * Margin(alpha)) <= Abs(x - p)
  {
    if k > 0 {
      var y := Repeat(alpha, p, x, k - 1);
      var e, e', d := Abs(y - p), Abs(Repeat(alpha, p, x, k) - p), Abs(x - p);
      assert e * (1.0 + ((k - 1) as real) * Margin(alpha)) <= d by { RepeatErrorBound(alpha, p, x, k - 1); }
      assert e' == Abs(1.0 - alpha) * e by { ErrorShrinks(alpha, p, y); }
      ErrorBoundStep(alpha, e, e', (k - 1) as real, k as real, d);
    } else {
      assert 1.0 + (k as real) * Margin(alpha) == 1.0;
    }
  }

  /** The inductive step of RepeatErrorBound, on the errors alone: when one
      cycle scales the error by `|1 - alpha|`, the scaled bound carries over
      from `m` cycles to `m + 1`. */
  lemma ErrorBoundStep(alpha: real, e: real, e': real, m: real, m1: real, d: real)
    requires 0.0 < alpha < 2.0 && 0.0 <= e && 0.0 <= m && m1 == m + 1.0
    requires e' == Abs(1.0 - alpha) * e
    requires e * (1.0 + m * Margin(alpha)) <= d
    ensures e' * (1.0 + m1 * Margin(alpha)) <= d
  {
    MarginRange(alpha);
    BoundStep(e, e', Abs(1.0 - alpha), Margin(alpha), m, m1, d);
  }

  /** The arithmetic of one step of RepeatErrorBound. */
  lemma BoundStep(e: real, e': real, q: real, a: real, m: real, m1: real, d: real)
    requires 0.0 < a <= 1.0 && a == 1.0 - q && 0.0 <= m && m1 == m + 1.0 && 0.0 <= e
    requires e' == q * e
    requires e * (1.0 + m * a) <= d
    ensures e' * (1.0 + m1 * a) <= d
  {
    assert (1.0 - a) * (1.0 + m * a + a) == 1.0 + m * a - m * a * a - a * a;
    assert (1.0 - a) * (1.0 + m * a + a) <= 1.0 + m * a by {
      MulSigns(m * a, a);
      MulSigns(a, a);
    }
    MulSigns(e, 1.0 + m * a - (1.0 - a) * (1.0 + m * a + a));
    assert e' * (1.0 + m1 * a) == e * ((1.0 - a) * (1.0 + m * a + a));
  }

  /** From step `n` on, the constant-input response stays within `eps` of `p`. */
  ghost predicate StaysWithin(alpha: real, p: real, x: real, eps: real, n: nat)
  {
    forall k: nat :: n <= k ==> Abs(Repeat(alpha, p, x, k) - p) < eps
  }

  /** Convergence: fed a constant input `p` with a stable gain
      `0 < alpha < 2`, the output gets, and then stays, as close to `p` as
      any `eps > 0` asks. */
  lemma RepeatConverges(alpha: real, p: real, x: real, eps: real)
    requires 0.0 < alpha < 2.0
    requires eps > 0.0
    ensures exists n: nat :: StaysWithin(alpha, p, x, eps, n)
  {
    var d := Abs(x - p);
    var c := Margin(alpha) * eps;
    var n: nat := (d / c).Floor as nat + 1;
    AboveQuotient(n as real, d, c);
    forall k: nat | n <= k
      ensures Abs(Repeat(alpha, p, x, k) - p) < eps
    {
      assert (k as real) * c >= (n as real) * c by { MulSigns(c, (k - n) as real); }
      WithinAfter(alpha, p, x, eps, k);
    }
    assert StaysWithin(alpha, p, x, eps, n);
  }

  lemma AboveQuotient(m: real, d: real, c: real)
    requires c > 0.0 && m > d / c
    ensures m * c > d
  {
    MulStrict(m, d / c, c);
  }

  lemma MulStrict(a: real, b: real, c: real)
    requires a > b && c > 0.0
    ensures a * c > b * c
  {
  }

  /** One instance of the convergence bound: once `k * Margin(alpha) * eps`
      exceeds the initial error, the error after `k` cycles is below `eps`. */
  lemma WithinAfter(alpha: real, p: real, x: real, eps: real, k: nat)
    requires 0.0 < alpha < 2.0
    requires eps > 0.0
    requires (k as real) * (Margin(alpha) * eps) > Abs(x - p)
    ensures Abs(Repeat(alpha, p, x, k) - p) < eps
  {
    var e, c, d := Abs(Repeat(alpha, p, x, k) - p), Margin(alpha), Abs(x - p);
    assert e * (1.0 + (k as real) * c) <= d by { RepeatErrorBound(alpha, p, x, k); }
    assert 0.0 < c by { MarginRange(alpha); }
    BelowFromBound(e, k as real, c, d, eps);
  }

  /** The arithmetic of WithinAfter. */
  lemma BelowFromBound(e: real, m: real, a: real, d: real, eps: real)
    requires 0.0 < a && 0.0 <= m && eps > 0.0
    requires e * (1.0 + m * a) <= d
    requires m * (a * eps) > d
    ensures e < eps
  {
    var b := 1.0 + m * a;
    assert b * eps == eps + m * (a * eps);
    assert b > 0.0 by { MulSigns(m, a); }
    if e >= eps {
      MulSigns(b, e - eps);
      assert false;
    }
  }
}

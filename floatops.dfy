/**
 * The two `f32` operations the scrolling layer relies on, over exact reals:
 * `ceil` and the remainder operator `%`.  Rust's `%` on floats is the
 * truncated remainder: the quotient is rounded toward zero, so the result
 * carries the sign of the dividend.
 */
module FloatOps {

  /** `f32::ceil`: the least integer not below `x`. */
  function Ceil(x: real): (c: int)
    ensures c as real - 1.0 < x <= c as real
  {
    -((-x).Floor)
  }

  /** Rounding toward zero, the quotient behind Rust's float `%`. */
  function Trunc(x: real): (t: int)
    ensures x >= 0.0 ==> 0 <= t && t as real <= x < t as real + 1.0
    ensures x <= 0.0 ==> t <= 0 && t as real - 1.0 < x <= t as real
  {
    if x >= 0.0 then x.Floor else -((-x).Floor)
  }

  /** Multiplying both sides of an inequality by a positive `w`. */
  lemma MulMono(x: real, y: real, w: real)
    requires w > 0.0
    ensures x <= y ==> x * w <= y * w
    ensures x < y ==> x * w < y * w
  {
  }

  /** Dividing by a positive `w` keeps `r` within the same multiples of `w`. */
  lemma DivBounds(r: real, w: real)
    requires w > 0.0
    ensures r <= 0.0 ==> r / w <= 0.0
    ensures r >= 0.0 ==> r / w >= 0.0
    ensures -w < r ==> -1.0 < r / w
    ensures r < w ==> r / w < 1.0
  {
    var q := r / w;
    assert q * w == r;
    if r <= 0.0 && q > 0.0 {
      MulMono(0.0, q, w);
    }
    if r >= 0.0 && q < 0.0 {
      MulMono(q, 0.0, w);
    }
    MulMono(q, -1.0, w);
    MulMono(1.0, q, w);
    assert -1.0 * w == -w && 1.0 * w == w;
  }

  /** Scaling `q < t + 1` back by a positive `w`, where `q * w == a`. */
  lemma ScaleBelowNext(a: real, w: real, q: real, t: real)
    requires w > 0.0 && q * w == a && q < t + 1.0
    ensures a < t * w + w
  {
    var up := t + 1.0;
    MulMono(q, up, w);
    assert up * w == t * w + w;
  }

  /** Scaling `t - 1 < q` back by a positive `w`, where `q * w == a`. */
  lemma ScaleAbovePrevious(a: real, w: real, q: real, t: real)
    requires w > 0.0 && q * w == a && t - 1.0 < q
    ensures t * w - w < a
  {
    var down := t - 1.0;
    MulMono(down, q, w);
    assert down * w == t * w - w;
  }

  /** The bounds of the truncated remainder, stated on its defining expression. */
  lemma RemBounds(a: real, w: real)
    requires w > 0.0
    ensures var r := a - w * Trunc(a / w) as real;
      -w < r < w && (a >= 0.0 ==> 0.0 <= r <= a) && (a <= 0.0 ==> a <= r <= 0.0)
  {
    var q := a / w;
    var t := Trunc(q) as real;
    assert q * w == a;
    assert w * t == t * w;
    DivBounds(a, w);
    MulMono(0.0, t, w);
    MulMono(t, 0.0, w);
    MulMono(t, q, w);
    MulMono(q, t, w);
    if a >= 0.0 {
      ScaleBelowNext(a, w, q, t);
    } else {
      ScaleAbovePrevious(a, w, q, t);
    }
  }

  /**
   * `a % w` for a positive divisor: `a - w * trunc(a / w)`.  The result lies
   * strictly between `-w` and `w`, has the sign of `a`, and is no farther
   * from zero than `a`.
   */
  function Rem(a: real, w: real): (r: real)
    requires w > 0.0
    ensures -w < r < w
    ensures a >= 0.0 ==> 0.0 <= r <= a
    ensures a <= 0.0 ==> a <= r <= 0.0
  {
    RemBounds(a, w);
    a - w * Trunc(a / w) as real
  }

  /**
   * Reference characterisation of the remainder: on either side of zero,
   * `Rem(a, w)` is the only value that has the sign of `a`, is smaller
   * than `w` in magnitude and differs from `a` by a whole number of `w`s.
   */
  lemma {:induction false} RemUnique(a: real, w: real, k: int, r: real)
    requires w > 0.0
    requires a == k as real * w + r
    requires (a <= 0.0 && -w < r <= 0.0) || (a >= 0.0 && 0.0 <= r < w)
    ensures Rem(a, w) == r
  {
    var q := a / w;
    assert q == k as real + r / w by {
      assert a / w == (k as real * w) / w + r / w;
      assert (k as real * w) / w == k as real;
    }
    DivBounds(r, w);
    assert Trunc(q) == k;
  }

  /**
   * `Rem(a, w)` itself differs from `a` by a whole number of `w`s: the
   * other half of the characterisation above.
   */
  lemma RemDecomposes(a: real, w: real)
    requires w > 0.0
    ensures a == Trunc(a / w) as real * w + Rem(a, w)
  {
  }

  /**
   * Shifting the dividend by a whole number of `w`s leaves the remainder
   * unchanged, as long as the shift does not cross zero.
   */
  lemma {:induction false} RemPeriodic(a: real, w: real, k: int)
    requires w > 0.0
    requires (a <= 0.0 && a + k as real * w <= 0.0) || (a >= 0.0 && a + k as real * w >= 0.0)
    ensures Rem(a + k as real * w, w) == Rem(a, w)
  {
    var t := Trunc(a / w);
    RemDecomposes(a, w);
    var r := Rem(a, w);
    assert a + k as real * w == (t + k) as real * w + r;
    RemUnique(a + k as real * w, w, t + k, r);
  }
}

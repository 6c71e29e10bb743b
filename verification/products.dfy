/** `dot_product` and `norm` from the solver's helper functions. */
module Products {
  import opened Outcomes
  import opened Vectors

  /** The left-to-right sum of `a[i] * b[i]` starting from `0.0`: the value
      the accumulating loop holds after consuming all of `a` and `b`. */
  function Dot(a: Vec, b: Vec): real
    requires |a| == |b|
    decreases |a|
  {
    if |a| == 0 then 0.0
    else Dot(a[..|a| - 1], b[..|b| - 1]) + a[|a| - 1] * b[|b| - 1]
  }

  /** `dot_product(a, b)`: throws `length_error` when the sizes differ,
      otherwise runs the accumulating loop. */
  method DotProduct(a: Vec, b: Vec) returns (r: Result<real>)
    ensures |a| != |b| <==> r == Failure(LengthError)
    ensures |a| == |b| ==> r == Success(Dot(a, b))
    ensures |a| == 0 && |b| == 0 ==> r == Success(0.0)
  {
    if |a| != |b| {
      return Failure(LengthError);
    }
    var result := 0.0;
    var i := 0;
    while i < |a|
      invariant 0 <= i <= |a|
      invariant result == Dot(a[..i], b[..i])
    {
      assert a[..i + 1][..i] == a[..i];
      assert b[..i + 1][..i] == b[..i];
      result := result + a[i] * b[i];
      i := i + 1;
    }
    assert a[..i] == a && b[..i] == b;
    return Success(result);
  }

  /** The dot product is symmetric (in exact arithmetic). */
  lemma {:induction false} DotSymmetric(a: Vec, b: Vec)
    requires |a| == |b|
    ensures Dot(a, b) == Dot(b, a)
    decreases |a|
  {
    if |a| > 0 {
      DotSymmetric(a[..|a| - 1], b[..|b| - 1]);
    }
  }

  /** A vector dotted with itself is a sum of squares: never negative, and
      zero exactly when every element is zero. */
  lemma {:induction false} DotSelf(a: Vec)
    ensures Dot(a, a) >= 0.0
    ensures IsZero(a) ==> Dot(a, a) == 0.0
    ensures !IsZero(a) ==> Dot(a, a) > 0.0
    decreases |a|
  {
    if |a| > 0 {
      var n := |a| - 1;
      DotSelf(a[..n]);
      SquareNonNegative(a[n]);
      if IsZero(a) {
        assert IsZero(a[..n]);
      } else if a[n] != 0.0 {
        DotSelfLastNonzero(a);
      } else {
        var i :| 0 <= i < |a| && a[i] != 0.0;
        assert a[..n][i] == a[i];
      }
    }
  }

  /** Dotting the zero vector with anything gives zero. */
  lemma {:induction false} DotZeroLeft(a: Vec, b: Vec)
    requires |a| == |b|
    requires IsZero(a)
    ensures Dot(a, b) == 0.0
    decreases |a|
  {
    if |a| > 0 {
      DotZeroLeft(a[..|a| - 1], b[..|b| - 1]);
    }
  }

  /** The dot product is additive in its left argument. */
  lemma {:induction false} DotAddLeft(a: Vec, b: Vec, c: Vec)
    requires |a| == |b| == |c|
    ensures Dot(Add(a, b), c) == Dot(a, c) + Dot(b, c)
    decreases |a|
  {
    if |a| > 0 {
      var n := |a| - 1;
      assert Add(a, b)[..n] == Add(a[..n], b[..n]);
      DotAddLeft(a[..n], b[..n], c[..n]);
    }
  }

  /** Scaling the left argument scales the dot product. */
  lemma {:induction false} DotScaleLeft(a: Vec, s: real, b: Vec)
    requires |a| == |b|
    ensures Dot(Scale(a, s), b) == s * Dot(a, b)
    decreases |a|
  {
    if |a| > 0 {
      var n := |a| - 1;
      ScalePrefix(a, s, n);
      DotScaleLeft(a[..n], s, b[..n]);
      var sa := Scale(a, s);
      assert Dot(sa, b) == Dot(sa[..n], b[..n]) + sa[n] * b[n];
      Distribute(s, Dot(a[..n], b[..n]), a[n], b[n]);
    }
  }

  /** The arithmetic of `DotScaleLeft`'s inductive step. */
  lemma Distribute(s: real, d: real, u: real, v: real)
    ensures s * d + (u * s) * v == s * (d + u * v)
  {
  }

  lemma ScalePrefix(a: Vec, s: real, n: nat)
    requires n <= |a|
    ensures Scale(a, s)[..n] == Scale(a[..n], s)
  {
    assert forall i :: 0 <= i < n ==> Scale(a, s)[..n][i] == Scale(a[..n], s)[i];
  }

  /** `norm(a)` squared: `dot_product(a, a)`, never negative and zero only
      for the zero vector. The square root itself is not modelled. */
  function NormSquared(a: Vec): (n: real)
    ensures n >= 0.0
    ensures n == 0.0 <==> IsZero(a)
  {
    DotSelf(a);
    Dot(a, a)
  }

  /** `s` is what `norm` returns for a vector whose squared norm is `nn`. */
  predicate IsRoot(s: real, nn: real)
  {
    s >= 0.0 && s * s == nn
  }

  /** The solver's relative-residual test `r_norm < tolerance * b_norm`,
      restated on squared norms. The strict `<` means that a zero right-hand
      side can never pass it. */
  predicate BelowTolerance(rr: real, bb: real, tolerance: real)
  {
    0.0 < tolerance && rr < tolerance * tolerance * bb
  }

  /** With a zero right-hand side the threshold is zero, and no squared
      norm is below it: the strict test never passes. */
  lemma ZeroThresholdNeverPasses(rr: real, bb: real, tolerance: real)
    ensures rr >= 0.0 && bb == 0.0 ==> !BelowTolerance(rr, bb, tolerance)
  {
    if bb == 0.0 {
      assert tolerance * tolerance * bb == 0.0;
    }
  }

  /** For the non-negative square roots `s` of `rr` and `t` of `bb`,
      `s < tolerance * t` holds exactly when `BelowTolerance(rr, bb, tolerance)`. */
  lemma NormTestSquared(s: real, t: real, rr: real, bb: real, tolerance: real)
    requires IsRoot(s, rr) && IsRoot(t, bb)
    ensures s < tolerance * t <==> BelowTolerance(rr, bb, tolerance)
  {
    var u := tolerance * t;
    if tolerance <= 0.0 {
      assert u <= 0.0;
    } else {
      assert u >= 0.0;
      assert u * u == tolerance * tolerance * (t * t);
      if s < u {
        SquareMonotone(s, u);
      } else if u < s {
        SquareMonotone(u, s);
      }
    }
  }

  lemma SquareMonotone(s: real, u: real)
    requires 0.0 <= s < u
    ensures s * s < u * u
  {
    var ss, su, uu := s * s, s * u, u * u;
    assert ss <= su;
    assert su < uu;
  }

  lemma DotSelfLastNonzero(a: Vec)
    requires |a| > 0 && a[|a| - 1] != 0.0
    requires Dot(a[..|a| - 1], a[..|a| - 1]) >= 0.0
    ensures Dot(a, a) > 0.0
  {
    var v := a[|a| - 1];
    var w := v * v;
    SquarePositive(v, w);
  }

  lemma SquareNonNegative(x: real)
    ensures x * x >= 0.0
  {
  }

  lemma SquarePositive(x: real, w: real)
    requires x != 0.0 && w == x * x
    ensures w > 0.0
  {
    if x < 0.0 {
      var y := -x;
      assert y * y == w;
      ProductPositive(y, y, w);
    } else {
      ProductPositive(x, x, w);
    }
  }

  lemma ProductPositive(a: real, b: real, w: real)
    requires a > 0.0 && b > 0.0 && w == a * b
    ensures w > 0.0
  {
  }
}

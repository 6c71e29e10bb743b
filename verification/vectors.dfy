/** The dense `Vector` value type: a fixed-length sequence of reals with
    element-wise arithmetic. Copies, moves and assignment are plain value
    semantics of `seq`, so operands are never changed by an operation. */
module Vectors {

  type Vec = seq<real>

  /** `Vector()`: the empty vector. */
  function Empty(): (v: Vec)
    ensures |v| == 0
  {
    []
  }

  /** `Vector(n)`: `n` elements, every one `0.0`. */
  function Zeros(n: nat): (v: Vec)
    ensures |v| == n
    ensures forall i :: 0 <= i < n ==> v[i] == 0.0
  {
    seq(n, _ => 0.0)
  }

  /** `Vector(data)` and the copy constructor: same length, same elements. */
  function FromData(data: seq<real>): (v: Vec)
    ensures |v| == |data|
    ensures forall i :: 0 <= i < |data| ==> v[i] == data[i]
  {
    data
  }

  /** True when every element is zero. */
  predicate IsZero(v: Vec)
  {
    forall i :: 0 <= i < |v| ==> v[i] == 0.0
  }

  /** `a + b`: pairwise sums. */
  function Add(a: Vec, b: Vec): (c: Vec)
    requires |a| == |b|
    ensures |c| == |a|
    ensures forall i :: 0 <= i < |c| ==> c[i] == a[i] + b[i]
  {
    seq(|a|, i requires 0 <= i < |a| => a[i] + b[i])
  }

  /** `a - b`: pairwise differences. */
  function Sub(a: Vec, b: Vec): (c: Vec)
    requires |a| == |b|
    ensures |c| == |a|
    ensures forall i :: 0 <= i < |c| ==> c[i] == a[i] - b[i]
  {
    seq(|a|, i requires 0 <= i < |a| => a[i] - b[i])
  }

  /** `v * s`: every element multiplied by the scalar. */
  function Scale(v: Vec, s: real): (c: Vec)
    ensures |c| == |v|
    ensures forall i :: 0 <= i < |c| ==> c[i] == v[i] * s
  {
    seq(|v|, i requires 0 <= i < |v| => v[i] * s)
  }

  /** Subtraction undoes addition, and addition undoes subtraction. */
  lemma SubAddCancel(a: Vec, b: Vec)
    requires |a| == |b|
    ensures Sub(Add(a, b), b) == a
    ensures Add(Sub(a, b), b) == a
  {
  }

  /** Addition is commutative. */
  lemma AddCommutes(a: Vec, b: Vec)
    requires |a| == |b|
    ensures Add(a, b) == Add(b, a)
  {
  }

  /** Adding the zero vector of the same length changes nothing. */
  lemma AddZerosIdentity(v: Vec)
    ensures Add(v, Zeros(|v|)) == v
    ensures Zeros(|v|) == Scale(v, 0.0)
  {
  }

  /** Scaling twice is scaling by the product. */
  lemma ScaleScale(v: Vec, s: real, t: real)
    ensures Scale(Scale(v, s), t) == Scale(v, s * t)
  {
    forall i | 0 <= i < |v|
      ensures Scale(Scale(v, s), t)[i] == Scale(v, s * t)[i]
    {
      calc {
        Scale(Scale(v, s), t)[i];
        (v[i] * s) * t;
        v[i] * (s * t);
      }
    }
  }

  /** Subtracting a sum is subtracting its parts one after the other. */
  lemma SubAdd(a: Vec, b: Vec, c: Vec)
    requires |a| == |b| == |c|
    ensures Sub(a, Add(b, c)) == Sub(Sub(a, b), c)
  {
  }
}

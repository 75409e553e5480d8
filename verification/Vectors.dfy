/** Dense row vectors: the inner product and the cosine distance on top of it. */
module Vectors {
  import opened Outcomes

  /** The inner product over the first `n` columns. */
  function DotTo(a: seq<real>, b: seq<real>, n: nat): real
    requires n <= |a| && n <= |b|
  {
    if n == 0 then 0.0 else DotTo(a, b, n - 1) + a[n - 1] * b[n - 1]
  }

  function Dot(a: seq<real>, b: seq<real>): real
    requires |a| == |b|
  {
    DotTo(a, b, |a|)
  }

  predicate Rectangular(rows: seq<seq<real>>) {
    forall i, j :: 0 <= i < |rows| && 0 <= j < |rows| ==> |rows[i]| == |rows[j]|
  }

  predicate ZeroVector(v: seq<real>) {
    forall c :: 0 <= c < |v| ==> v[c] == 0.0
  }

  /** What a TF-IDF row is: all zero, or of unit length. */
  predicate Normalised(v: seq<real>) {
    ZeroVector(v) || Dot(v, v) == 1.0
  }

  method CosineDistance(a: seq<real>, b: seq<real>) returns (r: Checked<real>)
    ensures r.Panic? <==> |a| != |b|
    ensures r.Ok? ==> r.value == 1.0 - Dot(a, b)
  {
    if |a| != |b| {
      return Panic;
    }
    var dot := 0.0;
    for i := 0 to |a|
      invariant dot == DotTo(a, b, i)
    {
      dot := dot + a[i] * b[i];
    }
    return Ok(1.0 - dot);
  }

  lemma {:induction false} DotSymmetric(a: seq<real>, b: seq<real>, n: nat)
    requires n <= |a| && n <= |b|
    ensures DotTo(a, b, n) == DotTo(b, a, n)
  {
    if n > 0 {
      DotSymmetric(a, b, n - 1);
    }
  }

  /** Columns where one side is zero can be skipped. */
  lemma {:induction false} DotSkipsZeros(a: seq<real>, b: seq<real>, from: nat, to: nat)
    requires from <= to <= |a| && to <= |b|
    requires forall c :: from <= c < to ==> a[c] == 0.0 || b[c] == 0.0
    ensures DotTo(a, b, to) == DotTo(a, b, from)
  {
    if from < to {
      DotSkipsZeros(a, b, from, to - 1);
    }
  }

  /** The square of `a + sign * b` is a sum of squares. */
  lemma {:induction false} SquareExpansion(a: seq<real>, b: seq<real>, n: nat, sign: real)
    requires n <= |a| && n <= |b| && sign * sign == 1.0
    ensures DotTo(a, a, n) + 2.0 * sign * DotTo(a, b, n) + DotTo(b, b, n) >= 0.0
  {
    if n > 0 {
      SquareExpansion(a, b, n - 1, sign);
      OneMoreSquare(DotTo(a, a, n - 1), DotTo(a, b, n - 1), DotTo(b, b, n - 1), a[n - 1], b[n - 1], sign);
    }
  }

  lemma OneMoreSquare(aa: real, ab: real, bb: real, x: real, y: real, sign: real)
    requires aa + 2.0 * sign * ab + bb >= 0.0 && sign * sign == 1.0
    ensures aa + x * x + 2.0 * sign * (ab + x * y) + (bb + y * y) >= 0.0
  {
    SquareNonNegative(x, y, sign);
    DistributeTwice(sign, ab, x * y);
  }

  lemma SquareNonNegative(x: real, y: real, sign: real)
    requires sign * sign == 1.0
    ensures x * x + 2.0 * sign * (x * y) + y * y >= 0.0
  {
    var t := x + sign * y;
    assert t * t >= 0.0;
    assert t * t == x * x + 2.0 * sign * (x * y) + (sign * sign) * (y * y);
  }

  lemma DistributeTwice(sign: real, x: real, y: real)
    ensures 2.0 * sign * (x + y) == 2.0 * sign * x + 2.0 * sign * y
  {
  }

  lemma {:induction false} DotOfSameSigns(a: seq<real>, b: seq<real>, n: nat)
    requires n <= |a| && n <= |b| && forall c :: 0 <= c < n ==> a[c] * b[c] >= 0.0
    ensures DotTo(a, b, n) >= 0.0
  {
    if n > 0 {
      DotOfSameSigns(a, b, n - 1);
    }
  }

  lemma DotOfZero(z: seq<real>, v: seq<real>)
    requires |z| == |v| && ZeroVector(z)
    ensures Dot(z, v) == 0.0 && Dot(v, z) == 0.0
  {
    DotSkipsZeros(z, v, 0, |z|);
    DotSkipsZeros(v, z, 0, |z|);
  }

  /** Cauchy-Schwarz for rows of at most unit length, as the distance range it gives. A zero
      row is at distance 1 from every other. */
  lemma DistanceRange(a: seq<real>, b: seq<real>)
    requires |a| == |b| && Normalised(a) && Normalised(b)
    ensures 0.0 <= 1.0 - Dot(a, b) <= 2.0
    ensures ZeroVector(a) || ZeroVector(b) ==> 1.0 - Dot(a, b) == 1.0
  {
    if ZeroVector(a) {
      DotOfZero(a, b);
    } else if ZeroVector(b) {
      DotOfZero(b, a);
    } else {
      SquareExpansion(a, b, |a|, 1.0);
      SquareExpansion(a, b, |a|, -1.0);
    }
  }
}

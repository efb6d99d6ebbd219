/** Dot products over the reals, and what they say about vectors of unit length. */
module Vectors {

  function DotTo(u: seq<real>, v: seq<real>, n: nat): real
    requires n <= |u| && |u| == |v|
  {
    if n == 0 then 0.0 else DotTo(u, v, n - 1) + u[n - 1] * v[n - 1]
  }

  function Dot(u: seq<real>, v: seq<real>): real
    requires |u| == |v|
  {
    DotTo(u, v, |u|)
  }

  /** Products of elements at the same place, added up. */
  lemma DotStep(u: seq<real>, v: seq<real>, x: real, y: real)
    requires |u| == |v|
    ensures Dot([], []) == 0.0 && Dot(u + [x], v + [y]) == Dot(u, v) + x * y
  {
    DotPrefix(u, v, [x], [y], |u|);
  }

  lemma {:induction false} DotPrefix(u: seq<real>, v: seq<real>, a: seq<real>, b: seq<real>, n: nat)
    requires |u| == |v| && |a| == |b| && n <= |u|
    ensures DotTo(u + a, v + b, n) == DotTo(u, v, n)
    decreases n
  {
    if n > 0 { DotPrefix(u, v, a, b, n - 1); }
  }

  /** Every element divided by c. */
  function Scaled(v: seq<real>, c: real): (r: seq<real>)
    requires c != 0.0
    ensures |r| == |v| && forall i :: 0 <= i < |v| ==> r[i] == v[i] / c
  {
    seq(|v|, i requires 0 <= i < |v| => v[i] / c)
  }

  function PositiveProduct(x: real, y: real): (r: real)
    requires x > 0.0 && y > 0.0
    ensures r > 0.0
  {
    x * y
  }

  function Square(x: real): (r: real)
    ensures r >= 0.0 && (r == 0.0 <==> x == 0.0)
  {
    hide PositiveProduct;
    if x > 0.0 then PositiveProduct(x, x)
    else if x < 0.0 then PositiveProduct(-x, -x)
    else 0.0
  }

  lemma SquareIsProduct(x: real)
    ensures Square(x) == x * x
  {
  }

  lemma Quotients(a: real, b: real, c: real, d: real)
    requires c != 0.0 && d != 0.0
    ensures (a / c) * (b / d) * (c * d) == a * b
  {
    var x, y := a / c, b / d;
    assert a == x * c && b == y * d;
    assert x * y * (c * d) == (x * c) * (y * d);
  }

  lemma Distribute(x: real, y: real, c: real)
    ensures (x + y) * c == x * c + y * c
  {
  }

  lemma {:induction false} DotFactor(p: seq<real>, q: seq<real>, u: seq<real>, v: seq<real>, k: real, n: nat)
    requires |p| == |q| == |u| == |v| && n <= |u|
    requires forall i :: 0 <= i < |u| ==> p[i] * q[i] * k == u[i] * v[i]
    ensures DotTo(p, q, n) * k == DotTo(u, v, n)
  {
    if n == 0 {
      assert 0.0 * k == 0.0;
    } else {
      DotFactor(p, q, u, v, k, n - 1);
      Distribute(DotTo(p, q, n - 1), p[n - 1] * q[n - 1], k);
    }
  }

  lemma ScaledProduct(u: seq<real>, v: seq<real>, c: real, d: real, i: nat)
    requires i < |u| == |v| && c != 0.0 && d != 0.0
    ensures Scaled(u, c)[i] * Scaled(v, d)[i] * (c * d) == u[i] * v[i]
  {
    Quotients(u[i], v[i], c, d);
  }

  /** Dividing the vectors divides the product. */
  lemma DotScaled(u: seq<real>, v: seq<real>, c: real, d: real)
    requires |u| == |v| && c != 0.0 && d != 0.0
    ensures Dot(Scaled(u, c), Scaled(v, d)) * (c * d) == Dot(u, v)
  {
    hide Scaled;
    forall i | 0 <= i < |u| ensures Scaled(u, c)[i] * Scaled(v, d)[i] * (c * d) == u[i] * v[i] {
      ScaledProduct(u, v, c, d, i);
    }
    DotFactor(Scaled(u, c), Scaled(v, d), u, v, c * d, |u|);
  }

  lemma Products(a: real, m: real, u: real, b: real, n: real, v: real)
    requires a * m == u && b * n == v
    ensures a * b * (m * n) == u * v
  {
    assert a * b * (m * n) == (a * m) * (b * n);
  }

  ghost predicate Multiple(a: seq<real>, m: real, u: seq<real>)
  {
    |a| == |u| && forall i :: 0 <= i < |a| ==> a[i] * m == u[i]
  }

  lemma ScaledIsMultiple(v: seq<real>, c: real)
    requires c != 0.0
    ensures Multiple(Scaled(v, c), c, v)
  {
    forall i | 0 <= i < |v| ensures Scaled(v, c)[i] * c == v[i] {
      Undivided(v[i], c);
    }
  }

  lemma Undivided(x: real, c: real)
    requires c != 0.0
    ensures x / c * c == x
  {
  }

  /** Vectors that are multiples of others have that multiple of their product. */
  lemma DotUnscaled(a: seq<real>, m: real, u: seq<real>, b: seq<real>, n: real, v: seq<real>)
    requires |a| == |b| && Multiple(a, m, u) && Multiple(b, n, v) && |u| == |v|
    ensures Dot(a, b) * (m * n) == Dot(u, v)
  {
    var k := m * n;
    forall i | 0 <= i < |a| ensures a[i] * b[i] * k == u[i] * v[i] {
      Products(a[i], m, u[i], b[i], n, v[i]);
    }
    DotFactor(a, b, u, v, k, |a|);
  }

  lemma {:induction false} DotNonNegative(u: seq<real>, v: seq<real>, n: nat)
    requires n <= |u| && |u| == |v|
    requires forall i :: 0 <= i < |u| ==> u[i] * v[i] >= 0.0
    ensures DotTo(u, v, n) >= 0.0
  {
    if n == 0 {
    } else {
      DotNonNegative(u, v, n - 1);
    }
  }

  /** The squared length is zero exactly for the zero vector. */
  lemma {:induction false} LengthZero(v: seq<real>, n: nat)
    requires n <= |v|
    ensures DotTo(v, v, n) >= 0.0
    ensures DotTo(v, v, n) == 0.0 <==> forall i :: 0 <= i < n ==> v[i] == 0.0
  {
    if n == 0 {
    } else {
      LengthZero(v, n - 1);
      SquareIsProduct(v[n - 1]);
      hide Square;
    }
  }

  /** u + s v, for a sign or any other factor s. */
  function Plus(u: seq<real>, s: real, v: seq<real>): (r: seq<real>)
    requires |u| == |v|
    ensures |r| == |u| && forall i :: 0 <= i < |u| ==> r[i] == u[i] + s * v[i]
  {
    seq(|u|, i requires 0 <= i < |u| => u[i] + s * v[i])
  }

  /** x y, and a + p b + q c: named so that proofs can do without knowing them. */
  function Product(x: real, y: real): real
  {
    x * y
  }

  function Combined(a: real, b: real, c: real, p: real, q: real): real
  {
    a + p * b + q * c
  }

  lemma Binomial(x: real, y: real, z: real, s: real, p: real, q: real)
    requires z == x + s * y && p == 2.0 * s && q == Product(s, s)
    ensures Product(z, z) == Combined(Product(x, x), Product(x, y), Product(y, y), p, q)
  {
    var t := s * y;
    assert (x + t) * (x + t) == x * x + 2.0 * (x * t) + t * t;
    assert x * t == s * (x * y);
    assert t * t == s * s * (y * y);
  }

  lemma Collect(uu: real, uv: real, vv: real, xx: real, xy: real, yy: real, p: real, q: real)
    ensures Combined(uu, uv, vv, p, q) + Combined(xx, xy, yy, p, q) == Combined(uu + xx, uv + xy, vv + yy, p, q)
    ensures Combined(0.0, 0.0, 0.0, p, q) == 0.0
  {
  }

  lemma DotLast(u: seq<real>, v: seq<real>, n: nat)
    requires 0 < n <= |u| == |v|
    ensures DotTo(u, v, n) == DotTo(u, v, n - 1) + Product(u[n - 1], v[n - 1])
  {
  }

  lemma {:induction false} DotExpand(u: seq<real>, s: real, v: seq<real>, n: nat, p: real, q: real)
    requires n <= |u| && |u| == |v| && p == 2.0 * s && q == Product(s, s)
    ensures var w := Plus(u, s, v);
            DotTo(w, w, n) == Combined(DotTo(u, u, n), DotTo(u, v, n), DotTo(v, v, n), p, q)
  {
    if n == 0 {
      Collect(0.0, 0.0, 0.0, 0.0, 0.0, 0.0, p, q);
    } else {
      var w, x, y := Plus(u, s, v), u[n - 1], v[n - 1];
      hide *;
      DotExpand(u, s, v, n - 1, p, q);
      Binomial(x, y, w[n - 1], s, p, q);
      DotLast(w, w, n);
      DotLast(u, u, n);
      DotLast(u, v, n);
      DotLast(v, v, n);
      Collect(DotTo(u, u, n - 1), DotTo(u, v, n - 1), DotTo(v, v, n - 1),
              Product(x, x), Product(x, y), Product(y, y), p, q);
    }
  }

  /** Vectors of unit length have a product in [-1, 1], and product 1 only with themselves. */
  lemma UnitProduct(u: seq<real>, v: seq<real>)
    requires |u| == |v| && Dot(u, u) == 1.0 && Dot(v, v) == 1.0
    ensures -1.0 <= Dot(u, v) <= 1.0
    ensures Dot(u, v) == 1.0 <==> u == v
  {
    var sum, difference := Plus(u, 1.0, v), Plus(u, -1.0, v);
    DotExpand(u, 1.0, v, |u|, 2.0, 1.0);
    DotExpand(u, -1.0, v, |u|, -2.0, 1.0);
    LengthZero(sum, |u|);
    LengthZero(difference, |u|);
    if Dot(u, v) == 1.0 {
      forall i | 0 <= i < |u| ensures u[i] == v[i] {
        assert difference[i] == 0.0;
      }
    }
  }
}

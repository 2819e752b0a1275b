/** The scalar field of the storage key: integers modulo a prime group order.

    No proof uses more of the Ristretto group order than that it is a prime above
    every 16-bit holder identifier, so it is an arbitrary such prime here. Sums and
    products are formed over the integers and reduced once; `IsZero` ("zero in the
    field") is the only place where the modulus is looked at. */
module Scalars {

  predicate Divides(d: int, n: int)
    requires d != 0
  {
    n % d == 0
  }

  ghost predicate Prime(n: nat) {
    2 <= n && forall d :: 2 <= d < n ==> !Divides(d, n)
  }

  /** A prime above 65535: distinct holder identifiers stay distinct in the field. */
  type PrimeOrder = q: nat | Prime(q) && 65535 < q
    witness (PrimeWitness(); 65537)

  lemma NoSmallFactor(d: int, k: int)
    requires 2 <= d <= 256
    ensures d * k != 65537
  {
  }

  lemma PrimeWitness()
    ensures Prime(65537)
  {
    forall d | 2 <= d < 65537
      ensures !Divides(d, 65537)
    {
      if Divides(d, 65537) {
        var k := 65537 / d;
        assert d * k == 65537 && k * d == 65537;
        if d <= 256 {
          NoSmallFactor(d, k);
        } else {
          NoSmallFactor(k, d);
        }
      }
    }
  }

  /** The group order. */
  const ORDER: PrimeOrder

  type Scalar = s: int | 0 <= s < ORDER witness 0

  /** The field element of an integer. */
  function Residue(x: int): (s: Scalar) {
    x % ORDER
  }

  /** `x` is zero in the field. */
  predicate IsZero(x: int) {
    x % ORDER == 0
  }

  /** `a` and `b` are the same field element. */
  predicate Same(a: int, b: int) {
    IsZero(a - b)
  }

  /** The only multiple of `n` strictly between `-n` and `n` is zero. */
  lemma SmallMultiple(k: int, n: int)
    requires 0 < n && -n < k * n < n
    ensures k == 0
  {
  }

  lemma MultipleIsZero(k: int, x: int)
    requires x == k * ORDER
    ensures IsZero(x)
  {
    var m := x / ORDER;
    assert x % ORDER == (k - m) * ORDER;
    SmallMultiple(k - m, ORDER);
  }

  lemma ZeroIsMultiple(x: int) returns (k: int)
    requires IsZero(x)
    ensures x == k * ORDER
  {
    k := x / ORDER;
  }

  /** Zero elements are closed under integer combinations. */
  lemma ZeroCombination(a: int, u: int, b: int, v: int)
    requires IsZero(a) && IsZero(b)
    ensures IsZero(a * u + b * v)
  {
    var j := ZeroIsMultiple(a);
    var k := ZeroIsMultiple(b);
    MultipleIsZero(j * u + k * v, a * u + b * v);
  }

  lemma ZeroSum(a: int, b: int)
    requires IsZero(a) && IsZero(b)
    ensures IsZero(a + b) && IsZero(a - b) && IsZero(-b)
  {
    ZeroCombination(a, 1, b, 1);
    ZeroCombination(a, 1, b, -1);
    ZeroCombination(a, 0, b, -1);
  }

  lemma ResidueIsSame(x: int)
    ensures Same(Residue(x), x) && Same(x, Residue(x))
  {
    MultipleIsZero(x / ORDER, x - Residue(x));
    MultipleIsZero(-(x / ORDER), Residue(x) - x);
  }

  lemma SameIsSymmetric(a: int, b: int)
    requires Same(a, b)
    ensures Same(b, a)
  {
    ZeroSum(a - b, a - b);
    assert b - a == -(a - b);
  }

  lemma SameIsTransitive(a: int, b: int, c: int)
    requires Same(a, b) && Same(b, c)
    ensures Same(a, c)
  {
    ZeroSum(a - b, b - c);
    assert a - c == (a - b) + (b - c);
  }

  lemma SameSum(a: int, b: int, c: int, d: int)
    requires Same(a, b) && Same(c, d)
    ensures Same(a + c, b + d)
  {
    ZeroSum(a - b, c - d);
    assert (a + c) - (b + d) == (a - b) + (c - d);
  }

  /** Two integers are the same element exactly when their residues are equal. */
  lemma SameIffEqualResidues(a: int, b: int)
    ensures Same(a, b) <==> Residue(a) == Residue(b)
  {
    ResidueIsSame(a);
    ResidueIsSame(b);
    if Same(a, b) {
      SameIsTransitive(Residue(a), a, b);
      SameIsTransitive(Residue(a), b, Residue(b));
      SmallZero(Residue(a) - Residue(b));
    } else if Residue(a) == Residue(b) {
      SameIsTransitive(a, Residue(a), b);
    }
  }

  lemma SmallZero(x: int)
    requires x < ORDER && 0 < x + ORDER && IsZero(x)
    ensures x == 0
  {
  }

  /** Extended Euclid: `u·a + v·b` divides both `a` and `b`. */
  function ExtendedGcd(a: nat, b: nat): (r: (int, int))
    requires 0 < a || 0 < b
    decreases b
  {
    if b == 0 then (1, 0)
    else
      var (u, v) := ExtendedGcd(b, a % b);
      (v, u - v * (a / b))
  }

  lemma {:induction false} ExtendedGcdDivides(a: nat, b: nat) returns (g: int, j: int, k: int)
    requires 0 < a || 0 < b
    ensures 0 < g == ExtendedGcd(a, b).0 * a + ExtendedGcd(a, b).1 * b
    ensures a == j * g && b == k * g
    decreases b
  {
    if b == 0 {
      g, j, k := a, 1, 0;
    } else {
      var (u, v) := ExtendedGcd(b, a % b);
      var m;
      g, k, m := ExtendedGcdDivides(b, a % b);
      var q := a / b;
      j := q * k + m;
      EuclidStep(a, b, q, a % b, u, v, g, k, m);
    }
  }

  lemma EuclidStep(a: int, b: int, q: int, r: int, u: int, v: int, g: int, k: int, m: int)
    requires a == q * b + r && g == u * b + v * r && b == k * g && r == m * g
    ensures g == v * a + (u - v * q) * b && a == (q * k + m) * g
  {
  }

  /** The inverse of a non-zero element. */
  function Inverse(a: Scalar): (u: Scalar)
    requires a != 0
    ensures Same(a * u, 1)
  {
    InverseExists(a);
    Residue(ExtendedGcd(a, ORDER).0)
  }

  lemma InverseExists(a: Scalar)
    requires a != 0
    ensures Same(a * Residue(ExtendedGcd(a, ORDER).0), 1)
  {
    var (u, v) := ExtendedGcd(a, ORDER);
    var g, j, k := ExtendedGcdDivides(a, ORDER);
    DivisorOfPrime(g, j, k, a);
    assert a * u - 1 == -v * ORDER;
    MultipleIsZero(-v, a * u - 1);
    ResidueIsSame(u);
    ZeroCombination(Residue(u) - u, a, a * u - 1, 1);
    assert a * Residue(u) - 1 == (Residue(u) - u) * a + (a * u - 1) * 1;
  }

  /** A common divisor of a proper residue and the prime order is a unit. */
  lemma DivisorOfPrime(g: int, j: int, k: int, a: Scalar)
    requires a != 0 && 0 < g && a == j * g && ORDER == k * g
    ensures g == 1
  {
    assert 1 <= k && g <= ORDER by {
      assert k <= 0 ==> k * g <= 0;
      assert 0 <= (k - 1) * g;
    }
    DivisionIsExact(k, g);
    assert Divides(g, ORDER);
    assert g == ORDER || g == 1;
    if g == ORDER {
      MultipleIsZero(j, a);
      SmallZero(a);
    }
  }

  lemma DivisionIsExact(m: int, d: int)
    requires 0 < d
    ensures (m * d) % d == 0
  {
    var q := (m * d) / d;
    assert (m * d) % d == (m - q) * d;
    SmallMultiple(m - q, d);
  }

  /** The field has no zero divisors. */
  lemma NoZeroDivisors(a: int, b: int)
    requires IsZero(a * b)
    ensures IsZero(a) || IsZero(b)
  {
    if !IsZero(a) {
      var s := Residue(a);
      var u := Inverse(s);
      ResidueIsSame(a);
      ZeroCombination(a - s, b * u, s * u - 1, b);
      ZeroCombination(a * b, u, a * b, 0);
      // b = a·b·u − (a − s)·b·u − (s·u − 1)·b
      var rest := (a - s) * (b * u) + (s * u - 1) * b;
      ZeroSum(a * b * u + a * b * 0, rest);
      assert b == (a * b * u + a * b * 0) - rest;
    }
  }
}

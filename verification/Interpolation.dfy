/** Lagrange interpolation over the scalar field (section 4.2 of RFC 9591).

    `Coefficient i at x` is the product of `(x - x_j) / (x_i - x_j)` over the other
    nodes. The main results: the interpolated values come from one polynomial with as
    many coefficients as there are nodes, and interpolating the values of any
    polynomial with at most that many coefficients gives back its value everywhere. */
module Interpolation {
  import opened Scalars
  import opened Polynomials

  /** The product of `x - x_j` over the nodes other than `xi`. */
  function ProductExcept(nodes: seq<int>, xi: int, x: int): (y: int) {
    if nodes == [] then 1
    else (if nodes[0] == xi then 1 else x - nodes[0]) * ProductExcept(nodes[1..], xi, x)
  }

  /** The Lagrange coefficient of node `xi` at `x`. The denominator of distinct nodes
      is never zero; the library reports an error there. */
  function Lagrange(nodes: seq<int>, xi: int, x: int): (l: Scalar) {
    var denominator := Residue(ProductExcept(nodes, xi, xi));
    if denominator == 0 then 0 else Residue(ProductExcept(nodes, xi, x) * Inverse(denominator))
  }

  /** The first `n` terms of the interpolation of `ys` at `x`. */
  function LagrangeSum(nodes: seq<int>, ys: seq<int>, x: int, n: nat): (y: int)
    requires |ys| == |nodes| && n <= |nodes|
  {
    if n == 0 then 0
    else LagrangeSum(nodes, ys, x, n - 1) + Lagrange(nodes, nodes[n - 1], x) * ys[n - 1]
  }

  // The interpolation is the value of a polynomial

  function BasisPoly(nodes: seq<int>, xi: int): (p: Poly) {
    if nodes == [] then [1]
    else if nodes[0] == xi then BasisPoly(nodes[1..], xi)
    else TimesRoot(BasisPoly(nodes[1..], xi), nodes[0])
  }

  lemma {:induction false} EvalBasis(nodes: seq<int>, xi: int, x: int)
    ensures Eval(BasisPoly(nodes, xi), x) == ProductExcept(nodes, xi, x)
  {
    if nodes == [] {
      assert Eval([1], x) == 1 + x * Eval([], x);
    } else {
      EvalBasis(nodes[1..], xi, x);
      EvalTimesRoot(BasisPoly(nodes[1..], xi), nodes[0], x);
    }
  }

  lemma {:induction false} BasisSize(nodes: seq<int>, xi: int)
    ensures |BasisPoly(nodes, xi)| <= |nodes| + (if xi in nodes then 0 else 1)
  {
    if nodes != [] {
      BasisSize(nodes[1..], xi);
      assert nodes == [nodes[0]] + nodes[1..];
    }
  }

  function LagrangePoly(nodes: seq<int>, ys: seq<int>, n: nat): (p: Poly)
    requires |ys| == |nodes| && n <= |nodes|
  {
    if n == 0 then []
    else
      var denominator := Residue(ProductExcept(nodes, nodes[n - 1], nodes[n - 1]));
      var scale := if denominator == 0 then 0 else ys[n - 1] * Inverse(denominator);
      Combine(1, LagrangePoly(nodes, ys, n - 1), scale, BasisPoly(nodes, nodes[n - 1]))
  }

  lemma {:induction false} LagrangePolySize(nodes: seq<int>, ys: seq<int>, n: nat)
    requires |ys| == |nodes| && n <= |nodes|
    ensures |LagrangePoly(nodes, ys, n)| <= |nodes|
  {
    if 0 < n {
      LagrangePolySize(nodes, ys, n - 1);
      BasisSize(nodes, nodes[n - 1]);
    }
  }

  lemma {:induction false} EvalLagrangePoly(nodes: seq<int>, ys: seq<int>, x: int, n: nat)
    requires |ys| == |nodes| && n <= |nodes|
    ensures Same(Eval(LagrangePoly(nodes, ys, n), x), LagrangeSum(nodes, ys, x, n))
  {
    hide ProductExcept, BasisPoly, Combine;
    if n == 0 {
      MultipleIsZero(0, 0);
    } else {
      var xi, y := nodes[n - 1], ys[n - 1];
      var denominator := Residue(ProductExcept(nodes, xi, xi));
      var inverse := if denominator == 0 then 0 else Inverse(denominator);
      var product := ProductExcept(nodes, xi, x);
      var prefix, basis := LagrangePoly(nodes, ys, n - 1), BasisPoly(nodes, xi);
      EvalLagrangePoly(nodes, ys, x, n - 1);
      EvalCombine(1, prefix, y * inverse, basis, x);
      EvalBasis(nodes, xi, x);
      ScaledTerm(product, inverse, y, Lagrange(nodes, xi, x));
      SameSum(Eval(prefix, x), LagrangeSum(nodes, ys, x, n - 1),
              (y * inverse) * product, Lagrange(nodes, xi, x) * y);
    }
  }

  lemma ScaledTerm(product: int, inverse: int, y: int, l: int)
    requires l == Residue(product * inverse) || (l == 0 && inverse == 0)
    ensures Same((y * inverse) * product, l * y)
  {
    if inverse == 0 {
      assert Residue(product * 0) == 0;
      assert l == 0;
      MultipleIsZero(0, 0);
    } else {
      ResidueIsSame(product * inverse);
      ZeroCombination(product * inverse - l, y, 0 * ORDER, 0) by { MultipleIsZero(0, 0 * ORDER); }
      assert (y * inverse) * product - l * y == (product * inverse - l) * y;
    }
  }

  // The coefficients are one at their own node and zero at the others

  lemma {:induction false} ProductVanishes(nodes: seq<int>, xi: int, x: int)
    requires x in nodes && x != xi
    ensures ProductExcept(nodes, xi, x) == 0
  {
    if nodes[0] != x {
      assert x in nodes[1..];
      ProductVanishes(nodes[1..], xi, x);
    }
  }

  lemma {:induction false} DenominatorIsNotZero(nodes: seq<int>, xi: int)
    requires forall j :: 0 <= j < |nodes| && nodes[j] != xi ==> !IsZero(xi - nodes[j])
    ensures !IsZero(ProductExcept(nodes, xi, xi))
  {
    if nodes == [] {
      if IsZero(1) { SmallZero(1); }
    } else {
      DenominatorIsNotZero(nodes[1..], xi);
      var factor := if nodes[0] == xi then 1 else xi - nodes[0];
      if IsZero(1) { SmallZero(1); }
      if IsZero(factor * ProductExcept(nodes[1..], xi, xi)) {
        NoZeroDivisors(factor, ProductExcept(nodes[1..], xi, xi));
      }
    }
  }

  lemma {:induction false} LagrangeAtNode(nodes: seq<int>, k: nat, m: nat)
    requires Distinct(nodes) && k < |nodes| && m < |nodes|
    ensures Same(Lagrange(nodes, nodes[k], nodes[m]), if k == m then 1 else 0)
  {
    var xi := nodes[k];
    if k == m {
      forall j | 0 <= j < |nodes| && nodes[j] != xi
        ensures !IsZero(xi - nodes[j])
      {
        if j > k && IsZero(xi - nodes[j]) {
          SameIsSymmetric(xi, nodes[j]);
        }
      }
      DenominatorIsNotZero(nodes, xi);
      UnitRatio(ProductExcept(nodes, xi, xi));
    } else {
      assert nodes[m] != xi by {
        if nodes[m] == xi { MultipleIsZero(0, 0); }
      }
      ProductVanishes(nodes, xi, nodes[m]);
      ZeroRatio(Residue(ProductExcept(nodes, xi, xi)));
    }
  }

  lemma UnitRatio(product: int)
    requires !IsZero(product)
    ensures Same(Residue(product * Inverse(Residue(product))), 1)
  {
    ResidueIsSame(product);
    CancelInverse(product, Residue(product), Inverse(Residue(product)));
  }

  lemma CancelInverse(product: int, s: int, u: int)
    requires Same(product, s) && Same(s * u, 1)
    ensures Same(Residue(product * u), 1)
  {
    SameScaled(product, s, u);
    SameIsTransitive(product * u, s * u, 1);
    ResidueIsSame(product * u);
    SameIsTransitive(Residue(product * u), product * u, 1);
  }

  lemma ZeroRatio(denominator: Scalar)
    ensures denominator != 0 ==> Residue(0 * Inverse(denominator)) == 0
    ensures IsZero(0)
  {
  }

  lemma {:induction false} SumAtNode(nodes: seq<int>, ys: seq<int>, m: nat, n: nat)
    requires Distinct(nodes) && |ys| == |nodes| && m < |nodes| && n <= |nodes|
    ensures Same(LagrangeSum(nodes, ys, nodes[m], n), if m < n then ys[m] else 0)
  {
    if n == 0 {
      MultipleIsZero(0, 0);
    } else {
      SumAtNode(nodes, ys, m, n - 1);
      LagrangeAtNode(nodes, n - 1, m);
      var l, delta := Lagrange(nodes, nodes[n - 1], nodes[m]), if n - 1 == m then 1 else 0;
      SameScaled(l, delta, ys[n - 1]);
      SameSum(LagrangeSum(nodes, ys, nodes[m], n - 1), if m < n - 1 then ys[m] else 0,
              l * ys[n - 1], delta * ys[n - 1]);
    }
  }

  lemma SameScaled(a: int, b: int, y: int)
    requires Same(a, b)
    ensures Same(a * y, b * y)
  {
    ZeroCombination(a - b, y, a - b, 0);
    assert a * y - b * y == (a - b) * y + (a - b) * 0;
  }

  // Main results

  /** Interpolating any values: they are the values of one polynomial. */
  lemma {:induction false} InterpolantExists(nodes: seq<int>, ys: seq<int>) returns (p: Poly)
    requires Distinct(nodes) && |ys| == |nodes|
    ensures |p| <= |nodes|
    ensures forall m :: 0 <= m < |nodes| ==> Same(Eval(p, nodes[m]), ys[m])
  {
    p := LagrangePoly(nodes, ys, |nodes|);
    LagrangePolySize(nodes, ys, |nodes|);
    forall m | 0 <= m < |nodes|
      ensures Same(Eval(p, nodes[m]), ys[m])
    {
      EvalLagrangePoly(nodes, ys, nodes[m], |nodes|);
      SumAtNode(nodes, ys, m, |nodes|);
      SameIsTransitive(Eval(p, nodes[m]), LagrangeSum(nodes, ys, nodes[m], |nodes|), ys[m]);
    }
  }

  /** Interpolating the values of a polynomial with at most as many coefficients as
      nodes gives its value at every `x`. */
  lemma {:induction false} InterpolationIsExact(f: Poly, nodes: seq<int>, ys: seq<int>, x: int)
    requires Distinct(nodes) && |ys| == |nodes| && |f| <= |nodes|
    requires forall m :: 0 <= m < |nodes| ==> Same(ys[m], Eval(f, nodes[m]))
    ensures Same(LagrangeSum(nodes, ys, x, |nodes|), Eval(f, x))
  {
    var p := LagrangePoly(nodes, ys, |nodes|);
    LagrangePolySize(nodes, ys, |nodes|);
    forall m | 0 <= m < |nodes|
      ensures Same(Eval(p, nodes[m]), Eval(f, nodes[m]))
    {
      EvalLagrangePoly(nodes, ys, nodes[m], |nodes|);
      SumAtNode(nodes, ys, m, |nodes|);
      SameIsTransitive(Eval(p, nodes[m]), LagrangeSum(nodes, ys, nodes[m], |nodes|), ys[m]);
      SameIsTransitive(Eval(p, nodes[m]), ys[m], Eval(f, nodes[m]));
    }
    AgreementEverywhere(p, f, nodes, x);
    EvalLagrangePoly(nodes, ys, x, |nodes|);
    SameIsSymmetric(Eval(p, x), LagrangeSum(nodes, ys, x, |nodes|));
    SameIsTransitive(LagrangeSum(nodes, ys, x, |nodes|), Eval(p, x), Eval(f, x));
  }
}

/** Polynomials over the scalar field, given by their coefficients, constant term first.

    Coefficients and values are integers; two polynomials are the same when their
    coefficients are the same field elements. */
module Polynomials {
  import opened Scalars

  type Poly = seq<int>

  function Eval(p: Poly, x: int): (y: int) {
    if p == [] then 0 else p[0] + x * Eval(p[1..], x)
  }

  ghost predicate ZeroPoly(p: Poly) {
    forall k :: 0 <= k < |p| ==> IsZero(p[k])
  }

  /** The nodes are pairwise distinct field elements. */
  ghost predicate Distinct(nodes: seq<int>) {
    forall i, j :: 0 <= i < j < |nodes| ==> !IsZero(nodes[j] - nodes[i])
  }

  /** The quotient of `p(x) - p(a)` by `x - a`. */
  function Quotient(p: Poly, a: int): (q: Poly)
    ensures |q| == if p == [] then 0 else |p| - 1
  {
    if |p| <= 1 then [] else [Eval(p[1..], a)] + Quotient(p[1..], a)
  }

  lemma {:induction false} Factor(p: Poly, a: int, x: int)
    ensures Eval(p, x) == Eval(p, a) + (x - a) * Eval(Quotient(p, a), x)
  {
    if |p| == 1 {
      assert Eval(p[1..], x) == 0 && Eval(p[1..], a) == 0;
    } else if 1 < |p| {
      var g := p[1..];
      var h := Eval(Quotient(g, a), x);
      Factor(g, a, x);
      assert Quotient(p, a)[1..] == Quotient(g, a);
      assert Eval(Quotient(p, a), x) == Eval(g, a) + x * h;
      FactorStep(x, a, Eval(g, x), Eval(g, a), h);
    }
  }

  lemma {:induction false} FactorStep(x: int, a: int, gx: int, ga: int, h: int)
    requires gx == ga + (x - a) * h
    ensures x * gx == a * ga + (x - a) * (ga + x * h)
  {
  }

  lemma {:induction false} ZeroPolyVanishes(p: Poly, x: int)
    requires ZeroPoly(p)
    ensures IsZero(Eval(p, x))
  {
    if p == [] {
      MultipleIsZero(0, 0);
    } else {
      ZeroPolyVanishes(p[1..], x);
      ZeroCombination(p[0], 1, Eval(p[1..], x), x);
    }
  }

  /** A polynomial is zero when its value at `a` and its quotient by `x - a` are. */
  lemma {:induction false} ZeroQuotient(p: Poly, a: int)
    requires ZeroPoly(Quotient(p, a)) && IsZero(Eval(p, a))
    ensures ZeroPoly(p)
  {
    if p != [] {
      var g := p[1..];
      if |p| == 1 {
        assert Eval(g, a) == 0;
        assert IsZero(Eval(g, a)) by { MultipleIsZero(0, 0); }
      } else {
        var q := Quotient(p, a);
        assert q[0] == Eval(g, a) && q[1..] == Quotient(g, a);
        ZeroQuotient(g, a);
      }
      ZeroCombination(Eval(p, a), 1, Eval(g, a), -a);
      assert p[0] == Eval(p, a) * 1 + Eval(g, a) * -a;
      assert forall k :: 1 <= k < |p| ==> p[k] == g[k - 1];
    }
  }

  /** Another root of a polynomial with root `a` is a root of its quotient. */
  lemma {:induction false} RootOfQuotient(p: Poly, a: int, b: int)
    requires IsZero(Eval(p, a)) && IsZero(Eval(p, b)) && !IsZero(b - a)
    ensures IsZero(Eval(Quotient(p, a), b))
  {
    hide Eval, Quotient, IsZero;
    var y := Eval(Quotient(p, a), b);
    Factor(p, a, b);
    ZeroSum(Eval(p, b), Eval(p, a));
    assert Eval(p, b) - Eval(p, a) == (b - a) * y;
    NoZeroDivisors(b - a, y);
  }

  /** A polynomial with at most as many coefficients as it has roots is zero. */
  lemma {:induction false} RootsForceZero(p: Poly, roots: seq<int>)
    requires |p| <= |roots| && Distinct(roots)
    requires forall i :: 0 <= i < |roots| ==> IsZero(Eval(p, roots[i]))
    ensures ZeroPoly(p)
    decreases |roots|
  {
    hide IsZero, Eval;
    if p != [] {
      var a, rest, q := roots[0], roots[1..], Quotient(p, roots[0]);
      forall i | 0 <= i < |rest|
        ensures IsZero(Eval(q, rest[i]))
      {
        assert rest[i] == roots[i + 1];
        RootOfQuotient(p, a, roots[i + 1]);
      }
      RootsForceZero(q, rest);
      ZeroQuotient(p, a);
    }
  }

  // Sums, multiples and products of polynomials

  function Coefficient(p: Poly, k: nat): int {
    if k < |p| then p[k] else 0
  }

  /** `u·p + v·q`, with as many coefficients as the longer one. */
  function Combine(u: int, p: Poly, v: int, q: Poly): (r: Poly)
    ensures |r| == if |p| < |q| then |q| else |p|
  {
    if p == [] && q == [] then []
    else
      [u * Coefficient(p, 0) + v * Coefficient(q, 0)]
      + Combine(u, if p == [] then [] else p[1..], v, if q == [] then [] else q[1..])
  }

  lemma {:induction false} EvalCombine(u: int, p: Poly, v: int, q: Poly, x: int)
    ensures Eval(Combine(u, p, v, q), x) == u * Eval(p, x) + v * Eval(q, x)
    decreases |p| + |q|
  {
    if p != [] || q != [] {
      var p', q' := if p == [] then [] else p[1..], if q == [] then [] else q[1..];
      var c := Combine(u, p, v, q);
      EvalCombine(u, p', v, q', x);
      assert c[1..] == Combine(u, p', v, q');
      assert Eval(p, x) == Coefficient(p, 0) + x * Eval(p', x);
      assert Eval(q, x) == Coefficient(q, 0) + x * Eval(q', x);
      CombineStep(u, Coefficient(p, 0), Eval(p', x), v, Coefficient(q, 0), Eval(q', x), x);
    }
  }

  lemma {:induction false} CombineStep(u: int, a: int, b: int, v: int, c: int, d: int, x: int)
    ensures u * (a + x * b) + v * (c + x * d) == (u * a + v * c) + x * (u * b + v * d)
  {
  }

  lemma {:induction false} CombineCoefficients(u: int, p: Poly, v: int, q: Poly, k: nat)
    requires k < |Combine(u, p, v, q)|
    ensures Combine(u, p, v, q)[k] == u * Coefficient(p, k) + v * Coefficient(q, k)
    decreases k
  {
    if 0 < k {
      CombineCoefficients(u, if p == [] then [] else p[1..], v, if q == [] then [] else q[1..], k - 1);
    }
  }

  /** `(x - a)·p(x)` */
  function TimesRoot(p: Poly, a: int): (r: Poly)
    ensures |r| == |p| + 1
  {
    Combine(1, [0] + p, -a, p)
  }

  lemma {:induction false} EvalTimesRoot(p: Poly, a: int, x: int)
    ensures Eval(TimesRoot(p, a), x) == (x - a) * Eval(p, x)
  {
    hide Eval, Combine;
    EvalCombine(1, [0] + p, -a, p, x);
    EvalShift(p, x);
    assert x * Eval(p, x) - a * Eval(p, x) == (x - a) * Eval(p, x);
  }

  lemma {:induction false} EvalShift(p: Poly, x: int)
    ensures Eval([0] + p, x) == x * Eval(p, x)
  {
  }

  /** The canonical coefficients. */
  function Reduce(p: Poly): (r: seq<Scalar>)
    ensures |r| == |p|
    ensures forall k :: 0 <= k < |p| ==> r[k] == Residue(p[k])
  {
    if p == [] then [] else [Residue(p[0])] + Reduce(p[1..])
  }

  lemma {:induction false} EvalReduce(p: Poly, x: int)
    ensures Same(Eval(Reduce(p), x), Eval(p, x))
  {
    if p == [] {
      MultipleIsZero(0, 0);
    } else {
      var r := Reduce(p);
      assert r[1..] == Reduce(p[1..]);
      EvalReduce(p[1..], x);
      ResidueIsSame(p[0]);
      SameHorner(r[0], p[0], Eval(r[1..], x), Eval(p[1..], x), x);
    }
  }

  lemma {:induction false} SameHorner(a: int, b: int, c: int, d: int, x: int)
    requires Same(a, b) && Same(c, d)
    ensures Same(a + x * c, b + x * d)
  {
    ZeroCombination(a - b, 1, c - d, x);
    assert (a + x * c) - (b + x * d) == (a - b) * 1 + (c - d) * x;
  }

  ghost function Difference(p: Poly, q: Poly): Poly {
    Combine(1, p, -1, q)
  }

  lemma {:induction false} DifferenceVanishes(p: Poly, q: Poly, nodes: seq<int>)
    requires |p| <= |nodes| && |q| <= |nodes| && Distinct(nodes)
    requires forall i :: 0 <= i < |nodes| ==> Same(Eval(p, nodes[i]), Eval(q, nodes[i]))
    ensures ZeroPoly(Difference(p, q))
  {
    forall i | 0 <= i < |nodes|
      ensures IsZero(Eval(Difference(p, q), nodes[i]))
    {
      EvalCombine(1, p, -1, q, nodes[i]);
    }
    RootsForceZero(Difference(p, q), nodes);
  }

  /** Two polynomials with at most `n` coefficients that agree at `n` distinct nodes
      agree everywhere. */
  lemma {:induction false} AgreementEverywhere(p: Poly, q: Poly, nodes: seq<int>, x: int)
    requires |p| <= |nodes| && |q| <= |nodes| && Distinct(nodes)
    requires forall i :: 0 <= i < |nodes| ==> Same(Eval(p, nodes[i]), Eval(q, nodes[i]))
    ensures Same(Eval(p, x), Eval(q, x))
  {
    DifferenceVanishes(p, q, nodes);
    ZeroPolyVanishes(Difference(p, q), x);
    EvalCombine(1, p, -1, q, x);
  }

  /** ... and have the same coefficients. */
  lemma {:induction false} AgreementIsIdentity(p: Poly, q: Poly, nodes: seq<int>)
    requires |p| == |q| <= |nodes| && Distinct(nodes)
    requires forall i :: 0 <= i < |nodes| ==> Same(Eval(p, nodes[i]), Eval(q, nodes[i]))
    ensures Reduce(p) == Reduce(q)
  {
    DifferenceVanishes(p, q, nodes);
    forall k | 0 <= k < |p|
      ensures Residue(p[k]) == Residue(q[k])
    {
      CombineCoefficients(1, p, -1, q, k);
      assert IsZero(Difference(p, q)[k]);
      SameIffEqualResidues(p[k], q[k]);
    }
  }
}

/** Errors of the storage key operations. */
module StorageErrors {

  datatype StorageError =
    | InvalidArgument
    | Crypto
    | Serialization
    | BelowThreshold
    | ThresholdChange
    | HolderCount
    | Proof
    | ShareMismatch

  datatype Result<+T> = Ok(value: T) | Err(error: StorageError) {
    predicate IsFailure() {
      Err?
    }

    function PropagateFailure<U>(): Result<U>
      requires Err?
    {
      Err(error)
    }

    function Extract(): T
      requires Ok?
    {
      value
    }
  }
}

/** Holder-count and threshold rules. */
module ThresholdParams {
  import opened Options
  import opened StorageErrors

  const MAX_HOLDERS: nat := 50
  const MIN_HOLDERS: nat := 5
  const MIN_RESHARE_HOLDERS: nat := 3
  const THRESHOLD_PERCENT: nat := 65

  function ThresholdFor(holderCount: nat): (t: Option<nat>)
    ensures t.Some? <==> 1 <= holderCount <= MAX_HOLDERS
    // the least number of holders that is at least 65% of them, and a strict majority
    ensures t.Some? ==> THRESHOLD_PERCENT * holderCount <= 100 * t.value
    ensures t.Some? ==> 100 * (t.value - 1) < THRESHOLD_PERCENT * holderCount
    ensures t.Some? ==> t.value <= holderCount < 2 * t.value
  {
    if holderCount == 0 || MAX_HOLDERS < holderCount then None
    else Some((THRESHOLD_PERCENT * holderCount + 99) / 100)
  }

  function ThresholdIn(holderCount: nat, minimum: nat): (t: Result<nat>)
    ensures t.Ok? <==> minimum <= holderCount <= MAX_HOLDERS && 0 < holderCount
    ensures t.Ok? ==> ThresholdFor(holderCount) == Some(t.value)
    ensures t.Err? ==> t.error == HolderCount
  {
    if !(minimum <= holderCount <= MAX_HOLDERS) then Err(HolderCount)
    else match ThresholdFor(holderCount)
      case Some(t) => Ok(t)
      case None => Err(HolderCount)
  }

  function PlanThreshold(holderCount: nat): (t: Result<nat>)
    ensures t.Ok? ==> 2 <= t.value <= holderCount
  {
    ThresholdIn(holderCount, MIN_RESHARE_HOLDERS)
  }

  function CreationThreshold(holderCount: nat): (t: Result<nat>)
    ensures t.Ok? ==> PlanThreshold(holderCount) == t && 4 <= t.value
  {
    ThresholdIn(holderCount, MIN_HOLDERS)
  }

  predicate IsPlanThreshold(t: nat) {
    exists n :: MIN_RESHARE_HOLDERS <= n <= MAX_HOLDERS && ThresholdFor(n) == Some(t)
  }

  /** The thresholds of the permitted plans are exactly 2 to 33: no value is skipped. */
  lemma PlanThresholds(t: nat)
    ensures IsPlanThreshold(t) <==> 2 <= t <= 33
  {
    if 2 <= t <= 33 {
      var n := 100 * t / 65;
      assert 65 * n <= 100 * t < 65 * (n + 1);
      assert MIN_RESHARE_HOLDERS <= n <= MAX_HOLDERS;
      assert ThresholdFor(n) == Some(t);
    }
  }
}

/** Maps keyed by holder, iterated in ascending key order. */
module OrderedMaps {
  import opened Options

  type HolderId = h: int | 0 <= h < 65536

  datatype OrderedMap<+V> = OrderedMap(keys: seq<int>, values: seq<V>) {
    ghost predicate Valid() {
      && |keys| == |values|
      && (forall i :: 0 <= i < |keys| ==> 0 <= keys[i] < 65536)
      && forall i, j :: 0 <= i < j < |keys| ==> keys[i] < keys[j]
    }

    function Take(n: nat): (m: OrderedMap<V>)
      requires Valid() && n <= |keys|
      ensures m.Valid() && |m.keys| == n
    {
      OrderedMap(keys[..n], values[..n])
    }

    function Get(h: int): (v: Option<V>)
      requires Valid()
      ensures v.Some? <==> h in keys
      ensures v.Some? ==> exists i :: 0 <= i < |keys| && keys[i] == h && values[i] == v.value
      ensures forall i :: 0 <= i < |keys| && keys[i] == h ==> v == Some(values[i])
    {
      if h in keys then
        var i :| 0 <= i < |keys| && keys[i] == h;
        Some(values[i])
      else None
    }
  }
}

/** The holder plan: the storage public key `S` and the share commitment `Y_i = s_i·G`
    of every holder, with the checks and the interpolation in the exponent.

    A point of the prime-order group is represented by its discrete logarithm, so
    adding points adds logarithms and multiplying by a scalar multiplies them. */
module HolderPlan {
  import opened Options
  import opened StorageErrors
  import opened ThresholdParams
  import opened OrderedMaps
  import opened Scalars
  import opened Polynomials
  import opened Interpolation

  datatype Point = Point(log: Scalar)

  function MulBase(s: Scalar): Point {
    Point(s)
  }

  function Mul(p: Point, s: Scalar): Point {
    Point(Residue(s * p.log))
  }

  predicate IsIdentity(p: Point) {
    p.log == 0
  }

  function MultiscalarMul(coefficients: seq<Scalar>, points: seq<Point>, n: nat): (p: Point)
    requires |coefficients| == |points| && n <= |points|
  {
    if n == 0 then Point(0)
    else Point(Residue(MultiscalarMul(coefficients, points, n - 1).log
                       + Mul(points[n - 1], coefficients[n - 1]).log))
  }

  // Interpolation in the exponent

  function Logs(points: seq<Point>): (logs: seq<int>)
    ensures |logs| == |points| && forall i :: 0 <= i < |points| ==> logs[i] == points[i].log
  {
    seq(|points|, i requires 0 <= i < |points| => points[i].log)
  }

  /** The value at `x` (0 for none) of the polynomial through `points`. */
  function Interpolated(points: OrderedMap<Point>, x: int): (p: Point)
    requires points.Valid()
  {
    Point(Residue(LagrangeSum(points.keys, Logs(points.values), x, |points.keys|)))
  }

  lemma NearIsApart(a: int, b: int)
    requires 0 <= a < b < 65536
    ensures !IsZero(b - a)
  {
  }

  lemma {:induction false} KeysAreDistinct<V>(m: OrderedMap<V>)
    requires m.Valid()
    ensures Distinct(m.keys)
  {
    hide IsZero;
    forall i, j | 0 <= i < j < |m.keys| ensures !IsZero(m.keys[j] - m.keys[i]) {
      NearIsApart(m.keys[i], m.keys[j]);
    }
  }

  /** The points are the multiples by `G` of the values of `f`. */
  ghost predicate OnPolynomial(f: Poly, points: OrderedMap<Point>)
    requires points.Valid()
  {
    forall i :: 0 <= i < |points.keys| ==> Same(points.values[i].log, Eval(f, points.keys[i]))
  }

  lemma {:induction false} InterpolatedIsExact(f: Poly, points: OrderedMap<Point>, x: int)
    requires points.Valid() && |f| <= |points.keys| && OnPolynomial(f, points)
    ensures Interpolated(points, x) == Point(Residue(Eval(f, x)))
  {
    KeysAreDistinct(points);
    var logs := Logs(points.values);
    InterpolationIsExact(f, points.keys, logs, x);
    SameIffEqualResidues(LagrangeSum(points.keys, logs, x, |points.keys|), Eval(f, x));
  }

  /** `Σ λ_i(x)·P_i`: collect the coefficients, then multiply and add. */
  method Interpolate(points: OrderedMap<Point>, x: Option<HolderId>) returns (r: Result<Point>)
    requires points.Valid()
    ensures r == if 0 in points.keys || x == Some(0) then Err(InvalidArgument)
                 else Ok(Interpolated(points, if x.Some? then x.value else 0))
  {
    if 0 in points.keys {
      return Err(InvalidArgument);
    }
    if x == Some(0) {
      return Err(InvalidArgument);
    }
    var at := if x.Some? then x.value else 0;
    var coefficients: seq<Scalar> := [];
    for i := 0 to |points.keys|
      invariant |coefficients| == i
      invariant forall k :: 0 <= k < i ==> coefficients[k] == Lagrange(points.keys, points.keys[k], at)
    {
      coefficients := coefficients + [Lagrange(points.keys, points.keys[i], at)];
    }
    MultiscalarIsSum(coefficients, points, at, |points.keys|);
    return Ok(MultiscalarMul(coefficients, points.values, |points.values|));
  }

  lemma {:induction false} MultiscalarIsSum(coefficients: seq<Scalar>, points: OrderedMap<Point>, x: int, n: nat)
    requires points.Valid() && |coefficients| == |points.keys| && n <= |points.keys|
    requires forall k :: 0 <= k < |points.keys| ==> coefficients[k] == Lagrange(points.keys, points.keys[k], x)
    ensures MultiscalarMul(coefficients, points.values, n).log
         == Residue(LagrangeSum(points.keys, Logs(points.values), x, n))
  {
    if n == 0 {
      MultipleIsZero(0, 0);
    } else {
      MultiscalarIsSum(coefficients, points, x, n - 1);
      ResidueOfSum(LagrangeSum(points.keys, Logs(points.values), x, n - 1),
                   coefficients[n - 1] * points.values[n - 1].log);
    }
  }

  lemma {:induction false} ResidueOfSum(a: int, b: int)
    ensures Residue(Residue(a) + Residue(b)) == Residue(a + b)
  {
    ResidueIsSame(a);
    ResidueIsSame(b);
    SameSum(Residue(a), a, Residue(b), b);
    SameIffEqualResidues(Residue(a) + Residue(b), a + b);
  }

  lemma {:induction false} CanonicalPoint(p: Point, x: int)
    ensures Same(p.log, x) <==> p == Point(Residue(x))
  {
    hide Same;
    SameIffEqualResidues(p.log, x);
    assert Residue(p.log) == p.log;
  }

  // Plans

  /** The public key package of the signature library: commitments keyed by identifier,
      a non-zero scalar, in ascending order. */
  datatype PublicKeyPackage = PublicKeyPackage(identifiers: seq<Scalar>, verifyingShares: seq<Point>, verifyingKey: Point) {
    ghost predicate Valid() {
      && |identifiers| == |verifyingShares|
      && (forall i :: 0 <= i < |identifiers| ==> 0 < identifiers[i])
      && forall i, j :: 0 <= i < j < |identifiers| ==> identifiers[i] < identifiers[j]
    }
  }

  datatype PlanData = PlanData(threshold: nat, shares: OrderedMap<Point>, storageKey: Point)

  /** Plans exist only as `FromPackage` makes them. */
  type Plan = p: PlanData |
      && p.shares.Valid()
      && PlanThreshold(|p.shares.keys|) == Ok(p.threshold)
      && 0 < p.shares.keys[0]
    witness PlanData(2, OrderedMap([1, 2, 3], [Point(0), Point(0), Point(0)]), Point(0))

  /** The number of values `len` bytes can hold. */
  function Range(len: nat): nat {
    if len == 0 then 1 else 256 * Range(len - 1)
  }

  lemma {:induction false} RangeHolds(n: nat)
    ensures n < Range(n)
  {
    if n != 0 {
      RangeHolds(n - 1);
    }
  }

  /** The length of an encoded scalar; nothing depends on its being 32. */
  type ByteCount = n: nat | 2 <= n && ORDER <= Range(n)
    witness (RangeHolds(ORDER); ORDER)

  const SCALAR_BYTES: ByteCount

  /** The little-endian bytes of a number. */
  function Bytes(n: nat, len: nat): (bytes: seq<nat>)
    ensures |bytes| == len
  {
    if len == 0 then [] else [n % 256] + Bytes(n / 256, len - 1)
  }

  predicate AllZero(bytes: seq<nat>) {
    forall i :: 0 <= i < |bytes| ==> bytes[i] == 0
  }

  lemma {:induction false} ZeroBytes(n: nat, len: nat)
    requires n < Range(len)
    ensures AllZero(Bytes(n, len)) <==> n == 0
  {
    if len != 0 {
      var rest := Bytes(n / 256, len - 1);
      ZeroBytes(n / 256, len - 1);
      assert Bytes(n, len)[1..] == rest;
      assert AllZero([n % 256] + rest) <==> n % 256 == 0 && AllZero(rest) by {
        assert AllZero([n % 256] + rest) ==> AllZero(([n % 256] + rest)[1..]);
        assert AllZero([n % 256] + rest) ==> ([n % 256] + rest)[0] == 0;
      }
    }
  }

  lemma TwoBytes(n: nat)
    ensures n == n % 256 + 256 * (n / 256 % 256) + 65536 * (n / 256 / 256)
  {
    var q := n / 256;
    assert n == 256 * q + n % 256 && q == 256 * (q / 256) + q % 256;
  }

  lemma {:induction false} RangeOfTwo(n: nat, len: nat)
    requires 2 <= len && n < Range(len)
    ensures n / 256 / 256 < Range(len - 2)
  {
    assert Range(len) == 256 * Range(len - 1) && Range(len - 1) == 256 * Range(len - 2);
  }

  lemma {:induction false} FirstBytes(n: nat, len: nat)
    requires 2 <= len && n < Range(len)
    ensures AllZero(Bytes(n, len)[2..]) <==> n < 65536
    ensures n < 65536 ==> Bytes(n, len)[0] + 256 * Bytes(n, len)[1] == n
  {
    hide Range, AllZero;
    var rest := Bytes(n / 256 / 256, len - 2);
    assert Bytes(n, len) == [n % 256] + ([n / 256 % 256] + rest);
    assert Bytes(n, len)[2..] == rest;
    TwoBytes(n);
    RangeOfTwo(n, len);
    ZeroBytes(n / 256 / 256, len - 2);
  }

  /** The holder index read from the bytes of an identifier: the first two, when all others
      are zero and these are not. These are exactly the non-zero 16-bit identifiers. */
  function HolderOf(id: Scalar): (h: Option<HolderId>)
    ensures h.Some? <==> 0 < id < 65536
    ensures h.Some? ==> h.value == id
  {
    FirstBytes(id, SCALAR_BYTES);
    var bytes := Bytes(id, SCALAR_BYTES);
    if !AllZero(bytes[2..]) then None
    else
      var value := bytes[0] + 256 * bytes[1];
      if value != 0 then Some(value) else None
  }

  /** A package becomes a plan exactly when it has 3 to 50 holders and every identifier
      is a 16-bit value; the plan holds the same commitments and storage key. */
  function PlanOf(package: PublicKeyPackage): (r: Result<Plan>)
    requires package.Valid()
    ensures r.Ok? <==> MIN_RESHARE_HOLDERS <= |package.identifiers| <= MAX_HOLDERS
                       && forall i :: 0 <= i < |package.identifiers| ==> package.identifiers[i] < 65536
    ensures r.Ok? ==> r.value.shares == OrderedMap(package.identifiers, package.verifyingShares)
                      && r.value.storageKey == package.verifyingKey
    ensures r.Err? ==> r.error == if MIN_RESHARE_HOLDERS <= |package.identifiers| <= MAX_HOLDERS then InvalidArgument else HolderCount
  {
    var threshold :- PlanThreshold(|package.identifiers|);
    if forall i :: 0 <= i < |package.identifiers| ==> package.identifiers[i] < 65536
    then Ok(PlanData(threshold, OrderedMap(package.identifiers, package.verifyingShares), package.verifyingKey))
    else Err(InvalidArgument)
  }

  method FromPackage(package: PublicKeyPackage) returns (r: Result<Plan>)
    requires package.Valid()
    ensures r == PlanOf(package)
  {
    var threshold :- PlanThreshold(|package.identifiers|);
    var shares: OrderedMap<Point> := OrderedMap([], []);
    for i := 0 to |package.identifiers|
      invariant shares.keys == package.identifiers[..i] && shares.values == package.verifyingShares[..i]
      invariant forall k :: 0 <= k < i ==> package.identifiers[k] < 65536
    {
      var holder := HolderOf(package.identifiers[i]);
      if holder.None? {
        return Err(InvalidArgument);
      }
      shares := OrderedMap(shares.keys + [holder.value], shares.values + [package.verifyingShares[i]]);
    }
    assert shares == OrderedMap(package.identifiers, package.verifyingShares);
    r := Ok(PlanData(threshold, shares, package.verifyingKey));
  }

  /** The first `t` holders. */
  function BasePoints(plan: Plan): (points: OrderedMap<Point>)
    ensures points.Valid() && |points.keys| == plan.threshold && 0 !in points.keys
  {
    plan.shares.Take(plan.threshold)
  }

  /** Every commitment lies on `f`, a polynomial with `t` coefficients (degree at most
      `t - 1`) whose constant term is the logarithm of the storage key. */
  ghost predicate Carries(f: Poly, plan: Plan) {
    && |f| == plan.threshold
    && Same(plan.storageKey.log, Eval(f, 0))
    && OnPolynomial(f, plan.shares)
  }

  ghost predicate Consistent(plan: Plan) {
    exists f :: Carries(f, plan)
  }

  function Pad(p: Poly, n: nat): (q: Poly)
    requires |p| <= n
    ensures |q| == n
  {
    Combine(1, p, 0, seq(n, _ => 0))
  }

  lemma {:induction false} EvalPad(p: Poly, n: nat, x: int)
    requires |p| <= n
    ensures Eval(Pad(p, n), x) == Eval(p, x)
  {
    EvalCombine(1, p, 0, seq(n, _ => 0), x);
  }

  /** A polynomial with `t` coefficients through the first `t` holders. */
  lemma {:induction false} BasePolynomial(plan: Plan) returns (f: Poly)
    ensures |f| == plan.threshold && OnPolynomial(f, BasePoints(plan))
  {
    var base := BasePoints(plan);
    KeysAreDistinct(base);
    var p := InterpolantExists(base.keys, Logs(base.values));
    f := Pad(p, plan.threshold);
    forall i | 0 <= i < |base.keys|
      ensures Same(base.values[i].log, Eval(f, base.keys[i]))
    {
      EvalPad(p, plan.threshold, base.keys[i]);
      SameIsSymmetric(Eval(p, base.keys[i]), base.values[i].log);
    }
  }

  /** What `Validate` compares: everything interpolated from the first `t` holders. */
  ghost predicate MatchesBase(plan: Plan) {
    && Interpolated(BasePoints(plan), 0) == plan.storageKey
    && forall k :: plan.threshold <= k < |plan.shares.keys|
                   ==> Interpolated(BasePoints(plan), plan.shares.keys[k]) == plan.shares.values[k]
  }

  lemma {:induction false} MatchesBaseIffCarries(plan: Plan, f: Poly)
    requires |f| == plan.threshold && OnPolynomial(f, BasePoints(plan))
    ensures MatchesBase(plan) <==> Carries(f, plan)
  {
    var base := BasePoints(plan);
    InterpolatedIsExact(f, base, 0);
    CanonicalPoint(plan.storageKey, Eval(f, 0));
    forall k | 0 <= k < |plan.shares.keys|
      ensures k < plan.threshold ==> Same(plan.shares.values[k].log, Eval(f, plan.shares.keys[k]))
      ensures Same(plan.shares.values[k].log, Eval(f, plan.shares.keys[k]))
              <==> Interpolated(base, plan.shares.keys[k]) == plan.shares.values[k]
    {
      InterpolatedIsExact(f, base, plan.shares.keys[k]);
      CanonicalPoint(plan.shares.values[k], Eval(f, plan.shares.keys[k]));
      assert k < plan.threshold ==> base.keys[k] == plan.shares.keys[k] && base.values[k] == plan.shares.values[k];
    }
  }

  lemma {:induction false} MatchesBaseIffConsistent(plan: Plan)
    ensures MatchesBase(plan) <==> Consistent(plan)
  {
    var f := BasePolynomial(plan);
    MatchesBaseIffCarries(plan, f);
    if Consistent(plan) {
      var g :| Carries(g, plan);
      MatchesBaseIffCarries(plan, g);
    }
  }

  /** Only the first `t` commitments are interpolated, yet acceptance means that every
      commitment and the storage key lie on one polynomial, and rejection that none does. */
  method Validate(plan: Plan) returns (r: Result<()>)
    ensures r.Ok? <==> Consistent(plan)
    ensures r.Err? ==> r.error == Crypto
  {
    MatchesBaseIffConsistent(plan);
    var base := BasePoints(plan);
    var key := Interpolate(base, None);
    if key.value != plan.storageKey {
      return Err(Crypto);
    }
    for i := plan.threshold to |plan.shares.keys|
      invariant forall k :: plan.threshold <= k < i ==> Interpolated(base, plan.shares.keys[k]) == plan.shares.values[k]
    {
      var share := Interpolate(base, Some(plan.shares.keys[i]));
      if share.value != plan.shares.values[i] {
        return Err(Crypto);
      }
    }
    return Ok(());
  }

  /** The polynomial of a plan is unique. */
  lemma {:induction false} PlanPolynomialIsUnique(plan: Plan, f: Poly, g: Poly)
    requires Carries(f, plan) && Carries(g, plan)
    ensures Reduce(f) == Reduce(g)
  {
    var ids := plan.shares.keys;
    forall i | 0 <= i < |ids|
      ensures Same(Eval(f, ids[i]), Eval(g, ids[i]))
    {
      SameIsSymmetric(plan.shares.values[i].log, Eval(f, ids[i]));
      SameIsTransitive(Eval(f, ids[i]), plan.shares.values[i].log, Eval(g, ids[i]));
    }
    KeysAreDistinct(plan.shares);
    AgreementIsIdentity(f, g, ids);
  }

  /** The commitment of an identifier outside the plan: on a consistent plan, that of
      its point on the plan's polynomial. */
  method InterpolateShare(plan: Plan, holder: HolderId) returns (r: Result<Point>)
    ensures r.Ok? <==> holder != 0 && holder !in plan.shares.keys
    ensures r.Err? ==> r.error == InvalidArgument
    ensures r.Ok? ==> r.value == Interpolated(BasePoints(plan), holder)
    ensures r.Ok? ==> forall f :: Carries(f, plan) ==> r.value == Point(Residue(Eval(f, holder)))
  {
    if holder == 0 || holder in plan.shares.keys {
      return Err(InvalidArgument);
    }
    r := Interpolate(BasePoints(plan), Some(holder));
    forall f | Carries(f, plan)
      ensures r.value == Point(Residue(Eval(f, holder)))
    {
      InterpolatedIsExact(f, BasePoints(plan), holder);
    }
  }
}

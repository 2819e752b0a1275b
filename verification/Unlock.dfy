/** Encapsulation to the storage key, decryption partials and their combination. */
module Unlock {
  import opened Options
  import opened StorageErrors
  import opened OrderedMaps
  import opened Scalars
  import opened Polynomials
  import opened Interpolation
  import opened HolderPlan
  import opened StorageKeys
  import opened Enrollment

  /** Thirty-two bytes: the canonical encoding of a point, or of none. */
  datatype PointBytes = Encoding(point: Point) | NotAnEncoding

  /** Rejects non-canonical encodings and the identity. */
  function DecodePoint(bytes: PointBytes): (r: Result<Point>)
    ensures r.Ok? <==> bytes.Encoding? && !IsIdentity(bytes.point)
    ensures r.Ok? ==> bytes == Encoding(r.value)
    ensures r.Err? ==> r.error == InvalidArgument
  {
    if bytes.Encoding? && !IsIdentity(bytes.point) then Ok(bytes.point) else Err(InvalidArgument)
  }

  /** `R = r·G` and the shared point `r·S`, for the random non-zero `r`. */
  function Encapsulate(storageKey: PointBytes, r: Scalar): (e: Result<(PointBytes, PointBytes)>)
    requires r != 0
    ensures e.Ok? <==> storageKey.Encoding? && !IsIdentity(storageKey.point)
    // neither point is the identity, so both decode again
    ensures e.Ok? ==> DecodePoint(e.value.0).Ok? && DecodePoint(e.value.1).Ok?
    ensures e.Ok? ==> e.value == (Encoding(MulBase(r)), Encoding(Mul(storageKey.point, r)))
  {
    var key :- DecodePoint(storageKey);
    assert !IsIdentity(Mul(key, r)) by {
      if IsZero(r * key.log) {
        NoZeroDivisors(r, key.log);
        SmallZero(r);
        SmallZero(key.log);
      }
    }
    Ok((Encoding(MulBase(r)), Encoding(Mul(key, r))))
  }

  // Partials

  /** The request fields every partial is bound to. */
  datatype UnlockContext = UnlockContext(networkId: seq<bv8>, epoch: nat, planDigest: seq<bv8>, requestNonce: seq<bv8>)

  datatype Transcript = Transcript(context: UnlockContext, storageKey: Point, holder: HolderId, ephemeral: PointBytes)

  type ProofBytes = seq<bv8>

  /** The foreign proof verifier: base, commitment, partial, transcript and proof. */
  type Verifier = (Point, Point, Point, Transcript, ProofBytes) -> bool

  /** The foreign prover: secret, base and transcript. */
  type Prover = (Scalar, Point, Transcript) -> ProofBytes

  /** The library contract: an accepted proof means equal logarithms. */
  ghost predicate Sound(accepts: Verifier) {
    forall base, commitment, partial, transcript, proof ::
      accepts(base, commitment, partial, transcript, proof) ==> partial == Mul(base, commitment.log)
  }

  /** ... and an honest proof is accepted. */
  ghost predicate Complete(prove: Prover, accepts: Verifier) {
    forall s: Scalar, base: Point, transcript: Transcript ::
      accepts(base, MulBase(s), Mul(base, s), transcript, prove(s, base, transcript))
  }

  /** ... but for its own transcript only. */
  ghost predicate Binding(prove: Prover, accepts: Verifier) {
    forall base, commitment, partial, transcript, s: Scalar, b: Point, own: Transcript ::
      accepts(base, commitment, partial, transcript, prove(s, b, own)) ==> transcript == own
  }

  datatype PartialBytes = WrongLength | Partial(point: PointBytes, proof: ProofBytes)

  function CreatePartial(prove: Prover, share: Share, plan: Plan, context: UnlockContext, ephemeral: PointBytes): (r: Result<PartialBytes>)
    ensures r.Ok? <==> InPlan(share, plan) && DecodePoint(ephemeral).Ok?
    ensures r.Ok? ==> share.inner.verifyingKey == plan.storageKey && share.Threshold() == plan.threshold
                      && plan.shares.Get(share.holder) == Some(share.inner.verifyingShare)
    ensures r.Ok? ==> r.value.Partial? && r.value.point == Encoding(Mul(ephemeral.point, share.Secret()))
    ensures r.Err? ==> r.error == if InPlan(share, plan) then InvalidArgument else ShareMismatch
  {
    var _ :- CheckInPlan(share, plan);
    var base :- DecodePoint(ephemeral);
    var transcript := Transcript(context, plan.storageKey, share.holder, ephemeral);
    Ok(Partial(Encoding(Mul(base, share.Secret())), prove(share.Secret(), base, transcript)))
  }

  function VerifyPartial(accepts: Verifier, plan: Plan, context: UnlockContext, ephemeral: PointBytes,
                         holder: HolderId, partial: PartialBytes): (r: Result<Point>)
    ensures r.Ok? ==> holder in plan.shares.keys && ephemeral.Encoding? && !IsIdentity(r.value)
    ensures r.Ok? && Sound(accepts) ==> r.value == Mul(ephemeral.point, plan.shares.Get(holder).value.log)
    ensures r.Err? ==> r.error == if partial.WrongLength? || DecodePoint(ephemeral).Err? then InvalidArgument else Proof
  {
    if partial.WrongLength? then Err(InvalidArgument)
    else
      var base :- DecodePoint(ephemeral);
      var commitment := plan.shares.Get(holder);
      if commitment.None? then Err(Proof)
      else
        var point := DecodePoint(partial.point);
        if point.Err? then Err(Proof)
        else if !accepts(base, commitment.value, point.value,
                         Transcript(context, plan.storageKey, holder, ephemeral), partial.proof) then Err(Proof)
        else point
  }

  // Combination

  /** Points `k·s_i·G` of at least `t` holders of a consistent plan interpolate to `k·S`. */
  lemma {:induction false} PartialsInterpolate(plan: Plan, points: OrderedMap<Point>, base: Point)
    requires Consistent(plan) && points.Valid() && plan.threshold <= |points.keys|
    requires forall i :: 0 <= i < |points.keys| ==>
      points.keys[i] in plan.shares.keys
      && points.values[i] == Mul(base, plan.shares.Get(points.keys[i]).value.log)
    ensures Interpolated(points, 0) == Mul(plan.storageKey, base.log)
  {
    var f :| Carries(f, plan);
    var k := base.log;
    var g := Combine(k, f, 0, []);
    forall i | 0 <= i < |points.keys|
      ensures Same(points.values[i].log, Eval(g, points.keys[i]))
    {
      var h := points.keys[i];
      EvalCombine(k, f, 0, [], h);
      var j :| 0 <= j < |plan.shares.keys| && plan.shares.keys[j] == h;
      ScaledLog(plan.shares.values[j].log, k, Eval(f, h));
    }
    InterpolatedIsExact(g, points, 0);
    EvalCombine(k, f, 0, [], 0);
    ScaledKey(plan.storageKey.log, k, Eval(f, 0));
  }

  lemma ScaledLog(s: Scalar, k: Scalar, y: int)
    requires Same(s, y)
    ensures Same(Residue(s * k), k * y)
  {
    SameScaled(s, y, k);
    ResidueIsSame(s * k);
    SameIsTransitive(Residue(s * k), s * k, y * k);
  }

  lemma ScaledKey(s: Scalar, k: Scalar, y: int)
    requires Same(s, y)
    ensures Residue(k * y) == Residue(k * s)
  {
    SameScaled(s, y, k);
    SameIffEqualResidues(s * k, y * k);
  }

  ghost predicate AllVerify(accepts: Verifier, plan: Plan, context: UnlockContext, ephemeral: PointBytes, partials: OrderedMap<PartialBytes>)
    requires partials.Valid()
  {
    forall i :: 0 <= i < |partials.keys| ==>
      VerifyPartial(accepts, plan, context, ephemeral, partials.keys[i], partials.values[i]).Ok?
  }

  /** Succeeds exactly when enough partials were given and all verify. On a consistent
      plan the result depends on neither the holders nor their number: it is the shared
      point of whoever encapsulated with `ephemeral`. */
  method CombinePartials(accepts: Verifier, plan: Plan, context: UnlockContext, ephemeral: PointBytes, partials: OrderedMap<PartialBytes>)
    returns (r: Result<PointBytes>)
    requires partials.Valid()
    ensures r.Ok? <==> DecodePoint(ephemeral).Ok? && plan.threshold <= |partials.keys|
                       && AllVerify(accepts, plan, context, ephemeral, partials)
    ensures r.Ok? && Sound(accepts) && Consistent(plan) ==>
              r.value == Encoding(Mul(plan.storageKey, ephemeral.point.log))
    ensures DecodePoint(ephemeral).Ok? && |partials.keys| < plan.threshold ==> r == Err(BelowThreshold)
  {
    hide Consistent, Interpolated, Mul, Sound, VerifyPartial;
    var base :- DecodePoint(ephemeral);
    if |partials.keys| < plan.threshold {
      return Err(BelowThreshold);
    }
    var points: OrderedMap<Point> := OrderedMap([], []);
    for i := 0 to |partials.keys|
      invariant points.keys == partials.keys[..i] && |points.values| == i
      invariant forall k :: 0 <= k < i ==>
        VerifyPartial(accepts, plan, context, ephemeral, partials.keys[k], partials.values[k]) == Ok(points.values[k])
    {
      var point :- VerifyPartial(accepts, plan, context, ephemeral, partials.keys[i], partials.values[i]);
      points := OrderedMap(points.keys + [partials.keys[i]], points.values + [point]);
    }
    assert points.keys == partials.keys;
    var shared := Interpolate(points, None);
    if Sound(accepts) && Consistent(plan) {
      PartialsInterpolate(plan, points, base);
    }
    return Ok(Encoding(shared.value));
  }

  /** Honest partials of at least `t` holders verify exactly when no share among them is
      zero: the partial of a zero share is the identity, which the requester rejects. */
  lemma {:induction false} HonestPartialVerifies(
    prove: Prover, accepts: Verifier, share: Share, plan: Plan, context: UnlockContext, ephemeral: PointBytes)
    requires Complete(prove, accepts) && Sound(accepts)
    requires share.Valid() && InPlan(share, plan) && DecodePoint(ephemeral).Ok?
    ensures VerifyPartial(accepts, plan, context, ephemeral, share.holder,
                          CreatePartial(prove, share, plan, context, ephemeral).value).Ok?
            <==> share.Secret() != 0
  {
    var base, s := ephemeral.point, share.Secret();
    var partial := CreatePartial(prove, share, plan, context, ephemeral).value;
    assert plan.shares.Get(share.holder) == Some(MulBase(s));
    assert accepts(base, MulBase(s), Mul(base, s), Transcript(context, plan.storageKey, share.holder, ephemeral), partial.proof);
    assert IsIdentity(Mul(base, s)) <==> s == 0 by {
      if IsZero(s * base.log) {
        NoZeroDivisors(s, base.log);
        if IsZero(s) { SmallZero(s); } else { SmallZero(base.log); }
      }
      MultipleIsZero(0, 0 * base.log);
    }
  }

  /** What a partial is good for, whoever made it for whatever request: it verifies exactly for
      the request, the base, the holder and the storage key it was made for, under a plan in
      which that share is still the holder's, if it is not zero. */
  lemma {:induction false} PartialIsBound(
    prove: Prover, accepts: Verifier, share: Share, plan: Plan, context: UnlockContext, ephemeral: PointBytes,
    plan': Plan, context': UnlockContext, ephemeral': PointBytes, holder: HolderId)
    requires Complete(prove, accepts) && Sound(accepts) && Binding(prove, accepts)
    requires share.Valid() && InPlan(share, plan) && DecodePoint(ephemeral).Ok?
    ensures VerifyPartial(accepts, plan', context', ephemeral', holder,
                          CreatePartial(prove, share, plan, context, ephemeral).value).Ok?
      <==> && context'.networkId == context.networkId && context'.epoch == context.epoch
           && context'.planDigest == context.planDigest && context'.requestNonce == context.requestNonce
           && ephemeral' == ephemeral && holder == share.holder && plan'.storageKey == plan.storageKey
           && plan'.shares.Get(holder) == Some(MulBase(share.Secret())) && share.Secret() != 0
  {
    hide Complete, Binding, Sound;
    var s, partial := share.Secret(), CreatePartial(prove, share, plan, context, ephemeral).value;
    HonestPartialVerifies(prove, accepts, share, plan, context, ephemeral);
    assert plan.shares.Get(share.holder) == Some(MulBase(s));
    if VerifyPartial(accepts, plan', context', ephemeral', holder, partial).Ok? {
      var commitment := plan'.shares.Get(holder).value;
      BoundProof(prove, accepts, ephemeral'.point, commitment, partial.point.point, s, ephemeral.point,
                 Transcript(context', plan'.storageKey, holder, ephemeral'), Transcript(context, plan.storageKey, share.holder, ephemeral));
      SameMultiple(ephemeral.point, commitment.log, s);
      assert s != 0 by { MultipleIsZero(0, 0 * ephemeral.point.log); }
    }
  }

  lemma {:induction false} BoundProof(
    prove: Prover, accepts: Verifier, base: Point, commitment: Point, partial: Point, s: Scalar, b: Point, transcript: Transcript, own: Transcript)
    requires Sound(accepts) && Binding(prove, accepts) && accepts(base, commitment, partial, transcript, prove(s, b, own))
    ensures transcript == own && partial == Mul(base, commitment.log)
  {
  }

  /** Multiples of a point other than the identity tell scalars apart. */
  lemma {:induction false} SameMultiple(base: Point, a: Scalar, b: Scalar)
    requires !IsIdentity(base) && Mul(base, a) == Mul(base, b)
    ensures a == b
  {
    SameIffEqualResidues(a * base.log, b * base.log);
    assert a * base.log - b * base.log == (a - b) * base.log;
    NoZeroDivisors(a - b, base.log);
    if IsZero(base.log) {
      SmallZero(base.log);
    } else {
      SmallZero(a - b);
    }
  }

  lemma {:induction false} LineValue(x: int)
    ensures Eval([-1, 1], x) == x - 1
  {
    assert [-1, 1][1..] == [1] && [1][1..] == [];
    assert Eval([1], x) == 1 + x * Eval([], x);
  }

  lemma {:induction false} LinePlan() returns (plan: Plan)
    ensures plan == PlanData(2, OrderedMap([1, 2, 3], [Point(0), Point(1), Point(2)]), Point(Residue(-1)))
    ensures Carries([-1, 1], plan)
  {
    hide Eval, Residue;
    plan := PlanData(2, OrderedMap([1, 2, 3], [Point(0), Point(1), Point(2)]), Point(Residue(-1)));
    ResidueIsSame(-1);
    LineValue(0);
    LineValue(1);
    LineValue(2);
    LineValue(3);
    MultipleIsZero(0, 0);
  }

  /** A consistent plan of three holders with a zero share, so that the condition above is
      not always met. */
  lemma {:induction false} ZeroShareExists() returns (plan: Plan, share: Share)
    ensures Consistent(plan) && !IsIdentity(plan.storageKey)
    ensures share.Valid() && InPlan(share, plan) && share.Secret() == 0
  {
    hide Carries;
    plan := LinePlan();
    share := Share(1, KeyPackage(1, 0, Point(0), plan.storageKey, 2));
  }

  // Fewer than `t` holders

  lemma {:induction false} ZeroJoinsKeys(points: OrderedMap<Point>)
    requires points.Valid() && 0 !in points.keys
    ensures Distinct([0] + points.keys)
  {
    var nodes := [0] + points.keys;
    KeysAreDistinct(points);
    forall i, j | 0 <= i < j < |nodes| ensures !IsZero(nodes[j] - nodes[i]) {
      if i == 0 {
        assert nodes[j] == points.keys[j - 1];
        NearIsApart(0, nodes[j]);
      } else {
        assert nodes[i] == points.keys[i - 1] && nodes[j] == points.keys[j - 1];
      }
    }
  }

  /** Any shares of fewer than `t` holders and any key lie on one polynomial of `t`
      coefficients. */
  lemma {:induction false} FewerFitEveryKey(points: OrderedMap<Point>, key: Point, t: nat) returns (f: Poly)
    requires points.Valid() && 0 !in points.keys && |points.keys| < t
    ensures |f| == t && Same(key.log, Eval(f, 0)) && OnPolynomial(f, points)
  {
    hide Eval, Pad, Same, IsZero;
    var nodes, logs := [0] + points.keys, [key.log] + Logs(points.values);
    ZeroJoinsKeys(points);
    var p := InterpolantExists(nodes, logs);
    f := Pad(p, t);
    assert nodes[0] == 0 && logs[0] == key.log;
    EvalPad(p, t, 0);
    SameIsSymmetric(Eval(p, 0), key.log);
    forall i | 0 <= i < |points.keys| ensures Same(points.values[i].log, Eval(f, points.keys[i])) {
      assert nodes[i + 1] == points.keys[i] && logs[i + 1] == points.values[i].log;
      EvalPad(p, t, points.keys[i]);
      SameIsSymmetric(Eval(p, points.keys[i]), points.values[i].log);
    }
  }

  /** For `t - 1` holders it is one polynomial per key, so their shares favour no key. */
  lemma {:induction false} OneForEachKey(points: OrderedMap<Point>, key: Point, f: Poly, g: Poly)
    requires points.Valid() && 0 !in points.keys && |f| == |g| == |points.keys| + 1
    requires Same(key.log, Eval(f, 0)) && OnPolynomial(f, points)
    requires Same(key.log, Eval(g, 0)) && OnPolynomial(g, points)
    ensures Reduce(f) == Reduce(g)
  {
    var nodes, logs := [0] + points.keys, [key.log] + Logs(points.values);
    ZeroJoinsKeys(points);
    forall i | 0 <= i < |nodes| ensures Same(Eval(f, nodes[i]), Eval(g, nodes[i])) {
      assert nodes[i] == if i == 0 then 0 else points.keys[i - 1];
      SameIsSymmetric(logs[i], Eval(f, nodes[i]));
      SameIsTransitive(Eval(f, nodes[i]), logs[i], Eval(g, nodes[i]));
    }
    AgreementIsIdentity(f, g, nodes);
  }

  /** The shares of these holders. */
  function Restricted(plan: Plan, ids: seq<int>): (points: OrderedMap<Point>)
    requires forall i :: 0 <= i < |ids| ==> ids[i] in plan.shares.keys
    ensures points.keys == ids && |points.values| == |ids|
    ensures forall i :: 0 <= i < |ids| ==> Some(points.values[i]) == plan.shares.Get(ids[i])
  {
    OrderedMap(ids, seq(|ids|, i requires 0 <= i < |ids| => plan.shares.Get(ids[i]).value))
  }

  ghost predicate Ascending(ids: seq<int>) {
    forall i, j :: 0 <= i < j < |ids| ==> ids[i] < ids[j]
  }

  /** The plan that a polynomial makes for the same holders. */
  function PlanOn(f: Poly, plan: Plan, key: Point): (other: Plan)
    ensures other.threshold == plan.threshold && other.shares.keys == plan.shares.keys && other.storageKey == key
    ensures forall i :: 0 <= i < |plan.shares.keys| ==> other.shares.values[i] == Point(Residue(Eval(f, plan.shares.keys[i])))
  {
    var keys := plan.shares.keys;
    PlanData(plan.threshold, OrderedMap(keys, seq(|keys|, i requires 0 <= i < |keys| => Point(Residue(Eval(f, keys[i]))))), key)
  }

  /** Fewer than `t` holders determine nothing: for a base other than the identity and any
      point whatever there is a consistent plan with the same holders and threshold that gives
      these holders the same shares, hence the same partials, and has that point as what the
      partials of `t` holders combine to. */
  lemma {:induction false} FewerFitEveryPoint(plan: Plan, ids: seq<int>, base: Point, shared: Point) returns (other: Plan)
    requires |ids| < plan.threshold && Ascending(ids) && forall i :: 0 <= i < |ids| ==> ids[i] in plan.shares.keys
    requires !IsIdentity(base)
    ensures Consistent(other) && other.threshold == plan.threshold && other.shares.keys == plan.shares.keys
    ensures forall i :: 0 <= i < |ids| ==> other.shares.Get(ids[i]) == plan.shares.Get(ids[i])
    ensures Mul(other.storageKey, base.log) == shared
  {
    hide Eval;
    var key := Divided(shared, base);
    var points := Restricted(plan, ids);
    HoldersAreProper(plan, ids);
    var f := FewerFitEveryKey(points, key, plan.threshold);
    other := PlanOn(f, plan, key);
    PlanOnIsCarried(f, plan, key);
    forall i | 0 <= i < |ids| ensures other.shares.Get(ids[i]) == plan.shares.Get(ids[i]) {
      var j :| 0 <= j < |plan.shares.keys| && plan.shares.keys[j] == ids[i];
      SameIsPoint(points.values[i], Eval(f, ids[i]));
      assert other.shares.values[j] == points.values[i];
    }
  }

  lemma {:induction false} HoldersAreProper(plan: Plan, ids: seq<int>)
    requires Ascending(ids) && forall i :: 0 <= i < |ids| ==> ids[i] in plan.shares.keys
    ensures Restricted(plan, ids).Valid() && 0 !in ids
  {
  }

  lemma {:induction false} SameIsPoint(p: Point, y: int)
    requires Same(p.log, y)
    ensures p == Point(Residue(y))
  {
    SameIffEqualResidues(p.log, y);
    PointIsReduced(p);
  }

  lemma {:induction false} PlanOnIsCarried(f: Poly, plan: Plan, key: Point)
    requires |f| == plan.threshold && Same(key.log, Eval(f, 0))
    ensures Carries(f, PlanOn(f, plan, key))
  {
    hide Eval, Residue, Same;
    var keys := plan.shares.keys;
    forall i | 0 <= i < |keys| ensures Same(Residue(Eval(f, keys[i])), Eval(f, keys[i])) {
      ResidueIsSame(Eval(f, keys[i]));
    }
  }

  /** The point that the base scalar takes to `p`. */
  function Divided(p: Point, base: Point): (q: Point)
    requires !IsIdentity(base)
    ensures Mul(q, base.log) == p
  {
    var inverse := Inverse(base.log);
    DivisionOfPoint(p, base.log, inverse);
    Point(Residue(p.log * inverse))
  }

  lemma {:induction false} DivisionOfPoint(p: Point, b: Scalar, inverse: Scalar)
    requires Same(b * inverse, 1)
    ensures Mul(Point(Residue(p.log * inverse)), b) == p
  {
    var q := p.log * inverse;
    ResidueIsSame(q);
    SameScaled(Residue(q), q, b);
    SameScaled(b * inverse, 1, p.log);
    assert q * b == (b * inverse) * p.log;
    SameIsTransitive(Residue(q) * b, q * b, p.log);
    assert b * Residue(q) == Residue(q) * b;
    SameIsSymmetric(b * Residue(q), p.log);
    SameIsPoint(p, b * Residue(q));
  }

  /** A point encapsulated under the first plan of any run of accepted refreshes and
      enrollments is what any `t` accepted partials of the last plan combine to. */
  lemma {:induction false} UnlockAfterRun(
    run: seq<Holding>, r: Scalar, points: OrderedMap<Point>, accepts: Verifier, context: UnlockContext, partials: OrderedMap<PartialBytes>)
    requires 0 < |run| && Sane(run[0]) && r != 0 && Sound(accepts)
    requires forall i :: 0 < i < |run| ==> HoldingStep(run[i - 1], run[i])
    requires !IsIdentity(run[0].plan.storageKey)
    requires partials.Valid() && points.Valid() && points.keys == partials.keys
    requires var last := run[|run| - 1].plan;
      && last.threshold <= |partials.keys|
      && forall i :: 0 <= i < |partials.keys| ==>
           VerifyPartial(accepts, last, context, Encapsulate(Encoding(run[0].plan.storageKey), r).value.0,
                         partials.keys[i], partials.values[i]) == Ok(points.values[i])
    ensures Encoding(Interpolated(points, 0)) == Encapsulate(Encoding(run[0].plan.storageKey), r).value.1
  {
    hide HoldingStep, Interpolated, Consistent;
    RunStaysSane(run, |run| - 1);
    PartialsInterpolate(run[|run| - 1].plan, points, MulBase(r));
  }
}

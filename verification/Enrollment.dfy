/** Enrolling a holder: the helpers rebuild its share without revealing theirs. */
module Enrollment {
  import opened Options
  import opened StorageErrors
  import opened ThresholdParams
  import opened OrderedMaps
  import opened Scalars
  import opened Polynomials
  import opened Interpolation
  import opened HolderPlan
  import opened StorageKeys

  function Sum(xs: seq<int>): (y: int) {
    if xs == [] then 0 else xs[0] + Sum(xs[1..])
  }

  // Sums of double indices

  /** Entry-wise sum of two rows. */
  function AddRows(a: seq<int>, b: seq<int>): (r: seq<int>)
    requires |a| == |b|
    ensures |r| == |a| && forall i :: 0 <= i < |a| ==> r[i] == a[i] + b[i]
  {
    seq(|a|, i requires 0 <= i < |a| => a[i] + b[i])
  }

  ghost predicate Rectangular<T>(rows: seq<seq<T>>, n: nat) {
    forall i :: 0 <= i < |rows| ==> |rows[i]| == n
  }

  /** The sum of every column. */
  function ColumnSums(rows: seq<seq<int>>, n: nat): (r: seq<int>)
    requires Rectangular(rows, n)
    ensures |r| == n
  {
    if rows == [] then seq(n, _ => 0)
    else
      assert Rectangular(rows[1..], n) by {
        assert forall i :: 0 <= i < |rows| - 1 ==> rows[1..][i] == rows[i + 1];
      }
      AddRows(rows[0], ColumnSums(rows[1..], n))
  }

  function RowSums(rows: seq<seq<int>>): (r: seq<int>)
    ensures |r| == |rows| && forall i :: 0 <= i < |rows| ==> r[i] == Sum(rows[i])
  {
    seq(|rows|, i requires 0 <= i < |rows| => Sum(rows[i]))
  }

  lemma {:induction false} SumOfZeros(n: nat)
    ensures Sum(seq(n, _ => 0)) == 0
  {
    if 0 < n {
      SumOfZeros(n - 1);
      assert seq(n, _ => 0)[1..] == seq(n - 1, _ => 0);
    }
  }

  lemma {:induction false} SumOfAddedRows(a: seq<int>, b: seq<int>)
    requires |a| == |b|
    ensures Sum(AddRows(a, b)) == Sum(a) + Sum(b)
  {
    if a != [] {
      SumOfAddedRows(a[1..], b[1..]);
      assert AddRows(a, b)[1..] == AddRows(a[1..], b[1..]);
    }
  }

  /** Summing by columns and by rows gives the same total. */
  lemma {:induction false} ExchangeSums(rows: seq<seq<int>>, n: nat)
    requires Rectangular(rows, n)
    ensures Sum(ColumnSums(rows, n)) == Sum(RowSums(rows))
  {
    if rows == [] {
      SumOfZeros(n);
    } else {
      ExchangeSums(rows[1..], n);
      SumOfAddedRows(rows[0], ColumnSums(rows[1..], n));
      assert RowSums(rows)[1..] == RowSums(rows[1..]);
    }
  }

  /** Two lists of the same elements have the same sum. */
  lemma {:induction false} SameSums(xs: seq<int>, ys: seq<int>)
    requires |xs| == |ys| && forall i :: 0 <= i < |xs| ==> Same(xs[i], ys[i])
    ensures Same(Sum(xs), Sum(ys))
  {
    if xs == [] {
      MultipleIsZero(0, 0);
    } else {
      SameSums(xs[1..], ys[1..]);
      SameSum(xs[0], ys[0], Sum(xs[1..]), Sum(ys[1..]));
    }
  }

  lemma {:induction false} SumAppend(xs: seq<int>, y: int)
    ensures Sum(xs + [y]) == Sum(xs) + y
  {
    if xs == [] {
      assert Sum([y]) == y + Sum([]);
    } else {
      SumAppend(xs[1..], y);
      assert (xs + [y])[1..] == xs[1..] + [y];
    }
  }

  // Helper sets

  /** A list collected into an ordered set. */
  function Collect(xs: seq<HolderId>): (s: seq<int>)
    ensures forall x :: x in s <==> x in xs
    ensures forall i, j :: 0 <= i < j < |s| ==> s[i] < s[j]
    ensures |s| <= |xs|
  {
    if xs == [] then [] else InsertOrdered(xs[0], Collect(xs[1..]))
  }

  function InsertOrdered(x: int, s: seq<int>): (r: seq<int>)
    requires forall i, j :: 0 <= i < j < |s| ==> s[i] < s[j]
    ensures forall y :: y in r <==> y == x || y in s
    ensures forall i, j :: 0 <= i < j < |r| ==> r[i] < r[j]
    ensures |r| <= |s| + 1
    ensures r != [] && r[0] == if s == [] || x < s[0] then x else s[0]
  {
    if s == [] || x < s[0] then [x] + s
    else if x == s[0] then s
    else [s[0]] + InsertOrdered(x, s[1..])
  }

  ghost predicate NoRepeats(xs: seq<HolderId>) {
    forall i, j :: 0 <= i < j < |xs| ==> xs[i] != xs[j]
  }

  lemma {:induction false} NoRepeatsStep(xs: seq<HolderId>)
    requires xs != []
    ensures NoRepeats(xs) <==> xs[0] !in xs[1..] && NoRepeats(xs[1..])
  {
    var rest := xs[1..];
    assert forall i :: 0 <= i < |rest| ==> rest[i] == xs[i + 1];
    assert forall j :: 0 < j < |xs| ==> xs[j] == rest[j - 1];
  }

  lemma {:induction false} CollectedOnce(xs: seq<HolderId>)
    ensures |Collect(xs)| == |xs| <==> NoRepeats(xs)
  {
    if xs != [] {
      CollectedOnce(xs[1..]);
      InsertedSize(xs[0], Collect(xs[1..]));
      NoRepeatsStep(xs);
    }
  }

  lemma {:induction false} InsertedSize(x: int, s: seq<int>)
    requires forall i, j :: 0 <= i < j < |s| ==> s[i] < s[j]
    ensures |InsertOrdered(x, s)| == if x in s then |s| else |s| + 1
  {
    if s != [] && s[0] < x {
      InsertedSize(x, s[1..]);
      assert x in s <==> x in s[1..];
    } else if s != [] && x < s[0] {
      assert x !in s;
    }
  }

  // Step 1

  /** The helpers are distinct holders, this one among them, and the new holder is none. */
  ghost predicate FitHelpers(helper: Share, plan: Plan, helpers: seq<HolderId>, newHolder: HolderId) {
    var ids := Collect(helpers);
    && newHolder != 0 && newHolder !in plan.shares.keys
    && |ids| == |helpers|
    && helper.holder in ids
    && forall i :: 0 <= i < |ids| ==> ids[i] in plan.shares.keys
  }

  /** What a helper checks before it splits its share. */
  ghost predicate HelperGuards(helper: Share, plan: Plan, helpers: seq<HolderId>, newHolder: HolderId) {
    InPlan(helper, plan) && FitHelpers(helper, plan, helpers, newHolder) && plan.threshold <= |Collect(helpers)|
  }

  /** The guards of step 1 spelled out: the helpers are at least a threshold of distinct holders
      of the plan, this one among them with its current share, and the new holder is none. */
  lemma {:induction false} HelperGuardsExactly(helper: Share, plan: Plan, helpers: seq<HolderId>, newHolder: HolderId)
    ensures HelperGuards(helper, plan, helpers, newHolder)
      <==> && (plan.threshold == helper.Threshold() && plan.storageKey == helper.inner.verifyingKey)
           && plan.shares.Get(helper.holder) == Some(helper.inner.verifyingShare)
           && newHolder != 0 && newHolder !in plan.shares.keys
           && (forall i, j :: 0 <= i < j < |helpers| ==> helpers[i] != helpers[j])
           && helper.holder in helpers && plan.threshold <= |helpers|
           && forall i :: 0 <= i < |helpers| ==> helpers[i] in plan.shares.keys
  {
    hide Collect;
    CollectedOnce(helpers);
    var ids := Collect(helpers);
    if forall i :: 0 <= i < |helpers| ==> helpers[i] in plan.shares.keys {
      forall i | 0 <= i < |ids| ensures ids[i] in plan.shares.keys {
        assert ids[i] in helpers;
      }
    } else if forall i :: 0 <= i < |ids| ==> ids[i] in plan.shares.keys {
      forall i | 0 <= i < |helpers| ensures helpers[i] in plan.shares.keys {
        assert helpers[i] in ids;
      }
    }
  }

  /** Step 1 with the library's deltas. */
  method RepairPart1(helper: Share, plan: Plan, helpers: seq<HolderId>, newHolder: HolderId, deltas: seq<Scalar>)
    returns (r: Result<OrderedMap<Scalar>>)
    requires |deltas| == |Collect(helpers)|
    ensures r.Ok? <==> HelperGuards(helper, plan, helpers, newHolder)
    ensures r.Ok? ==> r.value == OrderedMap(Collect(helpers), deltas)
    ensures r.Err? ==> r.error == if !InPlan(helper, plan) then ShareMismatch
                                  else if FitHelpers(helper, plan, helpers, newHolder) then BelowThreshold
                                  else InvalidArgument
  {
    var inPlan := CheckInPlan(helper, plan);
    if inPlan.Err? {
      return Err(inPlan.error);
    }
    if newHolder == 0 || newHolder in plan.shares.keys {
      return Err(InvalidArgument);
    }
    var ids := Collect(helpers);
    if |ids| != |helpers| || helper.holder !in ids {
      return Err(InvalidArgument);
    }
    if exists i :: 0 <= i < |ids| && ids[i] !in plan.shares.keys {
      return Err(InvalidArgument);
    }
    if |ids| < plan.threshold {
      return Err(BelowThreshold);
    }
    var out := KeyByRecipient(ids, deltas);
    return Ok(out);
  }

  method KeyByRecipient(ids: seq<int>, deltas: seq<Scalar>) returns (out: OrderedMap<Scalar>)
    requires |ids| == |deltas|
    ensures out == OrderedMap(ids, deltas)
  {
    out := OrderedMap([], []);
    for i := 0 to |ids|
      invariant out.keys == ids[..i] && out.values == deltas[..i]
    {
      out := OrderedMap(out.keys + [ids[i]], out.values + [deltas[i]]);
    }
  }

  // Steps 2 and 3 add scalars

  type ScalarMessages = OrderedMap<WireMessage<Scalar>>

  function Contents(messages: seq<WireMessage<Scalar>>): (r: seq<Scalar>)
    requires Parsable(messages)
    ensures |r| == |messages| && forall i :: 0 <= i < |r| ==> r[i] == messages[i].value
  {
    seq(|messages|, i requires 0 <= i < |messages| => messages[i].value)
  }

  /** The error of the first message that is not a scalar. */
  function ScalarRefusal(messages: seq<WireMessage<Scalar>>): Option<StorageError> {
    if messages == [] then None
    else match messages[0]
      case BadLength => Some(InvalidArgument)
      case Undecodable => Some(Serialization)
      case Message(_) => ScalarRefusal(messages[1..])
  }

  /** The first message that is not a scalar decides the error. */
  lemma {:induction false} FirstBadScalar(messages: seq<WireMessage<Scalar>>, i: nat)
    requires i < |messages| && !messages[i].Message? && forall j :: 0 <= j < i ==> messages[j].Message?
    ensures ScalarRefusal(messages) == Some(if messages[i].Undecodable? then Serialization else InvalidArgument)
  {
    if 0 < i {
      FirstBadScalar(messages[1..], i - 1);
    }
  }

  method ParseScalars(messages: ScalarMessages) returns (r: Result<seq<Scalar>>)
    requires messages.Valid()
    ensures r.Ok? <==> Parsable(messages.values)
    ensures r.Ok? ==> r.value == Contents(messages.values)
    ensures ScalarRefusal(messages.values) == if r.Ok? then None else Some(r.error)
  {
    var scalars: seq<Scalar> := [];
    for i := 0 to |messages.values|
      invariant |scalars| == i
      invariant ScalarRefusal(messages.values) == ScalarRefusal(messages.values[i..])
      invariant forall k :: 0 <= k < i ==> messages.values[k].Message? && scalars[k] == messages.values[k].value
    {
      assert messages.values[i..][1..] == messages.values[i + 1..];
      match messages.values[i]
      case BadLength =>
        return Err(InvalidArgument);
      case Undecodable =>
        return Err(Serialization);
      case Message(scalar) =>
        scalars := scalars + [scalar];
    }
    r := Ok(scalars);
  }

  method RepairPart2(helper: Share, deltas: ScalarMessages) returns (r: Result<Scalar>)
    requires deltas.Valid()
    ensures r.Ok? <==> helper.Threshold() <= |deltas.keys| && Parsable(deltas.values)
    ensures r.Ok? ==> r.value == Residue(Sum(Contents(deltas.values)))
    ensures r.Err? ==> Some(r.error) == if |deltas.keys| < helper.Threshold() then Some(BelowThreshold)
                                        else ScalarRefusal(deltas.values)
  {
    if |deltas.keys| < helper.Threshold() {
      return Err(BelowThreshold);
    }
    var scalars :- ParseScalars(deltas);
    return Ok(Residue(Sum(scalars)));
  }

  /** The checks of step 3 other than the share itself. */
  ghost predicate EnrollGuards(plan: Plan, newHolder: HolderId, sigmas: ScalarMessages) {
    && newHolder != 0 && newHolder !in plan.shares.keys
    && (forall h :: h in sigmas.keys ==> h in plan.shares.keys)
    && plan.threshold <= |sigmas.keys|
    && Parsable(sigmas.values)
  }

  /** The error of the first check of step 3 that fails. */
  ghost function EnrollRefusal(plan: Plan, newHolder: HolderId, sigmas: ScalarMessages): StorageError
    requires sigmas.Valid()
  {
    if newHolder == 0 || newHolder in plan.shares.keys || exists h :: h in sigmas.keys && h !in plan.shares.keys then InvalidArgument
    else if |sigmas.keys| < plan.threshold then BelowThreshold
    else if Consistent(plan) && ScalarRefusal(sigmas.values).Some? then ScalarRefusal(sigmas.values).value
    else Crypto
  }

  /** Step 3 accepts these sigmas and returns this share. */
  ghost predicate EnrollAccepted(plan: Plan, newHolder: HolderId, sigmas: ScalarMessages, share: Share) {
    && sigmas.Valid() && Consistent(plan) && EnrollGuards(plan, newHolder, sigmas)
    && share.Valid()
    && share == Share(newHolder, KeyPackage(newHolder, Residue(Sum(Contents(sigmas.values))), OldCommitment(plan, newHolder),
                                            plan.storageKey, plan.threshold))
  }

  /** Step 3 accepts arbitrary sigmas exactly when they add up to the new holder's point
      on the plan's polynomial, and then returns that point as the share. */
  method RepairPart3(plan: Plan, newHolder: HolderId, sigmas: ScalarMessages) returns (r: Result<Share>)
    requires sigmas.Valid()
    ensures forall f :: Carries(f, plan) ==>
      (r.Ok? <==> EnrollGuards(plan, newHolder, sigmas)
                  && Same(Sum(Contents(sigmas.values)), Eval(f, newHolder)))
    ensures forall f :: Carries(f, plan) && r.Ok? ==>
      && r.value.Valid() && r.value.holder == newHolder && r.value.Threshold() == plan.threshold
      && r.value.Secret() == Residue(Eval(f, newHolder))
      && r.value.inner.verifyingShare == OldCommitment(plan, newHolder)
      && r.value.inner.verifyingKey == plan.storageKey
    ensures var fit := newHolder != 0 && newHolder !in plan.shares.keys && forall h :: h in sigmas.keys ==> h in plan.shares.keys;
      (!fit ==> r == Err(InvalidArgument)) && (fit && |sigmas.keys| < plan.threshold ==> r == Err(BelowThreshold))
    ensures r.Ok? ==> EnrollAccepted(plan, newHolder, sigmas, r.value)
    ensures r.Err? ==> r.error == EnrollRefusal(plan, newHolder, sigmas)
                       && forall share :: !EnrollAccepted(plan, newHolder, sigmas, share)
  {
    if newHolder == 0 || newHolder in plan.shares.keys {
      return Err(InvalidArgument);
    }
    if exists h :: h in sigmas.keys && h !in plan.shares.keys {
      return Err(InvalidArgument);
    }
    if |sigmas.keys| < plan.threshold {
      return Err(BelowThreshold);
    }
    var valid := Validate(plan);
    if valid.Err? {
      return Err(valid.error);
    }
    var expected := InterpolateShare(plan, newHolder);
    var scalars :- ParseScalars(sigmas);
    var secret := Residue(Sum(scalars));
    r := FromKeyPackage(KeyPackage(newHolder, secret, expected.value, plan.storageKey, plan.threshold));
    forall f | Carries(f, plan)
      ensures r.Ok? <==> Same(Sum(scalars), Eval(f, newHolder))
      ensures expected.value == OldCommitment(plan, newHolder)
    {
      InterpolatedIsExact(f, BasePoints(plan), newHolder);
      SameIffEqualResidues(Sum(scalars), Eval(f, newHolder));
      assert IsPlanThreshold(plan.threshold) by { assert ThresholdFor(|plan.shares.keys|) == Some(plan.threshold); }
    }
  }

  // Honest helpers always succeed

  /** The honest run: helper `i` splits its share into row `i`, helper `j` adds up
      column `j`. */
  function Sigmas(rows: seq<seq<int>>, n: nat): (r: seq<Scalar>)
    requires Rectangular(rows, n)
    ensures |r| == n
  {
    Reduce(ColumnSums(rows, n))
  }

  /** What helper `j` receives. */
  function Column(rows: seq<seq<int>>, n: nat, j: nat): (c: seq<int>)
    requires Rectangular(rows, n) && j < n
    ensures |c| == |rows| && forall i :: 0 <= i < |rows| ==> c[i] == rows[i][j]
  {
    seq(|rows|, i requires 0 <= i < |rows| => rows[i][j])
  }

  /** Its sigma is the sum that `RepairPart2` returns for them. */
  lemma {:induction false} SigmaIsColumnSum(rows: seq<seq<int>>, n: nat, j: nat)
    requires Rectangular(rows, n) && j < n
    ensures ColumnSums(rows, n)[j] == Sum(Column(rows, n, j))
    ensures Sigmas(rows, n)[j] == Residue(Sum(Column(rows, n, j)))
  {
    if rows != [] {
      var rest := rows[1..];
      assert Rectangular(rest, n);
      SigmaIsColumnSum(rest, n, j);
      assert Column(rows, n, j)[1..] == Column(rest, n, j);
    }
  }

  /** Helpers, shares and deltas of one enrollment. The library contract of step 1: the
      deltas of a helper, one for each helper in ascending order, add up to its share
      times its Lagrange coefficient. */
  ghost predicate HonestHelpers(plan: Plan, f: Poly, ids: seq<int>, secrets: seq<Scalar>, rows: seq<seq<int>>, newHolder: HolderId) {
    && OrderedMap(ids, secrets).Valid() && |rows| == |ids| && Rectangular(rows, |ids|)
    && plan.threshold <= |ids|
    && (forall i :: 0 <= i < |ids| ==> ids[i] in plan.shares.keys && Same(secrets[i], Eval(f, ids[i])))
    && (forall i :: 0 <= i < |ids| ==> Same(Sum(rows[i]), Lagrange(ids, ids[i], newHolder) * secrets[i]))
  }

  lemma {:induction false} SumOfReduced(xs: seq<int>)
    ensures Same(Sum(Reduce(xs)), Sum(xs))
  {
    forall i | 0 <= i < |xs|
      ensures Same(Reduce(xs)[i], xs[i])
    {
      ResidueIsSame(xs[i]);
    }
    SameSums(Reduce(xs), xs);
  }

  function LagrangeTerms(ids: seq<int>, ys: seq<int>, x: int, n: nat): (r: seq<int>)
    requires |ids| == |ys| && n <= |ids|
    ensures |r| == n && forall i :: 0 <= i < n ==> r[i] == Lagrange(ids, ids[i], x) * ys[i]
  {
    seq(n, i requires 0 <= i < n => Lagrange(ids, ids[i], x) * ys[i])
  }

  lemma {:induction false} LagrangeSumIsSum(ids: seq<int>, ys: seq<int>, x: int, n: nat)
    requires |ids| == |ys| && n <= |ids|
    ensures Sum(LagrangeTerms(ids, ys, x, n)) == LagrangeSum(ids, ys, x, n)
  {
    if 0 < n {
      LagrangeSumIsSum(ids, ys, x, n - 1);
      SumAppend(LagrangeTerms(ids, ys, x, n - 1), Lagrange(ids, ids[n - 1], x) * ys[n - 1]);
      assert LagrangeTerms(ids, ys, x, n)
          == LagrangeTerms(ids, ys, x, n - 1) + [Lagrange(ids, ids[n - 1], x) * ys[n - 1]];
    }
  }

  /** The sigmas of honest helpers add up to the new holder's point. */
  lemma {:induction false} HonestSum(
    plan: Plan, f: Poly, ids: seq<int>, secrets: seq<Scalar>, rows: seq<seq<int>>, newHolder: HolderId)
    requires Carries(f, plan) && HonestHelpers(plan, f, ids, secrets, rows, newHolder)
    ensures Same(Sum(Sigmas(rows, |ids|)), Eval(f, newHolder))
  {
    var n := |ids|;
    var columns, terms := ColumnSums(rows, n), LagrangeTerms(ids, secrets, newHolder, n);
    SumOfReduced(columns);
    ExchangeSums(rows, n);
    SameSums(RowSums(rows), terms);
    LagrangeSumIsSum(ids, secrets, newHolder, n);
    KeysAreDistinct(OrderedMap(ids, secrets));
    InterpolationIsExact(f, ids, secrets, newHolder);
    SameIsTransitive(Sum(Reduce(columns)), Sum(columns), Sum(terms));
    SameIsTransitive(Sum(Reduce(columns)), Sum(terms), Eval(f, newHolder));
  }

  lemma {:induction false} OrderedIsCollected(ids: seq<HolderId>)
    requires forall i, j :: 0 <= i < j < |ids| ==> ids[i] < ids[j]
    ensures Collect(ids) == ids
  {
    if ids != [] {
      var rest := ids[1..];
      OrderedIsCollected(rest);
      assert ids == [ids[0]] + rest;
    }
  }

  /** Every honest helper passes the guards of step 1, and receives enough deltas for step 2. */
  lemma {:induction false} HonestHelpersPass(
    plan: Plan, f: Poly, ids: seq<HolderId>, secrets: seq<Scalar>, rows: seq<seq<int>>, newHolder: HolderId, i: nat)
    requires Carries(f, plan) && HonestHelpers(plan, f, ids, secrets, rows, newHolder) && i < |ids|
    requires newHolder != 0 && newHolder !in plan.shares.keys
    ensures var helper := ShareOn(f, plan, ids[i]);
      && HelperGuards(helper, plan, ids, newHolder) && Collect(ids) == ids
      && helper.Secret() == secrets[i] && helper.Threshold() <= |Column(rows, |ids|, i)|
  {
    hide Eval, Residue, Same, Lagrange, Collect;
    OrderedIsCollected(ids);
    HelperGuardsExactly(ShareOn(f, plan, ids[i]), plan, ids, newHolder);
    var j :| 0 <= j < |plan.shares.keys| && plan.shares.keys[j] == ids[i];
    ListedIsOnPlan(plan, f, j);
    ScalarIsResidue(secrets[i], Eval(f, ids[i]));
  }

  lemma {:induction false} ScalarIsResidue(s: Scalar, y: int)
    requires Same(s, y)
    ensures s == Residue(y)
  {
    SameIffEqualResidues(s, y);
    SmallResidue(s);
  }

  lemma SmallResidue(s: Scalar)
    ensures Residue(s) == s
  {
  }

  /** Scalars on the wire. */
  function ToWire(scalars: seq<Scalar>): (messages: seq<WireMessage<Scalar>>)
    ensures |messages| == |scalars| && Parsable(messages) && Contents(messages) == scalars
  {
    var messages := seq(|scalars|, i requires 0 <= i < |scalars| => Message(scalars[i]));
    assert Contents(messages) == scalars;
    messages
  }

  /** For any helper set of at least `t` holders and any new holder outside the plan, step 3
      accepts what honest helpers sent, and returns the new holder's point. */
  lemma {:induction false} HonestEnrollmentSucceeds(
    plan: Plan, f: Poly, ids: seq<int>, secrets: seq<Scalar>, rows: seq<seq<int>>, newHolder: HolderId)
    requires Carries(f, plan) && HonestHelpers(plan, f, ids, secrets, rows, newHolder)
    requires newHolder != 0 && newHolder !in plan.shares.keys
    ensures EnrollAccepted(plan, newHolder, OrderedMap(ids, ToWire(Sigmas(rows, |ids|))),
                           Share(newHolder, KeyPackage(newHolder, Residue(Eval(f, newHolder)), OldCommitment(plan, newHolder),
                                                       plan.storageKey, plan.threshold)))
  {
    HonestSum(plan, f, ids, secrets, rows, newHolder);
    SameIffEqualResidues(Sum(Sigmas(rows, |ids|)), Eval(f, newHolder));
    InterpolatedIsExact(f, BasePoints(plan), newHolder);
    assert IsPlanThreshold(plan.threshold) by { assert ThresholdFor(|plan.shares.keys|) == Some(plan.threshold); }
  }

  // Runs of refreshes and enrollments

  /** A plan, and the shares enrolled under it. */
  datatype Holding = Holding(plan: Plan, enrolled: seq<Share>)

  ghost predicate EnrollStep(before: Holding, after: Holding) {
    exists newHolder: HolderId, sigmas: ScalarMessages, share: Share ::
      EnrollAccepted(before.plan, newHolder, sigmas, share) && after == Holding(before.plan, before.enrolled + [share])
  }

  /** One accepted refresh, after which the shares enrolled before it are of no plan, or one
      accepted enrollment. */
  ghost predicate HoldingStep(before: Holding, after: Holding) {
    (RefreshStep(before.plan, after.plan) && after.enrolled == []) || EnrollStep(before, after)
  }

  /** Everything handed out lies on the one polynomial of the plan. */
  ghost predicate Sane(h: Holding) {
    && Consistent(h.plan)
    && forall i :: 0 <= i < |h.enrolled| ==> OnPlan(h.enrolled[i], h.plan)
  }

  /** The share is the point of the plan's polynomial at an identifier outside the plan, and
      the next refresh takes it for what the plan gives that identifier. */
  ghost predicate OnPlan(share: Share, plan: Plan) {
    && share.Valid() && share.holder !in plan.shares.keys
    && share.Threshold() == plan.threshold && share.inner.verifyingKey == plan.storageKey
    && share.inner.verifyingShare == OldCommitment(plan, share.holder)
    && forall f :: Carries(f, plan) ==> share.Secret() == Residue(Eval(f, share.holder))
  }

  lemma {:induction false} EnrolledIsOnPlan(plan: Plan, newHolder: HolderId, sigmas: ScalarMessages, share: Share)
    requires EnrollAccepted(plan, newHolder, sigmas, share)
    ensures OnPlan(share, plan) && share.holder == newHolder != 0
    ensures plan.threshold <= |sigmas.keys| && forall h :: h in sigmas.keys ==> h in plan.shares.keys
  {
    forall f | Carries(f, plan) ensures share.Secret() == Residue(Eval(f, newHolder)) {
      InterpolatedIsExact(f, BasePoints(plan), newHolder);
    }
  }

  lemma {:induction false} StepKeepsSane(before: Holding, after: Holding)
    requires Sane(before) && HoldingStep(before, after)
    ensures Sane(after)
    ensures after.plan.storageKey == before.plan.storageKey && after.plan.threshold == before.plan.threshold
  {
    hide OnPlan, EnrollAccepted;
    if RefreshStep(before.plan, after.plan) && after.enrolled == [] {
      RefreshKeepsKey(before.plan, after.plan);
    } else {
      var newHolder: HolderId, sigmas: ScalarMessages, share: Share :|
        EnrollAccepted(before.plan, newHolder, sigmas, share) && after == Holding(before.plan, before.enrolled + [share]);
      EnrolledIsOnPlan(before.plan, newHolder, sigmas, share);
    }
  }

  /** Over every finite run of accepted refreshes and enrollments the storage key and the
      threshold never change, and every plan and every enrolled share stays on one polynomial
      of degree below the threshold with the same value at zero. */
  lemma {:induction false} RunStaysSane(run: seq<Holding>, k: nat)
    requires k < |run| && Sane(run[0])
    requires forall i :: 0 < i < |run| ==> HoldingStep(run[i - 1], run[i])
    ensures Sane(run[k])
    ensures run[k].plan.storageKey == run[0].plan.storageKey && run[k].plan.threshold == run[0].plan.threshold
  {
    hide Sane, HoldingStep;
    if 0 < k {
      RunStaysSane(run, k - 1);
      StepKeepsSane(run[k - 1], run[k]);
    }
  }
}

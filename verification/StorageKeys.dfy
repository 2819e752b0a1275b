/** Shares, refresh and enrollment.

    The protocol steps of the signature library are foreign: whatever it returns is a
    parameter here, and the results below hold for every such value. Only enrollment
    step 1 has a contract, that a helper's deltas add up to `λ_i(x)·s_i`. */
module StorageKeys {
  import opened Options
  import opened StorageErrors
  import opened ThresholdParams
  import opened OrderedMaps
  import opened Scalars
  import opened Polynomials
  import opened HolderPlan

  datatype KeyPackage = KeyPackage(
    identifier: Scalar,
    signingShare: Scalar,
    verifyingShare: Point,
    verifyingKey: Point,
    minSigners: nat)

  datatype Share = Share(holder: HolderId, inner: KeyPackage) {
    function Threshold(): nat {
      inner.minSigners
    }

    function Secret(): Scalar {
      inner.signingShare
    }

    /** The stored commitment, threshold and identifier were checked. */
    ghost predicate Valid() {
      && 0 < holder == inner.identifier
      && IsPlanThreshold(inner.minSigners)
      && inner.verifyingShare == MulBase(inner.signingShare)
    }
  }

  /** Accepts exactly the key packages of a 16-bit holder with a plan threshold whose
      commitment is that of the secret. */
  function FromKeyPackage(inner: KeyPackage): (r: Result<Share>)
    ensures r.Ok? ==> r.value.Valid() && r.value.inner == inner
    ensures r.Ok? <==> 0 < inner.identifier < 65536 && IsPlanThreshold(inner.minSigners)
                       && inner.verifyingShare == MulBase(inner.signingShare)
    ensures r.Err? ==> r.error == if !(0 < inner.identifier < 65536) then InvalidArgument
                                  else if !IsPlanThreshold(inner.minSigners) then HolderCount else Crypto
  {
    match HolderOf(inner.identifier)
    case None => Err(InvalidArgument)
    case Some(holder) =>
      PlanThresholds(inner.minSigners);
      if !(2 <= inner.minSigners <= 33) then Err(HolderCount)
      else if inner.verifyingShare != MulBase(inner.signingShare) then Err(Crypto)
      else Ok(Share(holder, inner))
  }

  predicate InPlan(share: Share, plan: Plan) {
    && plan.threshold == share.Threshold()
    && plan.storageKey == share.inner.verifyingKey
    && plan.shares.Get(share.holder) == Some(share.inner.verifyingShare)
  }

  function CheckInPlan(share: Share, plan: Plan): Result<()> {
    if InPlan(share, plan) then Ok(()) else Err(ShareMismatch)
  }

  /** The secret of a share in a consistent plan is its point on the polynomial. */
  lemma {:induction false} SecretIsOnPolynomial(share: Share, plan: Plan, f: Poly)
    requires share.Valid() && InPlan(share, plan) && Carries(f, plan)
    ensures Same(share.Secret(), Eval(f, share.holder))
  {
  }

  // Checks on the output of key generation and refresh

  ghost function FinishOutcome(keys: KeyPackage, package: PublicKeyPackage, oldPlan: Option<Plan>): (r: Result<(Share, Plan)>)
    requires package.Valid()
    ensures r.Ok? ==> r.value.0.Valid() && InPlan(r.value.0, r.value.1) && Consistent(r.value.1)
    ensures r.Ok? ==> r.value.0.inner.verifyingKey == r.value.1.storageKey && r.value.0.Threshold() == r.value.1.threshold
    ensures r.Ok? && oldPlan.Some? ==> r.value.1.storageKey == oldPlan.value.storageKey
  {
    var share :- FromKeyPackage(keys);
    var plan :- PlanOf(package);
    if oldPlan.Some? && plan.storageKey != oldPlan.value.storageKey then Err(Crypto)
    else if !InPlan(share, plan) then Err(Crypto)
    else if !Consistent(plan) then Err(Crypto)
    else Ok((share, plan))
  }

  method Finish(keys: KeyPackage, package: PublicKeyPackage, oldPlan: Option<Plan>) returns (r: Result<(Share, Plan)>)
    requires package.Valid()
    ensures r == FinishOutcome(keys, package, oldPlan)
  {
    var share :- FromKeyPackage(keys);
    var plan :- FromPackage(package);
    if oldPlan.Some? {
      if plan.storageKey != oldPlan.value.storageKey {
        return Err(Crypto);
      }
    }
    if CheckInPlan(share, plan).Err? {
      return Err(Crypto);
    }
    var valid := Validate(plan);
    if valid.Err? {
      return Err(valid.error);
    }
    return Ok((share, plan));
  }

  // Messages

  datatype WireMessage<+T> = BadLength | Undecodable | Message(value: T)

  ghost predicate Parsable<T>(messages: seq<WireMessage<T>>) {
    forall i :: 0 <= i < |messages| ==> messages[i].Message?
  }

  /** The error of the first message, from a position on, that is not accepted. */
  function FirstRefusal<T>(messages: OrderedMap<WireMessage<T>>, i: nat): Option<StorageError>
    requires messages.Valid() && i <= |messages.keys|
    decreases |messages.keys| - i
  {
    if i == |messages.keys| then None
    else match messages.values[i]
      case BadLength => Some(InvalidArgument)
      case Undecodable => Some(Serialization)
      case Message(_) => if messages.keys[i] == 0 then Some(InvalidArgument) else FirstRefusal(messages, i + 1)
  }

  /** Every message has a sender other than zero and decodes. */
  method ParseMessages<T>(messages: OrderedMap<WireMessage<T>>) returns (r: Result<seq<T>>)
    requires messages.Valid()
    ensures r.Ok? <==> 0 !in messages.keys && Parsable(messages.values)
    ensures r.Ok? ==> |r.value| == |messages.values|
                      && forall i :: 0 <= i < |r.value| ==> r.value[i] == messages.values[i].value
    ensures FirstRefusal(messages, 0) == if r.Ok? then None else Some(r.error)
  {
    var out: seq<T> := [];
    for i := 0 to |messages.keys|
      invariant |out| == i
      invariant FirstRefusal(messages, 0) == FirstRefusal(messages, i)
      invariant forall k :: 0 <= k < i ==> messages.keys[k] != 0 && messages.values[k].Message? && out[k] == messages.values[k].value
    {
      if messages.values[i].BadLength? {
        return Err(InvalidArgument);
      }
      if messages.values[i].Undecodable? {
        return Err(Serialization);
      }
      if messages.keys[i] == 0 {
        return Err(InvalidArgument);
      }
      out := out + [messages.values[i].value];
    }
    r := Ok(out);
  }

  /** The first message that is not accepted decides the error: a length that is wrong, bytes
      that do not decode, or a sender that is zero. */
  lemma {:induction false} FirstBadDecides<T>(messages: OrderedMap<WireMessage<T>>, at: nat, i: nat)
    requires messages.Valid() && at <= i < |messages.keys|
    requires forall j :: at <= j < i ==> messages.values[j].Message? && messages.keys[j] != 0
    requires !messages.values[i].Message? || messages.keys[i] == 0
    ensures FirstRefusal(messages, at) == Some(if messages.values[i].Undecodable? then Serialization else InvalidArgument)
    decreases i - at
  {
    if at < i {
      FirstBadDecides(messages, at + 1, i);
    }
  }

  // Share refresh

  /** State after refresh parts 1 and 2. */
  datatype RefreshData = RefreshData(holder: HolderId, holderCount: nat, threshold: nat)

  /** Part 1 fixes the threshold of the new holder count; part 2 keeps it. */
  type RefreshState = s: RefreshData | 0 < s.holder && PlanThreshold(s.holderCount) == Ok(s.threshold)
    witness RefreshData(1, 3, 2)

  /** A refresh starts only when the new holder count keeps the current threshold. */
  function RefreshPart1(current: Share, newHolderCount: nat): (r: Result<RefreshState>)
    requires current.Valid()
    ensures r.Ok? <==> PlanThreshold(newHolderCount) == Ok(current.Threshold())
    ensures r.Ok? ==> r.value.threshold == current.Threshold() && r.value.holder == current.holder
    ensures r.Err? ==> r.error == if PlanThreshold(newHolderCount).Ok? then ThresholdChange else HolderCount
  {
    var threshold :- PlanThreshold(newHolderCount);
    if threshold != current.Threshold() then Err(ThresholdChange)
    else Ok(RefreshData(current.holder, newHolderCount, threshold))
  }

  /** A round 1 package, by the number of coefficients of its commitment. */
  type Round1 = OrderedMap<WireMessage<nat>>

  type Round2 = OrderedMap<WireMessage<()>>

  function Elements(ids: seq<int>): set<int> {
    set h | h in ids
  }

  function Participants(state: RefreshState, round1: Round1): set<int> {
    Elements(round1.keys) + {state.holder}
  }

  function OldHolders(participants: set<int>, plan: Plan): set<int> {
    set h | h in participants && h in plan.shares.keys
  }

  /** The commitment the old plan gives a participant: listed, or interpolated for a
      holder that was enrolled. */
  function OldCommitment(plan: Plan, holder: int): Point {
    if holder in plan.shares.keys then plan.shares.Get(holder).value else Interpolated(BasePoints(plan), holder)
  }

  /** Every round 1 package has one coefficient less than the threshold; a longer one would
      raise the degree. */
  ghost predicate MessagesFit(state: RefreshState, round1: Round1, round2: Round2)
    requires round1.Valid() && round2.Valid()
  {
    && 0 !in round1.keys && Parsable(round1.values)
    && (forall i :: 0 <= i < |round1.values| ==> round1.values[i].value == state.threshold - 1)
    && 0 !in round2.keys && Parsable(round2.values)
  }

  ghost function MessageRefusal(state: RefreshState, round1: Round1, round2: Round2): Option<StorageError>
    requires round1.Valid() && round2.Valid()
  {
    if FirstRefusal(round1, 0).Some? then FirstRefusal(round1, 0)
    else if exists i :: 0 <= i < |round1.values| && round1.values[i] != Message(state.threshold - 1) then Some(Crypto)
    else FirstRefusal(round2, 0)
  }

  method CheckMessages(state: RefreshState, round1: Round1, round2: Round2) returns (refusal: Option<StorageError>)
    requires round1.Valid() && round2.Valid()
    ensures refusal.None? <==> MessagesFit(state, round1, round2)
    ensures refusal == MessageRefusal(state, round1, round2)
  {
    var r1 := ParseMessages(round1);
    if r1.Err? {
      return Some(r1.error);
    }
    if exists i :: 0 <= i < |r1.value| && r1.value[i] != state.threshold - 1 {
      return Some(Crypto);
    }
    var r2 := ParseMessages(round2);
    return if r2.Err? then Some(r2.error) else None;
  }

  /** The checks of part 3 before the library runs. */
  ghost predicate RefreshGuards(state: RefreshState, round1: Round1, round2: Round2, current: Share, oldPlan: Plan)
    requires round1.Valid() && round2.Valid()
  {
    var participants := Participants(state, round1);
    && current.holder == state.holder
    && current.Threshold() == oldPlan.threshold == state.threshold
    && MessagesFit(state, round1, round2)
    && |participants| == state.holderCount
    && state.threshold <= |OldHolders(participants, oldPlan)|
    && (OldHolders(participants, oldPlan) != participants ==> Consistent(oldPlan))
    && current.inner.verifyingShare == OldCommitment(oldPlan, state.holder)
    && current.inner.verifyingKey == oldPlan.storageKey
  }

  ghost predicate RefreshAccepted(
    state: RefreshState, round1: Round1, round2: Round2, current: Share, oldPlan: Plan,
    keys: KeyPackage, package: PublicKeyPackage, share: Share, plan: Plan)
    requires round1.Valid() && round2.Valid() && package.Valid()
  {
    && RefreshGuards(state, round1, round2, current, oldPlan)
    && FinishOutcome(keys, package, Some(oldPlan)) == Ok((share, plan))
    && |plan.shares.keys| == state.holderCount
  }

  /** The error of the first check that fails before the library runs. */
  ghost function RefreshRefusal(state: RefreshState, round1: Round1, round2: Round2, current: Share, oldPlan: Plan): Option<StorageError>
    requires round1.Valid() && round2.Valid()
  {
    var participants := Participants(state, round1);
    if current.holder != state.holder then Some(InvalidArgument)
    else if current.Threshold() != state.threshold || oldPlan.threshold != state.threshold then Some(ShareMismatch)
    else if MessageRefusal(state, round1, round2).Some? then MessageRefusal(state, round1, round2)
    else if |participants| != state.holderCount then Some(InvalidArgument)
    else if |OldHolders(participants, oldPlan)| < state.threshold then Some(BelowThreshold)
    else if OldHolders(participants, oldPlan) != participants && !Consistent(oldPlan) then Some(Crypto)
    else if RefreshGuards(state, round1, round2, current, oldPlan) then None
    else Some(ShareMismatch)
  }

  /** The old commitments the library is handed: those of the old plan and of every enrolled
      participant. */
  function OldCommitments(plan: Plan, participants: set<int>): map<int, Point> {
    map h | h in Elements(plan.shares.keys) + participants :: OldCommitment(plan, h)
  }

  lemma {:induction false} ListedIsOnPlan(plan: Plan, f: Poly, i: nat)
    requires Carries(f, plan) && i < |plan.shares.keys|
    ensures plan.shares.values[i] == Point(Residue(Eval(f, plan.shares.keys[i])))
  {
    hide Eval, Residue;
    var p := plan.shares.values[i];
    SameIffEqualResidues(p.log, Eval(f, plan.shares.keys[i]));
    PointIsReduced(p);
  }

  lemma PointIsReduced(p: Point)
    ensures Residue(p.log) == p.log
  {
  }

  /** On a consistent plan these are the points of its polynomial. */
  lemma {:induction false} OldCommitmentsAreOnPlan(plan: Plan, participants: set<int>, f: Poly, h: int)
    requires Carries(f, plan) && h in OldCommitments(plan, participants)
    ensures OldCommitments(plan, participants)[h] == Point(Residue(Eval(f, h)))
  {
    hide Eval, Residue, Interpolated, Same;
    if h in plan.shares.keys {
      var i :| 0 <= i < |plan.shares.keys| && plan.shares.keys[i] == h;
      ListedIsOnPlan(plan, f, i);
    } else {
      InterpolatedIsExact(f, BasePoints(plan), h);
    }
  }

  /** Starts from the listed commitments and interpolates those of the enrolled. */
  method CollectCommitments(plan: Plan, ids: seq<int>) returns (commitments: map<int, Point>)
    requires forall i :: 0 <= i < |ids| ==> 0 < ids[i] < 65536
    ensures commitments == OldCommitments(plan, Elements(ids))
  {
    hide Interpolated, BasePoints, Carries;
    commitments := map h | h in plan.shares.keys :: plan.shares.Get(h).value;
    assert commitments == OldCommitments(plan, Elements(ids[..0]));
    for i := 0 to |ids|
      invariant commitments == OldCommitments(plan, Elements(ids[..i]))
    {
      if ids[i] !in plan.shares.keys {
        var commitment := InterpolateShare(plan, ids[i]);
        commitments := commitments[ids[i] := commitment.value];
      }
      NextCommitment(plan, ids, i);
    }
    assert ids[..|ids|] == ids;
  }

  lemma {:induction false} NextCommitment(plan: Plan, ids: seq<int>, i: nat)
    requires i < |ids|
    ensures OldCommitments(plan, Elements(ids[..i + 1]))
         == OldCommitments(plan, Elements(ids[..i]))[ids[i] := OldCommitment(plan, ids[i])]
  {
    hide OldCommitment;
    assert ids[..i + 1] == ids[..i] + [ids[i]];
    assert Elements(ids[..i + 1]) == Elements(ids[..i]) + {ids[i]};
  }

  method OldShares(state: RefreshState, round1: Round1, round2: Round2, oldPlan: Plan) returns (commitments: map<int, Point>)
    requires round1.Valid() && round2.Valid() && MessagesFit(state, round1, round2)
    ensures commitments == OldCommitments(oldPlan, Participants(state, round1))
    ensures state.holder in commitments && commitments[state.holder] == OldCommitment(oldPlan, state.holder)
  {
    hide OldCommitment, PlanThreshold;
    var ids := round1.keys + [state.holder];
    commitments := CollectCommitments(oldPlan, ids);
    assert Participants(state, round1) == Elements(ids);
  }

  lemma NoneEnrolled(participants: set<int>, plan: Plan)
    ensures participants - OldHolders(participants, plan) == {} <==> OldHolders(participants, plan) == participants
  {
    var listed := OldHolders(participants, plan);
    if participants - listed == {} {
      forall h | h in participants ensures h in listed {
        assert h !in participants - listed;
      }
    }
  }

  /** Refresh part 3 up to the library, with what the library is handed. */
  method PrepareRefresh(state: RefreshState, round1: Round1, round2: Round2, current: Share, oldPlan: Plan)
    returns (r: Result<map<int, Point>>)
    requires round1.Valid() && round2.Valid()
    ensures r.Ok? <==> RefreshGuards(state, round1, round2, current, oldPlan)
    ensures r.Ok? ==> r.value == OldCommitments(oldPlan, Participants(state, round1))
    ensures RefreshRefusal(state, round1, round2, current, oldPlan) == if r.Ok? then None else Some(r.error)
  {
    hide Consistent, PlanThreshold, MessagesFit, MessageRefusal, Participants, OldHolders, OldCommitment, OldCommitments;
    var t := state.threshold;
    if current.holder != state.holder {
      return Err(InvalidArgument);
    }
    if current.Threshold() != t || oldPlan.threshold != t {
      return Err(ShareMismatch);
    }
    var refusal := CheckMessages(state, round1, round2);
    if refusal.Some? {
      return Err(refusal.value);
    }
    var participants := Participants(state, round1);
    if |participants| != state.holderCount {
      return Err(InvalidArgument);
    }
    var oldHolders := OldHolders(participants, oldPlan);
    if |oldHolders| < t {
      return Err(BelowThreshold);
    }
    NoneEnrolled(participants, oldPlan);
    if participants - oldHolders != {} {
      var valid := Validate(oldPlan);
      if valid.Err? {
        return Err(valid.error);
      }
    }
    var commitments := OldShares(state, round1, round2, oldPlan);
    if commitments[state.holder] != current.inner.verifyingShare || current.inner.verifyingKey != oldPlan.storageKey {
      return Err(ShareMismatch);
    }
    return Ok(commitments);
  }

  /** Refresh part 3 with the library's result `(keys, package)`. */
  method RefreshPart3(state: RefreshState, round1: Round1, round2: Round2, current: Share, oldPlan: Plan,
                      keys: KeyPackage, package: PublicKeyPackage)
    returns (r: Result<(Share, Plan)>)
    requires round1.Valid() && round2.Valid() && package.Valid()
    ensures r.Ok? ==> RefreshAccepted(state, round1, round2, current, oldPlan, keys, package, r.value.0, r.value.1)
    ensures r.Err? ==> forall share, plan ::
                         !RefreshAccepted(state, round1, round2, current, oldPlan, keys, package, share, plan)
    ensures r.Err? ==>
      var refusal := RefreshRefusal(state, round1, round2, current, oldPlan);
      var finish := FinishOutcome(keys, package, Some(oldPlan));
      r.error == if refusal.Some? then refusal.value else if finish.Err? then finish.error else Crypto
  {
    hide FinishOutcome, OldCommitments, RefreshGuards;
    var _ :- PrepareRefresh(state, round1, round2, current, oldPlan);
    var finished := Finish(keys, package, Some(oldPlan));
    if finished.Err? {
      return Err(finished.error);
    }
    if |finished.value.1.shares.keys| != state.holderCount {
      return Err(Crypto);
    }
    return finished;
  }

  /** One accepted refresh leads from `oldPlan` to `plan`. */
  ghost predicate RefreshStep(oldPlan: Plan, plan: Plan) {
    exists state: RefreshState, round1: Round1, round2: Round2, current: Share,
           keys: KeyPackage, package: PublicKeyPackage, share: Share ::
      && round1.Valid() && round2.Valid() && package.Valid()
      && RefreshAccepted(state, round1, round2, current, oldPlan, keys, package, share, plan)
  }

  /** Whatever the library returns, an accepted refresh keeps the storage key and the
      threshold and leaves every commitment on one polynomial. */
  lemma RefreshKeepsKey(oldPlan: Plan, plan: Plan)
    requires RefreshStep(oldPlan, plan)
    ensures plan.storageKey == oldPlan.storageKey && plan.threshold == oldPlan.threshold && Consistent(plan)
  {
    var state: RefreshState, round1: Round1, round2: Round2, current: Share,
        keys: KeyPackage, package: PublicKeyPackage, share: Share :|
      && round1.Valid() && round2.Valid() && package.Valid()
      && RefreshAccepted(state, round1, round2, current, oldPlan, keys, package, share, plan);
  }

  /** The points of `f + delta` at `ids`. */
  ghost function RefreshedShares(f: Poly, delta: Poly, ids: seq<Scalar>): (points: seq<Point>)
    ensures |points| == |ids|
    ensures forall i :: 0 <= i < |ids| ==> points[i] == Point(Residue(Eval(f, ids[i]) + Eval(delta, ids[i])))
  {
    seq(|ids|, i requires 0 <= i < |ids| => Point(Residue(Eval(f, ids[i]) + Eval(delta, ids[i]))))
  }

  /** Adding a polynomial with constant term zero to every share passes the final checks, for
      every holder set that keeps the threshold. */
  lemma {:induction false} HonestOutputPasses(oldPlan: Plan, f: Poly, delta: Poly, ids: seq<Scalar>, m: nat)
    requires Carries(f, oldPlan) && |delta| == oldPlan.threshold && Same(Eval(delta, 0), 0)
    requires OrderedMap(ids, ids).Valid() && m < |ids| && 0 < ids[0]
    requires PlanThreshold(|ids|) == Ok(oldPlan.threshold)
    ensures
      var points := RefreshedShares(f, delta, ids);
      var package := PublicKeyPackage(ids, points, oldPlan.storageKey);
      var keys := KeyPackage(ids[m], points[m].log, points[m], oldPlan.storageKey, oldPlan.threshold);
      && package.Valid() && FinishOutcome(keys, package, Some(oldPlan)).Ok?
      && |FinishOutcome(keys, package, Some(oldPlan)).value.1.shares.keys| == |ids|
  {
    var points := RefreshedShares(f, delta, ids);
    var package := PublicKeyPackage(ids, points, oldPlan.storageKey);
    var keys := KeyPackage(ids[m], points[m].log, points[m], oldPlan.storageKey, oldPlan.threshold);
    assert package.Valid();
    var plan: Plan := PlanOf(package).value;
    var g := Combine(1, f, 1, delta);
    forall i | 0 <= i < |ids|
      ensures Same(points[i].log, Eval(g, ids[i]))
    {
      EvalCombine(1, f, 1, delta, ids[i]);
      ResidueIsSame(Eval(f, ids[i]) + Eval(delta, ids[i]));
    }
    EvalCombine(1, f, 1, delta, 0);
    SameIsSymmetric(Eval(delta, 0), 0);
    SameSum(oldPlan.storageKey.log, Eval(f, 0), 0, Eval(delta, 0));
    assert Carries(g, plan);
    assert IsPlanThreshold(oldPlan.threshold) by { assert ThresholdFor(|ids|) == Some(oldPlan.threshold); }
    assert plan.shares.Get(ids[m]) == Some(points[m]);
  }

  // A whole honest refresh

  /** One list without the entry of this holder. */
  function Others<T>(s: seq<T>, m: nat): (r: seq<T>)
    requires m < |s|
    ensures |r| == |s| - 1
    ensures forall i :: 0 <= i < |r| ==> r[i] == if i < m then s[i] else s[i + 1]
  {
    s[..m] + s[m + 1..]
  }

  /** What a participant publishes of its polynomial: the commitments of all coefficients but
      the constant one, which is zero. */
  function Published(deltas: seq<Poly>): (messages: seq<WireMessage<nat>>)
    requires forall i :: 0 <= i < |deltas| ==> deltas[i] != []
    ensures |messages| == |deltas|
    ensures forall i :: 0 <= i < |deltas| ==> messages[i] == Message(|deltas[i]| - 1)
  {
    seq(|deltas|, i requires 0 <= i < |deltas| => Message(|deltas[i]| - 1))
  }

  function Private(n: nat): (messages: seq<WireMessage<()>>)
    ensures |messages| == n && forall i :: 0 <= i < n ==> messages[i] == Message(())
  {
    seq(n, _ => Message(()))
  }

  /** The polynomials of all participants together. */
  function SumOf(deltas: seq<Poly>, t: nat): (f: Poly)
    requires forall i :: 0 <= i < |deltas| ==> |deltas[i]| == t
    ensures |f| == t
  {
    if deltas == [] then seq(t, _ => 0) else Combine(1, SumOf(deltas[..|deltas| - 1], t), 1, deltas[|deltas| - 1])
  }

  lemma {:induction false} ZeroPolyValue(n: nat, x: int)
    ensures Eval(seq(n, _ => 0), x) == 0
  {
    if 0 < n {
      ZeroPolyValue(n - 1, x);
      assert seq(n, _ => 0)[1..] == seq(n - 1, _ => 0);
    }
  }

  lemma {:induction false} SumKeepsZero(deltas: seq<Poly>, t: nat)
    requires forall i :: 0 <= i < |deltas| ==> |deltas[i]| == t && Same(Eval(deltas[i], 0), 0)
    ensures Same(Eval(SumOf(deltas, t), 0), 0)
  {
    if deltas == [] {
      ZeroPolyValue(t, 0);
      MultipleIsZero(0, 0);
    } else {
      var n := |deltas| - 1;
      SumKeepsZero(deltas[..n], t);
      EvalCombine(1, SumOf(deltas[..n], t), 1, deltas[n], 0);
      SameSum(Eval(SumOf(deltas[..n], t), 0), 0, Eval(deltas[n], 0), 0);
    }
  }

  ghost predicate Ordered(ids: seq<int>) {
    && (forall i :: 0 <= i < |ids| ==> 0 < ids[i] < 65536)
    && forall i, j :: 0 <= i < j < |ids| ==> ids[i] < ids[j]
  }

  lemma {:induction false} ElementsCount(ids: seq<int>)
    requires forall i, j :: 0 <= i < j < |ids| ==> ids[i] < ids[j]
    ensures |Elements(ids)| == |ids|
  {
    if ids != [] {
      var n := |ids| - 1;
      ElementsCount(ids[..n]);
      assert Elements(ids) == Elements(ids[..n]) + {ids[n]};
      assert ids[n] !in ids[..n];
    }
  }

  lemma {:induction false} OthersAndSelf(ids: seq<int>, m: nat)
    requires Ordered(ids) && m < |ids|
    ensures Ordered(Others(ids, m)) && Elements(Others(ids, m)) + {ids[m]} == Elements(ids)
  {
    var rest := Others(ids, m);
    forall h | h in Elements(ids) ensures h in Elements(rest) + {ids[m]} {
      var i :| 0 <= i < |ids| && ids[i] == h;
      assert i < m ==> rest[i] == h;
      assert m < i ==> rest[i - 1] == h;
    }
  }

  /** The messages that holder `m` of an honest refresh has received. */
  function HonestRound1(ids: seq<int>, deltas: seq<Poly>, m: nat): Round1
    requires m < |ids| == |deltas| && forall i :: 0 <= i < |deltas| ==> deltas[i] != []
  {
    OrderedMap(Others(ids, m), Published(Others(deltas, m)))
  }

  function HonestRound2(ids: seq<int>, m: nat): Round2
    requires m < |ids|
  {
    OrderedMap(Others(ids, m), Private(|ids| - 1))
  }

  /** The share of a holder or of someone enrolled: the point of the plan's polynomial. */
  function ShareOn(f: Poly, plan: Plan, holder: HolderId): Share {
    Share(holder, KeyPackage(holder, Residue(Eval(f, holder)), Point(Residue(Eval(f, holder))), plan.storageKey, plan.threshold))
  }

  /** A set of participants that keeps the threshold and has at least that many old holders,
      each with a polynomial of `t` coefficients and constant term zero. */
  ghost predicate HonestRefresh(oldPlan: Plan, ids: seq<int>, deltas: seq<Poly>) {
    && Ordered(ids) && |ids| == |deltas| && PlanThreshold(|ids|) == Ok(oldPlan.threshold)
    && oldPlan.threshold <= |OldHolders(Elements(ids), oldPlan)|
    && forall i :: 0 <= i < |deltas| ==> |deltas[i]| == oldPlan.threshold && Same(Eval(deltas[i], 0), 0)
  }

  lemma {:induction false} ThresholdOfPlan(plan: Plan)
    ensures 2 <= plan.threshold
  {
  }

  lemma {:induction false} HonestMessagesFit(oldPlan: Plan, ids: seq<int>, deltas: seq<Poly>, m: nat)
    requires HonestRefresh(oldPlan, ids, deltas) && m < |ids|
    ensures forall i :: 0 <= i < |deltas| ==> deltas[i] != []
    ensures var state := RefreshData(ids[m], |ids|, oldPlan.threshold);
      var round1, round2 := HonestRound1(ids, deltas, m), HonestRound2(ids, m);
      && round1.Valid() && round2.Valid() && Participants(state, round1) == Elements(ids)
      && MessagesFit(state, round1, round2) && MessageRefusal(state, round1, round2) == None
  {
    hide OldHolders;
    ThresholdOfPlan(oldPlan);
    OthersAndSelf(ids, m);
    var state := RefreshData(ids[m], |ids|, oldPlan.threshold);
    var round1, round2 := HonestRound1(ids, deltas, m), HonestRound2(ids, m);
    NoRefusal(round1, 0);
    NoRefusal(round2, 0);
  }

  lemma {:induction false} NoRefusal<T>(messages: OrderedMap<WireMessage<T>>, i: nat)
    requires messages.Valid() && i <= |messages.keys| && 0 !in messages.keys && Parsable(messages.values)
    ensures FirstRefusal(messages, i) == None
    decreases |messages.keys| - i
  {
    if i < |messages.keys| {
      NoRefusal(messages, i + 1);
    }
  }

  /** An honest refresh passes every guard of part 3, for each of its participants ... */
  lemma {:induction false} HonestRefreshIsPrepared(oldPlan: Plan, f: Poly, ids: seq<int>, deltas: seq<Poly>, m: nat)
    requires Carries(f, oldPlan) && HonestRefresh(oldPlan, ids, deltas) && m < |ids|
    ensures forall i :: 0 <= i < |deltas| ==> deltas[i] != []
    ensures var state := RefreshData(ids[m], |ids|, oldPlan.threshold);
      var round1, round2, current := HonestRound1(ids, deltas, m), HonestRound2(ids, m), ShareOn(f, oldPlan, ids[m]);
      && round1.Valid() && round2.Valid() && current.Valid() && RefreshPart1(current, |ids|) == Ok(state)
      && RefreshGuards(state, round1, round2, current, oldPlan)
      && RefreshRefusal(state, round1, round2, current, oldPlan) == None
  {
    hide MessagesFit, MessageRefusal, OldHolders, OldCommitment, Participants, Eval;
    HonestMessagesFit(oldPlan, ids, deltas, m);
    ElementsCount(ids);
    OldCommitmentIsPoint(oldPlan, f, ids[m]);
    assert Consistent(oldPlan);
    assert IsPlanThreshold(oldPlan.threshold) by { assert ThresholdFor(|ids|) == Some(oldPlan.threshold); }
  }

  lemma {:induction false} OldCommitmentIsPoint(plan: Plan, f: Poly, h: int)
    requires Carries(f, plan)
    ensures OldCommitment(plan, h) == Point(Residue(Eval(f, h)))
  {
    hide Eval, Residue, Interpolated, Same, OldCommitment;
    assert h in OldCommitments(plan, {h});
    OldCommitmentsAreOnPlan(plan, {h}, f, h);
  }

  /** ... and its output, which adds everyone's polynomial to every share, is accepted. */
  lemma {:induction false} HonestRefreshIsAccepted(oldPlan: Plan, f: Poly, ids: seq<int>, deltas: seq<Poly>, m: nat) returns (share: Share, plan: Plan)
    requires Carries(f, oldPlan) && HonestRefresh(oldPlan, ids, deltas) && m < |ids|
    ensures forall i :: 0 <= i < |deltas| ==> deltas[i] != []
    ensures var state := RefreshData(ids[m], |ids|, oldPlan.threshold);
      var round1, round2, current := HonestRound1(ids, deltas, m), HonestRound2(ids, m), ShareOn(f, oldPlan, ids[m]);
      var points := RefreshedShares(f, SumOf(deltas, oldPlan.threshold), ids);
      var package := PublicKeyPackage(ids, points, oldPlan.storageKey);
      var keys := KeyPackage(ids[m], points[m].log, points[m], oldPlan.storageKey, oldPlan.threshold);
      && round1.Valid() && round2.Valid() && package.Valid()
      && RefreshAccepted(state, round1, round2, current, oldPlan, keys, package, share, plan)
  {
    hide RefreshGuards, RefreshRefusal, FinishOutcome, OldHolders, Eval, Carries;
    HonestRefreshIsPrepared(oldPlan, f, ids, deltas, m);
    SumKeepsZero(deltas, oldPlan.threshold);
    var delta := SumOf(deltas, oldPlan.threshold);
    HonestOutputPasses(oldPlan, f, delta, ids, m);
    var points := RefreshedShares(f, delta, ids);
    var package := PublicKeyPackage(ids, points, oldPlan.storageKey);
    var keys := KeyPackage(ids[m], points[m].log, points[m], oldPlan.storageKey, oldPlan.threshold);
    var outcome := FinishOutcome(keys, package, Some(oldPlan)).value;
    share, plan := outcome.0, outcome.1;
  }

  /** A package of a polynomial with more, or fewer, than `t` coefficients is refused. */
  lemma {:induction false} OtherDegreeIsRefused(
    state: RefreshState, round1: Round1, round2: Round2, current: Share, oldPlan: Plan, deltas: seq<Poly>, i: nat)
    requires round1.Valid() && round2.Valid() && 0 !in round1.keys && |round1.values| == |deltas|
    requires forall j :: 0 <= j < |deltas| ==> deltas[j] != []
    requires round1.values == Published(deltas) && i < |deltas| && |deltas[i]| != state.threshold
    requires current.holder == state.holder && current.Threshold() == oldPlan.threshold == state.threshold
    ensures RefreshRefusal(state, round1, round2, current, oldPlan) == Some(Crypto)
  {
    hide RefreshGuards;
    NoRefusal(round1, 0);
    assert round1.values[i] != Message(state.threshold - 1);
  }

  /** Who of the participants the old plan lists. */
  ghost predicate ListedAmong(listed: set<int>, state: RefreshState, round1: Round1, oldPlan: Plan) {
    forall h :: h in listed <==> h in oldPlan.shares.keys && (h == state.holder || h in round1.keys)
  }

  lemma {:induction false} WhoTakesPart(state: RefreshState, round1: Round1, oldPlan: Plan, listed: set<int>)
    requires ListedAmong(listed, state, round1, oldPlan)
    ensures Participants(state, round1) == Elements(round1.keys + [state.holder])
    ensures OldHolders(Participants(state, round1), oldPlan) == listed
  {
    var all := round1.keys + [state.holder];
    assert forall h :: h in all <==> h in round1.keys || h == state.holder;
    assert forall h :: h in Participants(state, round1) <==> h in round1.keys || h == state.holder;
    assert forall h :: h in OldHolders(Participants(state, round1), oldPlan) <==> h in listed;
  }

  lemma {:induction false} NoneUnlisted(state: RefreshState, round1: Round1, oldPlan: Plan, listed: set<int>)
    requires ListedAmong(listed, state, round1, oldPlan) && listed == Participants(state, round1)
    ensures state.holder in listed && forall i :: 0 <= i < |round1.keys| ==> round1.keys[i] in listed
  {
    forall i | 0 <= i < |round1.keys| ensures round1.keys[i] in listed {
      assert round1.keys[i] in round1.keys;
    }
  }

  /** What an accepted refresh means, whatever the library returned: this holder's own share,
      which lay on the old polynomial, was refreshed; every other participant published a
      polynomial of the threshold's size; at least a threshold of them are old holders; and the
      new plan has as many holders as took part, the old key and the old threshold. */
  lemma {:induction false} AcceptedRefreshMeans(
    state: RefreshState, round1: Round1, round2: Round2, current: Share, oldPlan: Plan,
    keys: KeyPackage, package: PublicKeyPackage, share: Share, plan: Plan, listed: set<int>)
    requires round1.Valid() && round2.Valid() && package.Valid() && current.Valid()
    requires RefreshAccepted(state, round1, round2, current, oldPlan, keys, package, share, plan)
    requires ListedAmong(listed, state, round1, oldPlan)
    ensures current.holder == state.holder && current.inner.verifyingKey == oldPlan.storageKey
    ensures forall f :: Carries(f, oldPlan) ==> current.Secret() == Residue(Eval(f, state.holder))
    ensures forall i :: 0 <= i < |round1.values| ==> round1.keys[i] != 0 && round1.values[i] == Message(oldPlan.threshold - 1)
    ensures 0 !in round2.keys && forall i :: 0 <= i < |round2.values| ==> round2.values[i].Message?
    ensures oldPlan.threshold <= |listed|
    ensures state.holder !in listed || (exists i :: 0 <= i < |round1.keys| && round1.keys[i] !in listed) ==> Consistent(oldPlan)
    ensures |plan.shares.keys| == |Elements(round1.keys + [state.holder])|
    ensures plan.storageKey == oldPlan.storageKey && plan.threshold == oldPlan.threshold
  {
    hide Participants, OldHolders, Elements, OldCommitment, Eval, Residue, Carries;
    WhoTakesPart(state, round1, oldPlan, listed);
    if listed == Participants(state, round1) {
      NoneUnlisted(state, round1, oldPlan, listed);
    }
    forall f | Carries(f, oldPlan) ensures current.Secret() == Residue(Eval(f, state.holder)) {
      OldCommitmentIsPoint(oldPlan, f, state.holder);
    }
  }

  /** The error of each guard of part 3, in the order in which they are looked at. */
  lemma {:induction false} RefusalsAreNamed(
    state: RefreshState, round1: Round1, round2: Round2, current: Share, oldPlan: Plan, listed: set<int>, e: StorageError)
    requires round1.Valid() && round2.Valid() && ListedAmong(listed, state, round1, oldPlan)
    requires RefreshRefusal(state, round1, round2, current, oldPlan) == Some(e)
    ensures var sizes := current.Threshold() == oldPlan.threshold == state.threshold;
      var taking := Elements(round1.keys + [state.holder]);
      && (current.holder != state.holder ==> e == InvalidArgument)
      && (current.holder == state.holder && !sizes ==> e == ShareMismatch)
      && (current.holder == state.holder && sizes && MessageRefusal(state, round1, round2) == None ==>
           e == if |taking| != state.holderCount then InvalidArgument
                else if |listed| < state.threshold then BelowThreshold
                else if listed != taking && !Consistent(oldPlan) then Crypto
                else ShareMismatch)
  {
    hide Participants, OldHolders, Elements, OldCommitment, RefreshGuards, MessageRefusal;
    WhoTakesPart(state, round1, oldPlan, listed);
  }
}

/** The probe schedule of each peer, and the pass that keeps it. */
module HolePuncher {
  import opened PairSlots

  const MAX_PROBES: nat := 16
  const MIN_GAP: int := 250
  const MAX_GAP: int := 5000

  datatype Mode = Idle | Direct | Upgrade

  datatype Timing = Timing(
    burstInterval: int,
    burstCount: nat,
    slotBurst: nat,
    slotInterval: int,
    upgradeInterval: int,
    handshakeFresh: int)

  datatype MeshPeer = MeshPeer(key: Key, endpoint: string, localEndpoints: seq<string>)

  datatype PeerState = PeerState(targets: seq<string>, mode: Mode, burstLeft: nat, next: int)

  const EPOCH: int := 0
  const NEW_STATE := PeerState([], Idle, 0, EPOCH)

  datatype Schedule = Schedule(peers: map<Key, PeerState>, staleBefore: map<Key, int>, burstNext: set<Key>)

  /** What a pass reads: the clocks (the wall clock once per slot), this device's key, the
      last handshakes, and who goes through a relay. */
  datatype Reading = Reading(
    now: int,
    nowUnix: int,
    wallClock: nat -> int,
    own: Key,
    handshakes: map<Key, int>,
    relayed: set<Key>,
    preferDirect: bool)

  // Probe targets

  function Gathered(endpoints: seq<string>): seq<string> {
    if endpoints == [] then []
    else
      var before, e := Gathered(endpoints[..|endpoints| - 1]), endpoints[|endpoints| - 1];
      if e == "" || e in before then before else before + [e]
  }

  function ProbeTargets(p: MeshPeer): seq<string> {
    Gathered(p.localEndpoints + [p.endpoint])
  }

  method GatherTargets(p: MeshPeer) returns (out: seq<string>)
    ensures out == ProbeTargets(p)
  {
    out := [];
    for i := 0 to |p.localEndpoints|
      invariant out == Gathered(p.localEndpoints[..i])
    {
      assert p.localEndpoints[..i + 1][..i] == p.localEndpoints[..i];
      if p.localEndpoints[i] != "" && p.localEndpoints[i] !in out {
        out := out + [p.localEndpoints[i]];
      }
    }
    assert p.localEndpoints[..|p.localEndpoints|] == p.localEndpoints;
    var all := p.localEndpoints + [p.endpoint];
    assert all[..|all| - 1] == p.localEndpoints;
    if p.endpoint != "" && p.endpoint !in out {
      out := out + [p.endpoint];
    }
  }

  /** Every endpoint once, in order of first appearance, and no empty one. */
  lemma {:induction false} GatheredOnce(endpoints: seq<string>)
    ensures forall e :: e in Gathered(endpoints) <==> e in endpoints && e != ""
    ensures forall i, j :: 0 <= i < j < |Gathered(endpoints)| ==> Gathered(endpoints)[i] != Gathered(endpoints)[j]
  {
    if endpoints != [] {
      var n := |endpoints| - 1;
      GatheredOnce(endpoints[..n]);
      assert endpoints == endpoints[..n] + [endpoints[n]];
    }
  }

  // Modes and slots

  function PunchMode(t: Timing, hasEndpoint: bool, relayed: bool, handshake: int, nowUnix: int, preferDirect: bool): Mode {
    if !hasEndpoint then Idle
    else if relayed then (if preferDirect then Upgrade else Idle)
    else if 0 < handshake && nowUnix - handshake < t.handshakeFresh then Idle
    else Direct
  }

  function NextSlot(t: Timing, r: Reading, peer: Key, mode: Mode, i: nat): int {
    var interval := if mode == Upgrade then t.upgradeInterval else t.slotInterval;
    r.now + NextSlotDelay(r.wallClock(i), interval, PairOffset(r.own, peer, interval))
  }

  lemma {:induction false} NextSlotIsLater(t: Timing, r: Reading, peer: Key, mode: Mode, i: nat)
    ensures r.now < NextSlot(t, r, peer, mode, i)
  {
  }

  /** In the wall clock, the next slot of a pair with a positive interval is on its grid. */
  lemma {:induction false} NextSlotIsOnGrid(t: Timing, r: Reading, peer: Key, mode: Mode, i: nat)
    requires 0 < t.slotInterval && 0 < t.upgradeInterval
    ensures var interval := if mode == Upgrade then t.upgradeInterval else t.slotInterval;
      OnGrid(r.wallClock(i) + (NextSlot(t, r, peer, mode, i) - r.now), interval, PairOffset(peer, r.own, interval))
  {
    hide NextSlotDelay, PairOffset;
    var interval := if mode == Upgrade then t.upgradeInterval else t.slotInterval;
    OffsetIsShared(r.own, peer, interval);
    DelayIsLeast(r.wallClock(i), interval, PairOffset(r.own, peer, interval), 1);
  }

  // One peer of a pass

  function Handshake(r: Reading, k: Key): int {
    if k in r.handshakes then r.handshakes[k] else 0
  }

  /** Whether a renewal still discounts the last handshake. */
  predicate Discounted(t: Timing, r: Reading, s: Schedule, k: Key) {
    k in s.staleBefore && Handshake(r, k) <= s.staleBefore[k] && r.nowUnix - s.staleBefore[k] <= t.handshakeFresh
  }

  function ModeOf(t: Timing, r: Reading, s: Schedule, p: MeshPeer): Mode {
    PunchMode(t, ProbeTargets(p) != [], p.key in r.relayed, if Discounted(t, r, s, p.key) then 0 else Handshake(r, p.key),
              r.nowUnix, r.preferDirect)
  }

  /** The state a peer takes up before it is looked at for being due. */
  function TakenUp(t: Timing, r: Reading, before: PeerState, renewed: bool, p: MeshPeer, mode: Mode, i: nat): PeerState {
    var targets := ProbeTargets(p);
    if !renewed && before.targets == targets && before.mode == mode then before
    else
      var state := before.(targets := targets, mode := mode);
      if !renewed && before.targets == targets && before.mode == Direct && mode == Upgrade then state
      else if mode == Direct || renewed then state.(burstLeft := t.burstCount, next := r.now)
      else state.(burstLeft := t.slotBurst, next := NextSlot(t, r, p.key, mode, i))
  }

  /** The state after a probe. */
  function Probed(t: Timing, r: Reading, state: PeerState, k: Key, i: nat): PeerState {
    var left := if 0 < state.burstLeft then state.burstLeft - 1 else 0;
    if 0 < left then state.(burstLeft := left, next := r.now + t.burstInterval)
    else state.(burstLeft := if t.slotBurst < 1 then 1 else t.slotBurst, next := NextSlot(t, r, k, state.mode, i))
  }

  /** The state after a probe at each of these readings. */
  function ProbedAt(t: Timing, rs: seq<Reading>, state: PeerState, k: Key, i: nat): PeerState {
    if rs == [] then state else Probed(t, rs[|rs| - 1], ProbedAt(t, rs[..|rs| - 1], state, k, i), k, i)
  }

  /** A burst is as many probes as were set, each an interval after the last; the next one
      waits for a slot, which starts a burst of its own. */
  lemma {:induction false} BurstIsExact(t: Timing, rs: seq<Reading>, state: PeerState, k: Key, i: nat)
    requires 0 < |rs| <= state.burstLeft
    ensures var after, last := ProbedAt(t, rs, state, k, i), rs[|rs| - 1];
      && after.mode == state.mode && after.targets == state.targets
      && if |rs| < state.burstLeft
         then after.burstLeft == state.burstLeft - |rs| && after.next == last.now + t.burstInterval
         else after.burstLeft == (if t.slotBurst == 0 then 1 else t.slotBurst) && after.next == NextSlot(t, last, k, state.mode, i)
  {
    hide NextSlot;
    if 1 < |rs| {
      BurstIsExact(t, rs[..|rs| - 1], state, k, i);
    } else {
      assert rs[..0] == [];
      assert ProbedAt(t, [], state, k, i) == state;
    }
  }

  datatype Pass = Pass(schedule: Schedule, listed: set<Key>, probed: seq<Key>, due: int)

  function Earlier(a: int, b: int): int {
    if a < b then a else b
  }

  function Unstale(t: Timing, r: Reading, s: Schedule, k: Key): Schedule {
    if Discounted(t, r, s, k) then s else s.(staleBefore := s.staleBefore - {k})
  }

  /** A peer that needs probes: probe it if it is due and probes are left. */
  function Advanced(t: Timing, r: Reading, pass: Pass, p: MeshPeer, mode: Mode, i: nat): Pass {
    var k, s := p.key, pass.schedule;
    var before := if k in s.peers then s.peers[k] else NEW_STATE;
    var state := TakenUp(t, r, before, k in s.burstNext, p, mode, i);
    var rest := s.burstNext - {k};
    if r.now < state.next then
      pass.(schedule := s.(peers := s.peers[k := state], burstNext := rest), due := Earlier(pass.due, state.next))
    else if MAX_PROBES <= |pass.probed| then
      pass.(schedule := s.(peers := s.peers[k := state], burstNext := rest), due := Earlier(pass.due, r.now + MIN_GAP))
    else
      var after := Probed(t, r, state, k, i);
      pass.(probed := pass.probed + [k], schedule := s.(peers := s.peers[k := after], burstNext := rest),
            due := Earlier(pass.due, after.next))
  }

  function Step(t: Timing, r: Reading, pass: Pass, p: MeshPeer, i: nat): Pass {
    if p.key == [] || p.key == r.own then pass
    else
      var s := Unstale(t, r, pass.schedule, p.key);
      var listed := pass.(listed := pass.listed + {p.key}, schedule := s);
      var mode := ModeOf(t, r, pass.schedule, p);
      if mode == Idle
      then listed.(schedule := s.(peers := s.peers - {p.key}, burstNext := s.burstNext - {p.key}))
      else Advanced(t, r, listed, p, mode, i)
  }

  function Steps(t: Timing, r: Reading, s: Schedule, peers: seq<MeshPeer>): Pass {
    if peers == [] then Pass(s, {}, [], r.now + MAX_GAP)
    else Step(t, r, Steps(t, r, s, peers[..|peers| - 1]), peers[|peers| - 1], |peers| - 1)
  }

  function OnlyListed(pass: Pass): Schedule {
    Schedule(map k | k in pass.schedule.peers && k in pass.listed :: pass.schedule.peers[k],
             map k | k in pass.schedule.staleBefore && k in pass.listed :: pass.schedule.staleBefore[k],
             set k | k in pass.schedule.burstNext && k in pass.listed)
  }

  function WakeUp(r: Reading, pass: Pass): int {
    if pass.due < r.now + MIN_GAP then r.now + MIN_GAP else pass.due
  }

  // What a pass leaves behind

  /** An entry is due later and awaited, or the probes ran out and the pass comes back soon. */
  ghost predicate Settled(r: Reading, pass: Pass, k: Key) {
    k in pass.schedule.peers ==>
      || (r.now < pass.schedule.peers[k].next && pass.due <= pass.schedule.peers[k].next)
      || (|pass.probed| == MAX_PROBES && pass.due <= r.now + MIN_GAP)
  }

  ghost predicate Punctual(r: Reading, pass: Pass) {
    && |pass.probed| <= MAX_PROBES
    && r.now < pass.due <= r.now + MAX_GAP
    && (forall k :: k in pass.probed ==> k in pass.listed)
    && (forall k :: k in pass.listed ==> Settled(r, pass, k))
  }

  lemma {:induction false} ProbedIsLater(t: Timing, r: Reading, state: PeerState, k: Key, i: nat)
    requires 0 < t.burstInterval
    ensures r.now < Probed(t, r, state, k, i).next
  {
  }

  lemma {:induction false} StepIsPunctual(t: Timing, r: Reading, pass: Pass, p: MeshPeer, i: nat)
    requires 0 < t.burstInterval && Punctual(r, pass)
    ensures Punctual(r, Step(t, r, pass, p, i))
  {
    hide ModeOf, TakenUp, Probed, Discounted;
    var k := p.key;
    if k != [] && k != r.own && ModeOf(t, r, pass.schedule, p) != Idle {
      var s := Unstale(t, r, pass.schedule, k);
      var before := if k in s.peers then s.peers[k] else NEW_STATE;
      var state := TakenUp(t, r, before, k in s.burstNext, p, ModeOf(t, r, pass.schedule, p), i);
      ProbedIsLater(t, r, state, k, i);
    }
  }

  lemma {:induction false} StepsArePunctual(t: Timing, r: Reading, s: Schedule, peers: seq<MeshPeer>)
    requires 0 < t.burstInterval
    ensures Punctual(r, Steps(t, r, s, peers))
  {
    hide Step;
    if peers != [] {
      var n := |peers| - 1;
      StepsArePunctual(t, r, s, peers[..n]);
      StepIsPunctual(t, r, Steps(t, r, s, peers[..n]), peers[n], n);
    }
  }

  /** After every pass, on any list and schedule: the wake-up is within the pass gaps; every
      entry left is a listed peer's; each is due later and not before the wake-up, short of
      the minimum gap, unless the probes ran out, and then the wake-up is that gap away. */
  lemma {:induction false} PassIsPunctual(t: Timing, r: Reading, s: Schedule, peers: seq<MeshPeer>, k: Key)
    requires 0 < t.burstInterval
    ensures var pass := Steps(t, r, s, peers);
      var now, wake := OnlyListed(pass), WakeUp(r, pass);
      && |pass.probed| <= MAX_PROBES
      && r.now + MIN_GAP <= wake <= r.now + MAX_GAP
      && (k in now.peers ==>
        && k in pass.listed
        && (r.now < now.peers[k].next || (|pass.probed| == MAX_PROBES && wake == r.now + MIN_GAP))
        && (wake <= now.peers[k].next || wake == r.now + MIN_GAP))
  {
    StepsArePunctual(t, r, s, peers);
    var pass := Steps(t, r, s, peers);
    assert k in pass.listed ==> Settled(r, pass, k);
  }

  /** The listed keys are those of the list, without this device's own. */
  lemma {:induction false} ListedExactly(t: Timing, r: Reading, s: Schedule, peers: seq<MeshPeer>, k: Key)
    ensures k in Steps(t, r, s, peers).listed <==> k != [] && k != r.own && exists i :: 0 <= i < |peers| && peers[i].key == k
  {
    if peers != [] {
      var n := |peers| - 1;
      ListedExactly(t, r, s, peers[..n], k);
      StepLists(t, r, Steps(t, r, s, peers[..n]), peers[n], n);
      if i :| 0 <= i < n && peers[i].key == k {
        assert peers[..n][i].key == k;
      }
      if i :| 0 <= i < n && peers[..n][i].key == k {
        assert peers[i].key == k;
      }
    }
  }

  lemma {:induction false} StepLists(t: Timing, r: Reading, pass: Pass, p: MeshPeer, i: nat)
    ensures Step(t, r, pass, p, i).listed == pass.listed + if p.key == [] || p.key == r.own then {} else {p.key}
  {
  }

  // Renewal

  function Renewed(s: Schedule, keys: seq<Key>, nowUnix: int): Schedule {
    if keys == [] then s
    else
      var before, k := Renewed(s, keys[..|keys| - 1], nowUnix), keys[|keys| - 1];
      if k == [] then before
      else before.(staleBefore := before.staleBefore[k := nowUnix], burstNext := before.burstNext + {k})
  }

  lemma {:induction false} RenewedHolds(s: Schedule, keys: seq<Key>, nowUnix: int, k: Key)
    ensures k != [] && k in keys ==>
      && k in Renewed(s, keys, nowUnix).burstNext
      && k in Renewed(s, keys, nowUnix).staleBefore && Renewed(s, keys, nowUnix).staleBefore[k] == nowUnix
    ensures Renewed(s, keys, nowUnix).peers == s.peers
  {
    if keys != [] {
      var n := |keys| - 1;
      RenewedHolds(s, keys[..n], nowUnix, k);
      assert keys == keys[..n] + [keys[n]];
    }
  }

  /** What is kept for a peer waits for its turn in the list. */
  lemma {:induction false} StepKeepsOthers(t: Timing, r: Reading, pass: Pass, p: MeshPeer, i: nat, k: Key)
    requires p.key != k
    ensures var now := Step(t, r, pass, p, i).schedule;
      && (k in now.burstNext <==> k in pass.schedule.burstNext)
      && (k in now.staleBefore <==> k in pass.schedule.staleBefore)
      && (k in now.staleBefore ==> now.staleBefore[k] == pass.schedule.staleBefore[k])
      && (k in now.peers <==> k in pass.schedule.peers)
      && (k in now.peers ==> now.peers[k] == pass.schedule.peers[k])
  {
    hide ModeOf, TakenUp, Probed, Discounted;
  }

  lemma {:induction false} StepsKeepOthers(t: Timing, r: Reading, s: Schedule, peers: seq<MeshPeer>, k: Key)
    requires forall i :: 0 <= i < |peers| ==> peers[i].key != k
    ensures var now := Steps(t, r, s, peers).schedule;
      && (k in now.burstNext <==> k in s.burstNext)
      && (k in now.staleBefore <==> k in s.staleBefore)
      && (k in now.staleBefore ==> now.staleBefore[k] == s.staleBefore[k])
      && (k in now.peers <==> k in s.peers)
      && (k in now.peers ==> now.peers[k] == s.peers[k])
  {
    hide Step;
    if peers != [] {
      var n := |peers| - 1;
      StepsKeepOthers(t, r, s, peers[..n], k);
      StepKeepsOthers(t, r, Steps(t, r, s, peers[..n]), peers[n], n, k);
    }
  }

  lemma {:induction false} StepLeavesOthers(t: Timing, r: Reading, pass: Pass, p: MeshPeer, i: nat, k: Key)
    ensures pass.probed <= Step(t, r, pass, p, i).probed && Step(t, r, pass, p, i).due <= pass.due
    ensures p.key != k ==> (k in Step(t, r, pass, p, i).probed <==> k in pass.probed)
  {
    hide ModeOf, TakenUp, Probed, Unstale;
  }

  /** From position `n` on nothing happens to a peer that is not listed there. */
  lemma {:induction false} StepsKeepFrom(t: Timing, r: Reading, s: Schedule, peers: seq<MeshPeer>, n: nat, k: Key)
    requires n <= |peers| && forall j :: n <= j < |peers| ==> peers[j].key != k
    ensures var before, after := Steps(t, r, s, peers[..n]), Steps(t, r, s, peers);
      && before.probed <= after.probed && after.due <= before.due && (k in after.probed <==> k in before.probed)
      && (k in after.schedule.peers <==> k in before.schedule.peers)
      && (k in after.schedule.peers ==> after.schedule.peers[k] == before.schedule.peers[k])
      && (k in after.schedule.staleBefore <==> k in before.schedule.staleBefore)
      && (k in after.schedule.staleBefore ==> after.schedule.staleBefore[k] == before.schedule.staleBefore[k])
    decreases |peers|
  {
    hide Step;
    if n < |peers| {
      var m := |peers| - 1;
      assert peers[..m][..n] == peers[..n];
      StepsKeepFrom(t, r, s, peers[..m], n, k);
      StepLeavesOthers(t, r, Steps(t, r, s, peers[..m]), peers[m], m, k);
      StepKeepsOthers(t, r, Steps(t, r, s, peers[..m]), peers[m], m, k);
    } else {
      assert peers[..n] == peers;
    }
  }

  lemma {:induction false} NotProbedBefore(t: Timing, r: Reading, s: Schedule, peers: seq<MeshPeer>, k: Key)
    requires forall j :: 0 <= j < |peers| ==> peers[j].key != k
    ensures k !in Steps(t, r, s, peers).probed
  {
    assert peers[..0] == [];
    StepsKeepFrom(t, r, s, peers, 0, k);
  }

  // Who is probed

  ghost predicate ListedOnce(r: Reading, peers: seq<MeshPeer>, i: nat) {
    && i < |peers| && peers[i].key != [] && peers[i].key != r.own
    && forall j :: 0 <= j < |peers| && j != i ==> peers[j].key != peers[i].key
  }

  /** The pass just after the turn of a peer. */
  function Turn(t: Timing, r: Reading, s: Schedule, peers: seq<MeshPeer>, i: nat): Pass
    requires i < |peers|
  {
    Step(t, r, Steps(t, r, s, peers[..i]), peers[i], i)
  }

  /** Before its turn a peer's part of the schedule is as the pass found it, and after it as
      its turn left it. */
  lemma {:induction false} TurnDecides(t: Timing, r: Reading, s: Schedule, peers: seq<MeshPeer>, i: nat)
    requires ListedOnce(r, peers, i)
    ensures var k, before, turn, pass := peers[i].key, Steps(t, r, s, peers[..i]), Turn(t, r, s, peers, i), Steps(t, r, s, peers);
      && k !in before.probed && Agree(before.schedule, s, k)
      && (k in pass.probed <==> k in turn.probed) && turn.probed <= pass.probed && pass.due <= turn.due
      && (k in pass.schedule.peers <==> k in turn.schedule.peers)
      && (k in pass.schedule.peers ==> pass.schedule.peers[k] == turn.schedule.peers[k])
      && (k in pass.schedule.staleBefore <==> k in turn.schedule.staleBefore)
      && (k in pass.schedule.staleBefore ==> pass.schedule.staleBefore[k] == turn.schedule.staleBefore[k])
  {
    hide Step;
    var k := peers[i].key;
    NotProbedBefore(t, r, s, peers[..i], k);
    StepsKeepOthers(t, r, s, peers[..i], k);
    assert peers[..i + 1][..i] == peers[..i];
    StepsKeepFrom(t, r, s, peers, i + 1, k);
  }

  /** Two schedules that keep the same for a peer. */
  ghost predicate Agree(a: Schedule, b: Schedule, k: Key) {
    && (k in a.burstNext <==> k in b.burstNext)
    && (k in a.staleBefore <==> k in b.staleBefore)
    && (k in a.staleBefore ==> a.staleBefore[k] == b.staleBefore[k])
    && (k in a.peers <==> k in b.peers)
    && (k in a.peers ==> a.peers[k] == b.peers[k])
  }

  function Entry(s: Schedule, k: Key): PeerState {
    if k in s.peers then s.peers[k] else NEW_STATE
  }

  function Rescheduled(t: Timing, r: Reading, s: Schedule, p: MeshPeer, i: nat): PeerState {
    TakenUp(t, r, Entry(s, p.key), p.key in s.burstNext, p, ModeOf(t, r, s, p), i)
  }

  /** A peer is due when it needs probes and was renewed, or a direct one has a new target or
      was not direct, or its entry still holds and its time has come. */
  ghost predicate Due(t: Timing, r: Reading, s: Schedule, p: MeshPeer) {
    var mode, entry := ModeOf(t, r, s, p), Entry(s, p.key);
    && mode != Idle
    && (|| p.key in s.burstNext
        || (mode == Direct && (entry.targets != ProbeTargets(p) || entry.mode != Direct))
        || (entry.targets == ProbeTargets(p) && (entry.mode == mode || entry.mode == Direct) && entry.next <= r.now))
  }

  lemma {:induction false} DueIsNow(t: Timing, r: Reading, s: Schedule, p: MeshPeer, i: nat)
    requires ModeOf(t, r, s, p) != Idle
    ensures Rescheduled(t, r, s, p, i).next <= r.now <==> Due(t, r, s, p)
  {
    hide ProbeTargets, NextSlot, ModeOf;
    NextSlotIsLater(t, r, p.key, ModeOf(t, r, s, p), i);
  }

  lemma {:induction false} AgreeingTurn(t: Timing, r: Reading, a: Schedule, b: Schedule, p: MeshPeer, i: nat)
    requires Agree(a, b, p.key)
    ensures ModeOf(t, r, a, p) == ModeOf(t, r, b, p)
    ensures Rescheduled(t, r, a, p, i) == Rescheduled(t, r, b, p, i)
  {
    hide ProbeTargets, PunchMode, TakenUp;
  }

  /** What the turn of a peer comes to. */
  lemma {:induction false} TurnExactly(t: Timing, r: Reading, pass: Pass, p: MeshPeer, i: nat)
    requires p.key != [] && p.key != r.own && p.key !in pass.probed
    ensures var k, turn, state := p.key, Step(t, r, pass, p, i), Rescheduled(t, r, pass.schedule, p, i);
      var needed := ModeOf(t, r, pass.schedule, p) != Idle;
      && (k in turn.schedule.peers <==> needed)
      && (k in turn.probed <==> needed && state.next <= r.now && |pass.probed| < MAX_PROBES)
      && (needed ==> turn.schedule.peers[k] == if k in turn.probed then Probed(t, r, state, k, i) else state)
      && (needed && state.next <= r.now && MAX_PROBES <= |pass.probed| ==> turn.due <= r.now + MIN_GAP)
  {
    hide ModeOf, TakenUp, Probed, Discounted;
  }

  /** Who is probed, exactly, in every pass over any list and schedule: the peers that are due
      and whose turn comes while probes are left. */
  lemma {:induction false} ProbedExactly(t: Timing, r: Reading, s: Schedule, peers: seq<MeshPeer>, i: nat)
    requires ListedOnce(r, peers, i)
    ensures peers[i].key in Steps(t, r, s, peers).probed
       <==> Due(t, r, s, peers[i]) && |Steps(t, r, s, peers[..i]).probed| < MAX_PROBES
  {
    hide Step, Due, Agree, ModeOf, Rescheduled;
    var before := Steps(t, r, s, peers[..i]);
    TurnDecides(t, r, s, peers, i);
    AgreeingTurn(t, r, before.schedule, s, peers[i], i);
    TurnExactly(t, r, before, peers[i], i);
    if ModeOf(t, r, s, peers[i]) != Idle {
      DueIsNow(t, r, s, peers[i], i);
    } else {
      IdleIsNotDue(t, r, s, peers[i]);
    }
  }

  lemma {:induction false} IdleIsNotDue(t: Timing, r: Reading, s: Schedule, p: MeshPeer)
    requires ModeOf(t, r, s, p) == Idle
    ensures !Due(t, r, s, p)
  {
  }

  /** And who is not probed for want of probes stays due, with its burst, and the pass comes
      back after the minimum gap. */
  lemma {:induction false} CappedStaysDue(t: Timing, r: Reading, s: Schedule, peers: seq<MeshPeer>, i: nat)
    requires ListedOnce(r, peers, i) && Due(t, r, s, peers[i]) && peers[i].key !in Steps(t, r, s, peers).probed
    ensures var k, pass := peers[i].key, Steps(t, r, s, peers);
      && k in OnlyListed(pass).peers && OnlyListed(pass).peers[k] == Rescheduled(t, r, s, peers[i], i)
      && OnlyListed(pass).peers[k].next <= r.now && WakeUp(r, pass) == r.now + MIN_GAP
  {
    hide Step, Agree, ModeOf, Rescheduled;
    var before := Steps(t, r, s, peers[..i]);
    TurnDecides(t, r, s, peers, i);
    AgreeingTurn(t, r, before.schedule, s, peers[i], i);
    TurnExactly(t, r, before, peers[i], i);
    DueIsNow(t, r, s, peers[i], i);
    ListedExactly(t, r, s, peers, peers[i].key);
  }

  /** After a pass, the peers with an entry are exactly the listed ones that need probes: those
      with a target that go through a relay while a direct path is preferred, or that have no
      handshake fresh enough and newer than their renewal. */
  lemma {:induction false} EntriesExactly(t: Timing, r: Reading, s: Schedule, peers: seq<MeshPeer>, i: nat)
    requires ListedOnce(r, peers, i)
    ensures var k, p := peers[i].key, peers[i];
      var stale := k in s.staleBefore && Handshake(r, k) <= s.staleBefore[k] && r.nowUnix <= s.staleBefore[k] + t.handshakeFresh;
      var working := !stale && 0 < Handshake(r, k) && r.nowUnix < Handshake(r, k) + t.handshakeFresh;
      k in OnlyListed(Steps(t, r, s, peers)).peers
      <==> ProbeTargets(p) != [] && (if k in r.relayed then r.preferDirect else !working)
  {
    hide Step, Agree, TakenUp, Probed, ProbeTargets;
    var before := Steps(t, r, s, peers[..i]);
    TurnDecides(t, r, s, peers, i);
    AgreeingTurn(t, r, before.schedule, s, peers[i], i);
    TurnExactly(t, r, before, peers[i], i);
    ListedExactly(t, r, s, peers, peers[i].key);
  }

  lemma {:induction false} TurnUnstales(t: Timing, r: Reading, pass: Pass, p: MeshPeer, i: nat)
    requires p.key != [] && p.key != r.own
    ensures var stale := Step(t, r, pass, p, i).schedule.staleBefore;
      && (p.key in stale <==> Discounted(t, r, pass.schedule, p.key))
      && (p.key in stale ==> stale[p.key] == pass.schedule.staleBefore[p.key])
  {
    hide ModeOf, TakenUp, Probed, Discounted;
    assert Discounted(t, r, pass.schedule, p.key) ==> p.key in pass.schedule.staleBefore by { DiscountedIsStale(t, r, pass.schedule, p.key); }
  }

  lemma {:induction false} DiscountedIsStale(t: Timing, r: Reading, s: Schedule, k: Key)
    ensures Discounted(t, r, s, k) ==> k in s.staleBefore
  {
  }

  /** How long a renewal lasts: a pass that lists the peer ends it exactly when it finds a
      handshake from after it, or when it is too old. */
  lemma {:induction false} RenewalLastsExactly(t: Timing, r: Reading, s: Schedule, peers: seq<MeshPeer>, i: nat)
    requires ListedOnce(r, peers, i)
    ensures var k, after := peers[i].key, OnlyListed(Steps(t, r, s, peers)).staleBefore;
      && (k in after <==> k in s.staleBefore && Handshake(r, k) <= s.staleBefore[k]
                          && r.nowUnix <= s.staleBefore[k] + t.handshakeFresh)
      && (k in after ==> after[k] == s.staleBefore[k])
  {
    hide Step;
    var before := Steps(t, r, s, peers[..i]);
    TurnDecides(t, r, s, peers, i);
    TurnUnstales(t, r, before, peers[i], i);
    ListedExactly(t, r, s, peers, peers[i].key);
  }

  /** Where an interval leads: to the next instant of the grid that the pair shares. */
  function SlotAfter(r: Reading, k: Key, interval: int, i: nat): int {
    r.now + NextSlotDelay(r.wallClock(i), interval, PairOffset(r.own, k, interval))
  }

  /** How the schedule of a peer changes in a pass: a direct peer with new targets, or newly
      direct, and a renewed one, is due at once with a whole burst; a peer newly behind a relay,
      or with new targets there, waits for a slot of the upgrade interval with a slot's burst;
      one that moved onto a relay with its old targets keeps its burst and its time, and so does
      one of which nothing changed. When it is probed, one probe of the burst is spent, and the
      next is a burst interval away or, after the last, at a slot of its mode's interval. */
  lemma {:induction false} EntryExactly(t: Timing, r: Reading, s: Schedule, peers: seq<MeshPeer>, i: nat)
    requires ListedOnce(r, peers, i) && ModeOf(t, r, s, peers[i]) != Idle
    ensures var p, k, pass := peers[i], peers[i].key, Steps(t, r, s, peers);
      var mode, was := ModeOf(t, r, s, p), Entry(s, k);
      var changed := was.targets != ProbeTargets(p) || was.mode != mode;
      var ontoRelay := was.targets == ProbeTargets(p) && was.mode == Direct && mode == Upgrade;
      var (burst, due) :=
        if k in s.burstNext || (changed && mode == Direct) then (t.burstCount, r.now)
        else if changed && !ontoRelay then (t.slotBurst, SlotAfter(r, k, t.upgradeInterval, i))
        else (was.burstLeft, was.next);
      var interval := if mode == Upgrade then t.upgradeInterval else t.slotInterval;
      && k in OnlyListed(pass).peers
      && OnlyListed(pass).peers[k] ==
           if k !in pass.probed then PeerState(ProbeTargets(p), mode, burst, due)
           else if 1 < burst then PeerState(ProbeTargets(p), mode, burst - 1, r.now + t.burstInterval)
           else PeerState(ProbeTargets(p), mode, if t.slotBurst == 0 then 1 else t.slotBurst, SlotAfter(r, k, interval, i))
  {
    hide Step, Agree, ProbeTargets, NextSlotDelay, PairOffset;
    var before := Steps(t, r, s, peers[..i]);
    TurnDecides(t, r, s, peers, i);
    AgreeingTurn(t, r, before.schedule, s, peers[i], i);
    TurnExactly(t, r, before, peers[i], i);
    ListedExactly(t, r, s, peers, peers[i].key);
  }

  /** A renewed peer is probed by the next pass that lists it, relayed or not, fresh handshake
      or not; when that pass has run out of probes it stays due with a whole burst, and the
      pass comes back after the minimum gap. */
  lemma {:induction false} RenewedIsProbed(t: Timing, r: Reading, s: Schedule, keys: seq<Key>, renewedAt: int, peers: seq<MeshPeer>, i: nat)
    requires ListedOnce(r, peers, i) && peers[i].key in keys
    requires ProbeTargets(peers[i]) != [] && (peers[i].key in r.relayed ==> r.preferDirect)
    requires Handshake(r, peers[i].key) <= renewedAt && r.nowUnix - renewedAt <= t.handshakeFresh
    ensures var k, start := peers[i].key, Renewed(s, keys, renewedAt);
      var pass, now := Steps(t, r, start, peers), OnlyListed(Steps(t, r, start, peers));
      && (k in pass.probed <==> |Steps(t, r, start, peers[..i]).probed| < MAX_PROBES)
      && (k !in pass.probed ==>
           && k in now.peers && now.peers[k].next == r.now && now.peers[k].burstLeft == t.burstCount
           && WakeUp(r, pass) == r.now + MIN_GAP)
  {
    hide Steps, OnlyListed, WakeUp, ProbeTargets, Renewed, NextSlot;
    var start := Renewed(s, keys, renewedAt);
    RenewedHolds(s, keys, renewedAt, peers[i].key);
    assert ModeOf(t, r, start, peers[i]) != Idle;
    ProbedExactly(t, r, start, peers, i);
    if peers[i].key !in Steps(t, r, start, peers).probed {
      CappedStaysDue(t, r, start, peers, i);
    }
  }

  /** Every entry starts a new burst at the next pass. */
  function Bursting(t: Timing, s: Schedule): Schedule {
    s.(peers := map k | k in s.peers :: s.peers[k].(burstLeft := t.burstCount, next := EPOCH))
  }

  /** Whether a peer that is being probed gets the burst that was asked for at the next pass:
      if it still needs probes it does, unless it is relayed and has new targets and was not
      renewed too, for then it is put off to its next slot. */
  lemma {:induction false} BurstIsProbedExactly(t: Timing, r: Reading, s: Schedule, peers: seq<MeshPeer>, i: nat)
    requires ListedOnce(r, peers, i) && EPOCH <= r.now
    requires peers[i].key in s.peers && s.peers[peers[i].key].mode != Idle
    ensures var k, start := peers[i].key, Bursting(t, s);
      k in Steps(t, r, start, peers).probed
      <==> && ModeOf(t, r, s, peers[i]) != Idle
           && (k in s.burstNext || k !in r.relayed || ProbeTargets(peers[i]) == s.peers[k].targets)
           && |Steps(t, r, start, peers[..i]).probed| < MAX_PROBES
  {
    hide Steps, ProbeTargets;
    ProbedExactly(t, r, Bursting(t, s), peers, i);
  }

  const UNUSED := Schedule(map[], map[], {})

  lemma {:induction false} FirstLook(t: Timing, r: Reading, p: MeshPeer)
    requires p.key != [] && p.key != r.own && p.key in r.relayed && r.preferDirect && ProbeTargets(p) != []
    ensures var s := OnlyListed(Steps(t, r, UNUSED, [p]));
      p.key in s.peers && s.peers[p.key].mode == Upgrade && s.peers[p.key].targets == ProbeTargets(p) && p.key !in s.burstNext
  {
    hide Step, Steps, ProbeTargets, NextSlot, Agree;
    var peers := [p];
    assert ListedOnce(r, peers, 0);
    TurnDecides(t, r, UNUSED, peers, 0);
    EmptyPass(t, r, UNUSED, peers);
    TurnExactly(t, r, Steps(t, r, UNUSED, []), p, 0);
    ListedExactly(t, r, UNUSED, peers, p.key);
    NoBurstLeft(t, r, peers);
  }

  /** A peer that goes through a relay and is being probed since the first pass gets a new
      target; the pass after `BurstNow` does not probe it. */
  lemma {:induction false} NewTargetMissesBurst(t: Timing, first: Reading, r: Reading, k: Key)
    requires k != [] && k != first.own && k in first.relayed && first.preferDirect
    requires k != r.own && k in r.relayed && r.preferDirect && EPOCH <= r.now
    ensures var s := OnlyListed(Steps(t, first, UNUSED, [MeshPeer(k, "a", [])]));
      && k in s.peers && s.peers[k].mode == Upgrade
      && k !in Steps(t, r, Bursting(t, s), [MeshPeer(k, "b", [])]).probed
  {
    hide Steps, OnlyListed, ProbeTargets;
    var p, q := MeshPeer(k, "a", []), MeshPeer(k, "b", []);
    OneTarget(p);
    OneTarget(q);
    FirstLook(t, first, p);
    var s := OnlyListed(Steps(t, first, UNUSED, [p]));
    assert ListedOnce(r, [q], 0);
    BurstIsProbedExactly(t, r, s, [q], 0);
  }

  lemma {:induction false} EmptyPass(t: Timing, r: Reading, s: Schedule, peers: seq<MeshPeer>)
    requires peers != []
    ensures peers[..0] == [] && Steps(t, r, s, peers[..0]) == Steps(t, r, s, [])
    ensures Steps(t, r, s, []).schedule == s && Turn(t, r, s, peers, 0) == Step(t, r, Steps(t, r, s, []), peers[0], 0)
  {
    assert peers[..0] == [];
  }

  /** A pass renews nobody. */
  lemma {:induction false} NoBurstLeft(t: Timing, r: Reading, peers: seq<MeshPeer>)
    ensures Steps(t, r, UNUSED, peers).schedule.burstNext == {}
  {
    hide ModeOf, TakenUp, Probed, Discounted;
    if peers != [] {
      NoBurstLeft(t, r, peers[..|peers| - 1]);
    }
  }

  lemma {:induction false} OneTarget(p: MeshPeer)
    requires p.localEndpoints == [] && p.endpoint != ""
    ensures ProbeTargets(p) == [p.endpoint]
  {
    var all := p.localEndpoints + [p.endpoint];
    assert all[..0] == [];
    assert Gathered([]) == [];
  }

  method TakeUp(t: Timing, r: Reading, before: PeerState, renewed: bool, p: MeshPeer, targets: seq<string>, mode: Mode, i: nat)
    returns (state: PeerState)
    requires targets == ProbeTargets(p) && mode != Idle
    ensures state == TakenUp(t, r, before, renewed, p, mode, i) && state.mode == mode
  {
    hide ProbeTargets, NextSlot;
    state := before;
    if renewed || state.targets != targets || state.mode != mode {
      var ontoRelay := !renewed && state.targets == targets && state.mode == Direct && mode == Upgrade;
      state := state.(targets := targets, mode := mode);
      if !ontoRelay {
        if mode == Direct || renewed {
          state := state.(burstLeft := t.burstCount, next := r.now);
        } else {
          state := state.(burstLeft := t.slotBurst, next := NextSlot(t, r, p.key, mode, i));
        }
      }
    }
  }

  method MoveOn(t: Timing, r: Reading, before: PeerState, k: Key, mode: Mode, i: nat) returns (state: PeerState)
    requires before.mode == mode
    ensures state == Probed(t, r, before, k, i)
  {
    hide NextSlot;
    state := before;
    if 0 < state.burstLeft {
      state := state.(burstLeft := state.burstLeft - 1);
    }
    if 0 < state.burstLeft {
      state := state.(next := r.now + t.burstInterval);
    } else {
      state := state.(burstLeft := if t.slotBurst < 1 then 1 else t.slotBurst, next := NextSlot(t, r, k, mode, i));
    }
  }

  class Puncher {
    const timing: Timing
    var peers: map<Key, PeerState>
    var staleBefore: map<Key, int>
    var burstNext: set<Key>
    var probesSent: nat

    function View(): Schedule
      reads this
    {
      Schedule(peers, staleBefore, burstNext)
    }

    constructor (timing: Timing)
      ensures View() == Schedule(map[], map[], {}) && probesSent == 0 && this.timing == timing
    {
      this.timing := timing;
      peers, staleBefore, burstNext, probesSent := map[], map[], {}, 0;
    }

    method Reset()
      modifies this`peers, this`staleBefore, this`burstNext
      ensures View() == Schedule(map[], map[], {})
    {
      peers, staleBefore, burstNext := map[], map[], {};
    }

    method Renew(keys: seq<Key>, nowUnix: int)
      modifies this`staleBefore, this`burstNext
      ensures View() == Renewed(old(View()), keys, nowUnix)
    {
      for i := 0 to |keys|
        invariant View() == Renewed(old(View()), keys[..i], nowUnix)
      {
        assert keys[..i + 1][..i] == keys[..i];
        if keys[i] == [] {
          continue;
        }
        staleBefore := staleBefore[keys[i] := nowUnix];
        burstNext := burstNext + {keys[i]};
      }
      assert keys[..|keys|] == keys;
    }

    method BurstNow()
      modifies this`peers
      ensures View() == Bursting(timing, old(View()))
    {
      var todo := peers.Keys;
      while todo != {}
        invariant todo <= peers.Keys == old(peers.Keys)
        invariant forall k :: k in peers ==>
          peers[k] == if k in todo then old(peers)[k] else old(peers)[k].(burstLeft := timing.burstCount, next := EPOCH)
        decreases |todo|
      {
        var k :| k in todo;
        peers := peers[k := peers[k].(burstLeft := timing.burstCount, next := EPOCH)];
        todo := todo - {k};
      }
    }

    /** Look at one peer of the list. */
    method Look(r: Reading, p: MeshPeer, i: nat, ghost pass: Pass, probes: nat, due: int, sent: nat)
      returns (nowProbes: nat, nowDue: int)
      requires p.key != [] && p.key != r.own
      requires pass.schedule == View() && probes == |pass.probed| && due == pass.due
      modifies this
      ensures View() == Step(timing, r, pass, p, i).schedule
      ensures nowProbes == |Step(timing, r, pass, p, i).probed| && nowDue == Step(timing, r, pass, p, i).due
    {
      hide ProbeTargets, PunchMode, Advanced, Discounted;
      var k := p.key;
      var handshake := CountedHandshake(r, k);
      var targets := GatherTargets(p);
      var mode := PunchMode(timing, targets != [], k in r.relayed, handshake, r.nowUnix, r.preferDirect);
      assert mode == ModeOf(timing, r, pass.schedule, p);
      if mode == Idle {
        peers := peers - {k};
        burstNext := burstNext - {k};
        return probes, due;
      }
      nowProbes, nowDue := Advance(r, p, targets, mode, i, pass.(listed := pass.listed + {k}, schedule := View()), probes, due, sent);
    }

    method Advance(r: Reading, p: MeshPeer, targets: seq<string>, mode: Mode, i: nat, ghost pass: Pass, probes: nat, due: int, sent: nat)
      returns (nowProbes: nat, nowDue: int)
      requires targets == ProbeTargets(p) && mode != Idle
      requires pass.schedule == View() && probes == |pass.probed| && due == pass.due
      modifies this
      ensures View() == Advanced(timing, r, pass, p, mode, i).schedule
      ensures nowProbes == |Advanced(timing, r, pass, p, mode, i).probed| && nowDue == Advanced(timing, r, pass, p, mode, i).due
    {
      hide ProbeTargets, TakenUp, Probed;
      var k := p.key;
      nowProbes := probes;
      var state := if k in peers then peers[k] else NEW_STATE;
      var renewed := k in burstNext;
      burstNext := burstNext - {k};
      state := TakeUp(timing, r, state, renewed, p, targets, mode, i);
      if r.now < state.next {
        nowDue := Earlier(due, state.next);
      } else if MAX_PROBES <= probes {
        nowDue := Earlier(due, r.now + MIN_GAP);
      } else {
        nowProbes := probes + 1;
        probesSent := probesSent + sent;
        state := MoveOn(timing, r, state, k, mode, i);
        nowDue := Earlier(due, state.next);
      }
      peers := peers[k := state];
    }

    /** The last handshake, unless it is from before a renewal. */
    method CountedHandshake(r: Reading, k: Key) returns (handshake: int)
      modifies this`staleBefore
      ensures View() == Unstale(timing, r, old(View()), k)
      ensures handshake == if Discounted(timing, r, old(View()), k) then 0 else Handshake(r, k)
    {
      handshake := Handshake(r, k);
      if k in staleBefore {
        if staleBefore[k] < handshake || timing.handshakeFresh < r.nowUnix - staleBefore[k] {
          staleBefore := staleBefore - {k};
        } else {
          handshake := 0;
        }
      } else {
        assert staleBefore - {k} == staleBefore;
      }
    }

    /** One pass over the list: the time of the next one. */
    method Maintain(list: seq<MeshPeer>, r: Reading, sent: seq<nat>) returns (wake: int)
      requires |sent| == |list|
      modifies this
      ensures r.own == [] ==> View() == Schedule(map[], map[], {}) && wake == r.now + MAX_GAP
      ensures r.own != [] ==>
        var pass := Steps(timing, r, old(View()), list); View() == OnlyListed(pass) && wake == WakeUp(r, pass)
    {
      hide Step;
      var due := r.now + MAX_GAP;
      if r.own == [] {
        Reset();
        return due;
      }
      var listed: set<Key>, probes := {}, 0;
      ghost var start := View();
      for i := 0 to |list|
        invariant var pass := Steps(timing, r, start, list[..i]);
          View() == pass.schedule && listed == pass.listed && probes == |pass.probed| && due == pass.due
      {
        assert list[..i + 1][..i] == list[..i];
        ghost var pass := Steps(timing, r, start, list[..i]);
        StepLists(timing, r, pass, list[i], i);
        if list[i].key == [] || list[i].key == r.own {
          SkipStep(timing, r, pass, list[i], i);
          continue;
        }
        listed := listed + {list[i].key};
        probes, due := Look(r, list[i], i, pass, probes, due, sent[i]);
      }
      assert list[..|list|] == list;
      peers := map k | k in peers && k in listed :: peers[k];
      staleBefore := map k | k in staleBefore && k in listed :: staleBefore[k];
      burstNext := set k | k in burstNext && k in listed;
      wake := if due < r.now + MIN_GAP then r.now + MIN_GAP else due;
    }
  }

  lemma {:induction false} SkipStep(t: Timing, r: Reading, pass: Pass, p: MeshPeer, i: nat)
    requires p.key == [] || p.key == r.own
    ensures Step(t, r, pass, p, i) == pass
  {
  }
}

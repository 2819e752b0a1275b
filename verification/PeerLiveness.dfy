/** Which known peers read online, over monitor passes and peer refreshes. */
module PeerLiveness {
  import opened Options

  type Key = string

  type PassCount = n: nat | 1 <= n witness 2

  /** How many stale passes in a row make a peer offline; it is 2, and nothing depends on
      more than there being one. */
  const OFFLINE_PASSES: PassCount

  datatype Liveness = Liveness(online: bool, stalePasses: nat)

  function NextLiveness(previous: Liveness, isFresh: bool): Liveness {
    if isFresh then Liveness(true, 0)
    else if previous.online && previous.stalePasses + 1 < OFFLINE_PASSES then Liveness(true, previous.stalePasses + 1)
    else Liveness(false, 0)
  }

  datatype Peer = Peer(nodeId: string, key: Key, online: bool)

  /** A signal is fresh, stale, or not there to judge by. */
  type Signal = Option<bool>

  function Count(stale: map<Key, nat>, k: Key): nat {
    if k in stale then stale[k] else 0
  }

  // One pass

  predicate Undecided(counted: bool, signal: Signal) {
    signal.None? || (!counted && !signal.value)
  }

  function Judged(stale: map<Key, nat>, p: Peer, counted: bool, signal: Signal): Peer {
    if Undecided(counted, signal) then p
    else p.(online := NextLiveness(Liveness(p.online, Count(stale, p.key)), signal.value).online)
  }

  function JudgedAll(stale: map<Key, nat>, peers: seq<Peer>, counted: bool, signals: seq<Signal>): (judged: seq<Peer>)
    requires |signals| == |peers|
    ensures |judged| == |peers|
    ensures forall i :: 0 <= i < |peers| ==> judged[i] == Judged(stale, peers[i], counted, signals[i])
  {
    seq(|peers|, i requires 0 <= i < |peers| => Judged(stale, peers[i], counted, signals[i]))
  }

  /** The stale count that a pass leaves a peer with. */
  function CountAfter(stale: map<Key, nat>, p: Peer, counted: bool, signal: Signal): nat {
    if signal.None? then 0
    else if !counted && !signal.value then Count(stale, p.key)
    else NextLiveness(Liveness(p.online, Count(stale, p.key)), signal.value).stalePasses
  }

  /** The counts of a pass, built up peer by peer. */
  function Recounted(stale: map<Key, nat>, peers: seq<Peer>, counted: bool, signals: seq<Signal>): map<Key, nat>
    requires |signals| == |peers|
  {
    if peers == [] then map[]
    else
      var n := |peers| - 1;
      var before := Recounted(stale, peers[..n], counted, signals[..n]);
      var after := CountAfter(stale, peers[n], counted, signals[n]);
      if 0 < after then before[peers[n].key := after] else before
  }

  ghost predicate DistinctKeys(peers: seq<Peer>) {
    forall i, j :: 0 <= i < j < |peers| ==> peers[i].key != peers[j].key
  }

  lemma {:induction false} RecountedAt(stale: map<Key, nat>, peers: seq<Peer>, counted: bool, signals: seq<Signal>, i: nat)
    requires |signals| == |peers| && DistinctKeys(peers) && i < |peers|
    ensures Count(Recounted(stale, peers, counted, signals), peers[i].key) == CountAfter(stale, peers[i], counted, signals[i])
    decreases |peers|
  {
    hide CountAfter;
    var n := |peers| - 1;
    if i < n {
      RecountedAt(stale, peers[..n], counted, signals[..n], i);
    } else {
      RecountedElsewhere(stale, peers[..n], counted, signals[..n], peers[n].key);
    }
  }

  lemma {:induction false} RecountedElsewhere(stale: map<Key, nat>, peers: seq<Peer>, counted: bool, signals: seq<Signal>, k: Key)
    requires |signals| == |peers| && forall i :: 0 <= i < |peers| ==> peers[i].key != k
    ensures k !in Recounted(stale, peers, counted, signals)
  {
    hide CountAfter;
    if peers != [] {
      var n := |peers| - 1;
      RecountedElsewhere(stale, peers[..n], counted, signals[..n], k);
    }
  }

  // A refresh

  predicate SamePeer(a: Peer, b: Peer) {
    a.nodeId == b.nodeId && a.key == b.key
  }

  /** What was worked out for a peer already known is kept; a new one has the server's bit. */
  function CarriedOver(known: seq<Peer>, p: Peer): Peer {
    if known == [] then p
    else if SamePeer(known[0], p) then p.(online := known[0].online)
    else CarriedOver(known[1..], p)
  }

  function Refreshed(known: seq<Peer>, list: seq<Peer>): (peers: seq<Peer>)
    ensures |peers| == |list|
    ensures forall i :: 0 <= i < |list| ==> peers[i] == CarriedOver(known, list[i])
  {
    seq(|list|, i requires 0 <= i < |list| => CarriedOver(known, list[i]))
  }

  lemma {:induction false} CarriedOverKeeps(known: seq<Peer>, p: Peer)
    ensures SamePeer(CarriedOver(known, p), p)
    ensures DistinctKeys(known) ==> forall i :: 0 <= i < |known| && SamePeer(known[i], p) ==> CarriedOver(known, p).online == known[i].online
    ensures (forall i :: 0 <= i < |known| ==> !SamePeer(known[i], p)) ==> CarriedOver(known, p) == p
  {
    if known != [] {
      CarriedOverKeeps(known[1..], p);
      assert forall i :: 1 <= i < |known| ==> known[i] == known[1..][i - 1];
    }
  }

  // Runs

  datatype State = State(peers: seq<Peer>, stale: map<Key, nat>)

  datatype Step =
    | Monitor(counted: bool, signals: seq<Signal>)
    | Refresh(list: seq<Peer>)
    | Stop

  const FRESH := State([], map[])

  ghost predicate Enabled(s: State, step: Step) {
    match step
    case Monitor(_, signals) => |signals| == |s.peers|
    case Refresh(list) => DistinctKeys(list)
    case Stop => true
  }

  ghost function Next(s: State, step: Step): State
    requires Enabled(s, step)
  {
    match step
    case Monitor(counted, signals) =>
      State(JudgedAll(s.stale, s.peers, counted, signals), Recounted(s.stale, s.peers, counted, signals))
    case Refresh(list) => State(Refreshed(s.peers, list), s.stale)
    case Stop => FRESH
  }

  ghost predicate IsRun(states: seq<State>, steps: seq<Step>) {
    && |states| == |steps| + 1 && states[0] == FRESH
    && forall i :: 0 <= i < |steps| ==> Enabled(states[i], steps[i]) && states[i + 1] == Next(states[i], steps[i])
  }

  ghost predicate KnownAt(peers: seq<Peer>, k: Key, i: int) {
    0 <= i < |peers| && peers[i].key == k
  }

  /** Whether a pass found a key's signal stale. */
  ghost predicate FoundStale(s: State, signals: seq<Signal>, k: Key)
    requires |signals| == |s.peers|
  {
    exists i :: KnownAt(s.peers, k, i) && signals[i] == Some(false)
  }

  /** How many counted stale passes in a row a key has behind it, read off the run alone: a
      pass that finds it fresh, without a signal or not listed ends the row; an uncounted
      stale pass and a refresh do not count. */
  ghost function StaleRow(states: seq<State>, steps: seq<Step>, i: nat, k: Key): nat
    requires IsRun(states, steps) && i < |states|
  {
    if i == 0 then 0
    else
      match steps[i - 1]
      case Monitor(counted, signals) =>
        if !FoundStale(states[i - 1], signals, k) then 0
        else StaleRow(states, steps, i - 1, k) + if counted then 1 else 0
      case Refresh(_) => StaleRow(states, steps, i - 1, k)
      case Stop => 0
  }

  lemma {:induction false} KeysStayDistinct(states: seq<State>, steps: seq<Step>, i: nat)
    requires IsRun(states, steps) && i < |states|
    ensures DistinctKeys(states[i].peers)
  {
    if 0 < i {
      KeysStayDistinct(states, steps, i - 1);
      if steps[i - 1].Refresh? {
        var s, list := states[i - 1], steps[i - 1].list;
        forall j | 0 <= j < |list| ensures states[i].peers[j].key == list[j].key {
          CarriedOverKeeps(s.peers, list[j]);
        }
      }
    }
  }

  lemma {:induction false} CountAfterGrowsBy(stale: map<Key, nat>, p: Peer, counted: bool, signal: Signal)
    requires Count(stale, p.key) < OFFLINE_PASSES
    ensures CountAfter(stale, p, counted, signal) < OFFLINE_PASSES
    ensures signal != Some(false) ==> CountAfter(stale, p, counted, signal) == 0
    ensures CountAfter(stale, p, counted, signal) <= Count(stale, p.key) + if counted then 1 else 0
  {
  }

  /** The stored count never exceeds the row of counted stale passes. */
  lemma {:induction false} CountIsWithinRow(states: seq<State>, steps: seq<Step>, i: nat, k: Key)
    requires IsRun(states, steps) && i < |states|
    ensures Count(states[i].stale, k) <= StaleRow(states, steps, i, k)
    ensures Count(states[i].stale, k) < OFFLINE_PASSES
  {
    hide CountAfter, NextLiveness;
    if 0 < i {
      CountIsWithinRow(states, steps, i - 1, k);
      if steps[i - 1].Monitor? {
        var s, step := states[i - 1], steps[i - 1];
        KeysStayDistinct(states, steps, i - 1);
        if j :| KnownAt(s.peers, k, j) {
          RecountedAt(s.stale, s.peers, step.counted, step.signals, j);
          CountAfterGrowsBy(s.stale, s.peers[j], step.counted, step.signals[j]);
          OnlyAt(s.peers, k, j);
        } else {
          assert forall j :: 0 <= j < |s.peers| ==> s.peers[j].key != k by {
            assert forall j :: 0 <= j < |s.peers| && s.peers[j].key == k ==> KnownAt(s.peers, k, j);
          }
          RecountedElsewhere(s.stale, s.peers, step.counted, step.signals, k);
        }
      }
    }
  }

  lemma {:induction false} OnlyAt(peers: seq<Peer>, k: Key, i: int)
    requires DistinctKeys(peers) && KnownAt(peers, k, i)
    ensures forall j :: KnownAt(peers, k, j) ==> j == i
  {
  }

  /** A pass turns an online peer offline only as the last of a row of counted stale passes;
      an uncounted pass never does. */
  lemma {:induction false} OfflineTakesARow(states: seq<State>, steps: seq<Step>, i: nat, j: nat)
    requires IsRun(states, steps) && i < |steps| && steps[i].Monitor? && j < |states[i].peers|
    requires states[i].peers[j].online && !states[i + 1].peers[j].online
    ensures steps[i].counted && steps[i].signals[j] == Some(false)
    ensures OFFLINE_PASSES <= StaleRow(states, steps, i + 1, states[i].peers[j].key)
  {
    var s, k := states[i], states[i].peers[j].key;
    CountIsWithinRow(states, steps, i, k);
    assert KnownAt(s.peers, k, j);
    assert FoundStale(s, steps[i].signals, k);
  }

  /** What a pass does otherwise: a fresh signal turns any peer online and ends its row; without
      a signal, or with a stale one that does not count, it stays as it was. */
  lemma {:induction false} SignalDecides(states: seq<State>, steps: seq<Step>, i: nat, j: nat)
    requires IsRun(states, steps) && i < |steps| && steps[i].Monitor? && j < |states[i].peers|
    ensures |states[i + 1].peers| == |states[i].peers|
    ensures var signal, before, after := steps[i].signals[j], states[i].peers[j], states[i + 1].peers[j];
      var was, now := Count(states[i].stale, before.key), Count(states[i + 1].stale, before.key);
      && (signal == Some(true) ==> after == before.(online := true) && now == 0)
      && (signal == None ==> after == before && now == 0)
      && (signal == Some(false) && !steps[i].counted ==> after == before && now == was)
      && (signal == Some(false) && !before.online ==> after == before)
  {
    hide Recounted;
    KeysStayDistinct(states, steps, i);
    RecountedAt(states[i].stale, states[i].peers, steps[i].counted, steps[i].signals, j);
  }

  /** Nothing else turns a known peer offline: a refresh keeps what was worked out. */
  lemma {:induction false} RefreshKeepsOnline(states: seq<State>, steps: seq<Step>, i: nat, j: nat, n: nat)
    requires IsRun(states, steps) && i < |steps| && steps[i].Refresh?
    requires j < |states[i].peers| && n < |states[i + 1].peers| && SamePeer(states[i].peers[j], states[i + 1].peers[n])
    ensures states[i + 1].peers[n].online == states[i].peers[j].online
  {
    KeysStayDistinct(states, steps, i);
    CarriedOverKeeps(states[i].peers, steps[i].list[n]);
  }

  ghost predicate PeerAt(peers: seq<Peer>, id: string, k: Key, j: int) {
    KnownAt(peers, k, j) && peers[j].nodeId == id
  }

  ghost predicate IsListed(s: State, id: string, k: Key) {
    exists j :: PeerAt(s.peers, id, k, j)
  }

  /** A refresh, or a pass that finds the key stale. */
  ghost predicate StaysStale(s: State, step: Step, k: Key)
    requires Enabled(s, step)
  {
    step.Refresh? || (step.Monitor? && FoundStale(s, step.signals, k))
  }

  /** From `i` to `m` the peer stays listed and no pass finds it other than stale. */
  ghost predicate StaleStretch(states: seq<State>, steps: seq<Step>, id: string, k: Key, i: nat, m: nat)
    requires IsRun(states, steps) && i <= m < |states|
  {
    && (forall n :: i <= n <= m ==> IsListed(states[n], id, k))
    && forall n :: i <= n < m ==> StaysStale(states[n], steps[n], k)
  }

  function CountedPasses(steps: seq<Step>, i: nat, m: nat): nat
    requires i <= m <= |steps|
  {
    if i == m then 0
    else CountedPasses(steps, i, m - 1) + if steps[m - 1].Monitor? && steps[m - 1].counted then 1 else 0
  }

  lemma StaleStep(stale: map<Key, nat>, p: Peer, counted: bool)
    ensures Judged(stale, p, counted, Some(false)).online ==>
      p.online && CountAfter(stale, p, counted, Some(false)) == Count(stale, p.key) + if counted then 1 else 0
  {
  }

  lemma {:induction false} StalePass(s: State, step: Step, k: Key, j: nat)
    requires Enabled(s, step) && step.Monitor? && DistinctKeys(s.peers) && KnownAt(s.peers, k, j) && FoundStale(s, step.signals, k)
    ensures var next := Next(s, step);
      next.peers[j].online ==> s.peers[j].online && Count(next.stale, k) == Count(s.stale, k) + if step.counted then 1 else 0
  {
    hide Recounted, CountAfter, NextLiveness, Judged, Count;
    OnlyAt(s.peers, k, j);
    RecountedAt(s.stale, s.peers, step.counted, step.signals, j);
    StaleStep(s.stale, s.peers[j], step.counted);
  }

  /** While a peer stays online, the stored count keeps up with the counted stale passes. */
  lemma {:induction false} OnlineIsCounted(states: seq<State>, steps: seq<Step>, id: string, k: Key, i: nat, m: nat, j: nat)
    requires IsRun(states, steps) && i <= m < |states| && StaleStretch(states, steps, id, k, i, m)
    requires PeerAt(states[m].peers, id, k, j)
    ensures states[m].peers[j].online ==> CountedPasses(steps, i, m) <= Count(states[m].stale, k)
    decreases m
  {
    hide Recounted, Judged, Count, FoundStale;
    if i < m {
      var s, step := states[m - 1], steps[m - 1];
      assert IsListed(s, id, k) && StaysStale(s, step, k);
      KeysStayDistinct(states, steps, m - 1);
      if step.Monitor? {
        JudgedIsSame(s, step, j);
        OnlineIsCounted(states, steps, id, k, i, m - 1, j);
        StalePass(s, step, k, j);
      } else {
        var before :| PeerAt(s.peers, id, k, before);
        OnlineIsCounted(states, steps, id, k, i, m - 1, before);
        CarriedOverKeeps(s.peers, step.list[j]);
      }
    }
  }

  lemma JudgedIsSame(s: State, step: Step, j: nat)
    requires Enabled(s, step) && step.Monitor? && j < |s.peers|
    ensures SamePeer(Next(s, step).peers[j], s.peers[j])
  {
  }

  /** And a row of that many counted stale passes does turn every peer offline, whatever
      uncounted passes and refreshes that list it again lie between. */
  lemma {:induction false} RowTurnsOffline(states: seq<State>, steps: seq<Step>, id: string, k: Key, i: nat, m: nat, j: nat)
    requires IsRun(states, steps) && i <= m < |states| && StaleStretch(states, steps, id, k, i, m)
    requires PeerAt(states[m].peers, id, k, j) && OFFLINE_PASSES <= CountedPasses(steps, i, m)
    ensures !states[m].peers[j].online
  {
    OnlineIsCounted(states, steps, id, k, i, m, j);
    CountIsWithinRow(states, steps, m, k);
  }

  /** One peer of a monitor pass. */
  method Judge(stale: map<Key, nat>, p: Peer, counted: bool, signal: Signal, before: map<Key, nat>)
    returns (peer: Peer, now: map<Key, nat>)
    requires forall k :: k in stale ==> 0 < stale[k]
    ensures peer == Judged(stale, p, counted, signal)
    ensures var after := CountAfter(stale, p, counted, signal); now == if 0 < after then before[p.key := after] else before
  {
    peer, now := p, before;
    if signal.None? {
      return;
    }
    if !counted && !signal.value {
      if p.key in stale {
        now := now[p.key := stale[p.key]];
      }
      return;
    }
    var next := NextLiveness(Liveness(p.online, if p.key in stale then stale[p.key] else 0), signal.value);
    peer := p.(online := next.online);
    if 0 < next.stalePasses {
      now := now[p.key := next.stalePasses];
    }
  }

  class Orchestrator {
    var knownPeers: seq<Peer>
    var stalePasses: map<Key, nat>

    function View(): State
      reads this
    {
      State(knownPeers, stalePasses)
    }

    constructor ()
      ensures View() == FRESH
    {
      knownPeers, stalePasses := [], map[];
    }

    /** The liveness part of a monitor pass. */
    method DoMonitor(counted: bool, signals: seq<Signal>)
      requires |signals| == |knownPeers|
      requires forall k :: k in stalePasses ==> 0 < stalePasses[k]
      modifies this
      ensures View() == Next(old(View()), Monitor(counted, signals))
      ensures forall k :: k in stalePasses ==> 0 < stalePasses[k]
    {
      hide Judged, CountAfter;
      ghost var before, stale := knownPeers, stalePasses;
      var n := |knownPeers|;
      var now: map<Key, nat> := map[];
      for i := 0 to n
        invariant |knownPeers| == n && stalePasses == stale
        invariant forall j :: 0 <= j < i ==> knownPeers[j] == Judged(stale, before[j], counted, signals[j])
        invariant forall j :: i <= j < n ==> knownPeers[j] == before[j]
        invariant now == Recounted(stale, before[..i], counted, signals[..i])
        invariant forall k :: k in now ==> 0 < now[k]
      {
        assert before[..i + 1][..i] == before[..i] && signals[..i + 1][..i] == signals[..i];
        var peer;
        peer, now := Judge(stalePasses, knownPeers[i], counted, signals[i], now);
        knownPeers := knownPeers[i := peer];
      }
      assert before[..n] == before && signals[..n] == signals;
      stalePasses := now;
    }

    /** The carry-over of a peer refresh. */
    method DoPeerRefresh(list: seq<Peer>)
      modifies this`knownPeers
      ensures View() == State(Refreshed(old(knownPeers), list), old(stalePasses))
    {
      var peers := list;
      for i := 0 to |list|
        invariant |peers| == |list|
        invariant forall j :: 0 <= j < i ==> peers[j] == CarriedOver(knownPeers, list[j])
        invariant forall j :: i <= j < |list| ==> peers[j] == list[j]
      {
        var at := 0;
        while at < |knownPeers| && !SamePeer(knownPeers[at], peers[i])
          invariant at <= |knownPeers|
          invariant CarriedOver(knownPeers, list[i]) == CarriedOver(knownPeers[at..], list[i])
        {
          assert knownPeers[at..][1..] == knownPeers[at + 1..];
          at := at + 1;
        }
        if at < |knownPeers| {
          peers := peers[i := peers[i].(online := knownPeers[at].online)];
        }
      }
      knownPeers := peers;
    }

    method Forget()
      modifies this
      ensures View() == Next(old(View()), Stop)
    {
      knownPeers, stalePasses := [], map[];
    }
  }
}

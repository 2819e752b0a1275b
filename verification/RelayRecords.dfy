/** Which endpoint each peer was last given, and which peers go through a relay.

    `sync_peers` snapshots both records under the lock, works without it and merges under it
    again; relay paths are set and cleared by other threads in between. Each method of
    `Records` is one critical section. */
module RelayRecords {

  type Key = string
  type Endpoint = string

  datatype RelayPath = RelayPath(localEndpoint: Endpoint, relayEndpoint: Endpoint)

  datatype Peer = Peer(key: Key, endpoint: Endpoint, relayEndpoint: Endpoint)

  /** One peer of a sync as its unlocked work meets it: whether a route was granted, and
      whether the dataplane took the peer. */
  datatype Entry = Entry(peer: Peer, routed: bool, taken: bool)

  // The unlocked work

  function EndpointFor(relayed: map<Key, RelayPath>, p: Peer): Endpoint {
    if p.key in relayed then relayed[p.key].localEndpoint
    else if p.endpoint == "" then p.relayEndpoint
    else p.endpoint
  }

  predicate Wanted(e: Entry) {
    e.peer.key != "" && e.routed
  }

  predicate Changed(relayed: map<Key, RelayPath>, written: map<Key, Endpoint>, p: Peer) {
    p.key !in written || written[p.key] != EndpointFor(relayed, p)
  }

  /** Whether the work on an entry records an endpoint, be it the empty one of a peer that is
      listed with none. */
  predicate Notes(relayed: map<Key, RelayPath>, written: map<Key, Endpoint>, e: Entry) {
    Wanted(e) && e.taken && Changed(relayed, written, e.peer)
  }

  /** Whether it gives the dataplane an endpoint: an empty text leaves the one it has. */
  predicate Gives(relayed: map<Key, RelayPath>, written: map<Key, Endpoint>, e: Entry) {
    Notes(relayed, written, e) && EndpointFor(relayed, e.peer) != ""
  }

  /** The endpoint records after the work on a list. */
  function Worked(relayed: map<Key, RelayPath>, written: map<Key, Endpoint>, es: seq<Entry>): map<Key, Endpoint> {
    if es == [] then written
    else
      var before, e := Worked(relayed, written, es[..|es| - 1]), es[|es| - 1];
      if Notes(relayed, before, e) then before[e.peer.key := EndpointFor(relayed, e.peer)] else before
  }

  /** The endpoints handed to the dataplane, in order; an empty text hands it none. */
  function Writes(relayed: map<Key, RelayPath>, written: map<Key, Endpoint>, es: seq<Entry>): seq<(Key, Endpoint)> {
    if es == [] then []
    else
      var before, e := Worked(relayed, written, es[..|es| - 1]), es[|es| - 1];
      Writes(relayed, written, es[..|es| - 1])
      + if Wanted(e) && Changed(relayed, before, e.peer) && EndpointFor(relayed, e.peer) != ""
        then [(e.peer.key, EndpointFor(relayed, e.peer))] else []
  }

  function Wants(es: seq<Entry>): (want: set<Key>)
    ensures forall k :: k in want <==> exists i :: 0 <= i < |es| && Wanted(es[i]) && es[i].peer.key == k
  {
    set i | 0 <= i < |es| && Wanted(es[i]) :: es[i].peer.key
  }

  method Work(relayed: map<Key, RelayPath>, written: map<Key, Endpoint>, es: seq<Entry>)
    returns (want: set<Key>, now: map<Key, Endpoint>, writes: seq<(Key, Endpoint)>)
    ensures want == Wants(es) && now == Worked(relayed, written, es) && writes == Writes(relayed, written, es)
  {
    want, now, writes := {}, written, [];
    for i := 0 to |es|
      invariant want == Wants(es[..i])
      invariant now == Worked(relayed, written, es[..i])
      invariant writes == Writes(relayed, written, es[..i])
    {
      var e := es[i];
      var done := es[..i + 1];
      assert done[..i] == es[..i] && done[i] == e;
      WantsStep(es, i);
      if e.peer.key == "" || !e.routed {
        continue;
      }
      var endpoint := EndpointFor(relayed, e.peer);
      want := want + {e.peer.key};
      var changed := e.peer.key !in now || now[e.peer.key] != endpoint;
      if changed && endpoint != "" {
        writes := writes + [(e.peer.key, endpoint)];
      }
      if e.taken && changed {
        now := now[e.peer.key := endpoint];
      }
    }
    assert es[..|es|] == es;
  }

  lemma {:induction false} WantsStep(es: seq<Entry>, i: nat)
    requires i < |es|
    ensures Wants(es[..i + 1]) == Wants(es[..i]) + if Wanted(es[i]) then {es[i].peer.key} else {}
  {
  }

  predicate Lists(p: Peer, k: Key, e: Endpoint) {
    p.key == k && e == if p.endpoint == "" then p.relayEndpoint else p.endpoint
  }

  /** A sync hands out the local endpoint of every relay that its snapshot knows, and for any
      other peer what some entry lists for it, its endpoint before its relay's; never nothing. */
  lemma {:induction false} WritesAreListed(relayed: map<Key, RelayPath>, written: map<Key, Endpoint>, es: seq<Entry>, k: Key, e: Endpoint)
    requires (k, e) in Writes(relayed, written, es)
    ensures e != "" && (k in relayed ==> e == relayed[k].localEndpoint)
    ensures k !in relayed ==> exists i :: 0 <= i < |es| && Lists(es[i].peer, k, e)
  {
    var n := |es| - 1;
    if (k, e) in Writes(relayed, written, es[..n]) {
      WritesAreListed(relayed, written, es[..n], k, e);
      if i :| 0 <= i < n && Lists(es[..n][i].peer, k, e) {
        assert Lists(es[i].peer, k, e);
      }
    } else {
      assert k !in relayed ==> Lists(es[n].peer, k, e);
    }
  }

  /** The entry at which an endpoint is handed over: wanted, with another record at its turn. */
  ghost predicate HandedAt(relayed: map<Key, RelayPath>, written: map<Key, Endpoint>, es: seq<Entry>, i: int, k: Key, e: Endpoint) {
    && 0 <= i < |es| && es[i].routed && es[i].peer.key == k != "" && EndpointFor(relayed, es[i].peer) == e != ""
    && Record(Worked(relayed, written, es[..i]), k) != [e]
  }

  /** What is handed over, exactly. */
  lemma {:induction false} HandedExactly(relayed: map<Key, RelayPath>, written: map<Key, Endpoint>, es: seq<Entry>, k: Key, e: Endpoint)
    ensures (k, e) in Writes(relayed, written, es) <==> exists i :: HandedAt(relayed, written, es, i, k, e)
  {
    hide Worked, EndpointFor;
    if es != [] {
      var n := |es| - 1;
      var front := es[..n];
      HandedExactly(relayed, written, front, k, e);
      forall i | 0 <= i < n ensures HandedAt(relayed, written, front, i, k, e) == HandedAt(relayed, written, es, i, k, e) {
        assert front[..i] == es[..i];
      }
      assert (k, e) in Writes(relayed, written, es) <==> (k, e) in Writes(relayed, written, front) || HandedAt(relayed, written, es, n, k, e);
      if i :| HandedAt(relayed, written, front, i, k, e) {
        assert HandedAt(relayed, written, es, i, k, e);
      }
    }
  }

  /** So every wanted peer with another record, or none, is handed its endpoint. */
  lemma {:induction false} ChangesAreHanded(relayed: map<Key, RelayPath>, written: map<Key, Endpoint>, es: seq<Entry>, i: nat)
    requires DistinctKeys(es) && i < |es| && Wanted(es[i])
    requires EndpointFor(relayed, es[i].peer) != "" && Record(written, es[i].peer.key) != [EndpointFor(relayed, es[i].peer)]
    ensures (es[i].peer.key, EndpointFor(relayed, es[i].peer)) in Writes(relayed, written, es)
  {
    var k, e := es[i].peer.key, EndpointFor(relayed, es[i].peer);
    OthersAreKept(relayed, written, es[..i], k);
    assert HandedAt(relayed, written, es, i, k, e);
    HandedExactly(relayed, written, es, k, e);
  }

  // A listed endpoint is not written twice

  ghost predicate DistinctKeys(es: seq<Entry>) {
    forall i, j :: 0 <= i < j < |es| ==> es[i].peer.key != es[j].peer.key
  }

  /** The dataplane took every peer. */
  ghost predicate AllTaken(es: seq<Entry>) {
    forall i :: 0 <= i < |es| ==> es[i].taken
  }

  lemma {:induction false} OthersAreKept(relayed: map<Key, RelayPath>, written: map<Key, Endpoint>, es: seq<Entry>, k: Key)
    requires forall i :: 0 <= i < |es| ==> es[i].peer.key != k
    ensures k in Worked(relayed, written, es) <==> k in written
    ensures k in written ==> Worked(relayed, written, es)[k] == written[k]
  {
    if es != [] {
      OthersAreKept(relayed, written, es[..|es| - 1], k);
    }
  }

  /** Afterwards every wanted peer's record is the endpoint that holds for it now. */
  lemma {:induction false} WorkRecords(relayed: map<Key, RelayPath>, written: map<Key, Endpoint>, es: seq<Entry>, i: nat)
    requires DistinctKeys(es) && AllTaken(es) && i < |es| && Wanted(es[i])
    ensures var now := Worked(relayed, written, es);
      es[i].peer.key in now && now[es[i].peer.key] == EndpointFor(relayed, es[i].peer)
    decreases |es|
  {
    var n := |es| - 1;
    if i < n {
      WorkRecords(relayed, written, es[..n], i);
    }
  }

  lemma {:induction false} NothingToWrite(relayed: map<Key, RelayPath>, written: map<Key, Endpoint>, es: seq<Entry>)
    requires forall i :: 0 <= i < |es| && Wanted(es[i]) ==> !Changed(relayed, written, es[i].peer)
    ensures Writes(relayed, written, es) == [] && Worked(relayed, written, es) == written
  {
    if es != [] {
      NothingToWrite(relayed, written, es[..|es| - 1]);
    }
  }

  /** Working on the same list again writes nothing, so an endpoint that the dataplane moved
      since is not undone. */
  lemma {:induction false} SecondSyncWritesNothing(relayed: map<Key, RelayPath>, written: map<Key, Endpoint>, es: seq<Entry>)
    requires DistinctKeys(es) && AllTaken(es)
    ensures var now := Worked(relayed, written, es);
      Writes(relayed, now, es) == [] && Worked(relayed, now, es) == now
  {
    var now := Worked(relayed, written, es);
    forall i | 0 <= i < |es| && Wanted(es[i]) ensures !Changed(relayed, now, es[i].peer) {
      WorkRecords(relayed, written, es, i);
    }
    NothingToWrite(relayed, now, es);
  }

  // The shared records

  /** A sync between its two critical sections: its snapshot, and the entries worked on. */
  datatype Sync = Sync(relayed: map<Key, RelayPath>, base: map<Key, Endpoint>, entries: seq<Entry>) {
    function Written(): map<Key, Endpoint> {
      Worked(relayed, base, entries)
    }

    function Want(): set<Key> {
      Wants(entries)
    }
  }

  /** A relay update whose dataplane call is still out. */
  datatype Setting = Setting(key: Key, endpoint: Endpoint)

  datatype State = State(
    paths: map<Key, RelayPath>,
    written: map<Key, Endpoint>,
    given: map<Key, Endpoint>,        // the endpoint the dataplane was last given
    syncs: map<nat, Sync>,            // syncs that hold a snapshot
    setting: map<nat, Setting>)

  function RelaySet(s: State, k: Key, path: RelayPath): State {
    s.(paths := s.paths[k := path], written := s.written[k := path.localEndpoint])
  }

  function RelayErased(s: State, k: Key): State {
    s.(paths := s.paths - {k}, written := s.written - {k})
  }

  function RelayCleared(s: State, k: Key, listed: Endpoint): State {
    if listed == "" then RelayErased(s, k)
    else s.(paths := s.paths - {k}, written := s.written[k := listed])
  }

  predicate Keeps(paths: map<Key, RelayPath>, relayed: map<Key, RelayPath>, worked: map<Key, Endpoint>, want: set<Key>, k: Key) {
    k in want && (k in paths || (k in worked && k !in relayed))
  }

  function KeptPaths(paths: map<Key, RelayPath>, want: set<Key>): map<Key, RelayPath> {
    map k | k in paths && k in want :: paths[k]
  }

  function MergedWritten(paths: map<Key, RelayPath>, relayed: map<Key, RelayPath>, worked: map<Key, Endpoint>, want: set<Key>): map<Key, Endpoint> {
    map k | k in want && Keeps(paths, relayed, worked, want, k) :: if k in paths then paths[k].localEndpoint else worked[k]
  }

  function Merged(s: State, y: Sync): State {
    s.(paths := KeptPaths(s.paths, y.Want()), written := MergedWritten(s.paths, y.relayed, y.Written(), y.Want()))
  }

  /** Critical sections, and calls into the dataplane between them. */
  datatype Step =
    | SetRelay(id: nat, key: Key, path: RelayPath)
    | SetDone(id: nat)                               // the dataplane took the relay's endpoint, not an empty one
    | SetFailed(id: nat)                             // the dataplane refused it
    | ClearRelay(key: Key, listed: Endpoint)
    | Stop
    | Snapshot(id: nat)
    | Working(id: nat, entry: Entry)                 // a sync adds one peer
    | Merge(id: nat)
    | Dropped(key: Key)                              // the dataplane loses a peer

  ghost predicate Enabled(s: State, step: Step) {
    match step
    case SetRelay(id, _, _) => id !in s.setting
    case SetDone(id) => id in s.setting && s.setting[id].endpoint != ""
    case SetFailed(id) => id in s.setting
    case Snapshot(id) => id !in s.syncs
    case Working(id, _) => id in s.syncs
    case Merge(id) => id in s.syncs
    case _ => true
  }

  function Added(s: State, id: nat, e: Entry): State
    requires id in s.syncs
  {
    var y := s.syncs[id];
    s.(syncs := s.syncs[id := y.(entries := y.entries + [e])],
       given := if Gives(y.relayed, y.Written(), e) then s.given[e.peer.key := EndpointFor(y.relayed, e.peer)] else s.given)
  }

  ghost function Next(s: State, step: Step): State
    requires Enabled(s, step)
  {
    match step
    case SetRelay(id, k, path) => RelaySet(s, k, path).(setting := s.setting[id := Setting(k, path.localEndpoint)])
    case SetDone(id) => s.(setting := s.setting - {id}, given := s.given[s.setting[id].key := s.setting[id].endpoint])
    case SetFailed(id) => RelayErased(s, s.setting[id].key).(setting := s.setting - {id})
    case ClearRelay(k, listed) => RelayCleared(s, k, listed)
    case Stop => s.(paths := map[], written := map[])
    case Snapshot(id) => s.(syncs := s.syncs[id := Sync(s.paths, s.written, [])])
    case Working(id, e) => Added(s, id, e)
    case Merge(id) => Merged(s, s.syncs[id]).(syncs := s.syncs - {id})
    case Dropped(k) => s.(given := s.given - {k})
  }

  /** Every peer with a relay path is recorded at that relay's local endpoint. */
  ghost predicate Recorded(s: State) {
    forall k :: k in s.paths ==> k in s.written && s.written[k] == s.paths[k].localEndpoint
  }

  lemma {:induction false} StepKeepsRecorded(s: State, step: Step)
    requires Recorded(s) && Enabled(s, step)
    ensures Recorded(Next(s, step))
  {
    hide Worked, Wants;
  }

  const FRESH := State(map[], map[], map[], map[], map[])

  ghost predicate IsRun(states: seq<State>, steps: seq<Step>) {
    && |states| == |steps| + 1 && states[0] == FRESH
    && forall i :: 0 <= i < |steps| ==> Enabled(states[i], steps[i]) && states[i + 1] == Next(states[i], steps[i])
  }

  /** In every interleaving, whenever the lock is free. */
  lemma {:induction false} RunIsRecorded(states: seq<State>, steps: seq<Step>, i: nat)
    requires IsRun(states, steps) && i < |states|
    ensures Recorded(states[i])
  {
    hide Next;
    if 0 < i {
      RunIsRecorded(states, steps, i - 1);
      StepKeepsRecorded(states[i - 1], steps[i - 1]);
    }
  }

  // What the dataplane was given

  /** A step that gives the dataplane an endpoint for the peer. */
  ghost predicate GivesKey(s: State, step: Step, k: Key)
    requires Enabled(s, step)
  {
    match step
    case SetDone(id) => s.setting[id].key == k
    case Working(id, e) => e.peer.key == k && Gives(s.syncs[id].relayed, s.syncs[id].Written(), e)
    case _ => false
  }

  /** Whether what that step gives is a relay's local endpoint: a relay update gives the one it
      was called with; a sync gives the one of the path in its snapshot, or what is listed. */
  ghost predicate Saw(s: State, step: Step, k: Key, local: Endpoint)
    requires Enabled(s, step)
  {
    match step
    case SetDone(id) => s.setting[id].endpoint == local
    case Working(id, e) =>
      var relayed := s.syncs[id].relayed;
      if k in relayed then relayed[k].localEndpoint == local else Lists(e.peer, k, local)
    case _ => false
  }

  /** Between a write and a later state nothing else is given for the peer, and it stays. */
  ghost predicate LastWrite(states: seq<State>, steps: seq<Step>, w: nat, i: nat, k: Key)
    requires IsRun(states, steps)
  {
    && w < i < |states| && GivesKey(states[w], steps[w], k)
    && forall j :: w < j < i ==> !GivesKey(states[j], steps[j], k) && steps[j] != Dropped(k)
  }

  lemma {:induction false} GivenStays(s: State, step: Step, k: Key)
    requires Enabled(s, step) && !GivesKey(s, step, k) && step != Dropped(k)
    ensures k in Next(s, step).given <==> k in s.given
    ensures k in s.given ==> Next(s, step).given[k] == s.given[k]
  {
    hide Worked, Wants;
  }

  lemma {:induction false} GivenIsLastWrite(states: seq<State>, steps: seq<Step>, w: nat, i: nat, k: Key, local: Endpoint)
    requires IsRun(states, steps) && LastWrite(states, steps, w, i, k)
    ensures k in states[i].given && (states[i].given[k] == local <==> Saw(states[w], steps[w], k, local))
    decreases i
  {
    hide Worked, Wants;
    if w + 1 < i {
      hide Next, Saw, GivesKey;
      GivenIsLastWrite(states, steps, w, i - 1, k, local);
      GivenStays(states[i - 1], steps[i - 1], k);
    } else {
      assert states[i] == Next(states[w], steps[w]);
    }
  }

  lemma {:induction false} GivenHasWriter(states: seq<State>, steps: seq<Step>, i: nat, k: Key) returns (w: nat)
    requires IsRun(states, steps) && i < |states| && k in states[i].given
    ensures LastWrite(states, steps, w, i, k)
  {
    hide GivesKey, Next;
    if GivesKey(states[i - 1], steps[i - 1], k) {
      w := i - 1;
    } else {
      DroppedIsGone(states[i - 1], steps[i - 1], k);
      GivenStays(states[i - 1], steps[i - 1], k);
      w := GivenHasWriter(states, steps, i - 1, k);
    }
  }

  lemma {:induction false} DroppedIsGone(s: State, step: Step, k: Key)
    requires Enabled(s, step)
    ensures step == Dropped(k) ==> k !in Next(s, step).given
  {
  }

  /** Someone gave the peer an endpoint, last of all, who saw this relay's. */
  ghost predicate GivenBySeer(states: seq<State>, steps: seq<Step>, i: nat, k: Key, local: Endpoint)
    requires IsRun(states, steps) && i < |states|
  {
    exists w: nat :: LastWrite(states, steps, w, i, k) && Saw(states[w], steps[w], k, local)
  }

  /** In every run, after every step, merges included: the record of a relayed peer is what the
      dataplane was last given for it if and only if whoever gave it last saw the relay path:
      an update with that endpoint, or a sync whose snapshot has it or that was listed the
      same. */
  lemma {:induction false} RecordIsGivenExactly(states: seq<State>, steps: seq<Step>, i: nat, k: Key)
    requires IsRun(states, steps) && i < |states| && k in states[i].paths
    ensures k in states[i].written
    ensures Record(states[i].given, k) == [states[i].written[k]] <==> GivenBySeer(states, steps, i, k, states[i].paths[k].localEndpoint)
  {
    hide Next, Saw, GivesKey;
    var local := states[i].paths[k].localEndpoint;
    RunIsRecorded(states, steps, i);
    if k in states[i].given {
      var w := GivenHasWriter(states, steps, i, k);
      GivenIsLastWrite(states, steps, w, i, k, local);
    }
    if w: nat :| LastWrite(states, steps, w, i, k) && Saw(states[w], steps[w], k, local) {
      GivenIsLastWrite(states, steps, w, i, k, local);
    }
  }

  function Record(written: map<Key, Endpoint>, k: Key): seq<Endpoint> {
    if k in written then [written[k]] else []
  }

  function PathOf(paths: map<Key, RelayPath>, k: Key): seq<RelayPath> {
    if k in paths then [paths[k]] else []
  }

  /** A step after which the peer's path or record is another thread's doing, or the dataplane
      no longer has the peer. */
  ghost predicate Touches(s: State, step: Step, k: Key)
    requires Enabled(s, step)
  {
    match step
    case SetRelay(_, key, _) => key == k
    case SetFailed(id) => s.setting[id].key == k
    case ClearRelay(key, _) => key == k
    case Stop => true
    case Merge(id) => k !in s.syncs[id].Want()
    case Dropped(key) => key == k
    case _ => false
  }

  /** Everyone who may still give the peer an endpoint knows the path. */
  ghost predicate AllKnow(s: State, k: Key, path: RelayPath) {
    && k in s.paths && s.paths[k] == path
    && (forall id :: id in s.syncs ==> k in s.syncs[id].relayed && s.syncs[id].relayed[k] == path)
    && (forall id :: id in s.setting && s.setting[id].key == k ==> s.setting[id].endpoint == path.localEndpoint)
  }

  lemma {:induction false} KnowingStays(s: State, step: Step, k: Key, path: RelayPath)
    requires Enabled(s, step) && AllKnow(s, k, path) && !Touches(s, step, k)
    ensures AllKnow(Next(s, step), k, path)
    ensures k in s.given && s.given[k] == path.localEndpoint ==>
      k in Next(s, step).given && Next(s, step).given[k] == path.localEndpoint
    ensures step.SetDone? && s.setting[step.id].key == k ==>
      k in Next(s, step).given && Next(s, step).given[k] == path.localEndpoint
  {
    hide Worked, Wants;
  }

  /** A relay path that is set while no sync is between snapshot and merge and no other update
      of the peer is out keeps its path: from the moment the dataplane took its endpoint, until
      the peer is updated or dropped, path, record and dataplane agree in every run. */
  lemma {:induction false} QuietPathIsKept(states: seq<State>, steps: seq<Step>, p: nat, q: nat, i: nat)
    requires IsRun(states, steps) && p < q < i < |states|
    requires steps[p].SetRelay? && steps[q] == SetDone(steps[p].id)
    requires states[p].syncs == map[] && forall id :: id in states[p].setting ==> states[p].setting[id].key != steps[p].key
    requires forall j :: p < j < i ==> !Touches(states[j], steps[j], steps[p].key) && (j < q ==> steps[j] != SetDone(steps[p].id))
    ensures var k, path := steps[p].key, steps[p].path;
      && k in states[i].paths && states[i].paths[k] == path
      && k in states[i].written && states[i].written[k] == path.localEndpoint
      && k in states[i].given && states[i].given[k] == path.localEndpoint
  {
    RunIsRecorded(states, steps, i);
    PathIsKnown(states, steps, p, q, i);
  }

  lemma {:induction false} PathIsKnown(states: seq<State>, steps: seq<Step>, p: nat, q: nat, i: nat)
    requires IsRun(states, steps) && p < q < |steps| && p < i < |states|
    requires steps[p].SetRelay? && steps[q] == SetDone(steps[p].id)
    requires states[p].syncs == map[] && forall id :: id in states[p].setting ==> states[p].setting[id].key != steps[p].key
    requires forall j :: p < j < i ==> !Touches(states[j], steps[j], steps[p].key)
    requires forall j :: p < j < q ==> steps[j] != SetDone(steps[p].id)
    ensures AllKnow(states[i], steps[p].key, steps[p].path)
    ensures i <= q ==> SetPending(states[i], steps[p])
    ensures q < i ==> steps[p].key in states[i].given && states[i].given[steps[p].key] == steps[p].path.localEndpoint
    decreases i
  {
    var k, path := steps[p].key, steps[p].path;
    assert states[p + 1] == Next(states[p], steps[p]);
    if p + 1 < i {
      PathIsKnown(states, steps, p, q, i - 1);
      KnowingStays(states[i - 1], steps[i - 1], k, path);
      if i <= q {
        PendingStays(states[i - 1], steps[i - 1], steps[p]);
      }
    }
  }

  /** The update's dataplane call is still out. */
  ghost predicate SetPending(s: State, update: Step)
    requires update.SetRelay?
  {
    update.id in s.setting && s.setting[update.id] == Setting(update.key, update.path.localEndpoint)
  }

  lemma {:induction false} PendingStays(s: State, step: Step, update: Step)
    requires Enabled(s, step) && update.SetRelay? && SetPending(s, update)
    requires !Touches(s, step, update.key) && step != SetDone(update.id)
    ensures SetPending(Next(s, step), update)
  {
    hide Worked, Wants;
  }

  // Which record wins a merge

  /** What a sync comes to record for a peer that its snapshot does not relay: what the last
      entry lists that the dataplane took, or else the record it found. */
  function SyncRecord(found: seq<Endpoint>, es: seq<Entry>, k: Key): seq<Endpoint> {
    if es == [] then found
    else
      var e := es[|es| - 1];
      if Wanted(e) && e.taken && e.peer.key == k
      then [if e.peer.endpoint == "" then e.peer.relayEndpoint else e.peer.endpoint]
      else SyncRecord(found, es[..|es| - 1], k)
  }

  lemma {:induction false} SyncRecords(relayed: map<Key, RelayPath>, base: map<Key, Endpoint>, es: seq<Entry>, k: Key)
    requires k !in relayed
    ensures Record(Worked(relayed, base, es), k) == SyncRecord(Record(base, k), es, k)
  {
    if es != [] {
      SyncRecords(relayed, base, es[..|es| - 1], k);
    }
  }

  /** A relay update of the peer. */
  ghost predicate Updates(s: State, step: Step, k: Key)
    requires Enabled(s, step)
  {
    match step
    case SetRelay(_, key, _) => key == k
    case SetFailed(id) => s.setting[id].key == k
    case ClearRelay(key, _) => key == k
    case Stop => true
    case _ => false
  }

  lemma {:induction false} SyncStays(s: State, step: Step, id: nat)
    requires Enabled(s, step) && id in s.syncs && step != Merge(id)
    ensures id in Next(s, step).syncs
    ensures Next(s, step).syncs[id].relayed == s.syncs[id].relayed && Next(s, step).syncs[id].base == s.syncs[id].base
  {
    hide Worked, Wants;
  }

  /** This sync took its snapshot at `a` and merges at `m`. */
  ghost predicate IsSync(states: seq<State>, steps: seq<Step>, a: nat, m: nat, id: nat)
    requires IsRun(states, steps)
  {
    && a < m < |steps| && steps[a] == Snapshot(id) && steps[m] == Merge(id)
    && forall j :: a < j < m ==> steps[j] != Merge(id)
  }

  lemma {:induction false} SnapshotIsKept(states: seq<State>, steps: seq<Step>, a: nat, i: nat, m: nat, id: nat)
    requires IsRun(states, steps) && IsSync(states, steps, a, m, id) && a < i <= m
    ensures id in states[i].syncs && states[i].syncs[id].relayed == states[a].paths && states[i].syncs[id].base == states[a].written
    decreases i
  {
    if a + 1 < i {
      hide Next;
      SnapshotIsKept(states, steps, a, i - 1, m, id);
      SyncStays(states[i - 1], steps[i - 1], id);
    } else {
      assert states[i] == Next(states[a], steps[a]);
    }
  }

  /** Whether every merge among these steps wants the peer: one that does not drops its path. */
  ghost predicate AllWant(states: seq<State>, steps: seq<Step>, i: nat, m: nat, k: Key)
    requires IsRun(states, steps) && m <= |steps|
  {
    forall j :: i <= j < m && steps[j].Merge? ==> k in states[j].syncs[steps[j].id].Want()
  }

  /** The record that a relay update leaves. */
  function Left(update: Step): seq<Endpoint> {
    match update
    case SetRelay(_, _, path) => [path.localEndpoint]
    case ClearRelay(_, listed) => if listed == "" then [] else [listed]
    case _ => []
  }

  /** The record of a peer after a sync merged, from the state its snapshot was taken in, what
      it worked on, and the path that the peer has at the merge. */
  function MergedRecord(snapshot: State, y: Sync, path: seq<RelayPath>, k: Key): seq<Endpoint> {
    if k !in y.Want() then []
    else if path != [] then [path[0].localEndpoint]
    else if k in snapshot.paths then []
    else SyncRecord(Record(snapshot.written, k), y.entries, k)
  }

  /** When the record that a relay update left is there after a merge. Set a path: if the sync
      wants the peer, and all merges since wanted it or the sync recorded the same. Cleared,
      undone or forgotten without a record: if the sync does not want the peer, or its
      snapshot has a path, or it recorded nothing. Cleared with a listed endpoint: if the sync
      wants the peer, its snapshot has no path, and it recorded the same. */
  ghost predicate Lasts(snapshot: State, y: Sync, update: Step, kept: bool, k: Key) {
    var own := SyncRecord(Record(snapshot.written, k), y.entries, k);
    match update
    case SetRelay(_, _, path) => k in y.Want() && (kept || (k !in snapshot.paths && own == [path.localEndpoint]))
    case _ =>
      if Left(update) == [] then k !in y.Want() || k in snapshot.paths || own == []
      else k in y.Want() && k !in snapshot.paths && own == Left(update)
  }

  lemma {:induction false} MergeOf(s: State, id: nat, k: Key)
    requires id in s.syncs
    ensures var y := s.syncs[id];
      Record(Next(s, Merge(id)).written, k)
      == if k !in y.Want() then []
         else if k in s.paths then [s.paths[k].localEndpoint]
         else if k in y.relayed then []
         else SyncRecord(Record(y.base, k), y.entries, k)
    ensures PathOf(Next(s, Merge(id)).paths, k) == if k in s.syncs[id].Want() then PathOf(s.paths, k) else []
  {
    hide Worked, Wants, SyncRecord;
    var y := s.syncs[id];
    if k !in y.relayed {
      SyncRecords(y.relayed, y.base, y.entries, k);
    }
  }

  lemma {:induction false} UpdateLeaves(s: State, update: Step, k: Key)
    requires Enabled(s, update) && Updates(s, update, k)
    ensures Record(Next(s, update).written, k) == Left(update)
    ensures PathOf(Next(s, update).paths, k) == if update.SetRelay? then [update.path] else []
  {
  }

  lemma {:induction false} PathStays(s: State, step: Step, k: Key)
    requires Enabled(s, step) && !Updates(s, step, k)
    ensures PathOf(Next(s, step).paths, k)
      == if step.Merge? && k !in s.syncs[step.id].Want() then [] else PathOf(s.paths, k)
  {
    hide Worked, Wants;
  }

  /** Without an update, a path stays exactly as long as every merge wants the peer. */
  lemma {:induction false} PathStaysThrough(states: seq<State>, steps: seq<Step>, i: nat, m: nat, k: Key)
    requires IsRun(states, steps) && i <= m < |states|
    requires forall j :: i <= j < m ==> !Updates(states[j], steps[j], k)
    ensures PathOf(states[m].paths, k) == if AllWant(states, steps, i, m, k) then PathOf(states[i].paths, k) else []
    decreases m
  {
    hide Next, Updates, Wants;
    if i < m {
      PathStaysThrough(states, steps, i, m - 1, k);
      PathStays(states[m - 1], steps[m - 1], k);
    }
  }

  /** What every merge leaves, in every run. */
  lemma {:induction false} MergeLeaves(states: seq<State>, steps: seq<Step>, a: nat, m: nat, id: nat, k: Key)
    requires IsRun(states, steps) && IsSync(states, steps, a, m, id)
    ensures id in states[m].syncs
    ensures Record(states[m + 1].written, k) == MergedRecord(states[a], states[m].syncs[id], PathOf(states[m].paths, k), k)
  {
    hide Next, Wants, SyncRecord;
    assert states[m + 1] == Next(states[m], steps[m]);
    SnapshotIsKept(states, steps, a, m, m, id);
    MergeOf(states[m], id, k);
  }

  /** Over every run: `u` is the last relay update of a peer before the merge at `m` of the sync
      whose snapshot was taken at `a`, before or after it, with any number of other merges in
      between. The record it left is there afterwards exactly as above, and the path it set
      exactly while every merge since wanted the peer. */
  lemma {:induction false} UpdateLastsExactly(states: seq<State>, steps: seq<Step>, a: nat, u: nat, m: nat, id: nat, k: Key)
    requires IsRun(states, steps) && IsSync(states, steps, a, m, id) && u < m
    requires Updates(states[u], steps[u], k)
    requires forall j :: u < j < m ==> !Updates(states[j], steps[j], k)
    ensures id in states[m].syncs
    ensures Record(states[m + 1].written, k) == Record(states[u + 1].written, k)
       <==> Lasts(states[a], states[m].syncs[id], steps[u], AllWant(states, steps, u + 1, m, k), k)
    ensures k in states[m + 1].paths <==> steps[u].SetRelay? && AllWant(states, steps, u + 1, m + 1, k)
  {
    hide Next, Updates, Wants, SyncRecord;
    assert states[m + 1] == Next(states[m], steps[m]);
    assert states[u + 1] == Next(states[u], steps[u]);
    UpdateLeaves(states[u], steps[u], k);
    PathStaysThrough(states, steps, u + 1, m, k);
    MergeLeaves(states, steps, a, m, id, k);
    MergeIsNoUpdate(states[m], id, k);
    PathStaysThrough(states, steps, u + 1, m + 1, k);
  }

  lemma {:induction false} MergeIsNoUpdate(s: State, id: nat, k: Key)
    requires id in s.syncs
    ensures !Updates(s, Merge(id), k)
  {
  }

  /** Without a relay update since the snapshot, what the sync recorded itself stands where the
      snapshot has no path; where it has one, the relay's endpoint, or nothing once a merge in
      between did not want the peer. */
  lemma {:induction false} SyncRecordStands(states: seq<State>, steps: seq<Step>, a: nat, m: nat, id: nat, k: Key)
    requires IsRun(states, steps) && IsSync(states, steps, a, m, id)
    requires forall j :: a < j < m ==> !Updates(states[j], steps[j], k)
    ensures id in states[m].syncs
    ensures Record(states[m + 1].written, k)
      == if k !in states[m].syncs[id].Want() then []
         else if k !in states[a].paths then SyncRecord(Record(states[a].written, k), states[m].syncs[id].entries, k)
         else if AllWant(states, steps, a, m, k) then [states[a].paths[k].localEndpoint]
         else []
  {
    hide Next, Updates, Wants, SyncRecord;
    SnapshotIsNoUpdate(states[a], id, k);
    PathStaysThrough(states, steps, a, m, k);
    MergeLeaves(states, steps, a, m, id, k);
  }

  lemma {:induction false} SnapshotIsNoUpdate(s: State, id: nat, k: Key)
    requires id !in s.syncs
    ensures !Updates(s, Snapshot(id), k)
  {
  }

  // Runs in which a record or a path is lost

  function Listed(k: Key, e: Endpoint): Entry {
    Entry(Peer(k, e, ""), true, true)
  }

  lemma {:induction false} OneEntry(relayed: map<Key, RelayPath>, base: map<Key, Endpoint>, k: Key, e: Endpoint)
    requires k != "" && e != ""
    ensures Wants([Listed(k, e)]) == {k}
    ensures Worked(relayed, base, []) == base
    ensures var endpoint := EndpointFor(relayed, Listed(k, e).peer);
      && Worked(relayed, base, [Listed(k, e)]) == base[k := endpoint]
      && (Gives(relayed, base, Listed(k, e)) <==> Record(base, k) != [endpoint] && endpoint != "")
  {
    var es := [Listed(k, e)];
    assert es[..0] == [];
    assert es[0] == Listed(k, e);
    var endpoint := EndpointFor(relayed, es[0].peer);
    assert k in base && base[k] == endpoint ==> base[k := endpoint] == base;
  }

  /** A sync that adds one listed peer ... */
  lemma {:induction false} AddOne(s: State, k: Key, e: Endpoint)
    requires k != "" && e != "" && 0 in s.syncs && s.syncs[0].entries == []
    ensures var y, endpoint := s.syncs[0], EndpointFor(s.syncs[0].relayed, Listed(k, e).peer);
      Next(s, Working(0, Listed(k, e))) == s.(
          syncs := s.syncs[0 := y.(entries := [Listed(k, e)])],
          given := if Record(y.base, k) == [endpoint] || endpoint == "" then s.given else s.given[k := endpoint])
  {
    hide Worked, Wants, Gives;
    OneEntry(s.syncs[0].relayed, s.syncs[0].base, k, e);
    assert [] + [Listed(k, e)] == [Listed(k, e)];
  }

  /** ... and then merges. */
  lemma {:induction false} MergeOne(s: State, k: Key, e: Endpoint)
    requires k != "" && e != "" && 0 in s.syncs && s.syncs[0].entries == [Listed(k, e)]
    ensures Next(s, Merge(0)) == s.(
        paths := if k in s.paths then map[k := s.paths[k]] else map[],
        written := if k in s.paths then map[k := s.paths[k].localEndpoint] else if k in s.syncs[0].relayed then map[] else map[k := e],
        syncs := s.syncs - {0})
  {
    hide Worked, Wants, Gives;
    var y := s.syncs[0];
    OneEntry(y.relayed, y.base, k, e);
    OnePath(s.paths, k);
    OneRecord(s.paths, y.relayed, y.Written(), k);
  }

  lemma {:induction false} OnePath(paths: map<Key, RelayPath>, k: Key)
    ensures KeptPaths(paths, {k}) == if k in paths then map[k := paths[k]] else map[]
  {
  }

  lemma {:induction false} OneRecord(paths: map<Key, RelayPath>, relayed: map<Key, RelayPath>, worked: map<Key, Endpoint>, k: Key)
    requires k in worked
    ensures MergedWritten(paths, relayed, worked, {k})
      == if k in paths then map[k := paths[k].localEndpoint] else if k in relayed then map[] else map[k := worked[k]]
  {
  }

  lemma {:induction false} Extend(states: seq<State>, steps: seq<Step>, step: Step, s: State) returns (more: seq<State>, done: seq<Step>)
    requires IsRun(states, steps) && Enabled(states[|steps|], step) && s == Next(states[|steps|], step)
    ensures IsRun(more, done) && more == states + [s] && done == steps + [step] && |more| == |done| + 1
  {
    hide Next, Enabled;
    more, done := states + [s], steps + [step];
  }

  /** What a relay update changes, spelled out. */
  lemma {:induction false} RelayStep(s: State, k: Key, path: RelayPath)
    ensures 1 !in s.setting ==> Next(s, SetRelay(1, k, path)) == s.(
        paths := s.paths[k := path], written := s.written[k := path.localEndpoint],
        setting := s.setting[1 := Setting(k, path.localEndpoint)])
    ensures 1 in s.setting && s.setting[1].key == k && s.setting[1].endpoint != "" ==> Next(s, SetDone(1)) == s.(
        setting := s.setting - {1}, given := s.given[k := s.setting[1].endpoint])
    ensures Next(s, ClearRelay(k, "")) == s.(paths := s.paths - {k}, written := s.written - {k})
    ensures 0 !in s.syncs ==> Next(s, Snapshot(0)) == s.(syncs := s.syncs[0 := Sync(s.paths, s.written, [])])
  {
  }

  /** The run of a first sync that lists one peer. */
  lemma {:induction false} FirstSync(k: Key, e: Endpoint) returns (states: seq<State>, steps: seq<Step>)
    requires k != "" && e != ""
    ensures IsRun(states, steps) && |steps| == 3 && |states| == 4
    ensures states[3] == State(map[], map[k := e], map[k := e], map[], map[])
  {
    hide Next;
    var none := RelayPath("", "");
    states, steps := [FRESH], [];
    RelayStep(FRESH, k, none);
    var s1 := Next(FRESH, Snapshot(0));
    AddOne(s1, k, e);
    var s2 := Next(s1, Working(0, Listed(k, e)));
    MergeOne(s2, k, e);
    states, steps := Extend(states, steps, Snapshot(0), s1);
    states, steps := Extend(states, steps, Working(0, Listed(k, e)), s2);
    states, steps := Extend(states, steps, Merge(0), Next(s2, Merge(0)));
    assert map[0 := s2.syncs[0]] - {0} == map[];
  }

  /** A path set and cleared between snapshot and merge: the record that clearing it removed
      comes back, so the next sync does not write the listed endpoint again. */
  lemma {:induction false} StaleRecordReturns(k: Key, e: Endpoint, path: RelayPath) returns (states: seq<State>, steps: seq<Step>)
    requires k != "" && e != ""
    ensures IsRun(states, steps) && |steps| == 8 && |states| == 9
    ensures steps[3] == Snapshot(0) && steps[6] == ClearRelay(k, "") && steps[7] == Merge(0)
    ensures states[7].written == map[] && states[8].written == map[k := e]
    ensures Gives(map[], states[7].written, Listed(k, e)) && !Gives(map[], states[8].written, Listed(k, e))
  {
    hide Next, IsRun;
    states, steps := FirstSync(k, e);
    RelayStep(states[3], k, path);
    var s4 := Next(states[3], Snapshot(0));
    AddOne(s4, k, e);
    var s5 := Next(s4, Working(0, Listed(k, e)));
    RelayStep(s5, k, path);
    var s6 := Next(s5, SetRelay(1, k, path));
    RelayStep(s6, k, path);
    var s7 := Next(s6, ClearRelay(k, ""));
    MergeOne(s7, k, e);
    states, steps := Extend(states, steps, Snapshot(0), s4);
    states, steps := Extend(states, steps, Working(0, Listed(k, e)), s5);
    states, steps := Extend(states, steps, SetRelay(1, k, path), s6);
    states, steps := Extend(states, steps, ClearRelay(k, ""), s7);
    states, steps := Extend(states, steps, Merge(0), Next(s7, Merge(0)));
  }

  /** A path cleared with a listed endpoint during a sync that saw it: the record is lost, so
      the next sync writes the listed endpoint over the address the peer moved to. */
  lemma {:induction false} ListedRecordIsForgotten(k: Key, e: Endpoint, path: RelayPath) returns (states: seq<State>, steps: seq<Step>)
    requires k != "" && e != "" && path.localEndpoint != ""
    ensures IsRun(states, steps) && |steps| == 6 && |states| == 7
    ensures steps[2] == Snapshot(0) && steps[4] == ClearRelay(k, e) && steps[5] == Merge(0)
    ensures states[5].written == map[k := e] && states[6].written == map[]
    ensures Gives(map[], states[6].written, Listed(k, e))
  {
    states, steps := RelayedRun(k, path);
    hide Next, IsRun;
    RelayStep(states[2], k, path);
    var s3 := Next(states[2], Snapshot(0));
    AddOne(s3, k, e);
    var s4 := Next(s3, Working(0, Listed(k, e)));
    ClearStep(s4, k, e);
    var s5 := Next(s4, ClearRelay(k, e));
    MergeOne(s5, k, e);
    states, steps := Extend(states, steps, Snapshot(0), s3);
    states, steps := Extend(states, steps, Working(0, Listed(k, e)), s4);
    states, steps := Extend(states, steps, ClearRelay(k, e), s5);
    states, steps := Extend(states, steps, Merge(0), Next(s5, Merge(0)));
  }

  lemma {:induction false} ClearStep(s: State, k: Key, e: Endpoint)
    requires e != ""
    ensures Next(s, ClearRelay(k, e)) == s.(paths := s.paths - {k}, written := s.written[k := e])
  {
  }

  /** The run of a relay update that nothing disturbs. */
  lemma {:induction false} RelayedRun(k: Key, path: RelayPath) returns (states: seq<State>, steps: seq<Step>)
    requires path.localEndpoint != ""
    ensures IsRun(states, steps) && |steps| == 2 && |states| == 3
    ensures states[2] == State(map[k := path], map[k := path.localEndpoint], map[k := path.localEndpoint], map[], map[])
  {
    hide Next;
    states, steps := [FRESH], [];
    var s1 := Next(FRESH, SetRelay(1, k, path));
    RelayStep(FRESH, k, path);
    RelayStep(s1, k, path);
    states, steps := Extend(states, steps, SetRelay(1, k, path), s1);
    states, steps := Extend(states, steps, SetDone(1), Next(s1, SetDone(1)));
    assert map[1 := s1.setting[1]] - {1} == map[];
  }

  /** A path set during a sync that had taken its snapshot before: the sync gives the dataplane
      the listed endpoint after all, the merge records the relay's, and so the next sync, which
      sees the path, does not give it again. */
  lemma {:induction false} SyncUndoesRelay(k: Key, e: Endpoint, path: RelayPath) returns (states: seq<State>, steps: seq<Step>)
    requires k != "" && e != "" && path.localEndpoint != "" && e != path.localEndpoint
    ensures IsRun(states, steps) && |steps| == 8 && |states| == 9
    ensures steps[..3] == [Snapshot(0), SetRelay(1, k, path), SetDone(1)] && steps[4] == steps[7] == Merge(0)
    ensures states[3].given == map[k := path.localEndpoint]
    ensures states[5] == states[8] == State(map[k := path], map[k := path.localEndpoint], map[k := e], map[], map[])
  {
    hide IsRun;
    states, steps := RelayDuringSync(k, e, path);
    states, steps := SyncRepeats(states, steps, k, e, path);
  }

  /** A sync without entries yet, and a state in which it is the only one. */
  const UNTOUCHED := Sync(map[], map[], [])

  function Lone(path: map<Key, RelayPath>, written: map<Key, Endpoint>, given: map<Key, Endpoint>, y: Sync): State {
    State(path, written, given, map[0 := y], map[])
  }

  lemma {:induction false} RelaySetDuringSync(k: Key, path: RelayPath) returns (states: seq<State>, steps: seq<Step>)
    requires path.localEndpoint != ""
    ensures IsRun(states, steps) && |states| == 4
    ensures steps == [Snapshot(0), SetRelay(1, k, path), SetDone(1)]
    ensures states[3] == Lone(map[k := path], map[k := path.localEndpoint], map[k := path.localEndpoint], UNTOUCHED)
  {
    var local := path.localEndpoint;
    var s1 := Lone(map[], map[], map[], UNTOUCHED);
    var s2 := State(map[k := path], map[k := local], map[], s1.syncs, map[1 := Setting(k, local)]);
    states := [FRESH, s1, s2, Lone(map[k := path], map[k := local], map[k := local], UNTOUCHED)];
    steps := [Snapshot(0), SetRelay(1, k, path), SetDone(1)];
  }

  lemma {:induction false} RelayDuringSync(k: Key, e: Endpoint, path: RelayPath) returns (states: seq<State>, steps: seq<Step>)
    requires k != "" && e != "" && path.localEndpoint != ""
    ensures IsRun(states, steps) && |steps| == 5 && |states| == 6
    ensures steps[..3] == [Snapshot(0), SetRelay(1, k, path), SetDone(1)] && steps[4] == Merge(0)
    ensures states[3].given == map[k := path.localEndpoint]
    ensures states[5] == State(map[k := path], map[k := path.localEndpoint], map[k := e], map[], map[])
  {
    hide Next, IsRun;
    states, steps := RelaySetDuringSync(k, path);
    AddOne(states[3], k, e);
    var s4 := Next(states[3], Working(0, Listed(k, e)));
    MergeOne(s4, k, e);
    states, steps := Extend(states, steps, Working(0, Listed(k, e)), s4);
    states, steps := Extend(states, steps, Merge(0), Next(s4, Merge(0)));
    assert map[0 := s4.syncs[0]] - {0} == map[];
  }

  /** The same with a peer that is listed with no endpoint: the sync records that, and the
      dataplane keeps the relay's. */
  lemma {:induction false} EmptyListingKeepsRelay(k: Key, path: RelayPath) returns (states: seq<State>, steps: seq<Step>)
    requires k != "" && path.localEndpoint != ""
    ensures IsRun(states, steps) && |steps| == 4 && |states| == 5
    ensures steps == [Snapshot(0), SetRelay(1, k, path), SetDone(1), Working(0, Entry(Peer(k, "", ""), true, true))]
    ensures 0 in states[4].syncs && states[4].syncs[0].Written() == map[k := ""]
    ensures states[4].given == states[4].written == map[k := path.localEndpoint]
    ensures GivenBySeer(states, steps, 4, k, path.localEndpoint)
  {
    hide IsRun;
    var e := Entry(Peer(k, "", ""), true, true);
    states, steps := RelaySetDuringSync(k, path);
    NoEndpoint(states[3], k);
    states, steps := Extend(states, steps, Working(0, e), Next(states[3], Working(0, e)));
    hide Next, GivenBySeer;
    RecordIsGivenExactly(states, steps, 4, k);
  }

  lemma {:induction false} NoEndpoint(s: State, k: Key)
    requires k != "" && 0 in s.syncs && s.syncs[0] == UNTOUCHED
    ensures var e := Entry(Peer(k, "", ""), true, true);
      Next(s, Working(0, e)) == s.(syncs := s.syncs[0 := Sync(map[], map[], [e])])
    ensures Sync(map[], map[], [Entry(Peer(k, "", ""), true, true)]).Written() == map[k := ""]
  {
    var e := Entry(Peer(k, "", ""), true, true);
    assert [] + [e] == [e] && [e][..0] == [];
  }

  /** The next sync changes nothing. */
  lemma {:induction false} SyncRepeats(states: seq<State>, steps: seq<Step>, k: Key, e: Endpoint, path: RelayPath)
    returns (more: seq<State>, done: seq<Step>)
    requires k != "" && e != "" && IsRun(states, steps)
    requires states[|steps|] == State(map[k := path], map[k := path.localEndpoint], map[k := e], map[], map[])
    ensures IsRun(more, done) && |done| == |steps| + 3 && |more| == |done| + 1 && states <= more && steps <= done
    ensures more[|done|] == states[|steps|] && done[|steps| + 2] == Merge(0)
  {
    var s := states[|steps|];
    assert |states| == |steps| + 1;
    hide Next, IsRun;
    var s1 := Next(s, Snapshot(0));
    RelayStep(s, k, path);
    AddOne(s1, k, e);
    var s2 := Next(s1, Working(0, Listed(k, e)));
    MergeOne(s2, k, e);
    more, done := Extend(states, steps, Snapshot(0), s1);
    more, done := Extend(more, done, Working(0, Listed(k, e)), s2);
    more, done := Extend(more, done, Merge(0), Next(s2, Merge(0)));
    assert map[0 := s2.syncs[0]] - {0} == map[];
  }

  /** Current relay paths replace what the sync wrote. */
  method Overlay(written: map<Key, Endpoint>, paths: map<Key, RelayPath>, want: set<Key>) returns (now: map<Key, Endpoint>)
    ensures forall k :: k in now <==> k in written || (k in paths && k in want)
    ensures forall k :: k in now ==> now[k] == if k in paths && k in want then paths[k].localEndpoint else written[k]
  {
    now := written;
    var todo := paths.Keys;
    while todo != {}
      invariant todo <= paths.Keys
      invariant forall k :: k in now <==> k in written || (k in paths.Keys - todo && k in want)
      invariant forall k :: k in now ==> now[k] == if k in paths.Keys - todo && k in want then paths[k].localEndpoint else written[k]
      decreases |todo|
    {
      var k :| k in todo;
      if k in want {
        now := now[k := paths[k].localEndpoint];
      }
      todo := todo - {k};
    }
  }

  /** Peers whose path went since the snapshot lose their record. */
  method EraseStale(written: map<Key, Endpoint>, relayed: map<Key, RelayPath>, paths: map<Key, RelayPath>) returns (now: map<Key, Endpoint>)
    ensures forall k :: k in now <==> k in written && (k in paths || k !in relayed)
    ensures forall k :: k in now ==> now[k] == written[k]
  {
    now := written;
    var todo := relayed.Keys;
    while todo != {}
      invariant todo <= relayed.Keys
      invariant forall k :: k in now <==> k in written && (k in paths || k !in relayed.Keys - todo)
      invariant forall k :: k in now ==> now[k] == written[k]
      decreases |todo|
    {
      var k :| k in todo;
      if k !in paths {
        now := now - {k};
      }
      todo := todo - {k};
    }
  }

  method MergeMaps(paths: map<Key, RelayPath>, relayed: map<Key, RelayPath>, worked: map<Key, Endpoint>, want: set<Key>)
    returns (kept: map<Key, RelayPath>, now: map<Key, Endpoint>)
    ensures kept == KeptPaths(paths, want) && now == MergedWritten(paths, relayed, worked, want)
  {
    kept := map k | k in paths && k in want :: paths[k];
    now := map k | k in worked && k in want :: worked[k];
    now := Overlay(now, kept, want);
    now := EraseStale(now, relayed, kept);
  }

  /** The two records, guarded by one lock. */
  class Records {
    var paths: map<Key, RelayPath>
    var written: map<Key, Endpoint>
    ghost var given: map<Key, Endpoint>
    ghost var syncs: map<nat, Sync>
    ghost var setting: map<nat, Setting>

    ghost function View(): State
      reads this
    {
      State(paths, written, given, syncs, setting)
    }

    constructor ()
      ensures View() == FRESH
    {
      paths, written, given, syncs, setting := map[], map[], map[], map[], map[];
    }

    method SetPeerRelay(ghost id: nat, k: Key, path: RelayPath)
      requires Enabled(View(), SetRelay(id, k, path))
      modifies this
      ensures View() == Next(old(View()), SetRelay(id, k, path))
    {
      paths := paths[k := path];
      written := written[k := path.localEndpoint];
      setting := setting[id := Setting(k, path.localEndpoint)];
    }

    /** The dataplane took the endpoint. */
    ghost method DonePeerRelay(id: nat)
      requires id in setting && setting[id].endpoint != ""
      modifies this`setting, this`given
      ensures View() == Next(old(View()), SetDone(id))
    {
      given := given[setting[id].key := setting[id].endpoint];
      setting := setting - {id};
    }

    /** The dataplane refused the endpoint. */
    method UndoPeerRelay(ghost id: nat, k: Key)
      requires id in setting && setting[id].key == k
      modifies this
      ensures View() == Next(old(View()), SetFailed(id))
    {
      paths := paths - {k};
      written := written - {k};
      setting := setting - {id};
    }

    method ClearPeerRelay(k: Key, listed: Endpoint)
      modifies this
      ensures View() == Next(old(View()), ClearRelay(k, listed))
    {
      paths := paths - {k};
      if listed == "" {
        written := written - {k};
      } else {
        written := written[k := listed];
      }
    }

    method ForgetAll()
      modifies this
      ensures View() == Next(old(View()), Stop)
    {
      paths, written := map[], map[];
    }

    method TakeSnapshot(ghost id: nat) returns (relayed: map<Key, RelayPath>, copy: map<Key, Endpoint>)
      requires id !in syncs
      modifies this
      ensures View() == Next(old(View()), Snapshot(id)) && relayed == old(paths) && copy == old(written)
    {
      relayed, copy := paths, written;
      syncs := syncs[id := Sync(relayed, copy, [])];
    }

    /** A sync has added one peer. */
    ghost method AddedPeer(id: nat, e: Entry)
      requires id in syncs
      modifies this`syncs, this`given
      ensures View() == Next(old(View()), Working(id, e))
    {
      var s := Added(View(), id, e);
      syncs, given := s.syncs, s.given;
    }

    method MergeSync(ghost id: nat, relayed: map<Key, RelayPath>, worked: map<Key, Endpoint>, want: set<Key>)
      requires id in syncs && syncs[id].relayed == relayed && syncs[id].Written() == worked && syncs[id].Want() == want
      modifies this
      ensures View() == Next(old(View()), Merge(id))
    {
      hide Worked, Wants;
      paths, written := MergeMaps(paths, relayed, worked, want);
      syncs := syncs - {id};
    }
  }
}

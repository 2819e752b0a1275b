/** The life of connections in the netstack: who owns each socket handle, and what an
    observed connection reports. */
module StackLifecycle {
  import opened Options
  import Pump = ConnectionPump

  type Token = nat
  type Handle = nat

  datatype Endpoint = Endpoint(addr: nat, port: nat)

  /** What an observed connection reports: virtual port, bridge port, remote endpoint. */
  datatype Attribution = Attribution(vport: nat, bridgePort: nat, remote: Endpoint)

  datatype Event =
    | Opened(who: Attribution)
    | Moved(io: Pump.Io)
    | Closed(who: Attribution)

  datatype Conn = Conn(tcp: Handle, pump: Pump.Conn, observed: Option<Attribution>)
  datatype Listener = Listener(endpoint: Endpoint, target: nat, handle: Handle, observed: bool)
  datatype UdpBinding = UdpBinding(local: Endpoint, handle: Handle)

  datatype Owner = ByListener(index: int) | ByConn(token: Token) | ByUdp(index: int)

  /** The library accepts a listen on a fresh socket unless the port is zero. */
  predicate CanListen(e: Endpoint) {
    e.port != 0
  }

  // Reports

  function OpenEvents(observed: Option<Attribution>): seq<Event> {
    if observed.Some? then [Opened(observed.value)] else []
  }

  function CloseEvents(observed: Option<Attribution>): seq<Event> {
    if observed.Some? then [Closed(observed.value)] else []
  }

  function Moves(t: Pump.Trace): (es: seq<Event>)
    ensures |es| == |t| && forall i :: 0 <= i < |t| ==> es[i] == Moved(t[i])
  {
    seq(|t|, i requires 0 <= i < |t| => Moved(t[i]))
  }

  /** The whole report of a connection: when watched, that it opened before any byte moved and,
      with the same attribution, that it closed after the last, each once; else neither. */
  ghost predicate Whole(history: seq<Event>, watched: Option<Attribution>) {
    if watched.Some? then
      && 2 <= |history| && history[0] == Opened(watched.value) && history[|history| - 1] == Closed(watched.value)
      && forall i :: 0 < i < |history| - 1 ==> history[i].Moved?
    else forall i :: 0 <= i < |history| ==> history[i].Moved?
  }

  /** The outcome of bringing up the bridge of an accepted connection. */
  datatype BridgeOutcome = BadTarget | ConnectFailed | RegisterFailed | Bridged(bridgePort: nat, remote: Endpoint)

  /** The stack as a value: its fields, the owner of each socket, and what happened to
      each connection, in order. */
  datatype State = State(
    listeners: seq<Listener>,
    conns: map<Token, Conn>,
    udp: seq<UdpBinding>,
    sockets: set<Handle>,
    nextToken: Token,
    owner: map<Handle, Owner>,
    traces: map<Token, Pump.Trace>,
    history: map<Token, seq<Event>>,
    watched: map<Token, Attribution>)        // connections of observed listeners

  ghost predicate Owns(s: State, o: Owner, h: Handle) {
    match o
    case ByListener(i) => 0 <= i < |s.listeners| && s.listeners[i].handle == h
    case ByConn(t) => t in s.conns && s.conns[t].tcp == h
    case ByUdp(i) => 0 <= i < |s.udp| && s.udp[i].handle == h
  }

  /** Each socket handle has exactly one owner: listeners, connections and UDP bindings
      hold the open sockets and nothing else, and no two hold the same one. */
  ghost predicate Owned(s: State) {
    && s.sockets == s.owner.Keys
    && (forall h :: h in s.owner ==> Owns(s, s.owner[h], h))
    && (forall i :: 0 <= i < |s.listeners| ==> Holds(s, s.listeners[i].handle, ByListener(i)))
    && (forall t :: t in s.conns ==> Holds(s, s.conns[t].tcp, ByConn(t)))
    && (forall i :: 0 <= i < |s.udp| ==> Holds(s, s.udp[i].handle, ByUdp(i)))
  }

  ghost predicate Holds(s: State, h: Handle, o: Owner) {
    h in s.owner && s.owner[h] == o
  }

  function WatchedAs(s: State, t: Token): Option<Attribution> {
    if t in s.watched then Some(s.watched[t]) else None
  }

  /** An open connection reported that it opened, and every byte it moved. */
  ghost predicate Live(s: State, t: Token)
    requires t in s.conns
  {
    && t in s.history && t in s.traces && s.conns[t].observed == WatchedAs(s, t)
    && s.history[t] == OpenEvents(WatchedAs(s, t)) + Moves(s.traces[t])
  }

  /** One that is gone also reported that it closed. */
  ghost predicate Gone(s: State, t: Token)
    requires t in s.history
  {
    t in s.traces && s.history[t] == OpenEvents(WatchedAs(s, t)) + Moves(s.traces[t]) + CloseEvents(WatchedAs(s, t))
  }

  ghost predicate Reported(s: State) {
    && (forall t :: t in s.history ==> t < s.nextToken)
    && (forall t :: t in s.watched ==> t in s.history)
    && (forall t :: t in s.conns ==> Live(s, t))
    && (forall t :: t in s.history && t !in s.conns ==> Gone(s, t))
  }

  /** Every connection moves its bytes as the pump promises. */
  ghost predicate AllBalanced(s: State) {
    forall t :: t in s.conns && t in s.traces ==> Pump.Balanced(s.conns[t].pump, s.traces[t])
  }

  /** Only endpoints that can be listened on have a listener, and only one; a local endpoint
      is bound once. */
  ghost predicate Listening(s: State) {
    && (forall i :: 0 <= i < |s.listeners| ==> CanListen(s.listeners[i].endpoint))
    && (forall i, j :: 0 <= i < j < |s.listeners| ==> s.listeners[i].endpoint != s.listeners[j].endpoint)
    && forall i, j :: 0 <= i < j < |s.udp| ==> s.udp[i].local != s.udp[j].local
  }

  ghost predicate Valid(s: State) {
    Owned(s) && Reported(s) && AllBalanced(s) && Listening(s)
  }

  const EMPTY := State([], map[], [], {}, 1, map[], map[], map[], map[])

  // The state after each primitive change

  function WithListener(s: State, endpoint: Endpoint, target: nat, observed: bool, handle: Handle): State {
    s.(listeners := s.listeners + [Listener(endpoint, target, handle, observed)],
       sockets := s.sockets + {handle},
       owner := s.owner[handle := ByListener(|s.listeners|)])
  }

  function Retargeted(s: State, i: nat, target: nat, observed: bool): State
    requires i < |s.listeners|
  {
    s.(listeners := s.listeners[i := s.listeners[i].(target := target, observed := observed)])
  }

  function WithUdp(s: State, local: Endpoint, handle: Handle): State {
    s.(udp := s.udp + [UdpBinding(local, handle)],
       sockets := s.sockets + {handle},
       owner := s.owner[handle := ByUdp(|s.udp|)])
  }

  /** A connection on `handle`, which is no longer or not yet a listener's. An observed one
      reports before any byte moves. */
  function WithConn(s: State, handle: Handle, observed: Option<Attribution>): State {
    s.(conns := s.conns[s.nextToken := Conn(handle, Pump.FRESH, observed)],
       sockets := s.sockets + {handle},
       nextToken := s.nextToken + 1,
       owner := s.owner[handle := ByConn(s.nextToken)],
       traces := s.traces[s.nextToken := []],
       history := s.history[s.nextToken := OpenEvents(observed)],
       watched := if observed.Some? then s.watched[s.nextToken := observed.value] else s.watched)
  }

  /** The accepted socket of listener `i` is replaced by a new listening one and closed. */
  function Relistened(s: State, i: nat, handle: Handle): State
    requires i < |s.listeners|
  {
    var accepted := s.listeners[i].handle;
    s.(listeners := s.listeners[i := s.listeners[i].(handle := handle)],
       sockets := s.sockets - {accepted} + {handle},
       owner := (s.owner - {accepted})[handle := ByListener(i)])
  }

  /** Release a connection: drop its socket and report an observed one closed. */
  function Finished(s: State, t: Token): State
    requires t in s.conns && t in s.history
  {
    s.(conns := s.conns - {t},
       sockets := s.sockets - {s.conns[t].tcp},
       owner := s.owner - {s.conns[t].tcp},
       history := s.history[t := s.history[t] + CloseEvents(s.conns[t].observed)])
  }

  function Pumped(s: State, t: Token, pump: Pump.Conn, trace: Pump.Trace): State
    requires t in s.conns
  {
    s.(conns := s.conns[t := s.conns[t].(pump := pump)],
       traces := s.traces[t := trace],
       history := s.history[t := OpenEvents(s.conns[t].observed) + Moves(trace)])
  }

  // Each keeps the invariant

  /** A change that adds `handle` with owner `o` and leaves the other owners alone. */
  lemma {:induction false} AddOwner(s: State, s': State, handle: Handle, o: Owner)
    requires Owned(s) && handle !in s.sockets
    requires s'.sockets == s.sockets + {handle} && s'.owner == s.owner[handle := o] && Owns(s', o, handle)
    requires |s.listeners| <= |s'.listeners| && |s.udp| <= |s'.udp|
    requires forall i :: 0 <= i < |s.listeners| ==> s'.listeners[i].handle == s.listeners[i].handle
    requires forall i :: |s.listeners| <= i < |s'.listeners| ==> s'.listeners[i].handle == handle && o == ByListener(i)
    requires forall t :: t in s.conns ==> t in s'.conns && s'.conns[t].tcp == s.conns[t].tcp
    requires forall t :: t in s'.conns && t !in s.conns ==> s'.conns[t].tcp == handle && o == ByConn(t)
    requires forall i :: 0 <= i < |s.udp| ==> s'.udp[i].handle == s.udp[i].handle
    requires forall i :: |s.udp| <= i < |s'.udp| ==> s'.udp[i].handle == handle && o == ByUdp(i)
    ensures Owned(s')
  {
  }

  lemma {:induction false} ListenerKeepsValid(s: State, endpoint: Endpoint, target: nat, observed: bool, handle: Handle)
    requires Valid(s) && handle !in s.sockets && CanListen(endpoint)
    requires forall i :: 0 <= i < |s.listeners| ==> s.listeners[i].endpoint != endpoint
    ensures Valid(WithListener(s, endpoint, target, observed, handle))
  {
    var s' := WithListener(s, endpoint, target, observed, handle);
    AddOwner(s, s', handle, ByListener(|s.listeners|));
    SameReports(s, s');
  }

  lemma {:induction false} RetargetKeepsValid(s: State, i: nat, target: nat, observed: bool)
    requires Valid(s) && i < |s.listeners|
    ensures Valid(Retargeted(s, i, target, observed))
  {
    var s' := Retargeted(s, i, target, observed);
    SameReports(s, s');
    assert forall h :: h in s.owner ==> Owns(s, s.owner[h], h);
    assert forall k :: 0 <= k < |s.listeners| ==> Holds(s, s.listeners[k].handle, ByListener(k));
  }

  lemma {:induction false} UdpKeepsValid(s: State, local: Endpoint, handle: Handle)
    requires Valid(s) && handle !in s.sockets && forall i :: 0 <= i < |s.udp| ==> s.udp[i].local != local
    ensures Valid(WithUdp(s, local, handle))
  {
    var s' := WithUdp(s, local, handle);
    AddOwner(s, s', handle, ByUdp(|s.udp|));
    SameReports(s, s');
  }

  lemma {:induction false} RelistenKeepsOwned(s: State, i: nat, handle: Handle)
    requires Owned(s) && i < |s.listeners| && handle !in s.sockets
    ensures Owned(Relistened(s, i, handle)) && s.listeners[i].handle !in Relistened(s, i, handle).sockets
  {
  }

  lemma {:induction false} RelistenKeepsValid(s: State, i: nat, handle: Handle)
    requires Valid(s) && i < |s.listeners| && handle !in s.sockets
    ensures Valid(Relistened(s, i, handle)) && s.listeners[i].handle !in Relistened(s, i, handle).sockets
  {
    RelistenKeepsOwned(s, i, handle);
    SameReports(s, Relistened(s, i, handle));
  }

  /** Reports depend only on the connections. */
  lemma {:induction false} SameReports(s: State, s': State)
    requires Reported(s) && AllBalanced(s)
    requires s'.conns == s.conns && s'.traces == s.traces && s'.history == s.history && s.nextToken <= s'.nextToken
    requires s'.watched == s.watched
    ensures Reported(s') && AllBalanced(s')
  {
    hide OpenEvents, CloseEvents, Moves, Pump.Balanced;
    assert forall t :: WatchedAs(s', t) == WatchedAs(s, t);
  }

  lemma {:induction false} SameOwners(s: State, s': State)
    requires Owned(s) && s'.listeners == s.listeners && s'.conns == s.conns && s'.udp == s.udp
    requires s'.sockets == s.sockets && s'.owner == s.owner
    ensures Owned(s')
  {
    assert forall h, o :: Owns(s', o, h) == Owns(s, o, h);
    assert forall h, o :: Holds(s', h, o) == Holds(s, h, o);
  }

  lemma {:induction false} StaysLive(s: State, s': State, t: Token)
    requires t in s.conns && Live(s, t) && t in s'.conns && s'.conns[t].observed == s.conns[t].observed
    requires t in s'.history && s'.history[t] == s.history[t] && t in s'.traces && s'.traces[t] == s.traces[t]
    requires WatchedAs(s', t) == WatchedAs(s, t)
    ensures Live(s', t)
  {
  }

  lemma {:induction false} StaysGone(s: State, s': State, t: Token)
    requires t in s.history && Gone(s, t)
    requires t in s'.history && s'.history[t] == s.history[t] && t in s'.traces && s'.traces[t] == s.traces[t]
    requires WatchedAs(s', t) == WatchedAs(s, t)
    ensures Gone(s', t)
  {
  }

  lemma {:induction false} IsTraced(s: State, t: Token)
    requires Reported(s) && t in s.history
    ensures t in s.traces && t < s.nextToken
  {
  }

  lemma {:induction false} StartsLive(s: State, handle: Handle, observed: Option<Attribution>)
    requires s.nextToken !in s.watched
    ensures Live(WithConn(s, handle, observed), s.nextToken)
  {
    assert Moves([]) == [];
  }

  lemma {:induction false} NextIsUnused(s: State)
    requires Reported(s)
    ensures s.nextToken !in s.history && s.nextToken !in s.watched && s.nextToken !in s.conns
  {
  }

  lemma {:induction false} ConnKeepsLive(s: State, handle: Handle, observed: Option<Attribution>, t: Token)
    requires Reported(s) && (t in s.conns || t == s.nextToken)
    ensures t in WithConn(s, handle, observed).conns && Live(WithConn(s, handle, observed), t)
  {
    hide Live, Reported;
    NextIsUnused(s);
    if t in s.conns {
      LiveIsReported(s, t);
      StaysLive(s, WithConn(s, handle, observed), t);
    } else {
      StartsLive(s, handle, observed);
    }
  }

  lemma {:induction false} ConnKeepsGone(s: State, handle: Handle, observed: Option<Attribution>, t: Token)
    requires Reported(s) && t in s.history && t !in s.conns
    ensures t in WithConn(s, handle, observed).history && Gone(WithConn(s, handle, observed), t)
  {
    NextIsUnused(s);
    IsTraced(s, t);
    assert Gone(s, t);
    hide Gone, Reported;
    StaysGone(s, WithConn(s, handle, observed), t);
  }

  lemma {:induction false} ConnKeepsReported(s: State, handle: Handle, observed: Option<Attribution>)
    requires Reported(s)
    ensures Reported(WithConn(s, handle, observed)) && s.nextToken !in s.conns && s.nextToken !in s.history
  {
    hide Live, Gone, OpenEvents;
    var s' := WithConn(s, handle, observed);
    NextIsUnused(s);
    forall t | t in s'.conns ensures Live(s', t) {
      ConnKeepsLive(s, handle, observed, t);
    }
    forall t | t in s'.history && t !in s'.conns ensures Gone(s', t) {
      ConnKeepsGone(s, handle, observed, t);
    }
  }

  lemma {:induction false} LiveIsReported(s: State, t: Token)
    requires Reported(s) && t in s.conns
    ensures t in s.history && t in s.traces && t < s.nextToken && Live(s, t)
  {
  }

  lemma {:induction false} ConnKeepsBalanced(s: State, handle: Handle, observed: Option<Attribution>)
    requires AllBalanced(s)
    ensures AllBalanced(WithConn(s, handle, observed))
  {
  }

  lemma {:induction false} ConnKeepsOwned(s: State, handle: Handle, observed: Option<Attribution>)
    requires Owned(s) && handle !in s.sockets && s.nextToken !in s.conns
    ensures Owned(WithConn(s, handle, observed))
  {
    hide Owned;
    AddOwner(s, WithConn(s, handle, observed), handle, ByConn(s.nextToken));
  }

  lemma {:induction false} ConnKeepsValid(s: State, handle: Handle, observed: Option<Attribution>)
    requires Valid(s) && handle !in s.sockets
    ensures Valid(WithConn(s, handle, observed)) && s.nextToken !in s.history
  {
    hide Owned, AllBalanced;
    ConnKeepsReported(s, handle, observed);
    ConnKeepsBalanced(s, handle, observed);
    ConnKeepsOwned(s, handle, observed);
  }

  lemma {:induction false} FinishKeepsOwned(s: State, t: Token)
    requires Owned(s) && t in s.conns && t in s.history
    ensures Owned(Finished(s, t)) && s.conns[t].tcp !in Finished(s, t).sockets
  {
  }

  lemma {:induction false} FinishKeepsReported(s: State, t: Token)
    requires Reported(s) && t in s.conns
    ensures t in s.history && Reported(Finished(s, t))
  {
  }

  lemma {:induction false} FinishKeepsValid(s: State, t: Token)
    requires Valid(s) && t in s.conns
    ensures t in s.history && Valid(Finished(s, t)) && s.conns[t].tcp !in Finished(s, t).sockets
  {
    FinishKeepsReported(s, t);
    FinishKeepsOwned(s, t);
  }

  lemma {:induction false} PumpKeepsReported(s: State, t: Token, pump: Pump.Conn, trace: Pump.Trace)
    requires Reported(s) && t in s.conns
    ensures t in s.history && Reported(Pumped(s, t, pump, trace))
  {
    hide OpenEvents, CloseEvents, Moves;
    assert forall k :: WatchedAs(Pumped(s, t, pump, trace), k) == WatchedAs(s, k);
  }

  lemma {:induction false} PumpKeepsOwned(s: State, t: Token, pump: Pump.Conn, trace: Pump.Trace)
    requires Owned(s) && t in s.conns
    ensures Owned(Pumped(s, t, pump, trace))
  {
  }

  lemma {:induction false} PumpKeepsBalanced(s: State, t: Token, pump: Pump.Conn, trace: Pump.Trace)
    requires AllBalanced(s) && t in s.conns && Pump.Balanced(pump, trace)
    ensures AllBalanced(Pumped(s, t, pump, trace))
  {
  }

  lemma {:induction false} PumpKeepsValid(s: State, t: Token, pump: Pump.Conn, trace: Pump.Trace)
    requires Valid(s) && t in s.conns && Pump.Balanced(pump, trace)
    ensures t in s.history && Valid(Pumped(s, t, pump, trace))
  {
    PumpKeepsReported(s, t, pump, trace);
    PumpKeepsOwned(s, t, pump, trace);
    PumpKeepsBalanced(s, t, pump, trace);
  }

  // The stack

  /** What the environment does in one step. `fresh` handles are those the library hands
      out for new sockets. */
  datatype Step =
    | AddForward(endpoint: Endpoint, target: nat, observed: bool)
    | RemoveEgress(tokens: set<Token>)
    | BindUdp(local: Endpoint, succeeds: bool)
    | ManageListeners(accepted: set<Handle>, outcomes: map<Handle, BridgeOutcome>)
    | OpenEgress(connects: bool, registers: bool)
    | PumpConns(scripts: map<Token, Pump.Script>)

  /** An unused handle. */
  function FreshHandle(s: set<Handle>): (h: Handle)
    ensures h !in s
  {
    FirstUnused(s, 0)
  }

  function From(s: set<Handle>, from: Handle): set<Handle> {
    set x | x in s && from <= x
  }

  function FirstUnused(s: set<Handle>, from: Handle): (h: Handle)
    ensures h !in s
    decreases |From(s, from)|
  {
    if from !in s then from
    else
      assert from in From(s, from) && From(s, from + 1) == From(s, from) - {from};
      FirstUnused(s, from + 1)
  }

  // What becomes of an accepted connection

  function OutcomeOf(handle: Handle, outcomes: map<Handle, BridgeOutcome>): BridgeOutcome {
    if handle in outcomes then outcomes[handle] else ConnectFailed
  }

  function SeenAs(listener: Listener, outcome: BridgeOutcome): Option<Attribution>
    requires outcome.Bridged?
  {
    if listener.observed then Some(Attribution(listener.endpoint.port, outcome.bridgePort, outcome.remote)) else None
  }

  /** The connection that an accepted socket became: on that socket, with nothing moved yet, and
      watched exactly when the listener is observed, under its port, the bridge's port and the
      remote endpoint. */
  ghost predicate BecameConn(before: State, now: State, t: Token, listener: Listener, outcome: BridgeOutcome) {
    && outcome.Bridged? && t in now.conns && t !in before.conns
    && now.conns[t].tcp == listener.handle && now.conns[t].pump == Pump.FRESH
    && (t in now.watched <==> listener.observed)
    && (listener.observed ==> now.watched[t] == Attribution(listener.endpoint.port, outcome.bridgePort, outcome.remote))
  }

  /** With a bridge, the accepted socket of a listener became a new connection. */
  ghost predicate Answered(before: State, now: State, listener: Listener, outcomes: map<Handle, BridgeOutcome>) {
    var outcome := OutcomeOf(listener.handle, outcomes);
    outcome.Bridged? ==> exists t :: BecameConn(before, now, t, listener, outcome)
  }

  /** The new connection is that of one of the first `k` accepting listeners. */
  ghost predicate HasSource(before: State, now: State, promoted: seq<nat>, k: nat, t: Token, outcomes: map<Handle, BridgeOutcome>)
    requires k <= |promoted| && forall j :: 0 <= j < |promoted| ==> promoted[j] < |before.listeners|
  {
    exists j :: 0 <= j < k && var l := before.listeners[promoted[j]]; BecameConn(before, now, t, l, OutcomeOf(l.handle, outcomes))
  }

  /** The first `k` of the accepting listeners were seen to. */
  ghost predicate SeenTo(before: State, now: State, promoted: seq<nat>, k: nat, outcomes: map<Handle, BridgeOutcome>) {
    && |now.listeners| == |before.listeners| && before.conns.Keys <= now.conns.Keys && k <= |promoted|
    && (forall j :: 0 <= j < |promoted| ==> promoted[j] < |before.listeners|)
    && (forall i :: 0 <= i < |now.listeners| && i !in promoted[..k] ==> now.listeners[i] == before.listeners[i])
    && (forall j :: 0 <= j < k ==> Answered(before, now, before.listeners[promoted[j]], outcomes))
    && (forall t :: t in now.conns && t !in before.conns ==> HasSource(before, now, promoted, k, t, outcomes))
    && (forall t :: t in before.watched ==> t in now.watched && now.watched[t] == before.watched[t])
  }

  lemma {:induction false} SeeToNext(
    before: State, now: State, after: State, promoted: seq<nat>, k: nat, token: Token, outcomes: map<Handle, BridgeOutcome>)
    requires SeenTo(before, now, promoted, k, outcomes) && k < |promoted| && promoted[k] !in promoted[..k]
    requires token !in now.conns && token !in now.watched
    requires |after.listeners| == |now.listeners| && after.listeners == now.listeners[promoted[k] := after.listeners[promoted[k]]]
    requires var listener := now.listeners[promoted[k]];
      var outcome := OutcomeOf(listener.handle, outcomes);
      if outcome.Bridged? then Promoted(now, after, token, listener, outcome)
      else after.conns == now.conns && after.watched == now.watched
    ensures SeenTo(before, after, promoted, k + 1, outcomes)
  {
    hide BecameConn;
    var listener := now.listeners[promoted[k]];
    assert listener == before.listeners[promoted[k]];
    var outcome := OutcomeOf(listener.handle, outcomes);
    forall t, l, o | BecameConn(before, now, t, l, o) ensures BecameConn(before, after, t, l, o) {
      StillBecame(before, now, after, t, l, o, token);
    }
    if outcome.Bridged? {
      FreshBecame(before, now, after, token, listener, outcome);
    }
    forall j | 0 <= j < k + 1 ensures Answered(before, after, before.listeners[promoted[j]], outcomes) {
      if j < k {
        assert Answered(before, now, before.listeners[promoted[j]], outcomes);
      }
    }
    forall t | t in after.conns && t !in before.conns ensures HasSource(before, after, promoted, k + 1, t, outcomes) {
      if t in now.conns && t != token {
        assert HasSource(before, now, promoted, k, t, outcomes);
      } else {
        assert BecameConn(before, after, t, before.listeners[promoted[k]], outcome);
      }
    }
  }

  /** The one new connection of a listener with a bridge. */
  ghost predicate Promoted(now: State, after: State, token: Token, listener: Listener, outcome: BridgeOutcome)
    requires outcome.Bridged?
  {
    var who := Attribution(listener.endpoint.port, outcome.bridgePort, outcome.remote);
    && after.conns.Keys == now.conns.Keys + {token}
    && (forall t :: t in now.conns ==> after.conns[t] == now.conns[t])
    && after.conns[token] == Conn(listener.handle, Pump.FRESH, if listener.observed then Some(who) else None)
    && after.watched == if listener.observed then now.watched[token := who] else now.watched
  }

  lemma {:induction false} StillBecame(
    before: State, now: State, after: State, t: Token, l: Listener, o: BridgeOutcome, token: Token)
    requires BecameConn(before, now, t, l, o) && token !in now.conns
    requires forall x :: x in now.conns ==> x in after.conns && after.conns[x] == now.conns[x]
    requires forall x :: x != token ==> (x in after.watched <==> x in now.watched)
    requires forall x :: x != token && x in now.watched ==> after.watched[x] == now.watched[x]
    ensures BecameConn(before, after, t, l, o)
  {
  }

  lemma {:induction false} FreshBecame(before: State, now: State, after: State, token: Token, listener: Listener, outcome: BridgeOutcome)
    requires token !in now.conns && token !in now.watched && before.conns.Keys <= now.conns.Keys && outcome.Bridged?
    requires Promoted(now, after, token, listener, outcome)
    ensures BecameConn(before, after, token, listener, outcome)
  {
  }

  lemma {:induction false} NoneSeenTo(s: State, promoted: seq<nat>, outcomes: map<Handle, BridgeOutcome>)
    requires forall j :: 0 <= j < |promoted| ==> promoted[j] < |s.listeners|
    ensures SeenTo(s, s, promoted, 0, outcomes)
  {
  }

  lemma {:induction false} AllSeenTo(before: State, now: State, promoted: seq<nat>, accepted: set<Handle>, outcomes: map<Handle, BridgeOutcome>)
    requires SeenTo(before, now, promoted, |promoted|, outcomes)
    requires forall k :: 0 <= k < |promoted| ==> before.listeners[promoted[k]].handle in accepted
    requires forall i :: 0 <= i < |before.listeners| && before.listeners[i].handle in accepted ==> exists k :: 0 <= k < |promoted| && promoted[k] == i
    ensures before.conns.Keys <= now.conns.Keys && |now.listeners| == |before.listeners|
    ensures forall i :: 0 <= i < |now.listeners| && before.listeners[i].handle !in accepted ==> now.listeners[i] == before.listeners[i]
    ensures forall i :: 0 <= i < |now.listeners| && before.listeners[i].handle in accepted ==>
      Answered(before, now, before.listeners[i], outcomes)
    ensures forall t :: t in now.conns && t !in before.conns ==> exists i ::
      && 0 <= i < |now.listeners| && before.listeners[i].handle in accepted
      && BecameConn(before, now, t, before.listeners[i], OutcomeOf(before.listeners[i].handle, outcomes))
    ensures forall t :: t in before.watched ==> t in now.watched && now.watched[t] == before.watched[t]
  {
    hide Answered, BecameConn, OutcomeOf;
    assert promoted[..|promoted|] == promoted;
    forall i | 0 <= i < |now.listeners| && before.listeners[i].handle in accepted
      ensures Answered(before, now, before.listeners[i], outcomes)
    {
      var j :| 0 <= j < |promoted| && promoted[j] == i;
    }
    forall t | t in now.conns && t !in before.conns
      ensures exists i ::
        && 0 <= i < |now.listeners| && before.listeners[i].handle in accepted
        && BecameConn(before, now, t, before.listeners[i], OutcomeOf(before.listeners[i].handle, outcomes))
    {
      assert HasSource(before, now, promoted, |promoted|, t, outcomes);
      var j :| 0 <= j < |promoted|
        && var l := before.listeners[promoted[j]]; BecameConn(before, now, t, l, OutcomeOf(l.handle, outcomes));
      var i := promoted[j];
      assert BecameConn(before, now, t, before.listeners[i], OutcomeOf(before.listeners[i].handle, outcomes));
    }
  }

  lemma {:induction false} NewConnIsPromoted(s: State, listener: Listener, outcome: BridgeOutcome)
    requires outcome.Bridged? && s.nextToken !in s.conns
    ensures var after := WithConn(s, listener.handle, SeenAs(listener, outcome));
      && Promoted(s, after, s.nextToken, listener, outcome)
      && after.history[s.nextToken] == if listener.observed
                                       then [Opened(Attribution(listener.endpoint.port, outcome.bridgePort, outcome.remote))]
                                       else []
  {
  }

  lemma {:induction false} SamePromoted(s: State, now: State, after: State, listener: Listener, outcome: BridgeOutcome)
    requires outcome.Bridged? && Promoted(now, after, now.nextToken, listener, outcome)
    requires s.conns == now.conns && s.watched == now.watched && s.nextToken == now.nextToken
    ensures Promoted(s, after, s.nextToken, listener, outcome)
  {
  }

  // What a pass does to a connection

  ghost predicate Untouched(before: State, now: State, t: Token) {
    && t in before.conns && t in before.traces && t in now.conns && t in now.traces
    && now.conns[t] == before.conns[t] && now.traces[t] == before.traces[t]
  }

  /** One pass of the pump went over the connection. */
  ghost predicate Visited(before: State, now: State, t: Token, script: Pump.Script) {
    && t in before.conns && t in before.traces && t in now.conns && t in now.traces
    && now.conns[t] == before.conns[t].(pump := Pump.Through(before.conns[t].pump, script))
    && Pump.WritesOn(now.conns[t].pump, before.traces[t], now.traces[t], script)
    && Pump.SendsOn(now.conns[t].pump, before.traces[t], now.traces[t], script)
    && Pump.ReadsOn(before.traces[t], now.traces[t], script)
    && Pump.Carried(before.conns[t].pump, before.traces[t], now.traces[t], script)
  }

  ghost predicate Treated(before: State, now: State, t: Token, scripts: map<Token, Pump.Script>) {
    if t in scripts then Visited(before, now, t, scripts[t]) else Untouched(before, now, t)
  }

  /** Its socket closed and everything taken from it was written. */
  ghost predicate Leaves(before: State, t: Token, script: Pump.Script) {
    t in before.conns && script.closed && Pump.Through(before.conns[t].pump, script).toBridge == []
  }

  lemma {:induction false} VisitedSince(before: State, now: State, after: State, t: Token, script: Pump.Script)
    requires Untouched(before, now, t)
    ensures Visited(before, after, t, script) == Visited(now, after, t, script)
    ensures Leaves(before, t, script) == Leaves(now, t, script)
  {
  }

  lemma {:induction false} SameTreatment(before: State, pumped: State, now: State, t: Token, scripts: map<Token, Pump.Script>)
    requires Treated(before, pumped, t, scripts) && t in now.conns && t in pumped.conns
    requires now.conns[t] == pumped.conns[t]
    requires t in pumped.traces ==> t in now.traces && now.traces[t] == pumped.traces[t]
    ensures Treated(before, now, t, scripts)
  {
  }

  lemma {:induction false} LeavesWhole(before: State, now: State, t: Token, script: Pump.Script)
    requires Valid(now) && Visited(before, now, t, script) && Leaves(before, t, script)
    ensures t in now.traces && Pump.TookBytes(now.traces[t]) == Pump.WroteBytes(now.traces[t])
  {
  }

  /** A pass with the connections of `rest` still to go. */
  ghost predicate Progress(before: State, now: State, rest: set<Token>, scripts: map<Token, Pump.Script>) {
    && now.conns.Keys == before.conns.Keys && rest <= now.conns.Keys
    && (forall t :: t in rest ==> Untouched(before, now, t))
    && (forall t :: t in now.conns && t !in rest ==> Treated(before, now, t, scripts))
  }

  lemma {:induction false} PassStarts(s: State, scripts: map<Token, Pump.Script>)
    requires Valid(s)
    ensures Progress(s, s, s.conns.Keys, scripts)
  {
  }

  lemma {:induction false} PassSkips(before: State, now: State, rest: set<Token>, token: Token, scripts: map<Token, Pump.Script>)
    requires Progress(before, now, rest, scripts) && token in rest && token !in scripts
    ensures Progress(before, now, rest - {token}, scripts)
  {
  }

  lemma {:induction false} PassVisits(before: State, now: State, after: State, rest: set<Token>, token: Token, scripts: map<Token, Pump.Script>)
    requires Progress(before, now, rest, scripts) && token in rest && token in scripts
    requires token in after.conns && token in after.traces && Visited(now, after, token, scripts[token])
    requires after == Pumped(now, token, after.conns[token].pump, after.traces[token])
    ensures Progress(before, after, rest - {token}, scripts)
    ensures Leaves(before, token, scripts[token]) == Leaves(now, token, scripts[token])
  {
    hide Visited, Leaves;
    VisitedSince(before, now, after, token, scripts[token]);
    forall t | t in now.conns && t != token && t !in rest ensures Treated(before, after, t, scripts) {
      SameTreatment(before, now, after, t, scripts);
    }
  }

  class Stack {
    var listeners: seq<Listener>
    var conns: map<Token, Conn>
    var udp: seq<UdpBinding>
    var sockets: set<Handle>
    var nextToken: Token
    ghost var owner: map<Handle, Owner>
    ghost var traces: map<Token, Pump.Trace>
    ghost var history: map<Token, seq<Event>>
    ghost var watched: map<Token, Attribution>

    ghost function View(): State
      reads this
    {
      State(listeners, conns, udp, sockets, nextToken, owner, traces, history, watched)
    }

    constructor ()
      ensures View() == EMPTY && Valid(View())
    {
      listeners, conns, udp, sockets, nextToken := [], map[], [], {}, 1;
      owner, traces, history, watched := map[], map[], map[], map[];
    }

    // Connections

    method InsertConn(handle: Handle, seen: Option<Attribution>)
      requires Valid(View()) && handle !in sockets
      modifies this
      ensures View() == WithConn(old(View()), handle, seen) && Valid(View())
    {
      hide Owned, Reported, AllBalanced, Listening;
      ConnKeepsValid(View(), handle, seen);
      conns := conns[nextToken := Conn(handle, Pump.FRESH, seen)];
      sockets := sockets + {handle};
      owner := owner[handle := ByConn(nextToken)];
      traces := traces[nextToken := []];
      history := history[nextToken := OpenEvents(seen)];
      watched := if seen.Some? then watched[nextToken := seen.value] else watched;
      nextToken := nextToken + 1;
    }

    method FinishConn(token: Token)
      requires Valid(View()) && token in conns
      modifies this
      ensures token in old(history) && View() == Finished(old(View()), token) && Valid(View())
    {
      hide Owned, Reported, AllBalanced, Listening;
      FinishKeepsValid(View(), token);
      var conn := conns[token];
      conns := conns - {token};
      sockets := sockets - {conn.tcp};
      owner := owner - {conn.tcp};
      history := history[token := history[token] + CloseEvents(conn.observed)];
    }

    // Commands

    /** Point an endpoint's listener at a target, opening one if there is none. */
    method AddForward(endpoint: Endpoint, target: nat, seen: bool)
      requires Valid(View())
      modifies this
      ensures Valid(View()) && conns == old(conns) && history == old(history) && watched == old(watched) && udp == old(udp)
      ensures endpoint.port == 0 ==> View() == old(View())
      ensures |old(listeners)| <= |listeners| <= |old(listeners)| + 1
      ensures forall i :: 0 <= i < |old(listeners)| && old(listeners)[i].endpoint != endpoint ==> listeners[i] == old(listeners)[i]
      ensures endpoint.port != 0 ==> exists i :: OnlyListener(listeners, i, endpoint, target, seen)
    {
      hide Owned, Reported, AllBalanced, Listening;
      for i := 0 to |listeners|
        invariant View() == old(View())
        invariant forall j :: 0 <= j < i ==> listeners[j].endpoint != endpoint
      {
        if listeners[i].endpoint == endpoint {
          ListensOnEndpoint(View(), i);
          RetargetKeepsValid(View(), i, target, seen);
          listeners := listeners[i := listeners[i].(target := target, observed := seen)];
          IsOnlyListener(View(), i, endpoint, target, seen);
          return;
        }
      }
      if CanListen(endpoint) {
        var handle := FreshHandle(sockets);
        ListenerKeepsValid(View(), endpoint, target, seen, handle);
        sockets := sockets + {handle};
        owner := owner[handle := ByListener(|listeners|)];
        listeners := listeners + [Listener(endpoint, target, handle, seen)];
        IsOnlyListener(View(), |listeners| - 1, endpoint, target, seen);
      }
    }

    /** Every report only adds to what was reported before. */
    ghost predicate Extends(before: map<Token, seq<Event>>)
      reads this
    {
      before.Keys <= history.Keys && forall t :: t in before ==> before[t] <= history[t]
    }

    /** What was watched stays so, as it was. */
    ghost predicate WatchesOn(before: map<Token, Attribution>)
      reads this
    {
      forall t :: t in before ==> t in watched && watched[t] == before[t]
    }

    /** Release these connections. */
    method FinishAll(tokens: set<Token>)
      requires Valid(View())
      modifies this
      ensures Valid(View()) && conns == old(conns) - tokens && traces == old(traces)
      ensures Extends(old(history)) && watched == old(watched)
    {
      hide Owned, Reported, AllBalanced, Listening;
      var rest := tokens;
      while rest != {}
        invariant Valid(View()) && rest <= tokens
        invariant conns == old(conns) - (tokens - rest) && traces == old(traces)
        invariant Extends(old(history)) && watched == old(watched)
        decreases |rest|
      {
        var token :| token in rest;
        if token in conns {
          FinishConn(token);
        }
        rest := rest - {token};
      }
    }

    /** Abort the connections whose socket has the removed destination. */
    method RemoveEgress(tokens: set<Token>)
      requires Valid(View())
      modifies this
      ensures Valid(View()) && conns == old(conns) - tokens && Extends(old(history)) && watched == old(watched)
    {
      FinishAll(tokens);
    }

    /** Bind a local endpoint that is not bound yet. */
    method BindUdp(local: Endpoint, succeeds: bool)
      requires Valid(View())
      modifies this
      ensures Valid(View()) && conns == old(conns) && history == old(history) && listeners == old(listeners)
      ensures watched == old(watched)
      ensures !succeeds || (exists i :: BoundAt(old(udp), i, local)) ==> View() == old(View())
      ensures succeeds && (forall i :: !BoundAt(old(udp), i, local)) ==>
        udp == old(udp) + [UdpBinding(local, FreshHandle(old(sockets)))]
    {
      hide Owned, Reported, AllBalanced, Listening;
      for i := 0 to |udp|
        invariant View() == old(View())
        invariant forall j :: 0 <= j < i ==> udp[j].local != local
      {
        if udp[i].local == local {
          assert BoundAt(udp, i, local);
          return;
        }
      }
      if !succeeds {
        return;
      }
      var handle := FreshHandle(sockets);
      UdpKeepsValid(View(), local, handle);
      sockets := sockets + {handle};
      owner := owner[handle := ByUdp(|udp|)];
      udp := udp + [UdpBinding(local, handle)];
    }

    // Accepting

    /** Replace the socket of a listener by a new listening one. */
    method Relisten(index: nat)
      requires Valid(View()) && index < |listeners|
      modifies this
      ensures Valid(View()) && old(listeners)[index].handle !in sockets
      ensures View() == Relistened(old(View()), index, FreshHandle(old(sockets)))
      ensures conns == old(conns) && history == old(history) && watched == old(watched) && nextToken == old(nextToken)
      ensures |listeners| == |old(listeners)| && listeners == old(listeners)[index := listeners[index]]
    {
      hide Owned, Reported, AllBalanced, Listening;
      var listener := listeners[index];
      var handle := FreshHandle(sockets);
      RelistenKeepsValid(View(), index, handle);
      listeners := listeners[index := listener.(handle := handle)];
      sockets := sockets - {listener.handle} + {handle};
      owner := (owner - {listener.handle})[handle := ByListener(index)];
    }

    /** Make a connection of an accepted socket whose bridge is up. */
    method Adopt(listener: Listener, outcome: BridgeOutcome)
      requires Valid(View()) && outcome.Bridged? && listener.handle !in sockets
      modifies this
      ensures Valid(View()) && Extends(old(history)) && listeners == old(listeners)
      ensures old(nextToken) !in old(conns) && old(nextToken) !in old(history) && old(nextToken) !in old(watched)
      ensures Promoted(old(View()), View(), old(nextToken), listener, outcome) && old(nextToken) in history
      ensures history[old(nextToken)] == if listener.observed
                                         then [Opened(Attribution(listener.endpoint.port, outcome.bridgePort, outcome.remote))]
                                         else []
    {
      hide Owned, Reported, AllBalanced, Listening, Promoted;
      UnusedToken(View());
      NewConnIsPromoted(View(), listener, outcome);
      InsertConn(listener.handle, SeenAs(listener, outcome));
    }

    /** Listen again, then bring up the bridge of the accepted connection; without a bridge
        its socket is dropped. */
    method Promote(index: nat, outcome: BridgeOutcome)
      requires Valid(View()) && index < |listeners|
      modifies this
      ensures Valid(View()) && |listeners| == |old(listeners)| && Extends(old(history))
      ensures listeners == old(listeners)[index := listeners[index]]
      ensures outcome.Bridged? ==>
        var listener, token := old(listeners)[index], old(nextToken);
        && token !in old(conns) && token !in old(history) && Promoted(old(View()), View(), token, listener, outcome)
        && token in history
        && history[token] == if listener.observed
                             then [Opened(Attribution(listener.endpoint.port, outcome.bridgePort, outcome.remote))]
                             else []
      ensures !outcome.Bridged? ==> conns == old(conns) && watched == old(watched) && old(listeners)[index].handle !in sockets
      ensures old(nextToken) !in old(conns) && old(nextToken) !in old(watched)
    {
      hide Owned, Reported, AllBalanced, Listening, Promoted, Relistened;
      UnusedToken(View());
      var listener := listeners[index];
      ghost var before := View();
      Relisten(index);
      ghost var relistened := View();
      if outcome.RegisterFailed? {
        SkipToken(View());
        nextToken := nextToken + 1;
      } else if outcome.Bridged? {
        Adopt(listener, outcome);
        SamePromoted(before, relistened, View(), listener, outcome);
      }
    }

    /** The listeners whose socket accepted a connection. */
    method FindAccepting(accepted: set<Handle>) returns (promoted: seq<nat>)
      ensures forall k :: 0 <= k < |promoted| ==> promoted[k] < |listeners| && listeners[promoted[k]].handle in accepted
      ensures forall k, l :: 0 <= k < l < |promoted| ==> promoted[k] < promoted[l]
      ensures forall i :: 0 <= i < |listeners| && listeners[i].handle in accepted ==> exists k :: 0 <= k < |promoted| && promoted[k] == i
    {
      promoted := [];
      for i := 0 to |listeners|
        invariant forall k :: 0 <= k < |promoted| ==> promoted[k] < i && listeners[promoted[k]].handle in accepted
        invariant forall k, l :: 0 <= k < l < |promoted| ==> promoted[k] < promoted[l]
        invariant forall j :: 0 <= j < i && listeners[j].handle in accepted ==> exists k :: 0 <= k < |promoted| && promoted[k] == j
      {
        if listeners[i].handle in accepted {
          ghost var before := promoted;
          promoted := promoted + [i];
          assert promoted[|before|] == i && forall k :: 0 <= k < |before| ==> promoted[k] == before[k];
        }
      }
    }

    /** Promote every listener whose socket accepted a connection. */
    method ManageListeners(accepted: set<Handle>, outcomes: map<Handle, BridgeOutcome>)
      requires Valid(View())
      modifies this
      ensures Valid(View()) && Extends(old(history)) && old(conns).Keys <= conns.Keys && |listeners| == |old(listeners)|
      ensures forall i :: 0 <= i < |listeners| && old(listeners)[i].handle !in accepted ==> listeners[i] == old(listeners)[i]
      ensures forall i :: 0 <= i < |listeners| && old(listeners)[i].handle in accepted ==>
        Answered(old(View()), View(), old(listeners)[i], outcomes)
      ensures forall t :: t in conns && t !in old(conns) ==> exists i ::
        && 0 <= i < |listeners| && old(listeners)[i].handle in accepted
        && BecameConn(old(View()), View(), t, old(listeners)[i], OutcomeOf(old(listeners)[i].handle, outcomes))
      ensures WatchesOn(old(watched))
    {
      hide Owned, Reported, AllBalanced, Listening, Answered, BecameConn, Promoted, SeenTo;
      ghost var before := View();
      var promoted := FindAccepting(accepted);
      NoneSeenTo(before, promoted, outcomes);
      for k := 0 to |promoted|
        invariant Valid(View()) && Extends(before.history)
        invariant SeenTo(before, View(), promoted, k, outcomes) && |listeners| == |before.listeners|
        invariant forall i :: 0 <= i < |listeners| && i !in promoted[..k] ==> listeners[i] == before.listeners[i]
      {
        ghost var now := View();
        Promote(promoted[k], OutcomeOf(listeners[promoted[k]].handle, outcomes));
        assert promoted[..k + 1] == promoted[..k] + [promoted[k]];
        SeeToNext(before, now, View(), promoted, k, now.nextToken, outcomes);
      }
      AllSeenTo(before, View(), promoted, accepted, outcomes);
    }

    /** A loopback connection opens a virtual one, which is not observed. */
    method OpenEgress(connects: bool, registers: bool)
      requires Valid(View())
      modifies this
      ensures Valid(View()) && Extends(old(history)) && old(conns).Keys <= conns.Keys && watched == old(watched)
      ensures conns == if connects && registers
                       then old(conns)[old(nextToken) := Conn(FreshHandle(old(sockets)), Pump.FRESH, None)]
                       else old(conns)
    {
      hide Owned, Reported, AllBalanced, Listening;
      if !connects {
        return;
      }
      if !registers {
        SkipToken(View());
        nextToken := nextToken + 1;
        return;
      }
      UnusedToken(View());
      InsertConn(FreshHandle(sockets), None);
    }

    // Pumping

    /** Move the bytes of one connection. */
    method PumpOne(token: Token, script: Pump.Script) returns (remove: bool)
      requires Valid(View()) && token in conns
      modifies this
      ensures Valid(View()) && token in conns && token in traces && token in old(traces)
      ensures View() == Pumped(old(View()), token, conns[token].pump, traces[token])
      ensures old(traces)[token] <= traces[token] && Extends(old(history))
      ensures Visited(old(View()), View(), token, script) && remove == Leaves(old(View()), token, script)
    {
      hide Owned, Reported, AllBalanced, Listening;
      hide Pump.Balanced, Pump.TookBytes, Pump.WroteBytes, Pump.Through, Pump.Carried;
      hide Pump.WritesOn, Pump.SendsOn, Pump.ReadsOn;
      LiveConn(View(), token);
      var conn := conns[token];
      var pump: Pump.Conn;
      ghost var trace: Pump.Trace;
      pump, trace, remove := Pump.Pump(conn.pump, traces[token], script);
      Advance(token, pump, trace);
    }

    method Advance(token: Token, pump: Pump.Conn, ghost trace: Pump.Trace)
      requires Valid(View()) && token in conns && Pump.Balanced(pump, trace)
      requires Live(View(), token) && traces[token] <= trace
      modifies this
      ensures View() == Pumped(old(View()), token, pump, trace) && Valid(View()) && Extends(old(history))
    {
      hide Owned, Reported, AllBalanced, Listening, Live;
      hide Pump.Balanced;
      PumpKeepsValid(View(), token, pump, trace);
      PumpExtends(View(), token, pump, trace);
      var conn := conns[token];
      conns := conns[token := conn.(pump := pump)];
      traces := traces[token := trace];
      history := history[token := OpenEvents(conn.observed) + Moves(trace)];
    }

    /** Connections gone since the start of the pass had nothing left to write. */
    ghost predicate DroppedWhole(before: set<Token>)
      reads this
    {
      forall t :: t in before && t !in conns ==> t in traces && Pump.TookBytes(traces[t]) == Pump.WroteBytes(traces[t])
    }

    /** Pump the next connection of a pass, if there is anything to answer for it. */
    method PumpNext(ghost before: State, ghost rest: set<Token>, token: Token, scripts: map<Token, Pump.Script>) returns (remove: bool)
      requires Valid(View()) && token in conns && token in rest && Progress(before, View(), rest, scripts)
      modifies this
      ensures Valid(View()) && conns.Keys == old(conns).Keys && Extends(old(history)) && watched == old(watched)
      ensures Progress(before, View(), rest - {token}, scripts)
      ensures remove <==> token in scripts && Leaves(before, token, scripts[token])
    {
      hide Owned, Reported, AllBalanced, Listening, Progress, Leaves, Visited;
      if token in scripts {
        ghost var now := View();
        remove := PumpOne(token, scripts[token]);
        PassVisits(before, now, View(), rest, token, scripts);
      } else {
        remove := false;
        PassSkips(before, View(), rest, token, scripts);
      }
    }

    /** Pump every connection; the finished ones are to be released. */
    method PumpAll(scripts: map<Token, Pump.Script>) returns (finished: set<Token>)
      requires Valid(View())
      modifies this
      ensures Valid(View()) && conns.Keys == old(conns).Keys && Extends(old(history)) && watched == old(watched)
      ensures Progress(old(View()), View(), {}, scripts)
      ensures forall t :: t in finished <==> t in conns && t in scripts && Leaves(old(View()), t, scripts[t])
    {
      hide Owned, Reported, AllBalanced, Listening, Progress, Leaves;
      ghost var before := View();
      var rest := conns.Keys;
      finished := {};
      PassStarts(before, scripts);
      while rest != {}
        invariant Valid(View()) && conns.Keys == before.conns.Keys && rest <= conns.Keys
        invariant Extends(before.history) && watched == before.watched
        invariant Progress(before, View(), rest, scripts)
        invariant forall t :: t in finished <==> t in conns && t !in rest && t in scripts && Leaves(before, t, scripts[t])
        decreases |rest|
      {
        var token :| token in rest;
        var remove := PumpNext(before, rest, token, scripts);
        if remove {
          finished := finished + {token};
        }
        rest := rest - {token};
      }
    }

    /** Pump every connection, then release the finished ones. */
    method PumpConns(scripts: map<Token, Pump.Script>)
      requires Valid(View())
      modifies this
      ensures Valid(View()) && conns.Keys <= old(conns).Keys && Extends(old(history)) && watched == old(watched)
      ensures forall t :: t in conns ==> Treated(old(View()), View(), t, scripts)
      ensures forall t :: t in old(conns) ==> (t !in conns <==> t in scripts && Leaves(old(View()), t, scripts[t]))
      ensures DroppedWhole(old(conns).Keys)
    {
      hide Owned, Reported, AllBalanced, Listening, Visited, Leaves;
      hide Pump.TookBytes, Pump.WroteBytes;
      var finished := PumpAll(scripts);
      ghost var pumped, gone := View(), finished;
      forall t | t in gone ensures t in traces && Pump.TookBytes(traces[t]) == Pump.WroteBytes(traces[t]) {
        LeavesWhole(old(View()), pumped, t, scripts[t]);
      }
      FinishAll(finished);
      forall t | t in conns ensures Treated(old(View()), View(), t, scripts) {
        SameTreatment(old(View()), pumped, View(), t, scripts);
      }
    }

    // The whole run

    method Perform(step: Step)
      requires Valid(View())
      modifies this
      ensures Valid(View()) && Extends(old(history)) && WatchesOn(old(watched))
    {
      hide Owned, Reported, AllBalanced, Listening;
      match step
      case AddForward(endpoint, target, seen) => AddForward(endpoint, target, seen);
      case RemoveEgress(tokens) => RemoveEgress(tokens);
      case BindUdp(local, succeeds) => BindUdp(local, succeeds);
      case ManageListeners(accepted, outcomes) => ManageListeners(accepted, outcomes);
      case OpenEgress(connects, registers) => OpenEgress(connects, registers);
      case PumpConns(scripts) => PumpConns(scripts);
    }

    /** Release every connection that is left. */
    method Teardown()
      requires Valid(View())
      modifies this
      ensures Valid(View()) && conns == map[] && Extends(old(history)) && watched == old(watched)
    {
      hide Owned, Reported, AllBalanced, Listening;
      while conns != map[]
        invariant Valid(View()) && Extends(old(history)) && watched == old(watched)
        decreases |conns|
      {
        var token :| token in conns;
        FinishConn(token);
      }
    }

    /** Any series of steps from an empty stack, then the teardown: the invariant held
        throughout, no connection and no connection socket is left, and every connection
        there ever was has ended: one of an observed listener reported opened once before any
        byte moved and closed once, with the attribution it was accepted under, and no other
        reported anything. */
    method Run(steps: seq<Step>)
      requires View() == EMPTY
      modifies this
      ensures Valid(View()) && conns == map[]
      ensures watched.Keys <= history.Keys
      ensures forall t :: t in history ==> Whole(history[t], WatchedAs(View(), t))
      ensures forall h :: h in sockets ==> h in owner && !owner[h].ByConn?
    {
      assert Valid(EMPTY);
      for i := 0 to |steps|
        invariant Valid(View())
      {
        Perform(steps[i]);
      }
      Teardown();
      NoConnSockets(View());
      AllWhole(View());
    }
  }

  lemma {:induction false} AllWhole(s: State)
    requires Reported(s) && s.conns == map[]
    ensures s.watched.Keys <= s.history.Keys
    ensures forall t :: t in s.history ==> Whole(s.history[t], WatchedAs(s, t))
  {
    forall t | t in s.history ensures Whole(s.history[t], WatchedAs(s, t)) {
      assert Gone(s, t);
    }
  }

  /** Without connections, the open sockets are those of listeners and UDP bindings. */
  lemma {:induction false} NoConnSockets(s: State)
    requires Owned(s) && s.conns == map[]
    ensures forall h :: h in s.sockets ==> h in s.owner && !s.owner[h].ByConn?
  {
  }

  lemma {:induction false} PumpExtends(s: State, t: Token, pump: Pump.Conn, trace: Pump.Trace)
    requires t in s.conns && Live(s, t) && s.traces[t] <= trace
    ensures s.history[t] <= Pumped(s, t, pump, trace).history[t]
  {
  }

  lemma {:induction false} LiveConn(s: State, t: Token)
    requires Valid(s) && t in s.conns
    ensures Live(s, t) && Pump.Balanced(s.conns[t].pump, s.traces[t])
  {
  }

  ghost predicate BoundAt(udp: seq<UdpBinding>, i: int, local: Endpoint) {
    0 <= i < |udp| && udp[i].local == local
  }

  /** The one listener of an endpoint, with this target. */
  ghost predicate OnlyListener(listeners: seq<Listener>, i: int, endpoint: Endpoint, target: nat, observed: bool) {
    && 0 <= i < |listeners| && listeners[i] == Listener(endpoint, target, listeners[i].handle, observed)
    && forall j :: 0 <= j < |listeners| && j != i ==> listeners[j].endpoint != endpoint
  }

  lemma {:induction false} IsOnlyListener(s: State, i: nat, endpoint: Endpoint, target: nat, observed: bool)
    requires Valid(s) && i < |s.listeners| && s.listeners[i] == Listener(endpoint, target, s.listeners[i].handle, observed)
    ensures OnlyListener(s.listeners, i, endpoint, target, observed)
  {
    hide Owned, Reported, AllBalanced;
  }

  lemma {:induction false} ListensOnEndpoint(s: State, i: nat)
    requires Valid(s) && i < |s.listeners|
    ensures CanListen(s.listeners[i].endpoint)
  {
  }

  lemma {:induction false} UnusedToken(s: State)
    requires Valid(s)
    ensures s.nextToken !in s.history && s.nextToken !in s.conns && s.nextToken !in s.watched
  {
  }

  /** A token that no connection got is never used again. */
  lemma SkipToken(s: State)
    requires Valid(s)
    ensures Valid(s.(nextToken := s.nextToken + 1))
  {
    hide Owned, Reported, AllBalanced;
    SameOwners(s, s.(nextToken := s.nextToken + 1));
    SameReports(s, s.(nextToken := s.nextToken + 1));
  }
}

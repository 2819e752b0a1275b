/** The pool that bounds the endpoints a client connects to on its own. */
module ConnectionPool {
  import opened Options

  type Id = string

  datatype Phase = Requested | Connecting | Established | Failed

  datatype Conn = Conn(phase: Phase, lastUsed: nat)

  datatype Config = Config(maxEndpoints: nat, maxInFlight: nat)

  type Conns = map<Id, Conn>

  predicate Pending(c: Conn) {
    c.phase == Requested || c.phase == Connecting
  }

  function InFlight(conns: Conns): set<Id> {
    set id | id in conns && Pending(conns[id])
  }

  /** The entries that may be evicted: established, and none established used less recently. */
  ghost predicate LeastRecent(conns: Conns, id: Id) {
    && id in conns && conns[id].phase == Established
    && forall other :: other in conns && conns[other].phase == Established ==> conns[id].lastUsed <= conns[other].lastUsed
  }

  ghost predicate NoneEstablished(conns: Conns) {
    forall id :: id in conns ==> conns[id].phase != Established
  }

  /** What a request meets. */
  datatype Outcome = Reused | Refused | Admitted | Replaced(victim: Id)

  ghost predicate Possible(cfg: Config, conns: Conns, id: Id, outcome: Outcome) {
    if id in conns then outcome == Reused
    else if cfg.maxInFlight <= |InFlight(conns)| then outcome == Refused
    else if |conns| < cfg.maxEndpoints then outcome == Admitted
    else if NoneEstablished(conns) then outcome == Refused
    else outcome.Replaced? && LeastRecent(conns, outcome.victim)
  }

  function Begun(conns: Conns, id: Id, now: nat, outcome: Outcome): Conns
    requires outcome == Reused ==> id in conns
  {
    match outcome
    case Reused => conns[id := conns[id].(lastUsed := now)]
    case Refused => conns
    case Admitted => conns[id := Conn(Requested, now)]
    case Replaced(victim) => (conns - {victim})[id := Conn(Requested, now)]
  }

  function Marked(conns: Conns, id: Id, phase: Phase): Conns {
    if id in conns then conns[id := conns[id].(phase := phase)] else conns
  }

  function Touched(conns: Conns, id: Id, now: nat): Conns {
    if id in conns then conns[id := conns[id].(lastUsed := now)] else conns
  }

  datatype Step =
    | TryBegin(id: Id, now: nat, outcome: Outcome)
    | MarkConnecting(id: Id)
    | MarkEstablished(id: Id, now: nat)
    | MarkFailed(id: Id)
    | Touch(id: Id, now: nat)
    | Remove(id: Id)

  ghost predicate Enabled(cfg: Config, conns: Conns, step: Step) {
    step.TryBegin? ==> Possible(cfg, conns, step.id, step.outcome)
  }

  ghost function Next(cfg: Config, conns: Conns, step: Step): Conns
    requires Enabled(cfg, conns, step)
  {
    match step
    case TryBegin(id, now, outcome) => Begun(conns, id, now, outcome)
    case MarkConnecting(id) => Marked(conns, id, Connecting)
    case MarkEstablished(id, now) => Touched(Marked(conns, id, Established), id, now)
    case MarkFailed(id) => Marked(conns, id, Failed)
    case Touch(id, now) => Touched(conns, id, now)
    case Remove(id) => conns - {id}
  }

  ghost predicate IsRun(cfg: Config, states: seq<Conns>, steps: seq<Step>) {
    && |states| == |steps| + 1 && states[0] == map[]
    && forall i :: 0 <= i < |steps| ==> Enabled(cfg, states[i], steps[i]) && states[i + 1] == Next(cfg, states[i], steps[i])
  }

  // Sizes

  lemma {:induction false} SizeAfter(conns: Conns, id: Id, c: Conn)
    ensures |conns[id := c]| == |conns| + if id in conns then 0 else 1
    ensures |conns - {id}| == |conns| - if id in conns then 1 else 0
  {
  }

  lemma {:induction false} SizeStaysBounded(cfg: Config, conns: Conns, step: Step)
    requires Enabled(cfg, conns, step) && |conns| <= cfg.maxEndpoints
    ensures |Next(cfg, conns, step)| <= cfg.maxEndpoints
  {
  }

  /** Over every run the pool never holds more than its endpoints. */
  lemma {:induction false} PoolIsBounded(cfg: Config, states: seq<Conns>, steps: seq<Step>, i: nat)
    requires IsRun(cfg, states, steps) && i < |states|
    ensures |states[i]| <= cfg.maxEndpoints
  {
    if 0 < i {
      PoolIsBounded(cfg, states, steps, i - 1);
      SizeStaysBounded(cfg, states[i - 1], steps[i - 1]);
    }
  }

  /** An eviction takes exactly one entry, established and least recently used, and changes
      nothing else but the entry it makes room for. */
  lemma {:induction false} EvictionIsExact(cfg: Config, conns: Conns, id: Id, now: nat, outcome: Outcome)
    requires Possible(cfg, conns, id, outcome) && outcome.Replaced?
    ensures var after := Begun(conns, id, now, outcome);
      && after.Keys == conns.Keys - {outcome.victim} + {id} && |after| == |conns|
      && conns[outcome.victim].phase == Established
      && (forall other :: other in conns && conns[other].phase == Established ==> conns[outcome.victim].lastUsed <= conns[other].lastUsed)
      && (forall other :: other in conns && other != outcome.victim ==> after[other] == conns[other])
      && after[id] == Conn(Requested, now)
  {
  }

  // Setups in flight

  lemma {:induction false} InFlightAfter(conns: Conns, id: Id, c: Conn)
    ensures InFlight(conns[id := c]) == if Pending(c) then InFlight(conns) + {id} else InFlight(conns) - {id}
    ensures InFlight(conns - {id}) == InFlight(conns) - {id}
  {
  }

  /** `mark_connecting` keeps the bound exactly when it starts no setup past it: the entry is
      missing or already in flight, or there is room. */
  lemma {:induction false} ConnectingKeepsBound(cfg: Config, conns: Conns, id: Id)
    requires |InFlight(conns)| <= cfg.maxInFlight
    ensures |InFlight(Marked(conns, id, Connecting))| <= cfg.maxInFlight <==>
            id !in conns || Pending(conns[id]) || |InFlight(conns)| < cfg.maxInFlight
  {
    if id in conns {
      InFlightAfter(conns, id, conns[id].(phase := Connecting));
      assert Pending(conns[id]) <==> id in InFlight(conns);
      assert Pending(conns[id]) ==> InFlight(conns) + {id} == InFlight(conns);
      assert |InFlight(conns) + {id}| == |InFlight(conns)| + if id in InFlight(conns) then 0 else 1;
    }
  }

  lemma {:induction false} NoLarger(a: set<Id>, b: set<Id>)
    requires a <= b
    ensures |a| <= |b|
  {
    assert b == a + (b - a);
  }

  lemma {:induction false} InFlightStaysBounded(cfg: Config, conns: Conns, step: Step)
    requires Enabled(cfg, conns, step) && |InFlight(conns)| <= cfg.maxInFlight
    requires step.MarkConnecting? && step.id in conns ==> Pending(conns[step.id])
    ensures |InFlight(Next(cfg, conns, step))| <= cfg.maxInFlight
  {
    var before, after := InFlight(conns), InFlight(Next(cfg, conns, step));
    if step.TryBegin? && (step.outcome.Admitted? || step.outcome.Replaced?) {
      assert after <= before + {step.id};
      NoLarger(after, before + {step.id});
    } else {
      assert after <= before;
      NoLarger(after, before);
    }
  }

  /** Over every run that marks as connecting only what was requested, setups in flight stay
      within their bound. */
  lemma {:induction false} SetupsAreBounded(cfg: Config, states: seq<Conns>, steps: seq<Step>, i: nat)
    requires IsRun(cfg, states, steps) && i < |states|
    requires forall j :: 0 <= j < i && steps[j].MarkConnecting? && steps[j].id in states[j] ==> Pending(states[j][steps[j].id])
    ensures |InFlight(states[i])| <= cfg.maxInFlight
  {
    if 0 < i {
      SetupsAreBounded(cfg, states, steps, i - 1);
      InFlightStaysBounded(cfg, states[i - 1], steps[i - 1]);
    } else {
      assert InFlight(map[]) == {};
    }
  }

  lemma {:induction false} RoomAdmits(cfg: Config, conns: Conns, id: Id, now: nat)
    requires id !in conns && |InFlight(conns)| < cfg.maxInFlight && |conns| < cfg.maxEndpoints
    ensures Enabled(cfg, conns, TryBegin(id, now, Admitted))
    ensures Next(cfg, conns, TryBegin(id, now, Admitted)) == conns[id := Conn(Requested, now)]
  {
  }

  /** Otherwise they do not: one endpoint is established, a second requested, and the first
      marked as connecting again. */
  lemma {:induction false} SetupsCanExceed(a: Id, b: Id) returns (states: seq<Conns>, steps: seq<Step>)
    requires a != b
    ensures IsRun(Config(2, 1), states, steps) && InFlight(states[|steps|]) == {a, b}
  {
    hide Possible, Begun, LeastRecent;
    var cfg := Config(2, 1);
    var none: Conns := map[];
    var first := none[a := Conn(Requested, 0)];
    var up := none[a := Conn(Established, 1)];
    var both := up[b := Conn(Requested, 2)];
    var more := both[a := Conn(Connecting, 1)];
    assert InFlight(none) == {} && InFlight(up) == {} && InFlight(more) == {a, b};
    SizeAfter(none, a, Conn(Established, 1));
    RoomAdmits(cfg, none, a, 0);
    RoomAdmits(cfg, up, b, 2);
    assert Next(cfg, first, MarkEstablished(a, 1)) == up;
    assert Next(cfg, both, MarkConnecting(a)) == more;
    states := [none, first, up, both, more];
    steps := [TryBegin(a, 0, Admitted), MarkEstablished(a, 1), TryBegin(b, 2, Admitted), MarkConnecting(a)];
    hide InFlight, Next, Enabled;
  }

  class Pool {
    const cfg: Config
    var conns: Conns

    constructor (cfg: Config)
      ensures conns == map[] && this.cfg == cfg
    {
      this.cfg := cfg;
      conns := map[];
    }

    /** Setups that are requested or connecting. */
    method CountInFlight() returns (n: nat)
      ensures n == |InFlight(conns)|
    {
      n := 0;
      var todo := conns.Keys;
      ghost var seen: set<Id> := {};
      while todo != {}
        invariant todo <= conns.Keys && n == |seen|
        invariant forall id :: id in seen <==> id in InFlight(conns) && id !in todo
        decreases |todo|
      {
        var id :| id in todo;
        if Pending(conns[id]) {
          n := n + 1;
          seen := seen + {id};
        }
        todo := todo - {id};
      }
      assert seen == InFlight(conns);
    }

    /** Search for the entry to evict, in whatever order the table lists its entries. */
    method FindLeastRecent() returns (lru: Option<Id>)
      ensures lru.Some? ==> LeastRecent(conns, lru.value)
      ensures lru.None? ==> NoneEstablished(conns)
    {
      lru := None;
      var todo := conns.Keys;
      while todo != {}
        invariant todo <= conns.Keys
        invariant lru.Some? ==> lru.value in conns && conns[lru.value].phase == Established
        invariant forall id :: id in conns && id !in todo && conns[id].phase == Established ==>
          lru.Some? && conns[lru.value].lastUsed <= conns[id].lastUsed
        decreases |todo|
      {
        var id :| id in todo;
        todo := todo - {id};
        if conns[id].phase != Established {
          continue;
        }
        if lru.None? || conns[id].lastUsed < conns[lru.value].lastUsed {
          lru := Some(id);
        }
      }
    }

    /** Admit a request, if it may proceed. */
    method TryToBegin(id: Id, now: nat) returns (ok: bool, evicted: Option<Id>, ghost outcome: Outcome)
      modifies this`conns
      ensures Possible(cfg, old(conns), id, outcome) && conns == Begun(old(conns), id, now, outcome)
      ensures ok <==> outcome != Refused
      ensures evicted == if outcome.Replaced? then Some(outcome.victim) else None
      ensures ok <==>
        || id in old(conns)
        || (|InFlight(old(conns))| < cfg.maxInFlight && (|old(conns)| < cfg.maxEndpoints || !NoneEstablished(old(conns))))
    {
      evicted := None;
      if id in conns {
        conns := conns[id := conns[id].(lastUsed := now)];
        return true, evicted, Reused;
      }
      var pending := CountInFlight();
      if cfg.maxInFlight <= pending {
        return false, evicted, Refused;
      }
      outcome := Admitted;
      if cfg.maxEndpoints <= |conns| {
        var lru := FindLeastRecent();
        if lru.None? {
          return false, evicted, Refused;
        }
        evicted := lru;
        outcome := Replaced(lru.value);
        conns := conns - {lru.value};
      }
      conns := conns[id := Conn(Requested, now)];
      ok := true;
    }

    method Mark(id: Id, phase: Phase)
      modifies this`conns
      ensures conns == Marked(old(conns), id, phase)
    {
      if id in conns {
        conns := conns[id := conns[id].(phase := phase)];
      }
    }

    method MarkEstablishedAt(id: Id, now: nat)
      modifies this`conns
      ensures conns == Touched(Marked(old(conns), id, Established), id, now)
    {
      if id in conns {
        conns := conns[id := Conn(Established, now)];
      }
    }

    method TouchAt(id: Id, now: nat)
      modifies this`conns
      ensures conns == Touched(old(conns), id, now)
    {
      if id in conns {
        conns := conns[id := conns[id].(lastUsed := now)];
      }
    }

    method Drop(id: Id)
      modifies this`conns
      ensures conns == old(conns) - {id}
    {
      conns := conns - {id};
    }
  }
}

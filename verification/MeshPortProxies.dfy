/** The open requests of a listener: handlers that run, and pipes that still stream a
    response after their handler returned.

    Every method below is one critical section; threads interleave between them. What
    happens to pipes outside the lock (a thread drops its last reference, a destructor
    runs, `cancel_all` cancels what it took) are steps of their own. */
module MeshPortProxies {

  type Pipe = nat

  datatype State = State(
    handlers: nat,
    pipes: seq<Pipe>,
    switching: bool,
    closed: bool,
    wakeWhenIdle: bool,
    alive: set<Pipe>,       // a strong reference remains, so a weak one can be locked
    dying: set<Pipe>,       // expired, its destructor still to call `released`
    made: set<Pipe>,        // ever created
    started: set<Pipe>,     // `add` accepted it
    taken: set<Pipe>,       // collected by some `cancel_all`
    held: set<Pipe>,        // collected by a `cancel_all` that still references it
    cancelled: set<Pipe>,
    armed: nat,             // wake-ups arranged
    fired: nat,             // wake-ups handed to the caller
    dropped: nat)           // wake-ups made unnecessary

  const FRESH := State(0, [], false, false, false, {}, {}, {}, {}, {}, {}, {}, 0, 0, 0)

  function Live(pipes: seq<Pipe>, alive: set<Pipe>): (live: seq<Pipe>)
    ensures forall p :: p in live <==> p in pipes && p in alive
  {
    if pipes == [] then []
    else
      var rest := Live(pipes[..|pipes| - 1], alive);
      var last := pipes[|pipes| - 1];
      if last in alive then rest + [last] else rest
  }

  function Pruned(s: State): State {
    s.(pipes := Live(s.pipes, s.alive))
  }

  predicate Idle(s: State) {
    s.handlers == 0 && Live(s.pipes, s.alive) == []
  }

  function Wakes(b: bool): nat {
    if b then 1 else 0
  }

  predicate Fires(s: State) {
    s.wakeWhenIdle && Idle(s)
  }

  /** A pending wake-up is taken when nothing is open. */
  function IdleWake(s: State): State {
    if !s.wakeWhenIdle then s
    else if !Idle(s) then Pruned(s)
    else Pruned(s).(wakeWhenIdle := false, fired := s.fired + 1)
  }

  datatype Step =
    | Enter
    | Leave
    | Make(pipe: Pipe)           // a handler creates a pipe
    | Add(pipe: Pipe)
    | Cancel(pipe: Pipe)         // by whoever references it, or by its destructor
    | Drop(pipe: Pipe)           // `cancel_all` lets go of a pipe it cancelled
    | Expire(pipe: Pipe)         // the last strong reference goes
    | Release(pipe: Pipe)        // the destructor reports
    | BeginSwitch
    | EndSwitch
    | ForgetSwitch
    | CancelAll
    | Reopen

  /** What the threads of the program can do next. A pipe is created and added by a handler
      that entered; `cancel_all` keeps its references until it cancelled them. */
  ghost predicate Enabled(s: State, step: Step) {
    match step
    case Leave => 0 < s.handlers
    case Make(p) => 0 < s.handlers && p !in s.made
    case Add(p) => 0 < s.handlers && p in s.alive && p !in s.started && p !in s.cancelled
    case Cancel(p) => p in s.alive || p in s.dying
    case Drop(p) => p in s.held && p in s.cancelled
    case Expire(p) => p in s.alive && p !in s.held
    case Release(p) => p in s.dying
    case _ => true
  }

  function Left(s: State): State
    requires 0 < s.handlers
  {
    IdleWake(s.(handlers := s.handlers - 1))
  }

  function Added(s: State, p: Pipe): State {
    if s.closed then s.(cancelled := s.cancelled + {p})
    else Pruned(s).(pipes := Live(s.pipes, s.alive) + [p], started := s.started + {p})
  }

  function SwitchBegun(s: State): State {
    if Idle(s)
    then Pruned(s).(wakeWhenIdle := false, switching := true, dropped := s.dropped + Wakes(s.wakeWhenIdle))
    else Pruned(s).(wakeWhenIdle := true, armed := s.armed + 1 - Wakes(s.wakeWhenIdle))
  }

  function Taken(s: State): set<Pipe> {
    set p | p in s.pipes && p in s.alive
  }

  function AllCancelled(s: State): State {
    s.(pipes := [], closed := true, taken := s.taken + Taken(s), held := s.held + Taken(s))
  }

  function Released(s: State, p: Pipe): State {
    IdleWake(s.(dying := s.dying - {p}))
  }

  function SwitchForgotten(s: State): State {
    s.(switching := false, wakeWhenIdle := false, dropped := s.dropped + Wakes(s.wakeWhenIdle))
  }

  ghost function Next(s: State, step: Step): State
    requires Enabled(s, step)
  {
    match step
    case Enter => if s.switching then s else s.(handlers := s.handlers + 1)
    case Leave => Left(s)
    case Make(p) => s.(alive := s.alive + {p}, made := s.made + {p})
    case Add(p) => Added(s, p)
    case Cancel(p) => s.(cancelled := s.cancelled + {p})
    case Drop(p) => s.(held := s.held - {p})
    case Expire(p) => s.(alive := s.alive - {p}, dying := s.dying + {p})
    case Release(p) => Released(s, p)
    case BeginSwitch => SwitchBegun(s)
    case EndSwitch => s.(switching := false)
    case ForgetSwitch => SwitchForgotten(s)
    case CancelAll => AllCancelled(s)
    case Reopen => s.(closed := false)
  }

  // What every interleaving keeps

  /** An accepted pipe that lives is tracked, or some `cancel_all` took it; what was taken is
      still referenced by the one that took it, until it is cancelled. */
  ghost predicate Reachable(s: State) {
    && (forall p :: p in s.started && p in s.alive ==> p in s.pipes || p in s.taken)
    && (forall p :: p in s.taken && p !in s.held ==> p in s.cancelled)
    && (forall p :: p in s.pipes ==> p in s.started)
    && s.started <= s.made && s.taken <= s.started && s.held <= s.alive
  }

  /** While the listener is replaced nothing is open; while closed nothing is tracked. */
  ghost predicate Quiet(s: State) {
    && (s.switching ==> s.handlers == 0 && !s.wakeWhenIdle && forall p :: p in s.pipes ==> p !in s.alive)
    && (s.closed ==> s.pipes == [])
  }

  /** A pending wake-up has someone left to check it, and none is lost or doubled. */
  ghost predicate Awaited(s: State) {
    && (s.wakeWhenIdle ==> 0 < s.handlers || s.alive != {} || s.dying != {})
    && s.armed == s.fired + s.dropped + Wakes(s.wakeWhenIdle)
  }

  ghost predicate Lifetimes(s: State) {
    s.alive !! s.dying && s.alive <= s.made && s.dying <= s.made
  }

  ghost predicate Valid(s: State) {
    Reachable(s) && Quiet(s) && Awaited(s) && Lifetimes(s)
  }

  lemma {:induction false} IdleWakeKeepsValid(s: State)
    requires Reachable(s) && Quiet(s) && Lifetimes(s) && s.armed == s.fired + s.dropped + Wakes(s.wakeWhenIdle)
    ensures Valid(IdleWake(s))
  {
    if s.wakeWhenIdle && s.handlers == 0 && !Idle(s) {
      var p := Live(s.pipes, s.alive)[0];
      assert p in Live(s.pipes, s.alive);
    }
  }

  lemma {:induction false} BeginSwitchKeepsValid(s: State)
    requires Valid(s)
    ensures Valid(SwitchBegun(s))
  {
    var live := Live(s.pipes, s.alive);
    if !Idle(s) && s.handlers == 0 {
      assert live[0] in live;
    }
  }

  lemma {:induction false} StepKeepsValid(s: State, step: Step)
    requires Valid(s) && Enabled(s, step)
    ensures Valid(Next(s, step))
  {
    match step
    case Leave => IdleWakeKeepsValid(s.(handlers := s.handlers - 1));
    case Release(p) => IdleWakeKeepsValid(s.(dying := s.dying - {p}));
    case BeginSwitch => BeginSwitchKeepsValid(s);
    case _ =>
  }

  /** A run: any interleaving of enabled steps from a fresh listener. */
  ghost predicate IsRun(states: seq<State>, steps: seq<Step>) {
    && |states| == |steps| + 1 && states[0] == FRESH
    && forall i :: 0 <= i < |steps| ==> Enabled(states[i], steps[i]) && states[i + 1] == Next(states[i], steps[i])
  }

  lemma {:induction false} RunIsValid(states: seq<State>, steps: seq<Step>, i: nat)
    requires IsRun(states, steps) && i < |states|
    ensures Valid(states[i])
  {
    if 0 < i {
      RunIsValid(states, steps, i - 1);
      StepKeepsValid(states[i - 1], steps[i - 1]);
    }
  }

  /** Once everything finished, every arranged wake-up was delivered or made unnecessary, by a
      switch that began or was forgotten. */
  lemma {:induction false} NoWakeIsLost(states: seq<State>, steps: seq<Step>, i: nat)
    requires IsRun(states, steps) && i < |states|
    requires states[i].handlers == 0 && states[i].alive == {} && states[i].dying == {}
    ensures !states[i].wakeWhenIdle && states[i].armed == states[i].fired + states[i].dropped
  {
    RunIsValid(states, steps, i);
  }

  /** A pipe that `cancel_all` ran into is cancelled by it or never started: between a
      `cancel_all` and the next `reopen`, every accepted pipe that lives was taken. */
  lemma {:induction false} ClosedMeansTaken(states: seq<State>, steps: seq<Step>, i: nat, p: Pipe)
    requires IsRun(states, steps) && i < |states|
    requires states[i].closed && p in states[i].started && p in states[i].alive
    ensures p in states[i].taken && (p in states[i].held || p in states[i].cancelled)
  {
    RunIsValid(states, steps, i);
  }

  /** And none starts after it: from a `cancel_all` on, until the next `reopen`, the listener
      is closed and no pipe is accepted. */
  lemma {:induction false} CancelStopsStarts(states: seq<State>, steps: seq<Step>, i: nat, j: nat)
    requires IsRun(states, steps) && i < j < |states| && steps[i] == CancelAll
    requires forall k :: i < k < j ==> steps[k] != Reopen
    ensures states[j].closed && states[j].started == states[i].started
  {
    if i + 1 < j {
      CancelStopsStarts(states, steps, i, j - 1);
    }
    assert states[j] == Next(states[j - 1], steps[j - 1]);
  }

  /** The last one out delivers: a step that leaves nothing open while a wake-up is pending
      hands it to its caller. */
  lemma {:induction false} LastOutWakes(states: seq<State>, steps: seq<Step>, i: nat)
    requires IsRun(states, steps) && i < |steps|
    requires states[i].wakeWhenIdle
    requires states[i + 1].handlers == 0 && states[i + 1].alive == {} && states[i + 1].dying == {}
    ensures states[i + 1].fired == states[i].fired + 1 || steps[i] == ForgetSwitch
  {
    RunIsValid(states, steps, i);
    RunIsValid(states, steps, i + 1);
  }

  /** How many handlers entered less those that left, read off a run. */
  ghost function Inside(states: seq<State>, steps: seq<Step>, n: nat): int
    requires IsRun(states, steps) && n <= |steps|
  {
    if n == 0 then 0
    else
      match steps[n - 1]
      case Enter => Inside(states, steps, n - 1) + if states[n - 1].switching then 0 else 1
      case Leave => Inside(states, steps, n - 1) - 1
      case _ => Inside(states, steps, n - 1)
  }

  /** The count is that of the handlers inside. */
  lemma {:induction false} HandlersAreCounted(states: seq<State>, steps: seq<Step>, n: nat)
    requires IsRun(states, steps) && n <= |steps|
    ensures states[n].handlers == Inside(states, steps, n)
  {
    if 0 < n {
      HandlersAreCounted(states, steps, n - 1);
      assert states[n] == Next(states[n - 1], steps[n - 1]);
    }
  }

  /** A wake-up is handed out only when one is pending and nothing is open, one at a time, by a
      handler that leaves or a pipe that is destroyed. */
  lemma {:induction false} WakesOnlyIdle(states: seq<State>, steps: seq<Step>, i: nat)
    requires IsRun(states, steps) && i < |steps| && states[i + 1].fired != states[i].fired
    ensures states[i + 1].fired == states[i].fired + 1 && (steps[i].Leave? || steps[i].Release?)
    ensures states[i].wakeWhenIdle && !states[i + 1].wakeWhenIdle && states[i + 1].handlers == 0
    ensures forall p :: p in states[i].pipes ==> p !in states[i].alive
  {
    assert states[i + 1] == Next(states[i], steps[i]);
    var live := Live(states[i].pipes, states[i].alive);
    assert live == [];
    forall p | p in states[i].pipes ensures p !in states[i].alive {
      assert p !in live;
    }
  }

  /** The states of a run in which a handler and its pipe are open when a switch is asked for. */
  function Waiting(p: Pipe): seq<State> {
    var s1 := FRESH.(handlers := 1);
    var s2 := s1.(alive := {p}, made := {p});
    var s3 := s2.(pipes := [p], started := {p});
    var s4 := s3.(wakeWhenIdle := true, armed := 1);
    var s5 := s4.(handlers := 0);
    var s6 := s5.(alive := {}, dying := {p});
    var s7 := s6.(pipes := [], dying := {}, wakeWhenIdle := false, fired := 1);
    [FRESH, s1, s2, s3, s4, s5, s6, s7, s7.(switching := true)]
  }

  function WaitingSteps(p: Pipe): seq<Step> {
    [Enter, Make(p), Add(p), BeginSwitch, Leave, Expire(p), Release(p), BeginSwitch]
  }

  lemma {:induction false} WaitingStep(p: Pipe, i: nat)
    requires i < 8
    ensures Enabled(Waiting(p)[i], WaitingSteps(p)[i]) && Waiting(p)[i + 1] == Next(Waiting(p)[i], WaitingSteps(p)[i])
  {
    OneLive(p);
    assert Live([], {p}) == [] && Live([], {}) == [];
  }

  /** A run in which a switch has to wait: a handler and its pipe are open, so a wake-up is
      arranged; the destructor of the pipe, last of all, is handed it, and the switch begins. */
  lemma {:induction false} SwitchWaits(p: Pipe)
    ensures IsRun(Waiting(p), WaitingSteps(p))
    ensures var states := Waiting(p);
      && states[4].wakeWhenIdle && !states[4].switching && states[4].armed == 1
      && states[6].fired == 0 && states[7].fired == 1 && states[8].switching
  {
    hide Next, Enabled;
    forall i | 0 <= i < 8
      ensures Enabled(Waiting(p)[i], WaitingSteps(p)[i]) && Waiting(p)[i + 1] == Next(Waiting(p)[i], WaitingSteps(p)[i])
    {
      WaitingStep(p, i);
    }
  }

  lemma {:induction false} OneLive(p: Pipe)
    ensures Live([p], {p}) == [p] && Live([p], {}) == []
  {
    assert [p][..0] == [];
  }

  /** The listener's shared record. */
  class Proxies {
    var handlers: nat
    var pipes: seq<Pipe>
    var switching: bool
    var closed: bool
    var wakeWhenIdle: bool
    var alive: set<Pipe>
    ghost var rest: State     // the parts that no code reads

    ghost function View(): State
      reads this
    {
      rest.(handlers := handlers, pipes := pipes, switching := switching, closed := closed,
            wakeWhenIdle := wakeWhenIdle, alive := alive)
    }

    constructor ()
      ensures View() == FRESH
    {
      handlers, pipes, switching, closed, wakeWhenIdle, alive := 0, [], false, false, false, {};
      rest := FRESH;
    }

    method Prune()
      modifies this`pipes
      ensures View() == Pruned(old(View()))
    {
      var kept: seq<Pipe> := [];
      for i := 0 to |pipes|
        invariant pipes == old(pipes)
        invariant kept == Live(pipes[..i], alive)
      {
        assert pipes[..i + 1][..i] == pipes[..i];
        if pipes[i] in alive {
          kept := kept + [pipes[i]];
        }
      }
      assert pipes[..|pipes|] == pipes;
      pipes := kept;
    }

    method IsIdle() returns (idle: bool)
      modifies this`pipes
      ensures idle == Idle(old(View())) && View() == Pruned(old(View()))
    {
      Prune();
      idle := handlers == 0 && pipes == [];
    }

    method TakeWake() returns (wake: bool)
      modifies this`pipes, this`wakeWhenIdle, this`rest
      ensures View() == IdleWake(old(View())) && wake == Fires(old(View()))
    {
      if !wakeWhenIdle {
        return false;
      }
      var idle := IsIdle();
      if !idle {
        return false;
      }
      wakeWhenIdle, wake := false, true;
      rest := rest.(fired := rest.fired + 1);
    }

    method EnterHandler() returns (entered: bool)
      modifies this`handlers
      ensures View() == Next(old(View()), Enter) && entered == !old(switching)
    {
      if switching {
        return false;
      }
      handlers, entered := handlers + 1, true;
    }

    method LeaveHandler() returns (wake: bool)
      requires 0 < handlers
      modifies this
      ensures View() == Next(old(View()), Leave)
      ensures wake == Fires(old(View()).(handlers := old(handlers) - 1)) && (wake <==> View().fired == old(View()).fired + 1)
    {
      handlers := handlers - 1;
      wake := TakeWake();
    }

    /** A refused pipe must not be started; its caller marks it cancelled. */
    method AddPipe(p: Pipe) returns (accepted: bool)
      requires Enabled(View(), Add(p))
      modifies this
      ensures View() == Next(old(View()), Add(p)) && accepted == !old(closed)
    {
      if closed {
        rest := rest.(cancelled := rest.cancelled + {p});
        return false;
      }
      Prune();
      pipes, accepted := pipes + [p], true;
      rest := rest.(started := rest.started + {p});
    }

    /** The end of a pipe's destructor. */
    method ReleasePipe(ghost p: Pipe) returns (wake: bool)
      requires Enabled(View(), Release(p))
      modifies this
      ensures View() == Next(old(View()), Release(p)) && wake == Fires(old(View()))
      ensures wake <==> View().fired == old(View()).fired + 1
    {
      rest := rest.(dying := rest.dying - {p});
      wake := TakeWake();
    }

    method StartSwitch() returns (begun: bool)
      modifies this
      ensures View() == Next(old(View()), BeginSwitch) && begun == Idle(old(View()))
    {
      var idle := IsIdle();
      if !idle {
        rest := rest.(armed := rest.armed + 1 - Wakes(wakeWhenIdle));
        wakeWhenIdle := true;
        return false;
      }
      rest := rest.(dropped := rest.dropped + Wakes(wakeWhenIdle));
      wakeWhenIdle, switching, begun := false, true, true;
    }

    method StopSwitch()
      modifies this`switching
      ensures View() == Next(old(View()), EndSwitch)
    {
      switching := false;
    }

    method AbandonSwitch()
      modifies this
      ensures View() == Next(old(View()), ForgetSwitch)
    {
      rest := rest.(dropped := rest.dropped + Wakes(wakeWhenIdle));
      switching, wakeWhenIdle := false, false;
    }

    method OpenAgain()
      modifies this`closed
      ensures View() == Next(old(View()), Reopen)
    {
      closed := false;
    }

    /** The locked part of `cancel_all`: the pipes it goes on to cancel. */
    method TakeAll() returns (open: seq<Pipe>)
      modifies this
      ensures View() == Next(old(View()), CancelAll)
      ensures open == Live(old(pipes), alive)
    {
      open := [];
      for i := 0 to |pipes|
        invariant pipes == old(pipes) && View() == old(View())
        invariant open == Live(pipes[..i], alive)
      {
        assert pipes[..i + 1][..i] == pipes[..i];
        if pipes[i] in alive {
          open := open + [pipes[i]];
        }
      }
      assert pipes[..|pipes|] == pipes;
      rest := rest.(taken := rest.taken + Taken(View()), held := rest.held + Taken(View()));
      pipes, closed := [], true;
    }
  }
}

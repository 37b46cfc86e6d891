/**
  Connections, their workers and any number of shutdown calls as one state machine.  Each step is
  a critical section of the registry or an event of one connection; they interleave freely.
 */
module ResponsesShutdown {
  import opened ResponsesRegistry

  /** Where the handler of a connection is. */
  datatype Phase =
    | Upgrading      // reserved, not registered
    | Registered     // in the registry, keep-alive worker not started
    | Running        // reading; may start lane workers
    | Draining       // cancelled, waiting for the workers
    | Drained        // no worker left, still in the registry
    | Unregistered   // out of the registry, `done` not closed
    | Closing        // nothing left but the reservation
    | Ended

  datatype Conn = Conn(token: int, phase: Phase, cancelled: bool, workers: nat, done: bool)

  /** A shutdown call: cancelling `rest` of the sessions it saw, then waiting for `rest`, then back. */
  datatype Call = Cancelling(rest: set<Connection>, seen: set<Connection>) | Waiting(rest: set<Connection>) | Returned(ok: bool)

  datatype State = State(reg: RegistryView, conns: map<Connection, Conn>, calls: map<nat, Call>)

  const INITIAL := State(RegistryView(0, map[], {}, false), map[], map[])

  datatype Action =
    | Arrive(c: Connection, token: int)
    | UpgradeFails(c: Connection)
    | Register(c: Connection)
    | StartKeepAlive(c: Connection)
    | StartLane(c: Connection)
    | WorkerEnds(c: Connection)
    | Cancel(c: Connection)
    | ReaderEnds(c: Connection)
    | WorkersGone(c: Connection)
    | Unregister(c: Connection)
    | CloseDone(c: Connection)
    | Release(c: Connection)
    | Shutdown(i: nat)
    | CancelOne(i: nat, c: Connection)
    | StartWaiting(i: nat)
    | SeesDone(i: nat, c: Connection)
    | ReturnsNil(i: nat)
    | ReturnsError(i: nat)

  /** The action belongs to a connection that exists, rather than to a new one or to a shutdown call. */
  predicate OfConnection(a: Action) {
    !(a.Arrive? || a.Shutdown? || a.CancelOne? || a.StartWaiting? || a.SeesDone? || a.ReturnsNil? || a.ReturnsError?)
  }

  predicate ConnEnabled(x: Conn, a: Action) {
    match a
    case UpgradeFails(_) => x.phase.Upgrading?
    case Register(_) => x.phase.Upgrading?
    case StartKeepAlive(_) => x.phase.Registered?
    case StartLane(_) => x.phase.Running?
    case WorkerEnds(_) => x.workers > 0
    case Cancel(_) => true
    case ReaderEnds(_) => x.phase.Running?
    case WorkersGone(_) => x.phase.Draining? && x.workers == 0
    case Unregister(_) => x.phase.Drained?
    case CloseDone(_) => x.phase.Unregistered?
    case Release(_) => x.phase.Closing?
    case _ => false
  }

  function ConnAfter(x: Conn, a: Action, stopping: bool): Conn
    requires ConnEnabled(x, a)
  {
    match a
    case UpgradeFails(_) => x.(phase := Closing)
    case Register(_) => x.(phase := if stopping then Closing else Phase.Registered)
    case StartKeepAlive(_) => x.(phase := Running, workers := x.workers + 1)
    case StartLane(_) => x.(workers := x.workers + 1)
    case WorkerEnds(_) => x.(workers := x.workers - 1)
    case Cancel(_) => x.(cancelled := true)
    case ReaderEnds(_) => x.(phase := Draining, cancelled := true)
    case WorkersGone(_) => x.(phase := Drained)
    case Unregister(_) => x.(phase := Unregistered)
    case CloseDone(_) => x.(phase := Closing, done := true)
    case Release(_) => x.(phase := Ended)
    case _ => x
  }

  function RegAfter(r: RegistryView, x: Conn, a: Action): RegistryView {
    match a
    case Register(c) => ResponsesRegistry.Registered(r, c)
    case Unregister(c) => r.(sessions := r.sessions - {c})
    case Release(_) => Released(r, x.token)
    case _ => r
  }

  predicate Possible(s: State, a: Action) {
    if OfConnection(a) then a.c in s.conns && ConnEnabled(s.conns[a.c], a)
    else match a
         case Arrive(c, _) => c !in s.conns
         case Shutdown(i) => i !in s.calls
         case CancelOne(i, c) => i in s.calls && s.calls[i].Cancelling? && c in s.calls[i].rest && c in s.conns
         case StartWaiting(i) => i in s.calls && s.calls[i].Cancelling? && s.calls[i].rest == {}
         case SeesDone(i, c) => i in s.calls && s.calls[i].Waiting? && c in s.calls[i].rest && c in s.conns && s.conns[c].done
         case ReturnsNil(i) => i in s.calls && s.calls[i].Waiting? && s.calls[i].rest == {}
         case ReturnsError(i) => i in s.calls && s.calls[i].Waiting? && s.calls[i].rest != {}
         case _ => false
  }

  function CallAfter(s: State, a: Action): State
    requires Possible(s, a) && !OfConnection(a) && !a.Arrive?
  {
    match a
    case Shutdown(i) =>
      s.(reg := s.reg.(stopping := true), calls := s.calls[i := Cancelling(s.reg.sessions, s.reg.sessions)])
    case CancelOne(i, c) =>
      s.(conns := s.conns[c := s.conns[c].(cancelled := true)],
         calls := s.calls[i := Cancelling(s.calls[i].rest - {c}, s.calls[i].seen)])
    case StartWaiting(i) => s.(calls := s.calls[i := Waiting(s.calls[i].seen)])
    case SeesDone(i, c) => s.(calls := s.calls[i := Waiting(s.calls[i].rest - {c})])
    case ReturnsNil(i) => s.(calls := s.calls[i := Returned(true)])
    case ReturnsError(i) => s.(calls := s.calls[i := Returned(false)])
    case _ => s
  }

  function Apply(s: State, limits: Limits, a: Action): State
    requires Possible(s, a)
  {
    if OfConnection(a) then
      var x := s.conns[a.c];
      s.(reg := RegAfter(s.reg, x, a), conns := s.conns[a.c := ConnAfter(x, a, s.reg.stopping)])
    else if a.Arrive? then
      if Admits(s.reg, limits, a.token) then
        s.(reg := Reserved(s.reg, limits, a.token), conns := s.conns[a.c := Conn(a.token, Upgrading, false, 0, false)])
      else s
    else CallAfter(s, a)
  }

  predicate PossibleRun(s: State, limits: Limits, run: seq<Action>)
    decreases |run|
  {
    run == [] || (Possible(s, run[0]) && PossibleRun(Apply(s, limits, run[0]), limits, run[1..]))
  }

  function Final(s: State, limits: Limits, run: seq<Action>): State
    requires PossibleRun(s, limits, run)
    decreases |run|
  {
    if run == [] then s else Final(Apply(s, limits, run[0]), limits, run[1..])
  }

  // ---------------------------------------------------------------- sessions and workers

  predicate InRegistry(p: Phase) {
    p.Registered? || p.Running? || p.Draining? || p.Drained?
  }

  /** Workers exist only between registration and the wait for them; `done` means both are over. */
  predicate ConnSound(x: Conn) {
    && (x.workers > 0 ==> x.phase.Running? || x.phase.Draining?)
    && (x.done ==> x.phase.Closing? || x.phase.Ended?)
  }

  /** A shutdown call that is not over still has every session in view. */
  predicate CallSound(r: RegistryView, call: Call) {
    match call
    case Cancelling(_, seen) => r.stopping && r.sessions <= seen
    case Waiting(rest) => r.stopping && r.sessions <= rest
    case Returned(ok) => ok ==> r.stopping && r.sessions == {}
  }

  ghost predicate Sessions(s: State) {
    && (forall c | c in s.conns :: ConnSound(s.conns[c]) && (InRegistry(s.conns[c].phase) <==> c in s.reg.sessions))
    && (forall c | c in s.reg.sessions :: c in s.conns)
    && (forall i | i in s.calls :: CallSound(s.reg, s.calls[i]))
  }

  lemma ConnStepSound(x: Conn, a: Action, r: RegistryView)
    requires OfConnection(a) && ConnEnabled(x, a) && ConnSound(x) && (InRegistry(x.phase) <==> a.c in r.sessions)
    ensures var x', r' := ConnAfter(x, a, r.stopping), RegAfter(r, x, a);
            && ConnSound(x') && (InRegistry(x'.phase) <==> a.c in r'.sessions)
            && r'.stopping == r.stopping
            && r'.sessions <= r.sessions + {a.c} && r.sessions - {a.c} <= r'.sessions
            && (r.stopping ==> r'.sessions <= r.sessions)
  {
  }

  /** Once stopping, the sessions only get fewer, so every call keeps them in view. */
  lemma FewerSessions(r: RegistryView, r': RegistryView, call: Call)
    requires CallSound(r, call) && r'.stopping == r.stopping && (r.stopping ==> r'.sessions <= r.sessions)
    ensures CallSound(r', call)
  {
  }

  lemma ConnectionStep(s: State, limits: Limits, a: Action)
    requires Sessions(s) && Possible(s, a) && OfConnection(a)
    ensures Sessions(Apply(s, limits, a))
  {
    var x, s' := s.conns[a.c], Apply(s, limits, a);
    ConnStepSound(x, a, s.reg);
    hide ConnSound, ConnAfter, RegAfter, ConnEnabled, InRegistry, CallSound;
    forall i | i in s'.calls ensures CallSound(s'.reg, s'.calls[i]) {
      FewerSessions(s.reg, s'.reg, s.calls[i]);
    }
  }

  lemma ArriveStep(s: State, limits: Limits, a: Action)
    requires Sessions(s) && Possible(s, a) && a.Arrive?
    ensures Sessions(Apply(s, limits, a))
  {
    var s' := Apply(s, limits, a);
    forall i | i in s'.calls ensures CallSound(s'.reg, s'.calls[i]) {
      FewerSessions(s.reg, s'.reg, s.calls[i]);
    }
  }

  lemma CallStep(s: State, a: Action)
    requires Sessions(s) && Possible(s, a) && !OfConnection(a) && !a.Arrive?
    ensures Sessions(CallAfter(s, a))
  {
    if a.SeesDone? {
      assert ConnSound(s.conns[a.c]);
    }
  }

  lemma StepSessions(s: State, limits: Limits, a: Action)
    requires Sessions(s) && Possible(s, a)
    ensures Sessions(Apply(s, limits, a))
  {
    if OfConnection(a) {
      ConnectionStep(s, limits, a);
    } else if a.Arrive? {
      ArriveStep(s, limits, a);
    } else {
      CallStep(s, a);
    }
  }

  // ---------------------------------------------------------------- counters

  function Holders(conns: map<Connection, Conn>): set<Connection> {
    set c | c in conns && !conns[c].phase.Ended?
  }

  function HoldersOf(conns: map<Connection, Conn>, token: int): set<Connection> {
    set c | c in conns && !conns[c].phase.Ended? && conns[c].token == token
  }

  /** The counters count the connections that hold a reservation, and stay within the limits. */
  ghost predicate Counted(s: State, limits: Limits) {
    && Balanced(s.reg, limits)
    && s.reg.total == |Holders(s.conns)|
    && TokensCounted(s.reg, s.conns)
  }

  ghost predicate TokensCounted(r: RegistryView, conns: map<Connection, Conn>) {
    forall t: int :: CountOf(r, t) == |HoldersOf(conns, t)|
  }

  /** A connection that does not end keeps its place among the holders. */
  lemma SameHolders(conns: map<Connection, Conn>, c: Connection, x: Conn)
    requires c in conns && x.token == conns[c].token && (x.phase.Ended? <==> conns[c].phase.Ended?)
    ensures Holders(conns[c := x]) == Holders(conns)
    ensures forall t: int :: HoldersOf(conns[c := x], t) == HoldersOf(conns, t)
  {
  }

  lemma NewHolder(conns: map<Connection, Conn>, c: Connection, x: Conn)
    requires c !in conns && !x.phase.Ended?
    ensures |Holders(conns[c := x])| == |Holders(conns)| + 1
  {
    assert Holders(conns[c := x]) == Holders(conns) + {c};
  }

  lemma NewHolderOf(conns: map<Connection, Conn>, c: Connection, x: Conn, t: int)
    requires c !in conns && !x.phase.Ended?
    ensures |HoldersOf(conns[c := x], t)| == |HoldersOf(conns, t)| + if t == x.token then 1 else 0
  {
    assert HoldersOf(conns[c := x], t) == HoldersOf(conns, t) + if t == x.token then {c} else {};
  }

  lemma HolderEnds(conns: map<Connection, Conn>, c: Connection)
    requires c in conns && !conns[c].phase.Ended?
    ensures |Holders(conns[c := conns[c].(phase := Ended)])| == |Holders(conns)| - 1
  {
    assert Holders(conns[c := conns[c].(phase := Ended)]) == Holders(conns) - {c};
  }

  lemma HolderOfEnds(conns: map<Connection, Conn>, c: Connection, t: int)
    requires c in conns && !conns[c].phase.Ended?
    ensures |HoldersOf(conns[c := conns[c].(phase := Ended)], t)| == |HoldersOf(conns, t)| - if t == conns[c].token then 1 else 0
  {
    assert HoldersOf(conns[c := conns[c].(phase := Ended)], t) == HoldersOf(conns, t) - if t == conns[c].token then {c} else {};
  }

  lemma ArriveTokens(r: RegistryView, conns: map<Connection, Conn>, limits: Limits, c: Connection, x: Conn)
    requires TokensCounted(r, conns) && Admits(r, limits, x.token) && c !in conns && !x.phase.Ended?
    ensures TokensCounted(Reserved(r, limits, x.token), conns[c := x])
  {
    hide HoldersOf;
    forall t: int ensures CountOf(Reserved(r, limits, x.token), t) == |HoldersOf(conns[c := x], t)| {
      NewHolderOf(conns, c, x, t);
    }
  }

  lemma ArriveCounted(s: State, limits: Limits, a: Action)
    requires Counted(s, limits) && Possible(s, a) && a.Arrive?
    ensures Counted(Apply(s, limits, a), limits)
  {
    hide Balanced, TokensCounted, Holders, HoldersOf;
    var x := Conn(a.token, Upgrading, false, 0, false);
    if Admits(s.reg, limits, a.token) {
      ReserveBalanced(s.reg, limits, a.token);
      NewHolder(s.conns, a.c, x);
      ArriveTokens(s.reg, s.conns, limits, a.c, x);
    }
  }

  lemma ReleaseCounted(s: State, limits: Limits, a: Action)
    requires Counted(s, limits) && Possible(s, a) && a.Release?
    ensures Counted(Apply(s, limits, a), limits)
  {
    var x := s.conns[a.c];
    assert a.c in HoldersOf(s.conns, x.token);
    assert CountOf(s.reg, x.token) == |HoldersOf(s.conns, x.token)| > 0;
    hide Balanced, Holders, HoldersOf;
    ReleaseBalanced(s.reg, limits, x.token);
    HolderEnds(s.conns, a.c);
    forall t: int ensures CountOf(Released(s.reg, x.token), t) == |HoldersOf(s.conns[a.c := x.(phase := Ended)], t)| {
      HolderOfEnds(s.conns, a.c, t);
    }
  }

  lemma SameCounts(s: State, s': State, limits: Limits)
    requires Counted(s, limits) && s'.reg.total == s.reg.total && s'.reg.tokens == s.reg.tokens
    requires Holders(s'.conns) == Holders(s.conns) && forall t: int :: HoldersOf(s'.conns, t) == HoldersOf(s.conns, t)
    ensures Counted(s', limits)
  {
    forall t: int ensures CountOf(s'.reg, t) == |HoldersOf(s'.conns, t)| {
      assert CountOf(s.reg, t) == |HoldersOf(s.conns, t)|;
    }
  }

  lemma StepCounted(s: State, limits: Limits, a: Action)
    requires Counted(s, limits) && Possible(s, a)
    ensures Counted(Apply(s, limits, a), limits)
  {
    if a.Arrive? {
      ArriveCounted(s, limits, a);
    } else if a.Release? {
      ReleaseCounted(s, limits, a);
    } else if OfConnection(a) {
      SameHolders(s.conns, a.c, ConnAfter(s.conns[a.c], a, s.reg.stopping));
      SameCounts(s, Apply(s, limits, a), limits);
    } else if a.CancelOne? {
      SameHolders(s.conns, a.c, s.conns[a.c].(cancelled := true));
      SameCounts(s, Apply(s, limits, a), limits);
    } else {
      SameCounts(s, Apply(s, limits, a), limits);
    }
  }

  // ---------------------------------------------------------------- whole runs

  lemma {:induction false} RunKeeps(s: State, limits: Limits, run: seq<Action>)
    requires Sessions(s) && Counted(s, limits) && PossibleRun(s, limits, run)
    ensures Sessions(Final(s, limits, run)) && Counted(Final(s, limits, run), limits)
    decreases |run|
  {
    if run != [] {
      StepSessions(s, limits, run[0]);
      StepCounted(s, limits, run[0]);
      hide Sessions, Counted, Apply, Possible;
      RunKeeps(Apply(s, limits, run[0]), limits, run[1..]);
    }
  }

  /** Counters equal what is held and stay within the limits; the registry lists the live sessions. */
  lemma RegistryKeeps(limits: Limits, run: seq<Action>)
    requires PossibleRun(INITIAL, limits, run)
    ensures Sessions(Final(INITIAL, limits, run)) && Counted(Final(INITIAL, limits, run), limits)
  {
    assert Holders(map[]) == {} && forall t: int :: HoldersOf(map[], t) == {};
    RunKeeps(INITIAL, limits, run);
  }

  predicate ReturnedNil(s: State, i: nat) {
    i in s.calls && s.calls[i] == Returned(true)
  }

  ghost predicate NoWorkers(s: State) {
    forall c | c in s.conns :: s.conns[c].workers == 0 && !InRegistry(s.conns[c].phase)
  }

  lemma {:induction false} ReturnedStays(s: State, limits: Limits, run: seq<Action>, i: nat)
    requires PossibleRun(s, limits, run) && ReturnedNil(s, i)
    ensures ReturnedNil(Final(s, limits, run), i)
    decreases |run|
  {
    if run != [] {
      ReturnedStays(Apply(s, limits, run[0]), limits, run[1..], i);
    }
  }

  lemma ReturnedMeansNone(s: State, i: nat)
    requires Sessions(s) && ReturnedNil(s, i)
    ensures NoWorkers(s)
  {
    assert CallSound(s.reg, s.calls[i]);
  }

  /**
    Once a shutdown call has returned nil no session has a worker or is in the registry, and none
    ever will: connections between reservation and registration are turned away.
   */
  lemma ShutdownComplete(limits: Limits, before: seq<Action>, after: seq<Action>, i: nat)
    requires PossibleRun(INITIAL, limits, before) && ReturnedNil(Final(INITIAL, limits, before), i)
    requires PossibleRun(Final(INITIAL, limits, before), limits, after)
    ensures NoWorkers(Final(INITIAL, limits, before))
    ensures NoWorkers(Final(Final(INITIAL, limits, before), limits, after))
  {
    var s := Final(INITIAL, limits, before);
    RegistryKeeps(limits, before);
    hide Final, PossibleRun, Sessions, Counted;
    ReturnedMeansNone(s, i);
    RunKeeps(s, limits, after);
    ReturnedStays(s, limits, after, i);
    ReturnedMeansNone(Final(s, limits, after), i);
  }

  // ---------------------------------------------------------------- every session is told

  /** A call that is waiting has cancelled every session it waits for; one still cancelling, those it is done with. */
  ghost predicate CallTold(conns: map<Connection, Conn>, call: Call) {
    match call
    case Cancelling(rest, seen) => forall c | c in seen && c !in rest :: Told(conns, c)
    case Waiting(rest) => forall c | c in rest :: Told(conns, c)
    case Returned(_) => true
  }

  predicate Told(conns: map<Connection, Conn>, c: Connection) {
    c in conns && conns[c].cancelled
  }

  ghost predicate AllTold(s: State) {
    forall i | i in s.calls :: CallTold(s.conns, s.calls[i])
  }

  /** A cancelled context stays cancelled. */
  lemma ToldStays(s: State, limits: Limits, a: Action, call: Call)
    requires Possible(s, a) && CallTold(s.conns, call)
    ensures CallTold(Apply(s, limits, a).conns, call)
  {
    var conns := Apply(s, limits, a).conns;
    assert forall c | Told(s.conns, c) :: Told(conns, c);
    hide Told;
  }

  lemma StepTold(s: State, limits: Limits, a: Action)
    requires AllTold(s) && Possible(s, a)
    ensures AllTold(Apply(s, limits, a))
  {
    var s' := Apply(s, limits, a);
    forall i | i in s'.calls ensures CallTold(s'.conns, s'.calls[i]) {
      if i in s.calls {
        ToldStays(s, limits, a, s.calls[i]);
      }
    }
  }

  lemma {:induction false} RunTold(s: State, limits: Limits, run: seq<Action>)
    requires AllTold(s) && PossibleRun(s, limits, run)
    ensures AllTold(Final(s, limits, run))
    decreases |run|
  {
    if run != [] {
      StepTold(s, limits, run[0]);
      hide AllTold, Apply, Possible;
      RunTold(Apply(s, limits, run[0]), limits, run[1..]);
    }
  }

  /** In every run, a shutdown call that has begun to wait has cancelled every session still registered. */
  lemma WaitingMeansTold(limits: Limits, run: seq<Action>, i: nat)
    requires PossibleRun(INITIAL, limits, run)
    requires var s := Final(INITIAL, limits, run); i in s.calls && s.calls[i].Waiting?
    ensures var s := Final(INITIAL, limits, run); forall c | c in s.reg.sessions :: c in s.conns && s.conns[c].cancelled
  {
    RegistryKeeps(limits, run);
    RunTold(INITIAL, limits, run);
    var s := Final(INITIAL, limits, run);
    hide Final, PossibleRun, Counted;
    assert CallSound(s.reg, s.calls[i]) && CallTold(s.conns, s.calls[i]);
  }

  /** A connection arriving is given a place exactly below the limits, and one upgrading is registered exactly unless stopping. */
  lemma AdmissionExact(s: State, limits: Limits, c: Connection, token: int)
    requires Sessions(s) && Counted(s, limits)
    ensures c !in s.conns ==>
              (c in Apply(s, limits, Arrive(c, token)).conns <==>
                 && !s.reg.stopping && |Holders(s.conns)| < AtLeastOne(limits.total)
                 && |HoldersOf(s.conns, token)| < AtLeastOne(limits.perToken))
    ensures c in s.conns && s.conns[c].phase.Upgrading? ==>
              var s' := Apply(s, limits, Register(c));
              (c in s'.reg.sessions <==> !s.reg.stopping) && (s'.conns[c].phase.Registered? <==> !s.reg.stopping)
  {
    assert CountOf(s.reg, token) == |HoldersOf(s.conns, token)|;
    hide Holders, HoldersOf, Balanced;
  }
}

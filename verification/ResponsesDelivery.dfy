/**
  What the client sees.  While the session lives, every accepted create gets exactly one closing
  message, in acceptance order within its lane; nothing about a turn follows its closing, its
  slot and bytes are released before it, and a terminal event comes after the history step.
 */
module ResponsesDelivery {
  import opened ResponsesHistory
  import opened ResponsesSession
  import opened ResponsesAccounting
  import opened ResponsesReplay

  // ---------------------------------------------------------------- reading the trace

  function AcceptedIn(trace: seq<Obs>, k: Stream): seq<Job> {
    if trace == [] then []
    else
      var o, rest := trace[|trace| - 1], AcceptedIn(trace[..|trace| - 1], k);
      if o.Accepted? && o.job.event.stream == k then rest + [o.job] else rest
  }

  function ClosedIn(trace: seq<Obs>, k: Stream): seq<Job> {
    if trace == [] then []
    else
      var o, rest := trace[|trace| - 1], ClosedIn(trace[..|trace| - 1], k);
      if o.Closed? && o.job.event.stream == k then rest + [o.job] else rest
  }

  /** The history step of a turn that ended whole. */
  predicate SettledAt(trace: seq<Obs>, i: nat, job: Job) {
    i < |trace| && trace[i].Settled? && trace[i].job == job && Whole(trace[i].how.o)
  }

  ghost predicate SettledBefore(trace: seq<Obs>, n: nat, job: Job)
    requires n <= |trace|
  {
    exists i: nat :: i < n && SettledAt(trace, i, job)
  }

  /** The turn has been released, and for a terminal event its history step came before that. */
  ghost predicate MayClose(trace: seq<Obs>, n: nat, job: Job, closing: Closing)
    requires n <= |trace|
  {
    exists i :: 0 <= i < n && trace[i] == Released(job) && (closing.Terminal? ==> SettledBefore(trace, i, job))
  }

  /** Closings are last for their turn and come after the release they need. */
  ghost predicate Orderly(trace: seq<Obs>) {
    && (forall i | 0 <= i < |trace| && trace[i].Closed? :: MayClose(trace, i, trace[i].job, trace[i].closing))
    && (forall i, j | 0 <= i < j < |trace| && trace[i].Closed? :: trace[j].job != trace[i].job)
  }

  // ---------------------------------------------------------------- invariant

  function InHand(w: Worker): seq<Job> {
    if w.Busy? then [w.job] else []
  }

  ghost predicate Numbered(jobs: seq<Job>, next: nat) {
    && (forall i | 0 <= i < |jobs| :: jobs[i].id < next)
    && (forall i, j | 0 <= i < j < |jobs| :: jobs[i].id < jobs[j].id)
  }

  /** The lane's accepted turns are those done, the one in hand and the queue, in this order. */
  ghost predicate Flows(l: Lane, k: Stream, next: nat) {
    && l.accepted == l.done + InHand(l.worker) + l.queue
    && Numbered(l.accepted, next)
    && (forall i | 0 <= i < |l.accepted| :: l.accepted[i].event.stream == k)
  }

  ghost predicate PcTraced(trace: seq<Obs>, w: Worker) {
    w.Busy? ==>
      && (w.pc.Finishing? ==> MayClose(trace, |trace|, w.job, w.pc.closing))
      && (w.pc.Releasing? && w.pc.closing.Terminal? ==> SettledBefore(trace, |trace|, w.job))
  }

  ghost predicate Traced(trace: seq<Obs>, k: Stream, l: Lane, alive: bool) {
    && AcceptedIn(trace, k) == l.accepted
    && ClosedIn(trace, k) <= l.done
    && (alive ==> ClosedIn(trace, k) == l.done)
    && (alive ==> !(l.worker.Busy? && l.worker.pc.Leaving?))
    && PcTraced(trace, l.worker)
  }

  ghost predicate LaneDelivers(s: State, k: Stream)
    requires k in s.lanes
  {
    Flows(s.lanes[k], k, s.next) && Traced(s.trace, k, s.lanes[k], s.alive)
  }

  ghost predicate Delivers(s: State) {
    && Orderly(s.trace)
    && (forall k | k in s.lanes :: LaneDelivers(s, k))
    && (forall k | k !in s.lanes :: AcceptedIn(s.trace, k) == [] == ClosedIn(s.trace, k))
  }

  // ---------------------------------------------------------------- appending to the trace

  lemma MayCloseLater(trace: seq<Obs>, o: Obs, n: nat, job: Job, closing: Closing)
    requires n <= |trace|
    ensures SettledBefore(trace, n, job) ==> SettledBefore(trace + [o], n, job)
    ensures MayClose(trace, n, job, closing) ==> MayClose(trace + [o], n, job, closing)
  {
    var t := trace + [o];
    if SettledBefore(trace, n, job) {
      var i: nat :| i < n && SettledAt(trace, i, job);
      assert SettledAt(t, i, job);
    }
    if MayClose(trace, n, job, closing) {
      var i :| 0 <= i < n && trace[i] == Released(job) && (closing.Terminal? ==> SettledBefore(trace, i, job));
      assert t[i] == Released(job);
      if closing.Terminal? {
        var m: nat :| m < i && SettledAt(trace, m, job);
        assert SettledAt(t, m, job);
      }
    }
  }

  lemma MayCloseWider(trace: seq<Obs>, n: nat, n': nat, job: Job, closing: Closing)
    requires n <= n' <= |trace|
    ensures SettledBefore(trace, n, job) ==> SettledBefore(trace, n', job)
    ensures MayClose(trace, n, job, closing) ==> MayClose(trace, n', job, closing)
  {
  }

  lemma PcTracedLater(trace: seq<Obs>, o: Obs, w: Worker)
    requires PcTraced(trace, w)
    ensures PcTraced(trace + [o], w)
  {
    if w.Busy? {
      var closing := if w.pc.Finishing? then w.pc.closing else Terminal;
      hide MayClose, SettledBefore;
      MayCloseLater(trace, o, |trace|, w.job, closing);
      MayCloseWider(trace + [o], |trace|, |trace| + 1, w.job, closing);
    }
  }

  /** What the lists read from the trace gain from one more observation. */
  lemma ListsLater(trace: seq<Obs>, o: Obs, k: Stream)
    ensures AcceptedIn(trace + [o], k)
         == if o.Accepted? && o.job.event.stream == k then AcceptedIn(trace, k) + [o.job] else AcceptedIn(trace, k)
    ensures ClosedIn(trace + [o], k)
         == if o.Closed? && o.job.event.stream == k then ClosedIn(trace, k) + [o.job] else ClosedIn(trace, k)
  {
    assert (trace + [o])[..|trace|] == trace;
  }

  lemma {:induction false} ClosedIsListed(trace: seq<Obs>, i: nat)
    requires i < |trace| && trace[i].Closed?
    ensures trace[i].job in ClosedIn(trace, trace[i].job.event.stream)
    decreases |trace|
  {
    hide AcceptedIn, ClosedIn;
    var k, front, last := trace[i].job.event.stream, trace[..|trace| - 1], trace[|trace| - 1];
    assert trace == front + [last];
    ListsLater(front, last, k);
    if i < |front| {
      assert front[i] == trace[i];
      ClosedIsListed(front, i);
    }
  }

  ghost predicate NeverClosed(trace: seq<Obs>, job: Job) {
    forall i | 0 <= i < |trace| && trace[i].Closed? :: trace[i].job != job
  }

  lemma OrderlyLater(trace: seq<Obs>, o: Obs)
    requires Orderly(trace) && NeverClosed(trace, o.job)
    requires o.Closed? ==> MayClose(trace, |trace|, o.job, o.closing)
    ensures Orderly(trace + [o])
  {
    var t := trace + [o];
    forall i | 0 <= i < |t| && t[i].Closed? ensures MayClose(t, i, t[i].job, t[i].closing) {
      MayCloseLater(trace, o, i, t[i].job, t[i].closing);
    }
    forall i, j | 0 <= i < j < |t| && t[i].Closed? ensures t[j].job != t[i].job {
      assert t[i] == trace[i];
    }
  }

  /** Closed turns are among those their lane is through with. */
  lemma ClosedIsDone(s: State, i: nat)
    requires Delivers(s) && i < |s.trace| && s.trace[i].Closed?
    ensures var job := s.trace[i].job;
            job.event.stream in s.lanes && job in s.lanes[job.event.stream].done
  {
    hide Flows, PcTraced, Orderly;
    ClosedIsListed(s.trace, i);
    var k := s.trace[i].job.event.stream;
    assert k in s.lanes ==> LaneDelivers(s, k);
  }

  /** The turns a lane is not through with. */
  function Open(l: Lane): seq<Job> {
    InHand(l.worker) + l.queue
  }

  lemma OpenAreNumbered(l: Lane, k: Stream, next: nat, a: nat)
    requires Flows(l, k, next) && a < |Open(l)|
    ensures Open(l)[a].event.stream == k && Open(l)[a].id < next
    ensures forall b | 0 <= b < |l.done| :: l.done[b].id < Open(l)[a].id
    ensures forall b | 0 <= b < |Open(l)| && b != a :: Open(l)[b] != Open(l)[a]
  {
    var n := |l.done|;
    assert forall b | 0 <= b < |Open(l)| :: l.accepted[n + b] == Open(l)[b];
    assert forall b | 0 <= b < n :: l.accepted[b] == l.done[b];
    assert l.accepted[n + a] == Open(l)[a];
  }

  lemma DoneAreNumbered(l: Lane, k: Stream, next: nat, job: Job)
    requires Flows(l, k, next) && job in l.done
    ensures job.id < next && job.event.stream == k
    ensures forall a | 0 <= a < |Open(l)| :: job != Open(l)[a]
  {
    var m :| 0 <= m < |l.done| && l.done[m] == job;
    assert l.accepted[m] == job;
    hide Flows, Open;
    forall a | 0 <= a < |Open(l)| ensures job != Open(l)[a] {
      OpenAreNumbered(l, k, next, a);
    }
  }

  /** Neither a turn its lane is not through with nor one still to be numbered has been closed. */
  lemma OpenTurnsNotClosed(s: State, job: Job)
    requires Delivers(s)
    requires job.id == s.next || exists k, a | k in s.lanes && 0 <= a < |Open(s.lanes[k])| :: Open(s.lanes[k])[a] == job
    ensures NeverClosed(s.trace, job)
  {
    hide Flows, Open, Orderly, Traced;
    forall i | 0 <= i < |s.trace| && s.trace[i].Closed? ensures s.trace[i].job != job {
      ClosedIsDone(s, i);
      var j := s.trace[i].job.event.stream;
      assert LaneDelivers(s, j);
      DoneAreNumbered(s.lanes[j], j, s.next, s.trace[i].job);
      if job.id != s.next {
        var k, a :| k in s.lanes && 0 <= a < |Open(s.lanes[k])| && Open(s.lanes[k])[a] == job;
        assert LaneDelivers(s, k);
        OpenAreNumbered(s.lanes[k], k, s.next, a);
      }
    }
  }

  lemma HandBelongs(l: Lane, k: Stream, next: nat)
    requires Flows(l, k, next) && l.worker.Busy?
    ensures l.worker.job.event.stream == k
  {
    assert l.accepted[|l.done|] == l.worker.job;
  }

  // ---------------------------------------------------------------- the worker's own lane

  lemma MoveFlows(s: State, l: Lane, m: Move, k: Stream)
    requires Enabled(s, l, m) && Flows(l, k, s.next)
    ensures Flows(Moved(s, l, m), k, s.next)
  {
    var l' := Moved(s, l, m);
    assert l'.done + InHand(l'.worker) + l'.queue == l.done + InHand(l.worker) + l.queue;
  }

  /** What a move adds to the trace. */
  function Observed(s: State, l: Lane, m: Move): seq<Obs>
    requires Enabled(s, l, m)
  {
    match m
    case Begin => if Serves(s, l.worker.job) then [Began(l.worker.job)] else []
    case PrepareTurn(length, limit) =>
      var job := l.worker.job;
      if Prepare(s.history, job.event.request, length, limit).Refused? then [Denied(job, Unprepared(s.history, length, limit))]
      else [Readied(job, s.history, length, limit, PreparedOf(s, job, length, limit))]
    case Charge =>
      if s.bytes + l.worker.pc.p.extra > MAX_BUFFERED then [Denied(l.worker.job, OverBudget(s.bytes, l.worker.pc.p.extra))] else []
    case ReadFlag => [Read(l.worker.job, l.worker.job in s.cancelled)]
    case Emit(delivered) => if s.alive && delivered then [Partial(l.worker.job)] else []
    case Serve(o) => [Answered(l.worker.job, o)]
    case Store => [Settled(l.worker.job, SettlementOf(s, l.worker.job, l.worker.pc.p, l.worker.pc.o, l.worker.pc.cancelled))]
    case Release => [Released(l.worker.job)]
    case Finish(delivered) => if s.alive && delivered then [Closed(l.worker.job, l.worker.pc.closing)] else []
    case _ => []
  }

  lemma EffectObserved(s: State, l: Lane, m: Move)
    requires Enabled(s, l, m)
    ensures Effect(s, l, m).trace == s.trace + Observed(s, l, m)
    ensures |Observed(s, l, m)| <= 1
    ensures Observed(s, l, m) != [] ==>
              var o := Observed(s, l, m)[0]; l.worker.Busy? && o.job == l.worker.job && !o.Accepted? && !o.Asked?
    ensures Effect(s, l, m).alive ==> s.alive
    ensures Effect(s, l, m).next == s.next
  {
  }

  /** The worker's position agrees with the trace after its move. */
  lemma MovePc(s: State, l: Lane, m: Move)
    requires Enabled(s, l, m) && PcTraced(s.trace, l.worker)
    ensures PcTraced(s.trace + Observed(s, l, m), Moved(s, l, m).worker)
  {
    var t := s.trace + Observed(s, l, m);
    if m.Store? {
      assert ClosingOf(l.worker.pc.o, l.worker.pc.cancelled).Terminal? ==> SettledAt(t, |s.trace|, l.worker.job);
    } else if m.Release? && l.worker.pc.Releasing? {
      MayCloseLater(s.trace, Released(l.worker.job), |s.trace|, l.worker.job, Terminal);
      assert t[|s.trace|] == Released(l.worker.job);
    } else if m.Emit? && t != s.trace {
      PcTracedLater(s.trace, Partial(l.worker.job), l.worker);
    }
  }

  /** A lane is through with its turn by closing it, or with the session dead. */
  lemma MoveDone(s: State, l: Lane, m: Move)
    requires Enabled(s, l, m)
    ensures var l', more := Moved(s, l, m), Observed(s, l, m);
            && l'.accepted == l.accepted
            && (if more != [] && more[0].Closed? then l'.done == l.done + [l.worker.job]
                else l'.done == l.done || (l.worker.Busy? && l'.done == l.done + [l.worker.job]
                                           && (l.worker.pc.Leaving? || !Effect(s, l, m).alive)))
            && (l'.worker.Busy? && l'.worker.pc.Leaving? ==> !Effect(s, l, m).alive || (l.worker.Busy? && l.worker.pc.Leaving?))
  {
  }

  lemma TracedAfter(trace: seq<Obs>, more: seq<Obs>, k: Stream, l: Lane, l': Lane, alive: bool, alive': bool)
    requires Traced(trace, k, l, alive) && (alive' ==> alive) && |more| <= 1 && l'.accepted == l.accepted
    requires more != [] ==> l.worker.Busy? && more[0].job == l.worker.job && l.worker.job.event.stream == k && !more[0].Accepted?
    requires if more != [] && more[0].Closed? then l.worker.Busy? && l'.done == l.done + [l.worker.job]
             else l'.done == l.done || (!alive' && l.done <= l'.done)
    requires (alive' ==> !(l'.worker.Busy? && l'.worker.pc.Leaving?)) && PcTraced(trace + more, l'.worker)
    requires more != [] && more[0].Closed? ==> alive
    ensures Traced(trace + more, k, l', alive')
  {
    hide PcTraced, AcceptedIn, ClosedIn;
    if more != [] {
      assert more == [more[0]];
      ListsLater(trace, more[0], k);
    } else {
      assert trace + more == trace;
    }
  }

  lemma MoveTraced(s: State, k: Stream, l: Lane, m: Move)
    requires Enabled(s, l, m) && Flows(l, k, s.next) && Traced(s.trace, k, l, s.alive)
    ensures Traced(Effect(s, l, m).trace, k, Moved(s, l, m), Effect(s, l, m).alive)
  {
    MovePc(s, l, m);
    MoveDone(s, l, m);
    EffectObserved(s, l, m);
    if l.worker.Busy? {
      HandBelongs(l, k, s.next);
    }
    hide PcTraced, Flows, Effect, Moved, Enabled, AcceptedIn, ClosedIn;
    TracedAfter(s.trace, Observed(s, l, m), k, l, Moved(s, l, m), s.alive, Effect(s, l, m).alive);
  }

  lemma MoveOrderly(s: State, k: Stream, m: Move)
    requires Delivers(s) && Possible(s, Step(k, m))
    ensures Orderly(Effect(s, s.lanes[k], m).trace)
  {
    var l := s.lanes[k];
    EffectObserved(s, l, m);
    if Observed(s, l, m) != [] {
      assert LaneDelivers(s, k);
      assert Open(l)[0] == l.worker.job;
      OpenTurnsNotClosed(s, l.worker.job);
      hide Orderly, NeverClosed, Flows;
      OrderlyLater(s.trace, Observed(s, l, m)[0]);
    }
  }

  // ---------------------------------------------------------------- the other lanes

  lemma OtherTraced(trace: seq<Obs>, more: seq<Obs>, k: Stream, l: Lane, alive: bool, alive': bool)
    requires |more| <= 1 && (more != [] ==> more[0].job.event.stream != k)
    requires Traced(trace, k, l, alive) && (alive' ==> alive)
    ensures Traced(trace + more, k, l, alive')
  {
    hide PcTraced, AcceptedIn, ClosedIn;
    if more != [] {
      assert more == [more[0]];
      ListsLater(trace, more[0], k);
      PcTracedLater(trace, more[0], l.worker);
    } else {
      assert trace + more == trace;
    }
  }

  /** One lane moves and the trace grows by an observation of that lane: the other lanes keep delivering. */
  lemma OthersDeliver(s: State, k: Stream, more: seq<Obs>, s': State)
    requires Delivers(s) && s'.lanes.Keys == s.lanes.Keys + {k}
    requires forall j | j in s.lanes && j != k :: s'.lanes[j] == s.lanes[j]
    requires |more| <= 1 && (more != [] ==> more[0].job.event.stream == k) && s'.trace == s.trace + more
    requires (s'.alive ==> s.alive) && s.next <= s'.next
    requires LaneDelivers(s', k) && Orderly(s'.trace)
    ensures Delivers(s')
  {
    hide Traced, Orderly;
    forall j | j in s'.lanes && j != k ensures LaneDelivers(s', j) {
      assert LaneDelivers(s, j);
      OtherTraced(s.trace, more, j, s.lanes[j], s.alive, s'.alive);
    }
    forall j | j !in s'.lanes ensures AcceptedIn(s'.trace, j) == [] == ClosedIn(s'.trace, j) {
      if more != [] {
        ListsLater(s.trace, more[0], j);
      } else {
        assert s'.trace == s.trace;
      }
    }
  }

  // ---------------------------------------------------------------- steps

  lemma JoinFlows(l: Lane, k: Stream, job: Job)
    requires Flows(l, k, job.id) && job.event.stream == k
    ensures Flows(Joined(l, job), k, job.id + 1)
  {
    var l' := Joined(l, job);
    assert l'.accepted == l'.done + InHand(l'.worker) + l'.queue;
  }

  lemma JoinTraced(trace: seq<Obs>, k: Stream, l: Lane, job: Job, alive: bool)
    requires Traced(trace, k, l, alive) && job.event.stream == k
    ensures Traced(trace + [Accepted(job)], k, Joined(l, job), alive)
  {
    ListsLater(trace, Accepted(job), k);
    PcTracedLater(trace, Accepted(job), l.worker);
  }

  lemma LaneForDelivers(s: State, k: Stream)
    requires Delivers(s)
    ensures Flows(LaneFor(s, k), k, s.next) && Traced(s.trace, k, LaneFor(s, k), s.alive)
  {
    assert k in s.lanes ==> LaneDelivers(s, k);
  }

  lemma JoinDelivers(s: State, e: Event)
    requires Delivers(s) && Accepts(s, e)
    ensures LaneDelivers(ApplyEnqueue(s, e), e.stream)
  {
    hide Flows, Traced, Delivers;
    var job, l := Job(s.next, e), LaneFor(s, e.stream);
    LaneForDelivers(s, e.stream);
    JoinFlows(l, e.stream, job);
    JoinTraced(s.trace, e.stream, l, job, s.alive);
  }

  lemma JoinOrderly(s: State, job: Job)
    requires Delivers(s) && job.id == s.next
    ensures Orderly(s.trace + [Accepted(job)])
  {
    hide LaneDelivers, Orderly, NeverClosed;
    OpenTurnsNotClosed(s, job);
    OrderlyLater(s.trace, Accepted(job));
  }

  lemma EnqueueDelivers(s: State, e: Event)
    requires Delivers(s)
    ensures Delivers(ApplyEnqueue(s, e))
  {
    hide LaneDelivers, Orderly, Delivers;
    if Accepts(s, e) {
      var job := Job(s.next, e);
      JoinDelivers(s, e);
      JoinOrderly(s, job);
      OthersDeliver(s, e.stream, [Accepted(job)], ApplyEnqueue(s, e));
    }
  }

  lemma OwnLaneDelivers(s: State, k: Stream, m: Move)
    requires Delivers(s) && Possible(s, Step(k, m))
    ensures LaneDelivers(Apply(s, Step(k, m)), k)
    ensures s.lanes[k].worker.Busy? ==> s.lanes[k].worker.job.event.stream == k
  {
    hide Flows, Traced, Orderly, Effect, Moved, Enabled, Observed;
    var l := s.lanes[k];
    assert LaneDelivers(s, k);
    EffectObserved(s, l, m);
    MoveFlows(s, l, m, k);
    MoveTraced(s, k, l, m);
    if l.worker.Busy? {
      HandBelongs(l, k, s.next);
    }
  }

  lemma MoveDelivers(s: State, k: Stream, m: Move)
    requires Delivers(s) && Possible(s, Step(k, m))
    ensures Delivers(Apply(s, Step(k, m)))
  {
    hide LaneDelivers, Orderly, Effect, Moved, Enabled, Delivers, Observed;
    var l, s' := s.lanes[k], Apply(s, Step(k, m));
    MoveOrderly(s, k, m);
    EffectObserved(s, l, m);
    OwnLaneDelivers(s, k, m);
    OthersDeliver(s, k, Observed(s, l, m), s');
  }

  /** A cancel that finds its turn adds an observation of a turn still open. */
  lemma CancelDelivers(s: State, k: Stream, matches: bool)
    requires Delivers(s) && (k in s.lanes ==> Shaped(s.lanes[k]))
    ensures Delivers(ApplyCancel(s, k, matches))
  {
    if k in s.lanes && s.lanes[k].turns != [] && matches {
      var l, s' := s.lanes[k], ApplyCancel(s, k, matches);
      var job := l.turns[0];
      assert if Hand(l.worker) == InHand(l.worker) then Open(l)[0] == job else Open(l)[1] == job;
      OpenTurnsNotClosed(s, job);
      CancelOwn(s, k, job);
      hide LaneDelivers, Orderly, NeverClosed, Delivers;
      OthersDeliver(s, k, [Asked(job)], s');
    }
  }

  lemma CancelOwn(s: State, k: Stream, job: Job)
    requires Delivers(s) && k in s.lanes && job in Open(s.lanes[k]) && NeverClosed(s.trace, job)
    ensures var s' := s.(cancelled := s.cancelled + {job}, trace := s.trace + [Asked(job)]);
            LaneDelivers(s', k) && Orderly(s'.trace) && job.event.stream == k
  {
    var l := s.lanes[k];
    assert LaneDelivers(s, k);
    var a :| 0 <= a < |Open(l)| && Open(l)[a] == job;
    OpenAreNumbered(l, k, s.next, a);
    hide Flows, NeverClosed, PcTraced, Open, AcceptedIn, ClosedIn;
    OrderlyLater(s.trace, Asked(job));
    ListsLater(s.trace, Asked(job), k);
    PcTracedLater(s.trace, Asked(job), l.worker);
  }

  lemma StepDelivers(s: State, a: Action)
    requires Accounts(s) && Delivers(s) && Possible(s, a)
    ensures Delivers(Apply(s, a))
  {
    match a
    case Enqueue(e) => EnqueueDelivers(s, e);
    case Cancel(k, matches) =>
      assert k in s.lanes ==> Shaped(s.lanes[k]);
      hide Accounts, Delivers;
      CancelDelivers(s, k, matches);
    case Stop =>
      hide Flows, Orderly, PcTraced;
      forall k | k in s.lanes ensures LaneDelivers(Apply(s, a), k) {
        assert LaneDelivers(s, k);
      }
    case Step(k, m) => MoveDelivers(s, k, m);
  }

  lemma {:induction false} RunDelivers(s: State, run: seq<Action>)
    requires Accounts(s) && Delivers(s) && PossibleRun(s, run)
    ensures Delivers(Final(s, run))
    decreases |run|
  {
    if run != [] {
      StepAccounts(s, run[0]);
      StepDelivers(s, run[0]);
      hide Accounts, Delivers, Apply, Possible;
      RunDelivers(Apply(s, run[0]), run[1..]);
    }
  }

  lemma SessionDelivers(run: seq<Action>)
    requires PossibleRun(INITIAL, run)
    ensures Delivers(Final(INITIAL, run))
  {
    RunDelivers(INITIAL, run);
  }

  /**
    What the client sees of a lane after any run.  Acceptances are numbered upwards and closings
    follow them in the same order, one each.  On a living session the only accepted turns without
    a closing are the one in the worker's hands and those queued behind it.
   */
  lemma ClosingsFollowAcceptance(run: seq<Action>, k: Stream)
    requires PossibleRun(INITIAL, run)
    ensures var s := Final(INITIAL, run);
            && Numbered(AcceptedIn(s.trace, k), s.next)
            && ClosedIn(s.trace, k) <= AcceptedIn(s.trace, k)
            && (s.alive ==> AcceptedIn(s.trace, k) == ClosedIn(s.trace, k) + InHand(LaneFor(s, k).worker) + LaneFor(s, k).queue)
            && Orderly(s.trace)
  {
    SessionDelivers(run);
    var s := Final(INITIAL, run);
    hide Final, PossibleRun, Orderly;
    LaneForDelivers(s, k);
  }

  // ---------------------------------------------------------------- terminal events and the history

  /** The history step stored the turn exactly when it was to be kept and the history took it, under its ledger node. */
  predicate Truthful(ledger: seq<Node>, job: Job, how: Settlement) {
    && (how.at.Some? <==> Stores(how.met, job, how.p, how.o))
    && (how.at.Some? ==> how.at.value < |ledger| && ledger[how.at.value] == NodeOf(job, how.p, how.o))
  }

  ghost predicate Recorded(s: State) {
    forall i | 0 <= i < |s.trace| && s.trace[i].Settled? :: Truthful(s.ledger, s.trace[i].job, s.trace[i].how)
  }

  /** The step itself: the snapshot is in the history, and the trace says where, exactly when the turn is stored. */
  lemma StoreTruthful(s: State, job: Job, p: Prepared, o: Outcome, flag: bool)
    ensures var s', how := ApplyStore(s, job, p, o), SettlementOf(s, job, p, o, flag);
            && Truthful(s'.ledger, job, how)
            && s.ledger <= s'.ledger
            && (how.at.Some? ==> o.id in s'.history.items && s'.history.items[o.id].input == Kept(p.input, o.output))
  {
    if Stores(s.history, job, p, o) {
      RememberedItems(s.history, o.id, p.input, o.output, job.event.warmup);
    }
    hide Stores, Remembered;
  }

  lemma MoveRecorded(s: State, l: Lane, m: Move)
    requires Enabled(s, l, m) && Recorded(s)
    ensures Recorded(Effect(s, l, m))
  {
    var e := Effect(s, l, m);
    if m.Store? {
      StoreTruthful(s, l.worker.job, l.worker.pc.p, l.worker.pc.o, l.worker.pc.cancelled);
    }
    EffectObserved(s, l, m);
    hide Stores, Remembered;
    forall i | 0 <= i < |e.trace| && e.trace[i].Settled? ensures Truthful(e.ledger, e.trace[i].job, e.trace[i].how) {
      assert i < |s.trace| ==> e.trace[i] == s.trace[i];
    }
  }

  lemma StepRecorded(s: State, a: Action)
    requires Recorded(s) && Possible(s, a)
    ensures Recorded(Apply(s, a))
  {
    hide Truthful, Enabled, Effect, Moved;
    if a.Step? {
      MoveRecorded(s, s.lanes[a.stream], a.move);
    }
  }

  lemma {:induction false} RunRecorded(s: State, run: seq<Action>)
    requires Recorded(s) && PossibleRun(s, run)
    ensures Recorded(Final(s, run))
    decreases |run|
  {
    if run != [] {
      StepRecorded(s, run[0]);
      hide Recorded, Apply, Possible;
      RunRecorded(Apply(s, run[0]), run[1..]);
    }
  }

  /**
    After any run, a terminal event was sent after its turn's slot and bytes were released, and
    that after its history step, which put the turn under its ledger node unless it was not to be
    kept or the history refused it.
   */
  lemma TerminalAfterStored(run: seq<Action>, i: nat) returns (settled: nat, released: nat)
    requires PossibleRun(INITIAL, run)
    requires var t := Final(INITIAL, run).trace; i < |t| && t[i].Closed? && t[i].closing.Terminal?
    ensures var s := Final(INITIAL, run); var job := s.trace[i].job;
            && settled < released < i < |s.trace|
            && s.trace[released] == Released(job)
            && SettledAt(s.trace, settled, job) && Truthful(s.ledger, job, s.trace[settled].how)
  {
    SessionDelivers(run);
    RunRecorded(INITIAL, run);
    var s := Final(INITIAL, run);
    hide Final, PossibleRun, LaneDelivers, Truthful;
    assert MayClose(s.trace, i, s.trace[i].job, Terminal);
    released :| 0 <= released < i && s.trace[released] == Released(s.trace[i].job) && SettledBefore(s.trace, released, s.trace[i].job);
    settled :| settled < released && SettledAt(s.trace, settled, s.trace[i].job);
  }
}

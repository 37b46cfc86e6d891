/**
  What every interleaving of the session keeps about its budgets: the pending and byte counters
  are exactly what the lanes hold, within their limits, and a lane's turns are the unreleased
  turn in its worker's hands followed by its queue.
 */
module ResponsesAccounting {
  import opened ResponsesSession
  import opened Totals

  /** The turn a worker holds and has not released yet. */
  function Hand(w: Worker): seq<Job> {
    if w.Busy? && !w.pc.Finishing? then [w.job] else []
  }

  predicate Shaped(l: Lane) {
    l.turns == Hand(l.worker) + l.queue
  }

  function QueueBytes(q: seq<Job>): nat {
    if q == [] then 0 else q[0].event.body + QueueBytes(q[1..])
  }

  function LaneBytes(l: Lane): nat {
    (if Hand(l.worker) != [] then l.worker.accounted else 0) + QueueBytes(l.queue)
  }

  function TurnCounts(lanes: map<Stream, Lane>): map<Stream, nat> {
    map k | k in lanes :: |lanes[k].turns|
  }

  function ByteCounts(lanes: map<Stream, Lane>): map<Stream, nat> {
    map k | k in lanes :: LaneBytes(lanes[k])
  }

  /** The counters of the session are the totals of its lanes. */
  ghost predicate Accounts(s: State) {
    && (forall k | k in s.lanes :: Shaped(s.lanes[k]))
    && s.pending == Sum(TurnCounts(s.lanes)) <= MAX_PENDING
    && s.bytes == Sum(ByteCounts(s.lanes)) <= MAX_BUFFERED
    && |s.lanes| <= MAX_STREAMS
  }

  // ---------------------------------------------------------------- sums

  lemma LaneTotals(lanes: map<Stream, Lane>, k: Stream, l: Lane)
    ensures Sum(TurnCounts(lanes[k := l])) == Sum(TurnCounts(lanes)) - (if k in lanes then |lanes[k].turns| else 0) + |l.turns|
    ensures Sum(ByteCounts(lanes[k := l])) == Sum(ByteCounts(lanes)) - (if k in lanes then LaneBytes(lanes[k]) else 0) + LaneBytes(l)
  {
    hide LaneBytes, Sum;
    assert TurnCounts(lanes[k := l]) == TurnCounts(lanes)[k := |l.turns|];
    assert ByteCounts(lanes[k := l]) == ByteCounts(lanes)[k := LaneBytes(l)];
    SumUpdate(TurnCounts(lanes), k, |l.turns|);
    SumUpdate(ByteCounts(lanes), k, LaneBytes(l));
  }

  // ---------------------------------------------------------------- steps

  lemma {:induction false} QueueBytesAppend(q: seq<Job>, job: Job)
    ensures QueueBytes(q + [job]) == QueueBytes(q) + job.event.body
  {
    if q != [] {
      QueueBytesAppend(q[1..], job);
      assert (q + [job])[1..] == q[1..] + [job];
    }
  }

  function Joined(l: Lane, job: Job): Lane {
    Lane(l.turns + [job], l.queue + [job], l.worker, l.accepted + [job], l.done)
  }

  lemma JoinedAccounts(l: Lane, job: Job)
    requires Shaped(l)
    ensures Shaped(Joined(l, job)) && LaneBytes(Joined(l, job)) == LaneBytes(l) + job.event.body
  {
    QueueBytesAppend(l.queue, job);
  }

  /** Replacing or adding one lane that is in shape and moving the counters along keeps the accounts. */
  lemma LaneAccounts(s: State, k: Stream, l: Lane, s': State)
    requires Accounts(s) && Shaped(l) && s'.lanes == s.lanes[k := l]
    requires k in s.lanes || |s.lanes| < MAX_STREAMS
    requires s'.pending - s.pending == |l.turns| - (if k in s.lanes then |s.lanes[k].turns| else 0)
    requires s'.bytes - s.bytes == LaneBytes(l) - (if k in s.lanes then LaneBytes(s.lanes[k]) else 0)
    requires s'.pending <= MAX_PENDING && s'.bytes <= MAX_BUFFERED
    ensures Accounts(s')
  {
    hide Shaped, LaneBytes, Sum, TurnCounts, ByteCounts;
    LaneTotals(s.lanes, k, l);
    assert s'.lanes.Keys == s.lanes.Keys + {k};
  }

  lemma EnqueueAccounts(s: State, e: Event)
    requires Accounts(s)
    ensures Accounts(ApplyEnqueue(s, e))
  {
    if Accepts(s, e) {
      var job, l := Job(s.next, e), LaneFor(s, e.stream);
      assert Shaped(l) && (e.stream !in s.lanes ==> |l.turns| == LaneBytes(l) == 0);
      JoinedAccounts(l, job);
      hide Accounts, Shaped, LaneBytes;
      LaneAccounts(s, e.stream, Joined(l, job), ApplyEnqueue(s, e));
    }
  }

  /** A worker's move keeps its lane in shape and changes the counters by what it changes in the lane. */
  lemma MoveAccounts(s: State, l: Lane, m: Move)
    requires Enabled(s, l, m) && Shaped(l) && s.bytes <= MAX_BUFFERED
    ensures Shaped(Moved(s, l, m))
    ensures |Moved(s, l, m).turns| - |l.turns| == Effect(s, l, m).pending - s.pending <= 0
    ensures LaneBytes(Moved(s, l, m)) - LaneBytes(l) == Effect(s, l, m).bytes - s.bytes
    ensures Effect(s, l, m).bytes <= MAX_BUFFERED
  {
  }

  lemma StepAccounts(s: State, a: Action)
    requires Accounts(s) && Possible(s, a)
    ensures Accounts(Apply(s, a))
  {
    match a
    case Enqueue(e) => EnqueueAccounts(s, e);
    case Cancel(_, _) =>
    case Stop =>
    case Step(k, m) =>
      MoveAccounts(s, s.lanes[k], m);
      hide Accounts, Shaped, LaneBytes, Moved, Effect, Enabled;
      LaneAccounts(s, k, Moved(s, s.lanes[k], m), Apply(s, a));
  }

  lemma {:induction false} RunAccounts(s: State, run: seq<Action>)
    requires Accounts(s) && PossibleRun(s, run)
    ensures Accounts(Final(s, run))
    decreases |run|
  {
    if run != [] {
      StepAccounts(s, run[0]);
      hide Accounts, Apply, Possible;
      RunAccounts(Apply(s, run[0]), run[1..]);
    }
  }

  /** After any run: counters equal totals, limits hold, every lane is its unreleased turn then its queue. */
  lemma SessionAccounts(run: seq<Action>)
    requires PossibleRun(INITIAL, run)
    ensures Accounts(Final(INITIAL, run))
  {
    RunAccounts(INITIAL, run);
  }

  // ---------------------------------------------------------------- consequences

  /** The channel send made under the session lock never blocks: the queue has a free slot. */
  lemma EnqueueNeverBlocks(s: State, e: Event)
    requires Accounts(s) && Accepts(s, e)
    ensures |LaneFor(s, e.stream).queue| < MAX_PENDING
  {
    if e.stream in s.lanes {
      var l := s.lanes[e.stream];
      assert Shaped(l);
      SumPart(TurnCounts(s.lanes));
      assert |l.queue| <= |l.turns| == TurnCounts(s.lanes)[e.stream];
    }
  }

  /** A release pops the very turn it belongs to, and gives back no more than is held. */
  lemma ReleasePopsOwnTurn(s: State, k: Stream)
    requires Accounts(s) && Possible(s, Step(k, Release))
    ensures var l := s.lanes[k];
            && l.turns != [] && l.turns[0] == l.worker.job
            && 1 <= s.pending && l.worker.accounted <= s.bytes
  {
    var l := s.lanes[k];
    assert Shaped(l);
    SumPart(TurnCounts(s.lanes));
    SumPart(ByteCounts(s.lanes));
    hide Sum, Shaped;
    assert TurnCounts(s.lanes)[k] == |l.turns| && ByteCounts(s.lanes)[k] == LaneBytes(l);
  }

  /**
    A create is turned away exactly when its lane would be the 33rd, when 32 turns are unreleased,
    or when its body does not fit the 16 MiB next to what the lanes hold.
   */
  lemma AcceptsExactly(s: State, e: Event)
    requires Accounts(s)
    ensures Accepts(s, e) <==>
              && (e.stream !in s.lanes ==> |s.lanes| < 32)
              && Sum(TurnCounts(s.lanes)) < 32
              && Sum(ByteCounts(s.lanes)) + e.body <= 16777216
  {
    hide Sum, TurnCounts, ByteCounts, Shaped;
  }
}

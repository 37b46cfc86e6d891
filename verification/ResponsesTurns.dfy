/**
  The life of a turn.  Leaving aside partial messages and cancel requests, what happens to a turn
  is one of three stories, told in full before its closing: it is cancelled before it begins; it
  begins and is denied service; or it begins, is prepared and answered, its cancel flag is read and
  it is settled.
  Each is followed by its release and one closing, and the story decides which closing.
 */
module ResponsesTurns {
  import opened ResponsesHistory
  import opened ResponsesSession
  import opened ResponsesAccounting
  import opened ResponsesDelivery

  predicate Concerns(o: Obs, job: Job) {
    o.job == job && !o.Partial? && !o.Asked?
  }

  /** What happened to a turn, without partial messages and cancel requests. */
  function Story(trace: seq<Obs>, job: Job): seq<Obs> {
    if trace == [] then []
    else
      var front, o := Story(trace[..|trace| - 1], job), trace[|trace| - 1];
      if Concerns(o, job) then front + [o] else front
  }

  lemma StoryLater(trace: seq<Obs>, more: seq<Obs>, job: Job)
    requires |more| <= 1
    ensures Story(trace + more, job) == if more != [] && Concerns(more[0], job) then Story(trace, job) + more else Story(trace, job)
  {
    if more == [] {
      assert trace + more == trace;
    } else {
      assert (trace + more)[..|trace|] == trace && more == [more[0]];
    }
  }

  lemma {:induction false} InStory(trace: seq<Obs>, i: nat)
    requires i < |trace| && Concerns(trace[i], trace[i].job)
    ensures trace[i] in Story(trace, trace[i].job)
    decreases |trace|
  {
    var n := |trace| - 1;
    if i < n {
      InStory(trace[..n], i);
    }
  }

  // ---------------------------------------------------------------- the three stories

  predicate ReadyStory(story: seq<Obs>, job: Job, p: Prepared) {
    |story| == 3 && story[..2] == [Accepted(job), Began(job)] && story[2].Readied? && story[2].job == job && story[2].p == p
  }

  predicate AnsweredStory(story: seq<Obs>, job: Job, p: Prepared, o: Outcome) {
    |story| == 4 && ReadyStory(story[..3], job, p) && story[3] == Answered(job, o)
  }

  predicate ServedStory(story: seq<Obs>, job: Job, p: Prepared, o: Outcome, flag: bool) {
    |story| == 5 && AnsweredStory(story[..4], job, p, o) && story[4] == Read(job, flag)
  }

  /** Denied for want of a preparation, or prepared and denied for want of budget. */
  predicate DeniedStory(story: seq<Obs>, job: Job) {
    || (|story| == 3 && story[..2] == [Accepted(job), Began(job)] && story[2].Denied? && story[2].job == job && story[2].cause.Unprepared?)
    || (|story| == 4 && story[2].Readied? && ReadyStory(story[..3], job, story[2].p)
        && story[3].Denied? && story[3].job == job && story[3].cause.OverBudget? && story[3].cause.extra == story[2].p.extra)
  }

  predicate SettledStory(story: seq<Obs>, job: Job, closing: Closing) {
    && |story| == 6 && story[5].Settled? && story[5].job == job
    && var how := story[5].how;
       && ServedStory(story[..5], job, how.p, how.o, how.flag)
       && closing == if how.o.success && how.o.clean && how.o.whole then Terminal else if how.flag then Cancelled else Failed
  }

  /** The story up to the decision about the closing, and the closing it calls for. */
  predicate Decides(story: seq<Obs>, job: Job, closing: Closing) {
    || (story == [Accepted(job)] && closing == Cancelled)
    || (DeniedStory(story, job) && closing == Failed)
    || SettledStory(story, job, closing)
  }

  predicate DecidedThen(story: seq<Obs>, job: Job, closing: Closing, last: seq<Obs>) {
    |last| <= |story| && story[|story| - |last|..] == last && Decides(story[..|story| - |last|], job, closing)
  }

  /** The story of the turn a worker holds, by where the worker is. */
  ghost predicate Told(story: seq<Obs>, job: Job, pc: Pc) {
    match pc
    case Taken => story == [Accepted(job)]
    case Abandoned => story == [Accepted(job)]
    case Preparing => story == [Accepted(job), Began(job)]
    case Charging(p) => ReadyStory(story, job, p)
    case Serving(p) => ReadyStory(story, job, p)
    case Served(p, o) => AnsweredStory(story, job, p, o)
    case Flagged(p, o, flag) => ServedStory(story, job, p, o, flag)
    case Storing(p, o, flag) => ServedStory(story, job, p, o, flag)
    case Leaving => exists p, o, flag :: ServedStory(story, job, p, o, flag)
    case Releasing(closing) => Decides(story, job, closing)
    case Finishing(closing) => DecidedThen(story, job, closing, [Released(job)])
  }

  /** The closing was received after the release. */
  ghost predicate Ended(story: seq<Obs>, job: Job) {
    exists closing :: DecidedThen(story, job, closing, [Released(job), Closed(job, closing)])
  }

  predicate LeftStory(story: seq<Obs>, job: Job, p: Prepared, o: Outcome, flag: bool) {
    |story| == 6 && ServedStory(story[..5], job, p, o, flag) && story[5] == Released(job)
  }

  /** Or it was lost with the session. */
  ghost predicate Lost(story: seq<Obs>, job: Job) {
    || (exists closing :: DecidedThen(story, job, closing, [Released(job)]))
    || (exists p, o, flag :: LeftStory(story, job, p, o, flag))
  }

  // ---------------------------------------------------------------- invariant

  ghost predicate WorkerTells(trace: seq<Obs>, w: Worker) {
    w.Busy? ==> Told(Story(trace, w.job), w.job, w.pc)
  }

  ghost predicate QueueTells(trace: seq<Obs>, queue: seq<Job>) {
    forall i | 0 <= i < |queue| :: Story(trace, queue[i]) == [Accepted(queue[i])]
  }

  ghost predicate DoneTells(trace: seq<Obs>, done: seq<Job>) {
    forall i | 0 <= i < |done| :: Ended(Story(trace, done[i]), done[i]) || Lost(Story(trace, done[i]), done[i])
  }

  ghost predicate LaneTells(trace: seq<Obs>, l: Lane) {
    WorkerTells(trace, l.worker) && QueueTells(trace, l.queue) && DoneTells(trace, l.done)
  }

  ghost predicate TraceNumbered(trace: seq<Obs>, next: nat) {
    forall i | 0 <= i < |trace| :: trace[i].job.id < next
  }

  ghost predicate Tells(s: State) {
    TraceNumbered(s.trace, s.next) && forall k | k in s.lanes :: LaneTells(s.trace, s.lanes[k])
  }

  // ---------------------------------------------------------------- one move

  lemma DecidedMore(story: seq<Obs>, job: Job, closing: Closing)
    ensures Decides(story, job, closing) ==> DecidedThen(story + [Released(job)], job, closing, [Released(job)])
    ensures DecidedThen(story, job, closing, [Released(job)]) ==>
              DecidedThen(story + [Closed(job, closing)], job, closing, [Released(job), Closed(job, closing)])
  {
    hide Decides;
    var released := story + [Released(job)];
    assert released[..|story|] == story && released[|story|..] == [Released(job)];
    if DecidedThen(story, job, closing, [Released(job)]) {
      var n, t := |story| - 1, story + [Closed(job, closing)];
      assert story[n..] == [Released(job)];
      assert t[..n] == story[..n] && t[n..] == [Released(job), Closed(job, closing)];
    }
  }

  /** The turn's story with what a move observes. */
  function Continued(story: seq<Obs>, more: seq<Obs>, job: Job): seq<Obs> {
    if more != [] && Concerns(more[0], job) then story + more else story
  }

  /** Told for the worker's new position, or over. */
  ghost predicate Follows(story: seq<Obs>, job: Job, l: Lane, l': Lane) {
    if l'.worker.Busy? then l'.worker.job == job && Told(story, job, l'.worker.pc)
    else l'.done == l.done + [job] && (Ended(story, job) || Lost(story, job))
  }

  lemma EarlyTells(s: State, l: Lane, m: Move, story: seq<Obs>)
    requires Enabled(s, l, m) && l.worker.Busy? && Told(story, l.worker.job, l.worker.pc)
    requires m.Abandon? || m.Begin? || m.Emit? || m.Check?
    ensures Follows(Continued(story, Observed(s, l, m), l.worker.job), l.worker.job, l, Moved(s, l, m))
  {
    hide ReadyStory, AnsweredStory, ServedStory, DeniedStory, SettledStory;
  }

  lemma PrepareTells(s: State, l: Lane, m: Move, story: seq<Obs>)
    requires Enabled(s, l, m) && l.worker.Busy? && m.PrepareTurn? && Told(story, l.worker.job, l.worker.pc)
    ensures Follows(Continued(story, Observed(s, l, m), l.worker.job), l.worker.job, l, Moved(s, l, m))
  {
    hide Prepare, BaseOf;
    var t := story + Observed(s, l, m);
    assert t[..2] == story && |t| == 3;
  }

  lemma ChargeTells(s: State, l: Lane, story: seq<Obs>)
    requires Enabled(s, l, Charge) && l.worker.Busy? && Told(story, l.worker.job, l.worker.pc)
    ensures Follows(Continued(story, Observed(s, l, Charge), l.worker.job), l.worker.job, l, Moved(s, l, Charge))
  {
    var t := story + Observed(s, l, Charge);
    if Observed(s, l, Charge) != [] {
      assert t[..3] == story && t[2] == story[2];
    }
  }

  lemma AnswerTells(s: State, l: Lane, m: Move, story: seq<Obs>)
    requires Enabled(s, l, m) && l.worker.Busy? && (m.Serve? || m.ReadFlag?) && Told(story, l.worker.job, l.worker.pc)
    ensures Follows(Continued(story, Observed(s, l, m), l.worker.job), l.worker.job, l, Moved(s, l, m))
  {
    var t := story + Observed(s, l, m);
    assert t[..|story|] == story;
  }

  lemma StoreTells(s: State, l: Lane, story: seq<Obs>)
    requires Enabled(s, l, Store) && l.worker.Busy? && Told(story, l.worker.job, l.worker.pc)
    ensures Follows(Continued(story, Observed(s, l, Store), l.worker.job), l.worker.job, l, Moved(s, l, Store))
  {
    hide AnsweredStory, DeniedStory, SettlementOf;
    var job, pc := l.worker.job, l.worker.pc;
    SettlementSays(s, job, pc.p, pc.o, pc.cancelled);
    assert (story + [Settled(job, SettlementOf(s, job, pc.p, pc.o, pc.cancelled))])[..5] == story;
  }

  lemma SettlementSays(s: State, job: Job, p: Prepared, o: Outcome, flag: bool)
    ensures var how := SettlementOf(s, job, p, o, flag); how.p == p && how.o == o && how.flag == flag
  {
  }

  lemma ReleaseTells(s: State, l: Lane, story: seq<Obs>)
    requires Enabled(s, l, Release) && l.worker.Busy? && Told(story, l.worker.job, l.worker.pc)
    ensures Follows(Continued(story, Observed(s, l, Release), l.worker.job), l.worker.job, l, Moved(s, l, Release))
  {
    hide Decides, DecidedThen, ServedStory, Lost;
    if l.worker.pc.Releasing? {
      DecidedMore(story, l.worker.job, l.worker.pc.closing);
    } else {
      LeavingLost(story, l.worker.job);
    }
  }

  lemma FinishTells(s: State, l: Lane, m: Move, story: seq<Obs>)
    requires Enabled(s, l, m) && m.Finish? && l.worker.Busy? && Told(story, l.worker.job, l.worker.pc)
    ensures Follows(Continued(story, Observed(s, l, m), l.worker.job), l.worker.job, l, Moved(s, l, m))
  {
    hide Decides, DecidedThen, ServedStory;
    DecidedMore(story, l.worker.job, l.worker.pc.closing);
  }

  /** The story of the turn in hand after a move. */
  lemma MoveTells(s: State, l: Lane, m: Move)
    requires Enabled(s, l, m) && l.worker.Busy? && Told(Story(s.trace, l.worker.job), l.worker.job, l.worker.pc)
    ensures Follows(Story(s.trace + Observed(s, l, m), l.worker.job), l.worker.job, l, Moved(s, l, m))
  {
    var story := Story(s.trace, l.worker.job);
    EffectObserved(s, l, m);
    StoryLater(s.trace, Observed(s, l, m), l.worker.job);
    hide Told, Follows, Observed, Moved, Effect, Story;
    if m.PrepareTurn? {
      PrepareTells(s, l, m, story);
    } else if m.Charge? {
      ChargeTells(s, l, story);
    } else if m.Serve? || m.ReadFlag? {
      AnswerTells(s, l, m, story);
    } else if m.Store? {
      StoreTells(s, l, story);
    } else if m.Release? {
      ReleaseTells(s, l, story);
    } else if m.Finish? {
      FinishTells(s, l, m, story);
    } else {
      EarlyTells(s, l, m, story);
    }
  }

  lemma LeavingLost(story: seq<Obs>, job: Job)
    requires exists p, o, flag :: ServedStory(story, job, p, o, flag)
    ensures Lost(story + [Released(job)], job)
  {
    var p, o, flag :| ServedStory(story, job, p, o, flag);
    assert (story + [Released(job)])[..5] == story;
    assert LeftStory(story + [Released(job)], job, p, o, flag);
  }

  // ---------------------------------------------------------------- everything else stays

  predicate Apart(more: seq<Obs>, job: Job) {
    more == [] || !Concerns(more[0], job)
  }

  lemma QueueFrame(trace: seq<Obs>, more: seq<Obs>, queue: seq<Job>)
    requires |more| <= 1 && QueueTells(trace, queue) && forall i | 0 <= i < |queue| :: Apart(more, queue[i])
    ensures QueueTells(trace + more, queue)
  {
    hide Story, Concerns;
    forall i | 0 <= i < |queue| ensures Story(trace + more, queue[i]) == [Accepted(queue[i])] {
      StoryLater(trace, more, queue[i]);
    }
  }

  lemma DoneFrame(trace: seq<Obs>, more: seq<Obs>, done: seq<Job>)
    requires |more| <= 1 && DoneTells(trace, done) && forall i | 0 <= i < |done| :: Apart(more, done[i])
    ensures DoneTells(trace + more, done)
  {
    hide Story, Concerns, Ended, Lost;
    forall i | 0 <= i < |done| ensures Ended(Story(trace + more, done[i]), done[i]) || Lost(Story(trace + more, done[i]), done[i]) {
      StoryLater(trace, more, done[i]);
    }
  }

  lemma LaneFrame(trace: seq<Obs>, more: seq<Obs>, l: Lane)
    requires |more| <= 1 && LaneTells(trace, l)
    requires forall i | 0 <= i < |l.done| :: Apart(more, l.done[i])
    requires forall i | 0 <= i < |Open(l)| :: Apart(more, Open(l)[i])
    ensures LaneTells(trace + more, l)
  {
    if l.worker.Busy? {
      assert Open(l)[0] == l.worker.job;
      StoryLater(trace, more, l.worker.job);
    }
    assert forall i | 0 <= i < |l.queue| :: l.queue[i] == Open(l)[|InHand(l.worker)| + i];
    hide Told, Story, Apart, QueueTells, DoneTells;
    QueueFrame(trace, more, l.queue);
    DoneFrame(trace, more, l.done);
  }

  /** Turns of a lane are not those of another stream. */
  lemma OtherLaneFrame(trace: seq<Obs>, more: seq<Obs>, l: Lane, k: Stream, next: nat)
    requires |more| <= 1 && LaneTells(trace, l) && Flows(l, k, next)
    requires more != [] ==> more[0].job.event.stream != k || more[0].job.id >= next
    ensures LaneTells(trace + more, l)
  {
    hide LaneTells;
    forall i | 0 <= i < |l.done| ensures Apart(more, l.done[i]) {
      assert l.done[i] in l.done;
      DoneAreNumbered(l, k, next, l.done[i]);
    }
    forall i | 0 <= i < |Open(l)| ensures Apart(more, Open(l)[i]) {
      OpenAreNumbered(l, k, next, i);
    }
    LaneFrame(trace, more, l);
  }

  // ---------------------------------------------------------------- steps

  /** A worker other than a taking one leaves the queue alone, and is through with its turn or not. */
  lemma MoveKeeps(s: State, l: Lane, m: Move)
    requires Enabled(s, l, m) && !m.Take?
    ensures var l' := Moved(s, l, m); l'.queue == l.queue && (l'.worker.Busy? || m.Exit? ==> l'.done == l.done)
  {
  }

  /** The other turns of a lane are not the one in its worker's hands. */
  lemma OthersApart(l: Lane, k: Stream, next: nat, more: seq<Obs>)
    requires Flows(l, k, next) && l.worker.Busy? && (more != [] ==> more[0].job == l.worker.job)
    ensures forall i | 0 <= i < |l.queue| :: Apart(more, l.queue[i])
    ensures forall i | 0 <= i < |l.done| :: Apart(more, l.done[i])
  {
    assert Open(l)[0] == l.worker.job;
    OpenAreNumbered(l, k, next, 0);
    hide Flows;
    forall i | 0 <= i < |l.queue| ensures Apart(more, l.queue[i]) {
      assert Open(l)[i + 1] == l.queue[i];
    }
  }

  lemma BusyLaneTells(s: State, k: Stream, l: Lane, m: Move)
    requires Enabled(s, l, m) && l.worker.Busy? && Flows(l, k, s.next) && LaneTells(s.trace, l)
    ensures LaneTells(s.trace + Observed(s, l, m), Moved(s, l, m))
  {
    assert !m.Take?;
    hide Moved, Observed, Effect, Flows, Told, Ended, Lost, Story, Enabled, Apart, QueueTells;
    var more := Observed(s, l, m);
    MoveTells(s, l, m);
    MoveKeeps(s, l, m);
    EffectObserved(s, l, m);
    OthersApart(l, k, s.next, more);
    QueueFrame(s.trace, more, l.queue);
    DoneFrame(s.trace, more, l.done);
    DoneMore(s.trace + more, l.done, l.worker.job);
    hide DoneTells;
  }

  lemma DoneMore(trace: seq<Obs>, done: seq<Job>, job: Job)
    requires DoneTells(trace, done)
    ensures Ended(Story(trace, job), job) || Lost(Story(trace, job), job) ==> DoneTells(trace, done + [job])
  {
    hide Ended, Lost, Story;
  }

  lemma IdleLaneTells(s: State, l: Lane, m: Move)
    requires Enabled(s, l, m) && !l.worker.Busy? && LaneTells(s.trace, l)
    ensures Observed(s, l, m) == [] && LaneTells(s.trace, Moved(s, l, m))
  {
    hide Ended, Lost, Story, ServedStory, Decides;
    if m.Take? {
      assert forall i | 0 <= i < |l.queue[1..]| :: l.queue[1..][i] == l.queue[i + 1];
    }
  }

  lemma MoveStepTells(s: State, k: Stream, m: Move)
    requires Delivers(s) && Tells(s) && Possible(s, Step(k, m))
    ensures Tells(Apply(s, Step(k, m)))
  {
    hide LaneTells, Traced, Orderly, Moved, Effect, Observed, Enabled, Flows;
    var l, s' := s.lanes[k], Apply(s, Step(k, m));
    var more := Observed(s, l, m);
    EffectObserved(s, l, m);
    OwnLaneTells(s, k, m);
    forall j | j in s'.lanes ensures LaneTells(s'.trace, s'.lanes[j]) {
      if j != k {
        assert LaneDelivers(s, j) && LaneTells(s.trace, s.lanes[j]);
        OtherLaneFrame(s.trace, more, s.lanes[j], j, s.next);
      }
    }
  }

  lemma OwnLaneTells(s: State, k: Stream, m: Move)
    requires Delivers(s) && Tells(s) && Possible(s, Step(k, m))
    ensures var l := s.lanes[k];
            && LaneTells(s.trace + Observed(s, l, m), Moved(s, l, m))
            && (l.worker.Busy? ==> l.worker.job.event.stream == k && l.worker.job.id < s.next)
            && (!l.worker.Busy? ==> Observed(s, l, m) == [])
  {
    var l := s.lanes[k];
    assert LaneDelivers(s, k) && LaneTells(s.trace, l);
    hide LaneTells, Traced, Orderly, Moved, Observed, Enabled, Flows, Delivers, Tells;
    if l.worker.Busy? {
      BusyLaneTells(s, k, l, m);
      HandBelongs(l, k, s.next);
      HandNumbered(l, k, s.next);
    } else {
      IdleLaneTells(s, l, m);
      assert s.trace + Observed(s, l, m) == s.trace;
    }
  }

  lemma HandNumbered(l: Lane, k: Stream, next: nat)
    requires Flows(l, k, next) && l.worker.Busy?
    ensures l.worker.job.id < next
  {
    assert l.accepted[|l.done|] == l.worker.job;
  }

  lemma {:induction false} FreshStory(trace: seq<Obs>, job: Job)
    requires TraceNumbered(trace, job.id)
    ensures Story(trace, job) == []
    decreases |trace|
  {
    if trace != [] {
      FreshStory(trace[..|trace| - 1], job);
    }
  }

  lemma JoinTells(trace: seq<Obs>, l: Lane, k: Stream, job: Job)
    requires LaneTells(trace, l) && Flows(l, k, job.id) && TraceNumbered(trace, job.id)
    ensures LaneTells(trace + [Accepted(job)], Joined(l, job))
  {
    var more := [Accepted(job)];
    hide Flows, Told, Ended, Lost;
    OtherLaneFrame(trace, more, l, k, job.id);
    FreshStory(trace, job);
    StoryLater(trace, more, job);
  }

  lemma EnqueueTells(s: State, e: Event)
    requires Delivers(s) && Tells(s)
    ensures Tells(ApplyEnqueue(s, e))
  {
    if Accepts(s, e) {
      var job, l, s' := Job(s.next, e), LaneFor(s, e.stream), ApplyEnqueue(s, e);
      LaneForDelivers(s, e.stream);
      NewLaneTells(s, e.stream);
      hide Flows, Traced, LaneTells, Orderly;
      JoinTells(s.trace, l, e.stream, job);
      forall j | j in s'.lanes ensures LaneTells(s'.trace, s'.lanes[j]) {
        if j != e.stream {
          assert LaneDelivers(s, j) && LaneTells(s.trace, s.lanes[j]);
          OtherLaneFrame(s.trace, [Accepted(job)], s.lanes[j], j, s.next);
        }
      }
    }
  }

  lemma NewLaneTells(s: State, k: Stream)
    requires Tells(s)
    ensures LaneTells(s.trace, LaneFor(s, k))
  {
    assert k in s.lanes ==> LaneTells(s.trace, s.lanes[k]);
  }

  lemma CancelTells(s: State, k: Stream, matches: bool)
    requires Accounts(s) && Delivers(s) && Tells(s)
    ensures Tells(ApplyCancel(s, k, matches))
  {
    if k in s.lanes && s.lanes[k].turns != [] && matches {
      var s', job := ApplyCancel(s, k, matches), s.lanes[k].turns[0];
      FirstTurnNumbered(s, k);
      hide Accounts, Delivers, LaneTells;
      forall j | j in s'.lanes ensures LaneTells(s'.trace, s'.lanes[j]) {
        LaneFrame(s.trace, [Asked(job)], s.lanes[j]);
      }
    }
  }

  lemma FirstTurnNumbered(s: State, k: Stream)
    requires Accounts(s) && Delivers(s) && k in s.lanes && s.lanes[k].turns != []
    ensures s.lanes[k].turns[0].id < s.next
  {
    var l := s.lanes[k];
    assert Shaped(l) && LaneDelivers(s, k);
    var a: nat := if Hand(l.worker) == InHand(l.worker) then 0 else 1;
    assert Open(l)[a] == l.turns[0];
    hide Accounts, Delivers, Traced;
    OpenAreNumbered(l, k, s.next, a);
  }

  lemma StepTells(s: State, a: Action)
    requires Accounts(s) && Delivers(s) && Tells(s) && Possible(s, a)
    ensures Tells(Apply(s, a))
  {
    match a
    case Enqueue(e) => EnqueueTells(s, e);
    case Cancel(k, matches) => CancelTells(s, k, matches);
    case Stop =>
    case Step(k, m) => MoveStepTells(s, k, m);
  }

  lemma {:induction false} RunTells(s: State, run: seq<Action>)
    requires Accounts(s) && Delivers(s) && Tells(s) && PossibleRun(s, run)
    ensures Tells(Final(s, run)) && Delivers(Final(s, run))
    decreases |run|
  {
    if run != [] {
      StepAccounts(s, run[0]);
      StepDelivers(s, run[0]);
      StepTells(s, run[0]);
      hide Accounts, Delivers, Tells, Apply, Possible;
      RunTells(Apply(s, run[0]), run[1..]);
    }
  }

  /** After any run every turn is somewhere in one of the three stories. */
  lemma SessionTells(run: seq<Action>)
    requires PossibleRun(INITIAL, run)
    ensures Tells(Final(INITIAL, run)) && Delivers(Final(INITIAL, run))
  {
    RunTells(INITIAL, run);
  }

  // ---------------------------------------------------------------- what a closing means

  ghost predicate Unclosed(story: seq<Obs>) {
    forall i | 0 <= i < |story| :: !story[i].Closed?
  }

  lemma ReadyUnclosed(story: seq<Obs>, job: Job, p: Prepared)
    requires ReadyStory(story, job, p)
    ensures Unclosed(story) && forall i | 0 <= i < |story| :: !story[i].Settled?
  {
    assert story[0] == story[..2][0] && story[1] == story[..2][1];
  }

  lemma ServedUnclosed(story: seq<Obs>, job: Job, p: Prepared, o: Outcome, flag: bool)
    requires ServedStory(story, job, p, o, flag)
    ensures Unclosed(story) && forall i | 0 <= i < |story| :: !story[i].Settled?
  {
    assert story[..4][..3] == story[..3];
    ReadyUnclosed(story[..3], job, p);
    assert story[3] == story[..4][3];
    assert forall i | 0 <= i < 3 :: story[i] == story[..3][i];
  }

  lemma DeniedUnclosed(story: seq<Obs>, job: Job)
    requires DeniedStory(story, job)
    ensures Unclosed(story) && forall i | 0 <= i < |story| :: !story[i].Settled?
  {
    if |story| == 3 {
      assert story[0] == story[..2][0] && story[1] == story[..2][1];
    } else {
      ReadyUnclosed(story[..3], job, story[2].p);
      assert forall i | 0 <= i < 3 :: story[i] == story[..3][i];
    }
  }

  /** Before the decision nothing is closed, and the only settlement there can be is the deciding one. */
  lemma DecisionUnclosed(story: seq<Obs>, job: Job, closing: Closing)
    requires Decides(story, job, closing)
    ensures Unclosed(story)
    ensures forall i | 0 <= i < |story| && story[i].Settled? :: SettledStory(story, job, closing) && i == 5
  {
    if DeniedStory(story, job) {
      DeniedUnclosed(story, job);
    } else if SettledStory(story, job, closing) {
      var how := story[5].how;
      ServedUnclosed(story[..5], job, how.p, how.o, how.flag);
      assert forall i | 0 <= i < 5 :: story[i] == story[..5][i];
    }
  }

  lemma LostUnclosed(story: seq<Obs>, job: Job)
    requires Lost(story, job)
    ensures Unclosed(story)
  {
    hide Decides, ServedStory;
    if closing :| DecidedThen(story, job, closing, [Released(job)]) {
      var n := |story| - 1;
      DecisionUnclosed(story[..n], job, closing);
      assert story[n] == story[n..][0];
      assert forall i | 0 <= i < n :: story[i] == story[..n][i];
    } else {
      var p, o, flag :| LeftStory(story, job, p, o, flag);
      ServedUnclosed(story[..5], job, p, o, flag);
      assert forall i | 0 <= i < 5 :: story[i] == story[..5][i];
    }
  }

  lemma ClosedStoryOf(story: seq<Obs>, job: Job, c: Closing)
    requires (Ended(story, job) || Lost(story, job)) && Closed(job, c) in story
    ensures DecidedThen(story, job, c, [Released(job), Closed(job, c)])
  {
    if Lost(story, job) {
      LostUnclosed(story, job);
    }
    hide Lost, Decides;
    var closing :| DecidedThen(story, job, closing, [Released(job), Closed(job, closing)]);
    var n := |story| - 2;
    DecisionUnclosed(story[..n], job, closing);
    assert story[n] == story[n..][0] && story[n + 1] == story[n..][1];
    var i :| 0 <= i < |story| && story[i] == Closed(job, c);
    assert forall j | 0 <= j < n :: story[j] == story[..n][j];
  }

  /** The whole story of a turn whose closing the client received. */
  lemma ClosedTurnStory(run: seq<Action>, j: nat)
    requires PossibleRun(INITIAL, run)
    requires var t := Final(INITIAL, run).trace; j < |t| && t[j].Closed?
    ensures var t := Final(INITIAL, run).trace;
            DecidedThen(Story(t, t[j].job), t[j].job, t[j].closing, [Released(t[j].job), t[j]])
  {
    SessionTells(run);
    var s := Final(INITIAL, run);
    var job := s.trace[j].job;
    hide Final, PossibleRun, LaneDelivers, Orderly, Story, Ended, Lost, DecidedThen;
    ClosedIsDone(s, j);
    InStory(s.trace, j);
    var l := s.lanes[job.event.stream];
    assert LaneTells(s.trace, l);
    var i :| 0 <= i < |l.done| && l.done[i] == job;
    ClosedStoryOf(Story(s.trace, job), job, s.trace[j].closing);
  }

  /**
    A settled turn is closed by what it came to: its terminal event when the relay succeeded, the
    stream was clean and whole; otherwise as cancelled exactly when the cancel flag had been read.
   */
  lemma SettledThenClosed(run: seq<Action>, i: nat, j: nat)
    requires PossibleRun(INITIAL, run)
    requires var t := Final(INITIAL, run).trace; i < |t| && j < |t| && t[i].Settled? && t[j].Closed? && t[i].job == t[j].job
    ensures var t := Final(INITIAL, run).trace;
            var how, closing := t[i].how, t[j].closing;
            && (closing == Terminal <==> how.o.success && how.o.clean && how.o.whole)
            && (closing == Cancelled <==> !(how.o.success && how.o.clean && how.o.whole) && how.flag)
  {
    ClosedTurnStory(run, j);
    var t := Final(INITIAL, run).trace;
    hide Final, PossibleRun, Story;
    InStory(t, i);
    DecisionSettled(Story(t, t[j].job), t[j].job, t[i].how, t[j].closing);
  }

  lemma DecisionSettled(story: seq<Obs>, job: Job, how: Settlement, closing: Closing)
    requires DecidedThen(story, job, closing, [Released(job), Closed(job, closing)]) && Settled(job, how) in story
    ensures closing == if how.o.success && how.o.clean && how.o.whole then Terminal else if how.flag then Cancelled else Failed
  {
    hide Decides, ServedStory;
    var n := |story| - 2;
    DecisionUnclosed(story[..n], job, closing);
    assert story[n] == story[n..][0] && story[n + 1] == story[n..][1];
    var i :| 0 <= i < |story| && story[i] == Settled(job, how);
    assert story[..n][i] == Settled(job, how);
  }

  // ---------------------------------------------------------------- cancel requests and denials

  ghost predicate AskedBefore(trace: seq<Obs>, n: nat, job: Job)
    requires n <= |trace|
  {
    exists i :: 0 <= i < n && trace[i] == Asked(job)
  }

  lemma AskedLater(trace: seq<Obs>, o: Obs, n: nat, job: Job)
    requires n <= |trace|
    ensures AskedBefore(trace + [o], n, job) <==> AskedBefore(trace, n, job)
    ensures AskedBefore(trace + [o], |trace| + 1, job) <==> AskedBefore(trace, |trace|, job) || o == Asked(job)
  {
    var t := trace + [o];
    assert forall i | 0 <= i < |trace| :: t[i] == trace[i];
    assert t[|trace|] == o;
  }

  /** The cause given for a denial was there. */
  predicate Holds(job: Job, cause: Cause) {
    match cause
    case Unprepared(met, length, limit) => Prepare(met, job.event.request, length, limit).Refused?
    case OverBudget(held, extra) => held + extra > 16777216
  }

  /**
    A flag was read as set exactly when a cancel had been accepted for the turn; none had when it
    began; one had when it was closed as cancelled; and a denied turn had its cause.
   */
  ghost predicate TrueAt(trace: seq<Obs>, i: nat)
    requires i < |trace|
  {
    match trace[i]
    case Read(job, flag) => flag <==> AskedBefore(trace, i, job)
    case Began(job) => !AskedBefore(trace, i, job)
    case Closed(job, closing) => closing == Cancelled ==> AskedBefore(trace, i, job)
    case Denied(job, cause) => Holds(job, cause)
    case Readied(job, met, length, limit, p) => IsPrepared(job, met, length, limit, p)
    case _ => true
  }

  /** The turn goes on with what preparing its request gave, and is charged for what that added. */
  predicate IsPrepared(job: Job, met: HistoryView, length: nat, limit: nat, p: Prepared) {
    && Prepare(met, job.event.request, length, limit) == Ready(p.input, p.replayable)
    && p.extra == if length > job.event.body then length - job.event.body else 0
  }

  predicate WorkerAsked(alive: bool, cancelled: set<Job>, w: Worker) {
    w.Busy? ==>
      && ((w.pc.Flagged? || w.pc.Storing?) && w.pc.cancelled ==> w.job in cancelled)
      && (alive && (w.pc.Releasing? || w.pc.Finishing?) && w.pc.closing.Cancelled? ==> w.job in cancelled)
  }

  ghost predicate FlagsAreRequests(s: State) {
    forall job: Job :: job in s.cancelled <==> AskedBefore(s.trace, |s.trace|, job)
  }

  ghost predicate TrueTrace(trace: seq<Obs>) {
    forall i | 0 <= i < |trace| :: TrueAt(trace, i)
  }

  ghost predicate Honest(s: State) {
    && FlagsAreRequests(s) && TrueTrace(s.trace)
    && forall k | k in s.lanes :: WorkerAsked(s.alive, s.cancelled, s.lanes[k].worker)
  }

  lemma TrueLater(trace: seq<Obs>, o: Obs)
    requires TrueTrace(trace)
    requires match o
             case Read(job, flag) => flag <==> AskedBefore(trace, |trace|, job)
             case Began(job) => !AskedBefore(trace, |trace|, job)
             case Closed(job, closing) => closing == Cancelled ==> AskedBefore(trace, |trace|, job)
             case Denied(job, cause) => Holds(job, cause)
             case Readied(job, met, length, limit, p) => IsPrepared(job, met, length, limit, p)
             case _ => true
    ensures TrueTrace(trace + [o])
  {
    var t := trace + [o];
    hide AskedBefore, Holds, IsPrepared;
    forall i | 0 <= i < |t| ensures TrueAt(t, i) {
      AskedLater(trace, o, i, t[i].job);
      assert i < |trace| ==> t[i] == trace[i] && TrueAt(trace, i);
    }
  }

  lemma FlagsLater(s: State, s': State, o: Obs)
    requires FlagsAreRequests(s) && s'.trace == s.trace + [o]
    requires s'.cancelled == if o.Asked? then s.cancelled + {o.job} else s.cancelled
    ensures FlagsAreRequests(s')
  {
    hide AskedBefore;
    forall job: Job ensures job in s'.cancelled <==> AskedBefore(s'.trace, |s'.trace|, job) {
      AskedLater(s.trace, o, |s.trace|, job);
    }
  }

  lemma MoveAsked(s: State, l: Lane, m: Move)
    requires Enabled(s, l, m) && WorkerAsked(s.alive, s.cancelled, l.worker)
    ensures WorkerAsked(Effect(s, l, m).alive, s.cancelled, Moved(s, l, m).worker)
    ensures Effect(s, l, m).cancelled == s.cancelled
  {
  }

  lemma MoveTrue(s: State, l: Lane, m: Move)
    requires Enabled(s, l, m) && WorkerAsked(s.alive, s.cancelled, l.worker) && FlagsAreRequests(s) && TrueTrace(s.trace)
    ensures TrueTrace(s.trace + Observed(s, l, m))
  {
    if Observed(s, l, m) == [] {
      assert s.trace + Observed(s, l, m) == s.trace;
    } else {
      EffectObserved(s, l, m);
      hide TrueTrace, AskedBefore, Effect, SettlementOf;
      assert Observed(s, l, m) == [Observed(s, l, m)[0]];
      TrueLater(s.trace, Observed(s, l, m)[0]);
    }
  }

  lemma MoveHonest(s: State, k: Stream, m: Move)
    requires Honest(s) && Possible(s, Step(k, m))
    ensures Honest(Apply(s, Step(k, m)))
  {
    var l, s' := s.lanes[k], Apply(s, Step(k, m));
    hide TrueTrace, FlagsAreRequests, Effect, Moved, Enabled, Observed;
    EffectObserved(s, l, m);
    MoveAsked(s, l, m);
    MoveTrue(s, l, m);
    if Observed(s, l, m) == [] {
      assert s'.trace == s.trace;
      SameFlags(s, s');
    } else {
      assert Observed(s, l, m) == [Observed(s, l, m)[0]];
      FlagsLater(s, s', Observed(s, l, m)[0]);
    }
  }

  lemma SameFlags(s: State, s': State)
    requires FlagsAreRequests(s) && s'.trace == s.trace && s'.cancelled == s.cancelled
    ensures FlagsAreRequests(s')
  {
  }

  lemma ReaderHonest(s: State, a: Action)
    requires Honest(s) && Possible(s, a) && !a.Step?
    ensures Honest(Apply(s, a))
  {
    var s' := Apply(s, a);
    hide TrueTrace, FlagsAreRequests;
    if s'.trace == s.trace {
      SameFlags(s, s');
    } else {
      var o := s'.trace[|s.trace|];
      assert s'.trace == s.trace + [o] && (o.Asked? || o.Accepted?);
      FlagsLater(s, s', o);
      TrueLater(s.trace, o);
    }
  }

  lemma {:induction false} RunHonest(s: State, run: seq<Action>)
    requires Honest(s) && PossibleRun(s, run)
    ensures Honest(Final(s, run))
    decreases |run|
  {
    if run != [] {
      if run[0].Step? {
        MoveHonest(s, run[0].stream, run[0].move);
      } else {
        ReaderHonest(s, run[0]);
      }
      hide Honest, Apply, Possible;
      RunHonest(Apply(s, run[0]), run[1..]);
    }
  }

  /** After any run: flags read, beginnings, cancelled closings and denials are as the cancels and budgets had it. */
  lemma SessionHonest(run: seq<Action>)
    requires PossibleRun(INITIAL, run)
    ensures TrueTrace(Final(INITIAL, run).trace)
  {
    RunHonest(INITIAL, run);
  }
}

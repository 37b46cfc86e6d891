/**
  What the stored snapshots mean.  The ledger lists every remembered turn with what it continued
  and what it added.  After any run each snapshot still in the history is the whole conversation
  along its parent chain, whichever lanes stored the parts and whether or not the ancestors are
  still in the history.
 */
module ResponsesReplay {
  import opened Options
  import opened ResponsesHistory
  import opened ResponsesSession

  /** Parents come earlier and are the response the turn continued; a turn without one starts a conversation. */
  ghost predicate Linked(ledger: seq<Node>) {
    forall i | 0 <= i < |ledger| :: LinkedAt(ledger, i)
  }

  predicate LinkedAt(ledger: seq<Node>, i: nat)
    requires i < |ledger|
  {
    && ledger[i].id != BLANK
    && if ledger[i].parent.Some? then ledger[i].parent.value < i && ledger[ledger[i].parent.value].id == ledger[i].previous
       else ledger[i].previous == BLANK
  }

  /** The conversation up to and including turn `i`. */
  ghost function Full(ledger: seq<Node>, i: nat): seq<Item>
    requires Linked(ledger) && i < |ledger|
    decreases i
  {
    assert LinkedAt(ledger, i);
    FullBase(ledger, ledger[i].parent, i) + ledger[i].own + ledger[i].output
  }

  ghost function FullBase(ledger: seq<Node>, base: Option<nat>, bound: nat): seq<Item>
    requires Linked(ledger) && bound <= |ledger| && (base.Some? ==> base.value < bound)
    decreases bound, 0
  {
    if base.Some? then Full(ledger, base.value) else []
  }

  // ---------------------------------------------------------------- invariant

  /** The turn's input is the conversation it continues followed by its own items. */
  ghost predicate Continues(ledger: seq<Node>, job: Job, p: Prepared)
    requires Linked(ledger)
  {
    var r := job.event.request;
    && r.own.Some? && r.previous.Some?
    && (if p.base.Some? then p.base.value < |ledger| && ledger[p.base.value].id == r.previous.value
        else r.previous.value == BLANK)
    && p.input == FullBase(ledger, p.base, |ledger|) + r.own.value
  }

  /** Positions of a worker that hold a prepared turn. */
  predicate Holds(pc: Pc) {
    pc.Charging? || pc.Serving? || pc.Served? || pc.Flagged? || pc.Storing?
  }

  ghost predicate WorkerContinues(ledger: seq<Node>, w: Worker)
    requires Linked(ledger)
  {
    w.Busy? && Holds(w.pc) && w.pc.p.replayable ==> Continues(ledger, w.job, w.pc.p)
  }

  ghost predicate Snapshots(ledger: seq<Node>, origin: map<Id, nat>, items: map<Id, Snapshot>)
    requires Linked(ledger)
  {
    forall id | id in items :: Traces(ledger, origin, id, items[id].input)
  }

  ghost predicate Traces(ledger: seq<Node>, origin: map<Id, nat>, id: Id, input: seq<Item>)
    requires Linked(ledger)
  {
    && id in origin && origin[id] < |ledger|
    && ledger[origin[id]].id == id
    && input == Full(ledger, origin[id])
  }

  ghost predicate Replays(s: State) {
    && WellKept(s.history)
    && Linked(s.ledger)
    && Snapshots(s.ledger, s.origin, s.history.items)
    && forall k | k in s.lanes :: WorkerContinues(s.ledger, s.lanes[k].worker)
  }

  // ---------------------------------------------------------------- a growing ledger

  ghost predicate Extends(ledger: seq<Node>, node: Node) {
    && node.id != BLANK
    && if node.parent.Some? then node.parent.value < |ledger| && ledger[node.parent.value].id == node.previous
       else node.previous == BLANK
  }

  lemma LinkedMore(ledger: seq<Node>, node: Node)
    requires Linked(ledger) && Extends(ledger, node)
    ensures Linked(ledger + [node])
  {
    var l := ledger + [node];
    forall i | 0 <= i < |l| ensures LinkedAt(l, i) {
      assert i < |ledger| ==> LinkedAt(ledger, i);
    }
  }

  lemma {:induction false} FullMore(ledger: seq<Node>, node: Node, i: nat)
    requires Linked(ledger) && Linked(ledger + [node]) && i < |ledger|
    ensures Full(ledger + [node], i) == Full(ledger, i)
    decreases i
  {
    assert LinkedAt(ledger, i);
    if ledger[i].parent.Some? {
      FullMore(ledger, node, ledger[i].parent.value);
    }
  }

  lemma WorkerMore(ledger: seq<Node>, node: Node, w: Worker)
    requires Linked(ledger) && Linked(ledger + [node]) && WorkerContinues(ledger, w)
    ensures WorkerContinues(ledger + [node], w)
  {
    if w.Busy? && Holds(w.pc) && w.pc.p.replayable && w.pc.p.base.Some? {
      FullMore(ledger, node, w.pc.p.base.value);
    }
  }

  lemma TracesMore(ledger: seq<Node>, node: Node, origin: map<Id, nat>, id: Id, input: seq<Item>)
    requires Linked(ledger) && Linked(ledger + [node]) && Traces(ledger, origin, id, input) && id != node.id
    ensures Traces(ledger + [node], origin[node.id := |ledger|], id, input)
  {
    FullMore(ledger, node, origin[id]);
  }

  /** The new turn's snapshot is the conversation its node ends. */
  lemma TracesNew(ledger: seq<Node>, job: Job, p: Prepared, o: Outcome, origin: map<Id, nat>)
    requires Linked(ledger) && Continues(ledger, job, p) && o.id != BLANK
    ensures Extends(ledger, NodeOf(job, p, o))
    ensures Linked(ledger + [NodeOf(job, p, o)])
    ensures Traces(ledger + [NodeOf(job, p, o)], origin[o.id := |ledger|], o.id, Kept(p.input, o.output))
  {
    var node := NodeOf(job, p, o);
    LinkedMore(ledger, node);
    if p.base.Some? {
      FullMore(ledger, node, p.base.value);
    }
    var l := ledger + [node];
    assert LinkedAt(l, |ledger|);
    assert Full(l, |ledger|) == FullBase(l, node.parent, |ledger|) + node.own + node.output;
    assert p.input + node.output == FullBase(l, node.parent, |ledger|) + node.own + node.output;
  }

  // ---------------------------------------------------------------- steps

  /** Storing a snapshot keeps only entries it had, plus the new one. */
  lemma RememberedItems(h: HistoryView, id: Id, input: seq<Item>, output: Option<seq<Item>>, warmup: bool)
    requires Storable(h, id, input, output, warmup)
    ensures var items := Remembered(h, id, input, output, warmup).items;
            && id in items && items[id].input == Kept(input, output)
            && forall j | j in items && j != id :: j in h.items && items[j] == h.items[j]
  {
    hide ByteCount, Keys, SizeSum;
  }

  lemma StoreSnapshots(s: State, job: Job, p: Prepared, o: Outcome)
    requires Replays(s) && Continues(s.ledger, job, p) && Stores(s.history, job, p, o)
    ensures var s' := ApplyStore(s, job, p, o);
            WellKept(s'.history) && Linked(s'.ledger) && Snapshots(s'.ledger, s'.origin, s'.history.items)
  {
    var s', node := ApplyStore(s, job, p, o), NodeOf(job, p, o);
    RememberedKept(s.history, o.id, p.input, o.output, job.event.warmup);
    RememberedItems(s.history, o.id, p.input, o.output, job.event.warmup);
    hide WellKept, Remembered, Storable, WorkerContinues, Linked, Full;
    TracesNew(s.ledger, job, p, o, s.origin);
    hide Traces, Extends, Continues;
    forall id | id in s'.history.items ensures Traces(s'.ledger, s'.origin, id, s'.history.items[id].input) {
      if id != o.id {
        TracesMore(s.ledger, node, s.origin, id, s.history.items[id].input);
      }
    }
  }

  lemma StoreReplays(s: State, job: Job, p: Prepared, o: Outcome)
    requires Replays(s) && (p.replayable ==> Continues(s.ledger, job, p))
    ensures Replays(ApplyStore(s, job, p, o))
  {
    if Stores(s.history, job, p, o) {
      StoreSnapshots(s, job, p, o);
      hide WellKept, Remembered, Storable, WorkerContinues, Linked, Snapshots, Continues;
      forall k | k in s.lanes ensures WorkerContinues(ApplyStore(s, job, p, o).ledger, s.lanes[k].worker) {
        WorkerMore(s.ledger, NodeOf(job, p, o), s.lanes[k].worker);
      }
    }
  }

  /** A prepared turn that can be replayed continues the conversation of its parent. */
  lemma PrepareContinues(s: State, job: Job, length: nat, limit: nat)
    requires Replays(s)
    ensures var r := Prepare(s.history, job.event.request, length, limit);
            r.Ready? && r.replayable ==>
              Continues(s.ledger, job, Prepared(r.input, true, BaseOf(s, job.event.request), Max0(length - job.event.body)))
  {
    hide WellKept, WorkerContinues, Linked, Full;
    var q := job.event.request;
    if q.previous.Some? && q.previous.value in s.history.items {
      assert Traces(s.ledger, s.origin, q.previous.value, s.history.items[q.previous.value].input);
    }
  }

  /** The moving worker's turn still continues its conversation; the ledger may have grown meanwhile. */
  lemma MoveContinues(s: State, l: Lane, m: Move)
    requires Replays(s) && Enabled(s, l, m) && WorkerContinues(s.ledger, l.worker)
    ensures !m.Store? ==> WorkerContinues(s.ledger, Moved(s, l, m).worker)
    ensures m.Store? ==> !Holds(Moved(s, l, m).worker.pc)
  {
    if m.PrepareTurn? {
      PrepareContinues(s, l.worker.job, m.length, m.limit);
    }
    hide Replays, Continues, Linked;
  }

  lemma EffectHistory(s: State, l: Lane, m: Move)
    requires Enabled(s, l, m)
    ensures var e := Effect(s, l, m);
            if m.Store? then
              var s' := ApplyStore(s, l.worker.job, l.worker.pc.p, l.worker.pc.o);
              e.history == s'.history && e.ledger == s'.ledger && e.origin == s'.origin
            else e.history == s.history && e.ledger == s.ledger && e.origin == s.origin
  {
  }

  lemma MoveReplays(s: State, k: Stream, m: Move)
    requires Replays(s) && Possible(s, Step(k, m))
    ensures Replays(Apply(s, Step(k, m)))
  {
    var l := s.lanes[k];
    MoveContinues(s, l, m);
    EffectHistory(s, l, m);
    if m.Store? {
      StoreReplays(s, l.worker.job, l.worker.pc.p, l.worker.pc.o);
    }
    hide WellKept, Linked, Snapshots, Continues, Effect, ApplyStore;
  }

  lemma StepReplays(s: State, a: Action)
    requires Replays(s) && Possible(s, a)
    ensures Replays(Apply(s, a))
  {
    match a
    case Enqueue(e) => hide WellKept, Linked, Snapshots, Continues;
    case Cancel(_, _) => hide WellKept, Linked, Snapshots, Continues;
    case Stop => hide WellKept, Linked, Snapshots, Continues;
    case Step(k, m) => MoveReplays(s, k, m);
  }

  lemma {:induction false} RunReplays(s: State, run: seq<Action>)
    requires Replays(s) && PossibleRun(s, run)
    ensures Replays(Final(s, run))
    decreases |run|
  {
    if run != [] {
      StepReplays(s, run[0]);
      hide Replays, Apply, Possible;
      RunReplays(Apply(s, run[0]), run[1..]);
    }
  }

  /** After any run the history is well kept and every snapshot in it is a whole conversation. */
  lemma SessionReplays(run: seq<Action>)
    requires PossibleRun(INITIAL, run)
    ensures Replays(Final(INITIAL, run))
  {
    RunReplays(INITIAL, run);
  }

  // ---------------------------------------------------------------- walking by response ID

  /** The conversation found by following `previous_response_id` back through the first `n` turns. */
  function Walk(ledger: seq<Node>, n: nat, id: Id): seq<Item>
    requires n <= |ledger|
  {
    if n == 0 then []
    else if ledger[n - 1].id == id then Walk(ledger, n - 1, ledger[n - 1].previous) + ledger[n - 1].own + ledger[n - 1].output
    else Walk(ledger, n - 1, id)
  }

  ghost predicate NotReused(ledger: seq<Node>) {
    forall i, j | 0 <= i < j < |ledger| :: ledger[i].id != ledger[j].id
  }

  lemma {:induction false} BlankLeadsNowhere(ledger: seq<Node>, n: nat)
    requires Linked(ledger) && n <= |ledger|
    ensures Walk(ledger, n, BLANK) == []
    decreases n
  {
    if n > 0 {
      assert LinkedAt(ledger, n - 1);
      BlankLeadsNowhere(ledger, n - 1);
    }
  }

  lemma {:induction false} WalkIsFull(ledger: seq<Node>, n: nat, i: nat)
    requires Linked(ledger) && NotReused(ledger) && i < n <= |ledger|
    ensures Walk(ledger, n, ledger[i].id) == Full(ledger, i)
    decreases n
  {
    if i < n - 1 {
      WalkIsFull(ledger, n - 1, i);
    } else {
      assert LinkedAt(ledger, i);
      if ledger[i].parent.Some? {
        WalkIsFull(ledger, n - 1, ledger[i].parent.value);
      } else {
        BlankLeadsNowhere(ledger, n - 1);
      }
    }
  }

  /** With response IDs not reused, each snapshot in the history is what walking its IDs back through the session finds. */
  lemma SnapshotIsConversation(run: seq<Action>, id: Id)
    requires PossibleRun(INITIAL, run)
    requires var s := Final(INITIAL, run); NotReused(s.ledger) && id in s.history.items
    ensures var s := Final(INITIAL, run); s.history.items[id].input == Walk(s.ledger, |s.ledger|, id)
  {
    SessionReplays(run);
    var s := Final(INITIAL, run);
    hide Final, PossibleRun, WellKept, WorkerContinues, Linked, NotReused;
    assert Traces(s.ledger, s.origin, id, s.history.items[id].input);
    WalkIsFull(s.ledger, |s.ledger|, s.origin[id]);
  }

  // ---------------------------------------------------------------- preparing and storing, exactly

  /**
    A request that names a response in the history is sent its whole conversation and stays
    replayable; with response IDs not reused that is what walking the IDs back finds.
  */
  lemma KnownParentReplayed(run: seq<Action>, r: Request, length: nat, limit: nat)
    requires PossibleRun(INITIAL, run)
    requires r.own.Some? && length <= limit
    requires var s := Final(INITIAL, run); r.previous.Some? && r.previous.value != BLANK && r.previous.value in s.history.items
    ensures var s := Final(INITIAL, run);
            var id := r.previous.value;
            && id in s.origin && s.origin[id] < |s.ledger| && s.ledger[s.origin[id]].id == id
            && Linked(s.ledger)
            && Prepare(s.history, r, length, limit) == Ready(Full(s.ledger, s.origin[id]) + r.own.value, true)
            && (NotReused(s.ledger) ==> Full(s.ledger, s.origin[id]) == Walk(s.ledger, |s.ledger|, id))
  {
    var s, id := Final(INITIAL, run), r.previous.value;
    SessionReplays(run);
    hide Final, PossibleRun, WellKept, WorkerContinues, Linked, NotReused, Walk, Full;
    assert Traces(s.ledger, s.origin, id, s.history.items[id].input);
    if NotReused(s.ledger) {
      WalkIsFull(s.ledger, |s.ledger|, s.origin[id]);
    }
  }

  /**
    The other requests: one that did not parse or encodes too long is refused; one without a parent
    is sent as it is, replayable; one with an unknown parent is refused exactly when it forbids
    storing, and otherwise sent as it is and not replayable.
   */
  lemma PrepareOtherwise(h: HistoryView, r: Request, length: nat, limit: nat)
    ensures var p := Prepare(h, r, length, limit);
            && (r.own.None? || r.previous.None? || length > limit ==> p == Refused)
            && (r.own.Some? && r.previous == Some(BLANK) && length <= limit ==> p == Ready(r.own.value, true))
            && (r.own.Some? && r.previous.Some? && r.previous.value != BLANK && r.previous.value !in h.items && length <= limit ==>
                  p == if r.forbidsStore then Refused else Ready(r.own.value, false))
  {
  }

  /**
    A successful, clean and replayable turn with a new response ID and something to keep within
    16 MiB is in the history after its history step, with its input and output; any other turn
    leaves the history as it is.
   */
  lemma StoreExact(s: State, job: Job, p: Prepared, o: Outcome)
    ensures var h := ApplyStore(s, job, p, o).history;
            var kept := if o.output.Some? then p.input + o.output.value else p.input;
            if o.success && o.clean && p.replayable && o.id != BLANK && o.id !in s.history.items
               && (o.output.Some? || job.event.warmup) && ByteCount(kept) <= 16777216
            then o.id in h.items && h.items[o.id].input == kept && h.order != [] && h.order[|h.order| - 1] == o.id
            else h == s.history
  {
    if Stores(s.history, job, p, o) {
      RememberedItems(s.history, o.id, p.input, o.output, job.event.warmup);
    }
    hide ByteCount, Needed, DropOldest;
  }
}

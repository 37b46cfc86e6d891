/**
  The session object: the critical sections its reader and workers run under the session lock.
  Each is one step of the state machine, so what every run keeps holds between them.
 */
module ResponsesSessionObject {
  import opened ResponsesHistory
  import opened ResponsesSession
  import opened ResponsesAccounting

  datatype Answer = Queued | StreamLimitReached | QueueFull

  lemma ChargeForm(s: State, k: Stream)
    requires Possible(s, Step(k, Charge))
    ensures var l := s.lanes[k]; var w := l.worker; var extra := w.pc.p.extra;
            Apply(s, Step(k, Charge)) ==
              if s.bytes + extra > MAX_BUFFERED then
                s.(lanes := s.lanes[k := At(l, Releasing(Failed))], trace := s.trace + [Denied(w.job, OverBudget(s.bytes, extra))])
              else s.(bytes := s.bytes + extra, lanes := s.lanes[k := l.(worker := Busy(w.job, Serving(w.pc.p), w.accounted + extra))])
  {
  }

  lemma ReleaseForm(s: State, k: Stream)
    requires Possible(s, Step(k, Release)) && s.lanes[k].turns != []
    ensures var l := s.lanes[k]; var w := l.worker; var popped := l.(turns := l.turns[1..]);
            Apply(s, Step(k, Release)) ==
              s.(pending := s.pending - 1, bytes := s.bytes - w.accounted, trace := s.trace + [Released(w.job)],
                 lanes := s.lanes[k := if w.pc.Leaving? then Through(popped) else At(popped, Finishing(w.pc.closing))])
  {
  }

  /** A lane's turns as a client thinks of them: the one being served, then those waiting. */
  function Unreleased(l: Lane): seq<Job> {
    Hand(l.worker) + l.queue
  }

  class Session {
    var alive: bool
    var lanes: map<Stream, Lane>
    var pending: int
    var pendingBytes: int
    var history: HistoryView
    var cancelled: set<Job>
    ghost var next: nat
    ghost var trace: seq<Obs>
    ghost var ledger: seq<Node>
    ghost var origin: map<Id, nat>

    ghost function View(): State
      reads this
    {
      State(alive, lanes, pending, pendingBytes, history, cancelled, next, trace, ledger, origin)
    }

    constructor ()
      ensures View() == INITIAL
    {
      alive, lanes, pending, pendingBytes, history, cancelled := true, map[], 0, 0, EMPTY, {};
      next, trace, ledger, origin := 0, [], [], map[];
    }

    /** Takes a create into its lane, opening the lane if need be; the queue always has a free slot for it. */
    method Enqueue(event: Event, id: nat) returns (answer: Answer)
      requires Accounts(View()) && id == next
      modifies this
      ensures View() == ApplyEnqueue(old(View()), event) && Accounts(View())
      ensures answer.Queued? <==> Accepts(old(View()), event)
      ensures answer.StreamLimitReached? <==> event.stream !in old(lanes) && |old(lanes)| >= MAX_STREAMS
    {
      hide Accounts;
      EnqueueAccounts(View(), event);
      if event.stream !in lanes && |lanes| >= MAX_STREAMS {
        return StreamLimitReached;
      }
      if pending >= MAX_PENDING || pendingBytes + event.body > MAX_BUFFERED {
        return QueueFull;
      }
      var lane := if event.stream in lanes then lanes[event.stream] else Lane([], [], Idle, [], []);
      assert |lane.queue| < MAX_PENDING by {
        EnqueueNeverBlocks(View(), event);
      }
      pending := pending + 1;
      pendingBytes := pendingBytes + event.body;
      var active := Job(id, event);
      lanes := lanes[event.stream := Joined(lane, active)];
      next, trace := next + 1, trace + [Accepted(active)];
      return Queued;
    }

    /** Flags the turn the worker has not released or, if it holds none, the first in the queue, when it is the one meant. */
    method CancelTurn(stream: Stream, matches: bool) returns (found: bool)
      requires Accounts(View())
      modifies this`cancelled, this`trace
      ensures View() == ApplyCancel(old(View()), stream, matches) && Accounts(View())
      ensures found <==> matches && stream in lanes && Unreleased(lanes[stream]) != []
      ensures cancelled == old(cancelled) + if found then {Unreleased(lanes[stream])[0]} else {}
    {
      StepAccounts(View(), Cancel(stream, matches));
      assert stream in lanes ==> Shaped(lanes[stream]);
      hide Accounts;
      if stream !in lanes || lanes[stream].turns == [] || !matches {
        return false;
      }
      cancelled := cancelled + {lanes[stream].turns[0]};
      trace := trace + [Asked(lanes[stream].turns[0])];
      return true;
    }

    /** Charges what replaying the parent added to the turn. */
    method ChargeTurn(stream: Stream) returns (ok: bool)
      requires Accounts(View()) && Possible(View(), Step(stream, Charge))
      modifies this`lanes, this`pendingBytes, this`trace
      ensures View() == Apply(old(View()), Step(stream, Charge)) && Accounts(View())
      ensures ok <==> old(pendingBytes + lanes[stream].worker.pc.p.extra) <= MAX_BUFFERED
    {
      hide Accounts, Apply;
      StepAccounts(View(), Step(stream, Charge));
      ChargeForm(View(), stream);
      var lane := lanes[stream];
      var extra := lane.worker.pc.p.extra;
      if pendingBytes + extra > MAX_BUFFERED {
        lanes := lanes[stream := At(lane, Releasing(Failed))];
        trace := trace + [Denied(lane.worker.job, OverBudget(pendingBytes, extra))];
        return false;
      }
      pendingBytes := pendingBytes + extra;
      lanes := lanes[stream := lane.(worker := Busy(lane.worker.job, Serving(lane.worker.pc.p), lane.worker.accounted + extra))];
      return true;
    }

    /** Gives back the turn's slot and bytes and pops the turn, which is the lane's first. */
    method ReleaseTurn(stream: Stream)
      requires Accounts(View()) && Possible(View(), Step(stream, Release))
      modifies this`lanes, this`pending, this`pendingBytes, this`trace
      ensures View() == Apply(old(View()), Step(stream, Release)) && Accounts(View())
      ensures old(lanes[stream].turns) == [old(lanes[stream].worker.job)] + lanes[stream].turns
    {
      hide Accounts, Apply;
      StepAccounts(View(), Step(stream, Release));
      ReleasePopsOwnTurn(View(), stream);
      ReleaseForm(View(), stream);
      var lane := lanes[stream];
      pending := pending - 1;
      pendingBytes := pendingBytes - lane.worker.accounted;
      var popped := lane.(turns := lane.turns[1..]);
      lanes := lanes[stream := if lane.worker.pc.Leaving? then Through(popped) else At(popped, Finishing(lane.worker.pc.closing))];
      trace := trace + [Released(lane.worker.job)];
    }
  }
}

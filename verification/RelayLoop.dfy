/**
  The route and attempt loops that relay one request.  Whatever upstreams answer, hooks decide
  and the selector picks is chosen freely; the client may leave at any moment.  Only serving an
  attempt gives anything to the client.
 */
module RelayLoop {
  import opened Options
  import opened RelayFailover

  datatype Route = Route(strict: bool, retryBudget: int)

  /** The ordered targets a channel maps the requested model to, and the current one. */
  datatype Cursor = Cursor(channel: int, candidates: seq<Model>, index: nat)

  /**
    One request sent upstream: on which route and channel, with which mapped target if it stays on
    a channel, whether the client had been given anything before and whether it was already gone
    when the attempt began.
   */
  datatype Dispatch = Dispatch(route: nat, channel: int, target: Option<Model>, exposed: bool, gone: bool)

  /** What is found out about a failed attempt: retrying is wanted, whose failure it was, and whether a broken stream may be retried. */
  datatype Verdict = Verdict(wanted: bool, clientFailure: bool, streamFailure: bool, retryable: bool)

  /** Why no further attempt is made. */
  datatype Stop = Unset | Succeeded | ClientLeft | Surroundings | NoSwitch | Repeated | Declined(v: Verdict) | Spent

  /** How one pass through the attempt loop ends. */
  datatype Next = Finish | Leave | Reselect | Retry(stay: Option<int>)

  ghost predicate Fits(log: seq<Dispatch>, i: nat, records: seq<Record>, routes: seq<Route>)
    requires i < |log| == |records|
  {
    var d := log[i];
    && d.channel == records[i].channel && d.route < |routes|
    && !d.exposed && !d.gone
    && (i > 0 ==> log[i - 1].route <= d.route)
    && if d.target.Some? then
         && i > 0 && log[i - 1].channel == d.channel && log[i - 1].route == d.route && !routes[d.route].strict
         && d.target.value != NO_MODEL && !Served(records[..i], d.channel, d.target.value)
       else d.channel !in Channels(records[..i])
  }

  /**
    What the dispatches of a request look like.  None follows anything given to the client or
    starts for a client already gone; routes are taken in order; an attempt opens a channel
    unless it carries a mapped target the one just used has not served; a pinned request tries
    each route once.
   */
  ghost predicate SafeLog(log: seq<Dispatch>, records: seq<Record>, routes: seq<Route>, index: nat, pinned: bool) {
    && |log| == |records|
    && (forall i | 0 <= i < |log| :: Fits(log, i, records, routes) && log[i].route <= index)
    && (pinned ==> forall i, j | 0 <= i < j < |log| :: log[i].route < log[j].route)
  }

  lemma SafeLogMore(log: seq<Dispatch>, records: seq<Record>, routes: seq<Route>, index: nat, pinned: bool, d: Dispatch, r: Record)
    requires SafeLog(log, records, routes, index, pinned)
    requires d.channel == r.channel && d.route == index < |routes| && !d.exposed && !d.gone
    requires pinned ==> forall i | 0 <= i < |log| :: log[i].route < index
    requires if d.target.Some? then
               && log != [] && log[|log| - 1].channel == d.channel && log[|log| - 1].route == index && !routes[index].strict
               && d.target.value != NO_MODEL && !Served(records, d.channel, d.target.value)
             else d.channel !in Channels(records)
    ensures SafeLog(log + [d], records + [r], routes, index, pinned)
  {
    var log', records' := log + [d], records + [r];
    forall i | 0 <= i < |log'| ensures Fits(log', i, records', routes) && log'[i].route <= index {
      assert records'[..i] == records[..i];
      if i < |log| {
        assert Fits(log, i, records, routes);
      } else {
        assert records[..i] == records;
      }
    }
  }

  lemma SafeLogNoted(log: seq<Dispatch>, records: seq<Record>, routes: seq<Route>, index: nat, pinned: bool, i: nat, model: Model)
    requires SafeLog(log, records, routes, index, pinned) && i < |records| && i == |records| - 1
    ensures SafeLog(log, records[i := Record(records[i].channel, model)], routes, index, pinned)
  {
    var records' := records[i := Record(records[i].channel, model)];
    forall j | 0 <= j < |log| ensures Fits(log, j, records', routes) {
      assert Fits(log, j, records, routes);
      assert records'[..j] == records[..j];
    }
  }

  class Relay {
    const failover: Failover
    const routes: seq<Route>
    const pinned: bool
    var index: nat
    var retry: int
    var resetNextTry: bool
    var sanitized: bool
    var cursor: Cursor
    var failed: bool
    var advanceRoute: bool
    var unsupported: bool
    var committed: bool
    var written: bool
    var gone: bool
    ghost var exposed: bool
    ghost var cause: Stop
    ghost var fallback: bool
    ghost var log: seq<Dispatch>

    /** What holds throughout; anything given to the client still shows in the flags the loop looks at. */
    ghost predicate Valid()
      reads this, failover
    {
      && failover.Valid()
      && (exposed ==> committed || written)
      && |log| == |failover.records|
      && SafeLog(log, failover.records, routes, index, pinned)
    }

    /** Nothing has been dispatched on the current route of a pinned request. */
    ghost predicate Untried()
      reads this
    {
      pinned ==> forall i | 0 <= i < |log| :: log[i].route < index
    }

    /** The channel to stay on is the one just used, and the cursor is on a target. */
    ghost predicate MayStay(stay: Option<int>)
      reads this, failover
    {
      stay.Some? ==>
        && log != [] && log[|log| - 1].channel == stay.value && log[|log| - 1].route == index
        && index < |routes| && !routes[index].strict && cursor.index < |cursor.candidates|
    }

    constructor (routes: seq<Route>, pinned: bool)
      ensures Valid() && log == [] && !exposed && this.routes == routes && this.pinned == pinned && index == 0
      ensures fresh(failover)
    {
      failover := new Failover();
      this.routes, this.pinned, index := routes, pinned, 0;
      retry, resetNextTry, sanitized, cursor := 0, false, false, Cursor(0, [], 0);
      failed, advanceRoute, unsupported, committed, written, gone := false, false, false, false, false, false;
      exposed, cause, fallback, log := false, Unset, false, [];
    }

    /** Something stands against another channel: the verdict, the client, the budget or a pinned channel. */
    ghost predicate Blocked(v: Verdict)
      requires index < |routes|
      reads this, failover
    {
      || !v.wanted || v.clientFailure || committed || written || gone || pinned || !failover.CanAttempt()
      || (v.streamFailure && (!v.retryable || (routes[index].strict && index + 1 < |routes|)))
    }

    /** The cause given for stopping is there; only `ClientLeft`, `Surroundings`, `NoSwitch` and a strict route's `Spent` stop before any dispatch. */
    ghost predicate Justified()
      requires index < |routes|
      reads this, failover
    {
      match cause
      case Unset => false
      case Succeeded => !failed && log != []
      case ClientLeft => gone
      case Surroundings => true
      case NoSwitch => 0 < index
      case Repeated => log != []
      case Declined(v) => Blocked(v) && failed && log != []
      case Spent => !failover.CanAttempt() || (routes[index].strict && retry > routes[index].retryBudget)
    }

    /** Another route could be and is to be tried. */
    ghost predicate MoreRoutes()
      reads this, failover
    {
      && failover.CanAttempt() && index + 1 < |routes| && (advanceRoute || unsupported || fallback)
      && !committed && !written && !gone
    }

    /** Time passes: the client may leave. */
    method Elapse()
      modifies this`gone
      ensures old(gone) ==> gone
    {
      var leaves: bool := *;
      gone := gone || leaves;
    }

    /** Serves one attempt: the upstream may fail, and the client may be given something. */
    method Serve()
      modifies this`committed, this`written, this`gone, this`cursor, this`failed, this`exposed
      ensures exposed == (old(exposed) || committed || written)
      ensures old(written) ==> written
      ensures old(gone) ==> gone
    {
      var commits: bool, writes: bool, leaves: bool, fails: bool := *, *, *, *;
      var channel: int, candidates: seq<Model>, position: nat := *, *, *;
      committed, written, gone, failed := commits, written || writes, gone || leaves, fails;
      cursor := Cursor(channel, candidates, position);
      exposed := exposed || committed || written;
    }

    method IncreaseRetry()
      modifies this`retry, this`resetNextTry
      ensures retry == (if old(resetNextTry) then old(retry) else old(retry) + 1) && !resetNextTry
    {
      if resetNextTry {
        resetNextTry := false;
      } else {
        retry := retry + 1;
      }
    }

    /** Gives up the preference for thinking-capable channels, once per request. */
    method FallBackToSanitized() returns (ok: bool)
      modifies this`sanitized
      ensures ok ==> !old(sanitized) && sanitized
      ensures !ok ==> sanitized == old(sanitized)
    {
      var detected: bool := *;
      if !detected || sanitized {
        return false;
      }
      sanitized := true;
      return true;
    }

    /** Moves the cursor to the channel's next mapped target, when the rejection was harmless. */
    method NextMappedCandidate(channel: int) returns (ok: bool)
      requires failed
      modifies this`cursor
      ensures ok ==> !committed && !written && !gone && !pinned && failover.CanAttempt()
      ensures ok ==> cursor.index < |cursor.candidates| && cursor.channel == channel
      ensures cursor == if ok then old(cursor).(index := old(cursor.index) + 1) else old(cursor)
    {
      var blocked: bool, rejected: bool := *, *;
      if blocked || committed || written || gone || !failover.CanAttempt() || pinned || !rejected {
        return false;
      }
      var next := cursor.index + 1;
      if cursor.channel != channel || next >= |cursor.candidates| {
        return false;
      }
      cursor := cursor.(index := next);
      return true;
    }

    /** Starts an attempt on the budget: a new channel, or the next target on the one just used. */
    method BeginAttempt(channel: int, stay: Option<int>, ghost goneBefore: bool) returns (ok: bool)
      requires Valid() && !exposed && Untried() && MayStay(stay) && index < |routes| && !goneBefore
      requires stay.Some? ==> stay.value == channel
      modifies this`log, failover
      ensures Valid() && (!ok ==> log == old(log) && failover.attemptCount == old(failover.attemptCount))
      ensures ok ==> log != [] && log[|log| - 1].channel == channel && log[|log| - 1].route == index
      ensures ok ==> failover.attemptCount == old(failover.attemptCount) + 1
      ensures old(log) == [] && old(failover.CanAttempt()) ==> ok
    {
      ghost var records := failover.records;
      ghost var target: Option<Model> := None;
      if stay.Some? {
        target := Some(cursor.candidates[cursor.index]);
        ok := failover.BeginMappedCandidate(channel, cursor.candidates[cursor.index]);
      } else {
        ok := failover.Begin(channel);
      }
      if ok {
        ghost var d := Dispatch(index, channel, target, exposed, goneBefore);
        SafeLogMore(log, records, routes, index, pinned, d, Record(channel, NO_MODEL));
        log := log + [d];
      }
    }

    /** Sends the attempt upstream and notes the model it went to. */
    method ServeAttempt()
      requires Valid() && !exposed && log != []
      modifies this`committed, this`written, this`gone, this`cursor, this`failed, this`exposed, failover`records
      ensures Valid() && (old(gone) ==> gone)
      ensures failover.records != [] && failover.attemptCount == old(failover.attemptCount)
    {
      committed := false;
      Serve();
      var model: Model := *;
      SafeLogNoted(log, failover.records, routes, index, pinned, |failover.records| - 1, model);
      failover.NoteModel(model);
    }

    /** Whether a failed attempt is followed by another channel. */
    method DecideRetry() returns (again: bool, ghost v: Verdict)
      requires index < |routes|
      modifies this`gone, this`advanceRoute, this`unsupported
      ensures old(gone) ==> gone
      ensures again <==> !Blocked(v)
      ensures again ==> !committed && !written && !gone && !pinned && failover.CanAttempt()
      ensures v.streamFailure && v.wanted && v.retryable && !v.clientFailure && routes[index].strict && index + 1 < |routes| ==> advanceRoute
    {
      var streamFailure: bool, clientFailure: bool, capability: bool := *, *, *;
      clientFailure := clientFailure || gone;
      unsupported := !streamFailure && !clientFailure && capability;
      Elapse();
      again := *;
      var retryable: bool := *;
      v := Verdict(again, clientFailure, streamFailure, retryable);
      if clientFailure {
        again := false;
      }
      if streamFailure {
        again := again && retryable;
        if again && routes[index].strict && index + 1 < |routes| {
          advanceRoute := true;
          again := false;
        }
      }
      if committed || written {
        again := false;
      }
      if !failover.CanAttempt() || gone {
        again := false;
      }
      if pinned {
        again := false;
      }
    }

    /** Serves the attempt begun and decides how to go on. */
    method ServeAndDecide(channel: int) returns (next: Next)
      requires Valid() && !exposed && index < |routes|
      requires log != [] && log[|log| - 1].channel == channel && log[|log| - 1].route == index
      modifies this`cursor, this`failed, this`advanceRoute, this`unsupported, this`cause
      modifies this`committed, this`written, this`gone, this`exposed, failover`records
      ensures Valid() && failover.attemptCount == old(failover.attemptCount) && !next.Reselect?
      ensures next.Finish? || next.Leave? ==> Justified()
      ensures next.Finish? ==> !failed
      ensures next.Retry? ==> !exposed && Untried() && MayStay(next.stay)
    {
      hide SafeLog, Failover.Valid;
      ServeAttempt();
      if !failed {
        cause := Succeeded;
        return Finish;
      }
      if !routes[index].strict {
        var mapped := NextMappedCandidate(channel);
        if mapped {
          return Retry(Some(channel));
        }
      }
      var again, v := DecideRetry();
      cause := Declined(v);
      return if again then Retry(None) else Leave;
    }

    /** One pass through the attempt loop. */
    method TryOnce(stay: Option<int>) returns (next: Next)
      requires Valid() && !exposed && Untried() && MayStay(stay) && index < |routes| && failover.CanAttempt()
      modifies this`log, this`cause, this`sanitized, this`resetNextTry, this`cursor, this`failed, this`advanceRoute, this`unsupported
      modifies this`committed, this`written, this`gone, this`exposed, failover
      ensures Valid() && (next.Finish? || next.Leave? ==> Justified())
      ensures next.Reselect? ==> resetNextTry
      ensures next.Finish? ==> !failed || gone
      ensures next.Reselect? ==> !exposed && Untried() && failover.attemptCount == old(failover.attemptCount) && !old(sanitized) && sanitized
      ensures next.Retry? ==> !exposed && Untried() && failover.attemptCount == old(failover.attemptCount) + 1 && MayStay(next.stay)
    {
      assert log == [] ==> failover.attempted == {};
      hide SafeLog, Failover.Valid;
      if gone {
        failed, cause := true, ClientLeft;
        return Finish;
      }
      ghost var goneBefore := gone;
      Elapse();
      var selected, selectFailed := stay, false;
      if stay.None? {
        selected, selectFailed := *, *;
      }
      if selectFailed {
        cause := Surroundings;
        var reselect := FallBackToSanitized();
        if reselect {
          resetNextTry := true;
          return Reselect;
        }
        failed := true;
        return Leave;
      }
      if selected.None? || (stay.None? && selected.value in failover.attempted) {
        cause := if selected.None? then Surroundings else Repeated;
        return Leave;
      }
      var prepared: bool := *;
      if !prepared {
        failed, cause := true, Surroundings;
        return Leave;
      }
      var began := BeginAttempt(selected.value, stay, goneBefore);
      if !began {
        cause := Repeated;
        return Leave;
      }
      next := ServeAndDecide(selected.value);
    }

    /** The attempt loop of one route; true when the request is over. */
    method AttemptRoute() returns (over: bool)
      requires Valid() && !exposed && Untried() && index < |routes|
      modifies this, failover
      ensures Valid() && index == old(index) && Justified()
      ensures over ==> !failed || gone
    {
      hide SafeLog;
      var maxRetry := if routes[index].strict then routes[index].retryBudget else MAX_SWITCHES;
      retry, advanceRoute, unsupported := 0, false, false;
      var stay: Option<int> := None;
      while failover.CanAttempt() && retry <= maxRetry
        invariant Valid() && !exposed && Untried() && MayStay(stay) && index == old(index)
        invariant retry <= failover.attemptCount
        decreases failover.maxSwitches + 1 - failover.attemptCount, !sanitized
      {
        var next := TryOnce(stay);
        match next {
          case Finish => return true;
          case Leave => return false;
          case Reselect => stay := None;
          case Retry(again) => stay := again;
        }
        IncreaseRetry();
      }
      cause := Spent;
      return false;
    }

    method Advance() returns (ok: bool)
      requires Valid()
      modifies this`index
      ensures Valid() && ok == (old(index) + 1 < |routes|)
      ensures if ok then index == old(index) + 1 && Untried() else index == old(index)
    {
      if index + 1 >= |routes| {
        return false;
      }
      index := index + 1;
      return true;
    }

    /** The route loop: at most six dispatches over all routes, all of them safe. */
    method Run()
      requires Valid() && !exposed && log == [] && index == 0
      modifies this, failover
      ensures Valid() && |log| <= 6
      ensures routes != [] ==> index < |routes| && Justified() && (!failed || gone || cause == NoSwitch || !MoreRoutes())
    {
      while index < |routes|
        invariant Valid() && !exposed && Untried() && (routes != [] ==> index < |routes|)
        decreases |routes| - index
      {
        if index > 0 {
          var switchFailed: bool, skippable: bool := *, *;
          if switchFailed {
            failed, cause := true, NoSwitch;
            if skippable {
              var skipped := Advance();
              if skipped {
                continue;
              }
            }
            break;
          }
        }
        var over := AttemptRoute();
        if over || !failed {
          break;
        }
        Elapse();
        var tryFallback: bool := *;
        fallback := tryFallback;
        if !(failover.CanAttempt() && index + 1 < |routes| && (advanceRoute || unsupported || tryFallback)) {
          break;
        }
        if committed || written || gone {
          break;
        }
        var _ := Advance();
      }
    }
  }
}

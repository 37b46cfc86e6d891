/**
  One Responses WebSocket session as a state machine.  The reader enqueues and cancels, each
  lane has a worker taking its turns in order, and every step below is one critical section,
  channel operation or send of the code.  Upstream results and write failures are chosen freely.
 */
module ResponsesSession {
  import opened Options
  import opened ResponsesHistory

  const MAX_STREAMS: nat := 32
  const MAX_PENDING: nat := 32
  const MAX_BUFFERED: nat := 16777216

  datatype Stream = Stream(name: string)

  /** An accepted `response.create`: where it goes, its body length and what it asks for. */
  datatype Event = Event(stream: Stream, body: nat, request: Request, warmup: bool)
  datatype Job = Job(id: nat, event: Event)

  /** A prepared turn; `base` is where the parent's conversation ends, `extra` what its replay adds in bytes. */
  datatype Prepared = Prepared(input: seq<Item>, replayable: bool, base: Option<nat>, extra: nat)

  /** How serving ended: relay success, no writer error, a terminal event with nothing left over. */
  datatype Outcome = Outcome(success: bool, clean: bool, whole: bool, id: Id, output: Option<seq<Item>>)

  datatype Closing = Terminal | Cancelled | Failed

  /** Where a worker is inside a turn. */
  datatype Pc =
    | Taken
    | Abandoned
    | Preparing
    | Charging(p: Prepared)
    | Serving(p: Prepared)
    | Served(p: Prepared, o: Outcome)
    | Flagged(p: Prepared, o: Outcome, cancelled: bool)
    | Storing(p: Prepared, o: Outcome, cancelled: bool)
    | Releasing(closing: Closing)
    | Leaving
    | Finishing(closing: Closing)

  datatype Worker = Idle | Busy(job: Job, pc: Pc, accounted: nat) | Gone

  /** `accepted` and `done` record what the lane has taken on and what its worker is through with. */
  datatype Lane = Lane(turns: seq<Job>, queue: seq<Job>, worker: Worker, accepted: seq<Job>, done: seq<Job>)

  /** The history step of a turn: what it had to store, the cancel flag read, the history it met and the ledger position of what it stored. */
  datatype Settlement = Settlement(p: Prepared, o: Outcome, flag: bool, met: HistoryView, at: Option<nat>)

  /** Why a turn was not served: its request could not be prepared, or its replay did not fit the byte budget. */
  datatype Cause = Unprepared(met: HistoryView, length: nat, limit: nat) | OverBudget(held: int, extra: nat)

  /** What happened, in order.  `Partial` and `Closed` are messages the client received. */
  datatype Obs =
    | Accepted(job: Job)
    | Asked(job: Job)
    | Began(job: Job)
    | Readied(job: Job, met: HistoryView, length: nat, limit: nat, p: Prepared)
    | Denied(job: Job, cause: Cause)
    | Partial(job: Job)
    | Answered(job: Job, o: Outcome)
    | Read(job: Job, flag: bool)
    | Settled(job: Job, how: Settlement)
    | Released(job: Job)
    | Closed(job: Job, closing: Closing)

  /** A remembered turn: its response, the response it continued and what it added. */
  datatype Node = Node(id: Id, previous: Id, parent: Option<nat>, own: seq<Item>, output: seq<Item>)

  datatype State = State(
    alive: bool,
    lanes: map<Stream, Lane>,
    pending: int,
    bytes: int,
    history: HistoryView,
    cancelled: set<Job>,
    next: nat,
    trace: seq<Obs>,
    ledger: seq<Node>,
    origin: map<Id, nat>)

  const INITIAL := State(true, map[], 0, 0, EMPTY, {}, 0, [], [], map[])

  datatype Move =
    | Exit | Take | Abandon | Begin | PrepareTurn(length: nat, limit: nat) | Charge
    | Emit(delivered: bool) | Serve(o: Outcome) | ReadFlag | Check | Store | Release | Finish(delivered: bool)

  datatype Action = Enqueue(event: Event) | Cancel(stream: Stream, matches: bool) | Stop | Step(stream: Stream, move: Move)

  // ---------------------------------------------------------------- the reader

  predicate Accepts(s: State, e: Event) {
    && (e.stream in s.lanes || |s.lanes| < MAX_STREAMS)
    && s.pending < MAX_PENDING
    && s.bytes + e.body <= MAX_BUFFERED
  }

  function LaneFor(s: State, k: Stream): Lane {
    if k in s.lanes then s.lanes[k] else Lane([], [], Idle, [], [])
  }

  function ApplyEnqueue(s: State, e: Event): State {
    if !Accepts(s, e) then s
    else
      var job := Job(s.next, e);
      var l := LaneFor(s, e.stream);
      s.(lanes := s.lanes[e.stream := Lane(l.turns + [job], l.queue + [job], l.worker, l.accepted + [job], l.done)],
         pending := s.pending + 1, bytes := s.bytes + e.body, next := s.next + 1, trace := s.trace + [Accepted(job)])
  }

  /** `matches` stands for "no terminal seen and the response ID agrees". */
  function ApplyCancel(s: State, k: Stream, matches: bool): State {
    if k in s.lanes && s.lanes[k].turns != [] && matches then
      var job := s.lanes[k].turns[0];
      s.(cancelled := s.cancelled + {job}, trace := s.trace + [Asked(job)])
    else s
  }

  // ---------------------------------------------------------------- the workers

  predicate Enabled(s: State, l: Lane, m: Move) {
    var w := l.worker;
    match m
    case Exit => w.Idle? && !s.alive
    case Take => w.Idle? && l.queue != []
    case Abandon => w.Busy? && w.pc.Taken? && !s.alive
    case Begin => w.Busy? && w.pc.Taken?
    case PrepareTurn(_, _) => w.Busy? && w.pc.Preparing?
    case Charge => w.Busy? && w.pc.Charging?
    case Emit(_) => w.Busy? && w.pc.Serving?
    case Serve(_) => w.Busy? && w.pc.Serving?
    case ReadFlag => w.Busy? && w.pc.Served?
    case Check => w.Busy? && w.pc.Flagged?
    case Store => w.Busy? && w.pc.Storing?
    case Release => w.Busy? && (w.pc.Releasing? || w.pc.Leaving?)
    case Finish(_) => w.Busy? && w.pc.Finishing?
  }

  function At(l: Lane, pc: Pc): Lane
    requires l.worker.Busy?
  {
    l.(worker := l.worker.(pc := pc))
  }

  function Through(l: Lane): Lane
    requires l.worker.Busy?
  {
    l.(worker := Idle, done := l.done + [l.worker.job])
  }

  function Rest(turns: seq<Job>): seq<Job> {
    if turns == [] then [] else turns[1..]
  }

  function Max0(n: int): nat {
    if n < 0 then 0 else n
  }

  predicate Whole(o: Outcome) {
    o.success && o.clean && o.whole
  }

  function ClosingOf(o: Outcome, cancelled: bool): Closing {
    if Whole(o) then Terminal else if cancelled then Cancelled else Failed
  }

  /** The turn is kept for continuation: relay success, clean stream, known parent. */
  predicate Keeps(p: Prepared, o: Outcome) {
    o.success && o.clean && p.replayable
  }

  /** The turn's context is alive when its worker looks. */
  predicate Serves(s: State, job: Job) {
    s.alive && job !in s.cancelled
  }

  /** The worker's next position; what else a move does is in `Effect`. */
  function Moved(s: State, l: Lane, m: Move): Lane
    requires Enabled(s, l, m)
  {
    match m
    case Exit => l.(worker := Gone)
    case Take => l.(queue := l.queue[1..], worker := Busy(l.queue[0], Taken, l.queue[0].event.body))
    case Abandon => At(l, Abandoned)
    case Begin => At(l, if Serves(s, l.worker.job) then Preparing else Releasing(Cancelled))
    case PrepareTurn(length, limit) =>
      var job := l.worker.job;
      At(l, if Prepare(s.history, job.event.request, length, limit).Refused? then Releasing(Failed)
            else Charging(PreparedOf(s, job, length, limit)))
    case Charge =>
      if s.bytes + l.worker.pc.p.extra > MAX_BUFFERED then At(l, Releasing(Failed))
      else l.(worker := Busy(l.worker.job, Serving(l.worker.pc.p), l.worker.accounted + l.worker.pc.p.extra))
    case Emit(_) => l
    case Serve(o) => At(l, Served(l.worker.pc.p, o))
    case ReadFlag => At(l, Flagged(l.worker.pc.p, l.worker.pc.o, l.worker.job in s.cancelled))
    case Check => At(l, if s.alive then Storing(l.worker.pc.p, l.worker.pc.o, l.worker.pc.cancelled) else Leaving)
    case Store => At(l, Releasing(ClosingOf(l.worker.pc.o, l.worker.pc.cancelled)))
    case Release =>
      var l' := l.(turns := Rest(l.turns));
      if l.worker.pc.Leaving? then Through(l') else At(l', Finishing(l.worker.pc.closing))
    case Finish(_) => Through(l)
  }

  function PreparedOf(s: State, job: Job, length: nat, limit: nat): Prepared
    requires Prepare(s.history, job.event.request, length, limit).Ready?
  {
    var r := Prepare(s.history, job.event.request, length, limit);
    Prepared(r.input, r.replayable, BaseOf(s, job.event.request), Max0(length - job.event.body))
  }

  /** The ledger position the request continues, when its parent is in the history. */
  function BaseOf(s: State, r: Request): Option<nat> {
    if r.previous.Some? && r.previous.value != BLANK && r.previous.value in s.history.items && r.previous.value in s.origin
    then Some(s.origin[r.previous.value]) else None
  }

  function NodeOf(job: Job, p: Prepared, o: Outcome): Node {
    var r := job.event.request;
    Node(o.id, if r.previous.Some? then r.previous.value else BLANK, p.base,
         if r.own.Some? then r.own.value else [], if o.output.Some? then o.output.value else [])
  }

  /** The turn is kept for continuation and the history has no reason to refuse it. */
  predicate Stores(h: HistoryView, job: Job, p: Prepared, o: Outcome) {
    Keeps(p, o) && Storable(h, o.id, p.input, o.output, job.event.warmup)
  }

  function ApplyStore(s: State, job: Job, p: Prepared, o: Outcome): State {
    if Stores(s.history, job, p, o) then
      s.(history := Remembered(s.history, o.id, p.input, o.output, job.event.warmup),
         ledger := s.ledger + [NodeOf(job, p, o)], origin := s.origin[o.id := |s.ledger|])
    else s
  }

  function SettlementOf(s: State, job: Job, p: Prepared, o: Outcome, flag: bool): Settlement {
    Settlement(p, o, flag, s.history, if |ApplyStore(s, job, p, o).ledger| > |s.ledger| then Some(|s.ledger|) else None)
  }

  /** A send: nothing reaches a dead session, and a failed write kills it. */
  function Send(s: State, delivered: bool, message: Obs): State {
    if !s.alive then s else if delivered then s.(trace := s.trace + [message]) else s.(alive := false)
  }

  /** Everything a move changes outside its own lane. */
  function Effect(s: State, l: Lane, m: Move): State
    requires Enabled(s, l, m)
  {
    match m
    case Begin => if Serves(s, l.worker.job) then s.(trace := s.trace + [Began(l.worker.job)]) else s
    case PrepareTurn(length, limit) =>
      var job := l.worker.job;
      if Prepare(s.history, job.event.request, length, limit).Refused?
      then s.(trace := s.trace + [Denied(job, Unprepared(s.history, length, limit))])
      else s.(trace := s.trace + [Readied(job, s.history, length, limit, PreparedOf(s, job, length, limit))])
    case Charge =>
      if s.bytes + l.worker.pc.p.extra > MAX_BUFFERED
      then s.(trace := s.trace + [Denied(l.worker.job, OverBudget(s.bytes, l.worker.pc.p.extra))])
      else s.(bytes := s.bytes + l.worker.pc.p.extra)
    case ReadFlag => s.(trace := s.trace + [Read(l.worker.job, l.worker.job in s.cancelled)])
    case Emit(delivered) => Send(s, delivered, Partial(l.worker.job))
    case Serve(o) => s.(trace := s.trace + [Answered(l.worker.job, o)])
    case Store =>
      var s' := ApplyStore(s, l.worker.job, l.worker.pc.p, l.worker.pc.o);
      s'.(trace := s.trace + [Settled(l.worker.job, SettlementOf(s, l.worker.job, l.worker.pc.p, l.worker.pc.o, l.worker.pc.cancelled))])
    case Release =>
      s.(pending := s.pending - 1, bytes := s.bytes - l.worker.accounted, trace := s.trace + [Released(l.worker.job)])
    case Finish(delivered) => Send(s, delivered, Closed(l.worker.job, l.worker.pc.closing))
    case _ => s
  }

  predicate Possible(s: State, a: Action) {
    a.Step? ==> a.stream in s.lanes && Enabled(s, s.lanes[a.stream], a.move)
  }

  function Apply(s: State, a: Action): State
    requires Possible(s, a)
  {
    match a
    case Enqueue(e) => ApplyEnqueue(s, e)
    case Cancel(k, matches) => ApplyCancel(s, k, matches)
    case Stop => s.(alive := false)
    case Step(k, m) =>
      var l := s.lanes[k];
      var s' := Effect(s, l, m);
      s'.(lanes := s.lanes[k := Moved(s, l, m)])
  }

  /** Every action is possible where it is taken. */
  predicate PossibleRun(s: State, run: seq<Action>)
    decreases |run|
  {
    run == [] || (Possible(s, run[0]) && PossibleRun(Apply(s, run[0]), run[1..]))
  }

  /** The state a run leads to. */
  function Final(s: State, run: seq<Action>): State
    requires PossibleRun(s, run)
    decreases |run|
  {
    if run == [] then s else Final(Apply(s, run[0]), run[1..])
  }
}

/**
  What the Responses WebSocket writer makes of an upstream event stream: the payload of each
  frame, the effect of each event, and one `Write` call.  JSON decoding, field parsing and the
  fate of each send belong to the surroundings and are left open.
 */
module ResponsesStream {
  import opened Options
  import opened ResponsesHistory
  import opened ResponsesFraming

  const MAX_TEXT: nat := 16777216
  const MAX_BODY: nat := 1048576
  const MAX_PENDING_BYTES: nat := 67108864
  const DONE: seq<Byte> := [91, 68, 79, 78, 69, 93]
  const STATUS_OK: nat := 200

  datatype Line = Line(bytes: seq<Byte>)
  datatype Payload = Payload(bytes: seq<Byte>)
  datatype Error = Protocol | SendFailed

  /** The event types the writer tells apart. */
  datatype Kind =
    | NoKind | PlainError | ResponseFailed | ResponseError
    | Completed | Done | Incomplete
    | TextDelta | ItemDone | Other(name: string)

  datatype Event = Event(kind: Kind, id: Id, delta: seq<Byte>, item: Option<Item>)

  /** `field` finds the data field of a line, `decode` reads a payload, `delivers` says which sends succeed. */
  datatype Surroundings = Surroundings(
    field: Line -> Option<Line>,
    decode: Payload -> Option<Event>,
    delivers: nat -> bool)

  // ---------------------------------------------------------------- payload of a frame

  function Unwrap(s: seq<Byte>): seq<Byte> {
    if s == [] then []
    else if |s| >= 2 && s[0] == CR && s[1] == LF then [LF] + Unwrap(s[2..])
    else [s[0]] + Unwrap(s[1..])
  }

  function SplitLines(s: seq<Byte>, from: nat, i: nat): seq<Line>
    requires from <= i <= |s|
    decreases |s| - i
  {
    if i == |s| then [Line(s[from..])]
    else if s[i] == LF then [Line(s[from..i])] + SplitLines(s, i + 1, i + 1)
    else SplitLines(s, from, i + 1)
  }

  function Values(env: Surroundings, lines: seq<Line>): seq<Line> {
    if lines == [] then []
    else
      var front, last := Values(env, lines[..|lines| - 1]), env.field(lines[|lines| - 1]);
      if last.Some? then front + [last.value] else front
  }

  function JoinLines(values: seq<Line>): seq<Byte> {
    if values == [] then [] else if |values| == 1 then values[0].bytes else values[0].bytes + [LF] + JoinLines(values[1..])
  }

  /** A frame without data fields, or with the end marker, carries no event. */
  function PayloadOf(env: Surroundings, f: Frame): Option<Payload> {
    var values := Values(env, SplitLines(Unwrap(f.bytes), 0, 0));
    if values == [] || JoinLines(values) == DONE then None else Some(Payload(JoinLines(values)))
  }

  // ---------------------------------------------------------------- one event

  /** `terminal` is held back until the turn ends; `sent` lists what went to the client. */
  datatype Sink = Sink(
    id: Id, terminal: Option<Payload>,
    text: seq<Byte>, items: seq<Item>, outputBytes: nat, tooLarge: bool,
    sent: seq<Payload>, err: Option<Error>)

  const FRESH := Sink(BLANK, None, [], [], 0, false, [], None)

  predicate Fails(k: Kind) {
    k.PlainError? || k.ResponseFailed? || k.ResponseError?
  }

  predicate Ends(k: Kind) {
    k.Completed? || k.Done? || k.Incomplete?
  }

  predicate Conflicts(sink: Sink, e: Event) {
    e.id != BLANK && sink.id != BLANK && sink.id != e.id
  }

  function Named(sink: Sink, e: Event): Sink {
    if e.id != BLANK then sink.(id := e.id) else sink
  }

  /** Collects the turn's output for the snapshot, giving it up once it is too large. */
  function Collected(sink: Sink, e: Event): Sink {
    if sink.tooLarge then sink
    else if e.kind.TextDelta? then
      if |sink.text| + |e.delta| <= MAX_TEXT then sink.(text := sink.text + e.delta) else sink.(tooLarge := true, text := [])
    else if e.kind.ItemDone? && e.item.Some? then
      var n := sink.outputBytes + |e.item.value.raw|;
      if n <= MAX_TEXT then sink.(outputBytes := n, items := sink.items + [e.item.value])
      else sink.(outputBytes := n, tooLarge := true, items := [], text := [])
    else sink
  }

  function Send(env: Surroundings, sink: Sink, p: Payload): Sink {
    if env.delivers(|sink.sent|) then sink.(sent := sink.sent + [p]) else sink.(err := Some(SendFailed))
  }

  function Handle(env: Surroundings, sink: Sink, p: Payload): Sink {
    var decoded := env.decode(p);
    if decoded.None? then sink.(err := Some(Protocol))
    else
      var e := decoded.value;
      if e.kind.NoKind? || sink.terminal.Some? || Conflicts(sink, e) then sink.(err := Some(Protocol))
      else if Fails(e.kind) then Named(sink, e).(err := Some(Protocol))
      else if Ends(e.kind) then Named(sink, e).(terminal := Some(p))
      else Send(env, Collected(Named(sink, e), e), p)
  }

  function Deliver(env: Surroundings, sink: Sink, f: Frame): Sink {
    var p := PayloadOf(env, f);
    if p.None? then sink else Handle(env, sink, p.value)
  }

  /** Reference: the frames one after another, up to the first error. */
  function Feed(env: Surroundings, sink: Sink, frames: seq<Frame>): Sink
    decreases |frames|
  {
    if frames == [] || sink.err.Some? then sink else Feed(env, Deliver(env, sink, frames[0]), frames[1..])
  }

  // ---------------------------------------------------------------- one write

  datatype WriterView = WriterView(streams: bool, status: nat, pending: seq<Byte>, body: seq<Byte>, sink: Sink)

  /** Handles the complete frames in the buffer until none is left or one fails. */
  function Drained(env: Surroundings, v: WriterView): WriterView
    decreases |v.pending|
  {
    var cut := Cut(v.pending);
    if cut.None? || v.sink.err.Some? then v
    else Drained(env, v.(pending := v.pending[cut.value..], sink := Deliver(env, v.sink, Frame(v.pending[..cut.value]))))
  }

  function Opened(v: WriterView): WriterView {
    if v.status == 0 then v.(status := STATUS_OK) else v
  }

  function Broken(v: WriterView): WriterView {
    v.(sink := v.sink.(err := Some(Protocol)))
  }

  function Written(env: Surroundings, v: WriterView, data: seq<Byte>): WriterView {
    if v.sink.err.Some? then v
    else
      var o := Opened(v);
      if !v.streams then if |v.body| + |data| > MAX_BODY then Broken(o) else o.(body := v.body + data)
      else if |v.pending| + |data| > MAX_PENDING_BYTES then Broken(o)
      else Drained(env, o.(pending := v.pending + data))
  }

  datatype Chunk = Chunk(data: seq<Byte>)

  function WrittenAll(env: Surroundings, v: WriterView, chunks: seq<Chunk>): WriterView
    decreases |chunks|
  {
    if chunks == [] then v else WrittenAll(env, Written(env, v, chunks[0].data), chunks[1..])
  }

  function Whole(chunks: seq<Chunk>): seq<Byte> {
    if chunks == [] then [] else chunks[0].data + Whole(chunks[1..])
  }

  /** Some write finds more buffered than the limit allows. */
  predicate Trips(env: Surroundings, v: WriterView, chunks: seq<Chunk>)
    decreases |chunks|
  {
    && chunks != []
    && ((v.sink.err.None? && |v.pending| + |chunks[0].data| > MAX_PENDING_BYTES) || Trips(env, Written(env, v, chunks[0].data), chunks[1..]))
  }

  // ---------------------------------------------------------------- chunk invariance

  lemma {:induction false} FeedAppend(env: Surroundings, sink: Sink, a: seq<Frame>, b: seq<Frame>)
    ensures Feed(env, sink, a + b) == Feed(env, Feed(env, sink, a), b)
    decreases |a|
  {
    hide Deliver;
    if a == [] {
      assert a + b == b;
    } else if sink.err.None? {
      assert (a + b)[1..] == a[1..] + b;
      FeedAppend(env, Deliver(env, sink, a[0]), a[1..], b);
    }
  }

  /** Draining the buffer is feeding its frames; without an error the leftover stays behind. */
  lemma {:induction false} DrainedFeeds(env: Surroundings, v: WriterView)
    ensures Drained(env, v).sink == Feed(env, v.sink, Frames(v.pending))
    ensures Drained(env, v).sink.err.None? ==> Drained(env, v).pending == Rest(v.pending)
    ensures Drained(env, v).streams == v.streams
    decreases |v.pending|
  {
    hide Deliver, Cut;
    var cut := Cut(v.pending);
    if cut.Some? && v.sink.err.None? {
      var f, others := Frame(v.pending[..cut.value]), Frames(v.pending[cut.value..]);
      assert ([f] + others)[1..] == others;
      DrainedFeeds(env, v.(pending := v.pending[cut.value..], sink := Deliver(env, v.sink, f)));
    }
  }

  lemma {:induction false} FailedStays(env: Surroundings, v: WriterView, chunks: seq<Chunk>)
    requires v.sink.err.Some?
    ensures WrittenAll(env, v, chunks) == v
    decreases |chunks|
  {
    if chunks != [] {
      FailedStays(env, v, chunks[1..]);
    }
  }

  /** Between writes of a healthy stream the buffer holds no complete frame. */
  predicate Healthy(v: WriterView) {
    v.streams && v.sink.err.None? && Cut(v.pending).None?
  }

  /**
    However a stream arrives, the writer ends as if all of it had been cut into frames at once and
    the frames handled in order up to the first error.
   */
  lemma {:induction false} WritesFeedFrames(env: Surroundings, v: WriterView, chunks: seq<Chunk>)
    requires Healthy(v) && !Trips(env, v, chunks)
    ensures var w, all := WrittenAll(env, v, chunks), v.pending + Whole(chunks);
            w.sink == Feed(env, v.sink, Frames(all)) && (w.sink.err.None? ==> w.pending == Rest(all))
    decreases |chunks|
  {
    if chunks != [] {
      var s, t := v.pending + chunks[0].data, Whole(chunks[1..]);
      var v' := Written(env, v, chunks[0].data);
      assert s + t == v.pending + Whole(chunks);
      DrainedFeeds(env, Opened(v).(pending := s));
      FramesAppend(s, t);
      FeedAppend(env, v.sink, Frames(s), Frames(Rest(s) + t));
      hide Drained, Frames, Rest;
      if v'.sink.err.Some? {
        FailedStays(env, v', chunks[1..]);
      } else {
        WritesFeedFrames(env, v', chunks[1..]);
      }
    } else {
      assert v.pending + [] == v.pending;
    }
  }

  /** Two ways of splitting the same stream leave the same events, the same first error and the same leftover. */
  lemma ChunkInvariance(env: Surroundings, v: WriterView, chunks: seq<Chunk>, chunks': seq<Chunk>)
    requires Healthy(v) && Whole(chunks) == Whole(chunks')
    requires !Trips(env, v, chunks) && !Trips(env, v, chunks')
    ensures WrittenAll(env, v, chunks).sink == WrittenAll(env, v, chunks').sink
    ensures WrittenAll(env, v, chunks).sink.err.None? ==> WrittenAll(env, v, chunks).pending == WrittenAll(env, v, chunks').pending
  {
    hide WrittenAll, Feed, Trips;
    WritesFeedFrames(env, v, chunks);
    WritesFeedFrames(env, v, chunks');
  }

  /** A stream that fits the buffer as a whole never trips the limit, however it is split. */
  lemma {:induction false} ShortNeverTrips(env: Surroundings, v: WriterView, chunks: seq<Chunk>)
    requires v.streams && |v.pending| + |Whole(chunks)| <= MAX_PENDING_BYTES
    ensures !Trips(env, v, chunks)
    decreases |chunks|
  {
    if chunks != [] {
      var v' := Written(env, v, chunks[0].data);
      if v.sink.err.None? {
        DrainedShrinks(env, Opened(v).(pending := v.pending + chunks[0].data));
      }
      ShortNeverTrips(env, v', chunks[1..]);
    }
  }

  lemma {:induction false} DrainedShrinks(env: Surroundings, v: WriterView)
    ensures |Drained(env, v).pending| <= |v.pending| && Drained(env, v).streams == v.streams
    decreases |v.pending|
  {
    hide Deliver, Cut;
    var cut := Cut(v.pending);
    if cut.Some? && v.sink.err.None? {
      DrainedShrinks(env, v.(pending := v.pending[cut.value..], sink := Deliver(env, v.sink, Frame(v.pending[..cut.value]))));
    }
  }

  // ---------------------------------------------------------------- when the limit is tripped

  /** Before chunk `k` no frame has failed, and the unfinished frame and the chunk together exceed the limit. */
  predicate OverrunsAt(env: Surroundings, v: WriterView, chunks: seq<Chunk>, k: nat) {
    && k < |chunks|
    && var s := v.pending + Whole(chunks[..k]);
       Feed(env, v.sink, Frames(s)).err.None? && |Rest(s)| + |chunks[k].data| > 67108864
  }

  lemma OverrunsFirst(env: Surroundings, v: WriterView, chunks: seq<Chunk>)
    requires Healthy(v) && chunks != []
    ensures OverrunsAt(env, v, chunks, 0) <==> |v.pending| + |chunks[0].data| > MAX_PENDING_BYTES
  {
    assert v.pending + Whole(chunks[..0]) == v.pending;
  }

  /** A write within the limit leaves the writer failed, or healthy with the later overruns still ahead. */
  lemma OverrunsLater(env: Surroundings, v: WriterView, chunks: seq<Chunk>, k: nat)
    requires Healthy(v) && 0 < k < |chunks| && |v.pending| + |chunks[0].data| <= MAX_PENDING_BYTES
    ensures var v' := Written(env, v, chunks[0].data);
            && (v'.sink.err.None? ==> Healthy(v'))
            && (OverrunsAt(env, v, chunks, k) <==> v'.sink.err.None? && OverrunsAt(env, v', chunks[1..], k - 1))
  {
    hide Drained, Frames, Rest, Cut, Feed, Whole;
    var v', s, t := Written(env, v, chunks[0].data), v.pending + chunks[0].data, Whole(chunks[1..][..k - 1]);
    WrittenFeeds(env, v, chunks[0].data);
    FramesAppend(s, t);
    FeedAppend(env, v.sink, Frames(s), Frames(Rest(s) + t));
    WholeFrom(v.pending, chunks, k);
    hide Written;
    if v'.sink.err.Some? {
      FeedFailed(env, v'.sink, Frames(Rest(s) + t));
    }
  }

  /** A write within the limit feeds the frames it completes and keeps the leftover. */
  lemma WrittenFeeds(env: Surroundings, v: WriterView, data: seq<Byte>)
    requires Healthy(v) && |v.pending| + |data| <= MAX_PENDING_BYTES
    ensures var w, s := Written(env, v, data), v.pending + data;
            && w.streams && w.sink == Feed(env, v.sink, Frames(s))
            && (w.sink.err.None? ==> w.pending == Rest(s) && Cut(w.pending).None?)
  {
    hide Drained, Frames, Feed, Cut;
    DrainedFeeds(env, Opened(v).(pending := v.pending + data));
  }

  lemma FeedFailed(env: Surroundings, sink: Sink, frames: seq<Frame>)
    requires sink.err.Some?
    ensures Feed(env, sink, frames) == sink
  {
  }

  lemma WholeFrom(before: seq<Byte>, chunks: seq<Chunk>, k: nat)
    requires 0 < k < |chunks|
    ensures before + Whole(chunks[..k]) == before + chunks[0].data + Whole(chunks[1..][..k - 1])
    ensures chunks[k] == chunks[1..][k - 1]
  {
    assert chunks[..k][1..] == chunks[1..][..k - 1];
  }

  lemma {:induction false} FailedNeverTrips(env: Surroundings, v: WriterView, chunks: seq<Chunk>)
    requires v.sink.err.Some?
    ensures !Trips(env, v, chunks)
    decreases |chunks|
  {
    if chunks != [] {
      FailedNeverTrips(env, v, chunks[1..]);
    }
  }

  /** The limit is tripped exactly when some chunk overruns it, told from the stream and its split alone. */
  lemma {:induction false} TripsIff(env: Surroundings, v: WriterView, chunks: seq<Chunk>)
    requires Healthy(v)
    ensures Trips(env, v, chunks) <==> exists k :: OverrunsAt(env, v, chunks, k)
    decreases |chunks|
  {
    if chunks == [] {
      return;
    }
    OverrunsFirst(env, v, chunks);
    if |v.pending| + |chunks[0].data| <= MAX_PENDING_BYTES {
      var v' := Written(env, v, chunks[0].data);
      forall k: nat | 0 < k < |chunks|
        ensures OverrunsAt(env, v, chunks, k) <==> v'.sink.err.None? && OverrunsAt(env, v', chunks[1..], k - 1)
      {
        OverrunsLater(env, v, chunks, k);
      }
      if v'.sink.err.Some? {
        FailedNeverTrips(env, v', chunks[1..]);
      } else {
        WrittenHealthy(env, v, chunks[0].data);
        TripsIff(env, v', chunks[1..]);
        hide OverrunsAt, Written, Trips;
        if j: nat :| OverrunsAt(env, v', chunks[1..], j) {
          OverrunsInRange(env, v', chunks[1..], j);
          assert OverrunsAt(env, v', chunks[1..], (j + 1) - 1);
          assert OverrunsAt(env, v, chunks, j + 1);
        }
        if k: nat :| OverrunsAt(env, v, chunks, k) {
          OverrunsInRange(env, v, chunks, k);
          assert OverrunsAt(env, v', chunks[1..], k - 1);
        }
      }
    }
  }

  lemma OverrunsInRange(env: Surroundings, v: WriterView, chunks: seq<Chunk>, k: nat)
    requires OverrunsAt(env, v, chunks, k)
    ensures k < |chunks|
  {
  }

  lemma WrittenHealthy(env: Surroundings, v: WriterView, data: seq<Byte>)
    requires Healthy(v) && Written(env, v, data).sink.err.None?
    ensures Healthy(Written(env, v, data))
  {
    DrainedFeeds(env, Opened(v).(pending := v.pending + data));
  }
}

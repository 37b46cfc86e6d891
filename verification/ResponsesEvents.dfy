/**
  What the writer guarantees about the events of one turn: they are forwarded in order and none
  is lost, the terminal one is last and held back, all belong to one response, and what is
  collected for the snapshot is exactly their output within its limit.
 */
module ResponsesEvents {
  import opened Options
  import opened ResponsesHistory
  import opened ResponsesFraming
  import opened ResponsesStream

  /** The payloads a list of frames carries. */
  function Payloads(env: Surroundings, frames: seq<Frame>): seq<Payload> {
    if frames == [] then []
    else
      var p, others := PayloadOf(env, frames[0]), Payloads(env, frames[1..]);
      if p.Some? then [p.value] + others else others
  }

  /** What reached the client followed by the terminal event held back. */
  function Forwarded(sink: Sink): seq<Payload> {
    if sink.terminal.Some? then sink.sent + [sink.terminal.value] else sink.sent
  }

  lemma HandleForwards(env: Surroundings, sink: Sink, p: Payload)
    requires sink.err.None?
    ensures var s := Handle(env, sink, p);
            Forwarded(s) == if s.err.None? then Forwarded(sink) + [p] else Forwarded(sink)
  {
  }

  /** Events are forwarded in order, one for one, until the first error; nothing follows the terminal event. */
  lemma {:induction false} FeedForwards(env: Surroundings, sink: Sink, frames: seq<Frame>)
    requires sink.err.None?
    ensures var s, all := Feed(env, sink, frames), Forwarded(sink) + Payloads(env, frames);
            Forwarded(s) <= all && (s.err.None? ==> Forwarded(s) == all)
    decreases |frames|
  {
    hide Handle, Forwarded, PayloadOf;
    if frames != [] {
      var p, s := PayloadOf(env, frames[0]), Deliver(env, sink, frames[0]);
      if p.Some? {
        HandleForwards(env, sink, p.value);
        assert Forwarded(sink) + [p.value] + Payloads(env, frames[1..]) == Forwarded(sink) + Payloads(env, frames);
      }
      if s.err.None? {
        FeedForwards(env, s, frames[1..]);
      }
    }
  }

  // ---------------------------------------------------------------- what an event stream leaves behind

  /** The event was decoded, is no failure and names no response but this one. */
  predicate Fits(env: Surroundings, p: Payload, id: Id, ends: bool) {
    var e := env.decode(p);
    && e.Some? && !e.value.kind.NoKind? && !Fails(e.value.kind)
    && Ends(e.value.kind) == ends
    && (e.value.id == BLANK || e.value.id == id)
  }

  /** The text of the deltas and the finished items among the forwarded events. */
  function TextOf(env: Surroundings, sent: seq<Payload>): seq<Byte> {
    if sent == [] then []
    else
      var front, e := TextOf(env, sent[..|sent| - 1]), env.decode(sent[|sent| - 1]);
      if e.Some? && e.value.kind.TextDelta? then front + e.value.delta else front
  }

  function ItemsOf(env: Surroundings, sent: seq<Payload>): seq<Item> {
    if sent == [] then []
    else
      var front, e := ItemsOf(env, sent[..|sent| - 1]), env.decode(sent[|sent| - 1]);
      if e.Some? && e.value.kind.ItemDone? && e.value.item.Some? then front + [e.value.item.value] else front
  }

  ghost predicate OneResponse(env: Surroundings, sink: Sink) {
    && (forall i | 0 <= i < |sink.sent| :: Fits(env, sink.sent[i], sink.id, false))
    && (sink.terminal.Some? ==> Fits(env, sink.terminal.value, sink.id, true))
  }

  /** Unless it was given up as too large, the snapshot material is the output of the forwarded events. */
  ghost predicate Collects(env: Surroundings, sink: Sink) {
    sink.err.None? && !sink.tooLarge ==>
      && sink.text == TextOf(env, sink.sent) && |sink.text| <= MAX_TEXT
      && sink.items == ItemsOf(env, sink.sent) && sink.outputBytes == ByteCount(sink.items) <= MAX_TEXT
  }

  lemma HandleOneResponse(env: Surroundings, sink: Sink, p: Payload)
    requires OneResponse(env, sink) && (sink.id == BLANK ==> Nameless(env, sink))
    ensures OneResponse(env, Handle(env, sink, p))
    ensures Handle(env, sink, p).id == BLANK ==> Nameless(env, Handle(env, sink, p))
  {
  }

  /** Before any event names the response, none has. */
  ghost predicate Nameless(env: Surroundings, sink: Sink) {
    && (forall i | 0 <= i < |sink.sent| :: Fits(env, sink.sent[i], BLANK, false))
    && (sink.terminal.Some? ==> Fits(env, sink.terminal.value, BLANK, true))
  }

  lemma OutputMore(env: Surroundings, sent: seq<Payload>, p: Payload)
    ensures var e := env.decode(p);
            && TextOf(env, sent + [p]) == (if e.Some? && e.value.kind.TextDelta? then TextOf(env, sent) + e.value.delta else TextOf(env, sent))
            && ItemsOf(env, sent + [p]) == (if e.Some? && e.value.kind.ItemDone? && e.value.item.Some?
                                             then ItemsOf(env, sent) + [e.value.item.value] else ItemsOf(env, sent))
  {
    assert (sent + [p])[..|sent|] == sent;
  }

  lemma ByteCountMore(items: seq<Item>, item: Item)
    ensures ByteCount(items + [item]) == ByteCount(items) + |item.raw|
  {
    assert (items + [item])[..|items|] == items;
  }

  lemma HandleCollects(env: Surroundings, sink: Sink, p: Payload)
    requires Collects(env, sink) && sink.err.None?
    ensures Collects(env, Handle(env, sink, p))
  {
    hide TextOf, ItemsOf, ByteCount, Fails, Ends, Conflicts;
    OutputMore(env, sink.sent, p);
    if env.decode(p).Some? && env.decode(p).value.item.Some? {
      ByteCountMore(sink.items, env.decode(p).value.item.value);
    }
  }

  lemma {:induction false} FeedSound(env: Surroundings, sink: Sink, frames: seq<Frame>)
    requires OneResponse(env, sink) && (sink.id == BLANK ==> Nameless(env, sink)) && Collects(env, sink)
    ensures OneResponse(env, Feed(env, sink, frames)) && Collects(env, Feed(env, sink, frames))
    decreases |frames|
  {
    hide OneResponse, Nameless, Collects, Handle, PayloadOf;
    if frames != [] && sink.err.None? {
      var p := PayloadOf(env, frames[0]);
      if p.Some? {
        HandleOneResponse(env, sink, p.value);
        HandleCollects(env, sink, p.value);
      }
      FeedSound(env, Deliver(env, sink, frames[0]), frames[1..]);
    }
  }

  /**
    A whole turn, however its bytes arrive: forwarding is complete and in order up to the first
    error, everything forwarded belongs to one response and only the event held back is terminal.
   */
  lemma TurnForwards(env: Surroundings, chunks: seq<Chunk>)
    requires !Trips(env, WriterView(true, 0, [], [], FRESH), chunks)
    ensures var sink := WrittenAll(env, WriterView(true, 0, [], [], FRESH), chunks).sink;
            var all := Payloads(env, Frames(Whole(chunks)));
            && Forwarded(sink) <= all && (sink.err.None? ==> Forwarded(sink) == all)
            && OneResponse(env, sink) && Collects(env, sink)
  {
    var v := WriterView(true, 0, [], [], FRESH);
    assert OneResponse(env, FRESH) && Nameless(env, FRESH) && Collects(env, FRESH);
    assert Forwarded(FRESH) == [];
    WritesFeedFrames(env, v, chunks);
    hide OneResponse, Nameless, Collects, Handle, PayloadOf, Forwarded, WrittenAll, Trips, Feed;
    assert v.pending + Whole(chunks) == Whole(chunks);
    FeedSound(env, FRESH, Frames(Whole(chunks)));
    FeedForwards(env, FRESH, Frames(Whole(chunks)));
    assert Forwarded(FRESH) + Payloads(env, Frames(Whole(chunks))) == Payloads(env, Frames(Whole(chunks)));
  }

  lemma OneFrameDrains(env: Surroundings, v: WriterView)
    requires v.sink.err.None? && Cut(v.pending) == Some(|v.pending|) && PayloadOf(env, Frame(v.pending)).None?
    ensures Drained(env, v) == v.(pending := [])
  {
    hide PayloadOf;
    assert Cut([]).None?;
    hide Cut;
    assert v.pending[..|v.pending|] == v.pending;
  }

  /**
    The buffer limit is what depends on the split: two frames without events, too long together,
    fail in one write and pass one by one.
   */
  lemma LimitDependsOnSplit(env: Surroundings, v: WriterView, a: Frame, b: Frame)
    requires Healthy(v) && v.pending == []
    requires Cut(a.bytes) == Some(|a.bytes|) && PayloadOf(env, a).None?
    requires Cut(b.bytes) == Some(|b.bytes|) && PayloadOf(env, b).None?
    requires |a.bytes| <= MAX_PENDING_BYTES && |b.bytes| <= MAX_PENDING_BYTES < |a.bytes| + |b.bytes|
    ensures WrittenAll(env, v, [Chunk(a.bytes + b.bytes)]).sink.err == Some(Protocol)
    ensures WrittenAll(env, v, [Chunk(a.bytes), Chunk(b.bytes)]).sink == v.sink
  {
    hide Cut, PayloadOf, Healthy, Written, WrittenAll;
    WrittenOne(env, v, Chunk(a.bytes + b.bytes));
    TooLongFails(env, v, a.bytes + b.bytes);
    FramePasses(env, v, a);
    var w := Written(env, v, a.bytes);
    FramePasses(env, w, b);
    WrittenOne(env, w, Chunk(b.bytes));
    WrittenTwo(env, v, Chunk(a.bytes), Chunk(b.bytes));
  }

  lemma WrittenOne(env: Surroundings, v: WriterView, c: Chunk)
    ensures WrittenAll(env, v, [c]) == Written(env, v, c.data)
  {
    hide Written;
    assert [c][1..] == [];
  }

  lemma WrittenTwo(env: Surroundings, v: WriterView, c: Chunk, d: Chunk)
    ensures WrittenAll(env, v, [c, d]) == WrittenAll(env, Written(env, v, c.data), [d])
  {
    hide Written;
    assert [c, d][1..] == [d];
  }

  lemma TooLongFails(env: Surroundings, v: WriterView, data: seq<Byte>)
    requires Healthy(v) && |v.pending| + |data| > MAX_PENDING_BYTES
    ensures Written(env, v, data).sink.err == Some(Protocol)
  {
  }

  lemma FramePasses(env: Surroundings, v: WriterView, f: Frame)
    requires Healthy(v) && v.pending == [] && |f.bytes| <= MAX_PENDING_BYTES
    requires Cut(f.bytes) == Some(|f.bytes|) && PayloadOf(env, f).None?
    ensures var w := Written(env, v, f.bytes); Healthy(w) && w.pending == [] && w.sink == v.sink
  {
    var o := Opened(v).(pending := v.pending + f.bytes);
    assert o.pending == f.bytes;
    OneFrameDrains(env, o);
  }

  // ---------------------------------------------------------------- one event and one body, exactly

  /** The payload decodes to an event of a kind that is given and no failure, before any terminal one, for the same response. */
  predicate Welcome(env: Surroundings, sink: Sink, p: Payload) {
    && env.decode(p).Some? && sink.terminal.None?
    && var e := env.decode(p).value;
       && e.kind !in {NoKind, PlainError, ResponseFailed, ResponseError}
       && (e.id == BLANK || sink.id == BLANK || e.id == sink.id)
  }

  /** When an event passes, when it ends the stream, and which error it leaves otherwise. */
  lemma HandleExact(env: Surroundings, sink: Sink, p: Payload)
    requires sink.err.None?
    ensures var s := Handle(env, sink, p);
            if !Welcome(env, sink, p) then s.err == Some(Protocol) && s.sent == sink.sent && s.terminal == sink.terminal
            else
              var e := env.decode(p).value;
              && s.id == (if e.id == BLANK then sink.id else e.id)
              && if e.kind in {Completed, Done, Incomplete} then s.err.None? && s.terminal == Some(p) && s.sent == sink.sent
                 else s.terminal.None? && if env.delivers(|sink.sent|) then s.err.None? && s.sent == sink.sent + [p]
                                          else s.err == Some(SendFailed) && s.sent == sink.sent
  {
  }

  /** The output is given up exactly when a text or the items would exceed 16 MiB. */
  lemma GivesUpExactly(env: Surroundings, sink: Sink, p: Payload)
    requires sink.err.None? && !sink.tooLarge && Welcome(env, sink, p) && env.decode(p).value.kind !in {Completed, Done, Incomplete}
    ensures var e := env.decode(p).value;
            Handle(env, sink, p).tooLarge <==>
              || (e.kind == TextDelta && |sink.text| + |e.delta| > 16777216)
              || (e.kind == ItemDone && e.item.Some? && sink.outputBytes + |e.item.value.raw| > 16777216)
  {
  }

  /** A plain response is collected whole however it arrives, and fails exactly when it exceeds 1 MiB. */
  lemma {:induction false} BodyCollected(env: Surroundings, v: WriterView, chunks: seq<Chunk>)
    requires !v.streams && v.sink.err.None? && |v.body| <= 1048576
    ensures var w := WrittenAll(env, v, chunks);
            if |v.body| + |Whole(chunks)| <= 1048576 then w.sink == v.sink && w.body == v.body + Whole(chunks)
            else w.sink == v.sink.(err := Some(Protocol))
    decreases |chunks|
  {
    hide Written;
    if chunks == [] {
      assert v.body + [] == v.body;
    } else {
      var w, data, rest := Written(env, v, chunks[0].data), chunks[0].data, Whole(chunks[1..]);
      BodyStep(env, v, data);
      if w.sink.err.Some? {
        FailedStays(env, w, chunks[1..]);
      } else {
        assert v.body + (data + rest) == (v.body + data) + rest;
        BodyCollected(env, w, chunks[1..]);
      }
    }
  }

  lemma BodyStep(env: Surroundings, v: WriterView, data: seq<Byte>)
    requires !v.streams && v.sink.err.None?
    ensures var w := Written(env, v, data);
            && !w.streams
            && if |v.body| + |data| <= 1048576 then w.sink == v.sink && w.body == v.body + data
               else w.sink == v.sink.(err := Some(Protocol))
  {
  }
}

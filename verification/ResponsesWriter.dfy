/** The writer object: a buffer consumed frame by frame, and the fields each event updates. */
module ResponsesWriter {
  import opened Options
  import opened ResponsesHistory
  import opened ResponsesFraming
  import opened ResponsesStream

  const EVENT_STREAM := "text/event-stream"

  /** The response is an event stream: its content type starts with the event stream's. */
  predicate Streams(contentType: string) {
    EVENT_STREAM <= contentType
  }

  class Writer {
    const env: Surroundings
    var contentType: string
    var status: nat
    var pending: seq<Byte>
    var body: seq<Byte>
    var terminal: Option<Payload>
    var responseId: Id
    var text: seq<Byte>
    var outputItems: seq<Item>
    var outputBytes: nat
    var snapshotTooLarge: bool
    var sent: seq<Payload>
    var err: Option<Error>

    ghost function Events(): Sink
      reads this
    {
      Sink(responseId, terminal, text, outputItems, outputBytes, snapshotTooLarge, sent, err)
    }

    ghost function View(): WriterView
      reads this
    {
      WriterView(Streams(contentType), status, pending, body, Events())
    }

    constructor (env: Surroundings, contentType: string)
      ensures this.env == env && View() == WriterView(Streams(contentType), 0, [], [], FRESH)
    {
      this.env, this.contentType := env, contentType;
      status, pending, body := 0, [], [];
      responseId, terminal, text, outputItems, outputBytes := BLANK, None, [], [], 0;
      snapshotTooLarge, sent, err := false, [], None;
    }

    method WriteHeader(code: nat)
      modifies this`status
      ensures status == if old(status) == 0 then code else old(status)
    {
      if status == 0 {
        status := code;
      }
    }

    /** The data fields of a frame's lines, in order. */
    method CollectValues(lines: seq<Line>) returns (values: seq<Line>)
      ensures values == Values(env, lines)
    {
      values := [];
      for i := 0 to |lines|
        invariant values == Values(env, lines[..i])
      {
        assert lines[..i + 1][..i] == lines[..i];
        var value := env.field(lines[i]);
        if value.Some? {
          values := values + [value.value];
        }
      }
      assert lines[..|lines|] == lines;
    }

    method CollectOutput(e: Event)
      modifies this`text, this`outputItems, this`outputBytes, this`snapshotTooLarge
      ensures Events() == Collected(old(Events()), e)
    {
      if e.kind.TextDelta? && !snapshotTooLarge {
        if |text| + |e.delta| <= MAX_TEXT {
          text := text + e.delta;
        } else {
          snapshotTooLarge := true;
          text := [];
        }
      }
      if e.kind.ItemDone? && !snapshotTooLarge {
        if e.item.Some? {
          outputBytes := outputBytes + |e.item.value.raw|;
          if outputBytes <= MAX_TEXT {
            outputItems := outputItems + [e.item.value];
          } else {
            snapshotTooLarge := true;
            outputItems := [];
            text := [];
          }
        }
      }
    }

    method SendPayload(p: Payload) returns (failed: Option<Error>)
      modifies this`sent
      ensures var s := Send(env, old(Events()).(err := None), p); failed == s.err && Events() == s.(err := old(err))
    {
      if env.delivers(|sent|) {
        sent := sent + [p];
        return None;
      }
      return Some(SendFailed);
    }

    /** One event; the caller records the error it returns. */
    method EventData(p: Payload) returns (failed: Option<Error>)
      requires err.None?
      modifies this`responseId, this`terminal, this`text, this`outputItems, this`outputBytes, this`snapshotTooLarge, this`sent
      ensures var s := Handle(env, old(Events()), p); failed == s.err && Events() == s.(err := None)
    {
      var decoded := env.decode(p);
      if decoded.None? {
        return Some(Protocol);
      }
      var e := decoded.value;
      if e.kind.NoKind? || terminal.Some? {
        return Some(Protocol);
      }
      if e.id != BLANK {
        if responseId != BLANK && responseId != e.id {
          return Some(Protocol);
        }
        responseId := e.id;
      }
      if Fails(e.kind) {
        return Some(Protocol);
      }
      if Ends(e.kind) {
        terminal := Some(p);
        return None;
      }
      CollectOutput(e);
      failed := SendPayload(p);
    }

    /** One frame: its payload, if it has one, is handled as an event. */
    method HandleFrame(f: Frame) returns (failed: Option<Error>)
      requires err.None?
      modifies this`responseId, this`terminal, this`text, this`outputItems, this`outputBytes, this`snapshotTooLarge, this`sent
      ensures var s := Deliver(env, old(Events()), f); failed == s.err && Events() == s.(err := None)
    {
      hide Handle, Values, SplitLines, Unwrap, JoinLines;
      var values := CollectValues(SplitLines(Unwrap(f.bytes), 0, 0));
      if values == [] {
        return None;
      }
      var payload := JoinLines(values);
      if payload == DONE {
        return None;
      }
      failed := EventData(Payload(payload));
    }

    /** Handles the buffered frames until none is left or one fails. */
    method Drain() returns (failed: Option<Error>)
      requires err.None?
      modifies this
      ensures View() == Drained(env, old(View())) && failed == err
    {
      ghost var v := View();
      hide Deliver, Cut, Streams;
      while true
        invariant err.None? && Drained(env, View()) == Drained(env, v)
        decreases |pending|
      {
        var cut := Cut(pending);
        if cut.None? {
          return None;
        }
        var frame := Frame(pending[..cut.value]);
        pending := pending[cut.value..];
        var error := HandleFrame(frame);
        if error.Some? {
          err := error;
          return err;
        }
      }
    }

    /** Takes a chunk of the response; the count is what the caller is told was written. */
    method Write(data: seq<Byte>) returns (n: nat, failed: Option<Error>)
      modifies this
      ensures View() == Written(env, old(View()), data)
      ensures failed == View().sink.err && n == if failed.None? then |data| else 0
    {
      hide Drained, Streams;
      if err.Some? {
        return 0, err;
      }
      WriteHeader(STATUS_OK);
      if !Streams(contentType) {
        if |body| + |data| > MAX_BODY {
          err := Some(Protocol);
          return 0, err;
        }
        body := body + data;
        return |data|, None;
      }
      if |pending| + |data| > MAX_PENDING_BYTES {
        err := Some(Protocol);
        return 0, err;
      }
      pending := pending + data;
      failed := Drain();
      n := if failed.None? then |data| else 0;
    }
  }
}

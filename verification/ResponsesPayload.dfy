/**
  What the payload of a frame is: its lines, whichever way they end, with the values of their data
  fields joined by line feeds.  And where a frame ends, said of the bytes themselves.
 */
module ResponsesPayload {
  import opened Options
  import opened ResponsesFraming
  import opened ResponsesStream

  // ---------------------------------------------------------------- where a frame ends

  /** Two line feeds, or two carriage-return line-feed pairs, at `i`; `n` is the position after them. */
  predicate BlankLine(s: seq<Byte>, i: nat, n: nat) {
    || (n == i + 2 <= |s| && s[i] == 10 && s[i + 1] == 10)
    || (n == i + 4 <= |s| && s[i] == 13 && s[i + 1] == 10 && s[i + 2] == 13 && s[i + 3] == 10)
  }

  ghost predicate NoBlankLineBefore(s: seq<Byte>, i: nat) {
    forall j: nat, n: nat | j < i :: !BlankLine(s, j, n)
  }

  /** The first frame ends right after the first blank line of either form, and there is none without one. */
  lemma CutExact(s: seq<Byte>)
    ensures Cut(s).None? ==> NoBlankLineBefore(s, |s|)
    ensures Cut(s).Some? ==> exists i :: BlankLine(s, i, Cut(s).value) && NoBlankLineBefore(s, i)
  {
    var lf, crlf := Seek(s, false, 0), Seek(s, true, 0);
    assert forall j: nat, n: nat :: BlankLine(s, j, n) <==> (n == j + 2 && BlankAt(s, false, j)) || (n == j + 4 && BlankAt(s, true, j));
    hide Seek;
    if crlf.Some? && (lf.None? || crlf.value < lf.value) {
      assert BlankLine(s, crlf.value, Cut(s).value) && NoBlankLineBefore(s, crlf.value);
    } else if lf.Some? {
      assert BlankLine(s, lf.value, Cut(s).value) && NoBlankLineBefore(s, lf.value);
    }
  }

  // ---------------------------------------------------------------- lines

  predicate Plain(s: seq<Byte>) {
    forall i | 0 <= i < |s| :: s[i] != LF && s[i] != CR
  }

  ghost predicate NoFeed(lines: seq<Line>) {
    forall i | 0 <= i < |lines| :: FeedFree(lines[i].bytes)
  }

  predicate FeedFree(s: seq<Byte>) {
    forall i | 0 <= i < |s| :: s[i] != LF
  }

  lemma JoinMore(first: Line, rest: seq<Line>)
    requires rest != []
    ensures JoinLines([first] + rest) == first.bytes + [LF] + JoinLines(rest)
  {
    assert ([first] + rest)[1..] == rest;
  }

  /** Splitting at line feeds loses nothing: joined again the lines are the text, and none holds a line feed. */
  lemma {:induction false} SplitJoins(s: seq<Byte>, from: nat, i: nat)
    requires from <= i <= |s| && FeedFree(s[from..i])
    ensures var lines := SplitLines(s, from, i); lines != [] && NoFeed(lines) && JoinLines(lines) == s[from..]
    decreases |s| - i
  {
    if i == |s| {
      assert s[from..i] == s[from..];
    } else if s[i] == LF {
      assert s[i + 1..i + 1] == [];
      SplitJoins(s, i + 1, i + 1);
      JoinMore(Line(s[from..i]), SplitLines(s, i + 1, i + 1));
      assert s[from..] == s[from..i] + [LF] + s[i + 1..];
    } else {
      assert s[from..i + 1] == s[from..i] + [s[i]];
      SplitJoins(s, from, i + 1);
    }
  }

  lemma {:induction false} SplitFirst(a: seq<Byte>, rest: seq<Byte>, i: nat)
    requires FeedFree(a) && i <= |a|
    ensures SplitLines(a + [LF] + rest, 0, i) == [Line(a)] + SplitLines(a + [LF] + rest, |a| + 1, |a| + 1)
    decreases |a| - i
  {
    var s := a + [LF] + rest;
    if i == |a| {
      assert s[i] == LF && s[0..i] == a;
    } else {
      assert s[i] == a[i];
      SplitFirst(a, rest, i + 1);
    }
  }

  lemma {:induction false} SplitShift(a: seq<Byte>, s: seq<Byte>, from: nat, i: nat)
    requires from <= i <= |s|
    ensures SplitLines(a + s, |a| + from, |a| + i) == SplitLines(s, from, i)
    decreases |s| - i
  {
    var t := a + s;
    assert t[|a| + from..] == s[from..] && t[|a| + from..|a| + i] == s[from..i];
    if i < |s| {
      assert t[|a| + i] == s[i];
      if s[i] == LF {
        SplitShift(a, s, i + 1, i + 1);
      } else {
        SplitShift(a, s, from, i + 1);
      }
    }
  }

  lemma {:induction false} SplitAlone(a: seq<Byte>, i: nat)
    requires FeedFree(a) && i <= |a|
    ensures SplitLines(a, 0, i) == [Line(a)]
    decreases |a| - i
  {
    if i < |a| {
      SplitAlone(a, i + 1);
    }
  }

  /** And lines without line feeds, joined and split again, are themselves. */
  lemma {:induction false} JoinSplits(lines: seq<Line>)
    requires lines != [] && NoFeed(lines)
    ensures SplitLines(JoinLines(lines), 0, 0) == lines
    decreases |lines|
  {
    var a := lines[0].bytes;
    if |lines| == 1 {
      SplitAlone(a, 0);
    } else {
      var rest := JoinLines(lines[1..]);
      JoinSplits(lines[1..]);
      assert JoinLines(lines) == a + [LF] + rest;
      SplitFirst(a, rest, 0);
      SplitShift(a + [LF], rest, 0, 0);
      assert lines == [lines[0]] + lines[1..];
    }
  }

  // ---------------------------------------------------------------- line endings

  /** Every carriage-return line-feed pair becomes a line feed, wherever it stands. */
  lemma {:induction false} UnwrapPair(a: seq<Byte>, b: seq<Byte>)
    ensures Unwrap(a + [CR, LF] + b) == Unwrap(a) + [LF] + Unwrap(b)
    decreases |a|
  {
    var s := a + [CR, LF] + b;
    if a == [] {
      assert s[2..] == b;
    } else if |a| >= 2 && a[0] == CR && a[1] == LF {
      assert s[2..] == a[2..] + [CR, LF] + b;
      UnwrapPair(a[2..], b);
    } else {
      assert s[1..] == a[1..] + [CR, LF] + b;
      assert s[0] == a[0] && (|a| == 1 ==> s[1] == CR);
      UnwrapPair(a[1..], b);
    }
  }

  /** A text without such a pair stays as it is. */
  lemma {:induction false} UnwrapKeeps(s: seq<Byte>)
    requires forall i: nat :: !PairAt(s, i)
    ensures Unwrap(s) == s
    decreases |s|
  {
    if s != [] {
      var rest := s[1..];
      forall i: nat ensures !PairAt(rest, i) {
        assert !PairAt(s, i + 1);
      }
      UnwrapKeeps(rest);
      assert !PairAt(s, 0);
    }
  }

  predicate PairAt(s: seq<Byte>, i: nat) {
    i + 1 < |s| && s[i] == CR && s[i + 1] == LF
  }

  ghost predicate PlainLines(lines: seq<Line>) {
    forall i | 0 <= i < |lines| :: Plain(lines[i].bytes)
  }

  /** The lines of a frame, each ended by a line feed, and the blank line after them. */
  function Feeds(lines: seq<Line>): seq<Byte> {
    if lines == [] then [LF] else lines[0].bytes + [LF] + Feeds(lines[1..])
  }

  /** The same with every line ended by a carriage return and a line feed. */
  function Pairs(lines: seq<Line>): seq<Byte> {
    if lines == [] then [CR, LF] else lines[0].bytes + [CR, LF] + Pairs(lines[1..])
  }

  lemma {:induction false} PairsUnwrap(lines: seq<Line>)
    requires PlainLines(lines)
    ensures Unwrap(Pairs(lines)) == Feeds(lines) && Unwrap(Feeds(lines)) == Feeds(lines)
    decreases |lines|
  {
    if lines == [] {
      assert [CR, LF][2..] == [] && [LF][1..] == [];
    } else {
      var a := lines[0].bytes;
      assert Plain(a);
      PairsUnwrap(lines[1..]);
      UnwrapKeeps(a);
      UnwrapPair(a, Pairs(lines[1..]));
      UnwrapFeed(a, Feeds(lines[1..]));
    }
  }

  lemma {:induction false} UnwrapFeed(a: seq<Byte>, b: seq<Byte>)
    requires Plain(a)
    ensures Unwrap(a + [LF] + b) == a + [LF] + Unwrap(b)
    decreases |a|
  {
    var s := a + [LF] + b;
    if a == [] {
      assert s[1..] == b;
    } else {
      assert s[1..] == a[1..] + [LF] + b && s[0] == a[0];
      UnwrapFeed(a[1..], b);
    }
  }

  lemma {:induction false} FeedsJoin(lines: seq<Line>)
    ensures Feeds(lines) == JoinLines(lines + [Line([]), Line([])])
    decreases |lines|
  {
    var blank := [Line([]), Line([])];
    if lines == [] {
      assert lines + blank == blank && blank[1..] == [Line([])];
    } else {
      FeedsJoin(lines[1..]);
      assert lines + blank == [lines[0]] + (lines[1..] + blank);
      JoinMore(lines[0], lines[1..] + blank);
    }
  }

  /** Whichever way its lines end, a frame is read as those lines and the two empty ones that close it. */
  lemma FrameLines(lines: seq<Line>)
    requires PlainLines(lines)
    ensures var all := lines + [Line([]), Line([])];
            SplitLines(Unwrap(Feeds(lines)), 0, 0) == all && SplitLines(Unwrap(Pairs(lines)), 0, 0) == all
  {
    var all := lines + [Line([]), Line([])];
    PairsUnwrap(lines);
    FeedsJoin(lines);
    forall i | 0 <= i < |all| ensures FeedFree(all[i].bytes) {
      assert i < |lines| ==> Plain(lines[i].bytes);
    }
    JoinSplits(all);
  }

  // ---------------------------------------------------------------- payloads

  /** The values of the lines that have a data field, in order. */
  ghost predicate Gathers(env: Surroundings, lines: seq<Line>, values: seq<Line>, at: seq<nat>) {
    && |at| == |values|
    && (forall a | 0 <= a < |at| :: at[a] < |lines| && env.field(lines[at[a]]) == Some(values[a]))
    && (forall a, b | 0 <= a < b < |at| :: at[a] < at[b])
    && (forall i | 0 <= i < |lines| && env.field(lines[i]).Some? :: i in at)
  }

  lemma {:induction false} ValuesGather(env: Surroundings, lines: seq<Line>) returns (at: seq<nat>)
    ensures Gathers(env, lines, Values(env, lines), at)
    decreases |lines|
  {
    at := [];
    if lines != [] {
      var n := |lines| - 1;
      at := ValuesGather(env, lines[..n]);
      if env.field(lines[n]).Some? {
        at := at + [n];
      }
    }
  }

  lemma NoFieldNoValue(env: Surroundings, lines: seq<Line>, l: Line)
    ensures Values(env, lines + [l]) == if env.field(l).Some? then Values(env, lines) + [env.field(l).value] else Values(env, lines)
  {
    assert (lines + [l])[..|lines|] == lines;
  }

  /** A frame with these lines carries the values of their data fields joined by line feeds, unless there are none or they spell the end marker. */
  lemma PayloadExact(env: Surroundings, lines: seq<Line>)
    requires PlainLines(lines) && env.field(Line([])).None?
    ensures var values := Values(env, lines);
            var payload := if values == [] || JoinLines(values) == DONE then None else Some(Payload(JoinLines(values)));
            PayloadOf(env, Frame(Feeds(lines))) == payload && PayloadOf(env, Frame(Pairs(lines))) == payload
  {
    FrameLines(lines);
    NoFieldNoValue(env, lines + [Line([])], Line([]));
    NoFieldNoValue(env, lines, Line([]));
    assert lines + [Line([])] + [Line([])] == lines + [Line([]), Line([])];
  }

  /** One data line: its value is the payload. */
  lemma OneLinePayload(env: Surroundings, v: seq<Byte>, x: seq<Byte>)
    requires Plain(v) && env.field(Line(v)) == Some(Line(x)) && env.field(Line([])).None? && x != DONE
    ensures PayloadOf(env, Frame(v + [LF, LF])) == Some(Payload(x))
    ensures PayloadOf(env, Frame(v + [CR, LF, CR, LF])) == Some(Payload(x))
  {
    var lines := [Line(v)];
    assert lines[1..] == [] && lines[..0] == [];
    assert Feeds(lines) == v + [LF] + [LF] == v + [LF, LF];
    assert Pairs(lines) == v + [CR, LF] + [CR, LF] == v + [CR, LF, CR, LF];
    assert Values(env, lines) == [Line(x)];
    PayloadExact(env, lines);
  }
}

/**
  Cutting a server-sent event stream into frames.  A frame ends at the earliest blank line,
  written as two line feeds or as two carriage-return line-feed pairs.  What is cut off first
  does not depend on what follows, so a stream may be cut in any number of instalments.
 */
module ResponsesFraming {
  import opened Options

  type Byte = b: int | 0 <= b < 256
  const LF: Byte := 10
  const CR: Byte := 13

  datatype Frame = Frame(bytes: seq<Byte>)

  function Width(wide: bool): nat {
    if wide then 4 else 2
  }

  /** A blank line stands at `i`, in its long form when `wide`. */
  predicate BlankAt(s: seq<Byte>, wide: bool, i: nat) {
    && i + Width(wide) <= |s|
    && if wide then s[i] == CR && s[i + 1] == LF && s[i + 2] == CR && s[i + 3] == LF
       else s[i] == LF && s[i + 1] == LF
  }

  /** The first blank line of one form, from `i` on. */
  function Seek(s: seq<Byte>, wide: bool, i: nat): (r: Option<nat>)
    ensures r.Some? ==> i <= r.value && BlankAt(s, wide, r.value)
    ensures forall j | i <= j && (r.Some? ==> j < r.value) :: !BlankAt(s, wide, j)
    decreases |s| - i
  {
    if i >= |s| then None else if BlankAt(s, wide, i) then Some(i) else Seek(s, wide, i + 1)
  }

  /** Where the first frame ends, delimiter included. */
  function Cut(s: seq<Byte>): (r: Option<nat>)
    ensures r.Some? ==> 0 < r.value <= |s|
  {
    var lf, crlf := Seek(s, false, 0), Seek(s, true, 0);
    if crlf.Some? && (lf.None? || crlf.value < lf.value) then Some(crlf.value + 4)
    else if lf.Some? then Some(lf.value + 2)
    else None
  }

  /** The complete frames of a stream, and what is left after the last of them. */
  function Frames(s: seq<Byte>): seq<Frame>
    decreases |s|
  {
    if Cut(s).None? then [] else [Frame(s[..Cut(s).value])] + Frames(s[Cut(s).value..])
  }

  function Rest(s: seq<Byte>): (r: seq<Byte>)
    ensures |r| <= |s| && Cut(r).None?
    decreases |s|
  {
    if Cut(s).None? then s else Rest(s[Cut(s).value..])
  }

  function Join(frames: seq<Frame>): seq<Byte> {
    if frames == [] then [] else frames[0].bytes + Join(frames[1..])
  }

  // ---------------------------------------------------------------- stability

  lemma BlankAtExtends(s: seq<Byte>, t: seq<Byte>, wide: bool, i: nat)
    requires i + Width(wide) <= |s|
    ensures BlankAt(s + t, wide, i) <==> BlankAt(s, wide, i)
  {
  }

  /** A blank line found stays the first; one that appears only with more input reaches past the old end. */
  lemma SeekExtends(s: seq<Byte>, t: seq<Byte>, wide: bool)
    ensures var r, r' := Seek(s, wide, 0), Seek(s + t, wide, 0);
            if r.Some? then r' == r else r'.Some? ==> r'.value + Width(wide) > |s|
  {
    var r, r' := Seek(s, wide, 0), Seek(s + t, wide, 0);
    if r.Some? {
      BlankAtExtends(s, t, wide, r.value);
    }
    if r'.Some? && r'.value + Width(wide) <= |s| {
      BlankAtExtends(s, t, wide, r'.value);
    }
  }

  /**
    The end of the first frame is final as soon as it is seen: a long blank line completed by
    more input would have to overlap the two line feeds of a short one.
   */
  lemma CutExtends(s: seq<Byte>, t: seq<Byte>)
    requires Cut(s).Some?
    ensures Cut(s + t) == Cut(s)
  {
    SeekExtends(s, t, false);
    SeekExtends(s, t, true);
  }

  /** Cutting in instalments: the leftover of the first part is cut together with the second. */
  lemma {:induction false} FramesAppend(s: seq<Byte>, t: seq<Byte>)
    ensures Frames(s + t) == Frames(s) + Frames(Rest(s) + t)
    ensures Rest(s + t) == Rest(Rest(s) + t)
    decreases |s|
  {
    hide Cut;
    if Cut(s).Some? {
      var n := Cut(s).value;
      CutExtends(s, t);
      assert (s + t)[..n] == s[..n];
      assert (s + t)[n..] == s[n..] + t;
      FramesAppend(s[n..], t);
      var first, others := [Frame(s[..n])], Frames(s[n..]);
      assert first + (others + Frames(Rest(s) + t)) == (first + others) + Frames(Rest(s) + t);
    }
  }

  lemma JoinFirst(f: Frame, frames: seq<Frame>)
    ensures Join([f] + frames) == f.bytes + Join(frames)
  {
    assert ([f] + frames)[1..] == frames;
  }

  lemma Glue(s: seq<Byte>, n: nat, a: seq<Byte>, b: seq<Byte>)
    requires n <= |s| && s[n..] == a + b
    ensures s == s[..n] + a + b
  {
  }

  lemma {:induction false} FramesJoin(s: seq<Byte>)
    ensures Join(Frames(s)) + Rest(s) == s
    decreases |s|
  {
    hide Cut, Join;
    if Cut(s).Some? {
      var n := Cut(s).value;
      FramesJoin(s[n..]);
      JoinFirst(Frame(s[..n]), Frames(s[n..]));
      Glue(s, n, Join(Frames(s[n..])), Rest(s[n..]));
    } else {
      JoinNone();
      Glue(s, 0, [], s);
    }
  }

  lemma JoinNone()
    ensures Join([]) == []
  {
  }

  lemma {:induction false} FramesEndAtBlank(s: seq<Byte>, i: nat)
    requires i < |Frames(s)|
    ensures Cut(Frames(s)[i].bytes) == Some(|Frames(s)[i].bytes|)
    decreases |s|
  {
    hide Cut;
    if i == 0 {
      CutWithin(s);
    } else {
      FramesEndAtBlank(s[Cut(s).value..], i - 1);
    }
  }

  /** No byte is lost or reordered, every frame ends at its first blank line and the leftover has none. */
  lemma FramesPartition(s: seq<Byte>)
    ensures Join(Frames(s)) + Rest(s) == s && Cut(Rest(s)).None?
    ensures forall i | 0 <= i < |Frames(s)| :: Cut(Frames(s)[i].bytes) == Some(|Frames(s)[i].bytes|)
  {
    FramesJoin(s);
    hide Cut, Frames;
    forall i | 0 <= i < |Frames(s)| ensures Cut(Frames(s)[i].bytes) == Some(|Frames(s)[i].bytes|) {
      FramesEndAtBlank(s, i);
    }
  }

  lemma CutWithin(s: seq<Byte>)
    requires Cut(s).Some?
    ensures Cut(s[..Cut(s).value]) == Cut(s)
  {
    var n := Cut(s).value;
    var f := s[..n];
    assert s == f + s[n..];
    SeekExtends(f, s[n..], false);
    SeekExtends(f, s[n..], true);
    var lf, crlf := Seek(s, false, 0), Seek(s, true, 0);
    if crlf.Some? && (lf.None? || crlf.value < lf.value) {
      BlankAtExtends(f, s[n..], true, crlf.value);
    } else {
      BlankAtExtends(f, s[n..], false, lf.value);
    }
  }
}

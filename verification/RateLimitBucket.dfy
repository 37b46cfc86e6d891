/** A rate-limit bucket: a backing array whose live slice starts after a dead prefix. */
module RateLimitBucket {
  import opened RateLimitModel

  const BLANK := Entry(0, "")

  class Bucket {
    var entries: array<Entry>
    var len: nat
    var head: nat
    var lastActive: int
    var window: int
    ghost var contents: seq<Entry>

    /** `contents` is the live slice, which lies inside the buffer; every slot outside it is blank. */
    ghost predicate Valid()
      reads this, entries
    {
      && head <= len <= entries.Length
      && contents == entries[head..len]
      && (forall i | 0 <= i < head :: entries[i] == BLANK)
      && (forall i | len <= i < entries.Length :: entries[i] == BLANK)
    }

    ghost function View(): BucketView
      reads this
    {
      BucketView(contents, lastActive, window)
    }

    constructor ()
      ensures Valid() && contents == [] && fresh(entries)
    {
      entries := new Entry[0];
      len, head, lastActive, window, contents := 0, 0, 0, 0, [];
    }

    method Mark(now: int, duration: int)
      requires Valid()
      modifies this`lastActive, this`window
      ensures Valid() && lastActive == now && window == duration
    {
      lastActive := now;
      window := duration;
    }

    method Size() returns (n: nat)
      requires Valid()
      ensures n == |contents|
    {
      n := len - head;
    }

    /** Blanks and skips the expired prefix; an emptied buffer is reused from its start. */
    method Expire(now: int, duration: int)
      requires Valid()
      modifies this`head, this`len, this`contents, entries
      ensures Valid()
      ensures contents == RateLimitModel.Expire(old(contents), now, duration)
    {
      ghost var was, start := entries[..], head;
      while head < len && now - entries[head].timestamp >= duration
        invariant start <= head <= len <= entries.Length && len == old(len)
        invariant entries[head..] == was[head..]
        invariant forall i | 0 <= i < head :: entries[i] == BLANK
        invariant forall i | start <= i < head :: !Alive(was[i], now, duration)
        decreases len - head
      {
        entries[head] := BLANK;
        head := head + 1;
      }
      SkipsExpired(was, entries[..], start, head, len, now, duration);
      contents := entries[head..len];
      if head == len {
        len := 0;
        head := 0;
      }
    }

    /** Moves the live slice to the front, in place. */
    method Compact()
      requires Valid()
      modifies this`head, this`len, this`contents, entries
      ensures Valid() && head == 0
      ensures contents == old(contents)
    {
      var size := len - head;
      forall i | 0 <= i < size {
        entries[i] := entries[head + i];
      }
      forall i | size <= i < len {
        entries[i] := BLANK;
      }
      len := size;
      head := 0;
      assert contents == entries[head..len];
    }

    /** Appends one entry, moving to a larger array when the buffer is full. */
    method Push(e: Entry)
      requires Valid()
      modifies this`entries, this`len, this`contents, entries
      ensures Valid() && (entries == old(entries) || fresh(entries))
      ensures contents == old(contents) + [e]
    {
      if len == entries.Length {
        var bigger := new Entry[2 * len + 1](i => BLANK);
        forall i | 0 <= i < len {
          bigger[i] := entries[i];
        }
        entries := bigger;
      }
      entries[len] := e;
      len := len + 1;
      contents := contents + [e];
    }

    /** Reuses expired slots before growing, then records `weight` equal entries. */
    method Append(now: int, weight: nat, reservationID: string)
      requires Valid()
      modifies this`entries, this`head, this`len, this`contents, entries
      ensures Valid() && (entries == old(entries) || fresh(entries))
      ensures contents == old(contents) + Copies(weight, Entry(now, reservationID))
    {
      if head > 0 && (len + weight > entries.Length || head >= len / 2) {
        Compact();
      }
      ghost var s := contents;
      for i := 0 to weight
        invariant Valid() && (entries == old(entries) || fresh(entries))
        invariant contents == s + Copies(i, Entry(now, reservationID))
      {
        Push(Entry(now, reservationID));
      }
    }

    /** Removes the first live entry carrying the ID, closing the gap in place. */
    method Remove(reservationID: string) returns (found: bool)
      requires Valid()
      modifies this`len, this`contents, entries
      ensures Valid()
      ensures found == (FindId(old(contents), reservationID) < |old(contents)|)
      ensures contents == DropAt(old(contents), FindId(old(contents), reservationID))
    {
      ghost var s := contents;
      var i := head;
      while i < len
        invariant head <= i <= len && len == old(len)
        invariant Valid() && contents == s
        invariant forall j | 0 <= j < i - head :: s[j].reservationID != reservationID
      {
        if entries[i].reservationID == reservationID {
          FindIdIs(s, i - head, reservationID);
          CloseGap(i);
          return true;
        }
        i := i + 1;
      }
      FindIdIs(s, |s|, reservationID);
      return false;
    }

    method CloseGap(i: nat)
      requires Valid() && head <= i < len
      modifies this`len, this`contents, entries
      ensures Valid()
      ensures contents == DropAt(old(contents), i - head)
    {
      ghost var was := entries[..];
      forall j | i <= j < len - 1 {
        entries[j] := entries[j + 1];
      }
      entries[len - 1] := BLANK;
      len := len - 1;
      GapClosed(was, entries[..], head, i, len + 1);
      contents := entries[head..len];
    }
  }

  lemma GapClosed(was: seq<Entry>, now: seq<Entry>, head: nat, i: nat, len: nat)
    requires head <= i < len <= |was| == |now|
    requires forall j | 0 <= j < i :: now[j] == was[j]
    requires forall j | i <= j < len - 1 :: now[j] == was[j + 1]
    ensures now[head..len - 1] == DropAt(was[head..len], i - head)
  {
    var a, b := now[head..len - 1], DropAt(was[head..len], i - head);
    forall j | 0 <= j < |a| ensures a[j] == b[j] {
      assert a[j] == now[head + j];
    }
  }

  lemma SkipsExpired(was: seq<Entry>, buffer: seq<Entry>, start: nat, head: nat, len: nat, now: int, duration: int)
    requires start <= head <= len <= |was| == |buffer| && buffer[head..] == was[head..]
    requires forall i | start <= i < head :: !Alive(was[i], now, duration)
    requires head < len ==> Alive(buffer[head], now, duration)
    ensures buffer[head..len] == RateLimitModel.Expire(was[start..len], now, duration)
  {
    var s := was[start..len];
    assert head < |was| ==> buffer[head..][0] == was[head..][0];
    ExpiredIs(s, head - start, now, duration);
    assert buffer[head..len] == buffer[head..][..len - head] == was[head..][..len - head] == s[head - start..];
  }

  lemma {:induction false} ExpiredIs(s: seq<Entry>, n: nat, now: int, duration: int)
    requires n <= |s|
    requires forall i | 0 <= i < n :: !Alive(s[i], now, duration)
    requires n < |s| ==> Alive(s[n], now, duration)
    ensures Expired(s, now, duration) == n
  {
  }

  lemma {:induction false} FindIdIs(s: seq<Entry>, n: nat, id: string)
    requires n <= |s|
    requires forall i | 0 <= i < n :: s[i].reservationID != id
    requires n < |s| ==> s[n].reservationID == id
    ensures FindId(s, id) == n
  {
  }
}

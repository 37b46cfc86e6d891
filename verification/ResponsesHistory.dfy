/**
  The snapshot history of one Responses WebSocket connection: a bounded map of conversation
  snapshots, evicted oldest first.  Byte lengths of raw JSON items are all that matters here.
 */
module ResponsesHistory {
  import opened Options

  const MAX_ENTRIES: nat := 64
  const MAX_BYTES: nat := 16777216

  /** A response ID; the blank one means "none". */
  datatype Id = Id(text: string)
  const BLANK := Id("")

  /** A raw JSON input or output item. */
  datatype Item = Item(raw: string)

  datatype Snapshot = Snapshot(input: seq<Item>, size: nat)

  datatype HistoryView = HistoryView(items: map<Id, Snapshot>, order: seq<Id>, bytes: int)

  const EMPTY := HistoryView(map[], [], 0)

  function ByteCount(items: seq<Item>): nat {
    if items == [] then 0 else ByteCount(items[..|items| - 1]) + |items[|items| - 1].raw|
  }

  // ---------------------------------------------------------------- bookkeeping invariant

  ghost predicate Distinct(s: seq<Id>) {
    forall i, j | 0 <= i < j < |s| :: s[i] != s[j]
  }

  /** Sum of the sizes of the listed snapshots. */
  function SizeSum(items: map<Id, Snapshot>, order: seq<Id>): nat {
    if order == [] then 0
    else (if order[0] in items then items[order[0]].size else 0) + SizeSum(items, order[1..])
  }

  /** The order lists the keys of the map once each. */
  ghost predicate Lists(order: seq<Id>, items: map<Id, Snapshot>) {
    Distinct(order) && Keys(order) == items.Keys
  }

  function Keys(order: seq<Id>): set<Id> {
    set i | 0 <= i < |order| :: order[i]
  }

  ghost predicate WellKept(h: HistoryView) {
    && Lists(h.order, h.items)
    && h.bytes == SizeSum(h.items, h.order) <= MAX_BYTES
    && |h.order| <= MAX_ENTRIES
    && forall k | k in h.items :: h.items[k].size == ByteCount(h.items[k].input)
  }

  // ---------------------------------------------------------------- eviction

  /** Dropping the `k` oldest snapshots leaves room for one of `size` bytes. */
  predicate Room(h: HistoryView, k: nat, size: nat)
    requires k <= |h.order|
  {
    |h.order| - k < MAX_ENTRIES && h.bytes - SizeSum(h.items, h.order[..k]) + size <= MAX_BYTES
  }

  function DropOldest(h: HistoryView, k: nat): HistoryView
    requires k <= |h.order|
  {
    HistoryView(h.items - Keys(h.order[..k]), h.order[k..], h.bytes - SizeSum(h.items, h.order[..k]))
  }

  /** The least number of oldest snapshots, from `k` on, whose removal makes room; all of them if none does. */
  function Needed(h: HistoryView, size: nat, k: nat): (n: nat)
    requires k <= |h.order|
    ensures k <= n <= |h.order|
    ensures forall j | k <= j < n :: !Room(h, j, size)
    ensures n < |h.order| ==> Room(h, n, size)
    decreases |h.order| - k
  {
    if k == |h.order| || Room(h, k, size) then k else Needed(h, size, k + 1)
  }

  function Append(h: HistoryView, id: Id, s: Snapshot): HistoryView {
    HistoryView(h.items[id := s], h.order + [id], h.bytes + s.size)
  }

  function Kept(input: seq<Item>, output: Option<seq<Item>>): seq<Item> {
    if output.Some? then input + output.value else input
  }

  /** The snapshot is worth storing and not stored yet. */
  predicate Storable(h: HistoryView, id: Id, input: seq<Item>, output: Option<seq<Item>>, warmup: bool) {
    && id != BLANK
    && (output.Some? || warmup)
    && ByteCount(Kept(input, output)) <= MAX_BYTES
    && id !in h.items
  }

  /** Storing a snapshot evicts the shortest oldest prefix that makes room. */
  function Remembered(h: HistoryView, id: Id, input: seq<Item>, output: Option<seq<Item>>, warmup: bool): HistoryView {
    if !Storable(h, id, input, output, warmup) then h
    else
      var items := Kept(input, output);
      var size := ByteCount(items);
      Append(DropOldest(h, Needed(h, size, 0)), id, Snapshot(items, size))
  }

  // ---------------------------------------------------------------- sums over sub-ranges

  lemma {:induction false} SizeSumSplit(items: map<Id, Snapshot>, a: seq<Id>, b: seq<Id>)
    ensures SizeSum(items, a + b) == SizeSum(items, a) + SizeSum(items, b)
    decreases |a|
  {
    if a == [] {
      assert a + b == b;
    } else {
      SizeSumSplit(items, a[1..], b);
      assert (a + b)[1..] == a[1..] + b;
    }
  }

  lemma {:induction false} SizeSumAgree(m: map<Id, Snapshot>, m': map<Id, Snapshot>, s: seq<Id>)
    requires forall i | 0 <= i < |s| :: s[i] in m && s[i] in m' && m[s[i]] == m'[s[i]]
    ensures SizeSum(m, s) == SizeSum(m', s)
    decreases |s|
  {
    if s != [] {
      SizeSumAgree(m, m', s[1..]);
    }
  }

  lemma KeysSplit(a: seq<Id>, b: seq<Id>)
    ensures Keys(a + b) == Keys(a) + Keys(b)
    ensures Distinct(a + b) ==> Distinct(a) && Distinct(b) && Keys(a) !! Keys(b)
  {
    var s := a + b;
    forall x | x in Keys(a) + Keys(b) ensures x in Keys(s) {
      if x in Keys(a) {
        var i :| 0 <= i < |a| && a[i] == x;
        assert s[i] == x;
      } else {
        var i :| 0 <= i < |b| && b[i] == x;
        assert s[|a| + i] == x;
      }
    }
    if Distinct(s) {
      forall i, j | 0 <= i < |a| && 0 <= j < |b| ensures a[i] != b[j] {
        assert s[i] == a[i] && s[|a| + j] == b[j];
      }
      forall i, j | 0 <= i < j < |b| ensures b[i] != b[j] {
        assert s[|a| + i] == b[i] && s[|a| + j] == b[j];
      }
      forall i, j | 0 <= i < j < |a| ensures a[i] != a[j] {
        assert s[i] == a[i] && s[j] == a[j];
      }
    }
  }

  /** Splitting the order splits the keys and the sizes. */
  lemma OrderSplit(h: HistoryView, k: nat)
    requires Lists(h.order, h.items) && k <= |h.order|
    ensures var a, b := h.order[..k], h.order[k..]; var rest := h.items - Keys(a);
            && Lists(b, rest)
            && SizeSum(h.items, h.order) == SizeSum(h.items, a) + SizeSum(rest, b)
  {
    var a, b := h.order[..k], h.order[k..];
    assert h.order == a + b;
    KeysSplit(a, b);
    SizeSumSplit(h.items, a, b);
    var rest := h.items - Keys(a);
    assert rest.Keys == Keys(b);
    hide Distinct, Lists;
    forall i | 0 <= i < |b| ensures b[i] in h.items && b[i] in rest && h.items[b[i]] == rest[b[i]] {
      assert b[i] in Keys(b);
    }
    SizeSumAgree(h.items, rest, b);
  }

  lemma DropOldestKept(h: HistoryView, k: nat)
    requires WellKept(h) && k <= |h.order|
    ensures WellKept(DropOldest(h, k))
  {
    OrderSplit(h, k);
    hide Lists, SizeSum, Keys;
  }

  lemma AppendKept(h: HistoryView, id: Id, s: Snapshot)
    requires WellKept(h) && id !in h.items
    requires |h.order| < MAX_ENTRIES && h.bytes + s.size <= MAX_BYTES && s.size == ByteCount(s.input)
    ensures WellKept(Append(h, id, s))
  {
    var h' := Append(h, id, s);
    KeysSplit(h.order, [id]);
    assert Keys([id]) == {id} by { assert [id][0] == id; }
    SizeSumSplit(h'.items, h.order, [id]);
    forall i | 0 <= i < |h.order| ensures h.order[i] in h.items && h.order[i] != id {
      assert h.order[i] in Keys(h.order);
    }
    SizeSumAgree(h.items, h'.items, h.order);
    assert SizeSum(h'.items, [id]) == s.size;
  }

  /** Removing everything always makes room for a snapshot within the byte limit. */
  lemma NeededMakesRoom(h: HistoryView, size: nat)
    requires WellKept(h) && size <= MAX_BYTES
    ensures Room(h, Needed(h, size, 0), size)
  {
    assert h.order[..|h.order|] == h.order;
    assert Room(h, |h.order|, size);
  }

  lemma RememberedKept(h: HistoryView, id: Id, input: seq<Item>, output: Option<seq<Item>>, warmup: bool)
    requires WellKept(h)
    ensures WellKept(Remembered(h, id, input, output, warmup))
  {
    if Storable(h, id, input, output, warmup) {
      var items := Kept(input, output);
      var n := Needed(h, ByteCount(items), 0);
      NeededMakesRoom(h, ByteCount(items));
      DropOldestKept(h, n);
      AppendKept(DropOldest(h, n), id, Snapshot(items, ByteCount(items)));
    }
  }

  /**
    Storing leaves the newest snapshots in their order with the new one behind them; one older
    would have been too many or too much next to it.
   */
  lemma RememberExact(h: HistoryView, id: Id, input: seq<Item>, output: Option<seq<Item>>, warmup: bool) returns (k: nat)
    requires WellKept(h) && Storable(h, id, input, output, warmup)
    ensures var h', size := Remembered(h, id, input, output, warmup), ByteCount(Kept(input, output));
            && k <= |h.order| && h'.order == h.order[k..] + [id]
            && |h.order| - k < 64 && SizeSum(h.items, h.order[k..]) + size <= 16777216
            && (k > 0 ==> |h.order| - (k - 1) >= 64 || SizeSum(h.items, h.order[k - 1..]) + size > 16777216)
  {
    var size := ByteCount(Kept(input, output));
    k := Needed(h, size, 0);
    NeededMakesRoom(h, size);
    hide ByteCount, Lists;
    OldAndNew(h, k);
    if k > 0 {
      assert !Room(h, k - 1, size);
      OldAndNew(h, k - 1);
    }
  }

  lemma OldAndNew(h: HistoryView, k: nat)
    requires WellKept(h) && k <= |h.order|
    ensures h.bytes == SizeSum(h.items, h.order[..k]) + SizeSum(h.items, h.order[k..])
  {
    SizeSumSplit(h.items, h.order[..k], h.order[k..]);
    assert h.order[..k] + h.order[k..] == h.order;
  }

  // ---------------------------------------------------------------- preparing a request

  /**
    What a request body says: its own input items, the previous response it continues (blank
    when there is none) and whether it forbids storing.  An absent part did not parse.
   */
  datatype Request = Request(own: Option<seq<Item>>, previous: Option<Id>, forbidsStore: bool)

  datatype Preparation = Ready(input: seq<Item>, replayable: bool) | Refused

  /** A known parent is replayed in front of the request's own input; `length` is that of the encoded result. */
  function Prepare(h: HistoryView, r: Request, length: nat, limit: nat): Preparation {
    if r.own.None? || r.previous.None? then Refused
    else
      var previous := r.previous.value;
      var unknown := previous != BLANK && previous !in h.items;
      if (unknown && r.forbidsStore) || length > limit then Refused
      else Ready(if previous in h.items && previous != BLANK then h.items[previous].input + r.own.value else r.own.value, !unknown)
  }

  // ---------------------------------------------------------------- the history object

  class History {
    var items: map<Id, Snapshot>
    var order: seq<Id>
    var bytes: int

    ghost function View(): HistoryView
      reads this
    {
      HistoryView(items, order, bytes)
    }

    constructor ()
      ensures View() == EMPTY
    {
      items, order, bytes := map[], [], 0;
    }

    method CountBytes(s: seq<Item>) returns (n: nat)
      ensures n == ByteCount(s)
    {
      n := 0;
      for i := 0 to |s|
        invariant n == ByteCount(s[..i])
      {
        assert s[..i + 1][..i] == s[..i];
        n := n + |s[i].raw|;
      }
      assert s[..|s|] == s;
    }

    /** Makes room oldest first; the loop never looks into an empty order. */
    method Evict(size: nat)
      requires WellKept(View()) && size <= MAX_BYTES
      modifies this
      ensures WellKept(View())
      ensures View() == DropOldest(old(View()), Needed(old(View()), size, 0))
    {
      ghost var h, k := View(), 0;
      DropNone(h);
      hide WellKept, Needed, SizeSum, Keys, DropOldest, Room;
      while |order| >= MAX_ENTRIES || bytes + size > MAX_BYTES
        invariant 0 <= k <= Needed(h, size, 0) && WellKept(View()) && View() == DropOldest(h, k)
        decreases |h.order| - k
      {
        DropRoom(h, k, size);
        EvictOne(h, k, size);
        var first := order[0];
        order := order[1..];
        bytes := bytes - items[first].size;
        items := items - {first};
        k := k + 1;
      }
      DropRoom(h, k, size);
    }

    method Store(id: Id, s: Snapshot)
      modifies this
      ensures View() == Append(old(View()), id, s)
    {
      items := items[id := s];
      order := order + [id];
      bytes := bytes + s.size;
    }

    /** Stores a snapshot unless it is pointless, too large or already there. */
    method Remember(id: Id, input: seq<Item>, output: Option<seq<Item>>, warmup: bool)
      requires WellKept(View())
      modifies this
      ensures WellKept(View())
      ensures View() == Remembered(old(View()), id, input, output, warmup)
    {
      RememberedKept(View(), id, input, output, warmup);
      hide WellKept, Needed, DropOldest, ByteCount, Append;
      if id == BLANK || (output.None? && !warmup) {
        return;
      }
      var kept := Kept(input, output);
      var size := CountBytes(kept);
      if size > MAX_BYTES || id in items {
        return;
      }
      Evict(size);
      Store(id, Snapshot(kept, size));
    }
  }

  lemma DropNone(h: HistoryView)
    ensures DropOldest(h, 0) == h
  {
    assert h.order[..0] == [];
  }

  /** The loop goes on exactly while there is no room, so it stops at the least sufficient number. */
  lemma DropRoom(h: HistoryView, k: nat, size: nat)
    requires k <= Needed(h, size, 0)
    ensures var d := DropOldest(h, k); |d.order| >= MAX_ENTRIES || d.bytes + size > MAX_BYTES <==> !Room(h, k, size)
    ensures Room(h, k, size) ==> k == Needed(h, size, 0)
  {
  }

  /** One more eviction: there is an oldest snapshot, and dropping it is dropping one more of the original order. */
  lemma EvictOne(h: HistoryView, k: nat, size: nat)
    requires WellKept(h) && size <= MAX_BYTES && k <= Needed(h, size, 0) && !Room(h, k, size)
    ensures k < Needed(h, size, 0)
    ensures var d := DropOldest(h, k);
            && d.order != [] && d.order[0] in d.items
            && DropOldest(h, k + 1) == HistoryView(d.items - {d.order[0]}, d.order[1..], d.bytes - d.items[d.order[0]].size)
    ensures WellKept(DropOldest(h, k + 1))
  {
    assert Lists(h.order, h.items);
    hide WellKept, Lists, Needed, DropOldest, Room, SizeSum, Keys;
    NeededMakesRoom(h, size);
    DropRoom(h, k, size);
    DropOldestKept(h, k + 1);
    DropStep(h, k);
  }

  lemma OneKey(items: map<Id, Snapshot>, first: Id)
    requires first in items
    ensures Keys([first]) == {first} && SizeSum(items, [first]) == items[first].size
  {
    assert [first][0] == first;
  }

  lemma ListedAt(h: HistoryView, k: nat)
    requires Lists(h.order, h.items) && k < |h.order|
    ensures h.order[k] in h.items && h.order[k] !in Keys(h.order[..k])
  {
    assert h.order[k] in Keys(h.order);
  }

  lemma DropStep(h: HistoryView, k: nat)
    requires Lists(h.order, h.items) && k < |h.order|
    ensures var d := DropOldest(h, k);
            && d.order[0] in d.items
            && DropOldest(h, k + 1) == HistoryView(d.items - {d.order[0]}, d.order[1..], d.bytes - d.items[d.order[0]].size)
  {
    hide Lists, Distinct, Keys, SizeSum;
    var first, a := h.order[k], h.order[..k];
    ListedAt(h, k);
    OneKey(h.items, first);
    assert h.order[..k + 1] == a + [first];
    KeysSplit(a, [first]);
    SizeSumSplit(h.items, a, [first]);
    assert h.items - (Keys(a) + {first}) == (h.items - Keys(a)) - {first};
  }
}

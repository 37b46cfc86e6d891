/**
  The limiter answers exactly what counting the naive log answers, over every legal run, with
  cleanup interleaved anywhere.  From that: no window is ever over-admitted, `RetryAfter` is
  exact, and cleanup removes precisely the idle buckets that hold nothing live.
 */
module RateLimitRefinement {
  import opened RateLimitModel

  // ---------------------------------------------------------------- invariant

  ghost predicate NoDup(s: seq<Key>) {
    forall i, j | 0 <= i < j < |s| :: s[i] != s[j]
  }

  /** The recency list is a bijection with the store, most recently active first. */
  ghost predicate LruOk(l: LimiterView) {
    && ByRecency(l.lru, l.store)
    && (forall k | k in l.store :: IndexOf(l.lru, k) < |l.lru|)
  }

  ghost predicate ByRecency(s: seq<Key>, store: map<Key, BucketView>) {
    && NoDup(s)
    && (forall i | 0 <= i < |s| :: s[i] in store)
    && (forall i, j | 0 <= i < j < |s| :: store[s[j]].lastActive <= store[s[i]].lastActive)
  }

  function KeptOf(l: LimiterView, k: Key): seq<Entry> {
    if k in l.store then l.store[k].entries else []
  }

  /** `kept` is the tail of the log; what was forgotten is dead now and for every shorter duration. */
  ghost predicate Tracks(log: seq<Entry>, kept: seq<Entry>, now: int, horizon: int) {
    && |kept| <= |log|
    && kept == log[|log| - |kept|..]
    && forall i | 0 <= i < |log| - |kept| :: !Alive(log[i], now, horizon)
  }

  ghost predicate UniqueIds(s: seq<Entry>) {
    forall i, j | 0 <= i < j < |s| && s[i].reservationID != "" :: s[i].reservationID != s[j].reservationID
  }

  ghost predicate LogOk(s: seq<Entry>, now: int) {
    && Sorted(s)
    && UniqueIds(s)
    && forall i | 0 <= i < |s| :: s[i].timestamp <= now
  }

  ghost predicate KeyOk(l: LimiterView, r: Record, k: Key)
    requires k in r.log
  {
    && k in r.horizon
    && LogOk(r.log[k], Unix(r.clock))
    && Tracks(r.log[k], KeptOf(l, k), Unix(r.clock), r.horizon[k])
    && (k in l.store ==>
          && l.store[k].entries != []
          && r.horizon[k] <= l.store[k].window
          && l.store[k].lastActive <= r.clock)
  }

  ghost predicate Inv(l: LimiterView, r: Record) {
    && LruOk(l)
    && KeysOk(l, r)
  }

  ghost predicate KeysOk(l: LimiterView, r: Record) {
    && (forall k | k in l.store :: k in r.log)
    && (forall k | k in r.log :: KeyOk(l, r, k))
  }

  // ---------------------------------------------------------------- counting

  lemma {:induction false} LiveSplit(s: seq<Entry>, n: nat, now: int, d: int)
    requires n <= |s|
    requires forall i | 0 <= i < n :: !Alive(s[i], now, d)
    requires forall i | n <= i < |s| :: Alive(s[i], now, d)
    ensures Live(s, now, d) == |s| - n
    decreases |s|
  {
    if s == [] {
    } else if n == 0 {
      LiveSplit(s[1..], 0, now, d);
    } else {
      LiveSplit(s[1..], n - 1, now, d);
    }
  }

  lemma {:induction false} OldestSplit(s: seq<Entry>, n: nat, now: int, d: int)
    requires n < |s| && Sorted(s)
    requires forall i | 0 <= i < n :: !Alive(s[i], now, d)
    requires forall i | n <= i < |s| :: Alive(s[i], now, d)
    ensures Live(s, now, d) > 0 && Oldest(s, now, d) == s[n].timestamp
    decreases |s|
  {
    LiveSplit(s, n, now, d);
    LiveSplit(s[1..], if n == 0 then 0 else n - 1, now, d);
    if n > 0 {
      OldestSplit(s[1..], n - 1, now, d);
    } else if |s| > 1 {
      OldestSplit(s[1..], 0, now, d);
    }
  }

  /** Where the live part of the log starts once the kept tail has been expired. */
  lemma ExpireSplit(log: seq<Entry>, kept: seq<Entry>, clock: int, now: int, horizon: int, d: int) returns (m: nat)
    requires Sorted(log) && Tracks(log, kept, clock, horizon)
    requires clock <= now && d <= horizon
    ensures m <= |log| && Expire(kept, now, d) == log[m..]
    ensures forall i | 0 <= i < m :: !Alive(log[i], now, d)
    ensures forall i | m <= i < |log| :: Alive(log[i], now, d)
  {
    var n := |log| - |kept|;
    m := n + Expired(kept, now, d);
    assert forall i | 0 <= i < |kept| :: kept[i] == log[n + i];
    forall i | n <= i < m ensures !Alive(log[i], now, d) {
      assert log[i] == kept[i - n];
    }
    if m < |log| {
      assert log[m] == kept[m - n];
      assert Alive(log[m], now, d);
    }
  }

  /** On a log whose tail is kept, expiring the tail finds exactly the entries counting finds. */
  lemma ExpireCounts(log: seq<Entry>, kept: seq<Entry>, clock: int, now: int, horizon: int, d: int)
    requires Sorted(log) && Tracks(log, kept, clock, horizon)
    requires clock <= now && d <= horizon
    ensures Tracks(log, Expire(kept, now, d), now, d)
    ensures Live(log, now, d) == |Expire(kept, now, d)|
    ensures Expire(kept, now, d) != [] ==> Oldest(log, now, d) == Expire(kept, now, d)[0].timestamp
  {
    var m := ExpireSplit(log, kept, clock, now, horizon, d);
    LiveSplit(log, m, now, d);
    if m < |log| {
      OldestSplit(log, m, now, d);
    }
  }

  // ---------------------------------------------------------------- frames

  /** A key the step did not touch stays related while time passes. */
  lemma KeyOkFrame(l: LimiterView, r: Record, l': LimiterView, r': Record, k: Key)
    requires k in r.log && KeyOk(l, r, k)
    requires k in r'.log && r'.log[k] == r.log[k]
    requires k in r.horizon ==> k in r'.horizon && r'.horizon[k] == r.horizon[k]
    requires r.clock <= r'.clock
    requires (k in l.store) == (k in l'.store) && (k in l.store ==> l'.store[k] == l.store[k])
    ensures KeyOk(l', r', k)
  {
  }

  lemma UnlinkAt(s: seq<Key>, n: nat)
    requires n < |s|
    ensures var w := s[..n] + s[n + 1..];
            |w| == |s| - 1 && forall i | 0 <= i < |w| :: w[i] == s[if i < n then i else i + 1]
  {
  }

  lemma UnlinkNoDup(s: seq<Key>, n: nat, w: seq<Key>)
    requires NoDup(s) && n < |s| && |w| == |s| - 1
    requires forall i | 0 <= i < |w| :: w[i] == s[if i < n then i else i + 1]
    ensures NoDup(w) && forall i | 0 <= i < |w| :: w[i] != s[n]
  {
  }

  /** Where the elements of a list end up when one is unlinked. */
  lemma WithoutAt(s: seq<Key>, k: Key)
    requires NoDup(s)
    ensures var n := IndexOf(s, k); var w := Without(s, k);
            && |w| == (if n < |s| then |s| - 1 else |s|)
            && (forall i | 0 <= i < |w| :: w[i] == s[if i < n then i else i + 1])
            && (forall i | 0 <= i < |w| :: w[i] != k)
            && NoDup(w)
  {
    var n := IndexOf(s, k);
    hide NoDup, IndexOf;
    if n < |s| {
      UnlinkAt(s, n);
      UnlinkNoDup(s, n, Without(s, k));
    }
  }

  lemma {:induction false} IndexOfAt(s: seq<Key>, i: nat)
    requires i < |s|
    ensures IndexOf(s, s[i]) <= i
  {
  }

  lemma WithoutKeeps(s: seq<Key>, k: Key, x: Key)
    requires NoDup(s) && x != k && IndexOf(s, x) < |s|
    ensures IndexOf(Without(s, k), x) < |Without(s, k)|
  {
    WithoutAt(s, k);
    var i, n, w := IndexOf(s, x), IndexOf(s, k), Without(s, k);
    var i' := if i < n then i else i - 1;
    assert w[i'] == x;
    IndexOfAt(w, i');
  }

  /** Unlinking keeps the recency order of the others. */
  lemma WithoutRecency(s: seq<Key>, store: map<Key, BucketView>, key: Key)
    requires ByRecency(s, store)
    ensures ByRecency(Without(s, key), store)
    ensures ByRecency(Without(s, key), store - {key})
  {
    WithoutAt(s, key);
  }

  lemma RemoveBucketLru(l: LimiterView, key: Key)
    requires LruOk(l) && key in l.store
    ensures LruOk(RemoveBucket(l, key))
  {
    WithoutRecency(l.lru, l.store, key);
    forall k | k in l.store - {key} ensures IndexOf(Without(l.lru, key), k) < |Without(l.lru, key)| {
      WithoutKeeps(l.lru, key, k);
    }
  }

  lemma MoveToFrontLru(l: LimiterView, key: Key, b: BucketView)
    requires LruOk(l)
    requires forall k | k in l.store :: l.store[k].lastActive <= b.lastActive
    ensures LruOk(LimiterView(l.store[key := b], [key] + Without(l.lru, key)))
  {
    var s := [key] + Without(l.lru, key);
    forall k | k in l.store[key := b] ensures IndexOf(s, k) < |s| {
      FrontKeeps(l, key, k);
    }
    WithoutRecency(l.lru, l.store, key);
    WithoutAt(l.lru, key);
    FrontOrder(Without(l.lru, key), l.store, key, b);
  }

  lemma FrontOrder(w: seq<Key>, store: map<Key, BucketView>, key: Key, b: BucketView)
    requires ByRecency(w, store)
    requires forall i | 0 <= i < |w| :: w[i] != key
    requires forall k | k in store :: store[k].lastActive <= b.lastActive
    ensures ByRecency([key] + w, store[key := b])
  {
  }

  lemma FrontKeeps(l: LimiterView, key: Key, k: Key)
    requires LruOk(l) && (k == key || k in l.store)
    ensures var s := [key] + Without(l.lru, key); IndexOf(s, k) < |s|
  {
    var w := Without(l.lru, key);
    var s := [key] + w;
    if k == key {
      IndexOfAt(s, 0);
    } else {
      WithoutKeeps(l.lru, key, k);
      assert w[IndexOf(w, k)] == s[IndexOf(w, k) + 1];
      IndexOfAt(s, IndexOf(w, k) + 1);
    }
  }

  // ---------------------------------------------------------------- the steps refine the log

  lemma UnixMonotone(a: int, b: int)
    requires a <= b
    ensures Unix(a) <= Unix(b)
  {
  }

  /** Letting time pass changes nothing. */
  lemma KeysLater(l: LimiterView, r: Record, now: int)
    requires KeysOk(l, r) && r.clock <= now
    ensures KeysOk(l, r.(clock := now))
  {
    hide KeyOk;
    forall k | k in r.log ensures KeyOk(l, r.(clock := now), k) {
      KeyOkFrame(l, r, l, r.(clock := now), k);
    }
  }

  /** A step that touches only `key` keeps every key related once it has done so for `key`. */
  lemma KeysFrame(l: LimiterView, r: Record, l': LimiterView, r': Record, key: Key)
    requires KeysOk(l, r) && r.clock <= r'.clock
    requires l'.store - {key} == l.store - {key}
    requires r'.log - {key} == r.log - {key}
    requires r'.horizon - {key} == r.horizon - {key}
    requires key in l'.store ==> key in r'.log
    requires key in r'.log ==> KeyOk(l', r', key)
    ensures KeysOk(l', r')
  {
    hide KeyOk;
    forall k | k in l'.store ensures k in r'.log {
      if k != key {
        assert k in l'.store - {key};
        assert k in r.log - {key};
      }
    }
    forall k | k in r'.log ensures KeyOk(l', r', k) {
      if k != key {
        SameAt(l.store, l'.store, key, k);
        SameAt(r.log, r'.log, key, k);
        SameAt(r.horizon, r'.horizon, key, k);
        KeyOkFrame(l, r, l', r', k);
      }
    }
  }

  lemma SameAt<T>(m: map<Key, T>, m': map<Key, T>, key: Key, k: Key)
    requires m - {key} == m' - {key} && k != key
    ensures (k in m) == (k in m') && (k in m ==> m[k] == m'[k])
  {
    assert k in m <==> k in m - {key};
    assert k in m' <==> k in m' - {key};
    assert k in m ==> (m - {key})[k] == m[k];
    assert k in m' ==> (m' - {key})[k] == m'[k];
  }

  /** The log still meets its own conditions after `weight` equal entries are appended now. */
  lemma AppendLogOk(s: seq<Entry>, now: int, weight: nat, id: string)
    requires LogOk(s, now)
    requires id != "" ==> weight == 1 && FindId(s, id) == |s|
    ensures LogOk(s + Copies(weight, Entry(now, id)), now)
  {
  }

  /** Expiring and appending keeps the bucket a tail of the log. */
  lemma AppendTracks(s: seq<Entry>, kept: seq<Entry>, now: int, d: int, weight: nat, e: Entry)
    requires Tracks(s, kept, now, d)
    ensures Tracks(s + Copies(weight, e), kept + Copies(weight, e), now, d)
  {
  }

  lemma ReserveKey(l: LimiterView, r: Record, now: int, key: Key, max: int, d: int, weight: int, id: string)
    requires r.clock <= now && Counts(max, weight)
    requires if key in r.log then KeyOk(l, r, key) else key !in l.store
    requires key in r.horizon ==> d <= r.horizon[key]
    requires id != "" ==> Weight(weight) == 1 && FindId(LogOf(r, key), id) == |LogOf(r, key)|
    ensures var (l', ok) := ReserveN(l, now, key, max, d, weight, id);
            var r' := Admit(r, now, key, max, d, weight, id, ok);
            && ok == NaiveAdmits(LogOf(r, key), now, max, d, weight)
            && key in r'.log && KeyOk(l', r', key)
  {
    UnixMonotone(r.clock, now);
    var log, kept := LogOf(r, key), KeptOf(l, key);
    if key in r.log {
      ExpireCounts(log, kept, Unix(r.clock), Unix(now), r.horizon[key], d);
    }
    AppendLogOk(log, Unix(now), Weight(weight), id);
    AppendTracks(log, Expire(kept, Unix(now), d), Unix(now), d, Weight(weight), Entry(Unix(now), id));
  }

  lemma ReserveLru(l: LimiterView, now: int, key: Key, max: int, d: int, weight: int, id: string)
    requires LruOk(l) && forall k | k in l.store :: l.store[k].lastActive <= now
    ensures LruOk(ReserveN(l, now, key, max, d, weight, id).0)
  {
    if Counts(max, weight) {
      MoveToFrontLru(l, key, ReserveN(l, now, key, max, d, weight, id).0.store[key]);
    }
  }

  lemma LastActiveBound(l: LimiterView, r: Record, now: int)
    requires KeysOk(l, r) && r.clock <= now
    ensures forall k | k in l.store :: l.store[k].lastActive <= now
  {
    forall k | k in l.store ensures l.store[k].lastActive <= now {
      assert KeyOk(l, r, k);
    }
  }

  /** A reservation touches no other key. */
  lemma ReserveFrame(l: LimiterView, r: Record, now: int, key: Key, max: int, d: int, weight: int, id: string)
    ensures var (l', ok) := ReserveN(l, now, key, max, d, weight, id);
            var r' := Admit(r, now, key, max, d, weight, id, ok);
            && l'.store - {key} == l.store - {key}
            && r'.log - {key} == r.log - {key} && r'.horizon - {key} == r.horizon - {key}
            && r'.clock == now
  {
    hide Expire, Copies, Without, Unix;
    var (l', ok) := ReserveN(l, now, key, max, d, weight, id);
    var r' := Admit(r, now, key, max, d, weight, id, ok);
    if Counts(max, weight) {
      UpdateKeeps(l.store, key, l'.store[key]);
      UpdateKeeps(r.log, key, LogOf(r, key));
      UpdateKeeps(r.log[key := LogOf(r, key)], key, r'.log[key]);
      UpdateKeeps(r.horizon, key, d);
    }
  }

  lemma UpdateKeeps<T>(m: map<Key, T>, key: Key, v: T)
    ensures m[key := v] - {key} == m - {key}
  {
  }

  lemma ReserveKeys(l: LimiterView, r: Record, now: int, key: Key, max: int, d: int, weight: int, id: string)
    requires KeysOk(l, r) && r.clock <= now
    requires Counts(max, weight) && key in r.horizon ==> d <= r.horizon[key]
    requires id != "" ==> Weight(weight) == 1 && FindId(LogOf(r, key), id) == |LogOf(r, key)|
    ensures var (l', ok) := ReserveN(l, now, key, max, d, weight, id);
            && ok == NaiveAdmits(LogOf(r, key), now, max, d, weight)
            && KeysOk(l', Admit(r, now, key, max, d, weight, id, ok))
  {
    hide KeyOk;
    if !Counts(max, weight) {
      KeysLater(l, r, now);
    } else {
      assert if key in r.log then KeyOk(l, r, key) else key !in l.store;
      hide KeysOk, NaiveAdmits, FindId;
      ReserveKey(l, r, now, key, max, d, weight, id);
      ReserveFrame(l, r, now, key, max, d, weight, id);
      hide ReserveN, Admit;
      var (l', ok) := ReserveN(l, now, key, max, d, weight, id);
      KeysFrame(l, r, l', Admit(r, now, key, max, d, weight, id, ok), key);
    }
  }

  /** Cancelling hits the same entry in the log and in the kept tail, or one the tail forgot. */
  lemma CancelSame(log: seq<Entry>, n: nat, id: string)
    requires n <= |log| && UniqueIds(log) && id != ""
    ensures FindId(log[n..], id) < |log| - n ==> FindId(log, id) == n + FindId(log[n..], id)
    ensures FindId(log[n..], id) == |log| - n ==> FindId(log, id) < n || FindId(log, id) == |log|
  {
    var i, j := FindId(log, id), FindId(log[n..], id);
    if j < |log| - n {
      assert log[n + j] == log[n..][j];
    } else {
      assert forall m | n <= m < |log| :: log[m] == log[n..][m - n];
    }
  }

  ghost predicate AllDead(s: seq<Entry>, now: int, h: int) {
    forall i | 0 <= i < |s| :: !Alive(s[i], now, h)
  }

  lemma TracksIntro(dead: seq<Entry>, kept: seq<Entry>, now: int, h: int)
    requires AllDead(dead, now, h)
    ensures Tracks(dead + kept, kept, now, h)
  {
  }

  lemma DropRight(a: seq<Entry>, b: seq<Entry>, j: nat)
    ensures DropAt(a + b, |a| + j) == a + DropAt(b, j)
  {
  }

  lemma DropNone(s: seq<Entry>)
    ensures DropAt(s, |s|) == s
  {
  }

  lemma DropLeft(a: seq<Entry>, b: seq<Entry>, i: nat, now: int, h: int)
    requires i < |a| && AllDead(a, now, h)
    ensures DropAt(a + b, i) == DropAt(a, i) + b && AllDead(DropAt(a, i), now, h)
  {
    var s := DropAt(a, i);
    assert forall k | 0 <= k < |s| :: s[k] == a[if k < i then k else k + 1];
    assert DropAt(a + b, i) == s + b by {
      assert (a + b)[..i] == a[..i] && (a + b)[i + 1..] == a[i + 1..] + b;
    }
  }

  /** What is tracked is a dead prefix of the log followed by what is kept. */
  lemma TracksSplit(log: seq<Entry>, kept: seq<Entry>, now: int, h: int) returns (dead: seq<Entry>)
    requires Tracks(log, kept, now, h)
    ensures AllDead(dead, now, h) && log == dead + kept && dead == log[..|log| - |kept|] && kept == log[|dead|..]
  {
    dead := log[..|log| - |kept|];
  }

  lemma CancelTracks(log: seq<Entry>, kept: seq<Entry>, now: int, h: int, id: string)
    requires Tracks(log, kept, now, h) && UniqueIds(log) && id != ""
    ensures Tracks(DropAt(log, FindId(log, id)), DropAt(kept, FindId(kept, id)), now, h)
  {
    hide Tracks, UniqueIds, FindId, AllDead, DropAt;
    var dead := TracksSplit(log, kept, now, h);
    var i, j := FindId(log, id), FindId(kept, id);
    CancelSame(log, |dead|, id);
    if i == |dead| + j {
      DropRight(dead, kept, j);
      TracksIntro(dead, DropAt(kept, j), now, h);
    } else {
      DropLeft(dead, kept, i, now, h);
      DropNone(kept);
      TracksIntro(DropAt(dead, i), kept, now, h);
    }
  }

  lemma DropLogOk(log: seq<Entry>, now: int, i: nat)
    requires LogOk(log, now)
    ensures LogOk(DropAt(log, i), now)
  {
  }

  lemma CancelKey(l: LimiterView, r: Record, key: Key, id: string)
    requires key in r.log && KeyOk(l, r, key) && id != ""
    ensures KeyOk(CancelOne(l, key, id), Note(r, r.clock, Cancel(key, id), Done), key)
  {
    CancelTracks(r.log[key], KeptOf(l, key), Unix(r.clock), r.horizon[key], id);
    DropLogOk(r.log[key], Unix(r.clock), FindId(r.log[key], id));
  }

  lemma CancelLru(l: LimiterView, key: Key, id: string)
    requires LruOk(l)
    ensures LruOk(CancelOne(l, key, id))
  {
    if key in l.store { RemoveBucketLru(l, key); }
  }

  lemma CancelKeys(l: LimiterView, r: Record, now: int, key: Key, id: string)
    requires KeysOk(l, r) && r.clock <= now
    ensures KeysOk(CancelOne(l, key, id), Note(r, now, Cancel(key, id), Done))
  {
    hide KeyOk;
    KeysLater(l, r, now);
    var r1 := r.(clock := now);
    if id != "" && key in r.log {
      assert KeyOk(l, r1, key);
      CancelKey(l, r1, key, id);
      KeysFrame(l, r1, CancelOne(l, key, id), Note(r, now, Cancel(key, id), Done), key);
    }
  }

  lemma RetryKey(l: LimiterView, r: Record, now: int, key: Key, d: int)
    requires key in r.log && KeyOk(l, r, key) && r.clock <= now
    requires 0 < d && (key in r.horizon ==> d <= r.horizon[key])
    ensures var (l', delay) := RetryDelay(l, now, key, d);
            && delay == NaiveDelay(r.log[key], now, d)
            && KeyOk(l', Observed(r, now, key, d), key)
  {
    UnixMonotone(r.clock, now);
    ExpireCounts(r.log[key], KeptOf(l, key), Unix(r.clock), Unix(now), r.horizon[key], d);
  }

  lemma RetryLru(l: LimiterView, now: int, key: Key, d: int)
    requires LruOk(l)
    ensures LruOk(RetryDelay(l, now, key, d).0)
  {
    if key in l.store { RemoveBucketLru(l, key); }
  }

  lemma RetryKeys(l: LimiterView, r: Record, now: int, key: Key, d: int)
    requires KeysOk(l, r) && r.clock <= now
    requires 0 < d && key in r.horizon ==> d <= r.horizon[key]
    ensures var (l', delay) := RetryDelay(l, now, key, d);
            && delay == NaiveDelay(LogOf(r, key), now, d)
            && KeysOk(l', Note(r, now, RetryAfter(key, d), Delay(delay)))
  {
    hide KeyOk;
    KeysLater(l, r, now);
    if d > 0 && key in r.log {
      assert KeyOk(l, r, key);
      RetryKey(l, r, now, key, d);
      KeysFrame(l, r, RetryDelay(l, now, key, d).0, Observed(r, now, key, d), key);
    }
  }

  // ---------------------------------------------------------------- cleanup

  lemma TailSorted(log: seq<Entry>, n: nat)
    requires Sorted(log) && n <= |log|
    ensures Sorted(log[n..])
  {
  }

  /** In a stored bucket the newest entry is dead only when every entry is. */
  lemma SpentMeansDead(b: BucketView, asOf: int)
    requires b.entries != [] && Sorted(b.entries)
    ensures Spent(b, asOf) <==> forall i | 0 <= i < |b.entries| :: !Alive(b.entries[i], Unix(asOf), b.window)
  {
    var last := b.entries[|b.entries| - 1];
    if Spent(b, asOf) {
      forall i | 0 <= i < |b.entries| ensures b.entries[i].timestamp <= last.timestamp {
      }
    }
  }

  lemma StoredOk(l: LimiterView, r: Record, k: Key)
    requires KeysOk(l, r) && k in l.store
    ensures k in r.log && KeyOk(l, r, k)
    ensures l.store[k].entries != [] && Sorted(l.store[k].entries)
  {
    assert KeyOk(l, r, k);
    TailSorted(r.log[k], |r.log[k]| - |l.store[k].entries|);
  }

  lemma RemoveSpentKey(l: LimiterView, r: Record, k: Key, asOf: int)
    requires k in l.store && k in r.log && KeyOk(l, r, k)
    requires Sorted(l.store[k].entries)
    requires Spent(l.store[k], asOf) && asOf <= r.clock
    ensures KeyOk(RemoveBucket(l, k), r, k)
  {
    UnixMonotone(asOf, r.clock);
    SpentMeansDead(l.store[k], asOf);
    var kept, log := l.store[k].entries, r.log[k];
    forall i | 0 <= i < |log| ensures !Alive(log[i], Unix(r.clock), r.horizon[k]) {
      if i >= |log| - |kept| {
        assert log[i] == kept[i - (|log| - |kept|)];
      }
    }
  }

  lemma RemoveSpent(l: LimiterView, r: Record, k: Key, asOf: int)
    requires KeysOk(l, r) && k in l.store && Spent(l.store[k], asOf) && asOf <= r.clock
    ensures KeysOk(RemoveBucket(l, k), r)
  {
    hide KeyOk;
    StoredOk(l, r, k);
    RemoveSpentKey(l, r, k, asOf);
    KeysFrame(l, r, RemoveBucket(l, k), r, k);
  }

  lemma {:induction false} CleanupKeys(l: LimiterView, r: Record, expiration: int, asOf: int, n: nat)
    requires KeysOk(l, r) && asOf <= r.clock
    ensures KeysOk(CleanupFrom(l, expiration, asOf, n), r)
    decreases n
  {
    hide KeyOk;
    if n != 0 && n <= |l.lru| && l.lru[n - 1] in l.store && asOf - l.store[l.lru[n - 1]].lastActive > expiration {
      var key := l.lru[n - 1];
      if Spent(l.store[key], asOf) {
        RemoveSpent(l, r, key, asOf);
        CleanupKeys(RemoveBucket(l, key), r, expiration, asOf, n - 1);
      } else {
        CleanupKeys(l, r, expiration, asOf, n - 1);
      }
    }
  }

  lemma {:induction false} CleanupLru(l: LimiterView, expiration: int, asOf: int, n: nat)
    requires LruOk(l)
    ensures LruOk(CleanupFrom(l, expiration, asOf, n))
    decreases n
  {
    hide LruOk, Spent, Without;
    if n != 0 && n <= |l.lru| {
      ListedStored(l, n - 1);
      RemoveBucketLru(l, l.lru[n - 1]);
      CleanupLru(RemoveBucket(l, l.lru[n - 1]), expiration, asOf, n - 1);
      CleanupLru(l, expiration, asOf, n - 1);
    }
  }

  /** What cleanup should do, said without the list: drop the idle buckets that hold nothing live. */
  predicate Stale(b: BucketView, expiration: int, asOf: int) {
    && asOf - b.lastActive > expiration
    && forall i | 0 <= i < |b.entries| :: !Alive(b.entries[i], Unix(asOf), b.window)
  }

  lemma IndexOfIs(s: seq<Key>, n: nat)
    requires NoDup(s) && n < |s|
    ensures IndexOf(s, s[n]) == n
  {
    IndexOfAt(s, n);
  }

  /** Every stored bucket is non-empty and in time order. */
  ghost predicate BucketsOk(l: LimiterView) {
    forall k | k in l.store :: l.store[k].entries != [] && Sorted(l.store[k].entries)
  }

  /** Past position `n` of the list nothing is stale any more. */
  ghost predicate SweptFrom(l: LimiterView, expiration: int, asOf: int, n: nat) {
    forall k | k in l.store && n <= IndexOf(l.lru, k) :: !Stale(l.store[k], expiration, asOf)
  }

  lemma SweepRecent(l: LimiterView, expiration: int, asOf: int, n: nat)
    requires LruOk(l) && 0 < n <= |l.lru| && SweptFrom(l, expiration, asOf, n)
    requires asOf - l.store[l.lru[n - 1]].lastActive <= expiration
    ensures forall k | k in l.store :: !Stale(l.store[k], expiration, asOf)
  {
    forall k | k in l.store ensures !Stale(l.store[k], expiration, asOf) {
      var i := IndexOf(l.lru, k);
      if i < n - 1 {
        assert l.store[l.lru[n - 1]].lastActive <= l.store[l.lru[i]].lastActive;
      }
    }
  }

  lemma SweepRemove(l: LimiterView, expiration: int, asOf: int, n: nat)
    requires LruOk(l) && 0 < n <= |l.lru| && SweptFrom(l, expiration, asOf, n)
    ensures SweptFrom(RemoveBucket(l, l.lru[n - 1]), expiration, asOf, n - 1)
  {
    var key := l.lru[n - 1];
    var l' := RemoveBucket(l, key);
    IndexOfIs(l.lru, n - 1);
    WithoutAt(l.lru, key);
    forall k | k in l'.store && n - 1 <= IndexOf(l'.lru, k) ensures !Stale(l'.store[k], expiration, asOf) {
      WithoutKeeps(l.lru, key, k);
      IndexOfIs(l.lru, IndexOf(l'.lru, k) + 1);
    }
  }

  lemma SweepKeep(l: LimiterView, expiration: int, asOf: int, n: nat)
    requires LruOk(l) && 0 < n <= |l.lru| && SweptFrom(l, expiration, asOf, n)
    requires !Stale(l.store[l.lru[n - 1]], expiration, asOf)
    ensures SweptFrom(l, expiration, asOf, n - 1)
  {
    forall k | k in l.store && n - 1 <= IndexOf(l.lru, k) ensures !Stale(l.store[k], expiration, asOf) {
      assert l.lru[IndexOf(l.lru, k)] == k;
    }
  }

  function Fresh(store: map<Key, BucketView>, expiration: int, asOf: int): map<Key, BucketView> {
    map k | k in store && !Stale(store[k], expiration, asOf) :: store[k]
  }

  lemma ListedStored(l: LimiterView, n: nat)
    requires LruOk(l) && n < |l.lru|
    ensures l.lru[n] in l.store
    ensures |Without(l.lru, l.lru[n])| == |l.lru| - 1
  {
    IndexOfAt(l.lru, n);
  }

  lemma FreshAll(store: map<Key, BucketView>, expiration: int, asOf: int)
    requires forall k | k in store :: !Stale(store[k], expiration, asOf)
    ensures Fresh(store, expiration, asOf) == store
  {
    hide Stale;
  }

  lemma FreshWithout(store: map<Key, BucketView>, key: Key, expiration: int, asOf: int)
    requires key in store && Stale(store[key], expiration, asOf)
    ensures Fresh(store - {key}, expiration, asOf) == Fresh(store, expiration, asOf)
  {
    hide Stale;
  }

  lemma SweptAll(l: LimiterView, expiration: int, asOf: int)
    requires SweptFrom(l, expiration, asOf, 0)
    ensures forall k | k in l.store :: !Stale(l.store[k], expiration, asOf)
  {
  }

  /** Among idle buckets the cheap test on the last entry finds the stale ones. */
  lemma SpentIsStale(l: LimiterView, key: Key, expiration: int, asOf: int)
    requires BucketsOk(l) && key in l.store && asOf - l.store[key].lastActive > expiration
    ensures Spent(l.store[key], asOf) <==> Stale(l.store[key], expiration, asOf)
    ensures BucketsOk(RemoveBucket(l, key))
  {
    SpentMeansDead(l.store[key], asOf);
  }

  lemma {:induction false} CleanupFromExact(l: LimiterView, expiration: int, asOf: int, n: nat)
    requires LruOk(l) && BucketsOk(l) && n <= |l.lru| && SweptFrom(l, expiration, asOf, n)
    ensures CleanupFrom(l, expiration, asOf, n).store == Fresh(l.store, expiration, asOf)
    decreases n
  {
    hide LruOk, SweptFrom, Without, Spent, Stale, BucketsOk, Fresh;
    if n == 0 {
      SweptAll(l, expiration, asOf);
      FreshAll(l.store, expiration, asOf);
      return;
    }
    ListedStored(l, n - 1);
    var key := l.lru[n - 1];
    if asOf - l.store[key].lastActive <= expiration {
      SweepRecent(l, expiration, asOf, n);
      FreshAll(l.store, expiration, asOf);
      return;
    }
    SpentIsStale(l, key, expiration, asOf);
    if Spent(l.store[key], asOf) {
      RemoveBucketLru(l, key);
      SweepRemove(l, expiration, asOf, n);
      FreshWithout(l.store, key, expiration, asOf);
      CleanupFromExact(RemoveBucket(l, key), expiration, asOf, n - 1);
    } else {
      SweepKeep(l, expiration, asOf, n);
      CleanupFromExact(l, expiration, asOf, n - 1);
    }
  }

  /**
    Cleanup's early return misses nothing: it removes exactly the buckets that have been idle
    longer than the cleanup interval and hold no live entry, and touches no other bucket.
   */
  lemma CleanupExact(l: LimiterView, r: Record, expiration: int, asOf: int)
    requires Inv(l, r) && 0 < expiration
    ensures CleanUp(l, expiration, asOf).store == Fresh(l.store, expiration, asOf)
    ensures LruOk(CleanUp(l, expiration, asOf))
  {
    forall k | k in l.store ensures l.store[k].entries != [] && Sorted(l.store[k].entries) {
      StoredOk(l, r, k);
    }
    CleanupFromExact(l, expiration, asOf, |l.lru|);
    CleanupLru(l, expiration, asOf, |l.lru|);
  }

  // ---------------------------------------------------------------- whole runs

  datatype Timed = At(now: int, op: Op)

  lemma StepRefines(l: LimiterView, r: Record, expiration: int, now: int, op: Op)
    requires Inv(l, r) && Legal(r, now, op)
    ensures var (l', answer) := Step(l, expiration, now, op);
            && answer == NaiveAnswer(r, now, op)
            && Inv(l', Note(r, now, op, answer))
  {
    hide KeysOk, LruOk;
    match op
    case Request(key, max, d, weight) =>
      LastActiveBound(l, r, now);
      ReserveLru(l, now, key, max, d, weight, "");
      ReserveKeys(l, r, now, key, max, d, weight, "");
    case Reserve(key, max, d, id) =>
      LastActiveBound(l, r, now);
      ReserveLru(l, now, key, max, d, 1, id);
      ReserveKeys(l, r, now, key, max, d, 1, id);
    case Cancel(key, id) =>
      CancelLru(l, key, id);
      CancelKeys(l, r, now, key, id);
    case RetryAfter(key, d) =>
      RetryLru(l, now, key, d);
      RetryKeys(l, r, now, key, d);
    case Cleanup(asOf) =>
      KeysLater(l, r, now);
      CleanupLru(l, expiration, asOf, |l.lru|);
      CleanupKeys(l, r.(clock := now), expiration, asOf, |l.lru|);
  }

  /** The limiter's answers over a run. */
  function Answers(l: LimiterView, expiration: int, run: seq<Timed>): seq<Answer>
    decreases |run|
  {
    if run == [] then []
    else
      var (l', answer) := Step(l, expiration, run[0].now, run[0].op);
      [answer] + Answers(l', expiration, run[1..])
  }

  /** The answers obtained by counting the log over the same run. */
  function NaiveAnswers(r: Record, run: seq<Timed>): seq<Answer>
    decreases |run|
  {
    if run == [] then []
    else
      var answer := NaiveAnswer(r, run[0].now, run[0].op);
      [answer] + NaiveAnswers(Note(r, run[0].now, run[0].op, answer), run[1..])
  }

  ghost predicate LegalRun(r: Record, run: seq<Timed>)
    decreases |run|
  {
    run == [] ||
    var answer := NaiveAnswer(r, run[0].now, run[0].op);
    && Legal(r, run[0].now, run[0].op)
    && LegalRun(Note(r, run[0].now, run[0].op, answer), run[1..])
  }

  lemma {:induction false} RunRefines(l: LimiterView, r: Record, expiration: int, run: seq<Timed>)
    requires Inv(l, r) && LegalRun(r, run)
    ensures Answers(l, expiration, run) == NaiveAnswers(r, run)
    decreases |run|
  {
    hide Inv, Legal, Note, Step, NaiveAnswer;
    if run != [] {
      StepRefines(l, r, expiration, run[0].now, run[0].op);
      var (l', answer) := Step(l, expiration, run[0].now, run[0].op);
      RunRefines(l', Note(r, run[0].now, run[0].op, answer), expiration, run[1..]);
    }
  }

  /** From an empty limiter, every legal run is answered as counting the log would. */
  lemma LimiterRefinesLog(start: int, expiration: int, run: seq<Timed>)
    requires LegalRun(Record(map[], map[], start), run)
    ensures Answers(EMPTY, expiration, run) == NaiveAnswers(Record(map[], map[], start), run)
  {
    RunRefines(EMPTY, Record(map[], map[], start), expiration, run);
  }
}

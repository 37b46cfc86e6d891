/**
  Value-level model of the in-memory sliding-window limiter and of the naive log it must
  agree with.  `LimiterView` is what the limiter stores; `Record` is the log of what it has
  actually admitted and not cancelled.  The limiter forgets expired entries, drops whole
  buckets and is cleaned up in the background; the log forgets nothing.
 */
module RateLimitModel {

  const TICKS_PER_SECOND: int := 1_000_000_000

  /** Whole seconds of an instant given in nanoseconds. */
  function Unix(instant: int): int {
    instant / TICKS_PER_SECOND
  }

  /** A limiter key. */
  datatype Key = Key(name: string)

  datatype Entry = Entry(timestamp: int, reservationID: string)

  /** One bucket: its live slice, oldest first, and the data cleanup looks at. */
  datatype BucketView = BucketView(entries: seq<Entry>, lastActive: int, window: int)

  /** The whole limiter; `lru` has the most recently used key in front. */
  datatype LimiterView = LimiterView(store: map<Key, BucketView>, lru: seq<Key>)

  datatype Op =
    | Request(key: Key, max: int, duration: int, weight: int)
    | Reserve(key: Key, max: int, duration: int, id: string)
    | Cancel(key: Key, id: string)
    | RetryAfter(key: Key, duration: int)
    | Cleanup(asOf: int)

  datatype Answer = Admitted(ok: bool) | Delay(seconds: int) | Done

  const EMPTY := LimiterView(map[], [])

  // ---------------------------------------------------------------- bucket operations

  predicate Alive(e: Entry, now: int, duration: int) {
    now - e.timestamp < duration
  }

  ghost predicate Sorted(s: seq<Entry>) {
    forall i, j | 0 <= i < j < |s| :: s[i].timestamp <= s[j].timestamp
  }

  /** Length of the expired prefix. */
  function Expired(s: seq<Entry>, now: int, duration: int): (n: nat)
    ensures n <= |s|
    ensures forall i | 0 <= i < n :: !Alive(s[i], now, duration)
    ensures n < |s| ==> Alive(s[n], now, duration)
  {
    if s == [] || Alive(s[0], now, duration) then 0 else 1 + Expired(s[1..], now, duration)
  }

  function Expire(s: seq<Entry>, now: int, duration: int): seq<Entry> {
    s[Expired(s, now, duration)..]
  }

  function Copies(weight: nat, e: Entry): seq<Entry> {
    seq(weight, i => e)
  }

  function Max(a: int, b: int): int {
    if a < b then b else a
  }

  function Min(a: int, b: int): int {
    if a < b then a else b
  }

  function Weight(weight: int): int {
    if weight <= 0 then 1 else weight
  }

  /** Position of the first entry carrying `id`, or the length when there is none. */
  function FindId(s: seq<Entry>, id: string): (i: nat)
    ensures i <= |s|
    ensures i < |s| ==> s[i].reservationID == id
    ensures forall j | 0 <= j < i :: s[j].reservationID != id
  {
    if s == [] || s[0].reservationID == id then 0 else 1 + FindId(s[1..], id)
  }

  function DropAt(s: seq<Entry>, i: nat): seq<Entry> {
    if i < |s| then s[..i] + s[i + 1..] else s
  }

  // ---------------------------------------------------------------- limiter operations

  function IndexOf(s: seq<Key>, k: Key): (i: nat)
    ensures i <= |s|
    ensures i < |s| ==> s[i] == k
    ensures forall j | 0 <= j < i :: s[j] != k
  {
    if s == [] || s[0] == k then 0 else 1 + IndexOf(s[1..], k)
  }

  /** The list with its element for `k` unlinked. */
  function Without(s: seq<Key>, k: Key): seq<Key> {
    var i := IndexOf(s, k);
    if i < |s| then s[..i] + s[i + 1..] else s
  }

  function RemoveBucket(l: LimiterView, key: Key): LimiterView {
    LimiterView(l.store - {key}, Without(l.lru, key))
  }

  function ReserveN(l: LimiterView, now: int, key: Key, max: int, duration: int, weight: int, id: string)
    : (LimiterView, bool)
  {
    if max <= 0 then (l, true)
    else if Weight(weight) > max then (l, false)
    else
      var kept := if key in l.store then Expire(l.store[key].entries, Unix(now), duration) else [];
      var ok := Weight(weight) <= max - |kept|;
      var entries := if ok then kept + Copies(Weight(weight), Entry(Unix(now), id)) else kept;
      (LimiterView(l.store[key := BucketView(entries, now, duration)], [key] + Without(l.lru, key)), ok)
  }

  function CancelOne(l: LimiterView, key: Key, id: string): LimiterView {
    if id == "" || key !in l.store then l
    else
      var b := l.store[key];
      var i := FindId(b.entries, id);
      if i == |b.entries| then l
      else
        var rest := DropAt(b.entries, i);
        if rest == [] then RemoveBucket(l, key)
        else l.(store := l.store[key := b.(entries := rest)])
  }

  function RetryDelay(l: LimiterView, now: int, key: Key, duration: int): (LimiterView, int) {
    if duration <= 0 || key !in l.store then (l, 1)
    else
      var b := l.store[key];
      var kept := Expire(b.entries, Unix(now), duration);
      if kept == [] then (RemoveBucket(l, key), 1)
      else (l.(store := l.store[key := b.(entries := kept)]), Max(1, duration - (Unix(now) - kept[0].timestamp)))
  }

  /** No entry of the bucket is alive under the bucket's own window: cleanup's test. */
  predicate Spent(b: BucketView, asOf: int) {
    b.entries == [] || Unix(asOf) - b.entries[|b.entries| - 1].timestamp >= b.window
  }

  /** Walks the recency list from the back; stops at the first recently active bucket. */
  function CleanupFrom(l: LimiterView, expiration: int, asOf: int, n: nat): LimiterView
    decreases n
  {
    if n == 0 || n > |l.lru| || l.lru[n - 1] !in l.store then l
    else
      var key := l.lru[n - 1];
      if asOf - l.store[key].lastActive <= expiration then l
      else if Spent(l.store[key], asOf) then
        CleanupFrom(RemoveBucket(l, key), expiration, asOf, n - 1)
      else CleanupFrom(l, expiration, asOf, n - 1)
  }

  function CleanUp(l: LimiterView, expiration: int, asOf: int): LimiterView {
    if expiration <= 0 then l else CleanupFrom(l, expiration, asOf, |l.lru|)
  }

  function Step(l: LimiterView, expiration: int, now: int, op: Op): (LimiterView, Answer) {
    match op
    case Request(key, max, duration, weight) =>
      var (l', ok) := ReserveN(l, now, key, max, duration, weight, ""); (l', Admitted(ok))
    case Reserve(key, max, duration, id) =>
      var (l', ok) := ReserveN(l, now, key, max, duration, 1, id); (l', Admitted(ok))
    case Cancel(key, id) => (CancelOne(l, key, id), Done)
    case RetryAfter(key, duration) =>
      var (l', d) := RetryDelay(l, now, key, duration); (l', Delay(d))
    case Cleanup(asOf) => (CleanUp(l, expiration, asOf), Done)
  }

  // ---------------------------------------------------------------- the naive log

  /**
    `log[k]` holds every entry admitted for `k` and not cancelled since, in admission order;
    `horizon[k]` is the duration the last call for `k` used; `clock` is the last instant seen.
   */
  datatype Record = Record(log: map<Key, seq<Entry>>, horizon: map<Key, int>, clock: int)

  function LogOf(r: Record, k: Key): seq<Entry> {
    if k in r.log then r.log[k] else []
  }

  /** The number of entries younger than `duration`, by looking at each of them. */
  function Live(s: seq<Entry>, now: int, duration: int): nat {
    if s == [] then 0 else (if Alive(s[0], now, duration) then 1 else 0) + Live(s[1..], now, duration)
  }

  /** The smallest timestamp among the entries younger than `duration`; meaningful when there is one. */
  function Oldest(s: seq<Entry>, now: int, duration: int): int
    requires Live(s, now, duration) > 0
  {
    if !Alive(s[0], now, duration) then Oldest(s[1..], now, duration)
    else if Live(s[1..], now, duration) == 0 then s[0].timestamp
    else Min(s[0].timestamp, Oldest(s[1..], now, duration))
  }

  predicate NaiveAdmits(s: seq<Entry>, now: int, max: int, duration: int, weight: int) {
    max <= 0 || Live(s, Unix(now), duration) + Weight(weight) <= max
  }

  function NaiveDelay(s: seq<Entry>, now: int, duration: int): int {
    if duration <= 0 || Live(s, Unix(now), duration) == 0 then 1
    else duration - (Unix(now) - Oldest(s, Unix(now), duration))
  }

  /** What counting the log answers. */
  function NaiveAnswer(r: Record, now: int, op: Op): Answer {
    match op
    case Request(key, max, duration, weight) => Admitted(NaiveAdmits(LogOf(r, key), now, max, duration, weight))
    case Reserve(key, max, duration, id) => Admitted(NaiveAdmits(LogOf(r, key), now, max, duration, 1))
    case RetryAfter(key, duration) => Delay(NaiveDelay(LogOf(r, key), now, duration))
    case _ => Done
  }

  /** The call goes past the early returns and so looks at the window. */
  predicate Counts(max: int, weight: int) {
    0 < max && Weight(weight) <= max
  }

  function Observed(r: Record, now: int, key: Key, duration: int): Record {
    Record(r.log[key := LogOf(r, key)], r.horizon[key := duration], now)
  }

  function Admit(r: Record, now: int, key: Key, max: int, duration: int, weight: int, id: string, ok: bool): Record {
    if !Counts(max, weight) then r.(clock := now)
    else
      var r' := Observed(r, now, key, duration);
      if ok then r'.(log := r'.log[key := LogOf(r, key) + Copies(Weight(weight), Entry(Unix(now), id))]) else r'
  }

  /** The log after `op` was answered with `answer`. */
  function Note(r: Record, now: int, op: Op, answer: Answer): Record {
    match op
    case Request(key, max, duration, weight) =>
      Admit(r, now, key, max, duration, weight, "", answer == Admitted(true))
    case Reserve(key, max, duration, id) =>
      Admit(r, now, key, max, duration, 1, id, answer == Admitted(true))
    case Cancel(key, id) =>
      if id == "" || key !in r.log then r.(clock := now)
      else Record(r.log[key := DropAt(r.log[key], FindId(r.log[key], id))], r.horizon, now)
    case RetryAfter(key, duration) =>
      if duration <= 0 || key !in r.log then r.(clock := now) else Observed(r, now, key, duration)
    case Cleanup(_) => r.(clock := now)
  }

  /**
    What a caller must respect.  Time does not run backwards, a cleanup tick is not from the
    future, the duration passed for a key never grows, and a non-blank reservation ID is not
    reserved again while its entry is in the log.
   */
  predicate Legal(r: Record, now: int, op: Op) {
    && r.clock <= now
    && match op
       case Request(key, max, duration, weight) =>
         Counts(max, weight) && key in r.horizon ==> duration <= r.horizon[key]
       case Reserve(key, max, duration, id) =>
         && (Counts(max, 1) && key in r.horizon ==> duration <= r.horizon[key])
         && (id != "" ==> FindId(LogOf(r, key), id) == |LogOf(r, key)|)
       case RetryAfter(key, duration) =>
         0 < duration && key in r.horizon ==> duration <= r.horizon[key]
       case Cleanup(asOf) => asOf <= now
       case _ => true
  }
}

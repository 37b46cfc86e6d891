/**
  What callers of the limiter rely on: no window is over-admitted, a reported delay is exact,
  and the one caller obligation that matters for the counting.
 */
module RateLimitGuarantees {
  import opened RateLimitModel
  import opened RateLimitRefinement

  // ---------------------------------------------------------------- window bound

  /** Entries with a timestamp in the half-open window of `duration` seconds ending at `t`. */
  function InWindow(s: seq<Entry>, t: int, duration: int): nat {
    if s == [] then 0
    else (if t - duration < s[0].timestamp <= t then 1 else 0) + InWindow(s[1..], t, duration)
  }

  ghost predicate Bounded(s: seq<Entry>, duration: int, limit: int) {
    forall t :: InWindow(s, t, duration) <= limit
  }

  lemma {:induction false} InWindowAppend(a: seq<Entry>, b: seq<Entry>, t: int, d: int)
    ensures InWindow(a + b, t, d) == InWindow(a, t, d) + InWindow(b, t, d)
    decreases |a|
  {
    if a == [] {
      assert a + b == b;
    } else {
      InWindowAppend(a[1..], b, t, d);
      assert (a + b)[1..] == a[1..] + b;
    }
  }

  lemma {:induction false} InWindowCopies(w: nat, e: Entry, t: int, d: int)
    ensures InWindow(Copies(w, e), t, d) == if t - d < e.timestamp <= t then w else 0
    decreases w
  {
    if w > 0 {
      InWindowCopies(w - 1, e, t, d);
      assert Copies(w, e)[1..] == Copies(w - 1, e);
    }
  }

  /** Seen from a later instant, a window holds no more than what is live at the earlier one. */
  lemma {:induction false} InWindowLive(s: seq<Entry>, now: int, t: int, d: int, d': int)
    requires now <= t && d <= d'
    ensures InWindow(s, t, d) <= Live(s, now, d')
    decreases |s|
  {
    if s != [] {
      InWindowLive(s[1..], now, t, d, d');
    }
  }

  lemma DropBounded(s: seq<Entry>, i: nat, d: int, limit: int)
    requires Bounded(s, d, limit)
    ensures Bounded(DropAt(s, i), d, limit)
  {
    if i < |s| {
      forall t ensures InWindow(DropAt(s, i), t, d) <= limit {
        InWindowAppend(s[..i], s[i + 1..], t, d);
        InWindowAppend(s[..i], s[i..], t, d);
        assert s == s[..i] + s[i..];
        assert s[i..][1..] == s[i + 1..];
      }
    }
  }

  lemma AdmitBounded(s: seq<Entry>, now: int, w: nat, id: string, d: int, d': int, max: int, limit: int)
    requires Bounded(s, d, limit) && d <= d' && max <= limit
    requires Live(s, now, d') + w <= max
    ensures Bounded(s + Copies(w, Entry(now, id)), d, limit)
  {
    forall t ensures InWindow(s + Copies(w, Entry(now, id)), t, d) <= limit {
      InWindowAppend(s, Copies(w, Entry(now, id)), t, d);
      InWindowCopies(w, Entry(now, id), t, d);
      if now <= t {
        InWindowLive(s, now, t, d, d');
      }
    }
  }

  /** The call, if it is about `key`, asks for at most `limit` per at least `duration` seconds. */
  predicate Within(op: Op, key: Key, duration: int, limit: int) {
    match op
    case Request(k, max, d, _) => k == key ==> 0 < max <= limit && duration <= d
    case Reserve(k, max, d, _) => k == key ==> 0 < max <= limit && duration <= d
    case _ => true
  }

  lemma NoteBounded(r: Record, now: int, op: Op, key: Key, d: int, limit: int)
    requires Bounded(LogOf(r, key), d, limit) && Within(op, key, d, limit)
    ensures Bounded(LogOf(Note(r, now, op, NaiveAnswer(r, now, op)), key), d, limit)
  {
    hide Bounded;
    match op
    case Request(k, max, d', weight) =>
      if k == key && Counts(max, weight) && NaiveAdmits(LogOf(r, key), now, max, d', weight) {
        AdmitBounded(LogOf(r, key), Unix(now), Weight(weight), "", d, d', max, limit);
      }
    case Reserve(k, max, d', id) =>
      if k == key && Counts(max, 1) && NaiveAdmits(LogOf(r, key), now, max, d', 1) {
        AdmitBounded(LogOf(r, key), Unix(now), 1, id, d, d', max, limit);
      }
    case Cancel(k, id) =>
      if k == key && key in r.log && id != "" {
        DropBounded(r.log[key], FindId(r.log[key], id), d, limit);
      }
    case _ =>
  }

  /** The log of a run, as the limiter's own answers make it. */
  function Logged(l: LimiterView, r: Record, expiration: int, run: seq<Timed>): Record
    decreases |run|
  {
    if run == [] then r
    else
      var (l', answer) := Step(l, expiration, run[0].now, run[0].op);
      Logged(l', Note(r, run[0].now, run[0].op, answer), expiration, run[1..])
  }

  lemma {:induction false} LoggedBounded(l: LimiterView, r: Record, expiration: int, run: seq<Timed>, key: Key, d: int, limit: int)
    requires Inv(l, r) && LegalRun(r, run)
    requires Bounded(LogOf(r, key), d, limit)
    requires forall i | 0 <= i < |run| :: Within(run[i].op, key, d, limit)
    ensures Bounded(LogOf(Logged(l, r, expiration, run), key), d, limit)
    decreases |run|
  {
    if run != [] {
      hide Inv, Legal, Note, Step, NaiveAnswer, Bounded, Within;
      StepRefines(l, r, expiration, run[0].now, run[0].op);
      NoteBounded(r, run[0].now, run[0].op, key, d, limit);
      var (l', answer) := Step(l, expiration, run[0].now, run[0].op);
      LoggedBounded(l', Note(r, run[0].now, run[0].op, answer), expiration, run[1..], key, d, limit);
    }
  }

  /**
    However the calls, cancellations and cleanups interleave, the uncancelled weight the limiter
    has admitted for a key in any window of `d` seconds never exceeds the limit the calls named.
   */
  lemma WindowNeverExceeded(start: int, expiration: int, run: seq<Timed>, key: Key, d: int, limit: nat, t: int)
    requires LegalRun(Record(map[], map[], start), run)
    requires forall i | 0 <= i < |run| :: Within(run[i].op, key, d, limit)
    ensures InWindow(LogOf(Logged(EMPTY, Record(map[], map[], start), expiration, run), key), t, d) <= limit
  {
    LoggedBounded(EMPTY, Record(map[], map[], start), expiration, run, key, d, limit);
  }

  // ---------------------------------------------------------------- RetryAfter is exact

  /** Would a weight-1 request be admitted at instant `t`, nothing else happening before? */
  predicate AdmitsAt(l: LimiterView, t: int, key: Key, max: int, d: int) {
    ReserveN(l, t, key, max, d, 1, "").1
  }

  /** Refused in every earlier second, admitted throughout the second `delay` later. */
  ghost predicate ExactDelay(l: LimiterView, now: int, delay: int, key: Key, max: int, d: int) {
    && (forall t | now <= t && Unix(t) < Unix(now) + delay :: !AdmitsAt(l, t, key, max, d))
    && (forall t | now <= t && Unix(t) == Unix(now) + delay :: AdmitsAt(l, t, key, max, d))
  }

  function NewerThan(s: seq<Entry>, timestamp: int): nat {
    if s == [] then 0 else (if s[0].timestamp > timestamp then 1 else 0) + NewerThan(s[1..], timestamp)
  }

  lemma {:induction false} NewerIsLive(s: seq<Entry>, timestamp: int, d: int)
    ensures Live(s, timestamp + d, d) == NewerThan(s, timestamp)
  {
    if s != [] {
      NewerIsLive(s[1..], timestamp, d);
    }
  }

  lemma AdmitsCounts(l: LimiterView, t: int, key: Key, max: int, d: int)
    requires key in l.store && Sorted(l.store[key].entries) && 0 < max
    ensures AdmitsAt(l, t, key, max, d) <==> Live(l.store[key].entries, Unix(t), d) < max
  {
    var s := l.store[key].entries;
    ExpireCounts(s, s, Unix(t), Unix(t), d, d);
  }

  lemma AllAlive(s: seq<Entry>, now: int, d: int)
    requires Sorted(s) && s != [] && Alive(s[0], now, d)
    ensures Live(s, now, d) == |s|
  {
    forall i | 0 <= i < |s| ensures Alive(s[i], now, d) {
      assert i > 0 ==> s[0].timestamp <= s[i].timestamp;
    }
    LiveSplit(s, 0, now, d);
  }

  /** The same, for a bucket already expired at `now`: it stays full until its oldest second ages out. */
  lemma ExactIff(l: LimiterView, now: int, key: Key, max: int, d: int)
    requires key in l.store && Sorted(l.store[key].entries) && l.store[key].entries != []
    requires 0 < max && Alive(l.store[key].entries[0], Unix(now), d)
    ensures var kept := l.store[key].entries;
            ExactDelay(l, now, kept[0].timestamp + d - Unix(now), key, max, d)
            <==> max <= |kept| && NewerThan(kept, kept[0].timestamp) < max
  {
    var due := l.store[key].entries[0].timestamp + d;
    forall t | Unix(t) <= due
      ensures AdmitsAt(l, t, key, max, d) <==> Room(l.store[key].entries, Unix(t) == due) < max
    {
      AdmitsUpTo(l, t, key, max, d);
    }
    hide Sorted, AdmitsAt, Unix, Room;
    if ExactDelay(l, now, due - Unix(now), key, max, d) {
      assert !AdmitsAt(l, now, key, max, d);
      var t := SecondStart(due, now);
      assert AdmitsAt(l, t, key, max, d);
    }
  }

  /** Entries still counted up to, and then in, the second the oldest entry ages out. */
  function Room(kept: seq<Entry>, due: bool): nat
    requires kept != []
  {
    if due then NewerThan(kept, kept[0].timestamp) else |kept|
  }

  lemma SecondStart(second: int, now: int) returns (t: int)
    requires Unix(now) < second
    ensures now <= t && Unix(t) == second
  {
    t := second * TICKS_PER_SECOND;
  }

  lemma AdmitsUpTo(l: LimiterView, t: int, key: Key, max: int, d: int)
    requires key in l.store && Sorted(l.store[key].entries) && l.store[key].entries != []
    requires 0 < max && Unix(t) <= l.store[key].entries[0].timestamp + d
    ensures var kept := l.store[key].entries;
            AdmitsAt(l, t, key, max, d) <==> Room(kept, Unix(t) == kept[0].timestamp + d) < max
  {
    var kept := l.store[key].entries;
    AdmitsCounts(l, t, key, max, d);
    if Unix(t) < kept[0].timestamp + d {
      AllAlive(kept, Unix(t), d);
    } else {
      NewerIsLive(kept, kept[0].timestamp, d);
    }
  }

  /**
    The delay `RetryAfter` returns is exact just when the bucket is full and freeing the
    entries of its oldest second makes room.  In particular it is exact when the bucket holds
    exactly `max` live entries.
   */
  lemma RetryAfterExact(l: LimiterView, now: int, key: Key, max: int, d: int)
    requires key in l.store && Sorted(l.store[key].entries)
    requires 0 < max && 0 < d && Live(l.store[key].entries, Unix(now), d) > 0
    ensures var (l', delay) := RetryDelay(l, now, key, d);
            && key in l'.store && l'.store[key].entries != []
            && var kept := l'.store[key].entries;
               ExactDelay(l', now, delay, key, max, d) <==> max <= |kept| && NewerThan(kept, kept[0].timestamp) < max
  {
    var s := l.store[key].entries;
    ExpireCounts(s, s, Unix(now), Unix(now), d, d);
    TailSorted(s, Expired(s, Unix(now), d));
    hide Sorted, ExactDelay, NewerThan, Live;
    ExactIff(RetryDelay(l, now, key, d).0, now, key, max, d);
  }

  lemma {:induction false} NewerAtMost(s: seq<Entry>, timestamp: int)
    ensures NewerThan(s, timestamp) <= |s|
  {
    if s != [] {
      NewerAtMost(s[1..], timestamp);
    }
  }

  /** On a bucket filled to the limit the delay is exact. */
  lemma RetryAfterExactWhenFull(l: LimiterView, now: int, key: Key, max: int, d: int)
    requires key in l.store && Sorted(l.store[key].entries)
    requires 0 < max && 0 < d && Live(l.store[key].entries, Unix(now), d) == max
    ensures var (l', delay) := RetryDelay(l, now, key, d); ExactDelay(l', now, delay, key, max, d)
  {
    var s := l.store[key].entries;
    ExpireCounts(s, s, Unix(now), Unix(now), d, d);
    RetryAfterExact(l, now, key, max, d);
    var kept := RetryDelay(l, now, key, d).0.store[key].entries;
    NewerAtMost(kept[1..], kept[0].timestamp);
  }

  // ---------------------------------------------------------------- a growing duration is not tracked

  /** Fill a budget of one, let a short query forget the entry, then ask again with a longer duration. */
  function GrowingRun(key: Key, d: int, d': int): seq<Timed> {
    [ At(0, Request(key, 1, d, 1)),
      At(d * TICKS_PER_SECOND, RetryAfter(key, d)),
      At(d * TICKS_PER_SECOND, Request(key, 1, d', 1)) ]
  }

  lemma GrowingLimiter(key: Key, d: int, d': int, expiration: int)
    requires 0 < d < d'
    ensures Answers(EMPTY, expiration, GrowingRun(key, d, d')) == [Admitted(true), Delay(1), Admitted(true)]
  {
    var now := d * TICKS_PER_SECOND;
    assert Unix(now) == d;
    var e := Entry(0, "");
    assert Copies(1, e) == [e];
    var (l1, a1) := Step(EMPTY, expiration, 0, Request(key, 1, d, 1));
    assert l1.store[key].entries == [e] && l1.store.Keys == {key};
    assert Expired([e], d, d) == 1;
    var (l2, a2) := Step(l1, expiration, now, RetryAfter(key, d));
    assert key !in l2.store && a2 == Delay(1);
    var (l3, a3) := Step(l2, expiration, now, Request(key, 1, d', 1));
    assert a3 == Admitted(true);
    var run := GrowingRun(key, d, d');
    assert run[1..][1..][1..] == [];
    assert Answers(l2, expiration, run[1..][1..]) == [a3];
    assert Answers(l1, expiration, run[1..]) == [a2] + [a3];
  }

  lemma GrowingNaive(key: Key, d: int, d': int)
    requires 0 < d < d'
    ensures NaiveAnswers(Record(map[], map[], 0), GrowingRun(key, d, d')) == [Admitted(true), Delay(1), Admitted(false)]
  {
    var now := d * TICKS_PER_SECOND;
    assert Unix(now) == d;
    var e := Entry(0, "");
    assert Copies(1, e) == [e];
    var r0 := Record(map[], map[], 0);
    var r1 := Note(r0, 0, Request(key, 1, d, 1), Admitted(true));
    assert NaiveAnswer(r0, 0, Request(key, 1, d, 1)) == Admitted(true);
    assert r1.log[key] == [e];
    assert Live([e], d, d) == 0;
    var r2 := Note(r1, now, RetryAfter(key, d), Delay(1));
    assert NaiveAnswer(r1, now, RetryAfter(key, d)) == Delay(1);
    assert r2.log[key] == [e];
    assert Live([e], d, d') == 1;
    assert NaiveAnswer(r2, now, Request(key, 1, d', 1)) == Admitted(false);
    var run := GrowingRun(key, d, d');
    assert run[1..][1..][1..] == [];
    assert NaiveAnswers(r2, run[1..][1..]) == [Admitted(false)];
    assert NaiveAnswers(r1, run[1..]) == [Delay(1)] + [Admitted(false)];
  }

  /** Why `Legal` forbids it: for any two durations that grow, some run is answered differently. */
  lemma GrowingDurationDisagrees(key: Key, d: int, d': int, expiration: int)
    requires 0 < d < d'
    ensures Answers(EMPTY, expiration, GrowingRun(key, d, d')) != NaiveAnswers(Record(map[], map[], 0), GrowingRun(key, d, d'))
  {
    GrowingLimiter(key, d, d', expiration);
    GrowingNaive(key, d, d');
  }

  // ---------------------------------------------------------------- after any legal run

  /** The limiter a run leads to. */
  function Reached(l: LimiterView, expiration: int, run: seq<Timed>): LimiterView
    decreases |run|
  {
    if run == [] then l else Reached(Step(l, expiration, run[0].now, run[0].op).0, expiration, run[1..])
  }

  lemma {:induction false} RunKeeps(l: LimiterView, r: Record, expiration: int, run: seq<Timed>)
    requires Inv(l, r) && LegalRun(r, run)
    ensures Inv(Reached(l, expiration, run), Logged(l, r, expiration, run))
    decreases |run|
  {
    hide Inv, Legal, Note, Step, NaiveAnswer;
    if run != [] {
      StepRefines(l, r, expiration, run[0].now, run[0].op);
      var (l', answer) := Step(l, expiration, run[0].now, run[0].op);
      RunKeeps(l', Note(r, run[0].now, run[0].op, answer), expiration, run[1..]);
    }
  }

  /** After any legal run the recency list is in order, no bucket is empty, and entries are in order of time. */
  lemma ReachedSound(start: int, expiration: int, run: seq<Timed>)
    requires LegalRun(Record(map[], map[], start), run)
    ensures var l := Reached(EMPTY, expiration, run);
            LruOk(l) && forall k | k in l.store :: l.store[k].entries != [] && Sorted(l.store[k].entries)
  {
    var r := Record(map[], map[], start);
    RunKeeps(EMPTY, r, expiration, run);
    var l, log := Reached(EMPTY, expiration, run), Logged(EMPTY, r, expiration, run);
    hide Reached, Logged, LegalRun, LruOk, KeysOk, Sorted;
    forall k | k in l.store ensures l.store[k].entries != [] && Sorted(l.store[k].entries) {
      StoredOk(l, log, k);
    }
  }

  /** After any legal run a cleanup removes exactly the buckets idle too long that hold nothing live. */
  lemma CleanupExactAfterRun(start: int, expiration: int, run: seq<Timed>, asOf: int)
    requires LegalRun(Record(map[], map[], start), run) && 0 < expiration
    ensures var l := Reached(EMPTY, expiration, run);
            CleanUp(l, expiration, asOf).store == Fresh(l.store, expiration, asOf) && LruOk(CleanUp(l, expiration, asOf))
  {
    var r := Record(map[], map[], start);
    RunKeeps(EMPTY, r, expiration, run);
    hide Reached, Logged, LegalRun, Inv, LruOk, CleanUp, Fresh;
    CleanupExact(Reached(EMPTY, expiration, run), Logged(EMPTY, r, expiration, run), expiration, asOf);
  }

  /** After any legal run the delay `RetryAfter` gives for a key with live entries is exact under the same condition. */
  lemma RetryAfterExactAfterRun(start: int, expiration: int, run: seq<Timed>, now: int, key: Key, max: int, d: int)
    requires LegalRun(Record(map[], map[], start), run) && 0 < max && 0 < d
    requires var l := Reached(EMPTY, expiration, run); key in l.store && Live(l.store[key].entries, Unix(now), d) > 0
    ensures var (l', delay) := RetryDelay(Reached(EMPTY, expiration, run), now, key, d);
            && key in l'.store && l'.store[key].entries != []
            && var kept := l'.store[key].entries;
               ExactDelay(l', now, delay, key, max, d) <==> max <= |kept| && NewerThan(kept, kept[0].timestamp) < max
  {
    ReachedSound(start, expiration, run);
    hide Reached, LegalRun, LruOk, Sorted, Live, ExactDelay, NewerThan, RetryDelay;
    RetryAfterExact(Reached(EMPTY, expiration, run), now, key, max, d);
  }
}

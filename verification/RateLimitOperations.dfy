/**
  What each limiter operation does to one key, in terms of the stored entries and the call's own
  arguments: how much budget a request takes, what a cancellation gives back, and what the early
  returns leave alone.
 */
module RateLimitOperations {
  import opened RateLimitModel
  import opened RateLimitRefinement

  function EntriesOf(l: LimiterView, key: Key): seq<Entry> {
    if key in l.store then l.store[key].entries else []
  }

  /** Positions of the entries less than `duration` seconds old at the given second. */
  function Young(s: seq<Entry>, second: int, duration: int): set<int> {
    set i | 0 <= i < |s| && second - s[i].timestamp < duration
  }

  lemma {:induction false} LiveAppend(s: seq<Entry>, e: Entry, second: int, duration: int)
    ensures Live(s + [e], second, duration) == Live(s, second, duration) + if second - e.timestamp < duration then 1 else 0
    decreases |s|
  {
    if s == [] {
      assert s + [e] == [e] && [e][1..] == [];
    } else {
      assert (s + [e])[1..] == s[1..] + [e];
      LiveAppend(s[1..], e, second, duration);
    }
  }

  lemma {:induction false} LiveIsYoung(s: seq<Entry>, second: int, duration: int)
    ensures Live(s, second, duration) == |Young(s, second, duration)|
    decreases |s|
  {
    if s != [] {
      var n := |s| - 1;
      LiveIsYoung(s[..n], second, duration);
      LiveAppend(s[..n], s[n], second, duration);
      assert s == s[..n] + [s[n]];
      assert Young(s, second, duration) == Young(s[..n], second, duration) + if second - s[n].timestamp < duration then {n} else {};
    }
  }

  /** A limiter whose stored entries are in order of time, as after any legal run. */
  ghost predicate Ordered(l: LimiterView, key: Key) {
    Sorted(EntriesOf(l, key))
  }

  lemma KeptAreYoung(l: LimiterView, key: Key, second: int, d: int)
    requires Ordered(l, key)
    ensures var s := EntriesOf(l, key); |Expire(s, second, d)| == |Young(s, second, d)|
  {
    var s := EntriesOf(l, key);
    ExpireCounts(s, s, second, second, d, d);
    LiveIsYoung(s, second, d);
  }

  /** The entries of a key after a call that looked at the window: the young ones and `more` new ones. */
  ghost predicate Holds(l: LimiterView, l': LimiterView, now: int, key: Key, d: int, more: nat, id: string) {
    && key in l'.store
    && l'.store[key].lastActive == now && l'.store[key].window == d
    && l'.lru != [] && l'.lru[0] == key
    && l'.store - {key} == l.store - {key}
    && var s, s' := EntriesOf(l, key), l'.store[key].entries;
       var young := |Young(s, now / 1_000_000_000, d)|;
       young <= |s| && s' == s[|s| - young..] + seq(more, i => Entry(now / 1_000_000_000, id))
  }

  lemma ReserveExact(l: LimiterView, now: int, key: Key, max: int, d: int, weight: int, id: string)
    requires Ordered(l, key)
    ensures var (l', ok) := ReserveN(l, now, key, max, d, weight, id);
            var young := |Young(EntriesOf(l, key), now / 1_000_000_000, d)|;
            && (max <= 0 ==> ok && l' == l)
            && (0 < max < weight ==> !ok && l' == l)
            && (0 < weight <= max ==> (ok <==> young + weight <= max) && Holds(l, l', now, key, d, if ok then weight else 0, id))
            && (weight <= 0 < max ==> (ok <==> young + 1 <= max) && Holds(l, l', now, key, d, if ok then 1 else 0, id))
  {
    KeptAreYoung(l, key, now / 1_000_000_000, d);
    var (l', ok) := ReserveN(l, now, key, max, d, weight, id);
    hide Young, Ordered, Sorted;
    if 0 < max && Weight(weight) <= max {
      UpdateKeeps(l.store, key, l'.store[key]);
    }
  }

  /**
    A request takes exactly its weight from the young entries' budget, one when the weight is not
    positive; without a limit it is admitted, and above the limit refused, leaving everything as it is.
   */
  lemma RequestExact(l: LimiterView, expiration: int, now: int, key: Key, max: int, d: int, weight: int)
    requires Ordered(l, key)
    ensures var (l', answer) := Step(l, expiration, now, Request(key, max, d, weight));
            var young := |Young(EntriesOf(l, key), now / 1_000_000_000, d)|;
            && (max <= 0 ==> answer == Admitted(true) && l' == l)
            && (0 < max < weight ==> answer == Admitted(false) && l' == l)
            && (0 < weight <= max ==> answer == Admitted(young + weight <= max)
                                      && Holds(l, l', now, key, d, if young + weight <= max then weight else 0, ""))
            && (weight <= 0 < max ==> answer == Admitted(young + 1 <= max)
                                      && Holds(l, l', now, key, d, if young + 1 <= max then 1 else 0, ""))
  {
    ReserveExact(l, now, key, max, d, weight, "");
    hide Holds, Young, ReserveN;
  }

  lemma CopiesOne(e: Entry)
    ensures seq(1, i => e) == [e]
  {
  }

  lemma {:induction false} FindAppended(s: seq<Entry>, e: Entry)
    requires FindId(s, e.reservationID) == |s|
    ensures FindId(s + [e], e.reservationID) == |s| && DropAt(s + [e], |s|) == s
  {
    assert forall i | 0 <= i < |s| :: (s + [e])[i] == s[i];
    assert (s + [e])[|s|] == e;
  }

  lemma TailWithoutId(s: seq<Entry>, n: nat, id: string)
    requires n <= |s| && FindId(s, id) == |s|
    ensures FindId(s[n..], id) == |s| - n
  {
    assert forall i | 0 <= i < |s| - n :: s[n..][i] == s[n + i];
  }

  /**
    Cancelling a reservation under a new ID gives its budget back: the key is left with its young
    entries, and without a bucket when there are none.
   */
  lemma CancelGivesBack(l: LimiterView, expiration: int, now: int, later: int, key: Key, max: int, d: int, id: string)
    requires Ordered(l, key) && id != "" && FindId(EntriesOf(l, key), id) == |EntriesOf(l, key)| && 0 < max
    requires Step(l, expiration, now, Reserve(key, max, d, id)).1 == Admitted(true)
    ensures var l' := Step(l, expiration, now, Reserve(key, max, d, id)).0;
            var l'' := Step(l', expiration, later, Cancel(key, id)).0;
            var s := EntriesOf(l, key);
            var young := |Young(s, now / 1_000_000_000, d)|;
            && young <= |s| && EntriesOf(l'', key) == s[|s| - young..]
            && (key in l''.store <==> young > 0)
            && l''.store - {key} == l.store - {key}
  {
    hide Holds, ReserveN, Ordered, Young, CancelOne;
    ReserveExact(l, now, key, max, d, 1, id);
    var l' := Step(l, expiration, now, Reserve(key, max, d, id)).0;
    var s, e := EntriesOf(l, key), Entry(now / 1_000_000_000, id);
    HoldsOne(l, l', now, key, d, id);
    var kept := s[|s| - |Young(s, now / 1_000_000_000, d)|..];
    TailWithoutId(s, |s| - |kept|, id);
    FindAppended(kept, e);
    hide FindId, DropAt;
    CancelledBucket(l', key, id, kept);
  }

  lemma HoldsOne(l: LimiterView, l': LimiterView, now: int, key: Key, d: int, id: string)
    requires Holds(l, l', now, key, d, 1, id)
    ensures var s := EntriesOf(l, key);
            var young := |Young(s, now / 1_000_000_000, d)|;
            && key in l'.store && young <= |s| && l'.store - {key} == l.store - {key}
            && l'.store[key].entries == s[|s| - young..] + [Entry(now / 1_000_000_000, id)]
  {
    hide Young;
    CopiesOne(Entry(now / 1_000_000_000, id));
  }

  lemma CancelledBucket(l: LimiterView, key: Key, id: string, kept: seq<Entry>)
    requires id != "" && key in l.store
    requires var s := l.store[key].entries; FindId(s, id) < |s| && DropAt(s, FindId(s, id)) == kept
    ensures var l' := CancelOne(l, key, id);
            EntriesOf(l', key) == kept && (key in l'.store <==> kept != []) && l'.store - {key} == l.store - {key}
  {
    UpdateKeeps(l.store, key, l.store[key].(entries := kept));
  }

  /** A blank ID, an unknown key and an ID no entry carries cancel nothing. */
  lemma CancelNothing(l: LimiterView, expiration: int, now: int, key: Key, id: string)
    requires id == "" || forall i | 0 <= i < |EntriesOf(l, key)| :: EntriesOf(l, key)[i].reservationID != id
    ensures Step(l, expiration, now, Cancel(key, id)) == (l, Done)
  {
    if id != "" && key in l.store {
      var s := l.store[key].entries;
      assert s == EntriesOf(l, key);
      assert FindId(s, id) == |s|;
    }
  }

  /** A query without young entries answers one second and drops the key's bucket; others wait for the oldest young entry. */
  lemma RetryAnswer(l: LimiterView, expiration: int, now: int, key: Key, d: int)
    requires Ordered(l, key)
    ensures var (l', answer) := Step(l, expiration, now, RetryAfter(key, d));
            var s := EntriesOf(l, key);
            var young := |Young(s, now / 1_000_000_000, d)|;
            && (d <= 0 || key !in l.store ==> answer == Delay(1) && l' == l)
            && (0 < d && key in l.store ==>
                  && young <= |s| && EntriesOf(l', key) == s[|s| - young..] && (key in l'.store <==> young > 0)
                  && answer == Delay(if young == 0 then 1 else d - (now / 1_000_000_000 - s[|s| - young].timestamp))
                  && l'.store - {key} == l.store - {key})
  {
    var s, second := EntriesOf(l, key), now / 1_000_000_000;
    KeptAreYoung(l, key, second, d);
    var kept := Expire(s, second, d);
    assert kept != [] ==> second - kept[0].timestamp < d;
    hide Young, Ordered, Expired;
    if 0 < d && key in l.store && kept != [] {
      UpdateKeeps(l.store, key, l.store[key].(entries := kept));
    }
  }

  /** Without a cleanup interval cleanup does nothing. */
  lemma CleanupOff(l: LimiterView, expiration: int, now: int, asOf: int)
    requires expiration <= 0
    ensures Step(l, expiration, now, Cleanup(asOf)) == (l, Done)
  {
  }
}

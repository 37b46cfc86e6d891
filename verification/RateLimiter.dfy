/**
  The in-memory limiter object: a store of buckets and a recency list, updated in place.
  Every method is proved to do to the stored data what the corresponding function of
  `RateLimitModel` does to its value; the instant it reads from the clock is a parameter.
 */
module RateLimiter {
  import opened RateLimitModel
  import opened RateLimitBucket
  import opened RateLimitRefinement

  class InMemoryRateLimiter {
    var store: map<Key, Bucket>
    var lru: seq<Key>
    const expiration: int
    ghost var repr: set<object>

    /** Buckets are valid and share neither objects nor arrays. */
    ghost predicate Valid()
      reads this, repr
      ensures Valid() ==> this in repr && forall k | k in store :: store[k] in repr && store[k].entries in repr
    {
      && this in repr
      && (forall k | k in store :: store[k] in repr && store[k].entries in repr && store[k].Valid())
      && (forall j, k | j in store && k in store && j != k :: store[j] != store[k] && store[j].entries != store[k].entries)
    }

    ghost function View(): (l: LimiterView)
      requires Valid()
      reads this, repr
      ensures l.lru == lru && l.store.Keys == store.Keys
    {
      LimiterView(map k | k in store :: store[k].View(), lru)
    }

    constructor (expiration: int)
      ensures Valid() && fresh(repr) && View() == EMPTY && this.expiration == expiration
    {
      store, lru, repr := map[], [], {this};
      this.expiration := expiration;
    }

    /** One bucket was worked on and nothing else: only its entry in the view changes. */
    twostate lemma OnlyBucket(key: Key)
      requires old(Valid()) && store == old(store) && lru == old(lru) && key in store
      requires old(repr) <= repr && store[key].Valid()
      requires store[key].entries == old(store[key].entries) || fresh(store[key].entries)
      requires store[key].entries in repr
      requires forall k | k in store && k != key :: unchanged(store[k]) && unchanged(store[k].entries)
      ensures Valid()
      ensures View() == old(View()).(store := old(View()).store[key := store[key].View()])
    {
      hide Bucket.Valid;
      forall k | k in store && k != key ensures store[k].Valid() && store[k].entries in repr {
        assert old(store[k].Valid());
      }
    }

    method ExpireAt(now: int, key: Key, duration: int)
      requires Valid() && key in store
      modifies store[key], store[key].entries
      ensures Valid() && store[key].entries == old(store[key].entries)
      ensures var l := old(View());
              View() == l.(store := l.store[key := l.store[key].(entries := Expire(l.store[key].entries, now, duration))])
    {
      hide Bucket.Valid;
      store[key].Expire(now, duration);
      OnlyBucket(key);
    }

    method MarkAt(now: int, key: Key, duration: int)
      requires Valid() && key in store
      modifies store[key]
      ensures Valid()
      ensures var l := old(View());
              View() == l.(store := l.store[key := l.store[key].(lastActive := now, window := duration)])
    {
      hide Bucket.Valid;
      store[key].Mark(now, duration);
      OnlyBucket(key);
    }

    method AppendAt(now: int, key: Key, weight: nat, id: string)
      requires Valid() && key in store
      modifies this`repr, store[key], store[key].entries
      ensures Valid() && fresh(repr - old(repr))
      ensures var l := old(View());
              View() == l.(store := l.store[key := l.store[key].(entries := l.store[key].entries + Copies(weight, Entry(now, id)))])
    {
      hide Bucket.Valid;
      store[key].Append(now, weight, id);
      repr := repr + {store[key].entries};
      OnlyBucket(key);
    }

    method RemoveAt(key: Key, id: string) returns (found: bool)
      requires Valid() && key in store
      modifies store[key], store[key].entries
      ensures Valid()
      ensures var l := old(View());
              var s := l.store[key].entries;
              && found == (FindId(s, id) < |s|)
              && View() == l.(store := l.store[key := l.store[key].(entries := DropAt(s, FindId(s, id)))])
    {
      hide Bucket.Valid;
      found := store[key].Remove(id);
      OnlyBucket(key);
    }

    method SizeAt(key: Key) returns (n: nat)
      requires Valid() && key in store
      ensures n == |View().store[key].entries|
    {
      n := store[key].Size();
    }

    /** A new bucket joins the store; nothing else changed. */
    twostate lemma NewBucket(key: Key)
      requires old(Valid()) && lru == old(lru) && key in store && store - {key} == old(store) && key !in old(store)
      requires old(repr) <= repr && {store[key], store[key].entries} <= repr
      requires fresh(store[key]) && fresh(store[key].entries) && store[key].Valid()
      requires forall k | k in old(store) :: unchanged(old(store)[k]) && unchanged(old(store)[k].entries)
      ensures Valid()
      ensures View() == LimiterView(old(View()).store[key := store[key].View()], old(View()).lru)
    {
      hide Bucket.Valid;
      forall k | k in store && k != key ensures k in old(store) && store[k] == old(store)[k] && store[k].Valid() && store[k].entries in repr {
        assert k in store - {key};
        assert old(store[k].Valid());
      }
    }

    method Insert(key: Key)
      requires Valid() && key !in store
      modifies this`store, this`repr
      ensures Valid() && fresh(repr - old(repr)) && key in store
      ensures fresh(store[key]) && fresh(store[key].entries)
      ensures exists b: BucketView | b.entries == [] :: View() == LimiterView(old(View()).store[key := b], old(View()).lru)
    {
      hide Bucket.Valid;
      var bucket := new Bucket();
      store := store[key := bucket];
      repr := repr + {bucket, bucket.entries};
      NewBucket(key);
    }

    method OldestAt(key: Key) returns (timestamp: int)
      requires Valid() && key in store && View().store[key].entries != []
      ensures timestamp == View().store[key].entries[0].timestamp
    {
      timestamp := store[key].entries[store[key].head].timestamp;
    }

    method MoveToFront(key: Key)
      requires Valid()
      modifies this`lru
      ensures Valid()
      ensures View() == old(View()).(lru := [key] + Without(old(View()).lru, key))
    {
      hide Bucket.Valid, Without;
      ghost var l := View();
      lru := [key] + Without(lru, key);
      assert View().store == l.store;
    }

    /** Finds the bucket for `key` and expires it, or inserts an empty one; either way it becomes the most recent. */
    method Touch(now: int, key: Key, duration: int)
      requires Valid()
      modifies repr
      ensures Valid() && fresh(repr - old(repr)) && key in store
      ensures var l := old(View());
              var kept := if key in l.store then Expire(l.store[key].entries, Unix(now), duration) else [];
              View() == LimiterView(l.store[key := BucketView(kept, now, duration)], [key] + Without(l.lru, key))
    {
      hide Valid, View, Bucket.Valid, Expire, Without;
      ghost var l := View();
      if key !in store {
        Insert(key);
      } else {
        ExpireAt(Unix(now), key, duration);
      }
      ghost var b := View().store[key];
      assert View() == LimiterView(l.store[key := b], l.lru);
      MoveToFront(key);
      MarkAt(now, key, duration);
      Overwrite(l.store, key, b, BucketView(b.entries, now, duration));
    }

    /** Atomically consumes `weight` entries of the key's sliding window, or refuses. */
    method ReserveN(now: int, key: Key, max: int, duration: int, weight: int, id: string) returns (ok: bool)
      requires Valid()
      modifies repr
      ensures Valid() && fresh(repr - old(repr))
      ensures (View(), ok) == RateLimitModel.ReserveN(old(View()), now, key, max, duration, weight, id)
    {
      hide Valid, View, Bucket.Valid, Expire, Without, Copies;
      if max <= 0 {
        return true;
      }
      var w := if weight <= 0 then 1 else weight;
      if w > max {
        return false;
      }
      ghost var l := View();
      Touch(now, key, duration);
      var size := SizeAt(key);
      if w > max - size {
        return false;
      }
      ghost var b := View().store[key];
      AppendAt(Unix(now), key, w, id);
      Overwrite(l.store, key, b, View().store[key]);
      return true;
    }

    method RemoveBucket(key: Key)
      requires Valid()
      modifies this`store, this`lru
      ensures Valid()
      ensures View() == RateLimitModel.RemoveBucket(old(View()), key)
    {
      hide Bucket.Valid;
      ghost var l := View();
      store := store - {key};
      lru := Without(lru, key);
      assert View().store == l.store - {key};
    }

    method RemoveIfEmpty(key: Key)
      requires Valid() && key in store
      modifies this`store, this`lru
      ensures Valid()
      ensures View() == var l := old(View()); if |l.store[key].entries| == 0 then RateLimitModel.RemoveBucket(l, key) else l
    {
      hide Valid, View, Bucket.Valid;
      var size := SizeAt(key);
      if size == 0 {
        RemoveBucket(key);
      }
    }

    /** Removes one reservation; a blank ID is ignored. */
    method Cancel(key: Key, id: string)
      requires Valid()
      modifies repr
      ensures Valid() && fresh(repr - old(repr))
      ensures View() == CancelOne(old(View()), key, id)
    {
      hide Valid, View, Bucket.Valid;
      if id == "" || key !in store {
        return;
      }
      hide CancelOne, DropAt, FindId, Without;
      ghost var l := View();
      CancelForm(l, key, id);
      var found := RemoveAt(key, id);
      if found {
        RemoveIfEmpty(key);
      }
    }

    /** Seconds until the oldest live entry ages out. */
    method RetryAfter(now: int, key: Key, duration: int) returns (delay: int)
      requires Valid()
      modifies repr
      ensures Valid() && fresh(repr - old(repr))
      ensures (View(), delay) == RetryDelay(old(View()), now, key, duration)
    {
      hide Valid, View, Bucket.Valid, Expire;
      if duration <= 0 || key !in store {
        return 1;
      }
      ghost var l := View();
      ExpireAt(Unix(now), key, duration);
      ghost var b := View().store[key];
      Overwrite(l.store, key, b, b);
      var size := SizeAt(key);
      if size == 0 {
        RemoveBucket(key);
        return 1;
      }
      var oldest := OldestAt(key);
      return Max(1, duration - (Unix(now) - oldest));
    }

    /** Has the bucket been active within the cleanup interval, and is there nothing live in it? */
    method Inspect(key: Key, asOf: int) returns (recent: bool, spent: bool)
      requires Valid() && key in store
      ensures recent <==> asOf - View().store[key].lastActive <= expiration
      ensures spent <==> Spent(View().store[key], asOf)
    {
      var bucket := store[key];
      recent := asOf - bucket.lastActive <= expiration;
      var size := bucket.Size();
      spent := size == 0 || Unix(asOf) - bucket.entries[bucket.len - 1].timestamp >= bucket.window;
    }

    /** Drops idle buckets that hold nothing live, least recently used first. */
    method DeleteExpiredEntries(asOf: int)
      requires Valid() && LruOk(View())
      modifies this`store, this`lru
      ensures Valid() && LruOk(View())
      ensures View() == CleanUp(old(View()), expiration, asOf)
    {
      hide Valid, View, Bucket.Valid, LruOk, Without;
      if expiration <= 0 {
        return;
      }
      var n := |lru|;
      while n > 0
        invariant 0 <= n <= |lru| && Valid() && LruOk(View())
        invariant CleanUp(old(View()), expiration, asOf) == CleanupFrom(View(), expiration, asOf, n)
      {
        ListedStored(View(), n - 1);
        var key := lru[n - 1];
        var recent, spent := Inspect(key, asOf);
        if recent {
          return;
        }
        if spent {
          RemoveBucketLru(View(), key);
          RemoveBucket(key);
        }
        n := n - 1;
      }
    }
  }

  /** Cancelling in two steps: close the gap, then drop the bucket if nothing is left. */
  lemma CancelForm(l: LimiterView, key: Key, id: string)
    requires id != "" && key in l.store
    ensures var s := l.store[key].entries;
            var l' := l.(store := l.store[key := l.store[key].(entries := DropAt(s, FindId(s, id)))]);
            CancelOne(l, key, id)
            == if FindId(s, id) < |s| && |l'.store[key].entries| == 0 then RateLimitModel.RemoveBucket(l', key) else l'
  {
    var s := l.store[key].entries;
    var b := l.store[key].(entries := DropAt(s, FindId(s, id)));
    Overwrite(l.store, key, b, b);
  }

  lemma Overwrite(m: map<Key, BucketView>, k: Key, a: BucketView, b: BucketView)
    ensures m[k := a][k := b] == m[k := b]
    ensures m[k := a] - {k} == m - {k}
  {
  }
}

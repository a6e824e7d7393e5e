/**
 Properties relating several cache operations: the sweep's idempotence and
 monotonicity, what `Get` observes after `Set` and `Delete`, how `Set` and
 `Delete` differ from a bare sweep, and what `Items` leaves behind.
 */
module CacheProps {
  import opened ExpireCache

  /** A fresh cache holds nothing: `Get` finds no key at any time and
      `Items` returns an empty snapshot. */
  lemma NewCacheEmpty<V>(interval: int, created: int, key: string, now: int)
    ensures Get(NewCache<V>(interval, created), key, now).value == None
    ensures Items(NewCache<V>(interval, created), now).snapshot == map[]
  {
  }

  /** A sweep never moves the claim time backwards when the clock has not
      gone backwards, and never claims a time later than `now`. */
  lemma ClearMonotone<V>(c: Cache<V>, now: int)
    requires c.lastClearTime <= now
    ensures c.lastClearTime <= Clear(c, now).lastClearTime <= now
  {
  }

  /** Once expired, an item stays expired as the clock moves forward. */
  lemma ExpiredStaysExpired<V>(item: Item<V>, t: int, t': int)
    requires Expired(item, t) && t <= t'
    ensures Expired(item, t')
  {
  }

  /** Running the sweep twice at the same instant does what running it once
      does: either the throttle refuses the second one, or it finds nothing
      left to delete. */
  lemma ClearIdempotent<V>(c: Cache<V>, now: int)
    ensures Clear(Clear(c, now), now) == Clear(c, now)
  {
  }

  /** Removing a key before the sweep or after it gives the same cache. */
  lemma ClearRemoveCommute<V>(c: Cache<V>, key: string, now: int)
    ensures Clear(c.(mp := c.mp - {key}), now) == Clear(c, now).(mp := Clear(c, now).mp - {key})
  {
  }

  /** The effect of `Get` on the cache: absent and live keys leave the map
      as it was before the sweep; an expired key is deleted and nothing
      else is. */
  lemma GetEffect<V>(c: Cache<V>, key: string, now: int)
    ensures key !in c.mp ==> Get(c, key, now) == GetResult(None, Clear(c, now))
    ensures key in c.mp && !Expired(c.mp[key], now) ==>
              Get(c, key, now) == GetResult(Some(c.mp[key].data), Clear(c, now))
    ensures key in c.mp && Expired(c.mp[key], now) ==>
              Get(c, key, now) == GetResult(None, Clear(c, now).(mp := Clear(c, now).mp - {key}))
  {
  }

  /** `Set` differs from a bare sweep only at its own key. */
  lemma SetOnlyTouchesKey<V>(c: Cache<V>, key: string, v: V, d: int, now: int)
    ensures Set(c, key, v, d, now).mp - {key} == Clear(c, now).mp - {key}
    ensures Set(c, key, v, d, now).lastClearTime == Clear(c, now).lastClearTime
  {
  }

  /** A later `Set` on the same key replaces the earlier one completely. */
  lemma SetOverwrites<V>(c: Cache<V>, key: string, v1: V, d1: int, v2: V, d2: int, now: int)
    ensures key in Set(Set(c, key, v1, d1, now), key, v2, d2, now).mp ==>
              Set(Set(c, key, v1, d1, now), key, v2, d2, now).mp[key] == Item(now + d2, v2)
    ensures Set(Set(c, key, v1, d1, now), key, v2, d2, now).mp - {key} == Clear(c, now).mp - {key}
  {
  }

  /** A `Get` no earlier than a `Set` finds the stored value exactly while
      the stored expiry has not passed; with `d < 0` it never finds it. */
  lemma GetAfterSet<V>(c: Cache<V>, key: string, v: V, d: int, t0: int, t1: int)
    requires t0 <= t1
    ensures Get(Set(c, key, v, d, t0), key, t1).value == (if t1 <= t0 + d then Some(v) else None)
  {
  }

  /** A `Get` at the very instant of a `Set` finds the value exactly when
      the duration is not negative. */
  lemma GetRightAfterSet<V>(c: Cache<V>, key: string, v: V, d: int, now: int)
    ensures Get(Set(c, key, v, d, now), key, now).value == (if d >= 0 then Some(v) else None)
  {
  }

  /** `Delete` differs from a bare sweep only in that its key is gone;
      deleting an absent key is therefore just the sweep. */
  lemma DeleteEffect<V>(c: Cache<V>, key: string, now: int)
    ensures Delete(c, key, now) == Clear(c, now).(mp := Clear(c, now).mp - {key})
    ensures key !in c.mp ==> Delete(c, key, now) == Clear(c, now)
  {
  }

  /** Deleting twice at the same instant is deleting once. */
  lemma DeleteIdempotent<V>(c: Cache<V>, key: string, now: int)
    ensures Delete(Delete(c, key, now), key, now) == Delete(c, key, now)
  {
  }

  /** After `Delete` no `Get` finds the key, whatever the time. */
  lemma GetAfterDelete<V>(c: Cache<V>, key: string, t0: int, t1: int)
    ensures Get(Delete(c, key, t0), key, t1).value == None
  {
  }

  /** After `Items` the map is the original map restricted to the keys of
      the snapshot, and a second `Items` at the same instant returns the
      same snapshot and changes nothing. */
  lemma ItemsRestricts<V>(c: Cache<V>, now: int)
    ensures Items(c, now).cache.mp == map k | k in Items(c, now).snapshot :: c.mp[k]
    ensures Items(Items(c, now).cache, now) == Items(c, now)
  {
  }

  /** The snapshot of `Items` is what a `Get` of each key at the same
      instant would return. */
  lemma ItemsAgreesWithGet<V>(c: Cache<V>, key: string, now: int)
    ensures key in Items(c, now).snapshot <==> Get(c, key, now).value.Some?
    ensures key in Items(c, now).snapshot ==> Get(c, key, now).value == Some(Items(c, now).snapshot[key])
  {
  }
}

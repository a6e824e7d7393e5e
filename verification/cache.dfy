/**
 An expiring key-value cache, modelled as a pure state machine.

 Every entry carries an absolute expiry time in nanoseconds. The clock is not
 read by the model: each public operation takes the current time `now` as an
 argument. The public operations `Get`, `Set` and `Delete` first do their own
 work on the map and then run the throttled sweep `Clear`, exactly as the
 deferred call does in cache.go. `Items` does not sweep; it removes the
 expired entries it saw during its own scan.
 */
module ExpireCache {

  datatype Option<T> = None | Some(value: T)

  /** One stored value and the instant after which it is expired. */
  datatype Item<V> = Item(expiredTime: int, data: V)

  /** The cache state: the map, the time the last sweep was claimed, and the
      minimum spacing between two sweeps. */
  datatype Cache<V> = Cache(mp: map<string, Item<V>>, lastClearTime: int, clearInterval: int)

  /** What `Get` returns to its caller, with the cache left behind. */
  datatype GetResult<V> = GetResult(value: Option<V>, cache: Cache<V>)

  /** What `Items` returns to its caller, with the cache left behind. */
  datatype ItemsResult<V> = ItemsResult(snapshot: map<string, V>, cache: Cache<V>)

  /** The expiry test is strict: an item is still live at its own expiry instant. */
  predicate Expired<V>(item: Item<V>, now: int)
    ensures now == item.expiredTime ==> !Expired(item, now)
  {
    now > item.expiredTime
  }

  /** The entries of `mp` that are not expired at `now`. */
  function LiveEntries<V>(mp: map<string, Item<V>>, now: int): (r: map<string, Item<V>>)
    ensures forall k :: k in r <==> k in mp && mp[k].expiredTime >= now
    ensures forall k :: k in r ==> r[k] == mp[k]
  {
    map k | k in mp && !Expired(mp[k], now) :: mp[k]
  }

  /** The live values of `mp` at `now`, as handed out by `Items`. */
  function Snapshot<V>(mp: map<string, Item<V>>, now: int): (r: map<string, V>)
    ensures forall k :: k in r <==> k in mp && mp[k].expiredTime >= now
    ensures forall k :: k in r ==> r[k] == mp[k].data
  {
    map k | k in mp && !Expired(mp[k], now) :: mp[k].data
  }

  /** A fresh cache created at `now`. */
  function NewCache<V>(interval: int, now: int): (r: Cache<V>)
    ensures forall k :: k !in r.mp
    ensures r.lastClearTime == now && r.clearInterval == interval
  {
    Cache(map[], now, interval)
  }

  /** The throttle: a sweep is refused while less than `clearInterval` has
      passed since the last one was claimed. A non-positive interval never
      refuses a sweep on a clock that has not gone backwards. */
  predicate Throttled<V>(c: Cache<V>, now: int)
    ensures c.clearInterval <= 0 && c.lastClearTime <= now ==> !Throttled(c, now)
    ensures c.clearInterval > 0 && now == c.lastClearTime ==> Throttled(c, now)
  {
    now - c.lastClearTime < c.clearInterval
  }

  /** The throttled sweep. When the throttle allows it, the sweep slot is
      claimed at `now` and every entry expired at `now` is deleted. */
  function Clear<V>(c: Cache<V>, now: int): (r: Cache<V>)
    ensures r.clearInterval == c.clearInterval
    ensures Throttled(c, now) ==> r == c
    ensures !Throttled(c, now) ==> r.lastClearTime == now
    ensures !Throttled(c, now) ==>
              forall k :: k in r.mp <==> k in c.mp && c.mp[k].expiredTime >= now
    ensures forall k :: k in r.mp ==> k in c.mp && r.mp[k] == c.mp[k]
  {
    if Throttled(c, now) then c
    else c.(mp := LiveEntries(c.mp, now), lastClearTime := now)
  }

  /** The lookup of `Get` before its deferred sweep: an expired entry found
      on the way is deleted. */
  function Lookup<V>(c: Cache<V>, key: string, now: int): (r: GetResult<V>)
    ensures r.value.Some? <==> key in c.mp && !Expired(c.mp[key], now)
    ensures r.value.Some? ==> r.value.value == c.mp[key].data
    ensures r.cache.lastClearTime == c.lastClearTime && r.cache.clearInterval == c.clearInterval
    ensures r.value.None? ==> key !in r.cache.mp
    ensures r.value.Some? || key !in c.mp ==> r.cache == c
    ensures forall k :: k != key ==> (k in r.cache.mp <==> k in c.mp)
    ensures forall k :: k in r.cache.mp ==> k in c.mp && r.cache.mp[k] == c.mp[k]
  {
    if key !in c.mp then GetResult(None, c)
    else if Expired(c.mp[key], now) then GetResult(None, c.(mp := c.mp - {key}))
    else GetResult(Some(c.mp[key].data), c)
  }

  /** `Get(key)` at `now`: the lookup, then the deferred sweep. The
      contract below speaks of the key and of what is removed; the exact
      state left behind, sweep and claim time included, is stated by
      `CacheProps.GetEffect`. */
  function Get<V>(c: Cache<V>, key: string, now: int): (r: GetResult<V>)
    ensures r.value.Some? <==> key in c.mp && c.mp[key].expiredTime >= now
    ensures r.value.Some? ==> r.value.value == c.mp[key].data && key in r.cache.mp
    ensures r.value.None? ==> key !in r.cache.mp
    ensures forall k :: k in r.cache.mp ==> k in c.mp && r.cache.mp[k] == c.mp[k]
  {
    var found := Lookup(c, key, now);
    GetResult(found.value, Clear(found.cache, now))
  }

  /** `Set(key, v, d)` at `now`: store `v` until `now + d`, replacing any
      previous entry for `key`, then the deferred sweep. A negative `d`
      stores an entry that is already expired. */
  function Set<V>(c: Cache<V>, key: string, v: V, d: int, now: int): (r: Cache<V>)
    ensures r.clearInterval == c.clearInterval
    ensures key in r.mp <==> d >= 0 || Throttled(c, now)
    ensures key in r.mp ==> r.mp[key] == Item(now + d, v)
    ensures forall k :: k != key && k in r.mp ==> k in c.mp && r.mp[k] == c.mp[k]
  {
    Clear(c.(mp := c.mp[key := Item(now + d, v)]), now)
  }

  /** `Delete(key)` at `now`: remove the entry if there is one, then the
      deferred sweep. */
  function Delete<V>(c: Cache<V>, key: string, now: int): (r: Cache<V>)
    ensures r.clearInterval == c.clearInterval
    ensures key !in r.mp
    ensures forall k :: k in r.mp ==> k in c.mp && r.mp[k] == c.mp[k]
  {
    Clear(c.(mp := c.mp - {key}), now)
  }

  /** `deleteKeys`: remove every listed key, absent ones being a no-op. */
  function DeleteKeys<V>(mp: map<string, Item<V>>, keys: set<string>): (r: map<string, Item<V>>)
    ensures forall k :: k in r <==> k in mp && k !in keys
    ensures forall k :: k in r ==> r[k] == mp[k]
  {
    mp - keys
  }

  /** The keys of `mp` that are expired at `now`: the ones a scan collects
      for deletion. */
  function ExpiredKeys<V>(mp: map<string, Item<V>>, now: int): (r: set<string>)
    ensures forall k :: k in r <==> k in mp && mp[k].expiredTime < now
  {
    set k | k in mp && Expired(mp[k], now)
  }

  /** `Items()` at `now`: the snapshot of the live values, followed by the
      deletion of the expired keys the scan saw. The throttle is neither
      consulted nor updated. */
  function Items<V>(c: Cache<V>, now: int): (r: ItemsResult<V>)
    ensures forall k :: k in r.snapshot <==> k in c.mp && c.mp[k].expiredTime >= now
    ensures forall k :: k in r.snapshot ==> r.snapshot[k] == c.mp[k].data
    ensures forall k :: k in r.cache.mp <==> k in r.snapshot
    ensures forall k :: k in r.cache.mp ==> r.cache.mp[k] == c.mp[k]
    ensures r.cache.lastClearTime == c.lastClearTime && r.cache.clearInterval == c.clearInterval
  {
    ItemsResult(Snapshot(c.mp, now), c.(mp := DeleteKeys(c.mp, ExpiredKeys(c.mp, now))))
  }
}

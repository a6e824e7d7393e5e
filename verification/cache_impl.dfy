/**
 The map scans of the cache written as loops, the way the Go code ranges over
 its map: the `Items` scan that splits entries into a snapshot and a list of keys
 to delete, the sweep's scan that only collects expired keys, and
 `deleteKeys`, which deletes a list of keys one by one. Each is proved to
 agree with the set-level definitions of module ExpireCache.
 */
module CacheImpl {
  import opened ExpireCache

  /** No key is listed twice. */
  ghost predicate Distinct(keys: seq<string>)
  {
    forall i, j :: 0 <= i < j < |keys| ==> keys[i] != keys[j]
  }

  /** The sweep's scan: the expired keys of `mp`, each listed once. */
  method CollectExpired<V>(mp: map<string, Item<V>>, now: int) returns (needDelete: seq<string>)
    ensures Distinct(needDelete)
    ensures forall k :: k in needDelete <==> k in mp && Expired(mp[k], now)
  {
    needDelete := [];
    var remaining := mp.Keys;
    while remaining != {}
      invariant remaining <= mp.Keys
      invariant Distinct(needDelete)
      invariant forall k :: k in needDelete ==> k !in remaining
      invariant forall k :: k in needDelete <==> k in mp && k !in remaining && Expired(mp[k], now)
      decreases remaining
    {
      var s :| s in remaining;
      if Expired(mp[s], now) {
        needDelete := needDelete + [s];
      }
      remaining := remaining - {s};
    }
  }

  /** The scan of `Items`: the live values go into the snapshot, the expired
      keys into the list handed to `deleteKeys`. */
  method ScanItems<V>(mp: map<string, Item<V>>, now: int)
    returns (snapshot: map<string, V>, needDelete: seq<string>)
    ensures snapshot == Snapshot(mp, now)
    ensures Distinct(needDelete)
    ensures forall k :: k in needDelete <==> k in mp && Expired(mp[k], now)
  {
    snapshot := map[];
    needDelete := [];
    var remaining := mp.Keys;
    while remaining != {}
      invariant remaining <= mp.Keys
      invariant Distinct(needDelete)
      invariant forall k :: k in needDelete ==> k !in remaining
      invariant forall k :: k in needDelete <==> k in mp && k !in remaining && Expired(mp[k], now)
      invariant forall k :: k in snapshot <==> k in mp && k !in remaining && !Expired(mp[k], now)
      invariant forall k :: k in snapshot ==> snapshot[k] == mp[k].data
      decreases remaining
    {
      var s :| s in remaining;
      if Expired(mp[s], now) {
        needDelete := needDelete + [s];
      } else {
        snapshot := snapshot[s := mp[s].data];
      }
      remaining := remaining - {s};
    }
  }

  /** `deleteKeys`: deletes the listed keys in order; a key that is already
      absent is skipped without error. */
  method DeleteKeysLoop<V>(mp: map<string, Item<V>>, keys: seq<string>) returns (r: map<string, Item<V>>)
    ensures forall k :: k in r <==> k in mp && k !in keys
    ensures forall k :: k in r ==> r[k] == mp[k]
  {
    r := mp;
    var i := 0;
    while i < |keys|
      invariant 0 <= i <= |keys|
      invariant forall k :: k in r <==> k in mp && k !in keys[..i]
      invariant forall k :: k in r ==> r[k] == mp[k]
    {
      r := r - {keys[i]};
      i := i + 1;
    }
  }

  /** `Items()` at `now`, scan and deferred deletion, agreeing with the
      set-level `ExpireCache.Items`. */
  method ItemsLoop<V>(c: Cache<V>, now: int) returns (r: ItemsResult<V>)
    ensures r == ExpireCache.Items(c, now)
    ensures forall k :: k in r.cache.mp <==> k in c.mp && !Expired(c.mp[k], now)
  {
    var snapshot, needDelete := ScanItems(c.mp, now);
    var mp := DeleteKeysLoop(c.mp, needDelete);
    r := ItemsResult(snapshot, c.(mp := mp));
  }

  /** `clear()` at `now`: the throttle check, the claim of the sweep slot,
      then the sweep's scan and deletions, agreeing with `ExpireCache.Clear`. */
  method ClearLoop<V>(c: Cache<V>, now: int) returns (r: Cache<V>)
    ensures r == ExpireCache.Clear(c, now)
    ensures !Throttled(c, now) ==> forall k :: k in r.mp ==> !Expired(r.mp[k], now)
  {
    if now - c.lastClearTime < c.clearInterval {
      return c;
    }
    var needDelete := CollectExpired(c.mp, now);
    var mp := DeleteKeysLoop(c.mp, needDelete);
    r := c.(mp := mp, lastClearTime := now);
  }
}

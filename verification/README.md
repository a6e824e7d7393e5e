# go-expirecache in Dafny

A model of the expiring key-value cache of `go-expirecache` (`cache.go`).
The cache maps string keys to items. Each item holds a value and an absolute
expiry time in nanoseconds. An item is expired once the clock is strictly
past its expiry time. Expired items are removed in three ways:

- lazily, by a `Get` that finds one;
- by `Items`, which deletes the expired keys it saw while taking its snapshot;
- by the throttled sweep `clear`, which every `Get`, `Set` and `Delete` runs as a deferred call.

`clear` starts a sweep only when at least `clearInterval` nanoseconds have
passed since the last one was claimed.

The model makes time an explicit `now: int` argument of every operation.
Each operation is then a pure transition on the immutable state
`Cache(mp, lastClearTime, clearInterval)`. The Go goroutines that do the
deletions are applied at once.

Files:

- `cache.dfy`, module `ExpireCache`: the data model and every operation, as functions. `Get`, `Set` and `Delete` are their own map work followed by `Clear`, as the deferred `c.clear()` composes them.
- `cache_impl.dfy`, module `CacheImpl`: the map scans written as loops, the way the Go code ranges over its map. Each is proved equal to the set-level definition.
- `cache_props.dfy`, module `CacheProps`: lemmas relating operations. These cover sweep idempotence, `Get` after `Set`/`Delete`, overwrite, delete idempotence and the `Items` restriction.
- `cache_runs.dfy`, module `CacheRuns`: runs of time-stamped operations. It proves the throttle (at most one sweep per interval), the monotone claim time, and that only `Set` writes an entry. It also replays the timeline of `TestName`.

Two behaviours of cache.go that the model keeps:

- Expiry is strict (`now > expiredTime`). An item is still live at the exact instant of its expiry time, and `Items` keeps items with `expiredTime >= now`.
- `Items` neither calls `clear` nor consults the throttle. It always deletes the expired keys its scan saw, and it leaves `lastClearTime` alone.

## Model

| member | source | states |
|---|---|---|
| ExpireCache.NewCache | cache.go:10-17 | a new cache holds no key, its claim time is the creation time and its interval is the one given |
| ExpireCache.Clear | cache.go:88-107 | inside the interval the whole state is unchanged; otherwise the claim time becomes `now` and the map keeps exactly the entries with `expiredTime >= now`, values untouched; it never adds or alters an entry |
| ExpireCache.Expired | cache.go:114-116 | an item is still live at the exact instant of its expiry time |
| CacheProps.ExpiredStaysExpired | cache.go:114-116 | an item expired at `t` is expired at every later `t'` |
| ExpireCache.Throttled | cache.go:90 | a non-positive interval never refuses a sweep once the clock has reached the claim time; a positive interval always refuses a second sweep at the claim instant itself |
| ExpireCache.Lookup | cache.go:30-43 | found exactly when the key is present and not expired, with its data; an absent or live key leaves the cache exactly as it was; the key is gone afterwards when not found; no other key changes and the throttle state is untouched |
| ExpireCache.Get | cache.go:28-44 | found exactly when the key is present with `expiredTime >= now`, returning its data and keeping it; when not found the key is absent afterwards; the call only ever removes entries |
| ExpireCache.Set | cache.go:46-54 | afterwards the key holds exactly `Item(now + d, v)`, and it is present exactly when `d >= 0` or the sweep was throttled; no other key gains or changes an entry |
| ExpireCache.Delete | cache.go:56-61 | the key is absent afterwards; other keys are only ever removed, never changed |
| ExpireCache.DeleteKeys | cache.go:78-86 | the result holds exactly the keys of the map not listed, with their items |
| ExpireCache.ExpiredKeys | cache.go:97-102 | exactly the keys whose item has `expiredTime < now` |
| ExpireCache.LiveEntries | cache.go:98-105 | exactly the entries with `expiredTime >= now`, unchanged |
| ExpireCache.Snapshot | cache.go:64-73 | exactly the keys with `expiredTime >= now`, each mapped to its data |
| ExpireCache.Items | cache.go:63-86 | the snapshot holds exactly the keys with `expiredTime >= now` mapped to their data; afterwards the map holds exactly the snapshot's keys with their original items; the throttle state is untouched |
| CacheImpl.CollectExpired | cache.go:97-102 | the scan of the sweep lists every expired key of the map once and nothing else |
| CacheImpl.ScanItems | cache.go:64-73 | the loop over the map builds exactly the snapshot of live values and a duplicate-free list of exactly the expired keys |
| CacheImpl.DeleteKeysLoop | cache.go:78-86 | deleting the listed keys one by one leaves exactly the unlisted keys with their items; absent keys are harmless |
| CacheImpl.ItemsLoop | cache.go:63-86 | the loop version of `Items` yields the same snapshot and state as the set-level definition, and no expired key survives it |
| CacheImpl.ClearLoop | cache.go:88-107 | the loop version of `clear` yields the same state as the set-level definition, and an unthrottled sweep leaves no entry expired at `now` |
| CacheProps.NewCacheEmpty | cache.go:10-17 | on a fresh cache `Get` finds nothing at any time and `Items` returns an empty snapshot |
| CacheProps.ClearMonotone | cache.go:88-93 | with `lastClearTime <= now`, a sweep attempt never moves the claim time backwards or past `now` |
| CacheProps.ClearIdempotent | cache.go:88-107 | a second sweep attempt at the same instant changes nothing |
| CacheProps.ClearRemoveCommute | cache.go:93-106 | deleting a key before the sweep or after it yields the same state |
| CacheProps.GetEffect | cache.go:28-44 | for an absent or live key `Get` leaves the state a bare sweep leaves; for an expired key it additionally removes exactly that key |
| CacheProps.SetOnlyTouchesKey | cache.go:46-54 | `Set` leaves every other key exactly as a bare sweep at the same instant would |
| CacheProps.SetOverwrites | cache.go:49-52 | a second `Set` on a key replaces the first entry entirely, and other keys are as after one sweep |
| CacheProps.GetAfterSet | cache.go:28-54 | a `Get` no earlier than a `Set` finds the stored value exactly while `t1 <= t0 + d` |
| CacheProps.GetRightAfterSet | cache.go:46-53 | a `Get` at the instant of a `Set` finds the value exactly when `d >= 0` |
| CacheProps.DeleteEffect | cache.go:56-61 | `Delete` is the bare sweep with the key removed; deleting an absent key is just the sweep |
| CacheProps.DeleteIdempotent | cache.go:56-61 | deleting twice at one instant equals deleting once |
| CacheProps.GetAfterDelete | cache.go:56-61 | after `Delete` no `Get` finds the key, at any time |
| CacheProps.ItemsRestricts | cache.go:63-86 | after `Items` the map is the original restricted to the snapshot's keys, and a second `Items` at the same instant changes nothing and returns the same snapshot |
| CacheProps.ItemsAgreesWithGet | cache.go:28-76 | a key is in the snapshot exactly when `Get` at the same instant finds it, with the same value |
| CacheRuns.ApplyStep | cache.go:28-76 | one public call keeps the interval, moves the claim time to its own time exactly when it sweeps, and changes no entry except the one `Set` writes |
| CacheRuns.NoSweepWithinInterval | cache.go:88-93 | calls all less than one interval after the last claim start no sweep and leave the claim time unchanged |
| CacheRuns.AtMostOneSweepPerInterval | cache.go:88-93 | calls whose times all lie in a window shorter than the interval start at most one sweep, in any order |
| CacheRuns.ClaimTimeMonotone | cache.go:88-93 | on a non-decreasing clock the claim time never decreases and never passes the latest call's time |
| CacheRuns.OnlySetWrites | cache.go:28-107 | a key not written by any `Set` in a run is only ever removed, never changed |
| CacheRuns.NeverSetNeverFound | cache.go:10-44 | a key never written since creation is never found by `Get` nor listed by `Items` |
| CacheRuns.ExpiredAfterSet | cache.go:36-41 | once the duration of a `Set` has run out and the key was not written again, neither `Get` nor `Items` returns it |
| CacheRuns.TestNameTimeline | cache_test.go:10-33 | along the test's timeline the first two reads find their keys and the last two, past the one-second duration, do not |

## Left out

- Concurrency: the `sync.RWMutex`, the atomic load and store of `lastClearTime`, and the goroutines in `deleteKeys` and `clear`. The model is sequential and applies each deferred deletion at once, inside the call that scheduled it.
- Races the sequential model cannot show. `Items` ranges over the map without the lock. `deleteKeys` and the lazy delete in `Get` delete by key name later on, so a key written again in between would also be removed. Two concurrent `clear` calls can both pass the load before either stores.
- The wall clock (`time.Now`, `current`): each call takes one `now` argument. The Go code reads the clock more than once per call: in `Get`'s expiry test and again in the deferred `clear`, and in `Set` (`time.Now()` for the expiry time) and again in its deferred `clear`. The model uses the same instant for both readings. So a `Set` with `d = 0` followed by an unthrottled sweep keeps its entry in the model, while in Go the sweep's later clock reading nearly always removes it.
- int64 arithmetic: `now + d` in `Set` and `now - lastClearTime` in `clear` are unbounded integers in the model, so their overflow is not modelled.
- Values are an opaque type parameter `V`; the cache never inspects them. A Go `nil` result with `false` is `None`.
- The benchmarks and the `sync.Map` comparison harness in cache_test.go drive load and state no behaviour.

# callcache in Dafny

A model of `callcache`, a Go package that deduplicates calls and caches their results per key.
A `Dispatcher` maps each key to a `call`. A `call` holds the last successful result of the
caller's function and the time it was stored. On each `Do`, the entry's age picks one of three
actions:
- **expired** (older than `expiration`): the function runs synchronously and its reply is returned;
- **stale** (older than a positive `updateInterval`): the cached value is returned and a background
  update is requested;
- **fresh**: the cached value is returned and nothing else happens.

The update path checks freshness a second time before running the function. It stores the result
only on success, stamped with the time read before the function ran.

The model is sequential:
- The clock is an explicit `now` argument, in nanoseconds.
- The caller's function is an oracle argument `fn: Reply<V>`: the value and error it would return
  if it ran. A ghost flag `invoked` tells whether it ran.
- `interface{}` is `Value<V>` (`Nil` or `Val(v)`), and Go's `error` is `Error` (`NoError` or `Failed`).
- A background update is not run by `Do`. `Do` returns the action `Background` and the entry, and
  the client applies `Call.Update` to that entry as a later, separate step.

Files:
- `callcache.dfy`, module `CallCache`:
  - the pure step functions `DoStep` and `UpdateStep`, whose contracts state the staleness policy;
  - the classes `Call` and `Dispatcher`, whose methods change state in place and are proved against
    those functions;
  - the trace function `Run`, which runs a sequence of calls and deferred refreshes on one entry,
    with lemmas proved by induction.
- `callcache_examples.dfy`, module `CallCacheExamples`: the scenarios of `example_test.go` as
  client methods. Each states the results and how often the function ran.

A new entry has `lastUpdate = 0`, which stands for "never populated". It is nevertheless treated
as expired only when `now > expiration`, because the test is on the elapsed time alone.
`FirstCallInvokes` states the usual case. `FirstCallWithinExpirationServesNil` states the other:
with an expiration longer than the time since the epoch, the first call returns `(nil, nil)`
at once. When `0 < updateInterval < now`, it also requests a background update, and that
update runs the function.

## Model

| member | source | states |
|---|---|---|
| `CallCache.UpdateStep` | callcache.go:76-93 | The function is skipped iff the elapsed time is below `expiration` and below a non-zero `updateInterval`. When skipped, the entry is unchanged and `(result, nil)` is returned. When it runs, its reply is returned as is. Only a success writes, and it writes `(value, now)`. When `lastUpdate <= now` on entry, the stamp neither goes back nor passes `now` |
| `CallCache.DoStep` | callcache.go:59-74 | Sync iff elapsed `> expiration` (strict). Then the function runs and its reply, value and error alike, is returned, and the entry is written only on success. Background iff not expired, `updateInterval > 0` and elapsed `> updateInterval`. Whenever not expired, the cached result is returned with a nil error, nothing runs and nothing changes |
| `CallCache.FirstCallInvokes` | callcache.go:64-69 | On an empty entry with `now > expiration`, the first call runs the function and returns its reply |
| `CallCache.FirstCallWithinExpirationServesNil` | callcache.go:64-73 | On an empty entry with `0 <= now <= expiration`, the first call returns `(nil, nil)` at once and does not run the function itself. It requests a background update iff `0 < updateInterval < now`, and that update runs the function |
| `CallCache.FailedSyncStaysExpired` | callcache.go:83-90 | A failed synchronous update leaves the entry as it was, so every later call is expired again and runs the function |
| `CallCache.RefreshAfterRefreshSkipped` | callcache.go:78-82 | After a successful update at `t`, an update at a `t'` where the entry is still fresh is skipped. It returns the stored value with a nil error and changes nothing |
| `CallCache.Call.constructor` | callcache.go:36 | A new entry copies the durations it is given and starts empty (`result = nil`, `lastUpdate = 0`) |
| `CallCache.Call.Do` | callcache.go:59-74 | The new state, reply, action and `invoked` flag are exactly those of `DoStep` on the old state |
| `CallCache.Call.Update` | callcache.go:76-93 | The new state, reply and `invoked` flag are exactly those of `UpdateStep` on the old state |
| `CallCache.Dispatcher.constructor` | callcache.go:23-29 | Stores both durations as nanoseconds and starts with no entries |
| `CallCache.Dispatcher.Do` | callcache.go:33-41 | The key gains an entry if it had none: a fresh `Call` with the dispatcher's durations, starting empty. That entry then takes one `DoStep`. Only that entry and the map may change: every other key keeps its entry object and its state, and an entry already dropped by `Remove` is left alone |
| `CallCache.Dispatcher.EntryFor` | callcache.go:34-38 | Create-if-absent: an existing entry is kept as it is; a missing one is created fresh and empty. No other key's entry changes |
| `CallCache.Dispatcher.Step` | callcache.go:40 | The key's entry takes one `DoStep`; the map and every other key's state are unchanged |
| `CallCache.Dispatcher.Remove` | callcache.go:44-48 | Deletes only the given key and changes nothing if it is absent |
| `CallCache.Run` | callcache.go:59-93 | A sequence of calls and deferred refreshes gives one reply per event, and the function runs at most once per event |
| `CallCache.RunMonotone` | callcache.go:78-88 | With a clock that never goes back, `lastUpdate` never decreases over a sequence of events and never passes the latest clock reading |
| `CallCache.LastUpdateNeverDecreases` | callcache.go:84-88 | Between any two points of a chronological sequence of events, `lastUpdate` does not decrease |
| `CallCache.RunStoresOnlySuccesses` | callcache.go:83-89 | After any sequence of events, the entry is either unchanged or holds exactly the value and clock reading of one event at which the function actually ran (not skipped by the double check) and succeeded |
| `CallCache.RunWithinWindow` | callcache.go:70-82 | Every call or refresh while the entry is fresh returns `(result, nil)`, runs nothing and changes nothing |
| `CallCache.RunServedCalls` | callcache.go:70-74 | Every call that is neither expired nor past a set interval, bounds included, returns `(result, nil)`, runs nothing and changes nothing |
| `CallCache.OneInvocationPerServeWindow` | example_test.go:79-98 | On a new key, a successful first call followed by calls that are neither expired nor past a set interval (bounds included) runs the function exactly once. Every call gets the first reply |
| `CallCache.OneInvocationPerWindow` | example_test.go:79-98 | On a new key, a successful first call followed by calls inside the freshness window runs the function exactly once. Every call gets the first reply |
| `CallCacheExamples.ExampleDispatcher` | example_test.go:12-22 | A first call returns `("example", nil)` after one run |
| `CallCacheExamples.ExampleExpiration` | example_test.go:24-50 | With a 1 ns expiration and no interval, three spaced calls return 1, 2, 3 with three runs |
| `CallCacheExamples.ExampleUpdateInterval` | example_test.go:51-77 | With a 1 ns interval and a one-minute expiration, three spaced calls return 1, 1, 2, and the function runs three times (twice in the background) |
| `CallCacheExamples.ExampleMultiple` | example_test.go:79-98 | Three calls within ten seconds return 1, 1, 1 with one run |
| `CallCacheExamples.ExampleDifferentKeys` | example_test.go:129-156 | Three distinct keys return 1, 2, 3 with three runs |
| `CallCacheExamples.ExampleRemove` | example_test.go:158-178 | After `Remove`, the next call runs the function again: 1, 2 with two runs |
| `CallCacheExamples.ExampleOrphanedRefresh` | callcache.go:44-48 | A stale call requests a background update, and then `Remove` drops the key. The update, run later on the dropped entry, stores its value there. The key's new entry keeps serving its own value: 1, 1, 2, 2 with three runs |

## Left out

- The `singleflight.Group` around the update (callcache.go:77) is not modelled. It merges concurrent updates of one entry into a single run and gives every waiter the same reply. The model is sequential, so there is nothing to merge, and the concurrent-callers scenario (example_test.go:100-127) reduces to `ExampleMultiple`.
- The goroutine launched for a background update (callcache.go:71) is not modelled. It is replaced by the `Background` action plus an explicit later `Call.Update` on the returned entry.
- The mutexes of `Dispatcher` and `call` are not modelled. Every method of the model is atomic.
- A race the sequential model cannot express: `Dispatcher.Do` reads `d.calls[key]` again after unlocking (callcache.go:38-40). A `Remove` in between would leave it calling `do` on a nil `*call`.
- A second such race: the double check in `update` reads `lastUpdate` and `result` without taking the lock (callcache.go:79-81).
- `time.Now()` and `time.Duration` are replaced by integer nanoseconds passed in.
- The clock reading inside `update` (callcache.go:78) is taken to equal the one in `do` (callcache.go:60) on the synchronous path. `Call.Do` takes a single `now`. A deferred refresh takes its own `now`.
- `int64` arithmetic is modelled with unbounded integers. Wrap-around of `now - lastUpdate` is not captured; real clock readings and durations stay far from the limits.
- The caller's function is an oracle reply, and `interface{}` is a generic `Value<V>`. The function's side effects, such as the printing in the examples, are not modelled. The model counts only whether it ran.

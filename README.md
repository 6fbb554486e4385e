# GeeCache group protocol, in Dafny

A model of the single-node core of GeeCache (`gee-cache/day2-single-node/geecache/geecache.go`):
a **group** is a named cache namespace that owns a store and a loader (`Getter`);
`Group.Get` rejects the empty key, serves a key found in the store, and otherwise
calls the loader, caching a copy of its bytes on success and passing its error
through unchanged on failure. A process-wide **registry** maps names to groups:
`NewGroup` files a new group under its name, replacing any earlier one, and
`GetGroup` looks a name up.

Layout:

- `wrappers.dfy` — `Option`, used for Go's nil-able `error`.
- `byteview.dfy` — the cached value `ByteView` over a byte sequence, and its zero value.
- `cache.dfy` — the store `Cache`, as a class over a map with `Get` and `Add`.
- `geecache.dfy` — the loader, the pure specification of one request (`Fill` for
  `getLocally`, `Serve` for `Group.Get`), the `Group` and `Registry` classes whose
  methods are proved to behave as that specification, and two client methods.
- `traces.dfy` — runs of several requests against one group, and what they
  guarantee: answers equal the loader's, a successful load is never repeated, a
  failed load is retried.

The loader is a parameter: a function from key to `Loaded(bytes)` or
`LoadFailed(err)`. The registry, a global map in the source, is an object of class
`Registry`. Each group keeps a ghost log `loads` of the keys it has handed to its
loader, so that "the loader is (not) called" is part of the contracts.

## Model

| member | source | states |
|---|---|---|
| Caches.Cache.constructor | gee-cache/day2-single-node/geecache/geecache.go:44 | a group's store starts empty, with the capacity it was given |
| Caches.Cache.Get | gee-cache/day2-single-node/geecache/geecache.go:65 | the lookup reports found exactly when the key is resident, returns its value then and the zero value otherwise, and changes nothing |
| Caches.Cache.Add | gee-cache/day2-single-node/geecache/geecache.go:92 | the store afterwards is the old one with the key mapped to the value and nothing else changed |
| GeeCache.Getter.Get | gee-cache/day2-single-node/geecache/geecache.go:25-27 | a function loader answers with the wrapped function applied to the key |
| GeeCache.Fill | gee-cache/day2-single-node/geecache/geecache.go:78-89 | a local load always consults the loader; its error comes back verbatim with the zero value and the store unchanged; its bytes come back as a value that is also added under the key |
| GeeCache.Serve | gee-cache/day2-single-node/geecache/geecache.go:60-71 | the loader is called if and only if the key is non-empty and not resident; the empty key yields the "key is required" error with no store change; a hit returns the stored value and changes nothing; a failed load returns the loader's error and leaves the store as it was; a successful load returns the loader's bytes and adds exactly one entry |
| GeeCache.Group.constructor | gee-cache/day2-single-node/geecache/geecache.go:41-45 | a new group has the given name and loader, a fresh empty store with capacity `cacheBytes`, and has not yet called its loader |
| GeeCache.Group.Get | gee-cache/day2-single-node/geecache/geecache.go:60-71 | the returned value, error, store afterwards and loader calls are exactly those `Serve` gives for the store before the call |
| GeeCache.Group.Load | gee-cache/day2-single-node/geecache/geecache.go:73-75 | loading behaves as `Fill` and calls the loader once for the key |
| GeeCache.Group.GetLocally | gee-cache/day2-single-node/geecache/geecache.go:78-89 | calling the loader and caching its result behaves as `Fill` on the store before the call, with one loader call for the key |
| GeeCache.Group.PopulateCache | gee-cache/day2-single-node/geecache/geecache.go:91-93 | the group's store afterwards has had exactly `add(key, value)` applied |
| GeeCache.Registry.constructor | gee-cache/day2-single-node/geecache/geecache.go:29-32 | the registry starts with no groups |
| GeeCache.Registry.NewGroup | gee-cache/day2-single-node/geecache/geecache.go:35-48 | a nil `Getter` is refused; the new group is fresh, has the name, loader and an empty store of the given capacity, is filed under its name replacing any earlier group, is what `GetGroup(name)` now returns, and every other name's lookup is unchanged |
| GeeCache.Registry.GetGroup | gee-cache/day2-single-node/geecache/geecache.go:50-57 | the lookup is nil exactly when no group is filed under the name, and otherwise the filed group; it reads the registry only |
| GeeCache.RegisterTwice | gee-cache/day2-single-node/geecache/geecache.go:46-54 | after two groups are created under one name, the lookup finds the second and not the first |
| GeeCache.GroupMissThenHit | gee-cache/day2-single-node/geecache/geecache.go:60-92 | on a new group, two requests for a loadable key both succeed and return the same value, equal to the loader's bytes, with a single loader call |
| GeeCache.GetLeavesOtherGroups | gee-cache/day2-single-node/geecache/geecache.go:10-14 | since every group owns its store, serving a request in one registered group leaves every other registered group's store and loader calls unchanged |
| GetTraces.Run | gee-cache/day2-single-node/geecache/geecache.go:60-92 | a run of requests answers each one, hands the loader only non-empty keys that were not resident at the start, and never loses or changes a resident entry |
| GetTraces.ServeTransparent | gee-cache/day2-single-node/geecache/geecache.go:60-89 | when every resident entry holds what the loader gives for its key, a request answers exactly as a group with no store would (the empty key rejected, every other key answered by the loader alone), and that agreement is preserved |
| GetTraces.RunTransparent | gee-cache/day2-single-node/geecache/geecache.go:60-89 | the same over any run of requests: the cache never changes an answer, and the store keeps agreeing with the loader |
| GetTraces.FreshGroupTransparent | gee-cache/day2-single-node/geecache/geecache.go:41-45 | a group created with an empty store answers every run of requests as a group with no store would |
| GetTraces.SuccessfulLoadNotRepeated | gee-cache/day2-single-node/geecache/geecache.go:65-92 | in any run, a key reaches the loader again only if its earlier load failed |
| GetTraces.RunStoreKeys | gee-cache/day2-single-node/geecache/geecache.go:79-92 | after a run the store holds exactly the starting keys plus the keys whose load succeeded |
| GetTraces.RunMissThenHit | gee-cache/day2-single-node/geecache/geecache.go:65-92 | two requests for a loadable key give equal answers without error and load it at most once, and not at all if it was resident |
| GetTraces.FailureRetried | gee-cache/day2-single-node/geecache/geecache.go:79-82 | after a failed load nothing is cached, so a second request for the key calls the loader again and gets the same error |

## Left out

- The reader/writer lock around the registry and the lock inside the store: the operations are modelled as sequential and atomic.
- The log line written on a hit: output only.
- The store's internals (least-recently-used order, byte accounting, eviction) are not part of this model: `cache.go` and the `lru` package are outside this model, so the store is a plain map and `Add` never evicts. The trace lemmas (`GetTraces.SuccessfulLoadNotRepeated`, `GetTraces.RunStoreKeys`, `GetTraces.RunMissThenHit`) therefore hold of this eviction-free store; with eviction a key may be loaded again.
- The store's lazy creation of its list on first `add` and the empty answer of `get` before it: `cache.go` is outside this model; the map starts empty, which answers the same.
- `ByteView` and `cloneBytes` copying: values are immutable sequences, so the defensive copy is the value itself and aliasing through a shared byte slice cannot be expressed.
- The loader's own behaviour (database or network access) and any nondeterminism in it: it is a pure function parameter, so repeated calls with one key give one answer.
- `GeeCache.Getter.Get`: a `GetterFunc` wrapping a nil function is a non-nil `Getter`, so it passes `NewGroup`'s nil check and panics at the first load; every `GetterFunc` here holds a total function, so the model cannot represent that group or its panic.
- `GeeCache.Getter.Get`: only the function adapter is modelled; other implementations of the `Getter` interface are represented by the function they compute.
- The error's wording beyond the constant "key is required": the loader's errors are arbitrary `Error` values passed through unchanged.
- `int64` capacity is kept as a bounded integer type and is not otherwise used, since eviction is not modelled.

/**
 * The get-or-load protocol of a cache group and the registry of groups.
 *
 * The loader (`Getter`) is a parameter: a function from key to either bytes
 * or an error. Every call the group makes to it is recorded in the group's
 * ghost log `loads`, so that "the loader is (not) called" can be stated.
 */
module GeeCache {

  import opened Wrappers
  import opened ByteViews
  import opened Caches

  /** An error value; the loader may return any of them. */
  datatype Error = Error(message: string)

  /** The error `Group.Get` reports for the empty key. */
  const KeyRequired: Error := Error("key is required")

  /** What a loader returns: the bytes for a key, or the error it met. */
  datatype LoadResult = Loaded(bytes: seq<byte>) | LoadFailed(err: Error)

  /**
   * The loader a group is created with. `GetterFunc` adapts a plain function;
   * `NilGetter` is the absent loader that group creation refuses.
   */
  datatype Getter = NilGetter | GetterFunc(fn: string -> LoadResult) {

    /** `GetterFunc.Get`: applies the wrapped function to the key. */
    function Get(key: string): (r: LoadResult)
      requires GetterFunc?
      ensures r == fn(key)
    {
      fn(key)
    }
  }

  type Store = map<string, ByteView>

  /**
   * The observable result of one request: the value and error returned, the
   * store afterwards, and whether the loader was called.
   */
  datatype Outcome = Outcome(value: ByteView, err: Option<Error>, store: Store, loaded: bool)

  /** `getLocally`: always calls the loader; only a success touches the store. */
  function Fill(store: Store, getter: Getter, key: string): (o: Outcome)
    requires getter.GetterFunc?
    ensures o.loaded
    ensures getter.Get(key).LoadFailed? ==>
              o.err == Some(getter.Get(key).err) && o.value == Empty && o.store == store
    ensures getter.Get(key).Loaded? ==>
              o.err == None && o.value.b == getter.Get(key).bytes && o.store == store[key := o.value]
  {
    match getter.Get(key)
    case LoadFailed(e) => Outcome(Empty, Some(e), store, true)
    case Loaded(bytes) =>
      var value := ByteView(bytes);
      Outcome(value, None, store[key := value], true)
  }

  /** `Group.Get`: reject the empty key, serve a hit, otherwise load. */
  function Serve(store: Store, getter: Getter, key: string): (o: Outcome)
    requires getter.GetterFunc?
    // the loader is called exactly for a non-empty key that is not resident
    ensures o.loaded <==> key != "" && key !in store
    ensures key == "" ==> o.err == Some(KeyRequired) && o.value == Empty && o.store == store
    ensures key != "" && key in store ==> o.err == None && o.value == store[key] && o.store == store
    // a failure returns the loader's own error and leaves the store as it was
    ensures key != "" && key !in store && getter.Get(key).LoadFailed? ==>
              o.err == Some(getter.Get(key).err) && o.value == Empty && o.store == store
    // a success returns a copy of the loader's bytes and adds exactly one entry
    ensures key != "" && key !in store && getter.Get(key).Loaded? ==>
              && o.err == None && o.value.b == getter.Get(key).bytes
              && o.store == store[key := o.value] && |o.store| == |store| + 1
    // whatever happens, the returned value is what the store now holds for the key
    ensures o.err.None? ==> key in o.store && o.store[key] == o.value
  {
    if key == "" then
      Outcome(Empty, Some(KeyRequired), store, false)
    else if key in store then
      Outcome(store[key], None, store, false)
    else
      Fill(store, getter, key)
  }

  /** A cache namespace: a name, a loader and a store of its own. */
  class Group {
    const name: string
    const getter: Getter
    const mainCache: Cache
    /** The keys handed to the loader so far, oldest first. */
    ghost var loads: seq<string>

    ghost predicate Valid() {
      getter.GetterFunc?
    }

    /** The struct literal of `NewGroup`: a fresh group with an empty store. */
    constructor (name: string, cacheBytes: int64, getter: Getter)
      requires getter.GetterFunc?
      ensures Valid()
      ensures this.name == name && this.getter == getter
      ensures fresh(mainCache) && mainCache.cacheBytes == cacheBytes && mainCache.entries == map[]
      ensures loads == []
    {
      this.name := name;
      this.getter := getter;
      mainCache := new Cache(cacheBytes);
      loads := [];
    }

    /** `Group.Get`: proved to behave as `Serve` on the store it started from. */
    method Get(key: string) returns (value: ByteView, err: Option<Error>)
      requires Valid()
      modifies this, mainCache
      ensures var o := Serve(old(mainCache.entries), getter, key);
              && value == o.value && err == o.err
              && mainCache.entries == o.store
              && loads == old(loads) + (if o.loaded then [key] else [])
    {
      if key == "" {
        return Empty, Some(KeyRequired);
      }
      var v, ok := mainCache.Get(key);
      if ok {
        return v, None;
      }
      value, err := Load(key);
    }

    /** `Group.load`: delegates to the local loader. */
    method Load(key: string) returns (value: ByteView, err: Option<Error>)
      requires Valid()
      modifies this, mainCache
      ensures var o := Fill(old(mainCache.entries), getter, key);
              && value == o.value && err == o.err
              && mainCache.entries == o.store
              && loads == old(loads) + [key]
    {
      value, err := GetLocally(key);
    }

    /** `Group.getLocally`: calls the loader; on success caches a copy of its bytes. */
    method GetLocally(key: string) returns (value: ByteView, err: Option<Error>)
      requires Valid()
      modifies this, mainCache
      ensures var o := Fill(old(mainCache.entries), getter, key);
              && value == o.value && err == o.err
              && mainCache.entries == o.store
              && loads == old(loads) + [key]
    {
      var r := getter.Get(key);
      loads := loads + [key];
      match r
      case LoadFailed(e) =>
        return Empty, Some(e);
      case Loaded(bytes) =>
        // the copy of an immutable sequence is the sequence itself
        value := ByteView(bytes);
        PopulateCache(key, value);
        err := None;
    }

    /** `Group.populateCache`: adds the entry to the group's store. */
    method PopulateCache(key: string, value: ByteView)
      modifies mainCache
      ensures mainCache.entries == old(mainCache.entries)[key := value]
    {
      mainCache.Add(key, value);
    }
  }

  /** The process-wide directory of groups, by name. */
  class Registry {
    var groups: map<string, Group>

    /**
     * Every registered group is filed under its own name and has a loader,
     * and no two registered groups share a store.
     */
    ghost predicate Valid()
      reads this
    {
      && (forall n :: n in groups ==> groups[n].name == n && groups[n].Valid())
      && (forall n, m :: n in groups && m in groups && n != m ==>
            groups[n].mainCache != groups[m].mainCache)
    }

    /** The registry at process start: empty. */
    constructor ()
      ensures Valid() && groups == map[]
    {
      groups := map[];
    }

    /**
     * `NewGroup`: creates a group and files it under `name`, replacing any
     * group of that name; an absent loader is a precondition violation.
     */
    method NewGroup(name: string, cacheBytes: int64, getter: Getter) returns (g: Group)
      requires Valid()
      requires getter.GetterFunc?
      modifies this
      ensures Valid()
      ensures fresh(g) && fresh(g.mainCache) && g.Valid()
      ensures g.name == name && g.getter == getter && g.loads == []
      ensures g.mainCache.cacheBytes == cacheBytes && g.mainCache.entries == map[]
      ensures groups == old(groups)[name := g]
      ensures GetGroup(name) == g
      ensures forall n :: n != name ==> GetGroup(n) == old(GetGroup(n))
    {
      g := new Group(name, cacheBytes, getter);
      groups := groups[name := g];
    }

    /** `GetGroup`: the group filed under `name`, or nil when there is none. */
    function GetGroup(name: string): (g: Group?)
      reads this
      ensures g == null <==> name !in groups
      ensures g != null ==> g == groups[name]
    {
      if name in groups then groups[name] else null
    }
  }

  /** Creating two groups under one name leaves only the second reachable. */
  method RegisterTwice(name: string, cacheBytes: int64, first: Getter, second: Getter)
    returns (foundSecond: bool, foundFirst: bool)
    requires first.GetterFunc? && second.GetterFunc?
    ensures foundSecond && !foundFirst
  {
    var registry := new Registry();
    var g1 := registry.NewGroup(name, cacheBytes, first);
    var g2 := registry.NewGroup(name, cacheBytes, second);
    var found := registry.GetGroup(name);
    foundSecond, foundFirst := found == g2, found == g1;
  }

  /**
   * A miss followed by a request for the same key: the second request is a
   * hit with the same bytes, and the loader was called only once.
   */
  method GroupMissThenHit(getter: Getter, key: string)
    returns (first: ByteView, firstErr: Option<Error>,
             second: ByteView, secondErr: Option<Error>, ghost loaderCalls: nat)
    requires getter.GetterFunc? && key != "" && getter.Get(key).Loaded?
    ensures firstErr == None && secondErr == None
    ensures first == second && first.b == getter.Get(key).bytes
    ensures loaderCalls == 1
  {
    var g := new Group("scores", 0, getter);
    first, firstErr := g.Get(key);
    second, secondErr := g.Get(key);
    loaderCalls := |g.loads|;
  }

  /**
   * Serving a request in one registered group leaves every other registered
   * group's store and loader log as they were.
   */
  method GetLeavesOtherGroups(registry: Registry, name: string, other: string, key: string)
    returns (value: ByteView, err: Option<Error>)
    requires registry.Valid()
    requires name in registry.groups && other in registry.groups && name != other
    modifies registry.groups[name], registry.groups[name].mainCache
    ensures registry.groups == old(registry.groups)
    ensures registry.groups[other].mainCache.entries == old(registry.groups[other].mainCache.entries)
    ensures registry.groups[other].loads == old(registry.groups[other].loads)
  {
    var g := registry.groups[name];
    value, err := g.Get(key);
  }
}

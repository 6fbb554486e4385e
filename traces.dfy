/**
 * Sequences of requests against one group, run one after another: what a
 * caller observes over time, and how often the loader is consulted.
 */
module GetTraces {

  import opened Wrappers
  import opened ByteViews
  import opened GeeCache

  /** What one `Group.Get` returns to its caller. */
  datatype Reply = Reply(value: ByteView, err: Option<Error>)

  /** The replies to a run of requests, the final store and the loader log. */
  datatype Trace = Trace(replies: seq<Reply>, store: Store, loads: seq<string>)

  /** Serves `keys` in order, starting from `store`. */
  function Run(store: Store, getter: Getter, keys: seq<string>): (t: Trace)
    requires getter.GetterFunc?
    ensures |t.replies| == |keys|
    // only non-empty keys absent from the starting store reach the loader
    ensures forall k :: k in t.loads ==> k != "" && k !in store
    // no entry of the starting store is lost or changed
    ensures forall k :: k in store ==> k in t.store && t.store[k] == store[k]
    decreases |keys|
  {
    if keys == [] then
      Trace([], store, [])
    else
      var o := Serve(store, getter, keys[0]);
      var rest := Run(o.store, getter, keys[1..]);
      Trace([Reply(o.value, o.err)] + rest.replies, rest.store,
            (if o.loaded then [keys[0]] else []) + rest.loads)
  }

  /**
   * The reply of a group with no store: the empty key is rejected, and every
   * other key is answered by the loader alone.
   */
  function Direct(getter: Getter, key: string): Reply
    requires getter.GetterFunc?
  {
    if key == "" then Reply(Empty, Some(KeyRequired))
    else match getter.Get(key)
      case Loaded(bytes) => Reply(ByteView(bytes), None)
      case LoadFailed(e) => Reply(Empty, Some(e))
  }

  /** Every resident entry holds what the loader gives for its key. */
  ghost predicate Coherent(store: Store, getter: Getter)
    requires getter.GetterFunc?
  {
    forall k :: k in store ==> getter.Get(k) == Loaded(store[k].b)
  }

  /**
   * With a store that agrees with the loader, one request answers exactly as
   * the loader would, and the store still agrees with the loader.
   */
  lemma ServeTransparent(store: Store, getter: Getter, key: string)
    requires getter.GetterFunc? && Coherent(store, getter)
    ensures var o := Serve(store, getter, key);
            Reply(o.value, o.err) == Direct(getter, key) && Coherent(o.store, getter)
  {
  }

  /** The same over a whole run: the cache never changes an answer. */
  lemma {:induction false} RunTransparent(store: Store, getter: Getter, keys: seq<string>)
    requires getter.GetterFunc? && Coherent(store, getter)
    ensures var t := Run(store, getter, keys);
            && Coherent(t.store, getter)
            && forall i :: 0 <= i < |keys| ==> t.replies[i] == Direct(getter, keys[i])
    decreases |keys|
  {
    if keys != [] {
      var o := Serve(store, getter, keys[0]);
      ServeTransparent(store, getter, keys[0]);
      RunTransparent(o.store, getter, keys[1..]);
      var t := Run(store, getter, keys);
      var rest := Run(o.store, getter, keys[1..]);
      forall i | 0 <= i < |keys|
        ensures t.replies[i] == Direct(getter, keys[i])
      {
        if i > 0 {
          assert t.replies[i] == rest.replies[i - 1];
          assert keys[i] == keys[1..][i - 1];
        }
      }
    }
  }

  /** A group created with an empty store answers every run as its loader would. */
  lemma FreshGroupTransparent(getter: Getter, keys: seq<string>)
    requires getter.GetterFunc?
    ensures forall i :: 0 <= i < |keys| ==>
              Run(map[], getter, keys).replies[i] == Direct(getter, keys[i])
  {
    RunTransparent(map[], getter, keys);
  }

  /** No key in `loads` is handed to the loader again after a successful load. */
  ghost predicate NoReloadAfterSuccess(loads: seq<string>, getter: Getter)
    requires getter.GetterFunc?
  {
    forall i, j :: 0 <= i < j < |loads| && loads[i] == loads[j] ==> getter.Get(loads[i]).LoadFailed?
  }

  /**
   * A key reaches the loader a second time only if its earlier load failed:
   * a successful load is cached and never repeated.
   */
  lemma {:induction false} SuccessfulLoadNotRepeated(store: Store, getter: Getter, keys: seq<string>)
    requires getter.GetterFunc?
    ensures NoReloadAfterSuccess(Run(store, getter, keys).loads, getter)
    decreases |keys|
  {
    if keys != [] {
      var o := Serve(store, getter, keys[0]);
      var rest := Run(o.store, getter, keys[1..]);
      SuccessfulLoadNotRepeated(o.store, getter, keys[1..]);
      var t := Run(store, getter, keys);
      if !o.loaded {
        assert t.loads == rest.loads;
      } else {
        assert t.loads == [keys[0]] + rest.loads;
        forall i, j | 0 <= i < j < |t.loads| && t.loads[i] == t.loads[j]
          ensures getter.Get(t.loads[i]).LoadFailed?
        {
          if i == 0 {
            // a later load of the same key means it was not cached by the first
            assert rest.loads[j - 1] in rest.loads;
            assert keys[0] !in o.store;
          } else {
            assert t.loads[i] == rest.loads[i - 1] && t.loads[j] == rest.loads[j - 1];
          }
        }
      }
    }
  }

  /**
   * The store after a run holds the starting entries plus exactly the keys
   * whose load succeeded.
   */
  lemma {:induction false} RunStoreKeys(store: Store, getter: Getter, keys: seq<string>)
    requires getter.GetterFunc?
    ensures var t := Run(store, getter, keys);
            forall k :: k in t.store <==> k in store || (k in t.loads && getter.Get(k).Loaded?)
    decreases |keys|
  {
    if keys != [] {
      var o := Serve(store, getter, keys[0]);
      RunStoreKeys(o.store, getter, keys[1..]);
    }
  }

  /** Two requests for a loadable key: one load at most, and equal answers. */
  lemma RunMissThenHit(store: Store, getter: Getter, key: string)
    requires getter.GetterFunc? && key != "" && getter.Get(key).Loaded?
    ensures var t := Run(store, getter, [key, key]);
            && t.replies[0] == t.replies[1] && t.replies[1].err == None
            && t.loads == (if key in store then [] else [key])
  {
    var o := Serve(store, getter, key);
    var o2 := Serve(o.store, getter, key);
    assert [key, key][1..] == [key];
    assert Run(o2.store, getter, [key][1..]) == Trace([], o2.store, []);
  }

  /** A failed load caches nothing: the next request for the key loads again. */
  lemma FailureRetried(store: Store, getter: Getter, key: string)
    requires getter.GetterFunc? && key != "" && key !in store && getter.Get(key).LoadFailed?
    ensures var t := Run(store, getter, [key, key]);
            && t.loads == [key, key] && t.store == store
            && t.replies[0] == t.replies[1] == Reply(Empty, Some(getter.Get(key).err))
  {
    var o := Serve(store, getter, key);
    assert [key, key][1..] == [key];
    assert Run(store, getter, [key][1..]) == Trace([], store, []);
  }
}

/** `MyUniversalUtils.ModLoader.SaveLoadExtensions`: save and load values for
    the calling mod without naming the mod or the value's type.  Every method
    takes the host state it touches (`statics` for the mod cache, `store` for
    the save store, `api` for what reflection finds on the host's `SaveLoad`,
    `loadedMods` for `ModLoader.LoadedMods`) and `callers`, the stack trace
    outside the library, innermost first.  A method of this class pushes its
    own library frame before calling the next, as the runtime does. */
module ModLoaderSaveLoad {
  import opened Host
  import opened CallerIdentity
  import opened Dispatch

  /** `WriteValue(key, value)`: resolve the calling mod, then save `value`
      under `key` for it unless the mod or the value is null or the generic
      `WriteValue<T>` cannot be found. */
  method WriteValue(statics: Statics, store: SaveLoad, api: HostApi, loadedMods: seq<Mod>,
                    callers: seq<Frame>, key: string, value: Object)
    modifies statics, store
    ensures var res := Resolve(old(statics.modCache), callers, loadedMods);
            statics.modCache == res.cache
            && store.values == StoreAfterWrite(old(store.values), res.mod, key, value, api)
  {
    // the getter's frame and this method's own frame are skipped
    assert [LibraryFrame] + ([LibraryFrame] + callers) == [LibraryFrame, LibraryFrame] + callers;
    ResolveSkipsNonQualifyingFrames(statics.modCache, [LibraryFrame, LibraryFrame], callers, loadedMods);
    var mod := statics.CurrentMod([LibraryFrame] + callers, loadedMods);
    if mod.None? {
      return;
    }
    if value.None? {
      return;
    }
    if !api.hasGenericWrite {
      return;
    }
    store.WriteValue(mod.value, key, value.value);
  }

  /** `ReadValue(key, type)`: resolve the calling mod and read `key` for it as
      `ty`; null when the mod is null, the key is not saved for it, or the
      generic `ReadValue<T>` cannot be found.  The store is never changed. */
  method ReadValue(statics: Statics, store: SaveLoad, api: HostApi, loadedMods: seq<Mod>,
                   callers: seq<Frame>, key: string, ty: TypeId) returns (r: Object)
    modifies statics
    ensures var res := Resolve(old(statics.modCache), callers, loadedMods);
            statics.modCache == res.cache
            && r == ReadResult(store.values, res.mod, key, ty, api)
  {
    // the getter's frame and this method's own frame are skipped
    assert [LibraryFrame] + ([LibraryFrame] + callers) == [LibraryFrame, LibraryFrame] + callers;
    ResolveSkipsNonQualifyingFrames(statics.modCache, [LibraryFrame, LibraryFrame], callers, loadedMods);
    var mod := statics.CurrentMod([LibraryFrame] + callers, loadedMods);
    if mod.None? {
      return None;
    }
    if !store.ValueExists(mod.value, key) {
      return None;
    }
    if !api.hasGenericRead {
      return None;
    }
    return Some(store.ReadValue(mod.value, key, ty, api));
  }

  /** `WriteValues(params (string key, object value)[] pairs)`: one
      `WriteValue` per pair, left to right; each re-resolves the mod and gets
      the same answer. */
  method WriteValuesFromPairs(statics: Statics, store: SaveLoad, api: HostApi, loadedMods: seq<Mod>,
                              callers: seq<Frame>, pairs: seq<(string, Object)>)
    modifies statics, store
    ensures var res := Resolve(old(statics.modCache), callers, loadedMods);
            statics.modCache == CacheAfterBatch(old(statics.modCache), callers, loadedMods, |pairs|)
            && store.values == StoreAfterWrites(old(store.values), res.mod, pairs, api)
  {
    ghost var cache0 := statics.modCache;
    ghost var res := Resolve(cache0, callers, loadedMods);
    ResolveIdempotent(cache0, callers, loadedMods);
    ResolveBelowLibraryFrame(cache0, callers, loadedMods);
    ResolveBelowLibraryFrame(res.cache, callers, loadedMods);
    for i := 0 to |pairs|
      invariant statics.modCache == CacheAfterBatch(cache0, callers, loadedMods, i)
      invariant store.values == StoreAfterWrites(old(store.values), res.mod, pairs[..i], api)
    {
      StoreAfterWritesSnoc(old(store.values), res.mod, pairs, i, api);
      WriteValue(statics, store, api, loadedMods, [LibraryFrame] + callers, pairs[i].0, pairs[i].1);
    }
    assert pairs[..|pairs|] == pairs;
  }

  /** `WriteValues(string[] saveKeys, object[] values)`: on a length mismatch
      nothing is written and the mod is not even resolved; otherwise one
      `WriteValue` per index, in index order. */
  method WriteValues(statics: Statics, store: SaveLoad, api: HostApi, loadedMods: seq<Mod>,
                     callers: seq<Frame>, saveKeys: seq<string>, values: seq<Object>)
    modifies statics, store
    ensures |saveKeys| != |values| ==>
              statics.modCache == old(statics.modCache) && store.values == old(store.values)
    ensures |saveKeys| == |values| ==>
              var res := Resolve(old(statics.modCache), callers, loadedMods);
              statics.modCache == CacheAfterBatch(old(statics.modCache), callers, loadedMods, |saveKeys|)
              && store.values == StoreAfterWrites(old(store.values), res.mod, Zip(saveKeys, values), api)
  {
    if |saveKeys| != |values| {
      return;
    }
    ghost var pairs := Zip(saveKeys, values);
    ghost var cache0 := statics.modCache;
    ghost var res := Resolve(cache0, callers, loadedMods);
    ResolveIdempotent(cache0, callers, loadedMods);
    ResolveBelowLibraryFrame(cache0, callers, loadedMods);
    ResolveBelowLibraryFrame(res.cache, callers, loadedMods);
    for i := 0 to |saveKeys|
      invariant statics.modCache == CacheAfterBatch(cache0, callers, loadedMods, i)
      invariant store.values == StoreAfterWrites(old(store.values), res.mod, pairs[..i], api)
    {
      StoreAfterWritesSnoc(old(store.values), res.mod, pairs, i, api);
      WriteValue(statics, store, api, loadedMods, [LibraryFrame] + callers, saveKeys[i], values[i]);
    }
    assert pairs[..|pairs|] == pairs;
  }

  /** `ReadValues(params (string key, Type type)[] pairs)`: an array aligned
      with `pairs`, position `i` holding what `ReadValue` returns for pair `i`. */
  method ReadValuesFromPairs(statics: Statics, store: SaveLoad, api: HostApi, loadedMods: seq<Mod>,
                             callers: seq<Frame>, pairs: seq<(string, TypeId)>) returns (results: array<Object>)
    modifies statics
    ensures fresh(results) && results.Length == |pairs|
    ensures var res := Resolve(old(statics.modCache), callers, loadedMods);
            statics.modCache == CacheAfterBatch(old(statics.modCache), callers, loadedMods, |pairs|)
            && forall i | 0 <= i < |pairs| :: results[i] == ReadResult(store.values, res.mod, pairs[i].0, pairs[i].1, api)
  {
    ghost var cache0 := statics.modCache;
    ghost var res := Resolve(cache0, callers, loadedMods);
    ResolveIdempotent(cache0, callers, loadedMods);
    ResolveBelowLibraryFrame(cache0, callers, loadedMods);
    ResolveBelowLibraryFrame(res.cache, callers, loadedMods);
    results := new Object[|pairs|](_ => None);
    for i := 0 to |pairs|
      invariant statics.modCache == CacheAfterBatch(cache0, callers, loadedMods, i)
      invariant forall j | 0 <= j < i :: results[j] == ReadResult(store.values, res.mod, pairs[j].0, pairs[j].1, api)
    {
      var (key, ty) := pairs[i];
      results[i] := ReadValue(statics, store, api, loadedMods, [LibraryFrame] + callers, key, ty);
    }
  }

  /** `ReadValues(string[] keys, Type[] types)`: an empty array on a length
      mismatch, without resolving the mod; otherwise an array aligned with
      `keys`, position `i` holding what `ReadValue(keys[i], types[i])` returns. */
  method ReadValues(statics: Statics, store: SaveLoad, api: HostApi, loadedMods: seq<Mod>,
                    callers: seq<Frame>, keys: seq<string>, types: seq<TypeId>) returns (results: array<Object>)
    modifies statics
    ensures fresh(results)
    ensures |keys| != |types| ==> results.Length == 0 && statics.modCache == old(statics.modCache)
    ensures |keys| == |types| ==>
              var res := Resolve(old(statics.modCache), callers, loadedMods);
              results.Length == |keys|
              && statics.modCache == CacheAfterBatch(old(statics.modCache), callers, loadedMods, |keys|)
              && forall i | 0 <= i < |keys| :: results[i] == ReadResult(store.values, res.mod, keys[i], types[i], api)
  {
    if |keys| != |types| {
      return new Object[0];
    }
    ghost var cache0 := statics.modCache;
    ghost var res := Resolve(cache0, callers, loadedMods);
    ResolveIdempotent(cache0, callers, loadedMods);
    ResolveBelowLibraryFrame(cache0, callers, loadedMods);
    ResolveBelowLibraryFrame(res.cache, callers, loadedMods);
    results := new Object[|keys|](_ => None);
    for i := 0 to |keys|
      invariant statics.modCache == CacheAfterBatch(cache0, callers, loadedMods, i)
      invariant forall j | 0 <= j < i :: results[j] == ReadResult(store.values, res.mod, keys[j], types[j], api)
    {
      results[i] := ReadValue(statics, store, api, loadedMods, [LibraryFrame] + callers, keys[i], types[i]);
    }
  }
}

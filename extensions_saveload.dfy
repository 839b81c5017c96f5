/** `MyUniversalUtils.ModLoaderExtensions.SaveLoadExtensions`: the generic
    variant of the save/load helper.  `ReadValue<T>` and `ReadValues<T>` take
    the type argument `T` as the type identity `ty`, and their `default(T)`
    result is None.  Parameters are as in `ModLoaderSaveLoad`. */
module ExtensionsSaveLoad {
  import opened Host
  import opened CallerIdentity
  import opened Dispatch

  /** `WriteValue(key, value)`: resolve the calling mod, then save `value`
      under `key` for it unless the mod or the value is null or the generic
      `WriteValue<T>` cannot be found. */
  method WriteValue(statics: Statics, store: SaveLoad, api: HostApi, loadedMods: seq<Mod>,
                    callers: seq<Frame>, key: string, value: Object)
    modifies statics, store
    ensures var res := Resolve(old(statics.modCache), callers, loadedMods);
            statics.modCache == res.cache
            && store.values == StoreAfterWrite(old(store.values), res.mod, key, value, api)
  {
    // the getter's frame and this method's own frame are skipped
    assert [LibraryFrame] + ([LibraryFrame] + callers) == [LibraryFrame, LibraryFrame] + callers;
    ResolveSkipsNonQualifyingFrames(statics.modCache, [LibraryFrame, LibraryFrame], callers, loadedMods);
    var mod := statics.CurrentMod([LibraryFrame] + callers, loadedMods);
    if mod.None? {
      return;
    }
    if value.None? {
      return;
    }
    if !api.hasGenericWrite {
      return;
    }
    store.WriteValue(mod.value, key, value.value);
  }

  /** `ReadValue<T>(key)`: resolve the calling mod and read `key` for it as
      `T`; `default(T)` when the mod is null, the key is not saved for it, or
      the generic `ReadValue<T>` cannot be found.  The store is never changed. */
  method ReadValue(statics: Statics, store: SaveLoad, api: HostApi, loadedMods: seq<Mod>,
                   callers: seq<Frame>, ty: TypeId, key: string) returns (r: Object)
    modifies statics
    ensures var res := Resolve(old(statics.modCache), callers, loadedMods);
            statics.modCache == res.cache
            && r == ReadResult(store.values, res.mod, key, ty, api)
  {
    // the getter's frame and this method's own frame are skipped
    assert [LibraryFrame] + ([LibraryFrame] + callers) == [LibraryFrame, LibraryFrame] + callers;
    ResolveSkipsNonQualifyingFrames(statics.modCache, [LibraryFrame, LibraryFrame], callers, loadedMods);
    var mod := statics.CurrentMod([LibraryFrame] + callers, loadedMods);
    if mod.None? {
      return None;
    }
    if !store.ValueExists(mod.value, key) {
      return None;
    }
    if !api.hasGenericRead {
      return None;
    }
    return Some(store.ReadValue(mod.value, key, ty, api));
  }

  /** Round trip through the whole helper: `WriteValue(k, v)` and then
      `ReadValue<T>(k)` from the same callers, with `T` the runtime type of
      `v`, returns `v` whenever the calling mod resolves. */
  lemma WriteValueThenReadValue(cache: map<AssemblyId, Mod>, store: Store, api: HostApi, loadedMods: seq<Mod>,
                                callers: seq<Frame>, key: string, v: Boxed)
    requires api.hasGenericWrite && api.hasGenericRead && ReadsBackOwnType(api)
    requires Resolve(cache, callers, loadedMods).mod.Some?
    ensures var afterWrite := Resolve(cache, callers, loadedMods);
            var stored := StoreAfterWrite(store, afterWrite.mod, key, Some(v), api);
            var afterRead := Resolve(afterWrite.cache, callers, loadedMods);
            ReadResult(stored, afterRead.mod, key, v.ty, api) == Some(v)
  {
    ResolveIdempotent(cache, callers, loadedMods);
    WriteThenReadRoundTrip(store, Resolve(cache, callers, loadedMods).mod.value, key, v, api);
  }

  /** `WriteValues(string[] saveKeys, object[] values)`: on a length mismatch
      nothing is written and the mod is not even resolved; otherwise one
      `WriteValue` per index, in index order. */
  method WriteValues(statics: Statics, store: SaveLoad, api: HostApi, loadedMods: seq<Mod>,
                     callers: seq<Frame>, saveKeys: seq<string>, values: seq<Object>)
    modifies statics, store
    ensures |saveKeys| != |values| ==>
              statics.modCache == old(statics.modCache) && store.values == old(store.values)
    ensures |saveKeys| == |values| ==>
              var res := Resolve(old(statics.modCache), callers, loadedMods);
              statics.modCache == CacheAfterBatch(old(statics.modCache), callers, loadedMods, |saveKeys|)
              && store.values == StoreAfterWrites(old(store.values), res.mod, Zip(saveKeys, values), api)
  {
    if |saveKeys| != |values| {
      return;
    }
    ghost var pairs := Zip(saveKeys, values);
    ghost var cache0 := statics.modCache;
    ghost var res := Resolve(cache0, callers, loadedMods);
    ResolveIdempotent(cache0, callers, loadedMods);
    ResolveBelowLibraryFrame(cache0, callers, loadedMods);
    ResolveBelowLibraryFrame(res.cache, callers, loadedMods);
    for i := 0 to |saveKeys|
      invariant statics.modCache == CacheAfterBatch(cache0, callers, loadedMods, i)
      invariant store.values == StoreAfterWrites(old(store.values), res.mod, pairs[..i], api)
    {
      StoreAfterWritesSnoc(old(store.values), res.mod, pairs, i, api);
      WriteValue(statics, store, api, loadedMods, [LibraryFrame] + callers, saveKeys[i], values[i]);
    }
    assert pairs[..|pairs|] == pairs;
  }

  /** `ReadValues<T>(params string[] keys)`: a `T[]` aligned with `keys`,
      position `i` holding what `ReadValue<T>(keys[i])` returns. */
  method ReadValues(statics: Statics, store: SaveLoad, api: HostApi, loadedMods: seq<Mod>,
                    callers: seq<Frame>, ty: TypeId, keys: seq<string>) returns (results: array<Object>)
    modifies statics
    ensures fresh(results) && results.Length == |keys|
    ensures var res := Resolve(old(statics.modCache), callers, loadedMods);
            statics.modCache == CacheAfterBatch(old(statics.modCache), callers, loadedMods, |keys|)
            && forall i | 0 <= i < |keys| :: results[i] == ReadResult(store.values, res.mod, keys[i], ty, api)
  {
    ghost var cache0 := statics.modCache;
    ghost var res := Resolve(cache0, callers, loadedMods);
    ResolveIdempotent(cache0, callers, loadedMods);
    ResolveBelowLibraryFrame(cache0, callers, loadedMods);
    ResolveBelowLibraryFrame(res.cache, callers, loadedMods);
    results := new Object[|keys|](_ => None);
    for i := 0 to |keys|
      invariant statics.modCache == CacheAfterBatch(cache0, callers, loadedMods, i)
      invariant forall j | 0 <= j < i :: results[j] == ReadResult(store.values, res.mod, keys[j], ty, api)
    {
      results[i] := ReadValue(statics, store, api, loadedMods, [LibraryFrame] + callers, ty, keys[i]);
    }
  }
}

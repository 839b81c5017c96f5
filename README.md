# MSCUtils caller-scoped save/load helper, modelled in Dafny

MSCUtils is a utility library for mods of a game-modding host (MSCLoader).
Its save/load helper lets a mod save and load values without naming itself
or the value's type. Two parts make this work:

- **Caller resolution** (`Statics.CurrentMod`). The getter walks the stack
  trace from the innermost frame outward. It skips frames without a method
  or declaring type, and frames of the library's own assembly. The first
  other assembly is the caller. It then looks that assembly up in a
  process-wide `modCache`. On a miss it takes the first loaded mod defined in
  that assembly and caches it.
- **Typed dispatch** (two near-duplicate `SaveLoadExtensions` classes).
  `WriteValue` and `ReadValue` resolve the mod, check their guards and call
  the host's generic `SaveLoad.WriteValue<T>` / `ReadValue<T>`. The batch
  variants loop over pairs or parallel arrays and call the single-item
  methods.

The model has five modules:

- `Host`: the environment as data. Assemblies, mods and types are opaque
  numbers. A stack trace is a `seq<Frame>`. `LoadedMods` is a `seq<Mod>`. The
  host store is the class `SaveLoad` over a `map<(ModId, string), Boxed>`.
  What reflection finds is the `HostApi` record: two "generic method found"
  flags, and the host's conversion of a saved value to a requested type.
- `CallerIdentity`: the class `Statics` with the `modCache` field and the
  `CurrentMod` method, written as the source's loop with `continue` and
  `break`. The pure functions `CallingAssembly`, `FirstModIn` and `Resolve`
  specify it, and lemmas state skip-self, hit/miss behaviour and idempotence.
- `Dispatch`: what one write, one read and a left-to-right batch of writes
  do to the store once the mod is known. Both extension classes share it.
- `ModLoaderSaveLoad` and `ExtensionsSaveLoad`: the two `SaveLoadExtensions`
  classes as methods over the `Statics` and `SaveLoad` objects.

Every public method takes `callers`, the stack trace outside the library,
innermost first. Each library method pushes a library frame before calling
the next one, and `CurrentMod` adds its own frame. So the trace the getter
walks has the same library frames as at run time. The skip-self lemma then
shows that the result depends only on `callers`.

How the code orders and repeats its work, which the model follows:

- The stack is walked before the cache is checked: the walk is at
  `MSCUtils/Statics.cs:21-34` and the cache lookup at `:43-46`. `Resolve` and
  `CurrentMod` walk first too.
- A batch re-resolves the mod for every element, because each iteration
  calls `WriteValue` or `ReadValue`. The model does the same.
  `ResolveIdempotent` shows that every element gets the mod the first element
  got.
- No failure raises an error result. Some failures log a message before
  returning: a caller or mod that cannot be found, a null value, a missing
  generic method, mismatched batch lengths. An absent key returns `null` or
  `default(T)` without a message. A mismatched `ReadValues` returns an empty
  array. The model returns `None`, an empty array, or the state unchanged.
- A batch with zero elements, or with mismatched lengths, never reads
  `CurrentMod`, so the cache is untouched (`CacheAfterBatch`).

## Model

| member | source | states |
|---|---|---|
| `CallerIdentity.CallingAssembly` | MSCUtils/Statics.cs:21-34 | No calling assembly exactly when no frame has a method, a declaring type and an assembly other than the library's; a found assembly is never the library's own. |
| `CallerIdentity.CallingAssemblyIsFirstQualifying` | MSCUtils/Statics.cs:21-34 | The calling assembly is that of the innermost qualifying frame: the first frame with a method and declaring type outside the library. |
| `CallerIdentity.SkipNonQualifyingFrames` | MSCUtils/Statics.cs:24-33 | Skip-self: adding library frames, or frames without a method or declaring type, at the innermost end leaves the calling assembly unchanged. |
| `CallerIdentity.FirstModIn` | MSCUtils/Statics.cs:49-50 | `FirstOrDefault`: no mod exactly when no loaded mod is defined in the assembly; a found mod is a loaded mod of that assembly. |
| `CallerIdentity.FirstModInIsFirst` | MSCUtils/Statics.cs:49-50 | The mod found is the first loaded mod, in list order, defined in the calling assembly. |
| `CallerIdentity.Resolve` | MSCUtils/Statics.cs:13-61 | No caller: null, cache unchanged. Existing entries are never changed or evicted. The only entry that can be added is the caller's, and it holds the returned mod. With a cache that agrees with the loaded mods, the result is the first loaded mod of the caller's assembly and the cache still agrees. |
| `CallerIdentity.CacheHitIgnoresLoadedMods` | MSCUtils/Statics.cs:43-46 | On a cache hit the cached mod is returned whatever the loaded-mod list is, and the cache is unchanged. |
| `CallerIdentity.CacheMissSearchesLoadedMods` | MSCUtils/Statics.cs:48-60 | On a miss the result is the first loaded mod of the calling assembly. With no such mod, null and no entry added. Otherwise the cache is the old cache plus caller ↦ mod. |
| `CallerIdentity.ResolveIdempotent` | MSCUtils/Statics.cs:43-60 | Resolving again with the same stack and loaded mods returns the same mod and leaves the cache as it was after the first resolution. |
| `CallerIdentity.ResolveSkipsNonQualifyingFrames` | MSCUtils/Statics.cs:21-34 | Skip-self for the whole getter: inner non-qualifying frames change neither the mod nor the cache. |
| `CallerIdentity.ResolveBelowLibraryFrame` | MSCUtils/Statics.cs:28-29 | One library frame at the innermost end (the getter's own, or a forwarding library method's) changes neither the mod nor the cache. |
| `CallerIdentity.Statics.constructor` | MSCUtils/Statics.cs:11 | The mod cache is empty at process start. |
| `CallerIdentity.Statics.CurrentMod` | MSCUtils/Statics.cs:13-61 | The loop over the trace (own frame first) returns the mod and leaves the cache exactly as `Resolve` says for the old cache. |
| `Dispatch.StoreAfterWrite` | MSCUtils/ModLoader/SaveLoadExtensions.cs:19-45 | A null mod, a null value or a missing generic `WriteValue<T>` leaves the store unchanged. Otherwise `(mod, key)` holds the value afterwards, and no other entry changes in any case. |
| `Dispatch.ReadResult` | MSCUtils/ModLoader/SaveLoadExtensions.cs:54-77 | The result is non-null exactly when the mod is non-null, the mod has saved the key and the generic `ReadValue<T>` exists. Then it is the host's reading of the saved value as the requested type. |
| `Dispatch.WriteThenReadRoundTrip` | MSCUtils/ModLoaderExtensions/SaveLoadExtensions.cs:41-74 | A value written for a mod is read back unchanged for that mod with its own runtime type. |
| `Dispatch.ReadUnaffectedByOtherWrites` | MSCUtils/ModLoader/SaveLoadExtensions.cs:41-44 | A write under another mod or key does not change what a read of `(mod, key)` returns. |
| `Dispatch.StoreAfterWrites` | MSCUtils/ModLoader/SaveLoadExtensions.cs:84-90 | A batch of writes leaves the store unchanged when the mod is null or the generic `WriteValue<T>` is missing. |
| `Dispatch.StoreAfterWritesSnoc` | MSCUtils/ModLoader/SaveLoadExtensions.cs:86-89 | A batch of `i + 1` pairs is the first `i` pairs followed by one `WriteValue` of pair `i`: strict left-to-right order. |
| `Dispatch.StoreAfterWritesTouchesOnlyWrittenKeys` | MSCUtils/ModLoader/SaveLoadExtensions.cs:84-90 | A batch changes no entry except the resolved mod's entries under keys that some pair writes with a non-null value. |
| `Dispatch.StoreAfterWritesLastWriteWins` | MSCUtils/ModLoader/SaveLoadExtensions.cs:84-90 | A later duplicate key overrides an earlier one: each key holds the value of the last pair that writes it with a non-null value. |
| `ModLoaderSaveLoad.WriteValue` | MSCUtils/ModLoader/SaveLoadExtensions.cs:19-45 | The cache becomes the one `Resolve` gives for the callers. The store becomes `StoreAfterWrite` for the resolved mod, so a guard failure means no write. |
| `ModLoaderSaveLoad.ReadValue` | MSCUtils/ModLoader/SaveLoadExtensions.cs:54-77 | Returns `ReadResult` for the resolved mod; only the cache may change, never the store. |
| `ModLoaderSaveLoad.WriteValuesFromPairs` | MSCUtils/ModLoader/SaveLoadExtensions.cs:84-90 | The store becomes `WriteValue` applied to each pair in order for the one resolved mod. The cache is as after one resolution, or untouched for no pairs. |
| `ModLoaderSaveLoad.WriteValues` | MSCUtils/ModLoader/SaveLoadExtensions.cs:98-108 | Mismatched lengths: neither the store nor the cache changes (zero writes). Otherwise the effect is the ordered batch over the zipped arrays. |
| `ModLoaderSaveLoad.ReadValuesFromPairs` | MSCUtils/ModLoader/SaveLoadExtensions.cs:116-125 | A new array of length `pairs.Length` with `results[i]` equal to `ReadValue(pairs[i].key, pairs[i].type)` for the resolved mod; the store is unchanged. |
| `ModLoaderSaveLoad.ReadValues` | MSCUtils/ModLoader/SaveLoadExtensions.cs:134-148 | Mismatched lengths: an empty array and an untouched cache. Otherwise an array of length `keys.Length`, aligned by position with `ReadValue(keys[i], types[i])`. |
| `ExtensionsSaveLoad.WriteValue` | MSCUtils/ModLoaderExtensions/SaveLoadExtensions.cs:19-45 | As `ModLoaderSaveLoad.WriteValue`: the store changes only at `(mod, key)`, and not at all on a null mod, a null value or a missing generic method. |
| `ExtensionsSaveLoad.ReadValue` | MSCUtils/ModLoaderExtensions/SaveLoadExtensions.cs:53-75 | `ReadValue<T>` returns `default(T)` (None) on a null mod, an absent key or a missing generic method, and otherwise the saved value read as `T`; the store never changes. |
| `ExtensionsSaveLoad.WriteValueThenReadValue` | MSCUtils/ModLoaderExtensions/SaveLoadExtensions.cs:41-74 | `WriteValue(k, v)` followed by `ReadValue<T>(k)` from the same callers, with `T` the runtime type of `v`, returns `v` whenever the mod resolves. The second call resolves to the same mod. |
| `ExtensionsSaveLoad.WriteValues` | MSCUtils/ModLoaderExtensions/SaveLoadExtensions.cs:83-93 | Mismatched lengths: zero writes and no resolution. Equal lengths: sequential `WriteValue` calls in index order. |
| `ExtensionsSaveLoad.ReadValues` | MSCUtils/ModLoaderExtensions/SaveLoadExtensions.cs:102-110 | A new array of length `keys.Length` with `results[i]` equal to `ReadValue<T>(keys[i])` for the resolved mod; the store is unchanged. |

## Left out

- `ModConsole.Error` messages are not modelled; each error path is modelled only by its return value and by what it leaves unchanged.
- Reflection (`GetMethods`, `MakeGenericMethod`, `Invoke`) is replaced by the two flags in `HostApi`. An exception thrown by the host's `WriteValue<T>` or `ReadValue<T>` through `Invoke` is not modelled.
- The host's conversion of a saved value to the requested type is the function `HostApi.readAs`. The round trip assumes only that the host reads a value back unchanged as its own runtime type (`ReadsBackOwnType`).
- The store holds no null values, and the host's `ReadValue<T>` never returns null for a saved key (`HostApi.readAs` always yields a value). In the source, the host's result passes through `Invoke` unchanged (`MSCUtils/ModLoader/SaveLoadExtensions.cs:76`, `MSCUtils/ModLoaderExtensions/SaveLoadExtensions.cs:74`). A null the host saved, for example through a mod that calls `SaveLoad.WriteValue` directly, could be read back as null even though the key exists. So `ReadResult` being non-null exactly when the key is saved depends on this assumption.
- `ExtensionsSaveLoad.ReadValue`: `default(T)` is modelled as None, distinct from any saved value. In C# a saved value equal to `default(T)` cannot be told apart from the fallback. The `(T)` cast cannot fail in the model.
- `System.Diagnostics.StackTrace` is the `callers` sequence plus the library frames the helper itself pushes. Frames that the runtime elides, for example through inlining, are not modelled.
- Null arguments that make the source throw are not modelled: a null `pairs` argument to the `params` overloads (it throws at `MSCUtils/ModLoader/SaveLoadExtensions.cs:86` and `:118`), a null `keys`/`values`/`types` array, a null `Type`, or a null entry in `LoadedMods`. A null key is not modelled either; keys are plain strings.
- Thread safety of the static `Dictionary` is not modelled; the model is sequential.
- Mods are identified by their id and defining assembly; the store keys entries by mod id, as the host scopes saves per mod.
- MSCUtils/ModLoader/AssetExtensions.cs, MSCUtils/Game/GameVariables.cs and MSCUtils/ModLoaderExtensions/SettingsExtensions.cs are not part of this model: they wrap the game engine, scene lookups and the settings UI. The enums in `MSCUtils/Statics.cs:64-90` are pure data and are not modelled.

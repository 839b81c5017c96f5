/** Caller resolution: which mod is calling the save/load helper.  The
    `Statics` class walks the stack trace from the innermost frame outward to
    the first frame that belongs to an assembly other than the library's own,
    then maps that assembly to a loaded mod through a process-wide cache. */
module CallerIdentity {
  import opened Host

  /** A frame names a method, the method names a declaring type, and that
      type lives outside the library. */
  predicate Qualifies(f: Frame)
  {
    f.callee.Some? && f.callee.value.declaringType.Some?
    && f.callee.value.declaringType.value.assembly != LibraryAssembly
  }

  /** The assembly of a frame that names its method and declaring type. */
  function AssemblyOf(f: Frame): AssemblyId
    requires f.callee.Some? && f.callee.value.declaringType.Some?
  {
    f.callee.value.declaringType.value.assembly
  }

  /** The assembly of the innermost qualifying frame, if any. */
  function CallingAssembly(stack: seq<Frame>): (r: Option<AssemblyId>)
    ensures r.None? <==> forall i | 0 <= i < |stack| :: !Qualifies(stack[i])
    ensures r.Some? ==> r.value != LibraryAssembly
  {
    if stack == [] then None
    else if Qualifies(stack[0]) then Some(AssemblyOf(stack[0]))
    else
      assert forall i | 1 <= i < |stack| :: stack[i] == stack[1..][i - 1];
      CallingAssembly(stack[1..])
  }

  /** The calling assembly is that of the first qualifying frame, counted
      from the innermost end. */
  lemma {:induction false} CallingAssemblyIsFirstQualifying(stack: seq<Frame>, i: nat)
    requires i < |stack| && Qualifies(stack[i])
    requires forall j | 0 <= j < i :: !Qualifies(stack[j])
    ensures CallingAssembly(stack) == Some(AssemblyOf(stack[i]))
  {
    if i > 0 {
      assert !Qualifies(stack[0]);
      assert forall j | 0 <= j < i - 1 :: stack[1..][j] == stack[j + 1];
      CallingAssemblyIsFirstQualifying(stack[1..], i - 1);
    }
  }

  /** Skip-self: frames of the library, or frames without a method or a
      declaring type, added at the innermost end do not change the caller. */
  lemma {:induction false} SkipNonQualifyingFrames(inner: seq<Frame>, stack: seq<Frame>)
    requires forall i | 0 <= i < |inner| :: !Qualifies(inner[i])
    ensures CallingAssembly(inner + stack) == CallingAssembly(stack)
  {
    if inner != [] {
      assert (inner + stack)[0] == inner[0] && !Qualifies(inner[0]);
      assert (inner + stack)[1..] == inner[1..] + stack;
      assert forall i | 0 <= i < |inner| - 1 :: inner[1..][i] == inner[i + 1];
      SkipNonQualifyingFrames(inner[1..], stack);
    } else {
      assert inner + stack == stack;
    }
  }

  /** `LoadedMods.FirstOrDefault(m => m.GetType().Assembly == assembly)`. */
  function FirstModIn(mods: seq<Mod>, assembly: AssemblyId): (r: Option<Mod>)
    ensures r.None? <==> forall i | 0 <= i < |mods| :: mods[i].assembly != assembly
    ensures r.Some? ==> r.value in mods && r.value.assembly == assembly
  {
    if mods == [] then None
    else if mods[0].assembly == assembly then Some(mods[0])
    else
      assert forall i | 1 <= i < |mods| :: mods[i] == mods[1..][i - 1];
      FirstModIn(mods[1..], assembly)
  }

  /** The mod found is the first loaded mod defined in the assembly. */
  lemma {:induction false} FirstModInIsFirst(mods: seq<Mod>, assembly: AssemblyId, i: nat)
    requires i < |mods| && mods[i].assembly == assembly
    requires forall j | 0 <= j < i :: mods[j].assembly != assembly
    ensures FirstModIn(mods, assembly) == Some(mods[i])
  {
    if i > 0 {
      assert forall j | 0 <= j < i - 1 :: mods[1..][j] == mods[j + 1];
      FirstModInIsFirst(mods[1..], assembly, i - 1);
    }
  }

  /** The mod that owns a call from `stack` according to the loaded mods alone,
      without any cache. */
  function OwnerOf(stack: seq<Frame>, mods: seq<Mod>): Option<Mod>
  {
    match CallingAssembly(stack)
    case None => None
    case Some(a) => FirstModIn(mods, a)
  }

  /** Every cache entry maps an assembly to the first loaded mod defined in it. */
  ghost predicate CacheAgrees(cache: map<AssemblyId, Mod>, mods: seq<Mod>)
  {
    forall a | a in cache :: FirstModIn(mods, a) == Some(cache[a])
  }

  /** The outcome of one `CurrentMod` read: the mod (None is `null`) and the
      cache afterwards. */
  datatype Resolution = Resolution(mod: Option<Mod>, cache: map<AssemblyId, Mod>)

  /** What the `CurrentMod` getter computes for a stack trace: walk the stack
      first, then consult the cache, then the loaded mods. */
  function Resolve(cache: map<AssemblyId, Mod>, stack: seq<Frame>, mods: seq<Mod>): (r: Resolution)
    // no caller found: null, and the cache is left alone
    ensures CallingAssembly(stack).None? ==> r.mod.None? && r.cache == cache
    // a cache entry, once written, is never overwritten or evicted
    ensures forall a | a in cache :: a in r.cache && r.cache[a] == cache[a]
    // at most the caller's own entry is added, and it holds the returned mod
    ensures forall a | a in r.cache && a !in cache ::
              CallingAssembly(stack) == Some(a) && r.mod == Some(r.cache[a])
    // with a consistent cache the result is the loaded-mods answer, and the
    // cache stays consistent
    ensures CacheAgrees(cache, mods) ==> r.mod == OwnerOf(stack, mods) && CacheAgrees(r.cache, mods)
  {
    match CallingAssembly(stack)
    case None => Resolution(None, cache)
    case Some(a) =>
      if a in cache then Resolution(Some(cache[a]), cache)
      else
        match FirstModIn(mods, a)
        case None => Resolution(None, cache)
        case Some(m) => Resolution(Some(m), cache[a := m])
  }

  /** On a cache hit the cached mod is returned whatever the loaded mods are,
      and the cache is unchanged. */
  lemma CacheHitIgnoresLoadedMods(cache: map<AssemblyId, Mod>, stack: seq<Frame>, mods: seq<Mod>)
    requires CallingAssembly(stack).Some? && CallingAssembly(stack).value in cache
    ensures Resolve(cache, stack, mods) == Resolution(Some(cache[CallingAssembly(stack).value]), cache)
  {
  }

  /** On a miss the result is the first loaded mod of the calling assembly;
      on success exactly that entry is added, otherwise the cache is unchanged. */
  lemma CacheMissSearchesLoadedMods(cache: map<AssemblyId, Mod>, stack: seq<Frame>, mods: seq<Mod>)
    requires CallingAssembly(stack).Some? && CallingAssembly(stack).value !in cache
    ensures var a := CallingAssembly(stack).value;
            var r := Resolve(cache, stack, mods);
            r.mod == FirstModIn(mods, a)
            && r.cache == (if r.mod.None? then cache else cache[a := r.mod.value])
  {
  }

  /** Resolving again with the same stack and loaded mods returns the same mod
      and leaves the cache as the first resolution left it. */
  lemma ResolveIdempotent(cache: map<AssemblyId, Mod>, stack: seq<Frame>, mods: seq<Mod>)
    ensures var r := Resolve(cache, stack, mods);
            Resolve(r.cache, stack, mods) == r
  {
  }

  /** Skip-self lifted to the whole getter: inner library frames change
      neither the mod returned nor the cache. */
  lemma ResolveSkipsNonQualifyingFrames(cache: map<AssemblyId, Mod>, inner: seq<Frame>, stack: seq<Frame>, mods: seq<Mod>)
    requires forall i | 0 <= i < |inner| :: !Qualifies(inner[i])
    ensures Resolve(cache, inner + stack, mods) == Resolve(cache, stack, mods)
  {
    SkipNonQualifyingFrames(inner, stack);
  }

  /** One library frame (the getter's own, or a library method's) at the
      innermost end changes neither the mod returned nor the cache. */
  lemma ResolveBelowLibraryFrame(cache: map<AssemblyId, Mod>, stack: seq<Frame>, mods: seq<Mod>)
    ensures Resolve(cache, [LibraryFrame] + stack, mods) == Resolve(cache, stack, mods)
  {
    ResolveSkipsNonQualifyingFrames(cache, [LibraryFrame], stack, mods);
  }

  /** The mod cache after a batch of `n` single calls from the same callers:
      untouched when no call is made, otherwise as one resolution leaves it
      (later resolutions change nothing, see `ResolveIdempotent`). */
  function CacheAfterBatch(cache: map<AssemblyId, Mod>, callers: seq<Frame>, loadedMods: seq<Mod>, n: nat)
    : map<AssemblyId, Mod>
  {
    if n == 0 then cache else Resolve(cache, callers, loadedMods).cache
  }

  /** `Statics`: the process-wide mod cache and the `CurrentMod` getter. */
  class Statics {
    var modCache: map<AssemblyId, Mod>

    /** The cache is empty when the process starts. */
    constructor ()
      ensures modCache == map[]
    {
      modCache := map[];
    }

    /** The `CurrentMod` getter.  `callers` is the stack trace outside the
        getter, innermost first; the trace it walks starts with its own
        frame.  `loadedMods` is the host's `ModLoader.LoadedMods`. */
    method CurrentMod(callers: seq<Frame>, loadedMods: seq<Mod>) returns (r: Option<Mod>)
      modifies this
      ensures r == Resolve(old(modCache), [LibraryFrame] + callers, loadedMods).mod
      ensures modCache == Resolve(old(modCache), [LibraryFrame] + callers, loadedMods).cache
    {
      var stackTrace := [LibraryFrame] + callers;
      var callingAssembly: Option<AssemblyId> := None;

      for i := 0 to |stackTrace|
        invariant callingAssembly.None?
        invariant CallingAssembly(stackTrace[i..]) == CallingAssembly(stackTrace)
      {
        var frame := stackTrace[i];
        assert stackTrace[i..][1..] == stackTrace[i + 1..];
        if frame.callee.None? || frame.callee.value.declaringType.None? {
          continue;
        }
        var assembly := frame.callee.value.declaringType.value.assembly;
        if assembly != LibraryAssembly {
          callingAssembly := Some(assembly);
          break;
        }
      }

      if callingAssembly.None? {
        return None;
      }
      var a := callingAssembly.value;

      if a in modCache {
        return Some(modCache[a]);
      }

      var currentMod := FirstModIn(loadedMods, a);
      if currentMod.None? {
        return None;
      }

      modCache := modCache[a := currentMod.value];
      return currentMod;
    }
  }
}

/** The surface of the runtime and of the host mod loader that the save/load
    helper consumes: assemblies, stack frames, loaded mods, boxed values, the
    two reflection lookups and the host's key/value save store.  Everything
    here is a stand-in for code that is not part of this model. */
module Host {

  datatype Option<+T> = None | Some(value: T)

  /** Opaque identity of a loaded assembly (a code unit). */
  type AssemblyId = nat

  /** Opaque identity of a mod registration object. */
  type ModId = nat

  /** Opaque identity of a runtime type. */
  type TypeId = nat

  /** The assembly that holds the utility library itself
      (`typeof(SaveLoadExtensions).Assembly`). */
  const LibraryAssembly: AssemblyId := 0

  /** A declaring type, known by the assembly that defines it. */
  datatype TypeRef = TypeRef(assembly: AssemblyId)

  /** The method of a stack frame; its declaring type may be missing
      (global or dynamically emitted methods). */
  datatype MethodRef = MethodRef(declaringType: Option<TypeRef>)

  /** One frame of a stack trace; `callee` is None when the runtime cannot
      name the frame's method. */
  datatype Frame = Frame(callee: Option<MethodRef>)

  /** A frame executing a method of the utility library itself. */
  const LibraryFrame: Frame := Frame(Some(MethodRef(Some(TypeRef(LibraryAssembly)))))

  /** A mod registered with the host; `assembly` is `GetType().Assembly`. */
  datatype Mod = Mod(id: ModId, assembly: AssemblyId)

  /** A non-null object together with its runtime type. */
  datatype Boxed = Boxed(ty: TypeId, payload: nat)

  /** A value of static type `object` (or `T`): None is `null`, or `default(T)`. */
  type Object = Option<Boxed>

  /** A save-store key: the owning mod and the save key. */
  type StoreKey = (ModId, string)

  type Store = map<StoreKey, Boxed>

  /** What reflection finds on the host's `SaveLoad` type: whether the generic
      `WriteValue<T>(Mod, string, T)` and `ReadValue<T>(Mod, string)` exist, and
      how the host's `ReadValue<T>` turns a saved value into a `T`. */
  datatype HostApi = HostApi(
    hasGenericWrite: bool,
    hasGenericRead: bool,
    readAs: (Boxed, TypeId) -> Boxed)

  /** The host reads a value back unchanged when asked for its own runtime type. */
  ghost predicate ReadsBackOwnType(api: HostApi)
  {
    forall v: Boxed :: api.readAs(v, v.ty) == v
  }

  /** The host's persistent key/value store (`SaveLoad`), scoped per mod. */
  class SaveLoad {
    var values: Store

    constructor ()
      ensures values == map[]
    {
      values := map[];
    }

    /** `SaveLoad.ValueExists(mod, key)`. */
    predicate ValueExists(mod: Mod, key: string)
      reads this
    {
      (mod.id, key) in values
    }

    /** The host's `SaveLoad.WriteValue<T>(mod, key, value)` with `T` the
        value's runtime type. */
    method WriteValue(mod: Mod, key: string, value: Boxed)
      modifies this
      ensures values == old(values)[(mod.id, key) := value]
    {
      values := values[(mod.id, key) := value];
    }

    /** The host's `SaveLoad.ReadValue<T>(mod, key)` with `T` the type `ty`. */
    function ReadValue(mod: Mod, key: string, ty: TypeId, api: HostApi): Boxed
      reads this
      requires ValueExists(mod, key)
    {
      api.readAs(values[(mod.id, key)], ty)
    }
  }
}

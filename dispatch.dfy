/** What the save/load helper does to the host's store once the calling mod
    has been resolved: the effect of one `WriteValue`, the result of one
    `ReadValue`, and the effect of a batch of writes processed left to right.
    Both `SaveLoadExtensions` classes share these definitions. */
module Dispatch {
  import opened Host

  /** `s` and `t` agree on every key except possibly `target`. */
  ghost predicate SameExcept(s: Store, t: Store, target: StoreKey)
  {
    forall k :: k != target ==> (k in s <==> k in t) && (k in s ==> s[k] == t[k])
  }

  /** The store after `WriteValue(key, value)` for the resolved mod `mod`:
      nothing happens for a null mod, a null value or a missing generic
      `WriteValue<T>`; otherwise the host saves `value` under `(mod, key)`. */
  function StoreAfterWrite(store: Store, mod: Option<Mod>, key: string, value: Object, api: HostApi): (s: Store)
    ensures !(mod.Some? && value.Some? && api.hasGenericWrite) ==> s == store
    ensures mod.Some? && value.Some? && api.hasGenericWrite ==>
              (mod.value.id, key) in s && s[(mod.value.id, key)] == value.value
    ensures mod.Some? ==> SameExcept(s, store, (mod.value.id, key))
  {
    if mod.None? || value.None? || !api.hasGenericWrite then store
    else store[(mod.value.id, key) := value.value]
  }

  /** The result of `ReadValue(key, ty)` for the resolved mod `mod`: null (or
      `default(T)`) for a null mod, a key the mod has not saved, or a missing
      generic `ReadValue<T>`; otherwise what the host reads back as `ty`. */
  function ReadResult(store: Store, mod: Option<Mod>, key: string, ty: TypeId, api: HostApi): (r: Object)
    ensures r.Some? <==> mod.Some? && (mod.value.id, key) in store && api.hasGenericRead
    ensures r.Some? ==> r.value == api.readAs(store[(mod.value.id, key)], ty)
  {
    if mod.None? then None
    else if (mod.value.id, key) !in store then None
    else if !api.hasGenericRead then None
    else Some(api.readAs(store[(mod.value.id, key)], ty))
  }

  /** Round trip: a value written for a mod is read back for the same mod when
      asked for with its own runtime type. */
  lemma WriteThenReadRoundTrip(store: Store, m: Mod, key: string, v: Boxed, api: HostApi)
    requires api.hasGenericWrite && api.hasGenericRead && ReadsBackOwnType(api)
    ensures ReadResult(StoreAfterWrite(store, Some(m), key, Some(v), api), Some(m), key, v.ty, api) == Some(v)
  {
  }

  /** A write for one mod, or under another key, does not change what a read
      of `(mod, key)` returns. */
  lemma ReadUnaffectedByOtherWrites(store: Store, writer: Option<Mod>, wkey: string, v: Object,
                                    reader: Mod, key: string, ty: TypeId, api: HostApi)
    requires writer.Some? ==> (writer.value.id, wkey) != (reader.id, key)
    ensures ReadResult(StoreAfterWrite(store, writer, wkey, v, api), Some(reader), key, ty, api)
         == ReadResult(store, Some(reader), key, ty, api)
  {
  }

  /** The store after writing `pairs` one at a time, left to right, for the
      same resolved mod. */
  function StoreAfterWrites(store: Store, mod: Option<Mod>, pairs: seq<(string, Object)>, api: HostApi): (s: Store)
    ensures mod.None? || !api.hasGenericWrite ==> s == store
    decreases |pairs|
  {
    if pairs == [] then store
    else
      var last := pairs[|pairs| - 1];
      StoreAfterWrite(StoreAfterWrites(store, mod, pairs[..|pairs| - 1], api), mod, last.0, last.1, api)
  }

  /** Writing one more pair extends the batch by one `WriteValue`. */
  lemma StoreAfterWritesSnoc(store: Store, mod: Option<Mod>, pairs: seq<(string, Object)>, i: nat, api: HostApi)
    requires i < |pairs|
    ensures StoreAfterWrites(store, mod, pairs[..i + 1], api)
         == StoreAfterWrite(StoreAfterWrites(store, mod, pairs[..i], api), mod, pairs[i].0, pairs[i].1, api)
  {
    assert pairs[..i + 1][..i] == pairs[..i];
  }

  /** A batch changes only the entries of the resolved mod under keys that
      some pair writes with a non-null value. */
  lemma {:induction false} StoreAfterWritesTouchesOnlyWrittenKeys(
    store: Store, mod: Option<Mod>, pairs: seq<(string, Object)>, api: HostApi, k: StoreKey)
    requires forall i | 0 <= i < |pairs| :: !(mod.Some? && k == (mod.value.id, pairs[i].0) && pairs[i].1.Some?)
    ensures var s := StoreAfterWrites(store, mod, pairs, api);
            (k in s <==> k in store) && (k in s ==> s[k] == store[k])
  {
    if pairs != [] {
      var n := |pairs| - 1;
      assert forall i | 0 <= i < n :: pairs[..n][i] == pairs[i];
      StoreAfterWritesTouchesOnlyWrittenKeys(store, mod, pairs[..n], api, k);
    }
  }

  /** Later duplicates override earlier ones: the entry for a key holds the
      value of the last pair that writes that key with a non-null value. */
  lemma {:induction false} StoreAfterWritesLastWriteWins(
    store: Store, m: Mod, pairs: seq<(string, Object)>, api: HostApi, i: nat)
    requires api.hasGenericWrite
    requires i < |pairs| && pairs[i].1.Some?
    requires forall j | i < j < |pairs| :: pairs[j].0 != pairs[i].0 || pairs[j].1.None?
    ensures var s := StoreAfterWrites(store, Some(m), pairs, api);
            (m.id, pairs[i].0) in s && s[(m.id, pairs[i].0)] == pairs[i].1.value
  {
    var n := |pairs| - 1;
    if i == n {
      assert pairs[n] == pairs[i];
    } else {
      assert forall j | i < j < n :: pairs[..n][j] == pairs[j];
      StoreAfterWritesLastWriteWins(store, m, pairs[..n], api, i);
    }
  }

  /** Pairs up two parallel arrays of equal length, position by position. */
  function Zip<A, B>(xs: seq<A>, ys: seq<B>): (r: seq<(A, B)>)
    requires |xs| == |ys|
    ensures |r| == |xs|
    ensures forall i | 0 <= i < |r| :: r[i].0 == xs[i] && r[i].1 == ys[i]
  {
    seq(|xs|, i requires 0 <= i < |xs| => (xs[i], ys[i]))
  }
}

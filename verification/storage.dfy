/** Browser storage behind one interface: the local, session and in-memory areas, each
    a string-keyed store of JSON texts; single-key access, listing, clearing, migration
    between areas, backup and restore, and key namespaces. */
module Storage {
  import opened Common

  /** The three stores the code can reach. */
  datatype Area = LocalArea | SessionArea | MemoryArea

  /** The `type` argument: one of `STORAGE_TYPES` or any other string. */
  datatype StorageType = Local | Session | Memory | Unknown(name: string)

  /** `getStorage(type)`: an unknown type throws inside the `try`, and the `catch` falls
      back to the in-memory store. */
  function AreaOf(t: StorageType): (a: Area)
    ensures t == Local <==> a == LocalArea
    ensures t == Session <==> a == SessionArea
    ensures t.Unknown? ==> a == MemoryArea
  {
    match t
    case Local => LocalArea
    case Session => SessionArea
    case _ => MemoryArea
  }

  /** What a store holds under a key: the JSON text of a value, written as the value it
      encodes, or the text "undefined" that `setItem` writes for `undefined` (the
      in-memory store keeps `undefined` itself; both read back as the default). */
  datatype Stored = Json(value: JsValue) | UndefinedText

  /** `JSON.stringify(value)` as it ends up in a store. */
  function Serialize(value: JsValue): (s: Stored)
    ensures s != Json(Undefined)
    ensures value != Undefined ==> s == Json(value)
  {
    if value.Undefined? then UndefinedText else Json(value)
  }

  /** `value ? JSON.parse(value) : defaultValue` for a stored entry: the text
      "undefined" does not parse and the `catch` returns the default. */
  function Read(s: Stored, defaultValue: JsValue): JsValue {
    if s.Json? then s.value else defaultValue
  }

  /** `getItem(key, defaultValue)` on the contents of one store. */
  function Lookup(m: map<string, Stored>, key: string, defaultValue: JsValue): JsValue {
    if key in m then Read(m[key], defaultValue) else defaultValue
  }

  /** Reading a key just written gives the value back (the default for `undefined`),
      and writing one key does not change what any other key reads. */
  lemma GetAfterSet(m: map<string, Stored>, key: string, value: JsValue, other: string, defaultValue: JsValue)
    ensures Lookup(m[key := Serialize(value)], key, defaultValue) == if value.Undefined? then defaultValue else value
    ensures other != key ==> Lookup(m[key := Serialize(value)], other, defaultValue) == Lookup(m, other, defaultValue)
  {
  }

  /** `getAllItems(type)` as a map: every key with `getItem(key, null)`. */
  function AllItems(m: map<string, Stored>): map<string, JsValue> {
    map k | k in m :: Read(m[k], Null)
  }

  /** The contents a store ends with when every entry of `m` is written again through
      `setItem` with the value `getAllItems` reads. */
  function Rewritten(m: map<string, Stored>): map<string, Stored> {
    map k | k in m :: Serialize(Read(m[k], Null))
  }

  /** Rewriting keeps every key and every JSON entry; an entry written from `undefined`
      comes back as `null`. */
  lemma RewrittenEntries(m: map<string, Stored>)
    requires forall k :: k in m ==> m[k] != Json(Undefined)
    ensures Rewritten(m).Keys == m.Keys
    ensures forall k :: k in m && m[k].Json? ==> Rewritten(m)[k] == m[k]
    ensures forall k :: k in m && m[k].UndefinedText? ==> Rewritten(m)[k] == Json(Null)
    ensures (forall k :: k in m ==> m[k].Json?) ==> Rewritten(m) == m
  {
  }

  /** A store written key by key, left to right: a later write of a key overrides an
      earlier one. */
  function WriteAll(m: map<string, Stored>, entries: seq<(string, JsValue)>): map<string, Stored> {
    if entries == [] then m
    else
      var last := entries[|entries| - 1];
      WriteAll(m, entries[..|entries| - 1])[last.0 := Serialize(last.1)]
  }

  /** Writing one more entry of the list. */
  lemma WriteAllStep(m: map<string, Stored>, entries: seq<(string, JsValue)>, i: nat)
    requires i < |entries|
    ensures WriteAll(m, entries[..i + 1]) == WriteAll(m, entries[..i])[entries[i].0 := Serialize(entries[i].1)]
  {
    var p := entries[..i + 1];
    assert p[..|p| - 1] == entries[..i];
    assert p[|p| - 1] == entries[i];
  }

  /** Writing a list of entries into an empty store leaves exactly their keys, each with
      its last value, as an object with those fields reads it. */
  lemma {:induction false} WriteAllSpec(entries: seq<(string, JsValue)>, key: string)
    ensures key in WriteAll(map[], entries) <==> exists i :: 0 <= i < |entries| && entries[i].0 == key
    ensures key in WriteAll(map[], entries) ==> WriteAll(map[], entries)[key] == Serialize(FieldValue(entries, key))
  {
    if entries != [] {
      var init := entries[..|entries| - 1];
      WriteAllSpec(init, key);
      if exists i :: 0 <= i < |init| && init[i].0 == key {
        var i :| 0 <= i < |init| && init[i].0 == key;
        assert entries[i].0 == key;
      }
      if exists i :: 0 <= i < |entries| && entries[i].0 == key {
        var i :| 0 <= i < |entries| && entries[i].0 == key;
        if i < |init| { assert init[i].0 == key; }
      }
    }
  }

  /** In a field list whose keys are distinct, the value under a key is the one its
      field carries. */
  lemma {:induction false} FieldValueDistinct(fields: seq<(string, JsValue)>, i: nat)
    requires i < |fields|
    requires forall p, q :: 0 <= p < q < |fields| ==> fields[p].0 != fields[q].0
    ensures FieldValue(fields, fields[i].0) == fields[i].1
  {
    if i < |fields| - 1 {
      var init := fields[..|fields| - 1];
      assert init[i] == fields[i];
      FieldValueDistinct(init, i);
    }
  }

  /** Writing back the fields of a backup of `m` rebuilds `m` as `getAllItems` reads
      it. */
  lemma RestoreOfBackup(m: map<string, Stored>, fields: seq<(string, JsValue)>)
    requires forall p, q :: 0 <= p < q < |fields| ==> fields[p].0 != fields[q].0
    requires forall i :: 0 <= i < |fields| ==> fields[i].0 in m && fields[i].1 == Read(m[fields[i].0], Null)
    requires forall k :: k in m ==> exists i :: 0 <= i < |fields| && fields[i].0 == k
    ensures WriteAll(map[], fields) == Rewritten(m)
  {
    var w := WriteAll(map[], fields);
    forall k | true
      ensures k in w <==> k in m
      ensures k in m ==> w[k] == Rewritten(m)[k]
    {
      WriteAllSpec(fields, k);
      if k in m {
        var i :| 0 <= i < |fields| && fields[i].0 == k;
        FieldValueDistinct(fields, i);
      }
    }
  }

  /** The entries `Object.entries` lists for a parsed backup; `null` and `undefined`
      make it throw (`None`). Array items and string characters are listed under their
      indices, and other primitives have no entries. */
  function Entries(v: JsValue): (r: Option<seq<(string, JsValue)>>)
    ensures r.None? <==> Nullish(v)
    ensures v.Obj? ==> r == Some(v.fields)
  {
    match v
    case Undefined => None
    case Null => None
    case Obj(fields) => Some(fields)
    case Arr(items) => Some(seq(|items|, i requires 0 <= i < |items| => (NatToString(i), items[i])))
    case Str(s) => Some(seq(|s|, i requires 0 <= i < |s| => (NatToString(i), Str([s[i]]))))
    case _ => Some([])
  }

  /** A JSON text: the value it encodes, or text `JSON.parse` rejects. */
  datatype JsonText = Encoded(value: JsValue) | Malformed

  /** The closures of `createStorageNamespace(namespace, type)`: every key is prefixed
      with the namespace and a colon. */
  datatype StorageNamespace = StorageNamespace(prefix: string, storageType: StorageType)

  function CreateStorageNamespace(namespace: string, t: StorageType): StorageNamespace {
    StorageNamespace(namespace + ":", t)
  }

  /** Namespaces whose names hold no colon never share a key. */
  lemma NamespacesDisjoint(n1: string, n2: string, k1: string, k2: string)
    requires ':' !in n1 && ':' !in n2 && n1 != n2
    ensures CreateStorageNamespace(n1, Local).prefix + k1 != CreateStorageNamespace(n2, Local).prefix + k2
  {
    var a := n1 + ":" + k1;
    var b := n2 + ":" + k2;
    if |n1| < |n2| {
      assert a[|n1|] == ':' && b[|n1|] == n2[|n1|];
    } else if |n2| < |n1| {
      assert b[|n2|] == ':' && a[|n2|] == n1[|n2|];
    } else {
      assert n1 == a[..|n1|] && n2 == b[..|n2|];
    }
  }

  /** A colon in a namespace name lets two namespaces address the same key. */
  lemma NamespacesCollideWithColon()
    ensures CreateStorageNamespace("a", Local).prefix + "b:c" == CreateStorageNamespace("a:b", Local).prefix + "c"
  {
  }

  /** The serialized entries of `items` outside `pending`. */
  function WrittenOf(items: map<string, JsValue>, pending: set<string>): map<string, Stored> {
    map j | j in items && j !in pending :: Serialize(items[j])
  }

  /** Writing one more key of `items` over a store already holding the others. */
  lemma WrittenStep(start: map<string, Stored>, items: map<string, JsValue>, pending: set<string>, k: string)
    requires k in pending && k in items
    ensures (start + WrittenOf(items, pending))[k := Serialize(items[k])] == start + WrittenOf(items, pending - {k})
  {
    assert WrittenOf(items, pending - {k}) == WrittenOf(items, pending)[k := Serialize(items[k])];
  }

  /** The entries of `start` that are pending removal or lack the prefix. */
  function KeptOf(start: map<string, Stored>, prefix: string, pending: set<string>): map<string, Stored> {
    map k | k in start && (k in pending || !StartsWith(k, prefix)) :: start[k]
  }

  /** Removing one more prefixed key. */
  lemma KeptStep(start: map<string, Stored>, prefix: string, pending: set<string>, k: string)
    requires k in pending && StartsWith(k, prefix)
    ensures KeptOf(start, prefix, pending) - {k} == KeptOf(start, prefix, pending - {k})
  {
  }

  class BrowserStorage {
    var areas: map<Area, map<string, Stored>>

    ghost predicate Valid()
      reads this
    {
      && (forall a: Area :: a in areas)
      && (forall a, k :: a in areas && k in areas[a] ==> areas[a][k] != Json(Undefined))
    }

    /** Empty stores. */
    constructor ()
      ensures Valid()
      ensures areas == map[LocalArea := map[], SessionArea := map[], MemoryArea := map[]]
    {
      areas := map[LocalArea := map[], SessionArea := map[], MemoryArea := map[]];
      new;
      forall a: Area ensures a in areas {
        match a
        case LocalArea =>
        case SessionArea =>
        case MemoryArea =>
      }
    }

    function Contents(t: StorageType): map<string, Stored>
      reads this
      requires Valid()
    {
      areas[AreaOf(t)]
    }

    /** `getItem(key, defaultValue, type)`. */
    function GetItem(key: string, defaultValue: JsValue, t: StorageType): JsValue
      reads this
      requires Valid()
    {
      Lookup(Contents(t), key, defaultValue)
    }

    /** `setItem(key, value, type)`: only that key of that store changes. */
    method SetItem(key: string, value: JsValue, t: StorageType)
      requires Valid()
      modifies this
      ensures Valid()
      ensures areas == old(areas)[AreaOf(t) := old(areas[AreaOf(t)])[key := Serialize(value)]]
      ensures forall d :: GetItem(key, d, t) == if value.Undefined? then d else value
    {
      areas := areas[AreaOf(t) := areas[AreaOf(t)][key := Serialize(value)]];
    }

    /** `removeItem(key, type)`: only that key of that store is deleted. */
    method RemoveItem(key: string, t: StorageType)
      requires Valid()
      modifies this
      ensures Valid()
      ensures areas == old(areas)[AreaOf(t) := old(areas[AreaOf(t)]) - {key}]
      ensures forall d :: GetItem(key, d, t) == d
    {
      areas := areas[AreaOf(t) := areas[AreaOf(t)] - {key}];
    }

    /** `clearStorage(type)`: that store is emptied and the others are kept. */
    method ClearStorage(t: StorageType)
      requires Valid()
      modifies this
      ensures Valid()
      ensures areas == old(areas)[AreaOf(t) := map[]]
    {
      areas := areas[AreaOf(t) := map[]];
    }

    /** `getAllItems(type)`: one `getItem(key, null)` per key of the store. */
    method GetAllItems(t: StorageType) returns (items: map<string, JsValue>)
      requires Valid()
      ensures items == AllItems(Contents(t))
    {
      var m := Contents(t);
      var keys := m.Keys;
      items := map[];
      while keys != {}
        invariant keys <= m.Keys
        invariant forall k :: k in items ==> k in m && k !in keys && items[k] == Read(m[k], Null)
        invariant forall k :: k in m && k !in keys ==> k in items
        decreases |keys|
      {
        var k :| k in keys;
        items := items[k := GetItem(k, Null, t)];
        keys := keys - {k};
      }
    }

    /** Writes every entry of `items` into the store of type `t`, in some order. */
    method WriteItems(items: map<string, JsValue>, t: StorageType)
      requires Valid()
      modifies this
      ensures Valid()
      ensures areas == old(areas)[AreaOf(t) := old(areas[AreaOf(t)]) + map k | k in items :: Serialize(items[k])]
    {
      var a := AreaOf(t);
      var keys := items.Keys;
      ghost var start := areas[a];
      assert WrittenOf(items, keys) == map[];
      assert start + map[] == start;
      while keys != {}
        invariant Valid()
        invariant keys <= items.Keys
        invariant areas == old(areas)[a := start + WrittenOf(items, keys)]
        decreases |keys|
      {
        var k :| k in keys;
        WrittenStep(start, items, keys, k);
        SetItem(k, items[k], t);
        keys := keys - {k};
      }
      assert WrittenOf(items, {}) == map k | k in items :: Serialize(items[k]);
    }

    /** `migrateStorage(fromType, toType)`: the target is cleared and receives every
        entry of the source as `getAllItems` reads it; the other stores are kept. */
    method MigrateStorage(fromType: StorageType, toType: StorageType) returns (ok: bool)
      requires Valid()
      modifies this
      ensures Valid() && ok
      ensures Contents(toType) == Rewritten(old(Contents(fromType)))
      ensures forall a: Area :: a != AreaOf(toType) ==> areas[a] == old(areas[a])
    {
      var items := GetAllItems(fromType);
      ClearStorage(toType);
      WriteItems(items, toType);
      ok := true;
    }

    /** `backupStorage(type)`: the JSON text of the object `getAllItems` builds, one
        field per key of the store. */
    method BackupStorage(t: StorageType) returns (backup: JsonText)
      requires Valid()
      ensures backup.Encoded? && backup.value.Obj?
      ensures var fields := backup.value.fields;
              && (forall p, q :: 0 <= p < q < |fields| ==> fields[p].0 != fields[q].0)
              && (forall i :: 0 <= i < |fields| ==> fields[i].0 in Contents(t) && fields[i].1 == Read(Contents(t)[fields[i].0], Null))
              && (forall k :: k in Contents(t) ==> exists i :: 0 <= i < |fields| && fields[i].0 == k)
    {
      var items := GetAllItems(t);
      var keys := items.Keys;
      var fields: seq<(string, JsValue)> := [];
      while keys != {}
        invariant keys <= items.Keys
        invariant forall p, q :: 0 <= p < q < |fields| ==> fields[p].0 != fields[q].0
        invariant forall i :: 0 <= i < |fields| ==> fields[i].0 in items && fields[i].0 !in keys && fields[i].1 == items[fields[i].0]
        invariant forall k :: k in items && k !in keys ==> exists i :: 0 <= i < |fields| && fields[i].0 == k
        decreases |keys|
      {
        var k :| k in keys;
        ghost var prev := fields;
        fields := fields + [(k, items[k])];
        assert forall j :: 0 <= j < |prev| ==> fields[j] == prev[j];
        assert fields[|prev|].0 == k;
        keys := keys - {k};
      }
      assert items.Keys == Contents(t).Keys;
      backup := Encoded(Obj(fields));
    }

    /** `restoreStorage(backup, type)`: malformed text changes nothing; a backup that
        parses to `null` clears the store and then fails; otherwise the store is cleared
        and every entry of the parsed value is written in order. */
    method RestoreStorage(backup: JsonText, t: StorageType) returns (ok: bool)
      requires Valid()
      modifies this
      ensures Valid()
      ensures forall a: Area :: a != AreaOf(t) ==> areas[a] == old(areas[a])
      ensures backup.Malformed? ==> !ok && areas == old(areas)
      ensures backup.Encoded? && Nullish(backup.value) ==> !ok && Contents(t) == map[]
      ensures backup.Encoded? && !Nullish(backup.value) ==>
                ok && Contents(t) == WriteAll(map[], Entries(backup.value).value)
    {
      if backup.Malformed? {
        return false;
      }
      ClearStorage(t);
      var entries := Entries(backup.value);
      if entries.None? {
        return false;
      }
      var es := entries.value;
      var i := 0;
      while i < |es|
        invariant 0 <= i <= |es|
        invariant Valid()
        invariant areas == old(areas)[AreaOf(t) := WriteAll(map[], es[..i])]
      {
        WriteAllStep(map[], es, i);
        SetItem(es[i].0, es[i].1, t);
        i := i + 1;
      }
      assert es[..|es|] == es;
      ok := true;
    }

    /** Restoring a fresh backup into the same store gives back its contents, except
        that entries written from `undefined` come back as `null`. */
    method BackupThenRestore(t: StorageType) returns (ok: bool)
      requires Valid()
      modifies this
      ensures Valid() && ok
      ensures Contents(t) == Rewritten(old(Contents(t)))
      ensures (forall k :: k in old(Contents(t)) ==> old(Contents(t))[k].Json?) ==> Contents(t) == old(Contents(t))
      ensures forall a: Area :: a != AreaOf(t) ==> areas[a] == old(areas[a])
    {
      ghost var m := Contents(t);
      var backup := BackupStorage(t);
      assert Contents(t) == m;
      RestoreOfBackup(m, backup.value.fields);
      ok := RestoreStorage(backup, t);
      RewrittenEntries(m);
    }

    // ------------------------------------------------------------ namespaces

    /** The namespace's `get(key, defaultValue)`. */
    function NamespaceGet(ns: StorageNamespace, key: string, defaultValue: JsValue): JsValue
      reads this
      requires Valid()
    {
      GetItem(ns.prefix + key, defaultValue, ns.storageType)
    }

    /** The namespace's `set(key, value)`: `setItem` on the prefixed key. */
    method NamespaceSet(ns: StorageNamespace, key: string, value: JsValue)
      requires Valid()
      modifies this
      ensures Valid()
      ensures var a := AreaOf(ns.storageType);
              areas == old(areas)[a := old(areas[a])[ns.prefix + key := Serialize(value)]]
      ensures forall d :: NamespaceGet(ns, key, d) == if value.Undefined? then d else value
    {
      SetItem(ns.prefix + key, value, ns.storageType);
    }

    /** The namespace's `remove(key)`: `removeItem` on the prefixed key. */
    method NamespaceRemove(ns: StorageNamespace, key: string)
      requires Valid()
      modifies this
      ensures Valid()
      ensures var a := AreaOf(ns.storageType);
              areas == old(areas)[a := old(areas[a]) - {ns.prefix + key}]
    {
      RemoveItem(ns.prefix + key, ns.storageType);
    }

    /** The namespace's `clear()`: every key that starts with the prefix is removed, and
        every other key of the store is kept. */
    method NamespaceClear(ns: StorageNamespace)
      requires Valid()
      modifies this
      ensures Valid()
      ensures var a := AreaOf(ns.storageType);
              areas == old(areas)[a := map k | k in old(areas[a]) && !StartsWith(k, ns.prefix) :: old(areas[a])[k]]
    {
      var a := AreaOf(ns.storageType);
      var items := GetAllItems(ns.storageType);
      var keys := set k | k in items && StartsWith(k, ns.prefix);
      ghost var start := areas[a];
      assert KeptOf(start, ns.prefix, keys) == start;
      while keys != {}
        invariant Valid()
        invariant forall k :: k in keys ==> StartsWith(k, ns.prefix)
        invariant areas == old(areas)[a := KeptOf(start, ns.prefix, keys)]
        decreases |keys|
      {
        var k :| k in keys;
        KeptStep(start, ns.prefix, keys, k);
        RemoveItem(k, ns.storageType);
        keys := keys - {k};
      }
      assert KeptOf(start, ns.prefix, {}) == map k | k in start && !StartsWith(k, ns.prefix) :: start[k];
    }

    /** The namespace's `getAll()`: exactly the prefixed entries, under their keys with
        the prefix stripped. */
    method NamespaceGetAll(ns: StorageNamespace) returns (r: map<string, JsValue>)
      requires Valid()
      ensures forall key :: key in r ==>
                ns.prefix + key in Contents(ns.storageType) && r[key] == Read(Contents(ns.storageType)[ns.prefix + key], Null)
      ensures forall k :: k in Contents(ns.storageType) && StartsWith(k, ns.prefix) ==> k[|ns.prefix|..] in r
    {
      ghost var m := Contents(ns.storageType);
      var items := GetAllItems(ns.storageType);
      var keys := set k | k in items && StartsWith(k, ns.prefix);
      r := map[];
      while keys != {}
        invariant forall k :: k in keys ==> k in m && StartsWith(k, ns.prefix)
        invariant forall key :: key in r ==> ns.prefix + key in m && ns.prefix + key !in keys && r[key] == Read(m[ns.prefix + key], Null)
        invariant forall k :: k in m && StartsWith(k, ns.prefix) && k !in keys ==> k[|ns.prefix|..] in r
        decreases |keys|
      {
        var k :| k in keys;
        var stripped := k[|ns.prefix|..];
        assert ns.prefix + stripped == k;
        r := r[stripped := items[k]];
        keys := keys - {k};
      }
    }
  }
}

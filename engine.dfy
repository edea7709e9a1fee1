/** The binding layer's operations on an abstract Lua state: the object
    registry and export fence, class registration and member dispatch, the
    call plumbing around lua_pcall, and the stack guard. */
module Luna {
  import opened LuaValues
  import opened Stack
  import opened Codec
  import opened Members
  import opened Calls

  /** registry.__objects__: a table whose metatable has `__mode = mode`,
      mapping object addresses to their proxy tables. */
  datatype ObjectsTable = ObjectsTable(id: nat, mode: string, entries: map<nat, nat>)

  /** registry.__fence__: the addresses marked `true`. */
  datatype FenceTable = FenceTable(id: nat, marks: set<nat>)

  /** registry[meta_name]: a class metatable. */
  datatype ClassMeta = ClassMeta(id: nat, fields: map<string, MetaField>)

  /** The class of the wrapper objects lua_push_function exports; it exports no member. */
  const WrapperClass := ClassInfo("_class_meta:luna_function_wapper", [Terminator()], false)

  function Marks(f: Option<FenceTable>): set<nat> {
    if f.Some? then f.value.marks else {}
  }

  function Entries(o: Option<ObjectsTable>): map<nat, nat> {
    if o.Some? then o.value.entries else map[]
  }

  /** The value lua_rawget pushes for a metatable field. */
  function MetaFieldValue(f: MetaField): Value {
    match f
    case NameField(s) => Str(s)
    case HookField(h) => Func(h)
    case ItemField(it) => ItemPtr(it)
  }

  /** lua_rawset(L, -3) with table `t`, key `k` and value `v` on the stack. */
  function RawSetOn(tables: map<nat, map<Value, Value>>, t: Value, k: Value, v: Value): (r: map<nat, map<Value, Value>>)
    ensures r.Keys == tables.Keys
    ensures forall id :: id in tables && !(t.Table? && t.id == id && k != Nil) ==> r[id] == tables[id]
    ensures t.Table? && t.id in tables && k != Nil ==> r[t.id] == RawSet(tables[t.id], k, v)
  {
    if t.Table? && t.id in tables && k != Nil then tables[t.id := RawSet(tables[t.id], k, v)] else tables
  }

  /** A typed setter writing the data member at `offset` of object `obj`. */
  function WriteSlot(storage: map<nat, map<nat, Slot>>, obj: nat, offset: nat, v: Value): map<nat, map<nat, Slot>> {
    if obj in storage && offset in storage[obj]
    then
      var fields: map<nat, Slot> := storage[obj][offset := SlotWrite(storage[obj][offset], v)];
      storage[obj := fields]
    else storage
  }

  /** The tables that existed keep their fields and whether they have a metatable. */
  ghost predicate KeepsTables(t0: map<nat, map<Value, Value>>, t1: map<nat, map<Value, Value>>,
                              m0: map<nat, string>, m1: map<nat, string>) {
    forall t :: t in t0 ==> t in t1 && t1[t] == t0[t] && (t in m1 <==> t in m0)
  }

  lemma KeepsUnchanged(t0: map<nat, map<Value, Value>>, m0: map<nat, string>)
    ensures KeepsTables(t0, t0, m0, m0)
  {
  }

  /** Adding a fresh table keeps the others. */
  lemma KeepsWithFresh(t0: map<nat, map<Value, Value>>, m0: map<nat, string>, p: nat, fields: map<Value, Value>, name: string)
    requires p !in t0
    ensures KeepsTables(t0, t0[p := fields], m0, m0[p := name])
  {
  }

  /** Every address registered in `e0` is still registered, with the same proxy. */
  ghost predicate KeepsEntries(e0: map<nat, nat>, e1: map<nat, nat>) {
    forall a :: a in e0 ==> a in e1 && e1[a] == e0[a]
  }

  /** Stack `s` is `below` with one slot per argument pushed by
      native_to_lua: a plain value's encoding, nil for a NULL object, and
      the proxy of an object registered in `e`. */
  ghost predicate PushedAs(below: seq<Value>, s: seq<Value>, args: seq<Native>, e: map<nat, nat>) {
    && |s| == |below| + |args| && s[..|below|] == below
    && (forall j :: 0 <= j < |args| && !args[j].NObject? ==> s[|below| + j] == Encode(args[j]))
    && (forall j :: 0 <= j < |args| && args[j].NObject? && args[j].addr == 0 ==> s[|below| + j] == Nil)
    && (forall j :: 0 <= j < |args| && args[j].NObject? && args[j].addr != 0 && args[j].addr in e ==>
          s[|below| + j] == Table(e[args[j].addr]))
  }

  /** One more argument push, made while the entries of `e0` are kept (`e1`). */
  lemma PushedStep(below: seq<Value>, s: seq<Value>, args: seq<Native>, i: nat, v: Value, e0: map<nat, nat>, e1: map<nat, nat>)
    requires i < |args| && PushedAs(below, s, args[..i], e0) && KeepsEntries(e0, e1)
    requires !args[i].NObject? ==> v == Encode(args[i])
    requires args[i].NObject? && args[i].addr == 0 ==> v == Nil
    requires args[i].NObject? && args[i].addr != 0 && args[i].addr in e1 ==> v == Table(e1[args[i].addr])
    ensures PushedAs(below, s + [v], args[..i + 1], e0)
  {
    assert forall j :: 0 <= j < i ==> args[..i + 1][j] == args[..i][j];
    assert (s + [v])[..|below|] == s[..|below|];
  }

  /** Table `t` is a proxy pointing back at address `a`. */
  ghost predicate ProxyIn(tables: map<nat, map<Value, Value>>, t: nat, a: nat) {
    t in tables && Str("__pointer__") in tables[t] && tables[t][Str("__pointer__")] == LightUserdata(a)
  }

  /** The registry and the proxies agree: each entry's proxy points back at
      its address, and a table pointing at an address is that address's
      entry, so there is at most one proxy per address. */
  ghost predicate RegistryAgrees(tables: map<nat, map<Value, Value>>, entries: map<nat, nat>) {
    && (forall a :: a in entries ==> ProxyIn(tables, entries[a], a))
    && (forall t, a :: ProxyIn(tables, t, a) ==> a in entries && entries[a] == t)
  }

  /** At most one proxy per address. */
  lemma OneProxyPerAddress(tables: map<nat, map<Value, Value>>, entries: map<nat, nat>, a: nat, t1: nat, t2: nat)
    requires RegistryAgrees(tables, entries) && ProxyIn(tables, t1, a) && ProxyIn(tables, t2, a)
    ensures t1 == t2
  {
  }

  /** A first export adds a fresh proxy and its entry and keeps the agreement. */
  lemma ExportAgrees(tables: map<nat, map<Value, Value>>, entries: map<nat, nat>, obj: nat, p: nat)
    requires RegistryAgrees(tables, entries) && obj !in entries && p !in tables
    ensures RegistryAgrees(tables[p := map[Str("__pointer__") := LightUserdata(obj)]], entries[obj := p])
  {
    var t2 := tables[p := map[Str("__pointer__") := LightUserdata(obj)]];
    var e2 := entries[obj := p];
    forall a | a in e2 ensures ProxyIn(t2, e2[a], a) {
      if a != obj {
        assert ProxyIn(tables, entries[a], a);
      }
    }
    forall t, a | ProxyIn(t2, t, a) ensures a in e2 && e2[a] == t {
      if t != p {
        assert ProxyIn(tables, t, a);
      }
    }
  }

  /** The tables after lua_detach: the registered proxy of `obj`, if any,
      loses its `__pointer__`. */
  function Severed(tables: map<nat, map<Value, Value>>, entries: map<nat, nat>, obj: nat): map<nat, map<Value, Value>> {
    if obj in entries && entries[obj] in tables
    then tables[entries[obj] := tables[entries[obj]] - {Str("__pointer__")}]
    else tables
  }

  /** Setting a raw field other than `__pointer__` keeps the agreement. */
  lemma FieldSetAgrees(tables: map<nat, map<Value, Value>>, entries: map<nat, nat>, t: nat, k: Value, v: Value)
    requires RegistryAgrees(tables, entries) && t in tables && k != Str("__pointer__")
    ensures RegistryAgrees(tables[t := RawSet(tables[t], k, v)], entries)
  {
    var t2 := tables[t := RawSet(tables[t], k, v)];
    forall a | a in entries ensures ProxyIn(t2, entries[a], a) {
      assert ProxyIn(tables, entries[a], a);
    }
    forall u, a | ProxyIn(t2, u, a) ensures a in entries && entries[a] == u {
      assert ProxyIn(tables, u, a);
    }
  }

  /** Detaching removes the entry and the back-pointer and keeps the agreement;
      afterwards no table points at the address. */
  lemma DetachAgrees(tables: map<nat, map<Value, Value>>, entries: map<nat, nat>, obj: nat)
    requires RegistryAgrees(tables, entries)
    ensures RegistryAgrees(Severed(tables, entries, obj), entries - {obj})
    ensures forall t :: !ProxyIn(Severed(tables, entries, obj), t, obj)
  {
    var t2 := Severed(tables, entries, obj);
    var e2 := entries - {obj};
    forall a | a in e2 ensures ProxyIn(t2, e2[a], a) {
      assert ProxyIn(tables, entries[a], a);
    }
    forall t, a | ProxyIn(t2, t, a) ensures a in e2 && e2[a] == t {
      assert ProxyIn(tables, t, a);
    }
  }

  /** Collecting proxy `p` clears the entries naming it and keeps the agreement. */
  lemma CollectAgrees(tables: map<nat, map<Value, Value>>, entries: map<nat, nat>, p: nat)
    requires RegistryAgrees(tables, entries)
    ensures RegistryAgrees(tables - {p}, WithoutProxy(entries, p))
  {
    var e2 := WithoutProxy(entries, p);
    forall a | a in e2 ensures ProxyIn(tables - {p}, e2[a], a) {
      assert ProxyIn(tables, entries[a], a);
    }
    forall t, a | ProxyIn(tables - {p}, t, a) ensures a in e2 && e2[a] == t {
      assert ProxyIn(tables, t, a);
    }
  }

  /** The registry and tables after lua_detach of `obj`: the entry is gone,
      the proxy severed, and __objects__ itself kept. */
  ghost predicate Unregistered(o0: Option<ObjectsTable>, o1: Option<ObjectsTable>,
                               t0: map<nat, map<Value, Value>>, t1: map<nat, map<Value, Value>>, obj: nat) {
    && (o1.Some? <==> o0.Some?)
    && (o1.Some? ==> o1.value.id == o0.value.id && o1.value.mode == o0.value.mode)
    && Entries(o1) == Entries(o0) - {obj}
    && t1 == Severed(t0, Entries(o0), obj)
  }

  /** The class metatables after lua_push_object made sure `cls` has one:
      an existing one is kept, a missing one is registered with the
      members of `cls`. */
  ghost predicate ClassRegistered(m0: map<string, ClassMeta>, m1: map<string, ClassMeta>, cls: ClassInfo, keep: bool) {
    && cls.metaName in m1
    && (cls.metaName in m0 ==> m1 == m0)
    && (cls.metaName !in m0 ==>
          m1 == m0[cls.metaName := m1[cls.metaName]] && m1[cls.metaName].fields == ClassFields(None, cls, keep))
  }

  /** The first export of `obj` with proxy `top`: one new table holding
      `__pointer__ = obj`, with the class metatable, recorded in __objects__. */
  ghost predicate FreshExport(e0: map<nat, nat>, e1: map<nat, nat>,
                              t0: map<nat, map<Value, Value>>, t1: map<nat, map<Value, Value>>,
                              mt0: map<nat, string>, mt1: map<nat, string>, obj: nat, cls: ClassInfo, top: Value) {
    && top.Table?
    && top.id !in t0
    && t1 == t0[top.id := map[Str("__pointer__") := LightUserdata(obj)]]
    && mt1 == mt0[top.id := cls.metaName]
    && e1 == e0[obj := top.id]
  }

  /** The weak entries that survive the collection of proxy `p`. */
  function WithoutProxy(entries: map<nat, nat>, p: nat): (r: map<nat, nat>)
    ensures forall a :: a in r <==> a in entries && entries[a] != p
    ensures forall a :: a in r ==> r[a] == entries[a]
  {
    map a | a in entries && entries[a] != p :: entries[a]
  }

  /** What running the `__gc` hook of class `hook` does to the object `obj`
      behind the proxy: nothing without a hook or an object; otherwise the
      fence mark goes and the object is finalized by its `__gc` member or
      deleted. */
  ghost predicate GcEffect(hook: Option<ClassInfo>, obj: nat, f0: Option<FenceTable>, f1: Option<FenceTable>,
                           live0: set<nat>, live1: set<nat>, fin0: set<nat>, fin1: set<nat>) {
    && (hook.None? || obj == 0 ==> f1 == f0 && live1 == live0 && fin1 == fin0)
    && (hook.Some? && obj != 0 ==> Marks(f1) == Marks(f0) - {obj})
    && (hook.Some? && obj != 0 && hook.value.hasGc ==> fin1 == fin0 + {obj} && live1 == live0)
    && (hook.Some? && obj != 0 && !hook.value.hasGc ==> live1 == live0 - {obj} && fin1 == fin0)
  }

  /** The results of a successful call as lua_to_native_mutil decodes them:
      each of the values lua_pcall left, adjusted to the count, at its type. */
  ghost predicate Decoded(out: seq<Native>, tables: map<nat, map<Value, Value>>, outcome: PcallOutcome, types: seq<NativeType>) {
    && outcome.PcallOk?
    && |out| == |types|
    && forall i :: 0 <= i < |types| ==> out[i] == Decode(tables, Adjust(outcome.results, |types|)[i], types[i])
  }

  /** The member item a class metatable holds under `key`, if any. */
  function ItemOf(metas: map<string, ClassMeta>, metaName: string, key: string): Option<MemberItem> {
    if metaName in metas && key in metas[metaName].fields && metas[metaName].fields[key].ItemField?
    then Some(metas[metaName].fields[key].item)
    else None
  }

  /** What an item's getter pushes for object `obj`: a data member's value,
      or for a method a closure of _lua_object_bridge over the object and
      the adapter. */
  function GetterValue(storage: map<nat, map<nat, Slot>>, item: MemberItem, obj: nat): Value {
    match item.getter
    case PropertyGetter =>
      if obj in storage && item.offset in storage[obj] then SlotValue(storage[obj][item.offset]) else Nil
    case MethodGetter(a) => Func(ObjectBridge(LightUserdata(obj), AdapterPtr(a)))
    case NoGetter => Nil
  }

  /** The value lua_member_index returns for the frame `proxy, key`: nil for
      a severed or foreign table and for a non-string key; otherwise the
      getter of the item named by the key up to its first NUL. */
  function IndexValue(tables: map<nat, map<Value, Value>>, metas: map<string, ClassMeta>,
                      storage: map<nat, map<nat, Slot>>, frame: seq<Value>, cls: ClassInfo): Value {
    var obj := PointerOf(tables, At(frame, 1));
    var key := LuaToString(At(frame, 2));
    if obj == 0 || key.None? then Nil
    else
      match ItemOf(metas, cls.metaName, UpToNul(key.value))
      case None => Nil
      case Some(item) => GetterValue(storage, item, obj)
  }

  /** The part of the state lua_member_new_index changes. */
  datatype NewIndexState = NewIndexState(stack: seq<Value>, tables: map<nat, map<Value, Value>>, storage: map<nat, map<nat, Slot>>)

  /** lua_member_new_index on the frame `proxy, key, value`: no effect for a
      severed proxy or a non-string key; an unknown name is raw-set on the
      proxy; a read-only item drops the write; a data member's setter
      writes its slot; a method's setter raw-sets the proxy field. */
  function NewIndexStep(metas: map<string, ClassMeta>, cls: ClassInfo, s: seq<Value>,
                        tables: map<nat, map<Value, Value>>, storage: map<nat, map<nat, Slot>>): (r: NewIndexState)
    requires |s| >= 3
    ensures r.tables.Keys == tables.Keys
  {
    var obj := PointerOf(tables, At(s, 1));
    var key := LuaToString(At(s, 2));
    var rawSet := NewIndexState(s[..|s| - 2], RawSetOn(tables, At(s, -3), At(s, -2), At(s, -1)), storage);
    if obj == 0 || key.None? then NewIndexState(s, tables, storage)
    else
      match ItemOf(metas, cls.metaName, key.value)
      case None => rawSet
      case Some(item) =>
        match item.setter
        case NoSetter => NewIndexState(s, tables, storage)
        case PropertySetter => NewIndexState(s, tables, WriteSlot(storage, obj, item.offset, At(s, -1)))
        case MethodSetter => rawSet
  }

  /** Assigning a data member through its proxy and reading it back: the
      read gives what the item's setter stored, or the old value when the
      member is read-only. */
  lemma AssignThenIndex(metas: map<string, ClassMeta>, cls: ClassInfo, tables: map<nat, map<Value, Value>>,
                        storage: map<nat, map<nat, Slot>>, p: nat, key: string, v: Value)
    requires '\0' !in key
    requires PointerOf(tables, Table(p)) != 0
    requires ItemOf(metas, cls.metaName, key).Some?
    requires ItemOf(metas, cls.metaName, key).value.getter.PropertyGetter?
    requires var obj := PointerOf(tables, Table(p));
      obj in storage && ItemOf(metas, cls.metaName, key).value.offset in storage[obj]
    ensures var item := ItemOf(metas, cls.metaName, key).value;
      var slot := storage[PointerOf(tables, Table(p))][item.offset];
      var after := NewIndexStep(metas, cls, [Table(p), Str(key), v], tables, storage);
      var read := IndexValue(after.tables, metas, after.storage, [Table(p), Str(key)], cls);
      && (item.setter.PropertySetter? ==> read == SlotValue(SlotWrite(slot, v)))
      && (item.setter.NoSetter? ==> read == SlotValue(slot))
  {
    UpToNulOfNulFree(key);
  }

  /** With a string member, the value assigned is the value read. */
  lemma AssignStringThenIndex(metas: map<string, ClassMeta>, cls: ClassInfo, tables: map<nat, map<Value, Value>>,
                              storage: map<nat, map<nat, Slot>>, p: nat, key: string, text: string)
    requires '\0' !in key
    requires PointerOf(tables, Table(p)) != 0
    requires ItemOf(metas, cls.metaName, key).Some?
    requires ItemOf(metas, cls.metaName, key).value.getter.PropertyGetter?
    requires ItemOf(metas, cls.metaName, key).value.setter.PropertySetter?
    requires var obj := PointerOf(tables, Table(p));
      obj in storage && ItemOf(metas, cls.metaName, key).value.offset in storage[obj]
      && storage[obj][ItemOf(metas, cls.metaName, key).value.offset].StringSlot?
    ensures var after := NewIndexStep(metas, cls, [Table(p), Str(key), Str(text)], tables, storage);
      IndexValue(after.tables, metas, after.storage, [Table(p), Str(key)], cls) == Str(text)
  {
    AssignThenIndex(metas, cls, tables, storage, p, key, Str(text));
    var slot := storage[PointerOf(tables, Table(p))][ItemOf(metas, cls.metaName, key).value.offset];
    SlotWriteReadBack(slot, Str(text));
  }

  /** An assignment through a live proxy to a name with no item, or to a
      method (whose setter raw-sets), stores the value raw on the proxy,
      where the next lookup finds it before `__index` is consulted. */
  lemma AssignRawSets(metas: map<string, ClassMeta>, cls: ClassInfo, tables: map<nat, map<Value, Value>>,
                      storage: map<nat, map<nat, Slot>>, p: nat, key: string, v: Value)
    requires PointerOf(tables, Table(p)) != 0 && v != Nil
    requires ItemOf(metas, cls.metaName, key).None? || ItemOf(metas, cls.metaName, key).value.setter.MethodSetter?
    ensures var after := NewIndexStep(metas, cls, [Table(p), Str(key), v], tables, storage);
      && after.tables == tables[p := RawSet(tables[p], Str(key), v)]
      && Str(key) in after.tables[p] && after.tables[p][Str(key)] == v
      && after.storage == storage
  {
  }

  /** An assignment that changes nothing: through a severed or foreign
      table, with a non-string key, or to a read-only item. */
  lemma AssignDropped(metas: map<string, ClassMeta>, cls: ClassInfo, tables: map<nat, map<Value, Value>>,
                      storage: map<nat, map<nat, Slot>>, p: nat, k: Value, v: Value)
    requires || PointerOf(tables, Table(p)) == 0
             || !k.Str?
             || (ItemOf(metas, cls.metaName, k.s).Some? && ItemOf(metas, cls.metaName, k.s).value.setter.NoSetter?)
    ensures NewIndexStep(metas, cls, [Table(p), k, v], tables, storage) == NewIndexState([Table(p), k, v], tables, storage)
  {
  }

  class Lua {
    /** LUNA_KEEP_MEMBER_PREFIX */
    const keepPrefix: bool
    /** The current C call frame's stack. */
    var stack: seq<Value>
    var objects: Option<ObjectsTable>
    var fence: Option<FenceTable>
    var metas: map<string, ClassMeta>
    /** The raw fields of proxy tables and of the script's own tables. */
    var tables: map<nat, map<Value, Value>>
    /** The class metatable of each proxy, by meta name. */
    var metatableOf: map<nat, string>
    var globals: map<string, Value>
    /** The next fresh table id. */
    var nextId: nat
    /** Native objects not yet deleted, and those whose `__gc` member ran. */
    var live: set<nat>
    var finalized: set<nat>
    /** The exported data members of each object, by offset. */
    var storage: map<nat, map<nat, Slot>>
    /** The `m_func` of each luna_function_wapper, by its address. */
    var wrappers: map<nat, Adapter>

    constructor (keep: bool)
      ensures Valid() && Consistent() && keepPrefix == keep
      ensures stack == [] && objects.None? && fence.None? && metas == map[] && tables == map[]
    {
      keepPrefix := keep;
      stack, objects, fence, metas := [], None, None, map[];
      tables, metatableOf, globals, nextId := map[], map[], map[], 0;
      live, finalized, storage, wrappers := {}, {}, map[], map[];
    }

    /** Every table id in use was handed out before `nextId`. */
    ghost predicate Valid()
      reads this`tables, this`objects, this`fence, this`metas, this`nextId
    {
      && (forall id :: id in tables ==> id < nextId)
      && (objects.Some? ==> objects.value.id < nextId)
      && (fence.Some? ==> fence.value.id < nextId)
      && (forall n :: n in metas ==> metas[n].id < nextId)
    }

    /** Table `t` is a proxy pointing back at address `a`. */
    ghost predicate ProxyOf(t: nat, a: nat)
      reads this`tables
    {
      ProxyIn(tables, t, a)
    }

    /** The registry and the proxies agree (see RegistryAgrees). */
    ghost predicate Consistent()
      reads this`tables, this`objects
    {
      RegistryAgrees(tables, Entries(objects))
    }

    function ObjectsValue(): Value
      reads this`objects
    {
      if objects.Some? then Table(objects.value.id) else Nil
    }

    function FenceValue(): Value
      reads this`fence
    {
      if fence.Some? then Table(fence.value.id) else Nil
    }

    /** luaL_getmetatable */
    function MetaValue(name: string): Value
      reads this`metas
    {
      if name in metas then Table(metas[name].id) else Nil
    }

    /** lua_getglobal */
    function GlobalValue(name: string): Value
      reads this`globals
    {
      if name in globals then globals[name] else Nil
    }

    /** The class whose lua_object_gc is the `__gc` of table `p`'s metatable. */
    function GcHookOf(p: nat): Option<ClassInfo>
      reads this`metatableOf, this`metas
    {
      if p in metatableOf && metatableOf[p] in metas && "__gc" in metas[metatableOf[p]].fields
         && metas[metatableOf[p]].fields["__gc"].HookField? && metas[metatableOf[p]].fields["__gc"].f.GcHook?
      then Some(metas[metatableOf[p]].fields["__gc"].f.cls)
      else None
    }

    /** The class whose lua_member_index is the `__index` of a metatable. */
    function IndexHookOf(metaName: string): Option<ClassInfo>
      reads this`metas
    {
      if metaName in metas && "__index" in metas[metaName].fields
         && metas[metaName].fields["__index"].HookField? && metas[metaName].fields["__index"].f.IndexHook?
      then Some(metas[metaName].fields["__index"].f.cls)
      else None
    }

    /** lua_getfield on a table: the raw field, or else what the proxy's
        `__index` hook returns. */
    function FieldOf(t: Value, key: string): Value
      reads this`tables, this`metatableOf, this`metas, this`storage
    {
      if !t.Table? then Nil
      else if t.id in tables && Str(key) in tables[t.id] then tables[t.id][Str(key)]
      else if t.id in metatableOf && IndexHookOf(metatableOf[t.id]).Some?
      then IndexValue(tables, metas, storage, [t, Str(key)], IndexHookOf(metatableOf[t.id]).value)
      else Nil
    }

    /** The handler lua_call_function fetches: `debug.traceback`. */
    function TracebackHandler(): Value
      reads this`globals, this`tables
    {
      var d := GlobalValue("debug");
      if d.Table? && d.id in tables && Str("traceback") in tables[d.id] then tables[d.id][Str("traceback")] else Nil
    }

    method Push(v: Value)
      modifies this`stack
      ensures stack == old(stack) + [v]
    {
      stack := stack + [v];
    }

    /** lua_pop */
    method Pop(n: nat)
      requires n <= |stack|
      modifies this`stack
      ensures stack == old(stack)[..|old(stack)| - n]
    {
      stack := stack[..|stack| - n];
    }

    /** lua_newtable's allocation of a fresh table. */
    method NewTable() returns (id: nat)
      modifies this`nextId
      ensures id == old(nextId) && nextId == id + 1
    {
      id := nextId;
      nextId := nextId + 1;
    }

    /** _lua_set_fence: mark `p`, reporting whether it was unmarked; the
        fence table is created on first use. */
    method SetFence(p: nat) returns (ok: bool)
      requires Valid()
      modifies this`fence, this`nextId
      ensures Valid()
      ensures ok == (p !in Marks(old(fence)))
      ensures fence.Some? && Marks(fence) == Marks(old(fence)) + {p}
      ensures old(fence).Some? ==> fence.value.id == old(fence).value.id && nextId == old(nextId)
      ensures old(fence).None? ==> fence.value.id == old(nextId) && nextId == old(nextId) + 1
    {
      // lua_getfield(L, LUA_REGISTRYINDEX, "__fence__"); when that is nil it
      // is popped and a new table is pushed and stored under that name
      if fence.None? {
        var id := NewTable();
        fence := Some(FenceTable(id, {}));
      }
      // lua_rawgetp(L, -1, p) looks the mark up; both values are popped when
      // it is there, otherwise lua_rawsetp(L, -3, p) stores `true` first
      if p in fence.value.marks {
        return false;
      }
      fence := Some(fence.value.(marks := fence.value.marks + {p}));
      return true;
    }

    /** _lua_del_fence: unmark `p`; nothing to do without a fence table. */
    method DelFence(p: nat)
      modifies this`fence
      ensures old(fence).None? ==> fence.None?
      ensures old(fence).Some? ==> fence == Some(old(fence).value.(marks := old(fence).value.marks - {p}))
    {
      // lua_getfield(L, LUA_REGISTRYINDEX, "__fence__") pushes the table, or
      // nil, which is popped at the end
      if fence.None? {
        return;
      }
      fence := Some(fence.value.(marks := fence.value.marks - {p}));  // lua_pushnil, lua_rawsetp(L, -2, p)
    }

    /** lua_to_object: the raw `__pointer__` of the table at `idx`, NULL for
        anything else. */
    method ToObject(idx: int) returns (obj: nat)
      modifies this`stack
      ensures stack == old(stack)
      ensures obj == PointerOf(tables, At(stack, idx))
    {
      var n := NormalIndex(|stack|, idx);
      NormalIndexSameSlot(stack, idx);
      var t := At(stack, n);
      obj := 0;
      if t.Table? {
        Push(Str("__pointer__"));
        var f := if t.id in tables && Str("__pointer__") in tables[t.id] then tables[t.id][Str("__pointer__")] else Nil;
        Pop(1);
        Push(f);                                   // lua_rawget(L, idx)
        obj := ToUserdata(f);
        Pop(1);
      }
    }

    /** The rawsets of lua_register_class on the metatable's fields: the
        three hooks, then each item before the terminator under its visible
        name, in list order. */
    method InstallMembers(ghost existing: Option<map<string, MetaField>>, start: map<string, MetaField>, cls: ClassInfo)
      returns (fields: map<string, MetaField>)
      requires HasTerminator(cls.items)
      requires start == if existing.Some? then existing.value else map["__name" := NameField(cls.metaName)]
      ensures fields == ClassFields(existing, cls, keepPrefix)
    {
      fields := start["__index" := HookField(IndexHook(cls))];
      fields := fields["__newindex" := HookField(NewIndexHook(cls))];
      fields := fields["__gc" := HookField(GcHook(cls))];
      ghost var base := fields;
      assert base == WithHooks(existing, cls);

      var items := cls.items;
      ghost var k :| 0 <= k < |items| && items[k].name.None?;
      var i := 0;
      while items[i].name.Some?
        invariant 0 <= i <= k
        invariant AllNamed(items[..i])
        invariant fields == Install(base, items[..i], keepPrefix)
        decreases k - i
      {
        // "m_xxx" is exported as "xxx"
        InstallStep(base, items, keepPrefix, i);
        AllNamedStep(items, i);
        fields := fields[VisibleName(items[i], keepPrefix) := ItemField(items[i])];
        i := i + 1;
      }
      ExportedUpTo(items, i);
    }

    /** lua_register_class: (re)build the class metatable — the three hooks,
        then every item before the terminator under its visible name — and
        restore the stack top. */
    method RegisterClass(cls: ClassInfo)
      requires Valid() && HasTerminator(cls.items)
      modifies this`stack, this`metas, this`nextId
      ensures Valid() && stack == old(stack)
      ensures cls.metaName in metas
      ensures metas == old(metas)[cls.metaName := metas[cls.metaName]]
      ensures metas[cls.metaName].fields ==
        ClassFields(if cls.metaName in old(metas) then Some(old(metas)[cls.metaName].fields) else None, cls, keepPrefix)
      ensures cls.metaName in old(metas) ==> metas[cls.metaName].id == old(metas)[cls.metaName].id && nextId == old(nextId)
      ensures cls.metaName !in old(metas) ==> metas[cls.metaName].id == old(nextId) && nextId == old(nextId) + 1
    {
      var top := |stack|;
      var name := cls.metaName;
      var existing := if name in metas then Some(metas[name].fields) else None;
      // luaL_newmetatable: a new table holding __name, or the existing one
      var id: nat;
      var fields: map<string, MetaField>;
      if name in metas {
        id, fields := metas[name].id, metas[name].fields;
      } else {
        id := NewTable();
        fields := map["__name" := NameField(name)];
      }
      Push(Table(id));
      fields := InstallMembers(existing, fields, cls);
      metas := metas[name := ClassMeta(id, fields)];
      stack := SetTop(stack, top);
      assert stack == old(stack);
    }

    /** The first half of lua_push_object: push registry.__objects__,
        creating it weak-valued (`__mode = "v"`) on first use. */
    method PushObjectsTable()
      requires Valid()
      modifies this`stack, this`objects, this`nextId
      ensures Valid()
      ensures objects.Some? && stack == old(stack) + [Table(objects.value.id)]
      ensures Entries(objects) == Entries(old(objects))
      ensures old(objects).Some? ==> objects == old(objects) && nextId == old(nextId)
      ensures old(objects).None? ==> objects.value.mode == "v"
    {
      // lua_getfield(L, LUA_REGISTRYINDEX, "__objects__"); when that is nil it
      // is popped, and a new table with a new metatable whose `__mode` is "v"
      // is pushed and stored under that name
      if objects.None? {
        var t := NewTable();
        var _ := NewTable();                       // the metatable
        objects := Some(ObjectsTable(t, "v", map[]));
      }
      Push(ObjectsValue());
    }

    /** The construction half of lua_push_object: a new table holding
        `__pointer__ = obj`, with the class metatable (registering the class
        when its metatable is missing), pushed on the stack. */
    method NewProxy(obj: nat, cls: ClassInfo) returns (p: nat)
      requires Valid() && HasTerminator(cls.items)
      modifies this`stack, this`metas, this`tables, this`metatableOf, this`nextId
      ensures Valid()
      ensures stack == old(stack) + [Table(p)]
      ensures p !in old(tables) && p >= old(nextId)
      ensures tables == old(tables)[p := map[Str("__pointer__") := LightUserdata(obj)]]
      ensures metatableOf == old(metatableOf)[p := cls.metaName]
      ensures ClassRegistered(old(metas), metas, cls, keepPrefix)
    {
      p := NewTable();
      Push(Table(p));                              // lua_newtable
      // lua_pushstring and lua_pushlightuserdata push the key and value
      // that lua_rawset(L, -3) stores and pops
      tables := tables[p := map[Str("__pointer__") := LightUserdata(obj)]];
      // luaL_getmetatable pushes the metatable; when it is nil, it is popped,
      // the class registered, and the metatable fetched again
      if cls.metaName !in metas {
        RegisterClass(cls);
      }
      metatableOf := metatableOf[p := cls.metaName];   // lua_setmetatable(L, -2) pops it
    }

    /** lua_push_object: push an object's proxy, building it on first export. */
    method PushObject(obj: nat, cls: ClassInfo)
      requires Valid() && HasTerminator(cls.items)
      modifies this`stack, this`objects, this`fence, this`metas, this`tables, this`metatableOf, this`nextId
      ensures Valid()
      ensures |stack| == |old(stack)| + 1 && stack[..|old(stack)|] == old(stack)
      // a null pointer is pushed as nil and nothing else happens
      ensures obj == 0 ==>
        && stack[|stack| - 1] == Nil && objects == old(objects) && fence == old(fence)
        && metas == old(metas) && tables == old(tables) && metatableOf == old(metatableOf) && nextId == old(nextId)
      // __objects__ exists afterwards; it is made weak-valued when created here
      ensures obj != 0 ==> objects.Some?
      ensures obj != 0 && old(objects).Some? ==>
        objects.value.id == old(objects).value.id && objects.value.mode == old(objects).value.mode
      ensures obj != 0 && old(objects).None? ==> objects.value.mode == "v"
      // export is idempotent: an existing proxy is pushed and nothing is built
      ensures obj != 0 && obj in Entries(old(objects)) ==>
        && stack[|stack| - 1] == Table(Entries(old(objects))[obj])
        && Entries(objects) == Entries(old(objects)) && fence == old(fence) && metas == old(metas)
        && tables == old(tables) && metatableOf == old(metatableOf)
      // an export already under way: the nil lookup result is pushed and nothing is built
      ensures obj != 0 && obj !in Entries(old(objects)) && obj in Marks(old(fence)) ==>
        && stack[|stack| - 1] == Nil
        && Entries(objects) == Entries(old(objects)) && Marks(fence) == Marks(old(fence)) && metas == old(metas)
        && tables == old(tables) && metatableOf == old(metatableOf)
      // a fresh export: exactly one new proxy, registered, fence left set
      ensures obj != 0 && obj !in Entries(old(objects)) && obj !in Marks(old(fence)) ==>
        && FreshExport(Entries(old(objects)), Entries(objects), old(tables), tables, old(metatableOf), metatableOf,
                       obj, cls, stack[|stack| - 1])
        && Marks(fence) == Marks(old(fence)) + {obj}
        && ClassRegistered(old(metas), metas, cls, keepPrefix)
      ensures KeepsTables(old(tables), tables, old(metatableOf), metatableOf)
      ensures old(Consistent()) ==> Consistent()
    {
      if obj == 0 {
        Push(Nil);
        KeepsUnchanged(tables, metatableOf);
        return;
      }
      PushProxy(obj, cls);
    }

    /** lua_push_object for a non-null pointer. */
    method PushProxy(obj: nat, cls: ClassInfo)
      requires Valid() && HasTerminator(cls.items) && obj != 0
      modifies this`stack, this`objects, this`fence, this`metas, this`tables, this`metatableOf, this`nextId
      ensures Valid()
      ensures |stack| == |old(stack)| + 1 && stack[..|old(stack)|] == old(stack)
      // __objects__ exists afterwards; it is made weak-valued when created here
      ensures objects.Some?
      ensures old(objects).Some? ==>
        objects.value.id == old(objects).value.id && objects.value.mode == old(objects).value.mode
      ensures old(objects).None? ==> objects.value.mode == "v"
      // export is idempotent: an existing proxy is pushed and nothing is built
      ensures obj in Entries(old(objects)) ==>
        && stack[|stack| - 1] == Table(Entries(old(objects))[obj])
        && Entries(objects) == Entries(old(objects)) && fence == old(fence) && metas == old(metas)
        && tables == old(tables) && metatableOf == old(metatableOf)
      // an export already under way: the nil lookup result is pushed and nothing is built
      ensures obj !in Entries(old(objects)) && obj in Marks(old(fence)) ==>
        && stack[|stack| - 1] == Nil
        && Entries(objects) == Entries(old(objects)) && Marks(fence) == Marks(old(fence)) && metas == old(metas)
        && tables == old(tables) && metatableOf == old(metatableOf)
      // a fresh export: exactly one new proxy, registered, fence left set
      ensures obj !in Entries(old(objects)) && obj !in Marks(old(fence)) ==>
        && FreshExport(Entries(old(objects)), Entries(objects), old(tables), tables, old(metatableOf), metatableOf,
                       obj, cls, stack[|stack| - 1])
        && Marks(fence) == Marks(old(fence)) + {obj}
        && ClassRegistered(old(metas), metas, cls, keepPrefix)
      ensures KeepsTables(old(tables), tables, old(metatableOf), metatableOf)
      ensures old(Consistent()) ==> Consistent()
    {
      PushObjectsTable();
      if obj in objects.value.entries {
        // lua_rawgetp(L, -1, obj) pushes the proxy, and lua_remove(L, -2)
        // drops __objects__
        KeepsUnchanged(tables, metatableOf);
        stack := stack[..|stack| - 1] + [Table(objects.value.entries[obj])];
        return;
      }
      ExportUnregistered(obj, cls);
    }

    /** lua_push_object after the registry lookup found nothing, with
        __objects__ on top: lua_rawgetp's nil stays when the fence shows an
        export under way, otherwise a new registered proxy takes its place;
        either way lua_remove(L, -2) then drops __objects__. */
    method ExportUnregistered(obj: nat, cls: ClassInfo)
      requires Valid() && HasTerminator(cls.items) && |stack| >= 1
      requires objects.Some? && obj !in objects.value.entries
      modifies this`stack, this`objects, this`fence, this`metas, this`tables, this`metatableOf, this`nextId
      ensures Valid()
      ensures |stack| == |old(stack)| && stack[..|stack| - 1] == old(stack)[..|stack| - 1]
      ensures objects.Some? && objects.value.id == old(objects).value.id && objects.value.mode == old(objects).value.mode
      ensures Marks(fence) == Marks(old(fence)) + {obj}
      ensures obj in Marks(old(fence)) ==>
        && stack[|stack| - 1] == Nil && objects == old(objects) && metas == old(metas)
        && tables == old(tables) && metatableOf == old(metatableOf)
      ensures obj !in Marks(old(fence)) ==>
        && FreshExport(Entries(old(objects)), Entries(objects), old(tables), tables, old(metatableOf), metatableOf,
                       obj, cls, stack[|stack| - 1])
        && ClassRegistered(old(metas), metas, cls, keepPrefix)
      ensures KeepsTables(old(tables), tables, old(metatableOf), metatableOf)
      ensures old(Consistent()) ==> Consistent()
    {
      ghost var below, objectsTable := stack[..|stack| - 1], stack[|stack| - 1];
      assert stack == below + [objectsTable];
      var ok := SetFence(obj);
      if !ok {
        KeepsUnchanged(tables, metatableOf);
        stack := stack[..|stack| - 1] + [Nil];
        return;
      }
      var p := AddProxy(obj, cls);
      RemoveBelowTop(below, objectsTable, Table(p));
      stack := Remove(stack, -2);
      KeepsWithFresh(old(tables), old(metatableOf), p, map[Str("__pointer__") := LightUserdata(obj)], cls.metaName);
    }

    /** The first export of `obj`: build its proxy and record it in
        registry.__objects__ (whose table is on top of the stack). */
    method AddProxy(obj: nat, cls: ClassInfo) returns (p: nat)
      requires Valid() && HasTerminator(cls.items)
      requires objects.Some? && obj !in objects.value.entries
      modifies this`stack, this`objects, this`metas, this`tables, this`metatableOf, this`nextId
      ensures Valid()
      ensures stack == old(stack) + [Table(p)]
      ensures p !in old(tables)
      ensures tables == old(tables)[p := map[Str("__pointer__") := LightUserdata(obj)]]
      ensures metatableOf == old(metatableOf)[p := cls.metaName]
      ensures objects == Some(old(objects).value.(entries := old(objects).value.entries[obj := p]))
      ensures ClassRegistered(old(metas), metas, cls, keepPrefix)
      ensures old(Consistent()) ==> Consistent()
    {
      p := NewProxy(obj, cls);
      // lua_pushvalue(L, -1) copies the proxy, which lua_rawsetp(L, -3, obj)
      // stores and pops
      objects := Some(objects.value.(entries := objects.value.entries[obj := p]));
      if old(Consistent()) {
        ExportAgrees(old(tables), Entries(old(objects)), obj, p);
      }
    }

    /** lua_detach: clear the fence, sever the proxy's back-pointer and drop
        the registry entry. */
    method Detach(obj: nat)
      requires Valid()
      modifies this`stack, this`fence, this`objects, this`tables
      ensures Valid() && stack == old(stack)
      ensures obj == 0 ==> fence == old(fence) && objects == old(objects) && tables == old(tables)
      ensures obj != 0 ==> Marks(fence) == Marks(old(fence)) - {obj} && (fence.Some? <==> old(fence).Some?)
      ensures obj != 0 ==> Unregistered(old(objects), objects, old(tables), tables, obj)
      ensures old(Consistent()) ==> Consistent()
      ensures old(Consistent()) && obj != 0 ==> forall t :: !ProxyOf(t, obj)
    {
      if obj == 0 {
        return;
      }
      DelFence(obj);
      Unregister(obj);
    }

    /** The registry half of lua_detach. */
    method Unregister(obj: nat)
      requires Valid()
      modifies this`objects, this`tables
      ensures Valid()
      ensures Unregistered(old(objects), objects, old(tables), tables, obj)
      ensures old(Consistent()) ==> Consistent() && forall t :: !ProxyOf(t, obj)
    {
      ghost var tables0, entries0 := tables, Entries(objects);
      // lua_getfield(L, LUA_REGISTRYINDEX, "__objects__") pushes the table
      // these steps work on, and lua_pop(L, 1) removes it at the end
      if objects.Some? {
        var found := if obj in objects.value.entries then Table(objects.value.entries[obj]) else Nil;
        if found.Table? {
          var p := found.id;
          // lua_rawgetp(L, -1, obj), then __pointer__ = nil by lua_rawset(L, -3)
          if p in tables {
            tables := tables[p := RawSet(tables[p], Str("__pointer__"), Nil)];
          }
          // lua_rawsetp(L, -3, obj) with nil
          objects := Some(objects.value.(entries := objects.value.entries - {obj}));
        }
      }
      if old(Consistent()) {
        DetachAgrees(tables0, entries0, obj);
      }
    }

    /** lua_object_gc<T>: for the proxy at index 1, clear the fence and
        destroy the object (its `__gc` member instead when it has one). */
    method ObjectGc(cls: ClassInfo) returns (n: int)
      modifies this`stack, this`fence, this`live, this`finalized
      ensures n == 0 && stack == old(stack)
      ensures (fence.Some? <==> old(fence).Some?) && (fence.Some? ==> fence.value.id == old(fence).value.id)
      ensures var obj := PointerOf(tables, At(stack, 1));
        && (obj == 0 ==> fence == old(fence) && live == old(live) && finalized == old(finalized))
        && (obj != 0 ==> Marks(fence) == Marks(old(fence)) - {obj} && (fence.Some? <==> old(fence).Some?))
        && (obj != 0 && cls.hasGc ==> finalized == old(finalized) + {obj} && live == old(live))
        && (obj != 0 && !cls.hasGc ==> live == old(live) - {obj} && finalized == old(finalized))
    {
      var obj := ToObject(1);
      if obj == 0 {
        return 0;
      }
      DelFence(obj);
      if cls.hasGc {
        finalized := finalized + {obj};             // obj->__gc()
      } else {
        live := live - {obj};                       // delete obj
      }
      return 0;
    }

    /** The collector reclaiming proxy `p`: its weak registry entry is
        cleared, the metatable's `__gc` hook runs on it, and the table goes. */
    method Collect(p: nat)
      requires Valid()
      modifies this`stack, this`objects, this`fence, this`live, this`finalized, this`tables, this`metatableOf
      ensures Valid() && stack == old(stack)
      ensures tables == old(tables) - {p} && metatableOf == old(metatableOf) - {p}
      ensures objects.Some? <==> old(objects).Some?
      ensures Entries(objects) == WithoutProxy(Entries(old(objects)), p)
      ensures GcEffect(old(GcHookOf(p)), PointerOf(old(tables), Table(p)),
                       old(fence), fence, old(live), live, old(finalized), finalized)
      ensures old(Consistent()) ==> Consistent()
    {
      ghost var tables0, entries0 := tables, Entries(objects);
      if objects.Some? {
        objects := Some(objects.value.(entries := WithoutProxy(objects.value.entries, p)));
      }
      RunGcHook(p);
      tables := tables - {p};
      metatableOf := metatableOf - {p};
      if old(Consistent()) {
        CollectAgrees(tables0, entries0, p);
      }
    }

    /** The collector calling the `__gc` metamethod of `p`, if it has the
        binding layer's, in a frame holding just `p`. */
    method RunGcHook(p: nat)
      modifies this`stack, this`fence, this`live, this`finalized
      ensures stack == old(stack)
      ensures (fence.Some? <==> old(fence).Some?) && (fence.Some? ==> fence.value.id == old(fence).value.id)
      ensures GcEffect(GcHookOf(p), PointerOf(tables, Table(p)), old(fence), fence, old(live), live, old(finalized), finalized)
    {
      var hook := GcHookOf(p);
      if hook.Some? {
        var saved := stack;
        stack := [Table(p)];
        var _ := ObjectGc(hook.value);
        stack := saved;
      }
    }

    /** lua_member_index<T>: the `__index` hook, for the frame `proxy, key`. */
    method MemberIndex(cls: ClassInfo) returns (n: int)
      modifies this`stack
      ensures n == 1 && |stack| >= 1 && stack[|stack| - 1] == IndexValue(tables, metas, storage, old(stack), cls)
    {
      ghost var frame := stack;
      var obj := ToObject(1);
      if obj == 0 {
        Push(Nil);
        return 1;
      }
      var key := LuaToString(At(stack, 2));
      if key.None? {
        Push(Nil);
        return 1;
      }
      var k := UpToNul(key.value);
      Push(MetaValue(cls.metaName));                 // luaL_getmetatable
      Push(Str(k));                                  // lua_pushstring(L, key)
      var got := if cls.metaName in metas && k in metas[cls.metaName].fields
                 then MetaFieldValue(metas[cls.metaName].fields[k]) else Nil;
      Pop(1);
      Push(got);                                     // lua_rawget(L, -2)
      if !got.ItemPtr? {                             // lua_touserdata yields NULL
        Push(Nil);
        return 1;
      }
      assert ItemOf(metas, cls.metaName, k) == Some(got.item);
      stack := SetTop(stack, 2);
      Push(GetterValue(storage, got.item, obj));              // item->getter(L, obj, addr)
      return 1;
    }

    /** lua_member_new_index<T>: the `__newindex` hook, for the frame
        `proxy, key, value` the engine passes. */
    method MemberNewIndex(cls: ClassInfo) returns (n: int)
      requires |stack| >= 3
      modifies this`stack, this`tables, this`storage
      ensures n == 0
      ensures NewIndexState(stack, tables, storage) == NewIndexStep(metas, cls, old(stack), old(tables), old(storage))
    {
      var obj := ToObject(1);
      if obj == 0 {
        return 0;
      }
      var key := LuaToString(At(stack, 2));
      if key.None? {
        return 0;
      }
      // luaL_getmetatable, lua_pushvalue(L, 2), lua_rawget(L, -2), lua_pop(L, 2)
      var got := if cls.metaName in metas && key.value in metas[cls.metaName].fields
                 then MetaFieldValue(metas[cls.metaName].fields[key.value]) else Nil;
      if !got.ItemPtr? {
        RawSetTop();
        return 0;
      }
      assert ItemOf(metas, cls.metaName, key.value) == Some(got.item);
      var item := got.item;
      match item.setter {
        case NoSetter =>
        case PropertySetter =>
          storage := WriteSlot(storage, obj, item.offset, At(stack, -1));
        case MethodSetter =>
          RawSetTop();
      }
      return 0;
    }

    /** lua_rawset(L, -3): set the table below the top two values. */
    method RawSetTop()
      requires |stack| >= 3
      modifies this`stack, this`tables
      ensures stack == old(stack)[..|old(stack)| - 2]
      ensures tables == RawSetOn(old(tables), At(old(stack), -3), At(old(stack), -2), At(old(stack), -1))
    {
      tables := RawSetOn(tables, At(stack, -3), At(stack, -2), At(stack, -1));
      Pop(2);
    }

    /** lua_call_function: call the function below the top `argc` values
        with `debug.traceback` as handler; `outcome` is what lua_pcall did. */
    method CallFunction(errPtr: bool, argc: nat, retc: nat, outcome: PcallOutcome) returns (ok: bool, err: Option<string>)
      modifies this`stack
      ensures var f := |old(stack)| - argc;
        (f <= 0 || !At(old(stack), f).Func?) ==> !ok && err.None? && stack == old(stack)
      ensures var f := |old(stack)| - argc;
        f > 0 && At(old(stack), f).Func? && outcome.PcallOk? ==>
          && ok && err.None?
          && stack == old(stack)[..f - 1] + Adjust(outcome.results, retc)
          && |stack| == |old(stack)| - argc - 1 + retc
      ensures var f := |old(stack)| - argc;
        f > 0 && At(old(stack), f).Func? && outcome.PcallError? ==>
          && !ok
          && stack == old(stack)[..f - 1] + [TracebackHandler(), outcome.message]
          && err == if errPtr then Some(MessageText(outcome.message)) else None
    {
      var funcIdx := |stack| - argc;
      if funcIdx <= 0 || !At(stack, funcIdx).Func? {
        return false, None;
      }
      ok, err := ProtectedCall(errPtr, funcIdx, retc, outcome);
    }

    /** lua_call_function once the callee at `funcIdx` is known to be a function. */
    method ProtectedCall(errPtr: bool, funcIdx: int, retc: nat, outcome: PcallOutcome) returns (ok: bool, err: Option<string>)
      requires 1 <= funcIdx <= |stack|
      modifies this`stack
      ensures outcome.PcallOk? ==>
        ok && err.None? && stack == old(stack)[..funcIdx - 1] + Adjust(outcome.results, retc)
      ensures outcome.PcallError? ==>
        && !ok
        && stack == old(stack)[..funcIdx - 1] + [TracebackHandler(), outcome.message]
        && err == if errPtr then Some(MessageText(outcome.message)) else None
    {
      ghost var s0 := stack;
      var handler := PushHandler(funcIdx);
      match outcome {
        case PcallError(msg) =>
          // lua_pcall(L, arg_count, ret_count, func_idx) raised: the message is left above the handler
          stack := stack[..funcIdx] + [msg];
          err := if errPtr then Some(MessageText(msg)) else None;   // *err = lua_tostring(L, -1)
          return false, err;
        case PcallOk(results) =>
          // lua_pcall returned: the function and arguments are replaced by the results
          stack := stack[..funcIdx] + Adjust(results, retc);
          RemoveBelow(s0[..funcIdx - 1], handler, Adjust(results, retc));
          stack := Remove(stack, -(retc as int) - 1);   // remove 'traceback'
          return true, None;
      }
    }

    /** The setup of lua_call_function: fetch `debug.traceback` and insert it
        at `funcIdx`, below the function. */
    method PushHandler(funcIdx: int) returns (handler: Value)
      requires 1 <= funcIdx <= |stack|
      modifies this`stack
      ensures handler == TracebackHandler()
      ensures stack == old(stack)[..funcIdx - 1] + [handler] + old(stack)[funcIdx - 1..]
      ensures stack[..funcIdx] == old(stack)[..funcIdx - 1] + [handler]
    {
      ghost var s0 := stack;
      handler := TracebackHandler();
      // lua_getglobal(L, "debug") and lua_getfield(L, -1, "traceback") push
      // the table and its field, and lua_remove(L, -2) drops the table
      Push(handler);
      InsertTopAt(s0, handler, funcIdx);
      stack := Insert(stack, funcIdx);
      assert stack[..funcIdx] == s0[..funcIdx - 1] + [handler];
    }

    /** lua_get_table_function: push `table.function`, or the non-table
        global when `table` is not a table; true only for a function. */
    method GetTableFunction(table: string, member: string) returns (ok: bool)
      requires '\0' !in table && '\0' !in member
      modifies this`stack
      ensures |stack| == |old(stack)| + 1 && stack[..|old(stack)|] == old(stack)
      ensures !GlobalValue(table).Table? ==> !ok && stack[|stack| - 1] == GlobalValue(table)
      ensures GlobalValue(table).Table? ==>
        stack[|stack| - 1] == FieldOf(GlobalValue(table), member) && ok == stack[|stack| - 1].Func?
    {
      var g := GlobalValue(table);
      Push(g);                                     // lua_getglobal(L, table)
      if !g.Table? {
        return false;
      }
      Push(FieldOf(g, member));                  // lua_getfield(L, -1, member)
      stack := Remove(stack, -2);
      return stack[|stack| - 1].Func?;
    }

    /** lua_push_object as lua_get_object_function sees it: the pushed value
        is the proxy registered for `obj` afterwards, or nil. */
    method PushObjectValue(obj: nat, cls: ClassInfo) returns (v: Value)
      requires Valid() && HasTerminator(cls.items)
      modifies this`stack, this`objects, this`fence, this`metas, this`tables, this`metatableOf, this`nextId
      ensures Valid() && (old(Consistent()) ==> Consistent())
      ensures stack == old(stack) + [v]
      ensures obj == 0 ==> v == Nil
      ensures obj != 0 && obj in Entries(old(objects)) ==>
        && Entries(objects) == Entries(old(objects))
        && tables == old(tables) && metas == old(metas) && metatableOf == old(metatableOf)
      ensures obj != 0 && obj !in Entries(old(objects)) && obj in Marks(old(fence)) ==>
        Entries(objects) == Entries(old(objects))
      ensures obj != 0 && obj in Entries(objects) ==> v == Table(Entries(objects)[obj])
      ensures obj != 0 && obj !in Entries(objects) ==> v == Nil
      ensures KeepsTables(old(tables), tables, old(metatableOf), metatableOf)
      ensures KeepsEntries(Entries(old(objects)), Entries(objects))
    {
      ghost var s0 := stack;
      PushObject(obj, cls);
      v := stack[|stack| - 1];
      assert stack == s0 + [v];
    }

    /** lua_get_object_function: push the object's proxy, then its field
        `member` in place of it when the proxy is a table. */
    method GetObjectFunction(obj: nat, cls: ClassInfo, member: string) returns (ok: bool)
      requires Valid() && HasTerminator(cls.items) && '\0' !in member
      modifies this`stack, this`objects, this`fence, this`metas, this`tables, this`metatableOf, this`nextId
      ensures Valid() && (old(Consistent()) ==> Consistent())
      ensures |stack| == |old(stack)| + 1 && stack[..|old(stack)|] == old(stack)
      ensures ok == stack[|stack| - 1].Func?
      ensures obj == 0 ==> !ok && stack[|stack| - 1] == Nil
      ensures obj != 0 && obj in Entries(old(objects)) ==>
        && stack[|stack| - 1] == FieldOf(Table(Entries(old(objects))[obj]), member)
        && tables == old(tables) && metas == old(metas) && metatableOf == old(metatableOf)
      // after a fresh export as well: the field of the proxy now registered
      ensures obj != 0 && obj in Entries(objects) ==>
        stack[|stack| - 1] == FieldOf(Table(Entries(objects)[obj]), member)
      // an export under way pushes nil and fails
      ensures obj != 0 && obj !in Entries(objects) ==> !ok && stack[|stack| - 1] == Nil
      ensures obj != 0 && obj !in Entries(old(objects)) && obj in Marks(old(fence)) ==> !ok && stack[|stack| - 1] == Nil
      ensures KeepsTables(old(tables), tables, old(metatableOf), metatableOf)
      ensures KeepsEntries(Entries(old(objects)), Entries(objects))
    {
      var v := PushObjectValue(obj, cls);
      if !v.Table? {
        return false;
      }
      // lua_getfield(L, -1, member) pushes the field, and lua_remove(L, -2)
      // drops the proxy
      var field := FieldOf(v, member);
      stack := stack[..|stack| - 1] + [field];
      return field.Func?;
    }

    /** native_to_lua<T>: object pointers go through lua_push_object. */
    method NativeToLua(v: Native)
      requires Valid() && (v.NObject? ==> HasTerminator(v.cls.items))
      modifies this`stack, this`objects, this`fence, this`metas, this`tables, this`metatableOf, this`nextId
      ensures Valid() && (old(Consistent()) ==> Consistent())
      ensures |stack| == |old(stack)| + 1 && stack[..|old(stack)|] == old(stack)
      ensures !v.NObject? ==>
        && stack[|stack| - 1] == Encode(v) && tables == old(tables) && objects == old(objects)
        && fence == old(fence) && metas == old(metas) && metatableOf == old(metatableOf)
      // an object pointer: NULL pushes nil, otherwise its registered proxy, or nil when an export is under way
      ensures v.NObject? && v.addr == 0 ==> stack[|stack| - 1] == Nil
      ensures v.NObject? && v.addr != 0 && v.addr in Entries(objects) ==>
        stack[|stack| - 1] == Table(Entries(objects)[v.addr])
      ensures v.NObject? && v.addr != 0 && v.addr !in Entries(objects) ==> stack[|stack| - 1] == Nil
      ensures v.NObject? && v.addr != 0 && v.addr in Entries(old(objects)) ==>
        stack[|stack| - 1] == Table(Entries(old(objects))[v.addr])
      ensures KeepsTables(old(tables), tables, old(metatableOf), metatableOf)
      ensures KeepsEntries(Entries(old(objects)), Entries(objects))
    {
      if v.NObject? {
        PushObject(v.addr, v.cls);
      } else {
        Push(Encode(v));
      }
    }

    /** The argument pushes of the lua_call_*_function wrappers, in order. */
    method PushArgs(args: seq<Native>)
      requires Valid() && forall a :: a in args && a.NObject? ==> HasTerminator(a.cls.items)
      modifies this`stack, this`objects, this`fence, this`metas, this`tables, this`metatableOf, this`nextId
      ensures Valid() && (old(Consistent()) ==> Consistent())
      ensures |stack| == |old(stack)| + |args| && stack[..|old(stack)|] == old(stack)
      ensures forall j :: 0 <= j < |args| && !args[j].NObject? ==> stack[|old(stack)| + j] == Encode(args[j])
      ensures forall j :: 0 <= j < |args| && args[j].NObject? && args[j].addr == 0 ==> stack[|old(stack)| + j] == Nil
      ensures forall j :: 0 <= j < |args| && args[j].NObject? && args[j].addr != 0 && args[j].addr in Entries(old(objects)) ==>
        stack[|old(stack)| + j] == Table(Entries(old(objects))[args[j].addr])
      ensures (forall j :: 0 <= j < |args| ==> !args[j].NObject?) ==> stack == old(stack) + EncodeAll(args)
      ensures KeepsTables(old(tables), tables, old(metatableOf), metatableOf)
      ensures KeepsEntries(Entries(old(objects)), Entries(objects))
    {
      var i := 0;
      while i < |args|
        invariant 0 <= i <= |args|
        invariant Valid() && (old(Consistent()) ==> Consistent())
        invariant PushedAs(old(stack), stack, args[..i], Entries(old(objects)))
        invariant KeepsTables(old(tables), tables, old(metatableOf), metatableOf)
        invariant KeepsEntries(Entries(old(objects)), Entries(objects))
      {
        assert args[i] in args;
        ghost var s1, e1 := stack, Entries(objects);
        NativeToLua(args[i]);
        assert stack == s1 + [stack[|stack| - 1]];
        PushedStep(old(stack), s1, args, i, stack[|stack| - 1], Entries(old(objects)), e1);
        i := i + 1;
      }
      assert args[..i] == args;
      if forall j :: 0 <= j < |args| ==> !args[j].NObject? {
        assert stack == old(stack) + EncodeAll(args) by {
          forall k | 0 <= k < |stack| ensures stack[k] == (old(stack) + EncodeAll(args))[k] {
            if k >= |old(stack)| {
              assert stack[|old(stack)| + (k - |old(stack)|)] == Encode(args[k - |old(stack)|]);
            } else {
              assert stack[..|old(stack)|][k] == old(stack)[k];
            }
          }
        }
      }
    }

    /** The call adapters (lua_adapter): decode the arguments, run the
        native callable (whose result is `ret`), push its result; a raw
        function pushes `rawPushed` and returns `rawCount` itself. */
    method CallAdapter(a: Adapter, ret: Native, rawPushed: seq<Value>, rawCount: int) returns (args: seq<Native>, n: int)
      requires Valid() && (ret.NObject? ==> HasTerminator(ret.cls.items))
      modifies this`stack, this`objects, this`fence, this`metas, this`tables, this`metatableOf, this`nextId
      ensures Valid() && (old(Consistent()) ==> Consistent())
      ensures n == ReturnCount(a, rawCount)
      ensures a.Typed? ==>
        && args == ArgumentsOf(old(tables), old(stack), a.params)
        && |stack| == |old(stack)| + n && stack[..|old(stack)|] == old(stack)
      ensures a.Typed? && a.returnsValue && !ret.NObject? ==> stack == old(stack) + [Encode(ret)]
      ensures a.Typed? && a.returnsValue && ret.NObject? && ret.addr == 0 ==> stack == old(stack) + [Nil]
      ensures a.Typed? && a.returnsValue && ret.NObject? && ret.addr != 0 && ret.addr in Entries(old(objects)) ==>
        stack == old(stack) + [Table(Entries(old(objects))[ret.addr])]
      ensures a.Typed? && !a.returnsValue ==> stack == old(stack)
      ensures a.Raw? ==> args == [] && stack == old(stack) + rawPushed
      ensures KeepsTables(old(tables), tables, old(metatableOf), metatableOf)
      ensures KeepsEntries(Entries(old(objects)), Entries(objects))
    {
      match a {
        case Typed(params, returnsValue) =>
          args := ArgumentsOf(tables, stack, params);
          if returnsValue {
            NativeToLua(ret);
            n := 1;
          } else {
            n := 0;
          }
        case Raw =>
          args := [];
          stack := stack + rawPushed;
          n := rawCount;
      }
    }

    /** _lua_object_bridge: with a bound object and adapter as upvalues,
        run the adapter; with either one NULL, return 0 and do nothing. */
    method ObjectBridgeCall(upObj: Value, upAdapter: Value, ret: Native, rawPushed: seq<Value>, rawCount: int) returns (n: int)
      requires Valid() && (ret.NObject? ==> HasTerminator(ret.cls.items))
      modifies this`stack, this`objects, this`fence, this`metas, this`tables, this`metatableOf, this`nextId
      ensures Valid() && (old(Consistent()) ==> Consistent())
      ensures ToUserdata(upObj) == 0 || ToUserdata(upAdapter) == 0 ==>
        && n == 0 && stack == old(stack) && tables == old(tables) && objects == old(objects) && fence == old(fence)
        && metas == old(metas) && metatableOf == old(metatableOf) && nextId == old(nextId)
      ensures ToUserdata(upObj) != 0 && upAdapter.AdapterPtr? ==> n == ReturnCount(upAdapter.adapter, rawCount)
      ensures KeepsTables(old(tables), tables, old(metatableOf), metatableOf)
      ensures KeepsEntries(Entries(old(objects)), Entries(objects))
    {
      var obj := ToUserdata(upObj);
      var func := ToUserdata(upAdapter);
      if obj != 0 && func != 0 && upAdapter.AdapterPtr? {
        var _, count := CallAdapter(upAdapter.adapter, ret, rawPushed, rawCount);
        return count;
      }
      return 0;
    }

    /** lua_global_bridge: run the `m_func` of the wrapper object the
        upvalue proxy points at; 0 when it points at none. */
    method GlobalBridgeCall(upWrapper: Value, ret: Native, rawPushed: seq<Value>, rawCount: int) returns (n: int)
      requires Valid() && (ret.NObject? ==> HasTerminator(ret.cls.items))
      modifies this`stack, this`objects, this`fence, this`metas, this`tables, this`metatableOf, this`nextId
      ensures Valid() && (old(Consistent()) ==> Consistent())
      ensures PointerOf(old(tables), upWrapper) == 0 ==>
        && n == 0 && stack == old(stack) && tables == old(tables) && objects == old(objects) && fence == old(fence)
        && metas == old(metas) && metatableOf == old(metatableOf) && nextId == old(nextId)
      ensures var w := PointerOf(old(tables), upWrapper);
        w != 0 && w in wrappers ==> n == ReturnCount(wrappers[w], rawCount)
      ensures KeepsTables(old(tables), tables, old(metatableOf), metatableOf)
      ensures KeepsEntries(Entries(old(objects)), Entries(objects))
    {
      var w := PointerOf(tables, upWrapper);          // lua_to_object(L, lua_upvalueindex(1))
      if w != 0 && w in wrappers {
        var _, count := CallAdapter(wrappers[w], ret, rawPushed, rawCount);
        return count;
      }
      return 0;
    }

    /** lua_push_function: wrap `f` in a new luna_function_wapper at the
        fresh address `w`, export it, and push a lua_global_bridge closure
        over its proxy. */
    method PushFunction(w: nat, f: Adapter)
      requires Valid() && w != 0 && w !in live
      modifies this`stack, this`objects, this`fence, this`metas, this`tables, this`metatableOf, this`nextId,
        this`live, this`wrappers
      ensures Valid() && (old(Consistent()) ==> Consistent())
      ensures live == old(live) + {w} && wrappers == old(wrappers)[w := f]
      ensures |stack| == |old(stack)| + 1 && stack[..|old(stack)|] == old(stack)
      ensures stack[|stack| - 1].Func? && stack[|stack| - 1].f.GlobalBridge?
      ensures w !in Entries(old(objects)) && w !in Marks(old(fence)) ==>
        var proxy := stack[|stack| - 1].f.wrapper;
        proxy.Table? && proxy.id !in old(tables) && PointerOf(tables, proxy) == w
      ensures KeepsTables(old(tables), tables, old(metatableOf), metatableOf)
    {
      live := live + {w};                           // new luna_function_wapper(func)
      wrappers := wrappers[w := f];
      var proxy := ExportWrapper(w);
      Pop(1);
      Push(Func(GlobalBridge(proxy)));              // lua_pushcclosure(L, lua_global_bridge, 1)
    }

    /** The lua_push_object(L, wrapper) step of lua_push_function. */
    method ExportWrapper(w: nat) returns (proxy: Value)
      requires Valid() && w != 0
      modifies this`stack, this`objects, this`fence, this`metas, this`tables, this`metatableOf, this`nextId
      ensures Valid() && (old(Consistent()) ==> Consistent())
      ensures stack == old(stack) + [proxy]
      ensures w !in Entries(old(objects)) && w !in Marks(old(fence)) ==>
        proxy.Table? && proxy.id !in old(tables) && PointerOf(tables, proxy) == w
      ensures KeepsTables(old(tables), tables, old(metatableOf), metatableOf)
    {
      assert WrapperClass.items[0].name.None?;
      ghost var s0 := stack;
      PushObject(w, WrapperClass);
      proxy := stack[|stack| - 1];
      assert stack == s0 + [proxy];
    }

    /** lua_register_function: push the function and store it as a global. */
    method RegisterFunction(name: string, w: nat, f: Adapter)
      requires Valid() && w != 0 && w !in live && '\0' !in name
      modifies this`stack, this`objects, this`fence, this`metas, this`tables, this`metatableOf, this`nextId,
        this`live, this`wrappers, this`globals
      ensures Valid() && (old(Consistent()) ==> Consistent())
      ensures stack == old(stack)
      ensures name in globals && globals == old(globals)[name := globals[name]]
      ensures globals[name].Func? && globals[name].f.GlobalBridge?
      ensures live == old(live) + {w} && wrappers == old(wrappers)[w := f]
      // the closure's upvalue is the proxy of the new wrapper
      ensures w !in Entries(old(objects)) && w !in Marks(old(fence)) ==> PointerOf(tables, globals[name].f.wrapper) == w
      ensures KeepsTables(old(tables), tables, old(metatableOf), metatableOf)
    {
      PushFunction(w, f);
      globals := globals[name := stack[|stack| - 1]];   // lua_setglobal
      Pop(1);
    }

    /** The lua_CFunction overload of lua_push_function: the C function is
        pushed as it is, without a wrapper object. */
    method PushCFunction(id: nat)
      modifies this`stack
      ensures stack == old(stack) + [Func(CFunction(id))]
    {
      Push(Func(CFunction(id)));                   // lua_pushcfunction
    }

    /** lua_get_global_function: push the global, true when it is a function. */
    method GetGlobalFunction(member: string) returns (ok: bool)
      requires '\0' !in member
      modifies this`stack
      ensures stack == old(stack) + [GlobalValue(member)]
      ensures ok == GlobalValue(member).Func?
    {
      Push(GlobalValue(member));                   // lua_getglobal
      return GlobalValue(member).Func?;
    }

    /** The class whose lua_member_new_index is the `__newindex` of table `t`'s metatable. */
    function NewIndexHookOf(t: nat): Option<ClassInfo>
      reads this`metatableOf, this`metas
    {
      if t in metatableOf && metatableOf[t] in metas && "__newindex" in metas[metatableOf[t]].fields
         && metas[metatableOf[t]].fields["__newindex"].HookField? && metas[metatableOf[t]].fields["__newindex"].f.NewIndexHook?
      then Some(metas[metatableOf[t]].fields["__newindex"].f.cls)
      else None
    }

    /** lua_setfield(L, idx, name) with the value on top, popped: a raw set,
        unless `t` is a proxy lacking that raw field, whose `__newindex` hook
        then runs on the frame `proxy, name, value`. */
    method SetField(t: Value, name: string)
      requires |stack| >= 1 && '\0' !in name
      modifies this`stack, this`tables, this`storage
      ensures stack == old(stack)[..|old(stack)| - 1]
      ensures var v := old(stack)[|old(stack)| - 1];
        t.Table? && t.id in old(tables) && (Str(name) in old(tables)[t.id] || NewIndexHookOf(t.id).None?) ==>
          tables == old(tables)[t.id := RawSet(old(tables)[t.id], Str(name), v)] && storage == old(storage)
      ensures var v := old(stack)[|old(stack)| - 1];
        t.Table? && t.id in old(tables) && Str(name) !in old(tables)[t.id] && NewIndexHookOf(t.id).Some? ==>
          var after := NewIndexStep(metas, NewIndexHookOf(t.id).value, [t, Str(name), v], old(tables), old(storage));
          tables == after.tables && storage == after.storage
      ensures !(t.Table? && t.id in old(tables)) ==> tables == old(tables) && storage == old(storage)
      ensures tables.Keys == old(tables).Keys
      // only a `__pointer__` assignment can touch a proxy's back-pointer
      ensures old(Consistent()) && name != "__pointer__" ==> Consistent()
    {
      var v := stack[|stack| - 1];
      stack := stack[..|stack| - 1];               // the value is popped
      if t.Table? && t.id in tables {
        var hook := NewIndexHookOf(t.id);
        if Str(name) in tables[t.id] || hook.None? {
          RawField(t.id, Str(name), v);
        } else {
          NewIndexCall(t, name, v, hook.value);
        }
      }
    }

    /** The raw store lua_setfield makes when no `__newindex` hook applies. */
    method RawField(t: nat, k: Value, v: Value)
      requires t in tables
      modifies this`tables
      ensures tables == old(tables)[t := RawSet(old(tables)[t], k, v)]
      ensures old(Consistent()) && k != Str("__pointer__") ==> Consistent()
    {
      if Consistent() && k != Str("__pointer__") {
        FieldSetAgrees(tables, Entries(objects), t, k, v);
      }
      tables := tables[t := RawSet(tables[t], k, v)];
    }

    /** The engine running a proxy's `__newindex` hook on the frame
        `proxy, name, value`, then returning to the caller's frame. */
    method NewIndexCall(t: Value, name: string, v: Value, cls: ClassInfo)
      requires t.Table? && t.id in tables
      modifies this`stack, this`tables, this`storage
      ensures stack == old(stack)
      ensures var after := NewIndexStep(metas, cls, [t, Str(name), v], old(tables), old(storage));
        tables == after.tables && storage == after.storage
      ensures old(Consistent()) && name != "__pointer__" ==> Consistent()
    {
      var saved := stack;
      stack := [t, Str(name), v];
      var _ := MemberNewIndex(cls);
      stack := saved;
      if old(Consistent()) && name != "__pointer__" {
        FieldSetAgrees(old(tables), Entries(objects), t.id, Str(name), v);
        assert tables == old(tables) || tables == old(tables)[t.id := RawSet(old(tables)[t.id], Str(name), v)];
      }
    }

    /** lua_set_table_function: store a pushed function as field `name` of
        the table at `idx`. */
    method SetTableFunction(idx: int, name: string, w: nat, f: Adapter)
      requires Valid() && w != 0 && w !in live && ValidIndex(|stack|, idx) && '\0' !in name
      modifies this`stack, this`objects, this`fence, this`metas, this`tables, this`metatableOf, this`nextId,
        this`live, this`wrappers, this`storage
      ensures Valid() && stack == old(stack)
      ensures old(Consistent()) && name != "__pointer__" ==> Consistent()
      ensures live == old(live) + {w} && wrappers == old(wrappers)[w := f]
      ensures var t := At(old(stack), idx);
        t.Table? && t.id in old(tables) && t.id !in old(metatableOf) ==>
          && t.id in tables && Str(name) in tables[t.id]
          && tables[t.id][Str(name)].Func? && tables[t.id][Str(name)].f.GlobalBridge?
      // the closure's upvalue is the proxy of the new wrapper
      ensures var t := At(old(stack), idx);
        t.Table? && t.id in old(tables) && t.id !in old(metatableOf) && w !in Entries(old(objects)) && w !in Marks(old(fence)) ==>
          PointerOf(tables, tables[t.id][Str(name)].f.wrapper) == w
    {
      ghost var s0 := stack;
      var i := NormalIndex(|stack|, idx);          // lua_normal_index
      PushFunction(w, f);
      NormalIndexSurvivesPush(s0, [stack[|stack| - 1]], idx);
      assert stack == s0 + [stack[|stack| - 1]];
      StoreTop(i, name);
    }

    /** lua_setfield(L, i, name) at a normalised index, for a table without
        a metatable: the raw set of the popped value. */
    method StoreTop(i: int, name: string)
      requires 1 <= i < |stack| && '\0' !in name
      modifies this`stack, this`tables, this`storage
      ensures stack == old(stack)[..|old(stack)| - 1] && tables.Keys == old(tables).Keys
      ensures old(Consistent()) && name != "__pointer__" ==> Consistent()
      ensures var t := old(stack)[i - 1];
        t.Table? && t.id in old(tables) && t.id !in metatableOf ==>
          tables == old(tables)[t.id := RawSet(old(tables)[t.id], Str(name), old(stack)[|old(stack)| - 1])]
    {
      SetField(At(stack, i), name);
    }

    /** lua_register_function with a `lua_CFunction`: the inner
        lua_push_function resolves to the plain overload, so the global is the
        bare C function, with no wrapper object exported. */
    method RegisterCFunction(name: string, id: nat)
      requires '\0' !in name
      modifies this`stack, this`globals
      ensures stack == old(stack)
      ensures globals == old(globals)[name := Func(CFunction(id))]
    {
      PushCFunction(id);
      globals := globals[name := stack[|stack| - 1]];   // lua_setglobal
      Pop(1);
    }

    /** lua_set_table_function with a `lua_CFunction`: the bare C function
        is stored as field `name` of the table at `idx`. */
    method SetTableCFunction(idx: int, name: string, id: nat)
      requires ValidIndex(|stack|, idx) && '\0' !in name
      modifies this`stack, this`tables, this`storage
      ensures stack == old(stack)
      ensures old(Consistent()) && name != "__pointer__" ==> Consistent()
      ensures var t := At(old(stack), idx);
        t.Table? && t.id in old(tables) && (Str(name) in old(tables)[t.id] || NewIndexHookOf(t.id).None?) ==>
          tables == old(tables)[t.id := RawSet(old(tables)[t.id], Str(name), Func(CFunction(id)))] && storage == old(storage)
      ensures !(At(old(stack), idx).Table? && At(old(stack), idx).id in old(tables)) ==>
        tables == old(tables) && storage == old(storage)
    {
      ghost var s0 := stack;
      var i := NormalIndex(|stack|, idx);          // lua_normal_index
      PushCFunction(id);
      NormalIndexSurvivesPush(s0, [Func(CFunction(id))], idx);
      SetField(At(stack, i), name);
    }

    /** The tail shared by the lua_call_*_function wrappers: push the
        arguments, call, and decode the results from the top slots. */
    method CallPushed(errPtr: bool, args: seq<Native>, retTypes: seq<NativeType>, rets: seq<Native>, outcome: PcallOutcome)
      returns (ok: bool, err: Option<string>, out: seq<Native>)
      requires Valid() && |stack| >= 1
      requires forall a :: a in args && a.NObject? ==> HasTerminator(a.cls.items)
      modifies this`stack, this`objects, this`fence, this`metas, this`tables, this`metatableOf, this`nextId
      ensures Valid() && (old(Consistent()) ==> Consistent())
      ensures |stack| >= |old(stack)| - 1 && stack[..|old(stack)| - 1] == old(stack)[..|old(stack)| - 1]
      ensures ok <==> old(stack)[|old(stack)| - 1].Func? && outcome.PcallOk?
      ensures !ok ==> out == rets
      ensures !ok && old(stack)[|old(stack)| - 1].Func? ==>
        err == if errPtr then Some(MessageText(outcome.message)) else None
      ensures !old(stack)[|old(stack)| - 1].Func? ==> err.None?
      ensures ok ==> |stack| == |old(stack)| - 1 + |retTypes| && Decoded(out, tables, outcome, retTypes)
      ensures KeepsTables(old(tables), tables, old(metatableOf), metatableOf)
      ensures KeepsEntries(Entries(old(objects)), Entries(objects))
    {
      ghost var s0 := stack;
      PushArgs(args);
      assert At(stack, |stack| - |args|) == s0[|s0| - 1];
      ok, err, out := CallAndDecode(errPtr, |args|, retTypes, rets, outcome);
    }

    /** lua_call_function on the function below the top `argc` values, then
        lua_to_native_mutil on the results when it succeeded. */
    method CallAndDecode(errPtr: bool, argc: nat, retTypes: seq<NativeType>, rets: seq<Native>, outcome: PcallOutcome)
      returns (ok: bool, err: Option<string>, out: seq<Native>)
      requires |stack| >= argc + 1
      modifies this`stack
      ensures var f := |old(stack)| - argc;
        && |stack| >= f - 1 && stack[..f - 1] == old(stack)[..f - 1]
        && (ok <==> At(old(stack), f).Func? && outcome.PcallOk?)
        && (!ok ==> out == rets)
        && (!ok && At(old(stack), f).Func? ==> err == if errPtr then Some(MessageText(outcome.message)) else None)
        && (!At(old(stack), f).Func? ==> err.None?)
        && (ok ==> |stack| == f - 1 + |retTypes| && Decoded(out, tables, outcome, retTypes))
    {
      ghost var f := |stack| - argc;
      ghost var s0 := stack;
      ok, err := CallFunction(errPtr, argc, |retTypes|, outcome);
      if !ok {
        return ok, err, rets;
      }
      out := DecodeResults(tables, stack, retTypes);
      DecodeResultsOfTop(tables, s0[..f - 1], Adjust(outcome.results, |retTypes|), retTypes);
    }

    /** lua_call_global_function */
    method CallGlobalFunction(errPtr: bool, member: string, args: seq<Native>, retTypes: seq<NativeType>,
                              rets: seq<Native>, outcome: PcallOutcome)
      returns (ok: bool, err: Option<string>, out: seq<Native>)
      requires Valid() && '\0' !in member && forall a :: a in args && a.NObject? ==> HasTerminator(a.cls.items)
      modifies this`stack, this`objects, this`fence, this`metas, this`tables, this`metatableOf, this`nextId
      ensures Valid() && (old(Consistent()) ==> Consistent())
      ensures |stack| >= |old(stack)| && stack[..|old(stack)|] == old(stack)
      ensures ok <==> old(GlobalValue(member)).Func? && outcome.PcallOk?
      ensures !ok ==> out == rets
      ensures !old(GlobalValue(member)).Func? ==> err.None?
      ensures !ok && old(GlobalValue(member)).Func? ==> err == if errPtr then Some(MessageText(outcome.message)) else None
      ensures ok ==> |stack| == |old(stack)| + |retTypes| && Decoded(out, tables, outcome, retTypes)
      ensures KeepsTables(old(tables), tables, old(metatableOf), metatableOf)
      ensures KeepsEntries(Entries(old(objects)), Entries(objects))
    {
      Push(GlobalValue(member));                 // lua_getglobal(L, member)
      ok, err, out := CallPushed(errPtr, args, retTypes, rets, outcome);
    }

    /** lua_call_table_function */
    method CallTableFunction(errPtr: bool, table: string, member: string, args: seq<Native>,
                             retTypes: seq<NativeType>, rets: seq<Native>, outcome: PcallOutcome)
      returns (ok: bool, err: Option<string>, out: seq<Native>)
      requires Valid() && '\0' !in table && '\0' !in member
      requires forall a :: a in args && a.NObject? ==> HasTerminator(a.cls.items)
      modifies this`stack, this`objects, this`fence, this`metas, this`tables, this`metatableOf, this`nextId
      ensures Valid() && (old(Consistent()) ==> Consistent())
      ensures |stack| >= |old(stack)| && stack[..|old(stack)|] == old(stack)
      ensures ok ==> outcome.PcallOk?
      ensures var callee := if old(GlobalValue(table)).Table? then old(FieldOf(GlobalValue(table), member))
                            else old(GlobalValue(table));
        && (ok <==> callee.Func? && outcome.PcallOk?)
        && (!callee.Func? ==> err.None?)
        && (!ok && callee.Func? ==> err == if errPtr then Some(MessageText(outcome.message)) else None)
      ensures !ok ==> out == rets
      ensures ok ==> |stack| == |old(stack)| + |retTypes| && Decoded(out, tables, outcome, retTypes)
      ensures KeepsTables(old(tables), tables, old(metatableOf), metatableOf)
      ensures KeepsEntries(Entries(old(objects)), Entries(objects))
    {
      var _ := GetTableFunction(table, member);
      ok, err, out := CallPushed(errPtr, args, retTypes, rets, outcome);
    }

    /** lua_call_object_function */
    method CallObjectFunction(errPtr: bool, obj: nat, cls: ClassInfo, member: string, args: seq<Native>,
                              retTypes: seq<NativeType>, rets: seq<Native>, outcome: PcallOutcome)
      returns (ok: bool, err: Option<string>, out: seq<Native>)
      requires Valid() && HasTerminator(cls.items) && '\0' !in member
      requires forall a :: a in args && a.NObject? ==> HasTerminator(a.cls.items)
      modifies this`stack, this`objects, this`fence, this`metas, this`tables, this`metatableOf, this`nextId
      ensures Valid() && (old(Consistent()) ==> Consistent())
      ensures |stack| >= |old(stack)| && stack[..|old(stack)|] == old(stack)
      ensures ok ==> outcome.PcallOk?
      ensures obj == 0 ==> !ok && err.None?
      // the call is the object's method: the field `member` of its registered proxy
      ensures obj != 0 && obj in Entries(old(objects)) ==>
        var callee := old(FieldOf(Table(Entries(objects)[obj]), member));
        && (ok <==> callee.Func? && outcome.PcallOk?)
        && (!callee.Func? ==> err.None?)
        && (!ok && callee.Func? ==> err == if errPtr then Some(MessageText(outcome.message)) else None)
      // an export under way yields nil, which is no function
      ensures obj != 0 && obj !in Entries(old(objects)) && obj in Marks(old(fence)) ==> !ok && err.None?
      ensures !ok ==> out == rets
      ensures ok ==> |stack| == |old(stack)| + |retTypes| && Decoded(out, tables, outcome, retTypes)
      ensures KeepsTables(old(tables), tables, old(metatableOf), metatableOf)
      ensures KeepsEntries(Entries(old(objects)), Entries(objects))
    {
      var _ := GetObjectFunction(obj, cls, member);
      ok, err, out := CallPushed(errPtr, args, retTypes, rets, outcome);
    }
  }

  /** lua_guard: remembers the stack top and restores it on release. */
  class Guard {
    const lvm: Lua
    const top: nat

    constructor (L: Lua)
      ensures lvm == L && top == |L.stack|
    {
      lvm := L;
      top := |L.stack|;
    }

    method Release()
      modifies lvm`stack
      ensures lvm.stack == SetTop(old(lvm.stack), top)
      ensures |old(lvm.stack)| >= top ==> lvm.stack == old(lvm.stack)[..top]
    {
      lvm.stack := SetTop(lvm.stack, top);
    }
  }

  /** The guarded call the wrappers are meant for: whatever the call does,
      success or failure, the stack is back at its depth and contents. */
  method GuardedGlobalCall(L: Lua, errPtr: bool, member: string, args: seq<Native>, retTypes: seq<NativeType>,
                           rets: seq<Native>, outcome: PcallOutcome)
    returns (ok: bool, err: Option<string>, out: seq<Native>)
    requires L.Valid() && '\0' !in member && forall a :: a in args && a.NObject? ==> HasTerminator(a.cls.items)
    modifies L
    ensures L.Valid() && L.stack == old(L.stack)
    ensures ok <==> old(L.GlobalValue(member)).Func? && outcome.PcallOk?
    ensures !ok && old(L.GlobalValue(member)).Func? ==> err == if errPtr then Some(MessageText(outcome.message)) else None
  {
    var guard := new Guard(L);
    ok, err, out := L.CallGlobalFunction(errPtr, member, args, retTypes, rets, outcome);
    guard.Release();
  }

  /** Exporting the same object twice in a row pushes the same value twice. */
  method ExportTwice(L: Lua, obj: nat, cls: ClassInfo)
    requires L.Valid() && HasTerminator(cls.items)
    modifies L
    ensures L.Valid() && |L.stack| == |old(L.stack)| + 2 && L.stack[..|old(L.stack)|] == old(L.stack)
    ensures L.stack[|L.stack| - 1] == L.stack[|L.stack| - 2]
  {
    L.PushObject(obj, cls);
    ghost var first := L.stack[|L.stack| - 1];
    ghost var s1 := L.stack;
    L.PushObject(obj, cls);
    assert L.stack[|L.stack| - 2] == s1[|s1| - 1];
  }

  /** After detaching, a handle obtained earlier no longer reaches the
      object, and reading any member through it yields nil. */
  method DetachSevers(L: Lua, obj: nat, cls: ClassInfo, key: Value)
    requires L.Valid() && L.Consistent() && obj != 0 && obj in Entries(L.objects)
    modifies L
    ensures L.Valid() && L.Consistent()
    ensures var p := Entries(old(L.objects))[obj];
      PointerOf(L.tables, Table(p)) == 0 && IndexValue(L.tables, L.metas, L.storage, [Table(p), key], cls) == Nil
  {
    ghost var p := Entries(L.objects)[obj];
    L.Detach(obj);
    assert !L.ProxyOf(p, obj);
  }

  /** A fence cleared by _lua_del_fence can be set again. */
  method FenceResets(L: Lua, p: nat) returns (again: bool)
    requires L.Valid()
    modifies L
    ensures L.Valid()
    ensures again && p in Marks(L.fence)
  {
    var _ := L.SetFence(p);
    L.DelFence(p);
    again := L.SetFence(p);
  }
}

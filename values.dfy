/** The abstract Lua state the binding layer works against: tagged stack
    values, the native types of the value codec, member descriptors, and
    Lua's stack addressing. */
module LuaValues {

  datatype Option<T> = None | Some(value: T)

  /** Width of a native integral type; `lua_Integer` is the 64-bit signed one. */
  datatype IntWidth = W8 | W16 | W32 | W64

  /** The native types the value codec handles (floating point is not modelled). */
  datatype NativeType =
    | TBool
    | TInt(width: IntWidth, signed: bool)
    | TString                 // std::string
    | TCString                // const char*
    | TObject(cls: ClassInfo) // pointer to an exported class

  /** A native value of one of the types above. */
  datatype Native =
    | NBool(b: bool)
    | NInt(i: int)
    | NString(s: string)
    | NCString(c: Option<string>)        // None is the null pointer
    | NObject(addr: nat, cls: ClassInfo) // address 0 is the null pointer

  /** What `lua_adapter` makes of a native callable: a typed function or
      method whose arguments are decoded from the stack and whose result, if
      any, is pushed; or an `int (lua_State*)` function passed through. */
  datatype Adapter =
    | Typed(params: seq<NativeType>, returnsValue: bool)
    | Raw

  /** The getter and setter wrappers of a `lua_member_item`; an empty
      `std::function` is NoGetter / NoSetter. */
  datatype Getter = NoGetter | PropertyGetter | MethodGetter(adapter: Adapter)
  datatype Setter = NoSetter | PropertySetter | MethodSetter

  /** `lua_member_item`; an item whose name is None terminates the export list. */
  datatype MemberItem = MemberItem(name: Option<string>, offset: nat, getter: Getter, setter: Setter)

  /** What DECLARE_LUA_CLASS and the LUA_EXPORT_* macros give a class: the
      name of its metatable, its member list and whether it has a `__gc` member. */
  datatype ClassInfo = ClassInfo(metaName: string, items: seq<MemberItem>, hasGc: bool)

  /** A value on the Lua stack or in a table. */
  datatype Value =
    | Nil
    | Bool(b: bool)
    | Int(i: int)
    | Str(s: string)
    | Table(id: nat)
    | LightUserdata(addr: nat)     // a native object address; 0 is NULL
    | ItemPtr(item: MemberItem)    // a light userdata pointing at a lua_member_item
    | AdapterPtr(adapter: Adapter) // a light userdata pointing at a captured adapter
    | Func(f: FuncRef)

  /** The functions the binding layer puts into Lua, and the script's own. */
  datatype FuncRef =
    | IndexHook(cls: ClassInfo)                // lua_member_index<T>
    | NewIndexHook(cls: ClassInfo)             // lua_member_new_index<T>
    | GcHook(cls: ClassInfo)                   // lua_object_gc<T>
    | ObjectBridge(obj: Value, adapter: Value) // _lua_object_bridge with two upvalues
    | GlobalBridge(wrapper: Value)             // lua_global_bridge with one upvalue
    | CFunction(id: nat)                       // a plain lua_CFunction
    | LuaFunction(id: nat)                     // a function defined by script code

  /** The storage of one exported data member, by its C++ type. */
  datatype Slot =
    | BoolSlot(b: bool)
    | IntSlot(width: IntWidth, signed: bool, i: int)
    | StringSlot(s: string)         // std::string
    | CharArraySlot(buf: seq<char>) // char[Size]; |buf| is Size

  /** lua_touserdata: the pointer inside a light userdata, NULL (0) for anything else.
      An item or adapter pointer is some non-NULL address that the model does
      not name; both read as the placeholder 1. So a table whose `__pointer__`
      is such a pointer reads as address 1 without being a proxy of 1, and
      facts about the address of a proxy are stated for the tables the
      binding layer itself created. */
  function ToUserdata(v: Value): nat {
    match v
    case LightUserdata(a) => a
    case ItemPtr(_) => 1
    case AdapterPtr(_) => 1
    case _ => 0
  }

  /** lua_rawset on a table's fields: assigning nil removes the key. */
  function RawSet(t: map<Value, Value>, k: Value, v: Value): (r: map<Value, Value>)
    ensures v != Nil ==> k in r && r[k] == v
    ensures k !in r <==> v == Nil
    ensures forall k' :: k' != k ==> (k' in r <==> k' in t) && (k' in r ==> r[k'] == t[k'])
  {
    if v == Nil then t - {k} else t[k := v]
  }
}

/** Lua's stack addressing: 1-based from the bottom, negative from the top. */
module Stack {
  import opened LuaValues

  /** The value an acceptable stack index designates; nil past the top. */
  function At(s: seq<Value>, idx: int): Value {
    if 1 <= idx <= |s| then s[idx - 1]
    else if -|s| <= idx < 0 then s[|s| + idx]
    else Nil
  }

  predicate ValidIndex(top: nat, idx: int) {
    1 <= idx <= top || -(top as int) <= idx < 0
  }

  /** lua_normal_index: turn an in-range negative index into the positive one
      for the same slot; every other index is returned as it is. */
  function NormalIndex(top: nat, idx: int): (r: int)
    ensures idx < 0 && -idx <= top ==> 1 <= r <= top && r == top + 1 + idx
    ensures !(idx < 0 && -idx <= top) ==> r == idx
    ensures ValidIndex(top, idx) ==> 1 <= r <= top
  {
    if idx < 0 && -idx <= top then idx + top + 1 else idx
  }

  /** The normalised index designates the same value. */
  lemma NormalIndexSameSlot(s: seq<Value>, idx: int)
    ensures At(s, NormalIndex(|s|, idx)) == At(s, idx)
  {
  }

  /** What makes normalising worth it: after more values are pushed, the
      normalised index still designates the slot the original index did. */
  lemma NormalIndexSurvivesPush(s: seq<Value>, more: seq<Value>, idx: int)
    requires ValidIndex(|s|, idx)
    ensures At(s + more, NormalIndex(|s|, idx)) == At(s, idx)
  {
  }

  /** Normalising twice is normalising once. */
  lemma NormalIndexIdempotent(top: nat, idx: int)
    ensures NormalIndex(top, NormalIndex(top, idx)) == NormalIndex(top, idx)
  {
  }

  /** lua_settop with a non-negative argument: cut the stack or pad it with nils. */
  function SetTop(s: seq<Value>, n: nat): (r: seq<Value>)
    ensures |r| == n
    ensures forall i :: 0 <= i < n ==> r[i] == if i < |s| then s[i] else Nil
  {
    if n <= |s| then s[..n] else s + seq(n - |s|, _ => Nil)
  }

  /** lua_remove at a valid index: the slot goes, the ones above shift down. */
  function Remove(s: seq<Value>, idx: int): (r: seq<Value>)
    requires ValidIndex(|s|, idx)
    ensures |r| == |s| - 1
    ensures var p := NormalIndex(|s|, idx) - 1;
      r[..p] == s[..p] && r[p..] == s[p + 1..]
  {
    var p := NormalIndex(|s|, idx) - 1;
    s[..p] + s[p + 1..]
  }

  /** lua_insert at a valid index: the top value moves into that slot and
      the ones from there up shift one up. */
  function Insert(s: seq<Value>, idx: int): (r: seq<Value>)
    requires ValidIndex(|s|, idx)
    ensures |r| == |s|
    ensures var p := NormalIndex(|s|, idx) - 1;
      r[..p] == s[..p] && r[p] == s[|s| - 1] && r[p + 1..] == s[p..|s| - 1]
  {
    var p := NormalIndex(|s|, idx) - 1;
    s[..p] + [s[|s| - 1]] + s[p..|s| - 1]
  }

  /** lua_remove(L, -2) drops the value under the top. */
  lemma RemoveBelowTop(s: seq<Value>, x: Value, y: Value)
    ensures Remove(s + [x, y], -2) == s + [y]
  {
    var t := s + [x, y];
    assert t[..|s|] == s;
    assert t[|s| + 1..] == [y];
  }

  /** lua_insert of the top value at position idx. */
  lemma InsertTopAt(s: seq<Value>, h: Value, idx: int)
    requires 1 <= idx <= |s|
    ensures Insert(s + [h], idx) == s[..idx - 1] + [h] + s[idx - 1..]
  {
    var t := s + [h];
    assert t[..idx - 1] == s[..idx - 1];
    assert t[idx - 1..|t| - 1] == s[idx - 1..];
  }

  /** lua_remove of the value just below the top n. */
  lemma RemoveBelow(prefix: seq<Value>, h: Value, rest: seq<Value>)
    ensures Remove(prefix + [h] + rest, -(|rest| as int) - 1) == prefix + rest
  {
    var t := prefix + [h] + rest;
    assert t[..|prefix|] == prefix;
    assert t[|prefix| + 1..] == rest;
  }
}

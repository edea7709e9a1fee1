/** The value codec: lua_to_native and native_to_lua for the primitive
    types, and the typed getters and setters of exported data members. */
module Codec {
  import opened LuaValues

  function Modulus(w: IntWidth): int {
    match w
    case W8 => 0x100
    case W16 => 0x1_0000
    case W32 => 0x1_0000_0000
    case W64 => 0x1_0000_0000_0000_0000
  }

  function Half(w: IntWidth): int {
    match w
    case W8 => 0x80
    case W16 => 0x8000
    case W32 => 0x8000_0000
    case W64 => 0x8000_0000_0000_0000
  }

  /** The values of an integral type of width `w`. */
  predicate InRange(x: int, w: IntWidth, signed: bool) {
    if signed then -Half(w) <= x < Half(w) else 0 <= x < Modulus(w)
  }

  /** The remainder modulo a width's modulus, one width at a time. */
  lemma ModulusFacts(x: int, w: IntWidth)
    ensures Modulus(w) == 2 * Half(w)
    ensures 0 <= x % Modulus(w) < Modulus(w)
    ensures (x - x % Modulus(w)) % Modulus(w) == 0
    ensures (x - (x % Modulus(w) - Modulus(w))) % Modulus(w) == 0
    ensures 0 <= x < Modulus(w) ==> x % Modulus(w) == x
    ensures -Modulus(w) <= x < 0 ==> x % Modulus(w) == x + Modulus(w)
  {
    match w
    case W8 =>
    case W16 =>
    case W32 =>
    case W64 =>
  }

  /** The C cast `(T)x` of an integer to an integral type: keep the low
      bits, read them as two's complement when the type is signed. */
  function Wrap(x: int, w: IntWidth, signed: bool): (r: int)
    ensures InRange(r, w, signed)
    ensures InRange(x, w, signed) ==> r == x
    ensures (x - r) % Modulus(w) == 0
  {
    ModulusFacts(x, w);
    var m := x % Modulus(w);
    if signed && m >= Half(w) then m - Modulus(w) else m
  }

  /** lua_toboolean: only nil and false are false. */
  function LuaToBoolean(v: Value): (r: bool)
    ensures !r <==> v == Nil || v == Bool(false)
  {
    match v
    case Nil => false
    case Bool(b) => b
    case _ => true
  }

  /** lua_tointeger: the integer of a number, 0 for anything else. */
  function LuaToInteger(v: Value): int {
    if v.Int? then v.i else 0
  }

  /** lua_tostring: the string of a string value, NULL for anything else. */
  function LuaToString(v: Value): Option<string> {
    if v.Str? then Some(v.s) else None
  }

  /** The string `lua_pushstring` sees through a `const char*`: everything
      before the first NUL. */
  function UpToNul(s: string): (r: string)
    ensures |r| <= |s| && r == s[..|r|] && '\0' !in r
    ensures |r| < |s| ==> s[|r|] == '\0'
  {
    if s == [] then []
    else if s[0] == '\0' then []
    else [s[0]] + UpToNul(s[1..])
  }

  lemma {:induction false} UpToNulOfNulFree(s: string)
    requires '\0' !in s
    ensures UpToNul(s) == s
  {
    if s != [] {
      UpToNulOfNulFree(s[1..]);
    }
  }

  /** A NUL terminator ends the string, whatever follows it. */
  lemma {:induction false} UpToNulAtTerminator(s: string, rest: string)
    requires '\0' !in s
    ensures UpToNul(s + ['\0'] + rest) == s
  {
    if s == [] {
    } else {
      assert (s + ['\0'] + rest)[1..] == s[1..] + ['\0'] + rest;
      UpToNulAtTerminator(s[1..], rest);
    }
  }

  /** The address of the object behind a proxy table (lua_to_object): the
      raw `__pointer__` field, NULL for a non-table or a table without it. */
  function PointerOf(tables: map<nat, map<Value, Value>>, v: Value): (r: nat)
    ensures r != 0 ==> v.Table? && v.id in tables && Str("__pointer__") in tables[v.id]
  {
    if v.Table? && v.id in tables && Str("__pointer__") in tables[v.id]
    then ToUserdata(tables[v.id][Str("__pointer__")])
    else 0
  }

  /** `v` is a value of the native type `ty`; a C string holds no NUL. */
  predicate HasType(v: Native, ty: NativeType) {
    match ty
    case TBool => v.NBool?
    case TInt(w, signed) => v.NInt? && InRange(v.i, w, signed)
    case TString => v.NString?
    case TCString => v.NCString? && (v.c.Some? ==> '\0' !in v.c.value)
    case TObject(cls) => v.NObject? && v.cls == cls
  }

  /** lua_to_native<T>: read a stack value as a native value of type `ty`.
      Strings are read through the `const char*` lua_tostring returns, so
      they end at the first NUL. */
  function Decode(tables: map<nat, map<Value, Value>>, v: Value, ty: NativeType): (r: Native)
    ensures HasType(r, ty)
  {
    match ty
    case TBool => NBool(LuaToBoolean(v))
    case TInt(w, signed) => NInt(Wrap(LuaToInteger(v), w, signed))
    case TString => NString(match LuaToString(v) case Some(s) => UpToNul(s) case None => "")
    case TCString => NCString(match LuaToString(v) case Some(s) => Some(UpToNul(s)) case None => None)
    case TObject(cls) => NObject(PointerOf(tables, v), cls)
  }

  /** native_to_lua<T> for the types that push a plain value (object
      pointers go through the object registry instead). */
  function Encode(v: Native): Value
    requires !v.NObject?
  {
    match v
    case NBool(b) => Bool(b)
    case NInt(i) => Int(Wrap(i, W64, true))
    case NString(s) => Str(UpToNul(s))
    case NCString(c) => if c.Some? then Str(UpToNul(c.value)) else Nil
  }

  /** Encoding then decoding at the same type gives the value back, for
      every value of that type apart from a std::string with an embedded NUL. */
  lemma RoundTrip(tables: map<nat, map<Value, Value>>, v: Native, ty: NativeType)
    requires HasType(v, ty) && !ty.TObject?
    requires v.NString? ==> '\0' !in v.s
    ensures Decode(tables, Encode(v), ty) == v
  {
    match ty
    case TBool =>
    case TInt(w, signed) =>
      var e := Wrap(v.i, W64, true);
      if !signed && w == W64 && v.i >= Half(W64) {
        assert e == v.i - Modulus(W64);
      } else {
        assert e == v.i;
      }
    case TString => UpToNulOfNulFree(v.s);
    case TCString => if v.c.Some? { UpToNulOfNulFree(v.c.value); }
  }

  /** native_to_lua pushes a std::string with lua_pushstring, so the round
      trip holds exactly for the strings without an embedded NUL. */
  lemma StringRoundTripIff(tables: map<nat, map<Value, Value>>, s: string)
    ensures Decode(tables, Encode(NString(s)), TString) == NString(s) <==> '\0' !in s
  {
    if '\0' !in s {
      UpToNulOfNulFree(s);
    } else {
      assert UpToNul(s) != s;
    }
  }

  /** The other direction: a Lua value of the matching type decodes to a
      native value that encodes back to it. */
  lemma ValueRoundTrip(tables: map<nat, map<Value, Value>>, v: Value)
    requires v.Bool? || (v.Int? && InRange(v.i, W64, true)) || (v.Str? && '\0' !in v.s)
    ensures v.Bool? ==> Encode(Decode(tables, v, TBool)) == v
    ensures v.Int? ==> Encode(Decode(tables, v, TInt(W64, true))) == v
    ensures v.Str? ==> Encode(Decode(tables, v, TString)) == v
    ensures v.Str? ==> Encode(Decode(tables, v, TCString)) == v
  {
    if v.Str? {
      UpToNulOfNulFree(v.s);
    }
  }

  /** The char-array setter (luna.h:261-273): a string shorter than the
      buffer is copied in and NUL-terminated, the bytes after the terminator
      are kept; any other value leaves the buffer as it was. */
  function CharArrayWrite(buf: seq<char>, v: Value): (r: seq<char>)
    ensures |r| == |buf|
    ensures v.Str? && |v.s| < |buf| ==>
      r[..|v.s|] == v.s && r[|v.s|] == '\0' && r[|v.s| + 1..] == buf[|v.s| + 1..]
    ensures !(v.Str? && |v.s| < |buf|) ==> r == buf
  {
    if v.Str? && |v.s| < |buf| then v.s + ['\0'] + buf[|v.s| + 1..] else buf
  }

  /** The same setter on the field's memory: memcpy of `len` bytes, then the
      NUL at `addr[len]`. */
  method StoreCharArray(addr: array<char>, v: Value)
    modifies addr
    ensures addr[..] == CharArrayWrite(old(addr[..]), v)
  {
    var str := LuaToString(v);
    if str.Some? && |str.value| < addr.Length {
      var s := str.value;
      var len := |s|;
      var i := 0;
      while i < len
        invariant 0 <= i <= len
        invariant addr[..i] == s[..i]
        invariant addr[i..] == old(addr[..])[i..]
      {
        addr[i] := s[i];
        i := i + 1;
        assert addr[..i] == addr[..i - 1] + [addr[i - 1]];
      }
      addr[len] := '\0';
      assert addr[..] == s + ['\0'] + old(addr[..])[len + 1..];
    }
  }

  /** Reading a char-array member back (lua_pushstring on the buffer) gives
      the string just written when it fits and has no NUL; a string at or
      beyond the capacity leaves what is read unchanged. */
  lemma CharArrayReadBack(buf: seq<char>, s: string)
    requires '\0' !in s
    ensures |s| < |buf| ==> UpToNul(CharArrayWrite(buf, Str(s))) == s
    ensures |s| >= |buf| ==> UpToNul(CharArrayWrite(buf, Str(s))) == UpToNul(buf)
  {
    if |s| < |buf| {
      UpToNulAtTerminator(s, buf[|s| + 1..]);
    }
  }

  /** The typed member getters (luna.h:179-259, data members only): the value
      each pushes for the slot it reads. */
  function SlotValue(slot: Slot): Value {
    match slot
    case BoolSlot(b) => Bool(b)
    case IntSlot(w, signed, i) => Int(Wrap(i, W64, true))
    case StringSlot(s) => Str(s)
    case CharArraySlot(buf) => Str(UpToNul(buf))
  }

  /** The typed member setters (luna.h:187-273, data members only): the slot
      after assigning the value on top of the stack. */
  function SlotWrite(slot: Slot, v: Value): (r: Slot)
    ensures r.BoolSlot? == slot.BoolSlot? && r.IntSlot? == slot.IntSlot?
    ensures r.StringSlot? == slot.StringSlot? && r.CharArraySlot? == slot.CharArraySlot?
    ensures slot.CharArraySlot? ==> |r.buf| == |slot.buf|
    ensures slot.IntSlot? ==> r.width == slot.width && r.signed == slot.signed
  {
    match slot
    case BoolSlot(_) => BoolSlot(LuaToBoolean(v))
    case IntSlot(w, signed, _) => IntSlot(w, signed, Wrap(LuaToInteger(v), w, signed))
    case StringSlot(s) => if v.Str? then StringSlot(v.s) else slot
    case CharArraySlot(buf) => CharArraySlot(CharArrayWrite(buf, v))
  }

  /** Setting then getting a data member: a string member reads back what
      was written, and keeps its value for a non-string; a boolean member
      reads back the truth value; an integer member reads back an in-range
      integer unless the getter's cast to `lua_Integer` reinterprets it. */
  lemma SlotWriteReadBack(slot: Slot, v: Value)
    ensures slot.BoolSlot? ==> SlotValue(SlotWrite(slot, v)) == Bool(LuaToBoolean(v))
    ensures slot.StringSlot? && v.Str? ==> SlotValue(SlotWrite(slot, v)) == v
    ensures slot.StringSlot? && !v.Str? ==> SlotWrite(slot, v) == slot
    ensures slot.IntSlot? && v.Int? && InRange(v.i, slot.width, slot.signed) && !(slot.width == W64 && !slot.signed) ==>
      SlotValue(SlotWrite(slot, v)) == v
    ensures slot.CharArraySlot? && v.Str? && '\0' !in v.s && |v.s| < |slot.buf| ==>
      SlotValue(SlotWrite(slot, v)) == v
    ensures slot.CharArraySlot? && !(v.Str? && |v.s| < |slot.buf|) ==> SlotWrite(slot, v) == slot
  {
    if slot.CharArraySlot? && v.Str? && '\0' !in v.s && |v.s| < |slot.buf| {
      CharArrayReadBack(slot.buf, v.s);
    }
    if slot.IntSlot? && v.Int? && InRange(v.i, slot.width, slot.signed) && !(slot.width == W64 && !slot.signed) {
      assert InRange(v.i, W64, true);
    }
  }
}

/** Stack arithmetic of the call plumbing: argument and result slots, and
    the protected-call oracle that stands in for lua_pcall. */
module Calls {
  import opened LuaValues
  import opened Stack
  import opened Codec

  /** call_helper: argument i (0-based) of a typed adapter is decoded from
      stack position i + 1 at its declared type. */
  function ArgumentsOf(tables: map<nat, map<Value, Value>>, s: seq<Value>, params: seq<NativeType>): (r: seq<Native>)
    ensures |r| == |params|
    ensures forall i :: 0 <= i < |params| ==> r[i] == Decode(tables, At(s, i + 1), params[i]) && HasType(r[i], params[i])
  {
    seq(|params|, i requires 0 <= i < |params| => Decode(tables, At(s, i + 1), params[i]))
  }

  /** The pushes of native_to_lua for the plain (non-object) values `args`. */
  function EncodeAll(args: seq<Native>): (r: seq<Value>)
    requires forall i :: 0 <= i < |args| ==> !args[i].NObject?
    ensures |r| == |args|
  {
    seq(|args|, i requires 0 <= i < |args| && !args[i].NObject? => Encode(args[i]))
  }

  /** What a caller pushes with native_to_lua is what call_helper decodes in
      the callee's frame: plain arguments of the declared types arrive
      unchanged (a std::string without an embedded NUL), whatever follows. */
  lemma ArgumentsOfEncoded(tables: map<nat, map<Value, Value>>, args: seq<Native>, types: seq<NativeType>, rest: seq<Value>)
    requires |args| == |types|
    requires forall i :: 0 <= i < |args| ==>
      !args[i].NObject? && HasType(args[i], types[i]) && !types[i].TObject? && (args[i].NString? ==> '\0' !in args[i].s)
    ensures ArgumentsOf(tables, EncodeAll(args) + rest, types) == args
  {
    var frame := EncodeAll(args) + rest;
    forall i | 0 <= i < |args|
      ensures ArgumentsOf(tables, frame, types)[i] == args[i]
    {
      assert At(frame, i + 1) == Encode(args[i]);
      RoundTrip(tables, args[i], types[i]);
    }
  }

  /** A typed adapter pushes one value when the callable returns one and
      none for void; a raw `int (lua_State*)` function reports its own count. */
  function ReturnCount(a: Adapter, rawCount: int): (r: int)
    ensures a.Typed? ==> 0 <= r <= 1 && (r == 1 <==> a.returnsValue)
    ensures a.Raw? ==> r == rawCount
  {
    match a
    case Typed(_, returnsValue) => if returnsValue then 1 else 0
    case Raw => rawCount
  }

  /** lua_to_native_mutil: result i of n is read from index i - n. */
  function ResultIndex(i: nat, n: nat): (r: int)
    requires i < n
    ensures -(n as int) <= r < 0
  {
    i - n
  }

  /** The result slots are the top n values, in order. */
  lemma ResultSlots(s: seq<Value>, n: nat, i: nat)
    requires i < n <= |s|
    ensures At(s, ResultIndex(i, n)) == s[|s| - n + i]
  {
  }

  /** lua_to_native_mutil: every result decoded from its slot at its type. */
  function DecodeResults(tables: map<nat, map<Value, Value>>, s: seq<Value>, types: seq<NativeType>): (r: seq<Native>)
    ensures |r| == |types|
    ensures |types| <= |s| ==> forall i :: 0 <= i < |types| ==>
      r[i] == Decode(tables, s[|s| - |types| + i], types[i])
  {
    seq(|types|, i requires 0 <= i < |types| => Decode(tables, At(s, ResultIndex(i, |types|)), types[i]))
  }

  /** When the top of the stack holds exactly the call's results, result i
      is decoded from result value i. */
  lemma DecodeResultsOfTop(tables: map<nat, map<Value, Value>>, prefix: seq<Value>, vals: seq<Value>, types: seq<NativeType>)
    requires |vals| == |types|
    ensures forall i :: 0 <= i < |types| ==>
      DecodeResults(tables, prefix + vals, types)[i] == Decode(tables, vals[i], types[i])
  {
    var s := prefix + vals;
    forall i | 0 <= i < |types|
      ensures DecodeResults(tables, s, types)[i] == Decode(tables, vals[i], types[i])
    {
      assert s[|s| - |types| + i] == vals[i];
    }
  }

  /** What the protected call did: it raised an error with a message, or
      returned these values. */
  datatype PcallOutcome = PcallOk(results: seq<Value>) | PcallError(message: Value)

  /** lua_pcall adjusts the returned values to the requested count, cutting
      extra ones and filling missing ones with nil. */
  function Adjust(results: seq<Value>, n: nat): (r: seq<Value>)
    ensures |r| == n
    ensures forall i :: 0 <= i < n ==> r[i] == if i < |results| then results[i] else Nil
  {
    SetTop(results, n)
  }

  /** The text `*err = lua_tostring(L, -1)` stores: a string message up to
      its first NUL, since it is assigned from a `const char*` (number
      messages are not coerced in this model). */
  function MessageText(v: Value): (r: string)
    ensures '\0' !in r
    ensures v.Str? && '\0' !in v.s ==> r == v.s
  {
    if v.Str? then UpToNul(v.s) else ""
  }
}

# luna binding layer — a Dafny model

luna binds C++ objects and functions to Lua 5.3. This project models its core,
`luna.h` and `luna.cpp`, as operations on an abstract Lua state.

- **Value codec.** `lua_to_native` and `native_to_lua` convert stack values to
  the native types and back.
- **Object registry.** Each exported object gets one proxy table, holding
  `__pointer__ = address`. The proxy is recorded in the weak-valued
  `registry.__objects__`, and `registry.__fence__` guards the export.
- **Member dispatch.** `lua_register_class` builds a class metatable from the
  export list. The `__index`, `__newindex` and `__gc` hooks read and write
  members through that metatable.
- **Call plumbing.** The adapters and bridges turn native callables into Lua
  functions. `lua_call_*_function` call into Lua under `debug.traceback`.
- **Stack guard.** `lua_guard` restores the stack top.

## Files

| file | module | what it holds |
|---|---|---|
| `values.dfy` | `LuaValues`, `Stack` | the value and type datatypes; stack addressing and `lua_settop`, `lua_remove`, `lua_insert` |
| `codec.dfy` | `Codec` | integer casts, string reading through `const char*`, decode and encode, the typed member getters and setters |
| `members.dfy` | `Members` | the `m_` prefix rule, the export list, the metatable contents `lua_register_class` produces |
| `calls.dfy` | `Calls` | argument and result slots, the `lua_pcall` outcome, result adjustment |
| `engine.dfy` | `Luna` | class `Lua` (the engine state, with one method per operation), class `Guard`, and the registry invariants |

### How the state is modelled

Class `Lua` holds the following:

- The current frame's stack.
- `registry.__objects__`, as an id, a mode and a map from address to proxy id.
- `registry.__fence__`, as a set of marked addresses.
- The class metatables, by meta name.
- The raw fields of every table.
- The metatable name of each proxy.
- The globals.
- The live and finalized native objects.
- The storage of exported data members, by object and offset.
- The adapter held by each `luna_function_wapper`.

The compile-time switch `LUNA_KEEP_MEMBER_PREFIX` is the constant `keepPrefix`.

What `lua_pcall` does inside Lua is a parameter. `PcallOutcome` says whether the
call returned values or raised an error with a message. The value a native
callable returns is also a parameter, as are the values and count a raw
`int (lua_State*)` function pushes. The garbage collector is the method
`Collect`: it clears a proxy's weak entry, runs the `__gc` hook and drops the
table.

Some operations push a value that the next Lua call consumes at once: the key
and value of a `lua_rawset`, or a registry table that is looked up and popped.
The model applies the net effect of such a sequence to the stack in one step,
and a comment names the calls it stands for.

The invariant `Consistent` (`RegistryAgrees`) has two parts:

- Each registry entry's proxy points back at its address.
- Every table pointing at an address is that address's entry.

Together these give at most one proxy per address (`OneProxyPerAddress`).

These methods ensure that the invariant is preserved:

- `PushObject`, `PushProxy`, `PushObjectValue`, `GetObjectFunction`, `NativeToLua`, `PushArgs` and `CallAdapter`;
- the two bridges, `ObjectBridgeCall` and `GlobalBridgeCall`;
- `ExportWrapper`, `PushFunction` and `RegisterFunction`;
- the three `Call*Function` wrappers and `CallPushed`;
- `Detach`, `Unregister` and `Collect`.

The methods that may export objects on the way also ensure that nothing already
there is lost: every existing table keeps its fields and whether it has a
metatable (`KeepsTables`), and every registered address keeps its proxy
(`KeepsEntries`). These are `PushObject`, `PushObjectValue`, `GetObjectFunction`,
`NativeToLua`, `PushArgs`, `CallAdapter`, both bridges, `CallPushed` and the three
`Call*Function` wrappers.

The names the entry points take as `const char*` (a global, a table, a
member, a field) are NUL-free strings, which is what a C string can hold.

`SetField`, `NewIndexCall`, `StoreTop`, `SetTableFunction` and `SetTableCFunction` ensure it
for every field name except `__pointer__`. `lua_set_table_function` stores its
value with `lua_setfield` (luna.h:817). Naming `__pointer__` on a proxy that
already holds that raw field overwrites the proxy's back-pointer, in the code as
in the model.

### The export fence

`lua_push_object` (luna.h:552-694) sets the fence with `_lua_set_fence` and never
clears it on that path. Only `lua_detach` (luna.h:701) and `lua_object_gc`
(luna.h:440) clear it. `Luna.Lua.PushObject` likewise leaves the mark set after a
fresh export.

## Model

| member | source | states |
|---|---|---|
| LuaValues.RawSet | luna.h:716-718 | assigning nil removes the key; any other value is stored; every other key is untouched |
| Stack.NormalIndex | luna.h:74-79 | an in-range negative index becomes the positive index `top + 1 + idx`; any other index is returned as it is; a valid index maps into `1..top` |
| Stack.NormalIndexSameSlot | luna.h:74-79 | the normalised index designates the same value |
| Stack.NormalIndexSurvivesPush | luna.h:813-817 | after more values are pushed, the normalised index still designates the original slot (why `lua_set_table_function` normalises first) |
| Stack.NormalIndexIdempotent | luna.h:74-79 | normalising twice equals normalising once |
| Stack.SetTop | luna.h:903 | `lua_settop` cuts the stack or pads it with nils to exactly n values |
| Stack.Remove | luna.cpp:85-86 | `lua_remove` drops the one slot; the slots below are kept and the ones above shift down |
| Stack.Insert | luna.cpp:99 | `lua_insert` moves the top value into the slot; the slots from there up shift up by one |
| Stack.RemoveBelowTop | luna.cpp:95-97 | removing index -2 drops the value under the top and keeps the top |
| Stack.InsertTopAt | luna.cpp:99 | inserting the pushed handler at `func_idx` places it right below the function |
| Stack.RemoveBelow | luna.cpp:106 | `lua_remove(L, -ret_count - 1)` drops exactly the value below the results |
| Codec.Wrap | luna.h:31-32 | the C cast to an integral type yields a value in the type's range; it is the identity on in-range values and congruent to the input modulo 2^width |
| Codec.LuaToBoolean | luna.h:25-26 | false exactly for nil and false |
| Codec.UpToNul | luna.h:27-29 | a string read through `const char*` is the longest NUL-free prefix; a character is cut off only by a NUL |
| Codec.UpToNulOfNulFree | luna.h:27-29 | a NUL-free string passes unchanged |
| Codec.UpToNulAtTerminator | luna.h:253-259 | a buffer is read up to its terminator, whatever bytes follow |
| Codec.PointerOf | luna.h:732-760 | a non-NULL result comes only from a table with a raw `__pointer__` field |
| Codec.LuaToInteger | luna.h:31 | definition of `lua_tointeger` on the modelled values: a number's integer, 0 otherwise; `Decode` and `SlotWriteReadBack` state what follows from it |
| Codec.LuaToString | luna.h:28-29 | definition of `lua_tostring`: a string's text, NULL otherwise; `Decode` states what follows from it |
| Codec.Decode | luna.h:23-44 | the decoded value always has the requested native type; signed and unsigned widths are in range; C strings hold no NUL |
| Codec.Encode | luna.h:46-72 | definition of `native_to_lua` for plain values; `RoundTrip`, `StringRoundTripIff` and `ValueRoundTrip` tie it to `Decode` |
| Codec.RoundTrip | luna.h:46-72 | encoding then decoding at the same type gives every value back, except a `std::string` with an embedded NUL |
| Codec.StringRoundTripIff | luna.h:50-51 | a `std::string` round-trips if and only if it holds no NUL |
| Codec.ValueRoundTrip | luna.h:23-72 | a Lua boolean, 64-bit integer or NUL-free string decodes to a native value that encodes back to it |
| Codec.CharArrayWrite | luna.h:262-273 | a string shorter than the buffer is copied in and NUL-terminated, and the bytes after the terminator are kept; otherwise the buffer is unchanged; the size never changes |
| Codec.StoreCharArray | luna.h:262-273 | the in-place memcpy loop leaves the array equal to `CharArrayWrite` of its old contents |
| Codec.CharArrayReadBack | luna.h:253-273 | after a write, a string that fits is read back exactly; one that does not fit leaves what is read unchanged |
| Codec.SlotValue | luna.h:179-259 | definition of the data-member getters: the value each pushes for its slot; `SlotWriteReadBack` relates it to `SlotWrite` |
| Codec.SlotWrite | luna.h:187-273 | every setter keeps the member's C++ type, width, signedness and buffer size |
| Codec.SlotWriteReadBack | luna.h:179-273 | setting then getting a member: a bool member reads the truth value; a string member reads what was written, or is unchanged for a non-string; an in-range integer member of any type but `uint64_t` reads the value; a char array reads a fitting NUL-free string and is unchanged otherwise |
| Members.StripPrefix | luna.h:513-517 | with `keep` the name is unchanged; otherwise a leading `m_` is dropped and any other name is unchanged |
| Members.StripOnlyOnce | luna.h:513-517 | only one prefix goes: `m_m_x` is exported as `m_x` |
| Members.Exported | luna.h:511 | the exported items are the prefix of the list before the first unnamed item, and all of them are named |
| Members.ExportedUpTo | luna.h:511 | when the terminator is at k, the exported items are exactly the first k |
| Members.Install | luna.h:511-537 | definition of the registration loop's rawsets, in list order; `InstallLastWins`, `InstallKeeps` and `InstallDomain` state its properties, and `Lua.InstallMembers` is proved equal to it |
| Members.WithHooks | luna.h:462-505 | definition of the metatable before the member loop: `__name` on a new one, then the three hooks; `ClassFieldsHooks` states what survives the loop |
| Members.ClassFields | luna.h:462-537 | definition of the whole metatable `lua_register_class` builds; `ClassFieldsLookup` and `ClassFieldsHooks` state its properties |
| Members.ExportProperty | luna.h:777 | definition of the `LUA_EXPORT_PROPERTY_AS` item: a named data member with getter and setter |
| Members.ExportPropertyReadonly | luna.h:778 | definition of the read-only property item: no setter, so `NewIndexStep` drops writes to it |
| Members.ExportMethod | luna.h:782 | definition of the `LUA_EXPORT_METHOD_AS` item: offset 0, a method getter over the adapter, a setter |
| Members.ExportMethodReadonly | luna.h:783 | definition of the read-only method item: no setter |
| Members.Terminator | luna.h:772 | definition of the list terminator `LUA_EXPORT_CLASS_END` adds: no name, empty wrappers; `Exported` stops at it |
| Members.InstallLastWins | luna.h:511-537 | an item whose visible name no later item reuses is what that name maps to |
| Members.InstallKeeps | luna.h:511-537 | a name no item exports keeps its earlier field, and is present exactly when it was |
| Members.InstallDomain | luna.h:511-537 | every new name in the metatable is some item's visible name |
| Members.ClassFieldsLookup | luna.h:451-550 | after registration, a member name maps to the last exported item with that name |
| Members.ClassFieldsHooks | luna.h:470-505 | the three hooks are installed unless an item's visible name is one of theirs |
| Calls.ArgumentsOf | luna.h:87-100 | definition of `call_helper`'s argument decoding: one value per declared type, each of that type; `ArgumentsOfEncoded` ties it to the caller's pushes |
| Calls.ArgumentsOfEncoded | luna.h:87-100 | plain arguments of the declared types that a caller pushes with `native_to_lua` are exactly what `call_helper` decodes in the callee's frame (a `std::string` without NUL), whatever is above them |
| Calls.ReturnCount | luna.h:102-172 | a typed adapter returns 1 exactly when its callable returns a value, and 0 for void; a raw function reports its own count |
| Calls.ResultIndex | luna.h:830-833 | result i of n is read from a negative index in `-n..-1` |
| Calls.ResultSlots | luna.h:830-833 | that index designates the i-th of the top n values |
| Calls.DecodeResults | luna.h:830-833 | one value per result type; each is decoded from its slot among the top values |
| Calls.DecodeResultsOfTop | luna.h:830-833 | when the top holds exactly the results, result i is decoded from value i |
| Calls.Adjust | luna.cpp:100 | `lua_pcall` leaves exactly `ret_count` values: the callee's results, then nils |
| Calls.MessageText | luna.cpp:101-103 | the stored error text holds no NUL, and is the whole message when the message is a NUL-free string |
| Luna.RawSetOn | luna.h:414 | only the addressed table changes, by `RawSet`, and only when it is a table and the key is not nil |
| Luna.OneProxyPerAddress | luna.h:552-694 | under the registry invariant, two proxies of one address are the same table |
| Luna.ExportAgrees | luna.h:622-685 | adding a fresh proxy and its entry keeps the registry invariant |
| Luna.DetachAgrees | luna.h:697-723 | detaching keeps the invariant, and afterwards no table points at the address |
| Luna.CollectAgrees | luna.h:573-586 | dropping a collected proxy and its weak entries keeps the invariant |
| Luna.FieldSetAgrees | luna.h:817 | setting any raw field other than `__pointer__` keeps the registry invariant |
| Luna.ItemOf | luna.h:349-361 | definition of the lookup of a member item in the class metatable (`lua_rawget` then `lua_touserdata`); `MemberIndex` and `AssignThenIndex` use it |
| Luna.GetterValue | luna.h:370 | definition of what an item's getter pushes: a data member's `SlotValue`, or a `_lua_object_bridge` closure over the object and adapter for a method |
| Luna.IndexValue | luna.h:331-375 | definition of what `lua_member_index` returns for a frame; `MemberIndex`, `AssignThenIndex` and `DetachSevers` state its properties |
| Luna.AssignThenIndex | luna.h:331-425 | writing a data member through its proxy and then reading it yields what the setter stored, or the old value for a read-only member |
| Luna.AssignStringThenIndex | luna.h:231-250 | a `std::string` member reads back exactly the string assigned through the proxy |
| Luna.AssignRawSets | luna.h:396-425 | through a live proxy, assigning a name with no item, or a method (whose setter raw-sets, luna.h:294-300), stores the value raw on the proxy and leaves the storage alone |
| Luna.AssignDropped | luna.h:381-425 | an assignment through a severed or foreign table, with a non-string key, or to a read-only item, changes nothing |
| Luna.Lua.SetFence | luna.cpp:112-151 | returns true exactly when the address was unmarked; the address is marked afterwards; the fence table is created once; the stack is outside its frame, so it ends as it began |
| Luna.Lua.DelFence | luna.cpp:153-163 | removes the mark when a fence table exists and does nothing otherwise; the stack ends as it began |
| Luna.Lua.ToObject | luna.h:732-760 | returns the raw `__pointer__` of the table at the index (NULL for anything else); the stack is unchanged |
| Luna.Lua.InstallMembers | luna.h:462-537 | the registration loop's result equals `ClassFields` (the hooks, then every exported item under its visible name, last one winning) |
| Luna.Lua.RegisterClass | luna.h:451-550 | only this class's metatable changes: its fields become `ClassFields` of the old ones; its id is kept if it existed, else one is allocated; the stack is restored |
| Luna.Lua.PushObjectsTable | luna.h:559-600 | `__objects__` is pushed, and is created weak-valued (`__mode = "v"`) on first use; entries are unchanged |
| Luna.Lua.NewProxy | luna.h:622-672 | exactly one new table `{__pointer__ = obj}` with the class metatable, registering the class on first use (`ClassRegistered`: an existing metatable is kept, a missing one gets the class's members) |
| Luna.Lua.PushObject | luna.h:552-694 | NULL pushes nil; a registered object has its existing proxy pushed and nothing else changes; a fenced one pushes nil and nothing is built; otherwise exactly one new proxy is registered (`FreshExport`) and the fence mark stays; the registry invariant is preserved and existing tables are untouched |
| Luna.Lua.PushProxy | luna.h:559-694 | for a non-NULL pointer: `__objects__` exists afterwards; a registered object pushes its existing proxy and nothing else changes; a fenced one pushes nil; otherwise exactly one new proxy is registered (`FreshExport`) and the fence is marked; the registry invariant is preserved |
| Luna.Lua.PushObjectValue | luna.h:822 | the value `lua_push_object` leaves is the proxy registered for the address afterwards, or nil (NULL, or an export under way); a registered object changes no table, metatable or registration; existing tables and registrations are kept |
| Luna.Lua.ExportUnregistered | luna.h:604-694 | with `__objects__` on top: a fenced address leaves `lua_rawgetp`'s nil in its place; otherwise a new registered proxy does (`FreshExport`); the fence is marked either way |
| Luna.Lua.AddProxy | luna.h:612-685 | builds the proxy and adds its registry entry; the invariant is preserved |
| Luna.Lua.Detach | luna.h:697-723 | NULL does nothing; otherwise the fence mark goes, the entry is removed, the proxy loses `__pointer__`, the invariant is preserved, and no table points at the object |
| Luna.Lua.Unregister | luna.h:703-722 | the registry half of detach, stated by `Unregistered` |
| Luna.Lua.ObjectGc | luna.h:435-448 | for a proxy with an object: the fence mark goes, then `__gc` runs if the class has one, else the object is deleted; for a severed proxy nothing happens; it returns 0 |
| Luna.Lua.Collect | luna.h:573-586 | the weak entries naming the proxy go, the `__gc` hook has its effect (`GcEffect`), the table goes, and the invariant is preserved |
| Luna.Lua.RunGcHook | luna.h:500-505 | the `__gc` metamethod runs only when the metatable holds the binding layer's hook |
| Luna.Lua.MemberIndex | luna.h:331-375 | returns 1 and pushes `IndexValue` for the frame: nil for a severed proxy, for a non-string key or an unknown member; otherwise the item's getter's value |
| Luna.NewIndexStep | luna.h:378-425 | a `__newindex` step changes fields only: the set of tables is kept; its four behaviours are stated by `AssignThenIndex`, `AssignRawSets` and `AssignDropped` |
| Luna.Lua.MemberNewIndex | luna.h:378-425 | returns 0, and the new stack, tables and storage are `NewIndexStep` of the old ones |
| Luna.Lua.RawSetTop | luna.h:414 | the table below the top two values gets the raw field, and the two values are popped |
| Luna.Lua.CallFunction | luna.cpp:90-108 | a non-function callee fails with nothing changed; on success the function and arguments are replaced by exactly `ret_count` results and the handler is removed; on error the handler and message stay and the stored text is `MessageText` |
| Luna.Lua.ProtectedCall | luna.cpp:95-107 | the same two outcomes once the callee is known to be a function |
| Luna.Lua.TracebackHandler | luna.cpp:95-97 | definition of the handler fetched as `debug.traceback`; `PushHandler` places it below the function |
| Luna.Lua.PushHandler | luna.cpp:95-99 | `debug.traceback` is inserted right below the function, and nothing else moves |
| Luna.Lua.GetTableFunction | luna.cpp:81-88 | pushes `table.function` via `__index` for proxies, and reports whether it is a function; a non-table global is pushed instead and reported false |
| Luna.Lua.GetObjectFunction | luna.h:820-828 | pushes the field of the object's proxy, whether the proxy existed or was just exported, and reports whether it is a function; a registered object changes no table, metatable or registration; NULL, or an export under way, pushes nil and fails; existing tables and registrations are kept |
| Luna.Lua.NativeToLua | luna.h:46-72 | a primitive value pushes `Encode` of it and nothing else changes; a NULL object pushes nil; another object pushes its registered proxy (the existing one if there was one), or nil while its export is under way; existing tables and registrations are kept |
| Luna.Lua.PushArgs | luna.h:840 | argument j is pushed at slot `top + j`: `Encode` of a plain value, nil for a NULL object, the existing proxy of a registered object; existing tables and registrations are kept; with plain arguments only, the pushes are exactly `EncodeAll(args)`, the frame `ArgumentsOfEncoded` decodes; the stack below is unchanged |
| Luna.Lua.CallAdapter | luna.h:102-172 | a typed adapter decodes its arguments from positions 1..n; it pushes `Encode` of a plain result, nil for a NULL object and the existing proxy of a registered one, and nothing for void; a raw function's pushes and count pass through; existing tables and registrations are kept |
| Luna.Lua.ObjectBridgeCall | luna.cpp:72-79 | either upvalue NULL returns 0 with the stack, tables, registry, fence and metatables unchanged; otherwise it returns the adapter's count; existing tables and registrations are kept |
| Luna.Lua.GlobalBridgeCall | luna.cpp:54-62 | a proxy without an object returns 0 with the stack, tables, registry, fence and metatables unchanged; otherwise it returns the wrapped adapter's count; existing tables and registrations are kept |
| Luna.Lua.ExportWrapper | luna.cpp:66 | exporting a new wrapper pushes a new table, not one that existed, that points back at it, preserves the registry invariant and leaves existing tables untouched |
| Luna.Lua.PushFunction | luna.cpp:64-70 | a new wrapper is created and exported, and a bridge closure over its proxy is pushed; the proxy is a new table pointing at the wrapper; existing tables are untouched |
| Luna.Lua.PushCFunction | luna.h:788 | a plain C function is pushed without a wrapper |
| Luna.Lua.RegisterFunction | luna.h:798-804 | for a callable that goes through `lua_adapter` (any but a `lua_CFunction`), only the global `name` changes, and it becomes a bridge closure whose upvalue is the proxy of the new wrapper `w`; `w` becomes live and holds the adapter; existing tables are kept; the stack is unchanged |
| Luna.Lua.GetGlobalFunction | luna.h:806-809 | pushes the global, and reports exactly whether it is a function |
| Luna.Lua.SetField | luna.h:817 | `lua_setfield` pops the value; it raw-sets unless a proxy lacks the raw field, in which case `__newindex` runs (`NewIndexStep`); no table is added or removed; the registry invariant holds for any name but `__pointer__` |
| Luna.Lua.RawField | luna.h:817 | the raw store `lua_setfield` makes when no `__newindex` hook applies: only that field of that table changes, by `RawSet`; the registry invariant holds for any key but `__pointer__` |
| Luna.Lua.StoreTop | luna.h:817 | `lua_setfield` at a normalised index stores the popped value raw into a table without a metatable |
| Luna.Lua.NewIndexCall | luna.h:817 | the `__newindex` hook of a proxy runs on the frame `proxy, name, value` with the effect `NewIndexStep` states, and the caller's frame is restored |
| Luna.Lua.SetTableFunction | luna.h:813-818 | a plain table at `idx` gets field `name` set to a bridge closure whose upvalue is the proxy of the new wrapper `w`, which becomes live and holds the adapter; the stack is unchanged; the registry invariant holds for any name but `__pointer__` |
| Luna.Lua.RegisterCFunction | luna.h:798-804 | with a `lua_CFunction` the global becomes the bare C function (the luna.h:788 overload); only that global changes; the stack is unchanged |
| Luna.Lua.SetTableCFunction | luna.h:813-818 | with a `lua_CFunction` the table at `idx` gets the bare C function via `lua_setfield`; with no wrapper exported, only that table changes; the stack is unchanged |
| Luna.Lua.CallPushed | luna.h:837-846 | succeeds exactly when the pushed callee is a function and the call returns; the results are decoded per `Decoded`; on failure `rets` is untouched and `err` receives the message when requested, and a non-function callee leaves `err` empty; existing tables and registrations are kept |
| Luna.Lua.CallAndDecode | luna.h:842-844 | the call, then `lua_to_native_mutil` on exactly the results |
| Luna.Lua.CallGlobalFunction | luna.h:873-891 | succeeds exactly when the global is a function and the call returns; `ret_count` results are left and decoded; on failure `rets` is untouched; a pcall failure gives `err` the message when requested, and a non-function global leaves it empty; existing tables and registrations are kept |
| Luna.Lua.CallTableFunction | luna.h:848-861 | succeeds exactly when `table.function` (or the non-table global) is a function and the call returns; a pcall failure gives `err` the message when requested, a non-function callee leaves it empty; existing tables and registrations are kept |
| Luna.Lua.CallObjectFunction | luna.h:863-871 | for a registered object, succeeds exactly when the field `member` of its proxy is a function and the call returns, and a pcall failure gives `err` the message when requested while a non-function field leaves it empty; a NULL object, or one whose export is under way, fails with no message; success leaves and decodes the results; existing tables and registrations are kept |
| Luna.Guard.Release | luna.h:903 | the stack is cut or padded back to the recorded top |
| Luna.GuardedGlobalCall | luna.h:900-910 | a guarded call leaves the stack as it found it, whatever the outcome; it succeeds exactly when the global is a function and the call returns, and a pcall failure gives `err` the message when requested |
| Luna.ExportTwice | luna.h:552-694 | exporting the same object twice pushes the same value twice |
| Luna.DetachSevers | luna.h:697-723 | after detach, an earlier proxy has no object, and every member read through it is nil |
| Luna.FenceResets | luna.cpp:112-163 | after `_lua_del_fence`, the next `_lua_set_fence` returns true and marks the address again |

## Left out

- Floating-point types: the `is_floating_point` branches of the codec (luna.h:32-33, 54-55) and of the member accessors (luna.h:213-229) are not modelled.
- Lua's number-to-string and string-to-number coercions are not modelled. `lua_tostring`, `lua_tolstring`, `lua_tointeger` and `lua_tonumber` treat a value of the other kind as absent or 0. This includes number keys in the member hooks.
- Codec.SlotWrite: the integer setter (luna.h:205-211) converts through `lua_tonumber`, a double. The model is exact only for integers that a double holds exactly. Beyond that the C++ cast is undefined or rounds, and the model wraps the exact integer instead. A value outside the member's range is undefined in C++ even when a double holds it exactly, such as 300 into a `uint8_t` or -1 into an unsigned member; the model wraps it (300 becomes 44).
- Codec.SlotWriteReadBack: the integer read-back is not stated for unsigned 64-bit members. Their getter casts to `lua_Integer`, which reinterprets values at or above 2^63 as negative.
- `stackDump` (luna.cpp:18-43) and its calls are debug output only. The three-argument declaration (luna.h:18) has no definition.
- Luna.Lua.PushHandler: `lua_getfield` on a missing or non-table `debug` raises a Lua error in Lua. The model yields nil instead.
- Calls.MessageText: a non-string error message gives the empty text. In C++, assigning a NULL `const char*` to `std::string` is undefined.
- Luna.GetterValue: a data member with no storage reads as nil, and an item with an empty getter pushes nil (C++ would throw `bad_function_call`). The export macros never create either.
- Luna.Lua.GlobalBridgeCall: a proxy whose address is not a known wrapper returns 0.
- Luna.Lua.ObjectBridgeCall: it runs the adapter only when the second upvalue is an adapter pointer. Any other non-NULL pointer there is undefined in C++.
- Luna.Lua.MemberNewIndex requires a frame of at least three values, which Lua always passes to `__newindex`.
- Luna.Lua.SetTableFunction and Luna.Lua.SetTableCFunction require an acceptable stack index. Pseudo-indices (the registry, upvalues) are not modelled. Its postcondition names only a plain table. For a proxy, the effect is what `SetField` states.
- Luna.Lua.SetField models `lua_setfield` on the tables of this model only. On a non-table it does nothing, where Lua raises an error.
- What Lua code does inside `lua_pcall`, and how the collector decides what to reclaim, are outside the binding layer. They are parameters (`PcallOutcome`) or the external method `Collect`.
- The called function's own effects are not modelled: `PcallOutcome` only replaces the function and arguments on the stack. In the program, the Lua function can rewrite table fields and globals, or detach objects through bound natives. So the `KeepsTables` and `KeepsEntries` clauses of `CallPushed` and the `Call*Function` wrappers describe the binding layer's own steps (the exports of the pushed arguments), with the callee assumed to leave tables, globals, the registry and storage alone.
- Metatables that script code puts on its own tables or on `_G` are not modelled. `metatableOf` holds only the class metatables of proxies. So `FieldOf`, `GlobalValue`, `GetTableFunction` and `SetField` ignore any `__index` or `__newindex` of a script's table, such as a strict-mode `_G`.
- Luna.Lua.CallObjectFunction: success is stated exactly only for an object already registered before the call. For an object that `lua_get_object_function` exports during the call (luna.h:822), the contract says only that success needs a returning pcall. The callee is then a field of a proxy built within the call, which the model has no pre-state name for.
- The typed values a native callable returns are parameters. So are the pushes and count of a raw `int (lua_State*)` function. Native argument evaluation has no other effect in the model.
- The class name string behind `lua_get_meta_name` is the `metaName` of `ClassInfo`. It is never NULL, so the NULL meta-name checks (luna.h:343, 387) are not modelled.
- The registry key namespace is modelled by separate fields for `__objects__`, `__fence__` and the class metatables. Script code that overwrites those registry keys is not modelled.
- An `__objects__` value that is neither nil nor a table is not modelled.
- The stack between the Lua calls of one push-and-consume sequence is not modelled: the key and value of a `lua_rawset`, and the registry tables that `_lua_set_fence`, `_lua_del_fence` and `lua_detach` push and pop, appear only through their net effect.
- The `example/` directory documents usage; it is not part of the model.

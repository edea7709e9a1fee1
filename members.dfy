/** Class metadata: the member table lua_register_class builds from a
    class's export list, specified as functions. */
module Members {
  import opened LuaValues

  /** An entry of a class metatable: the `__name` luaL_newmetatable sets, a
      hook function, or a member item (a light userdata). */
  datatype MetaField = NameField(name: string) | HookField(f: FuncRef) | ItemField(item: MemberItem)

  /** The exported name of a member: one leading `m_` is dropped unless
      LUNA_KEEP_MEMBER_PREFIX is defined (`keep`). */
  function StripPrefix(name: string, keep: bool): (r: string)
    ensures keep ==> r == name
    ensures !keep && "m_" <= name ==> "m_" + r == name
    ensures !keep && !("m_" <= name) ==> r == name
  {
    if !keep && |name| >= 2 && name[0] == 'm' && name[1] == '_' then name[2..] else name
  }

  /** Only one prefix goes: `m_m_x` is exported as `m_x`. */
  lemma StripOnlyOnce(rest: string)
    ensures StripPrefix("m_m_" + rest, false) == "m_" + rest
  {
    assert ("m_m_" + rest)[..2] == "m_";
    assert ("m_m_" + rest)[2..] == "m_" + rest;
  }

  function VisibleName(item: MemberItem, keep: bool): string {
    match item.name
    case Some(n) => StripPrefix(n, keep)
    case None => ""
  }

  predicate AllNamed(items: seq<MemberItem>) {
    forall j :: 0 <= j < |items| ==> items[j].name.Some?
  }

  /** The export list ends at the first item without a name. */
  predicate HasTerminator(items: seq<MemberItem>) {
    exists k :: 0 <= k < |items| && items[k].name.None?
  }

  /** The items before the terminator, in order. */
  function Exported(items: seq<MemberItem>): (r: seq<MemberItem>)
    ensures AllNamed(r) && |r| <= |items| && r == items[..|r|]
    ensures |r| < |items| ==> items[|r|].name.None?
  {
    if items == [] || items[0].name.None? then []
    else [items[0]] + Exported(items[1..])
  }

  /** The terminator at `k` is the first one exactly when the exported
      items are the ones before it. */
  lemma {:induction false} ExportedUpTo(items: seq<MemberItem>, k: nat)
    requires k < |items| && items[k].name.None? && AllNamed(items[..k])
    ensures Exported(items) == items[..k]
  {
    if k > 0 {
      assert items[0] == items[..k][0];
      assert items[1..][..k - 1] == items[..k][1..];
      ExportedUpTo(items[1..], k - 1);
      assert items[..k] == [items[0]] + items[1..][..k - 1];
    }
  }

  /** Setting each item under its visible name, in list order (the
      `lua_rawset` of the registration loop). */
  function Install(m: map<string, MetaField>, items: seq<MemberItem>, keep: bool): map<string, MetaField>
    decreases |items|
  {
    if items == [] then m
    else
      var last := items[|items| - 1];
      Install(m, items[..|items| - 1], keep)[VisibleName(last, keep) := ItemField(last)]
  }

  /** One more item of the registration loop. */
  lemma InstallStep(m: map<string, MetaField>, items: seq<MemberItem>, keep: bool, i: nat)
    requires i < |items|
    ensures Install(m, items[..i + 1], keep) == Install(m, items[..i], keep)[VisibleName(items[i], keep) := ItemField(items[i])]
  {
    assert items[..i + 1][..i] == items[..i];
  }

  lemma AllNamedStep(items: seq<MemberItem>, i: nat)
    requires i < |items| && AllNamed(items[..i]) && items[i].name.Some?
    ensures AllNamed(items[..i + 1])
  {
    assert forall j :: 0 <= j < i ==> items[..i + 1][j] == items[..i][j];
  }

  /** A later item with the same visible name wins. */
  lemma {:induction false} InstallLastWins(m: map<string, MetaField>, items: seq<MemberItem>, keep: bool, k: nat)
    requires k < |items|
    requires forall j :: k < j < |items| ==> VisibleName(items[j], keep) != VisibleName(items[k], keep)
    ensures VisibleName(items[k], keep) in Install(m, items, keep)
    ensures Install(m, items, keep)[VisibleName(items[k], keep)] == ItemField(items[k])
  {
    if k < |items| - 1 {
      var init := items[..|items| - 1];
      assert forall j :: k < j < |init| ==> init[j] == items[j];
      InstallLastWins(m, init, keep, k);
    }
  }

  /** A name no item exports keeps whatever the metatable held. */
  lemma {:induction false} InstallKeeps(m: map<string, MetaField>, items: seq<MemberItem>, keep: bool, n: string)
    requires forall j :: 0 <= j < |items| ==> VisibleName(items[j], keep) != n
    ensures n in Install(m, items, keep) <==> n in m
    ensures n in m ==> Install(m, items, keep)[n] == m[n]
  {
    if items != [] {
      var init := items[..|items| - 1];
      assert forall j :: 0 <= j < |init| ==> init[j] == items[j];
      InstallKeeps(m, init, keep, n);
    }
  }

  /** Every name in the result is an old key or an item's visible name. */
  lemma {:induction false} InstallDomain(m: map<string, MetaField>, items: seq<MemberItem>, keep: bool, n: string)
    requires n in Install(m, items, keep) && n !in m
    ensures exists j :: 0 <= j < |items| && VisibleName(items[j], keep) == n
  {
    if items != [] {
      var init := items[..|items| - 1];
      var last := items[|items| - 1];
      if n != VisibleName(last, keep) {
        InstallDomain(m, init, keep, n);
        var j :| 0 <= j < |init| && VisibleName(init[j], keep) == n;
        assert items[j] == init[j];
      }
    }
  }

  /** luaL_newmetatable followed by the three hook rawsets: a new metatable
      holds `__name`; an existing one keeps its fields. */
  function WithHooks(existing: Option<map<string, MetaField>>, cls: ClassInfo): map<string, MetaField> {
    var base := if existing.Some? then existing.value else map["__name" := NameField(cls.metaName)];
    base["__index" := HookField(IndexHook(cls))]
        ["__newindex" := HookField(NewIndexHook(cls))]
        ["__gc" := HookField(GcHook(cls))]
  }

  /** The fields of the class metatable after lua_register_class. */
  function ClassFields(existing: Option<map<string, MetaField>>, cls: ClassInfo, keep: bool): map<string, MetaField> {
    Install(WithHooks(existing, cls), Exported(cls.items), keep)
  }

  /** What registration promises about a member name: the last exported
      item with that visible name is what the name maps to. */
  lemma ClassFieldsLookup(existing: Option<map<string, MetaField>>, cls: ClassInfo, keep: bool, k: nat)
    requires k < |Exported(cls.items)|
    requires var ex := Exported(cls.items);
      forall j :: k < j < |ex| ==> VisibleName(ex[j], keep) != VisibleName(ex[k], keep)
    ensures var ex := Exported(cls.items);
      && VisibleName(ex[k], keep) in ClassFields(existing, cls, keep)
      && ClassFields(existing, cls, keep)[VisibleName(ex[k], keep)] == ItemField(ex[k])
  {
    InstallLastWins(WithHooks(existing, cls), Exported(cls.items), keep, k);
  }

  /** The three hooks are installed unless an item's visible name is one of theirs. */
  lemma ClassFieldsHooks(existing: Option<map<string, MetaField>>, cls: ClassInfo, keep: bool)
    requires forall it :: it in Exported(cls.items) ==>
      VisibleName(it, keep) !in {"__index", "__newindex", "__gc"}
    ensures var f := ClassFields(existing, cls, keep);
      && "__index" in f && "__newindex" in f && "__gc" in f
      && f["__index"] == HookField(IndexHook(cls))
      && f["__newindex"] == HookField(NewIndexHook(cls))
      && f["__gc"] == HookField(GcHook(cls))
  {
    var ex := Exported(cls.items);
    var base := WithHooks(existing, cls);
    assert forall j :: 0 <= j < |ex| ==> ex[j] in ex;
    InstallKeeps(base, ex, keep, "__index");
    InstallKeeps(base, ex, keep, "__newindex");
    InstallKeeps(base, ex, keep, "__gc");
  }

  // The export macros (luna.h:777-785) and the terminator (luna.h:772).
  function ExportProperty(name: string, offset: nat): MemberItem {
    MemberItem(Some(name), offset, PropertyGetter, PropertySetter)
  }
  function ExportPropertyReadonly(name: string, offset: nat): MemberItem {
    MemberItem(Some(name), offset, PropertyGetter, NoSetter)
  }
  function ExportMethod(name: string, adapter: Adapter): MemberItem {
    MemberItem(Some(name), 0, MethodGetter(adapter), MethodSetter)
  }
  function ExportMethodReadonly(name: string, adapter: Adapter): MemberItem {
    MemberItem(Some(name), 0, MethodGetter(adapter), NoSetter)
  }
  function Terminator(): MemberItem {
    MemberItem(None, 0, NoGetter, NoSetter)
  }
}

/** `odbk_load_lua_internal` and `odbk_install`: where the symbols come from, and
    what the parts guarantee together. */
module Install {
  import opened Common
  import opened ImportWalk
  import opened WalkHistory
  import opened SymbolLoader
  import opened LuaApi
  import opened Binder
  import opened ExportNames
  import opened MinHook
  import opened LuaHooks
  import opened FreshHooks
  import PE = PeImage
  import PW = PeWriter

  const BUILTIN_MODULES: seq<string> := [
      "lua51.dll", "lua52.dll", "lua53.dll", "liblua51.dll", "liblua52.dll", "liblua53.dll",
      "slua.dll", "ulua.dll", "tolua.dll", "xlua.dll"
    ]

  // --------------------------------------------------------------- the sources

  /** The first of `names` that is loaded; NULL when none is. */
  function FirstLoaded(core: Process, names: seq<string>): Handle {
    if names == [] then NULL
    else if core.HandleOf(names[0]) != NULL then core.HandleOf(names[0])
    else FirstLoaded(core, names[1..])
  }

  function FromExports(view: PE.View, h: Handle, symbols: Symbols): Symbols {
    PE.EmplaceAll(symbols, PE.Exports(view, h))
  }

  /** The symbols after one load. */
  ghost function Loaded(core: Process, view: PE.View, names: seq<string>, d: Search, hLua: Handle): Symbols
    requires d.process == core
  {
    if hLua != NULL then FromExports(view, hLua, map[])
    else
      var h := FirstLoaded(core, names);
      var listed := if h != NULL then FromExports(view, h, d.initial) else d.initial;
      if listed == map[] then Discover(d.(initial := map[])).symbols else listed
  }

  /** `names[j]` is the first name that belongs to a loaded module. */
  ghost predicate IsFirstLoaded(core: Process, names: seq<string>, j: nat) {
    && j < |names| && names[j] in core.byName && core.byName[names[j]] != 0
    && NoneLoaded(core, names[..j])
  }

  ghost predicate NoneLoaded(core: Process, names: seq<string>) {
    forall i :: 0 <= i < |names| && names[i] in core.byName ==> core.byName[names[i]] == 0
  }

  /** What the search through a list finds. */
  lemma {:induction false} FirstLoadedIs(core: Process, names: seq<string>)
    ensures forall j: nat :: IsFirstLoaded(core, names, j) ==> FirstLoaded(core, names) == core.byName[names[j]]
    ensures NoneLoaded(core, names) <==> FirstLoaded(core, names) == 0
    decreases |names|
  {
    if names != [] {
      var rest := names[1..];
      FirstLoadedIs(core, rest);
      assert forall i :: 0 < i < |names| ==> names[i] == rest[i - 1];
      forall j: nat | IsFirstLoaded(core, names, j)
        ensures FirstLoaded(core, names) == core.byName[names[j]]
      {
        if j > 0 {
          assert forall i :: 0 <= i < j ==> names[..j][i] == names[i];
          assert rest[..j - 1] == names[..j][1..];
          assert IsFirstLoaded(core, rest, j - 1);
        }
      }
    }
  }

  /** The first listed module that is loaded, and no other, has its exports read. */
  method LoadFirstListed(core: Process, view: PE.View, ctx: LuaContext)
    modifies ctx`symbols
    ensures forall j: nat :: IsFirstLoaded(core, ctx.specifiedModules, j) ==>
      ctx.symbols == PE.EmplaceAll(old(ctx.symbols), PE.Exports(view, core.byName[ctx.specifiedModules[j]]))
    ensures NoneLoaded(core, ctx.specifiedModules) ==> ctx.symbols == old(ctx.symbols)
    ensures var h := FirstLoaded(core, ctx.specifiedModules);
      ctx.symbols == if h != NULL then FromExports(view, h, old(ctx.symbols)) else old(ctx.symbols)
  {
    FirstLoadedIs(core, ctx.specifiedModules);
    var names := ctx.specifiedModules;
    for i := 0 to |names|
      invariant ctx.symbols == old(ctx.symbols)
      invariant FirstLoaded(core, names[i..]) == FirstLoaded(core, names)
    {
      var handle := core.HandleOf(names[i]);
      assert names[i..][1..] == names[i + 1..];
      if handle != NULL {
        ctx.symbols := PE.GetExports(view, handle, ctx.symbols);
        return;
      }
    }
  }

  /** The part of `odbk_load_lua_internal` before the binder. */
  method CollectAllSymbols(core: Process, view: PE.View, ctx: LuaContext, hLua: Handle)
    requires Agrees(core, view)
    modifies ctx`specifiedModules, ctx`symbols, ctx`keyModule, ctx`keyModuleName
    ensures hLua == NULL && old(ctx.specifiedModules) == [] ==>
      ctx.specifiedModules == ["lua51.dll", "lua52.dll", "lua53.dll", "liblua51.dll", "liblua52.dll", "liblua53.dll",
        "slua.dll", "ulua.dll", "tolua.dll", "xlua.dll"]
    ensures hLua != NULL || old(ctx.specifiedModules) != [] ==> ctx.specifiedModules == old(ctx.specifiedModules)
    ensures ctx.symbols == Loaded(core, view, ctx.specifiedModules,
      Search(core, ctx.restricts, old(ctx.symbols), old(ctx.Key())), hLua)
  {
    if hLua == NULL {
      if ctx.specifiedModules == [] {
        ctx.specifiedModules := BUILTIN_MODULES;
      }
      LoadFirstListed(core, view, ctx);
      if ctx.symbols == map[] {
        var _, _ := LoadSymFromAppModules(core, view, ctx);
      }
    } else {
      ctx.symbols := map[];
      ctx.symbols := PE.GetExports(view, hLua, ctx.symbols);
    }
  }

  /** `odbk_load_lua_internal`: the answer is acceptance of the collected symbols. */
  method LoadLuaInternal(core: Process, view: PE.View, ctx: LuaContext, api: ApiTable, hLua: Handle)
    returns (accepted: bool)
    requires Agrees(core, view)
    modifies ctx, api
    ensures ctx.symbols == Loaded(core, view, ctx.specifiedModules,
      Search(core, old(ctx.restricts), old(ctx.symbols), old(ctx.Key())), hLua)
    ensures accepted == Accepts(ctx.symbols)
    ensures IsLua(ctx.symbols) ==>
      && ctx.version == Detect(ctx.symbols, old(VersionOf(ctx))).value.version
      && api.pointers == old(api.pointers) + Bindings(ctx.symbols, ctx.version)
    ensures !IsLua(ctx.symbols) ==> ctx.version == old(ctx.version) && api.pointers == old(api.pointers)
  {
    CollectAllSymbols(core, view, ctx, hLua);
    accepted := FinishLoad(ctx, api);
  }

  /** `odbk_load_lua`: what a caller sees of it, in the names that engines export. */
  method LoadLua(core: Process, view: PE.View, ctx: LuaContext, api: ApiTable, hLua: Handle) returns (accepted: bool)
    requires Agrees(core, view)
    modifies ctx, api
    ensures accepted == AcceptsByName(ctx.symbols)
    ensures accepted && old(api.pointers) == map[] ==> IsNamedTable(ctx.symbols, api.pointers)
  {
    accepted := LoadLuaInternal(core, view, ctx, api, hLua);
    LoadByName(ctx.symbols, old(VersionOf(ctx)), ctx.version, old(api.pointers), api.pointers);
  }

  lemma LoadByName(symbols: Symbols, info: VersionInfo, version: int, before: Pointers, after: Pointers)
    requires IsLua(symbols) ==> version == Detect(symbols, info).value.version && after == before + Bindings(symbols, version)
    ensures Accepts(symbols) == AcceptsByName(symbols)
    ensures Accepts(symbols) && before == map[] ==> IsNamedTable(symbols, after)
  {
    AcceptsIffByName(symbols);
    if IsLua(symbols) && before == map[] {
      assert map[] + Bindings(symbols, version) == Bindings(symbols, version);
      AcceptedTableIsNamed(symbols, info, after);
    }
  }

  /** `odbk_install` hooks whatever was bound, also after a rejected load. */
  method OdbkInstall(core: Process, view: PE.View, ctx: LuaContext, api: ApiTable, engine: Engine, hModule: Handle)
    requires Agrees(core, view)
    modifies ctx, api, engine
    ensures ctx.symbols == Loaded(core, view, ctx.specifiedModules,
      Search(core, old(ctx.restricts), old(ctx.symbols), old(ctx.Key())), hModule)
    ensures var bound := if IsLua(ctx.symbols) then Bindings(ctx.symbols, ctx.version) else map[];
      StateOf(engine, api) ==
        Enable(HookAll(engine.lib, HookState(old(engine.code), old(engine.created), old(api.pointers) + bound),
          LuaInstalls(ctx.version)))
    ensures var before := HookState(old(engine.code), old(engine.created), Bindings(ctx.symbols, ctx.version));
      old(api.pointers) == map[] && engine.lib.Valid() && Accepts(ctx.symbols) && Unhooked(before) ==>
        InstallIsTransparent(engine.lib, before, StateOf(engine, api), BoundBy(ctx.symbols), DetourFor(ctx.version),
          HookOrder(ctx.version))
  {
    var _ := LoadLuaInternal(core, view, ctx, api, hModule);
    ghost var bound := if IsLua(ctx.symbols) then Bindings(ctx.symbols, ctx.version) else map[];
    assert api.pointers == old(api.pointers) + bound;
    InstallLuaHooks(engine, api, ctx.version);
    FirstInstall(engine.lib, old(engine.code), old(engine.created), old(api.pointers), ctx.symbols, old(VersionOf(ctx)));
  }

  lemma FirstInstall(lib: Library, code: map<nat, Code>, created: map<nat, Detour>, pointers: Pointers, symbols: Symbols,
                     info: VersionInfo)
    ensures Accepts(symbols) ==>
      var version := Detect(symbols, info).value.version;
      var before := HookState(code, created, Bindings(symbols, version));
      var hooked := HookState(code, created, pointers + Bindings(symbols, version));
      pointers == map[] && lib.Valid() && Unhooked(before) ==>
        InstallIsTransparent(lib, before, Installed(lib, hooked, LuaInstalls(version)), BoundBy(symbols),
          DetourFor(version), HookOrder(version))
  {
    if Accepts(symbols) && pointers == map[] && lib.Valid() {
      var version := Detect(symbols, info).value.version;
      var before := HookState(code, created, Bindings(symbols, version));
      assert map[] + Bindings(symbols, version) == Bindings(symbols, version);
      if Unhooked(before) { AcceptedLoadIsTransparent(lib, before, symbols, info); }
    }
  }

  // ---------------------------------------------------------- source selection

  /** The edges of the import graph are what the linker wrote: for an image anywhere in
      memory, the modules its live descriptors name, in order, where they resolve. */
  lemma WrittenDescriptorsAreEdges(core: Process, mem: PE.Memory, h: Handle, l: PW.Layout, t: PW.Tables)
    requires Agrees(core, PE.ViewOf(mem)) && PW.Loaded(mem, h, l, t)
    ensures core.Imports(h) == core.Resolve(PW.Live(t.imports))
  {
    PW.ImportsRoundTrip(mem, h, l, t);
    assert core.Image(h).imports == PE.ImportList(PE.ViewOf(mem), h);
  }

  /** From a fresh context the symbols are the exports of the first listed module
      that is loaded, if it has any, and otherwise what the walk finds alone: an
      address never comes from both. */
  lemma FreshSelection(core: Process, view: PE.View, names: seq<string>, d: Search)
    requires d.process == core && d.initial == map[]
    ensures forall j: nat :: IsFirstLoaded(core, names, j) ==>
      Loaded(core, view, names, d, 0) ==
        if PE.Exports(view, core.byName[names[j]]) != [] then PE.EmplaceAll(map[], PE.Exports(view, core.byName[names[j]]))
        else Discover(d).symbols
    ensures NoneLoaded(core, names) ==> Loaded(core, view, names, d, 0) == Discover(d).symbols
  {
    var h := FirstLoaded(core, names);
    FirstLoadedIs(core, names);
    if h != NULL {
      var exports := PE.Exports(view, h);
      PE.EmplaceAllDomain(map[], exports);
      if exports != [] {
        assert exports[0].name in FromExports(view, h, map[]);
      }
    }
    assert d.(initial := map[]) == d;
  }

  /** From a context that has symbols already there is no walk: they are kept, and only
      extended by the exports of the first listed module that is loaded. */
  lemma LaterSelection(core: Process, view: PE.View, names: seq<string>, d: Search)
    requires d.process == core && d.initial != map[]
    ensures forall j: nat :: IsFirstLoaded(core, names, j) ==>
      Loaded(core, view, names, d, 0) == PE.EmplaceAll(d.initial, PE.Exports(view, core.byName[names[j]]))
    ensures NoneLoaded(core, names) ==> Loaded(core, view, names, d, 0) == d.initial
  {
    var h := FirstLoaded(core, names);
    FirstLoadedIs(core, names);
    if h != NULL { PE.EmplaceAllDomain(d.initial, PE.Exports(view, h)); }
    var n :| n in d.initial;
  }

  /** With a handle given, nothing of an earlier load remains. */
  lemma HandleSelection(core: Process, view: PE.View, names: seq<string>, more: seq<string>, d: Search, e: Search,
                        hLua: Handle)
    requires d.process == e.process == core && hLua != NULL
    ensures Loaded(core, view, names, d, hLua) == Loaded(core, view, more, e, hLua)
    ensures Loaded(core, view, names, d, hLua) == PE.EmplaceAll(map[], PE.Exports(view, hLua))
    ensures forall n :: n in Loaded(core, view, names, d, hLua) <==>
      exists i :: 0 <= i < |PE.Exports(view, hLua)| && PE.Exports(view, hLua)[i].name == n
  {
    PE.EmplaceAllDomain(map[], PE.Exports(view, hLua));
  }

  /** Without a handle an earlier result is kept and only ever extended, so a repeated
      load that was accepted is accepted again. */
  lemma RepeatedLoadStaysAccepted(core: Process, view: PE.View, names: seq<string>, d: Search)
    requires d.process == core && Accepts(d.initial)
    ensures Accepts(Loaded(core, view, names, d, NULL))
  {
    var h := FirstLoaded(core, names);
    if h != NULL { PE.EmplaceAllDomain(d.initial, PE.Exports(view, h)); }
    var listed := if h != NULL then FromExports(view, h, d.initial) else d.initial;
    AcceptanceIsMonotone(d.initial, listed);
    assert listed != map[];
  }

  /** Visiting further modules never turns an accepted state into a rejected one. */
  lemma VisitingKeepsAcceptance(d: Search, order: seq<Handle>, k: nat)
    requires k <= |order| && Accepts(SymbolsAfter(d, order[..k]))
    ensures Accepts(SymbolsAfter(d, order))
  {
    FoldKeeps(d, order, k);
    AcceptanceIsMonotone(SymbolsAfter(d, order[..k]), SymbolsAfter(d, order));
  }

  /** As shipped nothing fills `restricts`; then the walk adds nothing, and a load
      that has to rely on it is rejected. */
  lemma WalkWithoutRestrictsIsRejected(d: Search)
    requires d.restricts == {} && d.initial == map[]
    ensures Discover(d).symbols == map[] && !Accepts(Discover(d).symbols)
  {
    DiscoverRecords(d);
    FoldDomain(d, Discover(d).order);
    assert forall h, n :: !Offers(d, h, n);
  }
}

/** `load_sym_from_module` and `load_sym_from_app_modules` in the form of the
    source: recursion and loops that update the Lua context in place. */
module SymbolLoader {
  import opened Common
  import opened SymbolMerge
  import opened ImportWalk
  import opened WalkHistory
  import opened WalkReach
  import PE = PeImage

  /** The part of `odbk_lua_context` that loading and binding update. */
  class LuaContext {
    var specifiedModules: seq<string>
    var symbols: Symbols
    var restricts: set<string>
    var keyModule: Handle
    var keyModuleName: string
    var version: int
    var registryIndex: int
    var globalsIndex: int
    var hookTailCall: int

    constructor ()
      ensures specifiedModules == [] && symbols == map[] && restricts == {}
      ensures keyModule == NULL && keyModuleName == "" && version == 510
    {
      specifiedModules, symbols, restricts := [], map[], {};
      keyModule, keyModuleName, version := NULL, "", 510;
      registryIndex, globalsIndex, hookTailCall := 0, 0, 0;
    }

    ghost function Key(): KeyModule
      reads this
    {
      KeyModule(keyModule, keyModuleName)
    }
  }

  /** `load_sym_context`; `order` and `calls` only record what happened. */
  class LoadSymContext {
    var loadedModules: set<Handle>
    ghost var order: seq<Handle>
    ghost var calls: nat

    constructor ()
      ensures loadedModules == {} && order == [] && calls == 0
    {
      loadedModules, order, calls := {}, [], 0;
    }

    ghost predicate Valid()
      reads this
    {
      loadedModules == Elements(order)
    }
  }

  ghost function State(ctx: LuaContext, context: LoadSymContext): WalkState
    reads ctx, context
  {
    WalkState(ctx.symbols, ctx.Key(), context.order, context.calls)
  }

  method GatherSymbolsCallback(ctx: LuaContext, info: SymbolInfo)
    modifies ctx`symbols
    ensures ctx.symbols == Gather(ctx.restricts, old(ctx.symbols), info)
    ensures info.name in ctx.restricts && info.name !in old(ctx.symbols) && info.address < 0x1_0000_0000 ==>
      ctx.symbols == old(ctx.symbols)[info.name := info.address]
    ensures info.name !in ctx.restricts || info.name in old(ctx.symbols) ==> ctx.symbols == old(ctx.symbols)
  {
    if info.name in ctx.restricts {
      if info.name !in ctx.symbols {
        ctx.symbols := ctx.symbols[info.name := ToAddress(info.address)];
      }
    }
  }

  /** DbgHelp's enumeration: the callback runs once per symbol, in order. */
  method SymEnumSymbols(ctx: LuaContext, infos: seq<SymbolInfo>)
    modifies ctx`symbols
    ensures ctx.symbols == Merge(ctx.restricts, old(ctx.symbols), infos)
  {
    for i := 0 to |infos|
      invariant Merge(ctx.restricts, ctx.symbols, infos[i..]) == Merge(ctx.restricts, old(ctx.symbols), infos)
    {
      GatherSymbolsCallback(ctx, infos[i]);
      assert infos[i..][1..] == infos[i + 1..];
    }
  }

  /** The middle of `load_sym_from_module`: enumerate the module's symbols and
      keep track of the key module. */
  method CollectSymbols(h: Handle, core: Process, ctx: LuaContext, ghost d: Search) returns (foundLuaFunctions: bool)
    requires d.process == core && d.restricts == ctx.restricts
    modifies ctx`symbols, ctx`keyModule, ctx`keyModuleName
    ensures ctx.symbols == Contribute(d, old(ctx.symbols), h)
    ensures foundLuaFunctions <==> |old(ctx.symbols)| < |ctx.symbols|
    ensures ctx.Key() == if foundLuaFunctions then NextKey(d, old(ctx.Key()), h) else old(ctx.Key())
  {
    var image := core.Image(h);
    foundLuaFunctions := false;
    if image.symbolBase != 0 {
      var currentSize := |ctx.symbols|;
      SymEnumSymbols(ctx, image.symbols);
      foundLuaFunctions := currentSize < |ctx.symbols|;
      if foundLuaFunctions {
        if ctx.keyModule == NULL || h != core.appModule {
          ctx.keyModule := h;
          ctx.keyModuleName := image.baseName;
        }
      }
    }
  }

  /** The import names of the process table are those the image reader finds in memory. */
  ghost predicate Agrees(core: Process, view: PE.View) {
    forall h :: core.Image(h).imports == PE.ImportList(view, h)
  }

  method ReadImports(h: Handle, core: Process, view: PE.View) returns (imports: seq<string>)
    requires Agrees(core, view)
    ensures imports == core.Image(h).imports
  {
    var ok, names := PE.GetImports(view, h, []);
    imports := names;
  }

  method LoadSymFromModule(h: Handle, core: Process, view: PE.View, ctx: LuaContext, context: LoadSymContext,
                           ghost d: Search)
    requires d.process == core && Agrees(core, view) && d.restricts == ctx.restricts && context.Valid()
    modifies ctx`symbols, ctx`keyModule, ctx`keyModuleName, context
    ensures context.Valid()
    ensures State(ctx, context) == Walk(d, h, old(State(ctx, context)))
    decreases core.modules.Keys - context.loadedModules, 0, 1
  {
    ghost var before := State(ctx, context);
    context.calls := context.calls + 1;
    if h == core.appInst {
      return;
    }
    if h in context.loadedModules {
      return;
    }
    EnterShrinks(d, h, before);
    context.loadedModules := context.loadedModules + {h};
    context.order := context.order + [h];

    var foundLuaFunctions := CollectSymbols(h, core, ctx, d);
    assert State(ctx, context) == Enter(d, h, before);
    if foundLuaFunctions {
      if |ctx.symbols| >= ENOUGH_SYMBOLS {
        return;
      }
    }
    var imports := ReadImports(h, core, view);
    LoadSymFromImports(imports, core, view, ctx, context, d);
  }

  /** The loop at the end of `load_sym_from_module`. */
  method LoadSymFromImports(imports: seq<string>, core: Process, view: PE.View, ctx: LuaContext,
                            context: LoadSymContext, ghost d: Search)
    requires d.process == core && Agrees(core, view) && d.restricts == ctx.restricts && context.Valid()
    modifies ctx`symbols, ctx`keyModule, ctx`keyModuleName, context
    ensures context.Valid()
    ensures State(ctx, context) == WalkAll(d, core.Resolve(imports), old(State(ctx, context)))
    decreases core.modules.Keys - context.loadedModules, |imports|, 0
  {
    ghost var start := State(ctx, context);
    for i := 0 to |imports|
      invariant context.Valid() && start.order <= context.order
      invariant WalkAll(d, core.Resolve(imports[i..]), State(ctx, context)) == WalkAll(d, core.Resolve(imports), start)
    {
      var importModule := core.HandleOf(imports[i]);
      assert imports[i..][1..] == imports[i + 1..];
      ResolveCons(core, imports[i..]);
      if importModule != NULL {
        UnvisitedShrinks(d, start.order, context.order);
        LoadSymFromModule(importModule, core, view, ctx, context, d);
      }
    }
  }

  lemma ResolveCons(core: Process, names: seq<string>)
    requires names != []
    ensures if core.HandleOf(names[0]) != NULL
      then core.Resolve(names) == [core.HandleOf(names[0])] + core.Resolve(names[1..])
           && core.Resolve(names)[1..] == core.Resolve(names[1..])
      else core.Resolve(names) == core.Resolve(names[1..])
  {
  }

  /** The snapshot loop. Everything the walk's theorems say about `Discover` is
      true of the context afterwards; they are restated here in its terms. */
  method LoadSymFromAppModules(core: Process, view: PE.View, ctx: LuaContext)
    returns (ghost d: Search, context: LoadSymContext)
    requires Agrees(core, view)
    modifies ctx`symbols, ctx`keyModule, ctx`keyModuleName
    ensures d == Search(core, ctx.restricts, old(ctx.symbols), old(ctx.Key()))
    ensures fresh(context) && context.Valid()
    ensures State(ctx, context) == Discover(d)
    ensures core.snapshot.Some? ==>
      forall h :: h in core.snapshot.value && h != core.appInst ==> h in context.loadedModules
    ensures core.snapshot.None? && core.appModule != core.appInst ==> core.appModule in context.loadedModules
    ensures forall h :: h in context.loadedModules <==> Reachable(d, CutModules(d, context.order), h)
  {
    context := new LoadSymContext();
    d := Search(core, ctx.restricts, ctx.symbols, ctx.Key());
    ghost var start := State(ctx, context);
    assert start == Start(d);
    if core.snapshot.Some? {
      var entries := core.snapshot.value;
      for i := 0 to |entries|
        invariant context.Valid()
        invariant WalkAll(d, entries[i..], State(ctx, context)) == WalkAll(d, entries, start)
      {
        assert entries[i..][1..] == entries[i + 1..];
        LoadSymFromModule(entries[i], core, view, ctx, context, d);
      }
    } else {
      LoadSymFromModule(core.appModule, core, view, ctx, context, d);
      assert WalkAll(d, [], State(ctx, context)) == State(ctx, context);
      assert WalkAll(d, [core.appModule], start) == WalkAll(d, [], Walk(d, core.appModule, start));
    }
    VisitsExactlyTheReachable(d);
    EveryVisitIsClosedOrCut(d);
  }
}

/** The symbol search over the import graph, as a function on values:
    `load_sym_from_module` and the loop of `load_sym_from_app_modules`. */
module ImportWalk {
  import opened Common
  import opened SymbolMerge

  /** What the operating system and DbgHelp report about one loaded module.
      `symbolBase` is the final result of `SymLoadModule64`, 0 when it failed. */
  datatype ModuleImage = ModuleImage(
    baseName: string,
    symbolBase: nat,
    symbols: seq<SymbolInfo>,
    imports: seq<string>)

  /** The process being debugged. `byName` answers `GetModuleHandleA`. `snapshot` is
      `None` for a null snapshot handle, which is what the source tests; a snapshot that
      fails has INVALID_HANDLE_VALUE and lists no module, `Some([])`. */
  datatype Process = Process(
    modules: map<Handle, ModuleImage>,
    byName: map<string, Handle>,
    snapshot: Option<seq<Handle>>,
    appInst: Handle,
    appModule: Handle)
  {
    /** nullptr and unknown handles have no symbols and no import table. */
    function Image(h: Handle): ModuleImage {
      if h != NULL && h in modules then modules[h] else ModuleImage("", 0, [], [])
    }

    function HandleOf(name: string): Handle {
      if name in byName then byName[name] else NULL
    }

    /** The import names that resolve to a loaded module, in order. */
    function Resolve(names: seq<string>): seq<Handle> {
      if names == [] then []
      else (if HandleOf(names[0]) != NULL then [HandleOf(names[0])] else []) + Resolve(names[1..])
    }

    function Imports(h: Handle): seq<Handle> {
      Resolve(Image(h).imports)
    }

    function Roots(): seq<Handle> {
      if snapshot.Some? then snapshot.value else [appModule]
    }
  }

  datatype KeyModule = KeyModule(handle: Handle, name: string)

  /** One search: the process, the wanted names and the state it starts from. */
  datatype Search = Search(
    process: Process,
    restricts: set<string>,
    initial: Symbols,
    initialKey: KeyModule)

  /** `order` lists the visited modules, first visit first; `calls` counts the
      entries to `load_sym_from_module`. */
  datatype WalkState = WalkState(symbols: Symbols, key: KeyModule, order: seq<Handle>, calls: nat)

  /** `symbols.size() >= 166` in `load_sym_from_module`. */
  const ENOUGH_SYMBOLS := 166

  function Contribute(d: Search, symbols: Symbols, h: Handle): Symbols {
    var image := d.process.Image(h);
    if image.symbolBase != 0 then Merge(d.restricts, symbols, image.symbols) else symbols
  }

  function NextKey(d: Search, key: KeyModule, h: Handle): KeyModule {
    if key.handle == NULL || h != d.process.appModule
    then KeyModule(h, d.process.Image(h).baseName)
    else key
  }

  function Enter(d: Search, h: Handle, st: WalkState): WalkState {
    var symbols := Contribute(d, st.symbols, h);
    var key := if |st.symbols| < |symbols| then NextKey(d, st.key, h) else st.key;
    WalkState(symbols, key, st.order + [h], st.calls + 1)
  }

  /** A module that found something and completed the set does not descend. */
  predicate CutsOff(before: Symbols, after: Symbols) {
    |before| < |after| && |after| >= ENOUGH_SYMBOLS
  }

  ghost function Unvisited(d: Search, order: seq<Handle>): set<Handle> {
    d.process.modules.Keys - Elements(order)
  }

  ghost function Walk(d: Search, h: Handle, st: WalkState): (r: WalkState)
    ensures st.order <= r.order
    decreases Unvisited(d, st.order), 0, 1
  {
    if h == d.process.appInst || h in st.order then st.(calls := st.calls + 1)
    else
      var entered := Enter(d, h, st);
      if CutsOff(st.symbols, entered.symbols) then entered
      else
        assert h in d.process.modules ==> h in Unvisited(d, st.order) && h !in Unvisited(d, entered.order);
        assert Unvisited(d, entered.order) <= Unvisited(d, st.order);
        assert h !in d.process.modules ==> Unvisited(d, entered.order) == Unvisited(d, st.order);
        WalkAll(d, d.process.Imports(h), entered)
  }

  ghost function WalkAll(d: Search, hs: seq<Handle>, st: WalkState): (r: WalkState)
    ensures st.order <= r.order
    decreases Unvisited(d, st.order), |hs|, 0
  {
    if hs == [] then st
    else
      var first := Walk(d, hs[0], st);
      assert Unvisited(d, first.order) <= Unvisited(d, st.order);
      WalkAll(d, hs[1..], first)
  }

  ghost function Start(d: Search): WalkState {
    WalkState(d.initial, d.initialKey, [], 0)
  }

  /** The whole search. */
  ghost function Discover(d: Search): WalkState {
    WalkAll(d, d.process.Roots(), Start(d))
  }

  // ------------------------------------------------------------ the import graph

  /** What the import list up to name `k` adds to the one before it: the module of that
      name, if it is loaded. */
  lemma {:induction false} ResolveNext(p: Process, names: seq<string>, k: nat)
    requires k < |names|
    ensures p.Resolve([]) == []
    ensures p.Resolve(names[..k + 1]) == p.Resolve(names[..k]) +
      if names[k] in p.byName && p.byName[names[k]] != 0 then [p.byName[names[k]]] else []
    decreases k
  {
    var front, longer := names[..k], names[..k + 1];
    if k == 0 {
      assert longer[1..] == [];
    } else {
      ResolveNext(p, names[1..], k - 1);
      assert names[1..][..k - 1] == front[1..] && names[1..][..k] == longer[1..];
    }
  }

  /** The edges of the graph: the loaded modules that a loaded module names. */
  lemma ImportsAre(p: Process, h: Handle, x: Handle)
    ensures x in p.Imports(h) <==>
      && h != 0 && h in p.modules && x != 0
      && var names := p.modules[h].imports;
      exists j :: 0 <= j < |names| && names[j] in p.byName && p.byName[names[j]] == x
  {
    if h != NULL && h in p.modules {
      ResolveContains(p, p.modules[h].imports, x);
    }
  }

  lemma {:induction false} ResolveContains(p: Process, names: seq<string>, x: Handle)
    ensures x in p.Resolve(names) <==>
      x != 0 && exists j :: 0 <= j < |names| && names[j] in p.byName && p.byName[names[j]] == x
    decreases |names|
  {
    if names != [] {
      var n := |names| - 1;
      ResolveContains(p, names[..n], x);
      ResolveNext(p, names, n);
      assert names[..n + 1] == names;
    }
  }
}

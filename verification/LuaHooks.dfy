/** `odbk_install_lua_hooks` and the calls that go through its detours. */
module LuaHooks {
  import opened Common
  import opened LuaApi
  import opened MinHook

  // ------------------------------------------------------------------ the list

  const FIRST_HOOKS: seq<Api> := [
      LuaOpen, LuaNewstate, LuaLNewstate, LuaopenBase, LuaClose, LuaNewthread, LuaPcall, LuaPcallk, LuaCall, LuaCallk
    ]

  const LATER_HOOKS: seq<Api> := [
      LuaLNewmetatable, LuaSethook, LuaLLoadbufferx, LuaLLoadbuffer, LuaLLoadfilex, LuaLLoadfile, LuaLoad,
      LuaLNewstate, LuaLOpenlibs
    ]

  /** The functions in the order they are hooked; `luaL_newstate` appears twice. */
  function HookOrder(version: int): seq<Api> {
    FIRST_HOOKS + LATER_HOOKS + (if version < 530 then [LuaIOpenlib] else [])
  }

  /** Before 5.2 `lua_load` has no mode parameter and gets a detour of its own. */
  function DetourFor(version: int): Api -> Detour {
    (f: Api) => if f == LuaLoad && version <= 510 then LuaLoad510Hook else HookOf(f)
  }

  function InstallsOf(detours: Api -> Detour, order: seq<Api>): seq<Install> {
    seq(|order|, i requires 0 <= i < |order| => Install(order[i], detours(order[i])))
  }

  function LuaInstalls(version: int): seq<Install> {
    InstallsOf(DetourFor(version), HookOrder(version))
  }

  lemma InstallsOfOrder(detours: Api -> Detour, order: seq<Api>)
    ensures Uses(InstallsOf(detours, order), detours)
    ensures forall f :: Installs(InstallsOf(detours, order), f) <==> f in order
  {
    var installs := InstallsOf(detours, order);
    forall f | f in order
      ensures Installs(installs, f)
    {
      var i :| 0 <= i < |order| && order[i] == f;
      assert installs[i].f == f;
    }
  }

  method InstallLuaHooks(engine: Engine, api: ApiTable, version: int)
    modifies engine, api
    ensures StateOf(engine, api) == Enable(HookAll(engine.lib, old(StateOf(engine, api)), LuaInstalls(version)))
  {
    HookAndEnable(engine, api, LuaInstalls(version));
  }

  method HookAndEnable(engine: Engine, api: ApiTable, installs: seq<Install>)
    modifies engine, api
    ensures StateOf(engine, api) == Enable(HookAll(engine.lib, old(StateOf(engine, api)), installs))
  {
    HookEach(engine, api, installs);
    engine.EnableHook();
  }

  method HookEach(engine: Engine, api: ApiTable, installs: seq<Install>)
    modifies engine, api
    ensures StateOf(engine, api) == HookAll(engine.lib, old(StateOf(engine, api)), installs)
  {
    ghost var before := StateOf(engine, api);
    for i := 0 to |installs|
      invariant StateOf(engine, api) == HookAll(engine.lib, before, installs[..i])
    {
      var _ := OdbkHook(engine, api, installs[i].f, installs[i].detour);
      HookAllNext(engine.lib, before, installs, i);
    }
    assert installs[..|installs|] == installs;
  }

  lemma HookAllNext(lib: Library, before: HookState, installs: seq<Install>, i: nat)
    requires i < |installs|
    ensures HookAll(lib, before, installs[..i + 1]) == Hook(lib, HookAll(lib, before, installs[..i]), installs[i])
  {
    assert installs[..i + 1][..i] == installs[..i];
  }

  // -------------------------------------------------------------- the dispatch

  /** The function a detour is written for. */
  function Owner(detour: Detour): Api {
    if detour.HookOf? then detour.f else LuaLoad
  }

  /** The first of two functions whose pointer is not null. */
  function FirstBound(pointers: Pointers, first: Api, second: Api): Option<Api> {
    if PointerOf(pointers, first) != 0 then Some(first)
    else if PointerOf(pointers, second) != 0 then Some(second)
    else None
  }

  /** The API function that the detour of `f` forwards to; `None` is its own -1. */
  function Dispatch(pointers: Pointers, f: Api): Option<Api> {
    if f == LuaLLoadbufferx || f == LuaLLoadbuffer then FirstBound(pointers, LuaLLoadbufferx, LuaLLoadbuffer)
    else if f == LuaLLoadfilex || f == LuaLLoadfile then FirstBound(pointers, LuaLLoadfilex, LuaLLoadfile)
    else Some(f)
  }

  datatype Event = Ran(detour: Detour) | Reached(origin: nat)

  /** What happens when `a` is called, for at most `fuel` jumps. The code of an
      original ends the trace. */
  function Calls(st: HookState, a: nat, fuel: nat): seq<Event>
    decreases fuel
  {
    if fuel == 0 || a !in st.code then []
    else match st.code[a]
      case Body(origin) => [Reached(origin)]
      case Jump(detour) =>
        var f := Dispatch(st.pointers, Owner(detour));
        [Ran(detour)] + if f.Some? then Calls(st, PointerOf(st.pointers, f.value), fuel - 1) else []
  }

  predicate EndsInOriginal(events: seq<Event>) {
    events != [] && events[|events| - 1].Reached?
  }

  /** A detour of a bound function always has something to forward to: the extended
      loader of its pair where that is bound, and otherwise the function itself. */
  lemma DispatchIsTotal(pointers: Pointers, f: Api)
    requires PointerOf(pointers, f) != 0
    ensures Dispatch(pointers, f).Some? && PointerOf(pointers, Dispatch(pointers, f).value) != 0
    ensures Dispatch(pointers, f) ==
      if f == LuaLLoadbuffer && PointerOf(pointers, LuaLLoadbufferx) != 0 then Some(LuaLLoadbufferx)
      else if f == LuaLLoadfile && PointerOf(pointers, LuaLLoadfilex) != 0 then Some(LuaLLoadfilex)
      else Some(f)
  {
  }

  /** One detour for each function, and the loaders the detours fall back on. */
  ghost predicate Suitable(installs: seq<Install>, detours: Api -> Detour) {
    && Uses(installs, detours) && (forall f :: Owner(detours(f)) == f)
    && Installs(installs, LuaLLoadbufferx) && Installs(installs, LuaLLoadfilex)
  }

  lemma LoadersAreHooked(version: int)
    ensures LuaLLoadbufferx in HookOrder(version) && LuaLLoadfilex in HookOrder(version)
  {
  }

  lemma DetoursHaveOwners(version: int)
    ensures forall f :: Owner(DetourFor(version)(f)) == f
  {
  }

  lemma LuaInstallsAreSuitable(version: int)
    ensures Suitable(LuaInstalls(version), DetourFor(version))
    ensures forall f :: Installs(LuaInstalls(version), f) <==> f in HookOrder(version)
  {
    LoadersAreHooked(version);
    DetoursHaveOwners(version);
    SuitableOrder(DetourFor(version), HookOrder(version));
  }

  /** The functions odbk intercepts in an engine of the given version. */
  predicate IsIntercepted(version: int, f: Api) {
    match f
    case LuaOpen | LuaNewstate | LuaLNewstate | LuaopenBase | LuaClose | LuaNewthread | LuaPcall | LuaPcallk
       | LuaCall | LuaCallk | LuaLNewmetatable | LuaSethook | LuaLLoadbufferx | LuaLLoadbuffer | LuaLLoadfilex
       | LuaLLoadfile | LuaLoad | LuaLOpenlibs => true
    case LuaIOpenlib => version < 530
    case _ => false
  }

  lemma FirstHooksAre(f: Api)
    ensures f in FIRST_HOOKS ==> IsIntercepted(530, f)
  {
  }

  lemma LaterHooksAre(f: Api)
    ensures f in LATER_HOOKS ==> IsIntercepted(530, f)
  {
  }

  lemma InterceptedIsListed(f: Api)
    requires IsIntercepted(530, f)
    ensures f in FIRST_HOOKS || f in LATER_HOOKS
  {
  }

  lemma HookOrderHas(version: int, f: Api)
    ensures f in HookOrder(version) <==> IsIntercepted(version, f)
  {
    FirstHooksAre(f);
    LaterHooksAre(f);
    if IsIntercepted(530, f) { InterceptedIsListed(f); }
  }

  /** What is hooked for each version: exactly those functions, `lua_load` with a detour
      of its own up to 5.1. */
  lemma HookedFunctions(version: int)
    ensures forall f :: Installs(LuaInstalls(version), f) <==> IsIntercepted(version, f)
    ensures forall i :: i in LuaInstalls(version) ==>
      i.detour == if i.f == LuaLoad && version <= 510 then LuaLoad510Hook else HookOf(i.f)
  {
    LuaInstallsAreSuitable(version);
    forall f
      ensures f in HookOrder(version) <==> IsIntercepted(version, f)
    {
      HookOrderHas(version, f);
    }
    ListedDetours(DetourFor(version), HookOrder(version));
  }

  lemma ListedDetours(detours: Api -> Detour, order: seq<Api>)
    ensures forall i :: i in InstallsOf(detours, order) ==> i.detour == detours(i.f)
  {
  }

  /** The place of each function in the list; `luaL_newstate` has a second one. */
  predicate IsHookedAt(k: nat, f: Api) {
    match k
    case 0 => f == LuaOpen
    case 1 => f == LuaNewstate
    case 2 => f == LuaLNewstate
    case 3 => f == LuaopenBase
    case 4 => f == LuaClose
    case 5 => f == LuaNewthread
    case 6 => f == LuaPcall
    case 7 => f == LuaPcallk
    case 8 => f == LuaCall
    case 9 => f == LuaCallk
    case 10 => f == LuaLNewmetatable
    case 11 => f == LuaSethook
    case 12 => f == LuaLLoadbufferx
    case 13 => f == LuaLLoadbuffer
    case 14 => f == LuaLLoadfilex
    case 15 => f == LuaLLoadfile
    case 16 => f == LuaLoad
    case 17 => f == LuaLNewstate
    case 18 => f == LuaLOpenlibs
    case _ => f == LuaIOpenlib
  }

  lemma OrderIs(version: int)
    ensures |HookOrder(version)| == if version < 530 then 20 else 19
    ensures forall k :: 0 <= k < |HookOrder(version)| ==> IsHookedAt(k, HookOrder(version)[k])
  {
    assert forall k :: 0 <= k < 10 ==> HookOrder(version)[k] == FIRST_HOOKS[k];
    assert forall k :: 10 <= k < 19 ==> HookOrder(version)[k] == LATER_HOOKS[k - 10];
  }

  lemma InstallsFollow(detours: Api -> Detour, order: seq<Api>)
    requires forall k :: 0 <= k < |order| ==> IsHookedAt(k, order[k])
    ensures |InstallsOf(detours, order)| == |order|
    ensures forall k :: 0 <= k < |order| ==> IsHookedAt(k, InstallsOf(detours, order)[k].f)
  {
  }

  /** The order of the hooks, in which the first of several for one address wins. */
  lemma InstallOrder(version: int)
    ensures |LuaInstalls(version)| == if version < 530 then 20 else 19
    ensures forall k :: 0 <= k < |LuaInstalls(version)| ==> IsHookedAt(k, LuaInstalls(version)[k].f)
  {
    OrderIs(version);
    InstallsFollow(DetourFor(version), HookOrder(version));
  }

  lemma SuitableOrder(detours: Api -> Detour, order: seq<Api>)
    requires forall f :: Owner(detours(f)) == f
    requires LuaLLoadbufferx in order && LuaLLoadfilex in order
    ensures Suitable(InstallsOf(detours, order), detours)
    ensures forall f :: Installs(InstallsOf(detours, order), f) <==> f in order
  {
    InstallsOfOrder(detours, order);
  }

  lemma DispatchIsInstalled(pointers: Pointers, installs: seq<Install>, detours: Api -> Detour, f: Api)
    requires Suitable(installs, detours) && Installs(installs, f) && PointerOf(pointers, f) != 0
    ensures Installs(installs, Dispatch(pointers, f).value)
  {
  }

  // ------------------------------------------------------------- main results

  ghost function Installed(lib: Library, before: HookState, installs: seq<Install>): HookState {
    Enable(HookAll(lib, before, installs))
  }

  ghost predicate SameNullness(before: Pointers, after: Pointers) {
    forall f :: PointerOf(after, f) == 0 <==> PointerOf(before, f) == 0
  }

  lemma NullnessStays(lib: Library, before: HookState, installs: seq<Install>, detours: Api -> Detour)
    requires lib.Valid() && Unhooked(before) && Uses(installs, detours)
    ensures SameNullness(before.pointers, Installed(lib, before, installs).pointers)
  {
    BatchHolds(lib, before, installs, detours);
    var st := HookAll(lib, before, installs);
    forall f
      ensures PointerOf(st.pointers, f) == 0 <==> PointerOf(before.pointers, f) == 0
    {
      assert Target(st, f) == 0 <==> Target(before, f) == 0;
    }
  }

  lemma DispatchStays(before: Pointers, after: Pointers, f: Api)
    requires SameNullness(before, after)
    ensures Dispatch(before, f) == Dispatch(after, f)
  {
  }

  lemma TraceThroughDetour(st: HookState, a: nat, detour: Detour, g: Api, origin: nat, fuel: nat)
    requires a in st.code && st.code[a] == Jump(detour) && Dispatch(st.pointers, Owner(detour)) == Some(g)
    requires Target(st, g) in st.code && st.code[Target(st, g)] == Body(origin) && fuel >= 2
    ensures Calls(st, a, fuel) == [Ran(detour), Reached(origin)]
  {
    assert Calls(st, Target(st, g), fuel - 1) == [Reached(origin)];
  }

  lemma OriginalJumps(lib: Library, before: HookState, installs: seq<Install>, detours: Api -> Detour, f: Api)
    requires lib.Valid() && Unhooked(before) && Uses(installs, detours) && DistinctTargets(lib, before, installs)
    requires Installs(installs, f) && Target(before, f) != 0 && lib.hookable(Target(before, f))
    ensures var code := Installed(lib, before, installs).code;
      Target(before, f) in code && code[Target(before, f)] == Jump(detours(f))
  {
    OriginalsJumpToTheirDetours(lib, before, installs, detours, Target(before, f));
  }

  /** After one install, calling a hooked original runs its detour exactly once and then
      reaches unpatched original code: that of the extended loader for the buffer and the
      file loaders where it was bound, the plain one's where it was not, and that of the
      function itself for all others. */
  lemma CallRunsItsDetourOnce(lib: Library, before: HookState, installs: seq<Install>, detours: Api -> Detour,
                              f: Api, fuel: nat)
    requires lib.Valid() && Unhooked(before) && Suitable(installs, detours) && DistinctTargets(lib, before, installs)
    requires Installs(installs, f) && Target(before, f) != 0 && lib.hookable(Target(before, f)) && fuel >= 2
    ensures var events := Calls(Installed(lib, before, installs), Target(before, f), fuel);
      && (f == LuaLLoadbuffer || f == LuaLLoadbufferx ==> events == [Ran(detours(f)), Reached(
            if Target(before, LuaLLoadbufferx) != 0 then Target(before, LuaLLoadbufferx)
            else Target(before, LuaLLoadbuffer))])
      && (f == LuaLLoadfile || f == LuaLLoadfilex ==> events == [Ran(detours(f)), Reached(
            if Target(before, LuaLLoadfilex) != 0 then Target(before, LuaLLoadfilex)
            else Target(before, LuaLLoadfile))])
      && (f != LuaLLoadbuffer && f != LuaLLoadbufferx && f != LuaLLoadfile && f != LuaLLoadfilex ==>
            events == [Ran(detours(f)), Reached(Target(before, f))])
  {
    CallReachesItsTarget(lib, before, installs, detours, f, fuel);
    DispatchIsTotal(before.pointers, f);
  }

  lemma CallReachesItsTarget(lib: Library, before: HookState, installs: seq<Install>, detours: Api -> Detour,
                             f: Api, fuel: nat)
    requires lib.Valid() && Unhooked(before) && Suitable(installs, detours) && DistinctTargets(lib, before, installs)
    requires Installs(installs, f) && Target(before, f) != 0 && lib.hookable(Target(before, f)) && fuel >= 2
    ensures var g := Dispatch(before.pointers, f);
      g.Some? && Calls(Installed(lib, before, installs), Target(before, f), fuel) ==
        [Ran(detours(f)), Reached(Target(before, g.value))]
  {
    var after := Installed(lib, before, installs);
    OriginalJumps(lib, before, installs, detours, f);
    DispatchIsTotal(before.pointers, f);
    DispatchIsInstalled(before.pointers, installs, detours, f);
    var g := Dispatch(before.pointers, f).value;
    NullnessStays(lib, before, installs, detours);
    DispatchStays(before.pointers, after.pointers, f);
    DistinctIsTransparent(lib, before, installs, detours, g);
    TraceThroughDetour(after, Target(before, f), detours(f), g, Target(before, g), fuel);
  }

  /** Even when targets coincide, no original is patched with a detour that would
      answer -1: the sentinel of the loader detours is unreachable. */
  lemma SentinelIsUnreachable(lib: Library, before: HookState, installs: seq<Install>, detours: Api -> Detour, a: nat)
    requires lib.Valid() && Unhooked(before) && Suitable(installs, detours) && a in before.code
    requires a in HookAll(lib, before, installs).created
    ensures var after := Installed(lib, before, installs);
      && a in after.code && after.code[a].Jump?
      && var target := Dispatch(after.pointers, Owner(after.code[a].detour));
        target.Some? && PointerOf(after.pointers, target.value) != 0
  {
    var st, after := HookAll(lib, before, installs), Installed(lib, before, installs);
    BatchHolds(lib, before, installs, detours);
    assert WasMoved(before, st, a, detours);
    var f :| Target(before, f) == a && Target(st, f) != a && st.created[a] == detours(f);
    NullnessStays(lib, before, installs, detours);
    assert PointerOf(before.pointers, f) == a;
    DispatchIsTotal(after.pointers, f);
  }

  // ------------------------------------------------------------ a second install

  lemma {:induction false} NothingToCreate(lib: Library, st: HookState, installs: seq<Install>)
    requires forall i :: 0 <= i < |installs| && Target(st, installs[i].f) != 0 ==>
      !CanCreate(lib, st, Target(st, installs[i].f))
    ensures HookAll(lib, st, installs) == st
    decreases |installs|
  {
    if installs != [] {
      var n := |installs| - 1;
      NothingToCreate(lib, st, installs[..n]);
      assert Hook(lib, st, installs[n]) == st;
    }
  }

  /** The pointers are bound again, to the originals, and installed again. */
  ghost function InstalledTwice(lib: Library, before: HookState, installs: seq<Install>): HookState {
    Installed(lib, Installed(lib, before, installs).(pointers := before.pointers), installs)
  }

  /** The second install creates no hook, so the pointers stay on patched code. */
  lemma SecondInstallKeepsPatchedPointers(lib: Library, before: HookState, installs: seq<Install>,
                                          detours: Api -> Detour)
    requires lib.Valid() && Unhooked(before) && Uses(installs, detours)
    ensures var twice := InstalledTwice(lib, before, installs);
      twice.pointers == before.pointers && twice.code == Installed(lib, before, installs).code
  {
    var st := HookAll(lib, before, installs);
    var rebound := Installed(lib, before, installs).(pointers := before.pointers);
    BatchHolds(lib, before, installs, detours);
    forall i | 0 <= i < |installs| && Target(rebound, installs[i].f) != 0
      ensures !CanCreate(lib, rebound, Target(rebound, installs[i].f))
    {
      assert Installs(installs, installs[i].f);
      assert Target(rebound, installs[i].f) == Target(before, installs[i].f);
    }
    NothingToCreate(lib, rebound, installs);
    EnableTwice(st, before.pointers);
  }

  lemma EnableTwice(st: HookState, pointers: Pointers)
    ensures Enable(Enable(st).(pointers := pointers)).code == Enable(st).code
  {
  }

  lemma {:induction false} SelfDispatchLoops(st: HookState, f: Api, detour: Detour, fuel: nat)
    requires Owner(detour) == f && Dispatch(st.pointers, f) == Some(f)
    requires Target(st, f) in st.code && st.code[Target(st, f)] == Jump(detour)
    ensures Calls(st, Target(st, f), fuel) == seq(fuel, _ => Ran(detour))
  {
    if fuel > 0 {
      SelfDispatchLoops(st, f, detour, fuel - 1);
      assert [Ran(detour)] + seq(fuel - 1, _ => Ran(detour)) == seq(fuel, _ => Ran(detour));
    }
  }

  /** After a second install the pointers are transparent, installed or not, if and
      only if no installed function has an address that can be hooked. */
  lemma SecondInstallTransparentIff(lib: Library, before: HookState, installs: seq<Install>, detours: Api -> Detour)
    requires lib.Valid() && Unhooked(before) && Uses(installs, detours)
    ensures var twice := InstalledTwice(lib, before, installs);
      (Transparent(before, twice, installs) <==> forall f :: !IsHookable(lib, before, installs, f))
      && (NonePatched(before, twice) <==> Transparent(before, twice, installs))
  {
    var twice, st := InstalledTwice(lib, before, installs), HookAll(lib, before, installs);
    SecondInstallKeepsPatchedPointers(lib, before, installs, detours);
    BatchHolds(lib, before, installs, detours);
    if f :| IsHookable(lib, before, installs, f) {
      assert Target(twice, f) == Target(before, f) && Target(before, f) in st.created;
      assert !ReachesOriginal(before, twice, f);
    } else {
      forall f | Target(before, f) != 0
        ensures ReachesOriginal(before, twice, f)
      {
        NeverHooked(lib, before, installs, detours, Target(before, f));
        assert Target(twice, f) == Target(before, f);
      }
    }
  }

  ghost predicate IsHookable(lib: Library, before: HookState, installs: seq<Install>, f: Api) {
    Installs(installs, f) && Target(before, f) != 0 && lib.hookable(Target(before, f))
  }

  lemma NeverHooked(lib: Library, before: HookState, installs: seq<Install>, detours: Api -> Detour, a: nat)
    requires lib.Valid() && Unhooked(before) && Uses(installs, detours) && a in before.code
    requires forall f :: Target(before, f) == a ==> !IsHookable(lib, before, installs, f)
    ensures a in Installed(lib, before, installs).code && Installed(lib, before, installs).code[a] == Body(a)
  {
    var st := HookAll(lib, before, installs);
    BatchHolds(lib, before, installs, detours);
    if a in st.created {
      assert false;
    }
  }

  /** A detour whose target was hooked for a detour that forwards to itself. */
  lemma TraceThroughTwoDetours(st: HookState, a: nat, detour: Detour, g: Api, next: Detour, fuel: nat)
    requires a in st.code && st.code[a] == Jump(detour) && Dispatch(st.pointers, Owner(detour)) == Some(g)
    requires Target(st, g) in st.code && st.code[Target(st, g)] == Jump(next) && fuel >= 2
    requires Owner(next) == g && Dispatch(st.pointers, g) == Some(g)
    ensures Calls(st, a, fuel) == [Ran(detour)] + seq(fuel - 1, _ => Ran(next))
    ensures !EndsInOriginal(Calls(st, a, fuel))
  {
    SelfDispatchLoops(st, g, next, fuel - 1);
  }

  lemma ForwardsToPatched(lib: Library, before: HookState, installs: seq<Install>, detours: Api -> Detour,
                          f: Api, g: Api)
    requires lib.Valid() && Unhooked(before) && Suitable(installs, detours) && DistinctTargets(lib, before, installs)
    requires IsHookable(lib, before, installs, f) && Dispatch(before.pointers, f) == Some(g)
    ensures Target(before, g) != 0
    ensures var code := Installed(lib, before, installs).code;
      && Target(before, f) in code && code[Target(before, f)] == Jump(detours(f))
      && Target(before, g) in code
      && code[Target(before, g)] == if lib.hookable(Target(before, g)) then Jump(detours(g)) else Body(Target(before, g))
  {
    DispatchIsTotal(before.pointers, f);
    DispatchIsInstalled(before.pointers, installs, detours, f);
    OriginalJumps(lib, before, installs, detours, f);
    if lib.hookable(Target(before, g)) {
      OriginalJumps(lib, before, installs, detours, g);
    } else {
      NeverHooked(lib, before, installs, detours, Target(before, g));
    }
  }

  /** A call after a second install reaches original code if and only if the function
      its detour forwards to has an address that cannot be hooked; otherwise that
      function's own detour runs forever. */
  lemma CallAfterSecondInstall(lib: Library, before: HookState, installs: seq<Install>, detours: Api -> Detour,
                               f: Api, g: Api, fuel: nat)
    requires lib.Valid() && Unhooked(before) && Suitable(installs, detours) && DistinctTargets(lib, before, installs)
    requires IsHookable(lib, before, installs, f) && Dispatch(before.pointers, f) == Some(g) && fuel >= 2
    ensures var events := Calls(InstalledTwice(lib, before, installs), Target(before, f), fuel);
      && (EndsInOriginal(events) <==> !lib.hookable(Target(before, g)))
      && events == [Ran(detours(f))] +
        if lib.hookable(Target(before, g)) then seq(fuel - 1, _ => Ran(detours(g))) else [Reached(Target(before, g))]
  {
    SecondInstallKeepsPatchedPointers(lib, before, installs, detours);
    ForwardsToPatched(lib, before, installs, detours, f, g);
    CallAtPatched(InstalledTwice(lib, before, installs), before, detours, f, g, lib.hookable(Target(before, g)), fuel);
  }

  lemma CallAtPatched(st: HookState, before: HookState, detours: Api -> Detour, f: Api, g: Api, patched: bool, fuel: nat)
    requires st.pointers == before.pointers && Dispatch(before.pointers, f) == Some(g) && fuel >= 2
    requires Owner(detours(f)) == f && Owner(detours(g)) == g
    requires Target(before, f) in st.code && st.code[Target(before, f)] == Jump(detours(f))
    requires Target(before, g) in st.code
    requires st.code[Target(before, g)] == if patched then Jump(detours(g)) else Body(Target(before, g))
    ensures var events := Calls(st, Target(before, f), fuel);
      && (EndsInOriginal(events) <==> !patched)
      && events == [Ran(detours(f))] +
        if patched then seq(fuel - 1, _ => Ran(detours(g))) else [Reached(Target(before, g))]
  {
    if patched {
      DispatchIsIdempotent(before.pointers, f);
      TraceThroughTwoDetours(st, Target(before, f), detours(f), g, detours(g), fuel);
    } else {
      TraceThroughDetour(st, Target(before, f), detours(f), g, Target(before, g), fuel);
    }
  }

  /** What a detour forwards to has a detour that forwards to itself. */
  lemma DispatchIsIdempotent(pointers: Pointers, f: Api)
    requires Dispatch(pointers, f).Some?
    ensures Dispatch(pointers, Dispatch(pointers, f).value) == Dispatch(pointers, f)
  {
    var g := Dispatch(pointers, f).value;
    if f == LuaLLoadbufferx || f == LuaLLoadbuffer {
      assert g == LuaLLoadbufferx || g == LuaLLoadbuffer;
    } else if f == LuaLLoadfilex || f == LuaLLoadfile {
      assert g == LuaLLoadfilex || g == LuaLLoadfile;
    }
  }
}

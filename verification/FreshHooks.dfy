/** Hooking the pointers of an accepted load: what the symbols alone decide about the
    state afterwards. */
module FreshHooks {
  import opened Common
  import opened LuaApi
  import opened Binder
  import opened MinHook
  import opened LuaHooks
  import opened HookTermination

  /** The addresses an accepted load binds in a table of null pointers. */
  function BoundBy(symbols: Symbols): Api -> nat {
    (a: Api) => BoundAddress(LookupIn(symbols), a)
  }

  /** Pointers bound to the given addresses, and nothing hooked yet. */
  ghost predicate Fresh(lib: Library, before: HookState, bound: Api -> nat) {
    lib.Valid() && Unhooked(before) && forall a :: Target(before, a) == bound(a)
  }

  lemma AcceptedIsFresh(lib: Library, before: HookState, symbols: Symbols, info: VersionInfo)
    requires lib.Valid() && Unhooked(before) && IsLua(symbols)
    ensures Accepts(symbols) && before.pointers == Bindings(symbols, Detect(symbols, info).value.version) ==>
      Fresh(lib, before, BoundBy(symbols))
  {
    FreshTable(symbols, info);
  }

  /** `lua_load` is bound to the address of `lua_loadx`. */
  lemma LoadSharesLoadxAddress(symbols: Symbols)
    ensures BoundBy(symbols)(LuaLoad) == BoundBy(symbols)(LuaLoadx) == LookupIn(symbols)(LuaLoadx)
  {
    LoadEntries(LookupIn(symbols));
  }

  /** `f` is hooked through a hookable address that `g` is bound to as well. */
  predicate Clash(lib: Library, bound: Api -> nat, order: seq<Api>, f: Api, g: Api) {
    f != g && f in order && bound(f) == bound(g) != 0 && lib.hookable(bound(f))
  }

  /** `lua_loadx` was found where MinHook can put a hook. */
  predicate HasHookableLoadx(lib: Library, bound: Api -> nat) {
    bound(LuaLoadx) != 0 && lib.hookable(bound(LuaLoadx))
  }

  /** No clash but the one between `lua_load` and `lua_loadx`. */
  ghost predicate OtherwiseApart(lib: Library, bound: Api -> nat, order: seq<Api>) {
    forall f, g :: f != LuaLoad && g != LuaLoad && g != LuaLoadx ==> !Clash(lib, bound, order, f, g)
  }

  /** No two hooked functions are bound to one hookable address. */
  ghost predicate HookedApart(lib: Library, bound: Api -> nat, order: seq<Api>) {
    forall f, g :: g in order ==> !Clash(lib, bound, order, f, g)
  }

  /** The list hooks the functions of `order`. */
  ghost predicate Hooks(installs: seq<Install>, order: seq<Api>) {
    forall f :: Installs(installs, f) <==> f in order
  }

  // ---------------------------------------------------------- patched pointers

  lemma NoClashIff(lib: Library, bound: Api -> nat, order: seq<Api>)
    requires LuaLoad in order && bound(LuaLoad) == bound(LuaLoadx)
    ensures (forall f, g :: !Clash(lib, bound, order, f, g)) <==>
      !HasHookableLoadx(lib, bound) && OtherwiseApart(lib, bound, order)
  {
    if HasHookableLoadx(lib, bound) {
      assert Clash(lib, bound, order, LuaLoad, LuaLoadx);
    }
  }

  lemma HooksTargetIffClash(lib: Library, before: HookState, bound: Api -> nat, installs: seq<Install>,
                            order: seq<Api>, f: Api, g: Api)
    requires Target(before, f) == bound(f) && (Installs(installs, f) <==> f in order)
    requires Target(before, g) == bound(g) && (Installs(installs, g) <==> g in order)
    ensures HooksTargetOf(lib, before, installs, f, g) <==> Clash(lib, bound, order, f, g)
    ensures SharesTarget(lib, before, installs, f, g) <==> g in order && Clash(lib, bound, order, f, g)
  {
  }

  lemma NonePatchedIffNoClash(lib: Library, before: HookState, bound: Api -> nat, installs: seq<Install>,
                              detours: Api -> Detour, order: seq<Api>)
    requires Fresh(lib, before, bound) && Hooks(installs, order) && Uses(installs, detours)
    ensures NonePatched(before, Installed(lib, before, installs)) <==> forall f, g :: !Clash(lib, bound, order, f, g)
  {
    NonePatchedIff(lib, before, installs, detours);
    forall f, g
      ensures HooksTargetOf(lib, before, installs, f, g) <==> Clash(lib, bound, order, f, g)
    {
      HooksTargetIffClash(lib, before, bound, installs, order, f, g);
    }
  }

  /** The pointer of a function that is not hooked is left on patched code exactly when
      its address is hooked for another one. */
  lemma LoadxPatchedIff(lib: Library, before: HookState, bound: Api -> nat, installs: seq<Install>,
                        detours: Api -> Detour)
    requires Fresh(lib, before, bound) && Uses(installs, detours)
    requires Installs(installs, LuaLoad) && !Installs(installs, LuaLoadx) && bound(LuaLoad) == bound(LuaLoadx) != 0
    ensures !ReachesOriginal(before, Installed(lib, before, installs), LuaLoadx) <==> HasHookableLoadx(lib, bound)
  {
    PatchedIffHookedEarlier(lib, before, installs, detours, LuaLoadx);
    if HasHookableLoadx(lib, bound) {
      InstalledIsEarlier(installs, LuaLoad, LuaLoadx);
      EarlierIndex(installs, LuaLoad, LuaLoadx);
      assert HookedBefore(lib, before, installs, LuaLoad, LuaLoadx);
    }
  }

  // ------------------------------------------------------------- the whole chain

  /** A call of `f` at the address it was bound to runs its detour once and ends in
      original code: that of the extended loader where the plain one's detour finds it
      bound, that of the function itself otherwise. */
  ghost predicate Intercepts(after: HookState, bound: Api -> nat, detours: Api -> Detour, f: Api, fuel: nat) {
    Calls(after, bound(f), fuel) == [Ran(detours(f)), Reached(
      if f == LuaLLoadbuffer && bound(LuaLLoadbufferx) != 0 then bound(LuaLLoadbufferx)
      else if f == LuaLLoadfile && bound(LuaLLoadfilex) != 0 then bound(LuaLLoadfilex)
      else bound(f))]
  }

  /** So does every call of a function of `order` that is bound where a hook can be put. */
  ghost predicate InterceptsAll(lib: Library, after: HookState, bound: Api -> nat,
                                detours: Api -> Detour, order: seq<Api>) {
    forall f: Api, fuel: nat :: fuel >= 2 && f in order && bound(f) != 0 && lib.hookable(bound(f)) ==>
      Intercepts(after, bound, detours, f, fuel)
  }

  lemma ApartIsDistinct(lib: Library, before: HookState, bound: Api -> nat, installs: seq<Install>, order: seq<Api>)
    requires (forall a :: Target(before, a) == bound(a)) && Hooks(installs, order)
    ensures DistinctTargets(lib, before, installs) <==> HookedApart(lib, bound, order)
  {
    forall f, g
      ensures SharesTarget(lib, before, installs, f, g) <==> g in order && Clash(lib, bound, order, f, g)
    {
      HooksTargetIffClash(lib, before, bound, installs, order, f, g);
    }
  }

  lemma ApartIsIntercepted(lib: Library, before: HookState, bound: Api -> nat, installs: seq<Install>,
                           detours: Api -> Detour, order: seq<Api>)
    requires Fresh(lib, before, bound) && Hooks(installs, order) && Suitable(installs, detours)
    requires HookedApart(lib, bound, order)
    ensures InterceptsAll(lib, Installed(lib, before, installs), bound, detours, order)
  {
    ApartIsDistinct(lib, before, bound, installs, order);
    forall f: Api, fuel: nat | fuel >= 2 && f in order && bound(f) != 0 && lib.hookable(bound(f))
      ensures Intercepts(Installed(lib, before, installs), bound, detours, f, fuel)
    {
      CallRunsItsDetourOnce(lib, before, installs, detours, f, fuel);
    }
  }

  // ------------------------------------------------------------------ odbk's list

  lemma LoadIsHookedAndLoadxIsNot(version: int)
    ensures LuaLoad in HookOrder(version) && LuaLoadx !in HookOrder(version)
  {
  }

  /** What one install makes of the addresses bound. If hooked functions are bound apart,
      every call of one is intercepted exactly once and then reaches original code. No
      non-null API pointer, hooked or not, holds a patched address if and only if
      `lua_loadx` is absent or cannot be hooked and no other two functions clash; the
      pointer of `lua_loadx` is patched exactly when its address can be hooked. */
  ghost predicate InstallIsTransparent(lib: Library, before: HookState, after: HookState, bound: Api -> nat,
                                       detours: Api -> Detour, order: seq<Api>) {
    && (HookedApart(lib, bound, order) ==> InterceptsAll(lib, after, bound, detours, order))
    && (NonePatched(before, after) <==> !HasHookableLoadx(lib, bound) && OtherwiseApart(lib, bound, order))
    && (bound(LuaLoadx) != 0 ==> (!ReachesOriginal(before, after, LuaLoadx) <==> lib.hookable(bound(LuaLoadx))))
  }

  lemma FreshIsTransparent(lib: Library, before: HookState, bound: Api -> nat, installs: seq<Install>,
                           detours: Api -> Detour, order: seq<Api>)
    requires Fresh(lib, before, bound) && bound(LuaLoad) == bound(LuaLoadx)
    requires Hooks(installs, order) && Suitable(installs, detours) && LuaLoad in order && LuaLoadx !in order
    ensures InstallIsTransparent(lib, before, Installed(lib, before, installs), bound, detours, order)
  {
    if HookedApart(lib, bound, order) {
      ApartIsIntercepted(lib, before, bound, installs, detours, order);
    }
    NonePatchedIffNoClash(lib, before, bound, installs, detours, order);
    NoClashIff(lib, bound, order);
    if bound(LuaLoadx) != 0 {
      LoadxPatchedIff(lib, before, bound, installs, detours);
    }
  }

  /** From symbols to calls: hooking what an accepted load binds in a table of null
      pointers, for every version and every symbol map. */
  lemma AcceptedLoadIsTransparent(lib: Library, before: HookState, symbols: Symbols, info: VersionInfo)
    requires lib.Valid() && Unhooked(before) && IsLua(symbols)
    ensures var version := Detect(symbols, info).value.version;
      Accepts(symbols) && before.pointers == Bindings(symbols, version) ==>
        InstallIsTransparent(lib, before, Installed(lib, before, LuaInstalls(version)), BoundBy(symbols),
          DetourFor(version), HookOrder(version))
  {
    var version := Detect(symbols, info).value.version;
    if Accepts(symbols) && before.pointers == Bindings(symbols, version) {
      AcceptedIsFresh(lib, before, symbols, info);
      LoadSharesLoadxAddress(symbols);
      LuaListIsTransparent(lib, before, BoundBy(symbols), version);
    }
  }

  lemma LuaListIsTransparent(lib: Library, before: HookState, bound: Api -> nat, version: int)
    requires Fresh(lib, before, bound) && bound(LuaLoad) == bound(LuaLoadx)
    ensures InstallIsTransparent(lib, before, Installed(lib, before, LuaInstalls(version)), bound,
      DetourFor(version), HookOrder(version))
  {
    LuaInstallsAreSuitable(version);
    LoadIsHookedAndLoadxIsNot(version);
    FreshIsTransparent(lib, before, bound, LuaInstalls(version), DetourFor(version), HookOrder(version));
  }

  /** No two of the functions looked up have one address. */
  ghost predicate AddressesDiffer(found: Lookups) {
    forall a, b :: a != b && found(a) != 0 ==> found(a) != found(b)
  }

  /** The function whose symbol the pointer of `a` holds; `lua_load` aside. */
  function SourceOf(found: Lookups, a: Api): Api {
    if a == LuaIOpenlib && found(a) == 0 then LuaLOpenlib else a
  }

  lemma SourcesDiffer(found: Lookups, f: Api, g: Api)
    requires f != g && f != LuaLoad && g != LuaLoad && BoundAddress(found, f) != 0 && BoundAddress(found, g) != 0
    ensures SourceOf(found, f) != SourceOf(found, g)
    ensures BoundAddress(found, f) == found(SourceOf(found, f)) && BoundAddress(found, g) == found(SourceOf(found, g))
  {
  }

  /** With differing symbols only `lua_loadx` can be left patched, and calls are always
      intercepted: the conditions above come down to that one. */
  lemma DifferingSymbolsAreApart(lib: Library, symbols: Symbols, order: seq<Api>)
    requires AddressesDiffer(LookupIn(symbols)) && LuaLoadx !in order
    ensures OtherwiseApart(lib, BoundBy(symbols), order) && HookedApart(lib, BoundBy(symbols), order)
  {
    forall f, g | f != LuaLoad && g != LuaLoad
      ensures !Clash(lib, BoundBy(symbols), order, f, g)
    {
      if Clash(lib, BoundBy(symbols), order, f, g) {
        SourcesDiffer(LookupIn(symbols), f, g);
        assert false;
      }
    }
    forall f, g | g in order && (f == LuaLoad || g == LuaLoad)
      ensures !Clash(lib, BoundBy(symbols), order, f, g)
    {
      LoadSharesLoadxAddress(symbols);
      if Clash(lib, BoundBy(symbols), order, f, g) {
        SourcesDiffer(LookupIn(symbols), LuaLoadx, if f == LuaLoad then g else f);
        assert false;
      }
    }
  }
}

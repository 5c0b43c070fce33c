/** `odbk_hook`, `odbk_enable_hook` and the MinHook contract they rely on. */
module MinHook {
  import opened LuaApi

  /** `f##_hook`, or the 5.1 variant for `lua_load`. */
  datatype Detour = HookOf(f: Api) | LuaLoad510Hook

  /** What runs when an address is called: the code that was at `origin` before any
      patching, or a jump to a detour. */
  datatype Code = Body(origin: nat) | Jump(detour: Detour)

  /** Code memory, the created hooks by target, and the API pointers. */
  datatype HookState = HookState(code: map<nat, Code>, created: map<nat, Detour>, pointers: Pointers)

  /** What is left open about MinHook: which targets it can hook at all, and where
      it puts a new trampoline. */
  datatype Library = Library(hookable: nat -> bool, alloc: set<nat> -> nat)
  {
    ghost predicate Valid() {
      forall used: set<nat> :: alloc(used) !in used && alloc(used) != 0
    }
  }

  datatype Install = Install(f: Api, detour: Detour)

  /** `MH_CreateHook` fails without writing when the target is not executable code,
      cannot be hooked, or already is. */
  predicate CanCreate(lib: Library, st: HookState, target: nat) {
    target in st.code && target !in st.created && lib.hookable(target)
  }

  /** `odbk_hook`: on success the pointer is replaced by a fresh trampoline that
      behaves like the target. */
  function Hook(lib: Library, st: HookState, i: Install): HookState {
    var target := PointerOf(st.pointers, i.f);
    if target != 0 && CanCreate(lib, st, target) then
      var trampoline := lib.alloc(st.code.Keys);
      HookState(
        st.code[trampoline := st.code[target]],
        st.created[target := i.detour],
        st.pointers[i.f := trampoline])
    else st
  }

  function HookAll(lib: Library, st: HookState, installs: seq<Install>): HookState
    decreases |installs|
  {
    if installs == [] then st
    else Hook(lib, HookAll(lib, st, installs[..|installs| - 1]), installs[|installs| - 1])
  }

  /** `MH_EnableHook(MH_ALL_HOOKS)`: every created target is patched. */
  function Enable(st: HookState): HookState {
    st.(code := map a | a in st.code :: if a in st.created then Jump(st.created[a]) else st.code[a])
  }

  // ------------------------------------------------------------------ the engine

  class Engine {
    const lib: Library
    var code: map<nat, Code>
    var created: map<nat, Detour>

    constructor (lib: Library, code: map<nat, Code>)
      ensures this.lib == lib && this.code == code && created == map[]
    {
      this.lib, this.code, created := lib, code, map[];
    }

    method CreateHook(target: nat, detour: Detour) returns (ok: bool, trampoline: nat)
      modifies this
      ensures ok == old(CanCreate(lib, HookState(code, created, map[]), target))
      ensures !ok ==> code == old(code) && created == old(created)
      ensures ok ==>
        && trampoline == lib.alloc(old(code).Keys)
        && code == old(code)[trampoline := old(code)[target]] && created == old(created)[target := detour]
    {
      ok, trampoline := target in code && target !in created && lib.hookable(target), 0;
      if ok {
        trampoline := lib.alloc(code.Keys);
        code := code[trampoline := code[target]];
        created := created[target := detour];
      }
    }

    method EnableHook()
      modifies this
      ensures created == old(created)
      ensures forall pointers :: HookState(code, created, pointers) == Enable(HookState(old(code), created, pointers))
    {
      code := map a | a in code :: if a in created then Jump(created[a]) else code[a];
    }
  }

  ghost function StateOf(engine: Engine, api: ApiTable): HookState
    reads engine, api
  {
    HookState(engine.code, engine.created, api.pointers)
  }

  method OdbkHook(engine: Engine, api: ApiTable, f: Api, detour: Detour) returns (target: nat)
    modifies engine, api
    ensures target == old(PointerOf(api.pointers, f))
    ensures StateOf(engine, api) == Hook(engine.lib, old(StateOf(engine, api)), Install(f, detour))
  {
    target := PointerOf(api.pointers, f);
    if target != 0 {
      var ok, trampoline := engine.CreateHook(target, detour);
      if ok {
        api.pointers := api.pointers[f := trampoline];
      }
      assert ok == CanCreate(engine.lib, old(StateOf(engine, api)), target);
    }
  }

  // -------------------------------------------------- one batch of installs

  /** Nothing is hooked yet, and every non-null pointer points to code. */
  ghost predicate Unhooked(st: HookState) {
    && st.created == map[]
    && 0 !in st.code
    && (forall a :: a in st.code ==> st.code[a] == Body(a))
    && (forall f :: PointerOf(st.pointers, f) != 0 ==> PointerOf(st.pointers, f) in st.code)
  }

  predicate Installs(installs: seq<Install>, f: Api) {
    exists i :: 0 <= i < |installs| && installs[i].f == f
  }

  /** Where `f` pointed before. */
  function Target(st: HookState, f: Api): nat {
    PointerOf(st.pointers, f)
  }

  /** The state between two installs of a batch that began in `before`. */
  ghost predicate Hooking(lib: Library, before: HookState, st: HookState) {
    && 0 !in st.code
    && before.code.Keys <= st.code.Keys && st.created.Keys <= st.code.Keys
    && (forall a :: a in st.code ==> st.code[a].Body?)
    && (forall a :: a in before.code ==> st.code[a] == before.code[a])
    && (forall t :: t in st.created ==> lib.hookable(t))
    && (forall f :: Target(st, f) == 0 <==> Target(before, f) == 0)
    && (forall f :: Target(st, f) != 0 ==> Target(st, f) in st.code && st.code[Target(st, f)] == Body(Target(before, f)))
  }

  /** A pointer either still holds its target or a trampoline of its own, which no
      hook was created on. */
  ghost predicate Separate(before: HookState, st: HookState) {
    && (forall f :: Target(st, f) == Target(before, f) || Target(st, f) !in before.code)
    && (forall f :: Target(st, f) !in before.code && Target(st, f) != 0 ==> Target(st, f) !in st.created)
    && (forall f, g :: f != g && Target(st, f) == Target(st, g) != 0 ==> Target(st, f) == Target(before, f))
  }

  /** The target of every pointer that moved is hooked. */
  ghost predicate MovedAreHooked(before: HookState, st: HookState) {
    forall f :: Target(st, f) != Target(before, f) ==> Target(before, f) in st.created
  }

  /** Of the pointers with one target at most one moved. */
  ghost predicate OneMoves(before: HookState, st: HookState) {
    forall f, g :: f != g && Target(before, f) == Target(before, g) != 0 ==>
      Target(st, f) == Target(before, f) || Target(st, g) == Target(before, g)
  }

  /** Some pointer moved away from `t`, which now has that function's detour. */
  ghost predicate WasMoved(before: HookState, st: HookState, t: nat, detours: Api -> Detour) {
    exists f :: Target(before, f) == t && Target(st, f) != t && t in st.created && st.created[t] == detours(f)
  }

  ghost predicate HookedWereMoved(before: HookState, st: HookState, detours: Api -> Detour) {
    forall t :: t in st.created && t in before.code ==> WasMoved(before, st, t, detours)
  }

  ghost predicate MovedAreInstalled(before: HookState, st: HookState, installs: seq<Install>) {
    forall f :: Target(st, f) != Target(before, f) ==> Installs(installs, f)
  }

  ghost predicate InstalledAreHooked(lib: Library, before: HookState, st: HookState, installs: seq<Install>) {
    forall f :: Installs(installs, f) && Target(before, f) != 0 && lib.hookable(Target(before, f)) ==>
      Target(before, f) in st.created
  }

  ghost predicate Uses(installs: seq<Install>, detours: Api -> Detour) {
    forall i :: 0 <= i < |installs| ==> installs[i].detour == detours(installs[i].f)
  }

  lemma HookKeepsHooking(lib: Library, before: HookState, st: HookState, i: Install)
    requires lib.Valid() && Unhooked(before) && Hooking(lib, before, st)
    ensures Hooking(lib, before, Hook(lib, st, i))
  {
  }

  /** What a successful hook changes. */
  lemma HookMoves(lib: Library, st: HookState, i: Install)
    requires lib.Valid() && Target(st, i.f) != 0 && CanCreate(lib, st, Target(st, i.f))
    ensures var after := Hook(lib, st, i);
      && after.created == st.created[Target(st, i.f) := i.detour]
      && Target(after, i.f) == lib.alloc(st.code.Keys) && Target(after, i.f) !in st.code && Target(after, i.f) != 0
      && forall f :: f != i.f ==> Target(after, f) == Target(st, f)
  {
  }

  lemma HookKeepsSeparate(lib: Library, before: HookState, st: HookState, i: Install)
    requires lib.Valid() && Unhooked(before) && Hooking(lib, before, st) && Separate(before, st)
    ensures Separate(before, Hook(lib, st, i))
  {
    var after, target := Hook(lib, st, i), Target(st, i.f);
    if target != 0 && CanCreate(lib, st, target) {
      HookMoves(lib, st, i);
      forall f | Target(after, f) !in before.code && Target(after, f) != 0
        ensures Target(after, f) !in after.created
      {
        if f != i.f {
          assert Target(st, f) !in st.created;
          assert Target(st, f) != target;
        }
      }
      forall f, g | f != g && Target(after, f) == Target(after, g) != 0
        ensures Target(after, f) == Target(before, f)
      {
        assert f != i.f && g != i.f;
      }
    }
  }

  lemma HookKeepsMovedAreHooked(lib: Library, before: HookState, st: HookState, i: Install)
    requires lib.Valid() && Unhooked(before) && Hooking(lib, before, st) && Separate(before, st)
    requires MovedAreHooked(before, st)
    ensures MovedAreHooked(before, Hook(lib, st, i))
  {
    if Target(st, i.f) != 0 && CanCreate(lib, st, Target(st, i.f)) {
      HookMoves(lib, st, i);
    }
  }

  lemma HookKeepsOneMoves(lib: Library, before: HookState, st: HookState, i: Install)
    requires lib.Valid() && Unhooked(before) && Hooking(lib, before, st)
    requires MovedAreHooked(before, st) && OneMoves(before, st)
    ensures OneMoves(before, Hook(lib, st, i))
  {
    var target := Target(st, i.f);
    if target != 0 && CanCreate(lib, st, target) {
      HookMoves(lib, st, i);
      forall g | g != i.f && Target(before, g) == Target(before, i.f) != 0
        ensures Target(st, g) == Target(before, g)
      {
        if target == Target(before, i.f) {
          assert Target(before, g) !in st.created;
        }
      }
    }
  }

  lemma CreatedStays(lib: Library, st: HookState, i: Install, t: nat)
    requires t in st.created
    ensures t in Hook(lib, st, i).created && Hook(lib, st, i).created[t] == st.created[t]
  {
  }

  lemma MoverStays(lib: Library, before: HookState, st: HookState, i: Install, f: Api)
    requires lib.Valid() && Hooking(lib, before, st)
    requires Target(before, f) in before.code && Target(st, f) != Target(before, f)
    ensures Target(Hook(lib, st, i), f) != Target(before, f)
  {
    if Target(st, i.f) != 0 && CanCreate(lib, st, Target(st, i.f)) {
      HookMoves(lib, st, i);
    }
  }

  lemma StaysMoved(lib: Library, before: HookState, st: HookState, i: Install, t: nat, detours: Api -> Detour)
    requires lib.Valid() && Hooking(lib, before, st) && t in before.code && WasMoved(before, st, t, detours)
    ensures WasMoved(before, Hook(lib, st, i), t, detours)
  {
    var f :| Target(before, f) == t && Target(st, f) != t && t in st.created && st.created[t] == detours(f);
    CreatedStays(lib, st, i, t);
    MoverStays(lib, before, st, i, f);
  }

  lemma HookKeepsHookedWereMoved(lib: Library, before: HookState, st: HookState, i: Install, detours: Api -> Detour)
    requires lib.Valid() && Unhooked(before) && Hooking(lib, before, st) && Separate(before, st)
    requires HookedWereMoved(before, st, detours) && i.detour == detours(i.f)
    ensures HookedWereMoved(before, Hook(lib, st, i), detours)
  {
    var after, target := Hook(lib, st, i), Target(st, i.f);
    forall t | t in after.created && t in before.code
      ensures WasMoved(before, after, t, detours)
    {
      if t in st.created {
        StaysMoved(lib, before, st, i, t, detours);
      } else {
        HookMoves(lib, st, i);
        assert t == target == Target(before, i.f);
      }
    }
  }

  lemma HookInstalls(lib: Library, before: HookState, st: HookState, installs: seq<Install>, i: Install)
    requires lib.Valid() && Hooking(lib, before, st) && Separate(before, st) && MovedAreHooked(before, st)
    requires MovedAreInstalled(before, st, installs) && InstalledAreHooked(lib, before, st, installs)
    ensures MovedAreInstalled(before, Hook(lib, st, i), installs + [i])
    ensures InstalledAreHooked(lib, before, Hook(lib, st, i), installs + [i])
  {
    var after := Hook(lib, st, i);
    InstallsSnoc(installs, i);
    if Target(st, i.f) != 0 && CanCreate(lib, st, Target(st, i.f)) {
      HookMoves(lib, st, i);
    }
    forall f | Installs(installs + [i], f) && Target(before, f) != 0 && lib.hookable(Target(before, f))
      ensures Target(before, f) in after.created
    {
      if f == i.f && Target(st, f) != Target(before, f) {
        assert Target(before, f) in st.created;
      }
    }
  }

  lemma InstallsSnoc(installs: seq<Install>, i: Install)
    ensures forall f :: Installs(installs + [i], f) <==> Installs(installs, f) || f == i.f
  {
    forall f
      ensures Installs(installs + [i], f) <==> Installs(installs, f) || f == i.f
    {
      var longer := installs + [i];
      assert longer[|installs|] == i;
      if k :| 0 <= k < |installs| && installs[k].f == f { assert longer[k].f == f; }
    }
  }

  ghost predicate Batch(lib: Library, before: HookState, st: HookState, installs: seq<Install>,
                        detours: Api -> Detour) {
    && Hooking(lib, before, st) && Separate(before, st)
    && MovedAreHooked(before, st) && OneMoves(before, st) && HookedWereMoved(before, st, detours)
    && MovedAreInstalled(before, st, installs) && InstalledAreHooked(lib, before, st, installs)
  }

  /** What any finite list of installs, with repeats, keeps. */
  lemma {:induction false} BatchHolds(lib: Library, before: HookState, installs: seq<Install>, detours: Api -> Detour)
    requires lib.Valid() && Unhooked(before) && Uses(installs, detours)
    ensures Batch(lib, before, HookAll(lib, before, installs), installs, detours)
    decreases |installs|
  {
    if installs != [] {
      var front, i := installs[..|installs| - 1], installs[|installs| - 1];
      var st := HookAll(lib, before, front);
      BatchHolds(lib, before, front, detours);
      assert installs == front + [i];
      HookKeepsHooking(lib, before, st, i);
      HookKeepsSeparate(lib, before, st, i);
      HookKeepsMovedAreHooked(lib, before, st, i);
      HookKeepsOneMoves(lib, before, st, i);
      HookKeepsHookedWereMoved(lib, before, st, i, detours);
      HookInstalls(lib, before, st, front, i);
    }
  }

  // ---------------------------------------------------------------- transparency

  /** The pointer of `f` reaches unpatched code that behaves like what it pointed to. */
  ghost predicate ReachesOriginal(before: HookState, after: HookState, f: Api) {
    Target(after, f) in after.code && after.code[Target(after, f)] == Body(Target(before, f))
  }

  /** Every installed function's pointer does. */
  ghost predicate Transparent(before: HookState, after: HookState, installs: seq<Install>) {
    forall f :: Installs(installs, f) && Target(before, f) != 0 ==> ReachesOriginal(before, after, f)
  }

  /** Every non-null API pointer does, hooked or not: none holds a patched address. */
  ghost predicate NonePatched(before: HookState, after: HookState) {
    forall f :: Target(before, f) != 0 ==> ReachesOriginal(before, after, f)
  }

  /** Two installed functions have one address that can be hooked. */
  ghost predicate SharesTarget(lib: Library, before: HookState, installs: seq<Install>, f: Api, g: Api) {
    && Installs(installs, f) && Installs(installs, g) && f != g
    && Target(before, f) == Target(before, g) != 0 && lib.hookable(Target(before, f))
  }

  ghost predicate DistinctTargets(lib: Library, before: HookState, installs: seq<Install>) {
    forall f, g :: !SharesTarget(lib, before, installs, f, g)
  }

  lemma DistinctIsTransparent(lib: Library, before: HookState, installs: seq<Install>, detours: Api -> Detour, f: Api)
    requires lib.Valid() && Unhooked(before) && Uses(installs, detours) && DistinctTargets(lib, before, installs)
    requires Installs(installs, f) && Target(before, f) != 0
    ensures ReachesOriginal(before, Enable(HookAll(lib, before, installs)), f)
  {
    var st := HookAll(lib, before, installs);
    BatchHolds(lib, before, installs, detours);
    var target := Target(st, f);
    if target in st.created {
      assert target in before.code && target == Target(before, f);
      assert WasMoved(before, st, target, detours);
      var g :| Target(before, g) == target && Target(st, g) != target;
      assert SharesTarget(lib, before, installs, f, g);
    }
  }

  lemma SharedIsPatched(lib: Library, before: HookState, installs: seq<Install>, detours: Api -> Detour, f: Api, g: Api)
    requires lib.Valid() && Unhooked(before) && Uses(installs, detours) && SharesTarget(lib, before, installs, f, g)
    ensures !Transparent(before, Enable(HookAll(lib, before, installs)), installs)
  {
    var st := HookAll(lib, before, installs);
    BatchHolds(lib, before, installs, detours);
    var h := if Target(st, f) == Target(before, f) then f else g;
    assert Target(st, h) == Target(before, h) && Target(before, h) in st.created;
    assert Enable(st).code[Target(Enable(st), h)].Jump?;
  }

  lemma AllTransparent(lib: Library, before: HookState, installs: seq<Install>, detours: Api -> Detour)
    requires lib.Valid() && Unhooked(before) && Uses(installs, detours) && DistinctTargets(lib, before, installs)
    ensures Transparent(before, Enable(HookAll(lib, before, installs)), installs)
  {
    forall f | Installs(installs, f) && Target(before, f) != 0
      ensures ReachesOriginal(before, Enable(HookAll(lib, before, installs)), f)
    {
      DistinctIsTransparent(lib, before, installs, detours, f);
    }
  }

  /** One batch of installs is transparent if and only if no two of its functions
      share an address that can be hooked. */
  lemma TransparentIffDistinct(lib: Library, before: HookState, installs: seq<Install>, detours: Api -> Detour)
    requires lib.Valid() && Unhooked(before) && Uses(installs, detours)
    ensures Transparent(before, Enable(HookAll(lib, before, installs)), installs) <==>
      DistinctTargets(lib, before, installs)
  {
    if f, g :| SharesTarget(lib, before, installs, f, g) {
      SharedIsPatched(lib, before, installs, detours, f, g);
    } else {
      AllTransparent(lib, before, installs, detours);
    }
  }

  /** With distinct targets each hooked original jumps to its own detour, however
      often its function is listed; all other code is as before. */
  lemma OriginalsJumpToTheirDetours(lib: Library, before: HookState, installs: seq<Install>, detours: Api -> Detour,
                                    a: nat)
    requires lib.Valid() && Unhooked(before) && Uses(installs, detours) && DistinctTargets(lib, before, installs)
    requires a in before.code
    ensures var code := Enable(HookAll(lib, before, installs)).code;
      && a in code
      && (forall f :: Installs(installs, f) && Target(before, f) == a && lib.hookable(a) ==> code[a] == Jump(detours(f)))
      && ((forall f :: Installs(installs, f) && lib.hookable(a) ==> Target(before, f) != a) ==> code[a] == Body(a))
  {
    var st := HookAll(lib, before, installs);
    BatchHolds(lib, before, installs, detours);
    forall f | Installs(installs, f) && Target(before, f) == a && lib.hookable(a)
      ensures a in st.created && st.created[a] == detours(f)
    {
      assert WasMoved(before, st, a, detours);
      var g :| Target(before, g) == a && Target(st, g) != a && st.created[a] == detours(g);
      if g != f { assert SharesTarget(lib, before, installs, f, g); }
    }
    if a in st.created {
      assert WasMoved(before, st, a, detours);
    }
  }
}

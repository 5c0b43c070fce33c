/** Which pointers one batch of installs leaves on patched code when functions share
    addresses, and why no detour loops even then. */
module HookTermination {
  import opened Common
  import opened LuaApi
  import opened MinHook
  import opened LuaHooks

  /** `f` is installed, and earlier than `g`. */
  ghost predicate Earlier(installs: seq<Install>, f: Api, g: Api) {
    exists i :: 0 <= i < |installs| && installs[i].f == f && forall j :: 0 <= j <= i ==> installs[j].f != g
  }

  lemma EarlierSnoc(installs: seq<Install>, i: Install, f: Api, g: Api)
    requires Earlier(installs, f, g)
    ensures Earlier(installs + [i], f, g)
  {
    var k :| 0 <= k < |installs| && installs[k].f == f && forall j :: 0 <= j <= k ==> installs[j].f != g;
    var longer := installs + [i];
    assert longer[k].f == f && forall j :: 0 <= j <= k ==> longer[j].f != g;
  }

  lemma InstalledIsEarlier(installs: seq<Install>, f: Api, g: Api)
    requires Installs(installs, f) && !Installs(installs, g)
    ensures Earlier(installs, f, g)
  {
    var k :| 0 <= k < |installs| && installs[k].f == f;
    assert forall j :: 0 <= j <= k ==> installs[j].f != g;
  }

  /** Of the installed functions with one hooked target the first one moved. */
  ghost predicate FirstMoved(before: HookState, st: HookState, installs: seq<Install>) {
    forall f, g :: f != g && Target(st, f) != Target(before, f) == Target(before, g) && Installs(installs, g) ==>
      Earlier(installs, f, g)
  }

  lemma HookKeepsFirstMoved(lib: Library, before: HookState, st: HookState, installs: seq<Install>, i: Install,
                            detours: Api -> Detour)
    requires lib.Valid() && Unhooked(before) && Batch(lib, before, st, installs, detours)
    requires FirstMoved(before, st, installs)
    ensures FirstMoved(before, Hook(lib, st, i), installs + [i])
  {
    var after := Hook(lib, st, i);
    forall f, g | f != g && Target(after, f) != Target(before, f) == Target(before, g) && Installs(installs + [i], g)
      ensures Earlier(installs + [i], f, g)
    {
      FirstMovedStep(lib, before, st, installs, i, detours, f, g);
    }
  }

  lemma FirstMovedStep(lib: Library, before: HookState, st: HookState, installs: seq<Install>, i: Install,
                       detours: Api -> Detour, f: Api, g: Api)
    requires lib.Valid() && Unhooked(before) && Batch(lib, before, st, installs, detours)
    requires FirstMoved(before, st, installs) && Installs(installs + [i], g)
    requires f != g && Target(Hook(lib, st, i), f) != Target(before, f) == Target(before, g)
    ensures Earlier(installs + [i], f, g)
  {
    InstallsSnoc(installs, i);
    if Target(st, f) != Target(before, f) {
      if !Installs(installs, g) { InstalledIsEarlier(installs, f, g); }
      EarlierSnoc(installs, i, f, g);
    } else {
      MovesNow(lib, before, st, i, f);
      assert false;
    }
  }

  lemma MovesNow(lib: Library, before: HookState, st: HookState, i: Install, f: Api)
    requires lib.Valid() && Hooking(lib, before, st)
    requires Target(st, f) == Target(before, f) != Target(Hook(lib, st, i), f)
    ensures f == i.f && Target(before, f) != 0 && lib.hookable(Target(before, f)) && Target(before, f) !in st.created
  {
  }

  lemma {:induction false} BatchFirstMoved(lib: Library, before: HookState, installs: seq<Install>,
                                           detours: Api -> Detour)
    requires lib.Valid() && Unhooked(before) && Uses(installs, detours)
    ensures FirstMoved(before, HookAll(lib, before, installs), installs)
    decreases |installs|
  {
    if installs != [] {
      var front, i := installs[..|installs| - 1], installs[|installs| - 1];
      assert installs == front + [i];
      BatchFirstMoved(lib, before, front, detours);
      BatchHolds(lib, before, front, detours);
      HookKeepsFirstMoved(lib, before, HookAll(lib, before, front), front, i, detours);
    }
  }

  /** The position at which a function is first installed. */
  function FirstIndex(installs: seq<Install>, f: Api): (k: nat)
    ensures k <= |installs|
    ensures forall j :: 0 <= j < k ==> installs[j].f != f
    ensures k < |installs| ==> installs[k].f == f
  {
    if installs == [] || installs[0].f == f then 0
    else
      var k := FirstIndex(installs[1..], f);
      assert forall j :: 0 < j < |installs| ==> installs[1..][j - 1] == installs[j];
      k + 1
  }

  lemma EarlierIndex(installs: seq<Install>, f: Api, g: Api)
    requires Earlier(installs, f, g)
    ensures FirstIndex(installs, f) < FirstIndex(installs, g)
  {
  }

  // --------------------------------------------------------- patched pointers

  /** `f` is hooked through an address that `g` has as well. */
  ghost predicate HooksTargetOf(lib: Library, before: HookState, installs: seq<Install>, f: Api, g: Api) {
    && f != g && Installs(installs, f)
    && Target(before, f) == Target(before, g) != 0 && lib.hookable(Target(before, f))
  }

  ghost predicate HookedBefore(lib: Library, before: HookState, installs: seq<Install>, f: Api, g: Api) {
    HooksTargetOf(lib, before, installs, f, g) && FirstIndex(installs, f) < FirstIndex(installs, g)
  }

  lemma PatchedBehind(lib: Library, before: HookState, installs: seq<Install>, detours: Api -> Detour, g: Api)
    returns (f: Api)
    requires lib.Valid() && Unhooked(before) && Uses(installs, detours)
    requires Target(before, g) != 0 && !ReachesOriginal(before, Installed(lib, before, installs), g)
    ensures HookedBefore(lib, before, installs, f, g)
  {
    var st := HookAll(lib, before, installs);
    BatchHolds(lib, before, installs, detours);
    BatchFirstMoved(lib, before, installs, detours);
    var a := Target(before, g);
    assert Target(st, g) == a && a in st.created && a in before.code;
    assert WasMoved(before, st, a, detours);
    f :| Target(before, f) == a && Target(st, f) != a && a in st.created && st.created[a] == detours(f);
    if !Installs(installs, g) { InstalledIsEarlier(installs, f, g); }
    assert Earlier(installs, f, g);
    EarlierIndex(installs, f, g);
  }

  lemma LaterDoesNotMove(lib: Library, before: HookState, st: HookState, installs: seq<Install>, f: Api, g: Api)
    requires FirstMoved(before, st, installs) && HookedBefore(lib, before, installs, f, g)
    ensures Target(st, g) == Target(before, g)
  {
    if Target(st, g) != Target(before, g) {
      EarlierIndex(installs, g, f);
      assert false;
    }
  }

  lemma HookedEarlierIsPatched(lib: Library, before: HookState, installs: seq<Install>, detours: Api -> Detour,
                               f: Api, g: Api)
    requires lib.Valid() && Unhooked(before) && Uses(installs, detours)
    requires HookedBefore(lib, before, installs, f, g)
    ensures !ReachesOriginal(before, Installed(lib, before, installs), g)
  {
    BatchHolds(lib, before, installs, detours);
    BatchFirstMoved(lib, before, installs, detours);
    LaterDoesNotMove(lib, before, HookAll(lib, before, installs), installs, f, g);
    assert Target(before, f) in HookAll(lib, before, installs).created;
  }

  /** Which pointers one batch leaves on patched code, for every API function: exactly
      those whose address was hooked for another function, first. */
  lemma PatchedIffHookedEarlier(lib: Library, before: HookState, installs: seq<Install>, detours: Api -> Detour, g: Api)
    requires lib.Valid() && Unhooked(before) && Uses(installs, detours) && Target(before, g) != 0
    ensures !ReachesOriginal(before, Installed(lib, before, installs), g) <==>
      exists f :: HookedBefore(lib, before, installs, f, g)
  {
    if !ReachesOriginal(before, Installed(lib, before, installs), g) {
      var f := PatchedBehind(lib, before, installs, detours, g);
    }
    if f :| HookedBefore(lib, before, installs, f, g) {
      HookedEarlierIsPatched(lib, before, installs, detours, f, g);
    }
  }

  /** No non-null API pointer holds a patched address if and only if no function is
      hooked through a hookable address that any other function has too. */
  lemma NonePatchedIff(lib: Library, before: HookState, installs: seq<Install>, detours: Api -> Detour)
    requires lib.Valid() && Unhooked(before) && Uses(installs, detours)
    ensures NonePatched(before, Installed(lib, before, installs)) <==>
      forall f, g :: !HooksTargetOf(lib, before, installs, f, g)
  {
    if g :| Target(before, g) != 0 && !ReachesOriginal(before, Installed(lib, before, installs), g) {
      var f := PatchedBehind(lib, before, installs, detours, g);
    }
    if f, g :| HooksTargetOf(lib, before, installs, f, g) {
      if FirstIndex(installs, f) < FirstIndex(installs, g) {
        HookedEarlierIsPatched(lib, before, installs, detours, f, g);
      } else {
        FirstIndexFound(installs, f);
        HookedEarlierIsPatched(lib, before, installs, detours, g, f);
      }
    }
  }

  lemma FirstIndexFound(installs: seq<Install>, f: Api)
    requires Installs(installs, f)
    ensures FirstIndex(installs, f) < |installs|
  {
  }

  // ------------------------------------------------------------------ no loops

  /** A loader's detour forwards to a function that was hooked no later. */
  ghost predicate LoadersInOrder(installs: seq<Install>) {
    && FirstIndex(installs, LuaLLoadbufferx) <= FirstIndex(installs, LuaLLoadbuffer)
    && FirstIndex(installs, LuaLLoadfilex) <= FirstIndex(installs, LuaLLoadfile)
  }

  /** Where the pointer of `g` leads: to original code, or to the detour of a function
      that shares `g`'s address and was hooked before it. */
  lemma PointerLeadsOn(lib: Library, before: HookState, installs: seq<Install>, detours: Api -> Detour, g: Api)
    returns (h: Api)
    requires lib.Valid() && Unhooked(before) && Suitable(installs, detours)
    requires Installs(installs, g) && Target(before, g) != 0
    ensures var after := Installed(lib, before, installs);
      var a := Target(after, g);
      && a in after.code
      && (after.code[a].Body? ||
          (after.code[a] == Jump(detours(h)) && Target(before, h) != 0 && Installs(installs, h)
           && FirstIndex(installs, h) < FirstIndex(installs, g)))
  {
    var st := HookAll(lib, before, installs);
    BatchHolds(lib, before, installs, detours);
    BatchFirstMoved(lib, before, installs, detours);
    h := g;
    var a := Target(st, g);
    if a in st.created {
      assert a == Target(before, g) && a in before.code;
      assert WasMoved(before, st, a, detours);
      h :| Target(before, h) == a && Target(st, h) != a && a in st.created && st.created[a] == detours(h);
      assert Earlier(installs, h, g);
      EarlierIndex(installs, h, g);
    }
  }

  /** Where the detour of `f` forwards to, and what it finds there. */
  lemma DetourForwards(lib: Library, before: HookState, installs: seq<Install>, detours: Api -> Detour, f: Api)
    returns (g: Api, h: Api)
    requires lib.Valid() && Unhooked(before) && Suitable(installs, detours) && LoadersInOrder(installs)
    requires Installs(installs, f) && Target(before, f) != 0
    ensures var after := Installed(lib, before, installs);
      var a := Target(after, g);
      && Dispatch(after.pointers, f) == Some(g) && a in after.code
      && (after.code[a].Body? ||
          (after.code[a] == Jump(detours(h)) && Target(before, h) != 0 && Installs(installs, h)
           && FirstIndex(installs, h) < FirstIndex(installs, f)))
  {
    NullnessStays(lib, before, installs, detours);
    DispatchStays(before.pointers, Installed(lib, before, installs).pointers, f);
    DispatchIsTotal(before.pointers, f);
    DispatchIsInstalled(before.pointers, installs, detours, f);
    g := Dispatch(before.pointers, f).value;
    h := PointerLeadsOn(lib, before, installs, detours, g);
  }

  /** The detour of `f` ends in original code or at a detour of smaller rank. */
  ghost predicate Forwards(st: HookState, detours: Api -> Detour, rank: Api -> nat, live: Api -> bool, f: Api) {
    exists g :: Dispatch(st.pointers, f) == Some(g) && Target(st, g) in st.code &&
      (st.code[Target(st, g)].Body? || LeadsToSmaller(st.code[Target(st, g)], detours, rank, live, f))
  }

  ghost predicate LeadsToSmaller(code: Code, detours: Api -> Detour, rank: Api -> nat, live: Api -> bool, f: Api) {
    exists h :: code == Jump(detours(h)) && live(h) && rank(h) < rank(f)
  }

  /** The trace ends in original code after at most `detours` detours. */
  predicate EndsWithin(events: seq<Event>, detours: nat) {
    EndsInOriginal(events) && |events| <= detours + 1
  }

  /** Such a chain of detours is as long as the first one's rank at most. */
  lemma {:induction false} ChainEnds(st: HookState, detours: Api -> Detour, rank: Api -> nat, live: Api -> bool,
                                     f: Api, a: nat, fuel: nat)
    requires forall x :: Owner(detours(x)) == x && (live(x) ==> Forwards(st, detours, rank, live, x))
    requires live(f) && a in st.code && st.code[a] == Jump(detours(f)) && fuel >= rank(f) + 2
    ensures EndsWithin(Calls(st, a, fuel), rank(f) + 1)
    decreases fuel
  {
    var g, h := NextInChain(st, detours, rank, live, f);
    var b := Target(st, g);
    if st.code[b].Jump? {
      ChainEnds(st, detours, rank, live, h, b, fuel - 1);
      EndsSooner(Calls(st, b, fuel - 1), rank(h) + 1, rank(f));
    } else {
      EndsAtOnce(st, b, fuel - 1, rank(f));
    }
    OneStep(st, a, detours(f), g, fuel, rank(f));
  }

  lemma NextInChain(st: HookState, detours: Api -> Detour, rank: Api -> nat, live: Api -> bool, f: Api)
    returns (g: Api, h: Api)
    requires Forwards(st, detours, rank, live, f)
    ensures Dispatch(st.pointers, f) == Some(g) && Target(st, g) in st.code
    ensures st.code[Target(st, g)].Jump? ==>
      st.code[Target(st, g)] == Jump(detours(h)) && live(h) && rank(h) < rank(f)
  {
    g :| Dispatch(st.pointers, f) == Some(g) && Target(st, g) in st.code &&
      (st.code[Target(st, g)].Body? || LeadsToSmaller(st.code[Target(st, g)], detours, rank, live, f));
    h := f;
    if st.code[Target(st, g)].Jump? {
      h :| st.code[Target(st, g)] == Jump(detours(h)) && live(h) && rank(h) < rank(f);
    }
  }

  lemma EndsSooner(events: seq<Event>, detours: nat, more: nat)
    requires EndsWithin(events, detours) && detours <= more
    ensures EndsWithin(events, more)
  {
  }

  lemma EndsAtOnce(st: HookState, a: nat, fuel: nat, detours: nat)
    requires a in st.code && st.code[a].Body? && fuel >= 1
    ensures EndsWithin(Calls(st, a, fuel), detours)
  {
  }

  lemma InstalledForwards(lib: Library, before: HookState, installs: seq<Install>, detours: Api -> Detour,
                          rank: Api -> nat, live: Api -> bool, f: Api)
    requires lib.Valid() && Unhooked(before) && Suitable(installs, detours) && LoadersInOrder(installs)
    requires forall x :: rank(x) == FirstIndex(installs, x) && live(x) == (Installs(installs, x) && Target(before, x) != 0)
    requires live(f)
    ensures Forwards(Installed(lib, before, installs), detours, rank, live, f)
  {
    var g, h := DetourForwards(lib, before, installs, detours, f);
    var after := Installed(lib, before, installs);
    if after.code[Target(after, g)].Jump? {
      assert live(h) && rank(h) < rank(f);
      assert LeadsToSmaller(after.code[Target(after, g)], detours, rank, live, f);
    }
  }

  lemma DetourEnds(lib: Library, before: HookState, installs: seq<Install>, detours: Api -> Detour,
                   f: Api, a: nat, fuel: nat)
    requires lib.Valid() && Unhooked(before) && Suitable(installs, detours) && LoadersInOrder(installs)
    requires Installs(installs, f) && Target(before, f) != 0 && fuel >= |installs| + 1
    requires var after := Installed(lib, before, installs); a in after.code && after.code[a] == Jump(detours(f))
    ensures EndsWithin(Calls(Installed(lib, before, installs), a, fuel), |installs|)
  {
    var rank: Api -> nat := (x: Api) => FirstIndex(installs, x);
    var live: Api -> bool := (x: Api) => Installs(installs, x) && Target(before, x) != 0;
    forall x | live(x)
      ensures Forwards(Installed(lib, before, installs), detours, rank, live, x)
    {
      InstalledForwards(lib, before, installs, detours, rank, live, x);
    }
    FirstIndexFound(installs, f);
    ChainEnds(Installed(lib, before, installs), detours, rank, live, f, a, fuel);
    EndsSooner(Calls(Installed(lib, before, installs), a, fuel), rank(f) + 1, |installs|);
  }

  lemma OneStep(st: HookState, a: nat, detour: Detour, g: Api, fuel: nat, detours: nat)
    requires fuel >= 2 && a in st.code && st.code[a] == Jump(detour)
    requires Dispatch(st.pointers, Owner(detour)) == Some(g) && EndsWithin(Calls(st, Target(st, g), fuel - 1), detours)
    ensures EndsWithin(Calls(st, a, fuel), detours + 1)
  {
    assert Calls(st, a, fuel) == [Ran(detour)] + Calls(st, Target(st, g), fuel - 1);
  }

  /** A patched original has the detour of an installed function with that target. */
  lemma PatchedOriginal(lib: Library, before: HookState, installs: seq<Install>, detours: Api -> Detour, a: nat)
    returns (f: Api)
    requires lib.Valid() && Unhooked(before) && Uses(installs, detours) && a in before.code
    ensures var code := Installed(lib, before, installs).code;
      && a in code
      && (code[a].Body? || (code[a] == Jump(detours(f)) && Target(before, f) == a && Installs(installs, f)))
  {
    var st := HookAll(lib, before, installs);
    BatchHolds(lib, before, installs, detours);
    f := LuaOpen;
    if a in st.created {
      assert WasMoved(before, st, a, detours);
      f :| Target(before, f) == a && Target(st, f) != a && a in st.created && st.created[a] == detours(f);
    }
  }

  /** After one batch, calling any original ends in original code after at most as
      many detours as there are installs, whatever addresses coincide. */
  lemma NoCallLoops(lib: Library, before: HookState, installs: seq<Install>, detours: Api -> Detour, a: nat, fuel: nat)
    requires lib.Valid() && Unhooked(before) && Suitable(installs, detours) && LoadersInOrder(installs)
    requires a in before.code && fuel >= |installs| + 1
    ensures EndsWithin(Calls(Installed(lib, before, installs), a, fuel), |installs|)
  {
    var f := PatchedOriginal(lib, before, installs, detours, a);
    if Installed(lib, before, installs).code[a].Jump? {
      DetourEnds(lib, before, installs, detours, f, a, fuel);
    } else {
      EndsAtOnce(Installed(lib, before, installs), a, fuel, |installs|);
    }
  }

  lemma FirstIndexBefore(installs: seq<Install>, f: Api, g: Api, k: nat)
    requires k < |installs| && installs[k].f == f && forall j :: 0 <= j < k ==> installs[j].f != g
    ensures FirstIndex(installs, f) <= k <= FirstIndex(installs, g)
  {
  }

  lemma LoaderPositions(version: int)
    ensures var order := HookOrder(version);
      && |order| > 14 && order[12] == LuaLLoadbufferx && order[14] == LuaLLoadfilex
      && (forall j :: 0 <= j < 12 ==> order[j] != LuaLLoadbuffer)
      && (forall j :: 0 <= j < 14 ==> order[j] != LuaLLoadfile)
  {
  }

  /** odbk's own list meets the condition. */
  lemma LuaLoadersAreInOrder(version: int)
    ensures LoadersInOrder(LuaInstalls(version))
  {
    LoaderPositions(version);
    OrderedLoaders(DetourFor(version), HookOrder(version));
  }

  lemma OrderedLoaders(detours: Api -> Detour, order: seq<Api>)
    requires |order| > 14 && order[12] == LuaLLoadbufferx && order[14] == LuaLLoadfilex
    requires forall j :: 0 <= j < 12 ==> order[j] != LuaLLoadbuffer
    requires forall j :: 0 <= j < 14 ==> order[j] != LuaLLoadfile
    ensures LoadersInOrder(InstallsOf(detours, order))
  {
    IndexInOrder(detours, order, LuaLLoadbufferx, LuaLLoadbuffer, 12);
    IndexInOrder(detours, order, LuaLLoadfilex, LuaLLoadfile, 14);
  }

  lemma IndexInOrder(detours: Api -> Detour, order: seq<Api>, f: Api, g: Api, k: nat)
    requires k < |order| && order[k] == f && forall j :: 0 <= j < k ==> order[j] != g
    ensures FirstIndex(InstallsOf(detours, order), f) <= k <= FirstIndex(InstallsOf(detours, order), g)
  {
    FirstIndexBefore(InstallsOf(detours, order), f, g, k);
  }
}

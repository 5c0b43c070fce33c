/** `odbk_lua_finish_load`: detect the Lua version and bind the API pointers. */
module Binder {
  import opened Common
  import opened LuaApi
  import opened SymbolLoader

  // ------------------------------------------------------------ version detection

  datatype VersionInfo = VersionInfo(version: int, registryIndex: int, globalsIndex: int, hookTailCall: int)

  /** `LUA_HOOKTAILRET` and `LUA_HOOKTAILCALL` are the same number. */
  const LUA_HOOKTAIL := 4

  function Detect(symbols: Symbols, before: VersionInfo): Option<VersionInfo> {
    if "lua_open" in symbols then Some(VersionInfo(500, -10000, -10001, before.hookTailCall))
    else if "lua_rotate" in symbols then Some(VersionInfo(530, -1001000, 2, LUA_HOOKTAIL))
    else if "lua_callk" in symbols then Some(VersionInfo(520, -1001000, 2, LUA_HOOKTAIL))
    else if "lua_gettop" in symbols then Some(VersionInfo(510, -10000, -10002, LUA_HOOKTAIL))
    else None
  }

  // -------------------------------------------------------------------- the steps

  /** One macro call; `Fallback` is an optional lookup followed by a required one
      that only runs when the first found nothing. */
  datatype Step =
    | Required(f: Api)
    | Optional(f: Api)
    | Fallback(f: Api, other: Api)
    | Alias(f: Api, other: Api)
    | Relocate(f: Api, other: Api)
    | RequiredSince(since: int, f: Api)

  /** The macro each function is looked up with. */
  function RoleOf(f: Api): Step {
    match f
    case LuaOpen => Fallback(f, LuaNewstate)
    case LuaTostring => Fallback(f, LuaTolstring)
    case LuaTonumberx => Fallback(f, LuaTonumber)
    case LuaCallk => Fallback(f, LuaCall)
    case LuaPcallk => Fallback(f, LuaPcall)
    case LuaNewtable => Fallback(f, LuaCreatetable)
    case LuaPushthread => RequiredSince(510, f)
    case LuaIOpenlib => Alias(f, LuaLOpenlib)
    case LuaNewthread | LuaClose | LuaError | LuaopenBase | LuaSethook | LuaGetinfo | LuaSettable | LuaGettable
       | LuaRawget | LuaRawgeti | LuaRawset | LuaPushstring | LuaPushlstring | LuaType | LuaTypename
       | LuaSettop | LuaGettop | LuaGetlocal | LuaSetlocal | LuaGetstack | LuaPushnil | LuaPushvalue
       | LuaPushcclosure | LuaPushnumber | LuaCheckstack | LuaGethookmask | LuaPushboolean | LuaToboolean
       | LuaTocfunction | LuaTouserdata | LuaNext | LuaRawequal | LuaGetmetatable | LuaSetmetatable
       | LuaLNewmetatable | LuaGetupvalue | LuaSetupvalue | LuaLOpenlibs | LuaNewuserdata => Required(f)
    case _ => Optional(f)
  }

  // The functions in the order of the macro calls, in five stretches.

  const STATE_ORDER: seq<Api> := [
      LuaOpen, LuaNewthread, LuaClose, LuaError, LuaopenBase, LuaAbsindex, LuaSethook, LuaGetinfo, LuaRemove,
      LuaRotate, LuaSettable, LuaGettable, LuaRawget, LuaRawgeti, LuaRawset
    ]

  const STACK_ORDER: seq<Api> := [
      LuaPushstring, LuaPushlstring, LuaType, LuaTypename, LuaSettop, LuaGettop, LuaGetlocal, LuaSetlocal,
      LuaGetstack, LuaInsert, LuaPushnil, LuaPushvalue, LuaPushcclosure, LuaPushnumber, LuaCheckstack,
      LuaGethookmask, LuaPushboolean
    ]

  const VALUE_ORDER: seq<Api> := [
      LuaConcat, LuaLWhere, LuaGetglobal, LuaSetglobal, LuaPushinteger, LuaTointeger, LuaTointegerx,
      LuaTostring, LuaTonumberx, LuaToboolean, LuaTocfunction, LuaTouserdata, LuaCallk, LuaPcallk, LuaNewtable
    ]

  const TABLE_ORDER: seq<Api> := [
      LuaLoad, LuaNext, LuaRawequal, LuaGetmetatable, LuaSetmetatable, LuaLRef, LuaLUnref, LuaLNewmetatable,
      LuaGetupvalue, LuaSetupvalue, LuaLOpenlibs, LuaGetfenv, LuaSetfenv, LuaCpcall, LuaNewuserdata
    ]

  const LIBRARY_ORDER: seq<Api> := [
      LuaLNewstate, LuaLRegister, LuaIOpenlib, LuaLLoadbuffer, LuaLLoadbufferx, LuaLLoadfile, LuaLLoadfilex,
      LuaTowstring, LuaIswstring, LuaPushthread, LuaIsinteger, LuaLoadx
    ]

  const ORDER: seq<Api> := STATE_ORDER + STACK_ORDER + VALUE_ORDER + TABLE_ORDER + LIBRARY_ORDER

  /** At the end `lua_load` is overwritten with the lookup of `lua_loadx`. */
  const RELOCATION := Relocate(LuaLoad, LuaLoadx)

  function Roles(order: seq<Api>): seq<Step> {
    seq(|order|, i requires 0 <= i < |order| => RoleOf(order[i]))
  }

  /** The macro calls, with the functions in the given order. */
  function Program(order: seq<Api>): seq<Step> {
    Roles(order) + [RELOCATION]
  }

  /** What `get_lua_fn` returns for each function; 0 when there is no such symbol. */
  type Lookups = Api -> Address

  function LookupIn(symbols: Symbols): Lookups {
    (a: Api) => if a.Name() in symbols then symbols[a.Name()] else 0
  }

  /** The pointers one step assigns, in one merged map. */
  function Writes(found: Lookups, step: Step): map<Api, Address> {
    match step
    case Fallback(f, other) =>
      if found(f) != 0 then map[f := found(f)]
      else map[f := 0] + map[other := found(other)]
    case Alias(f, other) =>
      map[f := if found(f) != 0 then found(f) else found(other)]
    case Relocate(f, other) => map[f := found(other)]
    case _ => map[step.f := found(step.f)]
  }

  /** Whether the binder goes on after the step. */
  predicate Passes(found: Lookups, version: int, step: Step) {
    match step
    case Required(f) => found(f) != 0
    case Fallback(f, other) => found(f) != 0 || found(other) != 0
    case RequiredSince(since, f) => version >= since ==> found(f) != 0
    case _ => true
  }

  /** What running all of `steps` assigns; a later step overwrites an earlier one. */
  function Assigned(found: Lookups, steps: seq<Step>): map<Api, Address>
    decreases |steps|
  {
    if steps == [] then map[]
    else Assigned(found, steps[..|steps| - 1]) + Writes(found, steps[|steps| - 1])
  }

  /** The first step from `i` on that does not pass; `|steps|` when all do. */
  function FirstFailureFrom(found: Lookups, version: int, steps: seq<Step>, i: nat): (k: nat)
    requires i <= |steps|
    ensures i <= k <= |steps|
    ensures forall j :: i <= j < k ==> Passes(found, version, steps[j])
    ensures k < |steps| ==> !Passes(found, version, steps[k])
    decreases |steps| - i
  {
    if i == |steps| || !Passes(found, version, steps[i]) then i
    else FirstFailureFrom(found, version, steps, i + 1)
  }

  function FirstFailure(found: Lookups, version: int, steps: seq<Step>): nat {
    FirstFailureFrom(found, version, steps, 0)
  }

  /** The steps that run: the first that does not pass still assigns its pointer. */
  function Executed(found: Lookups, version: int, steps: seq<Step>): seq<Step> {
    var k := FirstFailure(found, version, steps);
    if k < |steps| then steps[..k + 1] else steps
  }

  // -------------------------------------------------------------- closed forms

  predicate IsLua(symbols: Symbols) {
    "lua_open" in symbols || "lua_rotate" in symbols || "lua_callk" in symbols || "lua_gettop" in symbols
  }

  /** The function whose absence makes `a` required. */
  function SubstitutedBy(a: Api): Option<Api> {
    match a
    case LuaNewstate => Some(LuaOpen)
    case LuaTolstring => Some(LuaTostring)
    case LuaTonumber => Some(LuaTonumberx)
    case LuaCall => Some(LuaCallk)
    case LuaPcall => Some(LuaPcallk)
    case LuaCreatetable => Some(LuaNewtable)
    case _ => None
  }

  /** The functions every Lua must have, and the pairs of which it must have one. */
  const REQUIRED: seq<Api> := REQUIRED_FIRST + REQUIRED_NEXT + REQUIRED_LAST

  const REQUIRED_FIRST: seq<Api> := [
      LuaNewthread, LuaClose, LuaError, LuaopenBase, LuaSethook, LuaGetinfo, LuaSettable, LuaGettable, LuaRawget,
      LuaRawgeti, LuaRawset, LuaPushstring, LuaPushlstring
    ]

  const REQUIRED_NEXT: seq<Api> := [
      LuaType, LuaTypename, LuaSettop, LuaGettop, LuaGetlocal, LuaSetlocal, LuaGetstack, LuaPushnil, LuaPushvalue,
      LuaPushcclosure, LuaPushnumber, LuaCheckstack, LuaGethookmask
    ]

  const REQUIRED_LAST: seq<Api> := [
      LuaPushboolean, LuaToboolean, LuaTocfunction, LuaTouserdata, LuaNext, LuaRawequal, LuaGetmetatable,
      LuaSetmetatable, LuaLNewmetatable, LuaGetupvalue, LuaSetupvalue, LuaLOpenlibs, LuaNewuserdata
    ]

  const PAIRS: seq<(Api, Api)> := [
      (LuaOpen, LuaNewstate), (LuaTostring, LuaTolstring), (LuaTonumberx, LuaTonumber), (LuaCallk, LuaCall),
      (LuaPcallk, LuaPcall), (LuaNewtable, LuaCreatetable)
    ]

  /** Every required function, one of each pair, and `lua_pushthread` unless the
      engine is Lua 5.0. */
  ghost predicate Satisfies(found: Lookups, lua50: bool) {
    && FindsAll(found, REQUIRED) && FindsOneOfEach(found, PAIRS)
    && (!lua50 ==> found(LuaPushthread) != 0)
  }

  ghost predicate FindsAll(found: Lookups, fs: seq<Api>) {
    forall f :: f in fs ==> found(f) != 0
  }

  ghost predicate FindsOneOfEach(found: Lookups, pairs: seq<(Api, Api)>) {
    forall p :: p in pairs ==> found(p.0) != 0 || found(p.1) != 0
  }

  /** When `odbk_lua_finish_load` answers true. */
  ghost predicate Accepts(symbols: Symbols) {
    IsLua(symbols) && Satisfies(LookupIn(symbols), "lua_open" in symbols)
  }

  /** The address a function's own macro finds for its pointer. */
  function RoleAddress(found: Lookups, a: Api): Address {
    if a == LuaIOpenlib && found(a) == 0 then found(LuaLOpenlib) else found(a)
  }

  /** What a pointer holds after a complete run; `lua_load` is relocated. */
  function FinalAddress(found: Lookups, a: Api): Address {
    if a == LuaLoad then found(LuaLoadx) else RoleAddress(found, a)
  }

  /** Which pointers a complete run assigns. */
  predicate IsAssigned(found: Lookups, a: Api) {
    a != LuaLOpenlib && (SubstitutedBy(a).Some? ==> found(SubstitutedBy(a).value) == 0)
  }

  /** Whether a function has a macro of its own. */
  predicate HasMacro(f: Api) {
    match f
    case LuaNewstate | LuaTolstring | LuaTonumber | LuaCall | LuaPcall | LuaCreatetable | LuaLOpenlib => false
    case _ => true
  }

  ghost predicate Complete(order: seq<Api>) {
    forall f :: f in order <==> HasMacro(f)
  }

  lemma OrderLists(f: Api)
    requires HasMacro(f)
    ensures f in STATE_ORDER || f in STACK_ORDER || f in VALUE_ORDER || f in TABLE_ORDER || f in LIBRARY_ORDER
  {
    match f
    case LuaOpen | LuaNewthread | LuaClose | LuaError | LuaopenBase | LuaAbsindex | LuaSethook | LuaGetinfo
       | LuaRemove | LuaRotate | LuaSettable | LuaGettable | LuaRawget | LuaRawgeti | LuaRawset =>
      assert f in STATE_ORDER;
    case LuaPushstring | LuaPushlstring | LuaType | LuaTypename | LuaSettop | LuaGettop | LuaGetlocal
       | LuaSetlocal | LuaGetstack | LuaInsert | LuaPushnil | LuaPushvalue | LuaPushcclosure | LuaPushnumber
       | LuaCheckstack | LuaGethookmask | LuaPushboolean =>
      assert f in STACK_ORDER;
    case LuaConcat | LuaLWhere | LuaGetglobal | LuaSetglobal | LuaPushinteger | LuaTointeger | LuaTointegerx
       | LuaTostring | LuaTonumberx | LuaToboolean | LuaTocfunction | LuaTouserdata | LuaCallk | LuaPcallk
       | LuaNewtable =>
      assert f in VALUE_ORDER;
    case LuaLoad | LuaNext | LuaRawequal | LuaGetmetatable | LuaSetmetatable | LuaLRef | LuaLUnref
       | LuaLNewmetatable | LuaGetupvalue | LuaSetupvalue | LuaLOpenlibs | LuaGetfenv | LuaSetfenv | LuaCpcall
       | LuaNewuserdata =>
      assert f in TABLE_ORDER;
    case LuaLNewstate | LuaLRegister | LuaIOpenlib | LuaLLoadbuffer | LuaLLoadbufferx | LuaLLoadfile
       | LuaLLoadfilex | LuaTowstring | LuaIswstring | LuaPushthread | LuaIsinteger | LuaLoadx =>
      assert f in LIBRARY_ORDER;
  }

  lemma EarlyStretchesListOnly(f: Api)
    requires f in STATE_ORDER || f in STACK_ORDER
    ensures HasMacro(f)
  {
  }

  lemma LateStretchesListOnly(f: Api)
    requires f in VALUE_ORDER || f in TABLE_ORDER || f in LIBRARY_ORDER
    ensures HasMacro(f)
  {
  }

  lemma OrderIsComplete()
    ensures Complete(ORDER)
  {
    forall f
      ensures f in ORDER <==> HasMacro(f)
    {
      if HasMacro(f) { OrderLists(f); }
      if f in STATE_ORDER || f in STACK_ORDER {
        EarlyStretchesListOnly(f);
      } else if f in ORDER {
        LateStretchesListOnly(f);
      }
    }
  }

  lemma RoleRuns(order: seq<Api>, f: Api)
    requires f in order
    ensures RoleOf(f) in Program(order)
  {
    var i :| 0 <= i < |order| && order[i] == f;
    assert Program(order)[i] == RoleOf(f);
  }

  lemma StepIsARole(order: seq<Api>, k: nat)
    requires k < |Program(order)|
    ensures Program(order)[k] == if k < |order| then RoleOf(order[k]) else RELOCATION
  {
  }

  lemma RoleNamesItsFunction(f: Api)
    ensures RoleOf(f).f == f
    ensures RoleOf(f).RequiredSince? ==> f == LuaPushthread && RoleOf(f).since == 510
  {
  }

  // ---------------------------------------------------------------- acceptance

  ghost predicate AreRequired(fs: seq<Api>) {
    forall f :: f in fs <==> RoleOf(f) == Required(f)
  }

  ghost predicate AreFallbacks(pairs: seq<(Api, Api)>) {
    forall p :: p in pairs <==> RoleOf(p.0) == Fallback(p.0, p.1)
  }

  /** The two lists are the required macro calls and the guarded ones. */
  lemma ListsAreRoles()
    ensures AreRequired(REQUIRED) && AreFallbacks(PAIRS)
  {
    forall f
      ensures f in REQUIRED <==> RoleOf(f) == Required(f)
    {
      RequiredIsARole(f);
    }
    forall p
      ensures p in PAIRS <==> RoleOf(p.0) == Fallback(p.0, p.1)
    {
      PairsAreRoles(p);
    }
  }

  lemma RequiredIsARole(f: Api)
    ensures f in REQUIRED <==> RoleOf(f) == Required(f)
  {
    if RoleOf(f) == Required(f) { RequiredIsListed(f); }
    if f in REQUIRED_FIRST { FirstAreRequired(f); }
    if f in REQUIRED_NEXT { NextAreRequired(f); }
    if f in REQUIRED_LAST { LastAreRequired(f); }
  }

  lemma FirstAreRequired(f: Api)
    requires f in REQUIRED_FIRST
    ensures RoleOf(f) == Required(f)
  {
  }

  lemma NextAreRequired(f: Api)
    requires f in REQUIRED_NEXT
    ensures RoleOf(f) == Required(f)
  {
  }

  lemma LastAreRequired(f: Api)
    requires f in REQUIRED_LAST
    ensures RoleOf(f) == Required(f)
  {
  }

  lemma RequiredIsListed(f: Api)
    requires RoleOf(f) == Required(f)
    ensures f in REQUIRED_FIRST || f in REQUIRED_NEXT || f in REQUIRED_LAST
  {
  }

  lemma PairsAreRoles(p: (Api, Api))
    ensures p in PAIRS <==> RoleOf(p.0) == Fallback(p.0, p.1)
  {
  }

  lemma SatisfyingRolePasses(found: Lookups, version: int, fs: seq<Api>, pairs: seq<(Api, Api)>, f: Api)
    requires AreRequired(fs) && AreFallbacks(pairs) && FindsAll(found, fs) && FindsOneOfEach(found, pairs)
    requires version >= 510 ==> found(LuaPushthread) != 0
    ensures Passes(found, version, RoleOf(f))
  {
    RoleNamesItsFunction(f);
    if RoleOf(f).Fallback? {
      assert (f, RoleOf(f).other) in pairs;
    }
  }

  lemma PassingRolesSatisfy(found: Lookups, version: int, fs: seq<Api>, pairs: seq<(Api, Api)>)
    requires AreRequired(fs) && AreFallbacks(pairs)
    requires forall f :: HasMacro(f) ==> Passes(found, version, RoleOf(f))
    ensures FindsAll(found, fs) && FindsOneOfEach(found, pairs) && (version >= 510 ==> found(LuaPushthread) != 0)
  {
    forall f | f in fs
      ensures found(f) != 0
    {
      if !HasMacro(f) { OnlyOptionalsAreSkipped(f); }
    }
    forall p | p in pairs
      ensures found(p.0) != 0 || found(p.1) != 0
    {
      if !HasMacro(p.0) { OnlyOptionalsAreSkipped(p.0); }
    }
    assert HasMacro(LuaPushthread) && Passes(found, version, RoleOf(LuaPushthread));
  }

  lemma OnlyOptionalsAreSkipped(f: Api)
    requires !HasMacro(f)
    ensures RoleOf(f) == Optional(f)
  {
  }

  lemma SatisfiesIffProgramPasses(found: Lookups, version: int, order: seq<Api>)
    requires Complete(order)
    ensures Satisfies(found, version < 510) <==>
      FirstFailure(found, version, Program(order)) == |Program(order)|
  {
    var k := FirstFailure(found, version, Program(order));
    ListsAreRoles();
    if k == |Program(order)| {
      forall f | f in order
        ensures Passes(found, version, RoleOf(f))
      {
        RoleRuns(order, f);
      }
      PassingRolesSatisfy(found, version, REQUIRED, PAIRS);
    } else {
      StepIsARole(order, k);
      if Satisfies(found, version < 510) {
        SatisfyingRolePasses(found, version, REQUIRED, PAIRS, order[k]);
      }
    }
  }

  /** The closed form is what running the macro calls decides. */
  lemma AcceptsIffNoStepFails(symbols: Symbols, before: VersionInfo)
    ensures Accepts(symbols) <==>
      && Detect(symbols, before).Some?
      && FirstFailure(LookupIn(symbols), Detect(symbols, before).value.version, Program(ORDER)) == |Program(ORDER)|
  {
    if IsLua(symbols) {
      OrderIsComplete();
      SatisfiesIffProgramPasses(LookupIn(symbols), Detect(symbols, before).value.version, ORDER);
    }
  }

  /** More names never turn acceptance into rejection, even when they change the
      detected version. */
  lemma AcceptanceIsMonotone(symbols: Symbols, more: Symbols)
    requires forall n :: n in symbols ==> n in more && (symbols[n] != 0 ==> more[n] != 0)
    ensures Accepts(symbols) ==> Accepts(more)
  {
    if Accepts(symbols) {
      forall a
        ensures LookupIn(symbols)(a) != 0 ==> LookupIn(more)(a) != 0
      {
      }
      SatisfiesMonotone(LookupIn(symbols), "lua_open" in symbols, LookupIn(more), "lua_open" in more);
    }
  }

  lemma SatisfiesMonotone(found: Lookups, lua50: bool, more: Lookups, moreLua50: bool)
    requires Satisfies(found, lua50) && (lua50 ==> moreLua50)
    requires forall a :: found(a) != 0 ==> more(a) != 0
    ensures Satisfies(more, moreLua50)
  {
  }

  // ---------------------------------------------------------- the pointer table

  lemma {:induction false} AssignedDomain(found: Lookups, steps: seq<Step>)
    ensures forall a :: a in Assigned(found, steps) <==> exists step :: step in steps && a in Writes(found, step)
    decreases |steps|
  {
    if steps != [] {
      var front, last := steps[..|steps| - 1], steps[|steps| - 1];
      AssignedDomain(found, front);
      assert steps == front + [last];
      assert forall step :: step in steps <==> step in front || step == last;
    }
  }

  /** Before the relocation a pointer is only ever assigned one address. */
  lemma {:induction false} AssignedAddress(found: Lookups, steps: seq<Step>, a: Api)
    requires forall step :: step in steps ==> step == RoleOf(step.f)
    requires a in Assigned(found, steps)
    ensures Assigned(found, steps)[a] == RoleAddress(found, a)
    decreases |steps|
  {
    var front, last := steps[..|steps| - 1], steps[|steps| - 1];
    assert steps == front + [last];
    if a in Writes(found, last) {
      WrittenAddress(found, last, a);
    } else {
      AssignedAddress(found, front, a);
    }
  }

  lemma WrittenAddress(found: Lookups, step: Step, a: Api)
    requires step == RoleOf(step.f) && a in Writes(found, step)
    ensures Writes(found, step)[a] == RoleAddress(found, a)
  {
  }

  /** A rejected run leaves exactly the pointers of the steps it executed assigned,
      each with the address its own macro finds; the last step is the failed one. */
  lemma RejectedRunWritesItsPrefix(found: Lookups, version: int, order: seq<Api>, a: Api)
    requires FirstFailure(found, version, Program(order)) < |Program(order)|
    ensures var steps := Executed(found, version, Program(order));
      && (a in Assigned(found, steps) <==> exists step :: step in steps && a in Writes(found, step))
      && (a in Assigned(found, steps) ==> Assigned(found, steps)[a] == RoleAddress(found, a))
      && !Passes(found, version, steps[|steps| - 1])
  {
    var k := FirstFailure(found, version, Program(order));
    var steps := Executed(found, version, Program(order));
    AssignedDomain(found, steps);
    StepIsARole(order, k);
    PrefixOfRoles(order, k + 1);
    RolesAreRoles(order[..k + 1]);
    if a in Assigned(found, steps) {
      AssignedAddress(found, steps, a);
    }
  }

  lemma PrefixOfRoles(order: seq<Api>, k: nat)
    requires k <= |order|
    ensures Program(order)[..k] == Roles(order[..k])
  {
  }

  lemma RolesAreRoles(order: seq<Api>)
    ensures forall step :: step in Roles(order) ==> step == RoleOf(step.f)
  {
    forall step | step in Roles(order)
      ensures step == RoleOf(step.f)
    {
      var i :| 0 <= i < |order| && step == RoleOf(order[i]);
      RoleNamesItsFunction(order[i]);
    }
  }

  /** The function whose macro assigns `a` when `a` is assigned. */
  function Writer(a: Api): Api {
    if SubstitutedBy(a).Some? then SubstitutedBy(a).value else a
  }

  lemma WritesItsFunction(found: Lookups, step: Step)
    ensures step.f in Writes(found, step)
  {
  }

  lemma WriterWrites(found: Lookups, a: Api)
    requires IsAssigned(found, a)
    ensures HasMacro(Writer(a)) && a in Writes(found, RoleOf(Writer(a)))
  {
    RoleNamesItsFunction(a);
    WritesItsFunction(found, RoleOf(a));
    SubstitutesAreFallbacks(a);
  }

  lemma SubstitutesAreFallbacks(a: Api)
    ensures if SubstitutedBy(a).Some?
      then RoleOf(SubstitutedBy(a).value) == Fallback(SubstitutedBy(a).value, a) && HasMacro(SubstitutedBy(a).value)
      else HasMacro(a) || a == LuaLOpenlib
  {
  }

  lemma AssignedByRole(found: Lookups, order: seq<Api>, a: Api)
    requires Complete(order) && IsAssigned(found, a)
    ensures exists step :: step in Program(order) && a in Writes(found, step)
  {
    WriterWrites(found, a);
    RoleRuns(order, Writer(a));
  }

  lemma FallbacksAreSubstitutes(f: Api)
    requires RoleOf(f).Fallback?
    ensures RoleOf(f).f == f && SubstitutedBy(RoleOf(f).other) == Some(f) && RoleOf(f).other != LuaLOpenlib
  {
  }

  lemma OnlyAssignedByRole(found: Lookups, f: Api, a: Api)
    requires HasMacro(f) && a in Writes(found, RoleOf(f))
    ensures IsAssigned(found, a)
  {
    RoleNamesItsFunction(f);
    if RoleOf(f).Fallback? { FallbacksAreSubstitutes(f); }
    if a == f { SubstitutesLackMacros(a); }
  }

  lemma SubstitutesLackMacros(a: Api)
    requires HasMacro(a)
    ensures SubstitutedBy(a).None? && a != LuaLOpenlib
  {
  }

  lemma AssignedTwoParts(found: Lookups, order: seq<Api>)
    ensures Assigned(found, Program(order)) ==
      Assigned(found, Roles(order)) + map[LuaLoad := found(LuaLoadx)]
  {
    var program := Program(order);
    assert program[..|program| - 1] == Roles(order);
  }

  lemma ProgramStep(found: Lookups, order: seq<Api>, step: Step, a: Api)
    requires Complete(order) && step in Program(order) && a in Writes(found, step)
    ensures IsAssigned(found, a)
  {
    var k :| 0 <= k < |Program(order)| && Program(order)[k] == step;
    StepIsARole(order, k);
    if k < |order| {
      assert order[k] in order;
      OnlyAssignedByRole(found, order[k], a);
    }
  }

  lemma AcceptedRunDomain(found: Lookups, order: seq<Api>, a: Api)
    requires Complete(order)
    ensures a in Assigned(found, Program(order)) <==> IsAssigned(found, a)
  {
    AssignedDomain(found, Program(order));
    if IsAssigned(found, a) {
      AssignedByRole(found, order, a);
    }
    if a in Assigned(found, Program(order)) {
      var step :| step in Program(order) && a in Writes(found, step);
      ProgramStep(found, order, step, a);
    }
  }

  /** The whole pointer table after a complete run: `lua_load` holds what was found
      as `lua_loadx`, a function that was not needed keeps its old pointer, and
      every other one holds what its macro finds. */
  lemma AcceptedRunTable(found: Lookups, order: seq<Api>, a: Api)
    requires Complete(order)
    ensures a in Assigned(found, Program(order)) <==> IsAssigned(found, a)
    ensures IsAssigned(found, a) ==>
      Assigned(found, Program(order))[a] == FinalAddress(found, a)
  {
    AcceptedRunDomain(found, order, a);
    AssignedTwoParts(found, order);
    if IsAssigned(found, a) && a != LuaLoad {
      RolesAreRoles(order);
      AssignedAddress(found, Roles(order), a);
    }
  }

  // ------------------------------------------------------------ the binder itself

  ghost function VersionOf(ctx: LuaContext): VersionInfo
    reads ctx
  {
    VersionInfo(ctx.version, ctx.registryIndex, ctx.globalsIndex, ctx.hookTailCall)
  }

  method DetectVersion(ctx: LuaContext) returns (isLua: bool)
    modifies ctx`version, ctx`registryIndex, ctx`globalsIndex, ctx`hookTailCall
    ensures isLua == IsLua(ctx.symbols) == Detect(ctx.symbols, old(VersionOf(ctx))).Some?
    ensures VersionOf(ctx) ==
      if isLua then Detect(ctx.symbols, old(VersionOf(ctx))).value else old(VersionOf(ctx))
  {
    isLua := true;
    if "lua_open" in ctx.symbols {
      ctx.version := 500;
      ctx.registryIndex := -10000;
      ctx.globalsIndex := -10001;
    } else if "lua_rotate" in ctx.symbols {
      ctx.version := 530;
      ctx.registryIndex := -1001000;
      ctx.globalsIndex := 2;
      ctx.hookTailCall := LUA_HOOKTAIL;
    } else if "lua_callk" in ctx.symbols {
      ctx.version := 520;
      ctx.registryIndex := -1001000;
      ctx.globalsIndex := 2;
      ctx.hookTailCall := LUA_HOOKTAIL;
    } else if "lua_gettop" in ctx.symbols {
      ctx.version := 510;
      ctx.registryIndex := -10000;
      ctx.globalsIndex := -10002;
      ctx.hookTailCall := LUA_HOOKTAIL;
    } else {
      isLua := false;
    }
  }

  /** Which version each set of marker names yields, and the pseudo-indices that go with
      it: from 5.2 on the globals are a slot of the registry. */
  lemma MarkersDecideVersion(symbols: Symbols, before: VersionInfo)
    requires IsLua(symbols)
    ensures var info := Detect(symbols, before).value;
      && info.version in {500, 510, 520, 530}
      && (info.version >= 510 <==> "lua_open" !in symbols)
      && (info.version >= 520 <==> "lua_open" !in symbols && ("lua_rotate" in symbols || "lua_callk" in symbols))
      && (info.version >= 530 <==> "lua_open" !in symbols && "lua_rotate" in symbols)
      && (info.version == 500 ==> info.registryIndex == -10000 && info.globalsIndex == -10001)
      && (info.version == 510 ==> info.registryIndex == -10000 && info.globalsIndex == -10002)
      && (info.version >= 520 ==> info.registryIndex == -1001000 && info.globalsIndex == 2)
      && info.hookTailCall == if info.version >= 510 then 4 else before.hookTailCall
  {
  }

  /** More names move the version up, or to 5.0; whatever was detected before. */
  lemma MoreNamesMoveVersionUp(symbols: Symbols, more: Symbols, before: VersionInfo, later: VersionInfo)
    requires IsLua(symbols) && symbols.Keys <= more.Keys
    ensures IsLua(more)
    ensures var v, w := Detect(symbols, before).value.version, Detect(more, later).value.version;
      (w == 500 <==> "lua_open" in more) && (w != 500 ==> v <= w)
  {
    MarkersDecideVersion(symbols, before);
    MarkersDecideVersion(more, later);
    assert forall n :: n in symbols.Keys ==> n in more.Keys;
  }

  /** One assignment of a `GET_FUNCTION` macro; reports whether it found something. */
  method Assign(api: ApiTable, f: Api, address: Address) returns (bound: bool)
    modifies api
    ensures api.pointers == old(api.pointers)[f := address]
    ensures bound <==> address != 0
  {
    api.pointers := api.pointers[f := address];
    bound := address != 0;
  }

  /** One macro call, as the sequence of assignments it expands to; `getLuaFn` is
      the lookup in the collected symbols. */
  method Execute(getLuaFn: Lookups, version: int, api: ApiTable, step: Step) returns (passes: bool)
    modifies api
    ensures api.pointers == old(api.pointers) + Writes(getLuaFn, step)
    ensures passes <==> Passes(getLuaFn, version, step)
  {
    match step
    case Required(f) =>
      passes := Assign(api, f, getLuaFn(f));
    case Optional(f) =>
      var _ := Assign(api, f, getLuaFn(f));
      passes := true;
    case Fallback(f, other) =>
      passes := Assign(api, f, getLuaFn(f));
      if !passes {
        passes := Assign(api, other, getLuaFn(other));
      }
    case Alias(f, other) =>
      var bound := Assign(api, f, getLuaFn(f));
      if !bound {
        var _ := Assign(api, f, getLuaFn(other));
      }
      passes := true;
    case Relocate(f, other) =>
      var _ := Assign(api, f, getLuaFn(other));
      passes := true;
    case RequiredSince(since, f) =>
      passes := Assign(api, f, getLuaFn(f));
      if version < since {
        passes := true;
      }
  }

  lemma AssignedNext(found: Lookups, steps: seq<Step>, i: nat, pointers: Pointers)
    requires i < |steps|
    ensures pointers + Assigned(found, steps[..i]) + Writes(found, steps[i]) ==
      pointers + Assigned(found, steps[..i + 1])
  {
    assert steps[..i + 1][..i] == steps[..i];
  }

  method RunSteps(getLuaFn: Lookups, version: int, api: ApiTable, steps: seq<Step>) returns (passed: bool)
    modifies api
    ensures passed <==> FirstFailure(getLuaFn, version, steps) == |steps|
    ensures api.pointers == old(api.pointers) + Assigned(getLuaFn, Executed(getLuaFn, version, steps))
  {
    ghost var k := FirstFailure(getLuaFn, version, steps);
    for i := 0 to |steps|
      invariant i <= k
      invariant api.pointers == old(api.pointers) + Assigned(getLuaFn, steps[..i])
    {
      var passes := Execute(getLuaFn, version, api, steps[i]);
      AssignedNext(getLuaFn, steps, i, old(api.pointers));
      if !passes {
        assert k == i;
        return false;
      }
    }
    assert steps[..|steps|] == steps;
    passed := true;
  }

  /** `odbk_lua_finish_load`: acceptance is the closed form; what was assigned is
      exactly what the executed steps assign. */
  method FinishLoad(ctx: LuaContext, api: ApiTable) returns (accepted: bool)
    modifies ctx`version, ctx`registryIndex, ctx`globalsIndex, ctx`hookTailCall, api
    ensures accepted == Accepts(ctx.symbols)
    ensures !IsLua(ctx.symbols) ==> api.pointers == old(api.pointers) && VersionOf(ctx) == old(VersionOf(ctx))
    ensures IsLua(ctx.symbols) ==>
      && VersionOf(ctx) == Detect(ctx.symbols, old(VersionOf(ctx))).value
      && api.pointers == old(api.pointers) + Bindings(ctx.symbols, ctx.version)
  {
    AcceptsIffNoStepFails(ctx.symbols, VersionOf(ctx));
    var isLua := DetectVersion(ctx);
    if !isLua {
      return false;
    }
    accepted := RunSteps(LookupIn(ctx.symbols), ctx.version, api, Program(ORDER));
  }

  /** The pointers one load assigns once the version is known. */
  ghost function Bindings(symbols: Symbols, version: int): map<Api, Address> {
    Assigned(LookupIn(symbols), Executed(LookupIn(symbols), version, Program(ORDER)))
  }

  /** The whole table after an accepted load. */
  lemma AcceptedTable(symbols: Symbols, before: VersionInfo, a: Api)
    requires Accepts(symbols)
    ensures var found := LookupIn(symbols);
      var bindings := Bindings(symbols, Detect(symbols, before).value.version);
      && (a in bindings <==> IsAssigned(found, a))
      && (a in bindings ==> bindings[a] == FinalAddress(found, a))
  {
    AcceptsIffNoStepFails(symbols, before);
    OrderIsComplete();
    AcceptedRunTable(LookupIn(symbols), ORDER, a);
  }

  lemma LoadEntries(found: Lookups)
    ensures IsAssigned(found, LuaLoad) && FinalAddress(found, LuaLoad) == found(LuaLoadx)
    ensures IsAssigned(found, LuaLoadx) && FinalAddress(found, LuaLoadx) == found(LuaLoadx)
  {
  }

  /** After an accepted load `lua_load` holds the address of `lua_loadx`, and is non-null
      exactly when that was found. */
  lemma LuaLoadNeedsLoadx(symbols: Symbols, before: VersionInfo)
    requires IsLua(symbols)
    ensures var bindings := Bindings(symbols, Detect(symbols, before).value.version);
      Accepts(symbols) ==> LuaLoad in bindings && bindings[LuaLoad] == LookupIn(symbols)(LuaLoadx)
  {
    if Accepts(symbols) {
      AcceptedTable(symbols, before, LuaLoad);
      LoadEntries(LookupIn(symbols));
    }
  }

  /** An accepted engine that has `lua_load` but not `lua_loadx`: the pointer is found
      and then lost. */
  lemma PlainLuaLosesLuaLoad(symbols: Symbols, before: VersionInfo)
    requires IsLua(symbols) && "lua_loadx" !in symbols && LookupIn(symbols)(LuaLoad) != 0
    ensures var bindings := Bindings(symbols, Detect(symbols, before).value.version);
      Accepts(symbols) ==> LuaLoad in bindings && bindings[LuaLoad] == 0
  {
    LuaLoadNeedsLoadx(symbols, before);
    NoLoadx(symbols);
  }

  lemma NoLoadx(symbols: Symbols)
    requires "lua_loadx" !in symbols
    ensures LookupIn(symbols)(LuaLoadx) == 0
  {
    assert LuaLoadx.Name() == "lua_loadx";
  }

  /** The API functions that the 5.3 library exports under these names. */
  predicate ExportedBy53(f: Api) {
    match f
    case LuaOpen | LuaRemove | LuaInsert | LuaTointeger | LuaTostring | LuaTonumber | LuaCall | LuaPcall
       | LuaNewtable | LuaGetfenv | LuaSetfenv | LuaCpcall | LuaLRegister | LuaIOpenlib | LuaLOpenlib
       | LuaLLoadbuffer | LuaLLoadfile | LuaTowstring | LuaIswstring | LuaLoadx => false
    case _ => true
  }

  lemma Lua53IsAccepted(symbols: Symbols, before: VersionInfo)
    requires forall f :: ExportedBy53(f) ==> LookupIn(symbols)(f) != 0
    requires "lua_open" !in symbols
    ensures Accepts(symbols) && Detect(symbols, before).value.version == 530
  {
    assert LookupIn(symbols)(LuaRotate) != 0 && LuaRotate.Name() == "lua_rotate";
    RequiredIn53(LookupIn(symbols), REQUIRED, PAIRS) by { ListsAreRoles(); }
  }

  /** An engine with the exports of Lua 5.3 is accepted as 5.3 and ends with a null `lua_load`. */
  lemma Lua53LosesLuaLoad(symbols: Symbols, before: VersionInfo)
    requires forall f :: ExportedBy53(f) ==> LookupIn(symbols)(f) != 0
    requires "lua_open" !in symbols && "lua_loadx" !in symbols
    ensures Accepts(symbols) && Detect(symbols, before).value.version == 530
    ensures var bindings := Bindings(symbols, 530); LuaLoad in bindings && bindings[LuaLoad] == 0
  {
    Lua53IsAccepted(symbols, before);
    PlainLuaLosesLuaLoad(symbols, before);
  }

  lemma RequiredIn53(found: Lookups, fs: seq<Api>, pairs: seq<(Api, Api)>)
    requires AreRequired(fs) && AreFallbacks(pairs)
    requires forall f :: ExportedBy53(f) ==> found(f) != 0
    ensures FindsAll(found, fs) && FindsOneOfEach(found, pairs) && found(LuaPushthread) != 0
  {
    forall f | f in fs
      ensures found(f) != 0
    {
      assert RoleOf(f) == Required(f);
    }
    forall p | p in pairs
      ensures found(p.0) != 0 || found(p.1) != 0
    {
      assert RoleOf(p.0) == Fallback(p.0, p.1);
    }
    assert ExportedBy53(LuaPushthread);
  }

  /** Such an engine; any other addresses but 0 would do. */
  function Lua53Symbols(): Symbols {
    var names := set f: Api | ExportedBy53(f) :: f.Name();
    map name | name in names :: 0x1000
  }

  lemma Lua53SymbolsExist()
    ensures forall f :: ExportedBy53(f) ==> LookupIn(Lua53Symbols())(f) != 0
    ensures "lua_open" !in Lua53Symbols() && "lua_loadx" !in Lua53Symbols()
  {
    forall f | ExportedBy53(f)
      ensures IsOtherName(f.Name())
    {
      ExportedNames(f);
    }
  }

  /** Neither `lua_open` nor `lua_loadx`. */
  predicate IsOtherName(name: string) {
    name != "lua_open" && name != "lua_loadx"
  }

  lemma OtherName(name: string)
    requires |name| == 8 ==> name[4] != 'o'
    requires |name| == 9 ==> name[4] != 'l'
    ensures IsOtherName(name)
  {
  }

  lemma StateNames(f: Api)
    requires f in STATE_ORDER && ExportedBy53(f)
    ensures IsOtherName(f.Name())
  {
    OtherName(f.Name());
  }

  lemma StackNames(f: Api)
    requires f in STACK_ORDER && ExportedBy53(f)
    ensures IsOtherName(f.Name())
  {
    OtherName(f.Name());
  }

  lemma ValueNames(f: Api)
    requires f in VALUE_ORDER && ExportedBy53(f)
    ensures IsOtherName(f.Name())
  {
    OtherName(f.Name());
  }

  lemma TableNames(f: Api)
    requires f in TABLE_ORDER && ExportedBy53(f)
    ensures IsOtherName(f.Name())
  {
    OtherName(f.Name());
  }

  lemma LibraryNames(f: Api)
    requires f in LIBRARY_ORDER && ExportedBy53(f)
    ensures IsOtherName(f.Name())
  {
    OtherName(f.Name());
  }

  lemma ExportedNames(f: Api)
    requires ExportedBy53(f)
    ensures IsOtherName(f.Name())
  {
    if HasMacro(f) {
      OrderLists(f);
      if f in STATE_ORDER { StateNames(f); }
      else if f in STACK_ORDER { StackNames(f); }
      else if f in VALUE_ORDER { ValueNames(f); }
      else if f in TABLE_ORDER { TableNames(f); }
      else { LibraryNames(f); }
    } else {
      OtherName(f.Name());
    }
  }

  // ----------------------------------------------------------- a fresh table

  /** What a pointer holds after an accepted load into a table of null pointers. */
  function BoundAddress(found: Lookups, a: Api): Address {
    if IsAssigned(found, a) then FinalAddress(found, a) else 0
  }

  lemma FreshTable(symbols: Symbols, before: VersionInfo)
    requires IsLua(symbols)
    ensures var bindings := Bindings(symbols, Detect(symbols, before).value.version);
      Accepts(symbols) ==> forall a :: PointerOf(bindings, a) == BoundAddress(LookupIn(symbols), a)
  {
    var bindings := Bindings(symbols, Detect(symbols, before).value.version);
    forall a | Accepts(symbols)
      ensures PointerOf(bindings, a) == BoundAddress(LookupIn(symbols), a)
    {
      AcceptedTable(symbols, before, a);
    }
  }
}

/** The binder in terms of the export names: acceptance, the pointers and the order of
    the lookups, spelled out over the strings the engines export. */
module ExportNames {
  import opened Common
  import opened LuaApi
  import opened Binder

  // ------------------------------------------------------------------ the names

  /** The export name of each function, as a value, so that what follows is proved for
      any names that pass the tables below. */
  function NameOf(): Api -> string {
    (a: Api) => a.Name()
  }

  predicate StateEntry(a: Api, name: string) {
    match a
    case LuaOpen => name == "lua_open"
    case LuaNewthread => name == "lua_newthread"
    case LuaClose => name == "lua_close"
    case LuaError => name == "lua_error"
    case LuaopenBase => name == "luaopen_base"
    case LuaAbsindex => name == "lua_absindex"
    case LuaSethook => name == "lua_sethook"
    case LuaGetinfo => name == "lua_getinfo"
    case LuaRemove => name == "lua_remove"
    case LuaRotate => name == "lua_rotate"
    case LuaSettable => name == "lua_settable"
    case LuaGettable => name == "lua_gettable"
    case LuaRawget => name == "lua_rawget"
    case LuaRawgeti => name == "lua_rawgeti"
    case LuaRawset => name == "lua_rawset"
    case _ => true
  }

  predicate StackEntry(a: Api, name: string) {
    match a
    case LuaPushstring => name == "lua_pushstring"
    case LuaPushlstring => name == "lua_pushlstring"
    case LuaType => name == "lua_type"
    case LuaTypename => name == "lua_typename"
    case LuaSettop => name == "lua_settop"
    case LuaGettop => name == "lua_gettop"
    case LuaGetlocal => name == "lua_getlocal"
    case LuaSetlocal => name == "lua_setlocal"
    case LuaGetstack => name == "lua_getstack"
    case LuaInsert => name == "lua_insert"
    case LuaPushnil => name == "lua_pushnil"
    case LuaPushvalue => name == "lua_pushvalue"
    case LuaPushcclosure => name == "lua_pushcclosure"
    case LuaPushnumber => name == "lua_pushnumber"
    case LuaCheckstack => name == "lua_checkstack"
    case LuaGethookmask => name == "lua_gethookmask"
    case LuaPushboolean => name == "lua_pushboolean"
    case _ => true
  }

  predicate ValueEntry(a: Api, name: string) {
    match a
    case LuaConcat => name == "lua_concat"
    case LuaLWhere => name == "luaL_where"
    case LuaGetglobal => name == "lua_getglobal"
    case LuaSetglobal => name == "lua_setglobal"
    case LuaPushinteger => name == "lua_pushinteger"
    case LuaTointeger => name == "lua_tointeger"
    case LuaTointegerx => name == "lua_tointegerx"
    case LuaTostring => name == "lua_tostring"
    case LuaTonumberx => name == "lua_tonumberx"
    case LuaToboolean => name == "lua_toboolean"
    case LuaTocfunction => name == "lua_tocfunction"
    case LuaTouserdata => name == "lua_touserdata"
    case LuaCallk => name == "lua_callk"
    case LuaPcallk => name == "lua_pcallk"
    case LuaNewtable => name == "lua_newtable"
    case _ => true
  }

  predicate TableEntry(a: Api, name: string) {
    match a
    case LuaLoad => name == "lua_load"
    case LuaNext => name == "lua_next"
    case LuaRawequal => name == "lua_rawequal"
    case LuaGetmetatable => name == "lua_getmetatable"
    case LuaSetmetatable => name == "lua_setmetatable"
    case LuaLRef => name == "luaL_ref"
    case LuaLUnref => name == "luaL_unref"
    case LuaLNewmetatable => name == "luaL_newmetatable"
    case LuaGetupvalue => name == "lua_getupvalue"
    case LuaSetupvalue => name == "lua_setupvalue"
    case LuaLOpenlibs => name == "luaL_openlibs"
    case LuaGetfenv => name == "lua_getfenv"
    case LuaSetfenv => name == "lua_setfenv"
    case LuaCpcall => name == "lua_cpcall"
    case LuaNewuserdata => name == "lua_newuserdata"
    case _ => true
  }

  predicate LibraryEntry(a: Api, name: string) {
    match a
    case LuaLNewstate => name == "luaL_newstate"
    case LuaLRegister => name == "luaL_register"
    case LuaIOpenlib => name == "luaI_openlib"
    case LuaLLoadbuffer => name == "luaL_loadbuffer"
    case LuaLLoadbufferx => name == "luaL_loadbufferx"
    case LuaLLoadfile => name == "luaL_loadfile"
    case LuaLLoadfilex => name == "luaL_loadfilex"
    case LuaTowstring => name == "lua_towstring"
    case LuaIswstring => name == "lua_iswstring"
    case LuaPushthread => name == "lua_pushthread"
    case LuaIsinteger => name == "lua_isinteger"
    case LuaLoadx => name == "lua_loadx"
    case _ => true
  }

  predicate SubstituteEntry(a: Api, name: string) {
    match a
    case LuaNewstate => name == "lua_newstate"
    case LuaTolstring => name == "lua_tolstring"
    case LuaTonumber => name == "lua_tonumber"
    case LuaCall => name == "lua_call"
    case LuaPcall => name == "lua_pcall"
    case LuaCreatetable => name == "lua_createtable"
    case LuaLOpenlib => name == "luaL_openlib"
    case _ => true
  }

  ghost predicate StateNamed(name: Api -> string) {
    forall a :: StateEntry(a, name(a))
  }

  ghost predicate StackNamed(name: Api -> string) {
    forall a :: StackEntry(a, name(a))
  }

  ghost predicate ValueNamed(name: Api -> string) {
    forall a :: ValueEntry(a, name(a))
  }

  ghost predicate TableNamed(name: Api -> string) {
    forall a :: TableEntry(a, name(a))
  }

  ghost predicate LibraryNamed(name: Api -> string) {
    forall a :: LibraryEntry(a, name(a))
  }

  ghost predicate SubstituteNamed(name: Api -> string) {
    forall a :: SubstituteEntry(a, name(a))
  }

  /** Every function has the name under which engines export it. */
  ghost predicate AllNamed(name: Api -> string) {
    && StateNamed(name) && StackNamed(name) && ValueNamed(name) && TableNamed(name) && LibraryNamed(name)
    && SubstituteNamed(name)
  }

  lemma StateEntries(a: Api)
    ensures StateEntry(a, a.Name())
  {
  }

  lemma StackEntries(a: Api)
    ensures StackEntry(a, a.Name())
  {
  }

  lemma ValueEntries(a: Api)
    ensures ValueEntry(a, a.Name())
  {
  }

  lemma TableEntries(a: Api)
    ensures TableEntry(a, a.Name())
  {
  }

  lemma LibraryEntries(a: Api)
    ensures LibraryEntry(a, a.Name())
  {
  }

  lemma SubstituteEntries(a: Api)
    ensures SubstituteEntry(a, a.Name())
  {
  }

  lemma NamesAre()
    ensures AllNamed(NameOf())
  {
    forall a: Api
      ensures StateEntry(a, NameOf()(a))
      ensures StackEntry(a, NameOf()(a))
      ensures ValueEntry(a, NameOf()(a))
      ensures TableEntry(a, NameOf()(a))
      ensures LibraryEntry(a, NameOf()(a))
      ensures SubstituteEntry(a, NameOf()(a))
    {
      StateEntries(a);
      StackEntries(a);
      ValueEntries(a);
      TableEntries(a);
      LibraryEntries(a);
      SubstituteEntries(a);
    }
  }

  // ---------------------------------------------------------------- acceptance

  predicate Has(symbols: Symbols, name: string) {
    name in symbols && symbols[name] != 0
  }

  /** The lookups by these names. */
  ghost predicate LooksUp(found: Lookups, symbols: Symbols, name: Api -> string) {
    forall a :: found(a) == if name(a) in symbols then symbols[name(a)] else 0
  }

  const FIRST_NAMES: seq<string> := [
      "lua_newthread", "lua_close", "lua_error", "luaopen_base", "lua_sethook", "lua_getinfo", "lua_settable",
      "lua_gettable", "lua_rawget", "lua_rawgeti", "lua_rawset", "lua_pushstring", "lua_pushlstring"
    ]

  const NEXT_NAMES: seq<string> := [
      "lua_type", "lua_typename", "lua_settop", "lua_gettop", "lua_getlocal", "lua_setlocal", "lua_getstack",
      "lua_pushnil", "lua_pushvalue", "lua_pushcclosure", "lua_pushnumber", "lua_checkstack", "lua_gethookmask"
    ]

  const LAST_NAMES: seq<string> := [
      "lua_pushboolean", "lua_toboolean", "lua_tocfunction", "lua_touserdata", "lua_next", "lua_rawequal",
      "lua_getmetatable", "lua_setmetatable", "luaL_newmetatable", "lua_getupvalue", "lua_setupvalue",
      "luaL_openlibs", "lua_newuserdata"
    ]

  /** What every Lua exports. */
  const REQUIRED_NAMES: seq<string> := FIRST_NAMES + NEXT_NAMES + LAST_NAMES

  /** Of each pair one name is enough. */
  const PAIR_NAMES: seq<(string, string)> := [
      ("lua_open", "lua_newstate"), ("lua_tostring", "lua_tolstring"), ("lua_tonumberx", "lua_tonumber"),
      ("lua_callk", "lua_call"), ("lua_pcallk", "lua_pcall"), ("lua_newtable", "lua_createtable")
    ]

  /** When a symbol map is accepted: by its names alone, but for null addresses. */
  ghost predicate AcceptsByName(symbols: Symbols) {
    && ("lua_open" in symbols || "lua_rotate" in symbols || "lua_callk" in symbols || "lua_gettop" in symbols)
    && HasAll(symbols, REQUIRED_NAMES) && HasOneOfEach(symbols, PAIR_NAMES)
    && ("lua_open" !in symbols ==> Has(symbols, "lua_pushthread"))
  }

  ghost predicate HasAll(symbols: Symbols, names: seq<string>) {
    forall name :: name in names ==> Has(symbols, name)
  }

  ghost predicate HasOneOfEach(symbols: Symbols, names: seq<(string, string)>) {
    forall pair :: pair in names ==> Has(symbols, pair.0) || Has(symbols, pair.1)
  }

  ghost predicate AreNames(fs: seq<Api>, name: Api -> string, names: seq<string>) {
    |fs| == |names| && forall k :: 0 <= k < |fs| ==> name(fs[k]) == names[k]
  }

  ghost predicate ArePairNames(pairs: seq<(Api, Api)>, name: Api -> string, names: seq<(string, string)>) {
    |pairs| == |names| && forall k :: 0 <= k < |pairs| ==> (name(pairs[k].0), name(pairs[k].1)) == names[k]
  }

  lemma FirstNamesFirst(name: Api -> string)
    requires StateNamed(name)
    ensures forall k :: 0 <= k < 6 ==> name(REQUIRED_FIRST[k]) == FIRST_NAMES[k]
  {
  }

  lemma FirstNamesRest(name: Api -> string)
    requires StateNamed(name) && StackNamed(name)
    ensures forall k :: 6 <= k < 13 ==> name(REQUIRED_FIRST[k]) == FIRST_NAMES[k]
  {
  }

  lemma FirstNames(name: Api -> string)
    requires StateNamed(name) && StackNamed(name)
    ensures AreNames(REQUIRED_FIRST, name, FIRST_NAMES)
  {
    FirstNamesFirst(name);
    FirstNamesRest(name);
  }

  lemma NextNamesFirst(name: Api -> string)
    requires StackNamed(name)
    ensures forall k :: 0 <= k < 6 ==> name(REQUIRED_NEXT[k]) == NEXT_NAMES[k]
  {
  }

  lemma NextNamesRest(name: Api -> string)
    requires StackNamed(name)
    ensures forall k :: 6 <= k < 13 ==> name(REQUIRED_NEXT[k]) == NEXT_NAMES[k]
  {
  }

  lemma NextNames(name: Api -> string)
    requires StackNamed(name)
    ensures AreNames(REQUIRED_NEXT, name, NEXT_NAMES)
  {
    NextNamesFirst(name);
    NextNamesRest(name);
  }

  lemma LastNamesFirst(name: Api -> string)
    requires StackNamed(name) && ValueNamed(name) && TableNamed(name)
    ensures forall k :: 0 <= k < 6 ==> name(REQUIRED_LAST[k]) == LAST_NAMES[k]
  {
  }

  lemma LastNamesRest(name: Api -> string)
    requires TableNamed(name)
    ensures forall k :: 6 <= k < 13 ==> name(REQUIRED_LAST[k]) == LAST_NAMES[k]
  {
  }

  lemma LastNames(name: Api -> string)
    requires StackNamed(name) && ValueNamed(name) && TableNamed(name)
    ensures AreNames(REQUIRED_LAST, name, LAST_NAMES)
  {
    LastNamesFirst(name);
    LastNamesRest(name);
  }

  lemma PreferredNames(name: Api -> string)
    requires StateNamed(name) && ValueNamed(name)
    ensures forall k :: 0 <= k < 6 ==> name(PAIRS[k].0) == PAIR_NAMES[k].0
  {
  }

  lemma SubstituteNames(name: Api -> string)
    requires SubstituteNamed(name)
    ensures forall k :: 0 <= k < 6 ==> name(PAIRS[k].1) == PAIR_NAMES[k].1
  {
  }

  lemma PairNames(name: Api -> string)
    requires StateNamed(name) && ValueNamed(name) && SubstituteNamed(name)
    ensures ArePairNames(PAIRS, name, PAIR_NAMES)
  {
    PreferredNames(name);
    SubstituteNames(name);
  }

  lemma NamesJoin(fs: seq<Api>, names: seq<string>, gs: seq<Api>, more: seq<string>, name: Api -> string)
    requires AreNames(fs, name, names) && AreNames(gs, name, more)
    ensures AreNames(fs + gs, name, names + more)
  {
  }

  lemma RequiredNames(name: Api -> string)
    requires AllNamed(name)
    ensures AreNames(REQUIRED, name, REQUIRED_NAMES)
  {
    FirstNames(name);
    NextNames(name);
    LastNames(name);
    NamesJoin(REQUIRED_FIRST, FIRST_NAMES, REQUIRED_NEXT, NEXT_NAMES, name);
    NamesJoin(REQUIRED_FIRST + REQUIRED_NEXT, FIRST_NAMES + NEXT_NAMES, REQUIRED_LAST, LAST_NAMES, name);
  }

  lemma FindsAllByName(found: Lookups, symbols: Symbols, name: Api -> string, fs: seq<Api>, names: seq<string>)
    requires LooksUp(found, symbols, name) && AreNames(fs, name, names)
    ensures FindsAll(found, fs) <==> HasAll(symbols, names)
  {
    if FindsAll(found, fs) {
      forall n | n in names
        ensures Has(symbols, n)
      {
        var k :| 0 <= k < |names| && names[k] == n;
        assert fs[k] in fs;
      }
    }
    if HasAll(symbols, names) {
      forall f | f in fs
        ensures found(f) != 0
      {
        var k :| 0 <= k < |fs| && fs[k] == f;
        assert names[k] in names;
      }
    }
  }

  lemma FindsPairsByName(found: Lookups, symbols: Symbols, name: Api -> string, pairs: seq<(Api, Api)>,
                         names: seq<(string, string)>)
    requires LooksUp(found, symbols, name) && ArePairNames(pairs, name, names)
    ensures FindsOneOfEach(found, pairs) <==> HasOneOfEach(symbols, names)
  {
    if FindsOneOfEach(found, pairs) {
      forall pair | pair in names
        ensures Has(symbols, pair.0) || Has(symbols, pair.1)
      {
        var k :| 0 <= k < |names| && names[k] == pair;
        assert pairs[k] in pairs;
      }
    }
    if HasOneOfEach(symbols, names) {
      forall p | p in pairs
        ensures found(p.0) != 0 || found(p.1) != 0
      {
        var k :| 0 <= k < |pairs| && pairs[k] == p;
        assert names[k] in names;
      }
    }
  }

  lemma SatisfiesByName(found: Lookups, symbols: Symbols, name: Api -> string, lua50: bool)
    requires LooksUp(found, symbols, name) && AreNames(REQUIRED, name, REQUIRED_NAMES)
    requires ArePairNames(PAIRS, name, PAIR_NAMES) && name(LuaPushthread) == "lua_pushthread"
    ensures Satisfies(found, lua50) <==>
      && HasAll(symbols, REQUIRED_NAMES) && HasOneOfEach(symbols, PAIR_NAMES)
      && (!lua50 ==> Has(symbols, "lua_pushthread"))
  {
    FindsAllByName(found, symbols, name, REQUIRED, REQUIRED_NAMES);
    FindsPairsByName(found, symbols, name, PAIRS, PAIR_NAMES);
  }

  lemma LookupInLooksUp(symbols: Symbols)
    ensures LooksUp(LookupIn(symbols), symbols, NameOf())
  {
  }

  /** Acceptance is that closed form on the export names. */
  lemma AcceptsIffByName(symbols: Symbols)
    ensures Accepts(symbols) <==> AcceptsByName(symbols)
  {
    LookupInLooksUp(symbols);
    NamesAre();
    RequiredNames(NameOf());
    PairNames(NameOf());
    assert LuaPushthread.Name() == "lua_pushthread";
    SatisfiesByName(LookupIn(symbols), symbols, NameOf(), "lua_open" in symbols);
  }

  // ---------------------------------------------------------------- the pointers

  /** The address is that of the symbol, null without it. */
  predicate IsFound(symbols: Symbols, name: string, address: nat) {
    address == if name in symbols then symbols[name] else 0
  }

  predicate StatePointer(symbols: Symbols, a: Api, address: nat) {
    match a
    case LuaOpen => IsFound(symbols, "lua_open", address)
    case LuaNewthread => IsFound(symbols, "lua_newthread", address)
    case LuaClose => IsFound(symbols, "lua_close", address)
    case LuaError => IsFound(symbols, "lua_error", address)
    case LuaopenBase => IsFound(symbols, "luaopen_base", address)
    case LuaAbsindex => IsFound(symbols, "lua_absindex", address)
    case LuaSethook => IsFound(symbols, "lua_sethook", address)
    case LuaGetinfo => IsFound(symbols, "lua_getinfo", address)
    case LuaRemove => IsFound(symbols, "lua_remove", address)
    case LuaRotate => IsFound(symbols, "lua_rotate", address)
    case LuaSettable => IsFound(symbols, "lua_settable", address)
    case LuaGettable => IsFound(symbols, "lua_gettable", address)
    case LuaRawget => IsFound(symbols, "lua_rawget", address)
    case LuaRawgeti => IsFound(symbols, "lua_rawgeti", address)
    case LuaRawset => IsFound(symbols, "lua_rawset", address)
    case _ => true
  }

  predicate StackPointer(symbols: Symbols, a: Api, address: nat) {
    match a
    case LuaPushstring => IsFound(symbols, "lua_pushstring", address)
    case LuaPushlstring => IsFound(symbols, "lua_pushlstring", address)
    case LuaType => IsFound(symbols, "lua_type", address)
    case LuaTypename => IsFound(symbols, "lua_typename", address)
    case LuaSettop => IsFound(symbols, "lua_settop", address)
    case LuaGettop => IsFound(symbols, "lua_gettop", address)
    case LuaGetlocal => IsFound(symbols, "lua_getlocal", address)
    case LuaSetlocal => IsFound(symbols, "lua_setlocal", address)
    case LuaGetstack => IsFound(symbols, "lua_getstack", address)
    case LuaInsert => IsFound(symbols, "lua_insert", address)
    case LuaPushnil => IsFound(symbols, "lua_pushnil", address)
    case LuaPushvalue => IsFound(symbols, "lua_pushvalue", address)
    case LuaPushcclosure => IsFound(symbols, "lua_pushcclosure", address)
    case LuaPushnumber => IsFound(symbols, "lua_pushnumber", address)
    case LuaCheckstack => IsFound(symbols, "lua_checkstack", address)
    case LuaGethookmask => IsFound(symbols, "lua_gethookmask", address)
    case LuaPushboolean => IsFound(symbols, "lua_pushboolean", address)
    case _ => true
  }

  predicate ValuePointer(symbols: Symbols, a: Api, address: nat) {
    match a
    case LuaConcat => IsFound(symbols, "lua_concat", address)
    case LuaLWhere => IsFound(symbols, "luaL_where", address)
    case LuaGetglobal => IsFound(symbols, "lua_getglobal", address)
    case LuaSetglobal => IsFound(symbols, "lua_setglobal", address)
    case LuaPushinteger => IsFound(symbols, "lua_pushinteger", address)
    case LuaTointeger => IsFound(symbols, "lua_tointeger", address)
    case LuaTointegerx => IsFound(symbols, "lua_tointegerx", address)
    case LuaTostring => IsFound(symbols, "lua_tostring", address)
    case LuaTonumberx => IsFound(symbols, "lua_tonumberx", address)
    case LuaToboolean => IsFound(symbols, "lua_toboolean", address)
    case LuaTocfunction => IsFound(symbols, "lua_tocfunction", address)
    case LuaTouserdata => IsFound(symbols, "lua_touserdata", address)
    case LuaCallk => IsFound(symbols, "lua_callk", address)
    case LuaPcallk => IsFound(symbols, "lua_pcallk", address)
    case LuaNewtable => IsFound(symbols, "lua_newtable", address)
    case _ => true
  }

  predicate TablePointer(symbols: Symbols, a: Api, address: nat) {
    match a
    case LuaNext => IsFound(symbols, "lua_next", address)
    case LuaRawequal => IsFound(symbols, "lua_rawequal", address)
    case LuaGetmetatable => IsFound(symbols, "lua_getmetatable", address)
    case LuaSetmetatable => IsFound(symbols, "lua_setmetatable", address)
    case LuaLRef => IsFound(symbols, "luaL_ref", address)
    case LuaLUnref => IsFound(symbols, "luaL_unref", address)
    case LuaLNewmetatable => IsFound(symbols, "luaL_newmetatable", address)
    case LuaGetupvalue => IsFound(symbols, "lua_getupvalue", address)
    case LuaSetupvalue => IsFound(symbols, "lua_setupvalue", address)
    case LuaLOpenlibs => IsFound(symbols, "luaL_openlibs", address)
    case LuaGetfenv => IsFound(symbols, "lua_getfenv", address)
    case LuaSetfenv => IsFound(symbols, "lua_setfenv", address)
    case LuaCpcall => IsFound(symbols, "lua_cpcall", address)
    case LuaNewuserdata => IsFound(symbols, "lua_newuserdata", address)
    case _ => true
  }

  predicate LibraryPointer(symbols: Symbols, a: Api, address: nat) {
    match a
    case LuaLNewstate => IsFound(symbols, "luaL_newstate", address)
    case LuaLRegister => IsFound(symbols, "luaL_register", address)
    case LuaLLoadbuffer => IsFound(symbols, "luaL_loadbuffer", address)
    case LuaLLoadbufferx => IsFound(symbols, "luaL_loadbufferx", address)
    case LuaLLoadfile => IsFound(symbols, "luaL_loadfile", address)
    case LuaLLoadfilex => IsFound(symbols, "luaL_loadfilex", address)
    case LuaTowstring => IsFound(symbols, "lua_towstring", address)
    case LuaIswstring => IsFound(symbols, "lua_iswstring", address)
    case LuaPushthread => IsFound(symbols, "lua_pushthread", address)
    case LuaIsinteger => IsFound(symbols, "lua_isinteger", address)
    case LuaLoadx => IsFound(symbols, "lua_loadx", address)
    case _ => true
  }

  /** `lua_load` is relocated, `luaI_openlib` has an alias without a pointer of its own. */
  predicate SpecialPointer(symbols: Symbols, a: Api, address: nat) {
    match a
    case LuaLoad => IsFound(symbols, "lua_loadx", address)
    case LuaIOpenlib => IsFound(symbols, if Has(symbols, "luaI_openlib") then "luaI_openlib" else "luaL_openlib", address)
    case LuaLOpenlib => address == 0
    case _ => true
  }

  /** These are only looked up where the pointer each stands in for was not found. */
  predicate SubstitutePointer(symbols: Symbols, a: Api, at: Api -> nat) {
    match a
    case LuaNewstate => if at(LuaOpen) != 0 then at(a) == 0 else IsFound(symbols, "lua_newstate", at(a))
    case LuaTolstring => if at(LuaTostring) != 0 then at(a) == 0 else IsFound(symbols, "lua_tolstring", at(a))
    case LuaTonumber => if at(LuaTonumberx) != 0 then at(a) == 0 else IsFound(symbols, "lua_tonumber", at(a))
    case LuaCall => if at(LuaCallk) != 0 then at(a) == 0 else IsFound(symbols, "lua_call", at(a))
    case LuaPcall => if at(LuaPcallk) != 0 then at(a) == 0 else IsFound(symbols, "lua_pcall", at(a))
    case LuaCreatetable => if at(LuaNewtable) != 0 then at(a) == 0 else IsFound(symbols, "lua_createtable", at(a))
    case _ => true
  }

  /** Every pointer of the API after an accepted load into null pointers: the address of
      the export of its own name, but for the substitutes, the alias of `luaI_openlib`
      and `lua_load`, which is relocated. */
  ghost predicate BoundByName(symbols: Symbols, at: Api -> nat) {
    forall a ::
      && StatePointer(symbols, a, at(a)) && StackPointer(symbols, a, at(a)) && ValuePointer(symbols, a, at(a))
      && TablePointer(symbols, a, at(a)) && LibraryPointer(symbols, a, at(a))
      && SpecialPointer(symbols, a, at(a)) && SubstitutePointer(symbols, a, at)
  }

  lemma StatePointerIs(symbols: Symbols, a: Api)
    ensures StatePointer(symbols, a, BoundAddress(LookupIn(symbols), a))
  {
  }

  lemma StackPointerIs(symbols: Symbols, a: Api)
    ensures StackPointer(symbols, a, BoundAddress(LookupIn(symbols), a))
  {
  }

  lemma ValuePointerIs(symbols: Symbols, a: Api)
    ensures ValuePointer(symbols, a, BoundAddress(LookupIn(symbols), a))
  {
  }

  lemma TablePointerIs(symbols: Symbols, a: Api)
    ensures TablePointer(symbols, a, BoundAddress(LookupIn(symbols), a))
  {
  }

  lemma LibraryPointerIs(symbols: Symbols, a: Api)
    ensures LibraryPointer(symbols, a, BoundAddress(LookupIn(symbols), a))
  {
  }

  lemma AliasIs(found: Lookups)
    ensures BoundAddress(found, LuaIOpenlib) == if found(LuaIOpenlib) != 0 then found(LuaIOpenlib) else found(LuaLOpenlib)
    ensures BoundAddress(found, LuaLOpenlib) == 0
    ensures BoundAddress(found, LuaLoad) == found(LuaLoadx)
  {
  }

  lemma AliasNames(symbols: Symbols)
    ensures LookupIn(symbols)(LuaIOpenlib) != 0 <==> Has(symbols, "luaI_openlib")
    ensures IsFound(symbols, "luaI_openlib", LookupIn(symbols)(LuaIOpenlib))
    ensures IsFound(symbols, "luaL_openlib", LookupIn(symbols)(LuaLOpenlib))
  {
  }

  lemma RelocatedName(symbols: Symbols)
    ensures IsFound(symbols, "lua_loadx", LookupIn(symbols)(LuaLoadx))
  {
  }

  lemma SpecialPointerIs(symbols: Symbols, a: Api)
    ensures SpecialPointer(symbols, a, BoundAddress(LookupIn(symbols), a))
  {
    AliasIs(LookupIn(symbols));
    if a == LuaLoad { RelocatedName(symbols); }
    if a == LuaIOpenlib { AliasNames(symbols); }
  }

  lemma SubstituteIs(found: Lookups, at: Api -> nat, a: Api, f: Api)
    requires at(a) == BoundAddress(found, a) && at(f) == BoundAddress(found, f) && SubstitutedBy(a) == Some(f)
    ensures at(a) == if at(f) != 0 then 0 else found(a)
  {
  }

  lemma SubstitutePointerIs(symbols: Symbols, at: Api -> nat, a: Api)
    requires forall a :: at(a) == BoundAddress(LookupIn(symbols), a)
    ensures SubstitutePointer(symbols, a, at)
  {
    if SubstitutedBy(a).Some? {
      SubstituteIs(LookupIn(symbols), at, a, SubstitutedBy(a).value);
      SubstituteEntries(a);
    }
  }

  lemma PointersByName(symbols: Symbols, at: Api -> nat)
    requires forall a :: at(a) == BoundAddress(LookupIn(symbols), a)
    ensures BoundByName(symbols, at)
  {
    forall a: Api
      ensures StatePointer(symbols, a, at(a)) && StackPointer(symbols, a, at(a)) && ValuePointer(symbols, a, at(a))
      ensures TablePointer(symbols, a, at(a)) && LibraryPointer(symbols, a, at(a))
      ensures SpecialPointer(symbols, a, at(a)) && SubstitutePointer(symbols, a, at)
    {
      StatePointerIs(symbols, a);
      StackPointerIs(symbols, a);
      ValuePointerIs(symbols, a);
      TablePointerIs(symbols, a);
      LibraryPointerIs(symbols, a);
      SpecialPointerIs(symbols, a);
      SubstitutePointerIs(symbols, at, a);
    }
  }

  /** The pointer table after an accepted load, by export names. */
  lemma AcceptedPointersByName(symbols: Symbols, before: VersionInfo, at: Api -> nat)
    requires IsLua(symbols)
    requires forall a :: at(a) == PointerOf(Bindings(symbols, Detect(symbols, before).value.version), a)
    ensures Accepts(symbols) ==> BoundByName(symbols, at)
  {
    if Accepts(symbols) {
      FreshTable(symbols, before);
      PointersByName(symbols, at);
    }
  }

  ghost predicate IsNamedTable(symbols: Symbols, pointers: Pointers) {
    BoundByName(symbols, (a: Api) => PointerOf(pointers, a))
  }

  lemma AcceptedTableIsNamed(symbols: Symbols, before: VersionInfo, pointers: Pointers)
    requires IsLua(symbols) && pointers == Bindings(symbols, Detect(symbols, before).value.version)
    ensures Accepts(symbols) ==> IsNamedTable(symbols, pointers)
  {
    AcceptedPointersByName(symbols, before, (a: Api) => PointerOf(pointers, a));
  }

  // ------------------------------------------------------------ the order

  const STATE_CALLS: seq<string> := [
      "lua_open", "lua_newthread", "lua_close", "lua_error", "luaopen_base", "lua_absindex", "lua_sethook",
      "lua_getinfo", "lua_remove", "lua_rotate", "lua_settable", "lua_gettable", "lua_rawget", "lua_rawgeti",
      "lua_rawset"
    ]

  const STACK_CALLS: seq<string> := [
      "lua_pushstring", "lua_pushlstring", "lua_type", "lua_typename", "lua_settop", "lua_gettop", "lua_getlocal",
      "lua_setlocal", "lua_getstack", "lua_insert", "lua_pushnil", "lua_pushvalue", "lua_pushcclosure",
      "lua_pushnumber", "lua_checkstack", "lua_gethookmask", "lua_pushboolean"
    ]

  const VALUE_CALLS: seq<string> := [
      "lua_concat", "luaL_where", "lua_getglobal", "lua_setglobal", "lua_pushinteger", "lua_tointeger",
      "lua_tointegerx", "lua_tostring", "lua_tonumberx", "lua_toboolean", "lua_tocfunction", "lua_touserdata",
      "lua_callk", "lua_pcallk", "lua_newtable"
    ]

  const TABLE_CALLS: seq<string> := [
      "lua_load", "lua_next", "lua_rawequal", "lua_getmetatable", "lua_setmetatable", "luaL_ref", "luaL_unref",
      "luaL_newmetatable", "lua_getupvalue", "lua_setupvalue", "luaL_openlibs", "lua_getfenv", "lua_setfenv",
      "lua_cpcall", "lua_newuserdata"
    ]

  const LIBRARY_CALLS: seq<string> := [
      "luaL_newstate", "luaL_register", "luaI_openlib", "luaL_loadbuffer", "luaL_loadbufferx", "luaL_loadfile",
      "luaL_loadfilex", "lua_towstring", "lua_iswstring", "lua_pushthread", "lua_isinteger", "lua_loadx"
    ]

  /** The names in the order in which they are looked up, without substitutes. */
  const CALLS: seq<string> := STATE_CALLS + STACK_CALLS + VALUE_CALLS + TABLE_CALLS + LIBRARY_CALLS

  lemma StateCallsFirst(name: Api -> string)
    requires StateNamed(name)
    ensures forall k :: 0 <= k < 8 ==> name(STATE_ORDER[k]) == STATE_CALLS[k]
  {
  }

  lemma StateCallsRest(name: Api -> string)
    requires StateNamed(name)
    ensures forall k :: 8 <= k < 15 ==> name(STATE_ORDER[k]) == STATE_CALLS[k]
  {
  }

  lemma StateCalls(name: Api -> string)
    requires StateNamed(name)
    ensures AreNames(STATE_ORDER, name, STATE_CALLS)
  {
    StateCallsFirst(name);
    StateCallsRest(name);
  }

  lemma StackCallsFirst(name: Api -> string)
    requires StackNamed(name)
    ensures forall k :: 0 <= k < 9 ==> name(STACK_ORDER[k]) == STACK_CALLS[k]
  {
  }

  lemma StackCallsRest(name: Api -> string)
    requires StackNamed(name)
    ensures forall k :: 9 <= k < 17 ==> name(STACK_ORDER[k]) == STACK_CALLS[k]
  {
  }

  lemma StackCalls(name: Api -> string)
    requires StackNamed(name)
    ensures AreNames(STACK_ORDER, name, STACK_CALLS)
  {
    StackCallsFirst(name);
    StackCallsRest(name);
  }

  lemma ValueCallsFirst(name: Api -> string)
    requires ValueNamed(name)
    ensures forall k :: 0 <= k < 8 ==> name(VALUE_ORDER[k]) == VALUE_CALLS[k]
  {
  }

  lemma ValueCallsRest(name: Api -> string)
    requires ValueNamed(name)
    ensures forall k :: 8 <= k < 15 ==> name(VALUE_ORDER[k]) == VALUE_CALLS[k]
  {
  }

  lemma ValueCalls(name: Api -> string)
    requires ValueNamed(name)
    ensures AreNames(VALUE_ORDER, name, VALUE_CALLS)
  {
    ValueCallsFirst(name);
    ValueCallsRest(name);
  }

  lemma TableCallsFirst(name: Api -> string)
    requires TableNamed(name)
    ensures forall k :: 0 <= k < 8 ==> name(TABLE_ORDER[k]) == TABLE_CALLS[k]
  {
  }

  lemma TableCallsRest(name: Api -> string)
    requires TableNamed(name)
    ensures forall k :: 8 <= k < 15 ==> name(TABLE_ORDER[k]) == TABLE_CALLS[k]
  {
  }

  lemma TableCalls(name: Api -> string)
    requires TableNamed(name)
    ensures AreNames(TABLE_ORDER, name, TABLE_CALLS)
  {
    TableCallsFirst(name);
    TableCallsRest(name);
  }

  lemma LibraryCallsFirst(name: Api -> string)
    requires LibraryNamed(name)
    ensures forall k :: 0 <= k < 6 ==> name(LIBRARY_ORDER[k]) == LIBRARY_CALLS[k]
  {
  }

  lemma LibraryCallsRest(name: Api -> string)
    requires LibraryNamed(name)
    ensures forall k :: 6 <= k < 12 ==> name(LIBRARY_ORDER[k]) == LIBRARY_CALLS[k]
  {
  }

  lemma LibraryCalls(name: Api -> string)
    requires LibraryNamed(name)
    ensures AreNames(LIBRARY_ORDER, name, LIBRARY_CALLS)
  {
    LibraryCallsFirst(name);
    LibraryCallsRest(name);
  }

  lemma OrderCalls(name: Api -> string)
    requires AllNamed(name)
    ensures AreNames(ORDER, name, CALLS)
  {
    StateCalls(name);
    StackCalls(name);
    ValueCalls(name);
    TableCalls(name);
    LibraryCalls(name);
    var fs, calls := STATE_ORDER + STACK_ORDER, STATE_CALLS + STACK_CALLS;
    NamesJoin(STATE_ORDER, STATE_CALLS, STACK_ORDER, STACK_CALLS, name);
    NamesJoin(fs, calls, VALUE_ORDER, VALUE_CALLS, name);
    NamesJoin(fs + VALUE_ORDER, calls + VALUE_CALLS, TABLE_ORDER, TABLE_CALLS, name);
    NamesJoin(fs + VALUE_ORDER + TABLE_ORDER, calls + VALUE_CALLS + TABLE_CALLS, LIBRARY_ORDER, LIBRARY_CALLS, name);
  }

  /** A load that is rejected stops at one of these lookups: the symbol of its name is
      missing, and every earlier macro call passed. The pointers assigned are those of
      the macro calls up to that one, each with its own lookup. */
  lemma RejectedLoadStopsAt(symbols: Symbols, before: VersionInfo) returns (k: nat)
    requires IsLua(symbols)
    ensures AreNames(ORDER, NameOf(), CALLS)
    ensures !Accepts(symbols) ==>
      var found, version := LookupIn(symbols), Detect(symbols, before).value.version;
      && k < |CALLS| && !Has(symbols, CALLS[k]) && StopsAt(found, version, ORDER, k)
      && forall a :: BindsUpTo(found, ORDER, Bindings(symbols, version), k, a)
  {
    var found, version := LookupIn(symbols), Detect(symbols, before).value.version;
    NamesAre();
    OrderCalls(NameOf());
    AcceptsIffNoStepFails(symbols, before);
    k := FirstFailure(found, version, Program(ORDER));
    if !Accepts(symbols) {
      StopIsMissing(found, version, ORDER, k);
      LookupInLooksUp(symbols);
      assert NameOf()(ORDER[k]) == CALLS[k];
      forall a: Api
        ensures BindsUpTo(found, ORDER, Bindings(symbols, version), k, a)
      {
        BoundUpTo(found, version, ORDER, k, a);
      }
    }
  }

  /** The first macro call that does not pass. */
  ghost predicate StopsAt(found: Lookups, version: int, order: seq<Api>, k: nat)
    requires k < |order|
  {
    !Passes(found, version, RoleOf(order[k])) && forall j :: 0 <= j < k ==> Passes(found, version, RoleOf(order[j]))
  }

  /** The macro call of `f` assigns its pointer, also with null, and then that of its
      substitute if nothing was found. */
  predicate IsAssignedBy(found: Lookups, f: Api, a: Api) {
    a == f || (RoleOf(f) == Fallback(f, a) && found(f) == 0)
  }

  lemma AssignedByIs(found: Lookups, f: Api, a: Api)
    ensures a in Writes(found, RoleOf(f)) <==> IsAssignedBy(found, f, a)
  {
    RoleNamesItsFunction(f);
    StepAssigns(found, RoleOf(f), a);
  }

  lemma StepAssigns(found: Lookups, step: Step, a: Api)
    ensures a in Writes(found, step) <==> a == step.f || (step.Fallback? && a == step.other && found(step.f) == 0)
  {
    if step.Fallback? {
      if found(step.f) != 0 {
        assert Writes(found, step) == map[step.f := found(step.f)];
      } else {
        assert Writes(found, step) == map[step.f := 0] + map[step.other := found(step.other)];
      }
    } else {
      assert Writes(found, step).Keys == {step.f};
    }
  }

  ghost predicate BindsUpTo(found: Lookups, order: seq<Api>, bindings: map<Api, Address>, k: nat, a: Api)
    requires k < |order|
  {
    && (a in bindings <==> exists j :: 0 <= j <= k && IsAssignedBy(found, order[j], a))
    && (a in bindings ==> bindings[a] == RoleAddress(found, a))
  }

  lemma StopIsMissing(found: Lookups, version: int, order: seq<Api>, k: nat)
    requires k == FirstFailure(found, version, Program(order)) < |Program(order)|
    ensures k < |order| && StopsAt(found, version, order, k) && found(order[k]) == 0
  {
    StepIsARole(order, k);
    RoleNamesItsFunction(order[k]);
    forall j | 0 <= j < k
      ensures Passes(found, version, RoleOf(order[j]))
    {
      StepIsARole(order, j);
    }
  }

  lemma BoundUpTo(found: Lookups, version: int, order: seq<Api>, k: nat, a: Api)
    requires k == FirstFailure(found, version, Program(order)) < |Program(order)| && k < |order|
    ensures BindsUpTo(found, order, Assigned(found, Executed(found, version, Program(order))), k, a)
  {
    var steps := Executed(found, version, Program(order));
    RejectedRunWritesItsPrefix(found, version, order, a);
    assert steps == Program(order)[..k + 1];
    forall j | 0 <= j <= k
      ensures steps[j] == RoleOf(order[j]) && steps[j] in steps
      ensures a in Writes(found, steps[j]) <==> IsAssignedBy(found, order[j], a)
    {
      StepIsARole(order, j);
      AssignedByIs(found, order[j], a);
    }
  }
}

/** The Lua API functions the loader knows, and their export names. */
module LuaApi {
  datatype Api =
    | LuaOpen | LuaNewstate | LuaNewthread | LuaClose | LuaError | LuaopenBase | LuaAbsindex | LuaSethook
    | LuaGetinfo | LuaRemove | LuaRotate | LuaSettable | LuaGettable | LuaRawget | LuaRawgeti | LuaRawset
    | LuaPushstring | LuaPushlstring | LuaType | LuaTypename | LuaSettop | LuaGettop | LuaGetlocal
    | LuaSetlocal | LuaGetstack | LuaInsert | LuaPushnil | LuaPushvalue | LuaPushcclosure | LuaPushnumber
    | LuaCheckstack | LuaGethookmask | LuaPushboolean | LuaConcat | LuaLWhere | LuaGetglobal | LuaSetglobal
    | LuaPushinteger | LuaTointeger | LuaTointegerx | LuaTostring | LuaTolstring | LuaTonumberx | LuaTonumber
    | LuaToboolean | LuaTocfunction | LuaTouserdata | LuaCallk | LuaCall | LuaPcallk | LuaPcall | LuaNewtable
    | LuaCreatetable | LuaLoad | LuaNext | LuaRawequal | LuaGetmetatable | LuaSetmetatable | LuaLRef
    | LuaLUnref | LuaLNewmetatable | LuaGetupvalue | LuaSetupvalue | LuaLOpenlibs | LuaGetfenv | LuaSetfenv
    | LuaCpcall | LuaNewuserdata | LuaLNewstate | LuaLRegister | LuaIOpenlib | LuaLOpenlib | LuaLLoadbuffer
    | LuaLLoadbufferx | LuaLLoadfile | LuaLLoadfilex | LuaTowstring | LuaIswstring | LuaPushthread
    | LuaIsinteger | LuaLoadx
  {
    function Name(): string {
      match this
      case LuaOpen => "lua_open"
      case LuaNewstate => "lua_newstate"
      case LuaNewthread => "lua_newthread"
      case LuaClose => "lua_close"
      case LuaError => "lua_error"
      case LuaopenBase => "luaopen_base"
      case LuaAbsindex => "lua_absindex"
      case LuaSethook => "lua_sethook"
      case LuaGetinfo => "lua_getinfo"
      case LuaRemove => "lua_remove"
      case LuaRotate => "lua_rotate"
      case LuaSettable => "lua_settable"
      case LuaGettable => "lua_gettable"
      case LuaRawget => "lua_rawget"
      case LuaRawgeti => "lua_rawgeti"
      case LuaRawset => "lua_rawset"
      case LuaPushstring => "lua_pushstring"
      case LuaPushlstring => "lua_pushlstring"
      case LuaType => "lua_type"
      case LuaTypename => "lua_typename"
      case LuaSettop => "lua_settop"
      case LuaGettop => "lua_gettop"
      case LuaGetlocal => "lua_getlocal"
      case LuaSetlocal => "lua_setlocal"
      case LuaGetstack => "lua_getstack"
      case LuaInsert => "lua_insert"
      case LuaPushnil => "lua_pushnil"
      case LuaPushvalue => "lua_pushvalue"
      case LuaPushcclosure => "lua_pushcclosure"
      case LuaPushnumber => "lua_pushnumber"
      case LuaCheckstack => "lua_checkstack"
      case LuaGethookmask => "lua_gethookmask"
      case LuaPushboolean => "lua_pushboolean"
      case LuaConcat => "lua_concat"
      case LuaLWhere => "luaL_where"
      case LuaGetglobal => "lua_getglobal"
      case LuaSetglobal => "lua_setglobal"
      case LuaPushinteger => "lua_pushinteger"
      case LuaTointeger => "lua_tointeger"
      case LuaTointegerx => "lua_tointegerx"
      case LuaTostring => "lua_tostring"
      case LuaTolstring => "lua_tolstring"
      case LuaTonumberx => "lua_tonumberx"
      case LuaTonumber => "lua_tonumber"
      case LuaToboolean => "lua_toboolean"
      case LuaTocfunction => "lua_tocfunction"
      case LuaTouserdata => "lua_touserdata"
      case LuaCallk => "lua_callk"
      case LuaCall => "lua_call"
      case LuaPcallk => "lua_pcallk"
      case LuaPcall => "lua_pcall"
      case LuaNewtable => "lua_newtable"
      case LuaCreatetable => "lua_createtable"
      case LuaLoad => "lua_load"
      case LuaNext => "lua_next"
      case LuaRawequal => "lua_rawequal"
      case LuaGetmetatable => "lua_getmetatable"
      case LuaSetmetatable => "lua_setmetatable"
      case LuaLRef => "luaL_ref"
      case LuaLUnref => "luaL_unref"
      case LuaLNewmetatable => "luaL_newmetatable"
      case LuaGetupvalue => "lua_getupvalue"
      case LuaSetupvalue => "lua_setupvalue"
      case LuaLOpenlibs => "luaL_openlibs"
      case LuaGetfenv => "lua_getfenv"
      case LuaSetfenv => "lua_setfenv"
      case LuaCpcall => "lua_cpcall"
      case LuaNewuserdata => "lua_newuserdata"
      case LuaLNewstate => "luaL_newstate"
      case LuaLRegister => "luaL_register"
      case LuaIOpenlib => "luaI_openlib"
      case LuaLOpenlib => "luaL_openlib"
      case LuaLLoadbuffer => "luaL_loadbuffer"
      case LuaLLoadbufferx => "luaL_loadbufferx"
      case LuaLLoadfile => "luaL_loadfile"
      case LuaLLoadfilex => "luaL_loadfilex"
      case LuaTowstring => "lua_towstring"
      case LuaIswstring => "lua_iswstring"
      case LuaPushthread => "lua_pushthread"
      case LuaIsinteger => "lua_isinteger"
      case LuaLoadx => "lua_loadx"
    }
  }

  /** The global `__lua_*` function pointers; 0 is nullptr. Trampolines come from an
      allocator that does not run out, so a pointer is any natural number. */
  type Pointers = map<Api, nat>

  class ApiTable {
    var pointers: Pointers

    constructor ()
      ensures pointers == map[]
    {
      pointers := map[];
    }
  }

  /** Globals start out as nullptr. */
  function PointerOf(pointers: Pointers, a: Api): nat {
    if a in pointers then pointers[a] else 0
  }
}

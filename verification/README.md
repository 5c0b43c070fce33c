# odbk, verified

odbk attaches a debugger backend to a running Lua engine. Before it can do anything it
has to find the engine's API functions in a foreign process, bind them, and put detours
in front of some of them. This project models that path of the 32-bit Windows build and
proves what it guarantees.

| file | part of the program |
|---|---|
| `SymbolMerge.dfy`, `ImportWalk.dfy`, `SymbolLoader.dfy` | the symbol search over the import graph: its specification as a function on values, and the source's recursion and loops, which update the Lua context in place and are proved against it |
| `WalkHistory.dfy`, `WalkReach.dfy`, `WalkPreorder.dfy` | what the search finds, visits and costs, and in which order it visits |
| `WalkOrder.dfy`, `SnapshotClosure.dfy` | when the order of its inputs matters |
| `LuaApi.dfy`, `Binder.dfy`, `ExportNames.dfy` | version detection and the binding of the API pointers; acceptance and pointers spelled out over the export names |
| `MinHook.dfy`, `LuaHooks.dfy`, `HookTermination.dfy` | hook creation, the hooks odbk installs, which pointers stay on patched code, calls through the detours and why they end |
| `FreshHooks.dfy` | from the symbols of an accepted load to the calls after hooking them |
| `PeImage.dfy`, `PeWriter.dfy` | the export and import table readers on bytes, and a writer for any placement of the tables, which they are inverse to |
| `PathNames.dfy`, `TextFormat.dfy`, `IntegerThunks.dfy` | path helpers, growable formatting, the 64-bit integer thunks |
| `Install.dfy` | source selection, `odbk_install`, and results across the parts |

`dafny verify dfyconfig.toml` checks everything.

## How the world outside is modelled

- A process is a finite table of modules (`ImportWalk.Process`): what DbgHelp enumerates
  for each, its import names, the answers of `GetModuleHandleA` and the snapshot. The
  graph may have cycles, unknown handles and names that resolve to nothing. `restricts`
  is an arbitrary set. The NULL handle is never a loaded module.
- Process memory is a byte sequence; what is not mapped reads as zero. The import names
  in the process table are those the image reader finds there (`SymbolLoader.Agrees`).
- MinHook is a contract: creating a hook fails without writing when the target is not
  code, is already hooked or cannot be hooked (`Library.hookable`, arbitrary); otherwise
  it allocates a fresh trampoline (`Library.alloc`, any allocator that does not run out)
  that behaves like the target. Enabling patches every created target.
- `vsnprintf` comes in its two historical behaviours; formatting itself does not fail.
- The VM keeps the bits of the integers it is given and obeys the cdecl convention.

## Where the code differs from its comments

- `odbk/odbk_lload.cpp:531` assigns `lua_load` from the lookup of `lua_loadx` without a
  condition, although the comment at `odbk/odbk_lhook.cpp:127` expects `lua_load` to be
  hooked for 5.2 and 5.3. The model follows the code: `lua_load` holds what was found as
  `lua_loadx` (`LuaLoadNeedsLoadx`), so an accepted engine without `lua_loadx`, such as
  Lua 5.3, loses it (`PlainLuaLosesLuaLoad`, `Lua53LosesLuaLoad`). Where `lua_loadx` is
  found, its own pointer is left on the code that hooking `lua_load` patches, exactly if
  that address can be hooked. Of the API pointers of an engine whose symbols differ it is
  the only one (`NonePatchedIff`, `AcceptedLoadIsTransparent`, `DifferingSymbolsAreApart`).
- The message at `odbk/odbk_lload.cpp:707` says that all other modules are skipped. The
  code only skips the imports of that one module; the remaining roots are still walked.
  With a snapshot that lists every import of its own modules, as one taken under the
  loader lock does, this loses nothing and no order changes what is found, cut-off or not
  (`SettledWhen`, `NamesDoNotDependOnOrder`, `MapDoesNotDependOnOrder`). Only a snapshot
  that leaves out an imported module can make the order matter; for a given graph it can
  if and only if the snapshot does leave one out (`ClosedIffOrderNeverMatters`).
- The test `hSnapshot != nullptr` at `odbk/odbk_lload.cpp:739` does not catch a failed
  snapshot, whose handle is INVALID_HANDLE_VALUE: then no module is walked at all. The
  model has both cases, `Some([])` and `None`.
- `odbk/odbk_lload.cpp:549` leaves `restricts` empty, so as shipped the walk finds nothing
  and a load that relies on it is rejected (`WalkWithoutRestrictsIsRejected`).
- `odbk/odbk_core.cpp:55-58` installs the hooks whatever the load answered; so does
  `OdbkInstall`.
- `lua_rawseti` has a pointer and a thunk but no binding step looks it up.
- A second install rebinds the pointers to hooked addresses, which MinHook will not hook
  again: transparency is lost exactly if some installed function has an address that can
  be hooked (`SecondInstallTransparentIff`), and a call whose detour forwards to such a
  function loops (`CallAfterSecondInstall`). After a single install no call loops, even
  when functions share addresses (`NoCallLoops`).

## Model

| member | source | states |
|---|---|---|
| `SymbolMerge.MergeKeeps` | odbk/odbk_lload.cpp:580-594 | an enumeration never changes or removes a bound address |
| `SymbolMerge.MergeDomain` | odbk/odbk_lload.cpp:582-588 | it adds exactly the wanted names that were reported |
| `SymbolMerge.MergeFirst` | odbk/odbk_lload.cpp:584-592 | of several reports under one name the first wins, with the address reported: unchanged below 2^32, else modulo 2^32 |
| `SymbolLoader.GatherSymbolsCallback` | odbk/odbk_lload.cpp:577-597 | the callback does one filtered first-wins step on the context's map, with the address reported |
| `ImportWalk.ImportsAre` | odbk/odbk_lload.cpp:717-727 | the edges of the graph: the loaded modules that a loaded module names in its import list |
| `ImportWalk.ResolveNext` | odbk/odbk_lload.cpp:717-727 | imports keep their order; a name that is not loaded is skipped and the next one is still followed |
| `SymbolLoader.SymEnumSymbols` | odbk/odbk_lload.cpp:686 | enumerating a module folds that step over its symbols |
| `SymbolLoader.CollectSymbols` | odbk/odbk_lload.cpp:679-696 | found-flag, map and key module after one module are those of the specification |
| `SymbolLoader.LoadSymFromModule` | odbk/odbk_lload.cpp:598-728 | the recursion, over the import names read from each image, terminates on every graph and leaves the context as the specified walk does |
| `SymbolLoader.LoadSymFromImports` | odbk/odbk_lload.cpp:717-727 | the import loop is the walk over the imports that resolve, in order |
| `SymbolLoader.LoadSymFromAppModules` | odbk/odbk_lload.cpp:730-760 | the snapshot loop performs the whole search; every entry, or the application module without a snapshot, is visited, and the loaded set is exactly what is reachable without leaving a module that cut off |
| `WalkHistory.WalkRecords` | odbk/odbk_lload.cpp:598-728 | first-wins refinement: the map updated in place is the pure left fold over the visiting order, no module is visited twice, the debugger's own module never |
| `WalkHistory.DiscoverRecords` | odbk/odbk_lload.cpp:730-760 | the same for the whole search, from any initial map and key module |
| `WalkHistory.FoldKeeps` | odbk/odbk_lload.cpp:586-592 | a bound name keeps its address for the rest of the run |
| `WalkHistory.FoldDomain` | odbk/odbk_lload.cpp:580-594 | the bound names are the initial ones and the wanted names of visited modules, whatever the order |
| `WalkHistory.EarliestProviderWins` | odbk/odbk_lload.cpp:584-592 | each new address is the first report of the earliest visited module that offers the name: unchanged below 2^32, else modulo 2^32 |
| `WalkHistory.LaterContributorsCut` | odbk/odbk_lload.cpp:698-710 | once one module has cut off, every later contributor cuts off |
| `WalkHistory.FewNamesNeverCut` | odbk/odbk_lload.cpp:704-709 | with fewer than 166 names to find no module cuts off |
| `WalkHistory.KeyIsLastForeignContributor` | odbk/odbk_lload.cpp:685-694 | the last contributor other than the application module becomes the key module |
| `WalkHistory.KeyWithoutForeignContributor` | odbk/odbk_lload.cpp:685-694 | otherwise it is the application module, with its name, if that contributed and none was set, else unchanged |
| `WalkHistory.KeyModuleOfSearch` | odbk/odbk_lload.cpp:685-694 | both facts for the key module at the end of every search |
| `WalkReach.WalkCloses` | odbk/odbk_lload.cpp:698-727 | a finished call leaves every module it entered cut off or with all its imports visited, while callers' modules may be unfinished |
| `WalkReach.WalkIsCaused` | odbk/odbk_lload.cpp:717-727 | every visit is caused by a root or by an import of an earlier module that did not cut off |
| `WalkReach.EveryVisitIsClosedOrCut` | odbk/odbk_lload.cpp:698-727 | closure with cut-off, for the whole run |
| `WalkReach.VisitsExactlyTheReachable` | odbk/odbk_lload.cpp:598-760 | in every run, on every finite graph, the visited modules are exactly those reachable from the roots through modules that did not cut off |
| `WalkReach.FewNamesVisitAll` | odbk/odbk_lload.cpp:598-760 | with fewer than 166 names that is plain reachability |
| `WalkPreorder.DepthFirstOrder` | odbk/odbk_lload.cpp:698-751 | a sequence is the visiting order if and only if each module in it is where a depth-first walk goes on: the first unvisited import of the latest module that did not cut off and has one, else the first unvisited root, until there is none |
| `WalkReach.ExactNumberOfCalls` | odbk/odbk_lload.cpp:600-613 | the walk is entered exactly once per root and per resolved import of each visited module that did not cut off, and enumerates no module twice |
| `WalkOrder.NoCutCondition` | odbk/odbk_lload.cpp:698-710 | no module cuts off if and only if reachable modules and the initial map give fewer than 166 names, or nothing new |
| `WalkOrder.NoCutDoesNotDependOnOrder` | odbk/odbk_lload.cpp:698-727 | whether any module cuts off is the same for every order of snapshot, imports and symbols |
| `WalkOrder.FinalNames` | odbk/odbk_lload.cpp:577-760 | without a cut-off the final names are the initial ones and the wanted names reachable modules offer |
| `WalkOrder.SettledFindsAll` | odbk/odbk_lload.cpp:577-760 | if every new name is offered by a root, or behind modules that cannot cut off, the search finds all names reachable modules offer, whatever it cuts off |
| `WalkOrder.SettledWhen` | odbk/odbk_lload.cpp:698-760 | that is so when nothing cuts off, when the snapshot lists the imports of its modules, and when the roots offer everything |
| `WalkOrder.ClosedVisitsTheRoots` | odbk/odbk_lload.cpp:738-751 | with such a closed snapshot the search visits exactly its entries but the debugger, cut-off or not |
| `WalkOrder.NamesDoNotDependOnOrder` | odbk/odbk_lload.cpp:577-760 | then no order of snapshot, imports or symbols changes the names found |
| `WalkOrder.VisitsDoNotDependOnOrder` | odbk/odbk_lload.cpp:598-760 | nor the modules visited, with a silent cut-off or a closed snapshot |
| `WalkOrder.MapDoesNotDependOnOrder` | odbk/odbk_lload.cpp:577-760 | if reachable modules agree on addresses the whole map is then independent of the order |
| `SnapshotClosure.ClosedIffOrderNeverMatters` | odbk/odbk_lload.cpp:698-751 | for a graph and a snapshot of at least two modules: whatever the modules offer, no order of the snapshot changes the names found, if and only if the snapshot is closed under imports |
| `SnapshotClosure.IncompleteSnapshotMatters` | odbk/odbk_lload.cpp:698-751 | the smallest snapshot that is not: two entries of which one imports a third module, and offers for which swapping them changes what is found |
| `Binder.MarkersDecideVersion` | odbk/odbk_lload.cpp:320-359 | which markers yield each version, and the registry index, globals index and hook constant of each |
| `Binder.MoreNamesMoveVersionUp` | odbk/odbk_lload.cpp:320-359 | further names move the detected version up, or to 5.0 exactly with `lua_open` |
| `Binder.Execute` | odbk/odbk_lload.cpp:361-380 | each macro assigns its pointers and lets the binder go on as specified |
| `Binder.RunSteps` | odbk/odbk_lload.cpp:382-533 | the program stops at the first step that fails, after that step's own assignment |
| `Binder.FinishLoad` | odbk/odbk_lload.cpp:318-534 | it answers true exactly for accepted symbols; the pointers assigned are those of the executed steps |
| `ExportNames.AcceptsIffByName` | odbk/odbk_lload.cpp:318-534 | acceptance on the key set: a marker, the 39 required names, one of each of six pairs of names and, without `lua_open`, `lua_pushthread` |
| `ExportNames.AcceptedPointersByName` | odbk/odbk_lload.cpp:382-531 | every pointer after an accepted load into null pointers: the address of the export of its own name, with substitutes, alias and relocation spelled out |
| `ExportNames.OrderCalls` | odbk/odbk_lload.cpp:383-530 | the names in the order in which they are looked up |
| `ExportNames.RejectedLoadStopsAt` | odbk/odbk_lload.cpp:361-533 | a rejected load stops at a lookup whose symbol is missing, after all earlier calls passed; exactly the pointers of the calls up to it are assigned |
| `Binder.OrderIsComplete` | odbk/odbk_lload.cpp:382-531 | the program looks up every API function that has a macro, and no other |
| `Binder.AcceptsIffNoStepFails` | odbk/odbk_lload.cpp:318-534 | a marker, all 39 required functions, one of each of six pairs and, unless 5.0, `lua_pushthread`: this closed form decides the result |
| `Binder.ListsAreRoles` | odbk/odbk_lload.cpp:382-531 | the lists of required functions and pairs are the functions with a required macro and the guarded fallbacks |
| `Binder.AcceptanceIsMonotone` | odbk/odbk_lload.cpp:320-531 | more names never turn acceptance into rejection, though the version may change |
| `Binder.RejectedRunWritesItsPrefix` | odbk/odbk_lload.cpp:361-368 | a rejected load has written exactly the pointers of the executed steps, each with its own lookup |
| `Binder.AcceptedTable` | odbk/odbk_lload.cpp:382-533 | the whole pointer table after an accepted load, with stale, aliased and relocated entries |
| `Binder.LuaLoadNeedsLoadx` | odbk/odbk_lload.cpp:477-531 | after an accepted load `lua_load` holds the address found as `lua_loadx`, null without it |
| `Binder.PlainLuaLosesLuaLoad` | odbk/odbk_lload.cpp:477-531 | an accepted engine with `lua_load` but without `lua_loadx` ends with a null `lua_load` |
| `Binder.Lua53LosesLuaLoad` | odbk/odbk_lload.cpp:318-534 | any symbol map with the exports of Lua 5.3 is accepted as 5.3 and ends so |
| `Binder.Lua53SymbolsExist` | odbk/odbk_lload.cpp:318-534 | there is such a map |
| `MinHook.Engine.CreateHook` | odbk/odbk_hook.cpp:18 | the creation contract: fails without writing, or hooks the target and returns a fresh copy of it |
| `MinHook.Engine.EnableHook` | odbk/odbk_hook.cpp:23 | every created target is patched, nothing else |
| `MinHook.OdbkHook` | odbk/odbk_hook.cpp:14-20 | a null pointer is left alone; on success the pointer becomes the trampoline |
| `MinHook.BatchHolds` | odbk/odbk_hook.cpp:14-20 | what any finite list of installs with repeats keeps: trampolines behave like their originals, no trampoline in use is hooked, one pointer moves away from each hooked original |
| `MinHook.TransparentIffDistinct` | odbk/odbk_lhook.cpp:99-145 | every installed pointer reaches unpatched original code if and only if no two installed functions share a hookable address |
| `MinHook.OriginalsJumpToTheirDetours` | odbk/odbk_lhook.cpp:99-145 | each hooked original jumps to its own detour, even when listed twice; all other code is untouched |
| `LuaHooks.InstallLuaHooks` | odbk/odbk_lhook.cpp:99-145 | the state afterwards is that of hooking the list in order and enabling |
| `LuaHooks.HookedFunctions` | odbk/odbk_lhook.cpp:103-141 | what is hooked for each version: `luaI_openlib` only before 5.3, `lua_load` with a detour of its own up to 5.1 |
| `LuaHooks.InstallOrder` | odbk/odbk_lhook.cpp:105-141 | in which place, with the double `luaL_newstate` |
| `LuaHooks.LuaInstallsAreSuitable` | odbk/odbk_lhook.cpp:105-141 | the installed list has one detour per function and both functions the loaders fall back on |
| `LuaHooks.DispatchIsTotal` | odbk/odbk_lhook.cpp:41-72 | a detour of a bound function always forwards to a non-null pointer: that of the extended loader of its pair where it is bound, else its own |
| `LuaHooks.SentinelIsUnreachable` | odbk/odbk_lhook.cpp:41-72 | no patched original has a detour that would answer -1, even when addresses coincide |
| `LuaHooks.CallRunsItsDetourOnce` | odbk/odbk_lhook.cpp:6-145 | calling a hooked original runs its detour exactly once and then unpatched original code: the extended loader's for the buffer and file loaders where it was bound, else the plain one's, and the function's own for all others |
| `LuaHooks.SecondInstallKeepsPatchedPointers` | odbk/odbk_hook.cpp:14-20 | installing again after rebinding creates no hook and leaves the pointers on patched code |
| `LuaHooks.SecondInstallTransparentIff` | odbk/odbk_lhook.cpp:99-145 | after that the pointers, installed or not, reach original code if and only if no installed function has a hookable address |
| `LuaHooks.CallAfterSecondInstall` | odbk/odbk_lhook.cpp:6-145 | after that a call reaches original code if and only if the function its detour forwards to has an address that cannot be hooked; else that function's detour runs forever |
| `HookTermination.BatchFirstMoved` | odbk/odbk_hook.cpp:14-20 | of the functions that share a hooked address the one installed first got the trampoline |
| `HookTermination.PatchedIffHookedEarlier` | odbk/odbk_hook.cpp:14-24 | a pointer, hooked or not, is left on patched code if and only if its address was hooked for another function first |
| `HookTermination.NonePatchedIff` | odbk/odbk_hook.cpp:14-24 | after one batch no non-null API pointer holds a patched address if and only if no function is hooked through a hookable address that another function has too |
| `HookTermination.NoCallLoops` | odbk/odbk_lhook.cpp:6-145 | after one batch every call of an original ends in original code, within as many detours as there are installs, whatever addresses coincide |
| `HookTermination.LuaLoadersAreInOrder` | odbk/odbk_lhook.cpp:119-123 | odbk's list hooks each loader before the one that falls back on it, as the previous row needs |
| `PeImage.GetExports` | odbk/odbk_utils.cpp:12-45 | the map is extended first-wins with the image's export list |
| `PeImage.NumberOfExports` | odbk/odbk_utils.cpp:33-38 | as many exports as the directory counts, none if the count is negative as an `int` |
| `PeImage.EmplaceAllDomain` | odbk/odbk_utils.cpp:39-44 | prior entries stay and exactly the exported names are added |
| `PeImage.EmplaceAllFirst` | odbk/odbk_utils.cpp:39-44 | a new name has the address of its first export |
| `PeImage.GetImports` | odbk/odbk_utils.cpp:66-94 | true exactly with both signatures and an import directory; otherwise nothing is appended, and with them the descriptor names, in order |
| `PeImage.NoImportNamesIff` | odbk/odbk_utils.cpp:47-80 | no names exactly with a wrong DOS or NT signature or a zero import directory |
| `PeWriter.WritingLoads` | odbk/odbk_utils.cpp:10-94 | an image written anywhere with any disjoint placement of its headers, tables and strings is in memory as the round trips assume |
| `PeWriter.HeadersRoundTrip` | odbk/odbk_utils.cpp:47-65 | the header check accepts such an image and finds its directories and export tables |
| `PeWriter.ExportsRoundTrip` | odbk/odbk_utils.cpp:12-45 | for every placement the list read is name[i] -> base + functions[ordinals[i]] |
| `PeWriter.ImportsRoundTrip` | odbk/odbk_utils.cpp:66-94 | for every placement the names read are those before the first zero FirstThunk, in order; an image without import table is answered with false |
| `PathNames.SplitIsUnique` | odbk/odbk_utils.cpp:155-193 | (path, title) is the only way to cut a name into a part that is empty or ends in a separator and a part without one |
| `PathNames.SplitIsIdempotent` | odbk/odbk_utils.cpp:155-193 | both helpers are idempotent and leave nothing for each other |
| `PathNames.GetFileTitle` | odbk/odbk_utils.cpp:155-172 | the buffer holds the title as a C string |
| `PathNames.GetFilePath` | odbk/odbk_utils.cpp:174-193 | the buffer holds the directory as a C string |
| `PathNames.LocateSymFile` | odbk/odbk_dbghelp.cpp:72-106 | it finds the full debug path, else the title of the debug path in the image's directory, else nothing and writes nothing |
| `PathNames.BesideImageIs` | odbk/odbk_dbghelp.cpp:84-96 | the second candidate is the only name with the image's directory and the debug file's title |
| `PathNames.ReplaceExtension` | odbk/odbk_utils.cpp:140-147 | the backward scan and copy overwrite exactly what follows the last dot of the first n characters |
| `PathNames.ReplaceExtensionLiteral` | odbk/odbk_utils.h:25-29 | the buffer holds prefix and extension, and the result is that string's length |
| `PathNames.ReplacingTwice` | odbk/odbk_utils.cpp:140-147 | repeating with a dot-free extension changes nothing |
| `PathNames.DirectorySurvives` | odbk/odbk_utils.cpp:140-147 | the directory part is unchanged if and only if the last dot follows the last separator |
| `TextFormat.VsnPrintf` | odbk/odbk_utils.h:10-20 | the two behaviours of the library function |
| `TextFormat.GrowUntilItFits` | odbk/odbk_utils.cpp:124-134 | the growth loop terminates with the text in the first of the sizes 256, 384, 576, ... that holds it |
| `TextFormat.Sfmt` | odbk/odbk_utils.cpp:96-138 | the result is the whole text on both platforms, with the exact largest buffer, on the legacy one at most half above the text |
| `IntegerThunks.LimbsRoundTrip` | odbk/odbk_lload.cpp:122-140 | the two limbs of every 64-bit integer give it back |
| `IntegerThunks.RawIThunk` | odbk/odbk_lload.cpp:137-186 | the stack is restored on both branches and the VM sees n, or n modulo 2^32 before 5.3 |
| `IntegerThunks.PushIntegerThunk` | odbk/odbk_lload.cpp:187-209 | the same for a push, and which bits the VM keeps |
| `IntegerThunks.ToIntegerXThunk` | odbk/odbk_lload.cpp:210-232 | the callee sees L, idx and isnum and the stack is restored; the high limb only counts from 5.3 on, whatever edx holds before |
| `IntegerThunks.ToIntegerCompact` | odbk/odbk_lload.cpp:115-118 | the compact form fetches the same integer and passes a null isnum |
| `IntegerThunks.PushThenFetch` | odbk/odbk_lload.cpp:187-232 | push then fetch is the identity on 64 bits from 5.3 on; before, modulo 2^32, so unchanged exactly for 0 <= n < 2^32 |
| `Install.LoadFirstListed` | odbk/odbk_lload.cpp:269-277 | the exports of the first listed name that is loaded are read, whatever its place, and of no other; without one nothing changes |
| `Install.CollectAllSymbols` | odbk/odbk_lload.cpp:256-302 | the collected symbols by source, and the ten built-in names |
| `Install.LoadLuaInternal` | odbk/odbk_lload.cpp:254-305 | the answer is acceptance of the collected symbols, and the pointers are bound from them |
| `Install.LoadLua` | odbk/odbk_lload.cpp:250-253 | the answer and, in a table of null pointers, every pointer, by export names |
| `Install.OdbkInstall` | odbk/odbk_core.cpp:55-58 | load, then hook whatever is bound; after a first, accepted load the result is transparent as above |
| `Install.FreshSelection` | odbk/odbk_lload.cpp:259-297 | from a fresh context all symbols come from the first listed module that is loaded if it exports any, otherwise all from the walk |
| `Install.LaterSelection` | odbk/odbk_lload.cpp:268-279 | from a context with symbols they are kept and only extended by that module; there is no walk |
| `Install.HandleSelection` | odbk/odbk_lload.cpp:298-302 | with a handle the symbols are that module's exports, whatever happened before |
| `Install.RepeatedLoadStaysAccepted` | odbk/odbk_lload.cpp:268-304 | a repeated load without a handle keeps and extends an accepted result |
| `Install.VisitingKeepsAcceptance` | odbk/odbk_lload.cpp:587-727 | visiting further modules never turns an accepted state into a rejected one |
| `Install.WalkWithoutRestrictsIsRejected` | odbk/odbk_lload.cpp:545-593 | with no restricts the walk adds nothing and the load is rejected |
| `Install.WrittenDescriptorsAreEdges` | odbk/odbk_lload.cpp:712-727 | the import graph's edges are the live descriptors of the image in memory, where they resolve |
| `FreshHooks.AcceptedLoadIsTransparent` | odbk/odbk_lhook.cpp:99-145 | from symbols to calls, for every accepted symbol map bound into null pointers and hooked once: functions bound apart are intercepted exactly once and then reach original code; no API pointer is patched if and only if `lua_loadx` is absent or cannot be hooked and no other two clash |
| `FreshHooks.DifferingSymbolsAreApart` | odbk/odbk_lhook.cpp:99-145 | engines whose symbols have differing addresses are bound apart, but for `lua_loadx` |

## Left out

- `odbk_core` networking, the protocol packets, `DllMain` and the log messages: input and output without decided behaviour.
- Warning de-duplication and the retry with a sibling `.pdb`: `ModuleImage.symbolBase` is the base after both; `locate_sym_file` and the extension helper are modelled on their own.
- `load_sym_from_cache`, the unreachable part of `load_sym_restricts` and configured module lists: stubs in the source.
- The null checks on `pSymInfo` and its name, which DbgHelp never passes as null, and matching by the mask `lua*`: the enumerated list is what DbgHelp reports.
- Access violations: unmapped memory reads as zero, so the exception handler of `PEHeaderFromHModule` is not modelled.
- The 64-bit build, where `MAKE_PTR` truncates pointers and the thunks do not exist.
- RawIThunk: one method for the two thunks that differ in the called pointer only; an integer before 5.3 is stated as its 32 bits, not as a signed number.
- PeWriter.ExportsRoundTrip: assumes that everything the image places stays below 2^32, as the pointer arithmetic of the source does.
- TextFormat.Sfmt: assumes, where the legacy loop has to grow, that three times the text length fits a `size_t`; below that the step cannot overflow.
- PathNames.LocateSymFile: assumes, where it concatenates, that directory plus title fit the buffer of 260 characters, which the source does not check.
- PathNames.ReplaceExtension: assumes a dot and enough room, without which the source leaves the buffer.
- What the detours pass on besides the choice of function, in particular that the 5.1 detour of `lua_load` drops the mode: meaning is only claimed up to the function reached. Calls between originals are part of their own code.
- WalkOrder.NamesDoNotDependOnOrder: for one fixed table of offers and a snapshot that is not closed the condition is sufficient only. Whether some order reaches a module depends on which of the other modules can be visited first while staying under 166 names, or so that all names of its importer are found before it; over all offers the exact condition is the closed snapshot, in `ClosedIffOrderNeverMatters`.
- SnapshotClosure.ClosedIffOrderNeverMatters: stated for at least two loaded entries besides the debugger; a snapshot of one has only one order.
- LuaHooks.CallAfterSecondInstall: stated for hooked functions with distinct addresses; without that the detour found at a shared address belongs to another function.
- Input aliasing: names passed to the path helpers are values, so overlapping buffers are not modelled.

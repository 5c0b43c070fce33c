/** When the order of the snapshot and of the import lists does not matter. */
module WalkOrder {
  import opened Common
  import opened SymbolMerge
  import opened ImportWalk
  import opened WalkHistory
  import opened WalkReach

  /** The same process up to the order of the snapshot, of each import list and of
      each module's symbols. */
  ghost predicate SameUpToOrder(d: Search, e: Search) {
    && d.restricts == e.restricts && d.initial == e.initial
    && d.process.appInst == e.process.appInst
    && (forall h :: h in d.process.Roots() <==> h in e.process.Roots())
    && (forall h, x :: x in d.process.Imports(h) <==> x in e.process.Imports(h))
    && (forall h :: d.process.Image(h).symbolBase == e.process.Image(h).symbolBase)
    && (forall h, info :: info in d.process.Image(h).symbols <==> info in e.process.Image(h).symbols)
  }

  /** No module of the run cut off. */
  ghost predicate NoCut(d: Search) {
    CutModules(d, Discover(d).order) == {}
  }

  lemma SameIsSymmetric(d: Search, e: Search)
    requires SameUpToOrder(d, e)
    ensures SameUpToOrder(e, d)
  {
  }

  lemma SameReachable(d: Search, e: Search, stopped: set<Handle>, fewer: set<Handle>, h: Handle)
    requires SameUpToOrder(d, e) && fewer <= stopped && Reachable(d, stopped, h)
    ensures Reachable(e, fewer, h)
  {
    var path :| ImportPath(d, stopped, path) && path[|path| - 1] == h;
    forall k | 0 <= k < |path| - 1
      ensures path[k] !in fewer && Edge(e, path[k], path[k + 1])
    {
      assert path[k] !in stopped && Edge(d, path[k], path[k + 1]);
    }
    assert ImportPath(e, fewer, path);
  }

  lemma SameOffers(d: Search, e: Search, h: Handle, name: string)
    requires SameUpToOrder(d, e) && Offers(d, h, name)
    ensures Offers(e, h, name)
  {
    var infos := d.process.Image(h).symbols;
    var i :| 0 <= i < |infos| && infos[i].name == name;
    assert infos[i] in e.process.Image(h).symbols;
  }

  ghost predicate OfferedByReachable(d: Search, name: string) {
    exists h :: Reachable(d, {}, h) && Offers(d, h, name)
  }

  /** Without a cut-off the final names are the initial ones and the restricted
      names that reachable modules offer. */
  lemma FinalNames(d: Search)
    requires NoCut(d)
    ensures forall n :: n in Discover(d).symbols <==>
      n in d.initial || OfferedByReachable(d, n)
  {
    var order := Discover(d).order;
    DiscoverRecords(d);
    VisitsExactlyTheReachable(d);
    FoldDomain(d, order);
    forall n
      ensures OfferedByReachable(d, n) <==> exists h :: h in order && Offers(d, h, n)
    {
      if h :| h in order && Offers(d, h, n) { assert Reachable(d, {}, h); }
    }
  }

  // -------------------------------------------- when the cut-off stays silent

  /** Every name the search could end with. */
  ghost function AllNames(d: Search): set<string> {
    set n | n in d.initial.Keys + d.restricts && (n in d.initial || OfferedByReachable(d, n))
  }

  lemma FewerStopped(d: Search, stopped: set<Handle>, fewer: set<Handle>, h: Handle)
    requires fewer <= stopped && Reachable(d, stopped, h)
    ensures Reachable(d, fewer, h)
  {
    var path :| ImportPath(d, stopped, path) && path[|path| - 1] == h;
    assert ImportPath(d, fewer, path);
  }

  lemma NamesSoFar(d: Search, i: nat)
    requires i <= |Discover(d).order|
    ensures SymbolsAfter(d, Discover(d).order[..i]).Keys <= AllNames(d)
  {
    var order := Discover(d).order;
    VisitsExactlyTheReachable(d);
    FoldDomain(d, order[..i]);
    forall n | n in SymbolsAfter(d, order[..i])
      ensures n in AllNames(d)
    {
      if n !in d.initial {
        var h :| h in order[..i] && Offers(d, h, n);
        assert h in order;
        FewerStopped(d, CutModules(d, order), {}, h);
      }
    }
  }

  lemma CutIsListed(d: Search, order: seq<Handle>, i: nat)
    requires i < |order|
    ensures Cuts(d, order, i) ==> order[i] in CutModules(d, order)
  {
  }

  lemma NotCutting(d: Search, i: nat)
    requires NoCut(d) && i < |Discover(d).order|
    ensures !Cuts(d, Discover(d).order, i)
  {
    CutIsListed(d, Discover(d).order, i);
  }

  /** Without a cut-off the map stays below 166 entries or does not change. */
  lemma {:induction false} UncutStaysSmall(d: Search, i: nat)
    requires NoCut(d) && i <= |Discover(d).order|
    ensures var m := SymbolsAfter(d, Discover(d).order[..i]); |m| < ENOUGH_SYMBOLS || m == d.initial
  {
    if i > 0 {
      var order := Discover(d).order;
      UncutStaysSmall(d, i - 1);
      NotCutting(d, i - 1);
      assert order[..i][..i - 1] == order[..i - 1];
      var before, image := SymbolsAfter(d, order[..i - 1]), d.process.Image(order[i - 1]);
      MergeGrows(d.restricts, before, image.symbols);
    }
  }

  /** The cut-off fires in no module if and only if the names that reachable
      modules offer are fewer than 166, or are all bound from the start. Neither
      depends on the order of anything. */
  lemma NoCutCondition(d: Search)
    ensures NoCut(d) <==> |AllNames(d)| < 166 || AllNames(d) == d.initial.Keys
  {
    var order := Discover(d).order;
    if NoCut(d) {
      UncutStaysSmall(d, |order|);
      assert order[..|order|] == order;
      DiscoverRecords(d);
      FinalNames(d);
      assert Discover(d).symbols.Keys == AllNames(d) by {
        forall n
          ensures n in Discover(d).symbols <==> n in AllNames(d)
        {
          if OfferedByReachable(d, n) { assert n in d.restricts; }
        }
      }
    }
    if |AllNames(d)| < ENOUGH_SYMBOLS || AllNames(d) == d.initial.Keys {
      forall i | 0 <= i < |order|
        ensures !Cuts(d, order, i)
      {
        NamesSoFar(d, i + 1);
        FoldGrows(d, order, 0, i);
        assert order[..0] == [];
        SubsetSize(SymbolsAfter(d, order[..i + 1]).Keys, AllNames(d));
      }
    }
  }

  lemma SameAllNames(d: Search, e: Search)
    requires SameUpToOrder(d, e)
    ensures AllNames(d) <= AllNames(e)
  {
    forall n | n in AllNames(d) && n !in d.initial
      ensures n in AllNames(e)
    {
      var h :| Reachable(d, {}, h) && Offers(d, h, n);
      SameReachable(d, e, {}, {}, h);
      SameOffers(d, e, h, n);
    }
  }

  lemma NoCutDoesNotDependOnOrder(d: Search, e: Search)
    requires SameUpToOrder(d, e)
    ensures NoCut(d) <==> NoCut(e)
  {
    assert AllNames(d) == AllNames(e) by {
      SameAllNames(d, e);
      SameIsSymmetric(d, e);
      SameAllNames(e, d);
    }
    assert d.initial == e.initial;
    NoCutCondition(d);
    NoCutCondition(e);
  }

  // -------------------------------------- when nothing a cut-off skips is needed

  /** The module has a new name to add, and there are names enough to stop there. */
  ghost predicate CanCut(d: Search, h: Handle) {
    |AllNames(d)| >= 166 && exists n :: Offers(d, h, n) && n !in d.initial
  }

  ghost function Cuttable(d: Search): set<Handle> {
    set h | h in d.process.modules && CanCut(d, h)
  }

  /** Each new name is offered by a module that every search reaches: through modules
      that cannot cut off, or as a root. Cuts and orders are not mentioned. */
  ghost predicate Settled(d: Search) {
    forall n :: n in AllNames(d) && n !in d.initial ==>
      exists h :: Reachable(d, Cuttable(d), h) && Offers(d, h, n)
  }

  lemma CutsAreCuttable(d: Search)
    ensures CutModules(d, Discover(d).order) <= Cuttable(d)
  {
    var order := Discover(d).order;
    forall i | 0 <= i < |order| && Cuts(d, order, i)
      ensures order[i] in Cuttable(d)
    {
      NamesSoFar(d, i + 1);
      assert order[..i + 1][..i] == order[..i];
      CutIsCuttable(d, order[..i + 1]);
    }
  }

  lemma CutIsCuttable(d: Search, order: seq<Handle>)
    requires order != [] && CutsOff(SymbolsAfter(d, order[..|order| - 1]), SymbolsAfter(d, order))
    requires SymbolsAfter(d, order).Keys <= AllNames(d)
    ensures order[|order| - 1] in Cuttable(d)
  {
    SubsetSize(SymbolsAfter(d, order).Keys, AllNames(d));
    CutAddsAName(d, order);
  }

  lemma CutAddsAName(d: Search, order: seq<Handle>)
    requires order != [] && CutsOff(SymbolsAfter(d, order[..|order| - 1]), SymbolsAfter(d, order))
    ensures exists n :: Offers(d, order[|order| - 1], n) && n !in d.initial
  {
    var front, last := order[..|order| - 1], order[|order| - 1];
    var before, after := SymbolsAfter(d, front), SymbolsAfter(d, order);
    if forall n :: n in after ==> n in before {
      assert after.Keys <= before.Keys;
      SubsetSize(after.Keys, before.Keys);
    }
    var n :| n in after && n !in before;
    MergeDomain(d.restricts, before, d.process.Image(last).symbols);
    FoldKeeps(d, front, 0);
    assert Offers(d, last, n) && n !in d.initial;
  }

  /** Then every search finds all names that reachable modules offer. */
  lemma SettledFindsAll(d: Search)
    requires Settled(d)
    ensures Discover(d).symbols.Keys == AllNames(d)
  {
    var order := Discover(d).order;
    DiscoverRecords(d);
    assert order[..|order|] == order;
    NamesSoFar(d, |order|);
    CutsAreCuttable(d);
    VisitsExactlyTheReachable(d);
    FoldDomain(d, order);
    forall n | n in AllNames(d) && n !in d.initial
      ensures n in Discover(d).symbols
    {
      var h :| Reachable(d, Cuttable(d), h) && Offers(d, h, n);
      FewerStopped(d, Cuttable(d), CutModules(d, order), h);
    }
  }

  /** The snapshot lists every import of its modules that resolves, as the snapshot of
      a process does while the loader lock is held. */
  ghost predicate RootsClosed(d: Search) {
    forall h, x :: h in d.process.Roots() && h != d.process.appInst && Edge(d, h, x) ==> x in d.process.Roots()
  }

  /** Everything new is offered by the roots themselves. */
  ghost predicate RootsOfferAll(d: Search) {
    forall n :: n in AllNames(d) && n !in d.initial ==>
      exists h :: h in d.process.Roots() && h != d.process.appInst && Offers(d, h, n)
  }

  lemma RootIsReachable(d: Search, stopped: set<Handle>, h: Handle)
    requires h in d.process.Roots() && h != d.process.appInst
    ensures Reachable(d, stopped, h)
  {
    assert ImportPath(d, stopped, [h]);
  }

  lemma {:induction false} ClosedPathIsInRoots(d: Search, path: seq<Handle>)
    requires RootsClosed(d) && ImportPath(d, {}, path)
    ensures path[|path| - 1] in d.process.Roots() && path[|path| - 1] != d.process.appInst
    decreases |path|
  {
    var n := |path| - 1;
    if n > 0 {
      assert ImportPath(d, {}, path[..n]);
      ClosedPathIsInRoots(d, path[..n]);
      assert Edge(d, path[n - 1], path[n]);
    }
  }

  /** With a closed snapshot the search visits exactly its entries, cut-off or not. */
  lemma ClosedVisitsTheRoots(d: Search)
    requires RootsClosed(d)
    ensures forall h :: h in Discover(d).order <==> h in d.process.Roots() && h != d.process.appInst
  {
    var stopped := CutModules(d, Discover(d).order);
    VisitsExactlyTheReachable(d);
    forall h
      ensures Reachable(d, stopped, h) <==> h in d.process.Roots() && h != d.process.appInst
    {
      if Reachable(d, stopped, h) {
        FewerStopped(d, stopped, {}, h);
        var path :| ImportPath(d, {}, path) && path[|path| - 1] == h;
        ClosedPathIsInRoots(d, path);
      }
      if h in d.process.Roots() && h != d.process.appInst { RootIsReachable(d, stopped, h); }
    }
  }

  /** A silent cut-off, a closed snapshot, or roots that offer everything settle it. */
  lemma SettledWhen(d: Search)
    requires NoCut(d) || RootsClosed(d) || RootsOfferAll(d)
    ensures Settled(d)
  {
    if NoCut(d) { NoCutCondition(d); }
    forall n | n in AllNames(d) && n !in d.initial
      ensures exists h :: Reachable(d, Cuttable(d), h) && Offers(d, h, n)
    {
      var h :| Reachable(d, {}, h) && Offers(d, h, n);
      if NoCut(d) {
        assert Cuttable(d) == {};
      } else if RootsClosed(d) {
        var path :| ImportPath(d, {}, path) && path[|path| - 1] == h;
        ClosedPathIsInRoots(d, path);
        RootIsReachable(d, Cuttable(d), h);
      } else {
        var k :| k in d.process.Roots() && k != d.process.appInst && Offers(d, k, n);
        RootIsReachable(d, Cuttable(d), k);
      }
    }
  }

  // ------------------------------------------------------- order independence

  lemma SameNames(d: Search, e: Search)
    requires SameUpToOrder(d, e)
    ensures AllNames(d) == AllNames(e)
  {
    SameAllNames(d, e);
    SameIsSymmetric(d, e);
    SameAllNames(e, d);
  }

  lemma SameCuttable(d: Search, e: Search)
    requires SameUpToOrder(d, e)
    ensures Cuttable(e) <= Cuttable(d)
  {
    SameNames(d, e);
    forall h | h in Cuttable(e)
      ensures h in Cuttable(d)
    {
      var n :| Offers(e, h, n) && n !in e.initial;
      SameOffers(e, d, h, n);
    }
  }

  lemma SameSettled(d: Search, e: Search)
    requires SameUpToOrder(d, e) && Settled(d)
    ensures Settled(e)
  {
    SameNames(d, e);
    SameCuttable(d, e);
    forall n | n in AllNames(e) && n !in e.initial
      ensures exists h :: Reachable(e, Cuttable(e), h) && Offers(e, h, n)
    {
      var h :| Reachable(d, Cuttable(d), h) && Offers(d, h, n);
      SameReachable(d, e, Cuttable(d), Cuttable(e), h);
      SameOffers(d, e, h, n);
    }
  }

  /** No order of the snapshot, of the import lists or of the symbols changes which
      names are found. */
  lemma NamesDoNotDependOnOrder(d: Search, e: Search)
    requires SameUpToOrder(d, e) && Settled(d)
    ensures Discover(d).symbols.Keys == Discover(e).symbols.Keys == AllNames(d)
  {
    SameSettled(d, e);
    SameNames(d, e);
    SettledFindsAll(d);
    SettledFindsAll(e);
  }

  /** Nor which modules are visited, if nothing cuts off or the snapshot is closed. */
  lemma VisitsDoNotDependOnOrder(d: Search, e: Search)
    requires SameUpToOrder(d, e) && (NoCut(d) || RootsClosed(d))
    ensures Elements(Discover(d).order) == Elements(Discover(e).order)
  {
    if RootsClosed(d) {
      assert RootsClosed(e) by { SameClosed(d, e); }
      ClosedVisitsTheRoots(d);
      ClosedVisitsTheRoots(e);
    } else {
      NoCutDoesNotDependOnOrder(d, e);
      VisitsExactlyTheReachable(d);
      VisitsExactlyTheReachable(e);
      SameIsSymmetric(d, e);
      forall h
        ensures Reachable(d, {}, h) <==> Reachable(e, {}, h)
      {
        if Reachable(d, {}, h) { SameReachable(d, e, {}, {}, h); }
        if Reachable(e, {}, h) { SameReachable(e, d, {}, {}, h); }
      }
    }
  }

  lemma SameClosed(d: Search, e: Search)
    requires SameUpToOrder(d, e) && RootsClosed(d)
    ensures RootsClosed(e)
  {
    forall h, x | h in e.process.Roots() && h != e.process.appInst && Edge(e, h, x)
      ensures x in e.process.Roots()
    {
      assert Edge(d, h, x);
    }
  }

  /** `name` is offered by module `h` at `address`. */
  ghost predicate OffersAt(d: Search, h: Handle, name: string, address: Address) {
    && d.process.Image(h).symbolBase != 0 && name in d.restricts
    && exists info :: info in d.process.Image(h).symbols && info.name == name && ToAddress(info.address) == address
  }

  /** No two reachable modules offer a name at different addresses. */
  ghost predicate Unambiguous(d: Search) {
    forall h, k, name, a, b ::
      Reachable(d, {}, h) && OffersAt(d, h, name, a) && Reachable(d, {}, k) && OffersAt(d, k, name, b) ==> a == b
  }

  /** Each name the search added has the address some visited module offers. */
  lemma {:induction false} AddressIsOffered(d: Search, order: seq<Handle>, name: string)
    requires name in SymbolsAfter(d, order) && name !in d.initial
    ensures exists h :: h in order && OffersAt(d, h, name, SymbolsAfter(d, order)[name])
    decreases |order|
  {
    var front, last := order[..|order| - 1], order[|order| - 1];
    var before, infos := SymbolsAfter(d, front), d.process.Image(last).symbols;
    assert order == front + [last];
    MergeKeeps(d.restricts, before, infos);
    if name in before {
      AddressIsOffered(d, front, name);
      var h :| h in front && OffersAt(d, h, name, before[name]);
      assert h in order;
    } else {
      MergeDomain(d.restricts, before, infos);
      var k :| 0 <= k < |infos| && infos[k].name == name;
      var i := FirstExists(infos, k);
      MergeFirst(d.restricts, before, infos, i);
      assert infos[i] in infos;
      assert last in order && OffersAt(d, last, name, SymbolsAfter(d, order)[name]);
    }
  }

  lemma VisitedAddress(d: Search, name: string) returns (h: Handle)
    requires name in Discover(d).symbols && name !in d.initial
    ensures Reachable(d, {}, h) && OffersAt(d, h, name, Discover(d).symbols[name])
  {
    var order := Discover(d).order;
    DiscoverRecords(d);
    AddressIsOffered(d, order, name);
    h :| h in order && OffersAt(d, h, name, SymbolsAfter(d, order)[name]);
    VisitsExactlyTheReachable(d);
    FewerStopped(d, CutModules(d, order), {}, h);
  }

  /** With unambiguous addresses the whole map is independent of the order. */
  lemma MapDoesNotDependOnOrder(d: Search, e: Search)
    requires SameUpToOrder(d, e) && Settled(d) && Unambiguous(d)
    ensures Discover(d).symbols == Discover(e).symbols
  {
    NamesDoNotDependOnOrder(d, e);
    var m, w := Discover(d).symbols, Discover(e).symbols;
    forall n | n in m
      ensures m[n] == w[n]
    {
      if n in d.initial {
        DiscoverRecords(d);
        DiscoverRecords(e);
        FoldKeeps(d, Discover(d).order, 0);
        FoldKeeps(e, Discover(e).order, 0);
      } else {
        var h := VisitedAddress(d, n);
        var k := VisitedAddress(e, n);
        SameIsSymmetric(d, e);
        SameReachable(e, d, {}, {}, k);
        assert OffersAt(d, k, n, w[n]);
      }
    }
  }
}

/** The visiting order determines everything the walk did: the map is the
    first-wins fold over it, and each module's cut-off can be read off it. */
module WalkHistory {
  import opened Common
  import opened SymbolMerge
  import opened ImportWalk

  /** The pure left fold of the first-wins merges. */
  function SymbolsAfter(d: Search, order: seq<Handle>): Symbols
    decreases |order|
  {
    if order == [] then d.initial
    else Contribute(d, SymbolsAfter(d, order[..|order| - 1]), order[|order| - 1])
  }

  predicate Contributes(d: Search, order: seq<Handle>, i: nat)
    requires i < |order|
  {
    |SymbolsAfter(d, order[..i])| < |SymbolsAfter(d, order[..i + 1])|
  }

  predicate Cuts(d: Search, order: seq<Handle>, i: nat)
    requires i < |order|
  {
    CutsOff(SymbolsAfter(d, order[..i]), SymbolsAfter(d, order[..i + 1]))
  }

  /** The modules that added symbols, in visiting order. */
  function Contributors(d: Search, order: seq<Handle>): seq<Handle>
    decreases |order|
  {
    if order == [] then []
    else
      var n := |order| - 1;
      Contributors(d, order[..n]) + (if Contributes(d, order, n) then [order[n]] else [])
  }

  function KeyAfter(d: Search, contributors: seq<Handle>): KeyModule
    decreases |contributors|
  {
    if contributors == [] then d.initialKey
    else
      var n := |contributors| - 1;
      NextKey(d, KeyAfter(d, contributors[..n]), contributors[n])
  }

  ghost predicate Recorded(d: Search, st: WalkState) {
    && st.symbols == SymbolsAfter(d, st.order)
    && st.key == KeyAfter(d, Contributors(d, st.order))
    && NoDuplicates(st.order)
    && d.process.appInst !in st.order
  }

  lemma EnterRecords(d: Search, h: Handle, st: WalkState)
    requires Recorded(d, st) && h != d.process.appInst && h !in st.order
    ensures Recorded(d, Enter(d, h, st))
    ensures Cuts(d, st.order + [h], |st.order|) <==> CutsOff(st.symbols, Enter(d, h, st).symbols)
  {
    var order := st.order + [h];
    assert order[..|st.order|] == st.order && order[..|st.order| + 1] == order;
    NoDuplicatesSnoc(st.order, h);
    var before, after := Contributors(d, st.order), Contributors(d, order);
    assert after == before + (if Contributes(d, order, |st.order|) then [h] else []);
    if Contributes(d, order, |st.order|) {
      assert after[..|after| - 1] == before;
    } else {
      assert after == before;
    }
  }

  /** First-wins refinement: the map the walk updates in place is the fold over
      the visiting order, the key module follows it, and no module is enumerated
      twice. */
  lemma {:induction false} WalkRecords(d: Search, h: Handle, st: WalkState)
    requires Recorded(d, st)
    ensures Recorded(d, Walk(d, h, st))
    decreases Unvisited(d, st.order), 0, 1
  {
    if h != d.process.appInst && h !in st.order {
      var entered := Enter(d, h, st);
      EnterRecords(d, h, st);
      if !CutsOff(st.symbols, entered.symbols) {
        EnterShrinks(d, h, st);
        WalkAllRecords(d, d.process.Imports(h), entered);
      }
    }
  }

  lemma {:induction false} WalkAllRecords(d: Search, hs: seq<Handle>, st: WalkState)
    requires Recorded(d, st)
    ensures Recorded(d, WalkAll(d, hs, st))
    decreases Unvisited(d, st.order), |hs|, 0
  {
    if hs != [] {
      WalkRecords(d, hs[0], st);
      UnvisitedShrinks(d, st.order, Walk(d, hs[0], st).order);
      WalkAllRecords(d, hs[1..], Walk(d, hs[0], st));
    }
  }

  /** The termination argument: unvisited modules, then remaining imports. */
  lemma EnterShrinks(d: Search, h: Handle, st: WalkState)
    requires h !in st.order
    ensures Unvisited(d, st.order + [h]) <= Unvisited(d, st.order)
    ensures h in d.process.modules ==> Unvisited(d, st.order + [h]) < Unvisited(d, st.order)
    ensures h !in d.process.modules ==> Unvisited(d, st.order + [h]) == Unvisited(d, st.order) && d.process.Imports(h) == []
  {
    if h in d.process.modules {
      assert h in Unvisited(d, st.order) && h !in Unvisited(d, st.order + [h]);
    }
  }

  lemma UnvisitedShrinks(d: Search, order: seq<Handle>, longer: seq<Handle>)
    requires order <= longer
    ensures Unvisited(d, longer) <= Unvisited(d, order)
  {
  }

  lemma DiscoverRecords(d: Search)
    ensures Recorded(d, Discover(d))
  {
    WalkAllRecords(d, d.process.Roots(), Start(d));
  }

  /** History is not rewritten: a module's cut-off only depends on the prefix. */
  lemma CutsStable(d: Search, order: seq<Handle>, longer: seq<Handle>, i: nat)
    requires order <= longer && i < |order|
    ensures Cuts(d, order, i) == Cuts(d, longer, i)
    ensures Contributes(d, order, i) == Contributes(d, longer, i)
  {
    assert order[..i] == longer[..i] && order[..i + 1] == longer[..i + 1];
  }

  // ------------------------------------------------------------- the symbols

  /** Module `h` is loaded, has symbols, and one of them is `name`, which is wanted. */
  ghost predicate Offers(d: Search, h: Handle, name: string) {
    && h != NULL && h in d.process.modules && d.process.modules[h].symbolBase != 0
    && name in d.restricts && Names(d.process.modules[h].symbols, name)
  }

  /** A bound name keeps its address for the rest of the run. */
  lemma {:induction false} FoldKeeps(d: Search, order: seq<Handle>, k: nat)
    requires k <= |order|
    ensures forall n :: n in SymbolsAfter(d, order[..k]) ==>
      n in SymbolsAfter(d, order) && SymbolsAfter(d, order)[n] == SymbolsAfter(d, order[..k])[n]
    decreases |order|
  {
    if k == |order| {
      assert order[..k] == order;
    } else {
      var front, last := order[..|order| - 1], order[|order| - 1];
      FoldKeeps(d, front, k);
      assert front[..k] == order[..k];
      MergeKeeps(d.restricts, SymbolsAfter(d, front), d.process.Image(last).symbols);
    }
  }

  /** Which names are bound depends only on which modules were visited. */
  lemma {:induction false} FoldDomain(d: Search, order: seq<Handle>)
    ensures forall n :: n in SymbolsAfter(d, order) <==>
      n in d.initial || exists h :: h in order && Offers(d, h, n)
    decreases |order|
  {
    if order != [] {
      var front, last := order[..|order| - 1], order[|order| - 1];
      FoldDomain(d, front);
      assert order == front + [last];
      MergeDomain(d.restricts, SymbolsAfter(d, front), d.process.Image(last).symbols);
      forall n
        ensures n in SymbolsAfter(d, order) <==> n in SymbolsAfter(d, front) || Offers(d, last, n)
      {
      }
      forall n
        ensures (exists h :: h in order && Offers(d, h, n)) <==>
          Offers(d, last, n) || exists h :: h in front && Offers(d, h, n)
      {
        if Offers(d, last, n) { assert last in order; }
        if h :| h in front && Offers(d, h, n) { assert h in order; }
      }
    }
  }

  /** Each added name has the address of the earliest visited module that offers
      it, as that module reported it first; modulo 2^32. */
  lemma {:induction false} EarliestProviderWins(d: Search, order: seq<Handle>, i: nat, k: nat)
    requires i < |order| && order[i] != NULL && order[i] in d.process.modules
    requires var image := d.process.modules[order[i]];
      image.symbolBase != 0 && IsFirst(image.symbols, k) && image.symbols[k].name in d.restricts
    requires var name := d.process.modules[order[i]].symbols[k].name;
      name !in d.initial && forall j :: 0 <= j < i ==> !Offers(d, order[j], name)
    ensures var info := d.process.modules[order[i]].symbols[k];
      && info.name in SymbolsAfter(d, order)
      && (info.address < 0x1_0000_0000 ==> SymbolsAfter(d, order)[info.name] == info.address)
      && (info.address - SymbolsAfter(d, order)[info.name]) % 0x1_0000_0000 == 0
  {
    var infos := d.process.Image(order[i]).symbols;
    FoldDomain(d, order[..i]);
    MergeFirst(d.restricts, SymbolsAfter(d, order[..i]), infos, k);
    assert order[..i + 1][..i] == order[..i];
    FoldKeeps(d, order, i + 1);
  }

  lemma FoldGrows(d: Search, order: seq<Handle>, i: nat, j: nat)
    requires i <= j <= |order|
    ensures |SymbolsAfter(d, order[..i])| <= |SymbolsAfter(d, order[..j])|
  {
    FoldKeeps(d, order[..j], i);
    assert order[..j][..i] == order[..i];
    SubsetSize(SymbolsAfter(d, order[..i]).Keys, SymbolsAfter(d, order[..j]).Keys);
  }

  /** Once one module has cut off, every later contributor cuts off too. */
  lemma LaterContributorsCut(d: Search, order: seq<Handle>, i: nat, j: nat)
    requires i < j < |order| && Cuts(d, order, i) && Contributes(d, order, j)
    ensures Cuts(d, order, j)
  {
    FoldGrows(d, order, i + 1, j + 1);
  }

  /** Too few wanted names: the cut-off cannot fire. */
  lemma FewNamesNeverCut(d: Search, order: seq<Handle>, i: nat)
    requires |d.initial.Keys + d.restricts| < 166 && i < |order|
    ensures !Cuts(d, order, i)
  {
    FoldDomain(d, order[..i + 1]);
    SubsetSize(SymbolsAfter(d, order[..i + 1]).Keys, d.initial.Keys + d.restricts);
  }

  // ---------------------------------------------------------- the key module

  lemma {:induction false} ContributorsAreLoaded(d: Search, order: seq<Handle>)
    ensures forall h :: h in Contributors(d, order) ==> h in order && h != NULL && h in d.process.modules
    decreases |order|
  {
    if order != [] {
      var n := |order| - 1;
      ContributorsAreLoaded(d, order[..n]);
      assert order[..n + 1] == order;
      assert order == order[..n] + [order[n]];
    }
  }

  /** The last contributor other than the application module. */
  predicate IsLastForeign(d: Search, contributors: seq<Handle>, i: int) {
    && 0 <= i < |contributors| && contributors[i] != d.process.appModule
    && forall j :: i < j < |contributors| ==> contributors[j] == d.process.appModule
  }

  /** With a contributor other than the application module, the last such is the
      key module. */
  lemma {:induction false} KeyIsLastForeignContributor(d: Search, contributors: seq<Handle>, i: nat)
    requires NULL !in contributors && IsLastForeign(d, contributors, i)
    ensures KeyAfter(d, contributors) == KeyModule(contributors[i], d.process.Image(contributors[i]).baseName)
    decreases |contributors|
  {
    var n := |contributors| - 1;
    if i < n {
      KeyIsLastForeignContributor(d, contributors[..n], i);
    }
  }

  /** Without one, the key module is the application module, with its name, if that
      contributed and nothing was set before; otherwise it stays what it was. */
  lemma {:induction false} KeyWithoutForeignContributor(d: Search, contributors: seq<Handle>)
    requires NULL !in contributors
    requires forall h :: h in contributors ==> h == d.process.appModule
    ensures KeyAfter(d, contributors) ==
      if d.initialKey.handle == NULL && contributors != []
      then KeyModule(d.process.appModule, d.process.Image(d.process.appModule).baseName)
      else d.initialKey
    decreases |contributors|
  {
    if contributors != [] {
      var n := |contributors| - 1;
      assert contributors[n] in contributors;
      forall h | h in contributors[..n]
        ensures h in contributors
      {
      }
      KeyWithoutForeignContributor(d, contributors[..n]);
    }
  }

  /** The key module of a whole search. */
  lemma KeyModuleOfSearch(d: Search)
    ensures var contributors := Contributors(d, Discover(d).order);
      forall i :: IsLastForeign(d, contributors, i) ==>
        && contributors[i] in d.process.modules
        && Discover(d).key == KeyModule(contributors[i], d.process.modules[contributors[i]].baseName)
    ensures var contributors := Contributors(d, Discover(d).order);
      (forall h :: h in contributors ==> h == d.process.appModule) ==>
        if d.initialKey.handle != NULL || contributors == [] then Discover(d).key == d.initialKey
        else
          && d.process.appModule in d.process.modules
          && Discover(d).key == KeyModule(d.process.appModule, d.process.modules[d.process.appModule].baseName)
  {
    var contributors := Contributors(d, Discover(d).order);
    DiscoverRecords(d);
    ContributorsAreLoaded(d, Discover(d).order);
    forall i: nat | IsLastForeign(d, contributors, i)
      ensures contributors[i] in d.process.modules
      ensures Discover(d).key == KeyModule(contributors[i], d.process.modules[contributors[i]].baseName)
    {
      assert contributors[i] in contributors;
      KeyIsLastForeignContributor(d, contributors, i);
    }
    if forall h :: h in contributors ==> h == d.process.appModule {
      KeyWithoutForeignContributor(d, contributors);
      if contributors != [] { assert contributors[0] in contributors; }
    }
  }
}

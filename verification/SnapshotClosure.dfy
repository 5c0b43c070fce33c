/** When the order of the snapshot can matter at all: exactly when the snapshot leaves
    out a module that one of its own modules imports. */
module SnapshotClosure {
  import opened Common
  import opened SymbolMerge
  import opened ImportWalk
  import opened WalkHistory
  import opened WalkReach
  import opened WalkPreorder
  import opened WalkOrder

  /** The same import graph and snapshot entries; what the modules offer, the wanted
      names and the initial map may differ. */
  ghost predicate SameGraph(d: Search, e: Search) {
    && e.process.appInst == d.process.appInst
    && multiset(e.process.Roots()) == multiset(d.process.Roots())
    && forall h :: e.process.Imports(h) == d.process.Imports(h)
  }

  /** The search with its snapshot in another order. */
  function Reordered(d: Search, roots: seq<Handle>): Search {
    d.(process := d.process.(snapshot := Some(roots)))
  }

  /** The names found change when the snapshot is reordered. */
  ghost predicate OrderMatters(d: Search, roots: seq<Handle>) {
    && multiset(roots) == multiset(d.process.Roots())
    && Discover(d).symbols.Keys != Discover(Reordered(d, roots)).symbols.Keys
  }

  // ------------------------------------------------------- a family of offers

  function Name(i: nat): string {
    "lua" + seq(i, _ => '_')
  }

  /** The name that only module `h` offers. */
  function Own(h: Handle): string {
    Name(166 + h)
  }

  function NamesBelow(n: nat): set<string> {
    set i | 0 <= i < n :: Name(i)
  }

  lemma NamesDiffer(i: nat, j: nat)
    requires i != j
    ensures Name(i) != Name(j)
  {
    assert |Name(i)| != |Name(j)|;
  }

  lemma {:induction false} NamesBelowSize(n: nat)
    ensures |NamesBelow(n)| == n
  {
    if n > 0 {
      NamesBelowSize(n - 1);
      forall i | 0 <= i < n - 1
        ensures Name(i) != Name(n - 1)
      {
        NamesDiffer(i, n - 1);
      }
      assert NamesBelow(n) == NamesBelow(n - 1) + {Name(n - 1)};
    }
  }

  /** Module `big` offers 166 names, every other one a name of its own. */
  function Offer(big: Handle, h: Handle): seq<SymbolInfo> {
    if h == big then seq(166, i requires 0 <= i < 166 => SymbolInfo(Name(i), i))
    else [SymbolInfo(Own(h), 0)]
  }

  /** The graph of `d` with these offers, and the snapshot in the given order. */
  function Offering(d: Search, big: Handle, loaded: set<Handle>, roots: seq<Handle>): Search {
    var modules := map h | h in loaded :: ModuleImage("", 1, Offer(big, h), d.process.Image(h).imports);
    var wanted := NamesBelow(166) + set h | h in loaded :: Own(h);
    Search(d.process.(modules := modules, snapshot := Some(roots)), wanted, map[], KeyModule(NULL, ""))
  }

  lemma {:induction false} SameResolve(p: Process, q: Process, names: seq<string>)
    requires p.byName == q.byName
    ensures p.Resolve(names) == q.Resolve(names)
    decreases |names|
  {
    if names != [] { SameResolve(p, q, names[1..]); }
  }

  lemma OfferingGraph(d: Search, big: Handle, loaded: set<Handle>, roots: seq<Handle>)
    requires d.process.modules.Keys <= loaded && multiset(roots) == multiset(d.process.Roots())
    ensures SameGraph(d, Offering(d, big, loaded, roots))
  {
    var p, q := d.process, Offering(d, big, loaded, roots).process;
    forall h
      ensures q.Imports(h) == p.Imports(h)
    {
      SameResolve(q, p, p.Image(h).imports);
    }
  }

  lemma BigOffers(big: Handle, name: string)
    ensures Names(Offer(big, big), name) <==> name in NamesBelow(166)
  {
    if name in NamesBelow(166) {
      var i :| 0 <= i < 166 && name == Name(i);
      assert Offer(big, big)[i].name == name;
    }
  }

  lemma SmallOffers(big: Handle, h: Handle, name: string)
    requires h != big
    ensures Names(Offer(big, h), name) <==> name == Own(h)
  {
    assert Offer(big, h)[0].name == Own(h);
  }

  /** What each module offers. */
  lemma Offered(d: Search, big: Handle, loaded: set<Handle>, roots: seq<Handle>, h: Handle, name: string)
    ensures Offers(Offering(d, big, loaded, roots), h, name) <==>
      && h != NULL && h in loaded
      && if h == big then name in NamesBelow(166) else name == Own(h)
  {
    if h == big { BigOffers(big, name); } else { SmallOffers(big, h, name); }
  }

  lemma OwnIsOffered(d: Search, big: Handle, loaded: set<Handle>, roots: seq<Handle>, h: Handle, k: Handle)
    requires h != NULL && h in loaded && h != big
    ensures Offers(Offering(d, big, loaded, roots), k, Own(h)) <==> k == h
  {
    Offered(d, big, loaded, roots, k, Own(h));
    if k != h { NamesDiffer(166 + k, 166 + h); }
    forall i | 0 <= i < 166
      ensures Name(i) != Own(h)
    {
      NamesDiffer(i, 166 + h);
    }
  }

  /** A module's own name is found if and only if the module is visited. */
  lemma OwnIsFound(d: Search, big: Handle, loaded: set<Handle>, roots: seq<Handle>, order: seq<Handle>, h: Handle)
    requires h != NULL && h in loaded && h != big
    ensures Own(h) in SymbolsAfter(Offering(d, big, loaded, roots), order) <==> h in order
  {
    var e := Offering(d, big, loaded, roots);
    FoldDomain(e, order);
    forall k
      ensures Offers(e, k, Own(h)) <==> k == h
    {
      OwnIsOffered(d, big, loaded, roots, h, k);
    }
  }

  // -------------------------------------------------------- which module is first

  lemma FirstVisit(d: Search, h: Handle)
    requires d.process.Roots() != [] && d.process.Roots()[0] == h != d.process.appInst
    ensures Discover(d).order != [] && Discover(d).order[0] == h
  {
    var order := Discover(d).order;
    DepthFirstOrder(d, order);
    assert Resume(d, [], 0, 0, d.process.Roots()) == Some(h);
    assert order[..0] == [];
  }

  lemma BigIsFull(d: Search, big: Handle, loaded: set<Handle>, roots: seq<Handle>)
    requires big != NULL && big in loaded
    ensures var e := Offering(d, big, loaded, roots);
      SymbolsAfter(e, []) == map[] && |SymbolsAfter(e, [big])| == 166
  {
    var e := Offering(d, big, loaded, roots);
    FoldDomain(e, [big]);
    forall n
      ensures n in SymbolsAfter(e, [big]) <==> n in NamesBelow(166)
    {
      Offered(d, big, loaded, roots, big, n);
      if Offers(e, big, n) { assert big in [big]; }
    }
    assert SymbolsAfter(e, [big]).Keys == NamesBelow(166);
    NamesBelowSize(166);
  }

  lemma NewNameContributes(d: Search, order: seq<Handle>, i: nat, name: string)
    requires i < |order| && name !in SymbolsAfter(d, order[..i]) && name in SymbolsAfter(d, order[..i + 1])
    ensures Contributes(d, order, i)
  {
    var before, after := SymbolsAfter(d, order[..i]), SymbolsAfter(d, order[..i + 1]);
    FoldKeeps(d, order[..i + 1], i);
    assert order[..i + 1][..i] == order[..i];
    assert before.Keys <= after.Keys;
    SubsetSize(before.Keys, after.Keys);
    assert name in after.Keys && name !in before.Keys;
  }

  /** With the big module first every module that offers something cuts off. */
  lemma BigFirstCutsAll(d: Search, big: Handle, loaded: set<Handle>, roots: seq<Handle>, order: seq<Handle>, i: nat)
    requires big != NULL && big in loaded && NoDuplicates(order)
    requires i < |order| && order[0] == big && order[i] != NULL && order[i] in loaded
    ensures Cuts(Offering(d, big, loaded, roots), order, i)
  {
    var e := Offering(d, big, loaded, roots);
    BigIsFull(d, big, loaded, roots);
    assert order[..0] == [] && order[..1] == [big];
    assert Cuts(e, order, 0);
    if i > 0 {
      var h := order[i];
      OwnIsFound(d, big, loaded, roots, order[..i], h);
      OwnIsFound(d, big, loaded, roots, order[..i + 1], h);
      assert h in order[..i + 1];
      NewNameContributes(e, order, i, Own(h));
      LaterContributorsCut(e, order, 0, i);
    }
  }

  /** So only roots are visited. */
  lemma BigFirstVisitsRoots(d: Search, big: Handle, loaded: set<Handle>, roots: seq<Handle>, m: Handle)
    requires big != NULL && big in loaded && d.process.modules.Keys <= loaded
    requires roots != [] && roots[0] == big != d.process.appInst && m !in roots
    ensures m !in Discover(Offering(d, big, loaded, roots)).order
  {
    var e := Offering(d, big, loaded, roots);
    var order := Discover(e).order;
    FirstVisit(e, big);
    DiscoverRecords(e);
    WalkAllIsCaused(e, e.process.Roots(), Start(e));
    if i :| 0 <= i < |order| && order[i] == m {
      assert Caused(e, order, i, m);
      var j :| 0 <= j < i && !Cuts(e, order, j) && m in e.process.Imports(order[j]);
      BigFirstCutsAll(d, big, loaded, roots, order, j);
    }
  }

  /** With a small module first its imports are visited. */
  lemma SmallFirstVisitsImports(d: Search, big: Handle, loaded: set<Handle>, roots: seq<Handle>, r: Handle, m: Handle)
    requires r != big && r != d.process.appInst && m != d.process.appInst
    requires roots != [] && roots[0] == r && m in Offering(d, big, loaded, roots).process.Imports(r)
    ensures m in Discover(Offering(d, big, loaded, roots)).order
  {
    var e := Offering(d, big, loaded, roots);
    var order := Discover(e).order;
    FirstVisit(e, r);
    EveryVisitIsClosedOrCut(e);
    assert Closed(e, order, 0);
    SmallIsSmall(d, big, loaded, roots, r);
    assert order[..1] == [r];
  }

  lemma SmallIsSmall(d: Search, big: Handle, loaded: set<Handle>, roots: seq<Handle>, r: Handle)
    requires r != big
    ensures |SymbolsAfter(Offering(d, big, loaded, roots), [r])| <= 1
  {
    var e := Offering(d, big, loaded, roots);
    FoldDomain(e, [r]);
    forall n | n in SymbolsAfter(e, [r])
      ensures n in {Own(r)}
    {
      Offered(d, big, loaded, roots, r, n);
    }
    SubsetSize(SymbolsAfter(e, [r]).Keys, {Own(r)});
  }

  // ----------------------------------------------------------------- main result

  function ToFront(s: seq<Handle>, i: nat): (r: seq<Handle>)
    requires i < |s|
    ensures r != [] && r[0] == s[i] && multiset(r) == multiset(s)
  {
    assert s == s[..i] + [s[i]] + s[i + 1..];
    [s[i]] + s[..i] + s[i + 1..]
  }

  /** If root `r` imports `m` and `m` is not a root, some offers make the order matter. */
  lemma OpenSnapshotMatters(d: Search, big: Handle, r: Handle, m: Handle) returns (e: Search, roots: seq<Handle>)
    requires big in d.process.Roots() && r in d.process.Roots() && m !in d.process.Roots()
    requires big != r && big != NULL && big != d.process.appInst && r != d.process.appInst && Edge(d, r, m)
    ensures SameGraph(d, e) && OrderMatters(e, roots)
  {
    var listed := d.process.Roots();
    var i :| 0 <= i < |listed| && listed[i] == big;
    var j :| 0 <= j < |listed| && listed[j] == r;
    var loaded := d.process.modules.Keys + {big, m};
    e, roots := Offering(d, big, loaded, ToFront(listed, i)), ToFront(listed, j);
    OfferingGraph(d, big, loaded, ToFront(listed, i));
    OfferingGraph(d, big, loaded, roots);
    assert multiset(roots)[m] == multiset(ToFront(listed, i))[m] == multiset(listed)[m] == 0;
    assert m in Offering(d, big, loaded, roots).process.Imports(r);
    ImportsAreLoaded(d.process, d.process.Image(r).imports, m);
    BigFirstVisitsRoots(d, big, loaded, ToFront(listed, i), m);
    SmallFirstVisitsImports(d, big, loaded, roots, r, m);
    DiscoverRecords(e);
    DiscoverRecords(Reordered(e, roots));
    OwnIsFound(d, big, loaded, ToFront(listed, i), Discover(e).order, m);
    OwnIsFound(d, big, loaded, roots, Discover(Reordered(e, roots)).order, m);
  }

  lemma {:induction false} ImportsAreLoaded(p: Process, names: seq<string>, m: Handle)
    requires m in p.Resolve(names)
    ensures m != NULL
    decreases |names|
  {
    if m in p.Resolve(names[1..]) { ImportsAreLoaded(p, names[1..], m); }
  }

  lemma ReorderedIsSame(d: Search, roots: seq<Handle>)
    requires multiset(roots) == multiset(d.process.Roots())
    ensures SameUpToOrder(d, Reordered(d, roots))
  {
    var e := Reordered(d, roots);
    forall h
      ensures h in d.process.Roots() <==> h in e.process.Roots()
    {
      assert h in multiset(roots) <==> h in multiset(d.process.Roots());
    }
    forall h
      ensures d.process.Imports(h) == e.process.Imports(h)
    {
      SameResolve(d.process, e.process, d.process.Image(h).imports);
    }
  }

  lemma SameGraphClosed(d: Search, e: Search)
    requires SameGraph(d, e) && RootsClosed(d)
    ensures RootsClosed(e)
  {
    forall h
      ensures h in d.process.Roots() <==> h in e.process.Roots()
    {
      assert h in multiset(d.process.Roots()) <==> h in multiset(e.process.Roots());
    }
    forall h, x | h in e.process.Roots() && h != e.process.appInst && Edge(e, h, x)
      ensures x in e.process.Roots()
    {
      assert Edge(d, h, x);
    }
  }

  /** For a snapshot of at least two modules: whatever the modules offer, no order of the
      snapshot changes the names found, if and only if the snapshot is closed. */
  lemma ClosedIffOrderNeverMatters(d: Search, a: Handle, b: Handle)
    requires a in d.process.Roots() && b in d.process.Roots() && a != b
    requires NULL !in {a, b} && d.process.appInst !in {a, b}
    ensures RootsClosed(d) <==> forall e: Search, roots: seq<Handle> :: SameGraph(d, e) ==> !OrderMatters(e, roots)
  {
    if RootsClosed(d) {
      forall e: Search, roots: seq<Handle> | SameGraph(d, e) && multiset(roots) == multiset(e.process.Roots())
        ensures !OrderMatters(e, roots)
      {
        SameGraphClosed(d, e);
        SettledWhen(e);
        ReorderedIsSame(e, roots);
        NamesDoNotDependOnOrder(e, Reordered(e, roots));
      }
    } else {
      var r, m :| r in d.process.Roots() && r != d.process.appInst && Edge(d, r, m) && m !in d.process.Roots();
      var e, roots := OpenSnapshotMatters(d, if r == a then b else a, r, m);
    }
  }

  /** Modules 1 and 2 are listed; module 1 imports module 3, which is not. */
  function Incomplete(): Search {
    var modules: map<Handle, ModuleImage> := map[1 := ModuleImage("engine", 1, [], ["extra"])];
    Search(Process(modules, map["extra" := 3], Some([1, 2]), 0, 0), {}, map[], KeyModule(NULL, ""))
  }

  /** The smallest such process: if module 2 offers 166 names and the others one each,
      module 3 is found only when module 1 comes first. */
  lemma IncompleteSnapshotMatters()
    ensures !RootsClosed(Incomplete())
    ensures OrderMatters(Offering(Incomplete(), 2, {1, 2, 3}, [2, 1]), [1, 2])
  {
    var d, loaded := Incomplete(), {1, 2, 3};
    var e := Offering(d, 2, loaded, [2, 1]);
    assert d.process.Resolve(["extra"][1..]) == [];
    assert d.process.Imports(1) == [3];
    assert Edge(d, 1, 3);
    OfferingGraph(d, 2, loaded, [2, 1]);
    OfferingGraph(d, 2, loaded, [1, 2]);
    BigFirstVisitsRoots(d, 2, loaded, [2, 1], 3);
    SmallFirstVisitsImports(d, 2, loaded, [1, 2], 1, 3);
    DiscoverRecords(e);
    DiscoverRecords(Reordered(e, [1, 2]));
    OwnIsFound(d, 2, loaded, [2, 1], Discover(e).order, 3);
    OwnIsFound(d, 2, loaded, [1, 2], Discover(Reordered(e, [1, 2])).order, 3);
  }
}

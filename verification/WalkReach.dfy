/** Which modules the walk visits: exactly those reachable through modules that
    did not cut off. */
module WalkReach {
  import opened Common
  import opened ImportWalk
  import opened WalkHistory

  // ---------------------------------------------------------- reachability

  /** `to` is a resolved import of `from`, and not the debugger itself. */
  predicate Edge(d: Search, from: Handle, to: Handle) {
    to in d.process.Imports(from) && to != d.process.appInst
  }

  /** A chain of imports from a root that never leaves a module of `stopped`. */
  predicate ImportPath(d: Search, stopped: set<Handle>, path: seq<Handle>) {
    && path != []
    && path[0] in d.process.Roots() && path[0] != d.process.appInst
    && forall k :: 0 <= k < |path| - 1 ==> path[k] !in stopped && Edge(d, path[k], path[k + 1])
  }

  ghost predicate Reachable(d: Search, stopped: set<Handle>, h: Handle) {
    exists path :: ImportPath(d, stopped, path) && path[|path| - 1] == h
  }

  /** The modules that did not descend. */
  function CutModules(d: Search, order: seq<Handle>): set<Handle> {
    set i | 0 <= i < |order| && Cuts(d, order, i) :: order[i]
  }

  // --------------------------------------------------- finished modules are closed

  ghost predicate Covered(d: Search, order: seq<Handle>, hs: seq<Handle>) {
    forall h :: h in hs ==> h in order || h == d.process.appInst
  }

  ghost predicate Closed(d: Search, order: seq<Handle>, i: nat)
    requires i < |order|
  {
    Cuts(d, order, i) || Covered(d, order, d.process.Imports(order[i]))
  }

  ghost predicate ClosedFrom(d: Search, order: seq<Handle>, lo: nat) {
    forall i :: lo <= i < |order| ==> Closed(d, order, i)
  }

  lemma CoveredGrows(d: Search, order: seq<Handle>, longer: seq<Handle>, hs: seq<Handle>)
    requires order <= longer && Covered(d, order, hs)
    ensures Covered(d, longer, hs)
  {
    assert forall h :: h in order ==> h in longer;
  }

  lemma ClosedStable(d: Search, order: seq<Handle>, longer: seq<Handle>, i: nat)
    requires order <= longer && i < |order| && Closed(d, order, i)
    ensures Closed(d, longer, i)
  {
    CutsStable(d, order, longer, i);
    if !Cuts(d, order, i) {
      CoveredGrows(d, order, longer, d.process.Imports(order[i]));
    }
  }

  lemma ClosedJoins(d: Search, order: seq<Handle>, longer: seq<Handle>, lo: nat)
    requires order <= longer && ClosedFrom(d, order, lo) && ClosedFrom(d, longer, |order|)
    ensures ClosedFrom(d, longer, lo)
  {
    forall i | lo <= i < |order|
      ensures Closed(d, longer, i)
    {
      ClosedStable(d, order, longer, i);
    }
  }

  /** Every module the call finished is closed; modules still being processed by
      callers (the positions before `|st.order|`) need not be. */
  lemma {:induction false} WalkCloses(d: Search, h: Handle, st: WalkState)
    requires Recorded(d, st)
    ensures ClosedFrom(d, Walk(d, h, st).order, |st.order|)
    ensures h in Walk(d, h, st).order || h == d.process.appInst
    decreases Unvisited(d, st.order), 0, 1
  {
    if h != d.process.appInst && h !in st.order {
      var entered := Enter(d, h, st);
      EnterRecords(d, h, st);
      if !CutsOff(st.symbols, entered.symbols) {
        EnterShrinks(d, h, st);
        WalkAllCloses(d, d.process.Imports(h), entered);
      }
      EnteredCloses(d, h, st.order, Walk(d, h, st).order);
    }
  }

  /** The module just entered is closed once its imports are, or if it cut off. */
  lemma EnteredCloses(d: Search, h: Handle, before: seq<Handle>, order: seq<Handle>)
    requires before + [h] <= order && ClosedFrom(d, order, |before| + 1)
    requires Cuts(d, before + [h], |before|) || Covered(d, order, d.process.Imports(h))
    ensures ClosedFrom(d, order, |before|) && h in order
  {
    CutsStable(d, before + [h], order, |before|);
    assert order[|before|] == (before + [h])[|before|] == h;
    assert Closed(d, order, |before|);
  }

  lemma {:induction false} WalkAllCloses(d: Search, hs: seq<Handle>, st: WalkState)
    requires Recorded(d, st)
    ensures ClosedFrom(d, WalkAll(d, hs, st).order, |st.order|)
    ensures Covered(d, WalkAll(d, hs, st).order, hs)
    decreases Unvisited(d, st.order), |hs|, 0
  {
    if hs != [] {
      var first := Walk(d, hs[0], st);
      var last := WalkAll(d, hs[1..], first);
      WalkCloses(d, hs[0], st);
      WalkRecords(d, hs[0], st);
      UnvisitedShrinks(d, st.order, first.order);
      WalkAllCloses(d, hs[1..], first);
      ClosedJoins(d, first.order, last.order, |st.order|);
      CoveredGrows(d, first.order, last.order, [hs[0]]);
      CoveredCons(d, last.order, hs);
    }
  }

  lemma CoveredCons(d: Search, order: seq<Handle>, hs: seq<Handle>)
    requires hs != [] && Covered(d, order, [hs[0]]) && Covered(d, order, hs[1..])
    ensures Covered(d, order, hs)
  {
    assert hs[0] in [hs[0]];
    assert hs == [hs[0]] + hs[1..];
  }

  // ------------------------------------------------ every visit has a reason

  /** A root, or imported by an earlier module that did not cut off. */
  ghost predicate Caused(d: Search, order: seq<Handle>, i: nat, h: Handle)
    requires i <= |order|
  {
    h in d.process.Roots() ||
    exists j :: 0 <= j < i && !Cuts(d, order, j) && h in d.process.Imports(order[j])
  }

  ghost predicate AllCaused(d: Search, order: seq<Handle>) {
    forall i :: 0 <= i < |order| ==> Caused(d, order, i, order[i])
  }

  lemma CausedStable(d: Search, order: seq<Handle>, longer: seq<Handle>, i: nat, h: Handle)
    requires order <= longer && i <= |order| && Caused(d, order, i, h)
    ensures Caused(d, longer, i, h)
  {
    if h !in d.process.Roots() {
      var j :| 0 <= j < i && !Cuts(d, order, j) && h in d.process.Imports(order[j]);
      CutsStable(d, order, longer, j);
      assert !Cuts(d, longer, j) && h in d.process.Imports(longer[j]);
    }
  }

  lemma {:induction false} WalkIsCaused(d: Search, h: Handle, st: WalkState)
    requires Recorded(d, st) && AllCaused(d, st.order) && Caused(d, st.order, |st.order|, h)
    ensures AllCaused(d, Walk(d, h, st).order)
    decreases Unvisited(d, st.order), 0, 1
  {
    if h != d.process.appInst && h !in st.order {
      var entered := Enter(d, h, st);
      EnterRecords(d, h, st);
      EnterShrinks(d, h, st);
      forall i | 0 <= i < |entered.order|
        ensures Caused(d, entered.order, i, entered.order[i])
      {
        if i < |st.order| { assert Caused(d, st.order, i, st.order[i]); }
        CausedStable(d, st.order, entered.order, i, entered.order[i]);
      }
      if !CutsOff(st.symbols, entered.symbols) {
        forall x | x in d.process.Imports(h)
          ensures Caused(d, entered.order, |entered.order|, x)
        {
          assert !Cuts(d, entered.order, |st.order|);
        }
        WalkAllIsCaused(d, d.process.Imports(h), entered);
      }
    }
  }

  lemma {:induction false} WalkAllIsCaused(d: Search, hs: seq<Handle>, st: WalkState)
    requires Recorded(d, st) && AllCaused(d, st.order)
    requires forall h :: h in hs ==> Caused(d, st.order, |st.order|, h)
    ensures AllCaused(d, WalkAll(d, hs, st).order)
    decreases Unvisited(d, st.order), |hs|, 0
  {
    if hs != [] {
      var first := Walk(d, hs[0], st);
      assert hs[0] in hs;
      WalkIsCaused(d, hs[0], st);
      WalkRecords(d, hs[0], st);
      UnvisitedShrinks(d, st.order, first.order);
      forall h | h in hs[1..]
        ensures Caused(d, first.order, |first.order|, h)
      {
        assert h in hs;
        CausedStable(d, st.order, first.order, |st.order|, h);
      }
      WalkAllIsCaused(d, hs[1..], first);
    }
  }

  lemma PathExtends(d: Search, stopped: set<Handle>, from: Handle, to: Handle)
    requires Reachable(d, stopped, from) && from !in stopped && Edge(d, from, to)
    ensures Reachable(d, stopped, to)
  {
    var path :| ImportPath(d, stopped, path) && path[|path| - 1] == from;
    var longer := path + [to];
    assert forall k :: 0 <= k < |path| - 1 ==> path[k] !in stopped && Edge(d, path[k], path[k + 1]);
    assert ImportPath(d, stopped, longer) && longer[|longer| - 1] == to;
  }

  lemma UncutNotStopped(d: Search, order: seq<Handle>, j: nat)
    requires NoDuplicates(order) && j < |order| && !Cuts(d, order, j)
    ensures order[j] !in CutModules(d, order)
  {
  }

  lemma {:induction false} CausedIsReachable(d: Search, order: seq<Handle>, i: nat)
    requires i < |order| && AllCaused(d, order) && NoDuplicates(order) && d.process.appInst !in order
    ensures Reachable(d, CutModules(d, order), order[i])
    decreases i
  {
    assert Caused(d, order, i, order[i]);
    if order[i] in d.process.Roots() {
      assert ImportPath(d, CutModules(d, order), [order[i]]);
    } else {
      var j :| 0 <= j < i && !Cuts(d, order, j) && order[i] in d.process.Imports(order[j]);
      CausedIsReachable(d, order, j);
      UncutNotStopped(d, order, j);
      PathExtends(d, CutModules(d, order), order[j], order[i]);
    }
  }

  lemma {:induction false} PathIsVisited(d: Search, order: seq<Handle>, path: seq<Handle>)
    requires ClosedFrom(d, order, 0) && Covered(d, order, d.process.Roots())
    requires ImportPath(d, CutModules(d, order), path)
    ensures path[|path| - 1] in order
    decreases |path|
  {
    var n := |path| - 1;
    if n > 0 {
      var front := path[..n];
      assert ImportPath(d, CutModules(d, order), front);
      PathIsVisited(d, order, front);
      assert path[n - 1] !in CutModules(d, order) && Edge(d, path[n - 1], path[n]);
      var i :| 0 <= i < |order| && order[i] == path[n - 1];
      assert Closed(d, order, i);
    }
  }

  // --------------------------------------------------------------- main results

  /** In every run each visited module has all its imports visited, or it
      contributed and left the map at 166 entries or more. */
  lemma EveryVisitIsClosedOrCut(d: Search)
    ensures ClosedFrom(d, Discover(d).order, 0)
    ensures Covered(d, Discover(d).order, d.process.Roots())
  {
    WalkAllCloses(d, d.process.Roots(), Start(d));
  }

  /** For every finite graph, cyclic or not, the visited modules are exactly those
      reachable from the roots through modules that did not cut off. */
  lemma VisitsExactlyTheReachable(d: Search)
    ensures forall h :: h in Discover(d).order <==> Reachable(d, CutModules(d, Discover(d).order), h)
  {
    var order := Discover(d).order;
    var stopped := CutModules(d, order);
    DiscoverRecords(d);
    EveryVisitIsClosedOrCut(d);
    WalkAllIsCaused(d, d.process.Roots(), Start(d));
    forall h
      ensures h in order <==> Reachable(d, stopped, h)
    {
      if h in order {
        var i :| 0 <= i < |order| && order[i] == h;
        CausedIsReachable(d, order, i);
      }
      if Reachable(d, stopped, h) {
        var path :| ImportPath(d, stopped, path) && path[|path| - 1] == h;
        PathIsVisited(d, order, path);
      }
    }
  }

  /** With fewer than 166 names to find, that is plain reachability. */
  lemma FewNamesVisitAll(d: Search)
    requires |d.initial.Keys + d.restricts| < 166
    ensures CutModules(d, Discover(d).order) == {}
    ensures forall h :: h in Discover(d).order <==> Reachable(d, {}, h)
  {
    var order := Discover(d).order;
    forall i | 0 <= i < |order|
      ensures !Cuts(d, order, i)
    {
      FewNamesNeverCut(d, order, i);
    }
    assert CutModules(d, order) == {};
    VisitsExactlyTheReachable(d);
  }

  // ------------------------------------------------------------------- the cost

  /** Resolved imports of the first `n` visited modules, without those that cut. */
  function Followed(d: Search, order: seq<Handle>, n: nat): nat
    requires n <= |order|
  {
    if n == 0 then 0
    else Followed(d, order, n - 1) + if Cuts(d, order, n - 1) then 0 else |d.process.Imports(order[n - 1])|
  }

  lemma {:induction false} FollowedStable(d: Search, order: seq<Handle>, longer: seq<Handle>, n: nat)
    requires order <= longer && n <= |order|
    ensures Followed(d, order, n) == Followed(d, longer, n)
  {
    if n > 0 {
      FollowedStable(d, order, longer, n - 1);
      CutsStable(d, order, longer, n - 1);
    }
  }

  lemma {:induction false} WalkCalls(d: Search, h: Handle, st: WalkState)
    requires Recorded(d, st)
    ensures var r := Walk(d, h, st);
      r.calls - Followed(d, r.order, |r.order|) == st.calls - Followed(d, st.order, |st.order|) + 1
    decreases Unvisited(d, st.order), 0, 1
  {
    if h != d.process.appInst && h !in st.order {
      var entered := Enter(d, h, st);
      EnterRecords(d, h, st);
      FollowedStable(d, st.order, entered.order, |st.order|);
      if !CutsOff(st.symbols, entered.symbols) {
        EnterShrinks(d, h, st);
        WalkAllCalls(d, d.process.Imports(h), entered);
      }
    }
  }

  lemma {:induction false} WalkAllCalls(d: Search, hs: seq<Handle>, st: WalkState)
    requires Recorded(d, st)
    ensures var r := WalkAll(d, hs, st);
      r.calls - Followed(d, r.order, |r.order|) == st.calls - Followed(d, st.order, |st.order|) + |hs|
    decreases Unvisited(d, st.order), |hs|, 0
  {
    if hs != [] {
      var first := Walk(d, hs[0], st);
      WalkCalls(d, hs[0], st);
      WalkRecords(d, hs[0], st);
      UnvisitedShrinks(d, st.order, first.order);
      WalkAllCalls(d, hs[1..], first);
    }
  }

  /** The walk is entered once per root and once per resolved import of each
      visited module that did not cut off; no module is enumerated twice. */
  lemma ExactNumberOfCalls(d: Search)
    ensures var r := Discover(d);
      r.calls == |d.process.Roots()| + Followed(d, r.order, |r.order|) && NoDuplicates(r.order)
  {
    WalkAllCalls(d, d.process.Roots(), Start(d));
    DiscoverRecords(d);
  }
}

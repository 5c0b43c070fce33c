/** The visiting order is the depth-first preorder, and the only one. */
module WalkPreorder {
  import opened Common
  import opened ImportWalk
  import opened WalkHistory

  /** The first of `hs` that would be entered. */
  function NextVisit(d: Search, hs: seq<Handle>, order: seq<Handle>): Option<Handle> {
    if hs == [] then None
    else if hs[0] != d.process.appInst && hs[0] !in order then Some(hs[0])
    else NextVisit(d, hs[1..], order)
  }

  /** Where a walk over `hs` that began at position `lo` goes on: at the first unvisited
      import of the latest module below `n` that did not cut off and still has one, or
      else at the first unvisited of `hs`. */
  function Resume(d: Search, order: seq<Handle>, n: nat, lo: nat, hs: seq<Handle>): Option<Handle>
    requires lo <= n <= |order|
    decreases n
  {
    if n == lo then NextVisit(d, hs, order)
    else
      var next := NextVisit(d, d.process.Imports(order[n - 1]), order);
      if !Cuts(d, order, n - 1) && next.Some? then next else Resume(d, order, n - 1, lo, hs)
  }

  /** Every module from `lo` on is the one where the walk goes on, and at the end there
      is none. */
  ghost predicate Preorder(d: Search, order: seq<Handle>, lo: nat, hs: seq<Handle>)
    requires lo <= |order|
  {
    && (forall i :: lo <= i < |order| ==> Resume(d, order[..i], i, lo, hs) == Some(order[i]))
    && Resume(d, order, |order|, lo, hs) == None
  }

  lemma NextOfOne(d: Search, h: Handle, order: seq<Handle>)
    ensures NextVisit(d, [h], order) == if h != d.process.appInst && h !in order then Some(h) else None
  {
    assert NextVisit(d, [h][1..], order) == None;
  }

  lemma {:induction false} NextVisitGrows(d: Search, hs: seq<Handle>, order: seq<Handle>, longer: seq<Handle>)
    requires order <= longer && NextVisit(d, hs, order) == None
    ensures NextVisit(d, hs, longer) == None
    decreases |hs|
  {
    if hs != [] {
      if hs[0] in order { assert hs[0] in longer; }
      NextVisitGrows(d, hs[1..], order, longer);
    }
  }

  // ------------------------------------------------------- entering one module

  /** Below a module that did not cut off, the walk over it is the walk over its imports. */
  lemma {:induction false} ResumeBelow(d: Search, order: seq<Handle>, n: nat, lo: nat, h: Handle)
    requires lo < n <= |order| && order[lo] == h && !Cuts(d, order, lo)
    ensures Resume(d, order, n, lo, [h]) == Resume(d, order, n, lo + 1, d.process.Imports(h))
    decreases n
  {
    if n == lo + 1 {
      assert Resume(d, order, lo, lo, [h]) == NextVisit(d, [h], order) == None;
    } else {
      ResumeBelow(d, order, n - 1, lo, h);
    }
  }

  lemma PreorderOfModule(d: Search, order: seq<Handle>, lo: nat, h: Handle)
    requires lo < |order| && order[lo] == h && h != d.process.appInst && h !in order[..lo]
    requires if Cuts(d, order, lo) then |order| == lo + 1 else Preorder(d, order, lo + 1, d.process.Imports(h))
    ensures Preorder(d, order, lo, [h])
  {
    forall i | lo <= i < |order|
      ensures Resume(d, order[..i], i, lo, [h]) == Some(order[i])
    {
      if i > lo {
        CutsStable(d, order[..i], order, lo);
        ResumeBelow(d, order[..i], i, lo, h);
      }
    }
    if Cuts(d, order, lo) {
      assert Resume(d, order, lo, lo, [h]) == NextVisit(d, [h], order) == None;
    } else {
      ResumeBelow(d, order, |order|, lo, h);
    }
  }

  // ------------------------------------------------------- one module, then the rest

  /** While the first of `hs` is being walked the rest does not matter. */
  lemma {:induction false} ResumeInFirst(d: Search, order: seq<Handle>, n: nat, lo: nat, hs: seq<Handle>)
    requires lo <= n <= |order| && hs != [] && Resume(d, order, n, lo, [hs[0]]).Some?
    ensures Resume(d, order, n, lo, hs) == Resume(d, order, n, lo, [hs[0]])
    decreases n
  {
    if n == lo {
      NextOfOne(d, hs[0], order);
    } else {
      var next := NextVisit(d, d.process.Imports(order[n - 1]), order);
      if Cuts(d, order, n - 1) || next.None? {
        ResumeInFirst(d, order, n - 1, lo, hs);
      }
    }
  }

  /** Once it is finished it is never returned to. */
  lemma {:induction false} ResumeAfterFirst(d: Search, order: seq<Handle>, longer: seq<Handle>, n: nat, lo: nat,
                                            hs: seq<Handle>)
    requires lo <= n <= |order| && order <= longer && hs != [] && Resume(d, order, n, lo, [hs[0]]) == None
    ensures Resume(d, longer, n, lo, hs) == NextVisit(d, hs[1..], longer)
    decreases n
  {
    if n == lo {
      NextVisitGrows(d, [hs[0]], order, longer);
    } else {
      CutsStable(d, order, longer, n - 1);
      if !Cuts(d, order, n - 1) {
        NextVisitGrows(d, d.process.Imports(order[n - 1]), order, longer);
      }
      ResumeAfterFirst(d, order, longer, n - 1, lo, hs);
    }
  }

  lemma {:induction false} ResumeInRest(d: Search, order: seq<Handle>, longer: seq<Handle>, n: nat, lo: nat,
                                        hs: seq<Handle>)
    requires lo <= |order| <= n <= |longer| && order <= longer && hs != []
    requires Resume(d, order, |order|, lo, [hs[0]]) == None
    ensures Resume(d, longer, n, lo, hs) == Resume(d, longer, n, |order|, hs[1..])
    decreases n
  {
    if n == |order| {
      ResumeAfterFirst(d, order, longer, n, lo, hs);
    } else {
      ResumeInRest(d, order, longer, n - 1, lo, hs);
    }
  }

  lemma PreorderJoins(d: Search, order: seq<Handle>, longer: seq<Handle>, lo: nat, hs: seq<Handle>)
    requires lo <= |order| && order <= longer && hs != []
    requires Preorder(d, order, lo, [hs[0]]) && Preorder(d, longer, |order|, hs[1..])
    ensures Preorder(d, longer, lo, hs)
  {
    forall i | lo <= i < |longer|
      ensures Resume(d, longer[..i], i, lo, hs) == Some(longer[i])
    {
      if i < |order| {
        assert longer[..i] == order[..i];
        ResumeInFirst(d, order[..i], i, lo, hs);
      } else {
        ResumeInRest(d, order, longer[..i], i, lo, hs);
      }
    }
    ResumeInRest(d, order, longer, |longer|, lo, hs);
  }

  // ------------------------------------------------------------------ the walk

  lemma {:induction false} WalkIsPreorder(d: Search, h: Handle, st: WalkState)
    requires Recorded(d, st)
    ensures Preorder(d, Walk(d, h, st).order, |st.order|, [h])
    decreases Unvisited(d, st.order), 0, 1
  {
    if h == d.process.appInst || h in st.order {
      NothingToVisit(d, st.order, h);
    } else {
      var entered := Enter(d, h, st);
      EnterRecords(d, h, st);
      EnteredIsListed(d, h, st);
      if !CutsOff(st.symbols, entered.symbols) {
        EnterShrinks(d, h, st);
        WalkAllIsPreorder(d, d.process.Imports(h), entered);
      }
      PreorderOfModule(d, Walk(d, h, st).order, |st.order|, h);
    }
  }

  lemma NothingToVisit(d: Search, order: seq<Handle>, h: Handle)
    requires h == d.process.appInst || h in order
    ensures Preorder(d, order, |order|, [h])
  {
    NextOfOne(d, h, order);
  }

  lemma EnteredIsListed(d: Search, h: Handle, st: WalkState)
    requires Recorded(d, st) && h != d.process.appInst && h !in st.order
    ensures var order := Walk(d, h, st).order;
      && |st.order| < |order| && order[|st.order|] == h && order[..|st.order|] == st.order
      && (Cuts(d, order, |st.order|) <==> CutsOff(st.symbols, Enter(d, h, st).symbols))
  {
    var entered, order := Enter(d, h, st).order, Walk(d, h, st).order;
    EnterRecords(d, h, st);
    assert entered == st.order + [h] && entered <= order;
    CutsStable(d, entered, order, |st.order|);
  }

  lemma {:induction false} WalkAllIsPreorder(d: Search, hs: seq<Handle>, st: WalkState)
    requires Recorded(d, st)
    ensures Preorder(d, WalkAll(d, hs, st).order, |st.order|, hs)
    decreases Unvisited(d, st.order), |hs|, 0
  {
    if hs != [] {
      var first := Walk(d, hs[0], st);
      WalkIsPreorder(d, hs[0], st);
      WalkRecords(d, hs[0], st);
      UnvisitedShrinks(d, st.order, first.order);
      WalkAllIsPreorder(d, hs[1..], first);
      PreorderJoins(d, first.order, WalkAll(d, hs[1..], first).order, |st.order|, hs);
    }
  }

  /** A sequence in which each element is determined by those before it, and so is
      the end. */
  ghost predicate Follows(s: seq<Handle>, next: seq<Handle> -> Option<Handle>) {
    (forall i :: 0 <= i < |s| ==> next(s[..i]) == Some(s[i])) && next(s) == None
  }

  lemma {:induction false} FollowsOnce(s: seq<Handle>, t: seq<Handle>, next: seq<Handle> -> Option<Handle>, n: nat)
    requires Follows(s, next) && Follows(t, next) && n <= |s| && n <= |t| && s[..n] == t[..n]
    ensures s == t
    decreases |s| - n
  {
    assert s[..|s|] == s && t[..|t|] == t;
    if n < |s| {
      assert next(s[..n]) == Some(s[n]);
      assert n < |t| && next(t[..n]) == Some(t[n]);
      assert s[..n + 1] == s[..n] + [s[n]] && t[..n + 1] == t[..n] + [t[n]];
      FollowsOnce(s, t, next, n + 1);
    } else if n < |t| {
      assert false;
    }
  }

  /** The visiting order of a search is the depth-first preorder over the roots and the
      imports of modules that did not cut off, and nothing else is. The roots are the
      snapshot's entries, or the application module without a snapshot. */
  lemma DepthFirstOrder(d: Search, order: seq<Handle>)
    ensures d.process.snapshot.Some? ==>
      (Preorder(d, order, 0, d.process.snapshot.value) <==> order == Discover(d).order)
    ensures d.process.snapshot.None? ==>
      (Preorder(d, order, 0, [d.process.appModule]) <==> order == Discover(d).order)
  {
    var found, roots := Discover(d).order, d.process.Roots();
    var next: seq<Handle> -> Option<Handle> := (s: seq<Handle>) => Resume(d, s, |s|, 0, roots);
    WalkAllIsPreorder(d, roots, Start(d));
    if Preorder(d, order, 0, roots) {
      assert Follows(order, next) && Follows(found, next);
      FollowsOnce(order, found, next, 0);
    }
  }
}

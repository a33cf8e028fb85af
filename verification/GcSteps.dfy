/** The steps of the incremental collector and the invariant that each of them keeps. */
module GcSteps {
  import opened GcHeap
  import opened GcMark
  import opened GcCycle
  import opened GcClear
  import opened GcSweep

  const GCSWEEPMAX: nat := 40

  // ----- one object of the root list ---------------------------------------------------

  lemma RemovedOwned(s: State, r: Ref)
    requires Owned(s, {r}) && Listed(s, r) && (IsThread(s, r) ==> s.heap[r].body.open == []) && r != s.main
    requires r != s.running
    ensures Owned(s.(heap := s.heap - {r}), {})
  {
    hide StringsOwned, UpvalsOwned, RootsOwned;
    var t := s.(heap := s.heap - {r});
    NoUpvalsOf(s, r);
    OwnedSlots(s);
    RemovedRoots(s, r);
    StringsSame(s, t);
    UpvalsSame(s, t);
    FixedSame(s, t);
  }

  lemma RemovedRoots(s: State, r: Ref)
    requires RootsOwned(s, {r})
    ensures RootsOwned(s.(heap := s.heap - {r}), {})
  {
    hide Distinct;
    var t := s.(heap := s.heap - {r});
    forall x ensures x in t.root <==> Listed(t, x) { assert x in s.root <==> Listed(s, x) && x !in {r}; }
  }

  lemma NoUpvalsOf(s: State, r: Ref)
    requires Owned(s, {r}) && (IsThread(s, r) ==> s.heap[r].body.open == [])
    ensures forall x :: IsOpen(s, x) ==> s.heap[x].body.thread != r
  {
    forall x | IsOpen(s, x) ensures s.heap[x].body.thread != r {
      assert IsThread(s, s.heap[x].body.thread);
      assert x in s.heap[s.heap[x].body.thread].body.open;
    }
  }

  lemma DeadIsNoRoot(s: State, t: State, r: Ref)
    requires Closed(s) && Reclaimed(s, t) && Dead(t, r)
    ensures r != t.main && r != t.running
  {
    ReclaimedAlive(s, t);
    assert Obj(s.main) in Roots(s) && Obj(s.running) in Roots(s);
  }

  /** Everything before the object being swept is still fresh after its upvalues were swept. */
  lemma PrefixFresh(s: State, t: State)
    requires SweptRoots(s) && s.sweep < |s.root| && Distinct(s.root) && Reclaimed(s, t)
    requires OtherLists(s, t, s.root[s.sweep])
    ensures forall i :: 0 <= i < s.sweep ==> RootFresh(t, s.root[i])
  {
    hide Reclaimed, OtherLists;
    forall i | 0 <= i < s.sweep ensures RootFresh(t, s.root[i]) {
      RootFreshKept(s, t, s.root[i], s.root[s.sweep]);
    }
  }

  lemma OthersSwept(s: State, r: Ref)
    requires Owned(s, {}) && Listed(s, r)
    ensures OtherLists(s, SweepUpvalsOf(s, r), r)
  {
    hide Owned;
    if s.heap[r].body.Thread? { SweepOpenOthers(s, r, 0); }
  }

  /** What one step of the sweep of the root list achieves. */
  ghost predicate Swept(s: State, t: State) {
    && Owned(t, {}) && Reclaimed(s, t) && SweptRoots(t)
    && t == s.(heap := t.heap, uvhead := t.uvhead, root := t.root, sweep := t.sweep)
  }

  /** A dead object is taken out of the list and freed. */
  function FreedRoot(s: State, k: nat): State
    requires Owned(s, {}) && k < |s.root| && s.root[k] in s.heap
  {
    Unlinked(s, k);
    var r, t := s.root[k], s.(root := RemoveAt(s.root, k));
    if s.heap[r].body.Thread? then FreeThread(t, r) else t.(heap := t.heap - {r})
  }

  lemma RootAt(s: State)
    requires Owned(s, {}) && s.sweep < |s.root|
    ensures Listed(s, s.root[s.sweep])
    ensures var s1 := SweepUpvalsOf(s, s.root[s.sweep]);
            && Owned(s1, {}) && s.root[s.sweep] in s1.heap && s1.root == s.root
            && SweepRootAt(s) == if !Dead(s1, s.root[s.sweep]) then Whiten(s1, s.root[s.sweep]).(sweep := s.sweep + 1)
                                 else FreedRoot(s1, s.sweep)
  {
    RootOf(s, s.sweep);
    SweepUpvalsOfReclaims(s, s.root[s.sweep]);
    hide Owned, Reclaimed, SweepUpvalsOf, AllFresh;
  }

  lemma SweepRootAtSweeps(s: State)
    requires Owned(s, {}) && SweptRoots(s) && s.sweep < |s.root| && Closed(s)
    ensures Swept(s, SweepRootAt(s)) && Unswept(SweepRootAt(s)) < Unswept(s)
  {
    var r := s.root[s.sweep];
    RootOf(s, s.sweep);
    SweepUpvalsOfReclaims(s, r);
    OthersSwept(s, r);
    var s1 := SweepUpvalsOf(s, r);
    assert Distinct(s.root);
    PrefixFresh(s, s1);
    assert SweepRootAt(s)
        == (if !Dead(s1, r) then Whiten(s1, r).(sweep := s.sweep + 1) else FreedRoot(s1, s.sweep)) by {
      RootAt(s);
    }
    hide Owned, SweepUpvalsOf, OtherLists, SweepRootAt, FreedRoot, Reclaimed, SweptRoots, RootFresh, Unswept, Swept,
         Closed;
    if !Dead(s1, r) {
      KeptSwept(s, s1, r);
    } else {
      DeadIsNoRoot(s, s1, r);
      Unlinked(s1, s.sweep);
      FreedSwept(s, s1, r);
    }
  }

  lemma KeptSwept(s: State, s1: State, r: Ref)
    requires Owned(s1, {}) && Reclaimed(s, s1) && s.sweep < |s.root| && r == s.root[s.sweep] && Alive(s1, r)
    requires s1 == s.(heap := s1.heap, uvhead := s1.uvhead) && |s1.uvhead| <= |s.uvhead|
    requires IsThread(s1, r) ==> AllFresh(s1, s1.heap[r].body.open)
    requires forall i :: 0 <= i < s.sweep ==> RootFresh(s1, s.root[i])
    ensures var t := Whiten(s1, r).(sweep := s.sweep + 1); Swept(s, t) && Unswept(t) < Unswept(s)
  {
    hide RootFresh, AllFresh, Owned, SweptRoots;
    var w := Whiten(s1, r);
    var t := w.(sweep := s.sweep + 1);
    OwnedUpvals(s1, {});
    hide UpvalsOwned;
    PaintOwned(s1, r, White(s1.white), {});
    RepaintedOwned(w, t, {});
    WhitenReclaims(s1, r);
    OneMoreSwept(s1, t, r);
    hide Reclaimed, Whiten;
    ReclaimedTrans(s, s1, w);
    SameScalars(s, w, t);
  }

  lemma OneMoreSwept(s: State, t: State, r: Ref)
    requires s.sweep < |s.root| && r == s.root[s.sweep] && r in s.heap && t == Whiten(s, r).(sweep := s.sweep + 1)
    requires IsThread(s, r) ==> AllFresh(s, s.heap[r].body.open)
    requires forall i :: 0 <= i < s.sweep ==> RootFresh(s, s.root[i])
    ensures SweptRoots(t)
  {
    hide RootFresh, AllFresh;
    forall i | 0 <= i < t.sweep ensures RootFresh(t, t.root[i]) {
      if i < s.sweep { FreshRepainted(s, t, s.root[i], r); } else { FreshSelf(s, t, r); }
    }
  }

  lemma FreshRepainted(s: State, t: State, x: Ref, r: Ref)
    requires RootFresh(s, x) && r in s.heap && t.white == s.white && t.heap == Whiten(s, r).heap
    ensures RootFresh(t, x)
  {
  }

  lemma FreshSelf(s: State, t: State, r: Ref)
    requires r in s.heap && t.white == s.white && t.heap == Whiten(s, r).heap
    requires IsThread(s, r) ==> AllFresh(s, s.heap[r].body.open)
    ensures RootFresh(t, r)
  {
  }

  lemma FreedSwept(s: State, s1: State, r: Ref)
    requires Owned(s1, {}) && Reclaimed(s, s1) && s.sweep < |s.root| && r == s.root[s.sweep] && Dead(s1, r)
    requires Listed(s1, r)
    requires s1 == s.(heap := s1.heap, uvhead := s1.uvhead) && |s1.uvhead| <= |s.uvhead|
    requires IsThread(s1, r) ==> AllFresh(s1, s1.heap[r].body.open)
    requires forall i :: 0 <= i < s.sweep ==> RootFresh(s1, s.root[i])
    requires r != s.main && r != s.running
    requires Owned(s1.(root := RemoveAt(s1.root, s.sweep)), {r})
    ensures var t := FreedRoot(s1, s.sweep); Swept(s, t) && Unswept(t) < Unswept(s)
  {
    hide Owned, UpvalsOwned, Reclaimed, RootFresh, AllFresh, SweptRoots, Dead, RemoveAt, OtherLists;
    var s2 := s1.(root := RemoveAt(s1.root, s.sweep));
    OwnedUpvals(s1, {});
    OwnedUpvals(s2, {r});
    SameScalars(s, s1, s2);
    UnlinkedSwept(s1);
    DeadSame(s1, s2, r);
    NotUpval(s1, r);
    var c := s2;
    if s1.heap[r].body.Thread? {
      SameFresh(s1, s2, s1.heap[r].body.open);
      CloseAllSwept(s2, r);
      c := Close(s2, r, 0, {r});
      DeadKept(s2, c, r);
    } else {
      ReclaimedRefl(s2);
    }
    RemovedAll(s, s2, c, r);
  }

  lemma RemovedAll(s: State, s2: State, c: State, r: Ref)
    requires Reclaimed(s, s2) && Owned(s2, {r}) && Reclaimed(s2, c) && Owned(c, {r}) && Dead(c, r) && SweptRoots(c)
    requires Listed(c, r) && (IsThread(c, r) ==> c.heap[r].body.open == []) && r != c.main && r != c.running
    requires c == s.(heap := c.heap, uvhead := c.uvhead, root := c.root, sweep := c.sweep)
    ensures Swept(s, c.(heap := c.heap - {r}))
  {
    hide Owned, UpvalsOwned, Reclaimed, SweptRoots, Dead;
    OwnedUpvals(s2, {r});
    OwnedUpvals(c, {r});
    ReclaimedTrans(s, s2, c);
    RemovedOwned(c, r);
    NotUpval(c, r);
    RemovedSwept(s, c, r);
  }

  lemma DeadKept(s: State, t: State, r: Ref)
    requires Reclaimed(s, t) && Dead(s, r) && r in t.heap
    ensures Dead(t, r)
  {
  }

  lemma UnlinkedSwept(s: State)
    requires s.sweep < |s.root| && forall i :: 0 <= i < s.sweep ==> RootFresh(s, s.root[i])
    ensures SweptRoots(s.(root := RemoveAt(s.root, s.sweep)))
    ensures |RemoveAt(s.root, s.sweep)| == |s.root| - 1
  {
    var t := s.(root := RemoveAt(s.root, s.sweep));
    forall i | 0 <= i < t.sweep ensures RootFresh(t, t.root[i]) { assert RootFresh(s, s.root[i]); }
  }

  lemma DeadSame(s: State, t: State, r: Ref)
    requires Dead(s, r) && t.heap == s.heap && t.white == s.white
    ensures Dead(t, r)
  {
  }

  lemma NotUpval(c: State, r: Ref)
    requires r in c.heap && !c.heap[r].body.OpenUpval?
    ensures forall x :: IsOpen(c, x) ==> x != r
  {
  }

  lemma RemovedSwept(s: State, c: State, r: Ref)
    requires Reclaimed(s, c) && SweptRoots(c) && UpvalsOwned(c) && Dead(c, r) && !c.heap[r].body.OpenUpval?
    requires forall x :: IsOpen(c, x) ==> x != r
    ensures Reclaimed(s, c.(heap := c.heap - {r})) && SweptRoots(c.(heap := c.heap - {r}))
  {
    var t := c.(heap := c.heap - {r});
    assert Reclaimed(c, t);
    ReclaimedTrans2(s, c, t);
    forall i | 0 <= i < t.sweep ensures RootFresh(t, t.root[i]) {
      assert RootFresh(c, c.root[i]);
    }
  }

  /** Composition when the second part keeps all bodies. */
  lemma ReclaimedTrans2(s: State, t: State, u: State)
    requires Reclaimed(s, t) && Reclaimed(t, u) && forall r :: r in u.heap ==> u.heap[r] == t.heap[r]
    ensures Reclaimed(s, u)
  {
  }

  /** Sweep at most 'n' objects of the root list. */
  function SweepList(s: State, n: nat): State
    requires Owned(s, {}) && SweptRoots(s) && Closed(s)
    decreases n
  {
    if n == 0 || s.sweep == |s.root| then s
    else
      SweepRootAtSweeps(s);
      ReclaimedClosed(s, SweepRootAt(s));
      SweepList(SweepRootAt(s), n - 1)
  }

  lemma {:induction false} SweepListSweeps(s: State, n: nat)
    requires Owned(s, {}) && SweptRoots(s) && Closed(s)
    ensures var t := SweepList(s, n);
            && Swept(s, t) && Unswept(t) <= Unswept(s)
            && (n > 0 && s.sweep < |s.root| ==> Unswept(t) < Unswept(s))
    decreases n
  {
    hide SweepRootAt, Closed, Unswept, Owned, Reclaimed, UpvalsOwned, RootFresh;
    if n == 0 || s.sweep == |s.root| {
      ReclaimedRefl(s);
    } else {
      SweepRootAtSweeps(s);
      var t := SweepRootAt(s);
      OwnedUpvals(s, {});
      OwnedUpvals(t, {});
      ReclaimedClosed(s, t);
      SweepListSweeps(t, n - 1);
      ReclaimedTrans(s, t, SweepList(t, n - 1));
    }
  }

  // ----- the invariant -----------------------------------------------------------------

  /** Threads and open upvalues are never black, in any phase. */
  ghost predicate NeverBlackKinds(s: State) {
    forall r :: r in s.heap && (s.heap[r].body.Thread? || s.heap[r].body.OpenUpval?) ==> s.heap[r].color != Black
  }

  ghost predicate StringsSwept(s: State, n: nat) {
    n <= |s.strt| && forall i :: 0 <= i < n ==> AllFresh(s, s.strt[i])
  }

  /** What holds in each phase. */
  ghost predicate PhaseInv(s: State) {
    match s.phase
    case Pause => AllWhite(s)
    case Propagate => MarkPhase(s)
    case SweepString => s.sweep == 0 && s.sweepstr < |s.strt| && StringsSwept(s, s.sweepstr)
    case Sweep => StringsSwept(s, |s.strt|) && SweptRoots(s)
    case Finalize => AllWhite(s)
  }

  ghost predicate Inv(s: State) {
    Owned(s, {}) && Closed(s) && NeverBlackKinds(s) && PhaseInv(s)
  }

  lemma InvParts(s: State)
    requires Inv(s)
    ensures Owned(s, {}) && Closed(s) && NeverBlackKinds(s) && PhaseInv(s) && UpvalsOwned(s)
    ensures s.phase == Pause || s.phase == Finalize ==> AllWhite(s)
  {
    hide MarkPhase, SweptRoots, StringsSwept, Closed, StringsOwned, RootsOwned;
  }

  // ----- collector steps ---------------------------------------------------------------

  function SweepStringStep(s: State): State
    requires Owned(s, {}) && s.sweepstr < |s.strt|
  {
    var t := SweepBucket(s, s.sweepstr, 0);
    t.(sweepstr := s.sweepstr + 1, phase := if s.sweepstr + 1 >= |s.strt| then Sweep else SweepString)
  }

  function SweepStep(s: State): State
    requires Owned(s, {}) && SweptRoots(s) && Closed(s)
  {
    var t := SweepList(s, GCSWEEPMAX);
    if t.sweep == |t.root| then t.(phase := Finalize) else t
  }

  function PropagateStep(s: State): State
    requires MarkPhase(s)
  {
    if s.gray != [] then PropagateMarkKeeps(s); PropagateMark(s) else Atomic(s)
  }

  function SingleStep(s: State): State
    requires Inv(s)
  {
    match s.phase
    case Pause => MarkRoot(s)
    case Propagate => PropagateStep(s)
    case SweepString => SweepStringStep(s)
    case Sweep => SweepStep(s)
    case Finalize => s.(phase := Pause)
  }

  lemma AdvanceOwned(s: State, t: State)
    requires Owned(s, {}) && Advance(s, t)
    ensures Owned(t, {})
  {
    hide Owned;
    RepaintedOwned(s, t, {});
  }

  lemma OwnedListed(s: State)
    requires Owned(s, {})
    ensures UpvalsListed(s) && FixedKinds(s) && |s.strt| > 0 && IsThread(s, s.main) && IsThread(s, s.running)
  {
    forall r | r in s.heap && s.heap[r].body.OpenUpval? ensures r in s.uvhead { assert IsOpen(s, r); }
  }

  lemma MarkingNeverBlack(s: State)
    requires Marking(s, {})
    ensures NeverBlackKinds(s)
  {
    hide Reached;
    forall r | r in s.heap && (s.heap[r].body.Thread? || s.heap[r].body.OpenUpval?) ensures s.heap[r].color != Black {
      assert Consistent(s, r);
    }
  }

  lemma AdvanceMarkPhase(s: State, t: State)
    requires NoneDead(s) && UpvalsListed(s) && FixedKinds(s) && Advance(s, t) && Marking(t, {})
    requires !IsWhite(t, t.main) && (t.registry.Obj? ==> !IsWhite(t, t.registry.r))
    ensures MarkPhase(t)
  {
    hide Marking;
    forall r | r in t.heap ensures t.heap[r].color != White(!t.white) { assert s.heap[r].color != White(!s.white); }
  }

  lemma MarkRootKeeps(s: State)
    requires Inv(s) && (s.phase == Pause || s.phase == Finalize)
    ensures Inv(MarkRoot(s)) && MarkRoot(s).phase == Propagate
  {
    hide Marking, MarkRoot, Owned, Closed;
    MarkRootStarts(s);
    var p, t := s.(phase := Propagate), MarkRoot(s);
    OwnedListed(s);
    RepaintedOwned(s, p, {});
    AdvanceOwned(p, t);
    SameClosed(s, p);
    AdvanceClosedState(p, t);
    AdvanceMarkPhase(p, t);
    MarkingNeverBlack(t);
  }

  lemma PropagateKeeps(s: State)
    requires Inv(s) && s.phase == Propagate && s.gray != []
    ensures Inv(PropagateStep(s)) && PropagateStep(s).phase == Propagate
  {
    hide Marking, PropagateMark, Traversed, Owned, Closed;
    PropagateMarkKeeps(s);
    var t := PropagateMark(s);
    AdvanceOwned(s, t);
    AdvanceClosedState(s, t);
    AdvanceMarkPhase(s, t);
    MarkingNeverBlack(t);
  }

  lemma CleanedOwned(s: State, t: State)
    requires Owned(s, {}) && Cleaned(s, t)
    ensures Owned(t, {})
  {
    hide StringsOwned, UpvalsOwned, RootsOwned, Lost;
    OwnedSlots(s);
    StringsSame(s, t);
    RootsSame(s, t, {});
    UpvalsSame(s, t);
    FixedSame(s, t);
  }

  lemma AtomicKeeps(s: State)
    requires Inv(s) && s.phase == Propagate && s.gray == []
    ensures Inv(PropagateStep(s)) && PropagateStep(s).phase == SweepString
  {
    hide Marking, AtomicMark, ClearAll, MarkingComplete, Owned, Closed, Cleaned, Advance;
    AtomicParts(s);
    var s1, s2, t := AtomicMark(s), AtomicCleared(s), Atomic(s);
    AdvanceOwned(s, s1);
    CleanedOwned(s1, s2);
    RepaintedOwned(s2, t, {});
    AtomicCloses(s);
    MarkingNeverBlack(s1);
    CleanedNeverBlack(s1, s2, t);
    OwnedListed(t);
    assert StringsSwept(t, 0);
  }

  lemma CleanedNeverBlack(s: State, t: State, u: State)
    requires Cleaned(s, t) && NeverBlackKinds(s) && u.heap == t.heap
    ensures NeverBlackKinds(u)
  {
    hide Lost;
  }

  lemma ReclaimedNeverBlack(s: State, t: State)
    requires Reclaimed(s, t) && NeverBlackKinds(s)
    ensures NeverBlackKinds(t)
  {
  }

  lemma SweepStringKeeps(s: State)
    requires Inv(s) && s.phase == SweepString
    ensures var t := SweepStringStep(s);
            && Inv(t) && Reclaimed(s, t) && t.sweepstr == s.sweepstr + 1 && |t.strt| == |s.strt|
            && t.phase == (if s.sweepstr + 1 >= |s.strt| then Sweep else SweepString)
            && t == s.(heap := t.heap, strt := t.strt, phase := t.phase, sweepstr := t.sweepstr)
  {
    hide Owned, Closed, SweepBucket, Reclaimed, AllFresh, NeverBlackKinds, SweptRoots, StringsSwept, MarkPhase,
         AllWhite, UpvalsOwned;
    var i := s.sweepstr;
    NoneFresh(s, s.strt[i]);
    SweepBucketReclaims(s, i, 0);
    var b := SweepBucket(s, i, 0);
    var t := SweepStringStep(s);
    OwnedUpvals(b, {});
    ReclaimedClosed(s, b);
    ReclaimedNeverBlack(s, b);
    RepaintedOwned(b, t, {});
    SameScalars(s, b, t);
    SameClosed(b, t);
    OneMoreBucket(s, b, t);
    if t.sweep == 0 { NoneSwept(t); }
    SameNeverBlack(b, t);
  }

  lemma NoneFresh(s: State, us: seq<Ref>)
    ensures AllFresh(s, us[..0])
  {
  }

  lemma OneMoreBucket(s: State, b: State, t: State)
    requires s.sweepstr < |s.strt| && StringsSwept(s, s.sweepstr) && Reclaimed(s, b) && |b.strt| == |s.strt|
    requires AllFresh(b, b.strt[s.sweepstr])
    requires forall j :: 0 <= j < |s.strt| && j != s.sweepstr ==> b.strt[j] == s.strt[j]
    requires t == b.(sweepstr := s.sweepstr + 1, phase := t.phase)
    ensures StringsSwept(t, s.sweepstr + 1)
  {
    hide Reclaimed, AllFresh;
    forall j | 0 <= j < s.sweepstr + 1 ensures AllFresh(t, t.strt[j]) {
      if j < s.sweepstr { FreshKept(s, b, s.strt[j]); }
      SameFresh(b, t, b.strt[j]);
    }
  }

  lemma SameNeverBlack(s: State, t: State)
    requires NeverBlackKinds(s) && t.heap == s.heap
    ensures NeverBlackKinds(t)
  {
  }

  lemma SameFresh(s: State, t: State, us: seq<Ref>)
    requires AllFresh(s, us) && t.heap == s.heap && t.white == s.white
    ensures AllFresh(t, us)
  {
  }

  lemma SameScalars(s: State, b: State, t: State)
    requires Reclaimed(s, b) && t.heap == b.heap && t.white == b.white
    requires t.main == b.main && t.running == b.running && t.registry == b.registry && t.mt == b.mt
    ensures Reclaimed(s, t)
  {
  }

  lemma SameClosed(s: State, t: State)
    requires Closed(s) && t.heap == s.heap && t.white == s.white && Roots(t) == Roots(s)
    ensures Closed(t)
  {
    hide Contents;
    assert forall r :: Alive(t, r) <==> Alive(s, r);
  }

  lemma SweepKeeps(s: State)
    requires Inv(s) && s.phase == Sweep
    ensures var t := SweepStep(s);
            && Inv(t) && Reclaimed(s, t) && (t.phase == Finalize || (t.phase == Sweep && Unswept(t) < Unswept(s)))
            && t == s.(heap := t.heap, uvhead := t.uvhead, root := t.root, sweep := t.sweep, phase := t.phase)
  {
    hide Owned, SweepList, Closed, Unswept, Reclaimed, AllFresh, RootFresh;
    SweepListSweeps(s, GCSWEEPMAX);
    var l, t := SweepList(s, GCSWEEPMAX), SweepStep(s);
    OwnedUpvals(l, {});
    hide UpvalsOwned;
    ReclaimedClosed(s, l);
    ReclaimedNeverBlack(s, l);
    RepaintedOwned(l, t, {});
    SameScalars(s, l, t);
    SameClosed(l, t);
    forall j | 0 <= j < |s.strt| ensures AllFresh(t, t.strt[j]) {
      FreshKept(s, l, s.strt[j]);
      SameFresh(l, t, l.strt[j]);
    }
    SameUnswept(l, t);
    if t.phase == Finalize {
      assert SweptRoots(t) by { SameRoots(l, t); }
      AllSwept(t);
    }
    if s.sweep == |s.root| { NothingLeft(s); } else { SameRoots(l, t); }
  }

  lemma NoneSwept(s: State)
    requires s.sweep == 0
    ensures SweptRoots(s)
  {
  }

  lemma SameRoots(s: State, t: State)
    requires SweptRoots(s) && t.heap == s.heap && t.white == s.white && t.root == s.root && t.sweep == s.sweep
    ensures SweptRoots(t)
  {
    forall i | 0 <= i < t.sweep ensures RootFresh(t, t.root[i]) { assert RootFresh(s, s.root[i]); }
  }

  lemma SameUnswept(s: State, t: State)
    requires t.root == s.root && t.sweep == s.sweep && t.uvhead == s.uvhead
    ensures Unswept(t) == Unswept(s)
  {
  }

  lemma NothingLeft(s: State)
    requires Owned(s, {}) && SweptRoots(s) && Closed(s) && s.sweep == |s.root|
    ensures SweepList(s, GCSWEEPMAX) == s
  {
  }

  /** When both lists have been swept, every object is of the current white: an open upvalue has
      been swept with its thread. */
  lemma AllSwept(s: State)
    requires Owned(s, {}) && StringsSwept(s, |s.strt|) && SweptRoots(s) && s.sweep == |s.root|
    ensures AllWhite(s)
  {
    forall r | r in s.heap ensures s.heap[r].color == White(s.white) {
      if s.heap[r].body.Str? {
        assert r in s.strt[s.heap[r].body.hash % |s.strt|];
      } else if s.heap[r].body.OpenUpval? {
        assert IsOpen(s, r);
        var th := s.heap[r].body.thread;
        assert IsThread(s, th) && r in s.heap[th].body.open;
        InRoot(s, th);
      } else {
        InRoot(s, r);
      }
    }
  }

  lemma InRoot(s: State, r: Ref)
    requires Owned(s, {}) && Listed(s, r) && SweptRoots(s) && s.sweep == |s.root|
    ensures RootFresh(s, r)
  {
    assert r in s.root;
  }

  /** Every step keeps the invariant, and frees no object that a root reaches. */
  lemma SingleStepKeeps(s: State)
    requires Inv(s)
    ensures Inv(SingleStep(s))
    ensures forall r :: r in s.heap && Reachable(s, r) ==> r in SingleStep(s).heap
  {
    var t := SingleStep(s);
    match s.phase {
      case Pause => MarkRootKeeps(s); KeepsKeysRoot(s);
      case Propagate =>
        if s.gray != [] {
          PropagateKeeps(s);
          KeepsKeysMark(s);
        } else {
          AtomicKeeps(s);
          KeepsKeysAtomic(s);
        }
      case SweepString => SweepStringKeeps(s); FreesOnlyDead(s, t);
      case Sweep => SweepKeeps(s); FreesOnlyDead(s, t);
      case Finalize =>
        RepaintedOwned(s, t, {});
        hide Owned, Closed, Reachable;
        SameClosed(s, t);
    }
  }

  lemma FreesOnlyDead(s: State, t: State)
    requires Closed(s) && Reclaimed(s, t)
    ensures forall r :: r in s.heap && Reachable(s, r) ==> r in t.heap
  {
    hide Closed, Reachable;
    forall r | r in s.heap && Reachable(s, r) ensures r in t.heap { ReachableAlive(s, r); }
  }

  lemma KeepsKeysRoot(s: State)
    requires AllWhite(s)
    ensures MarkRoot(s).heap.Keys == s.heap.Keys
  {
    hide Marking;
    MarkRootStarts(s);
  }

  lemma KeepsKeysMark(s: State)
    requires MarkPhase(s) && s.gray != []
    ensures PropagateStep(s).heap.Keys == s.heap.Keys
  {
    hide Marking;
    PropagateMarkKeeps(s);
  }

  lemma KeepsKeysAtomic(s: State)
    requires MarkPhase(s)
    ensures Atomic(s).heap.Keys == s.heap.Keys
  {
    hide Marking, AtomicMark, ClearAll, MarkingComplete;
    AtomicParts(s);
  }
}

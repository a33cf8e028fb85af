/** The full collection: it ends, and what is left is what was reachable. */
module GcFull {
  import opened GcHeap
  import opened GcMark
  import opened GcCycle
  import opened GcClear
  import opened GcSweep
  import opened GcSteps

  // ----- the loops ---------------------------------------------------------------------

  function Rank(p: Phase): nat {
    match p
    case Propagate => 4
    case SweepString => 3
    case Sweep => 2
    case Finalize => 1
    case Pause => 0
  }

  function WhitesLeft(s: State): set<Ref> {
    if s.phase == Propagate then Whites(s) else {}
  }

  function StepsLeft(s: State): int {
    match s.phase
    case Propagate => |s.gray|
    case SweepString => |s.strt| - s.sweepstr
    case Sweep => Unswept(s)
    case _ => 0
  }

  /** Each step brings the cycle closer to its end. */
  lemma StepAdvances(s: State)
    requires Inv(s) && s.phase != Pause
    ensures var t := SingleStep(s);
            && Inv(t) && StepsLeft(s) >= 0
            && (Rank(t.phase) < Rank(s.phase)
                || (t.phase == s.phase && WhitesLeft(t) <= WhitesLeft(s)
                    && (WhitesLeft(t) == WhitesLeft(s) ==> StepsLeft(t) < StepsLeft(s))))
  {
    match s.phase {
      case Propagate => if s.gray != [] { PropagateShrinks(s); } else { AtomicKeeps(s); }
      case SweepString => SweepStringKeeps(s);
      case Sweep => SweepKeeps(s);
      case Finalize => SingleStepKeeps(s);
    }
  }

  lemma PropagateShrinks(s: State)
    requires Inv(s) && s.phase == Propagate && s.gray != []
    ensures var t := PropagateStep(s);
            && Inv(t) && t.phase == Propagate && Whites(t) <= Whites(s)
            && (Whites(t) == Whites(s) ==> |t.gray| < |s.gray|)
  {
    hide Marking, PropagateMark, Traversed, Owned, Closed;
    PropagateKeeps(s);
    PropagateMarkKeeps(s);
    AdvanceWhites(s, PropagateMark(s));
  }

  /** Steps until the end of the sweep phases. */
  function FinishSweep(s: State): State
    requires Inv(s) && Rank(s.phase) in {1, 2, 3}
    decreases Rank(s.phase), WhitesLeft(s), StepsLeft(s)
  {
    if s.phase == Finalize then s
    else
      StepAdvances(s);
      SweepingStep(s);
      FinishSweep(SingleStep(s))
  }

  lemma SweepingStep(s: State)
    requires Inv(s) && Rank(s.phase) in {2, 3}
    ensures var t := SingleStep(s); Rank(t.phase) in {1, 2, 3} && Reclaimed(s, t) && UpvalsOwned(t)
  {
    hide Closed, StringsOwned, RootsOwned, UpvalsOwned;
    if s.phase == SweepString { SweepStringKeeps(s); } else { SweepKeeps(s); }
  }

  /** Steps until the end of the cycle. */
  function Collect(s: State): State
    requires Inv(s)
    decreases Rank(s.phase), WhitesLeft(s), StepsLeft(s)
  {
    if s.phase == Pause then s
    else
      StepAdvances(s);
      Collect(SingleStep(s))
  }

  /** Forget the marks: everything is swept again. */
  function ResetSweep(s: State): State {
    s.(sweepstr := 0, sweep := 0, gray := [], grayagain := [], weak := [], phase := SweepString)
  }

  function StartSweep(s: State): State {
    if s.phase == Pause || s.phase == Propagate then ResetSweep(s) else s
  }

  lemma StartSweepKeeps(s: State)
    requires Inv(s)
    ensures Inv(StartSweep(s)) && Rank(StartSweep(s).phase) in {1, 2, 3} && Reclaimed(s, StartSweep(s))
    ensures UpvalsOwned(StartSweep(s))
  {
    hide Owned, Closed, UpvalsOwned, MarkPhase, SweptRoots, AllFresh;
    var t := StartSweep(s);
    OwnedListed(s);
    RepaintedOwned(s, t, {});
    SameClosed(s, t);
    SameNeverBlack(s, t);
    assert StringsSwept(t, 0);
    OwnedUpvals(t, {});
  }

  function FullGc(s: State): State
    requires Inv(s)
  {
    StartSweepKeeps(s);
    FinishSweepEnds(StartSweep(s));
    var t := FinishSweep(StartSweep(s));
    MarkRootKeeps(t);
    Collect(MarkRoot(t))
  }

  lemma {:induction false} FinishSweepEnds(s: State)
    requires Inv(s) && Rank(s.phase) in {1, 2, 3}
    ensures var t := FinishSweep(s); Inv(t) && t.phase == Finalize && Reclaimed(s, t)
    decreases Rank(s.phase), WhitesLeft(s), StepsLeft(s)
  {
    hide Inv, SingleStep, Reclaimed, WhitesLeft, StepsLeft;
    if s.phase == Finalize {
      ReclaimedRefl(s);
    } else {
      StepAdvances(s);
      SweepingStep(s);
      FinishSweepEnds(SingleStep(s));
      ReclaimedTrans(s, SingleStep(s), FinishSweep(SingleStep(s)));
    }
  }

  lemma {:induction false} CollectEnds(s: State)
    requires Inv(s)
    ensures Inv(Collect(s)) && Collect(s).phase == Pause
    decreases Rank(s.phase), WhitesLeft(s), StepsLeft(s)
  {
    hide Inv, SingleStep, WhitesLeft, StepsLeft;
    if s.phase != Pause {
      StepAdvances(s);
      CollectEnds(SingleStep(s));
    }
  }

  /** The full collection ends in pause, from every state. */
  lemma FullGcEnds(s: State)
    requires Inv(s)
    ensures Inv(FullGc(s)) && FullGc(s).phase == Pause && AllWhite(FullGc(s))
  {
    hide Owned, Closed, NeverBlackKinds, FinishSweep, MarkRoot, Collect;
    StartSweepKeeps(s);
    FinishSweepEnds(StartSweep(s));
    MarkRootKeeps(FinishSweep(StartSweep(s)));
    CollectEnds(MarkRoot(FinishSweep(StartSweep(s))));
  }

  /** The sweep that only resets the marks frees nothing. */
  lemma ResetFreesNothing(s: State)
    requires Inv(s) && (s.phase == Pause || s.phase == Propagate)
    ensures Inv(StartSweep(s)) && Rank(StartSweep(s).phase) in {1, 2, 3}
    ensures var t := FinishSweep(StartSweep(s)); AllWhite(t) && t.heap.Keys == s.heap.Keys
  {
    hide Owned, Closed, NeverBlackKinds, FinishSweep, MarkPhase, Inv;
    StartSweepKeeps(s);
    var r := StartSweep(s);
    FinishSweepEnds(r);
    var t := FinishSweep(r);
    InvParts(s);
    InvParts(t);
    forall x | x in s.heap ensures x in t.heap {
      assert !Dead(r, x) by { NoDead(s, x); }
    }
    hide PhaseInv;
  }

  lemma NoDead(s: State, x: Ref)
    requires PhaseInv(s) && (s.phase == Pause || s.phase == Propagate) && x in s.heap
    ensures s.heap[x].color != White(!s.white)
  {
    hide Marking;
  }

  // ----- what is left ------------------------------------------------------------------

  /** Steps of the mark phase amount to PropagateAll and the atomic step. */
  lemma {:induction false} CollectMarks(s: State)
    requires Inv(s) && s.phase == Propagate
    ensures MarkPhase(s)
    ensures var m := PropagateAll(s);
            && Inv(m) && m.phase == Propagate && m.gray == [] && MarkPhase(m) && Advance(s, m)
            && Inv(Atomic(m)) && Collect(s) == Collect(Atomic(m))
    decreases Whites(s), |s.gray|
  {
    hide Marking, PropagateMark, Owned, Closed, NeverBlackKinds, Atomic, AtomicMark;
    if s.gray == [] {
      AtomicKeeps(s);
      assert PropagateAll(s) == s;
      assert SingleStep(s) == Atomic(s);
      assert Advance(s, s);
    } else {
      PropagateShrinks(s);
      PropagateKeeps(s);
      PropagateMarkKeeps(s);
      var t := PropagateMark(s);
      assert SingleStep(s) == t;
      CollectMarks(t);
      AdvanceTrans(s, t, PropagateAll(t));
    }
  }

  /** The rest of the cycle frees exactly what is dead after the atomic step. */
  lemma {:induction false} CollectSweeps(s: State)
    requires Inv(s) && Rank(s.phase) < 4
    ensures Reclaimed(s, Collect(s))
    decreases Rank(s.phase), WhitesLeft(s), StepsLeft(s)
  {
    hide Inv, SingleStep, Reclaimed, WhitesLeft, StepsLeft;
    if s.phase == Pause {
      ReclaimedRefl(s);
    } else {
      StepAdvances(s);
      var t := SingleStep(s);
      if s.phase == Finalize { FinalStep(s); } else { SweepingStep(s); }
      CollectSweeps(t);
      ReclaimedTrans(s, t, Collect(t));
    }
  }

  lemma FinalStep(s: State)
    requires Inv(s) && s.phase == Finalize
    ensures var t := SingleStep(s); Reclaimed(s, t) && UpvalsOwned(t) && t.phase == Pause
  {
    assert UpvalsOwned(s);
    hide StringsOwned, RootsOwned, Closed;
    SingleStepKeeps(s);
    hide UpvalsOwned;
    InvParts(SingleStep(s));
  }

  /** The object is the key of an entry that is there, or the value of one whose key is held. */
  ghost predicate EntryShows(s: State, e: (Value, Value), r: Ref) {
    e.1 != Nil && (e.0 == Obj(r) || (!Unheld(s, e.0) && e.1 == Obj(r)))
  }

  ghost predicate Shows(s: State, t: Ref, r: Ref) {
    && IsTable(s, t)
    && ((ModeOf(s.heap, s.heap[t].body.meta).values && Obj(r) in s.heap[t].body.arr)
        || exists e :: e in s.heap[t].body.nodes && EntryShows(s, e, r))
  }

  /** A string in a weak table, where the collector looks at it. */
  ghost predicate HeldWeakly(s: State, r: Ref) {
    r in s.heap && s.heap[r].body.Str? &&
    exists t :: StrongReachable(s, t) && IsTable(s, t) && ModeOf(s.heap, s.heap[t].body.meta) != STRONG
      && Shows(s, t, r)
  }

  ghost function StrongSet(s: State): set<Ref> {
    set r | r in s.heap && StrongReachable(s, r)
  }

  lemma StrongExtends(s: State, r: Ref, q: Ref)
    requires StrongReachable(s, r) && StrongRefers(s.heap, r, q)
    ensures StrongReachable(s, q)
  {
    var p :| StrongPath(s, p, r);
    var p' := p + [q];
    forall i | 0 < i < |p'| ensures StrongRefers(s.heap, p'[i - 1], p'[i]) {
      if i < |p| { assert p'[i - 1] == p[i - 1] && p'[i] == p[i]; }
    }
    assert StrongPath(s, p', q);
  }

  lemma RootStrong(s: State, q: Ref)
    requires Obj(q) in Roots(s)
    ensures StrongReachable(s, q)
  {
    assert StrongPath(s, [q], q);
  }

  lemma StrongSetClosed(s: State)
    ensures StrongClosed(s.heap, StrongSet(s)) && RootsIn(s, StrongSet(s))
  {
    hide StrongReachable, Strongly;
    forall r | r in StrongSet(s)
      ensures forall v :: v in Strongly(s.heap, s.heap[r].body) && v.Obj? && v.r in s.heap ==> v.r in StrongSet(s)
    {
      forall v | v in Strongly(s.heap, s.heap[r].body) && v.Obj? && v.r in s.heap ensures v.r in StrongSet(s) {
        StrongExtends(s, r, v.r);
      }
    }
    forall v | v in Roots(s) && v.Obj? && v.r in s.heap ensures v.r in StrongSet(s) { RootStrong(s, v.r); }
  }

  /** A cycle that starts with all objects white keeps what is reachable without weak references,
      fixed objects, and strings in weak tables. */
  lemma CycleKeeps(s: State)
    requires Inv(s) && s.phase == Finalize
    ensures Inv(MarkRoot(s))
    ensures var t := Collect(MarkRoot(s));
            forall r :: r in t.heap <==> StrongReachable(s, r) || (r in s.heap && s.heap[r].fixed) || HeldWeakly(s, r)
  {
    hide Inv, Marking, MarkRoot, PropagateAll, Atomic, AtomicMark, Collect, StrongReachable, HeldWeakly, StrongClosed,
         Reclaimed, MarkPhase, AllWhite, Advance, StrongSet;
    MarkRootKeeps(s);
    var x := StrongSet(s);
    StrongSetClosed(s);
    var s1 := MarkRoot(s);
    RootMarked(s, x);
    CollectMarks(s1);
    MarkPhaseHas(s1);
    var m := PropagateAll(s1);
    MarkPhaseHas(m);
    PropagateAllWithin(s1, x);
    AdvanceClosed(s1, m, x);
    assert Inv(m) && m.phase == Propagate;
    var a := Atomic(m);
    AtomicKeeps2(m);
    CollectSweeps(a);
    CollectEnds(a);
    var t := Collect(a);
    InvParts(t);
    forall r | StrongReachable(s, r) || (r in s.heap && s.heap[r].fixed) || HeldWeakly(s, r) ensures r in t.heap {
      KeptReachable(s, s1, m, a, t, x, r);
    }
    forall r | r in t.heap ensures r in s.heap && (StrongReachable(s, r) || s.heap[r].fixed || HeldWeakly(s, r)) {
      KeptOnly(s, s1, m, a, t, x, r);
    }
  }

  lemma MarkPhaseHas(s: State)
    requires MarkPhase(s)
    ensures Marking(s, {}) && UpvalsListed(s)
  {
    hide Marking;
  }

  lemma AtomicKeeps2(m: State)
    requires Inv(m) && m.phase == Propagate && m.gray == [] && MarkPhase(m)
    ensures Inv(Atomic(m)) && Atomic(m).phase == SweepString
  {
    hide Owned, Closed, NeverBlackKinds, Marking, AtomicMark;
    AtomicKeeps(m);
  }

  lemma RootMarked(s: State, x: set<Ref>)
    requires Inv(s) && s.phase == Finalize && StrongClosed(s.heap, x) && RootsIn(s, x)
    ensures Within(MarkRoot(s), x) && StrongClosed(MarkRoot(s).heap, x) && Advance(s.(phase := Propagate), MarkRoot(s))
  {
    hide Owned, Closed, NeverBlackKinds, Marking, StrongClosed, MarkRoot;
    MarkRootStarts(s);
    MarkRootWithin(s, x);
    AdvanceClosed(s.(phase := Propagate), MarkRoot(s), x);
  }

  /** What the mark phase starts with and ends with differ in colours and lists only. */
  lemma SameStart(s: State, s1: State, m: State)
    requires Advance(s.(phase := Propagate), s1) && Advance(s1, m)
    ensures Advance(s.(phase := Propagate), m)
    ensures forall r :: r in s.heap <==> r in m.heap
    ensures forall r :: r in s.heap ==> m.heap[r].body == s.heap[r].body && m.heap[r].fixed == s.heap[r].fixed
    ensures forall r :: StrongReachable(s, r) <==> StrongReachable(m, r)
    ensures forall r :: HeldWeakly(m, r) <==> HeldWeakly(s, r)
  {
    hide HeldWeakly, StrongReachable;
    var p := s.(phase := Propagate);
    AdvanceTrans(p, s1, m);
    forall r ensures StrongReachable(s, r) <==> StrongReachable(m, r) {
      SameStrong(s, p, m, r);
    }
    forall r ensures HeldWeakly(m, r) <==> HeldWeakly(s, r) {
      if HeldWeakly(m, r) { SameWeak(m, s, r); }
      if HeldWeakly(s, r) { SameWeak(s, m, r); }
    }
  }

  lemma SameStrong(s: State, p: State, m: State, r: Ref)
    requires p == s.(phase := Propagate) && Advance(p, m)
    ensures StrongReachable(s, r) <==> StrongReachable(m, r)
  {
    if StrongReachable(s, r) { var q :| StrongPath(s, q, r); assert StrongPath(p, q, r); SamePaths(p, m, q, r); }
    if StrongReachable(m, r) { var q :| StrongPath(m, q, r); PathsBack(p, m, q, r); assert StrongPath(s, q, r); }
  }

  /** Weak holding depends on bodies and on what is held strongly only. */
  lemma SameWeak(s: State, m: State, r: Ref)
    requires s.heap.Keys == m.heap.Keys && forall x :: x in s.heap ==> m.heap[x].body == s.heap[x].body
    requires forall x :: StrongReachable(s, x) <==> StrongReachable(m, x)
    requires HeldWeakly(s, r)
    ensures HeldWeakly(m, r)
  {
    hide StrongReachable, Shows;
    var t :| StrongReachable(s, t) && IsTable(s, t) && ModeOf(s.heap, s.heap[t].body.meta) != STRONG && Shows(s, t, r);
    assert ModeOf(m.heap, m.heap[t].body.meta) == ModeOf(s.heap, s.heap[t].body.meta);
    SameShows(s, m, t, r);
  }

  lemma SameShows(s: State, m: State, t: Ref, r: Ref)
    requires IsTable(s, t) && IsTable(m, t) && m.heap[t].body == s.heap[t].body && Shows(s, t, r)
    requires ModeOf(m.heap, m.heap[t].body.meta) == ModeOf(s.heap, s.heap[t].body.meta)
    requires forall e :: e in s.heap[t].body.nodes && e.1 != Nil ==> (Unheld(s, e.0) <==> Unheld(m, e.0))
    ensures Shows(m, t, r)
  {
    hide Unheld, ModeOf;
  }

  lemma PathsBack(s: State, t: State, p: seq<Ref>, r: Ref)
    requires Advance(s, t) && StrongPath(t, p, r)
    ensures StrongPath(s, p, r)
  {
    var u := t.(gray := s.gray, grayagain := s.grayagain, weak := s.weak);
    forall q, x | StrongRefers(t.heap, q, x) ensures StrongRefers(s.heap, q, x) {
      ShapeKeepsContents(s, u, s.heap[q].body, STRONG);
    }
  }

  lemma KeptReachable(s: State, s1: State, m: State, a: State, t: State, x: set<Ref>, r: Ref)
    requires Advance(s.(phase := Propagate), s1) && Advance(s1, m)
    requires Inv(m) && MarkPhase(m) && Within(m, x) && StrongClosed(m.heap, x) && x == StrongSet(s)
    requires a == Atomic(m) && Reclaimed(a, t)
    requires StrongReachable(s, r) || (r in s.heap && s.heap[r].fixed) || HeldWeakly(s, r)
    ensures r in t.heap
  {
    hide Owned, NeverBlackKinds, Marking, MarkPhase, Closed, PhaseInv, StrongReachable, HeldWeakly, StrongClosed,
         Atomic;
    SameStart(s, s1, m);
    assert RootsIn(m, x) by { StrongSetClosed(m); }
    if HeldWeakly(s, r) { HeldSurvives(m, x, r); } else { MarkedSurvives(m, r); }
    hide Reclaimed, Advance;
    assert Alive(a, r);
    ReclaimedAlive(a, t);
  }

  /** After the atomic step, what is reachable without weak references, or fixed, is alive. */
  lemma MarkedSurvives(m: State, r: Ref)
    requires MarkPhase(m) && Closed(m) && (StrongReachable(m, r) || (r in m.heap && m.heap[r].fixed))
    ensures Alive(Atomic(m), r)
  {
    hide Marking, AtomicMark, ClearAll, Reached, StrongReached, StrongReachable;
    AtomicParts(m);
    var m1, m2 := AtomicMark(m), AtomicCleared(m);
    if StrongReachable(m, r) { ReachableMarked(m, m1, r); }
    hide MarkingComplete;
  }

  /** What clearing looks at, in terms of what is held strongly. */
  lemma SeenShown(m: State, m1: State, x: set<Ref>, t: Ref, r: Ref)
    requires MarkPhase(m) && m1 == AtomicMark(m) && Advance(m, m1) && Within(m1, x) && x == StrongSet(m)
    requires MarkingComplete(m1)
    requires Closed(m)
    ensures Seen(m1, t, r) <==> Shows(m, t, r)
  {
    hide AtomicMark, Reached, StrongReached, StrongReachable, Marking, MarkPhase, Closed;
    forall v ensures Lost(m1, v) <==> Unheld(m, v) {
      if v.Obj? && StrongReachable(m, v.r) { ReachableMarked(m, m1, v.r); }
    }
    hide Lost, Unheld, MarkingComplete;
    if IsTable(m, t) {
      ShapeKeepsContents(m, m1.(gray := m.gray, grayagain := m.grayagain, weak := m.weak), m.heap[t].body, STRONG);
      assert ModeOf(m1.heap, m1.heap[t].body.meta) == ModeOf(m.heap, m.heap[t].body.meta);
      assert m1.heap[t].body == m.heap[t].body;
      hide ModeOf, Advance;
      assert forall e :: InEntry(m1, e, r) <==> EntryShows(m, e, r);
    }
  }

  lemma HeldSurvives(m: State, x: set<Ref>, r: Ref)
    requires MarkPhase(m) && Closed(m) && Within(m, x) && StrongClosed(m.heap, x) && RootsIn(m, x) && x == StrongSet(m)
    requires HeldWeakly(m, r)
    ensures Alive(Atomic(m), r)
  {
    hide Marking, AtomicMark, ClearAll, Reached, StrongReached, StrongReachable, StrongClosed, Shows, Cleaned;
    AtomicParts(m);
    var m1, m2 := AtomicMark(m), AtomicCleared(m);
    AtomicMarkWithin(m, x);
    var t :| StrongReachable(m, t) && IsTable(m, t) && ModeOf(m.heap, m.heap[t].body.meta) != STRONG && Shows(m, t, r);
    SeenShown(m, m1, x, t, r);
    ReachableMarked(m, m1, t);
    assert r in m1.heap && m1.heap[r].body.Str?;
    if t in m1.weak {
      WeakAreTables(m1);
      ClearAllSees(m1, m1.weak, t, r);
    } else {
      SeenRefers(m1, t, r);
      ReachedRefers(m1, t, r);
      CleanedMarked(m1, m2, r);
    }
  }

  lemma KeptOnly(s: State, s1: State, m: State, a: State, t: State, x: set<Ref>, r: Ref)
    requires Advance(s.(phase := Propagate), s1) && Advance(s1, m) && x == StrongSet(s)
    requires Inv(m) && MarkPhase(m) && Within(m, x) && StrongClosed(m.heap, x) && a == Atomic(m) && Reclaimed(a, t)
    requires AllWhite(t)
    requires r in t.heap
    ensures r in s.heap && (StrongReachable(s, r) || s.heap[r].fixed || HeldWeakly(s, r))
  {
    hide Owned, NeverBlackKinds, Marking, MarkPhase, Closed, PhaseInv, StrongReachable, HeldWeakly, StrongClosed,
         Atomic;
    SameStart(s, s1, m);
    assert Alive(a, r) && t.white == a.white by {
      ReclaimedAlive(a, t);
      assert t.heap[r].color == White(t.white);
    }
    assert RootsIn(m, x) by { StrongSetClosed(m); }
    SurvivorWasMarked(m, x, r);
  }

  lemma SurvivorWasMarked(m: State, x: set<Ref>, r: Ref)
    requires MarkPhase(m) && Closed(m) && Within(m, x) && StrongClosed(m.heap, x) && RootsIn(m, x)
    requires x == StrongSet(m) && Alive(Atomic(m), r)
    ensures r in m.heap && (StrongReachable(m, r) || m.heap[r].fixed || HeldWeakly(m, r))
  {
    hide Marking, AtomicMark, ClearAll, Reached, StrongReached, StrongReachable, HeldWeakly, StrongClosed, Shrunk;
    AtomicParts(m);
    var m1, m2 := AtomicMark(m), AtomicCleared(m);
    AtomicMarkWithin(m, x);
    if !m.heap[r].fixed && IsWhite(m1, r) {
      assert m2.heap[r].color == Gray;
      KeptString(m, m1, x, r);
    }
    hide MarkingComplete, Cleaned;
  }

  lemma KeptString(m: State, m1: State, x: set<Ref>, r: Ref)
    requires Closed(m)
    requires MarkPhase(m) && m1 == AtomicMark(m) && Advance(m, m1) && Marking(m1, {}) && MarkingComplete(m1)
    requires Within(m1, x) && x == StrongSet(m)
    requires IsWhite(m1, r) && m1.heap[r].body.Str? && r in ClearAll(m1, m1.weak).heap
    requires !IsWhite(ClearAll(m1, m1.weak), r)
    ensures HeldWeakly(m, r)
  {
    hide AtomicMark, ClearAll, Reached, StrongReached, StrongReachable, Consistent, Closed, Seen, Shows;
    var t := ClearAllMarks(m1, m1.weak, r);
    SeenShown(m, m1, x, t, r);
    SeenRefers(m1, t, r);
    assert t in x;
    WeakAreTables(m1);
    if ModeOf(m1.heap, m1.heap[t].body.meta) == STRONG { NotStrong(m1, t, r); }
    ShapeKeepsContents(m, m1.(gray := m.gray, grayagain := m.grayagain, weak := m.weak), m.heap[t].body, STRONG);
    assert ModeOf(m1.heap, m1.heap[t].body.meta) == ModeOf(m.heap, m.heap[t].body.meta);
  }

  lemma NotStrong(s: State, t: Ref, r: Ref)
    requires IsTable(s, t) && StrongReached(s, t) && Refers(s.heap, t, r)
    requires ModeOf(s.heap, s.heap[t].body.meta) == STRONG
    ensures !IsWhite(s, r)
  {
    hide TableValues;
    assert Obj(r) in Strongly(s.heap, s.heap[t].body);
  }

  lemma ReclaimedFacts(s: State, t: State)
    requires Reclaimed(s, t)
    ensures Roots(s) == Roots(t)
    ensures forall r :: r in s.heap && s.heap[r].fixed ==> r in t.heap
    ensures forall r :: r in t.heap ==> r in s.heap && t.heap[r].fixed == s.heap[r].fixed
  {
  }

  lemma {:induction false} StrongPathKept(s: State, t: State, p: seq<Ref>, r: Ref)
    requires Reclaimed(s, t) && UpvalsOwned(t) && Closed(s) && Closed(t)
    ensures StrongPath(s, p, r) <==> StrongPath(t, p, r)
    decreases |p|
  {
    hide Strongly, UpvalsOwned, Reclaimed;
    ReclaimedFacts(s, t);
    if StrongPath(s, p, r) || StrongPath(t, p, r) {
      forall i | 0 < i < |p| ensures StrongRefers(s.heap, p[i - 1], p[i]) <==> StrongRefers(t.heap, p[i - 1], p[i]) {
        var q := p[..i];
        if StrongPath(s, p, r) {
          assert StrongPath(s, q, p[i - 1]);
          StrongIsReachable(s, p[i - 1]);
          ReachableAlive(s, p[i - 1]);
        }
        if StrongPath(t, p, r) {
          assert StrongPath(t, q, p[i - 1]);
          StrongIsReachable(t, p[i - 1]);
          ReachableAlive(t, p[i - 1]);
        }
        ReclaimedAlive(s, t);
        ReclaimedContents(s, t, p[i - 1]);
      }
    }
  }

  lemma ReclaimedReachable(s: State, t: State)
    requires Reclaimed(s, t) && UpvalsOwned(t) && Closed(s) && Closed(t)
    ensures forall r :: StrongReachable(s, r) <==> StrongReachable(t, r)
    ensures forall r :: HeldWeakly(t, r) <==> HeldWeakly(s, r)
  {
    hide Closed, UpvalsOwned, Reclaimed, StrongPath, HeldWeakly;
    forall r ensures StrongReachable(s, r) <==> StrongReachable(t, r) {
      if StrongReachable(s, r) { var p :| StrongPath(s, p, r); StrongPathKept(s, t, p, r); }
      if StrongReachable(t, r) { var p :| StrongPath(t, p, r); StrongPathKept(s, t, p, r); }
    }
    hide StrongReachable;
    forall r ensures HeldWeakly(t, r) <==> HeldWeakly(s, r) { WeakKept(s, t, r); }
  }

  lemma WeakKept(s: State, t: State, r: Ref)
    requires Reclaimed(s, t) && UpvalsOwned(t) && Closed(s) && Closed(t)
    requires forall x :: StrongReachable(s, x) <==> StrongReachable(t, x)
    ensures HeldWeakly(s, r) <==> HeldWeakly(t, r)
  {
    hide StrongReachable, UpvalsOwned, Closed, Shows, Reclaimed;
    forall x | StrongReachable(s, x) && x in s.heap && s.heap[x].body.Table?
      ensures x in t.heap && t.heap[x].body == s.heap[x].body
      ensures ModeOf(t.heap, t.heap[x].body.meta) == ModeOf(s.heap, s.heap[x].body.meta)
      ensures Shows(s, x, r) <==> Shows(t, x, r)
      ensures Shows(s, x, r) ==> (r in s.heap && s.heap[r].body.Str? <==> r in t.heap && t.heap[r].body.Str?)
    {
      TableKept(s, t, x, r);
    }
    forall x | x in t.heap ensures x in s.heap && s.heap[x].body.Table? == t.heap[x].body.Table? { KindKept(s, t, x); }
  }

  lemma EntryRefers(h: Heap, x: Ref, e: (Value, Value))
    requires x in h && h[x].body.Table? && e in h[x].body.nodes && e.1 != Nil
    ensures forall r :: e.0 == Obj(r) || e.1 == Obj(r) ==> Refers(h, x, r)
  {
    forall r | e.0 == Obj(r) || e.1 == Obj(r) ensures Refers(h, x, r) {
      assert Obj(r) in EntryValues(e, STRONG);
      assert Obj(r) in NodeValues(h[x].body.nodes, STRONG);
    }
  }

  lemma ShowsRefers(s: State, t: Ref, r: Ref)
    requires Shows(s, t, r)
    ensures Refers(s.heap, t, r)
  {
    hide Refers, Unheld, ModeOf;
    var b := s.heap[t].body;
    if exists e :: e in b.nodes && EntryShows(s, e, r) {
      var e :| e in b.nodes && EntryShows(s, e, r);
      EntryRefers(s.heap, t, e);
    } else {
      ArrayRefers(s.heap, t, r);
    }
  }

  lemma ArrayRefers(h: Heap, t: Ref, r: Ref)
    requires t in h && h[t].body.Table? && Obj(r) in h[t].body.arr
    ensures Refers(h, t, r)
  {
    assert Obj(r) in Backwards(h[t].body.arr);
  }

  lemma ReferenceAlive(s: State, x: Ref, q: Ref)
    requires Closed(s) && Alive(s, x) && Refers(s.heap, x, q)
    ensures Alive(s, q)
  {
  }

  lemma AliveKept(s: State, t: State, x: Ref)
    requires Reclaimed(s, t) && Alive(s, x)
    ensures x in t.heap && (s.heap[x].body.Str? <==> t.heap[x].body.Str?)
  {
  }

  lemma KindKept(s: State, t: State, x: Ref)
    requires Reclaimed(s, t) && x in t.heap
    ensures x in s.heap && (s.heap[x].body.Table? <==> t.heap[x].body.Table?)
    ensures s.heap[x].body.Str? <==> t.heap[x].body.Str?
    ensures s.heap[x].body.Table? ==> t.heap[x].body == s.heap[x].body
  {
  }

  /** A table that is held strongly looks the same after dead objects are gone. */
  lemma TableKept(s: State, t: State, x: Ref, r: Ref)
    requires Reclaimed(s, t) && UpvalsOwned(t) && Closed(s) && Closed(t) && StrongReachable(s, x) && IsTable(s, x)
    requires forall x :: StrongReachable(s, x) <==> StrongReachable(t, x)
    ensures IsTable(t, x) && t.heap[x].body == s.heap[x].body
    ensures ModeOf(t.heap, t.heap[x].body.meta) == ModeOf(s.heap, s.heap[x].body.meta)
    ensures Shows(s, x, r) <==> Shows(t, x, r)
    ensures Shows(s, x, r) ==> (r in s.heap && s.heap[r].body.Str? <==> r in t.heap && t.heap[r].body.Str?)
  {
    hide StrongReachable, UpvalsOwned, Closed, Shows, Reclaimed, Contents;
    StrongIsReachable(s, x);
    ReachableAlive(s, x);
    ReclaimedContents(s, t, x);
    MetaKept(s, t, x);
    KindKept(s, t, x);
    forall e | e in s.heap[x].body.nodes && e.1 != Nil ensures Unheld(s, e.0) <==> Unheld(t, e.0) {
      if e.0.Obj? {
        EntryRefers(s.heap, x, e);
        ReferenceAlive(s, x, e.0.r);
        AliveKept(s, t, e.0.r);
      }
    }
    if Shows(s, x, r) {
      SameShows(s, t, x, r);
      ShowsRefers(s, x, r);
      ReferenceAlive(s, x, r);
      AliveKept(s, t, r);
    }
    if Shows(t, x, r) { SameShows(t, s, x, r); }
  }

  lemma MetaKept(s: State, t: State, x: Ref)
    requires Reclaimed(s, t) && Closed(s) && Alive(s, x) && IsTable(s, x) && x in t.heap
    ensures IsTable(t, x) && ModeOf(t.heap, t.heap[x].body.meta) == ModeOf(s.heap, s.heap[x].body.meta)
  {
    var b := s.heap[x].body;
    if b.meta.Metatable? {
      assert Obj(b.meta.t) in Contents(s.heap, b, STRONG);
      assert Refers(s.heap, x, b.meta.t) && Alive(s, b.meta.t);
    }
  }

  /** The heap after a full collection: what was reachable without weak references, fixed objects,
      and no more than strings that weak tables hold besides. */
  lemma FullGcExact(s: State)
    requires Inv(s)
    ensures var t := FullGc(s);
            && Inv(t) && t.phase == Pause
            && forall r ::
                 r in t.heap <==> StrongReachable(s, r) || (r in s.heap && s.heap[r].fixed) || HeldWeakly(s, r)
  {
    hide Owned, Closed, NeverBlackKinds, PhaseInv, FinishSweep, MarkRoot, Collect, StrongReachable, HeldWeakly,
         Reclaimed, UpvalsOwned, StartSweep;
    FullGcEnds(s);
    StartSweepKeeps(s);
    var r0 := StartSweep(s);
    FinishSweepEnds(r0);
    var t0 := FinishSweep(r0);
    OwnedUpvals(t0, {});
    ReclaimedTrans(s, r0, t0);
    CycleKeeps(t0);
    ReclaimedReachable(s, t0);
    ReclaimedFacts(s, t0);
  }

  /** Without weak tables the heap after a full collection is exactly what is reachable or fixed. */
  lemma FullGcExactWithoutWeak(s: State)
    requires Inv(s)
    requires forall t :: StrongReachable(s, t) && IsTable(s, t) ==> ModeOf(s.heap, s.heap[t].body.meta) == STRONG
    ensures Inv(FullGc(s))
    ensures forall r :: r in FullGc(s).heap <==> Reachable(s, r) || (r in s.heap && s.heap[r].fixed)
  {
    hide Inv, FullGc, StrongReachable, Reachable, ModeOf;
    FullGcExact(s);
    forall r ensures StrongReachable(s, r) <==> Reachable(s, r) {
      if StrongReachable(s, r) { StrongIsReachable(s, r); }
      if Reachable(s, r) { NoWeakReachable(s, r); }
    }
    forall r ensures !HeldWeakly(s, r) { }
  }

  lemma NoWeakReachable(s: State, r: Ref)
    requires Reachable(s, r)
    requires forall t :: StrongReachable(s, t) && IsTable(s, t) ==> ModeOf(s.heap, s.heap[t].body.meta) == STRONG
    ensures StrongReachable(s, r)
  {
    hide StrongReachable, ModeOf;
    var p :| Path(s, p, r);
    NoWeakPath(s, p, r);
  }

  lemma {:induction false} NoWeakPath(s: State, p: seq<Ref>, r: Ref)
    requires Path(s, p, r)
    requires forall t :: StrongReachable(s, t) && IsTable(s, t) ==> ModeOf(s.heap, s.heap[t].body.meta) == STRONG
    ensures StrongReachable(s, r)
    decreases |p|
  {
    hide StrongReachable, ModeOf;
    if |p| == 1 {
      RootStrong(s, r);
    } else {
      var q := p[|p| - 2];
      assert Path(s, p[..|p| - 1], q);
      NoWeakPath(s, p[..|p| - 1], q);
      assert Refers(s.heap, q, r);
      assert StrongRefers(s.heap, q, r);
      StrongExtends(s, q, r);
    }
  }
}

/** What the program may do between two collector steps, with the write barriers. */
module GcMutator {
  import opened GcHeap
  import opened GcMark
  import opened GcCycle
  import opened GcClear
  import opened GcSweep
  import opened GcSteps

  /** Every object among the values is alive. */
  ghost predicate AllAlive(s: State, vs: seq<Value>) {
    forall v :: v in vs && v.Obj? ==> Alive(s, v.r)
  }

  lemma SetBodyFacts(s: State, o: Ref, c: Body)
    requires o in s.heap
    ensures var w := SetBody(s, o, c);
            && w == s.(heap := w.heap) && w.heap.Keys == s.heap.Keys && w.heap[o] == s.heap[o].(body := c)
            && (Alive(s, o) ==> Alive(w, o))
  {
  }

  /** What the invariant says in the mark phase. */
  lemma PhaseIsMark(s: State)
    requires s.phase == Propagate
    ensures PhaseInv(s) <==> MarkPhase(s)
  {
    hide MarkPhase;
  }

  // ----- writing into an object --------------------------------------------------------

  /** The same kind of object, which owns the same upvalues. */
  predicate SameOwner(b: Body, c: Body) {
    match b
    case Str(_) => false
    case OpenUpval(_, _) => false
    case Udata(_, _) => c.Udata?
    case ClosedUpval(_) => c.ClosedUpval?
    case CClosure(_, _) => c.CClosure?
    case LClosure(_, _, _) => c.LClosure?
    case Table(_, _, _, _) => c.Table?
    case Thread(_, _, open) => c.Thread? && c.open == open
    case Proto(_, _, _, _, _) => c.Proto?
  }

  /** Slots of open upvalues stay below the top of the stack. */
  predicate SlotsFit(s: State, th: Ref, n: nat) {
    forall u :: u in s.uvhead && u in s.heap && s.heap[u].body.OpenUpval? && s.heap[u].body.thread == th ==>
      s.heap[u].body.slot < n
  }

  lemma SetBodyOwned(s: State, o: Ref, c: Body)
    requires Owned(s, {}) && o in s.heap && SameOwner(s.heap[o].body, c) && (c.Thread? ==> SlotsFit(s, o, |c.stack|))
    ensures Owned(SetBody(s, o, c), {})
  {
    hide StringsOwned, RootsOwned, UpvalsOwned;
    var t := SetBody(s, o, c);
    SlotsStillFit(s, o, c);
    StringsSame(s, t);
    RootsSame(s, t, {});
    UpvalsSame(s, t);
    FixedSame(s, t);
  }

  lemma SlotsStillFit(s: State, o: Ref, c: Body)
    requires UpvalsOwned(s) && o in s.heap && SameOwner(s.heap[o].body, c) && (c.Thread? ==> SlotsFit(s, o, |c.stack|))
    ensures var t := SetBody(s, o, c);
            forall r :: IsOpen(t, r) && IsOpen(s, r) ==>
              IsThread(t, t.heap[r].body.thread) && t.heap[r].body.slot < |t.heap[t.heap[r].body.thread].body.stack|
  {
    hide Distinct;
    var t := SetBody(s, o, c);
    forall r | IsOpen(t, r) && IsOpen(s, r)
      ensures IsThread(t, t.heap[r].body.thread) && t.heap[r].body.slot < |t.heap[t.heap[r].body.thread].body.stack|
    {
      assert r in s.uvhead && IsThread(s, s.heap[r].body.thread);
    }
  }

  lemma SetBodyClosed(s: State, o: Ref, c: Body)
    requires Closed(s) && Alive(s, o) && SameOwner(s.heap[o].body, c) && AllAlive(s, Contents(s.heap, c, STRONG))
    ensures Closed(SetBody(s, o, c))
  {
    var t := SetBody(s, o, c);
    assert forall r :: Alive(t, r) <==> Alive(s, r);
    forall r, q | Alive(t, r) && Refers(t.heap, r, q) ensures Alive(t, q) {
      if r == o {
        assert Contents(t.heap, c, STRONG) == Contents(s.heap, c, STRONG);
      } else if t.heap[r].body.OpenUpval? && t.heap[r].body.thread == o && c.Thread? {
        assert Obj(q) in Contents(s.heap, c, STRONG);
      } else {
        assert Refers(s.heap, r, q);
      }
    }
  }

  /** Every new reference of 'o' is one of 'added'. */
  predicate Adds(s: State, o: Ref, c: Body, added: seq<Value>) {
    o in s.heap && forall v :: v in Contents(s.heap, c, STRONG) && v.Obj? ==>
      v in Contents(s.heap, s.heap[o].body, STRONG) || v in added
  }

  lemma AddsAlive(s: State, o: Ref, c: Body, added: seq<Value>)
    requires Closed(s) && Alive(s, o) && Adds(s, o, c, added) && AllAlive(s, added)
    ensures AllAlive(s, Contents(s.heap, c, STRONG))
  {
    forall v | v in Contents(s.heap, c, STRONG) && v.Obj? ensures Alive(s, v.r) {
      if v !in added { assert Refers(s.heap, o, v.r); }
    }
  }

  /** In the other phases only colours of swept objects matter. */
  lemma SetBodyPhase(s: State, o: Ref, c: Body)
    requires PhaseInv(s) && s.phase != Propagate && o in s.heap && SameOwner(s.heap[o].body, c)
    ensures PhaseInv(SetBody(s, o, c))
  {
    hide MarkPhase;
    var t := SetBody(s, o, c);
    assert forall us :: AllFresh(s, us) ==> AllFresh(t, us);
    assert forall r :: RootFresh(s, r) ==> RootFresh(t, r);
    hide AllFresh, RootFresh;
  }

  lemma SetBodyNeverBlack(s: State, o: Ref, c: Body)
    requires NeverBlackKinds(s) && o in s.heap && SameOwner(s.heap[o].body, c)
    ensures NeverBlackKinds(SetBody(s, o, c))
  {
  }

  /** In the mark phase, a black object that is written may now refer to a white one. */
  lemma SetBodyMarking(s: State, o: Ref, c: Body)
    requires Marking(s, {}) && o in s.heap && SameOwner(s.heap[o].body, c)
    ensures Marking(SetBody(s, o, c), {o})
    ensures s.heap[o].color != Black ==> Marking(SetBody(s, o, c), {})
  {
    var t := SetBody(s, o, c);
    forall r | r in t.heap && r != o ensures Consistent(t, r) {
      assert Consistent(s, r);
      if s.heap[r].color == Black {
        assert Contents(t.heap, t.heap[r].body, STRONG) == Contents(s.heap, s.heap[r].body, STRONG);
      }
    }
    assert Consistent(s, o);
    hide Reached, Contents;
    assert Lists(t);
  }

  lemma SetBodyMarkPhase(s: State, o: Ref, c: Body)
    requires MarkPhase(s) && o in s.heap && SameOwner(s.heap[o].body, c)
    ensures var t := SetBody(s, o, c);
            && Marking(t, {o}) && (s.heap[o].color != Black ==> MarkPhase(t))
            && UpvalsListed(t) && NoneDead(t) && FixedKinds(t)
            && !IsWhite(t, t.main) && (t.registry.Obj? ==> !IsWhite(t, t.registry.r))
  {
    SetBodyMarking(s, o, c);
    hide Marking;
  }

  // ----- barriers ----------------------------------------------------------------------

  /** Back barrier: a black table that got a white value becomes gray again. */
  function BarrierBack(s: State, t: Ref, v: Value): State
    requires t in s.heap
  {
    if v.Obj? && IsWhite(s, v.r) && s.heap[t].color == Black
    then Paint(s, t, Gray).(grayagain := [t] + s.grayagain) else s
  }

  function BarrierBackAll(s: State, t: Ref, vs: seq<Value>): State
    requires t in s.heap
    decreases |vs|
  {
    if vs == [] then s else BarrierBackAll(BarrierBack(s, t, vs[0]), t, vs[1..])
  }

  function BarrierAll(s: State, o: Ref, vs: seq<Value>): (t: State)
    requires o in s.heap
    decreases |vs|
  {
    if vs == [] then s
    else
      BarrierKeys(s, o, vs[0]);
      BarrierAll(Barrier(s, o, vs[0]), o, vs[1..])
  }

  lemma BarrierKeys(s: State, o: Ref, v: Value)
    requires o in s.heap
    ensures Barrier(s, o, v).heap.Keys == s.heap.Keys
  {
  }

  /** The back barrier acts at most once. */
  lemma {:induction false} BackOnce(s: State, t: Ref, vs: seq<Value>)
    requires t in s.heap
    ensures BarrierBackAll(s, t, vs) ==
            if s.heap[t].color == Black && exists v :: v in vs && v.Obj? && IsWhite(s, v.r)
            then Paint(s, t, Gray).(grayagain := [t] + s.grayagain) else s
    decreases |vs|
  {
    if vs != [] {
      var v := vs[0];
      var s1 := BarrierBack(s, t, v);
      BackOnce(s1, t, vs[1..]);
      assert vs == [v] + vs[1..];
      if v.Obj? && IsWhite(s, v.r) && s.heap[t].color == Black { assert v in vs; }
    }
  }

  /** A table write. */
  function WriteTable(s: State, t: Ref, c: Body, added: seq<Value>): State
    requires t in s.heap
  {
    BarrierBackAll(SetBody(s, t, c), t, added)
  }

  /** A write into any other object that has a barrier. */
  function WriteObject(s: State, o: Ref, c: Body, added: seq<Value>): State
    requires o in s.heap
  {
    BarrierAll(SetBody(s, o, c), o, added)
  }

  lemma AlmostMarked(s: State, o: Ref, c: Body, added: seq<Value>)
    requires Marking(s, {}) && o in s.heap && s.heap[o].color == Black && SameOwner(s.heap[o].body, c)
    requires Adds(s, o, c, added)
    requires !s.heap[o].body.Thread?
    ensures var t := SetBody(s, o, c);
            forall v :: v in Contents(t.heap, c, STRONG) && v.Obj? && IsWhite(t, v.r) ==> v in added
  {
    var t := SetBody(s, o, c);
    assert Consistent(s, o);
    assert Contents(t.heap, c, STRONG) == Contents(s.heap, c, STRONG);
    hide Contents;
  }

  lemma WriteTableKeeps(s: State, t: Ref, c: Body, added: seq<Value>)
    requires Inv(s) && IsTable(s, t) && c.Table? && Adds(s, t, c, added) && AllAlive(s, added) && Alive(s, t)
    ensures Inv(WriteTable(s, t, c, added)) && WriteTable(s, t, c, added).heap.Keys == s.heap.Keys
  {
    hide Owned, Closed, PhaseInv, NeverBlackKinds, Adds, Alive, Contents, SetBody, AllAlive;
    var w := SetBody(s, t, c);
    assert w.heap.Keys == s.heap.Keys && w.heap[t].color == s.heap[t].color && w.phase == s.phase
           && w.heap[t].body == c by { SetBodyFacts(s, t, c); }
    SetBodyOwned(s, t, c);
    AddsAlive(s, t, c, added);
    SetBodyClosed(s, t, c);
    SetBodyNeverBlack(s, t, c);
    BackOnce(w, t, added);
    var u := WriteTable(s, t, c, added);
    if u != w { GrayedKeeps(w, t); }
    if s.phase == Propagate {
      assert PhaseInv(u) by { TableMarkPhase(s, t, c, added); }
    } else {
      SetBodyPhase(s, t, c);
      if u != w { GrayedPhase(w, t); }
    }
  }

  /** Making a black table gray again. */
  lemma GrayedKeeps(s: State, t: Ref)
    requires IsTable(s, t) && s.heap[t].color == Black && Owned(s, {}) && Closed(s) && NeverBlackKinds(s)
    ensures var u := Paint(s, t, Gray).(grayagain := [t] + s.grayagain);
            Owned(u, {}) && Closed(u) && NeverBlackKinds(u) && u.heap.Keys == s.heap.Keys
  {
    var u := Paint(s, t, Gray).(grayagain := [t] + s.grayagain);
    RepaintedOwned(s, u, {});
    RepaintedClosed(s, u);
  }

  /** Colours do not matter to the central invariant as long as nothing dies. */
  lemma RepaintedClosed(s: State, t: State)
    requires Closed(s) && t.heap.Keys == s.heap.Keys && Roots(t) == Roots(s)
    requires forall r :: r in s.heap ==> t.heap[r].body == s.heap[r].body && (Alive(s, r) <==> Alive(t, r))
    ensures Closed(t)
  {
    forall r | r in s.heap
      ensures Contents(t.heap, t.heap[r].body, STRONG) == Contents(s.heap, s.heap[r].body, STRONG)
    {
      var b := s.heap[r].body;
      if b.OpenUpval? { assert SlotValue(t.heap, b.thread, b.slot) == SlotValue(s.heap, b.thread, b.slot); }
    }
    hide Contents;
    forall r, q | Alive(t, r) && Refers(t.heap, r, q)
      ensures Alive(t, q)
    {
      assert Alive(s, r) && Refers(s.heap, r, q);
    }
  }

  lemma GrayedPhase(s: State, t: Ref)
    requires PhaseInv(s) && s.phase != Propagate && IsTable(s, t) && s.heap[t].color == Black
    ensures PhaseInv(Paint(s, t, Gray).(grayagain := [t] + s.grayagain))
  {
    hide MarkPhase;
    var u := Paint(s, t, Gray).(grayagain := [t] + s.grayagain);
    forall us | AllFresh(s, us) ensures AllFresh(u, us) { }
    assert forall r :: RootFresh(s, r) ==> RootFresh(u, r);
    hide AllFresh, RootFresh;
  }

  lemma TableMarkPhase(s: State, t: Ref, c: Body, added: seq<Value>)
    requires PhaseInv(s) && s.phase == Propagate && IsTable(s, t) && c.Table? && Adds(s, t, c, added)
    ensures PhaseInv(WriteTable(s, t, c, added))
  {
    hide Adds, Contents, Reached, Marking;
    var w, u := SetBody(s, t, c), WriteTable(s, t, c, added);
    SetBodyMarkPhase(s, t, c);
    BackOnce(w, t, added);
    if s.heap[t].color == Black {
      assert NotListed(s, t) by { BlackNotListed(s, t); }
      if u != w {
        GrayedMarking(w, t);
      } else {
        AlmostMarked(s, t, c, added);
        ReachedReturns(w, t, c, added);
      }
    }
  }

  predicate NotListed(s: State, t: Ref) {
    !InList(s, t)
  }

  lemma BlackNotListed(s: State, t: Ref)
    requires Marking(s, {}) && t in s.heap && s.heap[t].color == Black
    ensures NotListed(s, t)
  {
    hide Reached;
  }

  lemma GrayedMarking(s: State, t: Ref)
    requires Marking(s, {t}) && IsTable(s, t) && s.heap[t].color == Black && NotListed(s, t)
    ensures Marking(Paint(s, t, Gray).(grayagain := [t] + s.grayagain), {})
  {
    hide Reached;
    var g := Paint(s, t, Gray);
    Regrayed(s, t);
    var u := g.(grayagain := [t] + g.grayagain);
    ToOtherList(g, u, t);
    assert Consistent(u, t);
  }

  lemma ReachedReturns(w: State, t: Ref, c: Body, added: seq<Value>)
    requires Marking(w, {t}) && t in w.heap && w.heap[t].body == c && w.heap[t].color == Black
    requires !c.Thread? && !c.Str? && !c.OpenUpval?
    requires forall v :: v in Contents(w.heap, c, STRONG) && v.Obj? && IsWhite(w, v.r) ==> v in added
    requires !exists v :: v in added && v.Obj? && IsWhite(w, v.r)
    ensures Marking(w, {})
  {
    hide Contents;
    assert Reached(w, t);
    assert Consistent(w, t);
    Returned(w, t);
  }

  // ----- forward barrier ---------------------------------------------------------------

  lemma WriteObjectKeeps(s: State, o: Ref, c: Body, added: seq<Value>)
    requires Inv(s) && Alive(s, o) && SameOwner(s.heap[o].body, c) && !c.Table? && !c.Thread?
    requires Adds(s, o, c, added) && AllAlive(s, added)
    ensures Inv(WriteObject(s, o, c, added)) && WriteObject(s, o, c, added).heap.Keys == s.heap.Keys
  {
    hide Owned, Closed, PhaseInv, NeverBlackKinds, Adds, Contents, SetBody, AllAlive, BarrierAll;
    var w := SetBody(s, o, c);
    assert w.heap.Keys == s.heap.Keys && w.heap[o].color == s.heap[o].color && w.phase == s.phase && w.white == s.white
           && w.heap[o].body == c && Alive(w, o) by { SetBodyFacts(s, o, c); }
    SetBodyOwned(s, o, c);
    AddsAlive(s, o, c, added);
    SetBodyClosed(s, o, c);
    SetBodyNeverBlack(s, o, c);
    if s.phase == Propagate {
      PhaseIsMark(s);
      SetBodyMarkPhase(s, o, c);
      if s.heap[o].color == Black {
        AlmostMarked(s, o, c, added);
        BarrierAllMarks(w, o, added);
        var u := BarrierAll(w, o, added);
        BarrierDone(w, u, o, c, added);
        OnlyMarked(w, u);
      } else {
        NoBarrier(w, o, added);
      }
      PhaseIsMark(WriteObject(s, o, c, added));
    } else {
      SetBodyPhase(s, o, c);
      BarrierAllWhitens(w, o, added);
      var u := BarrierAll(w, o, added);
      if u != w { WhitenedKeeps(w, o); }
    }
  }

  lemma {:induction false} NoBarrier(s: State, o: Ref, vs: seq<Value>)
    requires o in s.heap && s.heap[o].color != Black
    ensures BarrierAll(s, o, vs) == s
    decreases |vs|
  {
    if vs != [] { NoBarrier(s, o, vs[1..]); }
  }

  lemma {:induction false} BarrierAllMarks(s: State, o: Ref, vs: seq<Value>)
    requires o in s.heap && s.heap[o].color == Black && s.phase == Propagate && Marking(s, {o})
    ensures var t := BarrierAll(s, o, vs);
            && Marking(t, {o}) && Advance(s, t) && t.heap[o].color == Black
            && forall v :: v in vs && v.Obj? ==> !IsWhite(t, v.r)
    decreases |vs|
  {
    hide Marking, Mark;
    if vs == [] {
      assert Advance(s, s);
    } else {
      var v := vs[0];
      var s1 := Barrier(s, o, v);
      if v.Obj? && IsWhite(s, v.r) {
        var pushed := MarkGrew(s, v.r);
        GrewMarking(s, s1, pushed, {o});
      } else {
        assert Advance(s, s1);
      }
      BarrierAllMarks(s1, o, vs[1..]);
      AdvanceTrans(s, s1, BarrierAll(s1, o, vs[1..]));
      assert vs == [v] + vs[1..];
    }
  }

  lemma BarrierDone(w: State, u: State, o: Ref, c: Body, added: seq<Value>)
    requires o in w.heap && w.heap[o].body == c && w.heap[o].color == Black && !c.Table? && !c.Thread? && !c.Str?
    requires !c.OpenUpval?
    requires UpvalsListed(w) && NoneDead(w) && FixedKinds(w) && Marking(u, {o}) && Advance(w, u)
    requires u.heap[o].color == Black
    requires !IsWhite(w, w.main) && (w.registry.Obj? ==> !IsWhite(w, w.registry.r))
    requires forall v :: v in Contents(w.heap, c, STRONG) && v.Obj? && IsWhite(w, v.r) ==> v in added
    requires forall v :: v in added && v.Obj? ==> !IsWhite(u, v.r)
    ensures MarkPhase(u)
  {
    hide Contents, Reached;
    ShapeKeepsContents(w, u.(gray := w.gray, grayagain := w.grayagain, weak := w.weak), c, STRONG);
    AllReachedAt(u, o);
    assert Consistent(u, o);
    Returned(u, o);
    hide Marking;
    AdvanceMarkPhase(w, u);
  }

  lemma AllReachedAt(u: State, o: Ref)
    requires o in u.heap && forall v :: v in Contents(u.heap, u.heap[o].body, STRONG) && v.Obj? ==> !IsWhite(u, v.r)
    ensures Reached(u, o)
  {
  }

  lemma OnlyMarked(w: State, u: State)
    requires Owned(w, {}) && Closed(w) && Marking(u, {}) && Advance(w, u) && NoneDead(w)
    ensures Owned(u, {}) && Closed(u) && NeverBlackKinds(u) && u.heap.Keys == w.heap.Keys
  {
    hide Marking, Owned, Closed;
    AdvanceOwned(w, u);
    AdvanceClosedState(w, u);
    MarkingNeverBlack(u);
  }

  lemma {:induction false} BarrierAllWhitens(s: State, o: Ref, vs: seq<Value>)
    requires o in s.heap && s.phase != Propagate
    ensures BarrierAll(s, o, vs) == s || (s.heap[o].color == Black && BarrierAll(s, o, vs) == Whiten(s, o))
    decreases |vs|
  {
    hide Mark;
    if vs != [] {
      var s1 := Barrier(s, o, vs[0]);
      if s1 == s { BarrierAllWhitens(s, o, vs[1..]); } else { NoBarrier(s1, o, vs[1..]); }
    }
  }

  lemma WhitenedKeeps(s: State, o: Ref)
    requires o in s.heap && s.heap[o].color == Black && Owned(s, {}) && Closed(s) && NeverBlackKinds(s)
    requires PhaseInv(s) && s.phase != Propagate
    ensures Inv(Whiten(s, o)) && Whiten(s, o).heap.Keys == s.heap.Keys
  {
    hide Owned, Closed, PhaseInv;
    var u := Whiten(s, o);
    RepaintedOwned(s, u, {});
    RepaintedClosed(s, u);
    WhitenedPhase(s, o);
  }

  lemma WhitenedPhase(s: State, o: Ref)
    requires o in s.heap && PhaseInv(s) && s.phase != Propagate
    ensures PhaseInv(Whiten(s, o))
  {
    hide MarkPhase;
    var u := Whiten(s, o);
    forall us | AllFresh(s, us) ensures AllFresh(u, us) { }
    assert forall r :: RootFresh(s, r) ==> RootFresh(u, r);
    hide AllFresh, RootFresh;
  }

  // ----- stacks and roots --------------------------------------------------------------

  function SetStack(s: State, th: Ref, stack: seq<Value>): State
    requires IsThread(s, th)
  {
    SetBody(s, th, s.heap[th].body.(stack := stack))
  }

  lemma StackContents(s: State, th: Ref, stack: seq<Value>)
    requires Closed(s) && IsThread(s, th) && Alive(s, th) && AllAlive(s, stack)
    ensures AllAlive(s, Contents(s.heap, s.heap[th].body.(stack := stack), STRONG))
  {
    var g := s.heap[th].body.globals;
    assert g.Obj? ==> Refers(s.heap, th, g.r);
  }

  /** Stacks are written without a barrier: threads are never black. */
  lemma SetStackKeeps(s: State, th: Ref, stack: seq<Value>)
    requires Inv(s) && IsThread(s, th) && Alive(s, th) && AllAlive(s, stack) && SlotsFit(s, th, |stack|)
    ensures Inv(SetStack(s, th, stack)) && SetStack(s, th, stack).heap.Keys == s.heap.Keys
  {
    hide Owned, Closed, MarkPhase, AllAlive;
    var c := s.heap[th].body.(stack := stack);
    SetBodyOwned(s, th, c);
    StackContents(s, th, stack);
    SetBodyClosed(s, th, c);
    SetBodyNeverBlack(s, th, c);
    if s.phase == Propagate { SetBodyMarkPhase(s, th, c); } else { SetBodyPhase(s, th, c); }
  }

  lemma SetRootsKeeps(s: State, t: State)
    requires Inv(s) && t == s.(running := t.running, mt := t.mt) && IsThread(s, t.running)
    requires Alive(s, t.running) && AllAlive(s, t.mt)
    ensures Inv(t)
  {
    hide Owned, Contents, Marking;
    SwitchOwned(s, t);
    assert Closed(t) by {
      forall q | Obj(q) in Roots(t)
        ensures Alive(t, q)
      {
        assert Obj(q) in t.mt || Obj(q) in Roots(s) || q == t.running;
      }
      assert forall r :: Alive(t, r) <==> Alive(s, r);
    }
    if s.phase == Propagate {
      SameMarking(s, t);
    } else {
      assert forall us :: AllFresh(s, us) ==> AllFresh(t, us);
      assert forall r :: RootFresh(s, r) ==> RootFresh(t, r);
    }
  }

  lemma SwitchOwned(s: State, t: State)
    requires Owned(s, {}) && t == s.(running := t.running, mt := t.mt) && IsThread(t, t.running)
    ensures Owned(t, {})
  {
    hide StringsOwned, RootsOwned, UpvalsOwned;
    OwnedSlots(s);
    StringsSame(s, t);
    RootsSame(s, t, {});
    UpvalsSame(s, t);
    FixedSame(s, t);
  }

  lemma SameMarking(s: State, t: State)
    requires Marking(s, {}) && t == s.(running := t.running, mt := t.mt)
    ensures Marking(t, {})
  {
    SameReached(s, t);
    hide Reached;
    forall r | r in t.heap ensures Consistent(t, r) { assert Consistent(s, r); }
  }
}

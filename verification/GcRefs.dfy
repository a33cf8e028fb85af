/** What the collector's notion of a reference comes to: for each kind of object the fields that hold
    the reference, and for weak tables what a full collection leaves in them. */
module GcRefs {
  import opened GcHeap
  import opened GcMark
  import opened GcCycle
  import opened GcClear
  import opened GcSweep
  import opened GcSteps
  import opened GcFull

  // ----- references by the fields ----------------------------------------------------------

  /** An object's references: each field that can hold one, of each kind of object. */
  lemma RefersExactly(h: Heap, r: Ref, q: Ref)
    requires r in h
    ensures Refers(h, r, q) <==>
              match h[r].body
              case Str(_) => false
              case Udata(meta, env) => meta == Metatable(q) || env == q
              case ClosedUpval(v) => v == Obj(q)
              case OpenUpval(th, slot) =>
                th in h && h[th].body.Thread? && slot < |h[th].body.stack| && h[th].body.stack[slot] == Obj(q)
              case CClosure(env, upvalues) => env == q || Obj(q) in upvalues
              case LClosure(env, proto, upvals) => env == q || proto == q || Obj(q) in upvals
              case Table(meta, _, arr, nodes) =>
                || meta == Metatable(q) || Obj(q) in arr
                || exists e :: e in nodes && e.1 != Nil && (e.0 == Obj(q) || e.1 == Obj(q))
              case Thread(globals, stack, _) => globals == Obj(q) || Obj(q) in stack
              case Proto(source, k, names, protos, locals) =>
                source == Obj(q) || Obj(q) in k || Obj(q) in names || Obj(q) in protos || Obj(q) in locals
  {
    var b := h[r].body;
    if b.Table? { TableRefers(b, STRONG, q); }
  }

  lemma TableRefers(b: Body, m: Mode, q: Ref)
    requires b.Table?
    ensures Obj(q) in TableValues(b, m) <==>
              || (!m.values && Obj(q) in b.arr)
              || exists e :: e in b.nodes && e.1 != Nil && ((!m.keys && e.0 == Obj(q)) || (!m.values && e.1 == Obj(q)))
  {
    forall e ensures Obj(q) in EntryValues(e, m) <==>
                       e.1 != Nil && ((!m.keys && e.0 == Obj(q)) || (!m.values && e.1 == Obj(q)))
    {}
  }

  /** The metatable says that keys are weak. */
  predicate WeakKeys(h: Heap, m: Meta) {
    (m.RomMeta? && m.weakness.keys) || (m.Metatable? && m.t in h && h[m.t].body.Table? && h[m.t].body.mode.keys)
  }

  predicate WeakValues(h: Heap, m: Meta) {
    (m.RomMeta? && m.weakness.values) || (m.Metatable? && m.t in h && h[m.t].body.Table? && h[m.t].body.mode.values)
  }

  /** What a table holds: its metatable; the values in its array and its entries unless values are
      weak; the keys of entries that have a value unless keys are weak. */
  lemma TableHolds(h: Heap, r: Ref, q: Ref)
    requires r in h && h[r].body.Table?
    ensures var b := h[r].body;
            StrongRefers(h, r, q) <==>
              || b.meta == Metatable(q)
              || (!WeakValues(h, b.meta) && Obj(q) in b.arr)
              || (!WeakValues(h, b.meta) && exists e :: e in b.nodes && e.1 == Obj(q))
              || (!WeakKeys(h, b.meta) && exists e :: e in b.nodes && e.1 != Nil && e.0 == Obj(q))
  {
    TableRefers(h[r].body, ModeOf(h, h[r].body.meta), q);
  }

  /** Everything else holds what it refers to. */
  lemma OthersHold(h: Heap, r: Ref, q: Ref)
    requires r in h && !h[r].body.Table?
    ensures StrongRefers(h, r, q) <==> Refers(h, r, q)
  {
  }

  /** The roots: the main thread, the running thread, the registry and the basic metatables. */
  lemma RootsExactly(s: State, q: Ref)
    ensures Obj(q) in Roots(s) <==> q == s.main || q == s.running || s.registry == Obj(q) || Obj(q) in s.mt
  {
  }

  // ----- tables after a full collection --------------------------------------------------------

  /** A table in which entries have been dropped only because of keys or values that nothing holds. */
  ghost predicate OnlyUnheldGone(s: State, b: Body, c: Body)
    requires b.Table?
  {
    && c.Table? && c.meta == b.meta && c.mode == b.mode && |c.arr| == |b.arr| && |c.nodes| == |b.nodes|
    && (forall i :: 0 <= i < |b.arr| && c.arr[i] != b.arr[i] ==> c.arr[i] == Nil && Unheld(s, b.arr[i]))
    && (forall i :: 0 <= i < |b.nodes| && c.nodes[i] != b.nodes[i] ==>
          c.nodes[i] == (b.nodes[i].0, Nil) && (Unheld(s, b.nodes[i].0) || Unheld(s, b.nodes[i].1)))
  }

  /** A cycle that starts with all objects white. */
  lemma CycleTables(s: State, t: Ref)
    requires Inv(s) && s.phase == Finalize && StrongReachable(s, t) && IsTable(s, t)
    ensures Inv(MarkRoot(s))
    ensures var u := Collect(MarkRoot(s)); t in u.heap && OnlyUnheldGone(s, s.heap[t].body, u.heap[t].body)
  {
    hide Inv, Marking, MarkRoot, PropagateAll, Atomic, AtomicMark, Collect, StrongReachable, HeldWeakly, StrongClosed,
         Reclaimed, MarkPhase, AllWhite, Advance, StrongSet;
    MarkRootKeeps(s);
    var s1 := MarkRoot(s);
    assert Advance(s.(phase := Propagate), s1) by { StrongSetClosed(s); RootMarked(s, StrongSet(s)); }
    CollectMarks(s1);
    MarkPhaseHas(s1);
    var m := PropagateAll(s1);
    MarkPhaseHas(m);
    SameStart(s, s1, m);
    AtomicKeeps2(m);
    var a := Atomic(m);
    InvParts(m);
    OnlyUnreachableCleared(m, t);
    CollectSweeps(a);
    CycleKeeps(s);
    KindKept(a, Collect(a), t);
    forall v ensures Unheld(m, v) <==> Unheld(s, v) {}
  }

  /** The sweep before the cycle. */
  lemma SweptTables(s: State, r: State, t: Ref)
    requires Reclaimed(s, r) && UpvalsOwned(r) && Closed(s) && Closed(r) && StrongReachable(s, t) && IsTable(s, t)
    ensures StrongReachable(r, t) && IsTable(r, t) && r.heap[t].body == s.heap[t].body
    ensures forall v :: Unheld(r, v) ==> Unheld(s, v)
  {
    hide StrongReachable, UpvalsOwned, Closed, Reclaimed, HeldWeakly;
    ReclaimedReachable(s, r);
    TableKept(s, r, t, t);
    forall v | Unheld(r, v) ensures Unheld(s, v) { KindKept(s, r, v.r); }
  }

  lemma FullGcShrinks(s: State, t: Ref)
    requires Inv(s) && StrongReachable(s, t) && IsTable(s, t)
    ensures var u := FullGc(s); t in u.heap && OnlyUnheldGone(s, s.heap[t].body, u.heap[t].body)
  {
    hide Owned, Closed, NeverBlackKinds, PhaseInv, FinishSweep, MarkRoot, Collect, StrongReachable, Reclaimed,
         UpvalsOwned, StartSweep, Unheld;
    StartSweepKeeps(s);
    var r0 := StartSweep(s);
    FinishSweepEnds(r0);
    var t0 := FinishSweep(r0);
    OwnedUpvals(t0, {});
    ReclaimedTrans(s, r0, t0);
    SweptTables(s, t0, t);
    CycleTables(t0, t);
  }

  /** What is left of an entry. */
  ghost function Left(s: State, e: (Value, Value)): (Value, Value) {
    if e.1 != Nil && (Unheld(s, e.0) || Unheld(s, e.1)) then (e.0, Nil) else e
  }

  /** A table that is held, after a full collection: exactly the values and entries are gone whose value
      or key is an object, not a string, that nothing holds. */
  lemma TablesAfterFullGc(s: State, t: Ref)
    requires Inv(s) && StrongReachable(s, t) && IsTable(s, t)
    ensures t in FullGc(s).heap && FullGc(s).heap[t].body.Table?
    ensures var b, c := s.heap[t].body, FullGc(s).heap[t].body;
            && c.meta == b.meta && c.mode == b.mode && |c.arr| == |b.arr| && |c.nodes| == |b.nodes|
            && (forall i :: 0 <= i < |b.arr| ==> c.arr[i] == if Unheld(s, b.arr[i]) then Nil else b.arr[i])
            && (forall i :: 0 <= i < |b.nodes| ==> c.nodes[i] == Left(s, b.nodes[i]))
  {
    hide Inv, FullGc, StrongReachable, Unheld;
    var b, u := s.heap[t].body, FullGc(s);
    FullGcShrinks(s, t);
    var c := u.heap[t].body;
    forall i | 0 <= i < |b.arr| && Unheld(s, b.arr[i]) ensures c.arr[i] != b.arr[i] {
      UnheldObject(s, b.arr[i]);
      if c.arr[i] == b.arr[i] {
        ArrayRefers(u.heap, t, b.arr[i].r);
        NotLeft(s, t, b.arr[i]);
      }
    }
    forall i | 0 <= i < |b.nodes| && b.nodes[i].1 != Nil && (Unheld(s, b.nodes[i].0) || Unheld(s, b.nodes[i].1))
      ensures c.nodes[i] != b.nodes[i]
    {
      if c.nodes[i] == b.nodes[i] {
        var v := if Unheld(s, b.nodes[i].0) then b.nodes[i].0 else b.nodes[i].1;
        UnheldObject(s, v);
        EntryRefers(u.heap, t, b.nodes[i]);
        NotLeft(s, t, v);
      }
    }
  }

  lemma UnheldObject(s: State, v: Value)
    requires Unheld(s, v)
    ensures v.Obj?
  {
  }

  /** Nothing in the heap after a full collection refers to what nothing held. */
  lemma NotLeft(s: State, t: Ref, v: Value)
    requires Inv(s) && Unheld(s, v) && v.Obj? && t in FullGc(s).heap
    ensures !Refers(FullGc(s).heap, t, v.r)
  {
    hide Inv, FullGc, StrongReachable, Refers, Closed, AllWhite;
    var u := FullGc(s);
    FullGcExact(s);
    FullGcEnds(s);
    InvParts(u);
    if Refers(u.heap, t, v.r) {
      assert Alive(u, t) by { WhiteAlive(u, t); }
      ReferenceAlive(u, t, v.r);
      if s.heap[v.r].fixed { FixedHeld(s, v.r); }
    }
  }

  lemma WhiteAlive(u: State, t: Ref)
    requires AllWhite(u) && t in u.heap
    ensures Alive(u, t)
  {
  }

  lemma FixedHeld(s: State, r: Ref)
    requires Inv(s) && r in s.heap && s.heap[r].fixed
    ensures s.heap[r].body.Str? || StrongReachable(s, r)
  {
    hide StrongReachable, PhaseInv, Closed, NeverBlackKinds;
    if !s.heap[r].body.Str? {
      OwnedFixed(s);
      RootStrong(s, r);
    }
  }

  lemma OwnedFixed(s: State)
    requires Owned(s, {})
    ensures FixedOwned(s)
  {
    hide FixedOwned;
  }

  /** An entry of a table with weak keys stays, with its value, as long as something holds the key. */
  lemma WeakKeyEntryStays(s: State, t: Ref, i: nat)
    requires Inv(s) && StrongReachable(s, t) && IsTable(s, t) && i < |s.heap[t].body.nodes|
    requires WeakKeys(s.heap, s.heap[t].body.meta) && !WeakValues(s.heap, s.heap[t].body.meta)
    requires var k := s.heap[t].body.nodes[i].0; k.Obj? ==> StrongReachable(s, k.r)
    ensures var e, u := s.heap[t].body.nodes[i], FullGc(s);
            && t in u.heap && u.heap[t].body.Table? && i < |u.heap[t].body.nodes| && u.heap[t].body.nodes[i] == e
            && (e.0.Obj? ==> e.0.r in u.heap) && (e.1.Obj? ==> e.1.r in u.heap)
  {
    hide Inv, FullGc, StrongReachable, HeldWeakly, StrongRefers;
    var e := s.heap[t].body.nodes[i];
    TablesAfterFullGc(s, t);
    FullGcExact(s);
    if e.1.Obj? {
      TableHolds(s.heap, t, e.1.r);
      StrongExtends(s, t, e.1.r);
    }
  }

  /** An entry of a table with weak values stays, with its key, as long as something holds the value. */
  lemma WeakValueEntryStays(s: State, t: Ref, i: nat)
    requires Inv(s) && StrongReachable(s, t) && IsTable(s, t) && i < |s.heap[t].body.nodes|
    requires WeakValues(s.heap, s.heap[t].body.meta) && !WeakKeys(s.heap, s.heap[t].body.meta)
    requires var v := s.heap[t].body.nodes[i].1; v != Nil && (v.Obj? ==> StrongReachable(s, v.r))
    ensures var e, u := s.heap[t].body.nodes[i], FullGc(s);
            && t in u.heap && u.heap[t].body.Table? && i < |u.heap[t].body.nodes| && u.heap[t].body.nodes[i] == e
            && (e.0.Obj? ==> e.0.r in u.heap) && (e.1.Obj? ==> e.1.r in u.heap)
  {
    hide Inv, FullGc, StrongReachable, HeldWeakly, StrongRefers;
    var e := s.heap[t].body.nodes[i];
    TablesAfterFullGc(s, t);
    FullGcExact(s);
    if e.0.Obj? {
      TableHolds(s.heap, t, e.0.r);
      StrongExtends(s, t, e.0.r);
    }
  }
}

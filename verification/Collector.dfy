/** The collector as the program runs it: one object whose fields the steps update in place. Each
    method is tied to the function on states that GcMark to GcFull reason about. */
module Collector {
  import opened GcHeap
  import opened GcMark
  import opened GcCycle
  import opened GcClear
  import opened GcSweep
  import opened GcSteps
  import opened GcMutator
  import opened GcAlloc
  import opened GcFull
  import opened GcRuns

  lemma {:induction false} MarkAllCat(s: State, a: seq<Value>, b: seq<Value>)
    ensures MarkAll(s, a + b) == MarkAll(MarkAll(s, a), b)
    decreases |a|
  {
    hide MarkValue;
    if a == [] {
      assert a + b == b;
    } else {
      assert (a + b)[1..] == a[1..] + b;
      MarkAllCat(MarkValue(s, a[0]), a[1..], b);
    }
  }

  lemma MarkAllOne(s: State, v: Value)
    ensures MarkAll(s, [v]) == MarkValue(s, v)
  {
    assert MarkAll(s, [v]) == MarkAll(MarkValue(s, v), []);
  }

  lemma MarkAllHead(s: State, v: Value, vs: seq<Value>)
    ensures MarkAll(s, [v] + vs) == MarkAll(MarkValue(s, v), vs)
  {
    assert ([v] + vs)[1..] == vs;
  }

  lemma OpenSwept(s: State, th: Ref, k: nat)
    requires IsThread(s, th) && k < |s.heap[th].body.open| && s.heap[th].body.open[k] in s.heap
    ensures var u := s.heap[th].body.open[k];
            SweepOpenAt(s, th, k) == if Dead(s, u) then FreeOpen(s, th, k) else Whiten(s, u)
  {
  }

  lemma StringSwept(s: State, i: nat, k: nat)
    requires i < |s.strt| && k < |s.strt[i]| && s.strt[i][k] in s.heap
    ensures SweepStringAt(s, i, k) == if Dead(s, s.strt[i][k]) then FreeString(s, i, k) else Whiten(s, s.strt[i][k])
  {
  }

  lemma SweepInRange(s: State)
    requires SweptRoots(s)
    ensures s.sweep <= |s.root|
  {
  }

  class GlobalState {
    var heap: Heap
    var gray: seq<Ref>
    var grayagain: seq<Ref>
    var weak: seq<Ref>
    var uvhead: seq<Ref>
    var strt: seq<seq<Ref>>
    var root: seq<Ref>
    var white: bool
    var phase: Phase
    var sweepstr: nat
    var sweep: nat
    var main: Ref
    var running: Ref
    var registry: Value
    var mt: seq<Value>
    /** The flag that keeps the collector from running. */
    var blocked: bool

    function Now(): State
      reads this
    {
      State(heap, gray, grayagain, weak, uvhead, strt, root, white, phase, sweepstr, sweep, main, running, registry, mt)
    }

    constructor (buckets: nat, stack: seq<Value>)
      requires buckets > 0
      ensures Now() == Initial(buckets, stack) && !blocked
    {
      blocked := false;
      heap := map[0 := Object(White(false), true, Thread(Obj(1), stack, [])),
                  1 := Object(White(false), false, Table(NoMeta, STRONG, [], [])),
                  2 := Object(White(false), false, Table(NoMeta, STRONG, [], []))];
      gray, grayagain, weak, uvhead, strt, root := [], [], [], [], seq(buckets, _ => []), [2, 1, 0];
      white, phase, sweepstr, sweep, main, running, registry, mt := false, Pause, 0, 0, 0, 0, Obj(2), [];
    }

    // ----- marking -----------------------------------------------------------------------

    method SetColor(r: Ref, c: Color)
      requires r in heap
      modifies this`heap
      ensures Now() == Paint(old(Now()), r, c)
    {
      heap := heap[r := heap[r].(color := c)];
    }

    method ReallyMark(r: Ref)
      requires IsWhite(Now(), r)
      modifies this
      ensures Now() == Mark(old(Now()), r)
      decreases Whites(Now()), 0
    {
      ghost var s := Now();
      Smaller(s, r);
      SetColor(r, Gray);
      match heap[r].body {
        case Str(_) =>
        case Udata(meta, env) =>
          SetColor(r, Black);
          ghost var s2 := Now();
          MarkAllHead(s2, MetaValue(meta), [Obj(env)]);
          MarkAllOne(MarkValue(s2, MetaValue(meta)), Obj(env));
          assert [MetaValue(meta), Obj(env)] == [MetaValue(meta)] + [Obj(env)];
          MarkIfWhite(MetaValue(meta));
          MarkIfWhite(Obj(env));
        case ClosedUpval(v) =>
          MarkIfWhite(v);
          SetColor(r, Black);
        case OpenUpval(th, slot) => MarkIfWhite(SlotValue(heap, th, slot));
        case _ => gray := [r] + gray;
      }
    }

    method MarkIfWhite(v: Value)
      modifies this
      ensures Now() == MarkValue(old(Now()), v)
      decreases Whites(Now()), 1
    {
      if v.Obj? && v.r in heap && heap[v.r].color.White? { ReallyMark(v.r); }
    }

    method MarkArray(vs: seq<Value>)
      modifies this
      ensures Now() == MarkAll(old(Now()), vs)
    {
      for i := 0 to |vs|
        invariant MarkAll(Now(), vs[i..]) == MarkAll(old(Now()), vs)
      {
        assert vs[i..][1..] == vs[i + 1..];
        MarkIfWhite(vs[i]);
      }
      assert vs[|vs|..] == [];
    }

    method MarkArrayBackwards(vs: seq<Value>)
      modifies this
      ensures Now() == MarkAll(old(Now()), Backwards(vs))
    {
      assert vs[..|vs|] == vs;
      for i := |vs| downto 0
        invariant MarkAll(Now(), Backwards(vs[..i])) == MarkAll(old(Now()), Backwards(vs))
      {
        assert vs[..i + 1][..i] == vs[..i];
        MarkAllHead(Now(), vs[i], Backwards(vs[..i]));
        MarkIfWhite(vs[i]);
      }
    }

    method MarkNodes(nodes: seq<(Value, Value)>, m: Mode)
      modifies this
      ensures Now() == MarkAll(old(Now()), NodeValues(nodes, m))
    {
      assert nodes[..|nodes|] == nodes;
      for i := |nodes| downto 0
        invariant MarkAll(Now(), NodeValues(nodes[..i], m)) == MarkAll(old(Now()), NodeValues(nodes, m))
      {
        assert nodes[..i + 1][..i] == nodes[..i];
        var e := nodes[i];
        ghost var s := Now();
        MarkAllCat(s, EntryValues(e, m), NodeValues(nodes[..i], m));
        EntryMarks(s, e, m);
        if e.1 != Nil {
          if !m.keys { MarkIfWhite(e.0); }
          if !m.values { MarkIfWhite(e.1); }
        }
      }
    }

    static lemma EntryMarks(s: State, e: (Value, Value), m: Mode)
      ensures MarkAll(s, EntryValues(e, m)) ==
              if e.1 == Nil then s
              else
                var s1 := if m.keys then s else MarkValue(s, e.0);
                if m.values then s1 else MarkValue(s1, e.1)
    {
      MarkAllOne(s, e.0);
      MarkAllOne(s, e.1);
      MarkAllOne(MarkValue(s, e.0), e.1);
      MarkAllHead(s, e.0, [e.1]);
    }

    /** The result tells whether the table is weak. */
    method TraverseTable(o: Ref) returns (isWeak: bool)
      requires IsTable(Now(), o)
      modifies this
      ensures var s, m := old(Now()), ModeOf(old(heap), old(heap[o].body.meta));
              var s2 := MarkValue(s, MetaValue(old(heap[o].body.meta)));
              var s3 := if m == STRONG then s2 else s2.(weak := [o] + s2.weak);
              Now() == MarkAll(s3, TableValues(old(heap[o].body), m)) && isWeak == (m != STRONG)
    {
      var b := heap[o].body;
      var m := ModeOf(heap, b.meta);
      MarkIfWhite(MetaValue(b.meta));
      if m.keys || m.values { weak := [o] + weak; }
      if m.keys && m.values {
        NoValues(b.nodes);
        return true;
      }
      MarkAllCat(Now(), if m.values then [] else Backwards(b.arr), NodeValues(b.nodes, m));
      if !m.values { MarkArrayBackwards(b.arr); }
      MarkNodes(b.nodes, m);
      isWeak := m.keys || m.values;
    }

    static lemma {:induction false} NoValues(nodes: seq<(Value, Value)>)
      ensures NodeValues(nodes, Mode(true, true)) == []
      decreases |nodes|
    {
      if nodes != [] { NoValues(nodes[..|nodes| - 1]); }
    }

    /** Traverse what is not a table. */
    method TraverseOther(b: Body)
      requires !b.Table?
      modifies this
      ensures Now() == MarkAll(old(Now()), Contents(old(heap), b, STRONG))
    {
      ghost var s := Now();
      if b.CClosure? {
        MarkAllHead(s, Obj(b.env), b.upvalues);
        MarkIfWhite(Obj(b.env));
        MarkArray(b.upvalues);
      } else if b.LClosure? {
        assert [Obj(b.env), Obj(b.proto)] + b.upvals == [Obj(b.env)] + ([Obj(b.proto)] + b.upvals);
        MarkAllHead(s, Obj(b.env), [Obj(b.proto)] + b.upvals);
        MarkIfWhite(Obj(b.env));
        MarkAllHead(Now(), Obj(b.proto), b.upvals);
        MarkIfWhite(Obj(b.proto));
        MarkArray(b.upvals);
      } else if b.Thread? {
        MarkAllHead(s, b.globals, b.stack);
        MarkIfWhite(b.globals);
        MarkArray(b.stack);
      } else if b.Proto? {
        TraverseProto(b);
      } else {
        MarkArray(Contents(heap, b, STRONG));
      }
    }

    method TraverseProto(b: Body)
      requires b.Proto?
      modifies this
      ensures Now() == MarkAll(old(Now()), [b.source] + b.k + b.upvalueNames + b.protos + b.localNames)
    {
      ghost var s := Now();
      ghost var tail := b.protos + b.localNames;
      assert [b.source] + b.k + b.upvalueNames + b.protos + b.localNames
          == [b.source] + (b.k + (b.upvalueNames + tail));
      MarkAllHead(s, b.source, b.k + (b.upvalueNames + tail));
      MarkIfWhite(b.source);
      MarkAllCat(Now(), b.k, b.upvalueNames + tail);
      MarkArray(b.k);
      MarkAllCat(Now(), b.upvalueNames, tail);
      MarkArray(b.upvalueNames);
      MarkAllCat(Now(), b.protos, b.localNames);
      MarkArray(b.protos);
      MarkArray(b.localNames);
    }

    /** Traverse the first gray object. */
    method PropagateOne()
      requires gray != [] && gray[0] in heap
      modifies this
      ensures Now() == PropagateMark(old(Now()))
    {
      hide MarkAll, MarkValue, TableValues, IsWhite, Contents, ModeOf;
      var o := gray[0];
      SetColor(o, Black);
      gray := gray[1..];
      SameMode(old(Now()), Now(), heap[o].body);
      if heap[o].body.Table? {
        var isWeak := TraverseTable(o);
        if isWeak { SetColor(o, Gray); }
      } else if heap[o].body.Thread? {
        ThreadContents(heap[o].body);
        grayagain := [o] + grayagain;
        SetColor(o, Gray);
        TraverseOther(heap[o].body);
      } else {
        TraverseOther(heap[o].body);
      }
    }

    static lemma SameMode(s: State, t: State, b: Body)
      requires SameShape(s, t)
      ensures b.Table? ==> ModeOf(t.heap, b.meta) == ModeOf(s.heap, b.meta)
      ensures Contents(t.heap, b, STRONG) == Contents(s.heap, b, STRONG)
    {
      ShapeKeepsContents(s, t, b, STRONG);
    }

    static lemma ThreadContents(b: Body)
      requires b.Thread?
      ensures forall h, g: Heap :: Contents(h, b, STRONG) == Contents(g, b, STRONG)
    {
    }

    method PropagateRest()
      requires Marking(Now(), {})
      modifies this
      ensures Now() == PropagateAll(old(Now()))
    {
      hide Marking, Advance, PropagateMark, Traversed, Whites;
      while gray != []
        invariant Marking(Now(), {}) && PropagateAll(Now()) == PropagateAll(old(Now()))
        decreases Whites(Now()), |gray|
      {
        PropagateMarkKeeps(Now());
        AdvanceWhites(Now(), PropagateMark(Now()));
        PropagateOne();
      }
    }

    method StartCycle()
      modifies this
      ensures Now() == MarkRoot(old(Now()))
    {
      hide MarkAll, MarkValue;
      gray, grayagain, weak := [], [], [];
      MarkRoots(main, registry, mt);
      phase := Propagate;
    }

    method MarkRoots(l: Ref, reg: Value, mts: seq<Value>)
      modifies this
      ensures Now() == MarkAll(old(Now()), [Obj(l), ThreadGlobals(old(Now()), l), reg] + mts)
    {
      hide MarkAll, MarkValue, ThreadGlobals;
      ghost var s := Now();
      ghost var g := ThreadGlobals(s, l);
      MarkRootOrder(s, l, g, reg, mts);
      MarkIfWhite(Obj(l));
      KeepsGlobals(s, Obj(l), l);
      MarkIfWhite(ThreadGlobals(Now(), l));
      MarkIfWhite(reg);
      MarkArray(mts);
    }

    static lemma MarkRootOrder(s: State, l: Ref, g: Value, reg: Value, mts: seq<Value>)
      ensures MarkAll(s, [Obj(l), g, reg] + mts) == MarkAll(MarkValue(MarkValue(MarkValue(s, Obj(l)), g), reg), mts)
    {
      assert [Obj(l), g, reg] + mts == [Obj(l)] + ([g] + ([reg] + mts));
      MarkAllHead(s, Obj(l), [g] + ([reg] + mts));
      var s1 := MarkValue(s, Obj(l));
      MarkAllHead(s1, g, [reg] + mts);
      MarkAllHead(MarkValue(s1, g), reg, mts);
    }

    static lemma KeepsGlobals(s: State, v: Value, th: Ref)
      ensures ThreadGlobals(MarkValue(s, v), th) == ThreadGlobals(s, th)
    {
      var pushed := MarkValueGrew(s, v);
    }

    // ----- the atomic step ---------------------------------------------------------------

    method Remark()
      modifies this
      ensures Now() == RemarkUpvals(old(Now()), old(uvhead))
    {
      var us := uvhead;
      for i := 0 to |us|
        invariant RemarkUpvals(Now(), us[i..]) == RemarkUpvals(old(Now()), us)
      {
        assert us[i..][1..] == us[i + 1..];
        var u := us[i];
        if u in heap && heap[u].color == Gray && heap[u].body.OpenUpval? {
          MarkIfWhite(SlotValue(heap, heap[u].body.thread, heap[u].body.slot));
        }
      }
      assert us[|us|..] == [];
    }

    method KeepString(v: Value)
      modifies this
      ensures Now() == Keep(old(Now()), v)
    {
      if v.Obj? && v.r in heap && heap[v.r].color.White? && heap[v.r].body.Str? { SetColor(v.r, Gray); }
    }

    /** Whether a key or value can be cleared; a string is marked instead. */
    method IsCleared(v: Value) returns (lost: bool)
      modifies this
      ensures lost == Lost(old(Now()), v)
      ensures Now() == if lost then old(Now()) else Keep(old(Now()), v)
    {
      if !v.Obj? || v.r !in heap { return false; }
      if heap[v.r].body.Str? {
        KeepString(v);
        return false;
      }
      return heap[v.r].color.White?;
    }

    method ClearOne(t: Ref)
      requires IsTable(Now(), t)
      modifies this
      ensures Now() == ClearTable(old(Now()), t)
    {
      var m := ModeOf(heap, heap[t].body.meta);
      ghost var s := Now();
      if m.values {
        ClearArrayCleans(s, t, |heap[t].body.arr|);
        ClearValues(t);
      }
      ghost var s1 := Now();
      var j := |heap[t].body.nodes|;
      ghost var k := j;
      while j > 0
        invariant IsTable(Now(), t) && 0 <= j <= |heap[t].body.nodes|
        invariant ClearNodes(Now(), t, j) == ClearNodes(s1, t, k)
      {
        j := j - 1;
        ClearOneNode(t, j);
      }
    }

    method ClearValues(t: Ref)
      requires IsTable(Now(), t)
      modifies this
      ensures Now() == ClearArray(old(Now()), t, |old(heap[t].body.arr)|)
    {
      hide Lost, Keep;
      ghost var s, n := Now(), |heap[t].body.arr|;
      var i := |heap[t].body.arr|;
      while i > 0
        invariant IsTable(Now(), t) && 0 <= i <= |heap[t].body.arr|
        invariant ClearArray(Now(), t, i) == ClearArray(s, t, n)
      {
        i := i - 1;
        KeepCleans(Now(), heap[t].body.arr[i]);
        var lost := IsCleared(heap[t].body.arr[i]);
        if lost { heap := heap[t := heap[t].(body := heap[t].body.(arr := heap[t].body.arr[i := Nil]))]; }
      }
    }

    method ClearOneNode(t: Ref, i: nat)
      requires IsTable(Now(), t) && i < |heap[t].body.nodes|
      modifies this
      ensures Now() == ClearNode(old(Now()), t, i)
      ensures IsTable(Now(), t) && |heap[t].body.nodes| == |old(heap[t].body.nodes)|
    {
      ghost var s := Now();
      ClearNodeCleans(s, t, i);
      var e := heap[t].body.nodes[i];
      if e.1 != Nil {
        KeepCleans(s, e.0);
        KeepCleans(Keep(s, e.0), e.1);
        var lost := IsCleared(e.0);
        if !lost { lost := IsCleared(e.1); }
        if lost { heap := heap[t := heap[t].(body := heap[t].body.(nodes := heap[t].body.nodes[i := (e.0, Nil)]))]; }
      }
    }

    method ClearTables()
      modifies this
      ensures Now() == ClearAll(old(Now()), old(weak))
    {
      hide ClearTable;
      var ts := weak;
      for i := 0 to |ts|
        invariant ClearAll(Now(), ts[i..]) == ClearAll(old(Now()), ts)
      {
        assert ts[i..][1..] == ts[i + 1..];
        if ts[i] in heap && heap[ts[i]].body.Table? { ClearOne(ts[i]); } else { NotTable(Now(), ts[i]); }
      }
      assert ts[|ts|..] == [];
    }

    static lemma NotTable(s: State, t: Ref)
      requires !IsTable(s, t)
      ensures ClearTable(s, t) == s
    {
    }

    method RemarkAndPropagate()
      requires Marking(Now(), {}) && UpvalsListed(Now())
      modifies this
      ensures Now() == AtomicUpvals(old(Now()))
    {
      hide RemarkUpvals, PropagateAll, Marking;
      RemarkKeeps(Now(), uvhead);
      Remark();
      PropagateRest();
    }

    method RemarkWeak()
      requires Marking(Now(), {}) && gray == []
      modifies this
      ensures Now() == AtomicWeak(old(Now()))
    {
      hide MarkAll, MarkValue, PropagateAll, Marking, Advance;
      WeakToGray(Now());
      var l, mts := running, mt;
      gray := weak;
      weak := [];
      ghost var s := Now();
      MarkAllMarking(s, [Obj(l)] + mts);
      MarkAllHead(s, Obj(l), mts);
      MarkIfWhite(Obj(l));
      MarkArray(mts);
      PropagateRest();
    }

    method RemarkAgain()
      requires Marking(Now(), {}) && gray == []
      modifies this
      ensures Now() == AtomicAgain(old(Now()))
    {
      hide PropagateAll, Marking;
      AgainToGray(Now());
      gray := grayagain;
      grayagain := [];
      PropagateRest();
    }

    method AtomicStep()
      requires MarkPhase(Now())
      modifies this
      ensures Now() == Atomic(old(Now()))
    {
      hide AtomicUpvals, AtomicWeak, AtomicAgain, ClearAll, Marking, Advance;
      ghost var s := Now();
      var w := white;
      AtomicUpvalsKeeps(s);
      RemarkAndPropagate();
      AtomicWeakKeeps(Now());
      RemarkWeak();
      RemarkAgain();
      ClearTables();
      white := !w;
      sweepstr := 0;
      sweep := 0;
      phase := SweepString;
    }

    // ----- sweeping ----------------------------------------------------------------------

    method FreeUpval(th: Ref, k: nat)
      requires IsThread(Now(), th) && k < |heap[th].body.open|
      modifies this
      ensures Now() == FreeOpen(old(Now()), th, k)
    {
      var o := heap[th];
      var u := o.body.open[k];
      heap := heap[th := o.(body := o.body.(open := o.body.open[..k] + o.body.open[k + 1..]))];
      uvhead := Without(uvhead, u);
      heap := heap - {u};
    }

    method SweepThread(th: Ref)
      requires Owned(Now(), {}) && IsThread(Now(), th)
      modifies this
      ensures Now() == SweepOpen(old(Now()), th, 0)
    {
      hide Owned, SweepOpenAt, FreeOpen;
      var k := 0;
      while k < |heap[th].body.open|
        invariant Owned(Now(), {}) && IsThread(Now(), th) && 0 <= k <= |heap[th].body.open|
        invariant SweepOpen(Now(), th, k) == SweepOpen(old(Now()), th, 0)
        decreases |heap[th].body.open| - k
      {
        SweepOpenAtOwned(Now(), th, k);
        var u := heap[th].body.open[k];
        OpenSwept(Now(), th, k);
        if heap[u].color == White(!white) && !heap[u].fixed {
          FreeUpval(th, k);
        } else {
          SetColor(u, White(white));
          k := k + 1;
        }
      }
    }

    method SweepStrings(i: nat)
      requires Owned(Now(), {}) && i < |strt|
      modifies this
      ensures Now() == SweepBucket(old(Now()), i, 0)
    {
      hide Owned, SweepStringAt;
      var k := 0;
      while k < |strt[i]|
        invariant Owned(Now(), {}) && i < |strt| && 0 <= k <= |strt[i]|
        invariant SweepBucket(Now(), i, k) == SweepBucket(old(Now()), i, 0)
        decreases |strt[i]| - k
      {
        SweepStringAtOwned(Now(), i, k);
        var r := strt[i][k];
        StringSwept(Now(), i, k);
        if heap[r].color == White(!white) && !heap[r].fixed {
          strt := strt[i := strt[i][..k] + strt[i][k + 1..]];
          heap := heap - {r};
        } else {
          SetColor(r, White(white));
          k := k + 1;
        }
      }
    }

    /** The forward barrier. */
    method BarrierF(o: Ref, v: Ref)
      requires o in heap && IsWhite(Now(), v)
      modifies this
      ensures Now() == BarrierForward(old(Now()), o, v)
    {
      if phase == Propagate { ReallyMark(v); } else { SetColor(o, White(white)); }
    }

    /** The back barrier. */
    method BarrierB(t: Ref)
      requires t in heap && heap[t].color == Black
      modifies this
      ensures Now() == Paint(old(Now()), t, Gray).(grayagain := [t] + old(grayagain))
    {
      SetColor(t, Gray);
      grayagain := [t] + grayagain;
    }

    /** A table gets new contents, with the back barrier for each value that is new in it. */
    method WriteToTable(t: Ref, c: Body, added: seq<Value>)
      requires Inv(Now()) && IsTable(Now(), t) && c.Table? && Adds(Now(), t, c, added) && AllAlive(Now(), added)
      requires Alive(Now(), t)
      modifies this
      ensures Now() == WriteTable(old(Now()), t, c, added) && Inv(Now())
    {
      hide Inv, Adds, AllAlive, Alive;
      WriteTableKeeps(Now(), t, c, added);
      heap := heap[t := heap[t].(body := c)];
      ghost var w := Now();
      var k := 0;
      while k < |added|
        invariant 0 <= k <= |added| && t in heap
        invariant BarrierBackAll(Now(), t, added[k..]) == BarrierBackAll(w, t, added)
      {
        assert added[k..][0] == added[k] && added[k..][1..] == added[k + 1..];
        var v := added[k];
        if v.Obj? && v.r in heap && heap[v.r].color.White? && heap[t].color == Black { BarrierB(t); }
        k := k + 1;
      }
    }

    /** Another object gets new contents, with the forward barrier for each value. */
    method WriteToObject(o: Ref, c: Body, added: seq<Value>)
      requires Inv(Now()) && Alive(Now(), o) && SameOwner(heap[o].body, c) && !c.Table? && !c.Thread?
      requires Adds(Now(), o, c, added) && AllAlive(Now(), added)
      modifies this
      ensures Now() == WriteObject(old(Now()), o, c, added) && Inv(Now())
    {
      hide Inv, Adds, AllAlive, BarrierForward, SameOwner;
      WriteObjectKeeps(Now(), o, c, added);
      heap := heap[o := heap[o].(body := c)];
      ghost var w := Now();
      var k := 0;
      while k < |added|
        invariant 0 <= k <= |added| && o in heap
        invariant BarrierAll(Now(), o, added[k..]) == BarrierAll(w, o, added)
      {
        assert added[k..][0] == added[k] && added[k..][1..] == added[k + 1..];
        var v := added[k];
        BarrierKeys(Now(), o, v);
        if v.Obj? && v.r in heap && heap[v.r].color.White? && heap[o].color == Black { BarrierF(o, v.r); }
        k := k + 1;
      }
    }

    method LinkClosed(u: Ref)
      requires u in heap
      modifies this
      ensures Now() == LinkUpval(old(Now()), u)
    {
      root := [u] + root;
      sweep := if sweep > 0 then sweep + 1 else 0;
      if heap[u].color == Gray {
        if phase == Propagate {
          SetColor(u, Black);
          if heap[u].body.ClosedUpval? {
            var v := heap[u].body.v;
            if v.Obj? && v.r in heap && heap[v.r].color.White? { BarrierF(u, v.r); }
          }
        } else {
          SetColor(u, White(white));
        }
      }
    }

    /** Close the upvalues of a thread at or above a level. */
    method CloseUpvals(th: Ref, level: nat, ghost e: set<Ref>)
      requires Owned(Now(), e) && IsThread(Now(), th) && forall x :: x in e ==> IsThread(Now(), x)
      modifies this
      ensures Now() == Close(old(Now()), th, level, e)
    {
      hide Owned, LinkUpval, FreeOpen;
      while heap[th].body.open != [] && SlotOf(heap[th].body.open[0]) >= level
        invariant Owned(Now(), e) && IsThread(Now(), th) && forall x :: x in e ==> IsThread(Now(), x)
        invariant Close(Now(), th, level, e) == Close(old(Now()), th, level, e)
        decreases |heap[th].body.open|
      {
        CloseFirstOwned(Now(), th, e);
        CloseOne(th);
      }
      if heap[th].body.open != [] { CloseFirstOwned(Now(), th, e); }
    }

    function SlotOf(u: Ref): nat
      reads this
    {
      if u in heap && heap[u].body.OpenUpval? then heap[u].body.slot else 0
    }

    method CloseOne(th: Ref)
      requires IsThread(Now(), th) && heap[th].body.open != []
      requires IsOpen(Now(), heap[th].body.open[0]) && heap[th].body.open[0] != th
      modifies this
      ensures Now() == CloseFirst(old(Now()), th)
    {
      hide LinkUpval;
      var o := heap[th];
      var u := o.body.open[0];
      if heap[u].color == White(!white) {
        FreeUpval(th, 0);
      } else {
        var v := SlotValue(heap, heap[u].body.thread, heap[u].body.slot);
        heap := heap[th := o.(body := o.body.(open := o.body.open[1..]))];
        uvhead := Without(uvhead, u);
        heap := heap[u := heap[u].(body := ClosedUpval(v))];
        LinkClosed(u);
      }
    }

    /** Free an object that has been taken out of the root list. */
    method FreeObject(r: Ref)
      requires Owned(Now(), {r}) && r in heap
      modifies this
      ensures var s := old(Now());
              Now() == if IsThread(s, r) then FreeThread(s, r) else s.(heap := s.heap - {r})
    {
      hide Owned, Close;
      if heap[r].body.Thread? { CloseUpvals(r, 0, {r}); }
      heap := heap - {r};
    }

    method SweepOne()
      requires Owned(Now(), {}) && sweep < |root|
      modifies this
      ensures Now() == SweepRootAt(old(Now()))
    {
      hide Owned, SweepOpen, Reclaimed, FreeThread, SweepRootAt, AllFresh, RemoveAt;
      var r := root[sweep];
      RootAt(Now());
      SweepUpvalsOfReclaims(Now(), r);
      if heap[r].body.Thread? { SweepThread(r); }
      if heap[r].color == White(!white) && !heap[r].fixed {
        Unlinked(Now(), sweep);
        root := RemoveAt(root, sweep);
        FreeObject(r);
      } else {
        SetColor(r, White(white));
        sweep := sweep + 1;
      }
    }

    method SweepSome(n: nat)
      requires Owned(Now(), {}) && SweptRoots(Now()) && Closed(Now())
      modifies this
      ensures Now() == SweepList(old(Now()), n)
    {
      hide Owned, Closed, SweptRoots, SweepRootAt, Reclaimed, UpvalsOwned, Unswept;
      var count := n;
      SweepInRange(Now());
      while count > 0 && sweep < |root|
        invariant 0 <= count && sweep <= |root|
        invariant Owned(Now(), {}) && SweptRoots(Now()) && Closed(Now())
        invariant SweepList(Now(), count) == SweepList(old(Now()), n)
        decreases count
      {
        SweepRootAtSweeps(Now());
        OwnedUpvals(SweepRootAt(Now()), {});
        ReclaimedClosed(Now(), SweepRootAt(Now()));
        SweepOne();
        SweepInRange(Now());
        count := count - 1;
      }
    }

    // ----- steps -------------------------------------------------------------------------

    /** One step of the collector. */
    method Step()
      requires Inv(Now())
      modifies this
      ensures Now() == SingleStep(old(Now()))
    {
      hide Owned, Closed, NeverBlackKinds, Marking, MarkRoot, PropagateMark, Atomic, SweepBucket, SweepList,
           SweptRoots, StringsSwept;
      match phase {
        case Pause => StartCycle();
        case Propagate =>
          if gray != [] {
            PropagateMarkKeeps(Now());
            PropagateOne();
          } else {
            AtomicStep();
          }
        case SweepString =>
          var i, n := sweepstr, |strt|;
          SweepStringKeeps(Now());
          SweepStrings(i);
          sweepstr := i + 1;
          phase := if i + 1 >= n then Sweep else SweepString;
        case Sweep =>
          SweepSome(GCSWEEPMAX);
          if sweep == |root| { phase := Finalize; }
        case Finalize => phase := Pause;
      }
    }

    method FinishSweeping()
      requires Inv(Now()) && Rank(phase) in {1, 2, 3}
      modifies this
      ensures Now() == FinishSweep(old(Now())) && Inv(Now()) && phase == Finalize
    {
      hide Inv, SingleStep, WhitesLeft, StepsLeft, Reclaimed, UpvalsOwned;
      FinishSweepEnds(Now());
      while phase != Finalize
        invariant Inv(Now()) && Rank(phase) in {1, 2, 3} && FinishSweep(Now()) == FinishSweep(old(Now()))
        decreases Rank(phase), WhitesLeft(Now()), StepsLeft(Now())
      {
        StepAdvances(Now());
        SweepingStep(Now());
        Step();
      }
    }

    method FinishCycle()
      requires Inv(Now())
      modifies this
      ensures Now() == Collect(old(Now())) && Inv(Now()) && phase == Pause
    {
      hide Inv, SingleStep, WhitesLeft, StepsLeft;
      while phase != Pause
        invariant Inv(Now()) && Collect(Now()) == Collect(old(Now()))
        decreases Rank(phase), WhitesLeft(Now()), StepsLeft(Now())
      {
        StepAdvances(Now());
        Step();
      }
    }

    /** Finish a sweep, or sweep everything first, and run a whole cycle. */
    method CollectAll()
      requires Inv(Now())
      modifies this
      ensures Now() == FullGc(old(Now())) && Inv(Now()) && phase == Pause
    {
      hide Inv, Reclaimed, MarkRoot, UpvalsOwned, FinishSweep, Collect;
      StartSweepKeeps(Now());
      if phase == Pause || phase == Propagate {
        sweepstr := 0;
        sweep := 0;
        gray, grayagain, weak := [], [], [];
        phase := SweepString;
      }
      FinishSweeping();
      MarkRootKeeps(Now());
      StartCycle();
      FinishCycle();
    }

    /** A full collection. */
    method FullCollection()
      requires Inv(Now())
      modifies this
      ensures Now() == (if old(blocked) then old(Now()) else FullGc(old(Now()))) && Inv(Now())
      ensures blocked == old(blocked) && (!blocked ==> phase == Pause)
    {
      hide Inv, FullGc;
      if blocked { return; }
      blocked := true;
      CollectAll();
      blocked := false;
    }
  }
}

/** The mark phase: its invariant, the traversal of one gray object, and the atomic end of the
    phase, after which the marked objects are exactly what the collector keeps. */
module GcCycle {
  import opened GcHeap
  import opened GcMark

  // ----- invariant of the mark phase ---------------------------------------------------

  predicate InList(s: State, r: Ref) {
    r in s.gray || r in s.grayagain || r in s.weak
  }

  /** An object is in at most one of the three lists (they share one link field), and it is gray. */
  ghost predicate Lists(s: State) {
    && Distinct(s.gray) && Distinct(s.grayagain) && Distinct(s.weak)
    && Apart(s.gray, s.grayagain) && Apart(s.gray, s.weak) && Apart(s.grayagain, s.weak)
    && (forall r :: r in s.gray ==> r in s.heap && s.heap[r].color == Gray && Container(s.heap[r].body))
    && (forall r :: r in s.grayagain ==>
          r in s.heap && s.heap[r].color == Gray && (s.heap[r].body.Table? || s.heap[r].body.Thread?))
    && (forall r :: r in s.weak ==> r in s.heap && s.heap[r].color == Gray && s.heap[r].body.Table?)
  }

  /** No black object refers to a white one; threads and open upvalues are never black; a gray
      object that is not a string or an open upvalue waits in one of the lists. */
  predicate Consistent(s: State, r: Ref)
    requires r in s.heap
  {
    var b := s.heap[r].body;
    match s.heap[r].color
    case White(_) => true
    case Gray => b.Str? || b.OpenUpval? || (Container(b) && InList(s, r))
    case Black => !b.Str? && !b.OpenUpval? && !b.Thread? && Reached(s, r)
  }

  /** The invariant, except for the objects in 'e'. */
  ghost predicate Marking(s: State, e: set<Ref>) {
    Lists(s) && forall r :: r in s.heap && r !in e ==> Consistent(s, r)
  }

  /** 't' is further in the same mark phase. */
  ghost predicate Advance(s: State, t: State) {
    && t == s.(heap := t.heap, gray := t.gray, grayagain := t.grayagain, weak := t.weak)
    && t.heap.Keys == s.heap.Keys
    && (forall r :: r in s.heap ==> t.heap[r] == s.heap[r].(color := t.heap[r].color))
    && (forall r :: r in s.heap && !s.heap[r].color.White? ==> !t.heap[r].color.White?)
    && (forall r :: r in t.heap && t.heap[r].color.White? ==> t.heap[r].color == s.heap[r].color)
  }

  lemma AdvanceRefl(s: State)
    ensures Advance(s, s)
  {
  }

  lemma AdvanceTrans(s: State, t: State, u: State)
    requires Advance(s, t) && Advance(t, u)
    ensures Advance(s, u)
  {
  }

  lemma AdvanceReached(s: State, t: State, r: Ref)
    requires Advance(s, t)
    ensures Reached(s, r) ==> Reached(t, r)
    ensures StrongReached(s, r) ==> StrongReached(t, r)
  {
    var u := t.(gray := s.gray, grayagain := s.grayagain, weak := s.weak);
    if r in s.heap {
      ShapeKeepsContents(s, u, s.heap[r].body, STRONG);
    }
  }

  lemma AdvanceWhites(s: State, t: State)
    requires Advance(s, t)
    ensures Whites(t) <= Whites(s)
  {
  }

  lemma GrewMarking(s: State, t: State, pushed: seq<Ref>, e: set<Ref>)
    requires Marking(s, e) && Grew(s, t, pushed)
    ensures Marking(t, e) && Advance(s, t)
  {
    hide Settled, Reached, Container;
    forall r | r in s.heap && !s.heap[r].color.White? && Reached(s, r) ensures Reached(t, r) { ReachedKept(s, t, r); }
    DistinctCat(pushed, s.gray);
    forall r | r in pushed ensures t.heap[r].color == Gray { SettledGray(t, r, pushed); }
    forall r | IsWhite(t, r) ensures t.heap[r].color == s.heap[r].color {
      if Settled(t, r, pushed) { SettledNotWhite(t, r, pushed); }
    }
    forall r | r in t.heap && r !in e ensures Consistent(t, r) {
      if IsWhite(s, r) && !IsWhite(t, r) {
        assert Settled(t, r, pushed);
        SettledConsistent(t, r, pushed);
      } else {
        assert Consistent(s, r);
      }
    }
  }

  lemma SettledGray(t: State, r: Ref, pushed: seq<Ref>)
    requires Settled(t, r, pushed) && Container(t.heap[r].body)
    ensures t.heap[r].color == Gray
  {
  }

  lemma SettledNotWhite(t: State, r: Ref, pushed: seq<Ref>)
    requires Settled(t, r, pushed)
    ensures !IsWhite(t, r)
  {
  }

  lemma SettledConsistent(t: State, r: Ref, pushed: seq<Ref>)
    requires Settled(t, r, pushed) && forall x :: x in pushed ==> x in t.gray
    ensures Consistent(t, r)
  {
  }

  // ----- one gray object ---------------------------------------------------------------

  /** Traverse the first gray object. It becomes black, but a thread and a weak table stay gray
      and go to another list. */
  function PropagateMark(s: State): (t: State)
    requires s.gray != [] && s.gray[0] in s.heap
    ensures t.heap.Keys == s.heap.Keys
  {
    var o := s.gray[0];
    var b := s.heap[o].body;
    var s1 := Paint(s, o, Black).(gray := s.gray[1..]);
    match b
    case Table(meta, _, _, _) =>
      var m := ModeOf(s.heap, meta);
      var s2 := MarkValue(s1, MetaValue(meta));
      var s3 := if m == STRONG then s2 else s2.(weak := [o] + s2.weak);
      var s4 := MarkAll(s3, TableValues(b, m));
      if m == STRONG then s4 else Paint(s4, o, Gray)
    case Thread(_, _, _) =>
      MarkAll(Paint(s1.(grayagain := [o] + s1.grayagain), o, Gray), Contents(s.heap, b, STRONG))
    case _ => MarkAll(s1, Contents(s.heap, b, STRONG))
  }

  /** What the traversal of 'o' does to the other lists and to upvalues. */
  ghost predicate Traversed(s: State, t: State, o: Ref) {
    && (t.grayagain == s.grayagain
        || (o in t.heap && t.heap[o].body.Thread? && Reached(t, o) && t.grayagain == [o] + s.grayagain))
    && (t.weak == s.weak || (o in t.heap && t.heap[o].body.Table? && StrongReached(t, o) && t.weak == [o] + s.weak))
    && UpvalsSettled(s, t)
  }

  /** A newly marked open upvalue has its value marked. */
  ghost predicate UpvalsSettled(s: State, t: State) {
    forall r :: IsWhite(s, r) && s.heap[r].body.OpenUpval? && !IsWhite(t, r) ==> Reached(t, r)
  }

  lemma GrewSettlesUpvals(s: State, t: State, pushed: seq<Ref>)
    requires Grew(s, t, pushed)
    ensures UpvalsSettled(s, t)
  {
  }

  lemma SettledUpvalsTrans(s: State, t: State, u: State)
    requires Advance(s, t) && Advance(t, u) && UpvalsSettled(s, t) && UpvalsSettled(t, u)
    ensures UpvalsSettled(s, u)
  {
    hide Reached;
    forall r | IsWhite(s, r) && s.heap[r].body.OpenUpval? && !IsWhite(u, r) ensures Reached(u, r) {
      if !IsWhite(t, r) { AdvanceReached(t, u, r); }
    }
  }

  lemma FirstGray(s: State)
    requires Marking(s, {}) && s.gray != []
    ensures s.gray[0] in s.heap && s.heap[s.gray[0]].color == Gray && Container(s.heap[s.gray[0]].body)
  {
    assert s.gray[0] in s.gray;
  }

  lemma PropagateMarkKeeps(s: State)
    requires Marking(s, {}) && s.gray != []
    ensures s.gray[0] in s.heap
    ensures var t := PropagateMark(s);
            && Marking(t, {}) && Advance(s, t) && Traversed(s, t, s.gray[0])
            && (Whites(t) == Whites(s) ==> |t.gray| < |s.gray|)
  {
    hide Marking, Traversed, Reached;
    FirstGray(s);
    match s.heap[s.gray[0]].body
    case Table(_, _, _, _) => TraverseTable(s);
    case Thread(_, _, _) => TraverseThread(s);
    case _ => TraverseOther(s);
  }

  /** Taking the first object out of the gray list, with another colour. */
  lemma Taken(s: State, c: Color)
    requires Marking(s, {}) && s.gray != [] && !c.White?
    ensures s.gray[0] in s.heap
    ensures var s1 := Paint(s, s.gray[0], c).(gray := s.gray[1..]);
            && Marking(s1, {s.gray[0]}) && Advance(s, s1) && Whites(s1) == Whites(s)
            && s.gray[0] !in s1.gray && !InList(s1, s.gray[0]) && UpvalsSettled(s, s1)
            && Container(s.heap[s.gray[0]].body)
  {
    hide Reached, Whites, Container;
    var o := s.gray[0];
    assert o in s.gray;
    var s1 := Paint(s, o, c).(gray := s.gray[1..]);
    assert forall x :: x in s.gray ==> x == o || x in s1.gray;
    assert o !in s1.gray;
    TakenAdvances(s, o, s1);
    forall r | r in s.heap && Reached(s, r) ensures Reached(s1, r) { AdvanceReached(s, s1, r); }
    forall r | r in s1.heap && r != o ensures Consistent(s1, r) { assert Consistent(s, r); }
    assert Lists(s1);
  }

  lemma TakenAdvances(s: State, o: Ref, t: State)
    requires o in s.heap && s.heap[o].color == Gray && t == s.(heap := t.heap, gray := t.gray)
    requires o in t.heap && !t.heap[o].color.White? && t.heap == s.heap[o := s.heap[o].(color := t.heap[o].color)]
    ensures Advance(s, t) && Whites(t) == Whites(s)
  {
  }

  /** The object taken is dealt with. */
  lemma Returned(s: State, o: Ref)
    requires Marking(s, {o}) && o in s.heap && Consistent(s, o)
    ensures Marking(s, {})
  {
  }

  lemma FewerGray(s: State, s1: State, t: State, pushed: seq<Ref>)
    requires Whites(s1) == Whites(s) && Grew(s1, t, pushed) && |s1.gray| < |s.gray|
    ensures Whites(t) == Whites(s) ==> |t.gray| < |s.gray|
  {
    if pushed != [] {
      assert pushed[0] in pushed;
      assert IsWhite(s1, pushed[0]) && pushed[0] in Whites(s1) && pushed[0] !in Whites(t);
    }
  }

  lemma TraverseOther(s: State)
    requires Marking(s, {}) && s.gray != [] && s.gray[0] in s.heap
    requires !s.heap[s.gray[0]].body.Table? && !s.heap[s.gray[0]].body.Thread?
    ensures var t := PropagateMark(s);
            && Marking(t, {}) && Advance(s, t) && Traversed(s, t, s.gray[0])
            && (Whites(t) == Whites(s) ==> |t.gray| < |s.gray|)
  {
    hide Marking, Grew, MarkAll, Whites, Contents, UpvalsSettled, Advance;
    var o := s.gray[0];
    Taken(s, Black);
    var s1 := Paint(s, o, Black).(gray := s.gray[1..]);
    var vs := Contents(s.heap, s.heap[o].body, STRONG);
    var pushed := MarkAllGrew(s1, vs);
    var t := MarkAll(s1, vs);
    Marked(s, s1, t, o, pushed, vs);
    Returned(t, o);
    GrewLists(s1, t, pushed);
  }

  lemma GrewLists(s: State, t: State, pushed: seq<Ref>)
    requires Grew(s, t, pushed)
    ensures t.grayagain == s.grayagain && t.weak == s.weak && t.gray == pushed + s.gray
    ensures t.heap.Keys == s.heap.Keys
  {
  }

  /** After what 'o' refers to has been marked. */
  lemma Marked(s: State, s1: State, t: State, o: Ref, pushed: seq<Ref>, vs: seq<Value>)
    requires Advance(s, s1) && Marking(s1, {o}) && Grew(s1, t, pushed) && UpvalsSettled(s, s1)
    requires Whites(s1) == Whites(s) && |s1.gray| < |s.gray| && o in s1.heap && !s1.heap[o].color.White?
    requires forall v :: v in vs && v.Obj? ==> !IsWhite(t, v.r)
    ensures Marking(t, {o}) && Advance(s, t) && UpvalsSettled(s, t)
    ensures Whites(t) == Whites(s) ==> |t.gray| < |s.gray|
    ensures t.heap.Keys == s.heap.Keys && t.heap[o] == s1.heap[o] && s1.heap[o].body == s.heap[o].body
    ensures vs == Contents(s.heap, s.heap[o].body, STRONG) ==> Reached(t, o)
    ensures vs == Strongly(s.heap, s.heap[o].body) ==> StrongReached(t, o)
  {
    GrewMarking(s1, t, pushed, {o});
    AdvanceTrans(s, s1, t);
    GrewSettlesUpvals(s1, t, pushed);
    SettledUpvalsTrans(s, s1, t);
    FewerGray(s, s1, t, pushed);
    var u := t.(gray := s.gray, grayagain := s.grayagain, weak := s.weak);
    ShapeKeepsContents(s, u, s.heap[o].body, STRONG);
  }

  lemma TraverseThread(s: State)
    requires Marking(s, {}) && s.gray != [] && s.gray[0] in s.heap && s.heap[s.gray[0]].body.Thread?
    ensures var t := PropagateMark(s);
            && Marking(t, {}) && Advance(s, t) && Traversed(s, t, s.gray[0])
            && (Whites(t) == Whites(s) ==> |t.gray| < |s.gray|)
  {
    hide Marking, Advance, Grew, MarkAll, Whites, Contents, UpvalsSettled, Reached, InList, Container;
    var o := s.gray[0];
    Taken(s, Gray);
    var s0 := Paint(s, o, Gray).(gray := s.gray[1..]);
    var s1 := s0.(grayagain := [o] + s0.grayagain);
    assert Paint(Paint(s, o, Black).(gray := s.gray[1..], grayagain := [o] + s.grayagain), o, Gray) == s1;
    ToOtherList(s0, s1, o);
    SameSettled(s, s0, s1);
    var vs := Contents(s.heap, s.heap[o].body, STRONG);
    var pushed := MarkAllGrew(s1, vs);
    var t := MarkAll(s1, vs);
    SameReached(s0, s1);
    AdvanceTrans(s, s0, s1);
    Marked(s, s1, t, o, pushed, vs);
    GrewLists(s1, t, pushed);
    WaitingConsistent(t, o);
    Returned(t, o);
  }

  lemma WaitingConsistent(t: State, o: Ref)
    requires o in t.heap && t.heap[o].color == Gray && t.heap[o].body.Thread? && o in t.grayagain
    ensures Consistent(t, o)
  {
  }

  lemma SameReached(s: State, t: State)
    requires t.heap == s.heap
    ensures forall r :: Reached(s, r) <==> Reached(t, r)
    ensures Whites(s) == Whites(t)
  {
  }

  lemma SameSettled(s: State, t: State, u: State)
    requires UpvalsSettled(s, t) && u.heap == t.heap
    ensures UpvalsSettled(s, u)
  {
    SameReached(t, u);
  }

  lemma NothingSettled(s: State, t: State)
    requires forall r :: IsWhite(s, r) <==> IsWhite(t, r)
    ensures UpvalsSettled(s, t) && Whites(s) == Whites(t)
  {
    assert forall r :: r in Whites(s) <==> IsWhite(s, r);
    assert forall r :: r in Whites(t) <==> IsWhite(t, r);
  }

  lemma SameWhites(s: State, o: Ref, t: State)
    requires o in s.heap && s.heap[o].color == Black && t.heap == Paint(s, o, Gray).heap
    ensures forall r :: IsWhite(s, r) <==> IsWhite(t, r)
  {
  }

  /** The object taken goes to another list. */
  lemma ToOtherList(s: State, t: State, o: Ref)
    requires Marking(s, {o}) && !InList(s, o) && o in s.heap && s.heap[o].color == Gray
    requires (t == s.(grayagain := [o] + s.grayagain) && (s.heap[o].body.Thread? || s.heap[o].body.Table?))
             || (t == s.(weak := [o] + s.weak) && s.heap[o].body.Table?)
    ensures Marking(t, {o}) && Advance(s, t)
  {
    hide Reached;
    SameReached(s, t);
    DistinctCat([o], s.grayagain);
    DistinctCat([o], s.weak);
  }

  lemma TraverseTable(s: State)
    requires Marking(s, {}) && s.gray != [] && s.gray[0] in s.heap && s.heap[s.gray[0]].body.Table?
    ensures var t := PropagateMark(s);
            && Marking(t, {}) && Advance(s, t) && Traversed(s, t, s.gray[0])
            && (Whites(t) == Whites(s) ==> |t.gray| < |s.gray|)
  {
    var m := ModeOf(s.heap, s.heap[s.gray[0]].body.meta);
    if m == STRONG { TraverseStrong(s); } else { TraverseWeak(s, m); }
  }

  lemma TraverseStrong(s: State)
    requires Marking(s, {}) && s.gray != [] && s.gray[0] in s.heap && s.heap[s.gray[0]].body.Table?
    requires ModeOf(s.heap, s.heap[s.gray[0]].body.meta) == STRONG
    ensures var t := PropagateMark(s);
            && Marking(t, {}) && Advance(s, t) && Traversed(s, t, s.gray[0])
            && (Whites(t) == Whites(s) ==> |t.gray| < |s.gray|)
  {
    hide Marking, Grew, MarkAll, MarkValue, Whites, TableValues, UpvalsSettled, Advance, ModeOf, Reached, StrongReached;
    var o := s.gray[0];
    var b := s.heap[o].body;
    Taken(s, Black);
    var s1 := Paint(s, o, Black).(gray := s.gray[1..]);
    var first, rest := MetaValue(b.meta), TableValues(b, STRONG);
    var p1 := MarkValueGrew(s1, first);
    var s2 := MarkValue(s1, first);
    var p2 := MarkAllGrew(s2, rest);
    var t := MarkAll(s2, rest);
    GrewTrans(s1, s2, t, p1, p2);
    StillMarked(s2, t, p2, first);
    Marked(s, s1, t, o, p2 + p1, [first] + rest);
    GrewLists(s1, t, p2 + p1);
    Returned(t, o);
  }

  lemma StillMarked(s: State, t: State, pushed: seq<Ref>, v: Value)
    requires Grew(s, t, pushed) && (v.Obj? ==> !IsWhite(s, v.r))
    ensures v.Obj? ==> !IsWhite(t, v.r)
  {
  }

  /** The table goes to the weak list after its metatable has been marked, and is gray only at
      the end; no step in between looks at its list or its colour. */
  lemma TraverseWeak(s: State, m: Mode)
    requires Marking(s, {}) && s.gray != [] && s.gray[0] in s.heap && s.heap[s.gray[0]].body.Table?
    requires m == ModeOf(s.heap, s.heap[s.gray[0]].body.meta) && m != STRONG
    ensures var t := PropagateMark(s);
            && Marking(t, {}) && Advance(s, t) && Traversed(s, t, s.gray[0])
            && (Whites(t) == Whites(s) ==> |t.gray| < |s.gray|)
  {
    hide Marking, Grew, MarkAll, MarkValue, Whites, TableValues, UpvalsSettled, Advance, ModeOf, Reached, StrongReached;
    var o := s.gray[0];
    var b := s.heap[o].body;
    Taken(s, Black);
    var s1 := Paint(s, o, Black).(gray := s.gray[1..]);
    var first, rest := MetaValue(b.meta), TableValues(b, m);
    var p1 := MarkValueGrew(s1, first);
    var s2 := MarkValue(s1, first);
    Marked(s, s1, s2, o, p1, [first]);
    GrewLists(s1, s2, p1);
    GrewTail(s1, s2, p1);
    var s3 := s2.(weak := [o] + s2.weak);
    var p2 := MarkAllGrew(s3, rest);
    var t3 := MarkAll(s3, rest);
    GrewLists(s3, t3, p2);
    var t := Paint(t3, o, Gray);
    assert t == PropagateMark(s);
    WeakDone(s, s2, t3, o, p2, first, rest);
  }

  lemma GrewTail(s: State, t: State, pushed: seq<Ref>)
    requires Grew(s, t, pushed)
    ensures forall x :: x in t.gray && x !in s.gray ==> IsWhite(s, x)
    ensures Whites(t) == Whites(s) ==> pushed == []
  {
    if pushed != [] {
      assert pushed[0] in pushed;
      assert pushed[0] in Whites(s) && pushed[0] !in Whites(t);
    }
  }

  lemma WeakDone(s: State, s2: State, t3: State, o: Ref, p2: seq<Ref>, first: Value, rest: seq<Value>)
    requires Advance(s, s2) && Marking(s2, {o}) && UpvalsSettled(s, s2) && o in s2.heap && s2.heap[o].body.Table?
    requires s2.heap[o].color == Black && !InList(s2, o) && s.heap.Keys == s2.heap.Keys
    requires s2.heap[o].body == s.heap[o].body
    requires Whites(s2) == Whites(s) ==> |s2.gray| < |s.gray|
    requires s2.grayagain == s.grayagain && s2.weak == s.weak
    requires Grew(s2.(weak := [o] + s2.weak), t3, p2)
    requires first.Obj? ==> !IsWhite(s2, first.r)
    requires [first] + rest == Strongly(s.heap, s.heap[o].body)
    requires forall v :: v in rest && v.Obj? ==> !IsWhite(t3, v.r)
    ensures o in t3.heap
    ensures var t := Paint(t3, o, Gray);
            && Marking(t, {}) && Advance(s, t) && Traversed(s, t, o)
            && (Whites(t) == Whites(s) ==> |t.gray| < |s.gray|)
  {
    hide Marking, Grew, Whites, UpvalsSettled, Advance, Strongly, Reached, StrongReached, IsWhite;
    // the same marking, with the table painted gray beforehand
    GrewLists(s2.(weak := [o] + s2.weak), t3, p2);
    var g2 := Paint(s2, o, Gray);
    var g3 := g2.(weak := [o] + g2.weak);
    var t := Paint(t3, o, Gray);
    Regrayed(s2, o);
    ToOtherList(g2, g3, o);
    GrewRepainted(s2.(weak := [o] + s2.weak), t3, o, p2);
    assert Paint(s2.(weak := [o] + s2.weak), o, Gray) == g3;
    GrewMarking(g3, t, p2, {o});
    GrewTail(g3, t, p2);
    GrewLists(g3, t, p2);
    AdvanceTrans(s2, g2, g3);
    AdvanceTrans(s2, g3, t);
    AdvanceTrans(s, s2, t);
    AdvanceWhites(s, s2);
    AdvanceWhites(s2, g3);
    AdvanceWhites(g3, t);
    GrewSettlesUpvals(g3, t, p2);
    SameWhites(s2, o, g3);
    NothingSettled(s2, g3);
    SettledUpvalsTrans(s2, g3, t);
    SettledUpvalsTrans(s, s2, t);
    assert Whites(t) == Whites(s) ==> Whites(s2) == Whites(s) && Whites(t) == Whites(g3);
    AllStrong(s, s2, t3, t, o, first, rest, p2);
    ListedConsistent(t, o);
    Returned(t, o);
  }

  lemma ListedConsistent(t: State, o: Ref)
    requires o in t.heap && t.heap[o].color == Gray && t.heap[o].body.Table? && o in t.weak
    ensures Consistent(t, o)
  {
  }

  lemma AllStrong(s: State, s2: State, t3: State, t: State, o: Ref, first: Value, rest: seq<Value>, p2: seq<Ref>)
    requires Advance(s, s2) && Advance(s2, t) && o in s.heap && o in t3.heap && t == Paint(t3, o, Gray)
    requires Grew(s2.(weak := [o] + s2.weak), t3, p2)
    requires first.Obj? ==> !IsWhite(s2, first.r)
    requires [first] + rest == Strongly(s.heap, s.heap[o].body)
    requires forall v :: v in rest && v.Obj? ==> !IsWhite(t3, v.r)
    ensures StrongReached(t, o)
  {
    var u := t.(gray := s.gray, grayagain := s.grayagain, weak := s.weak);
    ShapeKeepsContents(s, u, s.heap[o].body, STRONG);
  }

  lemma Regrayed(s: State, o: Ref)
    requires Marking(s, {o}) && o in s.heap && s.heap[o].color == Black && !InList(s, o)
    ensures var g := Paint(s, o, Gray); Marking(g, {o}) && Advance(s, g) && !InList(g, o)
  {
    hide Reached;
    var g := Paint(s, o, Gray);
    forall r | r in s.heap && Reached(s, r) ensures Reached(g, r) { AdvanceReached(s, g, r); }
  }

  /** Marking does not look at the colour of an object that is not white. */
  lemma GrewRepainted(s: State, t: State, o: Ref, pushed: seq<Ref>)
    requires Grew(s, t, pushed) && o in s.heap && s.heap[o].color == Black
    ensures o in t.heap && Grew(Paint(s, o, Gray), Paint(t, o, Gray), pushed)
  {
    hide Settled, Container;
    var s', t' := Paint(s, o, Gray), Paint(t, o, Gray);
    assert SameShape(s', t');
    forall r | IsWhite(s', r) ensures t'.heap[r].color == s'.heap[r].color || Settled(t', r, pushed) {
      assert IsWhite(s, r) && r != o;
      if Settled(t, r, pushed) { SettledRepainted(t, o, r, pushed); }
    }
  }

  lemma SettledRepainted(t: State, o: Ref, r: Ref, pushed: seq<Ref>)
    requires Settled(t, r, pushed) && o in t.heap && t.heap[o].color == Black && r != o
    ensures Settled(Paint(t, o, Gray), r, pushed)
  {
    if Reached(t, r) { ReachedKept(t, Paint(t, o, Gray), r); }
  }

  // ----- the whole gray list -----------------------------------------------------------

  function PropagateAll(s: State): (t: State)
    requires Marking(s, {})
    decreases Whites(s), |s.gray|
  {
    if s.gray == [] then s
    else
      PropagateMarkKeeps(s);
      AdvanceWhites(s, PropagateMark(s));
      PropagateAll(PropagateMark(s))
  }

  /** The threads in 'grayagain' have been traversed. */
  ghost predicate ThreadsScanned(s: State) {
    forall r :: r in s.grayagain ==> r in s.heap && s.heap[r].body.Thread? && Reached(s, r)
  }

  /** The tables in 'weak' have been traversed. */
  ghost predicate TablesScanned(s: State) {
    forall r :: r in s.weak ==> StrongReached(s, r)
  }

  /** What marked open upvalues hold is marked. */
  ghost predicate UpvalsScanned(s: State) {
    forall r :: r in s.heap && s.heap[r].body.OpenUpval? && !IsWhite(s, r) ==> Reached(s, r)
  }

  ghost predicate ScannedStays(s: State, t: State) {
    && (UpvalsScanned(s) ==> UpvalsScanned(t))
    && (ThreadsScanned(s) ==> ThreadsScanned(t))
    && (TablesScanned(s) ==> TablesScanned(t))
  }

  lemma {:induction false} PropagateAllKeeps(s: State)
    requires Marking(s, {})
    ensures var t := PropagateAll(s); Marking(t, {}) && Advance(s, t) && t.gray == [] && ScannedStays(s, t)
    decreases Whites(s), |s.gray|
  {
    hide Marking, Advance, PropagateMark, ThreadsScanned, TablesScanned, UpvalsScanned;
    if s.gray == [] {
      AdvanceRefl(s);
    } else {
      PropagateMarkKeeps(s);
      var t := PropagateMark(s);
      AdvanceWhites(s, t);
      KeepsScanned(s, t, s.gray[0]);
      PropagateAllKeeps(t);
      AdvanceTrans(s, t, PropagateAll(t));
    }
  }

  lemma KeepsScanned(s: State, t: State, o: Ref)
    requires Advance(s, t) && Traversed(s, t, o)
    ensures ScannedStays(s, t)
  {
    hide Reached, StrongReached;
    forall r ensures (Reached(s, r) ==> Reached(t, r)) && (StrongReached(s, r) ==> StrongReached(t, r)) {
      AdvanceReached(s, t, r);
    }
  }

  // ----- start of a cycle --------------------------------------------------------------

  function ThreadGlobals(s: State, th: Ref): Value {
    if th in s.heap && s.heap[th].body.Thread? then s.heap[th].body.globals else Nil
  }

  /** Mark the root set. */
  function MarkRoot(s: State): State {
    var s0 := s.(gray := [], grayagain := [], weak := []);
    var s1 := MarkAll(s0, [Obj(s.main), ThreadGlobals(s0, s.main), s.registry] + s.mt);
    s1.(phase := Propagate)
  }

  ghost predicate AllWhite(s: State) {
    forall r :: r in s.heap ==> s.heap[r].color == White(s.white)
  }

  lemma MarkRootStarts(s: State)
    requires AllWhite(s)
    ensures var t := MarkRoot(s);
            Marking(t, {}) && Advance(s.(phase := Propagate), t)
            && !IsWhite(t, s.main) && (s.registry.Obj? ==> !IsWhite(t, s.registry.r))
  {
    hide MarkAll, Settled, Reached;
    var s0 := s.(gray := [], grayagain := [], weak := []);
    var vs := [Obj(s.main), ThreadGlobals(s0, s.main), s.registry] + s.mt;
    assert Marking(s0, {});
    var pushed := MarkAllGrew(s0, vs);
    var t := MarkAll(s0, vs);
    GrewMarking(s0, t, pushed, {});
    assert Obj(s.main) in vs && s.registry in vs;
    var u := t.(phase := Propagate);
    SameReached(t, u);
    assert MarkRoot(s) == u;
  }

  // ----- the atomic step ---------------------------------------------------------------

  /** Mark again what gray open upvalues hold. */
  function RemarkUpvals(s: State, us: seq<Ref>): (t: State)
    decreases |us|
  {
    if us == [] then s
    else
      var u := us[0];
      var s1 := if u in s.heap && s.heap[u].color == Gray && s.heap[u].body.OpenUpval?
                then MarkValue(s, SlotValue(s.heap, s.heap[u].body.thread, s.heap[u].body.slot)) else s;
      RemarkUpvals(s1, us[1..])
  }

  lemma {:induction false} RemarkKeeps(s: State, us: seq<Ref>)
    requires Marking(s, {})
    requires forall r :: r in s.heap && s.heap[r].body.OpenUpval? && !IsWhite(s, r) && !Reached(s, r) ==> r in us
    ensures var t := RemarkUpvals(s, us); Marking(t, {}) && Advance(s, t) && UpvalsScanned(t)
    decreases |us|
  {
    hide Marking, Advance, MarkValue, SlotValue, Reached, Grew;
    if us == [] {
      AdvanceRefl(s);
    } else {
      var u := us[0];
      if u in s.heap && s.heap[u].color == Gray && s.heap[u].body.OpenUpval? {
        var v := SlotValue(s.heap, s.heap[u].body.thread, s.heap[u].body.slot);
        var t := MarkValue(s, v);
        var pushed := MarkValueGrew(s, v);
        GrewMarking(s, t, pushed, {});
        GrewSettlesUpvals(s, t, pushed);
        RemarkOne(s, t, us, v);
        RemarkKeeps(t, us[1..]);
        AdvanceTrans(s, t, RemarkUpvals(t, us[1..]));
      } else {
        if u in s.heap && s.heap[u].body.OpenUpval? { NeverBlack(s, u); }
        RemarkKeeps(s, us[1..]);
      }
    }
  }

  lemma NeverBlack(s: State, u: Ref)
    requires Marking(s, {}) && u in s.heap && s.heap[u].body.OpenUpval?
    ensures s.heap[u].color != Black
  {
    assert Consistent(s, u);
  }

  lemma RemarkOne(s: State, t: State, us: seq<Ref>, v: Value)
    requires us != [] && us[0] in s.heap && s.heap[us[0]].body.OpenUpval? && !IsWhite(s, us[0])
    requires v == SlotValue(s.heap, s.heap[us[0]].body.thread, s.heap[us[0]].body.slot)
    requires Advance(s, t) && UpvalsSettled(s, t) && (v.Obj? ==> !IsWhite(t, v.r))
    requires forall r :: r in s.heap && s.heap[r].body.OpenUpval? && !IsWhite(s, r) && !Reached(s, r) ==> r in us
    ensures forall r :: r in t.heap && t.heap[r].body.OpenUpval? && !IsWhite(t, r) && !Reached(t, r) ==> r in us[1..]
  {
    var u := us[0];
    assert Reached(t, u) by {
      var w := t.(gray := s.gray, grayagain := s.grayagain, weak := s.weak);
      ShapeKeepsContents(s, w, s.heap[u].body, STRONG);
    }
    hide Reached;
    forall r | r in t.heap && t.heap[r].body.OpenUpval? && !IsWhite(t, r) && !Reached(t, r) ensures r in us[1..] {
      AdvanceReached(s, t, r);
      assert r != u;
    }
  }

  /** Every open upvalue is in the global list. */
  predicate UpvalsListed(s: State) {
    forall r :: r in s.heap && s.heap[r].body.OpenUpval? ==> r in s.uvhead
  }

  /** Values of open upvalues, then objects caught by barriers. */
  function AtomicUpvals(s: State): State
    requires Marking(s, {}) && UpvalsListed(s)
  {
    RemarkKeeps(s, s.uvhead);
    PropagateAll(RemarkUpvals(s, s.uvhead))
  }

  /** Weak tables, the running thread and the basic metatables. */
  function AtomicWeak(s: State): State
    requires Marking(s, {}) && s.gray == []
  {
    var s1 := s.(gray := s.weak, weak := []);
    WeakToGray(s);
    MarkAllMarking(s1, [Obj(s.running)] + s.mt);
    PropagateAll(MarkAll(s1, [Obj(s.running)] + s.mt))
  }

  /** Threads, and tables caught by the back barrier. */
  function AtomicAgain(s: State): State
    requires Marking(s, {}) && s.gray == []
  {
    AgainToGray(s);
    PropagateAll(s.(gray := s.grayagain, grayagain := []))
  }

  /** Everything up to the clearing of weak tables. */
  function AtomicMark(s: State): State
    requires Marking(s, {}) && UpvalsListed(s)
  {
    AtomicUpvalsKeeps(s);
    AtomicWeakKeeps(AtomicUpvals(s));
    AtomicAgain(AtomicWeak(AtomicUpvals(s)))
  }

  lemma AtomicUpvalsKeeps(s: State)
    requires Marking(s, {}) && UpvalsListed(s)
    ensures var t := AtomicUpvals(s); Marking(t, {}) && Advance(s, t) && t.gray == [] && UpvalsScanned(t)
  {
    RemarkKeeps(s, s.uvhead);
    hide Marking, Advance, RemarkUpvals, PropagateAll;
    var s1 := RemarkUpvals(s, s.uvhead);
    PropagateAllKeeps(s1);
    AdvanceTrans(s, s1, AtomicUpvals(s));
  }

  lemma AtomicWeakKeeps(s: State)
    requires Marking(s, {}) && s.gray == [] && UpvalsScanned(s)
    ensures var t := AtomicWeak(s);
            && Marking(t, {}) && Advance(s, t) && t.gray == [] && UpvalsScanned(t) && TablesScanned(t)
            && (forall v :: v in [Obj(s.running)] + s.mt && v.Obj? ==> !IsWhite(t, v.r))
  {
    hide Marking, MarkAll, PropagateAll, UpvalsScanned, UpvalsSettled;
    var vs := [Obj(s.running)] + s.mt;
    var s1 := s.(gray := s.weak, weak := []);
    WeakToGray(s);
    var s2 := MarkAll(s1, vs);
    var pushed := MarkAllGrew(s1, vs);
    GrewLists(s1, s2, pushed);
    MarkAllMarking(s1, vs);
    SettledScanned(s1, s2);
    PropagateAllKeeps(s2);
    assert AtomicWeak(s) == PropagateAll(s2);
  }

  lemma SettledScanned(s: State, t: State)
    requires Advance(s, t) && UpvalsScanned(s) && UpvalsSettled(s, t)
    ensures UpvalsScanned(t)
  {
    hide Reached;
    forall r | Reached(s, r) ensures Reached(t, r) { AdvanceReached(s, t, r); }
  }

  lemma AtomicAgainKeeps(s: State)
    requires Marking(s, {}) && s.gray == [] && UpvalsScanned(s) && TablesScanned(s)
    ensures var t := AtomicAgain(s);
            && Marking(t, {}) && Advance(s, t) && t.gray == []
            && UpvalsScanned(t) && TablesScanned(t) && ThreadsScanned(t)
  {
    hide Marking, PropagateAll, UpvalsScanned, Reached, StrongReached;
    AgainToGray(s);
    var s1 := s.(gray := s.grayagain, grayagain := []);
    forall r | StrongReached(s, r) ensures StrongReached(s1, r) { AdvanceReached(s, s1, r); }
    PropagateAllKeeps(s1);
  }

  lemma WeakToGray(s: State)
    requires Marking(s, {}) && s.gray == []
    ensures var t := s.(gray := s.weak, weak := []);
            Marking(t, {}) && Advance(s, t) && (UpvalsScanned(s) ==> UpvalsScanned(t))
  {
    SameReached(s, s.(gray := s.weak, weak := []));
    hide Reached;
  }

  lemma AgainToGray(s: State)
    requires Marking(s, {}) && s.gray == []
    ensures var t := s.(gray := s.grayagain, grayagain := []);
            Marking(t, {}) && Advance(s, t) && (UpvalsScanned(s) ==> UpvalsScanned(t))
  {
    SameReached(s, s.(gray := s.grayagain, grayagain := []));
    hide Reached;
  }

  lemma MarkAllMarking(s: State, vs: seq<Value>)
    requires Marking(s, {})
    ensures var t := MarkAll(s, vs); Marking(t, {}) && Advance(s, t) && UpvalsSettled(s, t)
    ensures forall v :: v in vs && v.Obj? ==> !IsWhite(MarkAll(s, vs), v.r)
  {
    var pushed := MarkAllGrew(s, vs);
    GrewMarking(s, MarkAll(s, vs), pushed, {});
    GrewSettlesUpvals(s, MarkAll(s, vs), pushed);
  }

  /** Marked objects refer to marked objects, except weakly in the tables of the weak list. */
  ghost predicate MarkingComplete(s: State) {
    && s.gray == []
    && (forall v :: v in Roots(s) && v.Obj? ==> !IsWhite(s, v.r))
    && (forall r :: r in s.heap && !IsWhite(s, r) ==> StrongReached(s, r) && (r !in s.weak ==> Reached(s, r)))
  }

  lemma ReachedStrongly(s: State, r: Ref)
    requires Reached(s, r)
    ensures StrongReached(s, r)
  {
    forall v | v in Strongly(s.heap, s.heap[r].body) && v.Obj? ensures !IsWhite(s, v.r) {
      StrongIsReference(s.heap, r, v.r);
    }
  }

  lemma AtomicMarkCompletes(s: State)
    requires Marking(s, {}) && UpvalsListed(s)
    requires !IsWhite(s, s.main) && (s.registry.Obj? ==> !IsWhite(s, s.registry.r))
    ensures var t := AtomicMark(s); Marking(t, {}) && Advance(s, t) && MarkingComplete(t)
  {
    hide Marking, UpvalsScanned, TablesScanned, ThreadsScanned, AtomicUpvals, AtomicWeak, AtomicAgain, Advance;
    AtomicUpvalsKeeps(s);
    var s1 := AtomicUpvals(s);
    AtomicWeakKeeps(s1);
    var s2 := AtomicWeak(s1);
    AtomicAgainKeeps(s2);
    var t := AtomicAgain(s2);
    AdvanceTrans(s, s1, s2);
    AdvanceTrans(s, s2, t);
    RootsMarked(s, s1, s2, t);
    AllReached(t);
  }

  lemma RootsMarked(s: State, s1: State, s2: State, t: State)
    requires Advance(s, s1) && Advance(s1, s2) && Advance(s2, t)
    requires !IsWhite(s, s.main) && (s.registry.Obj? ==> !IsWhite(s, s.registry.r))
    requires forall v :: v in [Obj(s1.running)] + s1.mt && v.Obj? ==> !IsWhite(s2, v.r)
    ensures forall v :: v in Roots(t) && v.Obj? ==> !IsWhite(t, v.r)
  {
    assert forall v :: v in Roots(t) ==> v == Obj(s.main) || v == s.registry || v in [Obj(s1.running)] + s1.mt;
  }

  lemma AllReached(t: State)
    requires Marking(t, {}) && t.gray == [] && UpvalsScanned(t) && TablesScanned(t) && ThreadsScanned(t)
    ensures forall r :: r in t.heap && !IsWhite(t, r) ==> StrongReached(t, r) && (r !in t.weak ==> Reached(t, r))
  {
    hide Reached, StrongReached;
    forall r | r in t.heap && !IsWhite(t, r) ensures StrongReached(t, r) && (r !in t.weak ==> Reached(t, r)) {
      assert Consistent(t, r);
      if t.heap[r].body.Str? { StringReached(t, r); }
      if Reached(t, r) { ReachedStrongly(t, r); }
    }
  }

  lemma StringReached(s: State, r: Ref)
    requires r in s.heap && s.heap[r].body.Str?
    ensures Reached(s, r)
  {
  }

  /** When marking is complete, everything reachable without weak references is marked. */
  lemma {:induction false} StrongPathMarked(s: State, p: seq<Ref>, r: Ref)
    requires MarkingComplete(s) && Closed(s) && StrongPath(s, p, r)
    ensures r in s.heap && !IsWhite(s, r)
    decreases |p|
  {
    StrongIsReachable(s, r);
    ReachableAlive(s, r);
    if |p| > 1 {
      var q := p[|p| - 2];
      var p' := p[..|p| - 1];
      assert StrongPath(s, p', q);
      StrongPathMarked(s, p', q);
      assert StrongRefers(s.heap, q, r);
    }
  }

  // ----- precision ---------------------------------------------------------------------

  lemma AdvanceClosed(s: State, t: State, x: set<Ref>)
    requires Advance(s, t) && StrongClosed(s.heap, x)
    ensures StrongClosed(t.heap, x)
  {
    ClosedKept(s, t.(gray := s.gray, grayagain := s.grayagain, weak := s.weak), x);
  }

  lemma PropagateMarkWithin(s: State, x: set<Ref>)
    requires Marking(s, {}) && s.gray != [] && StrongClosed(s.heap, x) && Within(s, x)
    ensures s.gray[0] in s.heap && Within(PropagateMark(s), x)
  {
    hide Marking, StrongClosed, MarkAll, MarkValue, Contents, Within;
    var o := s.gray[0];
    FirstGray(s);
    WithinHas(s, x, o);
    var b := s.heap[o].body;
    Strong(s, o, x);
    if b.Table? {
      TraverseTableWithin(s, x);
    } else if b.Thread? {
      var g1 := Paint(Paint(s, o, Black).(gray := s.gray[1..], grayagain := [o] + s.grayagain), o, Gray);
      PaintedWithin(s, o, g1, x);
      MarkAllWithin(g1, Contents(s.heap, b, STRONG), x);
    } else {
      var s1 := Paint(s, o, Black).(gray := s.gray[1..]);
      PaintedWithin(s, o, s1, x);
      MarkAllWithin(s1, Contents(s.heap, b, STRONG), x);
    }
  }

  lemma WithinHas(s: State, x: set<Ref>, o: Ref)
    requires Within(s, x) && o in s.heap && !s.heap[o].color.White?
    ensures o in x
  {
  }

  lemma PaintedWithin(s: State, o: Ref, t: State, x: set<Ref>)
    requires o in s.heap && o in x && StrongClosed(s.heap, x) && Within(s, x)
    requires t.heap.Keys == s.heap.Keys && o in t.heap && t.heap == s.heap[o := s.heap[o].(color := t.heap[o].color)]
    ensures StrongClosed(t.heap, x) && Within(t, x)
  {
    ClosedKept(s, s.(heap := t.heap), x);
  }

  lemma TraverseTableWithin(s: State, x: set<Ref>)
    requires s.gray != [] && s.gray[0] in s.heap && s.heap[s.gray[0]].body.Table? && s.gray[0] in x
    requires StrongClosed(s.heap, x) && Within(s, x)
    ensures Within(PropagateMark(s), x)
  {
    hide StrongClosed, MarkAll, MarkValue, TableValues, ModeOf, Within;
    var o := s.gray[0];
    var b := s.heap[o].body;
    Strong(s, o, x);
    var m := ModeOf(s.heap, b.meta);
    var s1 := Paint(s, o, Black).(gray := s.gray[1..]);
    PaintedWithin(s, o, s1, x);
    var s2 := MarkValue(s1, MetaValue(b.meta));
    assert MetaValue(b.meta) in Strongly(s.heap, b);
    MarkValueWithin(s1, MetaValue(b.meta), x);
    var s3 := if m == STRONG then s2 else s2.(weak := [o] + s2.weak);
    SameWithin(s2, s3, x);
    MarkAllWithin(s3, TableValues(b, m), x);
    var s4 := MarkAll(s3, TableValues(b, m));
    if m != STRONG { PaintedWithin(s4, o, Paint(s4, o, Gray), x); }
  }

  lemma {:induction false} PropagateAllWithin(s: State, x: set<Ref>)
    requires Marking(s, {}) && StrongClosed(s.heap, x) && Within(s, x)
    ensures Within(PropagateAll(s), x)
    decreases Whites(s), |s.gray|
  {
    hide Marking, StrongClosed, Within, PropagateMark;
    if s.gray != [] {
      PropagateMarkKeeps(s);
      PropagateMarkWithin(s, x);
      var t := PropagateMark(s);
      AdvanceWhites(s, t);
      AdvanceClosed(s, t, x);
      PropagateAllWithin(t, x);
    }
  }

  lemma {:induction false} RemarkWithin(s: State, us: seq<Ref>, x: set<Ref>)
    requires StrongClosed(s.heap, x) && Within(s, x)
    ensures Within(RemarkUpvals(s, us), x)
    decreases |us|
  {
    hide StrongClosed, MarkValue, SlotValue;
    if us != [] {
      var u := us[0];
      if u in s.heap && s.heap[u].color == Gray && s.heap[u].body.OpenUpval? {
        Strong(s, u, x);
        MarkValueWithin(s, SlotValue(s.heap, s.heap[u].body.thread, s.heap[u].body.slot), x);
        RemarkWithin(MarkValue(s, SlotValue(s.heap, s.heap[u].body.thread, s.heap[u].body.slot)), us[1..], x);
      } else {
        RemarkWithin(s, us[1..], x);
      }
    }
  }

  /** The roots that are in the heap belong to 'x'. */
  predicate RootsIn(s: State, x: set<Ref>) {
    forall v :: v in Roots(s) && v.Obj? && v.r in s.heap ==> v.r in x
  }

  lemma AtomicMarkWithin(s: State, x: set<Ref>)
    requires Marking(s, {}) && UpvalsListed(s) && StrongClosed(s.heap, x) && Within(s, x) && RootsIn(s, x)
    ensures Within(AtomicMark(s), x)
  {
    AtomicUpvalsWithin(s, x);
    AtomicUpvalsKeeps(s);
    var s1 := AtomicUpvals(s);
    AdvanceClosed(s, s1, x);
    AtomicWeakWithin(s1, x);
    AtomicWeakKeeps(s1);
    var s2 := AtomicWeak(s1);
    AdvanceClosed(s1, s2, x);
    AgainToGray(s2);
    PropagateAllWithin(s2.(gray := s2.grayagain, grayagain := []), x);
  }

  lemma AtomicUpvalsWithin(s: State, x: set<Ref>)
    requires Marking(s, {}) && UpvalsListed(s) && StrongClosed(s.heap, x) && Within(s, x)
    ensures Within(AtomicUpvals(s), x)
  {
    hide Within, StrongClosed, RemarkUpvals, PropagateAll;
    RemarkKeeps(s, s.uvhead);
    RemarkWithin(s, s.uvhead, x);
    var t := RemarkUpvals(s, s.uvhead);
    AdvanceClosed(s, t, x);
    PropagateAllWithin(t, x);
  }

  lemma AtomicWeakWithin(s: State, x: set<Ref>)
    requires Marking(s, {}) && s.gray == [] && StrongClosed(s.heap, x) && Within(s, x) && RootsIn(s, x)
    ensures Within(AtomicWeak(s), x)
  {
    hide StrongClosed, MarkAll, PropagateAll;
    WeakToGray(s);
    var s1 := s.(gray := s.weak, weak := []);
    var vs := [Obj(s.running)] + s.mt;
    assert forall v :: v in vs ==> v in Roots(s);
    MarkAllMarking(s1, vs);
    MarkAllWithin(s1, vs, x);
    AdvanceClosed(s1, MarkAll(s1, vs), x);
    PropagateAllWithin(MarkAll(s1, vs), x);
  }

  lemma MarkRootWithin(s: State, x: set<Ref>)
    requires AllWhite(s) && StrongClosed(s.heap, x) && RootsIn(s, x)
    ensures Within(MarkRoot(s), x)
  {
    hide StrongClosed, MarkAll;
    var s0 := s.(gray := [], grayagain := [], weak := []);
    var g := ThreadGlobals(s0, s.main);
    assert Obj(s.main) in Roots(s);
    if s.main in s.heap && s.heap[s.main].body.Thread? {
      Strong(s, s.main, x);
      assert g in Strongly(s.heap, s.heap[s.main].body);
    }
    var vs := [Obj(s.main), g, s.registry] + s.mt;
    assert forall v :: v in vs ==> v == g || v in Roots(s);
    MarkAllWithin(s0, vs, x);
  }
}

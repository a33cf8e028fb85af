/** Marking: white objects become gray or black, gray objects are traversed. */
module GcMark {
  import opened GcHeap

  function Whites(s: State): set<Ref> {
    set r | r in s.heap && s.heap[r].color.White?
  }

  function Paint(s: State, r: Ref, c: Color): (t: State)
    requires r in s.heap
    ensures !c.White? ==> Whites(t) == Whites(s) - {r}
  {
    s.(heap := s.heap[r := s.heap[r].(color := c)])
  }

  /** The objects that wait in a list to be traversed. */
  predicate Container(b: Body) {
    b.Table? || b.CClosure? || b.LClosure? || b.Thread? || b.Proto?
  }

  /** Mark a white object. */
  function Mark(s: State, r: Ref): (t: State)
    requires IsWhite(s, r)
    ensures Whites(t) < Whites(s) && t.heap.Keys == s.heap.Keys
    decreases Whites(s), 0, 0
  {
    var s1 := Paint(s, r, Gray);
    assert r in Whites(s) && r !in Whites(s1);
    match s.heap[r].body
    case Str(_) => s1
    case Udata(meta, env) => MarkAll(Paint(s1, r, Black), [MetaValue(meta), Obj(env)])
    case ClosedUpval(v) => Paint(MarkValue(s1, v), r, Black)
    case OpenUpval(th, slot) => MarkValue(s1, SlotValue(s.heap, th, slot))
    case _ => s1.(gray := [r] + s1.gray)
  }

  function MarkValue(s: State, v: Value): (t: State)
    ensures Whites(t) <= Whites(s) && t.heap.Keys == s.heap.Keys
    decreases Whites(s), 1, 0
  {
    if v.Obj? && IsWhite(s, v.r) then Mark(s, v.r) else s
  }

  function MarkAll(s: State, vs: seq<Value>): (t: State)
    ensures Whites(t) <= Whites(s) && t.heap.Keys == s.heap.Keys
    decreases Whites(s), 2, |vs|
  {
    if vs == [] then s else MarkAll(MarkValue(s, vs[0]), vs[1..])
  }

  // ----- what marking does to the graph ------------------------------------------------

  /** Only colours and the gray list differ. */
  predicate SameShape(s: State, t: State) {
    && t == s.(heap := t.heap, gray := t.gray)
    && t.heap.Keys == s.heap.Keys
    && forall r :: r in s.heap ==> t.heap[r] == s.heap[r].(color := t.heap[r].color)
  }

  /** No object that 'r' refers to is white. */
  predicate Reached(s: State, r: Ref) {
    r in s.heap && forall v :: v in Contents(s.heap, s.heap[r].body, STRONG) && v.Obj? ==> !IsWhite(s, v.r)
  }

  /** The same for what 'r' refers to strongly. */
  predicate StrongReached(s: State, r: Ref) {
    r in s.heap && forall v :: v in Strongly(s.heap, s.heap[r].body) && v.Obj? ==> !IsWhite(s, v.r)
  }

  /** A newly marked object has been dealt with, or it waits among the objects 'pushed'. */
  predicate Settled(t: State, r: Ref, pushed: seq<Ref>) {
    r in t.heap &&
    match t.heap[r].body
    case Str(_) => t.heap[r].color == Gray
    case Udata(_, _) => t.heap[r].color == Black && Reached(t, r)
    case ClosedUpval(_) => t.heap[r].color == Black && Reached(t, r)
    case OpenUpval(_, _) => t.heap[r].color == Gray && Reached(t, r)
    case _ => t.heap[r].color == Gray && r in pushed
  }

  /** The effect of marking: 'pushed' has been pushed on the gray list. */
  ghost predicate Grew(s: State, t: State, pushed: seq<Ref>) {
    && SameShape(s, t)
    && (forall r :: r in s.heap && !s.heap[r].color.White? ==> t.heap[r].color == s.heap[r].color)
    && (forall r :: IsWhite(s, r) ==> t.heap[r].color == s.heap[r].color || Settled(t, r, pushed))
    && t.gray == pushed + s.gray
    && Distinct(pushed)
    && (forall r :: r in pushed ==> IsWhite(s, r) && !IsWhite(t, r) && Container(s.heap[r].body))
  }

  lemma ShapeKeepsContents(s: State, t: State, b: Body, m: Mode)
    requires SameShape(s, t)
    ensures Contents(t.heap, b, m) == Contents(s.heap, b, m)
    ensures Strongly(t.heap, b) == Strongly(s.heap, b)
  {
    if b.Table? { assert ModeOf(t.heap, b.meta) == ModeOf(s.heap, b.meta); }
  }

  lemma ReachedKept(s: State, t: State, r: Ref)
    requires SameShape(s, t) && Reached(s, r)
    requires forall q :: q in s.heap && !s.heap[q].color.White? ==> !t.heap[q].color.White?
    ensures Reached(t, r)
  {
    ShapeKeepsContents(s, t, s.heap[r].body, STRONG);
  }

  lemma GrewRefl(s: State)
    ensures Grew(s, s, [])
  {
  }

  lemma SettledKept(t: State, u: State, r: Ref, pushed: seq<Ref>, new2: seq<Ref>)
    requires Settled(t, r, pushed) && Grew(t, u, new2)
    ensures Settled(u, r, new2 + pushed)
  {
    if Reached(t, r) { ReachedKept(t, u, r); }
  }

  lemma GrewTrans(s: State, t: State, u: State, pushed: seq<Ref>, new2: seq<Ref>)
    requires Grew(s, t, pushed) && Grew(t, u, new2)
    ensures Grew(s, u, new2 + pushed)
  {
    hide Settled, Reached, Container;
    assert u.gray == (new2 + pushed) + s.gray;
    DistinctCat(new2, pushed);
    forall r | IsWhite(s, r) ensures u.heap[r].color == s.heap[r].color || Settled(u, r, new2 + pushed) {
      if t.heap[r].color == s.heap[r].color {
        assert IsWhite(t, r);
        if Settled(u, r, new2) { SettledWider(u, r, new2, new2 + pushed); }
      } else {
        SettledKept(t, u, r, pushed, new2);
      }
    }
  }

  lemma SettledWider(t: State, r: Ref, pushed: seq<Ref>, wide: seq<Ref>)
    requires Settled(t, r, pushed) && forall x :: x in pushed ==> x in wide
    ensures Settled(t, r, wide)
  {
  }

  lemma {:induction false} MarkGrew(s: State, r: Ref) returns (pushed: seq<Ref>)
    requires IsWhite(s, r)
    ensures Grew(s, Mark(s, r), pushed) && !IsWhite(Mark(s, r), r)
    decreases Whites(s), 0, 0
  {
    hide Settled, Reached, MarkAll, MarkValue, Grew, SlotValue, TableValues, IsWhite, Whites;
    Smaller(s, r);
    var s1 := Paint(s, r, Gray);
    match s.heap[r].body {
      case Str(_) =>
        pushed := [];
        assert [] + s.gray == s.gray;
        PushedGrew(s, r, pushed);
      case Udata(meta, env) =>
        var s2 := Paint(s1, r, Black);
        pushed := MarkAllGrew(s2, [MetaValue(meta), Obj(env)]);
        PaintedGrew(s, s2, Mark(s, r), r, Black, [MetaValue(meta), Obj(env)], pushed);
      case ClosedUpval(v) =>
        pushed := MarkValueGrew(s1, v);
        BlackenedGrew(s, s1, MarkValue(s1, v), r, pushed);
      case OpenUpval(th, slot) =>
        var v := SlotValue(s.heap, th, slot);
        pushed := MarkValueGrew(s1, v);
        PaintedGrew(s, s1, Mark(s, r), r, Gray, [v], pushed);
      case _ =>
        pushed := [r];
        PushedGrew(s, r, pushed);
    }
  }

  lemma Smaller(s: State, r: Ref)
    requires IsWhite(s, r)
    ensures r in s.heap && Whites(Paint(s, r, Gray)) < Whites(s)
    ensures Whites(Paint(Paint(s, r, Gray), r, Black)) < Whites(s)
  {
    assert r in Whites(s) && r !in Whites(Paint(s, r, Gray));
  }

  /** A string is just painted, a container also goes into the gray list. */
  lemma PushedGrew(s: State, r: Ref, pushed: seq<Ref>)
    requires IsWhite(s, r)
    requires if s.heap[r].body.Str? then pushed == [] else Container(s.heap[r].body) && pushed == [r]
    ensures Grew(s, Paint(s, r, Gray).(gray := pushed + s.gray), pushed)
    ensures !IsWhite(Paint(s, r, Gray), r)
  {
  }

  /** An object is painted first, and then what it refers to is marked. */
  lemma PaintedGrew(s: State, s1: State, t: State, r: Ref, c: Color, vs: seq<Value>, pushed: seq<Ref>)
    requires IsWhite(s, r) && !c.White? && s1.heap == Paint(s, r, c).heap && s1 == s.(heap := s1.heap)
    requires Grew(s1, t, pushed)
    requires !Container(s.heap[r].body) && !s.heap[r].body.Str?
    requires c == (if s.heap[r].body.OpenUpval? then Gray else Black)
    requires vs == Contents(s.heap, s.heap[r].body, STRONG) && forall v :: v in vs && v.Obj? ==> !IsWhite(t, v.r)
    ensures Grew(s, t, pushed) && !IsWhite(t, r)
  {
    hide Settled, Reached;
    assert SameShape(s, t);
    ShapeKeepsContents(s, t, s.heap[r].body, STRONG);
    PaintedSettled(t, r, pushed);
  }

  lemma PaintedSettled(t: State, r: Ref, pushed: seq<Ref>)
    requires r in t.heap && !Container(t.heap[r].body) && !t.heap[r].body.Str?
    requires t.heap[r].color == (if t.heap[r].body.OpenUpval? then Gray else Black)
    requires forall v :: v in Contents(t.heap, t.heap[r].body, STRONG) && v.Obj? ==> !IsWhite(t, v.r)
    ensures Settled(t, r, pushed)
  {
  }

  lemma BlackenedGrew(s: State, s1: State, t: State, r: Ref, pushed: seq<Ref>)
    requires IsWhite(s, r) && s1 == Paint(s, r, Gray) && Grew(s1, t, pushed)
    requires s.heap[r].body.ClosedUpval? && (s.heap[r].body.v.Obj? ==> !IsWhite(t, s.heap[r].body.v.r))
    ensures r in t.heap && Grew(s, Paint(t, r, Black), pushed) && !IsWhite(Paint(t, r, Black), r)
  {
    hide Settled, Reached, Contents, SameShape, Paint, Distinct;
    BlackenedShape(s, s1, t, r);
    PaintFields(s, r, Gray);
    PaintFields(t, r, Black);
    var u := Paint(t, r, Black);
    ClosedContents(u, r);
    PaintedSettled(u, r, pushed);
    forall q | IsWhite(s, q) ensures u.heap[q].color == s.heap[q].color || Settled(u, q, pushed) {
      if q != r { BlackenedOther(s, s1, t, r, q, pushed); }
    }
  }

  lemma PaintFields(s: State, r: Ref, c: Color)
    requires r in s.heap
    ensures var t := Paint(s, r, c);
            && t.gray == s.gray && t.heap.Keys == s.heap.Keys && t.heap[r] == s.heap[r].(color := c)
            && forall q :: q in s.heap && q != r ==> t.heap[q] == s.heap[q]
  {
  }

  lemma BlackenedOther(s: State, s1: State, t: State, r: Ref, q: Ref, pushed: seq<Ref>)
    requires r in s.heap && s1 == Paint(s, r, Gray) && Grew(s1, t, pushed) && IsWhite(s, q) && q != r && r in t.heap
    requires q in t.heap
    ensures Paint(t, r, Black).heap[q].color == s.heap[q].color || Settled(Paint(t, r, Black), q, pushed)
  {
    hide Settled, Reached, SameShape;
    assert IsWhite(s1, q);
    if Settled(t, q, pushed) { SettledBlackened(t, q, r, pushed); }
  }

  lemma BlackenedShape(s: State, s1: State, t: State, r: Ref)
    requires r in s.heap && s1 == Paint(s, r, Gray) && SameShape(s1, t)
    ensures r in t.heap && SameShape(s, Paint(t, r, Black)) && t.heap.Keys == s.heap.Keys
    ensures forall q :: q in s.heap ==> q in t.heap && t.heap[q].body == s.heap[q].body
  {
  }

  lemma ClosedContents(u: State, r: Ref)
    requires r in u.heap && u.heap[r].body.ClosedUpval?
    ensures Contents(u.heap, u.heap[r].body, STRONG) == [u.heap[r].body.v]
  {
  }

  lemma SettledBlackened(t: State, q: Ref, r: Ref, pushed: seq<Ref>)
    requires Settled(t, q, pushed) && r in t.heap && q != r
    ensures Settled(Paint(t, r, Black), q, pushed)
  {
    if Reached(t, q) { ReachedKept(t, Paint(t, r, Black), q); }
  }

  lemma {:induction false} MarkValueGrew(s: State, v: Value) returns (pushed: seq<Ref>)
    ensures Grew(s, MarkValue(s, v), pushed) && (v.Obj? ==> !IsWhite(MarkValue(s, v), v.r))
    decreases Whites(s), 1, 0
  {
    hide Settled, Mark, SameShape;
    if v.Obj? && IsWhite(s, v.r) { pushed := MarkGrew(s, v.r); } else { pushed := []; GrewRefl(s); }
  }

  lemma {:induction false} MarkAllGrew(s: State, vs: seq<Value>) returns (pushed: seq<Ref>)
    ensures Grew(s, MarkAll(s, vs), pushed)
    ensures forall v :: v in vs && v.Obj? ==> !IsWhite(MarkAll(s, vs), v.r)
    decreases Whites(s), 2, |vs|
  {
    hide Settled, MarkValue;
    if vs == [] {
      pushed := [];
      GrewRefl(s);
    } else {
      var t := MarkValue(s, vs[0]);
      var n1 := MarkValueGrew(s, vs[0]);
      var n2 := MarkAllGrew(t, vs[1..]);
      GrewTrans(s, t, MarkAll(s, vs), n1, n2);
      pushed := n2 + n1;
    }
  }

  // ----- marking marks no more than it must --------------------------------------------

  /** Everything marked belongs to 'x'. */
  predicate Within(s: State, x: set<Ref>) {
    forall r :: r in s.heap && !s.heap[r].color.White? ==> r in x
  }

  /** 'x' holds what its objects refer to strongly. */
  predicate StrongClosed(h: Heap, x: set<Ref>) {
    forall r :: r in x && r in h ==> forall v :: v in Strongly(h, h[r].body) && v.Obj? && v.r in h ==> v.r in x
  }

  lemma ClosedKept(s: State, t: State, x: set<Ref>)
    requires SameShape(s, t) && StrongClosed(s.heap, x)
    ensures StrongClosed(t.heap, x)
  {
    forall r | r in x && r in t.heap
      ensures forall v :: v in Strongly(t.heap, t.heap[r].body) && v.Obj? && v.r in t.heap ==> v.r in x
    {
      ShapeKeepsContents(s, t, s.heap[r].body, STRONG);
    }
  }

  lemma {:induction false} MarkWithin(s: State, r: Ref, x: set<Ref>)
    requires IsWhite(s, r) && r in x && StrongClosed(s.heap, x) && Within(s, x)
    ensures Within(Mark(s, r), x) && StrongClosed(Mark(s, r).heap, x)
    decreases Whites(s), 0, 0
  {
    hide MarkAll, MarkValue, StrongClosed, SlotValue, Within, Whites, IsWhite, Contents;
    Smaller(s, r);
    var s1 := Paint(s, r, Gray);
    var s2 := Paint(s1, r, Black);
    PaintedIn(s, r, Gray, x);
    PaintedIn(s1, r, Black, x);
    Refs(s, r, x);
    match s.heap[r].body
    case Udata(meta, env) => MarkAllWithin(s2, [MetaValue(meta), Obj(env)], x);
    case ClosedUpval(v) => MarkValueWithin(s1, v, x); PaintedIn(MarkValue(s1, v), r, Black, x);
    case OpenUpval(th, slot) => MarkValueWithin(s1, SlotValue(s.heap, th, slot), x);
    case _ => SameWithin(s1, Mark(s, r), x);
  }

  /** What an object that is marked at once refers to belongs to 'x'. */
  lemma Refs(s: State, r: Ref, x: set<Ref>)
    requires r in s.heap && r in x && StrongClosed(s.heap, x)
    ensures var b := s.heap[r].body;
            match b
            case Udata(meta, env) =>
              forall v :: v in [MetaValue(meta), Obj(env)] && v.Obj? && v.r in s.heap ==> v.r in x
            case ClosedUpval(v) => v.Obj? && v.r in s.heap ==> v.r in x
            case OpenUpval(th, slot) =>
              SlotValue(s.heap, th, slot).Obj? && SlotValue(s.heap, th, slot).r in s.heap ==>
                  SlotValue(s.heap, th, slot).r in x
            case _ => true
  {
    hide StrongClosed, SlotValue;
    Strong(s, r, x);
  }

  lemma PaintedIn(s: State, r: Ref, c: Color, x: set<Ref>)
    requires r in s.heap && r in x && Within(s, x) && StrongClosed(s.heap, x)
    ensures Within(Paint(s, r, c), x) && StrongClosed(Paint(s, r, c).heap, x)
  {
    hide StrongClosed;
    ClosedKept(s, Paint(s, r, c), x);
  }

  lemma SameWithin(s: State, t: State, x: set<Ref>)
    requires Within(s, x) && t.heap == s.heap
    ensures Within(t, x) && (StrongClosed(s.heap, x) ==> StrongClosed(t.heap, x))
  {
  }

  lemma Strong(s: State, r: Ref, x: set<Ref>)
    requires r in s.heap && r in x && StrongClosed(s.heap, x)
    ensures forall v :: v in Strongly(s.heap, s.heap[r].body) && v.Obj? && v.r in s.heap ==> v.r in x
  {
  }

  lemma {:induction false} MarkValueWithin(s: State, v: Value, x: set<Ref>)
    requires StrongClosed(s.heap, x) && Within(s, x) && (v.Obj? && v.r in s.heap ==> v.r in x)
    ensures Within(MarkValue(s, v), x) && StrongClosed(MarkValue(s, v).heap, x)
    decreases Whites(s), 1, 0
  {
    hide Mark, StrongClosed, Within;
    if v.Obj? && IsWhite(s, v.r) { MarkWithin(s, v.r, x); }
  }

  lemma {:induction false} MarkAllWithin(s: State, vs: seq<Value>, x: set<Ref>)
    requires StrongClosed(s.heap, x) && Within(s, x) && forall v :: v in vs && v.Obj? && v.r in s.heap ==> v.r in x
    ensures Within(MarkAll(s, vs), x) && StrongClosed(MarkAll(s, vs).heap, x)
    decreases Whites(s), 2, |vs|
  {
    hide MarkValue, StrongClosed, Within;
    if vs != [] {
      MarkValueWithin(s, vs[0], x);
      MarkAllWithin(MarkValue(s, vs[0]), vs[1..], x);
    }
  }
}

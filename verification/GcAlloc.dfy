/** New objects, strings that are found again, and open upvalues. */
module GcAlloc {
  import opened GcHeap
  import opened GcMark
  import opened GcCycle
  import opened GcClear
  import opened GcSweep
  import opened GcSteps
  import opened GcMutator

  // ----- a new object in the root list -------------------------------------------------

  /** Insert at place 'k'; sweepgc keeps pointing to the same object, or to the new one if that
      comes right where it points. */
  function Insert(s: State, k: nat, r: Ref, b: Body): State
    requires k <= |s.root|
  {
    s.(heap := s.heap[r := Object(White(s.white), false, b)],
       root := s.root[..k] + [r] + s.root[k..],
       sweep := if s.sweep > k then s.sweep + 1 else s.sweep)
  }

  /** Objects are linked at the head of the list. */
  function Link(s: State, r: Ref, b: Body): State {
    Insert(s, 0, r, b)
  }

  function IndexOf(a: seq<Ref>, x: Ref): (k: nat)
    ensures k <= |a| && (x in a ==> k < |a| && a[k] == x)
  {
    if a == [] || a[0] == x then 0 else 1 + IndexOf(a[1..], x)
  }

  /** Userdata are linked after the main thread. */
  function LinkUdata(s: State, r: Ref, b: Body): State
    requires s.main in s.root
  {
    Insert(s, IndexOf(s.root, s.main) + 1, r, b)
  }

  predicate Linkable(b: Body) {
    !b.Str? && !b.OpenUpval? && (b.Thread? ==> b.open == [])
  }

  lemma InsertedMembers(a: seq<Ref>, k: nat, r: Ref)
    requires k <= |a| && r !in a && Distinct(a)
    ensures var b := a[..k] + [r] + a[k..];
            Distinct(b) && (forall x :: x in b <==> x in a || x == r) && |b| == |a| + 1
  {
    var b := a[..k] + [r] + a[k..];
    assert a == a[..k] + a[k..];
    forall i, j | 0 <= i < j < |b| ensures b[i] != b[j] {
      assert i != k ==> b[i] == a[if i < k then i else i - 1];
      assert j != k ==> b[j] == a[if j < k then j else j - 1];
    }
  }

  lemma InsertOwned(s: State, k: nat, r: Ref, b: Body)
    requires Owned(s, {}) && k <= |s.root| && r !in s.heap && Linkable(b)
    ensures Owned(Insert(s, k, r, b), {})
  {
    hide StringsOwned, RootsOwned, UpvalsOwned;
    var t := Insert(s, k, r, b);
    InsertUpvals(s, k, r, b);
    InsertRoots(s, k, r, b);
    StringsSame(s, t);
    FixedSame(s, t);
  }

  lemma InsertUpvals(s: State, k: nat, r: Ref, b: Body)
    requires UpvalsOwned(s) && k <= |s.root| && r !in s.heap && Linkable(b)
    ensures UpvalsOwned(Insert(s, k, r, b))
  {
    hide Distinct, OpenOwned;
    InsertOpen(s, k, r, b);
  }

  lemma InsertOpen(s: State, k: nat, r: Ref, b: Body)
    requires OpenOwned(s) && SlotsOwned(s) && k <= |s.root| && r !in s.heap && Linkable(b)
    ensures OpenOwned(Insert(s, k, r, b))
  {
    hide Distinct;
    forall x | IsOpen(s, x) ensures s.heap[x].body.thread != r { assert IsThread(s, s.heap[x].body.thread); }
    NoneDistinct();
  }

  lemma NoneDistinct()
    ensures Distinct([])
  {
  }

  lemma InsertRoots(s: State, k: nat, r: Ref, b: Body)
    requires RootsOwned(s, {}) && k <= |s.root| && r !in s.heap && Linkable(b)
    ensures RootsOwned(Insert(s, k, r, b), {})
  {
    hide Distinct;
    assert r !in s.root;
    InsertedMembers(s.root, k, r);
    var t := Insert(s, k, r, b);
    forall x ensures x in t.root <==> Listed(t, x) { assert x in s.root <==> Listed(s, x); }
  }

  lemma OwnedThreads(s: State)
    requires Owned(s, {})
    ensures ThreadsPresent(s)
  {
  }

  ghost predicate ThreadsPresent(s: State) {
    forall x :: IsOpen(s, x) ==> IsThread(s, s.heap[x].body.thread)
  }

  lemma NewContents(s: State, t: State, r: Ref, b: Body, q: Ref)
    requires t.heap == s.heap[r := Object(White(s.white), false, b)] && Refers(t.heap, r, q) && r !in s.heap
    requires b.OpenUpval? ==> b.thread != r
    ensures Obj(q) in Contents(s.heap, b, STRONG)
  {
  }

  /** A new object is alive, refers to live objects, and nothing refers to it yet. */
  lemma AddedClosed(s: State, t: State, r: Ref, b: Body)
    requires Closed(s) && r !in s.heap && ThreadsPresent(s)
    requires t.heap == s.heap[r := Object(White(s.white), false, b)] && t.white == s.white && Roots(t) == Roots(s)
    requires AllAlive(s, Contents(s.heap, b, STRONG)) && (b.OpenUpval? ==> b.thread != r)
    ensures Closed(t)
  {
    forall x | x in s.heap
      ensures Contents(t.heap, s.heap[x].body, STRONG) == Contents(s.heap, s.heap[x].body, STRONG)
    {
      var c := s.heap[x].body;
      if c.OpenUpval? { assert IsOpen(s, x) && IsThread(s, c.thread); }
    }
    hide Contents;
    forall x, q | Alive(t, x) && Refers(t.heap, x, q) ensures Alive(t, q) {
      if x == r {
        NewContents(s, t, r, b, q);
      } else {
        assert Alive(s, x) && Refers(s.heap, x, q);
      }
    }
  }

  /** In the mark phase a new object is white; no black object refers to it. */
  lemma AddedMarking(s: State, t: State, r: Ref, b: Body)
    requires Marking(s, {}) && r !in s.heap && Closed(s) && NoneDead(s)
    requires t.heap == s.heap[r := Object(White(s.white), false, b)]
    requires t.gray == s.gray && t.grayagain == s.grayagain && t.weak == s.weak
    ensures Marking(t, {})
  {
    forall x | x in t.heap ensures Consistent(t, x) {
      if x != r {
        assert Consistent(s, x);
        if s.heap[x].color == Black {
          assert Contents(t.heap, s.heap[x].body, STRONG) == Contents(s.heap, s.heap[x].body, STRONG);
          assert Alive(s, x);
          StillReached(s, t, x, r);
        }
      }
    }
    hide Reached, Contents;
  }

  lemma StillReached(s: State, t: State, x: Ref, r: Ref)
    requires Reached(s, x) && Closed(s) && Alive(s, x) && r !in s.heap
    requires forall q :: q in s.heap ==> q in t.heap && t.heap[q] == s.heap[q]
    requires Contents(t.heap, s.heap[x].body, STRONG) == Contents(s.heap, s.heap[x].body, STRONG)
    ensures Reached(t, x)
  {
    hide Contents;
    forall v | v in Contents(t.heap, t.heap[x].body, STRONG) && v.Obj? ensures !IsWhite(t, v.r) {
      assert Refers(s.heap, x, v.r);
    }
  }

  lemma AddedMarkPhase(s: State, t: State, r: Ref, b: Body)
    requires MarkPhase(s) && r !in s.heap && Closed(s) && (b.OpenUpval? ==> r in t.uvhead)
    requires t.heap == s.heap[r := Object(White(s.white), false, b)] && t.white == s.white && Roots(t) == Roots(s)
    requires t.gray == s.gray && t.grayagain == s.grayagain && t.weak == s.weak && t.main == s.main
    requires t.registry == s.registry
    requires forall u :: u in s.uvhead ==> u in t.uvhead
    ensures MarkPhase(t)
  {
    AddedMarking(s, t, r, b);
    hide Marking, Contents;
    assert Obj(s.main) in Roots(s);
    if s.registry.Obj? { assert Obj(s.registry.r) in Roots(s); }
  }

  lemma InsertKeeps(s: State, k: nat, r: Ref, b: Body)
    requires Inv(s) && k <= |s.root| && r !in s.heap && Linkable(b) && AllAlive(s, Contents(s.heap, b, STRONG))
    ensures Inv(Insert(s, k, r, b))
  {
    hide Owned, Closed, MarkPhase, AllAlive, Contents, AllFresh, RootFresh, Reachable;
    var t := Insert(s, k, r, b);
    InsertOwned(s, k, r, b);
    OwnedThreads(s);
    AddedClosed(s, t, r, b);
    match s.phase
    case Propagate => AddedMarkPhase(s, t, r, b);
    case SweepString => AddedFresh(s, t, r, b);
    case Sweep => AddedFresh(s, t, r, b); InsertSwept(s, k, r, b);
    case _ =>
  }

  lemma AddedFresh(s: State, t: State, r: Ref, b: Body)
    requires r !in s.heap && t.heap == s.heap[r := Object(White(s.white), false, b)] && t.white == s.white
    ensures forall us :: AllFresh(s, us) ==> AllFresh(t, us)
    ensures forall x :: RootFresh(s, x) ==> RootFresh(t, x)
    ensures Linkable(b) ==> RootFresh(t, r)
  {
  }

  lemma InsertSwept(s: State, k: nat, r: Ref, b: Body)
    requires SweptRoots(s) && k <= |s.root| && r !in s.heap && Linkable(b)
    ensures SweptRoots(Insert(s, k, r, b))
  {
    hide RootFresh;
    var t := Insert(s, k, r, b);
    AddedFresh(s, t, r, b);
    forall i | 0 <= i < t.sweep ensures RootFresh(t, t.root[i]) {
      if i < k { assert RootFresh(s, s.root[i]); }
      else if i > k { assert RootFresh(s, s.root[i - 1]); }
    }
  }

  // ----- strings -----------------------------------------------------------------------

  /** A new string goes to the head of its bucket. */
  function NewString(s: State, r: Ref, hash: nat): State
    requires |s.strt| > 0
  {
    var i := hash % |s.strt|;
    s.(heap := s.heap[r := Object(White(s.white), false, Str(hash))], strt := s.strt[i := [r] + s.strt[i]])
  }

  lemma NewStringOwned(s: State, r: Ref, hash: nat)
    requires Owned(s, {}) && r !in s.heap
    ensures |s.strt| > 0 && Owned(NewString(s, r, hash), {})
  {
    hide StringsOwned, RootsOwned, UpvalsOwned;
    NewStringStrings(s, r, hash);
    var t := NewString(s, r, hash);
    OwnedSlots(s);
    RootsSame(s, t, {});
    UpvalsSame(s, t);
    FixedSame(s, t);
  }

  lemma NewStringStrings(s: State, r: Ref, hash: nat)
    requires StringsOwned(s) && r !in s.heap
    ensures |s.strt| > 0 && StringsOwned(NewString(s, r, hash))
  {
    hide Distinct;
    var i := hash % |s.strt|;
    assert r !in s.strt[i];
    OneDistinct(r);
    DistinctCat([r], s.strt[i]);
  }

  lemma StringContents(s: State, hash: nat)
    ensures Contents(s.heap, Str(hash), STRONG) == []
  {
  }

  lemma NewStringKeeps(s: State, r: Ref, hash: nat)
    requires Inv(s) && r !in s.heap
    ensures |s.strt| > 0 && Inv(NewString(s, r, hash))
  {
    hide Owned, Closed, MarkPhase, Contents, AllFresh, RootFresh;
    OwnedListed(s);
    var t := NewString(s, r, hash);
    NewStringOwned(s, r, hash);
    OwnedThreads(s);
    StringContents(s, hash);
    AddedClosed(s, t, r, Str(hash));
    AddedFresh(s, t, r, Str(hash));
    match s.phase
    case Propagate => AddedMarkPhase(s, t, r, Str(hash));
    case SweepString => StringFresh(s, r, hash, s.sweepstr);
    case Sweep => StringFresh(s, r, hash, |s.strt|);
    case _ =>
  }

  lemma StringFresh(s: State, r: Ref, hash: nat, n: nat)
    requires |s.strt| > 0 && StringsSwept(s, n) && r !in s.heap
    ensures StringsSwept(NewString(s, r, hash), n)
  {
    var t := NewString(s, r, hash);
    forall i | 0 <= i < n ensures AllFresh(t, t.strt[i]) { assert AllFresh(s, s.strt[i]); }
  }

  /** A string that is found again, or an open upvalue, is made alive if it was dead. */
  function Resurrect(s: State, r: Ref): State
    requires r in s.heap
  {
    if s.heap[r].color == White(!s.white) then Whiten(s, r) else s
  }

  /** Nothing that is alive, or becomes so, refers to something dead. */
  lemma ResurrectKeeps(s: State, r: Ref)
    requires Inv(s) && r in s.heap && AllAlive(s, Contents(s.heap, s.heap[r].body, STRONG))
    ensures Inv(Resurrect(s, r)) && Alive(Resurrect(s, r), r) && Resurrect(s, r).heap.Keys == s.heap.Keys
  {
    hide Owned, Closed, MarkPhase, PhaseInv, Contents;
    if s.heap[r].color == White(!s.white) {
      var t := Whiten(s, r);
      PaintOwned(s, r, White(s.white), {});
      ResurrectedClosed(s, r);
      assert PhaseInv(t) by { ResurrectPhase(s, r); }
    }
  }

  lemma ResurrectedClosed(s: State, r: Ref)
    requires Closed(s) && r in s.heap && AllAlive(s, Contents(s.heap, s.heap[r].body, STRONG))
    ensures Closed(Whiten(s, r))
  {
    var t := Whiten(s, r);
    forall x | x in s.heap
      ensures Contents(t.heap, t.heap[x].body, STRONG) == Contents(s.heap, s.heap[x].body, STRONG)
    {
      ShapeKeepsContents(s, t, s.heap[x].body, STRONG);
    }
    hide Contents;
    assert forall x :: Alive(s, x) ==> Alive(t, x);
    forall x, q | Alive(t, x) && Refers(t.heap, x, q) ensures Alive(t, q) {
      assert x != r ==> Alive(s, x) && Refers(s.heap, x, q);
    }
  }

  lemma ResurrectPhase(s: State, r: Ref)
    requires PhaseInv(s) && r in s.heap && s.heap[r].color == White(!s.white)
    ensures s.phase == SweepString || s.phase == Sweep
    ensures PhaseInv(Whiten(s, r))
  {
    hide Marking;
    var t := Whiten(s, r);
    assert forall us :: AllFresh(s, us) ==> AllFresh(t, us);
    assert forall x :: RootFresh(s, x) ==> RootFresh(t, x);
    hide AllFresh, RootFresh;
  }

  // ----- open upvalues -----------------------------------------------------------------

  /** The place in the list of the first open upvalue not above the slot. */
  function FindPlace(s: State, open: seq<Ref>, slot: nat, k: nat): (p: nat)
    requires k <= |open|
    ensures k <= p <= |open|
    decreases |open| - k
  {
    if k < |open| && open[k] in s.heap && s.heap[open[k]].body.OpenUpval? && s.heap[open[k]].body.slot > slot
    then FindPlace(s, open, slot, k + 1) else k
  }

  predicate FoundAt(s: State, open: seq<Ref>, slot: nat, p: nat) {
    p < |open| && open[p] in s.heap && s.heap[open[p]].body.OpenUpval? && s.heap[open[p]].body.slot == slot
  }

  /** A new open upvalue of the running thread; in the mark phase it is marked at once. */
  function NewUpval(s: State, slot: nat, p: nat, r: Ref): State
    requires IsThread(s, s.running) && p <= |s.heap[s.running].body.open|
  {
    var t := ChainUpval(s, slot, p, r);
    if s.phase == Propagate then Mark(t, r) else t
  }

  function ChainUpval(s: State, slot: nat, p: nat, r: Ref): (t: State)
    requires IsThread(s, s.running) && p <= |s.heap[s.running].body.open|
    ensures IsWhite(t, r)
  {
    var o := s.heap[s.running];
    var open := o.body.open[..p] + [r] + o.body.open[p..];
    var uv := Object(White(s.white), false, OpenUpval(s.running, slot));
    s.(heap := s.heap[s.running := o.(body := o.body.(open := open))][r := uv],
       uvhead := [r] + s.uvhead)
  }

  /** The upvalue for a stack slot of the running thread; 'r' is used if there is none yet. */
  function FindUpval(s: State, slot: nat, r: Ref): State
    requires IsThread(s, s.running)
  {
    var open := s.heap[s.running].body.open;
    var p := FindPlace(s, open, slot, 0);
    if FoundAt(s, open, slot, p) then Resurrect(s, open[p]) else NewUpval(s, slot, p, r)
  }

  /** The upvalue that FindUpval returns. */
  function FoundUpval(s: State, slot: nat, r: Ref): Ref
    requires IsThread(s, s.running)
  {
    var open := s.heap[s.running].body.open;
    var p := FindPlace(s, open, slot, 0);
    if FoundAt(s, open, slot, p) then open[p] else r
  }

  lemma ChainOwned(s: State, slot: nat, p: nat, r: Ref)
    requires Owned(s, {}) && IsThread(s, s.running) && p <= |s.heap[s.running].body.open| && r !in s.heap
    requires slot < |s.heap[s.running].body.stack|
    ensures Owned(ChainUpval(s, slot, p, r), {})
  {
    hide StringsOwned, RootsOwned, UpvalsOwned;
    var t := ChainUpval(s, slot, p, r);
    ChainUpvals(s, slot, p, r);
    StringsSame(s, t);
    RootsSame(s, t, {});
    FixedSame(s, t);
  }

  lemma OneDistinct(r: Ref)
    ensures Distinct([r])
  {
  }

  lemma ChainUpvals(s: State, slot: nat, p: nat, r: Ref)
    requires UpvalsOwned(s) && IsThread(s, s.running) && p <= |s.heap[s.running].body.open| && r !in s.heap
    requires slot < |s.heap[s.running].body.stack|
    ensures UpvalsOwned(ChainUpval(s, slot, p, r))
  {
    hide UvheadOwned, OpenOwned, SlotsOwned;
    ChainUvhead(s, slot, p, r);
    ChainLists(s, slot, p, r);
    ChainSlots(s, slot, p, r);
  }

  lemma ChainUvhead(s: State, slot: nat, p: nat, r: Ref)
    requires UvheadOwned(s) && IsThread(s, s.running) && p <= |s.heap[s.running].body.open| && r !in s.heap
    ensures UvheadOwned(ChainUpval(s, slot, p, r))
  {
    hide Distinct;
    assert r !in s.uvhead;
    OneDistinct(r);
    DistinctCat([r], s.uvhead);
  }

  lemma ChainLists(s: State, slot: nat, p: nat, r: Ref)
    requires OpenOwned(s) && IsThread(s, s.running) && p <= |s.heap[s.running].body.open| && r !in s.heap
    ensures OpenOwned(ChainUpval(s, slot, p, r))
  {
    hide Distinct;
    var t, open := ChainUpval(s, slot, p, r), s.heap[s.running].body.open;
    assert forall u :: u in open ==> IsOpen(s, u);
    InsertedMembers(open, p, r);
    forall th, u | IsThread(t, th)
      ensures u in t.heap[th].body.open <==> IsOpen(t, u) && t.heap[u].body.thread == th
    {
      assert IsThread(s, th);
    }
  }

  lemma ChainSlots(s: State, slot: nat, p: nat, r: Ref)
    requires SlotsOwned(s) && IsThread(s, s.running) && p <= |s.heap[s.running].body.open| && r !in s.heap
    requires slot < |s.heap[s.running].body.stack|
    ensures SlotsOwned(ChainUpval(s, slot, p, r))
  {
    var t := ChainUpval(s, slot, p, r);
    forall u | IsOpen(t, u)
      ensures IsThread(t, t.heap[u].body.thread) && t.heap[u].body.slot < |t.heap[t.heap[u].body.thread].body.stack|
    {
      if u != r { assert IsOpen(s, u) && IsThread(s, s.heap[u].body.thread); }
    }
  }

  lemma ListClosed(s: State, open: seq<Ref>)
    requires Closed(s) && IsThread(s, s.running)
    ensures Closed(SetBody(s, s.running, s.heap[s.running].body.(open := open)))
  {
    var t := SetBody(s, s.running, s.heap[s.running].body.(open := open));
    forall r | r in s.heap
      ensures Contents(t.heap, t.heap[r].body, STRONG) == Contents(s.heap, s.heap[r].body, STRONG)
    {
      var b := s.heap[r].body;
      if b.OpenUpval? { assert SlotValue(t.heap, b.thread, b.slot) == SlotValue(s.heap, b.thread, b.slot); }
    }
    hide Contents;
    assert forall r :: Alive(s, r) <==> Alive(t, r);
    forall r, q | Alive(t, r) && Refers(t.heap, r, q) ensures Alive(t, q) { assert Refers(s.heap, r, q); }
  }

  lemma SlotAlive(s: State, slot: nat)
    requires Closed(s) && IsThread(s, s.running) && slot < |s.heap[s.running].body.stack|
    ensures AllAlive(s, Contents(s.heap, OpenUpval(s.running, slot), STRONG))
  {
    var v := s.heap[s.running].body.stack[slot];
    assert Obj(s.running) in Roots(s);
    if v.Obj? {
      assert v in Contents(s.heap, s.heap[s.running].body, STRONG);
      assert Refers(s.heap, s.running, v.r);
    }
  }

  lemma ListMarking(s: State, open: seq<Ref>)
    requires MarkPhase(s) && IsThread(s, s.running)
    ensures MarkPhase(SetBody(s, s.running, s.heap[s.running].body.(open := open)))
  {
    var t := SetBody(s, s.running, s.heap[s.running].body.(open := open));
    forall r | r in t.heap ensures Consistent(t, r) {
      assert Consistent(s, r);
      if s.heap[r].color == Black {
        assert Contents(t.heap, t.heap[r].body, STRONG) == Contents(s.heap, s.heap[r].body, STRONG);
      }
    }
    hide Reached, Contents;
    assert Lists(t);
    hide Lists, Consistent;
  }

  lemma ChainPhase(s: State, slot: nat, p: nat, r: Ref)
    requires PhaseInv(s) && s.phase != Propagate && r !in s.heap
    requires IsThread(s, s.running) && p <= |s.heap[s.running].body.open|
    ensures PhaseInv(ChainUpval(s, slot, p, r))
  {
    hide MarkPhase;
    var t := ChainUpval(s, slot, p, r);
    forall us | AllFresh(s, us) ensures AllFresh(t, us) { }
    forall x | RootFresh(s, x) ensures RootFresh(t, x) {
      if x == s.running {
        var open := s.heap[x].body.open;
        forall u | u in t.heap[x].body.open ensures u == r || u in open { }
      }
    }
    hide AllFresh, RootFresh;
  }

  lemma ChainIs(s: State, slot: nat, p: nat, r: Ref)
    requires IsThread(s, s.running) && p <= |s.heap[s.running].body.open| && r !in s.heap && NeverBlackKinds(s)
    ensures var open := s.heap[s.running].body.open;
            var c, t := s.heap[s.running].body.(open := open[..p] + [r] + open[p..]), ChainUpval(s, slot, p, r);
            var s1 := SetBody(s, s.running, c);
            && t.heap == s1.heap[r := Object(White(s.white), false, OpenUpval(s.running, slot))]
            && t == s.(heap := t.heap, uvhead := [r] + s.uvhead) && s1 == s.(heap := s1.heap)
              && s1.heap.Keys == s.heap.Keys
            && IsThread(s1, s.running) && s1.heap[s.running].body == c && NeverBlackKinds(t)
            && (forall x :: IsOpen(s, x) <==> IsOpen(s1, x))
            && (forall x :: IsOpen(s, x) ==> s1.heap[x].body == s.heap[x].body)
            && (forall x :: IsThread(s, x) ==> IsThread(s1, x))
  {
  }

  lemma ChainKeeps(s: State, slot: nat, p: nat, r: Ref)
    requires Inv(s) && IsThread(s, s.running) && p <= |s.heap[s.running].body.open| && r !in s.heap
    requires slot < |s.heap[s.running].body.stack|
    ensures Inv(ChainUpval(s, slot, p, r))
  {
    hide Owned, Closed, MarkPhase, Contents, PhaseInv, AllAlive, ChainUpval, SetBody, NeverBlackKinds;
    var t := ChainUpval(s, slot, p, r);
    var open := s.heap[s.running].body.open;
    var c := s.heap[s.running].body.(open := open[..p] + [r] + open[p..]);
    var s1 := SetBody(s, s.running, c);
    ChainIs(s, slot, p, r);
    ChainOwned(s, slot, p, r);
    ListClosed(s, c.open);
    OwnedThreads(s);
    SlotAlive(s1, slot);
    AddedClosed(s1, t, r, OpenUpval(s.running, slot));
    if s.phase == Propagate {
      PhaseIsMark(s);
      ListMarking(s, c.open);
      AddedMarkPhase(s1, t, r, OpenUpval(s.running, slot));
      PhaseIsMark(t);
    } else {
      ChainPhase(s, slot, p, r);
    }
  }

  /** Marking a white object keeps the invariant in the mark phase. */
  lemma MarkKeeps(s: State, r: Ref)
    requires Inv(s) && s.phase == Propagate && IsWhite(s, r)
    ensures Inv(Mark(s, r)) && Mark(s, r).heap.Keys == s.heap.Keys && Alive(Mark(s, r), r)
  {
    hide Owned, Closed, Mark, Marking;
    var pushed := MarkGrew(s, r);
    var t := Mark(s, r);
    GrewMarking(s, t, pushed, {});
    AdvanceOwned(s, t);
    AdvanceClosedState(s, t);
    AdvanceMarkPhase(s, t);
    MarkingNeverBlack(t);
  }

  lemma FindUpvalKeeps(s: State, slot: nat, r: Ref)
    requires Inv(s) && IsThread(s, s.running) && r !in s.heap && slot < |s.heap[s.running].body.stack|
    ensures Inv(FindUpval(s, slot, r)) && forall x :: x in s.heap ==> x in FindUpval(s, slot, r).heap
    ensures Alive(FindUpval(s, slot, r), FoundUpval(s, slot, r))
  {
    hide Owned, Closed, PhaseInv, Contents, NeverBlackKinds, Mark, AllAlive;
    var open := s.heap[s.running].body.open;
    var p := FindPlace(s, open, slot, 0);
    if FoundAt(s, open, slot, p) {
      FoundThread(s, p);
      SlotAlive(s, slot);
      ResurrectKeeps(s, open[p]);
    } else {
      ChainKeeps(s, slot, p, r);
      if s.phase == Propagate { MarkKeeps(ChainUpval(s, slot, p, r), r); }
    }
  }

  lemma FoundThread(s: State, p: nat)
    requires Owned(s, {}) && IsThread(s, s.running) && p < |s.heap[s.running].body.open|
    ensures IsOpen(s, s.heap[s.running].body.open[p]) && s.heap[s.heap[s.running].body.open[p]].body.thread == s.running
  {
    assert s.heap[s.running].body.open[p] in s.heap[s.running].body.open;
  }

  // ----- closing -----------------------------------------------------------------------

  /** Freeing the first open upvalue, which is dead. */
  lemma FreeFirstKeeps(s: State, th: Ref)
    requires Inv(s) && IsThread(s, th) && s.heap[th].body.open != [] && s.heap[th].body.open[0] in s.heap
    requires Dead(s, s.heap[th].body.open[0])
    ensures var t := FreeOpen(s, th, 0); Inv(t) && Reclaimed(s, t)
  {
    hide Owned, Closed, PhaseInv;
    var t := FreeOpen(s, th, 0);
    FreeOpenOwned(s, th, 0, {});
    FreeOpenReclaims(s, th, 0, {});
    OwnedUpvals(t, {});
    OwnedUpvals(s, {});
    hide UpvalsOwned;
    ReclaimedClosed(s, t);
    ReclaimedNeverBlack(s, t);
    FreeFirstPhase(s, th);
  }

  lemma FreeFirstPhase(s: State, th: Ref)
    requires PhaseInv(s) && UpvalsOwned(s) && IsThread(s, th) && s.heap[th].body.open != []
    requires Dead(s, s.heap[th].body.open[0]) && Reclaimed(s, FreeOpen(s, th, 0))
    ensures PhaseInv(FreeOpen(s, th, 0))
  {
    hide Marking;
    OpenOf(s, th, 0);
    var t, u := FreeOpen(s, th, 0), s.heap[th].body.open[0];
    assert s.heap[u].color == White(!s.white);
    forall us | AllFresh(s, us) ensures AllFresh(t, us) { FreshKept(s, t, us); }
    forall x | RootFresh(s, x) ensures RootFresh(t, x) {
      assert Alive(s, x);
      if t.heap[x].body.Thread? {
        assert forall y :: y in t.heap[x].body.open ==> y in s.heap[x].body.open;
        assert AllFresh(s, t.heap[x].body.open);
      }
    }
    hide AllFresh, RootFresh, Reclaimed, UpvalsOwned;
  }

  /** The first open upvalue has got its own value and a place in the root list. */
  function Detached(s: State, th: Ref): State
    requires IsThread(s, th) && s.heap[th].body.open != [] && IsOpen(s, s.heap[th].body.open[0])
    requires s.heap[th].body.open[0] != th
  {
    CloseBody(s, th).(root := [s.heap[th].body.open[0]] + s.root, sweep := if s.sweep > 0 then s.sweep + 1 else 0)
  }

  lemma DetachedFacts(s: State, th: Ref)
    requires Owned(s, {}) && Closed(s) && NeverBlackKinds(s) && IsThread(s, th) && s.heap[th].body.open != []
    ensures var u := s.heap[th].body.open[0];
            && IsOpen(s, u) && u != th && s.heap[u].color != Black && !s.heap[u].fixed && s.heap[u].body.thread == th
            && Owned(Detached(s, th), {}) && Reclaimed(s, Detached(s, th)) && Closed(Detached(s, th))
            && NeverBlackKinds(Detached(s, th)) && UpvalsOwned(Detached(s, th))
  {
    hide StringsOwned, RootsOwned, UpvalsOwned, Closed, Contents;
    var u := s.heap[th].body.open[0];
    OpenOf(s, th, 0);
    CloseBodyOwned(s, th, {});
    var c := CloseBody(s, th).(root := [u] + s.root);
    var t := Detached(s, th);
    hide Owned;
    RepaintedOwned(c, t, {});
    assert Reclaimed(s, t);
    OwnedUpvals(t, {});
    ReclaimedClosed(s, t);
    ReclaimedNeverBlack(s, t);
  }

  lemma DetachedMarking(s: State, th: Ref)
    requires MarkPhase(s) && IsThread(s, th) && s.heap[th].body.open != []
    requires IsOpen(s, s.heap[th].body.open[0]) && s.heap[th].body.open[0] != th && UpvalsOwned(Detached(s, th))
    ensures var u, t := s.heap[th].body.open[0], Detached(s, th);
            && Marking(t, {u}) && (s.heap[u].color.White? ==> Marking(t, {}))
            && UpvalsListed(t) && NoneDead(t) && FixedKinds(t)
            && !IsWhite(t, t.main) && (t.registry.Obj? ==> !IsWhite(t, t.registry.r))
  {
    hide Reached, Contents, Consistent, Lists, UpvalsOwned;
    var u, t := s.heap[th].body.open[0], Detached(s, th);
    forall x | x in t.heap && x != u ensures Consistent(t, x) { DetachedConsistent(s, th, x); }
    if s.heap[u].color.White? { WhiteConsistent(t, u); }
    DetachedLists(s, th);
    OwnedAreListed(t);
  }

  lemma OwnedAreListed(s: State)
    requires UpvalsOwned(s)
    ensures UpvalsListed(s)
  {
    forall x | x in s.heap && s.heap[x].body.OpenUpval? ensures x in s.uvhead { assert IsOpen(s, x); }
  }

  lemma WhiteConsistent(t: State, u: Ref)
    requires IsWhite(t, u)
    ensures Consistent(t, u)
  {
  }

  lemma DetachedConsistent(s: State, th: Ref, x: Ref)
    requires Marking(s, {}) && IsThread(s, th) && s.heap[th].body.open != []
    requires IsOpen(s, s.heap[th].body.open[0]) && s.heap[th].body.open[0] != th
    requires x in Detached(s, th).heap && x != s.heap[th].body.open[0]
    ensures Consistent(Detached(s, th), x)
  {
    hide Lists;
    var t := Detached(s, th);
    assert Consistent(s, x);
    if s.heap[x].color == Black {
      assert Contents(t.heap, t.heap[x].body, STRONG) == Contents(s.heap, s.heap[x].body, STRONG);
    }
  }

  lemma DetachedLists(s: State, th: Ref)
    requires Marking(s, {}) && IsThread(s, th) && s.heap[th].body.open != []
    requires IsOpen(s, s.heap[th].body.open[0]) && s.heap[th].body.open[0] != th
    ensures Lists(Detached(s, th))
  {
    hide Reached, Contents;
    UpvalNotListed(s, s.heap[th].body.open[0]);
  }

  lemma UpvalNotListed(s: State, u: Ref)
    requires Marking(s, {}) && IsOpen(s, u)
    ensures NotListed(s, u)
  {
    hide Reached;
  }

  lemma LinkIs(s: State, th: Ref)
    requires Owned(s, {}) && IsThread(s, th) && s.heap[th].body.open != []
    ensures var u := s.heap[th].body.open[0]; IsOpen(s, u) && u != th
    ensures var u, t := s.heap[th].body.open[0], Detached(s, th);
            && u in t.heap && t.heap[u].body.ClosedUpval? && t.heap[u].color == s.heap[u].color
            && LinkUpval(CloseBody(s, th), u) ==
               if s.heap[u].color != Gray then t
               else if s.phase == Propagate then Barrier(Paint(t, u, Black), u, t.heap[u].body.v)
               else Whiten(t, u)
  {
    assert UpvalsOwned(s);
    OpenOf(s, th, 0);
    hide Owned, UpvalsOwned, Mark;
  }

  lemma CloseFirstKeeps(s: State, th: Ref)
    requires Inv(s) && IsThread(s, th) && s.heap[th].body.open != []
    ensures IsOpen(s, s.heap[th].body.open[0]) && s.heap[th].body.open[0] != th
    ensures var t := CloseFirst(s, th); Inv(t) && (forall r :: Alive(s, r) ==> Alive(t, r)) && t.running == s.running
  {
    hide Owned, Closed, PhaseInv, NeverBlackKinds, Reclaimed, LinkUpval, Detached, FreeOpen, CloseBody;
    DetachedFacts(s, th);
    LinkIs(s, th);
    var u, t := s.heap[th].body.open[0], CloseFirst(s, th);
    if s.heap[u].color == White(!s.white) {
      FreeFirstKeeps(s, th);
      ReclaimedAlive(s, t);
      ReclaimedRunning(s, t);
    } else {
      LinkedKeeps(s, th);
    }
  }

  lemma ReclaimedRunning(s: State, t: State)
    requires Reclaimed(s, t)
    ensures t.running == s.running
  {
  }

  lemma LinkedKeeps(s: State, th: Ref)
    requires Inv(s) && IsThread(s, th) && s.heap[th].body.open != []
    requires IsOpen(s, s.heap[th].body.open[0]) && s.heap[th].body.open[0] != th && Alive(s, s.heap[th].body.open[0])
    ensures var t := LinkUpval(CloseBody(s, th), s.heap[th].body.open[0]);
            Inv(t) && (forall r :: Alive(s, r) ==> Alive(t, r)) && t.running == s.running
  {
    hide Owned, Closed, PhaseInv, NeverBlackKinds, Reclaimed, LinkUpval, Detached, CloseBody, UpvalsOwned, Mark,
         Marking, NoneDead, UpvalsListed, FixedKinds, Barrier, Alive, IsWhite;
    AliveNotDead(s, s.heap[th].body.open[0]);
    DetachedFacts(s, th);
    LinkIs(s, th);
    var u, d, t := s.heap[th].body.open[0], Detached(s, th), LinkUpval(CloseBody(s, th), s.heap[th].body.open[0]);
    ReclaimedAlive(s, d);
    DetachedScalars(s, th);
    if s.phase == Propagate {
      PhaseIsMark(s);
      DetachedMarking(s, th);
      LinkedMarking(d, u);
      PhaseIsMark(t);
    } else {
      DetachedPhase(s, th);
      if s.heap[u].color == Gray {
        RepaintedOwned(d, t, {});
        WhitenedClosed(d, u);
      }
    }
  }

  lemma AliveNotDead(s: State, r: Ref)
    requires Alive(s, r)
    ensures !Dead(s, r)
  {
  }

  lemma WhitenedClosed(d: State, u: Ref)
    requires Closed(d) && NeverBlackKinds(d) && u in d.heap && d.heap[u].color == Gray
    ensures var t := Whiten(d, u); Closed(t) && NeverBlackKinds(t) && (forall r :: Alive(d, r) ==> Alive(t, r))
  {
    RepaintedClosed(d, Whiten(d, u));
  }

  lemma DetachedScalars(s: State, th: Ref)
    requires IsThread(s, th) && s.heap[th].body.open != [] && IsOpen(s, s.heap[th].body.open[0])
    requires s.heap[th].body.open[0] != th
    ensures var d := Detached(s, th); d.phase == s.phase && d.running == s.running && d.white == s.white
  {
  }

  lemma LinkedMarking(d: State, u: Ref)
    requires Owned(d, {}) && Closed(d) && d.phase == Propagate && u in d.heap && d.heap[u].body.ClosedUpval?
    requires Marking(d, {u}) && (d.heap[u].color.White? ==> Marking(d, {})) && d.heap[u].color != Black
    requires UpvalsListed(d) && NoneDead(d) && FixedKinds(d)
    requires !IsWhite(d, d.main) && (d.registry.Obj? ==> !IsWhite(d, d.registry.r))
    ensures var t := if d.heap[u].color != Gray then d else Barrier(Paint(d, u, Black), u, d.heap[u].body.v);
            && Owned(t, {}) && Closed(t) && NeverBlackKinds(t) && MarkPhase(t)
            && (forall r :: Alive(d, r) ==> Alive(t, r)) && t.running == d.running && t.phase == d.phase
  {
    hide Owned, Closed, Mark, Marking, NoneDead, UpvalsListed, FixedKinds, Contents, NeverBlackKinds;
    if d.heap[u].color != Gray {
      MarkingNeverBlack(d);
    } else {
      var b := Paint(d, u, Black);
      var v := d.heap[u].body.v;
      var t := Barrier(b, u, v);
      PaintOwned(d, u, Black, {});
      RepaintedClosed(d, b);
      BlackenedMarking(d, u);
      BarrierAllMarks(b, u, [v]);
      assert BarrierAll(b, u, [v]) == BarrierAll(t, u, []) == t;
      PaintedPhase(d, u);
      BarrierDone(b, t, u, d.heap[u].body, [v]);
      MarkPhaseMarking(t);
      OnlyMarked(b, t);
    }
  }

  lemma MarkPhaseMarking(s: State)
    requires MarkPhase(s)
    ensures Marking(s, {}) && NoneDead(s)
    ensures forall r :: r in s.heap ==> Alive(s, r)
  {
    hide Marking;
  }

  lemma PaintedPhase(d: State, u: Ref)
    requires UpvalsListed(d) && NoneDead(d) && FixedKinds(d) && u in d.heap && d.heap[u].body.ClosedUpval?
    requires !IsWhite(d, d.main) && (d.registry.Obj? ==> !IsWhite(d, d.registry.r))
    ensures var b := Paint(d, u, Black);
            && UpvalsListed(b) && NoneDead(b) && FixedKinds(b)
            && !IsWhite(b, b.main) && (b.registry.Obj? ==> !IsWhite(b, b.registry.r))
            && (forall r :: r in d.heap ==> Alive(d, r)) && (forall r :: r in b.heap ==> Alive(b, r))
            && Contents(b.heap, d.heap[u].body, STRONG) == [d.heap[u].body.v]
  {
  }

  lemma BlackenedMarking(d: State, u: Ref)
    requires Marking(d, {u}) && u in d.heap && d.heap[u].color == Gray && d.heap[u].body.ClosedUpval?
    ensures Marking(Paint(d, u, Black), {u})
  {
    hide Reached, Consistent;
    var b := Paint(d, u, Black);
    TakenAdvances(d, u, b);
    forall x | x in b.heap && x != u ensures Consistent(b, x) { StaysConsistent(d, b, u, x); }
    UpvalueNotListed(d, u);
  }

  lemma StaysConsistent(d: State, b: State, u: Ref, x: Ref)
    requires Advance(d, b) && b == d.(heap := b.heap) && x in d.heap && b.heap[x] == d.heap[x] && Consistent(d, x)
    ensures Consistent(b, x)
  {
    AdvanceReached(d, b, x);
  }

  lemma UpvalueNotListed(d: State, u: Ref)
    requires Lists(d) && u in d.heap && d.heap[u].body.ClosedUpval?
    ensures !InList(d, u)
  {
  }

  lemma DetachedPhase(s: State, th: Ref)
    requires PhaseInv(s) && s.phase != Propagate && IsThread(s, th) && s.heap[th].body.open != []
    requires IsOpen(s, s.heap[th].body.open[0]) && s.heap[th].body.open[0] != th && Alive(s, s.heap[th].body.open[0])
    requires s.heap[s.heap[th].body.open[0]].color != Black && !s.heap[s.heap[th].body.open[0]].fixed
    ensures var u := s.heap[th].body.open[0];
            && u in Detached(s, th).heap
            && PhaseInv(if s.heap[u].color == Gray then Whiten(Detached(s, th), u) else Detached(s, th))
  {
    hide MarkPhase;
    var u, d := s.heap[th].body.open[0], Detached(s, th);
    var t := if s.heap[u].color == Gray then Whiten(d, u) else d;
    assert t.heap[u].color == White(t.white);
    forall us | AllFresh(s, us) ensures AllFresh(t, us) { }
    forall x | RootFresh(s, x) ensures RootFresh(t, x) {
      if x == th { assert forall y :: y in t.heap[th].body.open ==> y in s.heap[th].body.open; }
    }
    assert RootFresh(t, u);
    hide AllFresh, RootFresh;
  }

  /** Closing upvalues keeps the invariant and everything that is alive. */
  lemma {:induction false} CloseKeeps(s: State, th: Ref, level: nat)
    requires Inv(s) && IsThread(s, th)
    ensures var t := Close(s, th, level, {}); Inv(t) && (forall r :: Alive(s, r) ==> Alive(t, r))
    decreases |s.heap[th].body.open|
  {
    hide PhaseInv, NeverBlackKinds, Closed, Alive, CloseFirst;
    if s.heap[th].body.open != [] {
      CloseFirstOwned(s, th, {});
      hide Owned;
      if s.heap[s.heap[th].body.open[0]].body.slot >= level {
        CloseFirstKeeps(s, th);
        CloseKeeps(CloseFirst(s, th), th, level);
      }
    }
  }
}

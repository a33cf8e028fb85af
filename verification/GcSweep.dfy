/** Sweeping: dead objects are freed, the others become white again; and the closing of upvalues. */
module GcSweep {
  import opened GcHeap
  import opened GcMark

  function RemoveAt(a: seq<Ref>, k: nat): seq<Ref>
    requires k < |a|
  {
    a[..k] + a[k + 1..]
  }

  lemma RemoveAtMembers(a: seq<Ref>, k: nat)
    requires k < |a| && Distinct(a)
    ensures Distinct(RemoveAt(a, k))
    ensures forall x :: x in RemoveAt(a, k) <==> x in a && x != a[k]
  {
    var b := RemoveAt(a, k);
    forall x | x in a && x != a[k] ensures x in b {
      var i :| 0 <= i < |a| && a[i] == x;
      assert b[if i < k then i else i - 1] == x;
    }
  }

  // ----- who owns what -----------------------------------------------------------------

  predicate IsThread(s: State, r: Ref) {
    r in s.heap && s.heap[r].body.Thread?
  }

  predicate IsOpen(s: State, r: Ref) {
    r in s.heap && s.heap[r].body.OpenUpval?
  }

  /** Each string is in its bucket. */
  ghost predicate StringsOwned(s: State) {
    |s.strt| > 0 &&
    forall i :: 0 <= i < |s.strt| ==>
      Distinct(s.strt[i])
      && forall r :: r in s.strt[i] <==> r in s.heap && s.heap[r].body.Str? && s.heap[r].body.hash % |s.strt| == i
  }

  /** Everything else but open upvalues is in the root list; 'e' is being freed. */
  ghost predicate RootsOwned(s: State, e: set<Ref>) {
    Distinct(s.root) &&
    forall r :: r in s.root <==> r in s.heap && !s.heap[r].body.Str? && !s.heap[r].body.OpenUpval? && r !in e
  }

  /** Open upvalues are in the global list and in the list of their thread, in whose stack their
      value is. */
  ghost predicate UpvalsOwned(s: State) {
    UvheadOwned(s) && OpenOwned(s) && SlotsOwned(s)
  }

  ghost predicate UvheadOwned(s: State) {
    Distinct(s.uvhead) && forall r :: r in s.uvhead <==> IsOpen(s, r)
  }

  ghost predicate OpenOwned(s: State) {
    && (forall th :: IsThread(s, th) ==> Distinct(s.heap[th].body.open))
    && (forall th, u :: IsThread(s, th) ==>
          (u in s.heap[th].body.open <==> IsOpen(s, u) && s.heap[u].body.thread == th))
  }

  ghost predicate SlotsOwned(s: State) {
    forall u :: IsOpen(s, u) ==>
      IsThread(s, s.heap[u].body.thread) && s.heap[u].body.slot < |s.heap[s.heap[u].body.thread].body.stack|
  }

  ghost predicate FixedOwned(s: State) {
    && IsThread(s, s.main) && s.heap[s.main].fixed && IsThread(s, s.running)
    && forall r :: r in s.heap && s.heap[r].fixed ==> s.heap[r].body.Str? || r == s.main
  }

  ghost predicate Owned(s: State, e: set<Ref>) {
    StringsOwned(s) && RootsOwned(s, e) && UpvalsOwned(s) && FixedOwned(s)
  }

  lemma StringsSame(s: State, t: State)
    requires StringsOwned(s) && t.strt == s.strt
    requires forall r :: (r in t.heap && t.heap[r].body.Str?) <==> (r in s.heap && s.heap[r].body.Str?)
    requires forall r :: r in t.heap && t.heap[r].body.Str? && r in s.heap ==> t.heap[r].body == s.heap[r].body
    ensures StringsOwned(t)
  {
  }

  predicate Listed(s: State, r: Ref) {
    r in s.heap && !s.heap[r].body.Str? && !s.heap[r].body.OpenUpval?
  }

  lemma RootsSame(s: State, t: State, e: set<Ref>)
    requires RootsOwned(s, e) && t.root == s.root && forall r :: Listed(t, r) <==> Listed(s, r)
    ensures RootsOwned(t, e)
  {
    forall r ensures r in t.root <==> Listed(t, r) && r !in e { assert r in s.root <==> Listed(s, r) && r !in e; }
  }

  lemma FixedSame(s: State, t: State)
    requires FixedOwned(s) && t.main == s.main && IsThread(t, t.running) && IsThread(t, t.main)
    requires t.heap[t.main].fixed
    requires forall r :: r in t.heap && t.heap[r].fixed ==>
               r in s.heap && s.heap[r].fixed && t.heap[r].body.Str? == s.heap[r].body.Str?
    ensures FixedOwned(t)
  {
  }

  lemma UpvalsSame(s: State, t: State)
    requires UpvalsOwned(s) && t.uvhead == s.uvhead
    requires forall r :: IsOpen(t, r) <==> IsOpen(s, r)
    requires forall r :: IsOpen(t, r) && IsOpen(s, r) ==> t.heap[r].body == s.heap[r].body
    requires forall r :: IsThread(t, r) ==> IsThread(s, r) && t.heap[r].body.open == s.heap[r].body.open
    requires forall r :: IsOpen(t, r) && IsOpen(s, r) ==>
               IsThread(t, t.heap[r].body.thread) && t.heap[r].body.slot < |t.heap[t.heap[r].body.thread].body.stack|
    ensures UpvalsOwned(t)
  {
  }

  lemma OwnedSlots(s: State)
    requires UpvalsOwned(s)
    ensures forall x :: IsOpen(s, x) ==>
              IsThread(s, s.heap[x].body.thread) && s.heap[x].body.slot < |s.heap[s.heap[x].body.thread].body.stack|
  {
  }

  lemma OwnedUpvals(s: State, e: set<Ref>)
    requires Owned(s, e)
    ensures UpvalsOwned(s)
  {
  }

  // ----- what freeing may change -------------------------------------------------------

  /** The same, but for the list of open upvalues of a thread, or an upvalue that was closed. */
  predicate SameValue(s: State, b: Body, c: Body) {
    || c == b
    || (b.Thread? && c.Thread? && c.globals == b.globals && c.stack == b.stack)
    || (b.OpenUpval? && c == ClosedUpval(SlotValue(s.heap, b.thread, b.slot)))
  }

  /** Only dead objects are gone, and live ones hold what they held. */
  ghost predicate Reclaimed(s: State, t: State) {
    && t.white == s.white && t.main == s.main && t.running == s.running && t.registry == s.registry && t.mt == s.mt
    && (forall r :: r in t.heap ==>
          && r in s.heap && SameValue(s, s.heap[r].body, t.heap[r].body) && t.heap[r].fixed == s.heap[r].fixed
          && (t.heap[r].color == s.heap[r].color || (t.heap[r].color == White(s.white) && !Dead(s, r))))
    && (forall r :: r in s.heap && r !in t.heap ==> Dead(s, r))
  }

  lemma ReclaimedRefl(s: State)
    ensures Reclaimed(s, s)
  {
  }

  lemma ReclaimedTrans(s: State, t: State, u: State)
    requires Reclaimed(s, t) && UpvalsOwned(t) && Reclaimed(t, u)
    ensures Reclaimed(s, u)
  {
    hide SameValue;
    forall r | r in u.heap ensures SameValue(s, s.heap[r].body, u.heap[r].body) {
      var b := t.heap[r].body;
      if b.OpenUpval? {
        assert IsOpen(t, r) && IsThread(t, b.thread) && SameValue(s, s.heap[b.thread].body, t.heap[b.thread].body);
      }
      SameValueTrans(s, t, s.heap[r].body, b, u.heap[r].body);
    }
  }

  lemma SameValueTrans(s: State, t: State, b: Body, c: Body, d: Body)
    requires SameValue(s, b, c) && SameValue(t, c, d)
    requires c.OpenUpval? ==>
               IsThread(t, c.thread) && c.thread in s.heap && SameValue(s, s.heap[c.thread].body, t.heap[c.thread].body)
    ensures SameValue(s, b, d)
  {
  }

  lemma ReclaimedAlive(s: State, t: State)
    requires Reclaimed(s, t)
    ensures forall r :: Alive(s, r) <==> Alive(t, r)
  {
  }

  /** What is alive refers to the same objects as before. */
  lemma ReclaimedContents(s: State, t: State, r: Ref)
    requires Reclaimed(s, t) && UpvalsOwned(t) && Alive(s, r) && Closed(s)
    ensures r in t.heap
    ensures Contents(t.heap, t.heap[r].body, STRONG) == Contents(s.heap, s.heap[r].body, STRONG)
    ensures Strongly(t.heap, t.heap[r].body) == Strongly(s.heap, s.heap[r].body)
  {
    var b, c := s.heap[r].body, t.heap[r].body;
    if c.OpenUpval? {
      assert IsOpen(t, r) && IsThread(t, c.thread);
    } else if b.Table? {
      if b.meta.Metatable? {
        assert Obj(b.meta.t) in Contents(s.heap, b, STRONG);
        assert Refers(s.heap, r, b.meta.t) && Alive(s, b.meta.t);
      }
      assert ModeOf(t.heap, b.meta) == ModeOf(s.heap, b.meta);
    }
  }

  lemma ReclaimedClosed(s: State, t: State)
    requires Reclaimed(s, t) && UpvalsOwned(t) && Closed(s)
    ensures Closed(t)
  {
    hide Contents;
    ReclaimedAlive(s, t);
    forall r, q | Alive(t, r) && Refers(t.heap, r, q) ensures Alive(t, q) {
      ReclaimedContents(s, t, r);
      assert Refers(s.heap, r, q);
    }
  }

  // ----- single changes ----------------------------------------------------------------

  /** Remove the k-th open upvalue of a thread and free it. */
  function FreeOpen(s: State, th: Ref, k: nat): State
    requires IsThread(s, th) && k < |s.heap[th].body.open|
  {
    var o := s.heap[th];
    var u := o.body.open[k];
    s.(heap := s.heap[th := o.(body := o.body.(open := RemoveAt(o.body.open, k)))] - {u},
        uvhead := Without(s.uvhead, u))
  }

  lemma OpenOf(s: State, th: Ref, k: nat)
    requires UpvalsOwned(s) && IsThread(s, th) && k < |s.heap[th].body.open|
    ensures var u := s.heap[th].body.open[k]; IsOpen(s, u) && s.heap[u].body.thread == th && u != th
  {
    assert s.heap[th].body.open[k] in s.heap[th].body.open;
  }

  lemma FreeOpenOwned(s: State, th: Ref, k: nat, e: set<Ref>)
    requires Owned(s, e) && IsThread(s, th) && k < |s.heap[th].body.open|
    ensures Owned(FreeOpen(s, th, k), e)
  {
    hide StringsOwned, RootsOwned, UpvalsOwned;
    OpenOf(s, th, k);
    var t := FreeOpen(s, th, k);
    FreeOpenUpvals(s, th, k);
    StringsSame(s, t);
    RootsSame(s, t, e);
    FixedSame(s, t);
  }

  lemma FreeOpenUpvals(s: State, th: Ref, k: nat)
    requires UpvalsOwned(s) && IsThread(s, th) && k < |s.heap[th].body.open|
    ensures UpvalsOwned(FreeOpen(s, th, k))
  {
    hide UvheadOwned, OpenOwned, SlotsOwned;
    FreeOpenUvhead(s, th, k);
    FreeOpenLists(s, th, k);
    FreeOpenSlots(s, th, k);
  }

  lemma FreeOpenUvhead(s: State, th: Ref, k: nat)
    requires UvheadOwned(s) && OpenOwned(s) && IsThread(s, th) && k < |s.heap[th].body.open|
    ensures UvheadOwned(FreeOpen(s, th, k))
  {
    var u := s.heap[th].body.open[k];
    assert u in s.heap[th].body.open;
  }

  lemma FreeOpenLists(s: State, th: Ref, k: nat)
    requires OpenOwned(s) && IsThread(s, th) && k < |s.heap[th].body.open|
    ensures OpenOwned(FreeOpen(s, th, k))
  {
    hide RemoveAt, Distinct;
    var t := FreeOpen(s, th, k);
    assert s.heap[th].body.open[k] in s.heap[th].body.open;
    RemoveAtMembers(s.heap[th].body.open, k);
    forall x, u | IsThread(t, x) ensures u in t.heap[x].body.open <==> IsOpen(t, u) && t.heap[u].body.thread == x {
      assert IsThread(s, x);
    }
    forall x | IsThread(t, x) ensures Distinct(t.heap[x].body.open) { assert IsThread(s, x); }
  }

  lemma FreeOpenSlots(s: State, th: Ref, k: nat)
    requires SlotsOwned(s) && OpenOwned(s) && IsThread(s, th) && k < |s.heap[th].body.open|
    ensures SlotsOwned(FreeOpen(s, th, k))
  {
    hide RemoveAt, Distinct;
    assert s.heap[th].body.open[k] in s.heap[th].body.open;
  }

  lemma FreeOpenReclaims(s: State, th: Ref, k: nat, e: set<Ref>)
    requires Owned(s, e) && IsThread(s, th) && k < |s.heap[th].body.open| && Dead(s, s.heap[th].body.open[k])
    ensures Reclaimed(s, FreeOpen(s, th, k))
  {
    OpenOf(s, th, k);
    hide StringsOwned, RootsOwned, FixedOwned, UpvalsOwned;
  }

  function Whiten(s: State, r: Ref): State
    requires r in s.heap
  {
    Paint(s, r, White(s.white))
  }

  lemma PaintOwned(s: State, r: Ref, c: Color, e: set<Ref>)
    requires Owned(s, e) && r in s.heap
    ensures Owned(Paint(s, r, c), e)
  {
    RepaintedOwned(s, Paint(s, r, c), e);
  }

  lemma RepaintedOwned(s: State, t: State, e: set<Ref>)
    requires Owned(s, e) && t.heap.Keys == s.heap.Keys
    requires t.strt == s.strt && t.root == s.root && t.uvhead == s.uvhead && t.main == s.main && t.running == s.running
    requires forall r :: r in s.heap ==> t.heap[r].body == s.heap[r].body && t.heap[r].fixed == s.heap[r].fixed
    ensures Owned(t, e)
  {
    hide StringsOwned, RootsOwned, UpvalsOwned;
    OwnedSlots(s);
    StringsSame(s, t);
    RootsSame(s, t, e);
    UpvalsSame(s, t);
    FixedSame(s, t);
  }

  lemma WhitenReclaims(s: State, r: Ref)
    requires Alive(s, r)
    ensures Reclaimed(s, Whiten(s, r))
  {
  }

  // ----- upvalues of a thread ----------------------------------------------------------

  /** Sweep the open upvalue at 'k'. */
  function SweepOpenAt(s: State, th: Ref, k: nat): State
    requires IsThread(s, th) && k < |s.heap[th].body.open| && s.heap[th].body.open[k] in s.heap
  {
    if Dead(s, s.heap[th].body.open[k]) then FreeOpen(s, th, k) else Whiten(s, s.heap[th].body.open[k])
  }

  function SweepOpen(s: State, th: Ref, k: nat): State
    requires Owned(s, {}) && IsThread(s, th) && k <= |s.heap[th].body.open|
    decreases |s.heap[th].body.open| - k
  {
    if k == |s.heap[th].body.open| then s
    else
      SweepOpenAtOwned(s, th, k);
      SweepOpen(SweepOpenAt(s, th, k), th, if Dead(s, s.heap[th].body.open[k]) then k else k + 1)
  }

  lemma SweepOpenAtOwned(s: State, th: Ref, k: nat)
    requires Owned(s, {}) && IsThread(s, th) && k < |s.heap[th].body.open|
    ensures IsOpen(s, s.heap[th].body.open[k])
    ensures var t, d := SweepOpenAt(s, th, k), Dead(s, s.heap[th].body.open[k]);
            && Owned(t, {}) && IsThread(t, th)
            && |t.heap[th].body.open| == |s.heap[th].body.open| - (if d then 1 else 0)
  {
    assert UpvalsOwned(s);
    OpenOf(s, th, k);
    hide UpvalsOwned, StringsOwned, RootsOwned, FixedOwned;
    if Dead(s, s.heap[th].body.open[k]) { FreeOpenOwned(s, th, k, {}); }
    else { PaintOwned(s, s.heap[th].body.open[k], White(s.white), {}); }
  }

  /** Everything in 'us' is of the current white. */
  predicate AllFresh(s: State, us: seq<Ref>) {
    forall u :: u in us ==> u in s.heap && s.heap[u].color == White(s.white)
  }

  lemma SweepOpenAtReclaims(s: State, th: Ref, k: nat)
    requires Owned(s, {}) && IsThread(s, th) && k < |s.heap[th].body.open| && AllFresh(s, s.heap[th].body.open[..k])
    ensures IsOpen(s, s.heap[th].body.open[k])
    ensures var t, d := SweepOpenAt(s, th, k), Dead(s, s.heap[th].body.open[k]);
            && Reclaimed(s, t) && IsThread(t, th) && t.heap[th].color == s.heap[th].color
            && t == s.(heap := t.heap, uvhead := t.uvhead) && |t.uvhead| <= |s.uvhead|
            && (if d then k else k + 1) <= |t.heap[th].body.open|
            && AllFresh(t, t.heap[th].body.open[..if d then k else k + 1])
  {
    assert UpvalsOwned(s);
    OpenOf(s, th, k);
    var us := s.heap[th].body.open;
    if Dead(s, us[k]) {
      FreeOpenReclaims(s, th, k, {});
      FreeOpenFresh(s, th, k);
    } else {
      hide UpvalsOwned, StringsOwned, RootsOwned, FixedOwned;
      WhitenReclaims(s, us[k]);
      assert us[..k + 1] == us[..k] + [us[k]];
    }
  }

  lemma {:induction false} SweepOpenReclaims(s: State, th: Ref, k: nat)
    requires Owned(s, {}) && IsThread(s, th) && k <= |s.heap[th].body.open| && AllFresh(s, s.heap[th].body.open[..k])
    ensures var t := SweepOpen(s, th, k);
            && Owned(t, {}) && Reclaimed(s, t) && IsThread(t, th) && AllFresh(t, t.heap[th].body.open)
            && t == s.(heap := t.heap, uvhead := t.uvhead) && t.heap[th].color == s.heap[th].color
            && |t.uvhead| <= |s.uvhead|
    decreases |s.heap[th].body.open| - k
  {
    hide Owned, Reclaimed, Dead, SweepOpenAt, AllFresh;
    var us := s.heap[th].body.open;
    if k == |us| {
      assert us[..k] == us;
      ReclaimedRefl(s);
    } else {
      SweepOpenAtOwned(s, th, k);
      SweepOpenAtReclaims(s, th, k);
      var t := SweepOpenAt(s, th, k);
      SweepOpenReclaims(t, th, if Dead(s, us[k]) then k else k + 1);
      OwnedUpvals(t, {});
      ReclaimedTrans(s, t, SweepOpen(s, th, k));
    }
  }

  lemma FreeOpenFresh(s: State, th: Ref, k: nat)
    requires UpvalsOwned(s) && IsThread(s, th) && k < |s.heap[th].body.open| && AllFresh(s, s.heap[th].body.open[..k])
    ensures var t := FreeOpen(s, th, k);
            && t == s.(heap := t.heap, uvhead := t.uvhead) && IsThread(t, th) && |t.uvhead| <= |s.uvhead|
            && |t.heap[th].body.open| == |s.heap[th].body.open| - 1 && t.heap[th].color == s.heap[th].color
            && AllFresh(t, t.heap[th].body.open[..k])
  {
    OpenOf(s, th, k);
    var t, us := FreeOpen(s, th, k), s.heap[th].body.open;
    assert t.heap[th].body.open[..k] == us[..k];
    forall u | u in us[..k] ensures u != us[k] {
      var i :| 0 <= i < k && us[i] == u;
    }
  }

  // ----- strings -----------------------------------------------------------------------

  /** Remove the k-th string of bucket 'i' and free it. */
  function FreeString(s: State, i: nat, k: nat): State
    requires i < |s.strt| && k < |s.strt[i]|
  {
    s.(heap := s.heap - {s.strt[i][k]}, strt := s.strt[i := RemoveAt(s.strt[i], k)])
  }

  lemma StringOf(s: State, i: nat, k: nat)
    requires StringsOwned(s) && i < |s.strt| && k < |s.strt[i]|
    ensures s.strt[i][k] in s.heap && s.heap[s.strt[i][k]].body.Str? && s.heap[s.strt[i][k]].body.hash % |s.strt| == i
  {
    assert s.strt[i][k] in s.strt[i];
  }

  lemma FreeStringOwned(s: State, i: nat, k: nat)
    requires Owned(s, {}) && i < |s.strt| && k < |s.strt[i]|
    ensures Owned(FreeString(s, i, k), {})
  {
    hide StringsOwned, RootsOwned, UpvalsOwned;
    StringOf(s, i, k);
    var t := FreeString(s, i, k);
    OwnedSlots(s);
    FreeStringStrings(s, i, k);
    RootsSame(s, t, {});
    UpvalsSame(s, t);
    FixedSame(s, t);
  }

  lemma FreeStringStrings(s: State, i: nat, k: nat)
    requires StringsOwned(s) && i < |s.strt| && k < |s.strt[i]|
    ensures StringsOwned(FreeString(s, i, k))
  {
    StringOf(s, i, k);
    RemoveAtMembers(s.strt[i], k);
    hide RemoveAt;
  }

  /** Sweep the string at 'k' in bucket 'i'. */
  function SweepStringAt(s: State, i: nat, k: nat): State
    requires i < |s.strt| && k < |s.strt[i]| && s.strt[i][k] in s.heap
  {
    if Dead(s, s.strt[i][k]) then FreeString(s, i, k) else Whiten(s, s.strt[i][k])
  }

  function SweepBucket(s: State, i: nat, k: nat): State
    requires Owned(s, {}) && i < |s.strt| && k <= |s.strt[i]|
    decreases |s.strt[i]| - k
  {
    if k == |s.strt[i]| then s
    else
      SweepStringAtOwned(s, i, k);
      SweepBucket(SweepStringAt(s, i, k), i, if Dead(s, s.strt[i][k]) then k else k + 1)
  }

  lemma SweepStringAtOwned(s: State, i: nat, k: nat)
    requires Owned(s, {}) && i < |s.strt| && k < |s.strt[i]|
    ensures s.strt[i][k] in s.heap && s.heap[s.strt[i][k]].body.Str?
    ensures var t, d := SweepStringAt(s, i, k), Dead(s, s.strt[i][k]);
            && Owned(t, {}) && |t.strt| == |s.strt| && |t.strt[i]| == |s.strt[i]| - (if d then 1 else 0)
  {
    assert StringsOwned(s);
    StringOf(s, i, k);
    hide UpvalsOwned, StringsOwned, RootsOwned, FixedOwned;
    if Dead(s, s.strt[i][k]) { FreeStringOwned(s, i, k); } else { PaintOwned(s, s.strt[i][k], White(s.white), {}); }
  }

  lemma SweepStringAtReclaims(s: State, i: nat, k: nat)
    requires Owned(s, {}) && i < |s.strt| && k < |s.strt[i]| && AllFresh(s, s.strt[i][..k])
    ensures s.strt[i][k] in s.heap
    ensures var t, d := SweepStringAt(s, i, k), Dead(s, s.strt[i][k]);
            && Reclaimed(s, t) && t == s.(heap := t.heap, strt := t.strt) && |t.strt| == |s.strt|
            && (forall j :: 0 <= j < |s.strt| && j != i ==> t.strt[j] == s.strt[j])
            && (if d then k else k + 1) <= |t.strt[i]|
            && AllFresh(t, t.strt[i][..if d then k else k + 1])
  {
    hide UpvalsOwned, StringsOwned, RootsOwned, FixedOwned, Reclaimed, AllFresh;
    StringOf(s, i, k);
    var us := s.strt[i];
    if Dead(s, us[k]) {
      FreeStringFresh(s, i, k);
      FreeStringReclaims(s, i, k);
    } else {
      WhitenReclaims(s, us[k]);
      WhitenFresh(s, us, k);
    }
  }

  lemma FreeStringReclaims(s: State, i: nat, k: nat)
    requires i < |s.strt| && k < |s.strt[i]| && s.strt[i][k] in s.heap && Dead(s, s.strt[i][k])
    ensures Reclaimed(s, FreeString(s, i, k))
  {
  }

  lemma WhitenFresh(s: State, us: seq<Ref>, k: nat)
    requires k < |us| && us[k] in s.heap && AllFresh(s, us[..k])
    ensures AllFresh(Whiten(s, us[k]), us[..k + 1])
  {
    assert us[..k + 1] == us[..k] + [us[k]];
  }

  lemma {:induction false} SweepBucketReclaims(s: State, i: nat, k: nat)
    requires Owned(s, {}) && i < |s.strt| && k <= |s.strt[i]| && AllFresh(s, s.strt[i][..k])
    ensures var t := SweepBucket(s, i, k);
            && Owned(t, {}) && Reclaimed(s, t) && t == s.(heap := t.heap, strt := t.strt)
            && |t.strt| == |s.strt| && AllFresh(t, t.strt[i])
            && (forall j :: 0 <= j < |s.strt| && j != i ==> t.strt[j] == s.strt[j])
    decreases |s.strt[i]| - k
  {
    hide Owned, Reclaimed, Dead, SweepStringAt, AllFresh;
    var us := s.strt[i];
    if k == |us| {
      assert us[..k] == us;
      ReclaimedRefl(s);
    } else {
      SweepStringAtOwned(s, i, k);
      SweepStringAtReclaims(s, i, k);
      var t := SweepStringAt(s, i, k);
      SweepBucketReclaims(t, i, if Dead(s, us[k]) then k else k + 1);
      OwnedUpvals(t, {});
      ReclaimedTrans(s, t, SweepBucket(s, i, k));
    }
  }

  lemma FreeStringFresh(s: State, i: nat, k: nat)
    requires StringsOwned(s) && i < |s.strt| && k < |s.strt[i]| && AllFresh(s, s.strt[i][..k])
    ensures AllFresh(FreeString(s, i, k), FreeString(s, i, k).strt[i][..k])
  {
    var t, us := FreeString(s, i, k), s.strt[i];
    assert t.strt[i][..k] == us[..k];
    forall u | u in us[..k] ensures u != us[k] {
      var j :| 0 <= j < k && us[j] == u;
    }
  }

  // ----- closing upvalues --------------------------------------------------------------

  /** Forward barrier of a black object that got a white value. */
  function BarrierForward(s: State, o: Ref, v: Ref): State
    requires o in s.heap && IsWhite(s, v)
  {
    if s.phase == Propagate then Mark(s, v) else Whiten(s, o)
  }

  /** The check in front of the forward barrier. */
  function Barrier(s: State, o: Ref, v: Value): State
    requires o in s.heap
  {
    if v.Obj? && IsWhite(s, v.r) && s.heap[o].color == Black then BarrierForward(s, o, v.r) else s
  }

  /** Put a closed upvalue into the root list. */
  function LinkUpval(s: State, u: Ref): State
    requires u in s.heap
  {
    var s1 := s.(root := [u] + s.root, sweep := if s.sweep > 0 then s.sweep + 1 else 0);
    if s.heap[u].color != Gray then s1
    else if s.phase == Propagate then
      var s2 := Paint(s1, u, Black);
      Barrier(s2, u, if s.heap[u].body.ClosedUpval? then s.heap[u].body.v else Nil)
    else Whiten(s1, u)
  }

  /** The first open upvalue of a thread gets its own copy of the value. */
  function CloseBody(s: State, th: Ref): (t: State)
    requires IsThread(s, th) && s.heap[th].body.open != [] && IsOpen(s, s.heap[th].body.open[0])
    requires s.heap[th].body.open[0] != th
    ensures s.heap[th].body.open[0] in t.heap
  {
    var o := s.heap[th];
    var u := o.body.open[0];
    var value := SlotValue(s.heap, s.heap[u].body.thread, s.heap[u].body.slot);
    s.(heap := s.heap[th := o.(body := o.body.(open := o.body.open[1..]))]
                     [u := s.heap[u].(body := ClosedUpval(value))],
       uvhead := Without(s.uvhead, u))
  }

  /** Close the first open upvalue, or free it if it is dead. */
  function CloseFirst(s: State, th: Ref): State
    requires IsThread(s, th) && s.heap[th].body.open != [] && IsOpen(s, s.heap[th].body.open[0])
    requires s.heap[th].body.open[0] != th
  {
    var u := s.heap[th].body.open[0];
    if s.heap[u].color == White(!s.white) then FreeOpen(s, th, 0) else LinkUpval(CloseBody(s, th), u)
  }

  lemma CloseBodyOwned(s: State, th: Ref, e: set<Ref>)
    requires Owned(s, e) && IsThread(s, th) && s.heap[th].body.open != [] && s.heap[th].body.open[0] !in e
    ensures var u := s.heap[th].body.open[0];
            && IsOpen(s, u) && u != th
            && Owned(CloseBody(s, th).(root := [u] + s.root), e)
  {
    hide StringsOwned, RootsOwned, UpvalsOwned;
    OpenOf(s, th, 0);
    var u := s.heap[th].body.open[0];
    var t := CloseBody(s, th).(root := [u] + s.root);
    CloseBodyUpvals(s, th);
    CloseBodyRoots(s, th, e);
    StringsSame(s, t);
    FixedSame(s, t);
  }

  lemma CloseBodyUpvals(s: State, th: Ref)
    requires UpvalsOwned(s) && IsThread(s, th) && s.heap[th].body.open != []
    ensures var u := s.heap[th].body.open[0];
            IsOpen(s, u) && u != th && UpvalsOwned(CloseBody(s, th).(root := [u] + s.root))
  {
    hide UpvalsOwned, SlotValue;
    OpenOf(s, th, 0);
    var open := s.heap[th].body.open;
    FreeOpenUpvals(s, th, 0);
    assert open[1..] == RemoveAt(open, 0);
    var f, t := FreeOpen(s, th, 0), CloseBody(s, th).(root := [open[0]] + s.root);
    OwnedSlots(f);
    UpvalsSame(f, t);
  }

  lemma CloseBodyRoots(s: State, th: Ref, e: set<Ref>)
    requires UpvalsOwned(s) && RootsOwned(s, e) && IsThread(s, th) && s.heap[th].body.open != []
    requires s.heap[th].body.open[0] !in e
    ensures var u := s.heap[th].body.open[0];
            IsOpen(s, u) && u != th && RootsOwned(CloseBody(s, th).(root := [u] + s.root), e)
  {
    OpenOf(s, th, 0);
    hide UpvalsOwned;
    var u := s.heap[th].body.open[0];
    DistinctCat([u], s.root);
    var t := CloseBody(s, th).(root := [u] + s.root);
    forall r ensures r in t.root <==> Listed(t, r) && r !in e {
      assert r in s.root <==> Listed(s, r) && r !in e;
    }
  }

  lemma MarkOwned(s: State, v: Ref, e: set<Ref>)
    requires Owned(s, e) && IsWhite(s, v)
    ensures Owned(Mark(s, v), e)
  {
    hide Owned, Mark;
    var pushed := MarkGrew(s, v);
    RepaintedOwned(s, Mark(s, v), e);
  }

  /** Linking a closed upvalue only adds it to the root list and repaints objects. */
  lemma LinkUpvalOwned(s: State, u: Ref, e: set<Ref>)
    requires u in s.heap && Owned(s.(root := [u] + s.root), e)
    ensures Owned(LinkUpval(s, u), e)
    ensures forall r :: r in s.heap ==> r in LinkUpval(s, u).heap && LinkUpval(s, u).heap[r].body == s.heap[r].body
  {
    hide Owned, Mark;
    var s1 := s.(root := [u] + s.root, sweep := if s.sweep > 0 then s.sweep + 1 else 0);
    RepaintedOwned(s.(root := [u] + s.root), s1, e);
    var s2 := Paint(s1, u, Black);
    PaintOwned(s1, u, Black, e);
    PaintOwned(s1, u, White(s1.white), e);
    if s.heap[u].color == Gray && s.phase == Propagate && s.heap[u].body.ClosedUpval? && s.heap[u].body.v.Obj? {
      var q := s.heap[u].body.v.r;
      if IsWhite(s2, q) {
        MarkOwned(s2, q, e);
        var pushed := MarkGrew(s2, q);
      }
    }
  }

  lemma CloseFirstOwned(s: State, th: Ref, e: set<Ref>)
    requires Owned(s, e) && IsThread(s, th) && s.heap[th].body.open != [] && forall x :: x in e ==> IsThread(s, x)
    ensures var u := s.heap[th].body.open[0];
            && IsOpen(s, u) && u != th
            && Owned(CloseFirst(s, th), e) && IsThread(CloseFirst(s, th), th)
            && CloseFirst(s, th).heap[th].body.open == s.heap[th].body.open[1..]
            && forall x :: x in e ==> IsThread(CloseFirst(s, th), x)
  {
    assert UpvalsOwned(s);
    OpenOf(s, th, 0);
    hide Owned, UpvalsOwned, LinkUpval, CloseBody, FreeOpen;
    var u := s.heap[th].body.open[0];
    CloseListTail(s, th, e);
    if s.heap[u].color == White(!s.white) {
      FreeOpenOwned(s, th, 0, e);
    } else {
      CloseBodyOwned(s, th, e);
      LinkUpvalOwned(CloseBody(s, th), u, e);
    }
  }

  lemma CloseListTail(s: State, th: Ref, e: set<Ref>)
    requires IsThread(s, th) && s.heap[th].body.open != []
    requires IsOpen(s, s.heap[th].body.open[0]) && s.heap[th].body.open[0] != th
    requires forall x :: x in e ==> IsThread(s, x)
    ensures var f, c, open := FreeOpen(s, th, 0), CloseBody(s, th), s.heap[th].body.open;
            && IsThread(f, th) && f.heap[th].body.open == open[1..]
            && IsThread(c, th) && c.heap[th].body.open == open[1..]
            && forall x :: x in e ==> IsThread(f, x) && IsThread(c, x)
  {
    assert RemoveAt(s.heap[th].body.open, 0) == s.heap[th].body.open[1..];
  }

  /** Close the upvalues of a thread at or above a stack level. */
  function Close(s: State, th: Ref, level: nat, ghost e: set<Ref>): State
    requires Owned(s, e) && IsThread(s, th) && forall x :: x in e ==> IsThread(s, x)
    decreases if th in s.heap && s.heap[th].body.Thread? then |s.heap[th].body.open| else 0
  {
    if s.heap[th].body.open == [] then s
    else
      CloseFirstOwned(s, th, e);
      if s.heap[s.heap[th].body.open[0]].body.slot < level then s else Close(CloseFirst(s, th), th, level, e)
  }

  /** Free a thread that is in no list any more: its upvalues are closed first. */
  function FreeThread(s: State, th: Ref): State
    requires Owned(s, {th}) && IsThread(s, th)
  {
    var t := Close(s, th, 0, {th});
    t.(heap := t.heap - {th})
  }

  /** Sweep the object that sweepgc points to. */
  function SweepRootAt(s: State): State
    requires Owned(s, {}) && s.sweep < |s.root|
  {
    var r := s.root[s.sweep];
    RootOf(s, s.sweep);
    var s1 := SweepUpvalsOf(s, r);
    SweepUpvalsOfReclaims(s, r);
    if !Dead(s1, r) then Whiten(s1, r).(sweep := s.sweep + 1)
    else
      var s2 := s1.(root := RemoveAt(s1.root, s.sweep));
      Unlinked(s1, s.sweep);
      if s1.heap[r].body.Thread? then FreeThread(s2, r) else s2.(heap := s2.heap - {r})
  }

  /** Each thread that is swept has its open upvalues swept before. */
  function SweepUpvalsOf(s: State, r: Ref): State
    requires Owned(s, {}) && r in s.heap
  {
    if s.heap[r].body.Thread? then SweepOpen(s, r, 0) else s
  }

  lemma SweepUpvalsOfReclaims(s: State, r: Ref)
    requires Owned(s, {}) && Listed(s, r)
    ensures var t := SweepUpvalsOf(s, r);
            && Owned(t, {}) && Reclaimed(s, t) && Listed(t, r) && (IsThread(t, r) ==> AllFresh(t, t.heap[r].body.open))
            && IsThread(t, r) == IsThread(s, r)
            && t == s.(heap := t.heap, uvhead := t.uvhead) && t.heap[r].color == s.heap[r].color
            && |t.uvhead| <= |s.uvhead|
  {
    hide Owned, Reclaimed, SweepOpen;
    if s.heap[r].body.Thread? {
      assert s.heap[r].body.open[..0] == [];
      SweepOpenReclaims(s, r, 0);
    } else {
      ReclaimedRefl(s);
    }
  }

  lemma RootOf(s: State, k: nat)
    requires Owned(s, {}) && k < |s.root|
    ensures Listed(s, s.root[k])
  {
    assert s.root[k] in s.root;
  }

  lemma Unlinked(s: State, k: nat)
    requires Owned(s, {}) && k < |s.root|
    ensures Owned(s.(root := RemoveAt(s.root, k)), {s.root[k]})
  {
    RemoveAtMembers(s.root, k);
    var t := s.(root := RemoveAt(s.root, k));
    assert forall r :: IsOpen(s, r) ==>
             IsThread(s, s.heap[r].body.thread) && s.heap[r].body.slot < |s.heap[s.heap[r].body.thread].body.stack|;
    assert RootsOwned(t, {s.root[k]}) by { hide UpvalsOwned, StringsOwned, FixedOwned, RemoveAt; }
    hide StringsOwned, RootsOwned, UpvalsOwned, RemoveAt;
    StringsSame(s, t);
    UpvalsSame(s, t);
    FixedSame(s, t);
  }

  // ----- the sweep of the root list ----------------------------------------------------

  predicate RootFresh(s: State, r: Ref) {
    r in s.heap && s.heap[r].color == White(s.white) && (s.heap[r].body.Thread? ==> AllFresh(s, s.heap[r].body.open))
  }

  /** What has been swept, with the open upvalues of threads, is of the current white. */
  ghost predicate SweptRoots(s: State) {
    s.sweep <= |s.root| && forall i :: 0 <= i < s.sweep ==> RootFresh(s, s.root[i])
  }

  /** The sweep of the root list still has to go through this many objects and upvalues. */
  function Unswept(s: State): nat {
    (if s.sweep <= |s.root| then |s.root| - s.sweep else 0) + |s.uvhead|
  }

  /** Only the lists of the object 'r' may differ. */
  ghost predicate OtherLists(s: State, t: State, r: Ref) {
    forall x :: x != r && IsThread(t, x) ==> IsThread(s, x) && t.heap[x].body.open == s.heap[x].body.open
  }

  lemma FreshKept(s: State, t: State, us: seq<Ref>)
    requires Reclaimed(s, t) && AllFresh(s, us)
    ensures AllFresh(t, us)
  {
    forall u | u in us ensures u in t.heap && t.heap[u].color == White(t.white) { assert Alive(s, u); }
  }

  lemma RootFreshKept(s: State, t: State, r: Ref, x: Ref)
    requires Reclaimed(s, t) && RootFresh(s, r) && r != x && OtherLists(s, t, x)
    ensures RootFresh(t, r)
  {
    assert Alive(s, r);
    hide AllFresh;
    if t.heap[r].body.Thread? {
      assert IsThread(t, r) && IsThread(s, r);
      FreshKept(s, t, s.heap[r].body.open);
    }
  }

  /** Other threads are untouched when the open upvalues of 'th' are swept. */
  lemma {:induction false} SweepOpenOthers(s: State, th: Ref, k: nat)
    requires Owned(s, {}) && IsThread(s, th) && k <= |s.heap[th].body.open|
    ensures OtherLists(s, SweepOpen(s, th, k), th)
    decreases |s.heap[th].body.open| - k
  {
    hide Owned, Dead;
    if k < |s.heap[th].body.open| {
      SweepOpenAtOwned(s, th, k);
      SweepOpenOthers(SweepOpenAt(s, th, k), th, if Dead(s, s.heap[th].body.open[k]) then k else k + 1);
    }
  }

  /** Closing the upvalues of a thread whose upvalues have been swept. */
  ghost predicate Closing(s: State, t: State, th: Ref) {
    && Owned(t, {th}) && Reclaimed(s, t) && IsThread(t, th) && AllFresh(t, t.heap[th].body.open)
    && t == s.(heap := t.heap, uvhead := t.uvhead, root := t.root, sweep := t.sweep)
    && OtherLists(s, t, th) && t.heap[th].color == s.heap[th].color
    && (SweptRoots(s) ==> SweptRoots(t)) && Unswept(t) <= Unswept(s)
  }

  lemma CloseFirstSwept(s: State, th: Ref)
    requires Owned(s, {th}) && IsThread(s, th) && s.heap[th].body.open != [] && AllFresh(s, s.heap[th].body.open)
    requires s.sweep <= |s.root|
    ensures IsOpen(s, s.heap[th].body.open[0]) && s.heap[th].body.open[0] != th
    ensures Closing(s, CloseFirst(s, th), th)
  {
    CloseFirstOwned(s, th, {th});
    var t, u := CloseFirst(s, th), s.heap[th].body.open[0];
    assert u in s.heap[th].body.open;
    assert s.heap[u].color == White(s.white);
    ThreadOf(s, th, u);
    assert t == CloseBody(s, th).(root := [u] + s.root, sweep := if s.sweep > 0 then s.sweep + 1 else 0);
    hide Owned, SweptRoots, CloseFirst, LinkUpval;
    CloseBodyReclaims(s, t, th, u);
    hide CloseBody;
    FreshKept(s, t, s.heap[th].body.open[1..]);
    if SweptRoots(s) { LinkedSwept(s, t, th, u); }
    hide Reclaimed, OtherLists, AllFresh;
  }

  lemma CloseBodyReclaims(s: State, t: State, th: Ref, u: Ref)
    requires IsThread(s, th) && s.heap[th].body.open != [] && s.heap[th].body.open[0] == u && IsOpen(s, u) && u != th
    requires s.heap[u].body.thread == th && u in s.uvhead && s.sweep <= |s.root|
    requires t == CloseBody(s, th).(root := [u] + s.root, sweep := if s.sweep > 0 then s.sweep + 1 else 0)
    ensures Reclaimed(s, t) && OtherLists(s, t, th) && IsThread(t, th)
    ensures t == s.(heap := t.heap, uvhead := t.uvhead, root := t.root, sweep := t.sweep)
    ensures t.heap[th].color == s.heap[th].color && u in t.heap && t.heap[u].color == s.heap[u].color
    ensures !t.heap[u].body.Thread? && Unswept(t) <= Unswept(s) && t.white == s.white
    ensures t.heap[th].body.open == s.heap[th].body.open[1..]
  {
  }

  lemma ThreadOf(s: State, th: Ref, u: Ref)
    requires Owned(s, {th}) && IsThread(s, th) && u in s.heap[th].body.open
    ensures IsOpen(s, u) && s.heap[u].body.thread == th && th !in s.root && u in s.uvhead
  {
  }

  lemma LinkedSwept(s: State, t: State, th: Ref, u: Ref)
    requires Reclaimed(s, t) && OtherLists(s, t, th) && SweptRoots(s) && th !in s.root
    requires t.root == [u] + s.root && t.sweep == (if s.sweep > 0 then s.sweep + 1 else 0)
    requires u in t.heap && t.heap[u].color == White(t.white) && !t.heap[u].body.Thread?
    ensures SweptRoots(t)
  {
    hide Reclaimed, OtherLists;
    forall i | 0 <= i < t.sweep ensures RootFresh(t, t.root[i]) {
      if i > 0 { assert s.root[i - 1] in s.root; RootFreshKept(s, t, s.root[i - 1], th); }
    }
  }

  lemma ClosingTrans(s: State, t: State, u: State, th: Ref)
    requires Closing(s, t, th) && Closing(t, u, th)
    ensures Closing(s, u, th)
  {
    assert UpvalsOwned(t);
    hide Owned, SweptRoots;
    ReclaimedTrans(s, t, u);
  }

  lemma {:induction false} CloseAllSwept(s: State, th: Ref)
    requires Owned(s, {th}) && IsThread(s, th) && AllFresh(s, s.heap[th].body.open) && s.sweep <= |s.root|
    ensures Closing(s, Close(s, th, 0, {th}), th) && Close(s, th, 0, {th}).heap[th].body.open == []
    decreases |s.heap[th].body.open|
  {
    hide CloseFirst, AllFresh;
    if s.heap[th].body.open == [] {
      ReclaimedRefl(s);
    } else {
      CloseFirstOwned(s, th, {th});
      CloseFirstSwept(s, th);
      var t := CloseFirst(s, th);
      assert t.sweep <= |t.root| by { SweepBound(s, th); }
      CloseAllSwept(t, th);
      hide Closing;
      ClosingTrans(s, t, Close(t, th, 0, {th}), th);
    }
  }

  lemma SweepBound(s: State, th: Ref)
    requires Owned(s, {th}) && IsThread(s, th) && s.heap[th].body.open != [] && AllFresh(s, s.heap[th].body.open)
    requires s.sweep <= |s.root|
    ensures IsOpen(s, s.heap[th].body.open[0]) && s.heap[th].body.open[0] != th
    ensures CloseFirst(s, th).sweep <= |CloseFirst(s, th).root|
  {
    CloseFirstOwned(s, th, {th});
    var u := s.heap[th].body.open[0];
    assert u in s.heap[th].body.open;
    assert s.heap[u].color == White(s.white);
  }
}

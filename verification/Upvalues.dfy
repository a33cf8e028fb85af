/** Open upvalues: a descending list for each thread, one ring through all open upvalues, and
    closed upvalues that hold their own value where the links of the ring used to be. */
module Upvalues {
  /** The address of an upvalue. */
  type Ref = int

  const NULL: Ref := -1
  /** The head of the ring, in the global state. */
  const UVHEAD: Ref := 0

  /** Any Lua value. */
  type Value = int

  /** Where a variable lives: in a stack slot of a thread, or in the upvalue itself. */
  datatype Pointer = Slot(thread: int, level: nat) | Own

  /** The links of an open upvalue and the value of a closed one share their storage. */
  datatype Union = Links(prev: Ref, next: Ref) | Content(value: Value)

  /** 'next' is the next upvalue of the thread while this one is open, and the next object of
      the collector later. */
  datatype UpVal = UpVal(v: Pointer, u: Union, next: Ref, dead: bool)

  type Heap = map<Ref, UpVal>
  type Stacks = map<int, seq<Value>>

  // ----- sequences ---------------------------------------------------------------------

  predicate Distinct<T(==)>(s: seq<T>) {
    forall i, j :: 0 <= i < j < |s| ==> s[i] != s[j]
  }

  function Before<T>(f: seq<T>, i: nat): T
    requires i < |f|
  {
    if i > 0 then f[i - 1] else f[|f| - 1]
  }

  function After<T>(f: seq<T>, i: nat): T
    requires i < |f|
  {
    if i + 1 < |f| then f[i + 1] else f[0]
  }

  /** The neighbours in a ring without its element 'k'. */
  lemma Without<T>(f: seq<T>, k: nat, i: nat)
    requires Distinct(f) && 0 < k < |f| && i < |f| - 1
    ensures var g, j := f[..k] + f[k + 1..], if i < k then i else i + 1;
            && Distinct(g) && g[i] == f[j] != f[k] && After(f, k) in f && Before(f, k) in f
            && Before(g, i) == (if f[j] == After(f, k) then Before(f, k) else Before(f, j))
            && After(g, i) == (if f[j] == Before(f, k) then After(f, k) else After(f, j))
  {
    var g := f[..k] + f[k + 1..];
    forall i | 0 <= i < |g| ensures g[i] == f[if i < k then i else i + 1] {}
  }

  lemma Spliced<T>(s: seq<T>, k: nat, x: T)
    requires k <= |s|
    ensures var r := s[..k] + [x] + s[k..];
            |r| == |s| + 1 && forall j {:trigger r[j]} :: 0 <= j < |r| ==>
                r[j] == if j < k then s[j] else if j == k then x else s[j - 1]
  {
  }

  // ----- lists -------------------------------------------------------------------------

  /** A singly linked list. */
  ghost predicate Chain(h: Heap, first: Ref, s: seq<Ref>) {
    && first == (if s == [] then NULL else s[0])
    && forall i {:trigger s[i]} :: 0 <= i < |s| ==>
         s[i] in h && s[i] != NULL && h[s[i]].next == if i + 1 < |s| then s[i + 1] else NULL
  }

  /** Open upvalues of a thread, at strictly descending levels. */
  ghost predicate Descending(h: Heap, t: int, size: nat, s: seq<Ref>) {
    && (forall i {:trigger s[i]} :: 0 <= i < |s| ==>
        s[i] in h && h[s[i]].v.Slot? && h[s[i]].v.thread == t && h[s[i]].v.level < size)
    && (forall i, j :: 0 <= i < j < |s| ==> h[s[i]].v.level > h[s[j]].v.level)
  }

  /** A circular doubly linked list. */
  ghost predicate Ring(h: Heap, f: seq<Ref>) {
    && f != [] && Distinct(f)
    && forall i {:trigger f[i]} :: 0 <= i < |f| ==> f[i] in h && h[f[i]].u == Links(Before(f, i), After(f, i))
  }

  /** Closed upvalues, which hold their values. */
  ghost predicate Closed(h: Heap, first: Ref, s: seq<Ref>) {
    && Chain(h, first, s) && Distinct(s)
    && forall i {:trigger s[i]} :: 0 <= i < |s| ==> h[s[i]].v == Own && h[s[i]].u.Content?
  }

  lemma ChainSpliced(h: Heap, first: Ref, s: seq<Ref>, k: nat, x: Ref)
    requires k <= |s| && x in h && x !in s && x != NULL
    requires first == (if k == 0 then x else s[0])
    requires h[x].next == if k < |s| then s[k] else NULL
    requires forall j {:trigger s[j]} :: 0 <= j < |s| ==>
               && s[j] in h && s[j] != NULL
               && h[s[j]].next == if j + 1 == k then x else if j + 1 < |s| then s[j + 1] else NULL
    ensures Chain(h, first, s[..k] + [x] + s[k..])
  {
    Spliced(s, k, x);
  }

  lemma DescendingSpliced(h: Heap, t: int, size: nat, s: seq<Ref>, k: nat, x: Ref)
    requires k <= |s| && Descending(h, t, size, s) && x in h && h[x].v.Slot? && h[x].v.thread == t
    requires h[x].v.level < size
    requires forall j {:trigger s[j]} :: 0 <= j < |s| ==>
               if j < k then h[s[j]].v.level > h[x].v.level else h[s[j]].v.level < h[x].v.level
    ensures Descending(h, t, size, s[..k] + [x] + s[k..])
  {
    Spliced(s, k, x);
  }

  // Each of the lists looks at some fields only.

  lemma ChainKept(h: Heap, g: Heap, first: Ref, s: seq<Ref>)
    requires Chain(h, first, s)
    requires forall i {:trigger s[i]} :: 0 <= i < |s| && s[i] in h ==> s[i] in g && g[s[i]].next == h[s[i]].next
    ensures Chain(g, first, s)
  {
  }

  lemma DescendingKept(h: Heap, g: Heap, t: int, size: nat, s: seq<Ref>)
    requires Descending(h, t, size, s)
    requires forall i {:trigger s[i]} :: 0 <= i < |s| && s[i] in h ==> s[i] in g && g[s[i]].v == h[s[i]].v
    ensures Descending(g, t, size, s)
  {
  }

  lemma RingKept(h: Heap, g: Heap, f: seq<Ref>)
    requires Ring(h, f) && forall i {:trigger f[i]} :: 0 <= i < |f| && f[i] in h ==> f[i] in g && g[f[i]].u == h[f[i]].u
    ensures Ring(g, f)
  {
  }

  lemma ClosedKept(h: Heap, g: Heap, first: Ref, s: seq<Ref>)
    requires Closed(h, first, s)
    requires forall i {:trigger s[i]} :: 0 <= i < |s| && s[i] in h ==> s[i] in g && g[s[i]] == h[s[i]]
    ensures Closed(g, first, s)
  {
  }

  function SetPrev(h: Heap, x: Ref, y: Ref): Heap
    requires x in h && h[x].u.Links?
  {
    h[x := h[x].(u := h[x].u.(prev := y))]
  }

  function SetNext(h: Heap, x: Ref, y: Ref): Heap
    requires x in h && h[x].u.Links?
  {
    h[x := h[x].(u := h[x].u.(next := y))]
  }

  lemma RingLinks(h: Heap, f: seq<Ref>, x: Ref)
    requires Ring(h, f) && x in f
    ensures x in h && h[x].u.Links? && h[x].u.prev in f && h[x].u.next in f && h[x].u.prev in h && h[x].u.next in h
    ensures h[h[x].u.prev].u.Links? && h[h[x].u.next].u.Links?
  {
  }

  /** Taking 'f[k]', which is not the head, out of the ring. */
  lemma RingWithout(h: Heap, f: seq<Ref>, k: nat)
    requires Ring(h, f) && 0 < k < |f|
    ensures var u := h[f[k]].u;
            && u.Links? && u.next in h && h[u.next].u.Links? && u.prev in h && h[u.prev].u.Links?
            && Ring(SetNext(SetPrev(h, u.next, u.prev), u.prev, u.next), f[..k] + f[k + 1..])
  {
    hide Distinct, Before, After;
    Without(f, k, 0);
    var u := h[f[k]].u;
    RingLinks(h, f, f[k]);
    var d := SetNext(SetPrev(h, u.next, u.prev), u.prev, u.next);
    var g := f[..k] + f[k + 1..];
    forall i | 0 <= i < |g| ensures g[i] in d && d[g[i]].u == Links(Before(g, i), After(g, i)) {
      Without(f, k, i);
    }
  }

  /** Putting an upvalue behind the head of the ring. */
  lemma RingWith(h: Heap, f: seq<Ref>, x: Ref)
    requires Ring(h, f) && x in h && x !in f && h[x].u == Links(f[0], h[f[0]].u.next)
    ensures var y := h[f[0]].u.next;
            && y in h && h[y].u.Links? && f[0] in SetPrev(h, y, x)
            && Ring(SetNext(SetPrev(h, y, x), f[0], x), [f[0], x] + f[1..])
  {
    var y := h[f[0]].u.next;
    var d, g := SetNext(SetPrev(h, y, x), f[0], x), [f[0], x] + f[1..];
    forall i | 0 <= i < |g| ensures g[i] in d && d[g[i]].u == Links(Before(g, i), After(g, i)) {
      if i >= 2 { assert g[i] == f[i - 1]; }
    }
  }

  // ----- the state ---------------------------------------------------------------------

  /** The memory, and the lists that are in it. */
  datatype World = World(heap: Heap, stacks: Stacks, openupval: map<int, Ref>, rootgc: Ref,
                         open: map<int, seq<Ref>>, ring: seq<Ref>, closed: seq<Ref>)

  /** The list of one thread. */
  ghost predicate Linked(w: World, t: int)
    requires t in w.stacks && t in w.openupval && t in w.open
  {
    && Chain(w.heap, w.openupval[t], w.open[t])
    && Descending(w.heap, t, |w.stacks[t]|, w.open[t])
    && forall i {:trigger w.open[t][i]} :: 0 <= i < |w.open[t]| ==> w.open[t][i] in w.ring
  }

  /** Every upvalue in the ring is in the list of the thread whose stack it points to. */
  ghost predicate Homes(h: Heap, ring: seq<Ref>, open: map<int, seq<Ref>>) {
    forall i {:trigger ring[i]} :: 0 <= i < |ring| ==>
      ring[i] in h && h[ring[i]].v.Slot? && h[ring[i]].v.thread in open && ring[i] in open[h[ring[i]].v.thread]
  }

  ghost predicate Good(w: World) {
    && Ring(w.heap, [UVHEAD] + w.ring) && Closed(w.heap, w.rootgc, w.closed) && Homes(w.heap, w.ring, w.open)
    && w.openupval.Keys == w.stacks.Keys == w.open.Keys
    && forall t :: t in w.stacks ==> Linked(w, t)
  }

  ghost predicate Readable(h: Heap, ts: Stacks, x: Ref) {
    x in h && if h[x].v.Slot? then h[x].v.thread in ts && h[x].v.level < |ts[h[x].v.thread]| else h[x].u.Content?
  }

  /** The value of the variable that an upvalue stands for. */
  ghost function Get(h: Heap, ts: Stacks, x: Ref): Value
    requires Readable(h, ts, x)
  {
    if h[x].v.Slot? then ts[h[x].v.thread][h[x].v.level] else h[x].u.value
  }

  /** What an open upvalue of a list points to. */
  lemma ListAt(h: Heap, t: int, size: nat, first: Ref, s: seq<Ref>, k: nat)
    requires Chain(h, first, s) && Descending(h, t, size, s) && k <= |s|
    ensures k == 0 ==> first == if s == [] then NULL else s[0]
    ensures k < |s| ==> s[k] in h && s[k] != NULL && h[s[k]].v.Slot? && h[s[k]].v.thread == t && h[s[k]].v.level < size
    ensures k < |s| ==> h[s[k]].next == if k + 1 < |s| then s[k + 1] else NULL
    ensures k < |s| ==> forall j :: k < j < |s| ==> s[j] in h && h[s[j]].v.Slot? && h[s[j]].v.level < h[s[k]].v.level
  {
  }

  /** The list of a thread when other upvalues have changed. */
  lemma LinkedKept(w: World, d: World, t: int)
    requires t in w.stacks && t in w.openupval && t in w.open && Linked(w, t)
    requires t in d.stacks && t in d.openupval && t in d.open
    requires |d.stacks[t]| == |w.stacks[t]| && d.openupval[t] == w.openupval[t] && d.open[t] == w.open[t]
    requires forall i {:trigger w.open[t][i]} :: 0 <= i < |w.open[t]| && w.open[t][i] in w.heap ==>
               var x := w.open[t][i];
               && x in d.heap && d.heap[x].next == w.heap[x].next && d.heap[x].v == w.heap[x].v
               && (x in w.ring ==> x in d.ring)
    ensures Linked(d, t)
  {
    hide Chain, Descending;
    ChainKept(w.heap, d.heap, w.openupval[t], w.open[t]);
    DescendingKept(w.heap, d.heap, t, |w.stacks[t]|, w.open[t]);
    forall i | 0 <= i < |w.open[t]|
      ensures w.open[t][i] in w.heap
    {
      ListAt(w.heap, t, |w.stacks[t]|, w.openupval[t], w.open[t], i);
    }
  }

  // ----- a new upvalue -------------------------------------------------------------------

  /** The upvalue at 'a' before 'next', and behind 'prior' if that is one. */
  function ChainedIn(h: Heap, a: Ref, v: Pointer, prior: Ref, next: Ref): Heap
    requires UVHEAD in h && h[UVHEAD].u.Links? && (prior != NULL ==> prior in h && prior != a)
  {
    var h1 := h[a := UpVal(v, Links(UVHEAD, h[UVHEAD].u.next), next, false)];
    if prior == NULL then h1 else h1[prior := h1[prior].(next := a)]
  }

  function Inserted(w: World, t: int, level: nat, a: Ref, k: nat): World
    requires Good(w) && t in w.stacks && k <= |w.open[t]| && a !in w.heap && a != NULL
  {
    var s := w.open[t];
    HeadOk(w);
    OpenOk(w, t, k);
    var h := ChainedIn(w.heap, a, Slot(t, level), if k > 0 then s[k - 1] else NULL, if k < |s| then s[k] else NULL);
    var y := w.heap[UVHEAD].u.next;
    w.(heap := SetNext(SetPrev(h, y, a), UVHEAD, a),
       openupval := if k > 0 then w.openupval else w.openupval[t := a],
       open := w.open[t := s[..k] + [a] + s[k..]], ring := [a] + w.ring)
  }

  lemma HeadOk(w: World)
    requires Good(w)
    ensures UVHEAD in w.heap && w.heap[UVHEAD].u.Links?
    ensures var y := w.heap[UVHEAD].u.next; y in w.heap && w.heap[y].u.Links?
  {
    assert ([UVHEAD] + w.ring)[0] == UVHEAD;
    RingLinks(w.heap, [UVHEAD] + w.ring, UVHEAD);
  }

  lemma OpenOk(w: World, t: int, k: nat)
    requires Good(w) && t in w.stacks && k <= |w.open[t]|
    ensures forall j {:trigger w.open[t][j]} :: 0 <= j < |w.open[t]| ==> w.open[t][j] in w.heap && w.open[t][j] != NULL
  {
    assert Linked(w, t);
  }

  /** The new upvalue is in its thread's list and in the ring; everything else stays. */
  lemma InsertedGood(w: World, t: int, level: nat, a: Ref, k: nat)
    requires Good(w) && t in w.stacks && k <= |w.open[t]| && a !in w.heap && a != NULL && level < |w.stacks[t]|
    requires forall j {:trigger w.open[t][j]} :: 0 <= j < |w.open[t]| ==>
               var x := w.open[t][j];
               && x in w.heap && w.heap[x].v.Slot?
               && if j < k then w.heap[x].v.level > level else w.heap[x].v.level < level
    ensures Good(Inserted(w, t, level, a, k))
  {
    hide Ring, Closed, Chain, Descending, Homes, Linked;
    var d := Inserted(w, t, level, a, k);
    InsertedRing(w, t, level, a, k);
    InsertedChanges(w, t, level, a, k);
    InsertedLinked(w, t, level, a, k);
    LinkedFields(w, t);
    forall s | s in w.stacks && s != t ensures Linked(d, s) {
      LinkedFields(w, s);
      LinkedKept(w, d, s);
    }
    ClosedFields(w.heap, w.rootgc, w.closed);
    ClosedKept(w.heap, d.heap, w.rootgc, w.closed);
    InsertedHomes(w, t, level, a, k);
  }

  /** The heap after an insertion: 'a' is new, one 'next' and at most two links are different. */
  lemma InsertedChanges(w: World, t: int, level: nat, a: Ref, k: nat)
    requires Good(w) && t in w.stacks && k <= |w.open[t]| && a !in w.heap && a != NULL
    ensures var g, h, s := Inserted(w, t, level, a, k).heap, w.heap, w.open[t];
            && g.Keys == h.Keys + {a} && g[a].v == Slot(t, level)
            && g[a].next == (if k < |s| then s[k] else NULL) && !g[a].dead
            && forall x {:trigger h[x]} {:trigger g[x]} :: x in h ==>
                 && g[x].v == h[x].v && g[x].dead == h[x].dead && g[x].u.Links? == h[x].u.Links?
                   && (h[x].u.Content? ==> g[x].u == h[x].u)
                 && g[x].next == if k > 0 && x == s[k - 1] then a else h[x].next
  {
    hide Ring, Closed, Chain, Descending, Homes, Linked;
    HeadOk(w);
    OpenOk(w, t, k);
  }

  lemma InsertedLinked(w: World, t: int, level: nat, a: Ref, k: nat)
    requires Good(w) && t in w.stacks && k <= |w.open[t]| && a !in w.heap && a != NULL && level < |w.stacks[t]|
    requires forall j {:trigger w.open[t][j]} :: 0 <= j < |w.open[t]| ==>
               var x := w.open[t][j];
               && x in w.heap && w.heap[x].v.Slot?
               && if j < k then w.heap[x].v.level > level else w.heap[x].v.level < level
    ensures Linked(Inserted(w, t, level, a, k), t)
  {
    hide Ring, Closed, Homes, Inserted, Chain, Descending;
    var d, s := Inserted(w, t, level, a, k), w.open[t];
    InsertedChanges(w, t, level, a, k);
    assert Linked(w, t);
    ListFields(w.heap, t, |w.stacks[t]|, w.openupval[t], s);
    DescendingKept(w.heap, d.heap, t, |w.stacks[t]|, s);
    DescendingSpliced(d.heap, t, |w.stacks[t]|, s, k, a);
    InsertedMore(w, t, level, a, k);
    ChainSpliced(d.heap, d.openupval[t], s, k, a);
    Spliced(s, k, a);
    forall i | 0 <= i < |d.open[t]| ensures d.open[t][i] in d.ring {
      assert d.open[t][i] == if i < k then s[i] else if i == k then a else s[i - 1];
    }
  }

  lemma InsertedMore(w: World, t: int, level: nat, a: Ref, k: nat)
    requires Good(w) && t in w.stacks && k <= |w.open[t]| && a !in w.heap && a != NULL
    ensures var d := Inserted(w, t, level, a, k);
            && d.stacks == w.stacks && d.rootgc == w.rootgc && d.closed == w.closed && d.ring == [a] + w.ring
            && d.openupval == (if k > 0 then w.openupval else w.openupval[t := a])
            && d.open == w.open[t := w.open[t][..k] + [a] + w.open[t][k..]]
  {
  }

  /** The inserted upvalue is a live one of its slot. */
  lemma InsertedIs(w: World, t: int, level: nat, a: Ref, k: nat)
    requires Good(w) && t in w.stacks && k <= |w.open[t]| && a !in w.heap && a != NULL && level < |w.stacks[t]|
    requires forall j {:trigger w.open[t][j]} :: 0 <= j < |w.open[t]| ==>
               var x := w.open[t][j];
               && x in w.heap && w.heap[x].v.Slot?
               && if j < k then w.heap[x].v.level > level else w.heap[x].v.level < level
    ensures var d := Inserted(w, t, level, a, k);
            Good(d) && a in d.heap && d.heap[a].v == Slot(t, level) && !d.heap[a].dead && t in d.open && a in d.open[t]
  {
    hide Ring, Closed, Chain, Descending, Homes, Linked, Inserted;
    var s := w.open[t];
    InsertedGood(w, t, level, a, k);
    InsertedChanges(w, t, level, a, k);
    InsertedMore(w, t, level, a, k);
    assert (s[..k] + [a] + s[k..])[k] == a;
  }

  lemma InsertedHomes(w: World, t: int, level: nat, a: Ref, k: nat)
    requires Good(w) && t in w.stacks && k <= |w.open[t]| && a !in w.heap && a != NULL
    ensures var d := Inserted(w, t, level, a, k); Homes(d.heap, d.ring, d.open)
  {
    hide Ring, Closed, Chain, Descending, Linked;
    InsertedChanges(w, t, level, a, k);
  }

  lemma ListFields(h: Heap, t: int, size: nat, first: Ref, s: seq<Ref>)
    requires Chain(h, first, s) && Descending(h, t, size, s)
    ensures Distinct(s) && first == if s == [] then NULL else s[0]
    ensures forall i {:trigger s[i]} :: 0 <= i < |s| ==>
              && s[i] in h && s[i] != NULL && h[s[i]].v.Slot? && h[s[i]].v.thread == t && h[s[i]].v.level < size
              && h[s[i]].next == if i + 1 < |s| then s[i + 1] else NULL
  {
  }

  lemma LinkedFields(w: World, t: int)
    requires t in w.stacks && t in w.openupval && t in w.open && Linked(w, t)
    ensures forall i {:trigger w.open[t][i]} :: 0 <= i < |w.open[t]| ==>
              var x := w.open[t][i];
              x in w.heap && x != NULL && x in w.ring && w.heap[x].v.Slot? && w.heap[x].v.thread == t
  {
  }

  lemma ClosedFields(h: Heap, first: Ref, s: seq<Ref>)
    requires Closed(h, first, s)
    ensures forall i {:trigger s[i]} :: 0 <= i < |s| ==> s[i] in h && h[s[i]].v == Own && h[s[i]].u.Content?
  {
  }

  lemma InsertedRing(w: World, t: int, level: nat, a: Ref, k: nat)
    requires Good(w) && t in w.stacks && k <= |w.open[t]| && a !in w.heap && a != NULL
    ensures var d := Inserted(w, t, level, a, k); Ring(d.heap, [UVHEAD] + d.ring)
  {
    hide Ring, Closed, Chain, Descending, Homes, Linked;
    HeadOk(w);
    OpenOk(w, t, k);
    var s, f := w.open[t], [UVHEAD] + w.ring;
    var h := ChainedIn(w.heap, a, Slot(t, level), if k > 0 then s[k - 1] else NULL, if k < |s| then s[k] else NULL);
    RingMembers(w.heap, f);
    RingKept(w.heap, h, f);
    RingWith(h, f, a);
    assert [f[0], a] + f[1..] == [UVHEAD] + ([a] + w.ring);
  }

  lemma RingMembers(h: Heap, f: seq<Ref>)
    requires Ring(h, f)
    ensures forall x :: x in f ==> x in h && h[x].u.Links?
  {
  }

  // ----- closing -------------------------------------------------------------------------

  ghost function IndexOf(s: seq<Ref>, x: Ref): (k: nat)
    requires x in s
    ensures k < |s| && s[k] == x
  {
    var k :| 0 <= k < |s| && s[k] == x;
    k
  }

  ghost function Remove(s: seq<Ref>, x: Ref): seq<Ref>
    requires x in s
  {
    var k := IndexOf(s, x);
    s[..k] + s[k + 1..]
  }

  function Unlinked(h: Heap, x: Ref): Heap
    requires x in h && h[x].u.Links? && h[x].u.next in h && h[x].u.prev in h
    requires h[h[x].u.next].u.Links? && h[h[x].u.prev].u.Links?
  {
    SetNext(SetPrev(h, h[x].u.next, h[x].u.prev), h[x].u.prev, h[x].u.next)
  }

  lemma FirstOk(w: World, t: int)
    requires Good(w) && t in w.stacks && w.open[t] != []
    ensures var x, h := w.open[t][0], w.heap;
            && x in h && x in w.ring && x != NULL && x != UVHEAD && x !in w.closed && w.openupval[t] == x
            && h[x].v.Slot? && h[x].v.thread == t && h[x].v.level < |w.stacks[t]|
            && h[x].u.Links? && h[x].u.next in h && h[x].u.prev in h
            && h[h[x].u.next].u.Links? && h[h[x].u.prev].u.Links?
  {
    hide Ring, Closed, Chain, Descending, Homes;
    assert Linked(w, t);
    var x := w.open[t][0];
    ListAt(w.heap, t, |w.stacks[t]|, w.openupval[t], w.open[t], 0);
    RingLinks(w.heap, [UVHEAD] + w.ring, x);
    RingHead(w.heap, w.ring, x);
    ClosedFields(w.heap, w.rootgc, w.closed);
  }

  lemma RingHead(h: Heap, ring: seq<Ref>, x: Ref)
    requires Ring(h, [UVHEAD] + ring) && x in ring
    ensures x != UVHEAD
  {
    var i :| 0 <= i < |ring| && ring[i] == x;
    assert ([UVHEAD] + ring)[i + 1] == x && ([UVHEAD] + ring)[0] == UVHEAD;
  }

  /** The first upvalue of a thread gets its slot's value; a dead one is freed. */
  ghost function Popped(w: World, t: int): World
    requires Good(w) && t in w.stacks && w.open[t] != []
  {
    FirstOk(w, t);
    var x := w.open[t][0];
    var h := Unlinked(w.heap, x);
    var value := w.stacks[t][w.heap[x].v.level];
    var d := w.(openupval := w.openupval[t := w.heap[x].next], open := w.open[t := w.open[t][1..]],
                ring := Remove(w.ring, x));
    if w.heap[x].dead then d.(heap := h - {x})
    else d.(heap := h[x := UpVal(Own, Content(value), w.rootgc, false)], rootgc := x, closed := [x] + w.closed)
  }

  lemma PoppedChanges(w: World, t: int)
    requires Good(w) && t in w.stacks && w.open[t] != []
    ensures var x, g, h := w.open[t][0], Popped(w, t).heap, w.heap;
            && x in h && (x in g <==> !h[x].dead)
            && g.Keys == (if h[x].dead then h.Keys - {x} else h.Keys)
            && forall y {:trigger h[y]} {:trigger g[y]} :: y in h && y != x ==>
                 && g[y].v == h[y].v && g[y].dead == h[y].dead && g[y].u.Links? == h[y].u.Links?
                 && (h[y].u.Content? ==> g[y].u == h[y].u) && g[y].next == h[y].next
  {
    hide Ring, Closed, Chain, Descending, Homes, Linked;
    FirstOk(w, t);
  }

  lemma PoppedRing(w: World, t: int)
    requires Good(w) && t in w.stacks && w.open[t] != []
    ensures var d := Popped(w, t); Ring(d.heap, [UVHEAD] + d.ring)
    ensures forall y :: y in Popped(w, t).ring <==> y in w.ring && y != w.open[t][0]
  {
    hide Ring, Closed, Chain, Descending, Homes, Linked;
    FirstOk(w, t);
    var x, f := w.open[t][0], [UVHEAD] + w.ring;
    var k := IndexOf(w.ring, x);
    RingWithout(w.heap, f, k + 1);
    var g := f[..k + 1] + f[k + 2..];
    assert g == [UVHEAD] + Remove(w.ring, x);
    RingDistinct(w.heap, w.ring, k);
    assert x !in g;
    RingKept(Unlinked(w.heap, x), Popped(w, t).heap, g);
  }

  lemma RingDistinct(h: Heap, ring: seq<Ref>, k: nat)
    requires Ring(h, [UVHEAD] + ring) && k < |ring|
    ensures ring[k] !in ring[..k] + ring[k + 1..] && ring[k] != UVHEAD
  {
    var f := [UVHEAD] + ring;
    assert f[k + 1] == ring[k] && f[0] == UVHEAD;
    forall i | 0 <= i < |ring| && i != k ensures ring[i] != ring[k] { assert f[i + 1] == ring[i]; }
  }

  lemma PoppedGood(w: World, t: int)
    requires Good(w) && t in w.stacks && w.open[t] != []
    ensures Good(Popped(w, t))
  {
    hide Ring, Closed, Chain, Descending, Homes, Linked;
    var d := Popped(w, t);
    FirstOk(w, t);
    PoppedRing(w, t);
    PoppedChanges(w, t);
    PoppedLinked(w, t);
    LinkedFields(w, t);
    forall s | s in w.stacks && s != t ensures Linked(d, s) {
      LinkedFields(w, s);
      LinkedKept(w, d, s);
    }
    PoppedClosed(w, t);
    PoppedHomes(w, t);
  }

  lemma PoppedLinked(w: World, t: int)
    requires Good(w) && t in w.stacks && w.open[t] != []
    ensures Linked(Popped(w, t), t)
  {
    hide Ring, Closed, Homes, Chain, Descending, Popped;
    var d, s := Popped(w, t), w.open[t];
    PoppedChanges(w, t);
    PoppedRing(w, t);
    PoppedMore(w, t);
    assert Linked(w, t);
    ListTail(w.heap, t, |w.stacks[t]|, w.openupval[t], s);
    ChainKept(w.heap, d.heap, d.openupval[t], s[1..]);
    DescendingKept(w.heap, d.heap, t, |w.stacks[t]|, s[1..]);
    forall i | 0 <= i < |s[1..]| ensures s[1..][i] in d.ring { assert s[1..][i] == s[i + 1]; }
  }

  lemma PoppedMore(w: World, t: int)
    requires Good(w) && t in w.stacks && w.open[t] != []
    ensures var d, x := Popped(w, t), w.open[t][0];
            && x in w.heap && d.stacks == w.stacks && d.openupval == w.openupval[t := w.heap[x].next]
            && d.open == w.open[t := w.open[t][1..]]
  {
  }

  lemma ListTail(h: Heap, t: int, size: nat, first: Ref, s: seq<Ref>)
    requires Chain(h, first, s) && Descending(h, t, size, s) && s != []
    ensures s[0] in h && Chain(h, h[s[0]].next, s[1..]) && Descending(h, t, size, s[1..])
    ensures forall i {:trigger s[1..][i]} :: 0 <= i < |s[1..]| ==> s[1..][i] != s[0]
  {
    forall i | 0 <= i < |s[1..]| ensures s[1..][i] == s[i + 1] {}
  }

  lemma InTail(s: seq<Ref>, y: Ref)
    requires s != [] && y != s[0]
    ensures y in s ==> y in s[1..]
  {
    if y in s {
      var i :| 0 <= i < |s| && s[i] == y;
      assert s[1..][i - 1] == y;
    }
  }

  lemma ClosedPushed(h: Heap, first: Ref, s: seq<Ref>, x: Ref)
    requires Closed(h, first, s) && x in h && x != NULL && x !in s
    requires h[x].v == Own && h[x].u.Content? && h[x].next == first
    ensures Closed(h, x, [x] + s)
  {
    hide Distinct;
    ChainSpliced(h, x, s, 0, x);
    assert s[..0] + [x] + s[0..] == [x] + s;
    DistinctPushed(s, x);
    forall i | 0 <= i < |[x] + s| ensures h[([x] + s)[i]].v == Own && h[([x] + s)[i]].u.Content? {
      if i > 0 { assert ([x] + s)[i] == s[i - 1]; }
    }
  }

  lemma DistinctPushed(s: seq<Ref>, x: Ref)
    requires Distinct(s) && x !in s
    ensures Distinct([x] + s)
  {
  }

  lemma PoppedClosed(w: World, t: int)
    requires Good(w) && t in w.stacks && w.open[t] != []
    ensures var d := Popped(w, t); Closed(d.heap, d.rootgc, d.closed)
  {
    hide Ring, Homes, Linked, Chain, Descending, Closed;
    PoppedChanges(w, t);
    FirstOk(w, t);
    ClosedFields(w.heap, w.rootgc, w.closed);
    var d := Popped(w, t);
    ClosedKept(w.heap, d.heap, w.rootgc, w.closed);
    if !w.heap[w.open[t][0]].dead { ClosedPushed(d.heap, w.rootgc, w.closed, w.open[t][0]); }
  }

  lemma PoppedHomes(w: World, t: int)
    requires Good(w) && t in w.stacks && w.open[t] != []
    ensures var d := Popped(w, t); Homes(d.heap, d.ring, d.open)
  {
    hide Ring, Closed, Chain, Descending, Linked, Popped;
    PoppedChanges(w, t);
    PoppedRing(w, t);
    PoppedMore(w, t);
    var d, x := Popped(w, t), w.open[t][0];
    forall i | 0 <= i < |d.ring|
      ensures var y := d.ring[i];
              && y in d.heap && d.heap[y].v.Slot? && d.heap[y].v.thread in d.open
              && y in d.open[d.heap[y].v.thread]
    {
      var y := d.ring[i];
      assert y in w.ring && y != x;
      var j :| 0 <= j < |w.ring| && w.ring[j] == y;
      assert y in w.open[t] ==> y in w.open[t][1..] by { InTail(w.open[t], y); }
    }
  }

  /** What luaF_close does to the lists and the memory. */
  ghost function CloseAll(w: World, t: int, level: nat): World
    requires Good(w) && t in w.stacks
    decreases if t in w.open then |w.open[t]| else 0
  {
    if w.open[t] == [] then w
    else
      FirstOk(w, t);
      if w.heap[w.open[t][0]].v.level < level then w
      else
        PoppedGood(w, t);
        PoppedMore(w, t);
        CloseAll(Popped(w, t), t, level)
  }

  lemma CloseAllStep(w: World, t: int, level: nat)
    requires Good(w) && t in w.stacks && t in w.open && w.open[t] != []
    requires w.open[t][0] in w.heap && w.heap[w.open[t][0]].v.Slot? && w.heap[w.open[t][0]].v.level >= level
    ensures Good(Popped(w, t)) && t in Popped(w, t).stacks
    ensures CloseAll(w, t, level) == CloseAll(Popped(w, t), t, level)
  {
    hide Ring, Closed, Homes, Linked, Popped;
    PoppedGood(w, t);
    PoppedMore(w, t);
  }

  lemma CloseAllStop(w: World, t: int, level: nat)
    requires Good(w) && t in w.stacks && t in w.open
    requires w.open[t] != [] ==>
               w.open[t][0] in w.heap && w.heap[w.open[t][0]].v.Slot? && w.heap[w.open[t][0]].v.level < level
    ensures CloseAll(w, t, level) == w
  {
    hide Ring, Closed, Homes, Linked;
  }

  /** Upvalue 'x' of slot 'slot' has been closed, or freed if it was dead. */
  ghost predicate Settled(w: World, d: World, x: Ref) {
    && x in w.heap && x !in d.ring && Readable(w.heap, w.stacks, x)
    && if w.heap[x].dead then x !in d.heap
       else x in d.closed && x in d.heap && d.heap[x].v == Own && d.heap[x].u == Content(Get(w.heap, w.stacks, x))
  }

  /** Upvalue 'x' stands for the same variable. */
  ghost predicate Same(w: World, d: World, x: Ref) {
    && x in w.heap && x in d.heap && d.heap[x].v == w.heap[x].v && d.heap[x].dead == w.heap[x].dead
    && d.heap[x].u.Links? == w.heap[x].u.Links? && (w.heap[x].u.Content? ==> d.heap[x].u == w.heap[x].u)
    && (x in w.ring <==> x in d.ring) && (x in w.closed ==> x in d.closed)
  }

  lemma PoppedSettled(w: World, t: int)
    requires Good(w) && t in w.stacks && w.open[t] != []
    ensures Settled(w, Popped(w, t), w.open[t][0])
    ensures forall y :: y in w.heap && y != w.open[t][0] ==> Same(w, Popped(w, t), y)
  {
    hide Ring, Closed, Chain, Descending, Homes, Linked;
    FirstOk(w, t);
    PoppedChanges(w, t);
    PoppedRing(w, t);
  }

  /** Exactly the upvalues of thread 't' at or above the level are settled, from 'w' to 'd';
      all others stand for the same variables as before. */
  ghost predicate ClosedTo(w: World, d: World, t: int, level: nat)
    requires t in w.open && t in d.open
  {
    var s, k := w.open[t], |w.open[t]| - |d.open[t]|;
    && d.stacks == w.stacks && d.heap.Keys <= w.heap.Keys && d.open == w.open[t := d.open[t]]
    && 0 <= k <= |s| && d.open[t] == s[k..]
    && (forall i {:trigger s[i]} :: 0 <= i < |s| ==>
          s[i] in w.heap && w.heap[s[i]].v.Slot? && (i < k <==> w.heap[s[i]].v.level >= level))
    && (forall i {:trigger s[i]} :: 0 <= i < k ==> Settled(w, d, s[i]))
    && (forall x {:trigger Same(w, d, x)} :: x in w.heap && x !in s[..k] ==> Same(w, d, x))
  }

  lemma ClosedToSelf(w: World, t: int, level: nat)
    requires Good(w) && t in w.stacks
    requires w.open[t] != [] ==>
               w.open[t][0] in w.heap && w.heap[w.open[t][0]].v.Slot? && w.heap[w.open[t][0]].v.level < level
    ensures ClosedTo(w, w, t, level)
  {
    hide Ring, Closed, Homes;
    assert Linked(w, t);
    assert w.open == w.open[t := w.open[t]];
  }

  lemma ClosedToMore(w: World, d: World, t: int, level: nat)
    requires Good(w) && t in w.stacks && w.open[t] != [] && t in d.open && Good(d)
    requires w.open[t][0] in w.heap && w.heap[w.open[t][0]].v.Slot? && w.heap[w.open[t][0]].v.level >= level
    requires t in Popped(w, t).open && ClosedTo(Popped(w, t), d, t, level)
    ensures ClosedTo(w, d, t, level)
  {
    hide Ring, Closed, Homes, Popped, Settled, Same, Linked, ClosedTo;
    var p, s := Popped(w, t), w.open[t];
    var k := |s| - |d.open[t]|;
    PoppedChanges(w, t);
    PoppedMore(w, t);
    ClosedToShape(p, d, t, level);
    assert s[1..][k - 1..] == s[k..];
    forall i | 0 <= i < |s|
      ensures s[i] in w.heap && w.heap[s[i]].v.Slot? && (i < k <==> w.heap[s[i]].v.level >= level)
      ensures i < k ==> Settled(w, d, s[i])
    {
      ClosedToMoreAt(w, d, t, level, i);
    }
    forall x {:trigger Same(w, d, x)} | x in w.heap && x !in s[..k] ensures Same(w, d, x) {
      ClosedToMoreSame(w, d, t, level, x);
    }
    ClosedToMade(w, d, t, level);
  }

  lemma ClosedToShape(w: World, d: World, t: int, level: nat)
    requires t in w.open && t in d.open && ClosedTo(w, d, t, level)
    ensures var s, k := w.open[t], |w.open[t]| - |d.open[t]|;
            && d.stacks == w.stacks && d.heap.Keys <= w.heap.Keys && d.open == w.open[t := d.open[t]]
            && 0 <= k <= |s| && d.open[t] == s[k..]
  {
  }

  lemma ClosedToMade(w: World, d: World, t: int, level: nat)
    requires t in w.open && t in d.open
    requires var s, k := w.open[t], |w.open[t]| - |d.open[t]|;
             && d.stacks == w.stacks && d.heap.Keys <= w.heap.Keys && d.open == w.open[t := d.open[t]]
             && 0 <= k <= |s| && d.open[t] == s[k..]
             && (forall i {:trigger s[i]} :: 0 <= i < |s| ==>
                   && s[i] in w.heap && w.heap[s[i]].v.Slot? && (i < k <==> w.heap[s[i]].v.level >= level)
                   && (i < k ==> Settled(w, d, s[i])))
             && (forall x {:trigger Same(w, d, x)} :: x in w.heap && x !in s[..k] ==> Same(w, d, x))
    ensures ClosedTo(w, d, t, level)
  {
  }

  lemma ClosedToMoreAt(w: World, d: World, t: int, level: nat, i: nat)
    requires Good(w) && t in w.stacks && w.open[t] != [] && t in d.open && i < |w.open[t]| && Good(d)
    requires w.open[t][0] in w.heap && w.heap[w.open[t][0]].v.Slot? && w.heap[w.open[t][0]].v.level >= level
    requires t in Popped(w, t).open && ClosedTo(Popped(w, t), d, t, level)
    ensures var s, k := w.open[t], |w.open[t]| - |d.open[t]|;
            && s[i] in w.heap && w.heap[s[i]].v.Slot? && (i < k <==> w.heap[s[i]].v.level >= level)
            && (i < k ==> Settled(w, d, s[i]))
  {
    hide Ring, Closed, Homes, Popped, Settled, Same, Chain, Descending;
    var p, s := Popped(w, t), w.open[t];
    PoppedSettled(w, t);
    PoppedMore(w, t);
    assert Linked(w, t);
    ListFields(w.heap, t, |w.stacks[t]|, w.openupval[t], s);
    if i > 0 {
      assert s[1..][i - 1] == s[i] && Same(w, p, s[i]);
      SameFields(w, p, s[i]);
      if i < |s| - |d.open[t]| { SettledLater(w, p, d, s[i]); }
    } else if w.heap[s[0]].dead {
      SettledDead(w, p, d, s[0]);
    } else {
      PoppedChanges(w, t);
      SettledKept(w, p, d, s[0]);
    }
  }

  lemma ClosedToMoreSame(w: World, d: World, t: int, level: nat, x: Ref)
    requires Good(w) && t in w.stacks && w.open[t] != [] && t in d.open
    requires t in Popped(w, t).open && ClosedTo(Popped(w, t), d, t, level)
    requires |w.open[t]| > |d.open[t]| && x in w.heap && x !in w.open[t][..|w.open[t]| - |d.open[t]|]
    ensures Same(w, d, x)
  {
    hide Ring, Closed, Homes, Popped, Settled, Same, Chain, Descending;
    var p, s := Popped(w, t), w.open[t];
    var k := |s| - |d.open[t]|;
    PoppedSettled(w, t);
    PoppedMore(w, t);
    assert s[..k] == [s[0]] + s[1..][..k - 1];
    SameFields(w, p, x);
    SameKept(w, p, d, x);
  }

  lemma SameFields(w: World, p: World, x: Ref)
    requires Same(w, p, x)
    ensures x in w.heap && x in p.heap && p.heap[x].v == w.heap[x].v
  {
  }

  lemma SameKept(w: World, p: World, d: World, x: Ref)
    requires Same(w, p, x) && Same(p, d, x)
    ensures Same(w, d, x)
  {
  }

  lemma SettledLater(w: World, p: World, d: World, x: Ref)
    requires Same(w, p, x) && Settled(p, d, x) && p.stacks == w.stacks
    ensures Settled(w, d, x)
  {
  }

  lemma SettledKept(w: World, p: World, d: World, x: Ref)
    requires Settled(w, p, x) && x in p.heap && Same(p, d, x)
    ensures Settled(w, d, x)
  {
  }

  lemma SettledDead(w: World, p: World, d: World, x: Ref)
    requires Settled(w, p, x) && w.heap[x].dead && d.heap.Keys <= p.heap.Keys && Good(d)
    ensures Settled(w, d, x)
  {
    hide Closed, Homes, Linked;
    if x in d.ring { assert x in [UVHEAD] + d.ring; RingLinks(d.heap, [UVHEAD] + d.ring, x); }
  }

  /** Exactly the upvalues at or above the level are closed, with the values of their slots. */
  lemma {:induction false} CloseAllMeaning(w: World, t: int, level: nat)
    requires Good(w) && t in w.stacks
    ensures var d := CloseAll(w, t, level); Good(d) && t in d.open && ClosedTo(w, d, t, level)
    decreases |w.open[t]|
  {
    hide Ring, Closed, Homes, Popped, Chain, Descending, ClosedTo;
    if w.open[t] != [] { FirstOk(w, t); }
    if w.open[t] == [] || w.heap[w.open[t][0]].v.level < level {
      ClosedToSelf(w, t, level);
    } else {
      PoppedGood(w, t);
      PoppedMore(w, t);
      CloseAllMeaning(Popped(w, t), t, level);
      ClosedToMore(w, CloseAll(w, t, level), t, level);
    }
  }

  /** Closing changes the value of no variable. */
  lemma CloseKeepsValues(w: World, t: int, level: nat, x: Ref)
    requires Good(w) && t in w.stacks && Readable(w.heap, w.stacks, x) && x in CloseAll(w, t, level).heap
    ensures var d := CloseAll(w, t, level);
            Readable(d.heap, d.stacks, x) && Get(d.heap, d.stacks, x) == Get(w.heap, w.stacks, x)
  {
    hide Ring, Closed, Homes, Linked, CloseAll;
    var d, s := CloseAll(w, t, level), w.open[t];
    CloseAllMeaning(w, t, level);
    var k := |s| - |d.open[t]|;
    if x in s[..k] {
      var i :| 0 <= i < k && s[..k][i] == x;
      assert s[i] == x;
    } else {
      assert Same(w, d, x);
    }
  }

  // ----- sharing ---------------------------------------------------------------------------

  /** Two open upvalues of one slot are the same one. */
  lemma OneForEachSlot(w: World, x: Ref, y: Ref)
    requires Good(w) && x in w.ring && y in w.ring && x in w.heap && y in w.heap && w.heap[x].v == w.heap[y].v
    ensures x == y
  {
    hide Ring, Closed, Chain;
    HomeOf(w, x);
    HomeOf(w, y);
    var t := w.heap[x].v.thread;
    assert Linked(w, t);
    var i :| 0 <= i < |w.open[t]| && w.open[t][i] == x;
    var j :| 0 <= j < |w.open[t]| && w.open[t][j] == y;
  }

  lemma HomeOf(w: World, x: Ref)
    requires Good(w) && x in w.ring
    ensures x in w.heap && w.heap[x].v.Slot? && w.heap[x].v.thread in w.stacks && x in w.open[w.heap[x].v.thread]
    ensures w.heap[x].v.level < |w.stacks[w.heap[x].v.thread]|
  {
    hide Ring, Closed;
    var i :| 0 <= i < |w.ring| && w.ring[i] == x;
    var t := w.heap[x].v.thread;
    LinkedFields(w, t);
    var j :| 0 <= j < |w.open[t]| && w.open[t][j] == x;
    assert Linked(w, t);
    ListAt(w.heap, t, |w.stacks[t]|, w.openupval[t], w.open[t], j);
  }

  // ----- the global state --------------------------------------------------------------------

  class Global {
    var heap: Heap
    var stacks: Stacks
    var openupval: map<int, Ref>
    /** The collector's list; only the closed upvalues of it matter here. */
    var rootgc: Ref
    ghost var open: map<int, seq<Ref>>
    ghost var ring: seq<Ref>
    ghost var closed: seq<Ref>

    ghost function Here(): World
      reads this
    {
      World(heap, stacks, openupval, rootgc, open, ring, closed)
    }

    constructor ()
      ensures Good(Here()) && stacks == map[] && ring == [] && closed == []
    {
      heap := map[UVHEAD := UpVal(Own, Links(UVHEAD, UVHEAD), NULL, false)];
      stacks, openupval, rootgc := map[], map[], NULL;
      open, ring, closed := map[], [], [];
    }

    /** A thread with an empty list. */
    method NewThread(t: int, size: nat)
      requires Good(Here()) && t !in stacks
      modifies this`stacks, this`openupval, this`open
      ensures Good(Here()) && stacks.Keys == old(stacks.Keys) + {t} && |stacks[t]| == size && open == old(open)[t := []]
    {
      hide Ring, Closed, Chain, Descending, Homes, Linked;
      ghost var w := Here();
      stacks := stacks[t := seq(size, _ => 0)];
      openupval := openupval[t := NULL];
      open := open[t := []];
      NewThreadGood(w, Here(), t);
    }

    /** The upvalue of a stack slot. If there is none, one is made at address 'a'. */
    method FindUpval(t: int, level: nat, a: Ref) returns (uv: Ref)
      requires Good(Here()) && t in stacks && level < |stacks[t]| && a !in heap && a != NULL
      modifies this`heap, this`openupval, this`open, this`ring
      ensures Good(Here()) && uv in heap && uv in open[t] && heap[uv].v == Slot(t, level) && !heap[uv].dead
      ensures if uv in old(heap) then uv in old(open[t]) && Here() == Revived(old(Here()), uv)
              else exists k: nat | k <= |old(open[t])| :: Here() == Inserted(old(Here()), t, level, a, k)
    {
      hide Good, Inserted;
      ghost var w := Here();
      OpenFields(w, t);
      ghost var s, k: nat := open[t], 0;
      uv := openupval[t];
      var prior := NULL;
      while uv != NULL && heap[uv].v.level >= level
        invariant k <= |s| && Here() == w
        invariant uv == if k < |s| then s[k] else NULL
        invariant prior == if k > 0 then s[k - 1] else NULL
        invariant forall j :: 0 <= j < k ==> heap[s[j]].v.level > level
        decreases |s| - k
      {
        if heap[uv].v.level == level {
          if heap[uv].dead { heap := heap[uv := heap[uv].(dead := false)]; }
          RevivedGood(w, uv);
          assert heap == w.heap[uv := w.heap[uv].(dead := false)];
          return;
        }
        prior, uv, k := uv, heap[uv].next, k + 1;
      }
      InsertedIs(w, t, level, a, k);
      Create(t, level, a, prior, uv, k);
      uv := a;
    }

    /** Make an upvalue between 'prior' and 'next' in the list of a thread. */
    method Create(t: int, level: nat, a: Ref, prior: Ref, next: Ref, ghost k: nat)
      requires Good(Here()) && t in stacks && level < |stacks[t]| && a !in heap && a != NULL && k <= |open[t]|
      requires prior == if k > 0 then open[t][k - 1] else NULL
      requires next == if k < |open[t]| then open[t][k] else NULL
      modifies this`heap, this`openupval, this`open, this`ring
      ensures Here() == Inserted(old(Here()), t, level, a, k)
    {
      hide Ring, Closed, Chain, Descending, Linked, Homes;
      HeadOk(Here());
      OpenOk(Here(), t, k);
      heap := heap[a := UpVal(Slot(t, level), Links(UVHEAD, heap[UVHEAD].u.next), next, false)];
      if prior == NULL {
        openupval := openupval[t := a];
      } else {
        heap := heap[prior := heap[prior].(next := a)];
      }
      var y := heap[a].u.next;
      heap := heap[y := heap[y].(u := heap[y].u.(prev := a))];
      heap := heap[UVHEAD := heap[UVHEAD].(u := heap[UVHEAD].u.(next := a))];
      open := open[t := open[t][..k] + [a] + open[t][k..]];
      ring := [a] + ring;
    }

    /** Take an open upvalue out of the ring. */
    method UnlinkUpval(uv: Ref)
      requires Ring(heap, [UVHEAD] + ring) && uv in ring
      modifies this`heap
      ensures uv in old(heap) && old(heap)[uv].u.Links? && old(heap)[uv].u.next in old(heap)
      ensures old(heap)[uv].u.prev in old(heap)
      ensures old(heap)[old(heap)[uv].u.next].u.Links? && old(heap)[old(heap)[uv].u.prev].u.Links?
      ensures heap == Unlinked(old(heap), uv)
    {
      hide Ring;
      RingLinks(heap, [UVHEAD] + ring, uv);
      var y := heap[uv].u.next;
      heap := heap[y := heap[y].(u := heap[y].u.(prev := heap[uv].u.prev))];
      var x := heap[uv].u.prev;
      heap := heap[x := heap[x].(u := heap[x].u.(next := heap[uv].u.next))];
    }

    /** Close the upvalues of a thread from a level on. */
    method Close(t: int, level: nat)
      requires Good(Here()) && t in stacks
      modifies this`heap, this`openupval, this`rootgc, this`open, this`ring, this`closed
      ensures Good(Here()) && Here() == CloseAll(old(Here()), t, level)
      ensures ClosedTo(old(Here()), Here(), t, level)
    {
      hide Good, ClosedTo, Popped, CloseAll;
      ghost var w := Here();
      CloseAllMeaning(w, t, level);
      OpenFields(w, t);
      while openupval[t] != NULL && heap[openupval[t]].v.level >= level
        invariant stacks == w.stacks && t in openupval && t in open && Good(Here())
        invariant CloseAll(Here(), t, level) == CloseAll(w, t, level)
        invariant openupval[t] == if open[t] == [] then NULL else open[t][0]
        invariant open[t] != [] ==> open[t][0] != NULL && open[t][0] in heap && heap[open[t][0]].v.Slot?
        decreases |open[t]|
      {
        PoppedGood(Here(), t);
        PoppedMore(Here(), t);
        CloseAllStep(Here(), t, level);
        Pop(t);
        OpenFields(Here(), t);
      }
      CloseAllStop(Here(), t, level);
    }

    /** Close the first upvalue of a thread. */
    method Pop(t: int)
      requires Good(Here()) && t in stacks && open[t] != []
      modifies this`heap, this`openupval, this`rootgc, this`open, this`ring, this`closed
      ensures Here() == Popped(old(Here()), t)
    {
      hide Ring, Closed, Homes, Linked;
      FirstOk(Here(), t);
      var uv := openupval[t];
      var slot := heap[uv].v.level;
      openupval := openupval[t := heap[uv].next];
      ghost var rest := open[t][1..];
      if heap[uv].dead {
        UnlinkUpval(uv);
        heap := heap - {uv};
      } else {
        UnlinkUpval(uv);
        heap := heap[uv := heap[uv].(u := Content(stacks[t][slot]))];
        heap := heap[uv := heap[uv].(v := Own)];
        heap := heap[uv := heap[uv].(next := rootgc)];
        rootgc := uv;
        closed := [uv] + closed;
      }
      open := open[t := rest];
      ring := Remove(ring, uv);
    }

    /** Give the variable of an upvalue another value: its slot, or the upvalue itself. */
    method SetUpval(uv: Ref, value: Value)
      requires Good(Here()) && (uv in ring || uv in closed)
      modifies this`heap, this`stacks
      ensures Good(Here()) && heap.Keys == old(heap.Keys) && open == old(open) && ring == old(ring)
      ensures closed == old(closed)
      ensures forall x {:trigger x in old(heap)} ::
                x in old(heap) && Readable(old(heap), old(stacks), x) && (x in ring || x in closed) ==>
                && x in heap && heap[x].v == old(heap)[x].v && Readable(heap, stacks, x)
                && Get(heap, stacks, x) == if x == uv then value else old(Get(heap, stacks, x))
    {
      hide Ring, Closed, Chain, Descending, Homes, Linked;
      ghost var w := Here();
      UpvalFields(w);
      if heap[uv].v.Slot? {
        var t := heap[uv].v.thread;
        stacks := stacks[t := stacks[t][heap[uv].v.level := value]];
        forall x | x in ring && w.heap[x].v == w.heap[uv].v ensures x == uv { OneForEachSlot(w, x, uv); }
      } else {
        heap := heap[uv := heap[uv].(u := Content(value))];
      }
      GoodKept(w, Here());
    }

    /** Go round the ring, as the collector does before it finishes marking. */
    method Walk() returns (seen: seq<Ref>)
      requires Good(Here())
      ensures seen == ring
    {
      hide Closed, Homes, Linked, Distinct;
      ghost var f := [UVHEAD] + ring;
      seen := [];
      assert f[0] == UVHEAD;
      var uv := heap[UVHEAD].u.next;
      while uv != UVHEAD
        invariant |seen| <= |ring| && seen == ring[..|seen|]
        invariant uv == if |seen| < |ring| then ring[|seen|] else UVHEAD
        decreases |ring| - |seen|
      {
        RingNext(heap, ring, |seen|);
        seen := seen + [uv];
        uv := heap[uv].u.next;
      }
      RingNotHead(heap, ring);
    }
  }

  lemma RingNext(h: Heap, ring: seq<Ref>, k: nat)
    requires Ring(h, [UVHEAD] + ring) && k < |ring|
    ensures ring[k] in h && h[ring[k]].u.Links? && h[ring[k]].u.next == if k + 1 < |ring| then ring[k + 1] else UVHEAD
  {
    assert ([UVHEAD] + ring)[k + 1] == ring[k];
  }

  lemma RingNotHead(h: Heap, ring: seq<Ref>)
    requires Ring(h, [UVHEAD] + ring)
    ensures UVHEAD !in ring
  {
    if UVHEAD in ring { RingHead(h, ring, UVHEAD); }
  }

  lemma UpvalFields(w: World)
    requires Good(w)
    ensures forall x :: x in w.ring ==>
              && x in w.heap && w.heap[x].v.Slot? && w.heap[x].v.thread in w.stacks && x !in w.closed
              && w.heap[x].v.level < |w.stacks[w.heap[x].v.thread]|
    ensures forall x :: x in w.closed ==> x in w.heap && w.heap[x].v == Own && w.heap[x].u.Content?
  {
    hide Ring, Closed, Chain, Descending, Homes, Linked;
    ClosedFields(w.heap, w.rootgc, w.closed);
    forall x | x in w.closed ensures x in w.heap && w.heap[x].v == Own && w.heap[x].u.Content? {
      var i :| 0 <= i < |w.closed| && w.closed[i] == x;
    }
    forall x | x in w.ring
      ensures x in w.heap && w.heap[x].v.Slot? && w.heap[x].v.thread in w.stacks
      ensures w.heap[x].v.level < |w.stacks[w.heap[x].v.thread]|
    {
      HomeOf(w, x);
    }
  }

  lemma NewThreadGood(w: World, d: World, t: int)
    requires Good(w) && t !in w.stacks && t in d.stacks
    requires d.stacks == w.stacks[t := d.stacks[t]] && d.openupval == w.openupval[t := NULL]
    requires d.open == w.open[t := []]
    requires d.heap == w.heap && d.ring == w.ring && d.closed == w.closed && d.rootgc == w.rootgc
    ensures Good(d)
  {
    hide Ring, Closed;
    forall s | s in d.stacks ensures Linked(d, s) { assert s == t || Linked(w, s); }
  }

  function Revived(w: World, x: Ref): World
    requires x in w.heap
  {
    w.(heap := w.heap[x := w.heap[x].(dead := false)])
  }

  lemma RevivedGood(w: World, x: Ref)
    requires Good(w) && x in w.heap
    ensures Good(Revived(w, x))
  {
    GoodKept(w, Revived(w, x));
  }

  /** The lists do not depend on the colours, nor on the values. */
  lemma GoodKept(w: World, d: World)
    requires Good(w) && d.open == w.open && d.openupval == w.openupval && d.ring == w.ring
    requires d.closed == w.closed && d.rootgc == w.rootgc && d.heap.Keys == w.heap.Keys
    requires d.stacks.Keys == w.stacks.Keys && forall t :: t in w.stacks ==> |d.stacks[t]| == |w.stacks[t]|
    requires forall x :: x in w.heap ==>
               && d.heap[x].v == w.heap[x].v && d.heap[x].next == w.heap[x].next
               && (if w.heap[x].u.Links? then d.heap[x].u == w.heap[x].u else d.heap[x].u.Content?)
    ensures Good(d)
  {
    hide Chain, Descending, Linked, Homes, Distinct;
    ClosedKeptHere(w, d);
    RingMembers(w.heap, [UVHEAD] + w.ring);
    RingKept(w.heap, d.heap, [UVHEAD] + w.ring);
    forall t | t in w.stacks ensures Linked(d, t) { LinkedKept(w, d, t); }
    HomesKept(w, d);
  }
  lemma ClosedKeptHere(w: World, d: World)
    requires Closed(w.heap, w.rootgc, w.closed) && d.closed == w.closed && d.rootgc == w.rootgc
    requires d.heap.Keys == w.heap.Keys
    requires forall x :: x in w.heap ==> d.heap[x].v == w.heap[x].v && d.heap[x].next == w.heap[x].next
                                         && (w.heap[x].u.Content? ==> d.heap[x].u.Content?)
    ensures Closed(d.heap, d.rootgc, d.closed)
  {
    ChainKept(w.heap, d.heap, w.rootgc, w.closed);
  }

  lemma HomesKept(w: World, d: World)
    requires Homes(w.heap, w.ring, w.open) && d.ring == w.ring && d.open == w.open && d.heap.Keys == w.heap.Keys
    requires forall x :: x in w.heap ==> d.heap[x].v == w.heap[x].v
    ensures Homes(d.heap, d.ring, d.open)
  {
    forall i | 0 <= i < |d.ring|
      ensures var x := d.ring[i];
              && x in d.heap && d.heap[x].v.Slot? && d.heap[x].v.thread in d.open
              && x in d.open[d.heap[x].v.thread]
    {
      var x := w.ring[i];
      assert x in w.heap && x in w.open[w.heap[x].v.thread];
      assert x in w.heap.Keys;
    }
  }

  lemma OpenFields(w: World, t: int)
    requires Good(w) && t in w.stacks
    ensures t in w.openupval && t in w.open
    ensures var s := w.open[t];
            && w.openupval[t] == (if s == [] then NULL else s[0])
            && forall i {:trigger s[i]} :: 0 <= i < |s| ==>
              && s[i] in w.heap && s[i] != NULL && w.heap[s[i]].v.Slot? && w.heap[s[i]].v.thread == t
              && w.heap[s[i]].next == (if i + 1 < |s| then s[i + 1] else NULL)
              && forall j :: i < j < |s| ==>
                  s[j] in w.heap && w.heap[s[j]].v.Slot? && w.heap[s[j]].v.level < w.heap[s[i]].v.level
  {
    hide Ring, Closed, Homes;
    assert Linked(w, t);
  }
}

/** The end of the atomic step: weak tables lose the entries whose objects were not marked, and the
    current white changes. */
module GcClear {
  import opened GcHeap
  import opened GcMark
  import opened GcCycle

  /** An object, not a string, that was not marked. */
  predicate Lost(s: State, v: Value) {
    v.Obj? && IsWhite(s, v.r) && !s.heap[v.r].body.Str?
  }

  /** Strings are values: the check that keeps one marks it. */
  function Keep(s: State, v: Value): State {
    if v.Obj? && IsWhite(s, v.r) && s.heap[v.r].body.Str? then Paint(s, v.r, Gray) else s
  }

  predicate IsTable(s: State, t: Ref) {
    t in s.heap && s.heap[t].body.Table?
  }

  function SetBody(s: State, r: Ref, b: Body): State
    requires r in s.heap
  {
    s.(heap := s.heap[r := s.heap[r].(body := b)])
  }

  function ClearArray(s: State, t: Ref, i: nat): State
    requires IsTable(s, t) && i <= |s.heap[t].body.arr|
    decreases i
  {
    if i == 0 then s
    else
      var b := s.heap[t].body;
      if Lost(s, b.arr[i - 1]) then ClearArray(SetBody(s, t, b.(arr := b.arr[i - 1 := Nil])), t, i - 1)
      else ClearArray(Keep(s, b.arr[i - 1]), t, i - 1)
  }

  function DropNode(s: State, t: Ref, i: nat): State
    requires IsTable(s, t) && i < |s.heap[t].body.nodes|
  {
    var b := s.heap[t].body;
    SetBody(s, t, b.(nodes := b.nodes[i := (b.nodes[i].0, Nil)]))
  }

  /** An entry is checked key first; the value is not looked at if the key is lost. */
  function ClearNode(s: State, t: Ref, i: nat): State
    requires IsTable(s, t) && i < |s.heap[t].body.nodes|
  {
    var e := s.heap[t].body.nodes[i];
    if e.1 == Nil then s
    else if Lost(s, e.0) then DropNode(s, t, i)
    else if Lost(Keep(s, e.0), e.1) then DropNode(Keep(s, e.0), t, i)
    else Keep(Keep(s, e.0), e.1)
  }

  function ClearNodes(s: State, t: Ref, i: nat): State
    requires IsTable(s, t) && i <= |s.heap[t].body.nodes|
    decreases i
  {
    if i == 0 then s else ClearNodes(ClearNode(s, t, i - 1), t, i - 1)
  }

  /** Clear one table. Its mode is the one of its last traversal: no metatable has changed since. */
  function ClearTable(s: State, t: Ref): State {
    if !IsTable(s, t) then s
    else
      var m := ModeOf(s.heap, s.heap[t].body.meta);
      var s1 := if m.values then ClearArray(s, t, |s.heap[t].body.arr|) else s;
      if IsTable(s1, t) then ClearNodes(s1, t, |s1.heap[t].body.nodes|) else s1
  }

  function ClearAll(s: State, ts: seq<Ref>): State
    decreases |ts|
  {
    if ts == [] then s else ClearAll(ClearTable(s, ts[0]), ts[1..])
  }

  // ----- effect of clearing ------------------------------------------------------------

  /** Every value that is gone was lost, and every entry that is gone had a lost key or value. */
  predicate Shrunk(s: State, b: Body, c: Body) {
    if b.Table? then
      && c.Table? && c.meta == b.meta && c.mode == b.mode && |c.arr| == |b.arr| && |c.nodes| == |b.nodes|
      && (forall i :: 0 <= i < |b.arr| ==> c.arr[i] == b.arr[i] || (c.arr[i] == Nil && Lost(s, b.arr[i])))
      && (forall i :: 0 <= i < |b.nodes| ==>
            (c.nodes[i] == b.nodes[i]
             || (c.nodes[i] == (b.nodes[i].0, Nil) && (Lost(s, b.nodes[i].0) || Lost(s, b.nodes[i].1)))))
    else c == b
  }

  /** Colours change only from white to gray, and only of strings. */
  predicate Cleaned(s: State, t: State) {
    && t == s.(heap := t.heap) && t.heap.Keys == s.heap.Keys
    && forall r :: r in s.heap ==>
         && t.heap[r].fixed == s.heap[r].fixed
         && (t.heap[r].color == s.heap[r].color
             || (s.heap[r].color.White? && t.heap[r].color == Gray && s.heap[r].body.Str?))
         && Shrunk(s, s.heap[r].body, t.heap[r].body)
  }

  lemma CleanedRefl(s: State)
    ensures Cleaned(s, s)
  {
  }

  lemma CleanedTrans(s: State, t: State, u: State)
    requires Cleaned(s, t) && Cleaned(t, u)
    ensures Cleaned(s, u)
  {
    hide Shrunk;
    forall r | r in s.heap ensures Shrunk(s, s.heap[r].body, u.heap[r].body) {
      assert forall v :: Lost(t, v) ==> Lost(s, v) by { LostBefore(s, t); }
      ShrunkTrans(s, t, s.heap[r].body, t.heap[r].body, u.heap[r].body);
    }
    forall r | r in s.heap && t.heap[r].body.Str?
      ensures s.heap[r].body.Str?
    {
      assert Shrunk(s, s.heap[r].body, t.heap[r].body);
      SameKind(s, r, t);
    }
  }

  lemma SameKind(s: State, r: Ref, t: State)
    requires r in s.heap && r in t.heap && Shrunk(s, s.heap[r].body, t.heap[r].body)
    ensures s.heap[r].body.Table? == t.heap[r].body.Table?
    ensures !s.heap[r].body.Table? ==> t.heap[r].body == s.heap[r].body
  {
  }

  lemma LostBefore(s: State, t: State)
    requires Cleaned(s, t)
    ensures forall v :: Lost(t, v) <==> Lost(s, v)
  {
    hide Shrunk;
    forall v ensures Lost(t, v) <==> Lost(s, v) {
      if v.Obj? && v.r in s.heap { SameKind(s, v.r, t); }
    }
  }

  lemma ShrunkTrans(s: State, t: State, b: Body, c: Body, d: Body)
    requires Shrunk(s, b, c) && Shrunk(t, c, d) && forall v :: Lost(t, v) ==> Lost(s, v)
    ensures Shrunk(s, b, d)
  {
    hide Lost;
  }

  lemma KeepCleans(s: State, v: Value)
    ensures Cleaned(s, Keep(s, v))
    ensures !Lost(s, v) && v.Obj? ==> !IsWhite(Keep(s, v), v.r)
    ensures forall r :: r in s.heap ==> Keep(s, v).heap[r].body == s.heap[r].body
  {
  }

  lemma {:induction false} ClearArrayCleans(s: State, t: Ref, i: nat)
    requires IsTable(s, t) && i <= |s.heap[t].body.arr|
    ensures var u := ClearArray(s, t, i);
            && Cleaned(s, u) && IsTable(u, t) && u.heap[t].body.nodes == s.heap[t].body.nodes
            && |u.heap[t].body.arr| == |s.heap[t].body.arr|
            && (forall j :: i <= j < |u.heap[t].body.arr| ==> u.heap[t].body.arr[j] == s.heap[t].body.arr[j])
            && (forall j :: 0 <= j < i ==> Good(u, u.heap[t].body.arr[j]))
    decreases i
  {
    hide Cleaned, Shrunk, Lost, IsWhite, Good;
    if i == 0 {
      CleanedRefl(s);
    } else {
      var b := s.heap[t].body;
      var v := b.arr[i - 1];
      var s1 := if Lost(s, v) then SetBody(s, t, b.(arr := b.arr[i - 1 := Nil])) else Keep(s, v);
      if Lost(s, v) { NilCleans(s, t, i - 1); } else { KeepCleans(s, v); }
      CleanedKeys(s, s1);
      ArrayGood(s, t, i - 1);
      ClearArrayCleans(s1, t, i - 1);
      var u := ClearArray(s1, t, i - 1);
      CleanedTrans(s, s1, u);
      CleanedGood(s1, u, s1.heap[t].body.arr[i - 1]);
    }
  }

  lemma ArrayGood(s: State, t: Ref, i: nat)
    requires IsTable(s, t) && i < |s.heap[t].body.arr|
    ensures var v := s.heap[t].body.arr[i];
            var b := s.heap[t].body;
            var s1 := if Lost(s, v) then SetBody(s, t, b.(arr := b.arr[i := Nil])) else Keep(s, v);
            IsTable(s1, t) && i < |s1.heap[t].body.arr| && Good(s1, s1.heap[t].body.arr[i])
  {
  }

  lemma CleanedKeys(s: State, t: State)
    requires Cleaned(s, t)
    ensures t.heap.Keys == s.heap.Keys
    ensures forall r :: r in s.heap ==> s.heap[r].body.Table? == t.heap[r].body.Table?
  {
  }

  predicate Good(s: State, v: Value) {
    v.Obj? ==> !IsWhite(s, v.r)
  }

  lemma CleanedGood(s: State, t: State, v: Value)
    requires Cleaned(s, t) && Good(s, v)
    ensures Good(t, v)
  {
  }

  lemma NilCleans(s: State, t: Ref, i: nat)
    requires IsTable(s, t) && i < |s.heap[t].body.arr| && Lost(s, s.heap[t].body.arr[i])
    ensures Cleaned(s, SetBody(s, t, s.heap[t].body.(arr := s.heap[t].body.arr[i := Nil])))
  {
  }

  lemma DropCleans(s: State, t: Ref, i: nat)
    requires IsTable(s, t) && i < |s.heap[t].body.nodes|
    requires Lost(s, s.heap[t].body.nodes[i].0) || Lost(s, s.heap[t].body.nodes[i].1)
    ensures Cleaned(s, DropNode(s, t, i))
  {
  }

  predicate GoodEntry(s: State, e: (Value, Value)) {
    e.1 != Nil ==> Good(s, e.0) && Good(s, e.1)
  }

  lemma ClearNodeCleans(s: State, t: Ref, i: nat)
    requires IsTable(s, t) && i < |s.heap[t].body.nodes|
    ensures var u := ClearNode(s, t, i);
            && Cleaned(s, u) && IsTable(u, t) && u.heap[t].body.arr == s.heap[t].body.arr
            && |u.heap[t].body.nodes| == |s.heap[t].body.nodes| && GoodEntry(u, u.heap[t].body.nodes[i])
            && (forall j :: 0 <= j < |u.heap[t].body.nodes| && j != i ==>
                u.heap[t].body.nodes[j] == s.heap[t].body.nodes[j])
  {
    hide Cleaned, Shrunk, Lost, Keep, IsWhite;
    var e := s.heap[t].body.nodes[i];
    if e.1 == Nil {
      CleanedRefl(s);
    } else if Lost(s, e.0) {
      DropCleans(s, t, i);
    } else {
      KeepCleans(s, e.0);
      var s1 := Keep(s, e.0);
      CleanedKeys(s, s1);
      if Lost(s1, e.1) {
        DropCleans(s1, t, i);
        CleanedTrans(s, s1, DropNode(s1, t, i));
      } else {
        KeepCleans(s1, e.1);
        var u := Keep(s1, e.1);
        CleanedKeys(s1, u);
        CleanedTrans(s, s1, u);
        CleanedGood(s1, u, e.0);
      }
    }
  }

  lemma {:induction false} ClearNodesCleans(s: State, t: Ref, i: nat)
    requires IsTable(s, t) && i <= |s.heap[t].body.nodes|
    ensures var u := ClearNodes(s, t, i);
            && Cleaned(s, u) && IsTable(u, t) && u.heap[t].body.arr == s.heap[t].body.arr
            && |u.heap[t].body.nodes| == |s.heap[t].body.nodes|
            && (forall j :: i <= j < |u.heap[t].body.nodes| ==> u.heap[t].body.nodes[j] == s.heap[t].body.nodes[j])
            && (forall j :: 0 <= j < i ==> GoodEntry(u, u.heap[t].body.nodes[j]))
    decreases i
  {
    hide Cleaned, ClearNode, GoodEntry;
    if i == 0 {
      CleanedRefl(s);
    } else {
      ClearNodeCleans(s, t, i - 1);
      var s1 := ClearNode(s, t, i - 1);
      ClearNodesCleans(s1, t, i - 1);
      var u := ClearNodes(s1, t, i - 1);
      CleanedTrans(s, s1, u);
      CleanedGoodEntry(s1, u, s1.heap[t].body.nodes[i - 1]);
    }
  }

  lemma CleanedGoodEntry(s: State, t: State, e: (Value, Value))
    requires Cleaned(s, t) && GoodEntry(s, e)
    ensures GoodEntry(t, e)
  {
    hide Cleaned;
    if e.1 != Nil { CleanedGood(s, t, e.0); CleanedGood(s, t, e.1); }
  }

  /** After it has been cleared, a table whose strong part is marked refers only to marked objects. */
  lemma ClearTableCleans(s: State, t: Ref)
    ensures Cleaned(s, ClearTable(s, t))
    ensures IsTable(s, t) && StrongReached(s, t) ==> Reached(ClearTable(s, t), t)
  {
    hide Cleaned, Shrunk, Good, GoodEntry, ClearArray, ClearNodes, StrongReached, Reached, ModeOf;
    if !IsTable(s, t) {
      CleanedRefl(s);
    } else {
      var b := s.heap[t].body;
      var m := ModeOf(s.heap, b.meta);
      var s1 := s;
      if m.values {
        ClearArrayCleans(s, t, |b.arr|);
        s1 := ClearArray(s, t, |b.arr|);
      } else {
        CleanedRefl(s);
      }
      ClearNodesCleans(s1, t, |s1.heap[t].body.nodes|);
      var u := ClearNodes(s1, t, |s1.heap[t].body.nodes|);
      CleanedTrans(s, s1, u);
      assert u == ClearTable(s, t);
      if StrongReached(s, t) {
        StrongPart(s, t);
        CleanedMeta(s, u, t);
        forall i | 0 <= i < |u.heap[t].body.arr| ensures Good(u, u.heap[t].body.arr[i]) {
          if m.values { CleanedGood(s1, u, s1.heap[t].body.arr[i]); } else { CleanedGood(s, u, b.arr[i]); }
        }
        CleanedGood(s, u, MetaValue(b.meta));
        AllGood(u, t);
      }
    }
  }

  lemma StrongPart(s: State, t: Ref)
    requires IsTable(s, t) && StrongReached(s, t)
    ensures Good(s, MetaValue(s.heap[t].body.meta))
    ensures !ModeOf(s.heap, s.heap[t].body.meta).values ==> forall i :: 0 <= i < |s.heap[t].body.arr| ==>
              Good(s, s.heap[t].body.arr[i])
  {
    var b := s.heap[t].body;
    assert MetaValue(b.meta) in Strongly(s.heap, b);
    if !ModeOf(s.heap, b.meta).values {
      forall i | 0 <= i < |b.arr| ensures Good(s, b.arr[i]) {
        assert b.arr[i] in Backwards(b.arr);
        assert b.arr[i] in Strongly(s.heap, b);
      }
    }
  }

  lemma CleanedMeta(s: State, u: State, t: Ref)
    requires Cleaned(s, u) && IsTable(s, t)
    ensures IsTable(u, t) && u.heap[t].body.meta == s.heap[t].body.meta
  {
  }

  lemma AllGood(u: State, t: Ref)
    requires IsTable(u, t) && Good(u, MetaValue(u.heap[t].body.meta))
    requires forall i :: 0 <= i < |u.heap[t].body.arr| ==> Good(u, u.heap[t].body.arr[i])
    requires forall i :: 0 <= i < |u.heap[t].body.nodes| ==> GoodEntry(u, u.heap[t].body.nodes[i])
    ensures Reached(u, t)
  {
    var b := u.heap[t].body;
    forall v | v in Contents(u.heap, b, STRONG) && v.Obj? ensures !IsWhite(u, v.r) {
      if v in Backwards(b.arr) {
        assert v in b.arr;
      } else if v in NodeValues(b.nodes, STRONG) {
        var e :| e in b.nodes && v in EntryValues(e, STRONG);
        assert GoodEntry(u, e);
      }
    }
  }

  lemma CleanedContents(s: State, t: State, r: Ref, v: Value)
    requires Cleaned(s, t) && r in s.heap && v in Contents(t.heap, t.heap[r].body, STRONG) && v != Nil
    ensures v in Contents(s.heap, s.heap[r].body, STRONG)
  {
    var b, c := s.heap[r].body, t.heap[r].body;
    if b.OpenUpval? {
      assert SlotValue(t.heap, b.thread, b.slot) == SlotValue(s.heap, b.thread, b.slot);
    } else if b.Table? {
      if v in Backwards(c.arr) {
        assert v in b.arr;
      } else if v in NodeValues(c.nodes, STRONG) {
        var e :| e in c.nodes && v in EntryValues(e, STRONG);
        assert e in b.nodes;
      }
    }
  }

  lemma CleanedReached(s: State, t: State, r: Ref)
    requires Cleaned(s, t) && Reached(s, r)
    ensures Reached(t, r)
  {
    forall v | v in Contents(t.heap, t.heap[r].body, STRONG) && v.Obj? ensures !IsWhite(t, v.r) {
      CleanedContents(s, t, r, v);
    }
  }

  /** Clearing one table does not make another one less traversed. */
  lemma CleanedStrongReached(s: State, t: State, r: Ref)
    requires Cleaned(s, t) && StrongReached(s, r) && IsTable(s, r)
    ensures IsTable(t, r) && StrongReached(t, r)
  {
    var b, c := s.heap[r].body, t.heap[r].body;
    var m := ModeOf(s.heap, b.meta);
    assert ModeOf(t.heap, c.meta) == m;
    forall v | v in Strongly(t.heap, c) && v.Obj? ensures !IsWhite(t, v.r) {
      if v in TableValues(c, m) { CleanedValues(s, b, c, m, v); }
      assert v in Strongly(s.heap, b);
    }
  }

  lemma CleanedValues(s: State, b: Body, c: Body, m: Mode, v: Value)
    requires b.Table? && Shrunk(s, b, c) && v in TableValues(c, m) && v.Obj?
    ensures v in TableValues(b, m)
  {
    if !m.values && v in Backwards(c.arr) {
      assert v in b.arr;
    } else {
      var e :| e in c.nodes && v in EntryValues(e, m);
      assert e in b.nodes;
    }
  }

  lemma {:induction false} ClearAllCleans(s: State, ts: seq<Ref>)
    requires forall t :: t in ts ==> IsTable(s, t) && StrongReached(s, t)
    ensures Cleaned(s, ClearAll(s, ts)) && forall t :: t in ts ==> Reached(ClearAll(s, ts), t)
    decreases |ts|
  {
    hide Cleaned, StrongReached, Reached, ClearTable;
    if ts == [] {
      CleanedRefl(s);
    } else {
      ClearTableCleans(s, ts[0]);
      var s1 := ClearTable(s, ts[0]);
      forall t | t in ts[1..] ensures IsTable(s1, t) && StrongReached(s1, t) { CleanedStrongReached(s, s1, t); }
      ClearAllCleans(s1, ts[1..]);
      var u := ClearAll(s1, ts[1..]);
      CleanedTrans(s, s1, u);
      CleanedReached(s1, u, ts[0]);
    }
  }

  // ----- which strings clearing marks --------------------------------------------------

  lemma {:induction false} ArrayKeeps(s: State, t: Ref, i: nat, r: Ref)
    requires IsTable(s, t) && i <= |s.heap[t].body.arr| && IsWhite(s, r) && !IsWhite(ClearArray(s, t, i), r)
    ensures Obj(r) in s.heap[t].body.arr
    decreases i
  {
    if i > 0 && s.heap[t].body.arr[i - 1] != Obj(r) {
      var v := s.heap[t].body.arr[i - 1];
      var b := s.heap[t].body;
      var s1 := if Lost(s, v) then SetBody(s, t, b.(arr := b.arr[i - 1 := Nil])) else Keep(s, v);
      ArrayKeeps(s1, t, i - 1, r);
    }
  }

  /** Clearing looks at the object in an entry that is there: the key, or the value if the key is
      not lost. */
  predicate InEntry(s: State, e: (Value, Value), r: Ref) {
    e.1 != Nil && (e.0 == Obj(r) || (!Lost(s, e.0) && e.1 == Obj(r)))
  }

  /** Clearing looks at the object in table 't'. */
  ghost predicate Seen(s: State, t: Ref, r: Ref) {
    && IsTable(s, t)
    && ((ModeOf(s.heap, s.heap[t].body.meta).values && Obj(r) in s.heap[t].body.arr)
        || exists e :: e in s.heap[t].body.nodes && InEntry(s, e, r))
  }

  lemma SameEntry(s: State, t: State, e: (Value, Value), r: Ref)
    requires Cleaned(s, t)
    ensures InEntry(t, e, r) <==> InEntry(s, e, r)
  {
    hide Lost, Cleaned;
    LostBefore(s, t);
  }

  lemma {:induction false} NodesKeep(s: State, t: Ref, i: nat, r: Ref)
    requires IsTable(s, t) && i <= |s.heap[t].body.nodes| && IsWhite(s, r) && !IsWhite(ClearNodes(s, t, i), r)
    ensures exists e :: e in s.heap[t].body.nodes && InEntry(s, e, r)
    decreases i
  {
    hide ClearNode, Cleaned, GoodEntry, InEntry;
    if i > 0 && !InEntry(s, s.heap[t].body.nodes[i - 1], r) {
      var s1 := ClearNode(s, t, i - 1);
      ClearNodeCleans(s, t, i - 1);
      NodeKeeps(s, t, i - 1, r);
      NodesKeep(s1, t, i - 1, r);
      var e :| e in s1.heap[t].body.nodes && InEntry(s1, e, r);
      SameEntry(s, s1, e, r);
      var j :| 0 <= j < |s1.heap[t].body.nodes| && s1.heap[t].body.nodes[j] == e;
      assert j != i - 1 && s.heap[t].body.nodes[j] == e;
    }
  }

  lemma NodeKeeps(s: State, t: Ref, i: nat, r: Ref)
    requires IsTable(s, t) && i < |s.heap[t].body.nodes| && IsWhite(s, r) && !InEntry(s, s.heap[t].body.nodes[i], r)
    ensures IsTable(ClearNode(s, t, i), t) && i < |ClearNode(s, t, i).heap[t].body.nodes|
    ensures IsWhite(ClearNode(s, t, i), r) && !InEntry(s, ClearNode(s, t, i).heap[t].body.nodes[i], r)
  {
  }

  lemma TableKeeps(s: State, t: Ref, r: Ref)
    requires IsWhite(s, r) && !IsWhite(ClearTable(s, t), r)
    ensures Seen(s, t, r)
  {
    hide ClearArray, ClearNodes, Cleaned, InEntry;
    var b := s.heap[t].body;
    var s1 := if ModeOf(s.heap, b.meta).values then ClearArray(s, t, |b.arr|) else s;
    if !IsWhite(s1, r) {
      ArrayKeeps(s, t, |b.arr|, r);
    } else {
      if s1 != s { ClearArrayCleans(s, t, |b.arr|); } else { CleanedRefl(s); }
      NodesKeep(s1, t, |s1.heap[t].body.nodes|, r);
      var e :| e in b.nodes && InEntry(s1, e, r);
      SameEntry(s, s1, e, r);
    }
  }

  lemma SeenRefers(s: State, t: Ref, r: Ref)
    requires Seen(s, t, r)
    ensures Refers(s.heap, t, r)
  {
    var b := s.heap[t].body;
    if ModeOf(s.heap, b.meta).values && Obj(r) in b.arr {
      assert Obj(r) in Backwards(b.arr);
    } else {
      var e :| e in b.nodes && InEntry(s, e, r);
      assert Obj(r) in EntryValues(e, STRONG);
      assert Obj(r) in NodeValues(b.nodes, STRONG);
    }
  }

  /** What clearing looks at later it could have looked at before. */
  lemma SeenBefore(s: State, u: State, t: Ref, r: Ref)
    requires Cleaned(s, u) && Seen(u, t, r)
    ensures Seen(s, t, r)
  {
    hide Lost, InEntry;
    CleanedMeta(s, u, t);
    var b, c := s.heap[t].body, u.heap[t].body;
    assert Shrunk(s, b, c);
    if Obj(r) in c.arr {
      var i :| 0 <= i < |c.arr| && c.arr[i] == Obj(r);
      assert b.arr[i] == Obj(r);
    }
    if exists e :: e in c.nodes && InEntry(u, e, r) {
      var e :| e in c.nodes && InEntry(u, e, r);
      SameEntry(s, u, e, r);
      var i :| 0 <= i < |c.nodes| && c.nodes[i] == e;
      NotNil(u, e, r);
      assert b.nodes[i] == e;
    }
  }

  lemma NotNil(s: State, e: (Value, Value), r: Ref)
    requires InEntry(s, e, r)
    ensures e.1 != Nil
  {
  }

  /** A string that clearing marks is in one of the tables, where clearing looks at it. */
  lemma {:induction false} ClearAllMarks(s: State, ts: seq<Ref>, r: Ref) returns (t: Ref)
    requires IsWhite(s, r) && !IsWhite(ClearAll(s, ts), r)
    ensures t in ts && Seen(s, t, r)
    decreases |ts|
  {
    hide ClearTable, Cleaned, Seen;
    var s1 := ClearTable(s, ts[0]);
    ClearTableCleans(s, ts[0]);
    if !IsWhite(s1, r) {
      t := ts[0];
      TableKeeps(s, t, r);
    } else {
      t := ClearAllMarks(s1, ts[1..], r);
      CleanedKeys(s, s1);
      SeenBefore(s, s1, t, r);
    }
  }

  // Conversely, every string that clearing looks at is marked.

  predicate MarkedString(s: State, r: Ref) {
    r in s.heap && s.heap[r].body.Str? && !IsWhite(s, r)
  }

  lemma CleanedMarked(s: State, t: State, r: Ref)
    requires Cleaned(s, t) && MarkedString(s, r)
    ensures MarkedString(t, r)
  {
  }

  lemma CleanedString(s: State, t: State, r: Ref)
    requires Cleaned(s, t) && r in s.heap && s.heap[r].body.Str?
    ensures r in t.heap && t.heap[r].body.Str?
  {
  }

  lemma {:induction false} ArraySees(s: State, t: Ref, i: nat, j: nat, r: Ref)
    requires IsTable(s, t) && j < i <= |s.heap[t].body.arr| && s.heap[t].body.arr[j] == Obj(r)
    requires r in s.heap && s.heap[r].body.Str?
    ensures MarkedString(ClearArray(s, t, i), r)
    decreases i
  {
    hide Cleaned, MarkedString, Good;
    var b := s.heap[t].body;
    var v := b.arr[i - 1];
    var s1 := if Lost(s, v) then SetBody(s, t, b.(arr := b.arr[i - 1 := Nil])) else Keep(s, v);
    if Lost(s, v) { NilCleans(s, t, i - 1); } else { KeepCleans(s, v); }
    CleanedKeys(s, s1);
    CleanedString(s, s1, r);
    ClearArrayCleans(s1, t, i - 1);
    if j == i - 1 {
      KeptMarked(s, r);
      CleanedMarked(s1, ClearArray(s1, t, i - 1), r);
    } else {
      ArraySees(s1, t, i - 1, j, r);
    }
  }

  lemma KeptMarked(s: State, r: Ref)
    requires r in s.heap && s.heap[r].body.Str?
    ensures !Lost(s, Obj(r)) && MarkedString(Keep(s, Obj(r)), r)
  {
  }

  lemma NodeSees(s: State, t: Ref, i: nat, r: Ref)
    requires IsTable(s, t) && i < |s.heap[t].body.nodes| && InEntry(s, s.heap[t].body.nodes[i], r)
    requires r in s.heap && s.heap[r].body.Str?
    ensures MarkedString(ClearNode(s, t, i), r)
  {
  }

  lemma {:induction false} NodesSee(s: State, t: Ref, i: nat, j: nat, r: Ref)
    requires IsTable(s, t) && j < i <= |s.heap[t].body.nodes| && InEntry(s, s.heap[t].body.nodes[j], r)
    requires r in s.heap && s.heap[r].body.Str?
    ensures MarkedString(ClearNodes(s, t, i), r)
    decreases i
  {
    hide Cleaned, MarkedString, ClearNode, GoodEntry, InEntry;
    var s1 := ClearNode(s, t, i - 1);
    ClearNodeCleans(s, t, i - 1);
    CleanedString(s, s1, r);
    ClearNodesCleans(s1, t, i - 1);
    if j == i - 1 {
      NodeSees(s, t, j, r);
      CleanedMarked(s1, ClearNodes(s1, t, i - 1), r);
    } else {
      SameEntry(s, s1, s1.heap[t].body.nodes[j], r);
      NodesSee(s1, t, i - 1, j, r);
    }
  }

  lemma TableSees(s: State, t: Ref, r: Ref)
    requires Seen(s, t, r) && r in s.heap && s.heap[r].body.Str?
    ensures MarkedString(ClearTable(s, t), r)
  {
    hide Cleaned, MarkedString, ClearArray, ClearNodes, Good, GoodEntry, InEntry;
    var b := s.heap[t].body;
    var m := ModeOf(s.heap, b.meta);
    var s1 := if m.values then ClearArray(s, t, |b.arr|) else s;
    if m.values { ClearArrayCleans(s, t, |b.arr|); } else { CleanedRefl(s); }
    var n := |s1.heap[t].body.nodes|;
    ClearNodesCleans(s1, t, n);
    if m.values && Obj(r) in b.arr {
      var j :| 0 <= j < |b.arr| && b.arr[j] == Obj(r);
      ArraySees(s, t, |b.arr|, j, r);
      CleanedMarked(s1, ClearNodes(s1, t, n), r);
    } else {
      var e :| e in b.nodes && InEntry(s, e, r);
      var j :| 0 <= j < |b.nodes| && b.nodes[j] == e;
      SameEntry(s, s1, e, r);
      CleanedString(s, s1, r);
      NodesSee(s1, t, n, j, r);
    }
  }

  // Clearing one table does not change the others.

  lemma {:induction false} ArrayOnly(s: State, t: Ref, i: nat, q: Ref)
    requires IsTable(s, t) && i <= |s.heap[t].body.arr| && q in s.heap && q != t
    ensures q in ClearArray(s, t, i).heap && ClearArray(s, t, i).heap[q].body == s.heap[q].body
    decreases i
  {
    if i > 0 {
      var b := s.heap[t].body;
      var v := b.arr[i - 1];
      ArrayOnly(if Lost(s, v) then SetBody(s, t, b.(arr := b.arr[i - 1 := Nil])) else Keep(s, v), t, i - 1, q);
    }
  }

  lemma {:induction false} NodesOnly(s: State, t: Ref, i: nat, q: Ref)
    requires IsTable(s, t) && i <= |s.heap[t].body.nodes| && q in s.heap && q != t
    ensures q in ClearNodes(s, t, i).heap && ClearNodes(s, t, i).heap[q].body == s.heap[q].body
    decreases i
  {
    hide ClearNode, Cleaned, GoodEntry;
    if i > 0 {
      ClearNodeCleans(s, t, i - 1);
      NodeOnly(s, t, i - 1, q);
      NodesOnly(ClearNode(s, t, i - 1), t, i - 1, q);
    }
  }

  lemma NodeOnly(s: State, t: Ref, i: nat, q: Ref)
    requires IsTable(s, t) && i < |s.heap[t].body.nodes| && q in s.heap && q != t
    ensures q in ClearNode(s, t, i).heap && ClearNode(s, t, i).heap[q].body == s.heap[q].body
  {
  }

  lemma TableOnly(s: State, t: Ref, q: Ref)
    requires q in s.heap && q != t
    ensures q in ClearTable(s, t).heap && ClearTable(s, t).heap[q].body == s.heap[q].body
  {
    hide ClearArray, ClearNodes, Cleaned, Good;
    if IsTable(s, t) {
      var b := s.heap[t].body;
      ClearArrayCleans(s, t, |b.arr|);
      ArrayOnly(s, t, |b.arr|, q);
      var s1 := if ModeOf(s.heap, b.meta).values then ClearArray(s, t, |b.arr|) else s;
      NodesOnly(s1, t, |s1.heap[t].body.nodes|, q);
    }
  }

  /** What clearing looks at in a table that has not been cleared, it looks at later. */
  lemma SeenLater(s: State, u: State, t: Ref, r: Ref)
    requires Cleaned(s, u) && Seen(s, t, r) && t in u.heap && u.heap[t].body == s.heap[t].body
    ensures Seen(u, t, r)
  {
    hide InEntry, Lost;
    CleanedMeta(s, u, t);
    if exists e :: e in s.heap[t].body.nodes && InEntry(s, e, r) {
      var e :| e in s.heap[t].body.nodes && InEntry(s, e, r);
      SameEntry(s, u, e, r);
    }
  }

  lemma {:induction false} ClearAllSees(s: State, ts: seq<Ref>, t: Ref, r: Ref)
    requires t in ts && Seen(s, t, r) && r in s.heap && s.heap[r].body.Str?
    requires forall q :: q in ts ==> IsTable(s, q) && StrongReached(s, q)
    ensures MarkedString(ClearAll(s, ts), r)
    decreases |ts|
  {
    hide Cleaned, MarkedString, ClearTable, Seen, StrongReached, Reached;
    var s1 := ClearTable(s, ts[0]);
    ClearTableCleans(s, ts[0]);
    CleanedKeys(s, s1);
    forall q | q in ts[1..] ensures IsTable(s1, q) && StrongReached(s1, q) { CleanedStrongReached(s, s1, q); }
    if ts[0] == t {
      TableSees(s, t, r);
      ClearAllCleans(s1, ts[1..]);
      CleanedMarked(s1, ClearAll(s1, ts[1..]), r);
    } else {
      SeenIsTable(s, t, r);
      TableOnly(s, ts[0], t);
      SeenLater(s, s1, t, r);
      CleanedString(s, s1, r);
      assert t in ts[1..] by { var j :| 0 <= j < |ts| && ts[j] == t; assert ts[1..][j - 1] == t; }
      ClearAllSees(s1, ts[1..], t, r);
    }
  }

  lemma SeenIsTable(s: State, t: Ref, r: Ref)
    requires Seen(s, t, r)
    ensures IsTable(s, t)
  {
  }

  // ----- the atomic step ---------------------------------------------------------------

  /** Finish the mark phase. No object has a finalizer, so none is separated and marked again. */
  function Atomic(s: State): State
    requires Marking(s, {}) && UpvalsListed(s)
  {
    var s1 := AtomicMark(s);
    ClearAll(s1, s1.weak).(white := !s.white, sweepstr := 0, sweep := 0, phase := SweepString)
  }

  /** No object is of the other white. */
  ghost predicate NoneDead(s: State) {
    forall r :: r in s.heap ==> s.heap[r].color != White(!s.white)
  }

  /** Only strings and the main thread are fixed. */
  ghost predicate FixedKinds(s: State) {
    forall r :: r in s.heap && s.heap[r].fixed ==> s.heap[r].body.Str? || r == s.main
  }

  /** The mark phase with its roots. */
  ghost predicate MarkPhase(s: State) {
    && Marking(s, {}) && UpvalsListed(s) && NoneDead(s) && FixedKinds(s)
    && !IsWhite(s, s.main) && (s.registry.Obj? ==> !IsWhite(s, s.registry.r))
  }

  /** The marked heap, before the current white changes. */
  function AtomicCleared(s: State): State
    requires Marking(s, {}) && UpvalsListed(s)
  {
    ClearAll(AtomicMark(s), AtomicMark(s).weak)
  }

  lemma AtomicParts(s: State)
    requires MarkPhase(s)
    ensures var s1, s2 := AtomicMark(s), AtomicCleared(s);
            && Advance(s, s1) && Cleaned(s1, s2) && MarkingComplete(s1) && Marking(s1, {})
            && forall r :: r in s2.heap && !IsWhite(s2, r) ==> Reached(s2, r)
  {
    hide Marking, Reached, StrongReached, Cleaned, AtomicMark, ClearAll, Advance;
    AtomicMarkCompletes(s);
    var s1 := AtomicMark(s);
    WeakAreTables(s1);
    ClearAllCleans(s1, s1.weak);
    var s2 := ClearAll(s1, s1.weak);
    CleanedKeys(s1, s2);
    forall r | r in s2.heap && !IsWhite(s2, r) ensures Reached(s2, r) {
      if IsWhite(s1, r) {
        StringMarked(s1, s2, r);
      } else if r !in s1.weak {
        CleanedReached(s1, s2, r);
      }
    }
  }

  lemma WeakAreTables(s: State)
    requires Marking(s, {}) && MarkingComplete(s)
    ensures forall t :: t in s.weak ==> IsTable(s, t) && StrongReached(s, t)
  {
    hide Reached, StrongReached;
  }

  lemma StringMarked(s: State, t: State, r: Ref)
    requires Cleaned(s, t) && IsWhite(s, r) && !IsWhite(t, r)
    ensures Reached(t, r)
  {
  }

  /** The atomic step restores the central invariant for the new white: what was marked is alive,
      and refers only to what was marked, weakly or not. */
  lemma AtomicCloses(s: State)
    requires MarkPhase(s) && Closed(s)
    ensures Closed(Atomic(s))
  {
    hide Marking, Reached, StrongReached, Cleaned, AtomicMark, ClearAll, Advance, Contents;
    AtomicParts(s);
    var s1, s2, t := AtomicMark(s), AtomicCleared(s), Atomic(s);
    AtomicKeys(s, s1, s2, t);
    forall r, q | Alive(t, r) && Refers(t.heap, r, q) ensures Alive(t, q) {
      NoContents(t.heap, r, q);
      ReachedRefers(s2, r, q);
      StillThere(s, s1, s2, r, q);
    }
    forall q | Obj(q) in Roots(t) ensures Alive(t, q) {
      assert Obj(q) in Roots(s1) && Obj(q) in Roots(s);
      CleanedGood(s1, s2, Obj(q));
    }
  }

  lemma NoContents(h: Heap, r: Ref, q: Ref)
    requires Refers(h, r, q)
    ensures !h[r].body.Str?
  {
  }

  lemma AtomicKeys(s: State, s1: State, s2: State, t: State)
    requires MarkPhase(s) && Advance(s, s1) && Cleaned(s1, s2) && MarkingComplete(s1)
    requires t == s2.(white := !s.white, sweepstr := 0, sweep := 0, phase := SweepString)
    ensures s.heap.Keys == s1.heap.Keys == s2.heap.Keys == t.heap.Keys
    ensures forall r :: Alive(t, r) ==> !IsWhite(s2, r) || s2.heap[r].body.Str?
    ensures forall r :: r in s2.heap && !IsWhite(s2, r) ==> Alive(t, r)
    ensures Roots(t) == Roots(s) == Roots(s1)
  {
    hide Reached, StrongReached, Marking;
    forall r | Alive(t, r) && IsWhite(s2, r) ensures s2.heap[r].body.Str? {
      assert s2.heap[r].color == s.heap[r].color == White(s.white);
      assert Obj(s.main) in Roots(s1);
    }
  }

  lemma ReachedRefers(s: State, r: Ref, q: Ref)
    requires Reached(s, r) && Refers(s.heap, r, q)
    ensures !IsWhite(s, q)
  {
  }

  lemma StillThere(s: State, s1: State, s2: State, r: Ref, q: Ref)
    requires Advance(s, s1) && Cleaned(s1, s2) && Closed(s) && NoneDead(s) && Refers(s2.heap, r, q)
    ensures q in s2.heap
  {
    CleanedContents(s1, s2, r, Obj(q));
    ShapeKeepsContents(s, s1.(gray := s.gray, grayagain := s.grayagain, weak := s.weak), s.heap[r].body, STRONG);
    assert Refers(s.heap, r, q) && Alive(s, r);
  }

  /** The value is an object, not a string, that nothing holds strongly. */
  ghost predicate Unheld(s: State, v: Value) {
    v.Obj? && v.r in s.heap && !s.heap[v.r].body.Str? && !StrongReachable(s, v.r)
  }

  /** A weak table loses only entries with a key or a value that is an object, not a string, and not
      reachable without weak references; nothing else changes in any object. */
  lemma OnlyUnreachableCleared(s: State, t: Ref)
    requires MarkPhase(s) && Closed(s) && t in s.heap
    ensures t in Atomic(s).heap
    ensures var b, c := s.heap[t].body, Atomic(s).heap[t].body;
            if b.Table? then
              && c.Table? && c.meta == b.meta && c.mode == b.mode && |c.arr| == |b.arr| && |c.nodes| == |b.nodes|
              && (forall i :: 0 <= i < |b.arr| && c.arr[i] != b.arr[i] ==>
                    c.arr[i] == Nil && Unheld(s, b.arr[i]))
              && (forall i :: 0 <= i < |b.nodes| && c.nodes[i] != b.nodes[i] ==>
                    c.nodes[i] == (b.nodes[i].0, Nil) && (Unheld(s, b.nodes[i].0) || Unheld(s, b.nodes[i].1)))
            else c == b
  {
    hide Marking, Reached, StrongReached, AtomicMark, ClearAll, StrongReachable, StrongPath;
    AtomicParts(s);
    var s1, s2 := AtomicMark(s), AtomicCleared(s);
    forall v | Lost(s1, v) ensures Unheld(s, v) {
      if StrongReachable(s, v.r) { ReachableMarked(s, s1, v.r); }
    }
    assert Shrunk(s1, s1.heap[t].body, s2.heap[t].body);
  }

  lemma ReachableMarked(s: State, s1: State, r: Ref)
    requires MarkPhase(s) && Closed(s) && Advance(s, s1) && MarkingComplete(s1) && StrongReachable(s, r)
    ensures r in s1.heap && !IsWhite(s1, r)
  {
    hide Marking, StrongReached, Reached;
    var p :| StrongPath(s, p, r);
    SamePaths(s, s1, p, r);
    AdvanceClosedState(s, s1);
    StrongPathMarked(s1, p, r);
  }

  lemma SamePaths(s: State, t: State, p: seq<Ref>, r: Ref)
    requires Advance(s, t) && StrongPath(s, p, r)
    ensures StrongPath(t, p, r)
  {
    var u := t.(gray := s.gray, grayagain := s.grayagain, weak := s.weak);
    forall q, x | StrongRefers(s.heap, q, x) ensures StrongRefers(t.heap, q, x) {
      ShapeKeepsContents(s, u, s.heap[q].body, STRONG);
    }
  }

  lemma AdvanceClosedState(s: State, t: State)
    requires Advance(s, t) && Closed(s) && NoneDead(s)
    ensures Closed(t)
  {
    hide Contents;
    var u := t.(gray := s.gray, grayagain := s.grayagain, weak := s.weak);
    forall r | r in s.heap ensures !Dead(t, r) {
      assert s.heap[r].color.White? ==> t.heap[r].color == s.heap[r].color || !t.heap[r].color.White?;
    }
    forall r, q | Alive(t, r) && Refers(t.heap, r, q) ensures Alive(t, q) {
      ShapeKeepsContents(s, u, s.heap[r].body, STRONG);
      assert Refers(s.heap, r, q);
    }
  }
}

/** Final adjustments of a pattern tree in its array of slots: chains of sequences and choices
    become right associative, and open calls get the position of their rule. */
module TreeFix {
  import opened Peg
  import Accept

  datatype Tag =
    | TChar | TSet | TAny | TTrue | TFalse | TRep | TSeq | TChoice | TNot | TAnd | TCall | TOpenCall
    | TRule | TGrammar | TBehind | TCapture | TBuffer

  /** A slot. 'n' is the counter or the relative position of the second sibling. A set keeps its
      members here and takes SETSLOTS more slots for them. */
  datatype Slot = Slot(tag: Tag, cap: nat, key: int, n: int, cs: Charset)

  const SETSLOTS: nat := 4

  predicate OneSibling(t: Tree) {
    t.Rep? || t.Not? || t.And? || t.Behind? || t.Capture?
  }

  predicate TwoSiblings(t: Tree) {
    t.Seq? || t.Choice?
  }

  function Size(t: Tree): (r: nat)
    ensures r >= 1
    decreases t, 0
  {
    if OneSibling(t) then 1 + Size(t.body)
    else if TwoSiblings(t) then 1 + Size(t.p1) + Size(t.p2)
    else if t.Grammar? then 1 + RulesSize(t.rules)
    else if t.Set? then 1 + SETSLOTS
    else 1
  }

  /** The rules one after the other, then a TTrue. */
  function RulesSize(rs: seq<Tree>): (r: nat)
    ensures r >= 1
    decreases rs, 1
  {
    if rs == [] then 1 else 1 + Size(rs[0]) + RulesSize(rs[1..])
  }

  /** The slots behind that of a set hold its 32 bytes, eight to a slot, and no more. */
  lemma SetSlots(cs: Charset)
    ensures 8 * (Size(Set(cs)) - 1) == 32
  {
  }

  /** The slot of a node, without its siblings. Fields that the node does not use may hold
      anything. Calls are still open, or they have been fixed and keep the key of their rule. */
  predicate SlotOf(s: Slot, t: Tree, open: bool) {
    match t
    case Char(b) => s.tag == TChar && s.n == b
    case Set(cs) => s.tag == TSet && s.cs == cs
    case AnyChar => s.tag == TAny
    case True => s.tag == TTrue
    case False => s.tag == TFalse
    case Rep(_) => s.tag == TRep
    case Not(_) => s.tag == TNot
    case And(_) => s.tag == TAnd
    case Behind(m, _) => s.tag == TBehind && s.n == m
    case Capture(kind, key, _) => s.tag == TCapture && s.cap == kind && s.key == key
    case Seq(p1, _) => s.tag == TSeq && s.n == 1 + Size(p1)
    case Choice(p1, _) => s.tag == TChoice && s.n == 1 + Size(p1)
    case Call(k) => s.tag == (if open then TOpenCall else TCall) && s.key == k
    case Grammar(_) => s.tag == TGrammar
  }

  /** The slots from 'i' on hold the tree. In a sub-grammar all calls have been fixed. */
  predicate Holds(c: seq<Slot>, i: nat, t: Tree, open: bool)
    decreases t, 0
  {
    i + Size(t) <= |c| && SlotOf(c[i], t, open) &&
    if OneSibling(t) then Holds(c, i + 1, t.body, open)
    else if TwoSiblings(t) then Holds(c, i + 1, t.p1, open) && Holds(c, i + 1 + Size(t.p1), t.p2, open)
    else t.Grammar? ==> HoldsRules(c, i + 1, t.rules)
  }

  predicate HoldsRules(c: seq<Slot>, i: nat, rs: seq<Tree>)
    decreases rs, 1
  {
    i + RulesSize(rs) <= |c| &&
    if rs == [] then c[i].tag == TTrue
    else
      && c[i].tag == TRule && c[i].n == 1 + Size(rs[0])
      && Holds(c, i + 1, rs[0], false) && HoldsRules(c, i + 1 + Size(rs[0]), rs[1..])
  }

  /** The same 'm' slots stand at 'i' in 'c' and at 'j' in 'd'. */
  predicate Block(c: seq<Slot>, i: nat, d: seq<Slot>, j: nat, m: nat) {
    i + m <= |c| && j + m <= |d| && forall x {:trigger c[x]} :: i <= x < i + m ==> c[x] == d[x + j - i]
  }

  lemma SubBlock(c: seq<Slot>, i: nat, d: seq<Slot>, j: nat, m: nat, off: nat, k: nat)
    requires Block(c, i, d, j, m) && off + k <= m
    ensures Block(c, i + off, d, j + off, k)
  {
  }

  lemma FirstSlot(c: seq<Slot>, i: nat, d: seq<Slot>, j: nat, m: nat)
    requires Block(c, i, d, j, m) && m > 0
    ensures i + m <= |c| && j + m <= |d| && c[i] == d[j]
  {
  }

  /** A tree can be moved as a block. */
  lemma {:induction false} HoldsMoved(c: seq<Slot>, i: nat, d: seq<Slot>, j: nat, t: Tree, open: bool)
    requires Holds(c, i, t, open) && Block(c, i, d, j, Size(t))
    ensures Holds(d, j, t, open)
    decreases t, 0
  {
    hide Block, SlotOf, Holds, HoldsRules, Size, RulesSize;
    OpenHolds(c, i, t, open);
    FirstSlot(c, i, d, j, Size(t));
    if OneSibling(t) {
      SubBlock(c, i, d, j, Size(t), 1, Size(t.body));
      HoldsMoved(c, i + 1, d, j + 1, t.body, open);
    } else if TwoSiblings(t) {
      SubBlock(c, i, d, j, Size(t), 1, Size(t.p1));
      HoldsMoved(c, i + 1, d, j + 1, t.p1, open);
      SubBlock(c, i, d, j, Size(t), 1 + Size(t.p1), Size(t.p2));
      HoldsMoved(c, i + 1 + Size(t.p1), d, j + 1 + Size(t.p1), t.p2, open);
    } else if t.Grammar? {
      SubBlock(c, i, d, j, Size(t), 1, RulesSize(t.rules));
      RulesMoved(c, i + 1, d, j + 1, t.rules);
    }
    CloseHolds(d, j, t, open);
  }

  /** What a tree in the slots means for its siblings. */
  ghost predicate Siblings(c: seq<Slot>, i: nat, t: Tree, open: bool) {
    && (OneSibling(t) ==> Holds(c, i + 1, t.body, open))
    && (TwoSiblings(t) ==> Holds(c, i + 1, t.p1, open) && Holds(c, i + 1 + Size(t.p1), t.p2, open))
    && (t.Grammar? ==> HoldsRules(c, i + 1, t.rules))
  }

  lemma OpenHolds(c: seq<Slot>, i: nat, t: Tree, open: bool)
    requires Holds(c, i, t, open)
    ensures i + Size(t) <= |c| && SlotOf(c[i], t, open) && Siblings(c, i, t, open)
    ensures OneSibling(t) ==> Size(t) == 1 + Size(t.body)
    ensures TwoSiblings(t) ==> Size(t) == 1 + Size(t.p1) + Size(t.p2)
    ensures t.Grammar? ==> Size(t) == 1 + RulesSize(t.rules)
  {
    hide SlotOf, Size, RulesSize, HoldsRules;
    SizeParts(t);
  }

  lemma SizeParts(t: Tree)
    ensures OneSibling(t) ==> Size(t) == 1 + Size(t.body)
    ensures TwoSiblings(t) ==> Size(t) == 1 + Size(t.p1) + Size(t.p2)
    ensures t.Grammar? ==> Size(t) == 1 + RulesSize(t.rules)
  {
  }

  lemma CloseHolds(c: seq<Slot>, i: nat, t: Tree, open: bool)
    requires i + Size(t) <= |c| && SlotOf(c[i], t, open) && Siblings(c, i, t, open)
    ensures Holds(c, i, t, open)
  {
    hide SlotOf, Size;
  }

  lemma {:induction false} RulesMoved(c: seq<Slot>, i: nat, d: seq<Slot>, j: nat, rs: seq<Tree>)
    requires HoldsRules(c, i, rs) && Block(c, i, d, j, RulesSize(rs))
    ensures HoldsRules(d, j, rs)
    decreases rs, 1
  {
    hide Block, SlotOf, Holds, Size;
    FirstSlot(c, i, d, j, RulesSize(rs));
    if rs != [] {
      SubBlock(c, i, d, j, RulesSize(rs), 1, Size(rs[0]));
      HoldsMoved(c, i + 1, d, j + 1, rs[0], false);
      SubBlock(c, i, d, j, RulesSize(rs), 1 + Size(rs[0]), RulesSize(rs[1..]));
      RulesMoved(c, i + 1 + Size(rs[0]), d, j + 1 + Size(rs[0]), rs[1..]);
    }
  }

  // ----- reassociation on trees --------------------------------------------------------

  predicate SameOp(t: Tree, u: Tree) {
    (t.Seq? && u.Seq?) || (t.Choice? && u.Choice?)
  }

  function Op(t: Tree, p1: Tree, p2: Tree): (r: Tree)
    requires TwoSiblings(t)
    ensures SameOp(r, t) && r.p1 == p1 && r.p2 == p2
  {
    t.(p1 := p1, p2 := p2)
  }

  /** (t11 op t12) op t2  =>  t11 op (t12 op t2). */
  function RotateStep(t: Tree): (r: Tree)
    requires TwoSiblings(t) && SameOp(t.p1, t)
    ensures SameOp(r, t) && Size(r) == Size(t) && Size(r.p1) < Size(t.p1)
  {
    assert Size(Op(t, t.p1.p2, t.p2)) == 1 + Size(t.p1.p2) + Size(t.p2);
    Op(t, t.p1.p1, Op(t, t.p1.p2, t.p2))
  }

  /** All rotations at the root. */
  function Rotate(t: Tree): (r: Tree)
    requires TwoSiblings(t)
    ensures SameOp(r, t) && !SameOp(r.p1, r) && Size(r) == Size(t)
    decreases Size(t.p1)
  {
    if SameOp(t.p1, t) then Rotate(RotateStep(t)) else t
  }

  /** The tree after all rotations; sub-grammars have been fixed before. */
  function Fixed(t: Tree): Tree
    decreases Size(t)
  {
    if OneSibling(t) then t.(body := Fixed(t.body))
    else if TwoSiblings(t) then var r := Rotate(t); Op(t, Fixed(r.p1), Fixed(r.p2))
    else t
  }

  /** No sequence (choice) has a sequence (choice) as its first child. */
  predicate RightAssociative(t: Tree) {
    if OneSibling(t) then RightAssociative(t.body)
    else TwoSiblings(t) ==> !SameOp(t.p1, t) && RightAssociative(t.p1) && RightAssociative(t.p2)
  }

  /** The operands of a chain of the same operator, from left to right. */
  function Operands(t: Tree, like: Tree): seq<Tree> {
    if SameOp(t, like) then Operands(t.p1, like) + Operands(t.p2, like) else [t]
  }

  lemma {:induction false} FixedKeepsRoot(t: Tree)
    ensures Size(Fixed(t)) == Size(t)
    ensures Fixed(t).Seq? == t.Seq? && Fixed(t).Choice? == t.Choice?
    decreases Size(t)
  {
    if OneSibling(t) {
      FixedKeepsRoot(t.body);
    } else if TwoSiblings(t) {
      FixedKeepsRoot(Rotate(t).p1); FixedKeepsRoot(Rotate(t).p2);
    }
  }

  lemma {:induction false} FixedIsRightAssociative(t: Tree)
    ensures RightAssociative(Fixed(t))
    decreases Size(t)
  {
    if OneSibling(t) {
      FixedIsRightAssociative(t.body);
    } else if TwoSiblings(t) {
      var r := Rotate(t);
      FixedIsRightAssociative(r.p1); FixedIsRightAssociative(r.p2); FixedKeepsRoot(r.p1);
    }
  }

  /** Rotations keep the operands and their order. */
  lemma {:induction false} RotateKeepsOperands(t: Tree)
    requires TwoSiblings(t)
    ensures Operands(Rotate(t), t) == Operands(t, t)
    decreases Size(t.p1)
  {
    hide Operands;
    if SameOp(t.p1, t) {
      var u := RotateStep(t);
      RotateKeepsOperands(u);
      LikeSame(Rotate(u), u, t);
      LikeSame(u, u, t);
      OperandsTwo(t, t);
      OperandsTwo(t.p1, t);
      OperandsTwo(u, t);
      OperandsTwo(u.p2, t);
      CatAssoc(Operands(t.p1.p1, t), Operands(t.p1.p2, t), Operands(t.p2, t));
    }
  }

  lemma OperandsTwo(t: Tree, like: Tree)
    requires SameOp(t, like)
    ensures Operands(t, like) == Operands(t.p1, like) + Operands(t.p2, like)
  {
  }

  lemma {:induction false} LikeSame(t: Tree, u: Tree, v: Tree)
    requires SameOp(u, v)
    ensures Operands(t, u) == Operands(t, v)
    decreases t
  {
    if SameOp(t, u) { LikeSame(t.p1, u, v); LikeSame(t.p2, u, v); }
  }

  /** Rotations keep the meaning, captures included. */
  lemma {:induction false} RotateKeepsMeaning(g: seq<Tree>, s: Subject, t: Tree, i: nat, n: nat)
    requires TwoSiblings(t)
    ensures Eval(g, s, Rotate(t), i, n) == Eval(g, s, t, i, n)
    decreases Size(t.p1)
  {
    hide Eval;
    if SameOp(t.p1, t) {
      RotateKeepsMeaning(g, s, RotateStep(t), i, n);
      OneRotation(g, s, t, i, n);
    }
  }

  lemma OneRotation(g: seq<Tree>, s: Subject, t: Tree, i: nat, n: nat)
    requires TwoSiblings(t) && SameOp(t.p1, t)
    ensures Eval(g, s, RotateStep(t), i, n) == Eval(g, s, t, i, n)
  {
    if t.Seq? {
      var a, b, c := t.p1.p1, t.p1.p2, t.p2;
      var r1 := Eval(g, s, a, i, n);
      if r1.Matched? {
        var r2 := Eval(g, s, b, r1.end, n);
        assert Eval(g, s, Seq(b, c), r1.end, n) ==
               if r2.Matched? then
                 var r3 := Eval(g, s, c, r2.end, n);
                 if r3.Matched? then Matched(r3.end, r2.caps + r3.caps) else r3
               else r2;
        if r2.Matched? {
          var r3 := Eval(g, s, c, r2.end, n);
          if r3.Matched? { assert r1.caps + (r2.caps + r3.caps) == (r1.caps + r2.caps) + r3.caps; }
        }
      }
    }
  }

  /** Rules whose bodies have been fixed mean the same. */
  predicate SameRules(g: seq<Tree>, h: seq<Tree>) {
    |g| == |h| && forall k :: 0 <= k < |g| ==> h[k] == Fixed(g[k])
  }

  /** The final adjustments keep matching behaviour: for every subject, position and budget, the
      adjusted pattern in the adjusted grammar has the same outcome. */
  lemma {:induction false} FixedKeepsMeaning(g: seq<Tree>, h: seq<Tree>, s: Subject, t: Tree, i: nat, n: nat)
    requires SameRules(g, h)
    ensures Eval(h, s, Fixed(t), i, n) == Eval(g, s, t, i, n)
    decreases n, Size(t)
  {
    hide Rotate, Eval;
    match t
    case Seq(_, _) =>
      var r := Rotate(t);
      RotateKeepsMeaning(g, s, t, i, n);
      FixedKeepsMeaning(g, h, s, r.p1, i, n);
      var r1 := Eval(g, s, r.p1, i, n);
      if r1.Matched? { FixedKeepsMeaning(g, h, s, r.p2, r1.end, n); }
      SamePair(g, h, s, r, Fixed(t), i, n);
    case Choice(_, _) =>
      var r := Rotate(t);
      RotateKeepsMeaning(g, s, t, i, n);
      FixedKeepsMeaning(g, h, s, r.p1, i, n);
      FixedKeepsMeaning(g, h, s, r.p2, i, n);
      SamePair(g, h, s, r, Fixed(t), i, n);
    case Rep(p) =>
      FixedKeepsMeaning(g, h, s, p, i, n);
      var r1 := Eval(g, s, p, i, n);
      if r1.Matched? && n > 0 { FixedKeepsMeaning(g, h, s, t, r1.end, n - 1); }
      SameRep(g, h, s, t, Fixed(t), i, n);
    case Not(p) => FixedKeepsMeaning(g, h, s, p, i, n); SameWrap(g, h, s, t, Fixed(t), i, n);
    case And(p) => FixedKeepsMeaning(g, h, s, p, i, n); SameWrap(g, h, s, t, Fixed(t), i, n);
    case Behind(m, p) =>
      if m <= i { FixedKeepsMeaning(g, h, s, p, i - m, n); }
      SameWrap(g, h, s, t, Fixed(t), i, n);
    case Capture(_, _, p) => FixedKeepsMeaning(g, h, s, p, i, n); SameWrap(g, h, s, t, Fixed(t), i, n);
    case Call(k) =>
      if k < |g| && n > 0 { FixedKeepsMeaning(g, h, s, g[k], i, n - 1); }
      SameLeaf(g, h, s, t, i, n);
    case _ => SameLeaf(g, h, s, t, i, n);
  }

  /** Trees with parts of the same meaning have the same meaning. */
  lemma SamePair(g: seq<Tree>, h: seq<Tree>, s: Subject, t: Tree, u: Tree, i: nat, n: nat)
    requires (t.Seq? && u.Seq?) || (t.Choice? && u.Choice?)
    requires Eval(h, s, u.p1, i, n) == Eval(g, s, t.p1, i, n)
    requires var r1 := Eval(g, s, t.p1, i, n);
             && (t.Seq? && r1.Matched? ==> Eval(h, s, u.p2, r1.end, n) == Eval(g, s, t.p2, r1.end, n))
             && (t.Choice? ==> Eval(h, s, u.p2, i, n) == Eval(g, s, t.p2, i, n))
    ensures Eval(h, s, u, i, n) == Eval(g, s, t, i, n)
  {
  }

  lemma SameRep(g: seq<Tree>, h: seq<Tree>, s: Subject, t: Tree, u: Tree, i: nat, n: nat)
    requires t.Rep? && u.Rep? && Eval(h, s, u.body, i, n) == Eval(g, s, t.body, i, n)
    requires var r1 := Eval(g, s, t.body, i, n);
             r1.Matched? && n > 0 ==> Eval(h, s, u, r1.end, n - 1) == Eval(g, s, t, r1.end, n - 1)
    ensures Eval(h, s, u, i, n) == Eval(g, s, t, i, n)
  {
  }

  lemma SameWrap(g: seq<Tree>, h: seq<Tree>, s: Subject, t: Tree, u: Tree, i: nat, n: nat)
    requires (t.Not? && u.Not?) || (t.And? && u.And?) || (t.Behind? && u.Behind? && t.n == u.n)
             || (t.Capture? && u.Capture? && t.kind == u.kind && t.key == u.key)
    requires var at := if t.Behind? then i - t.n else i;
             at >= 0 ==> Eval(h, s, u.body, at, n) == Eval(g, s, t.body, at, n)
    ensures Eval(h, s, u, i, n) == Eval(g, s, t, i, n)
  {
  }

  lemma SameLeaf(g: seq<Tree>, h: seq<Tree>, s: Subject, t: Tree, i: nat, n: nat)
    requires t.Char? || t.Set? || t.AnyChar? || t.True? || t.False? || t.Grammar? || t.Call?
    requires t.Call? ==> |h| == |g|
    requires t.Call? && t.rule < |g| && n > 0 ==> Eval(h, s, h[t.rule], i, n - 1) == Eval(g, s, g[t.rule], i, n - 1)
    ensures Eval(h, s, t, i, n) == Eval(g, s, t, i, n)
  {
  }

  // ----- in place ----------------------------------------------------------------------

  /** Only the 'm' slots from 'i' on may differ. */
  ghost predicate Elsewhere(c: seq<Slot>, d: seq<Slot>, i: nat, m: nat) {
    |d| == |c| && i + m <= |c| && forall x :: 0 <= x < i || i + m <= x < |c| ==> d[x] == c[x]
  }

  lemma ElsewhereRefl(c: seq<Slot>, i: nat, m: nat)
    requires i + m <= |c|
    ensures Elsewhere(c, c, i, m)
  {
  }

  lemma ElsewhereTrans(c: seq<Slot>, d: seq<Slot>, e: seq<Slot>, i: nat, m: nat, j: nat, k: nat)
    requires Elsewhere(c, d, i, m) && Elsewhere(d, e, j, k) && i <= j && j + k <= i + m
    ensures Elsewhere(c, e, i, m)
  {
  }

  lemma ElsewhereBlock(c: seq<Slot>, d: seq<Slot>, i: nat, m: nat, j: nat, k: nat)
    requires Elsewhere(c, d, i, m) && (j + k <= i || (i + m <= j && j + k <= |c|))
    ensures Block(c, j, d, j, k)
  {
  }

  /** Reassociate the chain at slot 'i', which holds 't'. */
  method CorrectAssociativity(a: array<Slot>, i: nat, ghost t: Tree)
    requires TwoSiblings(t) && Holds(a[..], i, t, true)
    modifies a
    ensures Holds(a[..], i, Rotate(t), true)
    ensures Elsewhere(old(a[..]), a[..], i, Size(t))
  {
    hide Elsewhere, Holds, Size;
    ghost var now := t;
    Parts(a[..], i, t, true);
    ElsewhereRefl(a[..], i, Size(t));
    while a[i + 1].tag == a[i].tag
      invariant TwoSiblings(now) && Holds(a[..], i, now, true)
      invariant Size(now) == Size(t) && Rotate(now) == Rotate(t)
      invariant i + Size(t) <= a.Length && Size(t) >= 3
      invariant Elsewhere(old(a[..]), a[..], i, Size(t))
      decreases Size(now.p1)
    {
      ghost var before := a[..];
      now := RotateOnce(a, i, now);
      ElsewhereTrans(old(a[..]), before, a[..], i, Size(t), i, Size(t));
    }
    Parts(a[..], i, now, true);
    RootTag(a[..], i + 1, now.p1, now);
  }

  /** One rotation: t11 moves one slot back, a new node takes the slot before t12. */
  method RotateOnce(a: array<Slot>, i: nat, ghost t: Tree) returns (ghost u: Tree)
    requires TwoSiblings(t) && Holds(a[..], i, t, true)
    requires i + 1 < a.Length && a[i + 1].tag == a[i].tag
    modifies a
    ensures SameOp(t.p1, t) && u == RotateStep(t)
    ensures Holds(a[..], i, u, true) && Elsewhere(old(a[..]), a[..], i, Size(t))
  {
    hide Holds, Size, RotateStep;
    ghost var c := a[..];
    Parts(c, i, t, true);
    RootTag(c, i + 1, t.p1, t);
    Parts(c, i + 1, t.p1, true);
    var n1size := a[i].n - 1;
    var n11size := a[i + 1].n - 1;
    var n12size := n1size - n11size - 1;
    forall x | 0 <= x < n11size { a[i + 1 + x] := a[i + 2 + x]; }
    a[i] := a[i].(n := n11size + 1);
    var second := i + n11size + 1;
    a[second] := a[second].(tag := a[i].tag, n := n12size + 1);
    u := RotateStep(t);
    Rotated(c, a[..], i, t);
  }

  /** What the slots hold after the moves of one rotation. */
  lemma Rotated(c: seq<Slot>, d: seq<Slot>, i: nat, t: Tree)
    requires TwoSiblings(t) && SameOp(t.p1, t) && Holds(c, i, t, true) && |d| == |c|
    requires var n11, n12 := Size(t.p1.p1), Size(t.p1.p2);
             && i + 2 + n11 < |c|
             && d[i] == c[i].(n := n11 + 1)
             && Block(c, i + 2, d, i + 1, n11)
             && d[i + 1 + n11].tag == c[i].tag && d[i + 1 + n11].n == n12 + 1
             && Elsewhere(c, d, i, 2 + n11)
    ensures Holds(d, i, RotateStep(t), true) && Elsewhere(c, d, i, Size(t))
  {
    hide Holds, Size, Block, Elsewhere, Op, SlotOf;
    var n11, n12 := Size(t.p1.p1), Size(t.p1.p2);
    MovedParts(c, d, i, t);
    Parts(c, i, t, true);
    Parts(c, i + 1, t.p1, true);
    ElsewhereRefl(c, i, Size(t));
    ElsewhereTrans(c, c, d, i, Size(t), i, 2 + n11);
    Assemble(d, i + 1 + n11, t, t.p1.p2, t.p2, true);
    Assemble(d, i, t, t.p1.p1, Op(t, t.p1.p2, t.p2), true);
  }

  lemma MovedParts(c: seq<Slot>, d: seq<Slot>, i: nat, t: Tree)
    requires TwoSiblings(t) && SameOp(t.p1, t) && Holds(c, i, t, true)
    requires Block(c, i + 2, d, i + 1, Size(t.p1.p1)) && Elsewhere(c, d, i, 2 + Size(t.p1.p1))
    ensures var n11, n12 := Size(t.p1.p1), Size(t.p1.p2);
            && Holds(d, i + 1, t.p1.p1, true) && Holds(d, i + 2 + n11, t.p1.p2, true)
            && Holds(d, i + 2 + n11 + n12, t.p2, true)
  {
    hide Holds, Size, Block, Elsewhere;
    var n11, n12 := Size(t.p1.p1), Size(t.p1.p2);
    Parts(c, i, t, true);
    Parts(c, i + 1, t.p1, true);
    ElsewhereBlock(c, d, i, 2 + n11, i + 2 + n11, n12);
    ElsewhereBlock(c, d, i, 2 + n11, i + 2 + n11 + n12, Size(t.p2));
    HoldsMoved(c, i + 2, d, i + 1, t.p1.p1, true);
    HoldsMoved(c, i + 2 + n11, d, i + 2 + n11, t.p1.p2, true);
    HoldsMoved(c, i + 2 + n11 + n12, d, i + 2 + n11 + n12, t.p2, true);
  }

  lemma Parts(c: seq<Slot>, i: nat, t: Tree, open: bool)
    requires TwoSiblings(t) && Holds(c, i, t, open)
    ensures i + Size(t) <= |c| && Size(t) == 1 + Size(t.p1) + Size(t.p2)
    ensures c[i].tag == (if t.Seq? then TSeq else TChoice) && c[i].n == 1 + Size(t.p1)
    ensures Holds(c, i + 1, t.p1, open) && Holds(c, i + 1 + Size(t.p1), t.p2, open)
  {
  }

  lemma Assemble(c: seq<Slot>, i: nat, t: Tree, p1: Tree, p2: Tree, open: bool)
    requires TwoSiblings(t)
    requires i + 1 + Size(p1) + Size(p2) <= |c|
    requires c[i].tag == (if t.Seq? then TSeq else TChoice) && c[i].n == 1 + Size(p1)
    requires Holds(c, i + 1, p1, open) && Holds(c, i + 1 + Size(p1), p2, open)
    ensures Holds(c, i, Op(t, p1, p2), open) && Size(Op(t, p1, p2)) == 1 + Size(p1) + Size(p2)
  {
  }

  lemma RootTag(c: seq<Slot>, i: nat, p: Tree, t: Tree)
    requires Holds(c, i, p, true) && TwoSiblings(t)
    ensures i < |c| && (SameOp(p, t) <==> c[i].tag == (if t.Seq? then TSeq else TChoice))
  {
  }

  /** Every call of the tree, outside sub-grammars, has a rule. */
  predicate KeysKnown(t: Tree, postable: map<int, int>) {
    if OneSibling(t) then KeysKnown(t.body, postable)
    else if TwoSiblings(t) then KeysKnown(t.p1, postable) && KeysKnown(t.p2, postable)
    else t.Call? ==> t.rule in postable
  }

  /** Every call points to its rule: its own slot plus its offset is the rule's slot. */
  predicate CallsFixed(c: seq<Slot>, i: nat, t: Tree, g: int, postable: map<int, int>)
    requires i + Size(t) <= |c|
    decreases t
  {
    if OneSibling(t) then CallsFixed(c, i + 1, t.body, g, postable)
    else if TwoSiblings(t) then
      CallsFixed(c, i + 1, t.p1, g, postable) && CallsFixed(c, i + 1 + Size(t.p1), t.p2, g, postable)
    else t.Call? ==> t.rule in postable && i + c[i].n == g + postable[t.rule]
  }

  lemma {:induction false} CallsFixedKept(c: seq<Slot>, d: seq<Slot>, i: nat, t: Tree, g: int, postable: map<int, int>)
    requires Block(c, i, d, i, Size(t)) && CallsFixed(c, i, t, g, postable)
    ensures CallsFixed(d, i, t, g, postable)
    decreases t
  {
    hide Block;
    FirstSlot(c, i, d, i, Size(t));
    if OneSibling(t) {
      SubBlock(c, i, d, i, Size(t), 1, Size(t.body));
      CallsFixedKept(c, d, i + 1, t.body, g, postable);
    } else if TwoSiblings(t) {
      SubBlock(c, i, d, i, Size(t), 1, Size(t.p1));
      SubBlock(c, i, d, i, Size(t), 1 + Size(t.p1), Size(t.p2));
      CallsFixedKept(c, d, i + 1, t.p1, g, postable);
      CallsFixedKept(c, d, i + 1 + Size(t.p1), t.p2, g, postable);
    }
  }

  lemma {:induction false} KeysOfRotation(t: Tree, postable: map<int, int>)
    requires TwoSiblings(t)
    ensures KeysKnown(Rotate(t), postable) == KeysKnown(t, postable)
    decreases Size(t.p1)
  {
    if SameOp(t.p1, t) { KeysOfRotation(RotateStep(t), postable); }
  }

  /** The slots hold the adjusted tree, and each of its calls points to its rule. */
  ghost predicate FixedAt(c: seq<Slot>, i: nat, t: Tree, g: int, postable: map<int, int>) {
    Holds(c, i, Fixed(t), false) && CallsFixed(c, i, Fixed(t), g, postable)
  }

  // ----- keys of rules ---------------------------------------------------------------------

  /** The key of the rule at offset 'off' after the calls of the tree have been fixed: that of the last
      call of the rule, if there is one. */
  function KeyAfter(t: Tree, postable: map<int, int>, off: int, key: int): int {
    if OneSibling(t) then KeyAfter(t.body, postable, off, key)
    else if TwoSiblings(t) then KeyAfter(t.p2, postable, off, KeyAfter(t.p1, postable, off, key))
    else if t.Call? && t.rule in postable && postable[t.rule] == off then t.rule else key
  }

  lemma {:induction false} KeyOfRotation(t: Tree, postable: map<int, int>, off: int, key: int)
    requires TwoSiblings(t)
    ensures KeyAfter(Rotate(t), postable, off, key) == KeyAfter(t, postable, off, key)
    decreases Size(t.p1)
  {
    if SameOp(t.p1, t) {
      var u := RotateStep(t);
      KeyOfRotation(u, postable, off, key);
      KeyOfPair(t, postable, off, key);
      KeyOfPair(t.p1, postable, off, key);
      KeyOfPair(u, postable, off, key);
      KeyOfPair(u.p2, postable, off, KeyAfter(u.p1, postable, off, key));
    }
  }

  lemma KeyOfPair(t: Tree, postable: map<int, int>, off: int, key: int)
    requires TwoSiblings(t)
    ensures KeyAfter(t, postable, off, key) == KeyAfter(t.p2, postable, off, KeyAfter(t.p1, postable, off, key))
  {
  }

  lemma {:induction false} KeyOfFixed(t: Tree, postable: map<int, int>, off: int, key: int)
    ensures KeyAfter(Fixed(t), postable, off, key) == KeyAfter(t, postable, off, key)
    decreases Size(t)
  {
    hide Rotate;
    if OneSibling(t) {
      KeyOfFixed(t.body, postable, off, key);
    } else if TwoSiblings(t) {
      var r := Rotate(t);
      KeyOfRotation(t, postable, off, key);
      KeyOfPair(r, postable, off, key);
      KeyOfFixed(r.p1, postable, off, key);
      KeyOfFixed(r.p2, postable, off, KeyAfter(r.p1, postable, off, key));
      FixedPair(t);
      KeyOfPair(Fixed(t), postable, off, key);
    }
  }

  /** The rule slots 'ps' have the keys that fixing the calls of the tree gives them. */
  ghost predicate KeysSet(c: seq<Slot>, d: seq<Slot>, t: Tree, g: int, postable: map<int, int>, ps: set<nat>) {
    |c| == |d| && forall p :: p in ps && p < |c| ==> d[p].key == KeyAfter(t, postable, p - g, c[p].key)
  }

  /** Outside the 'm' slots from 'i' on, only keys of rule slots may differ. */
  ghost predicate Keyed(c: seq<Slot>, d: seq<Slot>, i: nat, m: nat, ps: set<nat>) {
    && |d| == |c| && i + m <= |c|
    && forall x :: 0 <= x < i || i + m <= x < |c| ==>
         if x in ps then d[x] == c[x].(key := d[x].key) else d[x] == c[x]
  }

  /** The positions are those of the rule slots, none of which is among the 'm' slots from 'i' on. */
  ghost predicate Targets(size: nat, i: nat, m: nat, g: int, postable: map<int, int>, ps: set<nat>) {
    && (forall k :: k in postable ==> 0 <= g + postable[k] && g + postable[k] in ps)
    && (forall p :: p in ps ==> p < size && (p < i || i + m <= p))
  }

  lemma TargetsInside(size: nat, i: nat, m: nat, j: nat, n: nat, g: int, postable: map<int, int>, ps: set<nat>)
    requires Targets(size, i, m, g, postable, ps) && i <= j && j + n <= i + m
    ensures Targets(size, j, n, g, postable, ps)
  {
  }

  /** A change behind the root slot. */
  lemma KeyedInside(c: seq<Slot>, d: seq<Slot>, e: seq<Slot>, i: nat, m: nat, j: nat, k: nat, ps: set<nat>)
    requires Keyed(c, d, i, m, ps) && Keyed(d, e, j, k, ps) && i <= j && j + k <= i + m
    requires forall p :: p in ps ==> p < i || i + m <= p
    ensures Keyed(c, e, i, m, ps)
    ensures i < j ==> i < |d| == |e| && e[i] == d[i]
  {
  }

  lemma KeyedBlock(c: seq<Slot>, d: seq<Slot>, i: nat, m: nat, j: nat, k: nat, ps: set<nat>)
    requires Keyed(c, d, i, m, ps) && (j + k <= i || (i + m <= j && j + k <= |c|))
    requires forall p :: p in ps ==> p < j || j + k <= p
    ensures Block(c, j, d, j, k)
  {
  }

  lemma ElsewhereKeyed(c: seq<Slot>, d: seq<Slot>, i: nat, m: nat, ps: set<nat>)
    requires Elsewhere(c, d, i, m) && forall p :: p in ps ==> p < i || i + m <= p
    ensures Keyed(c, d, i, m, ps) && |c| == |d| && forall p :: p in ps && p < |c| ==> d[p].key == c[p].key
  {
  }

  /** Fix the tree at slot 'i' in place; 'g' is the slot of the enclosing grammar and 'ps' are its rule
      slots. The result is false (the program raises an error) if a call names no rule; outside a
      grammar the position table is empty. */
  method FinalFix(a: array<Slot>, i: nat, g: int, postable: map<int, int>, ghost t: Tree, ghost ps: set<nat>)
    returns (ok: bool)
    requires Holds(a[..], i, t, true) && Targets(a.Length, i, Size(t), g, postable, ps)
    modifies a
    ensures ok <==> KeysKnown(t, postable)
    ensures ok ==> FixedAt(a[..], i, t, g, postable) && KeysSet(old(a[..]), a[..], t, g, postable, ps)
    ensures Keyed(old(a[..]), a[..], i, Size(t), ps)
    decreases Size(t), 1
  {
    ok := true;
    match a[i].tag {
      case TSeq => ok := FixPair(a, i, g, postable, t, ps);
      case TChoice => ok := FixPair(a, i, g, postable, t, ps);
      case TOpenCall => ok := FixOneCall(a, i, g, postable, t, ps);
      case TRep => ok := FixBody(a, i, g, postable, t, ps);
      case TNot => ok := FixBody(a, i, g, postable, t, ps);
      case TAnd => ok := FixBody(a, i, g, postable, t, ps);
      case TBehind => ok := FixBody(a, i, g, postable, t, ps);
      case TCapture => ok := FixBody(a, i, g, postable, t, ps);
      case _ =>
    }
  }

  /** An open call gets the position of its rule, and the rule gets the key of the call. */
  method FixOneCall(a: array<Slot>, i: nat, g: int, postable: map<int, int>, ghost t: Tree, ghost ps: set<nat>)
    returns (ok: bool)
    requires t.Call? && Holds(a[..], i, t, true) && Targets(a.Length, i, 1, g, postable, ps)
    modifies a
    ensures ok <==> KeysKnown(t, postable)
    ensures ok ==> FixedAt(a[..], i, t, g, postable) && KeysSet(old(a[..]), a[..], t, g, postable, ps)
    ensures Keyed(old(a[..]), a[..], i, 1, ps)
  {
    ok := a[i].key in postable;
    if ok {
      a[i] := a[i].(tag := TCall, n := postable[a[i].key] - (i - g));
      var rule := i + a[i].n;
      a[rule] := a[rule].(key := a[i].key);
    }
  }

  method FixBody(a: array<Slot>, i: nat, g: int, postable: map<int, int>, ghost t: Tree, ghost ps: set<nat>)
    returns (ok: bool)
    requires OneSibling(t) && Holds(a[..], i, t, true) && Targets(a.Length, i, Size(t), g, postable, ps)
    modifies a
    ensures ok <==> KeysKnown(t, postable)
    ensures ok ==> FixedAt(a[..], i, t, g, postable) && KeysSet(old(a[..]), a[..], t, g, postable, ps)
    ensures Keyed(old(a[..]), a[..], i, Size(t), ps)
    decreases Size(t), 0
  {
    hide Holds, Size, FixedAt, Elsewhere;
    ghost var c := a[..];
    Body(c, i, t, postable);
    TargetsInside(a.Length, i, Size(t), i + 1, Size(t.body), g, postable, ps);
    ok := FinalFix(a, i + 1, g, postable, t.body, ps);
    KeyedInside(c, c, a[..], i, Size(t), i + 1, Size(t.body), ps);
    if ok { BodyFixed(c, a[..], i, t, g, postable); }
  }

  lemma Body(c: seq<Slot>, i: nat, t: Tree, postable: map<int, int>)
    requires OneSibling(t) && Holds(c, i, t, true)
    ensures i + Size(t) <= |c| && Size(t) == 1 + Size(t.body) && Holds(c, i + 1, t.body, true)
    ensures KeysKnown(t, postable) <==> KeysKnown(t.body, postable)
    ensures forall off, key :: KeyAfter(t, postable, off, key) == KeyAfter(t.body, postable, off, key)
  {
  }

  lemma BodyFixed(c: seq<Slot>, d: seq<Slot>, i: nat, t: Tree, g: int, postable: map<int, int>)
    requires OneSibling(t) && Holds(c, i, t, true) && i < |d| == |c| && d[i] == c[i]
    requires FixedAt(d, i + 1, t.body, g, postable)
    ensures FixedAt(d, i, t, g, postable)
  {
    FixedKeepsRoot(t.body);
  }

  method FixPair(a: array<Slot>, i: nat, g: int, postable: map<int, int>, ghost t: Tree, ghost ps: set<nat>)
    returns (ok: bool)
    requires TwoSiblings(t) && Holds(a[..], i, t, true) && Targets(a.Length, i, Size(t), g, postable, ps)
    modifies a
    ensures ok <==> KeysKnown(t, postable)
    ensures ok ==> FixedAt(a[..], i, t, g, postable) && KeysSet(old(a[..]), a[..], t, g, postable, ps)
    ensures Keyed(old(a[..]), a[..], i, Size(t), ps)
    decreases Size(t), 0
  {
    hide Holds, FixedAt, KeysKnown, Elsewhere, Block, Size, Targets, Keyed, KeysSet;
    ghost var start := a[..];
    TargetsClear(a.Length, i, Size(t), g, postable, ps);
    CorrectAssociativity(a, i, t);
    KeysOfRotation(t, postable);
    ghost var r := Rotate(t);
    ghost var c, m1, m2 := a[..], Size(r.p1), Size(r.p2);
    ElsewhereKeyed(start, c, i, Size(t), ps);
    Parts(c, i, r, true);
    KeysOfPair(r, postable);
    TargetsInside(a.Length, i, Size(t), i + 1, m1, g, postable, ps);
    TargetsInside(a.Length, i, Size(t), i + 1 + m1, m2, g, postable, ps);
    TargetsClear(a.Length, i + 1, m1, g, postable, ps);
    TargetsClear(a.Length, i + 1 + m1, m2, g, postable, ps);
    ok := FinalFix(a, i + 1, g, postable, r.p1, ps);
    ghost var d := a[..];
    KeyedInside(start, c, d, i, Size(t), i + 1, m1, ps);
    if ok {
      KeyedBlock(c, d, i + 1, m1, i + 1 + m1, m2, ps);
      HoldsMoved(c, i + 1 + m1, d, i + 1 + m1, r.p2, true);
      ok := FinalFix(a, i + a[i].n, g, postable, r.p2, ps);
      ghost var e := a[..];
      KeyedInside(start, d, e, i, Size(t), i + 1 + m1, m2, ps);
      if ok {
        KeyedBlock(d, e, i + 1 + m1, m2, i + 1, m1, ps);
        PairFixed(c, d, e, i, t, g, postable);
        PairKeys(start, c, d, e, t, g, postable, ps);
      }
    }
  }

  lemma TargetsClear(size: nat, i: nat, m: nat, g: int, postable: map<int, int>, ps: set<nat>)
    requires Targets(size, i, m, g, postable, ps)
    ensures forall p :: p in ps ==> p < size && (p < i || i + m <= p)
  {
  }

  lemma PairKeys(b: seq<Slot>, c: seq<Slot>, d: seq<Slot>, e: seq<Slot>, t: Tree, g: int, postable: map<int, int>,
                 ps: set<nat>)
    requires TwoSiblings(t) && |b| == |c| && forall p :: p in ps && p < |b| ==> c[p].key == b[p].key
    requires KeysSet(c, d, Rotate(t).p1, g, postable, ps) && KeysSet(d, e, Rotate(t).p2, g, postable, ps)
    ensures KeysSet(b, e, t, g, postable, ps)
  {
    hide Rotate, KeyAfter, Size;
    var p1, p2 := Rotate(t).p1, Rotate(t).p2;
    forall p | p in ps && p < |b| ensures e[p].key == KeyAfter(t, postable, p - g, b[p].key) {
      PairKey(t, postable, p - g, b[p].key);
      assert d[p].key == KeyAfter(p1, postable, p - g, b[p].key);
      assert e[p].key == KeyAfter(p2, postable, p - g, d[p].key);
    }
  }

  lemma PairKey(t: Tree, postable: map<int, int>, off: int, key: int)
    requires TwoSiblings(t)
    ensures var r := Rotate(t);
            KeyAfter(t, postable, off, key) == KeyAfter(r.p2, postable, off, KeyAfter(r.p1, postable, off, key))
  {
    hide Rotate, KeyAfter, Size;
    KeyOfRotation(t, postable, off, key);
    KeyOfPair(Rotate(t), postable, off, key);
  }

  lemma KeysOfPair(r: Tree, postable: map<int, int>)
    requires TwoSiblings(r)
    ensures KeysKnown(r, postable) <==> KeysKnown(r.p1, postable) && KeysKnown(r.p2, postable)
  {
  }

  lemma PairFixed(c: seq<Slot>, d: seq<Slot>, e: seq<Slot>, i: nat, t: Tree, g: int, postable: map<int, int>)
    requires TwoSiblings(t)
    requires var r := Rotate(t);
             && Holds(c, i, r, true) && i < |e| == |c| && e[i] == c[i]
             && FixedAt(d, i + 1, r.p1, g, postable) && Block(d, i + 1, e, i + 1, Size(r.p1))
             && FixedAt(e, i + 1 + Size(r.p1), r.p2, g, postable)
    ensures FixedAt(e, i, t, g, postable)
  {
    hide Holds, Block, Size, CallsFixed, Fixed;
    var r := Rotate(t);
    FixedKeepsRoot(r.p1);
    FixedKeepsRoot(r.p2);
    Parts(c, i, r, true);
    HoldsMoved(d, i + 1, e, i + 1, Fixed(r.p1), false);
    CallsFixedKept(d, e, i + 1, Fixed(r.p1), g, postable);
    Assemble(e, i, t, Fixed(r.p1), Fixed(r.p2), false);
    FixedPair(t);
    CallsOfPair(e, i, Fixed(t), g, postable);
  }

  lemma FixedPair(t: Tree)
    requires TwoSiblings(t)
    ensures Fixed(t) == Op(t, Fixed(Rotate(t).p1), Fixed(Rotate(t).p2))
  {
  }

  lemma CallsOfPair(c: seq<Slot>, i: nat, t: Tree, g: int, postable: map<int, int>)
    requires TwoSiblings(t) && i + Size(t) <= |c| && Size(t) == 1 + Size(t.p1) + Size(t.p2)
    requires CallsFixed(c, i + 1, t.p1, g, postable) && CallsFixed(c, i + 1 + Size(t.p1), t.p2, g, postable)
    ensures CallsFixed(c, i, t, g, postable)
  {
  }

  // ----- grammars --------------------------------------------------------------------------

  /** Where rule 'k' is, from the slot of the grammar on; for k == |rs|, where the list ends. */
  function RuleAt(rs: seq<Tree>, k: nat): (r: nat)
    requires k <= |rs|
    ensures r > 0
  {
    if k == 0 then 1 else RuleAt(rs, k - 1) + 1 + Size(rs[k - 1])
  }

  lemma {:induction false} RulesApart(rs: seq<Tree>, j: nat, k: nat)
    requires j < k <= |rs|
    ensures RuleAt(rs, j) + 1 + Size(rs[j]) <= RuleAt(rs, k)
    decreases k
  {
    if j < k - 1 { RulesApart(rs, j, k - 1); }
  }

  ghost predicate RuleSlot(c: seq<Slot>, g: nat, rs: seq<Tree>, k: nat)
    requires k < |rs|
  {
    var p := g + RuleAt(rs, k);
    p + 1 + Size(rs[k]) < |c| && c[p].tag == TRule && c[p].cap == k && c[p].n == 1 + Size(rs[k])
  }

  ghost function RulePlaces(g: nat, rs: seq<Tree>): set<nat> {
    set k | 0 <= k < |rs| :: g + RuleAt(rs, k)
  }

  /** What every position in the table is. */
  ghost predicate Positions(rs: seq<Tree>, postable: map<int, int>) {
    forall key :: key in postable ==> exists k :: 0 <= k < |rs| && postable[key] == RuleAt(rs, k)
  }

  ghost predicate BodyOpen(c: seq<Slot>, g: nat, rs: seq<Tree>, k: nat)
    requires k < |rs|
  {
    Holds(c, g + RuleAt(rs, k) + 1, rs[k], true)
  }

  ghost predicate BodyDone(c: seq<Slot>, g: nat, rs: seq<Tree>, k: nat, postable: map<int, int>)
    requires k < |rs|
  {
    FixedAt(c, g + RuleAt(rs, k) + 1, rs[k], g, postable)
  }

  /** The first 'm' rules of the list have been fixed. */
  ghost predicate RulesFixed(c: seq<Slot>, g: nat, rs: seq<Tree>, m: nat, postable: map<int, int>)
    requires m <= |rs|
  {
    && g + RuleAt(rs, |rs|) < |c| && c[g].tag == TGrammar && c[g + RuleAt(rs, |rs|)].tag == TTrue
    && (forall k :: 0 <= k < |rs| ==> RuleSlot(c, g, rs, k))
    && (forall k :: 0 <= k < m ==> BodyDone(c, g, rs, k, postable))
    && (forall k :: m <= k < |rs| ==> BodyOpen(c, g, rs, k))
  }

  /** The key of a rule slot after the calls of the first 'm' rules have been fixed. */
  function KeyAfterRules(rs: seq<Tree>, m: nat, postable: map<int, int>, off: int): int
    requires m <= |rs|
  {
    if m == 0 then 0 else KeyAfter(rs[m - 1], postable, off, KeyAfterRules(rs, m - 1, postable, off))
  }

  ghost predicate RuleKeys(c: seq<Slot>, g: nat, rs: seq<Tree>, m: nat, postable: map<int, int>)
    requires m <= |rs|
  {
    forall k :: 0 <= k < |rs| && g + RuleAt(rs, k) < |c| ==>
      c[g + RuleAt(rs, k)].key == KeyAfterRules(rs, m, postable, RuleAt(rs, k))
  }

  lemma FirstRule(rs: seq<Tree>)
    ensures RuleAt(rs, 0) == 1
  {
  }

  lemma NextRule(rs: seq<Tree>, k: nat)
    requires k < |rs|
    ensures RuleAt(rs, k + 1) == RuleAt(rs, k) + 1 + Size(rs[k])
  {
  }

  lemma EndOfRules(rs: seq<Tree>, k: nat)
    requires k < |rs|
    ensures RuleAt(rs, k) + 1 + Size(rs[k]) <= RuleAt(rs, |rs|)
  {
    RulesApart(rs, k, |rs|);
  }

  lemma RuleTargets(size: nat, g: nat, rs: seq<Tree>, k: nat, postable: map<int, int>)
    requires k < |rs| && Positions(rs, postable) && g + RuleAt(rs, |rs|) < size
    ensures Targets(size, g + RuleAt(rs, k) + 1, Size(rs[k]), g, postable, RulePlaces(g, rs))
  {
    hide Size, RuleAt;
    forall p | p in RulePlaces(g, rs)
      ensures p < size && (p <= g + RuleAt(rs, k) || g + RuleAt(rs, k) + 1 + Size(rs[k]) <= p)
    {
      var j :| 0 <= j < |rs| && p == g + RuleAt(rs, j);
      EndOfRules(rs, j);
      if j > k { RulesApart(rs, k, j); } else if j < k { RulesApart(rs, j, k); }
    }
    forall key | key in postable ensures g + postable[key] in RulePlaces(g, rs) {
      var j :| 0 <= j < |rs| && postable[key] == RuleAt(rs, j);
    }
  }

  /** Fix the rules of the grammar at slot 'g', one after the other. */
  method FixRules(a: array<Slot>, g: nat, postable: map<int, int>, ghost rs: seq<Tree>) returns (ok: bool)
    requires RulesFixed(a[..], g, rs, 0, postable) && RuleKeys(a[..], g, rs, 0, postable) && Positions(rs, postable)
    modifies a
    ensures ok <==> forall k :: 0 <= k < |rs| ==> KeysKnown(rs[k], postable)
    ensures ok ==> RulesFixed(a[..], g, rs, |rs|, postable) && RuleKeys(a[..], g, rs, |rs|, postable)
    ensures Elsewhere(old(a[..]), a[..], g + 1, RuleAt(rs, |rs|) - 1)
  {
    hide Size, Holds, FixedAt, Elsewhere, Keyed, KeysSet, Targets, RuleKeys, KeysKnown, Positions, RuleAt, RulePlaces;
    ghost var start := a[..];
    ElsewhereRefl(start, g + 1, RuleAt(rs, |rs|) - 1);
    FirstRule(rs);
    assert |rs| > 0 ==> RuleSlot(start, g, rs, 0);
    ok := true;
    var i := g + 1;
    ghost var m := 0;
    while ok && a[i].tag == TRule
      invariant m <= |rs| && i == g + RuleAt(rs, m) < a.Length
      invariant if ok then RulesFixed(a[..], g, rs, m, postable) && RuleKeys(a[..], g, rs, m, postable)
                else exists k :: 0 <= k < |rs| && !KeysKnown(rs[k], postable)
      invariant ok && m < |rs| ==> a[i].tag == TRule
      invariant ok ==> forall k :: 0 <= k < m ==> KeysKnown(rs[k], postable)
      invariant Elsewhere(start, a[..], g + 1, RuleAt(rs, |rs|) - 1)
      decreases ok, |rs| - m
    {
      ghost var c := a[..];
      assert RuleSlot(c, g, rs, m) && BodyOpen(c, g, rs, m);
      RuleTargets(a.Length, g, rs, m, postable);
      ok := FinalFix(a, i + 1, g, postable, rs[m], RulePlaces(g, rs));
      OneRule(start, c, a[..], g, rs, m, postable);
      if ok {
        assert BodyDone(a[..], g, rs, m, postable);
        OneRuleFixed(c, a[..], g, rs, m, postable);
        OneRuleKeys(c, a[..], g, rs, m, postable);
        assert RuleSlot(a[..], g, rs, m);
        NextRule(rs, m);
        i := i + a[i].n;
        m := m + 1;
        assert m < |rs| ==> RuleSlot(a[..], g, rs, m);
      }
    }
  }

  /** What fixing a rule changes is inside the grammar. */
  lemma OneRule(b: seq<Slot>, c: seq<Slot>, d: seq<Slot>, g: nat, rs: seq<Tree>, m: nat, postable: map<int, int>)
    requires m < |rs| && Elsewhere(b, c, g + 1, RuleAt(rs, |rs|) - 1)
    requires Keyed(c, d, g + RuleAt(rs, m) + 1, Size(rs[m]), RulePlaces(g, rs))
    ensures Elsewhere(b, d, g + 1, RuleAt(rs, |rs|) - 1)
  {
    hide Size, RuleAt;
    EndOfRules(rs, m);
    forall p | p in RulePlaces(g, rs) ensures g + 1 <= p < g + RuleAt(rs, |rs|) {
      var j :| 0 <= j < |rs| && p == g + RuleAt(rs, j);
      EndOfRules(rs, j);
    }
  }

  lemma OneRuleFixed(c: seq<Slot>, d: seq<Slot>, g: nat, rs: seq<Tree>, m: nat, postable: map<int, int>)
    requires m < |rs| && RulesFixed(c, g, rs, m, postable) && BodyDone(d, g, rs, m, postable)
    requires Keyed(c, d, g + RuleAt(rs, m) + 1, Size(rs[m]), RulePlaces(g, rs))
    ensures RulesFixed(d, g, rs, m + 1, postable)
  {
    hide Size, RuleAt, RulePlaces, Keyed, RuleSlot, BodyDone, BodyOpen;
    forall k | 0 <= k < |rs|
      ensures RuleSlot(d, g, rs, k)
      ensures k < m ==> BodyDone(d, g, rs, k, postable)
      ensures k > m ==> BodyOpen(d, g, rs, k)
    {
      OtherBody(c, d, g, rs, m, k, postable);
    }
    EndsKept(c, d, g, rs, m);
  }

  lemma OtherBody(c: seq<Slot>, d: seq<Slot>, g: nat, rs: seq<Tree>, m: nat, k: nat, postable: map<int, int>)
    requires m < |rs| && k < |rs| && RuleSlot(c, g, rs, k)
    requires Keyed(c, d, g + RuleAt(rs, m) + 1, Size(rs[m]), RulePlaces(g, rs))
    ensures RuleSlot(d, g, rs, k)
    ensures k != m && BodyDone(c, g, rs, k, postable) ==> BodyDone(d, g, rs, k, postable)
    ensures k != m && BodyOpen(c, g, rs, k) ==> BodyOpen(d, g, rs, k)
  {
    hide Size, Holds, FixedAt, Block, RuleAt, RulePlaces, Keyed, RuleSlot;
    OtherRule(c, d, g, rs, m, k);
    var i := g + RuleAt(rs, k) + 1;
    if k != m && BodyDone(c, g, rs, k, postable) { FixedMoved(c, d, i, rs[k], g, postable); }
    if k != m && BodyOpen(c, g, rs, k) { HoldsMoved(c, i, d, i, rs[k], true); }
  }

  lemma OneRuleKeys(c: seq<Slot>, d: seq<Slot>, g: nat, rs: seq<Tree>, m: nat, postable: map<int, int>)
    requires m < |rs| && RuleKeys(c, g, rs, m, postable)
    requires KeysSet(c, d, rs[m], g, postable, RulePlaces(g, rs))
    ensures RuleKeys(d, g, rs, m + 1, postable)
  {
    hide RuleAt, RulePlaces, KeyAfter, KeyAfterRules;
    forall k | 0 <= k < |rs| && g + RuleAt(rs, k) < |d|
      ensures d[g + RuleAt(rs, k)].key == KeyAfterRules(rs, m + 1, postable, RuleAt(rs, k))
    {
      PlaceOfRule(g, rs, k);
      NextKey(rs, m, postable, RuleAt(rs, k));
    }
  }

  lemma PlaceOfRule(g: nat, rs: seq<Tree>, k: nat)
    requires k < |rs|
    ensures g + RuleAt(rs, k) in RulePlaces(g, rs)
  {
  }

  lemma NextKey(rs: seq<Tree>, m: nat, postable: map<int, int>, off: int)
    requires m < |rs|
    ensures KeyAfterRules(rs, m + 1, postable, off)
         == KeyAfter(rs[m], postable, off, KeyAfterRules(rs, m, postable, off))
  {
  }

  /** Other rules keep their slots and bodies. */
  lemma OtherRule(c: seq<Slot>, d: seq<Slot>, g: nat, rs: seq<Tree>, m: nat, k: nat)
    requires m < |rs| && k < |rs| && RuleSlot(c, g, rs, k)
    requires Keyed(c, d, g + RuleAt(rs, m) + 1, Size(rs[m]), RulePlaces(g, rs))
    ensures RuleSlot(d, g, rs, k)
    ensures k != m ==> Block(c, g + RuleAt(rs, k) + 1, d, g + RuleAt(rs, k) + 1, Size(rs[k]))
  {
    hide Size, Block, RuleAt;
    if k < m { RulesApart(rs, k, m); } else if m < k { RulesApart(rs, m, k); }
    if k != m {
      forall p | p in RulePlaces(g, rs) ensures p < g + RuleAt(rs, k) + 1 || g + RuleAt(rs, k) + 1 + Size(rs[k]) <= p {
        var j :| 0 <= j < |rs| && p == g + RuleAt(rs, j);
        if j < k { RulesApart(rs, j, k); } else if k < j { RulesApart(rs, k, j); }
      }
      KeyedBlock(c, d, g + RuleAt(rs, m) + 1, Size(rs[m]), g + RuleAt(rs, k) + 1, Size(rs[k]), RulePlaces(g, rs));
    }
  }

  lemma EndsKept(c: seq<Slot>, d: seq<Slot>, g: nat, rs: seq<Tree>, m: nat)
    requires m < |rs| && g + RuleAt(rs, |rs|) < |c|
    requires Keyed(c, d, g + RuleAt(rs, m) + 1, Size(rs[m]), RulePlaces(g, rs))
    ensures |d| == |c| && d[g].tag == c[g].tag && d[g + RuleAt(rs, |rs|)].tag == c[g + RuleAt(rs, |rs|)].tag
  {
    hide Size, RuleAt, RulePlaces;
    EndOfRules(rs, m);
  }

  lemma FixedMoved(c: seq<Slot>, d: seq<Slot>, i: nat, t: Tree, g: int, postable: map<int, int>)
    requires FixedAt(c, i, t, g, postable) && Block(c, i, d, i, Size(t))
    ensures FixedAt(d, i, t, g, postable)
  {
    hide Holds, Block, CallsFixed, Fixed, Size;
    FixedKeepsRoot(t);
    HoldsMoved(c, i, d, i, Fixed(t), false);
    CallsFixedKept(c, d, i, Fixed(t), g, postable);
  }

  // ----- which rules are checked -----------------------------------------------------------

  /** The rule at this offset. */
  ghost function NumberOf(rs: seq<Tree>, off: int): nat {
    if k :| 0 <= k < |rs| && RuleAt(rs, k) == off then k else |rs|
  }

  lemma NumberOfRule(rs: seq<Tree>, off: int, k: nat)
    requires k < |rs|
    ensures NumberOf(rs, off) == k <==> RuleAt(rs, k) == off
  {
    hide RuleAt;
    var j := NumberOf(rs, off);
    if j < |rs| && j != k {
      if j < k { RulesApart(rs, j, k); } else { RulesApart(rs, k, j); }
    }
  }

  /** The tree with the numbers of the rules that its calls refer to. */
  ghost function Resolve(t: Tree, rs: seq<Tree>, postable: map<int, int>): Tree {
    if OneSibling(t) then t.(body := Resolve(t.body, rs, postable))
    else if TwoSiblings(t) then Op(t, Resolve(t.p1, rs, postable), Resolve(t.p2, rs, postable))
    else if t.Call? && t.rule in postable then Call(NumberOf(rs, postable[t.rule]))
    else t
  }

  /** A rule has the key of a call if and only if some call leads to it. */
  lemma {:induction false} KeyOfCalls(t: Tree, rs: seq<Tree>, postable: map<int, int>, k: nat, key: int)
    requires k < |rs| && KeysKnown(t, postable) && 0 !in postable
    ensures KeyAfter(t, postable, RuleAt(rs, k), key) != 0 <==>
              key != 0 || Accept.Calls(Resolve(t, rs, postable), k)
    decreases t
  {
    hide RuleAt, NumberOf;
    if OneSibling(t) {
      KeyOfCalls(t.body, rs, postable, k, key);
    } else if TwoSiblings(t) {
      KeyOfCalls(t.p1, rs, postable, k, key);
      KeyOfCalls(t.p2, rs, postable, k, KeyAfter(t.p1, postable, RuleAt(rs, k), key));
    } else if t.Call? {
      NumberOfRule(rs, postable[t.rule], k);
    }
  }

  lemma {:induction false} KeysOfFixed(t: Tree, postable: map<int, int>)
    ensures KeysKnown(Fixed(t), postable) == KeysKnown(t, postable)
    decreases Size(t)
  {
    hide Rotate;
    if OneSibling(t) {
      KeysOfFixed(t.body, postable);
    } else if TwoSiblings(t) {
      var r := Rotate(t);
      KeysOfRotation(t, postable);
      KeysOfPair(r, postable);
      KeysOfFixed(r.p1, postable);
      KeysOfFixed(r.p2, postable);
      FixedPair(t);
      KeysOfPair(Fixed(t), postable);
    }
  }

  /** The fixed rules, as the checks and the generator read them. */
  ghost function FixedRules(rs: seq<Tree>, postable: map<int, int>): (r: seq<Tree>)
    ensures |r| == |rs|
  {
    seq(|rs|, k requires 0 <= k < |rs| => Resolve(Fixed(rs[k]), rs, postable))
  }

  lemma {:induction false} KeyOfRules(rs: seq<Tree>, m: nat, postable: map<int, int>, k: nat)
    requires m <= |rs| && k < |rs| && 0 !in postable && forall j :: 0 <= j < |rs| ==> KeysKnown(rs[j], postable)
    ensures KeyAfterRules(rs, m, postable, RuleAt(rs, k)) != 0 <==>
              exists j :: 0 <= j < m && Accept.Calls(FixedRules(rs, postable)[j], k)
    decreases m
  {
    hide RuleAt, KeyAfter, Resolve, Fixed, KeysKnown;
    if m > 0 {
      var off := RuleAt(rs, k);
      var key := KeyAfterRules(rs, m - 1, postable, off);
      KeyOfRules(rs, m - 1, postable, k);
      KeysOfFixed(rs[m - 1], postable);
      KeyOfFixed(rs[m - 1], postable, off, key);
      KeyOfCalls(Fixed(rs[m - 1]), rs, postable, k, key);
      assert FixedRules(rs, postable)[m - 1] == Resolve(Fixed(rs[m - 1]), rs, postable);
    }
  }

  /** A change of rule keys alone. */
  lemma KeysOnly(c: seq<Slot>, d: seq<Slot>, g: nat, rs: seq<Tree>, postable: map<int, int>)
    requires RulesFixed(c, g, rs, |rs|, postable) && Keyed(c, d, |c|, 0, RulePlaces(g, rs))
    ensures RulesFixed(d, g, rs, |rs|, postable)
  {
    hide Size, RuleAt, RulePlaces, BodyDone, FixedAt;
    forall k | 0 <= k < |rs| ensures RuleSlot(d, g, rs, k) && BodyDone(d, g, rs, k, postable) {
      assert RuleSlot(c, g, rs, k) && BodyDone(c, g, rs, k, postable);
      KeyOnly(c, d, g, rs, k, postable);
    }
  }

  lemma KeyOnly(c: seq<Slot>, d: seq<Slot>, g: nat, rs: seq<Tree>, k: nat, postable: map<int, int>)
    requires k < |rs| && RuleSlot(c, g, rs, k) && BodyDone(c, g, rs, k, postable)
    requires Keyed(c, d, |c|, 0, RulePlaces(g, rs))
    ensures BodyDone(d, g, rs, k, postable)
  {
    hide Size, RuleAt, FixedAt, Keyed, Block;
    var i := g + RuleAt(rs, k) + 1;
    forall p | p in RulePlaces(g, rs) ensures p < i || i + Size(rs[k]) <= p {
      var j :| 0 <= j < |rs| && p == g + RuleAt(rs, j);
      if j < k { RulesApart(rs, j, k); } else if k < j { RulesApart(rs, k, j); }
    }
    KeyedBlock(c, d, |c|, 0, i, Size(rs[k]), RulePlaces(g, rs));
    FixedMoved(c, d, i, rs[k], g, postable);
  }

  /** Fix a grammar that has just been built, and give its initial rule the key 'name' if no call has
      given it one. From then on a rule has a key if and only if the checks have to look at it. */
  method FixGrammar(a: array<Slot>, g: nat, postable: map<int, int>, name: int, ghost rs: seq<Tree>)
    returns (ok: bool)
    requires RulesFixed(a[..], g, rs, 0, postable) && RuleKeys(a[..], g, rs, 0, postable) && Positions(rs, postable)
    requires rs != [] && name != 0 && 0 !in postable
    modifies a
    ensures ok <==> forall k :: 0 <= k < |rs| ==> KeysKnown(rs[k], postable)
    ensures ok ==> RulesFixed(a[..], g, rs, |rs|, postable)
    ensures ok ==> KeysUsed(a[..], g, rs, postable)
    ensures Elsewhere(old(a[..]), a[..], g + 1, RuleAt(rs, |rs|) - 1)
  {
    hide Size, RuleAt, KeysKnown, RulesFixed, RuleKeys, FixedRules, Elsewhere, Keyed, RulePlaces, KeyUsed;
    ghost var start := a[..];
    ok := FixRules(a, g, postable, rs);
    if ok {
      ghost var c := a[..];
      FirstRule(rs);
      InitialRule(c, g, rs, postable);
      if a[g + 1].key == 0 { a[g + 1] := a[g + 1].(key := name); }
      Named(start, c, a[..], g, rs, postable);
    }
  }

  /** The slot of a rule has a key if and only if the rule is the initial one or some rule calls it. */
  ghost predicate KeysUsed(c: seq<Slot>, g: nat, rs: seq<Tree>, postable: map<int, int>) {
    forall k: nat :: k < |rs| ==> KeyUsed(c, g, rs, k, postable)
  }

  lemma InitialRule(c: seq<Slot>, g: nat, rs: seq<Tree>, postable: map<int, int>)
    requires rs != [] && RulesFixed(c, g, rs, |rs|, postable)
    ensures g + 1 < |c|
  {
    hide Size;
    EndOfRules(rs, 0);
  }

  /** Naming the initial rule. */
  lemma Named(b: seq<Slot>, c: seq<Slot>, d: seq<Slot>, g: nat, rs: seq<Tree>, postable: map<int, int>)
    requires rs != [] && RulesFixed(c, g, rs, |rs|, postable) && RuleKeys(c, g, rs, |rs|, postable)
    requires 0 !in postable && forall k :: 0 <= k < |rs| ==> KeysKnown(rs[k], postable)
    requires Elsewhere(b, c, g + 1, RuleAt(rs, |rs|) - 1)
    requires g + 1 < |c| && |d| == |c| && d == c[g + 1 := c[g + 1].(key := d[g + 1].key)] && d[g + 1].key != 0
    ensures RulesFixed(d, g, rs, |rs|, postable) && KeysUsed(d, g, rs, postable)
    ensures Elsewhere(b, d, g + 1, RuleAt(rs, |rs|) - 1)
  {
    hide Size, RuleAt, KeysKnown, KeyUsed, RulesFixed, RuleKeys, RulePlaces;
    FirstRule(rs);
    EndOfRules(rs, 0);
    PlaceOfRule(g, rs, 0);
    KeysOnly(c, d, g, rs, postable);
    assert g + RuleAt(rs, |rs|) < |c| by { ListEnds(c, g, rs, postable); }
    forall k: nat | k < |rs| ensures KeyUsed(d, g, rs, k, postable) { NamedKey(c, d, g, rs, k, postable); }
  }

  ghost predicate KeyUsed(c: seq<Slot>, g: nat, rs: seq<Tree>, k: nat, postable: map<int, int>)
    requires k < |rs|
  {
    && g + RuleAt(rs, k) < |c|
    && (c[g + RuleAt(rs, k)].key != 0 <==> Accept.Used(FixedRules(rs, postable), k))
  }

  lemma ListEnds(c: seq<Slot>, g: nat, rs: seq<Tree>, postable: map<int, int>)
    requires RulesFixed(c, g, rs, |rs|, postable)
    ensures g + RuleAt(rs, |rs|) < |c|
  {
  }

  lemma NamedKey(c: seq<Slot>, d: seq<Slot>, g: nat, rs: seq<Tree>, k: nat, postable: map<int, int>)
    requires k < |rs| && g + RuleAt(rs, |rs|) < |c| && RuleKeys(c, g, rs, |rs|, postable)
    requires 0 !in postable && forall j :: 0 <= j < |rs| ==> KeysKnown(rs[j], postable)
    requires g + 1 < |c| && |d| == |c| && d == c[g + 1 := c[g + 1].(key := d[g + 1].key)] && d[g + 1].key != 0
    ensures KeyUsed(d, g, rs, k, postable)
  {
    hide Size, RuleAt, KeysKnown, KeyAfterRules, FixedRules;
    FirstRule(rs);
    EndOfRules(rs, k);
    KeyOfRules(rs, |rs|, postable, k);
    if k > 0 { RulesApart(rs, 0, k); }
  }

  /** A fixed call leads to the slot of its rule, whose number is the one that the generator takes. */
  lemma CallNumber(c: seq<Slot>, i: nat, t: Tree, g: nat, rs: seq<Tree>, postable: map<int, int>)
    requires t.Call? && FixedAt(c, i, t, g, postable) && Positions(rs, postable)
    requires RulesFixed(c, g, rs, |rs|, postable)
    ensures var p := i + c[i].n;
            0 <= p < |c| && c[p].tag == TRule && Call(c[p].cap) == Resolve(Fixed(t), rs, postable)
  {
    hide RuleAt, NumberOf, BodyDone, Size;
    var k :| 0 <= k < |rs| && postable[t.rule] == RuleAt(rs, k);
    assert RuleSlot(c, g, rs, k);
    NumberOfRule(rs, postable[t.rule], k);
  }

  /** The fixed rules from 'k' on, with the keys of their calls. */
  function FixedFrom(rs: seq<Tree>, k: nat): (r: seq<Tree>)
    requires k <= |rs|
    ensures |r| == |rs| - k
    decreases |rs| - k
  {
    if k == |rs| then [] else [Fixed(rs[k])] + FixedFrom(rs, k + 1)
  }

  lemma {:induction false} RulesHeld(c: seq<Slot>, g: nat, rs: seq<Tree>, postable: map<int, int>, k: nat)
    requires k <= |rs| && RulesFixed(c, g, rs, |rs|, postable)
    ensures g + RuleAt(rs, k) + RulesSize(FixedFrom(rs, k)) == g + RuleAt(rs, |rs|) + 1
    ensures HoldsRules(c, g + RuleAt(rs, k), FixedFrom(rs, k))
    decreases |rs| - k
  {
    hide Holds, CallsFixed, Fixed, Size, RuleAt;
    if k < |rs| {
      RulesHeld(c, g, rs, postable, k + 1);
      NextRule(rs, k);
      FixedKeepsRoot(rs[k]);
      assert RuleSlot(c, g, rs, k) && BodyDone(c, g, rs, k, postable);
      assert FixedFrom(rs, k)[1..] == FixedFrom(rs, k + 1);
    }
  }

  /** The fixed grammar is a tree that a larger pattern can contain. */
  lemma GrammarHeld(c: seq<Slot>, g: nat, rs: seq<Tree>, postable: map<int, int>)
    requires RulesFixed(c, g, rs, |rs|, postable)
    ensures Holds(c, g, Grammar(FixedFrom(rs, 0)), false)
  {
    hide HoldsRules;
    RulesHeld(c, g, rs, postable, 0);
    FirstRule(rs);
  }
}

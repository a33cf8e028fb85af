/** What the analyses and the generator's special cases achieve, on the patterns they are meant for. */
module Effects {
  import opened Peg
  import opened Analysis
  import opened Acceptance
  import opened LookBehind
  import opened Machine
  import opened CodeGen

  // ----- first sets ------------------------------------------------------------------------

  predicate NoPredicates(t: Tree)
    decreases t
  {
    match t
    case Not(_) => false
    case And(_) => false
    case Behind(_, _) => false
    case Rep(p) => NoPredicates(p)
    case Capture(_, _, p) => NoPredicates(p)
    case Seq(p1, p2) => NoPredicates(p1) && NoPredicates(p2)
    case Choice(p1, p2) => NoPredicates(p1) && NoPredicates(p2)
    case Grammar(rs) => forall k :: 0 <= k < |rs| ==> NoPredicates(rs[k])
    case _ => true
  }

  /** The pattern may start with the character, as its form goes. A derivation follows at most 'n' calls. */
  ghost predicate StartIn(g: seq<Tree>, t: Tree, c: byte, n: nat)
    decreases n, t
  {
    match t
    case Char(d) => c == d
    case Set(cs) => c in cs
    case AnyChar => true
    case Rep(p) => StartIn(g, p, c, n)
    case Capture(_, _, p) => StartIn(g, p, c, n)
    case Seq(p1, p2) => StartIn(g, p1, c, n) || (MayBeEmpty(g, p1) && StartIn(g, p2, c, n))
    case Choice(p1, p2) => StartIn(g, p1, c, n) || StartIn(g, p2, c, n)
    case Grammar(rs) => rs != [] && StartIn(rs, rs[0], c, n)
    case Call(k) => k < |g| && n > 0 && StartIn(g, g[k], c, n - 1)
    case _ => false
  }

  ghost predicate MayStart(g: seq<Tree>, t: Tree, c: byte) {
    exists n: nat :: StartIn(g, t, c, n)
  }

  lemma StartParts(g: seq<Tree>, t: Tree, c: byte)
    ensures t.Char? ==> (MayStart(g, t, c) <==> c == t.c)
    ensures t.Set? ==> (MayStart(g, t, c) <==> c in t.cs)
    ensures t.AnyChar? ==> MayStart(g, t, c)
    ensures t.True? || t.False? ==> !MayStart(g, t, c)
    ensures t.Rep? || t.Capture? ==> (MayStart(g, t, c) <==> MayStart(g, t.body, c))
    ensures t.Seq? ==> (MayStart(g, t, c) <==> MayStart(g, t.p1, c) || (MayBeEmpty(g, t.p1) && MayStart(g, t.p2, c)))
    ensures t.Choice? ==> (MayStart(g, t, c) <==> MayStart(g, t.p1, c) || MayStart(g, t.p2, c))
    ensures t.Grammar? && t.rules != [] ==> (MayStart(g, t, c) <==> MayStart(t.rules, t.rules[0], c))
    ensures t.Call? && t.rule < |g| ==> (MayStart(g, t, c) <==> MayStart(g, g[t.rule], c))
  {
    hide MayBeEmpty;
    if n: nat :| StartIn(g, t, c, n) { StartPartsIn(g, t, c, n); }
    assert t.AnyChar? || (t.Char? && c == t.c) || (t.Set? && c in t.cs) ==> StartIn(g, t, c, 0);
    if t.Rep? || t.Capture? {
      if n: nat :| StartIn(g, t.body, c, n) { assert StartIn(g, t, c, n); }
    }
    if t.Seq? || t.Choice? {
      if n: nat :| StartIn(g, t.p1, c, n) { assert StartIn(g, t, c, n); }
      if n: nat :| StartIn(g, t.p2, c, n) { assert t.Choice? || MayBeEmpty(g, t.p1) ==> StartIn(g, t, c, n); }
    }
    if t.Grammar? && t.rules != [] {
      if n: nat :| StartIn(t.rules, t.rules[0], c, n) { assert StartIn(g, t, c, n); }
    }
    if t.Call? && t.rule < |g| {
      if n: nat :| StartIn(g, g[t.rule], c, n) { assert StartIn(g, t, c, n + 1); }
    }
  }

  lemma StartPartsIn(g: seq<Tree>, t: Tree, c: byte, n: nat)
    requires StartIn(g, t, c, n)
    ensures t.Rep? || t.Capture? ==> StartIn(g, t.body, c, n)
    ensures t.Seq? ==> StartIn(g, t.p1, c, n) || (MayBeEmpty(g, t.p1) && StartIn(g, t.p2, c, n))
    ensures t.Choice? ==> StartIn(g, t.p1, c, n) || StartIn(g, t.p2, c, n)
    ensures t.Grammar? ==> t.rules != [] && StartIn(t.rules, t.rules[0], c, n)
    ensures t.Call? ==> t.rule < |g| && n > 0 && StartIn(g, g[t.rule], c, n - 1)
    ensures !t.True? && !t.False? && (t.Char? ==> c == t.c) && (t.Set? ==> c in t.cs)
  {
  }

  /** The first set is no larger and no smaller than it has to be. */
  ghost predicate Exact(g: seq<Tree>, t: Tree, fl: Charset, r: (bool, Charset)) {
    && (r.0 <==> MayBeEmpty(g, t))
    && forall c: byte :: c in r.1 <==> MayStart(g, t, c) || (MayBeEmpty(g, t) && c in fl)
  }

  /** No predicate in the pattern and in the rules that it calls. */
  predicate Bare(g: seq<Tree>, t: Tree) {
    NoPredicates(t) && forall k :: 0 <= k < |g| ==> NoPredicates(g[k])
  }

  /** A first set that is not exact comes from calls that lead on until the budget is used up. */
  lemma {:induction false} FirstChain(g: seq<Tree>, t: Tree, fl: Charset, n: nat, c: nat, h: nat)
    returns (ks: seq<nat>)
    requires Neat(g, t, h) && Bare(g, t) && n >= c + 1001 * h && !Exact(g, t, fl, GetFirst(g, t, fl, n))
    ensures |ks| == c + 1 && LeftChain(g, t, ks)
    decreases h, c, t
  {
    hide Neat, MayBeEmpty, MayStart, LeftChain, NoLeftCycle, Nullable;
    NeatParts(g, t, h);
    EmptyParts(g, t);
    forall b: byte { StartParts(g, t, b); }
    match t
    case Rep(p) => ks := FirstChain(g, p, fl, n, c, h); ChainUp(g, t, p, ks);
    case Capture(_, _, p) => ks := FirstChain(g, p, fl, n, c, h); ChainUp(g, t, p, ks);
    case Choice(p1, p2) =>
      if !Exact(g, p1, fl, GetFirst(g, p1, fl, n)) {
        ks := FirstChain(g, p1, fl, n, c, h);
        ChainUp(g, t, p1, ks);
      } else {
        ks := FirstChain(g, p2, fl, n, c, h);
        ChainUp(g, t, p2, ks);
      }
    case Seq(p1, p2) =>
      var fl2 := GetFirst(g, p2, fl, n).1;
      var fl1 := if Nullable(g, p1, n) then fl2 else FULLSET;
      if Nullable(g, p1, n) && !MayBeEmpty(g, p1) {
        ks := NullableChain(g, p1, n, c, h);
        ChainUp(g, t, p1, ks);
      } else if !Exact(g, p1, fl1, GetFirst(g, p1, fl1, n)) {
        ks := FirstChain(g, p1, fl1, n, c, h);
        ChainUp(g, t, p1, ks);
      } else {
        EmptyNullable(g, p1, n);
        ks := FirstChain(g, p2, fl, n, c, h);
        ChainUp(g, t, p2, ks);
      }
    case Call(k) =>
      ks := [];
      if c > 0 { ks := FirstChain(g, g[k], fl, n - 1, c - 1, h); } else { EmptyChain(g, g[k]); }
      ChainCall(g, k, ks);
      ks := [k] + ks;
    case Grammar(rs) =>
      ks := FirstChain(rs, rs[0], fl, n, 1000, h - 1);
      ChainBound(rs, rs[0], ks);
      assert false;
    case _ =>
  }

  lemma EmptyNullable(g: seq<Tree>, t: Tree, n: nat)
    ensures MayBeEmpty(g, t) ==> Nullable(g, t, n)
  {
    if m: nat :| EmptyIn(g, t, m) { EmptyIsNullable(g, t, m, n); }
  }

  /** First sets are exact: the characters that the pattern may start with, and the follow set if it may be
      empty; and the flag says whether it may. */
  lemma FirstExact(g: seq<Tree>, t: Tree, fl: Charset, n: nat, h: nat)
    requires Neat(g, t, h) && Bare(g, t) && NoLeftCycle(g) && |g| <= 1000 && n >= 1000 + 1001 * h
    ensures GetFirst(g, t, fl, n).0 <==> MayBeEmpty(g, t)
    ensures forall c: byte :: c in GetFirst(g, t, fl, n).1 <==> MayStart(g, t, c) || (MayBeEmpty(g, t) && c in fl)
  {
    hide Neat, MayBeEmpty, MayStart, LeftChain, NoLeftCycle, GetFirst;
    if !Exact(g, t, fl, GetFirst(g, t, fl, n)) {
      var ks := FirstChain(g, t, fl, n, 1000, h);
      ChainBound(g, t, ks);
    }
  }

  // ----- special cases of the generator ------------------------------------------------------

  /** One character of some set. */
  predicate OneChar(t: Tree) {
    t.Char? || t.Set? || t.AnyChar?
  }

  function CharsOf(t: Tree): Charset
    requires OneChar(t)
  {
    if t.Char? then {t.c} else if t.Set? then t.cs else FULLSET
  }

  /** A repetition of single characters is one instruction. */
  lemma SpanOfChars(g: seq<Tree>, a: nat, t: Tree, opt: bool, tt: Guard, fl: Charset)
    requires OneChar(t)
    ensures Gen(g, a, Rep(t), opt, tt, fl) == Wide(ISpan(CharsOf(t)))
  {
  }

  /** A choice that begins with a single character needs no entry on the backtrack stack. */
  lemma ChoiceByHead(g: seq<Tree>, a: nat, p: Tree, q: Tree, opt: bool, tt: Guard, fl: Charset)
    requires OneChar(p)
    ensures var cs := CharsOf(p);
            Gen(g, a, Choice(p, q), opt, tt, fl) ==
              TestLayout(cs, Gen(g, a, p, false, GuardOf(cs, false), fl), Gen(g, a, q, opt, NoTest, fl), q.True?)
  {
    hide CharsetType, TestLayout, ChoiceLayout;
    assert HeadFail(g, p, a) && GetFirst(g, p, FULLSET, a) == (false, CharsOf(p));
  }

  /** Nor does one whose parts start with different characters. */
  lemma ChoiceByTest(g: seq<Tree>, a: nat, p: Tree, q: Tree, opt: bool, tt: Guard, fl: Charset)
    requires p.Seq? && OneChar(p.p1) && q.Seq? && OneChar(q.p1) && CharsOf(p.p1) !! CharsOf(q.p1)
    ensures var cs := CharsOf(p.p1);
            Gen(g, a, Choice(p, q), opt, tt, fl) ==
              TestLayout(cs, Gen(g, a, p, false, GuardOf(cs, false), fl), Gen(g, a, q, opt, NoTest, fl), q.True?)
  {
    hide CharsetType, TestLayout, ChoiceLayout, HeadFail;
    FirstOfSeq(g, p, FULLSET, a);
    FirstOfSeq(g, q, fl, a);
  }

  lemma FirstOfSeq(g: seq<Tree>, p: Tree, fl: Charset, a: nat)
    requires p.Seq? && OneChar(p.p1)
    ensures GetFirst(g, p, fl, a) == (false, CharsOf(p.p1))
  {
    assert !Nullable(g, p.p1, a);
  }

  /** A character behind what cannot fail: the whole fails only at that character. */
  lemma HeadThenNoFail(g: seq<Tree>, a: nat, p: Tree, q: Tree, kind: nat, key: int)
    requires OneChar(p)
    ensures HeadFail(g, p, a) && HeadFail(g, Seq(p, Rep(q)), a) && HeadFail(g, Seq(p, True), a)
    ensures HeadFail(g, Seq(p, Choice(q, True)), a) && HeadFail(g, Choice(p, Seq(p, Rep(q))), a)
    ensures HeadFail(g, And(p), a) && HeadFail(g, Capture(kind, key, p), a)
  {
  }

  /** A repetition before a character with which it cannot start needs no entry either. */
  lemma RepeatUntil(g: seq<Tree>, a: nat, p: Tree, q: Tree, c: byte, tt: Guard, fl: Charset)
    requires OneChar(p) && c !in CharsOf(p)
    ensures var t := Seq(p, q);
            Gen(g, a, Seq(Rep(t), Char(c)), false, tt, fl) ==
              TestLoopLayout(CharsOf(p), Gen(g, a, t, false, GuardOf(CharsOf(p), false), FULLSET))
              + CodeChar(c, NoTest)
  {
    hide CharsetType, TestLoopLayout, ChoiceLoopLayout, HeadFail;
    var t := Seq(p, q);
    FirstOfSeq(g, t, FULLSET, a);
    assert GetFirst(g, Char(c), fl, a) == (false, {c});
    assert Gen(g, a, Rep(t), false, tt, {c}) ==
           TestLoopLayout(CharsOf(p), Gen(g, a, t, false, GuardOf(CharsOf(p), false), FULLSET));
  }

  /** The same for a choice, and through a capture. */
  lemma ChooseUntil(g: seq<Tree>, a: nat, p: Tree, q: Tree, c: byte, kind: nat, key: int, tt: Guard)
    requires OneChar(p) && c !in CharsOf(p)
    ensures NeedFollow(Choice(Seq(p, q), True)) && NeedFollow(Capture(kind, key, Rep(p)))
    ensures NeedFollow(Seq(q, Rep(p)))
    ensures var t := Seq(p, q);
            Gen(g, a, Choice(t, True), false, tt, {c}) ==
              TestLayout(CharsOf(p), Gen(g, a, t, false, GuardOf(CharsOf(p), false), {c}), [], true)
  {
    hide CharsetType, TestLayout, ChoiceLayout, HeadFail;
    var t := Seq(p, q);
    FirstOfSeq(g, t, FULLSET, a);
    assert GetFirst(g, True, {c}, a) == (true, {c});
    assert Gen(g, a, True, false, NoTest, {c}) == [];
  }

  /** A capture of up to 15 characters without captures inside is one instruction after its pattern; one
      of 16 is not. */
  lemma CaptureOfChars(a: nat, kind: nat, key: int, p: Tree, tt: Guard, fl: Charset)
    requires Plain(p) && !HasCapture(p) && FixedLen([], p, 0) >= 0
    ensures var c, len := Gen([], a, p, false, tt, fl), FixedLen([], p, 0);
            Gen([], a, Capture(kind, key, p), false, tt, fl) ==
              if len <= 15 then c + [IFullCapture(kind, key, len)]
              else [IOpenCapture(kind, key)] + (c + [ICloseCapture])
  {
    hide FixedLen, HasCaptures, HasCapture;
    CapturesExact(p, a);
  }

  /** A predicate of up to 255 characters without captures inside steps back instead of choosing. */
  lemma PredicateOfChars(a: nat, p: Tree, tt: Guard, fl: Charset)
    requires Plain(p) && !HasCapture(p) && 0 <= FixedLen([], p, 0) <= 255
    ensures Gen([], a, And(p), false, tt, fl) ==
              Gen([], a, p, false, tt, FULLSET) + CodeBehind(FixedLen([], p, 0))
  {
    hide FixedLen, HasCaptures, HasCapture;
    CapturesExact(p, a);
  }

  /** A character that has just been tested is not compared again. */
  lemma TestedOnce(c: byte, cs: Charset)
    ensures CodeChar(c, GuardOf({c}, false)) == [IAny]
    ensures CharsetType(cs).Many? ==> CodeCharset(cs, GuardOf(cs, false)) == [IAny]
  {
    assert c in {c};
    assert {c} != FULLSET by { assert (if c == 0 then 1 else 0) in FULLSET; }
    assert CharsetType({c}) == One(c) by { if CharsetType({c}).One? { assert c in {CharsetType({c}).c}; } }
  }

  /** The cells behind a set instruction hold its 32 bytes, four to a cell, and no more. */
  lemma SetCells(cs: Charset, offset: int)
    ensures 4 * (Size(ISet(cs)) - 1) == 32 && Size(ISpan(cs)) == Size(ISet(cs))
    ensures Size(ITestSet(cs, offset)) == Size(ISet(cs)) + 1
  {
  }
}

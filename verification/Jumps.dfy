/** In the code of an accepted pattern every chain of jumps ends, so the loops that follow
    chains (finaltarget) terminate. A chain can enter a rule only through a call turned into a
    jump, and from the entry of a rule it can only reach what the left-recursion check walks
    through. */
module Jumps {
  import opened Peg
  import opened Analysis
  import opened Accept
  import opened Machine
  import opened CodeGen
  import opened Layout
  import opened Placement
  import opened Peephole
  import opened Correct

  ghost predicate Ends(code: Code, i: int) {
    exists fuel: nat :: Lands(code, i, fuel)
  }

  ghost predicate AllEnd(code: Code, lo: int, hi: int) {
    forall y :: lo <= y < hi ==> Ends(code, y)
  }

  lemma OtherEnds(code: Code, i: int)
    requires 0 <= i < |code| ==> !code[i].IJmp?
    ensures Ends(code, i)
  {
    assert Lands(code, i, 0);
  }

  lemma JumpEnds(code: Code, i: int)
    requires 0 <= i < |code| && code[i].IJmp? && Ends(code, i + code[i].offset)
    ensures Ends(code, i)
  {
    var f: nat :| Lands(code, i + code[i].offset, f);
    assert Lands(code, i, f + 1);
  }

  lemma WideEnds(code: Code, ins: Instr, pc: int, pos: seq<int>)
    requires Placed(code, Wide(ins), pc, pos) && !ins.IOpenCall?
    requires ins.IJmp? ==> Ends(code, pc + ins.offset)
    ensures AllEnd(code, pc, pc + Size(ins))
  {
    forall y | pc <= y < pc + Size(ins) ensures Ends(code, y) {
      PlacedCell(code, Wide(ins), pc, pos, y - pc);
      if y == pc && ins.IJmp? { JumpEnds(code, y); } else { OtherEnds(code, y); }
    }
  }

  lemma OneEnds(code: Code, ins: Instr, pc: int, pos: seq<int>)
    requires Placed(code, [ins], pc, pos) && !ins.IOpenCall? && !ins.IJmp?
    ensures AllEnd(code, pc, pc + 1)
  {
    PlacedCell(code, [ins], pc, pos, 0);
    OtherEnds(code, pc);
  }

  lemma TestEnds(code: Code, cs: Charset, e: bool, skip: int, pc: int, pos: seq<int>)
    requires Placed(code, CodeTestSet(cs, e, skip), pc, pos)
    requires Ends(code, pc + TestSize(cs, e) + skip)
    ensures AllEnd(code, pc, pc + TestSize(cs, e))
  {
    if !e { WideEnds(code, TestInstr(cs, TestSize(cs, false) + skip), pc, pos); }
  }

  lemma BehindEnds(code: Code, n: nat, pc: int, pos: seq<int>)
    requires Placed(code, CodeBehind(n), pc, pos)
    ensures AllEnd(code, pc, pc + |CodeBehind(n)|)
  {
    if n > 0 { OneEnds(code, IBehind(n), pc, pos); }
  }

  // ----- where the pieces of a fragment are --------------------------------------------

  lemma TestLayoutEnds(code: Code, cs: Charset, c1: Code, c2: Code, emptyp2: bool, pc: int, pos: seq<int>)
    requires Placed(code, TestLayout(cs, c1, c2, emptyp2), pc, pos)
    ensures var pc1 := pc + TestSize(cs, false);
            var pc2 := pc1 + |c1| + (if emptyp2 then 0 else 2);
            var end := pc2 + |c2|;
            && end == pc + |TestLayout(cs, c1, c2, emptyp2)|
            && Placed(code, c1, pc1, pos) && Placed(code, c2, pc2, pos)
            && (Ends(code, end) && !emptyp2 ==> AllEnd(code, pc1 + |c1|, pc2))
            && (Ends(code, pc2) ==> AllEnd(code, pc, pc1))
  {
    hide Placed, Ends, CharsetType;
    var jmp := if emptyp2 then [] else Wide(IJmp(2 + |c2|));
    var test := CodeTestSet(cs, false, |c1| + |jmp|);
    PlacedCat(code, test, c1 + (jmp + c2), pc, pos);
    PlacedCat(code, c1, jmp + c2, pc + |test|, pos);
    PlacedCat(code, jmp, c2, pc + |test| + |c1|, pos);
    if Ends(code, pc + |TestLayout(cs, c1, c2, emptyp2)|) && !emptyp2 {
      WideEnds(code, IJmp(2 + |c2|), pc + |test| + |c1|, pos);
    }
    if Ends(code, pc + |test| + |c1| + |jmp|) { TestEnds(code, cs, false, |c1| + |jmp|, pc, pos); }
  }

  lemma ChoiceLayoutEnds(code: Code, cs: Charset, e: bool, c1: Code, c2: Code, pc: int, pos: seq<int>)
    requires Placed(code, ChoiceLayout(cs, e, c1, c2), pc, pos)
    ensures var pc1 := pc + TestSize(cs, e) + 2;
            var pc2 := pc1 + |c1| + 2;
            && pc2 + |c2| == pc + |ChoiceLayout(cs, e, c1, c2)|
            && Placed(code, c1, pc1, pos) && Placed(code, c2, pc2, pos)
            && AllEnd(code, pc1 - 2, pc1) && AllEnd(code, pc2 - 2, pc2)
            && (Ends(code, pc2) ==> AllEnd(code, pc, pc1))
  {
    hide Placed, Ends, CharsetType;
    var choice, commit := Wide(IChoice(|c1| + 4)), Wide(ICommit(2 + |c2|));
    var test := CodeTestSet(cs, e, |c1| + 4);
    PlacedCat(code, test, choice + (c1 + (commit + c2)), pc, pos);
    PlacedCat(code, choice, c1 + (commit + c2), pc + |test|, pos);
    PlacedCat(code, c1, commit + c2, pc + |test| + 2, pos);
    PlacedCat(code, commit, c2, pc + |test| + 2 + |c1|, pos);
    WideEnds(code, IChoice(|c1| + 4), pc + |test|, pos);
    WideEnds(code, ICommit(2 + |c2|), pc + |test| + 2 + |c1|, pos);
    if Ends(code, pc + |test| + 4 + |c1|) { TestEnds(code, cs, e, |c1| + 4, pc, pos); }
  }

  lemma TestLoopEnds(code: Code, cs: Charset, c: Code, pc: int, pos: seq<int>)
    requires Placed(code, TestLoopLayout(cs, c), pc, pos)
    requires Ends(code, pc + |TestLoopLayout(cs, c)|)
    ensures var pc1 := pc + TestSize(cs, false);
            && pc1 + |c| + 2 == pc + |TestLoopLayout(cs, c)|
            && Placed(code, c, pc1, pos) && AllEnd(code, pc, pc1) && AllEnd(code, pc1 + |c|, pc1 + |c| + 2)
            && Ends(code, pc)
  {
    hide Placed, Ends, CharsetType;
    var test, back := CodeTestSet(cs, false, |c| + 2), IJmp(-(TestSize(cs, false) + |c|));
    PlacedCat(code, test, c + Wide(back), pc, pos);
    PlacedCat(code, c, Wide(back), pc + |test|, pos);
    TestEnds(code, cs, false, |c| + 2, pc, pos);
    assert |test| > 0;
    WideEnds(code, back, pc + |test| + |c|, pos);
  }

  lemma ChoiceLoopEnds(code: Code, cs: Charset, e: bool, opt: bool, c: Code, pc: int, pos: seq<int>)
    requires Placed(code, ChoiceLoopLayout(cs, e, opt, c), pc, pos)
    requires Ends(code, pc + |ChoiceLoopLayout(cs, e, opt, c)|)
    ensures var pc1 := pc + TestSize(cs, e) + 2;
            && pc1 + |c| + 2 == pc + |ChoiceLoopLayout(cs, e, opt, c)|
            && Placed(code, c, pc1, pos) && AllEnd(code, pc, pc1) && AllEnd(code, pc1 + |c|, pc1 + |c| + 2)
            && Ends(code, pc)
  {
    hide Placed, Ends, CharsetType;
    var test, first, last := CodeTestSet(cs, e, |c| + 4), if opt then IPartialCommit(2) else IChoice(|c| + 4),
                             IPartialCommit(-|c|);
    PlacedCat(code, test, Wide(first) + (c + Wide(last)), pc, pos);
    PlacedCat(code, Wide(first), c + Wide(last), pc + |test|, pos);
    PlacedCat(code, c, Wide(last), pc + |test| + 2, pos);
    TestEnds(code, cs, e, |c| + 4, pc, pos);
    WideEnds(code, first, pc + |test|, pos);
    WideEnds(code, last, pc + |test| + 2 + |c|, pos);
  }

  lemma NotLayoutEnds(code: Code, cs: Charset, e: bool, hf: bool, c: Code, pc: int, pos: seq<int>)
    requires Placed(code, NotLayout(cs, e, hf, c), pc, pos)
    requires Ends(code, pc + |NotLayout(cs, e, hf, c)|)
    ensures var pc1 := pc + TestSize(cs, e) + 2;
            && Ends(code, pc)
            && (if hf then AllEnd(code, pc, pc + |NotLayout(cs, e, hf, c)|)
                else
                  && pc1 + |c| + 1 == pc + |NotLayout(cs, e, hf, c)|
                  && Placed(code, c, pc1, pos) && AllEnd(code, pc, pc1) && AllEnd(code, pc1 + |c|, pc1 + |c| + 1))
  {
    hide Placed, Ends, CharsetType;
    if hf {
      var test := CodeTestSet(cs, e, 1);
      PlacedCat(code, test, [IFail], pc, pos);
      TestEnds(code, cs, e, 1, pc, pos);
      OneEnds(code, IFail, pc + |test|, pos);
    } else {
      var test, choice := CodeTestSet(cs, e, |c| + 3), IChoice(|c| + 3);
      PlacedCat(code, test, Wide(choice) + (c + [IFailTwice]), pc, pos);
      PlacedCat(code, Wide(choice), c + [IFailTwice], pc + |test|, pos);
      PlacedCat(code, c, [IFailTwice], pc + |test| + 2, pos);
      TestEnds(code, cs, e, |c| + 3, pc, pos);
      WideEnds(code, choice, pc + |test|, pos);
      OneEnds(code, IFailTwice, pc + |test| + 2 + |c|, pos);
    }
  }

  lemma AndLayoutEnds(code: Code, c: Code, pc: int, pos: seq<int>)
    requires Placed(code, AndLayout(c), pc, pos)
    ensures Placed(code, c, pc + 2, pos)
    ensures AllEnd(code, pc, pc + 2) && AllEnd(code, pc + 2 + |c|, pc + |AndLayout(c)|) && Ends(code, pc)
  {
    hide Placed, Ends;
    var choice, back := IChoice(|c| + 4), IBackCommit(3);
    PlacedCat(code, Wide(choice), c + (Wide(back) + [IFail]), pc, pos);
    PlacedCat(code, c, Wide(back) + [IFail], pc + 2, pos);
    PlacedCat(code, Wide(back), [IFail], pc + 2 + |c|, pos);
    WideEnds(code, choice, pc, pos);
    WideEnds(code, back, pc + 2 + |c|, pos);
    OneEnds(code, IFail, pc + 4 + |c|, pos);
  }

  /** A leaf is one instruction, with its set. */
  lemma LeafCode(g: seq<Tree>, a: nat, t: Tree, opt: bool, tt: Guard, fl: Charset)
    requires t.Char? || t.Set? || t.AnyChar? || t.False? || (t.Rep? && ToCharset(t.body).0)
    ensures var c := Gen(g, a, t, opt, tt, fl);
            |c| > 0 && (c == Wide(c[0]) || c == [c[0]]) && !c[0].IOpenCall? && !c[0].IJmp?
  {
  }

  lemma LeafEnds(code: Code, g: seq<Tree>, a: nat, t: Tree, opt: bool, tt: Guard, fl: Charset, pc: int, pos: seq<int>)
    requires t.Char? || t.Set? || t.AnyChar? || t.False? || (t.Rep? && ToCharset(t.body).0)
    requires Placed(code, Gen(g, a, t, opt, tt, fl), pc, pos)
    ensures AllEnd(code, pc, pc + |Gen(g, a, t, opt, tt, fl)|)
    ensures |Gen(g, a, t, opt, tt, fl)| > 0
  {
    hide Placed, Ends, Gen;
    var c := Gen(g, a, t, opt, tt, fl);
    LeafCode(g, a, t, opt, tt, fl);
    if c == Wide(c[0]) { WideEnds(code, c[0], pc, pos); } else { OneEnds(code, c[0], pc, pos); }
  }

  // ----- from the entry of a fragment --------------------------------------------------

  ghost function GenAt(x: Context, t: Tree, opt: bool, tt: Guard, fl: Charset): Code {
    Gen(x.g, x.a, t, opt, tt, fl)
  }

  ghost predicate GoodSite(x: Context, t: Tree, opt: bool, tt: Guard, fl: Charset, pc: int, b: nat, h: nat) {
    && Placed(x.p.code, GenAt(x, t, opt, tt, fl), pc, x.pos)
    && CallsGood(x.g, t, b) && Wf(x.g, t) && Depth(t) <= h
  }

  /** From its entry, a fragment's jumps can only fall through to its end if the check found
      it nullable. */
  lemma {:induction false} EntryEnds(x: Context, t: Tree, opt: bool, tt: Guard, fl: Charset, pc: int,
                                     npassed: nat, nb: bool, b: nat, h: nat, r: nat)
    requires GoodSite(x, t, opt, tt, fl, pc, b, h) && RulesPlaced(x.p.code, x.g, x.a, x.pos) && WfRules(x.g)
    requires DepthOf(x.g) <= h
    requires npassed <= MAXRULES && Repaired(x.g, t, npassed, nb, b).Ok? && Fits(x.g, t, r)
    requires Repaired(x.g, t, npassed, nb, b).nullable ==> Ends(x.p.code, pc + |GenAt(x, t, opt, tt, fl)|)
    ensures Ends(x.p.code, pc)
    decreases h, 2, r, MAXRULES - npassed, t, 1
  {
    hide Gen, Eval, Wf, Placed, Ends, GetFirst, HeadFail, FixedLen, HasCaptures, CharsetType, GoodTree, GoodRule,
         CallsGood, Fits, Under, RuleRank;
    hide TestLayout, ChoiceLayout, TestLoopLayout, ChoiceLoopLayout, AndLayout, NotLayout, GrammarLayout;
    CallsGoodParts(x.g, t, b);
    FitsParts(x.g, t, r);
    var code, g := x.p.code, x.g;
    match t
    case True => UnfoldLeaf(x, t, tt, fl, 0, 0); GenIgnoresOpt(x, t, opt, tt, fl);
    case Seq(p1, p2) => EntryEndsSeq(x, t, opt, tt, fl, pc, npassed, nb, b, h, r);
    case Choice(_, _) => EntryEndsChoice(x, t, opt, tt, fl, pc, npassed, nb, b, h, r);
    case Rep(_) => EntryEndsNullable(x, t, opt, tt, fl, pc, npassed, nb, b, h, r);
    case Not(_) => EntryEndsNullable(x, t, opt, tt, fl, pc, npassed, nb, b, h, r);
    case And(_) => EntryEndsNullable(x, t, opt, tt, fl, pc, npassed, nb, b, h, r);
    case Capture(kind, key, p) =>
      UnfoldCapture(x, t, tt, fl, 0, 0); GenIgnoresOpt(x, t, opt, tt, fl);
      var len, c := FixedLen(g, p, 0), Gen(g, x.a, p, false, tt, fl);
      if 0 <= len <= MAXOFF && !HasCaptures(g, p, x.a) {
        PlacedCat(code, c, [IFullCapture(kind, key, len)], pc, x.pos);
        OneEnds(code, IFullCapture(kind, key, len), pc + |c|, x.pos);
        EntryEnds(x, p, false, tt, fl, pc, npassed, nb, b, h, r);
      } else {
        PlacedCat(code, [IOpenCapture(kind, key)], c + [ICloseCapture], pc, x.pos);
        OneEnds(code, IOpenCapture(kind, key), pc, x.pos);
      }
    case Behind(n, p) =>
      UnfoldPredicate(x, t, tt, fl, 0, 0); GenIgnoresOpt(x, t, opt, tt, fl);
      var c := Gen(g, x.a, p, false, NoTest, FULLSET);
      PlacedCat(code, CodeBehind(n), c, pc, x.pos);
      BehindEnds(code, n, pc, x.pos);
      if n == 0 {
        BehindEntries(x, p, b, h, r);
        TreeEnds(x, p, false, NoTest, FULLSET, pc, b, h);
      }
    case Grammar(rs) =>
      UnfoldGrammar(x, t, tt, fl, 0, 0); GenIgnoresOpt(x, t, opt, tt, fl);
      GrammarPlaced(code, rs, x.a, pc, x.pos);
      OtherEnds(code, pc);
    case Call(k) => EntryEndsCall(x, t, opt, tt, fl, pc, npassed, nb, b, h, r);
    case _ => LeafEnds(code, g, x.a, t, opt, tt, fl, pc, x.pos);
  }

  lemma {:induction false} EntryEndsNullable(x: Context, t: Tree, opt: bool, tt: Guard, fl: Charset, pc: int,
                                             npassed: nat, nb: bool, b: nat, h: nat, r: nat)
    requires (t.Rep? || t.Not? || t.And?) && GoodSite(x, t, opt, tt, fl, pc, b, h)
    requires RulesPlaced(x.p.code, x.g, x.a, x.pos) && WfRules(x.g) && DepthOf(x.g) <= h
    requires npassed <= MAXRULES && Repaired(x.g, t, npassed, nb, b).Ok? && Fits(x.g, t, r)
    requires Repaired(x.g, t, npassed, nb, b).nullable ==> Ends(x.p.code, pc + |GenAt(x, t, opt, tt, fl)|)
    ensures Ends(x.p.code, pc)
    decreases h, 2, r, MAXRULES - npassed, t, 0
  {
    hide Gen, Eval, Wf, Placed, Ends, GetFirst, HeadFail, FixedLen, HasCaptures, CharsetType, GoodTree, GoodRule,
         CallsGood, RulesPlaced, Fits;
    hide TestLoopLayout, ChoiceLoopLayout, AndLayout, NotLayout;
    CallsGoodParts(x.g, t, b);
    FitsParts(x.g, t, r);
    var code, g := x.p.code, x.g;
    match t
    case Rep(p) =>
      FlagKept(g, p, npassed, b);
      UnfoldRep(x, t, opt, tt, fl, 0, 0);
      var (e1, st) := GetFirst(g, p, FULLSET, x.a);
      if ToCharset(p).0 {
        LeafEnds(code, g, x.a, t, opt, tt, fl, pc, x.pos);
      } else if HeadFail(g, p, x.a) || (!e1 && st !! fl) {
        TestLoopEnds(code, st, Gen(g, x.a, p, false, GuardOf(st, false), FULLSET), pc, x.pos);
      } else {
        ChoiceLoopEnds(code, st, e1, opt, Gen(g, x.a, p, false, NoTest, FULLSET), pc, x.pos);
      }
    case Not(p) =>
      FlagKept(g, p, npassed, b);
      UnfoldPredicate(x, t, tt, fl, 0, 0); GenIgnoresOpt(x, t, opt, tt, fl);
      var (e, st) := GetFirst(g, p, FULLSET, x.a);
      NotLayoutEnds(code, st, e, HeadFail(g, p, x.a), Gen(g, x.a, p, false, NoTest, FULLSET), pc, x.pos);
    case And(p) =>
      FlagKept(g, p, npassed, b);
      UnfoldPredicate(x, t, tt, fl, 0, 0); GenIgnoresOpt(x, t, opt, tt, fl);
      var len, c := FixedLen(g, p, 0), Gen(g, x.a, p, false, tt, FULLSET);
      if 0 <= len <= MAXBEHIND && !HasCaptures(g, p, x.a) {
        PlacedCat(code, c, CodeBehind(len), pc, x.pos);
        BehindEnds(code, len, pc + |c|, x.pos);
        assert Ends(code, pc + |c|);
        EntryEnds(x, p, false, tt, FULLSET, pc, npassed, true, b, h, r);
      } else {
        AndLayoutEnds(code, c, pc, x.pos);
      }
  }

  lemma {:induction false} EntryEndsSeq(x: Context, t: Tree, opt: bool, tt: Guard, fl: Charset, pc: int,
                                        npassed: nat, nb: bool, b: nat, h: nat, r: nat)
    requires t.Seq? && GoodSite(x, t, opt, tt, fl, pc, b, h) && RulesPlaced(x.p.code, x.g, x.a, x.pos) && WfRules(x.g)
    requires DepthOf(x.g) <= h
    requires npassed <= MAXRULES && Repaired(x.g, t, npassed, nb, b).Ok? && Fits(x.g, t, r)
    requires Repaired(x.g, t, npassed, nb, b).nullable ==> Ends(x.p.code, pc + |GenAt(x, t, opt, tt, fl)|)
    ensures Ends(x.p.code, pc)
    decreases h, 2, r, MAXRULES - npassed, t, 0
  {
    hide Gen, Eval, Wf, Placed, Ends, GetFirst, FixedLen, GoodTree, GoodRule, CallsGood, RulesPlaced, Fits;
    CallsGoodParts(x.g, t, b);
    FitsParts(x.g, t, r);
    UnfoldSeq(x, t, opt, tt, fl, 0, 0);
    var g, p1, p2 := x.g, t.p1, t.p2;
    var fl1 := if NeedFollow(p1) then GetFirst(g, p2, fl, x.a).1 else FULLSET;
    var tt2 := if FixedLen(g, p1, 0) != 0 then NoTest else tt;
    var c1, c2 := GenAt(x, p1, false, tt, fl1), GenAt(x, p2, opt, tt2, fl);
    PlacedCat(x.p.code, c1, c2, pc, x.pos);
    if Repaired(g, p1, npassed, false, b).nullable {
      EntryEnds(x, p2, opt, tt2, fl, pc + |c1|, npassed, nb, b, h, r);
    }
    EntryEnds(x, p1, false, tt, fl1, pc, npassed, false, b, h, r);
  }

  lemma {:induction false} EntryEndsChoice(x: Context, t: Tree, opt: bool, tt: Guard, fl: Charset, pc: int,
                                           npassed: nat, nb: bool, b: nat, h: nat, r: nat)
    requires t.Choice? && GoodSite(x, t, opt, tt, fl, pc, b, h) && RulesPlaced(x.p.code, x.g, x.a, x.pos)
    requires WfRules(x.g)
    requires DepthOf(x.g) <= h
    requires npassed <= MAXRULES && Repaired(x.g, t, npassed, nb, b).Ok? && Fits(x.g, t, r)
    requires Repaired(x.g, t, npassed, nb, b).nullable ==> Ends(x.p.code, pc + |GenAt(x, t, opt, tt, fl)|)
    ensures Ends(x.p.code, pc)
    decreases h, 2, r, MAXRULES - npassed, t, 0
  {
    hide Gen, Eval, Wf, Placed, Ends, GetFirst, HeadFail, CharsetType, GoodTree, GoodRule, CallsGood, RulesPlaced, Fits,
         TestLayout, ChoiceLayout;
    CallsGoodParts(x.g, t, b);
    FitsParts(x.g, t, r);
    UnfoldChoice(x, t, opt, tt, fl, 0, 0);
    var code, g, p1, p2 := x.p.code, x.g, t.p1, t.p2;
    var nb1 := Repaired(g, p1, npassed, nb, b).nullable;
    var (e1, cs1) := GetFirst(g, p1, FULLSET, x.a);
    var c2 := GenAt(x, p2, opt, NoTest, fl);
    if HeadFail(g, p1, x.a) || (!e1 && cs1 !! GetFirst(g, p2, fl, x.a).1) {
      var c1 := Gen(g, x.a, p1, false, GuardOf(cs1, false), fl);
      TestLayoutEnds(code, cs1, c1, c2, p2.True?, pc, x.pos);
      var pc2 := pc + TestSize(cs1, false) + |c1| + (if p2.True? then 0 else 2);
      EntryEnds(x, p2, opt, NoTest, fl, pc2, npassed, nb1, b, h, r);
      assert TestSize(cs1, false) > 0;
    } else if opt && p2.True? {
      PlacedCat(code, Wide(IPartialCommit(2)), Gen(g, x.a, p1, true, NoTest, FULLSET), pc, x.pos);
      WideEnds(code, IPartialCommit(2), pc, x.pos);
    } else {
      var c1 := Gen(g, x.a, p1, p2.True?, GuardOf(cs1, e1), FULLSET);
      ChoiceLayoutEnds(code, cs1, e1, c1, c2, pc, x.pos);
      EntryEnds(x, p2, opt, NoTest, fl, pc + TestSize(cs1, e1) + 4 + |c1|, npassed, nb1, b, h, r);
    }
  }

  lemma {:induction false} EntryEndsCall(x: Context, t: Tree, opt: bool, tt: Guard, fl: Charset, pc: int,
                                         npassed: nat, nb: bool, b: nat, h: nat, r: nat)
    requires t.Call? && GoodSite(x, t, opt, tt, fl, pc, b, h) && RulesPlaced(x.p.code, x.g, x.a, x.pos) && WfRules(x.g)
    requires DepthOf(x.g) <= h
    requires npassed <= MAXRULES && Repaired(x.g, t, npassed, nb, b).Ok? && Fits(x.g, t, r)
    ensures Ends(x.p.code, pc)
    decreases h, 2, r, MAXRULES - npassed, t, 0
  {
    hide Gen, Placed, Ends, GoodTree, GoodRule, CallsGood, FinalTarget, Fits, CheckLoops;
    CallsGoodParts(x.g, t, b);
    FitsParts(x.g, t, r);
    UnfoldGrammar(x, t, tt, fl, 0, 0); GenIgnoresOpt(x, t, opt, tt, fl);
    var code, k := x.p.code, t.rule;
    PlacedCell(code, Wide(IOpenCall(k)), pc, x.pos, 0);
    if code[pc].IJmp? {
      FitsRule(x.g, k, b, r);
      RuleEntry(x, k, npassed + 1, nb, b, h, r);
      JumpEnds(code, pc);
    } else {
      OtherEnds(code, pc);
    }
  }

  /** The entry of a rule. */
  lemma {:induction false} RuleEntry(x: Context, k: nat, npassed: nat, nb: bool, b: nat, h: nat, r: nat)
    requires k < |x.g| && RulesPlaced(x.p.code, x.g, x.a, x.pos) && WfRules(x.g) && DepthOf(x.g) <= h
    requires CallsGood(x.g, x.g[k], b) && Fits(x.g, x.g[k], r)
    requires npassed <= MAXRULES && Repaired(x.g, x.g[k], npassed, nb, b).Ok?
    ensures k < |x.pos| && Ends(x.p.code, x.pos[k])
    decreases h, 2, r, MAXRULES - npassed, x.g, 0
  {
    hide Gen, Placed, Ends, CallsGood, Repaired, Fits, Wf;
    var code, c := x.p.code, GenAt(x, x.g[k], false, NoTest, FULLSET);
    assert Placed(code, RuleCode(x.g, x.a, k), x.pos[k], x.pos);
    PlacedCat(code, c, [IRet], x.pos[k], x.pos);
    OneEnds(code, IRet, x.pos[k] + |c|, x.pos);
    DepthRule(x.g, k);
    EntryEnds(x, x.g[k], false, NoTest, FULLSET, x.pos[k], npassed, nb, b, h, r);
  }

  /** The entries of the rules that a look-behind calls. */
  lemma {:induction false} BehindEntries(x: Context, t: Tree, b: nat, h: nat, r: nat)
    requires CallsGood(x.g, t, b) && Under(x.g, t, r)
    requires RulesPlaced(x.p.code, x.g, x.a, x.pos) && WfRules(x.g) && DepthOf(x.g) <= h
    ensures CallsEnd(x, t)
    decreases h, 2, r, -1
  {
    hide Ends, RuleRank, RulesPlaced, Repaired, VerifyRule, Calls, GoodTree;
    forall k: nat | Calls(t, k) ensures k < |x.pos| && Ends(x.p.code, x.pos[k]) {
      assert GoodRule(x.g, k, b);
      FitsRule(x.g, k, b, r - 1);
      RuleEntry(x, k, 0, false, b, h, r - 1);
    }
  }

  // ----- from every cell of a fragment -------------------------------------------------

  ghost predicate CallsEnd(x: Context, t: Tree) {
    forall k: nat :: Calls(t, k) ==> k < |x.pos| && Ends(x.p.code, x.pos[k])
  }

  lemma CallsEndParts(x: Context, t: Tree)
    requires CallsEnd(x, t)
    ensures t.Seq? || t.Choice? ==> CallsEnd(x, t.p1) && CallsEnd(x, t.p2)
    ensures t.Rep? || t.Not? || t.And? || t.Capture? || t.Behind? ==> CallsEnd(x, t.body)
    ensures t.Call? ==> t.rule < |x.pos| && Ends(x.p.code, x.pos[t.rule])
  {
    hide Calls, Ends;
    forall k: nat { CallsParts(t, k); }
    if t.Call? { assert Calls(t, t.rule); }
  }

  /** If the chains from the end of a fragment and from the rules it calls end, so do the
      chains from all of its cells. */
  lemma {:induction false} TreeEnds(x: Context, t: Tree, opt: bool, tt: Guard, fl: Charset, pc: int, b: nat, h: nat)
    requires GoodSite(x, t, opt, tt, fl, pc, b, h) && CallsEnd(x, t)
    requires Ends(x.p.code, pc + |GenAt(x, t, opt, tt, fl)|)
    ensures AllEnd(x.p.code, pc, pc + |GenAt(x, t, opt, tt, fl)| + 1)
    decreases h, 1, t, 1, 0
  {
    hide Gen, Eval, Wf, Placed, Ends, GetFirst, HeadFail, FixedLen, HasCaptures, CharsetType, GoodTree, GoodRule,
         CallsGood, CallsEnd, Calls;
    hide TestLayout, ChoiceLayout, TestLoopLayout, ChoiceLoopLayout, AndLayout, NotLayout, GrammarLayout;
    CallsGoodParts(x.g, t, b);
    CallsEndParts(x, t);
    var code, g := x.p.code, x.g;
    match t
    case True => UnfoldLeaf(x, t, tt, fl, 0, 0); GenIgnoresOpt(x, t, opt, tt, fl);
    case Seq(p1, p2) =>
      UnfoldSeq(x, t, opt, tt, fl, 0, 0);
      var fl1 := if NeedFollow(p1) then GetFirst(g, p2, fl, x.a).1 else FULLSET;
      var tt2 := if FixedLen(g, p1, 0) != 0 then NoTest else tt;
      var c1, c2 := GenAt(x, p1, false, tt, fl1), GenAt(x, p2, opt, tt2, fl);
      PlacedCat(code, c1, c2, pc, x.pos);
      TreeEnds(x, p2, opt, tt2, fl, pc + |c1|, b, h);
      TreeEnds(x, p1, false, tt, fl1, pc, b, h);
    case Choice(_, _) => TreeEndsChoice(x, t, opt, tt, fl, pc, b, h);
    case Rep(_) => TreeEndsLoop(x, t, opt, tt, fl, pc, b, h);
    case Not(_) => TreeEndsLoop(x, t, opt, tt, fl, pc, b, h);
    case And(_) => TreeEndsAnd(x, t, opt, tt, fl, pc, b, h);
    case Capture(_, _, _) => TreeEndsCapture(x, t, opt, tt, fl, pc, b, h);
    case Behind(n, p) =>
      UnfoldPredicate(x, t, tt, fl, 0, 0); GenIgnoresOpt(x, t, opt, tt, fl);
      PlacedCat(code, CodeBehind(n), GenAt(x, p, false, NoTest, FULLSET), pc, x.pos);
      BehindEnds(code, n, pc, x.pos);
      TreeEnds(x, p, false, NoTest, FULLSET, pc + |CodeBehind(n)|, b, h);
    case Grammar(rs) => TreeEndsGrammar(x, t, opt, tt, fl, pc, b, h);
    case Call(k) =>
      UnfoldGrammar(x, t, tt, fl, 0, 0); GenIgnoresOpt(x, t, opt, tt, fl);
      PlacedCell(code, Wide(IOpenCall(k)), pc, x.pos, 0);
      PlacedCell(code, Wide(IOpenCall(k)), pc, x.pos, 1);
      if code[pc].IJmp? { JumpEnds(code, pc); } else { OtherEnds(code, pc); }
      OtherEnds(code, pc + 1);
    case _ => LeafEnds(code, g, x.a, t, opt, tt, fl, pc, x.pos);
  }

  lemma {:induction false} TreeEndsLoop(x: Context, t: Tree, opt: bool, tt: Guard, fl: Charset, pc: int, b: nat, h: nat)
    requires (t.Rep? || t.Not?) && GoodSite(x, t, opt, tt, fl, pc, b, h) && CallsEnd(x, t)
    requires Ends(x.p.code, pc + |GenAt(x, t, opt, tt, fl)|)
    ensures AllEnd(x.p.code, pc, pc + |GenAt(x, t, opt, tt, fl)| + 1)
    decreases h, 1, t, 0, 0
  {
    hide Gen, Eval, Wf, Placed, Ends, GetFirst, HeadFail, FixedLen, HasCaptures, CharsetType, GoodTree, GoodRule,
         CallsGood, CallsEnd, Calls;
    hide TestLoopLayout, ChoiceLoopLayout, AndLayout, NotLayout;
    CallsGoodParts(x.g, t, b);
    CallsEndParts(x, t);
    var code, g := x.p.code, x.g;
    match t
    case Rep(p) =>
      UnfoldRep(x, t, opt, tt, fl, 0, 0);
      var (e1, st) := GetFirst(g, p, FULLSET, x.a);
      if ToCharset(p).0 {
        LeafEnds(code, g, x.a, t, opt, tt, fl, pc, x.pos);
      } else if HeadFail(g, p, x.a) || (!e1 && st !! fl) {
        TestLoopEnds(code, st, GenAt(x, p, false, GuardOf(st, false), FULLSET), pc, x.pos);
        TreeEnds(x, p, false, GuardOf(st, false), FULLSET, pc + TestSize(st, false), b, h);
      } else {
        ChoiceLoopEnds(code, st, e1, opt, GenAt(x, p, false, NoTest, FULLSET), pc, x.pos);
        TreeEnds(x, p, false, NoTest, FULLSET, pc + TestSize(st, e1) + 2, b, h);
      }
    case Not(p) =>
      UnfoldPredicate(x, t, tt, fl, 0, 0); GenIgnoresOpt(x, t, opt, tt, fl);
      var (e, st) := GetFirst(g, p, FULLSET, x.a);
      NotLayoutEnds(code, st, e, HeadFail(g, p, x.a), GenAt(x, p, false, NoTest, FULLSET), pc, x.pos);
      if !HeadFail(g, p, x.a) { TreeEnds(x, p, false, NoTest, FULLSET, pc + TestSize(st, e) + 2, b, h); }
  }

  lemma {:induction false} TreeEndsAnd(x: Context, t: Tree, opt: bool, tt: Guard, fl: Charset, pc: int, b: nat, h: nat)
    requires t.And? && GoodSite(x, t, opt, tt, fl, pc, b, h) && CallsEnd(x, t)
    requires Ends(x.p.code, pc + |GenAt(x, t, opt, tt, fl)|)
    ensures AllEnd(x.p.code, pc, pc + |GenAt(x, t, opt, tt, fl)| + 1)
    decreases h, 1, t, 0, 0
  {
    hide Gen, Eval, Wf, Placed, Ends, GetFirst, HeadFail, FixedLen, HasCaptures, CharsetType, GoodTree, GoodRule,
         CallsGood, CallsEnd, Calls;
    hide TestLoopLayout, ChoiceLoopLayout, AndLayout, NotLayout, CodeBehind;
    CallsGoodParts(x.g, t, b);
    CallsEndParts(x, t);
    var code, g, p := x.p.code, x.g, t.body;
    UnfoldPredicate(x, t, tt, fl, 0, 0);
    GenIgnoresOpt(x, t, opt, tt, fl);
    var len, c := FixedLen(g, p, 0), GenAt(x, p, false, tt, FULLSET);
    if 0 <= len <= MAXBEHIND && !HasCaptures(g, p, x.a) {
      PlacedCat(code, c, CodeBehind(len), pc, x.pos);
      BehindEnds(code, len, pc + |c|, x.pos);
      assert Ends(code, pc + |c|);
      TreeEnds(x, p, false, tt, FULLSET, pc, b, h);
    } else {
      AndLayoutEnds(code, c, pc, x.pos);
      TreeEnds(x, p, false, tt, FULLSET, pc + 2, b, h);
    }
  }

  lemma {:induction false} TreeEndsCapture(x: Context, t: Tree, opt: bool, tt: Guard, fl: Charset, pc: int,
                                           b: nat, h: nat)
    requires t.Capture? && GoodSite(x, t, opt, tt, fl, pc, b, h) && CallsEnd(x, t)
    requires Ends(x.p.code, pc + |GenAt(x, t, opt, tt, fl)|)
    ensures AllEnd(x.p.code, pc, pc + |GenAt(x, t, opt, tt, fl)| + 1)
    decreases h, 1, t, 0, 0
  {
    hide Gen, Eval, Wf, Placed, Ends, GetFirst, HeadFail, FixedLen, HasCaptures, CharsetType, GoodTree, GoodRule,
         CallsGood, CallsEnd, Calls;
    hide TestLoopLayout, ChoiceLoopLayout, AndLayout, NotLayout, CodeBehind;
    CallsGoodParts(x.g, t, b);
    CallsEndParts(x, t);
    var code, g, p := x.p.code, x.g, t.body;
    UnfoldCapture(x, t, tt, fl, 0, 0);
    GenIgnoresOpt(x, t, opt, tt, fl);
    var len, c := FixedLen(g, p, 0), GenAt(x, p, false, tt, fl);
    if 0 <= len <= MAXOFF && !HasCaptures(g, p, x.a) {
      PlacedCat(code, c, [IFullCapture(t.kind, t.key, len)], pc, x.pos);
      OneEnds(code, IFullCapture(t.kind, t.key, len), pc + |c|, x.pos);
      TreeEnds(x, p, false, tt, fl, pc, b, h);
    } else {
      CaptureEnds(code, t.kind, t.key, c, pc, x.pos);
      TreeEnds(x, p, false, tt, fl, pc + 1, b, h);
    }
  }

  lemma CaptureEnds(code: Code, kind: nat, key: int, c: Code, pc: int, pos: seq<int>)
    requires Placed(code, [IOpenCapture(kind, key)] + (c + [ICloseCapture]), pc, pos)
    ensures Placed(code, c, pc + 1, pos)
    ensures AllEnd(code, pc, pc + 1) && AllEnd(code, pc + 1 + |c|, pc + 2 + |c|)
  {
    hide Placed, Ends;
    PlacedCat(code, [IOpenCapture(kind, key)], c + [ICloseCapture], pc, pos);
    PlacedCat(code, c, [ICloseCapture], pc + 1, pos);
    OneEnds(code, IOpenCapture(kind, key), pc, pos);
    OneEnds(code, ICloseCapture, pc + 1 + |c|, pos);
  }

  lemma {:induction false} TreeEndsChoice(x: Context, t: Tree, opt: bool, tt: Guard, fl: Charset, pc: int,
                                          b: nat, h: nat)
    requires t.Choice? && GoodSite(x, t, opt, tt, fl, pc, b, h) && CallsEnd(x, t)
    requires Ends(x.p.code, pc + |GenAt(x, t, opt, tt, fl)|)
    ensures AllEnd(x.p.code, pc, pc + |GenAt(x, t, opt, tt, fl)| + 1)
    decreases h, 1, t, 0, 0
  {
    hide Gen, Eval, Wf, Placed, Ends, GetFirst, HeadFail, CharsetType, GoodTree, GoodRule, CallsGood, CallsEnd, Calls,
         TestLayout, ChoiceLayout;
    CallsGoodParts(x.g, t, b);
    CallsEndParts(x, t);
    UnfoldChoice(x, t, opt, tt, fl, 0, 0);
    var code, g, p1, p2 := x.p.code, x.g, t.p1, t.p2;
    var (e1, cs1) := GetFirst(g, p1, FULLSET, x.a);
    var c2 := GenAt(x, p2, opt, NoTest, fl);
    if HeadFail(g, p1, x.a) || (!e1 && cs1 !! GetFirst(g, p2, fl, x.a).1) {
      var c1 := GenAt(x, p1, false, GuardOf(cs1, false), fl);
      TestLayoutEnds(code, cs1, c1, c2, p2.True?, pc, x.pos);
      TreeEnds(x, p2, opt, NoTest, fl, pc + TestSize(cs1, false) + |c1| + (if p2.True? then 0 else 2), b, h);
      TreeEnds(x, p1, false, GuardOf(cs1, false), fl, pc + TestSize(cs1, false), b, h);
    } else if opt && p2.True? {
      PlacedCat(code, Wide(IPartialCommit(2)), GenAt(x, p1, true, NoTest, FULLSET), pc, x.pos);
      WideEnds(code, IPartialCommit(2), pc, x.pos);
      TreeEnds(x, p1, true, NoTest, FULLSET, pc + 2, b, h);
    } else {
      var c1 := GenAt(x, p1, p2.True?, GuardOf(cs1, e1), FULLSET);
      ChoiceLayoutEnds(code, cs1, e1, c1, c2, pc, x.pos);
      TreeEnds(x, p2, opt, NoTest, fl, pc + TestSize(cs1, e1) + 4 + |c1|, b, h);
      TreeEnds(x, p1, p2.True?, GuardOf(cs1, e1), FULLSET, pc + TestSize(cs1, e1) + 2, b, h);
    }
  }

  /** The rules of a sub-grammar: first their entries, then all their cells. */
  lemma {:induction false} TreeEndsGrammar(x: Context, t: Tree, opt: bool, tt: Guard, fl: Charset, pc: int,
                                           b: nat, h: nat)
    requires t.Grammar? && GoodSite(x, t, opt, tt, fl, pc, b, h)
    requires Ends(x.p.code, pc + |GenAt(x, t, opt, tt, fl)|)
    ensures AllEnd(x.p.code, pc, pc + |GenAt(x, t, opt, tt, fl)| + 1)
    decreases h, 1, t, 0, 0
  {
    hide Gen, Placed, Ends, GrammarLayout, GenRules, Positions, RulesPlaced, Eval, RuleCode, Shift, Wf;
    UnfoldGrammar(x, t, tt, fl, 0, 0); GenIgnoresOpt(x, t, opt, tt, fl);
    var code, rs := x.p.code, t.rules;
    var frag := GrammarLayout(GenRules(rs, x.a, |rs|), Positions(rs, x.a));
    GrammarPlaced(code, rs, x.a, pc, x.pos);
    var y := Context(x.p, rs, x.a, Shift(Positions(rs, x.a), pc));
    RulesEnd(y, b, h - 1);
    forall z | pc <= z < pc + |frag| ensures Ends(code, z) {
      if z < pc + 4 {
        GrammarHead(code, rs, x.a, pc, x.pos, z);
      } else {
        RuleCellEnds(y, pc, z);
      }
    }
  }

  lemma RuleCellEnds(y: Context, pc: int, z: int)
    requires y.pos == Shift(Positions(y.g, y.a), pc) && pc + 4 <= z < pc + 4 + |GenRules(y.g, y.a, |y.g|)|
    requires forall k: nat :: k < |y.g| ==> AllEnd(y.p.code, y.pos[k], y.pos[k] + |RuleCode(y.g, y.a, k)|)
    ensures Ends(y.p.code, z)
  {
    hide Ends, GenRules, RuleCode;
    RuleOf(y.g, y.a, |y.g|, z - pc - 4);
    var k: nat :|
      k < |y.g| && |GenRules(y.g, y.a, k)| <= z - pc - 4 < |GenRules(y.g, y.a, k)| + |RuleCode(y.g, y.a, k)|;
    assert AllEnd(y.p.code, y.pos[k], y.pos[k] + |RuleCode(y.g, y.a, k)|);
    ShiftAt(y.g, y.a, pc, k);
  }

  lemma ShiftAt(rs: seq<Tree>, a: nat, pc: int, k: nat)
    requires k < |rs|
    ensures Shift(Positions(rs, a), pc)[k] == pc + 4 + |GenRules(rs, a, k)|
  {
    assert Positions(rs, a)[k] == RulePos(rs, a, k);
  }

  lemma {:induction false} RuleOf(rs: seq<Tree>, a: nat, m: nat, z: nat)
    requires m <= |rs| && z < |GenRules(rs, a, m)|
    ensures exists k: nat :: k < m && |GenRules(rs, a, k)| <= z < |GenRules(rs, a, k)| + |RuleCode(rs, a, k)|
    decreases m
  {
    hide Gen;
    assert GenRules(rs, a, m) == GenRules(rs, a, m - 1) + RuleCode(rs, a, m - 1);
    if z < |GenRules(rs, a, m - 1)| { RuleOf(rs, a, m - 1, z); }
  }

  /** The call and the jump at the start of a grammar. */
  lemma GrammarHead(code: Code, rs: seq<Tree>, a: nat, pc: int, pos: seq<int>, z: int)
    requires |rs| > 0 && pc <= z < pc + 4
    requires Placed(code, GrammarLayout(GenRules(rs, a, |rs|), Positions(rs, a)), pc, pos)
    requires Ends(code, pc + |GrammarLayout(GenRules(rs, a, |rs|), Positions(rs, a))|)
    ensures Ends(code, z)
  {
    hide Placed, Gen, GenRules, Positions, Ends, Tiled, CorrectCalls;
    GrammarPlaced(code, rs, a, pc, pos);
    if z == pc + 2 {
      JumpEnds(code, z);
    } else if z == pc {
      OtherEnds(code, z);
    } else {
      GrammarPads(rs, a);
      PlacedCell(code, GrammarLayout(GenRules(rs, a, |rs|), Positions(rs, a)), pc, pos, z - pc);
      OtherEnds(code, z);
    }
  }

  lemma GrammarPads(rs: seq<Tree>, a: nat)
    ensures var d := GrammarLayout(GenRules(rs, a, |rs|), Positions(rs, a));
            |d| >= 4 && d[1] == Pad && d[3] == Pad
  {
    hide Gen, Tiled, CorrectCalls;
    var raw := GenRules(rs, a, |rs|);
    var c := Wide(ICall(4)) + (Wide(IJmp(2 + |raw|)) + raw);
    assert c[4..] == raw;
    GenRulesTiled(rs, a, |rs|);
    CorrectCallsSpec(c, Positions(rs, a), 4);
    var d := CorrectCalls(c, Positions(rs, a), 4, |c|);
    assert c[1] == Pad && c[3] == Pad;
    assert d[..4][1] == c[..4][1] && d[..4][3] == c[..4][3];
  }

  lemma {:induction false} RulesEnd(x: Context, b: nat, h: nat)
    requires RulesPlaced(x.p.code, x.g, x.a, x.pos) && WfRules(x.g) && DepthOf(x.g) <= h
    requires GrammarsOk(Grammar(x.g), b) && NoGaps(Grammar(x.g), b)
    ensures forall k :: 0 <= k < |x.g| ==> AllEnd(x.p.code, x.pos[k], x.pos[k] + |RuleCode(x.g, x.a, k)|)
    decreases h, 3, 0, 0, 0
  {
    hide Gen, Eval, Wf, Placed, Ends, GoodTree, GoodRule, CallsGood, Repaired, VerifyRule;
    var code, g := x.p.code, x.g;
    forall k: nat | k < |g| && Used(g, k) ensures Ends(code, x.pos[k]) {
      RulesCallsGood(g, k, b);
      FitsAll(g, g[k]);
      RuleEntry(x, k, 0, false, b, h, |g| + 1);
    }
    forall k: nat | k < |g| ensures AllEnd(code, x.pos[k], x.pos[k] + |RuleCode(g, x.a, k)|) {
      RulesCallsGood(g, k, b);
      var c := GenAt(x, g[k], false, NoTest, FULLSET);
      assert RuleCode(g, x.a, k) == c + [IRet];
      PlacedCat(code, c, [IRet], x.pos[k], x.pos);
      OneEnds(code, IRet, x.pos[k] + |c|, x.pos);
      DepthRule(g, k);
      CallsOfGood(x, g[k], b);
      TreeEnds(x, g[k], false, NoTest, FULLSET, x.pos[k], b, h);
    }
  }

  lemma CallsOfGood(x: Context, t: Tree, b: nat)
    requires CallsGood(x.g, t, b) && |x.pos| == |x.g|
    requires forall k: nat :: k < |x.g| && Used(x.g, k) ==> Ends(x.p.code, x.pos[k])
    ensures CallsEnd(x, t)
  {
  }
}

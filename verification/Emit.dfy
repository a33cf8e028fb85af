/** The code generator as the program runs it: code is appended to a growing array, jumps are
    patched when their target becomes known, calls are closed and jumps are optimized in place.
    Every method appends exactly what CodeGen.Gen specifies. */
module Emit {
  import opened Peg
  import opened Analysis
  import opened Accept
  import opened Machine
  import opened CodeGen
  import opened Layout
  import opened Placement
  import opened Correct
  import opened Peephole
  import opened Jumps
  import opened Within
  import opened Compiler
  import opened CaptureSearch
  import opened Settled
  import opened Captures
  import opened Widths
  import opened Cleaned
  import Vm

  const NOINST: int := -1

  /** The test at 'tt', as code generation looks at it. */
  function GuardAt(code: Code, tt: int): Guard
    requires tt < |code|
  {
    if tt < 0 then NoTest
    else match code[tt]
         case ITestChar(c, _) => Test({c})
         case ITestSet(cs, _) => Test(cs)
         case _ => NoTest
  }

  predicate HasOffset(ins: Instr) {
    HasLabel(ins) || ins.IJmp?
  }

  /** Whether the tree has captures, as far as the search sees; 'n' only says that it ends. */
  method SearchCaptures(g: seq<Tree>, t: Tree, ghost n: nat) returns (found: bool)
    requires !Search(g, t, n).NoAnswer?
    ensures found == Search(g, t, n).Found?
    decreases n, t, 0
  {
    UnfoldSearch(g, t, n);
    match t
    case Capture(_, _, _) => found := true;
    case Rep(p) => found := SearchCaptures(g, p, n);
    case Not(p) => found := SearchCaptures(g, p, n);
    case And(p) => found := SearchCaptures(g, p, n);
    case Behind(_, p) => found := SearchCaptures(g, p, n);
    case Seq(p1, p2) =>
      found := SearchCaptures(g, p1, n);
      if !found { found := SearchCaptures(g, p2, n); }
    case Choice(p1, p2) =>
      found := SearchCaptures(g, p1, n);
      if !found { found := SearchCaptures(g, p2, n); }
    case Grammar(rs) => found := SearchRuleList(rs, 0, n);
    case Call(j) =>
      found := false;
      if j < |g| { found := SearchRuleList(g, j, n - 1); }
    case _ => found := false;
  }

  /** The rules from 'first' on. */
  method SearchRuleList(g: seq<Tree>, first: nat, ghost n: nat) returns (found: bool)
    requires !SearchRules(g, first, n).NoAnswer?
    ensures found == SearchRules(g, first, n).Found?
    decreases n, g, 0
  {
    found := false;
    var k := first;
    while k < |g| && !found
      invariant k <= |g| || k == first
      invariant if found then SearchRules(g, first, n).Found? else SearchRules(g, first, n) == SearchRules(g, k, n)
    {
      found := SearchCaptures(g, g[k], n);
      k := k + 1;
    }
  }

  // ----- sequences ---------------------------------------------------------------------

  lemma Cat4(a: Code, b: Code, c: Code, d: Code)
    ensures a + (b + (c + d)) == a + b + c + d
  {
    CatAssoc(b, c, d); CatAssoc(a, b + c, d); CatAssoc(a, b, c);
  }

  lemma Cat5(a: Code, b: Code, c: Code, d: Code, e: Code)
    ensures a + (b + (c + (d + e))) == a + b + c + d + e
  {
    Cat4(b, c, d, e); CatAssoc(a, b + c + d, e); Cat4(a, b, c, d); CatAssoc(b, c, d);
  }

  lemma Cat6(a: Code, b: Code, c: Code, d: Code, e: Code, f: Code)
    ensures a + (b + (c + (d + (e + f)))) == a + b + c + d + e + f
  {
    Cat5(b, c, d, e, f); CatAssoc(a, b + c + d + e, f); Cat5(a, b, c, d, e); Cat4(b, c, d, e);
  }

  /** Setting the offset of an instruction in the middle of the code. */
  lemma Patched(pre: Code, x: Instr, rest: Code, y: Instr)
    requires Size(x) == Size(y)
    ensures |pre + Wide(x) + rest| > |pre| && (pre + Wide(x) + rest)[|pre|] == x
    ensures (pre + Wide(x) + rest)[|pre| := y] == pre + Wide(y) + rest
  {
    var s, t := pre + Wide(x) + rest, pre + Wide(y) + rest;
    assert forall k :: 0 <= k < |s| ==> s[|pre| := y][k] == t[k];
  }

  /** Instruction 'x' with its operand cells between 'pre' and 'rest'. */
  ghost predicate At(code: Code, pre: Code, x: Instr, rest: Code) {
    code == pre + Wide(x) + rest
  }

  lemma AtEnd(pre: Code, x: Instr)
    ensures At(pre + Wide(x), pre, x, [])
  {
  }

  lemma AtEndIs(code: Code, pre: Code, x: Instr)
    requires At(code, pre, x, [])
    ensures code == pre + Wide(x)
  {
  }

  /** A patched test skips exactly the code after it. */
  lemma TestAt(code: Code, pre: Code, cs: Charset, rest: Code)
    requires HasOffset(TestInstr(cs, 0))
    requires At(code, pre, TestInstr(cs, 0).(offset := TestSize(cs, false) + |rest|), rest)
    ensures code == pre + CodeTestSet(cs, false, |rest|) + rest
  {
  }

  lemma GuardOfTest(pre: Code, cs: Charset, offset: int)
    ensures GuardAt(pre + Wide(TestInstr(cs, offset)), |pre|) == GuardOf(cs, false)
  {
    assert (pre + Wide(TestInstr(cs, offset)))[|pre|] == TestInstr(cs, offset);
  }

  lemma GuardKept(pre: Code, more: Code, tt: int)
    requires tt < |pre|
    ensures GuardAt(pre + more, tt) == GuardAt(pre, tt)
  {
  }

  // ----- closing calls in place --------------------------------------------------------

  /** A chain inside the last part of the code is the chain of that part alone. */
  lemma {:induction false} TargetShift(pre: Code, c: Code, i: int, f: nat)
    requires Inside(c) && 0 <= i <= |c|
    ensures FinalTarget(pre + c, |pre| + i, f) == |pre| + FinalTarget(c, i, f)
    ensures 0 <= FinalTarget(c, i, f) <= |c|
    decreases f
  {
    if i < |c| {
      assert (pre + c)[|pre| + i] == c[i];
      if c[i].IJmp? && f > 0 { TargetShift(pre, c, i + c[i].offset, f - 1); }
    }
  }

  lemma RetShift(pre: Code, c: Code, i: int, f: nat)
    requires Inside(c) && 0 <= i <= |c|
    ensures JumpsToRet(pre + c, |pre| + i, f) == JumpsToRet(c, i, f)
    ensures Lands(pre + c, |pre| + i, f) == Lands(c, i, f)
  {
    TargetShift(pre, c, i, f);
    var ft := FinalTarget(c, i, f);
    if ft < |c| { assert (pre + c)[|pre| + ft] == c[ft]; }
  }

  lemma ToRetDecided(c: Code, i: int, f: nat)
    requires Lands(c, i, f)
    ensures ToRet(c, i) <==> JumpsToRet(c, i, f)
  {
    if ToRet(c, i) {
      var f': nat :| JumpsToRet(c, i, f');
      assert Lands(c, i, f');
      if f <= f' { LandsStable(c, i, f, f'); } else { LandsStable(c, i, f', f); }
    }
  }

  lemma {:induction false} LandsBefore(c: Code, d: Code, i: int, f: nat)
    requires OnlyCallsDiffer(c, d) && Lands(d, i, f)
    ensures Lands(c, i, f)
    decreases f
  {
    if 0 <= i < |c| && c[i].IJmp? && f > 0 {
      LandsBefore(c, d, i + c[i].offset, f - 1);
    }
  }

  /** All chains of a grammar's finished code end. */
  lemma GrammarEnds(rs: seq<Tree>, a: nat, b: nat) returns (f: nat)
    requires |rs| > 0 && WfRules(rs) && GrammarsOk(Grammar(rs), b) && NoGaps(Grammar(rs), b)
    ensures var d := GrammarLayout(GenRules(rs, a, |rs|), Positions(rs, a));
            forall i :: 0 <= i <= |d| ==> Lands(d, i, f)
  {
    hide Gen, GenRules, GrammarLayout, Positions, Ends, GoodTree;
    var t, d := Grammar(rs), GrammarLayout(GenRules(rs, a, |rs|), Positions(rs, a));
    var x := Context(Program(d, []), [], a, []);
    UnfoldGrammar(x, t, NoTest, FULLSET, 0, 0);
    OtherEnds(d, |d|);
    PlacedSelf(d);
    GrammarGood(rs, b);
    TreeEndsGrammar(x, t, false, NoTest, FULLSET, 0, b, Depth(t));
    f := LandsBelow(d, |d| + 1);
  }

  lemma PlacedSelf(d: Code)
    ensures Placed(d, d, 0, [])
  {
  }

  lemma GrammarGood(rs: seq<Tree>, b: nat)
    requires |rs| > 0 && WfRules(rs) && GrammarsOk(Grammar(rs), b) && NoGaps(Grammar(rs), b)
    ensures CallsGood([], Grammar(rs), b) && Wf([], Grammar(rs))
  {
  }

  class CompileState {
    var code: Code

    constructor ()
      ensures code == []
    {
      code := [];
    }

    // ----- appending -------------------------------------------------------------------

    method AddInstruction(ins: Instr) returns (i: int)
      modifies this
      ensures code == old(code) + [ins] && i == |old(code)|
    {
      i := |code|;
      code := code + [ins];
    }

    /** An instruction and the cells of its operand, to be filled in later. */
    method AddWide(ins: Instr) returns (i: int)
      modifies this
      ensures code == old(code) + Wide(ins) && i == |old(code)|
    {
      i := AddInstruction(ins);
      var k := 1;
      while k < Size(ins)
        invariant 1 <= k <= Size(ins)
        invariant code == old(code) + Wide(ins)[..k]
      {
        var _ := AddInstruction(Pad);
        assert Wide(ins)[..k + 1] == Wide(ins)[..k] + [Pad];
        k := k + 1;
      }
      assert Wide(ins)[..k] == Wide(ins);
    }

    /** Patch instruction 'i', if there is one, to lead to 'target'. The ghost arguments say
        where it is: 'x' between 'pre' and 'rest'. */
    method JumpToThere(i: int, target: int, ghost pre: Code, ghost x: Instr, ghost rest: Code)
      requires i >= 0 ==> i == |pre| && HasOffset(x) && At(code, pre, x, rest)
      modifies this
      ensures i < 0 ==> code == old(code)
      ensures i >= 0 ==> At(code, pre, x.(offset := target - i), rest) && |code| == |old(code)|
    {
      if i >= 0 {
        Patched(pre, x, rest, x.(offset := target - i));
        code := code[i := code[i].(offset := target - i)];
      }
    }

    method JumpToHere(i: int, ghost pre: Code, ghost x: Instr, ghost rest: Code)
      requires i >= 0 ==> i == |pre| && HasOffset(x) && At(code, pre, x, rest)
      modifies this
      ensures i < 0 ==> code == old(code)
      ensures i >= 0 ==> At(code, pre, x.(offset := |old(code)| - i), rest) && |code| == |old(code)|
    {
      JumpToThere(i, |code|, pre, x, rest);
    }

    /** Let instruction 'x' at 'i' skip all the code after it, which makes it 'y'. */
    method Land(i: int, ghost pre: Code, ghost x: Instr, ghost y: Instr, ghost rest: Code)
      requires i == |pre| && HasOffset(x) && code == pre + Wide(x) + rest && y == x.(offset := |code| - i)
      modifies this
      ensures code == pre + Wide(y) + rest
    {
      hide At, Wide;
      AtIs(code, pre, x, rest);
      JumpToHere(i, pre, x, rest);
      IsAt(code, pre, y, rest);
    }

    // ----- single instructions ---------------------------------------------------------

    method CodeChar(c: byte, tt: int)
      requires ProperTest(code, tt)
      modifies this
      ensures code == old(code) + CodeGen.CodeChar(c, GuardAt(old(code), tt))
    {
      if tt >= 0 && code[tt].ITestChar? && code[tt].c == c {
        var _ := AddInstruction(IAny);
      } else {
        OtherGuard(code, tt, c);
        var _ := AddInstruction(IChar(c));
      }
    }

    method CodeCharset(cs: Charset, tt: int)
      requires ProperTest(code, tt)
      modifies this
      ensures code == old(code) + CodeGen.CodeCharset(cs, GuardAt(old(code), tt))
    {
      match CharsetType(cs)
      case One(c) => CodeChar(c, tt);
      case Many =>
        if tt >= 0 && code[tt].ITestSet? && code[tt].cs == cs {
          var _ := AddInstruction(IAny);
        } else {
          var _ := AddWide(ISet(cs));
        }
      case Empty => var _ := AddInstruction(IFail);
      case All => var _ := AddInstruction(IAny);
    }

    /** Emit a test whose target is not known yet; no test if the empty string is accepted. */
    method CodeTest(cs: Charset, e: bool) returns (test: int)
      modifies this
      ensures code == old(code) + (if e then [] else Wide(TestInstr(cs, 0)))
      ensures test == (if e then NOINST else |old(code)|)
      ensures ProperTest(code, test) && GuardAt(code, test) == GuardOf(cs, e)
    {
      if e {
        test := NOINST;
      } else {
        test := AddWide(TestInstr(cs, 0));
        GuardOfTest(old(code), cs, 0);
        assert code[test] == TestInstr(cs, 0);
      }
    }

    /** Let a test, if one was emitted, skip all the code after it. */
    method PatchTest(test: int, ghost pre: Code, cs: Charset, e: bool, ghost rest: Code)
      requires code == pre + (if e then [] else Wide(TestInstr(cs, 0))) + rest
      requires test == if e then NOINST else |pre|
      modifies this
      ensures code == pre + CodeTestSet(cs, e, |rest|) + rest
    {
      hide CharsetType;
      JumpToHere(test, pre, TestInstr(cs, 0), rest);
      if !e { TestAt(code, pre, cs, rest); }
    }

    method CodeBehindBy(n: nat)
      modifies this
      ensures code == old(code) + CodeBehind(n)
    {
      if n > 0 { var _ := AddInstruction(IBehind(n)); }
    }

    // ----- patterns --------------------------------------------------------------------

    /** Emit code for a tree. 'b' only says that the grammars in the tree have been accepted, so
        that closing their calls terminates. */
    method Codegen(g: seq<Tree>, a: nat, t: Tree, opt: bool, tt: int, fl: Charset, ghost b: nat)
      requires tt < |code| && ProperTest(code, tt) && Emittable(g, t, a, b)
      modifies this
      ensures code == old(code) + Gen(g, a, t, opt, GuardAt(old(code), tt), fl)
      decreases t, 1
    {
      hide Gen, GetFirst, HeadFail, FixedLen, HasCaptures, CharsetType, Emittable, CodeGen.CodeChar,
           CodeGen.CodeCharset;
      hide GrammarLayout, AndLayout;
      EmittableParts(g, t, a, b);
      ghost var x := Context(Program([], []), g, a, []);
      ghost var guard := GuardAt(code, tt);
      GenIgnores(x, t, opt, guard, fl);
      match t
      case Char(c) => UnfoldLeaf(x, t, guard, fl, 0, 0); CodeChar(c, tt);
      case AnyChar => UnfoldLeaf(x, t, guard, fl, 0, 0); var _ := AddInstruction(IAny);
      case Set(cs) => UnfoldLeaf(x, t, guard, fl, 0, 0); CodeCharset(cs, tt);
      case True => UnfoldLeaf(x, t, guard, fl, 0, 0);
      case False => UnfoldLeaf(x, t, guard, fl, 0, 0); var _ := AddInstruction(IFail);
      case Choice(p1, p2) => CodeChoice(g, a, t, opt, tt, fl, b);
      case Rep(p) => CodeRep(g, a, t, opt, tt, fl, b);
      case Behind(n, p) =>
        UnfoldPredicate(x, t, guard, fl, 0, 0);
        CodeBehindBy(n);
        ghost var mid := code;
        Codegen(g, a, p, false, NOINST, FULLSET, b);
        CatAssoc(old(code), CodeBehind(n), Gen(g, a, p, false, NoTest, FULLSET));
      case Not(p) => CodeNot(g, a, t, tt, fl, b);
      case And(p) => CodeAnd(g, a, t, tt, fl, b);
      case Capture(_, _, _) => CodeCapture(g, a, t, tt, fl, b);
      case Grammar(rs) =>
        UnfoldGrammar(x, t, guard, fl, 0, 0);
        CodeGrammar(rs, a, b);
      case Call(k) => UnfoldGrammar(x, t, guard, fl, 0, 0); var _ := AddWide(IOpenCall(k));
      case Seq(p1, p2) =>
        UnfoldSeq(x, t, opt, guard, fl, 0, 0);
        var fl1 := if NeedFollow(p1) then GetFirst(g, p2, fl, a).1 else FULLSET;
        Codegen(g, a, p1, false, tt, fl1, b);
        var tt2 := if FixedLen(g, p1, 0) != 0 then NOINST else tt;
        ghost var c1 := Gen(g, a, p1, false, guard, fl1);
        GuardKept(old(code), c1, tt);
        ProperKept(old(code), c1, tt);
        Codegen(g, a, p2, opt, tt2, fl, b);
        CatAssoc(old(code), c1, Gen(g, a, p2, opt, if tt2 < 0 then NoTest else guard, fl));
    }

    method CodeChoice(g: seq<Tree>, a: nat, t: Tree, opt: bool, tt: int, fl: Charset, ghost b: nat)
      requires t.Choice? && tt < |code| && ProperTest(code, tt) && Emittable(g, t, a, b)
      modifies this
      ensures code == old(code) + Gen(g, a, t, opt, GuardAt(old(code), tt), fl)
      decreases t, 0
    {
      hide Gen, GetFirst, HeadFail, CharsetType, Emittable, At, GuardAt, ProperTest;

      EmittableParts(g, t, a, b);
      ghost var x := Context(Program([], []), g, a, []);
      UnfoldChoice(x, t, opt, GuardAt(code, tt), fl, 0, 0);
      var p1, p2 := t.p1, t.p2;
      var (e1, cs1) := GetFirst(g, p1, FULLSET, a);
      ghost var pre := code;
      if HeadFail(g, p1, a) || (!e1 && cs1 !! GetFirst(g, p2, fl, a).1) {
        CodeTestChoice(g, a, t, opt, fl, b);
      } else if opt && p2.True? {
        ghost var c1 := Gen(g, a, p1, true, NoTest, FULLSET);
        var commit := AddWide(IPartialCommit(0));
        AtEnd(pre, IPartialCommit(0));
        JumpToHere(commit, pre, IPartialCommit(0), []);
        AtEndIs(code, pre, IPartialCommit(2));
        NoGuard(code);
        Codegen(g, a, p1, true, NOINST, FULLSET, b);
        CatAssoc(pre, Wide(IPartialCommit(2)), c1);
      } else {
        CodeFullChoice(g, a, t, opt, fl, b);
      }
    }

    method CodeTestChoice(g: seq<Tree>, a: nat, t: Tree, opt: bool, fl: Charset, ghost b: nat)
      requires t.Choice? && Emittable(g, t.p1, a, b) && Emittable(g, t.p2, a, b)
      modifies this
      ensures var cs1 := GetFirst(g, t.p1, FULLSET, a).1;
              code == old(code) + TestLayout(cs1, Gen(g, a, t.p1, false, GuardOf(cs1, false), fl),
                                             Gen(g, a, t.p2, opt, NoTest, fl), t.p2.True?)
      decreases t, 0, 0
    {
      hide Gen, GetFirst, HeadFail, CharsetType, Emittable, At, GuardAt, ProperTest, CodeTestSet, TestInstr;
      var p1, p2 := t.p1, t.p2;
      var cs1 := GetFirst(g, p1, FULLSET, a).1;
      ghost var pre := code;
      ghost var c1, c2 := Gen(g, a, p1, false, GuardOf(cs1, false), fl), Gen(g, a, p2, opt, NoTest, fl);
      ghost var J0 := if p2.True? then [] else Wide(IJmp(0));
      ghost var J1 := if p2.True? then [] else Wide(IJmp(2 + |c2|));
      ghost var T1 := CodeTestSet(cs1, false, |c1 + J0|);
      var jmp := CodeTested(g, a, p1, p2.True?, cs1, fl, b);
      NoGuard(code);
      Codegen(g, a, p2, opt, NOINST, fl, b);
      ghost var front := pre + T1 + c1;
      if !p2.True? {
        Land(jmp, front, IJmp(0), IJmp(2 + |c2|), c2);
      }
      assert code == front + J1 + c2;
      Cat5(pre, T1, c1, J1, c2);
    }

    /** The test, the first alternative, and a jump behind it unless it is the 'last' code. */
    method CodeTested(g: seq<Tree>, a: nat, p1: Tree, last: bool, cs1: Charset, fl: Charset,
                      ghost b: nat) returns (jmp: int)
      requires Emittable(g, p1, a, b)
      modifies this
      ensures var c1, J0 := Gen(g, a, p1, false, GuardOf(cs1, false), fl), if last then [] else Wide(IJmp(0));
              var front := old(code) + CodeTestSet(cs1, false, |c1 + J0|) + c1;
              code == front + J0 && (!last ==> jmp == |front|)
      decreases p1, 9
    {
      hide Gen, GetFirst, HeadFail, CharsetType, Emittable, At, GuardAt, ProperTest, CodeTestSet;
      ghost var pre := code;
      ghost var c1, J0 := Gen(g, a, p1, false, GuardOf(cs1, false), fl), if last then [] else Wide(IJmp(0));
      ghost var T0 := TestInstr(cs1, 0);
      var test := CodeTest(cs1, false);
      Codegen(g, a, p1, false, test, fl, b);
      jmp := NOINST;
      if !last { jmp := AddWide(IJmp(0)); }
      assert code == pre + Wide(T0) + c1 + J0 by { CatNil(pre + Wide(T0) + c1); }
      CatAssoc(pre + Wide(T0), c1, J0);
      AtIs(code, pre, T0, c1 + J0);
      JumpToHere(test, pre, T0, c1 + J0);
      TestAt(code, pre, cs1, c1 + J0);
      CatAssoc(pre + CodeTestSet(cs1, false, |c1 + J0|), c1, J0);
    }

    method CodeFullChoice(g: seq<Tree>, a: nat, t: Tree, opt: bool, fl: Charset, ghost b: nat)
      requires t.Choice? && Emittable(g, t.p1, a, b) && Emittable(g, t.p2, a, b)
      modifies this
      ensures var (e1, cs1) := GetFirst(g, t.p1, FULLSET, a);
              code == old(code) + ChoiceLayout(cs1, e1, Gen(g, a, t.p1, t.p2.True?, GuardOf(cs1, e1), FULLSET),
                                               Gen(g, a, t.p2, opt, NoTest, fl))
      decreases t, 0, 0
    {
      hide Gen, GetFirst, HeadFail, CharsetType, Emittable, At, GuardAt, ProperTest, CodeTestSet, Wide, TestInstr;
      var p1, p2 := t.p1, t.p2;
      var (e1, cs1) := GetFirst(g, p1, FULLSET, a);
      ghost var pre := code;
      ghost var c1 := Gen(g, a, p1, p2.True?, GuardOf(cs1, e1), FULLSET);
      ghost var c2 := Gen(g, a, p2, opt, NoTest, fl);
      ghost var T1 := CodeTestSet(cs1, e1, |c1| + 4);
      ghost var C1, H1 := Wide(ICommit(2 + |c2|)), Wide(IChoice(|c1| + 4));
      var commit := CodeAlternative(g, a, p1, p2.True?, cs1, e1, b);
      NoGuard(code);
      Codegen(g, a, p2, opt, NOINST, fl, b);
      ghost var front := pre + T1 + H1 + c1;
      Land(commit, front, ICommit(0), ICommit(2 + |c2|), c2);
      Cat6(pre, T1, H1, c1, C1, c2);
    }

    /** The first alternative under its choice, with a commit that still has to learn its target. */
    method CodeAlternative(g: seq<Tree>, a: nat, p1: Tree, last: bool, cs1: Charset, e1: bool,
                           ghost b: nat) returns (commit: int)
      requires Emittable(g, p1, a, b)
      modifies this
      ensures var c1 := Gen(g, a, p1, last, GuardOf(cs1, e1), FULLSET);
              var front := old(code) + CodeTestSet(cs1, e1, |c1| + 4) + Wide(IChoice(|c1| + 4)) + c1;
              code == front + Wide(ICommit(0)) && commit == |front|
      decreases p1, 9
    {
      hide Gen, GetFirst, HeadFail, CharsetType, Emittable, At, GuardAt, ProperTest, CodeTestSet, Wide, TestInstr;
      ghost var pre := code;
      ghost var c1 := Gen(g, a, p1, last, GuardOf(cs1, e1), FULLSET);
      ghost var T0, T1 := if e1 then [] else Wide(TestInstr(cs1, 0)), CodeTestSet(cs1, e1, |c1| + 4);
      ghost var C0, H1 := Wide(ICommit(0)), Wide(IChoice(|c1| + 4));
      var test := CodeTest(cs1, e1);
      var choice := AddWide(IChoice(0));
      GuardKept(pre + T0, Wide(IChoice(0)), test);
      ProperKept(pre + T0, Wide(IChoice(0)), test);
      Codegen(g, a, p1, last, test, FULLSET, b);
      commit := AddWide(ICommit(0));
      CatAssoc(pre + T0 + Wide(IChoice(0)), c1, C0);
      Land(choice, pre + T0, IChoice(0), IChoice(|c1| + 4), c1 + C0);
      CatAssoc(pre + T0, H1, c1 + C0);
      PatchTest(test, pre, cs1, e1, H1 + (c1 + C0));
      Cat4(pre + T1, H1, c1, C0);
    }

    method CodeRep(g: seq<Tree>, a: nat, t: Tree, opt: bool, tt: int, fl: Charset, ghost b: nat)
      requires t.Rep? && tt < |code| && ProperTest(code, tt) && Emittable(g, t, a, b)
      modifies this
      ensures code == old(code) + Gen(g, a, t, opt, GuardAt(old(code), tt), fl)
      decreases t, 0
    {
      hide Gen, GetFirst, HeadFail, CharsetType, Emittable, At, GuardAt, ProperTest;

      EmittableParts(g, t, a, b);
      ghost var x := Context(Program([], []), g, a, []);
      UnfoldRep(x, t, opt, GuardAt(code, tt), fl, 0, 0);
      var p := t.body;
      var (isSet, cs) := ToCharset(p);
      if isSet {
        var _ := AddWide(ISpan(cs));
      } else {
        var (e1, st) := GetFirst(g, p, FULLSET, a);
        if HeadFail(g, p, a) || (!e1 && st !! fl) {
          CodeTestLoop(g, a, t, b);
        } else {
          CodeChoiceLoop(g, a, t, opt, b);
        }
      }
    }

    method CodeTestLoop(g: seq<Tree>, a: nat, t: Tree, ghost b: nat)
      requires t.Rep? && Emittable(g, t.body, a, b)
      modifies this
      ensures var st := GetFirst(g, t.body, FULLSET, a).1;
              code == old(code) + TestLoopLayout(st, Gen(g, a, t.body, false, GuardOf(st, false), FULLSET))
      decreases t, 0, 0
    {
      hide Gen, GetFirst, HeadFail, CharsetType, Emittable, At, GuardAt, ProperTest, CodeTestSet;
      var p := t.body;
      var st := GetFirst(g, p, FULLSET, a).1;
      ghost var pre := code;
      ghost var c, T0 := Gen(g, a, p, false, GuardOf(st, false), FULLSET), TestInstr(st, 0);
      var test := CodeTest(st, false);
      Codegen(g, a, p, false, test, FULLSET, b);
      var jmp := AddWide(IJmp(0));
      ghost var J0 := Wide(IJmp(0));
      CatAssoc(pre + Wide(T0), c, J0);
      PatchTest(test, pre, st, false, c + J0);
      ghost var T1 := CodeTestSet(st, false, |c + J0|);
      CatAssoc(pre + T1, c, J0);
      ghost var back := IJmp(-(TestSize(st, false) + |c|));
      AtEnd(pre + T1 + c, IJmp(0));
      JumpToThere(jmp, test, pre + T1 + c, IJmp(0), []);
      AtEndIs(code, pre + T1 + c, back);
      Cat4(pre, T1, c, Wide(back));
    }

    /** Enter a loop: reuse the choice in place, or make one whose target is not known yet. */
    method CodeLoopEntry(opt: bool) returns (choice: int)
      modifies this
      ensures code == old(code) + Wide(if opt then IPartialCommit(2) else IChoice(0))
      ensures choice == if opt then NOINST else |old(code)|
    {
      if opt {
        var first := AddWide(IPartialCommit(0));
        AtEnd(old(code), IPartialCommit(0));
        JumpToHere(first, old(code), IPartialCommit(0), []);
        AtEndIs(code, old(code), IPartialCommit(2));
        choice := NOINST;
      } else {
        choice := AddWide(IChoice(0));
      }
    }

    /** L1: p; partialcommit L1 */
    method CodeLoopBody(g: seq<Tree>, a: nat, p: Tree, ghost b: nat)
      requires Emittable(g, p, a, b)
      modifies this
      ensures var c := Gen(g, a, p, false, NoTest, FULLSET);
              code == old(code) + c + Wide(IPartialCommit(-|c|))
      decreases p, 2
    {
      hide Gen, CharsetType, Emittable, At, GuardAt, ProperTest;
      ghost var front := code + Gen(g, a, p, false, NoTest, FULLSET);
      var l2 := |code|;
      NoGuard(code);
      Codegen(g, a, p, false, NOINST, FULLSET, b);
      var commit := AddWide(IPartialCommit(0));
      AtEnd(front, IPartialCommit(0));
      JumpToThere(commit, l2, front, IPartialCommit(0), []);
      AtEndIs(code, front, IPartialCommit(l2 - |front|));
    }

    method CodeChoiceLoop(g: seq<Tree>, a: nat, t: Tree, opt: bool, ghost b: nat)
      requires t.Rep? && Emittable(g, t.body, a, b)
      modifies this
      ensures var (e1, st) := GetFirst(g, t.body, FULLSET, a);
              code == old(code) + ChoiceLoopLayout(st, e1, opt, Gen(g, a, t.body, false, NoTest, FULLSET))
      decreases t, 0, 0
    {
      hide Gen, GetFirst, HeadFail, CharsetType, Emittable, At, GuardAt, ProperTest, CodeTestSet, Wide, TestInstr;

      var p := t.body;
      var (e1, st) := GetFirst(g, p, FULLSET, a);
      ghost var pre := code;
      ghost var c := Gen(g, a, p, false, NoTest, FULLSET);
      ghost var T0 := if e1 then [] else Wide(TestInstr(st, 0));
      ghost var F0, F1 := if opt then IPartialCommit(2) else IChoice(0),
                          if opt then IPartialCommit(2) else IChoice(|c| + 4);
      ghost var back := IPartialCommit(-|c|);
      var test := CodeTest(st, e1);
      var choice := CodeLoopEntry(opt);
      CodeLoopBody(g, a, p, b);
      CatAssoc(pre + T0 + Wide(F0), c, Wide(back));
      CodeLoopExit(test, choice, pre, st, e1, opt, c + Wide(back));
    }

    /** The choice of a loop, if it made one, and its test lead to the end. */
    method CodeLoopExit(test: int, choice: int, ghost pre: Code, st: Charset, e1: bool, opt: bool, ghost body: Code)
      requires var T0 := if e1 then [] else Wide(TestInstr(st, 0));
               && code == pre + T0 + Wide(if opt then IPartialCommit(2) else IChoice(0)) + body
               && choice == (if opt then NOINST else |pre + T0|)
      requires test == if e1 then NOINST else |pre|
      modifies this
      ensures var rest := Wide(if opt then IPartialCommit(2) else IChoice(|body| + 2)) + body;
              code == pre + (CodeTestSet(st, e1, |rest|) + rest)
    {
      hide At, CharsetType, CodeTestSet, TestInstr;
      ghost var T0 := if e1 then [] else Wide(TestInstr(st, 0));
      ghost var F0, F1 := if opt then IPartialCommit(2) else IChoice(0),
                          if opt then IPartialCommit(2) else IChoice(|body| + 2);
      if choice >= 0 { Land(choice, pre + T0, F0, F1, body); }
      ghost var rest := Wide(F1) + body;
      CatAssoc(pre + T0, Wide(F1), body);
      PatchTest(test, pre, st, e1, rest);
      CatAssoc(pre, CodeTestSet(st, e1, |rest|), rest);
    }

    method CodeNot(g: seq<Tree>, a: nat, t: Tree, tt: int, fl: Charset, ghost b: nat)
      requires t.Not? && tt < |code| && ProperTest(code, tt) && Emittable(g, t, a, b)
      modifies this
      ensures code == old(code) + Gen(g, a, t, false, GuardAt(old(code), tt), fl)
      decreases t, 0
    {
      hide Gen, GetFirst, HeadFail, CharsetType, Emittable, At, GuardAt, ProperTest, CodeTestSet, Wide, TestInstr, Eval;
      EmittableParts(g, t, a, b);
      ghost var x := Context(Program([], []), g, a, []);
      UnfoldPredicate(x, t, GuardAt(code, tt), fl, 0, 0);
      var p := t.body;
      ghost var pre := code;
      var (e, st) := GetFirst(g, p, FULLSET, a);
      ghost var T0 := if e then [] else Wide(TestInstr(st, 0));
      ghost var rest;
      var test := CodeTest(st, e);
      if HeadFail(g, p, a) {
        var _ := AddInstruction(IFail);
        rest := [IFail];
      } else {
        ghost var c := Gen(g, a, p, false, NoTest, FULLSET);
        var choice := AddWide(IChoice(0));
        NoGuard(code);
        Codegen(g, a, p, false, NOINST, FULLSET, b);
        var _ := AddInstruction(IFailTwice);
        CatAssoc(pre + T0 + Wide(IChoice(0)), c, [IFailTwice]);
        Land(choice, pre + T0, IChoice(0), IChoice(|c| + 3), c + [IFailTwice]);
        rest := Wide(IChoice(|c| + 3)) + (c + [IFailTwice]);
        CatAssoc(pre + T0, Wide(IChoice(|c| + 3)), c + [IFailTwice]);
      }
      PatchTest(test, pre, st, e, rest);
      CatAssoc(pre, CodeTestSet(st, e, |rest|), rest);
    }

    method CodeAnd(g: seq<Tree>, a: nat, t: Tree, tt: int, fl: Charset, ghost b: nat)
      requires t.And? && tt < |code| && ProperTest(code, tt) && Emittable(g, t, a, b)
      modifies this
      ensures code == old(code) + Gen(g, a, t, false, GuardAt(old(code), tt), fl)
      decreases t, 0
    {
      hide Gen, FixedLen, HasCaptures, Search, CharsetType, Emittable, At, GuardAt, ProperTest, Wide, TestInstr, Eval;
      EmittableParts(g, t, a, b);
      ghost var x := Context(Program([], []), g, a, []);
      UnfoldPredicate(x, t, GuardAt(code, tt), fl, 0, 0);
      var p := t.body;
      ghost var pre, guard := code, GuardAt(code, tt);
      ghost var c := Gen(g, a, p, false, guard, FULLSET);
      var n := FixedLen(g, p, 0);
      var searched := 0 <= n <= MAXBEHIND;
      var found := false;
      if searched {
        found := SearchCaptures(g, p, a);
        SearchAnswers(g, p, a);
      }
      if searched && !found {
        Codegen(g, a, p, false, tt, FULLSET, b);
        CodeBehindBy(n);
        CatAssoc(pre, c, CodeBehind(n));
      } else {
        CodeAndChoice(g, a, t, tt, b);
      }
    }

    /** The predicate with a choice that its end takes back. */
    method CodeAndChoice(g: seq<Tree>, a: nat, t: Tree, tt: int, ghost b: nat)
      requires t.And? && tt < |code| && ProperTest(code, tt) && Emittable(g, t, a, b)
      modifies this
      ensures code == old(code) + AndLayout(Gen(g, a, t.body, false, GuardAt(old(code), tt), FULLSET))
      decreases t.body, 5
    {
      hide Gen, Emittable, At, GuardAt, ProperTest, Wide;
      EmittableParts(g, t, a, b);
      ghost var pre := code;
      ghost var c := Gen(g, a, t.body, false, GuardAt(code, tt), FULLSET);
      var choice := AddWide(IChoice(0));
      GuardKept(pre, Wide(IChoice(0)), tt);
      ProperKept(pre, Wide(IChoice(0)), tt);
      Codegen(g, a, t.body, false, tt, FULLSET, b);
      var commit := AddWide(IBackCommit(0));
      ghost var B0, B1, H1 := Wide(IBackCommit(0)), Wide(IBackCommit(3)), Wide(IChoice(|c| + 4));
      CatAssoc(pre + Wide(IChoice(0)), c, B0);
      Land(choice, pre, IChoice(0), IChoice(|c| + 4), c + B0);
      CatAssoc(pre + H1, c, B0);
      var _ := AddInstruction(IFail);
      Land(commit, pre + H1 + c, IBackCommit(0), IBackCommit(3), [IFail]);
      Cat5(pre, H1, c, B1, [IFail]);
    }

    method CodeCapture(g: seq<Tree>, a: nat, t: Tree, tt: int, fl: Charset, ghost b: nat)
      requires t.Capture? && tt < |code| && ProperTest(code, tt) && Emittable(g, t, a, b)
      modifies this
      ensures code == old(code) + Gen(g, a, t, false, GuardAt(old(code), tt), fl)
      decreases t, 0
    {
      hide Gen, FixedLen, HasCaptures, Search, CharsetType, Emittable;
      EmittableParts(g, t, a, b);
      ghost var x := Context(Program([], []), g, a, []);
      UnfoldCapture(x, t, GuardAt(code, tt), fl, 0, 0);
      var p := t.body;
      ghost var pre, guard := code, GuardAt(code, tt);
      ghost var c := Gen(g, a, p, false, guard, fl);
      var len := FixedLen(g, p, 0);
      var searched := 0 <= len <= MAXOFF;
      var found := false;
      if searched {
        found := SearchCaptures(g, p, a);
        SearchAnswers(g, p, a);
      }
      if searched && !found {
        Codegen(g, a, p, false, tt, fl, b);
        var _ := AddInstruction(IFullCapture(t.kind, t.key, len));
        CatAssoc(pre, c, [IFullCapture(t.kind, t.key, len)]);
      } else {
        var open := [IOpenCapture(t.kind, t.key)];
        var _ := AddInstruction(IOpenCapture(t.kind, t.key));
        GuardKept(pre, open, tt);
        ProperKept(pre, open, tt);
        Codegen(g, a, p, false, tt, fl, b);
        var _ := AddInstruction(ICloseCapture);
        Cat4(pre, open, c, [ICloseCapture]);
      }
    }

    // ----- grammars --------------------------------------------------------------------

    method CodeGrammar(rs: seq<Tree>, a: nat, ghost b: nat)
      requires Emittable([], Grammar(rs), a, b)
      modifies this
      ensures code == old(code) + GrammarLayout(GenRules(rs, a, |rs|), Positions(rs, a))
      decreases rs, 0
    {
      hide Gen, Positions, CharsetType, CorrectCalls, Inside, Tiled, GenRules, Emittable, At;
      ghost var pre := code;
      var firstcall := AddWide(ICall(0));
      var jumptoend := AddWide(IJmp(0));
      var start := |code|;
      ghost var front := pre + Wide(ICall(4));
      Land(firstcall, pre, ICall(0), ICall(4), Wide(IJmp(0)));
      assert code == front + Wide(IJmp(0)) + GenRules(rs, a, 0) by { NoRules(rs, a); CatNil(code); }
      var positions: seq<int> := [];
      var k := 0;
      while k < |rs|
        invariant 0 <= k <= |rs| && |positions| == k
        invariant code == front + Wide(IJmp(0)) + GenRules(rs, a, k)
        invariant forall j :: 0 <= j < k ==> positions[j] == |pre| + 4 + |GenRules(rs, a, j)|
      {
        EmittableRule(rs, k, a, b);
        positions := positions + [|code|];
        NoGuard(code);
        Codegen(rs, a, rs[k], false, NOINST, FULLSET, b);
        var _ := AddInstruction(IRet);
        NextRule(rs, a, k, front + Wide(IJmp(0)));
        k := k + 1;
      }
      ghost var raw := GenRules(rs, a, |rs|);
      Land(jumptoend, front, IJmp(0), IJmp(2 + |raw|), raw);
      Cat4(pre, Wide(ICall(4)), Wide(IJmp(2 + |raw|)), raw);
      ShiftedPositions(rs, a, positions, |pre|);
      CloseCalls(rs, a, pre, positions, start, b);
    }

    /** Change open calls to calls, or to jumps where a return follows. */
    method CloseCalls(rs: seq<Tree>, a: nat, ghost pre: Code, positions: seq<int>, from: nat, ghost b: nat)
      requires Emittable([], Grammar(rs), a, b)
      requires var raw := GenRules(rs, a, |rs|);
               code == pre + (Wide(ICall(4)) + (Wide(IJmp(2 + |raw|)) + raw))
      requires positions == Shift(Positions(rs, a), |pre|) && from == |pre| + 4
      modifies this
      ensures code == pre + GrammarLayout(GenRules(rs, a, |rs|), Positions(rs, a))
    {
      hide Gen, GenRules, Positions, Tiled, CorrectCalls, CorrectCall, Inside, OnlyCallsDiffer, ToRet, Emittable,
           GrammarLayout, Lands, Shift, Wide;
      ghost var raw, rel := GenRules(rs, a, |rs|), Positions(rs, a);
      ghost var d := Wide(ICall(4)) + (Wide(IJmp(2 + |raw|)) + raw);
      ghost var final := GrammarLayout(raw, rel);
      CloseStart(rs, a, b);
      ghost var f := GrammarEndsOf(rs, a, b);
      var i := from;
      while i < |code|
        invariant from <= i && code == pre + d && i - |pre| <= |d| == |final|
        invariant CorrectCalls(d, rel, i - |pre|, |d|) == final
        invariant Tiled(d[i - |pre|..]) && Inside(d)
        decreases |code| - i
      {
        ghost var j := i - |pre|;
        assert code[i] == d[j];
        CloseStep(rs, a, d, j, final, f);
        ghost var d' := CorrectCall(d, rel, j);
        CloseCall(i, pre, d, positions, rel, f);
        d := d';
        assert code == pre + d;
        assert code[i] == d[j];
        i := i + Size(code[i]);
      }
      CloseEnd(d, rel, i - |pre|);
    }

    /** Close the instruction at 'i', if it is an open call. */
    method CloseCall(i: nat, ghost pre: Code, ghost d: Code, positions: seq<int>, ghost rel: seq<int>, ghost f: nat)
      requires |pre| <= i < |code| && code == pre + d && positions == Shift(rel, |pre|) && Inside(d)
      requires code[i].IOpenCall? ==> i + 2 <= |code| && Lands(d, i - |pre| + 2, f)
      modifies this
      ensures code == pre + CorrectCall(d, rel, i - |pre|)
    {
      hide Inside, ToRet, FinalTarget;
      ghost var j := i - |pre|;
      assert code[i] == d[j];
      if code[i].IOpenCall? && code[i].rule < |positions| {
        var rule := positions[code[i].rule];
        RetShift(pre, d, j + 2, f);
        ToRetDecided(d, j + 2, f);
        var ft := FinalTargetAt(i + 2, f);
        if 0 <= ft < |code| && code[ft].IRet? {
          code := code[i := IJmp(rule - i)];
        } else {
          code := code[i := ICall(rule - i)];
        }
      }
    }

    /** Follow a chain of jumps that is known to end. */
    method FinalTargetAt(start: int, ghost f: nat) returns (i: int)
      requires Lands(code, start, f)
      ensures i == FinalTarget(code, start, f)
    {
      i := start;
      ghost var left := f;
      while 0 <= i < |code| && code[i].IJmp?
        invariant FinalTarget(code, i, left) == FinalTarget(code, start, f) && Lands(code, i, left)
        decreases left
      {
        i := i + code[i].offset;
        left := left - 1;
      }
    }

    // ----- jump optimization in place --------------------------------------------------

    /** Move the label of instruction 'i' to the end of its jump chain. */
    method RelabelAt(i: nat, ghost c: Code, ghost fuel: nat)
      requires i < |code| && HasLabel(code[i]) && JumpsOk(c, fuel) && Refines(c, code, fuel)
      modifies this
      ensures code == Relabel(old(code), i, fuel)
    {
      ChainRefines(c, code, fuel, i + code[i].offset, fuel);
      var ft := FinalTargetAt(i + code[i].offset, fuel);
      code := code[i := SetLabel(code[i], ft - i)];
    }

    /** Optimize all jumps, from the first instruction to the last. */
    method Peephole(ghost fuel: nat)
      requires JumpsOk(code, fuel)
      modifies this
      ensures code == Optimize(old(code), fuel)
    {
      hide JumpsOk, Refines, FinalTarget;
      ghost var c := code;
      RefinesRefl(c, fuel);
      var i := 0;
      while i < |code|
        invariant 0 <= i && |code| == |c| && Refines(c, code, fuel)
        invariant PeepholeFrom(code, i, fuel) == Optimize(c, fuel)
        decreases |code| - i
      {
        PeepholeAtRefines(c, code, fuel, i);
        PeepholeInstr(i, c, fuel);
        i := i + Size(code[i]);
      }
    }

    method PeepholeInstr(i: nat, ghost c: Code, ghost fuel: nat)
      requires i < |code| && JumpsOk(c, fuel) && Refines(c, code, fuel)
      modifies this
      ensures code == PeepholeAt(old(code), i, fuel)
    {
      hide JumpsOk, Refines, FinalTarget;
      if HasLabel(code[i]) {
        RelabelAt(i, c, fuel);
      } else if code[i].IJmp? {
        ChainRefines(c, code, fuel, i, fuel);
        var ft := FinalTargetAt(i, fuel);
        if 0 <= ft < |code| && Commits(code[ft]) {
          ChainRefines(c, code, fuel, ft + code[ft].offset, fuel);
          var fft := FinalTargetAt(ft + code[ft].offset, fuel);
          BecomesCommit(c, code, fuel, i);
          code := code[i := SetLabel(code[ft], fft - i)];
          RelabelAt(i, c, fuel);
        } else if 0 <= ft < |code| && Leaves(code[ft]) {
          code := code[i := code[ft]];
          if i + 1 < |code| { code := code[i + 1 := IAny]; }
        } else {
          code := code[i := IJmp(ft - i)];
        }
      }
    }
  }

  /** A set tested with ITestSet is neither empty, full nor a single character. */
  predicate ProperTest(code: Code, tt: int) {
    tt < |code| && (tt >= 0 && code[tt].ITestSet? ==> CharsetType(code[tt].cs).Many?)
  }

  lemma ProperKept(pre: Code, more: Code, tt: int)
    requires ProperTest(pre, tt)
    ensures ProperTest(pre + more, tt)
  {
  }

  lemma OtherGuard(code: Code, tt: int, c: byte)
    requires ProperTest(code, tt) && !(tt >= 0 && code[tt].ITestChar? && code[tt].c == c)
    ensures GuardAt(code, tt) != Test({c})
  {
    if tt >= 0 && code[tt].ITestChar? { assert c in {c}; assert code[tt].c in {code[tt].c}; }
  }

  lemma GenIgnores(x: Context, t: Tree, opt: bool, tt: Guard, fl: Charset)
    ensures !t.Choice? && !t.Rep? && !t.Seq? ==>
              Gen(x.g, x.a, t, opt, tt, fl) == Gen(x.g, x.a, t, false, tt, fl)
  {
    if !t.Choice? && !t.Rep? && !t.Seq? { GenIgnoresOpt(x, t, opt, tt, fl); }
  }

  lemma AtIs(code: Code, pre: Code, x: Instr, rest: Code)
    requires code == pre + Wide(x) + rest
    ensures At(code, pre, x, rest)
  {
  }

  lemma IsAt(code: Code, pre: Code, x: Instr, rest: Code)
    ensures At(code, pre, x, rest) ==> code == pre + Wide(x) + rest
  {
  }

  lemma CatNil(c: Code)
    ensures c + [] == c
  {
  }

  lemma NoGuard(code: Code)
    ensures ProperTest(code, NOINST) && GuardAt(code, NOINST) == NoTest
  {
  }

  lemma NoRules(rs: seq<Tree>, a: nat)
    ensures GenRules(rs, a, 0) == []
  {
  }

  lemma NextRule(rs: seq<Tree>, a: nat, k: nat, front: Code)
    requires k < |rs|
    ensures front + GenRules(rs, a, k) + Gen(rs, a, rs[k], false, NoTest, FULLSET) + [IRet]
         == front + GenRules(rs, a, k + 1)
  {
    hide Gen;
    Cat4(front, GenRules(rs, a, k), Gen(rs, a, rs[k], false, NoTest, FULLSET), [IRet]);
  }

  /** A jump to a commit may become that commit before its label is looked at again. */
  lemma BecomesCommit(c: Code, d: Code, fuel: nat, i: nat)
    requires JumpsOk(c, fuel) && Refines(c, d, fuel) && i < |d| && d[i].IJmp?
    ensures var ft := FinalTarget(d, i, fuel);
            0 <= ft < |d| && Commits(d[ft]) ==>
              Refines(c, d[i := SetLabel(d[ft], FinalTarget(d, ft + d[ft].offset, fuel) - i)], fuel)
  {
    hide FinalTarget, Rank;
    var ft := FinalTarget(d, i, fuel);
    if 0 <= ft < |d| && Commits(d[ft]) {
      assert RefinesAt(c, d, fuel, i);
      assert RefinesAt(c, d, fuel, ft);
      ChainRefines(c, d, fuel, i, fuel);
      JumpRefines(c, d, fuel, i);
      ChainRefines(c, d, fuel, ft + d[ft].offset, fuel);
      var fft := FinalTarget(d, ft + d[ft].offset, fuel);
      var e := d[i := SetLabel(d[ft], fft - i)];
      assert i + e[i].offset == fft;
      RefinesUpdate(c, d, e, fuel, i);
    }
  }

  /** The tree has been accepted, and the generator's searches for captures in it end. */
  ghost predicate Emittable(g: seq<Tree>, t: Tree, a: nat, b: nat) {
    Wf(g, t) && GrammarsOk(t, b) && NoGaps(t, b) && Searched(g, t, a, a)
  }

  lemma EmittableParts(g: seq<Tree>, t: Tree, a: nat, b: nat)
    requires Emittable(g, t, a, b)
    ensures t.Seq? || t.Choice? ==> Emittable(g, t.p1, a, b) && Emittable(g, t.p2, a, b)
    ensures t.And? || t.Capture? || t.Behind? ==> Emittable(g, t.body, a, b)
    ensures t.Rep? && !ToCharset(t.body).0 ==> Emittable(g, t.body, a, b)
    ensures t.Not? && !HeadFail(g, t.body, a) ==> Emittable(g, t.body, a, b)
    ensures (t.And? || t.Capture?) && Asked(g, t) ==> !Search(g, t.body, a).NoAnswer?
    ensures t.Grammar? ==> Emittable([], t, a, b)
  {
    hide HeadFail, FixedLen, Search;
  }

  lemma EmittableRule(rs: seq<Tree>, k: nat, a: nat, b: nat)
    requires k < |rs| && Emittable([], Grammar(rs), a, b)
    ensures Emittable(rs, rs[k], a, b)
  {
  }

  lemma ShiftedPositions(rs: seq<Tree>, a: nat, positions: seq<int>, n: nat)
    requires |positions| == |rs| && forall j :: 0 <= j < |rs| ==> positions[j] == n + 4 + |GenRules(rs, a, j)|
    ensures positions == Shift(Positions(rs, a), n)
  {
    hide Gen;
    forall j | 0 <= j < |rs| ensures positions[j] == Shift(Positions(rs, a), n)[j] {
      assert Positions(rs, a)[j] == RulePos(rs, a, j);
    }
  }

  lemma CloseStart(rs: seq<Tree>, a: nat, b: nat)
    ensures var raw := GenRules(rs, a, |rs|);
            var c := Wide(ICall(4)) + (Wide(IJmp(2 + |raw|)) + raw);
            && Tiled(c[4..]) && Inside(c)
            && GrammarLayout(raw, Positions(rs, a)) == CorrectCalls(c, Positions(rs, a), 4, |c|)
  {
    hide Gen, GenRules, Tiled, JumpsWithin, CorrectCalls, Positions;
    var raw := GenRules(rs, a, |rs|);
    var x, y := Wide(ICall(4)), Wide(IJmp(2 + |raw|));
    GenRulesTiled(rs, a, |rs|);
    assert (x + (y + raw))[4..] == raw;
    RulesInside(Context(Program([], []), rs, a, []), |rs|);
    WithinWide(IJmp(2 + |raw|), 0, |y + raw|);
    WithinMore(raw, 0, |raw|, -2, |raw|);
    WithinCat(y, raw, 0, |y + raw|);
    InsideWide(ICall(4));
    InsideCat(x, y + raw);
  }

  lemma GrammarEndsOf(rs: seq<Tree>, a: nat, b: nat) returns (f: nat)
    requires Emittable([], Grammar(rs), a, b)
    ensures var d := GrammarLayout(GenRules(rs, a, |rs|), Positions(rs, a));
            forall i :: 0 <= i <= |d| ==> Lands(d, i, f)
  {
    f := GrammarEnds(rs, a, b);
  }

  /** One step of closing calls: what the loop needs to know and what it keeps. */
  lemma CloseStep(rs: seq<Tree>, a: nat, d: Code, j: nat, final: Code, f: nat)
    requires j < |d| && Tiled(d[j..]) && Inside(d)
    requires |d| == 4 + |GenRules(rs, a, |rs|)|
    requires CorrectCalls(d, Positions(rs, a), j, |d|) == final
    requires forall i :: 0 <= i <= |d| ==> Lands(final, i, f)
    ensures var d' := CorrectCall(d, Positions(rs, a), j);
            && |d'| == |d| && Size(d'[j]) == Size(d[j]) && j + Size(d[j]) <= |d|
            && CorrectCalls(d', Positions(rs, a), j + Size(d[j]), |d'|) == final
            && Tiled(d'[j + Size(d[j])..]) && Inside(d')
    ensures d[j].IOpenCall? ==> j + 2 <= |d| && Lands(d, j + 2, f)
  {
    hide Gen, GenRules, Tiled, CorrectCalls, Positions, ToRet, FinalTarget;
    var rel := Positions(rs, a);
    TiledAt(d, j);
    CorrectCallsSpec(d, rel, j);
    var d' := CorrectCall(d, rel, j);
    CorrectCallsStepAt(d, rel, j);
    assert d'[j + Size(d[j])..] == d[j + Size(d[j])..];
    if d[j].IOpenCall? {
      RuleInside(rs, a, d[j].rule);
      LandsBefore(d, final, j + 2, f);
    }
  }

  lemma CorrectCallsStepAt(c: Code, positions: seq<int>, i: nat)
    requires i < |c|
    ensures var d := CorrectCall(c, positions, i);
            CorrectCalls(c, positions, i, |c|) == CorrectCalls(d, positions, i + Size(d[i]), |d|)
  {
  }

  lemma CloseEnd(d: Code, rel: seq<int>, j: nat)
    requires j >= |d|
    ensures CorrectCalls(d, rel, j, |d|) == d
  {
  }

  /** Compile a pattern: generate, end with IEnd, optimize jumps. */
  method CompilePattern(t: Tree, ghost b: nat, ghost fuel: nat) returns (code: Code)
    requires Accepted(t, b) && NoGaps(t, b) && SearchesEnd([], t, BudgetOf(t))
    requires JumpsOk(GenPattern(t, BudgetOf(t)), fuel)
    ensures code == Compile(t, BudgetOf(t), fuel) && AllNarrow(code)
    ensures forall j :: 0 <= j < |code| ==> CleanAt(code, j)
  {
    hide Gen, JumpsOk, Optimize, BudgetOf, SearchesEnd, Searched, AllNarrow, CleanAt;
    var a := BudgetOf(t);
    var compst := new CompileState();
    AcceptedCalls(t, b);
    BudgetSearches(t);
    NoGuard([]);
    compst.Codegen([], a, t, false, NOINST, FULLSET, b);
    var _ := compst.AddInstruction(IEnd);
    assert [] + Gen([], a, t, false, NoTest, FULLSET) == Gen([], a, t, false, NoTest, FULLSET);
    compst.Peephole(fuel);
    code := compst.code;
    CodeNarrow(t, a, fuel);
    CompiledClean(t, a, fuel);
  }

  /** Match a pattern against a subject from a position: compile it and run the machine. For an
      accepted pattern this returns what the pattern means. */
  method MatchPattern(t: Tree, s: Subject, i: nat, ghost b: nat) returns (r: Result)
    requires Accepted(t, b) && NoGaps(t, b) && SearchesEnd([], t, BudgetOf(t)) && i <= |s|
    ensures exists n: nat :: !Eval([], s, t, i, n).Timeout? && r == Report(Eval([], s, t, i, n))
    ensures r.Success? ==> SizesFit(r.captures)
  {
    hide JumpsOk, Eval, Steps, BudgetOf, SearchesEnd, SizesFit, AllNarrow, CleanAt;
    ghost var a := BudgetOf(t);
    ghost var fuel0, n := AcceptedRuns(t, a, b, s, i);
    ghost var fuel1 := AcceptedJumps(t, a, b);
    ghost var fuel := fuel0 + fuel1;
    var code := CompilePattern(t, b, fuel);
    var p := Program(code, s);
    ghost var goal := Report(Eval([], s, t, i, n));
    assert RunsTo(p, Init(i), goal);
    ghost var m: nat :| Steps(p, Init(i), m) == Done(goal);
    r := Vm.Match(p, i, m, goal);
    if r.Success? { EncodeFits(Eval([], s, t, i, n).caps); }
  }
}

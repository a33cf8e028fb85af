/** Jumps of generated code stay inside the fragment that contains them, so closing the calls of
    a grammar does not depend on the code emitted before it. */
module Within {
  import opened Peg
  import opened Analysis
  import opened Machine
  import opened CodeGen
  import opened Layout
  import opened Correct

  /** Jumps lead to cells lo..hi, counted from the start of 'c'. */
  ghost predicate JumpsWithin(c: Code, lo: int, hi: int) {
    forall y :: 0 <= y < |c| && c[y].IJmp? ==> lo <= y + c[y].offset <= hi
  }

  lemma WithinCat(c: Code, d: Code, lo: int, hi: int)
    requires JumpsWithin(c, lo, hi) && JumpsWithin(d, lo - |c|, hi - |c|)
    ensures JumpsWithin(c + d, lo, hi)
  {
    forall y | 0 <= y < |c + d| && (c + d)[y].IJmp? ensures lo <= y + (c + d)[y].offset <= hi {
      if y >= |c| { assert (c + d)[y] == d[y - |c|]; }
    }
  }

  lemma WithinMore(c: Code, lo: int, hi: int, lo': int, hi': int)
    requires JumpsWithin(c, lo, hi) && lo' <= lo && hi <= hi'
    ensures JumpsWithin(c, lo', hi')
  {
  }

  lemma WithinWide(ins: Instr, lo: int, hi: int)
    requires ins.IJmp? ==> lo <= ins.offset <= hi
    ensures JumpsWithin(Wide(ins), lo, hi)
  {
  }

  /** The jumps of a fragment lead into it or to its end. */
  ghost predicate Inside(c: Code) {
    JumpsWithin(c, 0, |c|)
  }

  lemma InsideCat(c: Code, d: Code)
    requires Inside(c) && Inside(d)
    ensures Inside(c + d)
  {
    WithinMore(c, 0, |c|, 0, |c + d|);
    WithinMore(d, 0, |d|, -|c|, |d|);
    WithinCat(c, d, 0, |c + d|);
  }

  /** A test, if it is a jump, skips to its target. */
  lemma WithinTest(cs: Charset, e: bool, skip: int, lo: int, hi: int)
    requires lo <= TestSize(cs, e) + skip <= hi
    ensures JumpsWithin(CodeTestSet(cs, e, skip), lo, hi)
  {
    if !e { WithinWide(TestInstr(cs, TestSize(cs, e) + skip), lo, hi); }
  }

  lemma InsideTestLayout(cs: Charset, c1: Code, c2: Code, emptyp2: bool)
    requires Inside(c1) && Inside(c2)
    ensures Inside(TestLayout(cs, c1, c2, emptyp2))
  {
    hide JumpsWithin, CharsetType;
    var jmp := if emptyp2 then [] else Wide(IJmp(2 + |c2|));
    if !emptyp2 { WithinWide(IJmp(2 + |c2|), 0, |jmp + c2|); }
    WithinNil(0, |jmp + c2|);
    WithinMore(c2, 0, |c2|, -|jmp|, |c2|);
    WithinCat(jmp, c2, 0, |jmp + c2|);
    InsideCat(c1, jmp + c2);
    InsideTest(cs, false, |c1| + |jmp|, c1 + (jmp + c2));
  }

  lemma WithinNil(lo: int, hi: int)
    ensures JumpsWithin([], lo, hi)
  {
  }

  lemma InsideTest(cs: Charset, e: bool, skip: nat, c: Code)
    requires Inside(c) && skip <= |c|
    ensures Inside(CodeTestSet(cs, e, skip) + c)
  {
    var test := CodeTestSet(cs, e, skip);
    WithinTest(cs, e, skip, 0, |test + c|);
    WithinMore(c, 0, |c|, -|test|, |c|);
    WithinCat(test, c, 0, |test + c|);
  }

  lemma InsideWide(ins: Instr)
    requires !ins.IJmp?
    ensures Inside(Wide(ins))
  {
  }

  lemma InsideOne(ins: Instr)
    requires !ins.IJmp?
    ensures Inside([ins])
  {
  }

  lemma InsideLayouts(cs: Charset, e: bool, opt: bool, hf: bool, c1: Code, c2: Code)
    requires Inside(c1) && Inside(c2)
    ensures Inside(ChoiceLayout(cs, e, c1, c2))
    ensures Inside(ChoiceLoopLayout(cs, e, opt, c1))
    ensures Inside(AndLayout(c1)) && Inside(NotLayout(cs, e, hf, c1))
  {
    hide Inside, ChoiceLayout, ChoiceLoopLayout, AndLayout, NotLayout;
    InsideChoice(cs, e, c1, c2);
    InsideChoiceLoop(cs, e, opt, c1);
    InsideAnd(c1);
    InsideNot(cs, e, hf, c1);
  }

  lemma InsideChoice(cs: Charset, e: bool, c1: Code, c2: Code)
    requires Inside(c1) && Inside(c2)
    ensures Inside(ChoiceLayout(cs, e, c1, c2))
  {
    hide Inside, CharsetType;
    var choice, commit := Wide(IChoice(|c1| + 4)), Wide(ICommit(2 + |c2|));
    InsideWide(IChoice(|c1| + 4)); InsideWide(ICommit(2 + |c2|));
    InsideCat(commit, c2);
    InsideCat(c1, commit + c2);
    InsideCat(choice, c1 + (commit + c2));
    InsideTest(cs, e, |c1| + 4, choice + (c1 + (commit + c2)));
  }

  lemma InsideChoiceLoop(cs: Charset, e: bool, opt: bool, c1: Code)
    requires Inside(c1)
    ensures Inside(ChoiceLoopLayout(cs, e, opt, c1))
  {
    hide Inside, CharsetType;
    InsideWide(IChoice(|c1| + 4)); InsideWide(IPartialCommit(2)); InsideWide(IPartialCommit(-|c1|));
    var first, last := Wide(if opt then IPartialCommit(2) else IChoice(|c1| + 4)), Wide(IPartialCommit(-|c1|));
    InsideCat(c1, last);
    InsideCat(first, c1 + last);
    InsideTest(cs, e, |c1| + 4, first + (c1 + last));
  }

  lemma InsideAnd(c: Code)
    requires Inside(c)
    ensures Inside(AndLayout(c))
  {
    hide Inside;
    InsideWide(IChoice(|c| + 4)); InsideWide(IBackCommit(3)); InsideOne(IFail);
    InsideCat(Wide(IBackCommit(3)), [IFail]);
    InsideCat(c, Wide(IBackCommit(3)) + [IFail]);
    InsideCat(Wide(IChoice(|c| + 4)), c + (Wide(IBackCommit(3)) + [IFail]));
  }

  lemma InsideNot(cs: Charset, e: bool, hf: bool, c: Code)
    requires Inside(c)
    ensures Inside(NotLayout(cs, e, hf, c))
  {
    hide Inside, CharsetType;
    InsideWide(IChoice(|c| + 3)); InsideOne(IFail); InsideOne(IFailTwice);
    InsideCat(c, [IFailTwice]);
    InsideCat(Wide(IChoice(|c| + 3)), c + [IFailTwice]);
    InsideTest(cs, e, 1, [IFail]);
    InsideTest(cs, e, |c| + 3, Wide(IChoice(|c| + 3)) + (c + [IFailTwice]));
  }

  lemma InsideTestLoop(cs: Charset, c: Code)
    requires Inside(c)
    ensures Inside(TestLoopLayout(cs, c))
  {
    hide JumpsWithin, CharsetType;
    var test, back := CodeTestSet(cs, false, |c| + 2), IJmp(-(TestSize(cs, false) + |c|));
    var total := |test| + |c| + 2;
    WithinWide(back, -|test| - |c|, 2);
    WithinMore(c, 0, |c|, -|test|, |c| + 2);
    WithinCat(c, Wide(back), -|test|, |c| + 2);
    WithinTest(cs, false, |c| + 2, 0, total);
    WithinCat(test, c + Wide(back), 0, total);
  }

  /** Closing the calls of a grammar adds only jumps to its rules. */
  lemma InsideGrammar(rs: seq<Tree>, a: nat)
    requires Inside(GenRules(rs, a, |rs|))
    ensures Inside(GrammarLayout(GenRules(rs, a, |rs|), Positions(rs, a)))
  {
    hide Gen, GenRules, Tiled, ToRet, CorrectCalls, Positions;
    var raw := GenRules(rs, a, |rs|);
    var x, y := Wide(ICall(4)), Wide(IJmp(2 + |raw|));
    var c := x + (y + raw);
    var positions := Positions(rs, a);
    assert c[4..] == raw;
    WithinWide(IJmp(2 + |raw|), 0, |y + raw|);
    WithinMore(raw, 0, |raw|, -2, |raw|);
    WithinCat(y, raw, 0, |y + raw|);
    InsideWide(ICall(4));
    InsideCat(x, y + raw);
    GenRulesTiled(rs, a, |rs|);
    CorrectCallsSpec(c, positions, 4);
    var d := GrammarLayout(raw, positions);
    forall z | 0 <= z < |d| && d[z].IJmp? ensures 0 <= z + d[z].offset <= |d| {
      if z < 4 {
        assert d[..4][z] == c[..4][z];
      } else if c[z].IOpenCall? {
        var k := c[z].rule;
        OpenStays(c, positions, 4, z);
        RuleInside(rs, a, k);
      } else {
        assert d[z] == c[z];
      }
    }
  }

  /** An open call is closed only if its rule has a position. */
  lemma {:induction false} OpenStays(c: Code, positions: seq<int>, i: nat, z: nat)
    requires z < |c| && c[z].IOpenCall?
    ensures c[z].rule >= |positions| ==> CorrectCalls(c, positions, i, |c|)[z] == c[z]
    decreases if i < |c| then |c| - i else 0
  {
    hide ToRet;
    if i < |c| && c[z].rule >= |positions| {
      var d := CorrectCall(c, positions, i);
      OpenStays(d, positions, i + Size(d[i]), z);
    }
  }

  lemma RuleInside(rs: seq<Tree>, a: nat, k: nat)
    ensures k < |rs| ==>
              Positions(rs, a)[k] == 4 + |GenRules(rs, a, k)| && |GenRules(rs, a, k)| <= |GenRules(rs, a, |rs|)|
  {
    hide Gen;
    if k < |rs| {
      RulesGrow(rs, a, k, |rs|);
      assert Positions(rs, a)[k] == RulePos(rs, a, k);
    }
  }

  lemma {:induction false} RulesGrow(rs: seq<Tree>, a: nat, k: nat, m: nat)
    requires k <= m <= |rs|
    ensures |GenRules(rs, a, k)| <= |GenRules(rs, a, m)|
    decreases m
  {
    hide Gen;
    if k < m { RulesGrow(rs, a, k, m - 1); }
  }

  lemma {:induction false} GenInside(x: Context, t: Tree, opt: bool, tt: Guard, fl: Charset)
    ensures Inside(Gen(x.g, x.a, t, opt, tt, fl))
    decreases t
  {
    hide Gen, Inside, GetFirst, HeadFail, FixedLen, HasCaptures, CharsetType;
    hide TestLayout, ChoiceLayout, TestLoopLayout, ChoiceLoopLayout, AndLayout, NotLayout, GrammarLayout;
    var g, a := x.g, x.a;
    match t
    case Seq(p1, p2) =>
      UnfoldSeq(x, t, opt, tt, fl, 0, 0);
      var fl1 := if NeedFollow(p1) then GetFirst(g, p2, fl, a).1 else FULLSET;
      var tt2 := if FixedLen(g, p1, 0) != 0 then NoTest else tt;
      GenInside(x, p1, false, tt, fl1);
      GenInside(x, p2, opt, tt2, fl);
      InsideCat(Gen(g, a, p1, false, tt, fl1), Gen(g, a, p2, opt, tt2, fl));
    case Choice(p1, p2) =>
      UnfoldChoice(x, t, opt, tt, fl, 0, 0);
      var (e1, cs1) := GetFirst(g, p1, FULLSET, a);
      var c2 := Gen(g, a, p2, opt, NoTest, fl);
      GenInside(x, p2, opt, NoTest, fl);
      GenInside(x, p1, false, GuardOf(cs1, false), fl);
      GenInside(x, p1, p2.True?, GuardOf(cs1, e1), FULLSET);
      GenInside(x, p1, true, NoTest, FULLSET);
      InsideTestLayout(cs1, Gen(g, a, p1, false, GuardOf(cs1, false), fl), c2, p2.True?);
      InsideLayouts(cs1, e1, false, false, Gen(g, a, p1, p2.True?, GuardOf(cs1, e1), FULLSET), c2);
      InsideWide(IPartialCommit(2));
      InsideCat(Wide(IPartialCommit(2)), Gen(g, a, p1, true, NoTest, FULLSET));
    case Rep(p) =>
      UnfoldRep(x, t, opt, tt, fl, 0, 0);
      var (e1, st) := GetFirst(g, p, FULLSET, a);
      GenInside(x, p, false, GuardOf(st, false), FULLSET);
      GenInside(x, p, false, NoTest, FULLSET);
      InsideWide(ISpan(ToCharset(p).1));
      InsideTestLoop(st, Gen(g, a, p, false, GuardOf(st, false), FULLSET));
      InsideLayouts(st, e1, opt, false, Gen(g, a, p, false, NoTest, FULLSET), Gen(g, a, p, false, NoTest, FULLSET));
    case Grammar(rs) =>
      UnfoldGrammar(x, t, tt, fl, 0, 0); GenIgnoresOpt(x, t, opt, tt, fl);
      RulesInside(x.(g := rs), |rs|);
      InsideGrammar(rs, a);
    case Call(k) =>
      UnfoldGrammar(x, t, tt, fl, 0, 0); GenIgnoresOpt(x, t, opt, tt, fl);
      InsideWide(IOpenCall(k));
    case _ => GenInsideSimple(x, t, opt, tt, fl);
  }

  lemma {:induction false} GenInsideSimple(x: Context, t: Tree, opt: bool, tt: Guard, fl: Charset)
    requires !t.Seq? && !t.Choice? && !t.Rep? && !t.Grammar? && !t.Call?
    ensures Inside(Gen(x.g, x.a, t, opt, tt, fl))
    decreases t, 0
  {
    hide Gen, Inside, GetFirst, HeadFail, FixedLen, HasCaptures, CharsetType, AndLayout, NotLayout;
    GenIgnoresOpt(x, t, opt, tt, fl);
    var g, a := x.g, x.a;
    if t.Not? || t.And? || t.Behind? {
      UnfoldPredicate(x, t, tt, fl, 0, 0);
      var c, d := Gen(g, a, t.body, false, NoTest, FULLSET), Gen(g, a, t.body, false, tt, FULLSET);
      GenInside(x, t.body, false, NoTest, FULLSET);
      GenInside(x, t.body, false, tt, FULLSET);
      var (e, cs) := GetFirst(g, t.body, FULLSET, a);
      InsideLayouts(cs, e, false, HeadFail(g, t.body, a), c, c);
      InsideLayouts({}, false, false, false, d, d);
      var n := if t.Behind? then t.n else if FixedLen(g, t.body, 0) >= 0 then FixedLen(g, t.body, 0) else 0;
      InsideBehind(n);
      InsideCat(CodeBehind(n), c);
      InsideCat(d, CodeBehind(n));
    } else if t.Capture? {
      UnfoldCapture(x, t, tt, fl, 0, 0);
      var c := Gen(g, a, t.body, false, tt, fl);
      GenInside(x, t.body, false, tt, fl);
      var n := if FixedLen(g, t.body, 0) >= 0 then FixedLen(g, t.body, 0) else 0;
      InsideOne(IFullCapture(t.kind, t.key, n)); InsideOne(IOpenCapture(t.kind, t.key)); InsideOne(ICloseCapture);
      InsideCat(c, [IFullCapture(t.kind, t.key, n)]);
      InsideCat(c, [ICloseCapture]);
      InsideCat([IOpenCapture(t.kind, t.key)], c + [ICloseCapture]);
    } else {
      UnfoldLeaf(x, t, tt, fl, 0, 0);
      LeafInside(t, tt);
    }
  }

  lemma LeafInside(t: Tree, tt: Guard)
    ensures t.Char? ==> Inside(CodeChar(t.c, tt))
    ensures t.Set? ==> Inside(CodeCharset(t.cs, tt))
    ensures Inside([]) && Inside([IAny]) && Inside([IFail])
  {
    hide CharsetType;
  }

  lemma InsideBehind(n: nat)
    ensures Inside(CodeBehind(n))
  {
  }

  lemma {:induction false} RulesInside(x: Context, k: nat)
    requires k <= |x.g|
    ensures Inside(GenRules(x.g, x.a, k))
    decreases x.g, k
  {
    hide Gen, Inside;
    LeafInside(True, NoTest);
    if k > 0 {
      var c := Gen(x.g, x.a, x.g[k - 1], false, NoTest, FULLSET);
      RulesInside(x, k - 1);
      GenInside(x, x.g[k - 1], false, NoTest, FULLSET);
      InsideOne(IRet);
      InsideCat(c, [IRet]);
      InsideCat(GenRules(x.g, x.a, k - 1), c + [IRet]);
    }
  }
}

/** The code of an accepted pattern does not depend on the budgets of the analyses, once they are
    large enough: it is the code that the program generates, whose recursions have no budgets. */
module Settled {
  import opened Peg
  import opened Analysis
  import opened Accept
  import opened Machine
  import opened CodeGen
  import opened Budgets
  import opened CaptureSearch
  import opened Correct
  import opened Layout

  /** Enough for every analysis of the pattern and for every search in it. */
  function BudgetOf(t: Tree): nat {
    Enough(0, Depth(t)) + MAXRULES + 2 + Room(t)
  }

  lemma BudgetSearches(t: Tree)
    requires SearchesEnd([], t, BudgetOf(t))
    ensures Searched([], t, BudgetOf(t), BudgetOf(t))
  {
    hide SearchesEnd, Searched;
    GeneratorEnds([], t, BudgetOf(t), BudgetOf(t));
  }

  /** A budget that is enough at this place. */
  ghost predicate Ample(g: seq<Tree>, t: Tree, n: nat, h: nat) {
    n > Enough(0, h) + MAXRULES + 1 && n >= |g| + Max(RoomOf(g), Room(t))
  }

  lemma AmpleParts(g: seq<Tree>, t: Tree, n: nat, h: nat)
    requires Ample(g, t, n, h)
    ensures t.Rep? || t.Not? || t.And? || t.Behind? || t.Capture? ==> Ample(g, t.body, n, h)
    ensures t.Seq? || t.Choice? ==> Ample(g, t.p1, n, h) && Ample(g, t.p2, n, h)
    ensures t.Grammar? && h > 0 ==> forall k :: 0 <= k < |t.rules| ==> Ample(t.rules, t.rules[k], n, h - 1)
  {
    hide Room;
    UnfoldHeight(g, t);
    if t.Grammar? && h > 0 {
      EnoughNext(0, h);
      forall k | 0 <= k < |t.rules| ensures Ample(t.rules, t.rules[k], n, h - 1) { RoomRule(t.rules, k); }
    }
  }

  /** The searches below the tree end. */
  lemma EndParts(g: seq<Tree>, t: Tree, a: nat)
    requires SearchesEnd(g, t, a)
    ensures t.Seq? || t.Choice? ==> SearchesEnd(g, t.p1, a) && SearchesEnd(g, t.p2, a)
    ensures t.And? || t.Capture? || t.Behind? ==> SearchesEnd(g, t.body, a)
    ensures t.Rep? && !ToCharset(t.body).0 ==> SearchesEnd(g, t.body, a)
    ensures t.Not? && !HeadFail(g, t.body, a) ==> SearchesEnd(g, t.body, a)
    ensures (t.And? || t.Capture?) && Asked(g, t) ==> !Scan(g, t.body, {}).NoAnswer?
    ensures t.Grammar? ==> forall k :: 0 <= k < |t.rules| ==> SearchesEnd(t.rules, t.rules[k], a)
  {
    hide HeadFail, FixedLen, Scan;
  }

  /** What the budgets and the place of a tree have to be. */
  ghost predicate Settles(g: seq<Tree>, t: Tree, b: nat, c: nat, d: nat, h: nat) {
    GoodPlace(g, t, b, h) && SearchesEnd(g, t, c) && Ample(g, t, c, h) && Ample(g, t, d, h)
  }

  lemma SettlesParts(g: seq<Tree>, t: Tree, b: nat, c: nat, d: nat, h: nat)
    requires Settles(g, t, b, c, d, h)
    ensures t.Seq? || t.Choice? ==> Settles(g, t.p1, b, c, d, h) && Settles(g, t.p2, b, c, d, h)
    ensures t.And? || t.Capture? || t.Behind? ==> Settles(g, t.body, b, c, d, h)
    ensures t.Rep? && !ToCharset(t.body).0 ==> Settles(g, t.body, b, c, d, h)
    ensures t.Not? && !HeadFail(g, t.body, c) ==> Settles(g, t.body, b, c, d, h)
    ensures t.Grammar? ==>
              h > 0 && forall k :: 0 <= k < |t.rules| ==> Settles(t.rules, t.rules[k], b, c, d, h - 1)
  {
    hide GoodPlace, SearchesEnd, Ample;
    GoodPlaceParts(g, t, b, h);
    EndParts(g, t, c);
    AmpleParts(g, t, c, h);
    AmpleParts(g, t, d, h);
    if t.Grammar? {
      forall k | 0 <= k < |t.rules| ensures GoodPlace(t.rules, t.rules[k], b, h - 1) { RulePlace(g, t, k, b, h); }
    }
  }

  lemma RulePlace(g: seq<Tree>, t: Tree, k: nat, b: nat, h: nat)
    requires t.Grammar? && k < |t.rules| && GoodPlace(g, t, b, h) && h > 0
    ensures GoodPlace(t.rules, t.rules[k], b, h - 1)
  {
    hide VerifyRule, Repaired, GoodRule, Used;
    RulesCallsGood(t.rules, k, b);
    DepthRule(t.rules, k);
    EnoughNext(0, h);
  }

  lemma FirstSame(g: seq<Tree>, t: Tree, fl: Charset, b: nat, c: nat, d: nat, h: nat)
    requires GoodPlace(g, t, b, h) && Ample(g, t, c, h) && Ample(g, t, d, h)
    ensures GetFirst(g, t, fl, c) == GetFirst(g, t, fl, d) && HeadFail(g, t, c) == HeadFail(g, t, d)
  {
    hide GoodPlace, GetFirst, HeadFail;
    FirstSettles(g, t, fl, b, c, d, h);
    HeadFailSettles(g, t, b, c, d, h);
  }

  lemma SearchSame(g: seq<Tree>, t: Tree, c: nat, d: nat)
    requires !Scan(g, t, {}).NoAnswer?
    requires c >= |g| + Max(RoomOf(g), Room(t)) && d >= |g| + Max(RoomOf(g), Room(t))
    ensures HasCaptures(g, t, c) == HasCaptures(g, t, d)
  {
    hide Search, Scan, HasCaptures;
    SearchExact(g, t, c);
    SearchExact(g, t, d);
    SearchAnswers(g, t, c);
    SearchAnswers(g, t, d);
  }

  // ----- the code ------------------------------------------------------------------------

  function Bare(g: seq<Tree>, a: nat): Context {
    Context(Program([], []), g, a, [])
  }

  /** Sufficient budgets give one code. */
  lemma {:induction false} GenSettles(g: seq<Tree>, t: Tree, opt: bool, tt: Guard, fl: Charset, b: nat, c: nat,
                                      d: nat, h: nat)
    requires Settles(g, t, b, c, d, h)
    ensures Gen(g, c, t, opt, tt, fl) == Gen(g, d, t, opt, tt, fl)
    decreases t, 2
  {
    hide Gen, Eval, Settles, GetFirst, HeadFail, FixedLen, HasCaptures, CharsetType, CodeChar, CodeCharset;
    SettlesParts(g, t, b, c, d, h);
    match t
    case Choice(_, _) => ChoiceSettles(g, t, opt, tt, fl, b, c, d, h);
    case Seq(_, _) => SeqSettles(g, t, opt, tt, fl, b, c, d, h);
    case Rep(_) => RepSettles(g, t, opt, tt, fl, b, c, d, h);
    case Not(_) => NotSettles(g, t, opt, tt, fl, b, c, d, h);
    case And(_) => AskedSettles(g, t, opt, tt, fl, b, c, d, h);
    case Capture(_, _, _) => AskedSettles(g, t, opt, tt, fl, b, c, d, h);
    case Behind(_, p) =>
      GenSettles(g, p, false, NoTest, FULLSET, b, c, d, h);
      SameOpt(g, t, opt, tt, fl, c, d);
      UnfoldPredicate(Bare(g, c), t, tt, fl, 0, 0);
      UnfoldPredicate(Bare(g, d), t, tt, fl, 0, 0);
    case Grammar(rs) =>
      RulesSettle(rs, |rs|, b, c, d, h - 1);
      forall k | 0 <= k <= |rs| ensures GenRules(rs, c, k) == GenRules(rs, d, k) { RulesSettle(rs, k, b, c, d, h - 1); }
      SamePositions(rs, c, d);
      SameOpt(g, t, opt, tt, fl, c, d);
      UnfoldGrammar(Bare(g, c), t, tt, fl, 0, 0);
      UnfoldGrammar(Bare(g, d), t, tt, fl, 0, 0);
    case Call(_) =>
      SameOpt(g, t, opt, tt, fl, c, d);
      UnfoldGrammar(Bare(g, c), t, tt, fl, 0, 0);
      UnfoldGrammar(Bare(g, d), t, tt, fl, 0, 0);
    case _ =>
      SameOpt(g, t, opt, tt, fl, c, d);
      UnfoldLeaf(Bare(g, c), t, tt, fl, 0, 0);
      UnfoldLeaf(Bare(g, d), t, tt, fl, 0, 0);
  }

  lemma SameOpt(g: seq<Tree>, t: Tree, opt: bool, tt: Guard, fl: Charset, c: nat, d: nat)
    requires !t.Choice? && !t.Rep? && !t.Seq?
    ensures Gen(g, c, t, opt, tt, fl) == Gen(g, c, t, false, tt, fl)
    ensures Gen(g, d, t, opt, tt, fl) == Gen(g, d, t, false, tt, fl)
  {
    GenIgnoresOpt(Bare(g, c), t, opt, tt, fl);
    GenIgnoresOpt(Bare(g, d), t, opt, tt, fl);
  }

  lemma SamePositions(rs: seq<Tree>, c: nat, d: nat)
    requires forall k :: 0 <= k <= |rs| ==> GenRules(rs, c, k) == GenRules(rs, d, k)
    ensures Positions(rs, c) == Positions(rs, d)
  {
    hide GenRules;
    forall k | 0 <= k < |rs| ensures Positions(rs, c)[k] == Positions(rs, d)[k] {
      assert GenRules(rs, c, k) == GenRules(rs, d, k);
    }
  }

  lemma {:induction false} ChoiceSettles(g: seq<Tree>, t: Tree, opt: bool, tt: Guard, fl: Charset, b: nat, c: nat,
                                         d: nat, h: nat)
    requires t.Choice? && Settles(g, t, b, c, d, h)
    ensures Gen(g, c, t, opt, tt, fl) == Gen(g, d, t, opt, tt, fl)
    decreases t, 1
  {
    hide Gen, Eval, GetFirst, HeadFail, CharsetType, TestLayout, ChoiceLayout, GoodPlace, SearchesEnd, Ample;
    SettlesParts(g, t, b, c, d, h);
    var p1, p2 := t.p1, t.p2;
    UnfoldChoice(Bare(g, c), t, opt, tt, fl, 0, 0);
    UnfoldChoice(Bare(g, d), t, opt, tt, fl, 0, 0);
    FirstSame(g, p1, FULLSET, b, c, d, h);
    FirstSame(g, p2, fl, b, c, d, h);
    var (e1, cs1) := GetFirst(g, p1, FULLSET, c);
    GenSettles(g, p1, false, GuardOf(cs1, false), fl, b, c, d, h);
    GenSettles(g, p1, true, NoTest, FULLSET, b, c, d, h);
    GenSettles(g, p1, p2.True?, GuardOf(cs1, e1), FULLSET, b, c, d, h);
    GenSettles(g, p2, opt, NoTest, fl, b, c, d, h);
  }

  lemma {:induction false} SeqSettles(g: seq<Tree>, t: Tree, opt: bool, tt: Guard, fl: Charset, b: nat, c: nat,
                                      d: nat, h: nat)
    requires t.Seq? && Settles(g, t, b, c, d, h)
    ensures Gen(g, c, t, opt, tt, fl) == Gen(g, d, t, opt, tt, fl)
    decreases t, 1
  {
    hide Gen, Eval, GetFirst, HeadFail, FixedLen, CharsetType, GoodPlace, SearchesEnd, Ample;
    SettlesParts(g, t, b, c, d, h);
    UnfoldSeq(Bare(g, c), t, opt, tt, fl, 0, 0);
    UnfoldSeq(Bare(g, d), t, opt, tt, fl, 0, 0);
    FirstSame(g, t.p2, fl, b, c, d, h);
    var fl1 := if NeedFollow(t.p1) then GetFirst(g, t.p2, fl, c).1 else FULLSET;
    GenSettles(g, t.p1, false, tt, fl1, b, c, d, h);
    GenSettles(g, t.p2, opt, if FixedLen(g, t.p1, 0) != 0 then NoTest else tt, fl, b, c, d, h);
  }

  lemma {:induction false} RepSettles(g: seq<Tree>, t: Tree, opt: bool, tt: Guard, fl: Charset, b: nat, c: nat,
                                      d: nat, h: nat)
    requires t.Rep? && Settles(g, t, b, c, d, h)
    ensures Gen(g, c, t, opt, tt, fl) == Gen(g, d, t, opt, tt, fl)
    decreases t, 1
  {
    hide Gen, Eval, GetFirst, HeadFail, CharsetType, TestLoopLayout, ChoiceLoopLayout, GoodPlace, SearchesEnd, Ample;
    SettlesParts(g, t, b, c, d, h);
    UnfoldRep(Bare(g, c), t, opt, tt, fl, 0, 0);
    UnfoldRep(Bare(g, d), t, opt, tt, fl, 0, 0);
    if !ToCharset(t.body).0 {
      FirstSame(g, t.body, FULLSET, b, c, d, h);
      var st := GetFirst(g, t.body, FULLSET, c).1;
      GenSettles(g, t.body, false, GuardOf(st, false), FULLSET, b, c, d, h);
      GenSettles(g, t.body, false, NoTest, FULLSET, b, c, d, h);
    }
  }

  lemma {:induction false} NotSettles(g: seq<Tree>, t: Tree, opt: bool, tt: Guard, fl: Charset, b: nat, c: nat,
                                      d: nat, h: nat)
    requires t.Not? && Settles(g, t, b, c, d, h)
    ensures Gen(g, c, t, opt, tt, fl) == Gen(g, d, t, opt, tt, fl)
    decreases t, 1
  {
    hide Gen, Eval, GetFirst, HeadFail, CharsetType, CodeTestSet, GoodPlace, SearchesEnd, Ample;
    SettlesParts(g, t, b, c, d, h);
    SameOpt(g, t, opt, tt, fl, c, d);
    UnfoldPredicate(Bare(g, c), t, tt, fl, 0, 0);
    UnfoldPredicate(Bare(g, d), t, tt, fl, 0, 0);
    GoodPlaceParts(g, t, b, h);
    AmpleParts(g, t, c, h);
    AmpleParts(g, t, d, h);
    FirstSame(g, t.body, FULLSET, b, c, d, h);
    if !HeadFail(g, t.body, c) { GenSettles(g, t.body, false, NoTest, FULLSET, b, c, d, h); }
  }

  lemma {:induction false} AskedSettles(g: seq<Tree>, t: Tree, opt: bool, tt: Guard, fl: Charset, b: nat, c: nat,
                                        d: nat, h: nat)
    requires (t.And? || t.Capture?) && Settles(g, t, b, c, d, h)
    ensures Gen(g, c, t, opt, tt, fl) == Gen(g, d, t, opt, tt, fl)
    decreases t, 1
  {
    hide Gen, Eval, FixedLen, HasCaptures, Scan, CharsetType, AndLayout, CodeBehind, GoodPlace, SearchesEnd;
    SettlesParts(g, t, b, c, d, h);
    SameOpt(g, t, opt, tt, fl, c, d);
    EndParts(g, t, c);
    if Asked(g, t) { SearchSame(g, t.body, c, d); }
    if t.And? {
      UnfoldPredicate(Bare(g, c), t, tt, fl, 0, 0);
      UnfoldPredicate(Bare(g, d), t, tt, fl, 0, 0);
      GenSettles(g, t.body, false, tt, FULLSET, b, c, d, h);
    } else {
      UnfoldCapture(Bare(g, c), t, tt, fl, 0, 0);
      UnfoldCapture(Bare(g, d), t, tt, fl, 0, 0);
      GenSettles(g, t.body, false, tt, fl, b, c, d, h);
    }
  }

  lemma {:induction false} RulesSettle(rs: seq<Tree>, k: nat, b: nat, c: nat, d: nat, h: nat)
    requires k <= |rs| && forall j :: 0 <= j < |rs| ==> Settles(rs, rs[j], b, c, d, h)
    ensures GenRules(rs, c, k) == GenRules(rs, d, k)
    decreases rs, 0, k
  {
    hide Gen, Settles;
    if k > 0 {
      RulesSettle(rs, k - 1, b, c, d, h);
      GenSettles(rs, rs[k - 1], false, NoTest, FULLSET, b, c, d, h);
    }
  }

  /** The code of an accepted pattern is the same for all sufficient budgets, provided that the
      searches for captures end. */
  lemma PatternSettles(t: Tree, a: nat, b: nat)
    requires Accepted(t, b) && NoGaps(t, b) && b >= BudgetOf(t) && SearchesEnd([], t, BudgetOf(t))
    requires a >= BudgetOf(t)
    ensures GenPattern(t, a) == GenPattern(t, BudgetOf(t))
  {
    hide Gen, GoodIn, CallsGood, SearchesEnd;
    AcceptedGood(t, b);
    assert CallsGood([], t, b) by { GoodCalls([], t, b); }
    assert Wf([], t) && RoomOf([]) == 0;
    GenSettles([], t, false, NoTest, FULLSET, b, BudgetOf(t), a, Depth(t));
  }

  lemma GoodCalls(g: seq<Tree>, t: Tree, a: nat)
    requires GoodIn(g, t, a)
    ensures CallsGood(g, t, a)
  {
  }
}

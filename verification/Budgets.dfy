/** For accepted patterns the budgets do not matter: the program's unbounded recursions end, and
    every sufficient budget gives their answers. */
module Budgets {
  import opened Peg
  import opened Analysis
  import opened Accept

  /** Enough for a walk that may still follow MAXRULES - npassed calls, with 'h' levels of
      sub-grammars below. */
  function Enough(npassed: nat, h: nat): nat
    requires npassed <= MAXRULES
  {
    MAXRULES - npassed + (MAXRULES + 1) * h
  }

  lemma EnoughNext(npassed: nat, h: nat)
    requires npassed <= MAXRULES
    ensures npassed < MAXRULES ==> Enough(npassed, h) == Enough(npassed + 1, h) + 1
    ensures h > 0 ==> Enough(npassed, h) > Enough(0, h - 1)
    ensures Enough(npassed, h) <= Enough(0, h)
  {
    if h > 0 { assert (MAXRULES + 1) * h == (MAXRULES + 1) * (h - 1) + MAXRULES + 1; }
  }

  /** A tree that verifyrule has walked through. */
  ghost predicate Walked(g: seq<Tree>, t: Tree, npassed: nat, nb: bool, a: nat, h: nat) {
    && GoodIn(g, t, a) && Wf(g, t) && WfRules(g)
    && DepthOf(g) <= h && Depth(t) <= h
    && npassed <= MAXRULES && Repaired(g, t, npassed, nb, a).Ok?
    && a >= Enough(0, h)
  }

  lemma WalkedParts(g: seq<Tree>, t: Tree, npassed: nat, nb: bool, a: nat, h: nat)
    requires Walked(g, t, npassed, nb, a, h)
    ensures t.Rep? || t.Not? || t.And? ==> Walked(g, t.body, npassed, true, a, h)
    ensures t.Capture? ==> Walked(g, t.body, npassed, nb, a, h)
    ensures t.Call? ==> t.rule < |g| && npassed < MAXRULES && Walked(g, g[t.rule], npassed + 1, nb, a, h)
    ensures t.Seq? ==>
              && Walked(g, t.p1, npassed, false, a, h)
              && (Repaired(g, t.p1, npassed, false, a) == Ok(true) ==> Walked(g, t.p2, npassed, nb, a, h))
    ensures t.Choice? ==>
              && npassed <= MAXRULES && Repaired(g, t.p1, npassed, nb, a).Ok?
              && Walked(g, t.p1, npassed, nb, a, h)
              && Walked(g, t.p2, npassed, Repaired(g, t.p1, npassed, nb, a).nullable, a, h)
    ensures t.Grammar? ==>
              |t.rules| > 0 && h > 0 && Walked(t.rules, t.rules[0], 0, false, a, h - 1)
  {
    hide GoodIn, GoodTree, GoodRule;
    GoodParts(g, t, a);
    if t.Call? { DepthRule(g, t.rule); }
    if t.Grammar? { WalkedGrammar(g, t, a, h); }
  }

  lemma WalkedGrammar(g: seq<Tree>, t: Tree, a: nat, h: nat)
    requires t.Grammar? && GoodTree(t, a) && Wf(g, t) && Depth(t) <= h && a >= Enough(0, h)
    ensures |t.rules| > 0 && h > 0 && Walked(t.rules, t.rules[0], 0, false, a, h - 1)
  {
    hide VerifyRule, Repaired;
    var rs := t.rules;
    GoodGrammar(rs, a);
    DepthRule(rs, 0);
    EnoughNext(0, h);
    assert Used(rs, 0);
    GoodEntry(rs, 0, a);
  }

  /** The documented result of verifyrule: the pattern is nullable, or 'nb' was set. */
  lemma {:induction false} VerdictExact(g: seq<Tree>, t: Tree, npassed: nat, nb: bool, a: nat, b: nat, h: nat)
    requires Walked(g, t, npassed, nb, a, h) && b >= Enough(npassed, h)
    ensures Repaired(g, t, npassed, nb, a) == Ok(nb || Nullable(g, t, b))
    decreases h, MAXRULES - npassed, t
  {
    hide Walked;
    WalkedBounds(g, t, npassed, nb, a, h);
    WalkedParts(g, t, npassed, nb, a, h);
    EnoughNext(npassed, h);
    match t
    case Rep(p) => VerdictExact(g, p, npassed, true, a, b, h);
    case Not(p) => VerdictExact(g, p, npassed, true, a, b, h);
    case And(p) => VerdictExact(g, p, npassed, true, a, b, h);
    case Capture(_, _, p) => VerdictExact(g, p, npassed, nb, a, b, h);
    case Call(k) => VerdictExact(g, g[k], npassed + 1, nb, a, b - 1, h);
    case Seq(p1, p2) =>
      VerdictExact(g, p1, npassed, false, a, b, h);
      if Nullable(g, p1, b) { VerdictExact(g, p2, npassed, nb, a, b, h); }
    case Choice(p1, p2) =>
      VerdictExact(g, p1, npassed, nb, a, b, h);
      VerdictExact(g, p2, npassed, nb || Nullable(g, p1, b), a, b, h);
    case Grammar(rs) =>
      VerdictExact(rs, rs[0], 0, false, a, b, h - 1);
      VerdictExact(rs, rs[0], 0, false, a, a, h - 1);
    case _ =>
  }

  lemma WalkedBounds(g: seq<Tree>, t: Tree, npassed: nat, nb: bool, a: nat, h: nat)
    requires Walked(g, t, npassed, nb, a, h)
    ensures a >= Enough(0, h) && npassed <= MAXRULES
    ensures Repaired(g, t, npassed, nb, a).Ok?
    ensures h > 0 ==> a >= Enough(0, h - 1)
  {
    EnoughNext(0, h);
  }

  lemma {:induction false} NoFailWalked(g: seq<Tree>, t: Tree, npassed: nat, nb: bool, a: nat, b: nat, b': nat, h: nat)
    requires Walked(g, t, npassed, nb, a, h) && b >= Enough(npassed, h) && b' >= Enough(npassed, h)
    ensures NoFail(g, t, b) == NoFail(g, t, b')
    decreases h, MAXRULES - npassed, t
  {
    hide Walked;
    WalkedBounds(g, t, npassed, nb, a, h);
    WalkedParts(g, t, npassed, nb, a, h);
    EnoughNext(npassed, h);
    match t
    case And(p) => NoFailWalked(g, p, npassed, true, a, b, b', h);
    case Capture(_, _, p) => NoFailWalked(g, p, npassed, nb, a, b, b', h);
    case Call(k) => NoFailWalked(g, g[k], npassed + 1, nb, a, b - 1, b' - 1, h);
    case Seq(p1, p2) =>
      NoFailWalked(g, p1, npassed, false, a, b, b', h);
      if NoFail(g, p1, b) {
        NoFailNullable(g, p1, b);
        VerdictExact(g, p1, npassed, false, a, b, h);
        NoFailWalked(g, p2, npassed, nb, a, b, b', h);
      }
    case Choice(p1, p2) =>
      NoFailWalked(g, p1, npassed, nb, a, b, b', h);
      NoFailWalked(g, p2, npassed, Repaired(g, p1, npassed, nb, a).nullable, a, b, b', h);
    case Grammar(rs) => NoFailWalked(rs, rs[0], 0, false, a, b, b', h - 1);
    case _ =>
  }

  /** A good tree anywhere in its grammar. */
  ghost predicate GoodPlace(g: seq<Tree>, t: Tree, a: nat, h: nat) {
    && CallsGood(g, t, a) && Wf(g, t) && WfRules(g)
    && DepthOf(g) <= h && Depth(t) <= h && a >= Enough(0, h)
  }

  lemma GoodPlaceParts(g: seq<Tree>, t: Tree, a: nat, h: nat)
    requires GoodPlace(g, t, a, h)
    ensures t.Rep? || t.Not? || t.And? || t.Capture? || t.Behind? ==> GoodPlace(g, t.body, a, h)
    ensures t.Seq? || t.Choice? ==> GoodPlace(g, t.p1, a, h) && GoodPlace(g, t.p2, a, h)
    ensures t.Call? ==> t.rule < |g| && Walked(g, g[t.rule], 0, false, a, h)
    ensures t.Grammar? ==>
              |t.rules| > 0 && h > 0 && Walked(t.rules, t.rules[0], 0, false, a, h - 1)
  {
    hide VerifyRule, Repaired, GoodTree, GoodRule;
    CallsGoodParts(g, t, a);
    if t.Call? { GoodEntry(g, t.rule, a); DepthRule(g, t.rule); }
    if t.Grammar? { WalkedGrammar(g, t, a, h); }
  }

  lemma {:induction false} CheckAuxSettles(g: seq<Tree>, t: Tree, pred: Pred, a: nat, b: nat, b': nat, h: nat)
    requires GoodPlace(g, t, a, h) && b > Enough(0, h) && b' > Enough(0, h)
    ensures CheckAux(g, t, pred, b) == CheckAux(g, t, pred, b')
    decreases t
  {
    hide GoodPlace, Walked;
    GoodPlaceParts(g, t, a, h);
    EnoughNext(0, h);
    match t
    case And(p) => CheckAuxSettles(g, p, pred, a, b, b', h);
    case Capture(_, _, p) => CheckAuxSettles(g, p, pred, a, b, b', h);
    case Seq(p1, p2) => CheckAuxSettles(g, p1, pred, a, b, b', h); CheckAuxSettles(g, p2, pred, a, b, b', h);
    case Choice(p1, p2) => CheckAuxSettles(g, p1, pred, a, b, b', h); CheckAuxSettles(g, p2, pred, a, b, b', h);
    case Call(k) => RuleSettles(g, k, pred, a, b - 1, b' - 1, h);
    case Grammar(rs) => RuleSettles(rs, 0, pred, a, b, b', h - 1);
    case _ =>
  }

  lemma RuleSettles(g: seq<Tree>, k: nat, pred: Pred, a: nat, b: nat, b': nat, h: nat)
    requires k < |g| && Walked(g, g[k], 0, false, a, h) && b >= Enough(0, h) && b' >= Enough(0, h)
    ensures CheckAux(g, g[k], pred, b) == CheckAux(g, g[k], pred, b')
  {
    hide Walked;
    match pred
    case PEnullable =>
      VerdictExact(g, g[k], 0, false, a, b, h);
      VerdictExact(g, g[k], 0, false, a, b', h);
    case PEnofail => NoFailWalked(g, g[k], 0, false, a, b, b', h);
  }

  lemma {:induction false} FirstWalked(g: seq<Tree>, t: Tree, follow: Charset, npassed: nat, nb: bool, a: nat,
                                       b: nat, b': nat, h: nat)
    requires Walked(g, t, npassed, nb, a, h) && b >= Enough(npassed, h) && b' >= Enough(npassed, h)
    ensures GetFirst(g, t, follow, b) == GetFirst(g, t, follow, b')
    decreases h, MAXRULES - npassed, t
  {
    hide Walked;
    WalkedBounds(g, t, npassed, nb, a, h);
    WalkedParts(g, t, npassed, nb, a, h);
    EnoughNext(npassed, h);
    match t
    case Rep(p) => FirstWalked(g, p, follow, npassed, true, a, b, b', h);
    case And(p) => FirstWalked(g, p, follow, npassed, true, a, b, b', h);
    case Capture(_, _, p) => FirstWalked(g, p, follow, npassed, nb, a, b, b', h);
    case Call(k) => FirstWalked(g, g[k], follow, npassed + 1, nb, a, b - 1, b' - 1, h);
    case Seq(p1, p2) =>
      VerdictExact(g, p1, npassed, false, a, b, h);
      VerdictExact(g, p1, npassed, false, a, b', h);
      if Nullable(g, p1, b) {
        FirstWalked(g, p2, follow, npassed, nb, a, b, b', h);
        FirstWalked(g, p1, GetFirst(g, p2, follow, b).1, npassed, false, a, b, b', h);
      } else {
        FirstWalked(g, p1, FULLSET, npassed, false, a, b, b', h);
      }
    case Choice(p1, p2) =>
      FirstWalked(g, p1, follow, npassed, nb, a, b, b', h);
      FirstWalked(g, p2, follow, npassed, Repaired(g, p1, npassed, nb, a).nullable, a, b, b', h);
    case Grammar(rs) => FirstWalked(rs, rs[0], follow, 0, false, a, b, b', h - 1);
    case _ =>
  }

  /** First sets of accepted patterns do not depend on the budget. */
  lemma {:induction false} FirstSettles(g: seq<Tree>, t: Tree, follow: Charset, a: nat, b: nat, b': nat, h: nat)
    requires GoodPlace(g, t, a, h) && b > Enough(0, h) && b' > Enough(0, h)
    ensures GetFirst(g, t, follow, b) == GetFirst(g, t, follow, b')
    decreases t
  {
    hide GoodPlace, Walked;
    GoodPlaceParts(g, t, a, h);
    EnoughNext(0, h);
    match t
    case Rep(p) => FirstSettles(g, p, follow, a, b, b', h);
    case And(p) => FirstSettles(g, p, follow, a, b, b', h);
    case Capture(_, _, p) => FirstSettles(g, p, follow, a, b, b', h);
    case Seq(p1, p2) =>
      CheckAuxSettles(g, p1, PEnullable, a, b, b', h);
      FirstSettles(g, p2, follow, a, b, b', h);
      FirstSettles(g, p1, GetFirst(g, p2, follow, b).1, a, b, b', h);
      FirstSettles(g, p1, FULLSET, a, b, b', h);
    case Choice(p1, p2) => FirstSettles(g, p1, follow, a, b, b', h); FirstSettles(g, p2, follow, a, b, b', h);
    case Call(k) => FirstWalked(g, g[k], follow, 0, false, a, b - 1, b' - 1, h);
    case Grammar(rs) => FirstWalked(rs, rs[0], follow, 0, false, a, b, b', h - 1);
    case _ =>
  }

  lemma {:induction false} HeadFailWalked(g: seq<Tree>, t: Tree, npassed: nat, nb: bool, a: nat, b: nat,
                                          b': nat, h: nat)
    requires Walked(g, t, npassed, nb, a, h)
    requires b > Enough(npassed, h) + MAXRULES && b' > Enough(npassed, h) + MAXRULES
    ensures HeadFail(g, t, b) == HeadFail(g, t, b')
    decreases h, MAXRULES - npassed, t
  {
    hide Walked, GoodPlace;
    WalkedBounds(g, t, npassed, nb, a, h);
    WalkedParts(g, t, npassed, nb, a, h);
    EnoughNext(npassed, h);
    match t
    case And(p) => HeadFailWalked(g, p, npassed, true, a, b, b', h);
    case Capture(_, _, p) => HeadFailWalked(g, p, npassed, nb, a, b, b', h);
    case Call(k) => HeadFailWalked(g, g[k], npassed + 1, nb, a, b - 1, b' - 1, h);
    case Seq(p1, p2) =>
      WalkedSecond(g, t, npassed, nb, a, h);
      CheckAuxSettles(g, p2, PEnofail, a, b, b', h);
      HeadFailWalked(g, p1, npassed, false, a, b, b', h);
    case Choice(p1, p2) =>
      HeadFailWalked(g, p1, npassed, nb, a, b, b', h);
      HeadFailWalked(g, p2, npassed, Repaired(g, p1, npassed, nb, a).nullable, a, b, b', h);
    case Grammar(rs) => HeadFailWalked(rs, rs[0], 0, false, a, b, b', h - 1);
    case _ =>
  }

  lemma WalkedSecond(g: seq<Tree>, t: Tree, npassed: nat, nb: bool, a: nat, h: nat)
    requires t.Seq? && Walked(g, t, npassed, nb, a, h)
    ensures GoodPlace(g, t.p2, a, h)
    ensures Enough(npassed, h) + MAXRULES >= Enough(0, h)
  {
    hide VerifyRule, Repaired, GoodTree, GoodRule;
    GoodParts(g, t, a);
  }

  /** The headfail answer for accepted patterns does not depend on the budget. */
  lemma {:induction false} HeadFailSettles(g: seq<Tree>, t: Tree, a: nat, b: nat, b': nat, h: nat)
    requires GoodPlace(g, t, a, h)
    requires b > Enough(0, h) + MAXRULES + 1 && b' > Enough(0, h) + MAXRULES + 1
    ensures HeadFail(g, t, b) == HeadFail(g, t, b')
    decreases t
  {
    hide GoodPlace, Walked;
    GoodPlaceParts(g, t, a, h);
    EnoughNext(0, h);
    match t
    case And(p) => HeadFailSettles(g, p, a, b, b', h);
    case Capture(_, _, p) => HeadFailSettles(g, p, a, b, b', h);
    case Seq(p1, p2) =>
      CheckAuxSettles(g, p2, PEnofail, a, b, b', h);
      HeadFailSettles(g, p1, a, b, b', h);
    case Choice(p1, p2) => HeadFailSettles(g, p1, a, b, b', h); HeadFailSettles(g, p2, a, b, b', h);
    case Call(k) => HeadFailWalked(g, g[k], 0, false, a, b - 1, b' - 1, h);
    case Grammar(rs) => HeadFailWalked(rs, rs[0], 0, false, a, b, b', h - 1);
    case _ =>
  }
}

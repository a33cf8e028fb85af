/** The checks that accept a grammar, and termination of matching for accepted patterns. */
module Accept {
  import opened Peg
  import opened Analysis

  datatype Verdict = Error | Ok(nullable: bool)

  /** Looks for left recursion: follows only what a pattern may do before consuming anything.
      'npassed' counts the calls followed; 'nb' accumulates nullability. Note that a
      sub-grammar answers for itself and ignores 'nb'. */
  function VerifyRule(g: seq<Tree>, t: Tree, npassed: nat, nb: bool, a: nat): Verdict
    requires npassed <= MAXRULES
    decreases MAXRULES - npassed, t
  {
    match t
    case Char(_) => Ok(nb)
    case Set(_) => Ok(nb)
    case AnyChar => Ok(nb)
    case False => Ok(nb)
    case True => Ok(true)
    case Behind(_, _) => Ok(true)
    case Not(p) => VerifyRule(g, p, npassed, true, a)
    case And(p) => VerifyRule(g, p, npassed, true, a)
    case Rep(p) => VerifyRule(g, p, npassed, true, a)
    case Capture(_, _, p) => VerifyRule(g, p, npassed, nb, a)
    case Call(k) =>
      if k >= |g| || npassed >= MAXRULES then Error
      else VerifyRule(g, g[k], npassed + 1, nb, a)
    case Seq(p1, p2) =>
      (match VerifyRule(g, p1, npassed, false, a)
       case Error => Error
       case Ok(b) => if !b then Ok(nb) else VerifyRule(g, p2, npassed, nb, a))
    case Choice(p1, p2) =>
      (match VerifyRule(g, p1, npassed, nb, a)
       case Error => Error
       case Ok(b) => VerifyRule(g, p2, npassed, b, a))
    case Grammar(_) => Ok(Nullable(g, t, a))
  }

  /** The check that the library meant: a sub-grammar adds to what 'nb' says. */
  function Repaired(g: seq<Tree>, t: Tree, npassed: nat, nb: bool, a: nat): Verdict
    requires npassed <= MAXRULES
    decreases MAXRULES - npassed, t
  {
    match t
    case Char(_) => Ok(nb)
    case Set(_) => Ok(nb)
    case AnyChar => Ok(nb)
    case False => Ok(nb)
    case True => Ok(true)
    case Behind(_, _) => Ok(true)
    case Not(p) => Repaired(g, p, npassed, true, a)
    case And(p) => Repaired(g, p, npassed, true, a)
    case Rep(p) => Repaired(g, p, npassed, true, a)
    case Capture(_, _, p) => Repaired(g, p, npassed, nb, a)
    case Call(k) =>
      if k >= |g| || npassed >= MAXRULES then Error
      else Repaired(g, g[k], npassed + 1, nb, a)
    case Seq(p1, p2) =>
      (match Repaired(g, p1, npassed, false, a)
       case Error => Error
       case Ok(b) => if !b then Ok(nb) else Repaired(g, p2, npassed, nb, a))
    case Choice(p1, p2) =>
      (match Repaired(g, p1, npassed, nb, a)
       case Error => Error
       case Ok(b) => Repaired(g, p2, npassed, b, a))
    case Grammar(_) => Ok(nb || Nullable(g, t, a))
  }

  /** A repetition whose body may match the empty string. */
  predicate CheckLoops(g: seq<Tree>, t: Tree, a: nat) {
    match t
    case Rep(p) => Nullable(g, p, a) || CheckLoops(g, p, a)
    case Not(p) => CheckLoops(g, p, a)
    case And(p) => CheckLoops(g, p, a)
    case Behind(_, p) => CheckLoops(g, p, a)
    case Capture(_, _, p) => CheckLoops(g, p, a)
    case Seq(p1, p2) => CheckLoops(g, p1, a) || CheckLoops(g, p2, a)
    case Choice(p1, p2) => CheckLoops(g, p1, a) || CheckLoops(g, p2, a)
    case _ => false
  }

  /** The tree calls rule 'k' of its own grammar. */
  predicate Calls(t: Tree, k: nat) {
    match t
    case Call(j) => j == k
    case Rep(p) => Calls(p, k)
    case Not(p) => Calls(p, k)
    case And(p) => Calls(p, k)
    case Behind(_, p) => Calls(p, k)
    case Capture(_, _, p) => Calls(p, k)
    case Seq(p1, p2) => Calls(p1, k) || Calls(p2, k)
    case Choice(p1, p2) => Calls(p1, k) || Calls(p2, k)
    case _ => false
  }

  /** A rule has a key, and so is checked, if it is the first one or some rule calls it. */
  ghost predicate Used(g: seq<Tree>, k: nat) {
    k == 0 || exists j :: 0 <= j < |g| && Calls(g[j], k)
  }

  ghost predicate Verified(g: seq<Tree>, k: nat, a: nat)
    requires k < |g|
  {
    VerifyRule(g, g[k], 0, false, a).Ok? && !CheckLoops(g, g[k], a)
  }

  ghost predicate VerifyGrammar(g: seq<Tree>, a: nat) {
    forall k :: 0 <= k < |g| && Used(g, k) ==> Verified(g, k, a)
  }

  /** Every grammar inside the tree has been accepted. */
  ghost predicate GrammarsOk(t: Tree, a: nat)
    decreases t
  {
    match t
    case Grammar(rs) => VerifyGrammar(rs, a) && forall k :: 0 <= k < |rs| ==> GrammarsOk(rs[k], a)
    case Rep(p) => GrammarsOk(p, a)
    case Not(p) => GrammarsOk(p, a)
    case And(p) => GrammarsOk(p, a)
    case Behind(_, p) => GrammarsOk(p, a)
    case Capture(_, _, p) => GrammarsOk(p, a)
    case Seq(p1, p2) => GrammarsOk(p1, a) && GrammarsOk(p2, a)
    case Choice(p1, p2) => GrammarsOk(p1, a) && GrammarsOk(p2, a)
    case _ => true
  }

  // ----- the two gaps of the check -----------------------------------------------------

  /** A look-behind in the tree calls rule 'k'. */
  predicate CalledBehind(t: Tree, k: nat) {
    match t
    case Behind(_, p) => Calls(p, k)
    case Rep(p) => CalledBehind(p, k)
    case Not(p) => CalledBehind(p, k)
    case And(p) => CalledBehind(p, k)
    case Capture(_, _, p) => CalledBehind(p, k)
    case Seq(p1, p2) => CalledBehind(p1, k) || CalledBehind(p2, k)
    case Choice(p1, p2) => CalledBehind(p1, k) || CalledBehind(p2, k)
    case _ => false
  }

  function Below(n: nat): (r: set<nat>)
    ensures |r| == n && forall k: nat :: k in r <==> k < n
  {
    if n == 0 then {} else Below(n - 1) + {n - 1}
  }

  /** The rules and those that they call. */
  function WithCalled(g: seq<Tree>, s: set<nat>): (r: set<nat>)
    ensures s <= r && (s <= Below(|g|) ==> r <= Below(|g|))
  {
    s + set j | j in Below(|g|) && exists k :: k in s && k < |g| && Calls(g[k], j)
  }

  /** All rules that the rules can lead to, themselves included. */
  function Reach(g: seq<Tree>, s: set<nat>): (r: set<nat>)
    requires s <= Below(|g|)
    ensures s <= r <= Below(|g|) && WithCalled(g, r) == r
    decreases Below(|g|) - s
  {
    var t := WithCalled(g, s);
    if t == s then s else Reach(g, t)
  }

  /** No look-behind in the rule leads back to the rule. */
  ghost predicate BehindsLeave(g: seq<Tree>, k: nat)
    requires k < |g|
  {
    forall j: nat :: CalledBehind(g[k], j) && j < |g| ==> k !in Reach(g, {j})
  }

  /** Neither gap is met in any grammar of the tree: its used rules also pass the repaired check,
      and their look-behinds do not lead back to them. */
  ghost predicate NoGaps(t: Tree, a: nat)
    decreases t
  {
    match t
    case Grammar(rs) =>
      forall k :: 0 <= k < |rs| ==>
        NoGaps(rs[k], a) && (Used(rs, k) ==> Repaired(rs, rs[k], 0, false, a).Ok? && BehindsLeave(rs, k))
    case Rep(p) => NoGaps(p, a)
    case Not(p) => NoGaps(p, a)
    case And(p) => NoGaps(p, a)
    case Behind(_, p) => NoGaps(p, a)
    case Capture(_, _, p) => NoGaps(p, a)
    case Seq(p1, p2) => NoGaps(p1, a) && NoGaps(p2, a)
    case Choice(p1, p2) => NoGaps(p1, a) && NoGaps(p2, a)
    case _ => true
  }

  /** Whatever passes the repaired check passes the library's, which takes fewer patterns for
      nullable. */
  lemma {:induction false} RepairedStricter(g: seq<Tree>, t: Tree, npassed: nat, nb: bool, less: bool, a: nat)
    requires npassed <= MAXRULES && Repaired(g, t, npassed, nb, a).Ok? && (less ==> nb)
    ensures VerifyRule(g, t, npassed, less, a).Ok?
    ensures VerifyRule(g, t, npassed, less, a).nullable ==> Repaired(g, t, npassed, nb, a).nullable
    decreases MAXRULES - npassed, t
  {
    match t
    case Not(p) => RepairedStricter(g, p, npassed, true, true, a);
    case And(p) => RepairedStricter(g, p, npassed, true, true, a);
    case Rep(p) => RepairedStricter(g, p, npassed, true, true, a);
    case Capture(_, _, p) => RepairedStricter(g, p, npassed, nb, less, a);
    case Call(k) => RepairedStricter(g, g[k], npassed + 1, nb, less, a);
    case Seq(p1, p2) =>
      RepairedStricter(g, p1, npassed, false, false, a);
      if Repaired(g, p1, npassed, false, a) == Ok(true) {
        RepairedStricter(g, p2, npassed, nb, less, a);
        if less && VerifyRule(g, p1, npassed, false, a) == Ok(false) { FlagKept(g, p2, npassed, a); }
      }
    case Choice(p1, p2) =>
      RepairedStricter(g, p1, npassed, nb, less, a);
      var nb1, less1 := Repaired(g, p1, npassed, nb, a).nullable, VerifyRule(g, p1, npassed, less, a).nullable;
      RepairedStricter(g, p2, npassed, nb1, less1, a);
    case _ =>
  }

  // ----- what a verdict means ----------------------------------------------------------

  /** With 'nb' set, the repaired check answers true. */
  lemma {:induction false} FlagKept(g: seq<Tree>, t: Tree, npassed: nat, a: nat)
    requires npassed <= MAXRULES && Repaired(g, t, npassed, true, a).Ok?
    ensures Repaired(g, t, npassed, true, a) == Ok(true)
    decreases MAXRULES - npassed, t
  {
    match t
    case Not(p) => FlagKept(g, p, npassed, a);
    case And(p) => FlagKept(g, p, npassed, a);
    case Rep(p) => FlagKept(g, p, npassed, a);
    case Capture(_, _, p) => FlagKept(g, p, npassed, a);
    case Call(k) => FlagKept(g, g[k], npassed + 1, a);
    case Seq(p1, p2) =>
      if Repaired(g, p1, npassed, false, a) == Ok(true) { FlagKept(g, p2, npassed, a); }
    case Choice(p1, p2) => FlagKept(g, p1, npassed, a); FlagKept(g, p2, npassed, a);
    case _ =>
  }

  /** A verdict of not nullable is right: such a pattern consumes something when it matches. */
  lemma {:induction false} VerdictSound(g: seq<Tree>, s: Subject, t: Tree, i: nat, n: nat, npassed: nat,
                                        nb: bool, a: nat)
    requires npassed <= MAXRULES && Repaired(g, t, npassed, nb, a) == Ok(false)
    requires i <= |s| && Eval(g, s, t, i, n).Matched?
    ensures Eval(g, s, t, i, n).end > i
    decreases MAXRULES - npassed, t
  {
    match t
    case Not(p) => FlagKept(g, p, npassed, a);
    case And(p) => FlagKept(g, p, npassed, a);
    case Rep(p) => FlagKept(g, p, npassed, a);
    case Capture(_, _, p) => VerdictSound(g, s, p, i, n, npassed, nb, a);
    case Call(k) => VerdictSound(g, s, g[k], i, n - 1, npassed + 1, nb, a);
    case Seq(p1, p2) =>
      EndInRange(g, s, p1, i, n);
      EndInRange(g, s, p2, Eval(g, s, p1, i, n).end, n);
      if Repaired(g, p1, npassed, false, a) == Ok(true) {
        VerdictSound(g, s, p2, Eval(g, s, p1, i, n).end, n, npassed, nb, a);
      } else {
        VerdictSound(g, s, p1, i, n, npassed, false, a);
      }
    case Choice(p1, p2) =>
      if Repaired(g, p1, npassed, nb, a) == Ok(true) {
        FlagKept(g, p2, npassed, a);
      } else if Eval(g, s, p1, i, n).Matched? {
        VerdictSound(g, s, p1, i, n, npassed, nb, a);
      } else {
        VerdictSound(g, s, p2, i, n, npassed, false, a);
      }
    case Grammar(_) => NullableSound(g, s, t, i, n, a);
    case _ =>
  }

  // ----- termination -------------------------------------------------------------------

  /** Nesting depth of grammars. */
  function Depth(t: Tree): nat
    decreases t, 0
  {
    match t
    case Grammar(rs) => 1 + DepthOf(rs)
    case Rep(p) => Depth(p)
    case Not(p) => Depth(p)
    case And(p) => Depth(p)
    case Behind(_, p) => Depth(p)
    case Capture(_, _, p) => Depth(p)
    case Seq(p1, p2) => if Depth(p1) > Depth(p2) then Depth(p1) else Depth(p2)
    case Choice(p1, p2) => if Depth(p1) > Depth(p2) then Depth(p1) else Depth(p2)
    case _ => 0
  }

  function DepthOf(rs: seq<Tree>): nat
    decreases rs, 1
  {
    if rs == [] then 0
    else if Depth(rs[0]) > DepthOf(rs[1..]) then Depth(rs[0]) else DepthOf(rs[1..])
  }

  lemma {:induction false} DepthRule(rs: seq<Tree>, k: nat)
    requires k < |rs|
    ensures Depth(rs[k]) <= DepthOf(rs)
    decreases |rs|
  {
    if k > 0 {
      DepthRule(rs[1..], k - 1);
      assert rs[1..][k - 1] == rs[k];
    }
  }

  ghost predicate Halts(g: seq<Tree>, s: Subject, t: Tree, i: nat) {
    exists n: nat :: !Eval(g, s, t, i, n).Timeout?
  }

  /** A rule of a grammar in which matching can be shown to end. */
  ghost predicate GoodRule(g: seq<Tree>, k: nat, a: nat) {
    && k < |g|
    && Verified(g, k, a) && Repaired(g, g[k], 0, false, a).Ok?
    && GoodTree(g[k], a) && (forall j: nat :: Calls(g[k], j) ==> j < |g| && Used(g, j))
    && BehindsLeave(g, k)
  }

  ghost predicate GoodTree(t: Tree, a: nat) {
    GrammarsOk(t, a) && NoGaps(t, a)
  }

  /** A tree whose calls lead to good rules. */
  ghost predicate CallsGood(g: seq<Tree>, t: Tree, a: nat) {
    && GoodTree(t, a)
    && (forall k: nat :: Used(g, k) && k < |g| ==> GoodRule(g, k, a))
    && (forall k: nat :: Calls(t, k) ==> k < |g| && Used(g, k))
  }

  /** It may be run besides: none of its repetitions can loop on the empty string. */
  ghost predicate GoodIn(g: seq<Tree>, t: Tree, a: nat) {
    CallsGood(g, t, a) && !CheckLoops(g, t, a)
  }

  lemma {:induction false} WfCalls(g: seq<Tree>, t: Tree, k: nat)
    requires Wf(g, t) && Calls(t, k)
    ensures k < |g|
    decreases t
  {
    match t
    case Rep(p) => WfCalls(g, p, k);
    case Not(p) => WfCalls(g, p, k);
    case And(p) => WfCalls(g, p, k);
    case Behind(_, p) => WfCalls(g, p, k);
    case Capture(_, _, p) => WfCalls(g, p, k);
    case Seq(p1, p2) => if Calls(p1, k) { WfCalls(g, p1, k); } else { WfCalls(g, p2, k); }
    case Choice(p1, p2) => if Calls(p1, k) { WfCalls(g, p1, k); } else { WfCalls(g, p2, k); }
    case _ =>
  }

  // ----- ranks of rules --------------------------------------------------------------------

  /** How many rules a rule can lead to. */
  function RuleRank(g: seq<Tree>, k: nat): nat {
    if k < |g| then |Reach(g, {k})| else 0
  }

  lemma {:induction false} ReachWithin(g: seq<Tree>, s: set<nat>, r: set<nat>)
    requires s <= r <= Below(|g|) && WithCalled(g, r) == r
    ensures Reach(g, s) <= r
    decreases Below(|g|) - s
  {
    var t := WithCalled(g, s);
    assert t <= r by {
      forall j | j in t && j !in s ensures j in WithCalled(g, r) {}
    }
    if t != s { ReachWithin(g, t, r); }
  }

  lemma RankBound(g: seq<Tree>, k: nat)
    ensures RuleRank(g, k) <= |g|
  {
    if k < |g| { FewerIn(Reach(g, {k}), Below(|g|)); }
  }

  lemma FewerIn(s: set<nat>, t: set<nat>)
    requires s <= t
    ensures |s| <= |t| && (s != t ==> |s| < |t|)
  {
    assert t == s + (t - s);
  }

  /** A call leads to a rule of no higher rank; from a look-behind, to a lower one. */
  lemma RankCall(g: seq<Tree>, k: nat, j: nat)
    requires k < |g| && j < |g| && Calls(g[k], j)
    ensures RuleRank(g, j) <= RuleRank(g, k)
    ensures k !in Reach(g, {j}) ==> RuleRank(g, j) < RuleRank(g, k)
  {
    var r := Reach(g, {k});
    assert j in WithCalled(g, r);
    ReachWithin(g, {j}, r);
    FewerIn(Reach(g, {j}), r);
  }

  /** The rules that the tree calls have at most this rank, and a lower one in look-behinds. */
  ghost predicate Fits(g: seq<Tree>, t: Tree, r: nat) {
    && Under(g, t, r + 1)
    && forall k: nat :: CalledBehind(t, k) ==> RuleRank(g, k) < r
  }

  ghost predicate Under(g: seq<Tree>, t: Tree, r: nat) {
    forall k: nat :: Calls(t, k) ==> RuleRank(g, k) < r
  }

  lemma {:induction false} BehindIsCall(t: Tree, k: nat)
    requires CalledBehind(t, k)
    ensures Calls(t, k)
    decreases t
  {
    match t
    case Rep(p) => BehindIsCall(p, k);
    case Not(p) => BehindIsCall(p, k);
    case And(p) => BehindIsCall(p, k);
    case Capture(_, _, p) => BehindIsCall(p, k);
    case Seq(p1, p2) => if CalledBehind(p1, k) { BehindIsCall(p1, k); } else { BehindIsCall(p2, k); }
    case Choice(p1, p2) => if CalledBehind(p1, k) { BehindIsCall(p1, k); } else { BehindIsCall(p2, k); }
    case _ =>
  }

  lemma FitsParts(g: seq<Tree>, t: Tree, r: nat)
    requires Fits(g, t, r)
    ensures t.Seq? || t.Choice? ==> Fits(g, t.p1, r) && Fits(g, t.p2, r)
    ensures t.Rep? || t.Not? || t.And? || t.Capture? ==> Fits(g, t.body, r)
    ensures t.Behind? ==> Under(g, t.body, r)
    ensures t.Call? ==> RuleRank(g, t.rule) <= r
  {
    hide RuleRank, Calls, CalledBehind;
    forall k: nat { CallsParts(t, k); }
    if t.Call? { assert Calls(t, t.rule); }
  }

  lemma UnderParts(g: seq<Tree>, t: Tree, r: nat)
    requires Under(g, t, r)
    ensures t.Seq? || t.Choice? ==> Under(g, t.p1, r) && Under(g, t.p2, r)
    ensures t.Rep? || t.Not? || t.And? || t.Capture? || t.Behind? ==> Under(g, t.body, r)
    ensures t.Call? ==> RuleRank(g, t.rule) < r
  {
    hide RuleRank, Calls;
    forall k: nat { CallsParts(t, k); }
    if t.Call? { assert Calls(t, t.rule); }
  }

  lemma FitsRule(g: seq<Tree>, k: nat, a: nat, r: nat)
    requires GoodRule(g, k, a) && RuleRank(g, k) <= r
    ensures Fits(g, g[k], r)
  {
    hide RuleRank, Reach, GoodTree, Verified;
    forall j: nat | Calls(g[k], j) ensures RuleRank(g, j) <= r { RankCall(g, k, j); }
    forall j: nat | CalledBehind(g[k], j) ensures RuleRank(g, j) < r {
      BehindIsCall(g[k], j);
      RankCall(g, k, j);
    }
  }

  lemma FitsAll(g: seq<Tree>, t: Tree)
    ensures Fits(g, t, |g| + 1)
  {
    forall k: nat ensures RuleRank(g, k) <= |g| { RankBound(g, k); }
  }

  // ----- good rules and trees --------------------------------------------------------------

  lemma GoodTreeParts(t: Tree, a: nat)
    requires GoodTree(t, a)
    ensures t.Seq? || t.Choice? ==> GoodTree(t.p1, a) && GoodTree(t.p2, a)
    ensures t.Rep? || t.Not? || t.And? || t.Capture? || t.Behind? ==> GoodTree(t.body, a)
  {
    hide VerifyGrammar, Repaired, Used, BehindsLeave;
  }

  lemma LoopParts(g: seq<Tree>, t: Tree, a: nat)
    requires !CheckLoops(g, t, a)
    ensures t.Seq? || t.Choice? ==> !CheckLoops(g, t.p1, a) && !CheckLoops(g, t.p2, a)
    ensures t.Rep? || t.Not? || t.And? || t.Behind? || t.Capture? ==> !CheckLoops(g, t.body, a)
  {
    hide Nullable;
  }

  lemma CallsParts(t: Tree, k: nat)
    ensures t.Seq? || t.Choice? ==> (Calls(t, k) <==> Calls(t.p1, k) || Calls(t.p2, k))
    ensures t.Rep? || t.Not? || t.And? || t.Capture? || t.Behind? ==> (Calls(t, k) <==> Calls(t.body, k))
    ensures t.Call? ==> (Calls(t, k) <==> k == t.rule)
    ensures t.Seq? || t.Choice? ==> (CalledBehind(t, k) <==> CalledBehind(t.p1, k) || CalledBehind(t.p2, k))
    ensures t.Rep? || t.Not? || t.And? || t.Capture? ==> (CalledBehind(t, k) <==> CalledBehind(t.body, k))
    ensures t.Behind? ==> (CalledBehind(t, k) <==> Calls(t.body, k))
  {
  }

  lemma CallsGoodParts(g: seq<Tree>, t: Tree, a: nat)
    requires CallsGood(g, t, a)
    ensures t.Seq? || t.Choice? ==> CallsGood(g, t.p1, a) && CallsGood(g, t.p2, a)
    ensures t.Rep? || t.Not? || t.And? || t.Capture? || t.Behind? ==> CallsGood(g, t.body, a)
    ensures t.Call? ==>
              t.rule < |g| && GoodRule(g, t.rule, a) && CallsGood(g, g[t.rule], a) && !CheckLoops(g, g[t.rule], a)
  {
    hide GoodTree, Calls, CheckLoops, Used, VerifyRule, Repaired;
    GoodTreeParts(t, a);
    forall k: nat { CallsParts(t, k); }
    if t.Call? { assert Calls(t, t.rule); assert GoodRule(g, t.rule, a); }
  }

  lemma GoodParts(g: seq<Tree>, t: Tree, a: nat)
    requires GoodIn(g, t, a)
    ensures GoodTree(t, a)
    ensures t.Seq? || t.Choice? ==> GoodIn(g, t.p1, a) && GoodIn(g, t.p2, a)
    ensures t.Rep? || t.Not? || t.And? || t.Capture? || t.Behind? ==> GoodIn(g, t.body, a)
    ensures t.Call? ==> t.rule < |g| && GoodIn(g, g[t.rule], a) && GoodRule(g, t.rule, a)
  {
    hide Nullable, VerifyRule, Repaired, CallsGood, GoodRule, GoodTree, CheckLoops;
    CallsGoodParts(g, t, a);
    LoopParts(g, t, a);
    assert GoodTree(t, a) by { GoodTreeOf(g, t, a); }
  }

  lemma GoodTreeOf(g: seq<Tree>, t: Tree, a: nat)
    requires CallsGood(g, t, a)
    ensures GoodTree(t, a)
  {
  }

  lemma GoodGrammar(rs: seq<Tree>, a: nat)
    requires |rs| > 0 && WfRules(rs) && GrammarsOk(Grammar(rs), a) && NoGaps(Grammar(rs), a)
    ensures GoodIn(rs, rs[0], a)
    ensures forall k :: 0 <= k < |rs| && Used(rs, k) ==> GoodRule(rs, k, a) && GoodIn(rs, rs[k], a)
  {
    hide Nullable, VerifyRule, Repaired, CheckLoops;
    assert VerifyGrammar(rs, a);
    forall k: nat | k < |rs| && Used(rs, k) ensures GoodRule(rs, k, a) {
      forall j: nat | Calls(rs[k], j) ensures j < |rs| && Used(rs, j) {
        WfCalls(rs, rs[k], j);
      }
    }
    forall j: nat | Calls(rs[0], j) ensures j < |rs| && Used(rs, j) {
      WfCalls(rs, rs[0], j);
    }
    assert Used(rs, 0) && GoodRule(rs, 0, a);
  }

  lemma RulesCallsGood(rs: seq<Tree>, k: nat, a: nat)
    requires k < |rs| && WfRules(rs) && GrammarsOk(Grammar(rs), a) && NoGaps(Grammar(rs), a)
    ensures CallsGood(rs, rs[k], a)
    ensures Used(rs, k) ==> Repaired(rs, rs[k], 0, false, a).Ok?
  {
    hide Nullable, VerifyRule, Repaired, CheckLoops;
    GoodGrammar(rs, a);
    forall j: nat | Calls(rs[k], j) ensures j < |rs| && Used(rs, j) {
      WfCalls(rs, rs[k], j);
    }
    if Used(rs, k) { GoodEntry(rs, k, a); }
  }

  lemma HaltsMore(g: seq<Tree>, s: Subject, t: Tree, i: nat) returns (n: nat)
    requires Halts(g, s, t, i)
    ensures forall m: nat :: m >= n ==> Eval(g, s, t, i, m) == Eval(g, s, t, i, n) && !Eval(g, s, t, i, n).Timeout?
  {
    n :| !Eval(g, s, t, i, n).Timeout?;
    forall m: nat | m >= n ensures Eval(g, s, t, i, m) == Eval(g, s, t, i, n) {
      MoreBudget(g, s, t, i, n, m);
    }
  }

  // Each kind of tree halts if the parts it runs do.

  lemma HaltsSeq(g: seq<Tree>, s: Subject, t: Tree, i: nat)
    requires t.Seq? && Halts(g, s, t.p1, i)
    requires forall n: nat {:trigger Eval(g, s, t.p1, i, n)} ::
               Eval(g, s, t.p1, i, n).Matched? ==> Halts(g, s, t.p2, Eval(g, s, t.p1, i, n).end)
    ensures Halts(g, s, t, i)
  {
    var n := HaltsMore(g, s, t.p1, i);
    var r := Eval(g, s, t.p1, i, n);
    var m: nat := 0;
    if r.Matched? { m := HaltsMore(g, s, t.p2, r.end); }
    var k := n + m;
    assert Eval(g, s, t.p1, i, k) == r;
    assert !Eval(g, s, t, i, k).Timeout?;
  }

  lemma HaltsChoice(g: seq<Tree>, s: Subject, t: Tree, i: nat)
    requires t.Choice? && Halts(g, s, t.p1, i) && Halts(g, s, t.p2, i)
    ensures Halts(g, s, t, i)
  {
    var n := HaltsMore(g, s, t.p1, i);
    var m := HaltsMore(g, s, t.p2, i);
    assert Eval(g, s, t.p1, i, n + m) == Eval(g, s, t.p1, i, n);
    assert !Eval(g, s, t, i, n + m).Timeout?;
  }

  lemma HaltsRep(g: seq<Tree>, s: Subject, t: Tree, i: nat)
    requires t.Rep? && Halts(g, s, t.body, i)
    requires forall n: nat {:trigger Eval(g, s, t.body, i, n)} ::
               Eval(g, s, t.body, i, n).Matched? ==> Halts(g, s, t, Eval(g, s, t.body, i, n).end)
    ensures Halts(g, s, t, i)
  {
    var n := HaltsMore(g, s, t.body, i);
    var r := Eval(g, s, t.body, i, n);
    var m: nat := 0;
    if r.Matched? { m := HaltsMore(g, s, t, r.end); }
    var k := n + m + 1;
    assert Eval(g, s, t.body, i, k) == r;
    assert r.Matched? ==> Eval(g, s, t, r.end, k - 1) == Eval(g, s, t, r.end, m);
    assert !Eval(g, s, t, i, k).Timeout?;
  }

  lemma HaltsUnary(g: seq<Tree>, s: Subject, t: Tree, i: nat)
    requires t.Not? || t.And? || t.Capture? || (t.Behind? && t.n <= i)
    requires Halts(g, s, t.body, if t.Behind? then i - t.n else i)
    ensures Halts(g, s, t, i)
  {
    var n := HaltsMore(g, s, t.body, if t.Behind? then i - t.n else i);
    assert !Eval(g, s, t, i, n).Timeout?;
  }

  lemma HaltsCall(g: seq<Tree>, s: Subject, t: Tree, i: nat)
    requires t.Call? && t.rule < |g| && Halts(g, s, g[t.rule], i)
    ensures Halts(g, s, t, i)
  {
    var n := HaltsMore(g, s, g[t.rule], i);
    assert Eval(g, s, t, i, n + 1) == Eval(g, s, g[t.rule], i, n);
  }

  lemma HaltsLeaf(g: seq<Tree>, s: Subject, t: Tree, i: nat)
    requires t.Char? || t.Set? || t.AnyChar? || t.True? || t.False? || (t.Behind? && t.n > i)
    ensures Halts(g, s, t, i)
  {
    assert !Eval(g, s, t, i, 0).Timeout?;
  }

  lemma HaltsGrammar(g: seq<Tree>, s: Subject, t: Tree, i: nat)
    requires t.Grammar? && |t.rules| > 0 && Halts(t.rules, s, t.rules[0], i)
    ensures Halts(g, s, t, i)
  {
    var n := HaltsMore(t.rules, s, t.rules[0], i);
    assert !Eval(g, s, t, i, n).Timeout?;
  }

  /** Evaluation of a tree ends wherever it starts: rules are entered with the left-recursion
      check, everything later in the subject by induction on what remains. */
  lemma {:induction false} TreeHalts(g: seq<Tree>, s: Subject, t: Tree, i: nat, a: nat, h: nat, r: nat)
    requires GoodIn(g, t, a) && Wf(g, t) && WfRules(g) && i <= |s| && Fits(g, t, r)
    requires DepthOf(g) <= h && Depth(t) <= h
    ensures Halts(g, s, t, i)
    decreases h, r, 2, |s| - i, 1, 0, t
  {
    hide Halts, Eval, GoodIn, GoodTree, VerifyRule, Repaired, GoodRule, Fits, Under, RuleRank;
    GoodParts(g, t, a);
    FitsParts(g, t, r);
    match t
    case Seq(p1, p2) =>
      TreeHalts(g, s, p1, i, a, h, r);
      forall n: nat | Eval(g, s, p1, i, n).Matched? ensures Halts(g, s, p2, Eval(g, s, p1, i, n).end) {
        EndInRange(g, s, p1, i, n);
        TreeHalts(g, s, p2, Eval(g, s, p1, i, n).end, a, h, r);
      }
      HaltsSeq(g, s, t, i);
    case Choice(p1, p2) =>
      TreeHalts(g, s, p1, i, a, h, r);
      TreeHalts(g, s, p2, i, a, h, r);
      HaltsChoice(g, s, t, i);
    case Rep(p) =>
      TreeHalts(g, s, p, i, a, h, r);
      forall n: nat | Eval(g, s, p, i, n).Matched? ensures Halts(g, s, t, Eval(g, s, p, i, n).end) {
        EndInRange(g, s, p, i, n);
        LoopConsumes(g, s, t, i, n, a);
        TreeHalts(g, s, t, Eval(g, s, p, i, n).end, a, h, r);
      }
      HaltsRep(g, s, t, i);
    case Not(p) => TreeHalts(g, s, p, i, a, h, r); HaltsUnary(g, s, t, i);
    case And(p) => TreeHalts(g, s, p, i, a, h, r); HaltsUnary(g, s, t, i);
    case Capture(_, _, p) => TreeHalts(g, s, p, i, a, h, r); HaltsUnary(g, s, t, i);
    case Call(k) =>
      DepthRule(g, k);
      GoodEntry(g, k, a);
      FitsRule(g, k, a, r);
      EntryHalts(g, s, g[k], i, 0, false, a, h, r);
      HaltsCall(g, s, t, i);
    case Grammar(_) => SubgrammarHalts(g, s, t, i, a, h, r);
    case Behind(_, _) => BehindHalts(g, s, t, i, a, h, r);
    case _ => HaltsLeaf(g, s, t, i);
  }

  lemma GoodEntry(g: seq<Tree>, k: nat, a: nat)
    requires GoodRule(g, k, a)
    ensures Repaired(g, g[k], 0, false, a).Ok?
  {
  }

  lemma LoopConsumes(g: seq<Tree>, s: Subject, t: Tree, i: nat, n: nat, a: nat)
    requires t.Rep? && GoodIn(g, t, a) && i <= |s| && Eval(g, s, t.body, i, n).Matched?
    ensures Eval(g, s, t.body, i, n).end > i
  {
    NullableSound(g, s, t.body, i, n, a);
  }

  lemma {:induction false} SubgrammarHalts(g: seq<Tree>, s: Subject, t: Tree, i: nat, a: nat, h: nat, r: nat)
    requires t.Grammar? && GoodIn(g, t, a) && Wf(g, t) && i <= |s| && Depth(t) <= h
    ensures Halts(g, s, t, i)
    decreases h, r, 0, 0, 0, 0, t
  {
    hide Halts, Eval, VerifyRule, Repaired, GoodRule;
    var rs := t.rules;
    GoodGrammar(rs, a);
    DepthRule(rs, 0);
    FitsAll(rs, rs[0]);
    TreeHalts(rs, s, rs[0], i, a, h - 1, |rs| + 1);
    HaltsGrammar(g, s, t, i);
  }

  /** A look-behind goes back in the subject, but its body calls only rules of lower rank. */
  lemma {:induction false} BehindHalts(g: seq<Tree>, s: Subject, t: Tree, i: nat, a: nat, h: nat, r: nat)
    requires t.Behind? && GoodIn(g, t, a) && Wf(g, t) && WfRules(g) && i <= |s| && Under(g, t.body, r)
    requires DepthOf(g) <= h && Depth(t) <= h
    ensures Halts(g, s, t, i)
    decreases h, r, 1, t, 0, 0, 0
  {
    hide Halts, Eval, GoodIn, Under, GoodTree;
    if t.n <= i {
      GoodParts(g, t, a);
      ClosedHalts(g, s, t.body, i - t.n, a, h, r);
      HaltsUnary(g, s, t, i);
    } else {
      HaltsLeaf(g, s, t, i);
    }
  }

  lemma {:induction false} ClosedHalts(g: seq<Tree>, s: Subject, t: Tree, i: nat, a: nat, h: nat, r: nat)
    requires GoodIn(g, t, a) && Under(g, t, r) && Wf(g, t) && WfRules(g) && i <= |s|
    requires DepthOf(g) <= h && Depth(t) <= h
    ensures Halts(g, s, t, i)
    decreases h, r, 1, t, |s| - i + 1, 0, 0
  {
    hide Halts, Eval, GoodIn, GoodTree, VerifyRule, Repaired, GoodRule, Fits, Under, RuleRank;
    GoodParts(g, t, a);
    UnderParts(g, t, r);
    match t
    case Seq(p1, p2) =>
      ClosedHalts(g, s, p1, i, a, h, r);
      forall n: nat | Eval(g, s, p1, i, n).Matched? ensures Halts(g, s, p2, Eval(g, s, p1, i, n).end) {
        EndInRange(g, s, p1, i, n);
        ClosedHalts(g, s, p2, Eval(g, s, p1, i, n).end, a, h, r);
      }
      HaltsSeq(g, s, t, i);
    case Choice(p1, p2) =>
      ClosedHalts(g, s, p1, i, a, h, r);
      ClosedHalts(g, s, p2, i, a, h, r);
      HaltsChoice(g, s, t, i);
    case Rep(p) =>
      ClosedHalts(g, s, p, i, a, h, r);
      forall n: nat | Eval(g, s, p, i, n).Matched? ensures Halts(g, s, t, Eval(g, s, p, i, n).end) {
        EndInRange(g, s, p, i, n);
        LoopConsumes(g, s, t, i, n, a);
        ClosedHalts(g, s, t, Eval(g, s, p, i, n).end, a, h, r);
      }
      HaltsRep(g, s, t, i);
    case Not(p) => ClosedHalts(g, s, p, i, a, h, r); HaltsUnary(g, s, t, i);
    case And(p) => ClosedHalts(g, s, p, i, a, h, r); HaltsUnary(g, s, t, i);
    case Capture(_, _, p) => ClosedHalts(g, s, p, i, a, h, r); HaltsUnary(g, s, t, i);
    case Call(k) =>
      DepthRule(g, k);
      GoodEntry(g, k, a);
      FitsRule(g, k, a, r - 1);
      EntryHalts(g, s, g[k], i, 0, false, a, h, r - 1);
      HaltsCall(g, s, t, i);
    case Grammar(_) => SubgrammarHalts(g, s, t, i, a, h, r);
    case Behind(_, _) => BehindHalts(g, s, t, i, a, h, r);
    case _ => HaltsLeaf(g, s, t, i);
  }

  /** Evaluation of what verifyrule has walked through ends: at this position the calls still
      allowed go down; anything after a consumed character is covered by TreeHalts. */
  lemma {:induction false} EntryHalts(g: seq<Tree>, s: Subject, t: Tree, i: nat, npassed: nat, nb: bool, a: nat,
                                      h: nat, r: nat)
    requires GoodIn(g, t, a) && Wf(g, t) && WfRules(g) && i <= |s| && Fits(g, t, r)
    requires DepthOf(g) <= h && Depth(t) <= h
    requires npassed <= MAXRULES && Repaired(g, t, npassed, nb, a).Ok?
    ensures Halts(g, s, t, i)
    decreases h, r, 2, |s| - i, 0, MAXRULES - npassed, t
  {
    hide Halts, Eval, GoodIn, GoodTree, GoodRule, Fits, Under, RuleRank;
    GoodParts(g, t, a);
    FitsParts(g, t, r);
    match t
    case Seq(p1, p2) =>
      EntryHalts(g, s, p1, i, npassed, false, a, h, r);
      forall n: nat | Eval(g, s, p1, i, n).Matched? ensures Halts(g, s, p2, Eval(g, s, p1, i, n).end) {
        EndInRange(g, s, p1, i, n);
        var j := Eval(g, s, p1, i, n).end;
        if j == i {
          if Repaired(g, p1, npassed, false, a) == Ok(false) {
            VerdictSound(g, s, p1, i, n, npassed, false, a);
          }
          EntryHalts(g, s, p2, i, npassed, nb, a, h, r);
        } else {
          TreeHalts(g, s, p2, j, a, h, r);
        }
      }
      HaltsSeq(g, s, t, i);
    case Choice(p1, p2) =>
      EntryHalts(g, s, p1, i, npassed, nb, a, h, r);
      EntryHalts(g, s, p2, i, npassed, Repaired(g, p1, npassed, nb, a).nullable, a, h, r);
      HaltsChoice(g, s, t, i);
    case Rep(p) =>
      EntryHalts(g, s, p, i, npassed, true, a, h, r);
      forall n: nat | Eval(g, s, p, i, n).Matched? ensures Halts(g, s, t, Eval(g, s, p, i, n).end) {
        EndInRange(g, s, p, i, n);
        LoopConsumes(g, s, t, i, n, a);
        TreeHalts(g, s, t, Eval(g, s, p, i, n).end, a, h, r);
      }
      HaltsRep(g, s, t, i);
    case Not(p) => EntryHalts(g, s, p, i, npassed, true, a, h, r); HaltsUnary(g, s, t, i);
    case And(p) => EntryHalts(g, s, p, i, npassed, true, a, h, r); HaltsUnary(g, s, t, i);
    case Capture(_, _, p) => EntryHalts(g, s, p, i, npassed, nb, a, h, r); HaltsUnary(g, s, t, i);
    case Call(k) =>
      DepthRule(g, k);
      FitsRule(g, k, a, r);
      EntryHalts(g, s, g[k], i, npassed + 1, nb, a, h, r);
      HaltsCall(g, s, t, i);
    case Grammar(_) => SubgrammarHalts(g, s, t, i, a, h, r);
    case Behind(_, _) => BehindHalts(g, s, t, i, a, h, r);
    case _ => HaltsLeaf(g, s, t, i);
  }

  // ----- the theorem -------------------------------------------------------------------

  /** A pattern that the library accepts: its constructors have been used properly, none of its
      repetitions may loop on the empty string, and its grammars have been verified. */
  ghost predicate Accepted(t: Tree, a: nat) {
    Wf([], t) && !CheckLoops([], t, a) && GrammarsOk(t, a)
  }

  lemma AcceptedGood(t: Tree, a: nat)
    requires Accepted(t, a) && NoGaps(t, a)
    ensures GoodIn([], t, a)
  {
    forall k: nat ensures !Calls(t, k) { if Calls(t, k) { WfCalls([], t, k); } }
  }

  /** Matching an accepted pattern ends on every subject, from every position, as long as the
      check has not met one of its two gaps. */
  lemma AcceptedHalts(t: Tree, s: Subject, i: nat, a: nat)
    requires Accepted(t, a) && NoGaps(t, a) && i <= |s|
    ensures Halts([], s, t, i)
  {
    AcceptedGood(t, a);
    FitsAll([], t);
    TreeHalts([], s, t, i, a, Depth(t), 1);
  }

  /** First gap: A <- G* A, where the sub-grammar G matches one 'x', is accepted. The check asks
      the sub-grammar alone and concludes that G* consumes something. */
  function DroppedFlag(): Tree {
    Grammar([Seq(Rep(Grammar([Char(120)])), Call(0))])
  }

  lemma DroppedFlagAccepted(a: nat)
    ensures Accepted(DroppedFlag(), a)
  {
    var inner := Grammar([Char(120)]);
    var rule := Seq(Rep(inner), Call(0));
    assert VerifyGrammar([Char(120)], a);
    assert GrammarsOk(inner, a);
    assert !Nullable([Char(120)], Char(120), a);
    assert !Nullable([rule], inner, a);
    assert !CheckLoops([rule], Rep(inner), a);
    assert !CheckLoops([rule], rule, a);
    assert VerifyRule([rule], inner, 0, true, a) == Ok(false);
    assert VerifyRule([rule], Rep(inner), 0, false, a) == Ok(false);
    assert Verified([rule], 0, a);
    assert VerifyGrammar([rule], a);
    assert Wf([rule], inner) by { assert Wf([Char(120)], Char(120)); }
    assert Wf([rule], rule);
    assert WfRules([rule]);
  }

  /** The repaired check walks round the recursion until it gives up. */
  lemma {:induction false} DroppedFlagCaught(npassed: nat, a: nat)
    requires npassed <= MAXRULES
    ensures Repaired(DroppedFlag().rules, DroppedFlag().rules[0], npassed, false, a).Error?
    decreases MAXRULES - npassed
  {
    var rs := DroppedFlag().rules;
    assert Repaired(rs, Rep(Grammar([Char(120)])), npassed, false, a) == Ok(true);
    if npassed < MAXRULES {
      DroppedFlagCaught(npassed + 1, a);
    }
    assert Repaired(rs, Call(0), npassed, false, a).Error?;
  }

  lemma GapsFound(a: nat)
    ensures !NoGaps(DroppedFlag(), a) && !NoGaps(BehindCalls(), a)
  {
    hide Repaired, Reach;
    DroppedFlagCaught(0, a);
    assert Used(DroppedFlag().rules, 0);
    var rs := BehindCalls().rules;
    assert Used(rs, 0);
    assert !BehindsLeave(rs, 0) by { assert CalledBehind(rs[0], 0) && 0 in Reach(rs, {0}); }
  }

  lemma {:induction false} DroppedFlagDiverges(s: Subject, i: nat, n: nat)
    ensures Eval([], s, DroppedFlag(), i, n).Timeout?
    decreases n
  {
    var rule := Seq(Rep(Grammar([Char(120)])), Call(0));
    assert NoFail([rule], Rep(Grammar([Char(120)])), 0);
    NoFailSound([rule], s, Rep(Grammar([Char(120)])), i, n, 0);
    var r := Eval([rule], s, Rep(Grammar([Char(120)])), i, n);
    if r.Matched? && n > 0 {
      DroppedFlagDiverges(s, r.end, n - 1);
      assert Eval([rule], s, Call(0), r.end, n) == Eval([rule], s, rule, r.end, n - 1);
    }
    assert Eval([], s, DroppedFlag(), i, n) == Eval([rule], s, rule, i, n);
  }

  /** Second gap: A <- <(&A) is accepted, because the check does not look inside look-behinds
      and the length of a predicate is fixed whatever it calls. */
  function BehindCalls(): Tree {
    Grammar([Behind(0, And(Call(0)))])
  }

  lemma BehindCallsAccepted(a: nat)
    ensures Accepted(BehindCalls(), a)
  {
    var rule := Behind(0, And(Call(0)));
    assert !CheckLoops([rule], And(Call(0)), a);
    assert Verified([rule], 0, a);
    assert VerifyGrammar([rule], a);
    assert !HasCaptures([], And(Call(0)), 0);
    assert BehindOk(0, And(Call(0)));
    assert Wf([rule], And(Call(0)));
    assert Wf([rule], rule);
    assert WfRules([rule]);
  }

  lemma {:induction false} BehindCallsDiverges(s: Subject, i: nat, n: nat)
    ensures Eval([], s, BehindCalls(), i, n).Timeout?
    decreases n
  {
    var rule := Behind(0, And(Call(0)));
    if n > 0 {
      BehindCallsDiverges(s, i, n - 1);
      assert Eval([], s, BehindCalls(), i, n - 1) == Eval([rule], s, rule, i, n - 1);
      assert Eval([rule], s, Call(0), i, n) == Eval([rule], s, rule, i, n - 1);
    }
    assert Eval([rule], s, And(Call(0)), i, n).Timeout?;
    assert Eval([], s, BehindCalls(), i, n) == Eval([rule], s, rule, i, n);
  }
}

/** The checks on grammars refuse nothing that they should accept: what is refused has a rule that comes
    back to itself before anything is consumed, or a repetition of something that may be empty. */
module Acceptance {
  import opened Peg
  import opened Analysis
  import opened Accept

  // ----- what the checks are about -------------------------------------------------------------

  /** The pattern may match the empty string, as its form goes: predicates and repetitions may, a
      character may not. A derivation follows at most 'n' calls. */
  predicate EmptyIn(g: seq<Tree>, t: Tree, n: nat)
    decreases n, t
  {
    match t
    case True => true
    case Rep(_) => true
    case Not(_) => true
    case And(_) => true
    case Behind(_, _) => true
    case Seq(p1, p2) => EmptyIn(g, p1, n) && EmptyIn(g, p2, n)
    case Choice(p1, p2) => EmptyIn(g, p1, n) || EmptyIn(g, p2, n)
    case Capture(_, _, p) => EmptyIn(g, p, n)
    case Grammar(rs) => rs != [] && EmptyIn(rs, rs[0], n)
    case Call(k) => k < |g| && n > 0 && EmptyIn(g, g[k], n - 1)
    case _ => false
  }

  ghost predicate MayBeEmpty(g: seq<Tree>, t: Tree) {
    exists n: nat :: EmptyIn(g, t, n)
  }

  /** The tree may call rule 'k' before it has consumed anything. */
  ghost predicate LeftCalls(g: seq<Tree>, t: Tree, k: nat) {
    match t
    case Call(j) => j == k
    case Seq(p1, p2) => LeftCalls(g, p1, k) || (MayBeEmpty(g, p1) && LeftCalls(g, p2, k))
    case Choice(p1, p2) => LeftCalls(g, p1, k) || LeftCalls(g, p2, k)
    case Rep(p) => LeftCalls(g, p, k)
    case Not(p) => LeftCalls(g, p, k)
    case And(p) => LeftCalls(g, p, k)
    case Capture(_, _, p) => LeftCalls(g, p, k)
    case _ => false
  }

  /** Rules that call each other so, from the tree on. */
  ghost predicate LeftChain(g: seq<Tree>, t: Tree, ks: seq<nat>)
    decreases |ks|
  {
    ks != [] ==> ks[0] < |g| && LeftCalls(g, t, ks[0]) && LeftChain(g, g[ks[0]], ks[1..])
  }

  /** No rule comes back to itself. */
  ghost predicate NoLeftCycle(g: seq<Tree>) {
    forall k: nat, ks: seq<nat> :: k < |g| && ks != [] && LeftChain(g, g[k], ks) ==> ks[|ks| - 1] != k
  }

  /** 'u' is a part of the tree, outside its sub-grammars. */
  predicate Contains(t: Tree, u: Tree) {
    t == u ||
    match t
    case Rep(p) => Contains(p, u)
    case Not(p) => Contains(p, u)
    case And(p) => Contains(p, u)
    case Behind(_, p) => Contains(p, u)
    case Capture(_, _, p) => Contains(p, u)
    case Seq(p1, p2) => Contains(p1, u) || Contains(p2, u)
    case Choice(p1, p2) => Contains(p1, u) || Contains(p2, u)
    case _ => false
  }

  /** Some repetition may go round without consuming anything. */
  ghost predicate EmptyLoop(g: seq<Tree>, t: Tree) {
    exists p :: Contains(t, Rep(p)) && MayBeEmpty(g, p)
  }

  /** Every grammar in the tree is as it should be: no rule comes back to itself, and no rule that is
      used has an empty loop. A grammar has at most 1000 rules. */
  ghost predicate Sane(t: Tree)
    decreases t
  {
    match t
    case Grammar(rs) =>
      && NoLeftCycle(rs) && (forall k: nat :: k < |rs| && Used(rs, k) ==> !EmptyLoop(rs, rs[k]))
      && forall k :: 0 <= k < |rs| ==> Sane(rs[k])
    case Rep(p) => Sane(p)
    case Not(p) => Sane(p)
    case And(p) => Sane(p)
    case Behind(_, p) => Sane(p)
    case Capture(_, _, p) => Sane(p)
    case Seq(p1, p2) => Sane(p1) && Sane(p2)
    case Choice(p1, p2) => Sane(p1) && Sane(p2)
    case _ => true
  }

  predicate FewRules(t: Tree)
    decreases t
  {
    match t
    case Grammar(rs) => |rs| <= 1000 && forall k :: 0 <= k < |rs| ==> FewRules(rs[k])
    case Rep(p) => FewRules(p)
    case Not(p) => FewRules(p)
    case And(p) => FewRules(p)
    case Behind(_, p) => FewRules(p)
    case Capture(_, _, p) => FewRules(p)
    case Seq(p1, p2) => FewRules(p1) && FewRules(p2)
    case Choice(p1, p2) => FewRules(p1) && FewRules(p2)
    case _ => true
  }

  // ----- emptiness ---------------------------------------------------------------------------

  lemma {:induction false} EmptyMore(g: seq<Tree>, t: Tree, n: nat, m: nat)
    requires n <= m && EmptyIn(g, t, n)
    ensures EmptyIn(g, t, m)
    decreases n, t
  {
    match t
    case Seq(p1, p2) => EmptyMore(g, p1, n, m); EmptyMore(g, p2, n, m);
    case Choice(p1, p2) => if EmptyIn(g, p1, n) { EmptyMore(g, p1, n, m); } else { EmptyMore(g, p2, n, m); }
    case Capture(_, _, p) => EmptyMore(g, p, n, m);
    case Grammar(rs) => EmptyMore(rs, rs[0], n, m);
    case Call(k) => EmptyMore(g, g[k], n - 1, m - 1);
    case _ =>
  }

  lemma EmptyParts(g: seq<Tree>, t: Tree)
    ensures t.True? || t.Rep? || t.Not? || t.And? || t.Behind? ==> MayBeEmpty(g, t)
    ensures t.Char? || t.Set? || t.AnyChar? || t.False? ==> !MayBeEmpty(g, t)
    ensures t.Seq? ==> (MayBeEmpty(g, t) <==> MayBeEmpty(g, t.p1) && MayBeEmpty(g, t.p2))
    ensures t.Choice? ==> (MayBeEmpty(g, t) <==> MayBeEmpty(g, t.p1) || MayBeEmpty(g, t.p2))
    ensures t.Capture? ==> (MayBeEmpty(g, t) <==> MayBeEmpty(g, t.body))
    ensures t.Grammar? && t.rules != [] ==> (MayBeEmpty(g, t) <==> MayBeEmpty(t.rules, t.rules[0]))
    ensures t.Call? && t.rule < |g| ==> (MayBeEmpty(g, t) <==> MayBeEmpty(g, g[t.rule]))
  {
    match t
    case True => assert EmptyIn(g, t, 0);
    case Rep(_) => assert EmptyIn(g, t, 0);
    case Not(_) => assert EmptyIn(g, t, 0);
    case And(_) => assert EmptyIn(g, t, 0);
    case Behind(_, _) => assert EmptyIn(g, t, 0);
    case Seq(p1, p2) =>
      if MayBeEmpty(g, p1) && MayBeEmpty(g, p2) {
        var n: nat, m: nat :| EmptyIn(g, p1, n) && EmptyIn(g, p2, m);
        EmptyMore(g, p1, n, n + m);
        EmptyMore(g, p2, m, n + m);
        assert EmptyIn(g, t, n + m);
      }
      if n: nat :| EmptyIn(g, t, n) { assert EmptyIn(g, p1, n) && EmptyIn(g, p2, n); }
    case Choice(p1, p2) =>
      if n: nat :| EmptyIn(g, p1, n) { assert EmptyIn(g, t, n); }
      if n: nat :| EmptyIn(g, p2, n) { assert EmptyIn(g, t, n); }
      if n: nat :| EmptyIn(g, t, n) { assert EmptyIn(g, p1, n) || EmptyIn(g, p2, n); }
    case Capture(_, _, p) =>
      if n: nat :| EmptyIn(g, p, n) { assert EmptyIn(g, t, n); }
      if n: nat :| EmptyIn(g, t, n) { assert EmptyIn(g, p, n); }
    case Grammar(rs) =>
      if n: nat :| rs != [] && EmptyIn(rs, rs[0], n) { assert EmptyIn(g, t, n); }
      if n: nat :| EmptyIn(g, t, n) { assert EmptyIn(rs, rs[0], n); }
    case Call(k) =>
      if k < |g| {
        if n: nat :| EmptyIn(g, g[k], n) { assert EmptyIn(g, t, n + 1); }
        if n: nat :| EmptyIn(g, t, n) { assert EmptyIn(g, g[k], n - 1); }
      }
    case _ =>
  }

  /** What may be empty is nullable, for every budget. */
  lemma {:induction false} EmptyIsNullable(g: seq<Tree>, t: Tree, n: nat, a: nat)
    requires EmptyIn(g, t, n)
    ensures Nullable(g, t, a)
    decreases n, t
  {
    match t
    case Seq(p1, p2) => EmptyIsNullable(g, p1, n, a); EmptyIsNullable(g, p2, n, a);
    case Choice(p1, p2) =>
      if EmptyIn(g, p1, n) { EmptyIsNullable(g, p1, n, a); } else { EmptyIsNullable(g, p2, n, a); }
    case Capture(_, _, p) => EmptyIsNullable(g, p, n, a);
    case Grammar(rs) => EmptyIsNullable(rs, rs[0], n, a);
    case Call(k) => if a > 0 { EmptyIsNullable(g, g[k], n - 1, a - 1); }
    case _ =>
  }

  // ----- chains ------------------------------------------------------------------------------

  lemma {:induction false} ChainPart(g: seq<Tree>, t: Tree, ks: seq<nat>, i: nat, j: nat)
    requires LeftChain(g, t, ks) && i < j < |ks|
    ensures ks[i] < |g| && LeftChain(g, g[ks[i]], ks[i + 1..j + 1])
    decreases i, j
  {
    if i > 0 {
      ChainPart(g, g[ks[0]], ks[1..], i - 1, j - 1);
      assert ks[1..][i..j] == ks[i + 1..j + 1];
    } else {
      ChainFront(g, g[ks[0]], ks[1..], j);
      assert ks[1..][..j] == ks[1..j + 1];
    }
  }

  lemma {:induction false} ChainFront(g: seq<Tree>, t: Tree, ks: seq<nat>, j: nat)
    requires LeftChain(g, t, ks) && j <= |ks|
    ensures LeftChain(g, t, ks[..j])
    decreases j
  {
    if j > 0 {
      ChainFront(g, g[ks[0]], ks[1..], j - 1);
      assert ks[..j][1..] == ks[1..][..j - 1];
    }
  }

  lemma {:induction false} ChainRange(g: seq<Tree>, t: Tree, ks: seq<nat>)
    requires LeftChain(g, t, ks)
    ensures forall i :: 0 <= i < |ks| ==> ks[i] < |g|
    decreases |ks|
  {
    if ks != [] {
      ChainRange(g, g[ks[0]], ks[1..]);
      assert forall i :: 0 < i < |ks| ==> ks[i] == ks[1..][i - 1];
    }
  }

  /** More numbers below 'n' than 'n' are not all different. */
  lemma Pigeons(ks: seq<nat>, n: nat)
    requires |ks| > n && forall x :: 0 <= x < |ks| ==> ks[x] < n
    ensures exists i, j :: 0 <= i < j < |ks| && ks[i] == ks[j]
  {
    if forall i, j :: 0 <= i < j < |ks| ==> ks[i] != ks[j] { Different(ks, n); }
  }

  lemma {:induction false} Different(ks: seq<nat>, n: nat)
    requires forall x :: 0 <= x < |ks| ==> ks[x] < n
    requires forall x, y :: 0 <= x < y < |ks| ==> ks[x] != ks[y]
    ensures |ks| <= n
  {
    var s := set x | 0 <= x < |ks| :: ks[x];
    SameSize(ks, s);
    FewerIn(s, Below(n));
  }

  lemma {:induction false} SameSize(ks: seq<nat>, s: set<nat>)
    requires forall x, y :: 0 <= x < y < |ks| ==> ks[x] != ks[y]
    requires s == set x | 0 <= x < |ks| :: ks[x]
    ensures |s| == |ks|
    decreases |ks|
  {
    if ks != [] {
      var n := |ks| - 1;
      var r := set x | 0 <= x < n :: ks[x];
      SameSize(ks[..n], r);
      assert s == r + {ks[n]};
    }
  }

  lemma CycleFound(g: seq<Tree>, k: nat, ks: seq<nat>)
    requires k < |g| && ks != [] && LeftChain(g, g[k], ks) && ks[|ks| - 1] == k
    ensures !NoLeftCycle(g)
  {
  }

  /** A chain is not longer than there are rules. */
  lemma ChainBound(g: seq<Tree>, t: Tree, ks: seq<nat>)
    requires NoLeftCycle(g) && LeftChain(g, t, ks)
    ensures |ks| <= |g|
  {
    hide NoLeftCycle, LeftChain;
    if |ks| > |g| {
      ChainRange(g, t, ks);
      Pigeons(ks, |g|);
      var i, j :| 0 <= i < j < |ks| && ks[i] == ks[j];
      ChainPart(g, t, ks, i, j);
      CycleFound(g, ks[i], ks[i + 1..j + 1]);
    }
  }

  /** One more call in front. */
  lemma ChainCall(g: seq<Tree>, k: nat, ks: seq<nat>)
    requires k < |g| && LeftChain(g, g[k], ks)
    ensures LeftChain(g, Call(k), [k] + ks)
  {
    assert ([k] + ks)[1..] == ks;
  }

  /** A chain from a part that is entered first is one from the whole. */
  lemma ChainUp(g: seq<Tree>, t: Tree, p: Tree, ks: seq<nat>)
    requires LeftChain(g, p, ks)
    requires ((t.Rep? || t.Not? || t.And? || t.Capture?) && p == t.body)
             || ((t.Seq? || t.Choice?) && p == t.p1)
             || (t.Choice? && p == t.p2) || (t.Seq? && p == t.p2 && MayBeEmpty(g, t.p1))
    ensures LeftChain(g, t, ks)
  {
  }

  // ----- nullable is exact ---------------------------------------------------------------------

  /** All grammars inside the tree and its rules are small and as they should be. */
  ghost predicate Neat(g: seq<Tree>, t: Tree, h: nat) {
    && Wf(g, t) && Sane(t) && FewRules(t) && Depth(t) <= h
    && WfRules(g) && DepthOf(g) <= h && (forall k :: 0 <= k < |g| ==> Sane(g[k]) && FewRules(g[k]))
  }

  lemma NeatParts(g: seq<Tree>, t: Tree, h: nat)
    requires Neat(g, t, h)
    ensures t.Seq? || t.Choice? ==> Neat(g, t.p1, h) && Neat(g, t.p2, h)
    ensures t.Rep? || t.Not? || t.And? || t.Capture? || t.Behind? ==> Neat(g, t.body, h)
    ensures t.Call? ==> t.rule < |g| && Neat(g, g[t.rule], h)
    ensures t.Grammar? ==>
              && t.rules != [] && h > 0 && |t.rules| <= 1000 && NoLeftCycle(t.rules)
              && forall k :: 0 <= k < |t.rules| ==> Neat(t.rules, t.rules[k], h - 1)
  {
    hide NoLeftCycle, EmptyLoop, Used, BehindOk;
    if t.Call? { DepthRule(g, t.rule); }
    if t.Grammar? {
      forall k: nat | k < |t.rules| ensures Depth(t.rules[k]) <= h - 1 { DepthRule(t.rules, k); }
    }
  }

  /** A nullable pattern may be empty, or calls lead on until the budget is used up; 'c' of the calls
      that it is enough for are in this grammar. */
  lemma {:induction false} NullableChain(g: seq<Tree>, t: Tree, n: nat, c: nat, h: nat) returns (ks: seq<nat>)
    requires Neat(g, t, h) && n >= c + 1001 * h && Nullable(g, t, n) && !MayBeEmpty(g, t)
    ensures |ks| == c + 1 && LeftChain(g, t, ks)
    decreases h, c, t
  {
    hide Neat, MayBeEmpty, LeftChain, NoLeftCycle;
    NeatParts(g, t, h);
    EmptyParts(g, t);
    match t
    case Seq(p1, p2) =>
      if MayBeEmpty(g, p1) {
        ks := NullableChain(g, p2, n, c, h);
        ChainUp(g, t, p2, ks);
      } else {
        ks := NullableChain(g, p1, n, c, h);
        ChainUp(g, t, p1, ks);
      }
    case Choice(p1, p2) =>
      if Nullable(g, p1, n) {
        ks := NullableChain(g, p1, n, c, h);
        ChainUp(g, t, p1, ks);
      } else {
        ks := NullableChain(g, p2, n, c, h);
        ChainUp(g, t, p2, ks);
      }
    case Capture(_, _, p) =>
      ks := NullableChain(g, p, n, c, h);
      ChainUp(g, t, p, ks);
    case Call(k) =>
      ks := [];
      if c > 0 { ks := NullableChain(g, g[k], n - 1, c - 1, h); } else { EmptyChain(g, g[k]); }
      ChainCall(g, k, ks);
      ks := [k] + ks;
    case Grammar(rs) =>
      ks := NullableChain(rs, rs[0], n, 1000, h - 1);
      ChainBound(rs, rs[0], ks);
      assert false;
  }

  lemma EmptyChain(g: seq<Tree>, t: Tree)
    ensures LeftChain(g, t, [])
  {
  }

  /** With a sufficient budget, nullable is exactly this: the pattern may be empty. */
  lemma NullableExact(g: seq<Tree>, t: Tree, n: nat, h: nat)
    requires Neat(g, t, h) && NoLeftCycle(g) && |g| <= 1000 && n >= 1000 + 1001 * h
    ensures Nullable(g, t, n) <==> MayBeEmpty(g, t)
  {
    hide Neat, LeftChain, NoLeftCycle;
    if m: nat :| EmptyIn(g, t, m) { EmptyIsNullable(g, t, m, n); }
    if Nullable(g, t, n) && !MayBeEmpty(g, t) {
      var ks := NullableChain(g, t, n, 1000, h);
      ChainBound(g, t, ks);
    }
  }

  // ----- left recursion --------------------------------------------------------------------------

  /** The repaired check answers true only if a flag was set or the pattern may be empty. */
  lemma {:induction false} TrueIsEmpty(g: seq<Tree>, t: Tree, npassed: nat, nb: bool, a: nat, h: nat)
    requires Neat(g, t, h) && a >= 1000 + 1001 * h
    requires npassed <= MAXRULES && Repaired(g, t, npassed, nb, a) == Ok(true)
    ensures nb || MayBeEmpty(g, t)
    decreases MAXRULES - npassed, t
  {
    hide Neat, MayBeEmpty, NoLeftCycle;
    NeatParts(g, t, h);
    EmptyParts(g, t);
    match t
    case Capture(_, _, p) => TrueIsEmpty(g, p, npassed, nb, a, h);
    case Call(k) => TrueIsEmpty(g, g[k], npassed + 1, nb, a, h);
    case Seq(p1, p2) =>
      if Repaired(g, p1, npassed, false, a) == Ok(true) {
        TrueIsEmpty(g, p1, npassed, false, a, h);
        TrueIsEmpty(g, p2, npassed, nb, a, h);
      }
    case Choice(p1, p2) =>
      var b := Repaired(g, p1, npassed, nb, a).nullable;
      if b { TrueIsEmpty(g, p1, npassed, nb, a, h); }
      TrueIsEmpty(g, p2, npassed, b, a, h);
    case Grammar(rs) => if !nb { NullableExact(rs, rs[0], a, h - 1); }
    case _ =>
  }

  /** An error comes from a chain of more left calls than there may be. */
  lemma {:induction false} ErrorChain(g: seq<Tree>, t: Tree, npassed: nat, nb: bool, a: nat, h: nat)
    returns (ks: seq<nat>)
    requires Neat(g, t, h) && a >= 1000 + 1001 * h
    requires npassed <= MAXRULES && Repaired(g, t, npassed, nb, a).Error?
    ensures |ks| == MAXRULES - npassed + 1 && LeftChain(g, t, ks)
    decreases MAXRULES - npassed, t
  {
    hide Neat, MayBeEmpty, LeftChain, NoLeftCycle;
    NeatParts(g, t, h);
    match t
    case Not(p) => ks := ErrorChain(g, p, npassed, true, a, h); ChainUp(g, t, p, ks);
    case And(p) => ks := ErrorChain(g, p, npassed, true, a, h); ChainUp(g, t, p, ks);
    case Rep(p) => ks := ErrorChain(g, p, npassed, true, a, h); ChainUp(g, t, p, ks);
    case Capture(_, _, p) => ks := ErrorChain(g, p, npassed, nb, a, h); ChainUp(g, t, p, ks);
    case Call(k) =>
      ks := [];
      if npassed < MAXRULES { ks := ErrorChain(g, g[k], npassed + 1, nb, a, h); } else { EmptyChain(g, g[k]); }
      ChainCall(g, k, ks);
      ks := [k] + ks;
    case Seq(p1, p2) =>
      if Repaired(g, p1, npassed, false, a).Error? {
        ks := ErrorChain(g, p1, npassed, false, a, h);
        ChainUp(g, t, p1, ks);
      } else {
        TrueIsEmpty(g, p1, npassed, false, a, h);
        ks := ErrorChain(g, p2, npassed, nb, a, h);
        ChainUp(g, t, p2, ks);
      }
    case Choice(p1, p2) =>
      if Repaired(g, p1, npassed, nb, a).Error? {
        ks := ErrorChain(g, p1, npassed, nb, a, h);
        ChainUp(g, t, p1, ks);
      } else {
        ks := ErrorChain(g, p2, npassed, Repaired(g, p1, npassed, nb, a).nullable, a, h);
        ChainUp(g, t, p2, ks);
      }
  }

  /** A rule from which no left calls lead in a circle passes. */
  lemma NoCyclePasses(g: seq<Tree>, t: Tree, a: nat, h: nat)
    requires Neat(g, t, h) && NoLeftCycle(g) && |g| <= 1000 && a >= 1000 + 1001 * h
    ensures Repaired(g, t, 0, false, a).Ok? && VerifyRule(g, t, 0, false, a).Ok?
  {
    hide Neat, LeftChain, NoLeftCycle, Repaired, VerifyRule;
    if Repaired(g, t, 0, false, a).Error? {
      var ks := ErrorChain(g, t, 0, false, a, h);
      ChainBound(g, t, ks);
    }
    RepairedStricter(g, t, 0, false, false, a);
  }

  /** What may be empty gets the answer true. */
  lemma {:induction false} EmptyIsTrue(g: seq<Tree>, t: Tree, npassed: nat, nb: bool, a: nat, n: nat)
    requires npassed <= MAXRULES && Repaired(g, t, npassed, nb, a).Ok? && EmptyIn(g, t, n)
    ensures Repaired(g, t, npassed, nb, a) == Ok(true)
    decreases MAXRULES - npassed, t
  {
    match t
    case Not(p) => FlagKept(g, p, npassed, a);
    case And(p) => FlagKept(g, p, npassed, a);
    case Rep(p) => FlagKept(g, p, npassed, a);
    case Capture(_, _, p) => EmptyIsTrue(g, p, npassed, nb, a, n);
    case Call(k) => EmptyIsTrue(g, g[k], npassed + 1, nb, a, n - 1);
    case Seq(p1, p2) =>
      EmptyIsTrue(g, p1, npassed, false, a, n);
      EmptyIsTrue(g, p2, npassed, nb, a, n);
    case Choice(p1, p2) =>
      if EmptyIn(g, p1, n) {
        EmptyIsTrue(g, p1, npassed, nb, a, n);
        FlagKept(g, p2, npassed, a);
      } else {
        EmptyIsTrue(g, p2, npassed, Repaired(g, p1, npassed, nb, a).nullable, a, n);
      }
    case Grammar(_) => EmptyIsNullable(g, t, n, a);
    case _ =>
  }

  /** Left calls of a tree that passes end soon. */
  lemma {:induction false} PassedChain(g: seq<Tree>, t: Tree, npassed: nat, nb: bool, a: nat, ks: seq<nat>)
    requires npassed <= MAXRULES && Repaired(g, t, npassed, nb, a).Ok? && LeftChain(g, t, ks)
    ensures |ks| <= MAXRULES - npassed
    decreases MAXRULES - npassed, t
  {
    if ks != [] {
      match t
      case Not(p) => PassedChain(g, p, npassed, true, a, ks);
      case And(p) => PassedChain(g, p, npassed, true, a, ks);
      case Rep(p) => PassedChain(g, p, npassed, true, a, ks);
      case Capture(_, _, p) => PassedChain(g, p, npassed, nb, a, ks);
      case Call(k) => PassedChain(g, g[k], npassed + 1, nb, a, ks[1..]);
      case Seq(p1, p2) =>
        if LeftCalls(g, p1, ks[0]) {
          PassedChain(g, p1, npassed, false, a, ks);
        } else {
          var n: nat :| EmptyIn(g, p1, n);
          EmptyIsTrue(g, p1, npassed, false, a, n);
          PassedChain(g, p2, npassed, nb, a, ks);
        }
      case Choice(p1, p2) =>
        if LeftCalls(g, p1, ks[0]) {
          PassedChain(g, p1, npassed, nb, a, ks);
        } else {
          PassedChain(g, p2, npassed, Repaired(g, p1, npassed, nb, a).nullable, a, ks);
        }
    }
  }

  /** A circle of left calls can be followed as long as one likes. */
  lemma {:induction false} RoundAndRound(g: seq<Tree>, k: nat, ks: seq<nat>, m: nat) returns (cs: seq<nat>)
    requires k < |g| && ks != [] && LeftChain(g, g[k], ks) && ks[|ks| - 1] == k
    ensures |cs| >= m && LeftChain(g, g[k], cs)
    decreases m
  {
    if m == 0 {
      cs := [];
    } else {
      cs := RoundAndRound(g, k, ks, m - 1);
      ChainOn(g, g[k], ks, cs);
      cs := ks + cs;
    }
  }

  lemma {:induction false} ChainOn(g: seq<Tree>, t: Tree, ks: seq<nat>, cs: seq<nat>)
    requires ks != [] && LeftChain(g, t, ks) && ks[|ks| - 1] < |g| && LeftChain(g, g[ks[|ks| - 1]], cs)
    ensures LeftChain(g, t, ks + cs)
    decreases |ks|
  {
    assert (ks + cs)[1..] == ks[1..] + cs;
    if |ks| > 1 { ChainOn(g, g[ks[0]], ks[1..], cs); } else { assert ks[1..] + cs == cs; }
  }

  // ----- the checks are exact ----------------------------------------------------------------------

  lemma LoopParts(g: seq<Tree>, t: Tree)
    ensures t.Rep? ==> (EmptyLoop(g, t) <==> MayBeEmpty(g, t.body) || EmptyLoop(g, t.body))
    ensures t.Not? || t.And? || t.Behind? || t.Capture? ==> (EmptyLoop(g, t) <==> EmptyLoop(g, t.body))
    ensures t.Seq? || t.Choice? ==> (EmptyLoop(g, t) <==> EmptyLoop(g, t.p1) || EmptyLoop(g, t.p2))
    ensures t.Char? || t.Set? || t.AnyChar? || t.True? || t.False? || t.Call? || t.Grammar? ==> !EmptyLoop(g, t)
  {
    hide MayBeEmpty;
    if t.Rep? {
      assert Contains(t, Rep(t.body));
      if EmptyLoop(g, t.body) { var p :| Contains(t.body, Rep(p)) && MayBeEmpty(g, p); assert Contains(t, Rep(p)); }
    } else if t.Not? || t.And? || t.Behind? || t.Capture? {
      if EmptyLoop(g, t.body) { var p :| Contains(t.body, Rep(p)) && MayBeEmpty(g, p); assert Contains(t, Rep(p)); }
    } else if t.Seq? || t.Choice? {
      if EmptyLoop(g, t.p1) { var p :| Contains(t.p1, Rep(p)) && MayBeEmpty(g, p); assert Contains(t, Rep(p)); }
      if EmptyLoop(g, t.p2) { var p :| Contains(t.p2, Rep(p)) && MayBeEmpty(g, p); assert Contains(t, Rep(p)); }
    }
  }

  /** checkloops refuses exactly the empty loops. */
  lemma {:induction false} LoopsExact(g: seq<Tree>, t: Tree, a: nat, h: nat)
    requires Neat(g, t, h) && NoLeftCycle(g) && |g| <= 1000 && a >= 1000 + 1001 * h
    ensures CheckLoops(g, t, a) <==> EmptyLoop(g, t)
    decreases t
  {
    hide Neat, MayBeEmpty, NoLeftCycle, EmptyLoop, Nullable;
    NeatParts(g, t, h);
    LoopParts(g, t);
    match t
    case Rep(p) => NullableExact(g, p, a, h); LoopsExact(g, p, a, h);
    case Not(p) => LoopsExact(g, p, a, h);
    case And(p) => LoopsExact(g, p, a, h);
    case Behind(_, p) => LoopsExact(g, p, a, h);
    case Capture(_, _, p) => LoopsExact(g, p, a, h);
    case Seq(p1, p2) => LoopsExact(g, p1, a, h); LoopsExact(g, p2, a, h);
    case Choice(p1, p2) => LoopsExact(g, p1, a, h); LoopsExact(g, p2, a, h);
    case _ =>
  }

  /** checkloops lets no empty loop through, whatever the grammar. */
  lemma {:induction false} LoopsFound(g: seq<Tree>, t: Tree, a: nat)
    requires EmptyLoop(g, t)
    ensures CheckLoops(g, t, a)
    decreases t
  {
    hide MayBeEmpty, EmptyLoop, Nullable;
    LoopParts(g, t);
    match t
    case Rep(p) => if MayBeEmpty(g, p) { BodyNullable(g, p, a); } else { LoopsFound(g, p, a); }
    case Not(p) => LoopsFound(g, p, a);
    case And(p) => LoopsFound(g, p, a);
    case Behind(_, p) => LoopsFound(g, p, a);
    case Capture(_, _, p) => LoopsFound(g, p, a);
    case Seq(p1, p2) => if EmptyLoop(g, p1) { LoopsFound(g, p1, a); } else { LoopsFound(g, p2, a); }
    case Choice(p1, p2) => if EmptyLoop(g, p1) { LoopsFound(g, p1, a); } else { LoopsFound(g, p2, a); }
  }

  lemma BodyNullable(g: seq<Tree>, p: Tree, a: nat)
    requires MayBeEmpty(g, p)
    ensures Nullable(g, p, a)
  {
    var n: nat :| EmptyIn(g, p, n);
    EmptyIsNullable(g, p, n, a);
  }

  /** The used rules of all grammars in the tree pass the repaired check too. */
  ghost predicate Passes(t: Tree, a: nat)
    decreases t
  {
    match t
    case Grammar(rs) =>
      && (forall k: nat :: k < |rs| && Used(rs, k) ==> Repaired(rs, rs[k], 0, false, a).Ok?)
      && forall k :: 0 <= k < |rs| ==> Passes(rs[k], a)
    case Rep(p) => Passes(p, a)
    case Not(p) => Passes(p, a)
    case And(p) => Passes(p, a)
    case Behind(_, p) => Passes(p, a)
    case Capture(_, _, p) => Passes(p, a)
    case Seq(p1, p2) => Passes(p1, a) && Passes(p2, a)
    case Choice(p1, p2) => Passes(p1, a) && Passes(p2, a)
    case _ => true
  }

  /** Grammars as they should be are verified. */
  lemma {:induction false} SanePasses(g: seq<Tree>, t: Tree, a: nat, h: nat)
    requires Neat(g, t, h) && a >= 1000 + 1001 * h
    ensures GrammarsOk(t, a) && Passes(t, a)
    decreases t
  {
    hide Neat, NoLeftCycle, EmptyLoop, Used, Repaired, VerifyRule, CheckLoops;
    NeatParts(g, t, h);
    match t
    case Rep(p) => SanePasses(g, p, a, h);
    case Not(p) => SanePasses(g, p, a, h);
    case And(p) => SanePasses(g, p, a, h);
    case Behind(_, p) => SanePasses(g, p, a, h);
    case Capture(_, _, p) => SanePasses(g, p, a, h);
    case Seq(p1, p2) => SanePasses(g, p1, a, h); SanePasses(g, p2, a, h);
    case Choice(p1, p2) => SanePasses(g, p1, a, h); SanePasses(g, p2, a, h);
    case Grammar(rs) =>
      assert forall k: nat :: k < |rs| && Used(rs, k) ==> !EmptyLoop(rs, rs[k]) by { SaneGrammar(g, t, h); }
      forall k: nat | k < |rs|
        ensures GrammarsOk(rs[k], a) && Passes(rs[k], a)
        ensures Used(rs, k) ==> Verified(rs, k, a) && Repaired(rs, rs[k], 0, false, a).Ok?
      {
        SanePasses(rs, rs[k], a, h - 1);
        NoCyclePasses(rs, rs[k], a, h - 1);
        LoopsExact(rs, rs[k], a, h - 1);
      }
    case _ =>
  }

  lemma SaneGrammar(g: seq<Tree>, t: Tree, h: nat)
    requires t.Grammar? && Neat(g, t, h)
    ensures forall k: nat :: k < |t.rules| && Used(t.rules, k) ==> !EmptyLoop(t.rules, t.rules[k])
  {
    hide NoLeftCycle, EmptyLoop, Used;
  }

  /** Verified grammars are as they should be, if they pass the repaired check too. */
  lemma {:induction false} PassedSane(t: Tree, a: nat)
    requires GrammarsOk(t, a) && Passes(t, a)
    ensures Sane(t)
    decreases t
  {
    hide EmptyLoop, NoLeftCycle, Used, Repaired, VerifyRule, CheckLoops;
    match t
    case Rep(p) => PassedSane(p, a);
    case Not(p) => PassedSane(p, a);
    case And(p) => PassedSane(p, a);
    case Behind(_, p) => PassedSane(p, a);
    case Capture(_, _, p) => PassedSane(p, a);
    case Seq(p1, p2) => PassedSane(p1, a); PassedSane(p2, a);
    case Choice(p1, p2) => PassedSane(p1, a); PassedSane(p2, a);
    case Grammar(rs) =>
      PassedCycles(rs, a);
      forall k: nat | k < |rs| ensures Sane(rs[k]) && (Used(rs, k) ==> !EmptyLoop(rs, rs[k])) {
        PassedSane(rs[k], a);
        if Used(rs, k) && EmptyLoop(rs, rs[k]) { assert Verified(rs, k, a); LoopsFound(rs, rs[k], a); }
      }
    case _ =>
  }

  lemma {:induction false} LeftIsCall(g: seq<Tree>, t: Tree, k: nat)
    requires LeftCalls(g, t, k)
    ensures Calls(t, k)
    decreases t
  {
    match t
    case Seq(p1, p2) => if LeftCalls(g, p1, k) { LeftIsCall(g, p1, k); } else { LeftIsCall(g, p2, k); }
    case Choice(p1, p2) => if LeftCalls(g, p1, k) { LeftIsCall(g, p1, k); } else { LeftIsCall(g, p2, k); }
    case Rep(p) => LeftIsCall(g, p, k);
    case Not(p) => LeftIsCall(g, p, k);
    case And(p) => LeftIsCall(g, p, k);
    case Capture(_, _, p) => LeftIsCall(g, p, k);
    case _ =>
  }

  /** A rule at the end of a chain from a rule is called. */
  lemma {:induction false} ChainUsed(g: seq<Tree>, k: nat, ks: seq<nat>)
    requires k < |g| && ks != [] && LeftChain(g, g[k], ks)
    ensures Used(g, ks[|ks| - 1])
    decreases |ks|
  {
    if |ks| == 1 { LeftIsCall(g, g[k], ks[0]); } else { ChainUsed(g, ks[0], ks[1..]); }
  }

  lemma PassedCycles(rs: seq<Tree>, a: nat)
    requires forall k: nat :: k < |rs| && Used(rs, k) ==> Repaired(rs, rs[k], 0, false, a).Ok?
    ensures NoLeftCycle(rs)
  {
    hide Used, Repaired;
    forall k: nat, ks: seq<nat> | k < |rs| && ks != [] && LeftChain(rs, rs[k], ks) ensures ks[|ks| - 1] != k {
      if ks[|ks| - 1] == k {
        ChainUsed(rs, k, ks);
        var cs := RoundAndRound(rs, k, ks, MAXRULES + 1);
        PassedChain(rs, rs[k], 0, false, a, cs);
      }
    }
  }

  /** The checks accept every pattern that is as it should be. */
  lemma SaneAccepted(t: Tree, a: nat)
    requires Wf([], t) && FewRules(t) && a >= 1000 + 1001 * Depth(t)
    requires Sane(t) && !EmptyLoop([], t)
    ensures Accepted(t, a)
  {
    hide EmptyLoop, Wf, Sane, FewRules, CheckLoops;
    assert Neat([], t, Depth(t));
    SanePasses([], t, a, Depth(t));
    LoopsExact([], t, a, Depth(t));
  }

  /** Exactly the patterns as they should be are accepted and pass the repaired check: in no grammar a
      rule comes back to itself before anything is consumed, and nothing that may be empty is repeated. */
  lemma AcceptedExactly(t: Tree, a: nat)
    requires Wf([], t) && FewRules(t) && a >= 1000 + 1001 * Depth(t)
    ensures Accepted(t, a) && Passes(t, a) <==> Sane(t) && !EmptyLoop([], t)
  {
    hide EmptyLoop, Wf, Sane, FewRules, CheckLoops, GrammarsOk, Passes;
    if Sane(t) && !EmptyLoop([], t) {
      SaneAccepted(t, a);
      assert Neat([], t, Depth(t));
      SanePasses([], t, a, Depth(t));
    }
    if Accepted(t, a) && Passes(t, a) {
      PassedSane(t, a);
      if EmptyLoop([], t) { LoopsFound([], t, a); }
    }
  }
}

/** The pattern compiler as a whole: code generation followed by jump optimization, and what the
    machine finds when it runs the result. */
module Compiler {
  import opened Peg
  import opened Analysis
  import opened Accept
  import opened Machine
  import opened Captures
  import opened CodeGen
  import opened Layout
  import opened Placement
  import opened Correct
  import opened Peephole
  import opened Jumps
  import opened CaptureSearch
  import opened Settled

  /** 'a' bounds the analyses, 'fuel' the jump chains that peephole follows. */
  ghost function Compile(t: Tree, a: nat, fuel: nat): Code {
    Optimize(GenPattern(t, a), fuel)
  }

  /** The machine at the start of a match: only the give-up entry is on the stack. */
  function Init(i: nat): State {
    Run(0, i, Cons(Alt(GIVEUP, i, 0), Nil), [])
  }

  /** What the machine reports for an outcome of the pattern. */
  function Report(r: Outcome): Result
    requires !r.Timeout?
  {
    if r.Matched? then Success(r.end, Encode(r.caps)) else Failure
  }

  ghost predicate RunsTo(p: Program, st: State, r: Result) {
    exists n: nat :: Steps(p, st, n) == Done(r)
  }

  // ----- generated code ----------------------------------------------------------------

  lemma PatternPlaced(t: Tree, a: nat)
    ensures Placed(GenPattern(t, a), Gen([], a, t, false, NoTest, FULLSET), 0, [])
    ensures GenPattern(t, a)[|GenPattern(t, a)| - 1] == IEnd
  {
    hide Gen;
  }

  /** Before jump optimization: the machine ends with the outcome of the pattern, at IEnd with
      the stack as it was at the start, or by giving up. */
  lemma GeneratedCorrect(t: Tree, a: nat, s: Subject, i: nat, n: nat)
    requires Wf([], t) && i <= |s| && !Eval([], s, t, i, n).Timeout?
    ensures RunsTo(Program(GenPattern(t, a), s), Init(i), Report(Eval([], s, t, i, n)))
  {
    hide Gen, Eval, Wf, Placed, Joins, Encode;
    var p := Program(GenPattern(t, a), s);
    var x := Context(p, [], a, []);
    var w := Correct.Site(0, i, Cons(Alt(GIVEUP, i, 0), Nil), []);
    PatternPlaced(t, a);
    assert LevelsOk(Nil, 0);
    assert Sound(x);
    CorrectFragment(x, t, false, NoTest, FULLSET, w, n);
    var r := Eval([], s, t, i, n);
    var end := |GenPattern(t, a)| - 1;
    var last := if r.Matched? then Run(end, r.end, w.stk, [] + Encode(r.caps)) else Fail(w);
    assert Joins(p, Init(i), last);
    if r.Matched? { assert [] + Encode(r.caps) == Encode(r.caps); }
    JoinsStep(p, last);
    JoinsTrans(p, Init(i), last, Done(Report(r)));
    var m := Finishes(p, Init(i), Report(r));
  }

  // ----- optimized code ----------------------------------------------------------------

  /** Compiler correctness. Whenever the pattern has an outcome, the compiled pattern run by the
      machine reports exactly that outcome: the same end position and the same captures, or
      failure. This holds for all budgets of the analyses, hence for the program's. */
  lemma CompiledCorrect(t: Tree, a: nat, fuel: nat, s: Subject, i: nat, n: nat)
    requires Wf([], t) && i <= |s| && !Eval([], s, t, i, n).Timeout?
    requires JumpsOk(GenPattern(t, a), fuel)
    ensures RunsTo(Program(Compile(t, a, fuel), s), Init(i), Report(Eval([], s, t, i, n)))
  {
    hide Gen, GenPattern, Eval, Wf, Optimize, Encode;
    var p := Program(GenPattern(t, a), s);
    GeneratedCorrect(t, a, s, i, n);
    OptimizeKeepsRuns(p, fuel, Init(i), Report(Eval([], s, t, i, n)));
  }

  lemma {:induction false} TiledJump(c: Code, i: nat)
    requires Tiled(c) && i < |c| && c[i].IJmp?
    ensures i + 1 < |c| && c[i + 1].Pad?
    decreases |c|
  {
    var k := Size(c[0]);
    if i >= k { TiledJump(c[k..], i - k); }
  }

  lemma {:induction false} LandsBelow(c: Code, m: nat) returns (f: nat)
    requires AllEnd(c, 0, m)
    ensures forall i :: 0 <= i < m ==> Lands(c, i, f)
    decreases m
  {
    if m == 0 {
      f := 0;
    } else {
      var f1 := LandsBelow(c, m - 1);
      assert Ends(c, m - 1);
      var f2: nat :| Lands(c, m - 1, f2);
      f := f1 + f2;
      forall i | 0 <= i < m ensures Lands(c, i, f) {
        if i < m - 1 { LandsStable(c, i, f1, f); } else { LandsStable(c, i, f2, f); }
      }
    }
  }

  /** For an accepted pattern the jump chains of the generated code end, so peephole and
      correctcalls terminate. */
  lemma AcceptedJumps(t: Tree, a: nat, b: nat) returns (fuel: nat)
    requires Accepted(t, b) && NoGaps(t, b)
    ensures forall f :: f >= fuel ==> JumpsOk(GenPattern(t, a), f)
  {
    hide Gen, Wf, Placed, Ends, GoodTree, GoodRule, Calls, Tiled, FinalTarget;
    var c := GenPattern(t, a);
    var x := Context(Program(c, []), [], a, []);
    PatternPlaced(t, a);
    AcceptedCalls(t, b);
    OtherEnds(c, |c| - 1);
    TreeEnds(x, t, false, NoTest, FULLSET, 0, b, Depth(t));
    fuel := LandsBelow(c, |c|);
    GenTiled([], a, t, false, NoTest, FULLSET);
    TiledSingles(Gen([], a, t, false, NoTest, FULLSET), 0, 0, 0);
    forall f: nat | f >= fuel ensures JumpsOk(c, f) {
      forall i ensures Lands(c, i, f) {
        if 0 <= i < |c| { LandsStable(c, i, fuel, f); } else { FinalTargetStep(c, i, f); }
      }
      forall i | 0 <= i < |c| && c[i].IJmp? ensures i + 1 < |c| && c[i + 1].Pad? {
        TiledJump(c, i);
      }
    }
  }

  lemma AcceptedCalls(t: Tree, b: nat)
    requires Accepted(t, b) && NoGaps(t, b)
    ensures CallsGood([], t, b) && Wf([], t)
    ensures forall k: nat :: !Calls(t, k)
  {
    AcceptedGood(t, b);
    forall k: nat ensures !Calls(t, k) { if Calls(t, k) { WfCalls([], t, k); } }
  }

  /** For every budget, matching has an outcome and the code for that budget reports it. */
  lemma AcceptedRuns(t: Tree, a: nat, b: nat, s: Subject, i: nat) returns (fuel: nat, n: nat)
    requires Accepted(t, b) && NoGaps(t, b) && i <= |s|
    ensures !Eval([], s, t, i, n).Timeout?
    ensures forall f :: f >= fuel ==> RunsTo(Program(Compile(t, a, f), s), Init(i), Report(Eval([], s, t, i, n)))
  {
    hide Eval, Wf, GenPattern, RunsTo, Compile, Encode;
    AcceptedHalts(t, s, i, b);
    n :| !Eval([], s, t, i, n).Timeout?;
    fuel := AcceptedJumps(t, a, b);
    forall f: nat | f >= fuel
      ensures RunsTo(Program(Compile(t, a, f), s), Init(i), Report(Eval([], s, t, i, n)))
    {
      CompiledCorrect(t, a, f, s, i, n);
    }
  }

  /** The whole claim: for an accepted pattern in which the searches for captures end, the generator's
      code is the same whatever its budgets, from some size on; and on every subject and from every
      position matching has an outcome, which the optimized code reports. */
  lemma AcceptedCompiles(t: Tree, b: nat, s: Subject, i: nat) returns (fuel: nat, n: nat)
    requires Accepted(t, b) && NoGaps(t, b) && b >= BudgetOf(t) && SearchesEnd([], t, BudgetOf(t)) && i <= |s|
    ensures !Eval([], s, t, i, n).Timeout?
    ensures forall a, f :: a >= BudgetOf(t) && f >= fuel ==>
              && Compile(t, a, f) == Compile(t, BudgetOf(t), f)
              && RunsTo(Program(Compile(t, a, f), s), Init(i), Report(Eval([], s, t, i, n)))
  {
    hide Eval, Wf, GenPattern, RunsTo, Optimize, Encode, Accepted, NoGaps, SearchesEnd, BudgetOf;
    fuel, n := AcceptedRuns(t, BudgetOf(t), b, s, i);
    forall a, f | a >= BudgetOf(t) && f >= fuel ensures Compile(t, a, f) == Compile(t, BudgetOf(t), f) {
      PatternSettles(t, a, b);
    }
  }
}

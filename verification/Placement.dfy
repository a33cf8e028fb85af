/** Where generated fragments sit in a program, and what the machine does on the glue code
    between them. */
module Placement {
  import opened Peg
  import opened Analysis
  import opened Machine
  import opened CodeGen
  import opened Layout

  /** A program cell holds what was generated; a call of rule 'k' is closed, as a call or, if
      it is followed by a return, as a jump. */
  ghost predicate CellOk(code: Code, y: int, ins: Instr, pos: seq<int>)
    requires 0 <= y < |code|
  {
    match ins
    case IOpenCall(k) =>
      k < |pos| ==>
        code[y] == ICall(pos[k] - y) || (code[y] == IJmp(pos[k] - y) && ToRet(code, y + 2))
    case _ => code[y] == ins
  }

  ghost predicate Placed(code: Code, frag: Code, pc: int, pos: seq<int>) {
    0 <= pc && pc + |frag| <= |code| && forall x :: 0 <= x < |frag| ==> CellOk(code, pc + x, frag[x], pos)
  }

  lemma PlacedCat(code: Code, c: Code, d: Code, pc: int, pos: seq<int>)
    requires Placed(code, c + d, pc, pos)
    ensures Placed(code, c, pc, pos) && Placed(code, d, pc + |c|, pos)
  {
    var f := c + d;
    forall x | 0 <= x < |c| ensures CellOk(code, pc + x, c[x], pos) {
      assert f[x] == c[x];
    }
    forall x | 0 <= x < |d| ensures CellOk(code, pc + |c| + x, d[x], pos) {
      assert f[|c| + x] == d[x];
    }
  }

  lemma PlacedCell(code: Code, c: Code, pc: int, pos: seq<int>, x: nat)
    requires Placed(code, c, pc, pos) && x < |c|
    ensures 0 <= pc && pc + x < |code| && CellOk(code, pc + x, c[x], pos)
  {
  }

  lemma PlacedHead(code: Code, c: Code, pc: int, pos: seq<int>)
    requires Placed(code, c, pc, pos) && |c| > 0 && !c[0].IOpenCall? && !c[0].Pad?
    ensures 0 <= pc < |code| && code[pc] == c[0]
  {
    assert CellOk(code, pc + 0, c[0], pos);
  }

  // ----- grammars ----------------------------------------------------------------------

  ghost function RuleCode(rs: seq<Tree>, a: nat, k: nat): Code
    requires k < |rs|
  {
    Gen(rs, a, rs[k], false, NoTest, FULLSET) + [IRet]
  }

  ghost predicate RulesPlaced(code: Code, g: seq<Tree>, a: nat, pos: seq<int>) {
    |pos| == |g| && forall k :: 0 <= k < |g| ==> Placed(code, RuleCode(g, a, k), pos[k], pos)
  }

  lemma {:induction false} GenRulesAt(rs: seq<Tree>, a: nat, k: nat, m: nat)
    requires k < m <= |rs|
    ensures |GenRules(rs, a, k)| + |RuleCode(rs, a, k)| <= |GenRules(rs, a, m)|
    ensures GenRules(rs, a, m)[|GenRules(rs, a, k)|..|GenRules(rs, a, k)| + |RuleCode(rs, a, k)|]
         == RuleCode(rs, a, k)
    decreases m
  {
    hide Gen, GetFirst, HeadFail, CharsetType;
    var x, y := GenRules(rs, a, m - 1), RuleCode(rs, a, m - 1);
    assert GenRules(rs, a, m) == x + y;
    if k < m - 1 {
      GenRulesAt(rs, a, k, m - 1);
    }
  }

  /** A jump chain inside a placed fragment is a jump chain of the program. */
  lemma {:induction false} ToRetPlaced(code: Code, d: Code, pc: int, pos: seq<int>, i: int, fuel: nat)
    requires Placed(code, d, pc, pos) && JumpsToRet(d, i, fuel)
    ensures JumpsToRet(code, pc + i, fuel)
    decreases fuel
  {
    assert CellOk(code, pc + i, d[i], pos);
    if d[i].IJmp? && fuel > 0 {
      ToRetPlaced(code, d, pc, pos, i + d[i].offset, fuel - 1);
    }
  }

  function Shift(pos: seq<int>, pc: int): (r: seq<int>)
    ensures |r| == |pos|
  {
    seq(|pos|, k requires 0 <= k < |pos| => pc + pos[k])
  }

  lemma GrammarPlaced(code: Code, rs: seq<Tree>, a: nat, pc: int, pos: seq<int>)
    requires |rs| > 0
    requires Placed(code, GrammarLayout(GenRules(rs, a, |rs|), Positions(rs, a)), pc, pos)
    ensures |GrammarLayout(GenRules(rs, a, |rs|), Positions(rs, a))| == 4 + |GenRules(rs, a, |rs|)|
    ensures 0 <= pc && pc + 4 + |GenRules(rs, a, |rs|)| <= |code|
    ensures code[pc] == ICall(4) && code[pc + 2] == IJmp(2 + |GenRules(rs, a, |rs|)|)
    ensures RulesPlaced(code, rs, a, Shift(Positions(rs, a), pc))
    ensures Positions(rs, a)[0] == 4
  {
    hide Tiled, CorrectCalls, Gen;
    var raw := GenRules(rs, a, |rs|);
    var x, y := Wide(ICall(4)), Wide(IJmp(2 + |raw|));
    var c := x + (y + raw);
    var positions := Positions(rs, a);
    var d := GrammarLayout(raw, positions);
    assert c[4..] == raw;
    GenRulesTiled(rs, a, |rs|);
    CorrectCallsSpec(c, positions, 4);
    assert d == CorrectCalls(c, positions, 4, |c|);
    assert GenRules(rs, a, 0) == [];
    assert positions[0] == RulePos(rs, a, 0);
    assert c[0] == ICall(4) && c[2] == IJmp(2 + |raw|);
    assert d[..4] == c[..4];
    assert d[0] == d[..4][0] && d[2] == d[..4][2];
    assert CellOk(code, pc + 0, d[0], pos);
    assert CellOk(code, pc + 2, d[2], pos);
    forall k | 0 <= k < |rs|
      ensures Placed(code, RuleCode(rs, a, k), Shift(positions, pc)[k], Shift(positions, pc))
    {
      RulePlaced(code, c, d, rs, a, pc, pos, k);
    }
  }

  lemma RulePlaced(code: Code, c: Code, d: Code, rs: seq<Tree>, a: nat, pc: int, pos: seq<int>, k: nat)
    requires k < |rs|
    requires |c| == 4 + |GenRules(rs, a, |rs|)| && c[4..] == GenRules(rs, a, |rs|)
    requires Closed(c, d, Positions(rs, a), 4)
    requires Placed(code, d, pc, pos)
    ensures Placed(code, RuleCode(rs, a, k), Shift(Positions(rs, a), pc)[k], Shift(Positions(rs, a), pc))
  {
    hide Gen, FinalTarget, Tiled;
    var positions := Positions(rs, a);
    var pos' := Shift(positions, pc);
    var frag := RuleCode(rs, a, k);
    var at := |GenRules(rs, a, k)|;
    GenRulesAt(rs, a, k, |rs|);
    assert positions[k] == 4 + at;
    forall x | 0 <= x < |frag|
      ensures CellOk(code, pos'[k] + x, frag[x], pos')
    {
      var y := 4 + at + x;
      assert frag[x] == GenRules(rs, a, |rs|)[at..at + |frag|][x] == c[4..][at + x] == c[y];
      assert CellOk(code, pc + y, d[y], pos);
      if c[y].IOpenCall? && c[y].rule < |rs| {
        if d[y].IJmp? {
          var fuel: nat :| JumpsToRet(d, y + 2, fuel);
          ToRetPlaced(code, d, pc, pos, y + 2, fuel);
        }
      }
    }
  }

  // ----- the machine on glue code ------------------------------------------------------

  /** One dispatch at a known instruction. */
  lemma Dispatch(p: Program, ins: Instr, pc: int, i: nat, stk: Stack, caps: seq<Entry>)
    requires 0 <= pc < |p.code| && p.code[pc] == ins
    ensures Joins(p, Run(pc, i, stk, caps), Exec(p, ins, pc, i, stk, caps))
  {
    hide Exec;
    JoinsStep(p, Run(pc, i, stk, caps));
  }

  lemma DispatchJmp(p: Program, off: int, pc: int, i: nat, stk: Stack, caps: seq<Entry>)
    requires 0 <= pc < |p.code| && p.code[pc] == IJmp(off)
    ensures Joins(p, Run(pc, i, stk, caps), Run(pc + off, i, stk, caps))
  {
    Dispatch(p, IJmp(off), pc, i, stk, caps);
  }

  /** Dispatch and go on from the state it leads to. */
  lemma Then(p: Program, ins: Instr, pc: int, i: nat, stk: Stack, caps: seq<Entry>, goal: State)
    requires 0 <= pc < |p.code| && p.code[pc] == ins
    requires Joins(p, Exec(p, ins, pc, i, stk, caps), goal)
    ensures Joins(p, Run(pc, i, stk, caps), goal)
  {
    hide Exec, Joins;
    Dispatch(p, ins, pc, i, stk, caps);
    JoinsTrans(p, Run(pc, i, stk, caps), Exec(p, ins, pc, i, stk, caps), goal);
  }

  /** A test goes past itself if the next character is in its set, and skips otherwise. */
  lemma RunTest(p: Program, cs: Charset, skip: int, pc: int, pos: seq<int>, i: nat, stk: Stack, caps: seq<Entry>)
    requires Placed(p.code, CodeTestSet(cs, false, skip), pc, pos) && i <= |p.subject|
    ensures var next := if HeadIn(p.subject, i, cs) then pc + TestSize(cs, false)
                        else pc + TestSize(cs, false) + skip;
            Joins(p, Run(pc, i, stk, caps), Run(next, i, stk, caps))
  {
    hide Joins;
    var ins := TestInstr(cs, TestSize(cs, false) + skip);
    PlacedHead(p.code, CodeTestSet(cs, false, skip), pc, pos);
    Dispatch(p, ins, pc, i, stk, caps);
  }

  /** A chain of jumps to a return behaves as a return. */
  lemma {:induction false} RunToRet(p: Program, pc: int, fuel: nat, i: nat, stk: Stack, caps: seq<Entry>)
    requires JumpsToRet(p.code, pc, fuel)
    ensures Joins(p, Run(pc, i, stk, caps), Exec(p, IRet, pc, i, stk, caps))
    decreases fuel
  {
    hide Joins;
    if p.code[pc].IJmp? && fuel > 0 {
      var next := pc + p.code[pc].offset;
      RunToRet(p, next, fuel - 1, i, stk, caps);
      Then(p, p.code[pc], pc, i, stk, caps, Exec(p, IRet, next, i, stk, caps));
    } else {
      Dispatch(p, IRet, pc, i, stk, caps);
    }
  }

  // ----- stacks ------------------------------------------------------------------------

  /** The capture levels saved on the stack do not exceed 'm' and shrink towards the bottom. */
  predicate LevelsOk(stk: Stack, m: nat) {
    match stk
    case Nil => true
    case Cons(Return(_), rest) => LevelsOk(rest, m)
    case Cons(Alt(_, _, level), rest) => level <= m && LevelsOk(rest, level)
  }

  lemma {:induction false} LevelsMore(stk: Stack, m: nat, m': nat)
    requires LevelsOk(stk, m) && m <= m'
    ensures LevelsOk(stk, m')
    decreases stk
  {
    match stk
    case Cons(Return(_), rest) => LevelsMore(rest, m, m');
    case _ =>
  }

  /** Failing forgets every capture above the saved levels. */
  lemma {:induction false} BacktrackForgets(stk: Stack, caps: seq<Entry>, more: seq<Entry>)
    requires LevelsOk(stk, |caps|)
    ensures Backtrack(stk, caps + more) == Backtrack(stk, caps)
    decreases stk
  {
    match stk
    case Cons(Return(_), rest) => BacktrackForgets(rest, caps, more);
    case Cons(Alt(_, _, level), rest) => assert (caps + more)[..level] == caps[..level];
    case _ =>
  }

  lemma FreshLevel(pc: int, i: nat, stk: Stack, m: nat)
    requires LevelsOk(stk, m)
    ensures LevelsOk(Cons(Alt(pc, i, m), stk), m)
  {
  }

  /** Failing with a fresh choice on top resumes at that choice with nothing changed. */
  lemma BacktrackFresh(pc: int, i: nat, stk: Stack, caps: seq<Entry>)
    ensures Backtrack(Cons(Alt(pc, i, |caps|), stk), caps) == Run(pc, i, stk, caps)
  {
    assert caps[..|caps|] == caps;
  }
}

/** Jump optimization: every label is moved to the end of its jump chain, and a jump to an
    unconditional transfer becomes that transfer. The program does this in place, so later
    steps read code that earlier steps have changed. */
module Peephole {
  import opened Peg
  import opened Machine
  import opened CodeGen

  predicate HasLabel(ins: Instr) {
    ins.IChoice? || ins.ICall? || ins.ICommit? || ins.IPartialCommit? || ins.IBackCommit? ||
    ins.ITestChar? || ins.ITestSet? || ins.ITestAny?
  }

  /** Instructions that never go on to the next one. */
  predicate Leaves(ins: Instr) {
    ins.IRet? || ins.IFail? || ins.IFailTwice? || ins.IEnd? || Commits(ins)
  }

  predicate Commits(ins: Instr) {
    ins.ICommit? || ins.IPartialCommit? || ins.IBackCommit?
  }

  function SetLabel(ins: Instr, offset: int): Instr
    requires HasLabel(ins)
  {
    ins.(offset := offset)
  }

  /** Move the label of instruction 'i' to the end of its jump chain. */
  function Relabel(code: Code, i: nat, fuel: nat): (r: Code)
    requires i < |code| && HasLabel(code[i])
    ensures |r| == |code|
  {
    code[i := SetLabel(code[i], FinalTarget(code, i + code[i].offset, fuel) - i)]
  }

  /** What peephole does at one instruction. */
  function PeepholeAt(code: Code, i: nat, fuel: nat): (r: Code)
    requires i < |code|
    ensures |r| == |code|
  {
    if HasLabel(code[i]) then Relabel(code, i, fuel)
    else if code[i].IJmp? then
      var ft := FinalTarget(code, i, fuel);
      if 0 <= ft < |code| && Commits(code[ft]) then
        var fft := FinalTarget(code, ft + code[ft].offset, fuel);
        Relabel(code[i := SetLabel(code[ft], fft - i)], i, fuel)
      else if 0 <= ft < |code| && Leaves(code[ft]) then
        if i + 1 < |code| then code[i := code[ft]][i + 1 := IAny] else code[i := code[ft]]
      else code[i := IJmp(ft - i)]
    else code
  }

  function PeepholeFrom(code: Code, i: nat, fuel: nat): (r: Code)
    ensures |r| == |code|
    decreases |code| - i
  {
    if i >= |code| then code else
    var code' := PeepholeAt(code, i, fuel);
    PeepholeFrom(code', i + Size(code'[i]), fuel)
  }

  function Optimize(code: Code, fuel: nat): Code {
    PeepholeFrom(code, 0, fuel)
  }

  // ----- jump chains -------------------------------------------------------------------

  /** The chain from 'i' ends within 'fuel' jumps. */
  predicate Lands(code: Code, i: int, fuel: nat) {
    var ft := FinalTarget(code, i, fuel);
    0 <= ft < |code| ==> !code[ft].IJmp?
  }

  /** What peephole needs of the code: jump chains end, and a jump is followed by its operand
      cell. */
  ghost predicate JumpsOk(code: Code, fuel: nat) {
    && (forall i :: Lands(code, i, fuel))
    && (forall i :: 0 <= i < |code| && code[i].IJmp? ==> i + 1 < |code| && code[i + 1].Pad?)
  }

  /** Number of jumps in the chain from 'i'. */
  function Rank(code: Code, i: int, fuel: nat): (r: nat)
    ensures r <= fuel
    decreases fuel
  {
    if 0 <= i < |code| && code[i].IJmp? && fuel > 0
    then 1 + Rank(code, i + code[i].offset, fuel - 1)
    else 0
  }

  /** A chain that has ended does not depend on the fuel. */
  lemma {:induction false} LandsStable(code: Code, i: int, f: nat, f': nat)
    requires Lands(code, i, f) && f <= f'
    ensures FinalTarget(code, i, f') == FinalTarget(code, i, f)
    ensures Rank(code, i, f') == Rank(code, i, f)
    decreases f
  {
    if 0 <= i < |code| && code[i].IJmp? && f > 0 {
      LandsStable(code, i + code[i].offset, f - 1, f' - 1);
    }
  }

  lemma NextInChain(code: Code, i: int, fuel: nat)
    requires 0 <= i < |code| && code[i].IJmp? && Lands(code, i, fuel)
    ensures fuel > 0
    ensures FinalTarget(code, i + code[i].offset, fuel) == FinalTarget(code, i, fuel)
    ensures Rank(code, i + code[i].offset, fuel) == Rank(code, i, fuel) - 1
  {
    LandsStable(code, i + code[i].offset, fuel - 1, fuel);
  }

  // ----- what stays true while the code is rewritten -----------------------------------

  /** Instruction 'y' at 'j' does what 'x' at 'i' does, up to jump chains of 'c'. */
  predicate SameEffect(c: Code, fuel: nat, x: Instr, i: int, y: Instr, j: int) {
    if HasLabel(x) then
      && HasLabel(y) && y == SetLabel(x, y.offset)
      && FinalTarget(c, j + y.offset, fuel) == FinalTarget(c, i + x.offset, fuel)
    else y == x
  }

  /** The rewritten instruction is a jump further along the same chain, or does what the end
      of the chain does. Operand cells may become no-ops. */
  predicate RefinesAt(c: Code, d: Code, fuel: nat, i: int)
    requires |d| == |c| && 0 <= i < |c|
  {
    if c[i].Pad? then d[i].Pad? || d[i].IAny?
    else
      var z := FinalTarget(c, i, fuel);
      if d[i].IJmp? then
        FinalTarget(c, i + d[i].offset, fuel) == z && Rank(c, i + d[i].offset, fuel) < Rank(c, i, fuel)
      else
        0 <= z < |c| && SameEffect(c, fuel, c[z], z, d[i], i) && (z == i || Leaves(c[z]))
  }

  ghost predicate Refines(c: Code, d: Code, fuel: nat) {
    |d| == |c| && forall i :: 0 <= i < |c| ==> RefinesAt(c, d, fuel, i)
  }

  lemma RefinesRefl(c: Code, fuel: nat)
    requires JumpsOk(c, fuel)
    ensures Refines(c, c, fuel)
  {
    forall i | 0 <= i < |c| ensures RefinesAt(c, c, fuel, i) {
      assert Lands(c, i, fuel);
      if c[i].IJmp? { NextInChain(c, i, fuel); }
    }
  }

  /** Chains of the rewritten code end, and lead where the original chains lead. */
  lemma {:induction false} ChainRefines(c: Code, d: Code, fuel: nat, i: int, f: nat)
    requires JumpsOk(c, fuel) && Refines(c, d, fuel)
    requires Rank(c, i, fuel) <= f
    ensures var y := FinalTarget(d, i, f);
            && FinalTarget(c, y, fuel) == FinalTarget(c, i, fuel)
            && Rank(c, y, fuel) <= Rank(c, i, fuel)
            && (0 <= y < |d| ==> !d[y].IJmp?)
    decreases f
  {
    hide FinalTarget;
    FinalTargetStep(d, i, f);
    if 0 <= i < |d| && d[i].IJmp? {
      assert RefinesAt(c, d, fuel, i);
      ChainRefines(c, d, fuel, i + d[i].offset, f - 1);
    }
  }

  lemma FinalTargetStep(d: Code, i: int, f: nat)
    ensures FinalTarget(d, i, f) ==
            if 0 <= i < |d| && d[i].IJmp? && f > 0 then FinalTarget(d, i + d[i].offset, f - 1) else i
  {
  }

  /** Replacing one instruction of the rewritten code. */
  lemma RefinesUpdate(c: Code, d: Code, e: Code, fuel: nat, i: int)
    requires Refines(c, d, fuel) && |e| == |d| && 0 <= i < |c| && RefinesAt(c, e, fuel, i)
    requires forall y :: 0 <= y < |c| && y != i ==> e[y] == d[y] || (c[y].Pad? && e[y].IAny?)
    ensures Refines(c, e, fuel)
  {
    forall y | 0 <= y < |c| ensures RefinesAt(c, e, fuel, y) {
      assert RefinesAt(c, d, fuel, y);
    }
  }

  lemma RelabelRefines(c: Code, d: Code, fuel: nat, i: nat)
    requires JumpsOk(c, fuel) && Refines(c, d, fuel) && i < |d| && HasLabel(d[i])
    ensures Refines(c, Relabel(d, i, fuel), fuel)
  {
    hide FinalTarget, Rank, SameEffect;
    var l := i + d[i].offset;
    ChainRefines(c, d, fuel, l, fuel);
    var y := FinalTarget(d, l, fuel);
    var e := Relabel(d, i, fuel);
    assert RefinesAt(c, d, fuel, i);
    assert i + e[i].offset == y;
    Relabelled(c, d, e, fuel, i, y);
    RefinesUpdate(c, d, e, fuel, i);
  }

  /** The instruction with its new label refines what it refined before. */
  lemma Relabelled(c: Code, d: Code, e: Code, fuel: nat, i: nat, y: int)
    requires |d| == |c| == |e| && i < |c| && RefinesAt(c, d, fuel, i) && HasLabel(d[i])
    requires e[i] == d[i].(offset := y - i)
    requires FinalTarget(c, y, fuel) == FinalTarget(c, i + d[i].offset, fuel)
    requires Rank(c, y, fuel) <= Rank(c, i + d[i].offset, fuel)
    ensures RefinesAt(c, e, fuel, i)
  {
    hide FinalTarget, Rank;
  }

  lemma PeepholeAtRefines(c: Code, d: Code, fuel: nat, i: nat)
    requires JumpsOk(c, fuel) && Refines(c, d, fuel) && i < |d|
    ensures Refines(c, PeepholeAt(d, i, fuel), fuel)
  {
    hide FinalTarget, Rank;
    if HasLabel(d[i]) {
      RelabelRefines(c, d, fuel, i);
    } else if d[i].IJmp? {
      assert RefinesAt(c, d, fuel, i);
      ChainRefines(c, d, fuel, i, fuel);
      JumpRefines(c, d, fuel, i);
      FinalTargetStep(d, i, fuel);
      FinalTargetStep(c, i, fuel);
      var ft := FinalTarget(d, i, fuel);
      if 0 <= ft < |d| && Commits(d[ft]) {
        assert RefinesAt(c, d, fuel, ft);
        ChainRefines(c, d, fuel, ft + d[ft].offset, fuel);
        var fft := FinalTarget(d, ft + d[ft].offset, fuel);
        var e := d[i := SetLabel(d[ft], fft - i)];
        assert i + e[i].offset == fft;
        RefinesUpdate(c, d, e, fuel, i);
        RelabelRefines(c, e, fuel, i);
      } else if 0 <= ft < |d| && Leaves(d[ft]) {
        assert RefinesAt(c, d, fuel, ft);
        RefinesUpdate(c, d, PeepholeAt(d, i, fuel), fuel, i);
      } else {
        var l := i + d[i].offset;
        ChainRefines(c, d, fuel, l, fuel);
        RefinesUpdate(c, d, d[i := IJmp(ft - i)], fuel, i);
      }
    }
  }

  /** The end of a chain of the rewritten code lies strictly further along the original. */
  lemma JumpRefines(c: Code, d: Code, fuel: nat, i: nat)
    requires JumpsOk(c, fuel) && Refines(c, d, fuel) && i < |d| && d[i].IJmp?
    ensures c[i].IJmp?
    ensures var y := FinalTarget(d, i, fuel);
            FinalTarget(c, y, fuel) == FinalTarget(c, i, fuel) && Rank(c, y, fuel) < Rank(c, i, fuel)
  {
    assert RefinesAt(c, d, fuel, i);
    var l := i + d[i].offset;
    ChainRefines(c, d, fuel, l, fuel - 1);
    FinalTargetStep(d, i, fuel);
  }

  lemma {:induction false} PeepholeFromRefines(c: Code, d: Code, i: nat, fuel: nat)
    requires JumpsOk(c, fuel) && Refines(c, d, fuel)
    ensures Refines(c, PeepholeFrom(d, i, fuel), fuel)
    decreases |d| - i
  {
    if i < |d| {
      PeepholeAtRefines(c, d, fuel, i);
      var d' := PeepholeAt(d, i, fuel);
      PeepholeFromRefines(c, d', i + Size(d'[i]), fuel);
    }
  }

  // ----- simulation --------------------------------------------------------------------

  /** Addresses are related when their jump chains in the original code end alike. */
  predicate SamePc(c: Code, fuel: nat, a: int, b: int) {
    FinalTarget(c, a, fuel) == FinalTarget(c, b, fuel)
  }

  predicate SameStack(c: Code, fuel: nat, s: Stack, t: Stack) {
    match s
    case Nil => t.Nil?
    case Cons(Return(a), rest) =>
      t.Cons? && t.top.Return? && SamePc(c, fuel, a, t.top.pc) && SameStack(c, fuel, rest, t.rest)
    case Cons(Alt(a, i, l), rest) =>
      t.Cons? && t.top == Alt(t.top.pc, i, l) && SamePc(c, fuel, a, t.top.pc) && SameStack(c, fuel, rest, t.rest)
  }

  predicate SameState(c: Code, fuel: nat, s: State, t: State) {
    if s.Run? then
      t.Run? && SamePc(c, fuel, s.pc, t.pc) && t.pos == s.pos && t.caps == s.caps && SameStack(c, fuel, s.stk, t.stk)
    else t == s
  }

  lemma {:induction false} BacktrackSame(c: Code, fuel: nat, s: Stack, t: Stack, caps: seq<Entry>)
    requires SameStack(c, fuel, s, t)
    ensures SameState(c, fuel, Backtrack(s, caps), Backtrack(t, caps))
    decreases s
  {
    match s
    case Cons(Return(_), rest) => BacktrackSame(c, fuel, rest, t.rest, caps);
    case _ =>
  }

  /** Related instructions take related states to related states. */
  lemma ExecSame(p: Program, q: Program, fuel: nat, x: Instr, a: int, y: Instr, b: int,
                 pos: nat, s: Stack, t: Stack, caps: seq<Entry>)
    requires q.subject == p.subject
    requires SameEffect(p.code, fuel, x, a, y, b) && (a == b || Leaves(x)) && !x.IJmp?
    requires SameStack(p.code, fuel, s, t)
    ensures SameState(p.code, fuel, Exec(p, x, a, pos, s, caps), Exec(q, y, b, pos, t, caps))
  {
    hide FinalTarget, SameState, Exec;
    if HasLabel(x) {
      ExecSameLabel(p, q, fuel, x, a, y, b, pos, s, t, caps);
    } else {
      ExecSamePlace(p, q, fuel, x, a, b, pos, s, t, caps);
    }
  }

  lemma ExecSameLabel(p: Program, q: Program, fuel: nat, x: Instr, a: int, y: Instr, b: int,
                      pos: nat, s: Stack, t: Stack, caps: seq<Entry>)
    requires q.subject == p.subject
    requires HasLabel(x) && SameEffect(p.code, fuel, x, a, y, b) && (a == b || Leaves(x))
    requires SameStack(p.code, fuel, s, t)
    ensures SameState(p.code, fuel, Exec(p, x, a, pos, s, caps), Exec(q, y, b, pos, t, caps))
  {
    hide FinalTarget, HeadIn, SpanEnd, CloseCapture, Backtrack, SetLabel;
    SameLabelKind(p.code, fuel, x, a, y, b);
    if Leaves(x) {
      ExecSameCommit(p, q, fuel, x, a, y, b, pos, s, t, caps);
    } else {
      ExecSameOther(p, q, fuel, x, a, y, pos, s, t, caps);
    }
  }

  /** The same kind of instruction, with labels that lead to the same place. */
  lemma SameLabelKind(c: Code, fuel: nat, x: Instr, a: int, y: Instr, b: int)
    requires HasLabel(x) && SameEffect(c, fuel, x, a, y, b)
    ensures HasLabel(y) && y == x.(offset := y.offset)
    ensures FinalTarget(c, b + y.offset, fuel) == FinalTarget(c, a + x.offset, fuel)
  {
  }

  lemma ExecSameCommit(p: Program, q: Program, fuel: nat, x: Instr, a: int, y: Instr, b: int,
                       pos: nat, s: Stack, t: Stack, caps: seq<Entry>)
    requires q.subject == p.subject
    requires Commits(x) && HasLabel(x) && HasLabel(y) && y == x.(offset := y.offset)
    requires FinalTarget(p.code, b + y.offset, fuel) == FinalTarget(p.code, a + x.offset, fuel)
    requires SameStack(p.code, fuel, s, t)
    ensures SameState(p.code, fuel, Exec(p, x, a, pos, s, caps), Exec(q, y, b, pos, t, caps))
  {
    hide FinalTarget;
  }

  lemma ExecSameOther(p: Program, q: Program, fuel: nat, x: Instr, a: int, y: Instr,
                      pos: nat, s: Stack, t: Stack, caps: seq<Entry>)
    requires q.subject == p.subject
    requires !Commits(x) && HasLabel(x) && HasLabel(y) && y == x.(offset := y.offset)
    requires FinalTarget(p.code, a + y.offset, fuel) == FinalTarget(p.code, a + x.offset, fuel)
    requires SameStack(p.code, fuel, s, t)
    ensures SameState(p.code, fuel, Exec(p, x, a, pos, s, caps), Exec(q, y, a, pos, t, caps))
  {
    hide FinalTarget, HeadIn;
  }

  lemma ExecSamePlace(p: Program, q: Program, fuel: nat, x: Instr, a: int, b: int,
                      pos: nat, s: Stack, t: Stack, caps: seq<Entry>)
    requires q.subject == p.subject
    requires !HasLabel(x) && !x.IJmp? && (a == b || Leaves(x))
    requires SameStack(p.code, fuel, s, t)
    ensures SameState(p.code, fuel, Exec(p, x, a, pos, s, caps), Exec(q, x, b, pos, t, caps))
  {
    hide FinalTarget, HeadIn, SpanEnd, CloseCapture, Backtrack;
    BacktrackSame(p.code, fuel, s, t, caps);
    if s.Cons? { BacktrackSame(p.code, fuel, s.rest, t.rest, caps); }
  }

  /** The machine follows a jump chain to its end, in as many steps as the chain is long. */
  lemma {:induction false} RunChain(p: Program, i: int, fuel: nat, pos: nat, s: Stack, caps: seq<Entry>)
    ensures Steps(p, Run(i, pos, s, caps), Rank(p.code, i, fuel)) == Run(FinalTarget(p.code, i, fuel), pos, s, caps)
    decreases fuel
  {
    if 0 <= i < |p.code| && p.code[i].IJmp? && fuel > 0 {
      RunChain(p, i + p.code[i].offset, fuel - 1, pos, s, caps);
    }
  }

  /** Both programs run to the end of their chains and execute one instruction there. */
  lemma Macro(p: Program, q: Program, fuel: nat, s: State, t: State) returns (k: nat, m: nat)
    requires JumpsOk(p.code, fuel) && Refines(p.code, q.code, fuel) && q.subject == p.subject
    requires s.Run? && SameState(p.code, fuel, s, t)
    ensures k > 0 && m > 0
    ensures Steps(p, s, k) == Stuck || SameState(p.code, fuel, Steps(p, s, k), Steps(q, t, m))
  {
    hide FinalTarget, Rank, Exec;
    var z, y := FinalTarget(p.code, s.pc, fuel), FinalTarget(q.code, t.pc, fuel);
    RunChain(p, s.pc, fuel, s.pos, s.stk, s.caps);
    RunChain(q, t.pc, fuel, t.pos, t.stk, t.caps);
    ChainRefines(p.code, q.code, fuel, t.pc, fuel);
    assert Lands(p.code, s.pc, fuel);
    FinalTargetStep(p.code, y, fuel);
    FinalTargetStep(p.code, z, fuel);
    ChainEnd(p.code, s.pc, fuel);
    var s1, t1 := Run(z, s.pos, s.stk, s.caps), Run(y, t.pos, t.stk, t.caps);
    k, m := Rank(p.code, s.pc, fuel) + 1, Rank(q.code, t.pc, fuel) + 1;
    StepsPlus(p, s, k - 1, 1);
    StepsPlus(q, t, m - 1, 1);
    assert Steps(p, s1, 1) == Steps(p, Step(p, s1), 0) == Step(p, s1);
    assert Steps(q, t1, 1) == Steps(q, Step(q, t1), 0) == Step(q, t1);
    if 0 <= y < |q.code| {
      assert RefinesAt(p.code, q.code, fuel, y);
      if p.code[y].Pad? {
        PadStuck(p, s1);
      } else {
        ExecSame(p, q, fuel, p.code[z], z, q.code[y], y, s.pos, s.stk, t.stk, s.caps);
      }
    }
  }

  lemma ChainEnd(c: Code, i: int, fuel: nat)
    requires Lands(c, i, fuel)
    ensures FinalTarget(c, FinalTarget(c, i, fuel), fuel) == FinalTarget(c, i, fuel)
  {
  }

  lemma PadStuck(p: Program, s: State)
    requires s.Run? && 0 <= s.pc < |p.code| && p.code[s.pc].Pad?
    ensures Step(p, s) == Stuck
  {
  }

  lemma FinalBefore(p: Program, s: State, n: nat, k: nat, r: Result)
    requires Steps(p, s, n) == Done(r) && n <= k
    ensures Steps(p, s, k) == Done(r)
  {
    StepsPlus(p, s, n, k - n);
    DoneStays(p, r, k - n);
  }

  /** Whatever the original program finishes with, the optimized one finishes with. */
  lemma {:induction false} OptimizedFinishes(p: Program, q: Program, fuel: nat, s: State, t: State, n: nat, r: Result)
    returns (m: nat)
    requires JumpsOk(p.code, fuel) && Refines(p.code, q.code, fuel) && q.subject == p.subject
    requires SameState(p.code, fuel, s, t)
    requires Steps(p, s, n) == Done(r)
    ensures Steps(q, t, m) == Done(r)
    decreases n
  {
    hide FinalTarget, Rank;
    if s.Run? {
      var k, l := Macro(p, q, fuel, s, t);
      if k <= n {
        StepsPlus(p, s, k, n - k);
        StuckStays(p, n - k);
        var l' := OptimizedFinishes(p, q, fuel, Steps(p, s, k), Steps(q, t, l), n - k, r);
        StepsPlus(q, t, l, l');
        m := l + l';
      } else {
        FinalBefore(p, s, n, k, r);
        m := l;
      }
    } else {
      StuckStays(p, n);
      DoneStays(p, if s.Done? then s.result else r, n);
      m := 0;
    }
  }

  /** The optimized program finishes only with what the original finishes with, unless the
      original runs into an operand cell. */
  lemma {:induction false} OriginalFinishes(p: Program, q: Program, fuel: nat, s: State, t: State, n: nat, r: Result)
    returns (m: nat)
    requires JumpsOk(p.code, fuel) && Refines(p.code, q.code, fuel) && q.subject == p.subject
    requires SameState(p.code, fuel, s, t)
    requires Steps(q, t, n) == Done(r)
    ensures Steps(p, s, m) == Done(r) || Steps(p, s, m) == Stuck
    decreases n
  {
    hide FinalTarget, Rank;
    if s.Run? {
      var k, l := Macro(p, q, fuel, s, t);
      if Steps(p, s, k) == Stuck {
        m := k;
      } else if l <= n {
        StepsPlus(q, t, l, n - l);
        var k' := OriginalFinishes(p, q, fuel, Steps(p, s, k), Steps(q, t, l), n - l, r);
        StepsPlus(p, s, k, k');
        m := k + k';
      } else {
        FinalBefore(q, t, n, l, r);
        m := k;
      }
    } else {
      StuckStays(q, n);
      DoneStays(q, if s.Done? then s.result else r, n);
      m := 0;
    }
  }

  /** Jump optimization keeps the observable run of every program whose jump chains end: from
      the same start, original and optimized code finish with the same results. */
  lemma OptimizeKeepsRuns(p: Program, fuel: nat, s: State, r: Result)
    requires JumpsOk(p.code, fuel)
    ensures var q := Program(Optimize(p.code, fuel), p.subject);
            && ((exists n: nat :: Steps(p, s, n) == Done(r)) ==> exists m: nat :: Steps(q, s, m) == Done(r))
            && ((exists m: nat :: Steps(q, s, m) == Done(r)) ==>
                  exists n: nat :: Steps(p, s, n) == Done(r) || Steps(p, s, n) == Stuck)
  {
    var q := Program(Optimize(p.code, fuel), p.subject);
    RefinesRefl(p.code, fuel);
    PeepholeFromRefines(p.code, p.code, 0, fuel);
    SameRefl(p.code, fuel, s);
    if n: nat :| Steps(p, s, n) == Done(r) {
      var m := OptimizedFinishes(p, q, fuel, s, s, n, r);
    }
    if m: nat :| Steps(q, s, m) == Done(r) {
      var n := OriginalFinishes(p, q, fuel, s, s, m, r);
    }
  }

  lemma SameRefl(c: Code, fuel: nat, s: State)
    ensures SameState(c, fuel, s, s)
  {
    if s.Run? { StackRefl(c, fuel, s.stk); }
  }

  lemma {:induction false} StackRefl(c: Code, fuel: nat, s: Stack)
    ensures SameStack(c, fuel, s, s)
    decreases s
  {
    match s
    case Nil =>
    case Cons(_, rest) => StackRefl(c, fuel, rest);
  }
}

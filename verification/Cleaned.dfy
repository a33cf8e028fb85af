/** What jump optimization achieves: no label leads to a jump, and no jump leads to an instruction that
    could have stood in its place. */
module Cleaned {
  import opened Peg
  import opened Machine
  import opened CodeGen
  import opened Layout
  import opened Peephole

  /** Instructions with a label. */
  predicate Labelled(ins: Instr) {
    match ins
    case IChoice(_) => true
    case ICall(_) => true
    case ICommit(_) => true
    case IPartialCommit(_) => true
    case IBackCommit(_) => true
    case ITestAny(_) => true
    case ITestChar(_, _) => true
    case ITestSet(_, _) => true
    case IJmp(_) => true
    case _ => false
  }

  /** Instructions after which the machine never goes on to the next one, other than a jump. */
  predicate Unconditional(ins: Instr) {
    match ins
    case IRet => true
    case IEnd => true
    case IFail => true
    case IFailTwice => true
    case ICommit(_) => true
    case IPartialCommit(_) => true
    case IBackCommit(_) => true
    case _ => false
  }

  predicate CleanAt(d: Code, j: int)
    requires 0 <= j < |d|
  {
    Labelled(d[j]) ==>
      var t := j + d[j].offset;
      0 <= t < |d| ==> !d[t].IJmp? && (d[j].IJmp? ==> !Unconditional(d[t]))
  }

  /** Operand cells follow their instructions. */
  predicate Padded(c: Code) {
    forall i :: 0 <= i < |c| && !c[i].Pad? ==> forall y :: i < y < i + Size(c[i]) && y < |c| ==> c[y].Pad?
  }

  lemma {:induction false} TiledPadded(c: Code, i: nat)
    requires i <= |c| && Tiled(c[i..])
    ensures forall j :: i <= j < |c| && !c[j].Pad? ==> forall y :: j < y < j + Size(c[j]) && y < |c| ==> c[y].Pad?
    decreases |c| - i
  {
    hide Tiled, Size;
    if i < |c| {
      TiledAt(c, i);
      TiledPadded(c, i + Size(c[i]));
    }
  }

  /** Optimizing one instruction cleans it, and keeps clean what was. */
  lemma StepCleans(c: Code, d: Code, i: nat, fuel: nat)
    requires JumpsOk(c, fuel) && Refines(c, d, fuel) && i < |d|
    ensures var e := PeepholeAt(d, i, fuel);
            CleanAt(e, i) && forall j :: 0 <= j < |d| && j != i && CleanAt(d, j) ==> CleanAt(e, j)
  {
    hide FinalTarget, Rank, JumpsOk, Refines;
    if HasLabel(d[i]) {
      ChainRefines(c, d, fuel, i + d[i].offset, fuel);
    } else if d[i].IJmp? {
      ChainRefines(c, d, fuel, i, fuel);
      OperandPad(c, d, i, fuel);
      var ft := FinalTarget(d, i, fuel);
      if 0 <= ft < |d| && Commits(d[ft]) {
        ChainRefines(c, d, fuel, ft + d[ft].offset, fuel);
        CommitCleans(c, d, i, fuel);
      }
    }
  }

  /** A jump is followed by its operand cell, whatever has become of it. */
  lemma OperandPad(c: Code, d: Code, i: nat, fuel: nat)
    requires JumpsOk(c, fuel) && Refines(c, d, fuel) && i < |d| && d[i].IJmp?
    ensures i + 1 < |d| && (d[i + 1].Pad? || d[i + 1].IAny?)
  {
    hide FinalTarget, Rank;
    assert RefinesAt(c, d, fuel, i);
    JumpRefines(c, d, fuel, i);
    assert RefinesAt(c, d, fuel, i + 1);
  }

  /** A jump that becomes a commit gets the end of its chain as label. */
  lemma CommitCleans(c: Code, d: Code, i: nat, fuel: nat)
    requires JumpsOk(c, fuel) && Refines(c, d, fuel) && i < |d| && d[i].IJmp?
    requires var ft := FinalTarget(d, i, fuel); 0 <= ft < |d| && Commits(d[ft])
    ensures var ft := FinalTarget(d, i, fuel);
            var fft := FinalTarget(d, ft + d[ft].offset, fuel);
            PeepholeAt(d, i, fuel) == d[i := SetLabel(d[ft], fft - i)] && (0 <= fft < |d| ==> !d[fft].IJmp?)
  {
    hide Rank, JumpsOk, Refines;
    var ft := FinalTarget(d, i, fuel);
    ChainRefines(c, d, fuel, ft + d[ft].offset, fuel);
  }

  lemma {:induction false} FromCleans(c: Code, d: Code, i: nat, fuel: nat)
    requires JumpsOk(c, fuel) && Refines(c, d, fuel) && Padded(c)
    requires forall j :: 0 <= j < i && j < |d| ==> CleanAt(d, j)
    ensures var r := PeepholeFrom(d, i, fuel); |r| == |d| && forall j :: 0 <= j < |r| ==> CleanAt(r, j)
    decreases |d| - i
  {
    hide JumpsOk, Refines, FinalTarget, CleanAt, PeepholeAt, Padded, Size;
    if i < |d| {
      var e := PeepholeAt(d, i, fuel);
      StepCleans(c, d, i, fuel);
      PeepholeAtRefines(c, d, fuel, i);
      forall j | i < j < i + Size(e[i]) && j < |e| ensures CleanAt(e, j) { OperandClean(c, e, i, j, fuel); }
      FromCleans(c, e, i + Size(e[i]), fuel);
    }
  }

  /** Operand cells have no labels. */
  lemma OperandClean(c: Code, e: Code, i: nat, j: nat, fuel: nat)
    requires JumpsOk(c, fuel) && Refines(c, e, fuel) && Padded(c) && i < j < |e| && j < i + Size(e[i])
    ensures CleanAt(e, j)
  {
    assert RefinesAt(c, e, fuel, i) && RefinesAt(c, e, fuel, j);
    if !c[i].Pad? {
      assert Size(e[i]) <= Size(c[i]);
      assert c[j].Pad?;
    }
  }

  /** After jump optimization no label leads to a jump, and no jump to a return, an end, a failure or a
      commit. */
  lemma OptimizeCleans(c: Code, fuel: nat)
    requires JumpsOk(c, fuel) && Tiled(c)
    ensures var d := Optimize(c, fuel); forall j :: 0 <= j < |d| ==> CleanAt(d, j)
  {
    hide JumpsOk, Refines, CleanAt, PeepholeFrom, Tiled;
    assert c[0..] == c;
    TiledPadded(c, 0);
    RefinesRefl(c, fuel);
    FromCleans(c, c, 0, fuel);
  }

  lemma CompiledClean(t: Tree, a: nat, fuel: nat)
    requires JumpsOk(GenPattern(t, a), fuel)
    ensures var d := Optimize(GenPattern(t, a), fuel); forall j :: 0 <= j < |d| ==> CleanAt(d, j)
  {
    hide Gen, JumpsOk, CleanAt, Optimize, Tiled;
    GenTiled([], a, t, false, NoTest, FULLSET);
    TiledSingles(Gen([], a, t, false, NoTest, FULLSET), 0, 0, 0);
    OptimizeCleans(GenPattern(t, a), fuel);
  }
}

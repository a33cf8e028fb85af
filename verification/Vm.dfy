/** The parsing machine as the program runs it: one loop over an instruction pointer, a subject
    position, a backtrack stack and a capture array, both of which grow by doubling. Every
    dispatch does what Machine.Step says. */
module Vm {
  import opened Peg
  import opened Machine
  import opened Compiler

  const INITBACK: nat := 400
  const INITCAPSIZE: nat := 32

  /** The stack as a list, its last used slot on top. */
  function ToStack(fs: seq<Frame>): Stack {
    if fs == [] then Nil else Cons(fs[|fs| - 1], ToStack(fs[..|fs| - 1]))
  }

  class MatchState {
    const p: Program
    var pc: int
    var pos: nat
    var stack: array<Frame>
    var top: nat
    var capture: array<Entry>
    var captop: nat

    ghost predicate Valid()
      reads this
    {
      0 < stack.Length && top <= stack.Length && captop < capture.Length
    }

    ghost function Abs(): State
      reads this, stack, capture
      requires Valid()
    {
      Run(pc, pos, ToStack(stack[..top]), capture[..captop])
    }

    ghost predicate Unstuck()
      reads this, stack, capture
      requires Valid()
    {
      Step(p, Abs()) != Stuck
    }

    constructor (p: Program, i: nat)
      ensures Valid() && fresh(stack) && fresh(capture) && this.p == p
      ensures Abs() == Init(i)
    {
      this.p := p;
      pc := 0;
      pos := i;
      stack := new Frame[INITBACK](_ => Return(0));
      capture := new Entry[INITCAPSIZE](_ => Entry(0, 0, 0, 0));
      top := 1;
      captop := 0;
      new;
      stack[0] := Alt(GIVEUP, i, 0);
      assert stack[..1] == [Alt(GIVEUP, i, 0)];
      assert stack[..1][..0] == [];
      assert ToStack([]) == Nil;
      assert capture[..0] == [];
    }

    /** Push a stack entry, doubling a full stack first. */
    method Push(f: Frame)
      requires Valid()
      modifies this`stack, this`top, stack
      ensures Valid() && (stack == old(stack) || fresh(stack))
      ensures stack[..top] == old(stack[..top]) + [f]
    {
      if top == stack.Length {
        var bigger := new Frame[2 * stack.Length](_ => Return(0));
        forall k | 0 <= k < top { bigger[k] := stack[k]; }
        assert bigger[..top] == stack[..top];
        stack := bigger;
      }
      stack[top] := f;
      top := top + 1;
      assert stack[..top] == old(stack[..top]) + [f];
    }

    /** Add a capture entry, doubling the array when it gets full. */
    method PushCapture(e: Entry)
      requires Valid()
      modifies this`capture, this`captop, capture
      ensures Valid() && (capture == old(capture) || fresh(capture))
      ensures capture[..captop] == old(capture[..captop]) + [e]
    {
      capture[captop] := e;
      captop := captop + 1;
      assert capture[..captop] == old(capture[..captop]) + [e];
      if captop >= capture.Length {
        var bigger := new Entry[2 * captop](_ => Entry(0, 0, 0, 0));
        forall k | 0 <= k < captop { bigger[k] := capture[k]; }
        assert bigger[..captop] == capture[..captop];
        capture := bigger;
      }
    }

    /** Fail: pop pending calls, then resume the choice below them. */
    method Fail()
      requires Valid() && Backtrack(ToStack(stack[..top]), capture[..captop]) != Stuck
      modifies this`pc, this`pos, this`top, this`captop
      ensures Valid()
      ensures Abs() == old(Backtrack(ToStack(stack[..top]), capture[..captop]))
    {
      ghost var goal := Backtrack(ToStack(stack[..top]), capture[..captop]);
      top := top - 1;
      while stack[top].Return?
        invariant 0 <= top < stack.Length && captop == old(captop)
        invariant Backtrack(ToStack(stack[..top + 1]), capture[..captop]) == goal
        decreases top
      {
        assert stack[..top + 1][..top] == stack[..top];
        assert top > 0;
        assert stack[..top - 1 + 1] == stack[..top];
        top := top - 1;
      }
      assert stack[..top + 1][..top] == stack[..top];
      var f := stack[top];
      pos := f.pos;
      assert capture[..captop][..f.level] == capture[..f.level];
      captop := f.level;
      pc := f.pc;
    }

    // The dispatch is split by kind of instruction.

    predicate Reads(ins: Instr) {
      ins.IAny? || ins.IChar? || ins.ISet? || ins.ITestAny? || ins.ITestChar? || ins.ITestSet? ||
      ins.IBehind? || ins.ISpan?
    }

    predicate Captures(ins: Instr) {
      ins.IFullCapture? || ins.IOpenCapture? || ins.ICloseCapture?
    }

    /** Instructions that look at the subject. */
    method DispatchRead()
      requires Valid() && 0 <= pc < |p.code| && Reads(p.code[pc]) && Unstuck()
      modifies this`pc, this`pos, this`top, this`captop
      ensures Valid() && Abs() == old(Step(p, Abs()))
    {
      var s, ins := p.subject, p.code[pc];
      match ins
      case IAny =>
        if pos < |s| { pc := pc + 1; pos := pos + 1; } else { Fail(); }
      case IChar(c) =>
        if pos < |s| && s[pos] == c { pc := pc + 1; pos := pos + 1; } else { Fail(); }
      case ISet(cs) =>
        if pos < |s| && s[pos] in cs { pc := pc + CHARSETINSTSIZE; pos := pos + 1; } else { Fail(); }
      case ITestAny(off) =>
        if pos < |s| { pc := pc + 2; } else { pc := pc + off; }
      case ITestChar(c, off) =>
        if pos < |s| && s[pos] == c { pc := pc + 2; } else { pc := pc + off; }
      case ITestSet(cs, off) =>
        if pos < |s| && s[pos] in cs { pc := pc + 1 + CHARSETINSTSIZE; } else { pc := pc + off; }
      case IBehind(n) =>
        if n > pos { Fail(); } else { pos := pos - n; pc := pc + 1; }
      case ISpan(cs) =>
        while pos < |s| && s[pos] in cs
          invariant SpanEnd(s, pos, cs) == SpanEnd(s, old(pos), cs)
          decreases |s| - pos
          modifies this`pos
        {
          pos := pos + 1;
        }
        pc := pc + CHARSETINSTSIZE;
    }

    /** Instructions that add or close captures. */
    method DispatchCapture()
      requires Valid() && 0 <= pc < |p.code| && Captures(p.code[pc]) && Unstuck()
      modifies this`pc, this`capture, this`captop, capture
      ensures Valid() && (capture == old(capture) || fresh(capture))
      ensures Abs() == old(Step(p, Abs()))
    {
      match p.code[pc]
      case IFullCapture(kind, key, len) =>
        PushCapture(Entry(pos - len, key, kind, len + 1));
        pc := pc + 1;
      case IOpenCapture(kind, key) =>
        PushCapture(Entry(pos, key, kind, 0));
        pc := pc + 1;
      case ICloseCapture =>
        var open := capture[captop - 1];
        assert open == capture[..captop][captop - 1];
        if open.siz == 0 && pos - open.pos < UCHAR_MAX && open.pos <= pos {
          assert capture[..captop][..captop - 1] == capture[..captop - 1];
          capture[captop - 1] := open.(siz := pos - open.pos + 1);
          assert capture[..captop] == old(capture[..captop - 1]) + [open.(siz := pos - open.pos + 1)];
        } else {
          PushCapture(Entry(pos, 0, CLOSE, 1));
        }
        pc := pc + 1;
    }

    predicate Moves(ins: Instr) {
      ins.IJmp? || ins.IChoice? || ins.ICall? || ins.IRet?
    }

    /** Jumps, choices, calls and returns. */
    method DispatchMove()
      requires Valid() && 0 <= pc < |p.code| && Moves(p.code[pc]) && Unstuck()
      modifies this`pc, this`stack, this`top, stack
      ensures Valid() && (stack == old(stack) || fresh(stack))
      ensures Abs() == old(Step(p, Abs()))
    {
      if p.code[pc].IJmp? {
        pc := pc + p.code[pc].offset;
      } else if p.code[pc].IRet? {
        assert stack[..top][..top - 1] == stack[..top - 1];
        top := top - 1;
        pc := stack[top].pc;
      } else {
        DispatchPush();
      }
    }

    /** A choice saves the place to go to on failure, a call the place to return to. */
    method DispatchPush()
      requires Valid() && 0 <= pc < |p.code| && (p.code[pc].IChoice? || p.code[pc].ICall?)
      modifies this`pc, this`stack, this`top, stack
      ensures Valid() && (stack == old(stack) || fresh(stack))
      ensures Abs() == old(Step(p, Abs()))
    {
      var ins := p.code[pc];
      Push(if ins.IChoice? then Alt(pc + ins.offset, pos, captop) else Return(pc + 2));
      assert stack[..top][..top - 1] == old(stack[..top]);
      pc := if ins.IChoice? then pc + 2 else pc + ins.offset;
    }

    /** Instructions that end or update the choice on top, or fail. */
    method DispatchCommit()
      requires Valid() && 0 <= pc < |p.code| && Unstuck()
      requires !Reads(p.code[pc]) && !Captures(p.code[pc]) && !Moves(p.code[pc]) && !p.code[pc].IEnd?
      modifies this`pc, this`pos, this`top, this`captop, stack
      ensures Valid() && Abs() == old(Step(p, Abs()))
    {
      ghost var below := if top > 0 then stack[..top - 1] else [];
      assert top > 0 ==> stack[..top][..top - 1] == below;
      match p.code[pc]
      case ICommit(off) =>
        top := top - 1;
        pc := pc + off;
      case IPartialCommit(off) =>
        stack[top - 1] := Alt(stack[top - 1].pc, pos, captop);
        assert stack[..top][..top - 1] == below;
        pc := pc + off;
      case IBackCommit(off) =>
        top := top - 1;
        pos := stack[top].pos;
        assert capture[..captop][..stack[top].level] == capture[..stack[top].level];
        captop := stack[top].level;
        pc := pc + off;
      case IFailTwice =>
        top := top - 1;
        Fail();
      case IFail => Fail();
    }

    /** One round of the loop. */
    method Dispatch() returns (done: bool, result: Result)
      requires Valid() && Unstuck()
      modifies this, stack, capture
      ensures Valid() && (stack == old(stack) || fresh(stack)) && (capture == old(capture) || fresh(capture))
      ensures done ==> old(Step(p, Abs())) == Done(result)
      ensures !done ==> Abs() == old(Step(p, Abs()))
    {
      done, result := false, Failure;
      if pc == GIVEUP {
        done := true;
      } else if p.code[pc].IEnd? {
        done, result := true, Success(pos, capture[..captop]);
      } else if Reads(p.code[pc]) {
        DispatchRead();
      } else if Captures(p.code[pc]) {
        DispatchCapture();
      } else if Moves(p.code[pc]) {
        DispatchMove();
      } else {
        DispatchCommit();
      }
    }
  }

  lemma {:induction false} NeverStuck(p: Program, st: State, k: nat, n: nat, r: Result)
    requires k <= n && Steps(p, st, n) == Done(r)
    ensures Steps(p, st, k) != Stuck
  {
    StepsPlus(p, st, k, n - k);
    if Steps(p, st, k) == Stuck { StuckStays(p, n - k); }
  }

  lemma OneMore(p: Program, st: State, k: nat)
    ensures Steps(p, st, k + 1) == Step(p, Steps(p, st, k))
  {
    StepsPlus(p, st, k, 1);
    assert Steps(p, Steps(p, st, k), 1) == Steps(p, Step(p, Steps(p, st, k)), 0);
  }

  /** The main loop. It ends when the run ends; 'n' and 'r' only say that it does. */
  method Match(p: Program, i: nat, ghost n: nat, ghost r: Result) returns (result: Result)
    requires Steps(p, Init(i), n) == Done(r)
    ensures result == r
  {
    hide Steps, Step;
    var m := new MatchState(p, i);
    ghost var k: nat := 0;
    StepsZero(p, Init(i));
    var done := false;
    result := Failure;
    while !done
      invariant fresh(m) && fresh(m.stack) && fresh(m.capture) && m.Valid() && m.p == p
      invariant k <= n
      invariant done ==> Steps(p, Init(i), k) == Done(result)
      invariant !done ==> m.Abs() == Steps(p, Init(i), k)
      decreases n - k, !done
    {
      assert m.Abs().Run?;
      if k == n { assert false; }
      OneMore(p, Init(i), k);
      NeverStuck(p, Init(i), k + 1, n, r);
      done, result := m.Dispatch();
      k := k + 1;
    }
    StepsPlus(p, Init(i), k, n - k);
    DoneStays(p, result, n - k);
  }

  lemma StepsZero(p: Program, st: State)
    ensures Steps(p, st, 0) == st
  {
  }
}

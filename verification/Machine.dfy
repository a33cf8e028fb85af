/** The parsing machine: its instructions, its state and one dispatch of its loop.

    Code is an array of cells. An instruction with an operand (an offset or a character set)
    is followed by operand cells, written Pad here; offsets count cells and are relative to
    the instruction that holds them. */
module Machine {
  import opened Peg

  datatype Instr =
    | IAny
    | IChar(c: byte)
    | ISet(cs: Charset)
    | ITestAny(offset: int)
    | ITestChar(c: byte, offset: int)
    | ITestSet(cs: Charset, offset: int)
    | ISpan(cs: Charset)
    | IBehind(n: nat)
    | IRet
    | IEnd
    | IChoice(offset: int)
    | IJmp(offset: int)
    | ICall(offset: int)
    | IOpenCall(rule: nat)
    | ICommit(offset: int)
    | IPartialCommit(offset: int)
    | IBackCommit(offset: int)
    | IFailTwice
    | IFail
    | IFullCapture(kind: nat, key: int, len: nat)
    | IOpenCapture(kind: nat, key: int)
    | ICloseCapture
    | Pad

  type Code = seq<Instr>

  const CHARSETINSTSIZE: nat := 9

  function Size(ins: Instr): (r: nat)
    ensures r >= 1
  {
    match ins
    case ISet(_) => CHARSETINSTSIZE
    case ISpan(_) => CHARSETINSTSIZE
    case ITestSet(_, _) => CHARSETINSTSIZE + 1
    case ITestChar(_, _) => 2
    case ITestAny(_) => 2
    case IChoice(_) => 2
    case IJmp(_) => 2
    case ICall(_) => 2
    case IOpenCall(_) => 2
    case ICommit(_) => 2
    case IPartialCommit(_) => 2
    case IBackCommit(_) => 2
    case _ => 1
  }

  /** An entry of the backtrack stack: a return address, or a choice with the subject position
      and the number of captures to restore. */
  datatype Frame = Return(pc: int) | Alt(pc: int, pos: nat, level: nat)

  datatype Stack = Nil | Cons(top: Frame, rest: Stack)

  const CLOSE: nat := 0
  const UCHAR_MAX: nat := 255

  /** An entry of the capture array. 'siz' is 0 for an open entry, 1 for a close entry and the
      length plus one for a full capture. */
  datatype Entry = Entry(pos: nat, key: int, kind: nat, siz: nat)

  datatype State =
    | Run(pc: int, pos: nat, stk: Stack, caps: seq<Entry>)
    | Done(result: Result)
    | Stuck

  datatype Result = Success(end: nat, captures: seq<Entry>) | Failure

  datatype Program = Program(code: Code, subject: Subject)

  /** Address of the instruction below the whole stack (IGiveup). */
  const GIVEUP: int := -1

  /** Fail: drop pending calls, then resume the choice below them. */
  function Backtrack(stk: Stack, caps: seq<Entry>): State {
    match stk
    case Nil => Stuck
    case Cons(Return(_), rest) => Backtrack(rest, caps)
    case Cons(Alt(pc, pos, level), rest) =>
      if level <= |caps| then Run(pc, pos, rest, caps[..level]) else Stuck
  }

  /** Closing folds the last entry into a full capture if that entry is the open one and the
      match is short enough; otherwise it adds a close entry. */
  function CloseCapture(caps: seq<Entry>, pos: nat): seq<Entry> {
    if |caps| > 0 && caps[|caps| - 1].siz == 0 && pos - caps[|caps| - 1].pos < UCHAR_MAX
       && caps[|caps| - 1].pos <= pos
    then
      var open := caps[|caps| - 1];
      caps[..|caps| - 1] + [open.(siz := pos - open.pos + 1)]
    else
      caps + [Entry(pos, 0, CLOSE, 1)]
  }

  function SpanEnd(s: Subject, pos: nat, cs: Charset): (r: nat)
    ensures r >= pos
    decreases |s| - pos
  {
    if HeadIn(s, pos, cs) then SpanEnd(s, pos + 1, cs) else pos
  }

  function Step(p: Program, st: State): State {
    match st
    case Done(_) => st
    case Stuck => st
    case Run(pc, pos, stk, caps) =>
      if pc == GIVEUP then Done(Failure)
      else if pc < 0 || pc >= |p.code| then Stuck
      else Exec(p, p.code[pc], pc, pos, stk, caps)
  }

  function Exec(p: Program, ins: Instr, pc: int, pos: nat, stk: Stack, caps: seq<Entry>): State {
    match ins
    case IEnd => Done(Success(pos, caps))
    case IRet => if stk.Nil? then Stuck else Run(stk.top.pc, pos, stk.rest, caps)
    case IAny =>
      if pos < |p.subject| then Run(pc + 1, pos + 1, stk, caps) else Backtrack(stk, caps)
    case IChar(c) =>
      if HeadIn(p.subject, pos, {c}) then Run(pc + 1, pos + 1, stk, caps) else Backtrack(stk, caps)
    case ISet(cs) =>
      if HeadIn(p.subject, pos, cs) then Run(pc + CHARSETINSTSIZE, pos + 1, stk, caps)
      else Backtrack(stk, caps)
    case ITestAny(off) =>
      Run(if pos < |p.subject| then pc + 2 else pc + off, pos, stk, caps)
    case ITestChar(c, off) =>
      Run(if HeadIn(p.subject, pos, {c}) then pc + 2 else pc + off, pos, stk, caps)
    case ITestSet(cs, off) =>
      Run(if HeadIn(p.subject, pos, cs) then pc + 1 + CHARSETINSTSIZE else pc + off, pos, stk, caps)
    case ISpan(cs) => Run(pc + CHARSETINSTSIZE, SpanEnd(p.subject, pos, cs), stk, caps)
    case IBehind(n) =>
      if n > pos then Backtrack(stk, caps) else Run(pc + 1, pos - n, stk, caps)
    case IJmp(off) => Run(pc + off, pos, stk, caps)
    case IChoice(off) => Run(pc + 2, pos, Cons(Alt(pc + off, pos, |caps|), stk), caps)
    case ICall(off) => Run(pc + off, pos, Cons(Return(pc + 2), stk), caps)
    case ICommit(off) => if stk.Nil? then Stuck else Run(pc + off, pos, stk.rest, caps)
    case IPartialCommit(off) =>
      if stk.Cons? && stk.top.Alt?
      then Run(pc + off, pos, Cons(Alt(stk.top.pc, pos, |caps|), stk.rest), caps)
      else Stuck
    case IBackCommit(off) =>
      if stk.Cons? && stk.top.Alt? && stk.top.level <= |caps|
      then Run(pc + off, stk.top.pos, stk.rest, caps[..stk.top.level])
      else Stuck
    case IFailTwice => if stk.Nil? then Stuck else Backtrack(stk.rest, caps)
    case IFail => Backtrack(stk, caps)
    case IFullCapture(kind, key, len) =>
      if len > pos then Stuck else Run(pc + 1, pos, stk, caps + [Entry(pos - len, key, kind, len + 1)])
    case IOpenCapture(kind, key) => Run(pc + 1, pos, stk, caps + [Entry(pos, key, kind, 0)])
    case ICloseCapture => if |caps| == 0 then Stuck else Run(pc + 1, pos, stk, CloseCapture(caps, pos))
    case IOpenCall(_) => Stuck
    case Pad => Stuck
  }

  // ----- runs --------------------------------------------------------------------------

  function Steps(p: Program, st: State, n: nat): State
    decreases n
  {
    if n == 0 then st else Steps(p, Step(p, st), n - 1)
  }

  lemma {:induction false} StepsPlus(p: Program, st: State, n: nat, m: nat)
    ensures Steps(p, st, n + m) == Steps(p, Steps(p, st, n), m)
    decreases n
  {
    if n > 0 {
      StepsPlus(p, Step(p, st), n - 1, m);
    }
  }

  /** Both states run into a common one. The machine is deterministic, so this is an
      equivalence, and a state equivalent to a final one runs into it (Finishes). */
  ghost predicate Joins(p: Program, a: State, b: State) {
    exists n: nat, m: nat :: Steps(p, a, n) == Steps(p, b, m)
  }

  lemma JoinsRefl(p: Program, a: State)
    ensures Joins(p, a, a)
  {
    assert Steps(p, a, 0) == Steps(p, a, 0);
  }

  lemma JoinsStep(p: Program, a: State)
    ensures Joins(p, a, Step(p, a))
  {
    assert Steps(p, a, 1) == Steps(p, Step(p, a), 0);
  }

  lemma JoinsSym(p: Program, a: State, b: State)
    requires Joins(p, a, b)
    ensures Joins(p, b, a)
  {
    var n: nat, m: nat :| Steps(p, a, n) == Steps(p, b, m);
    assert Steps(p, b, m) == Steps(p, a, n);
  }

  lemma JoinsTrans(p: Program, a: State, b: State, c: State)
    requires Joins(p, a, b) && Joins(p, b, c)
    ensures Joins(p, a, c)
  {
    var n: nat, m: nat :| Steps(p, a, n) == Steps(p, b, m);
    var k: nat, l: nat :| Steps(p, b, k) == Steps(p, c, l);
    StepsPlus(p, a, n, k);
    StepsPlus(p, b, m, k);
    StepsPlus(p, b, k, m);
    StepsPlus(p, c, l, m);
    assert Steps(p, a, n + k) == Steps(p, c, l + m);
  }

  lemma {:induction false} DoneStays(p: Program, r: Result, n: nat)
    ensures Steps(p, Done(r), n) == Done(r)
    decreases n
  {
    if n > 0 {
      DoneStays(p, r, n - 1);
    }
  }

  /** A run equivalent to a finished one finishes with the same result. */
  lemma Finishes(p: Program, a: State, r: Result) returns (n: nat)
    requires Joins(p, a, Done(r))
    ensures Steps(p, a, n) == Done(r)
  {
    var k: nat, m: nat :| Steps(p, a, k) == Steps(p, Done(r), m);
    DoneStays(p, r, m);
    n := k;
  }

  lemma {:induction false} StuckStays(p: Program, n: nat)
    ensures Steps(p, Stuck, n) == Stuck
    decreases n
  {
    if n > 0 { StuckStays(p, n - 1); }
  }
}

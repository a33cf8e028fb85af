/** Code generation: the code that the pattern compiler emits for a tree, as a function.

    'opt' says that the code is the last thing inside an optional pattern whose choice is on
    top of the stack; 'tt' is the test that protects the code, if any; 'fl' is the follow set.
    The budget 'a' is the one of the analyses. */
module CodeGen {
  import opened Peg
  import opened Analysis
  import opened Machine

  const MAXBEHIND: nat := 255
  const MAXOFF: nat := 15

  /** Shape of a set: decides between IFail, IChar, IAny and ISet. */
  datatype SetKind = Empty | One(c: byte) | All | Many

  function CharsetType(cs: Charset): (r: SetKind)
    ensures r.Empty? <==> cs == {}
    ensures r.All? <==> cs == FULLSET
    ensures r.One? ==> cs == {r.c}
    ensures r.Many? ==> forall c :: cs != {c}
  {
    assert 0 in FULLSET && 1 in FULLSET;
    if cs == {} then Empty
    else if cs == FULLSET then All
    else if exists c | c in cs :: cs == {c} then
      var c :| c in cs && cs == {c};
      One(c)
    else
      assert forall c :: cs == {c} ==> c in cs;
      Many
  }

  /** The test that dominates a piece of code, if it is one that code generation can use. */
  datatype Guard = NoTest | Test(cs: Charset)

  function GuardOf(cs: Charset, e: bool): Guard {
    if e || CharsetType(cs).Empty? || CharsetType(cs).All? then NoTest else Test(cs)
  }

  /** An instruction with its operand cells. */
  function Wide(ins: Instr): (r: Code)
    ensures |r| == Size(ins) && r[0] == ins
    ensures forall x :: 1 <= x < |r| ==> r[x] == Pad
  {
    [ins] + seq(Size(ins) - 1, _ => Pad)
  }

  function CodeChar(c: byte, tt: Guard): Code {
    if tt == Test({c}) then [IAny] else [IChar(c)]
  }

  function CodeCharset(cs: Charset, tt: Guard): Code {
    match CharsetType(cs)
    case One(c) => CodeChar(c, tt)
    case Many => if tt == Test(cs) then [IAny] else Wide(ISet(cs))
    case Empty => [IFail]
    case All => [IAny]
  }

  function TestInstr(cs: Charset, offset: int): Instr {
    match CharsetType(cs)
    case Empty => IJmp(offset)
    case All => ITestAny(offset)
    case One(c) => ITestChar(c, offset)
    case Many => ITestSet(cs, offset)
  }

  /** Size of the test emitted by codetestset; no test is emitted when 'e' holds. */
  function TestSize(cs: Charset, e: bool): nat {
    if e then 0 else Size(TestInstr(cs, 0))
  }

  /** A test that jumps 'skip' cells past its own end when it fails. */
  function CodeTestSet(cs: Charset, e: bool, skip: int): (r: Code)
    ensures |r| == TestSize(cs, e)
  {
    if e then [] else Wide(TestInstr(cs, TestSize(cs, e) + skip))
  }

  function CodeBehind(n: nat): Code {
    if n > 0 then [IBehind(n)] else []
  }

  // ----- layouts: how sub-fragments are put together -----------------------------------

  /** test L1; p1; [jmp L2]; L1: p2; L2: */
  function TestLayout(cs: Charset, c1: Code, c2: Code, emptyp2: bool): Code {
    var jmp := if emptyp2 then [] else Wide(IJmp(2 + |c2|));
    CodeTestSet(cs, false, |c1| + |jmp|) + (c1 + (jmp + c2))
  }

  /** [test L1]; choice L1; p1; commit L2; L1: p2; L2: */
  function ChoiceLayout(cs: Charset, e: bool, c1: Code, c2: Code): Code {
    CodeTestSet(cs, e, |c1| + 4) + (Wide(IChoice(|c1| + 4)) + (c1 + (Wide(ICommit(2 + |c2|)) + c2)))
  }

  /** L1: test L2; p; jmp L1; L2: */
  function TestLoopLayout(cs: Charset, c: Code): Code {
    CodeTestSet(cs, false, |c| + 2) + (c + Wide(IJmp(-(TestSize(cs, false) + |c|))))
  }

  /** [test L2]; choice L2 (or partialcommit L1); L1: p; partialcommit L1; L2: */
  function ChoiceLoopLayout(cs: Charset, e: bool, opt: bool, c: Code): Code {
    CodeTestSet(cs, e, |c| + 4) +
    (Wide(if opt then IPartialCommit(2) else IChoice(|c| + 4)) + (c + Wide(IPartialCommit(-|c|))))
  }

  /** choice L1; p; backcommit L2; L1: fail; L2: */
  function AndLayout(c: Code): (r: Code)
    ensures |r| == |c| + 5
  {
    Wide(IChoice(|c| + 4)) + (c + (Wide(IBackCommit(3)) + [IFail]))
  }

  /** [test L1]; (fail | choice L1; p; failtwice); L1: */
  function NotLayout(cs: Charset, e: bool, headfail: bool, c: Code): Code {
    if headfail then
      CodeTestSet(cs, e, 1) + [IFail]
    else
      CodeTestSet(cs, e, |c| + 3) + (Wide(IChoice(|c| + 3)) + (c + [IFailTwice]))
  }

  // ----- grammars ----------------------------------------------------------------------

  /** Follow a chain of at most 'fuel' jumps. */
  function FinalTarget(code: Code, i: int, fuel: nat): int
    decreases fuel
  {
    if 0 <= i < |code| && code[i].IJmp? && fuel > 0
    then FinalTarget(code, i + code[i].offset, fuel - 1)
    else i
  }

  predicate JumpsToRet(code: Code, i: int, fuel: nat) {
    var ft := FinalTarget(code, i, fuel);
    0 <= ft < |code| && code[ft].IRet?
  }

  /** Some number of jumps leads from 'i' to a return. */
  ghost predicate ToRet(code: Code, i: int) {
    exists fuel: nat :: JumpsToRet(code, i, fuel)
  }

  /** Close one open call: a call followed by a return becomes a jump. */
  ghost function CorrectCall(code: Code, positions: seq<int>, i: nat): (r: Code)
    requires i < |code|
    ensures |r| == |code| && Size(r[i]) == Size(code[i]) && (r[i] == Pad <==> code[i] == Pad)
    ensures forall y :: 0 <= y < |code| && y != i ==> r[y] == code[y]
  {
    match code[i]
    case IOpenCall(k) =>
      if k >= |positions| then code
      else if ToRet(code, i + 2) then code[i := IJmp(positions[k] - i)]
      else code[i := ICall(positions[k] - i)]
    case _ => code
  }

  ghost function CorrectCalls(code: Code, positions: seq<int>, i: nat, to: nat): (r: Code)
    requires to <= |code|
    ensures |r| == |code|
    decreases if i < to then to - i else 0
  {
    if i >= to then code else
    var code' := CorrectCall(code, positions, i);
    CorrectCalls(code', positions, i + Size(code'[i]), to)
  }

  /** call L1; jmp L2; L1: rules; L2: -- with the calls of the rules closed. */
  ghost function GrammarLayout(rulesCode: Code, positions: seq<int>): Code {
    var code := Wide(ICall(4)) + (Wide(IJmp(2 + |rulesCode|)) + rulesCode);
    CorrectCalls(code, positions, 4, |code|)
  }

  // ----- the generator -----------------------------------------------------------------

  ghost function Gen(g: seq<Tree>, a: nat, t: Tree, opt: bool, tt: Guard, fl: Charset): Code
    decreases t
  {
    match t
    case Char(c) => CodeChar(c, tt)
    case AnyChar => [IAny]
    case Set(cs) => CodeCharset(cs, tt)
    case True => []
    case False => [IFail]
    case Choice(p1, p2) =>
      var (e1, cs1) := GetFirst(g, p1, FULLSET, a);
      if HeadFail(g, p1, a) || (!e1 && cs1 !! GetFirst(g, p2, fl, a).1) then
        var c1 := Gen(g, a, p1, false, GuardOf(cs1, false), fl);
        TestLayout(cs1, c1, Gen(g, a, p2, opt, NoTest, fl), p2.True?)
      else if opt && p2.True? then
        Wide(IPartialCommit(2)) + Gen(g, a, p1, true, NoTest, FULLSET)
      else
        var c1 := Gen(g, a, p1, p2.True?, GuardOf(cs1, e1), FULLSET);
        ChoiceLayout(cs1, e1, c1, Gen(g, a, p2, opt, NoTest, fl))
    case Rep(p) =>
      var (isSet, cs) := ToCharset(p);
      if isSet then Wide(ISpan(cs)) else
      var (e1, st) := GetFirst(g, p, FULLSET, a);
      if HeadFail(g, p, a) || (!e1 && st !! fl) then
        TestLoopLayout(st, Gen(g, a, p, false, GuardOf(st, false), FULLSET))
      else
        ChoiceLoopLayout(st, e1, opt, Gen(g, a, p, false, NoTest, FULLSET))
    case Behind(n, p) => CodeBehind(n) + Gen(g, a, p, false, NoTest, FULLSET)
    case Not(p) =>
      var (e, st) := GetFirst(g, p, FULLSET, a);
      NotLayout(st, e, HeadFail(g, p, a), Gen(g, a, p, false, NoTest, FULLSET))
    case And(p) =>
      var n := FixedLen(g, p, 0);
      var c := Gen(g, a, p, false, tt, FULLSET);
      if 0 <= n <= MAXBEHIND && !HasCaptures(g, p, a) then c + CodeBehind(n) else AndLayout(c)
    case Capture(kind, key, p) =>
      var len := FixedLen(g, p, 0);
      var c := Gen(g, a, p, false, tt, fl);
      if 0 <= len <= MAXOFF && !HasCaptures(g, p, a) then c + [IFullCapture(kind, key, len)]
      else [IOpenCapture(kind, key)] + (c + [ICloseCapture])
    case Grammar(rs) =>
      GrammarLayout(GenRules(rs, a, |rs|), seq(|rs|, k requires 0 <= k < |rs| => RulePos(rs, a, k)))
    case Call(k) => Wide(IOpenCall(k))
    case Seq(p1, p2) =>
      var fl1 := if NeedFollow(p1) then GetFirst(g, p2, fl, a).1 else FULLSET;
      var tt2 := if FixedLen(g, p1, 0) != 0 then NoTest else tt;
      Gen(g, a, p1, false, tt, fl1) + Gen(g, a, p2, opt, tt2, fl)
  }

  /** rule 1; ret; rule 2; ret; ... for the first 'k' rules of the grammar. */
  ghost function GenRules(rs: seq<Tree>, a: nat, k: nat): Code
    requires k <= |rs|
    decreases rs, k, 0
  {
    if k == 0 then []
    else GenRules(rs, a, k - 1) + (Gen(rs, a, rs[k - 1], false, NoTest, FULLSET) + [IRet])
  }

  /** Address of rule 'k' relative to the start of the grammar's code. */
  ghost function RulePos(rs: seq<Tree>, a: nat, k: nat): nat
    requires k <= |rs|
    decreases rs, k, 1
  {
    4 + |GenRules(rs, a, k)|
  }

  /** The code of a whole pattern before jump optimization. */
  ghost function GenPattern(t: Tree, a: nat): Code {
    Gen([], a, t, false, NoTest, FULLSET) + [IEnd]
  }
}

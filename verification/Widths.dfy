/** Fields of the program that are narrower than numbers: sizes in the capture list, kinds and lengths
    of captures and the counts of look-behinds in the code. Nothing is ever cut off. */
module Widths {
  import opened Peg
  import opened Analysis
  import opened Machine
  import opened Captures
  import opened CaptureList
  import opened CodeGen
  import opened Layout
  import opened Correct
  import opened Peephole

  // ----- the capture list ------------------------------------------------------------------

  /** Sizes as a byte keeps them. */
  function Cut(es: seq<Entry>): (r: seq<Entry>)
    ensures |r| == |es|
  {
    seq(|es|, i requires 0 <= i < |es| => es[i].(siz := es[i].siz % 256))
  }

  /** A capture with nothing inside is one entry, as long as its size fits. */
  lemma ShortCaptures(c: Node)
    requires c.sub == [] && c.start <= c.end
    ensures |EncodeNode(c)| == if c.end - c.start + 1 <= 255 then 1 else 2
  {
  }

  lemma CutSame(es: seq<Entry>)
    requires SizesFit(es)
    ensures Cut(es) == es
  {
  }

  /** The list that a match reports, kept with one byte for each size, denotes the captures of the
      pattern. */
  lemma CutDenotes(t: Tree, s: Subject, i: nat, n: nat)
    requires Wf([], t) && i <= |s| && Eval([], s, t, i, n).Matched?
    ensures var r := Eval([], s, t, i, n);
            SizesFit(Encode(r.caps)) && Parse(Cut(Encode(r.caps))) == (r.caps, [])
  {
    hide Eval, Wf, Encode, Parse, WfForest, SizesFit, Cut;
    var r := Eval([], s, t, i, n);
    MatchDenotes(t, s, i, n);
    CutSame(Encode(r.caps));
  }

  // ----- the code --------------------------------------------------------------------------

  /** A full capture keeps its kind and its length in four bits each, a look-behind its count in a byte. */
  predicate Narrow(ins: Instr) {
    match ins
    case IFullCapture(kind, _, len) => 0 < kind < 16 && len < 16
    case IOpenCapture(kind, _) => 0 < kind < 16
    case IBehind(n) => n <= 255
    case _ => true
  }

  predicate AllNarrow(c: Code) {
    forall i :: 0 <= i < |c| ==> Narrow(c[i])
  }

  lemma NarrowCat(c: Code, d: Code)
    requires AllNarrow(c) && AllNarrow(d)
    ensures AllNarrow(c + d)
  {
  }

  lemma NarrowWide(ins: Instr)
    requires Narrow(ins)
    ensures AllNarrow(Wide(ins)) && AllNarrow([ins]) && AllNarrow([])
  {
  }

  lemma NarrowTest(cs: Charset, e: bool, skip: int)
    ensures AllNarrow(CodeTestSet(cs, e, skip))
  {
    hide CharsetType;
    NarrowWide(TestInstr(cs, TestSize(cs, e) + skip));
  }

  /** ins; d */
  lemma NarrowAfter(ins: Instr, d: Code)
    requires Narrow(ins) && AllNarrow(d)
    ensures AllNarrow(Wide(ins) + d) && AllNarrow([ins] + d)
  {
    NarrowWide(ins);
    NarrowCat(Wide(ins), d);
  }

  lemma NarrowLayouts(cs: Charset, e: bool, opt: bool, c: Code, d: Code, hf: bool)
    requires AllNarrow(c) && AllNarrow(d)
    ensures AllNarrow(TestLayout(cs, c, d, opt)) && AllNarrow(ChoiceLayout(cs, e, c, d))
    ensures AllNarrow(TestLoopLayout(cs, c)) && AllNarrow(ChoiceLoopLayout(cs, e, opt, c))
    ensures AllNarrow(AndLayout(c)) && AllNarrow(NotLayout(cs, e, hf, c))
  {
    NarrowChoices(cs, e, opt, c, d);
    NarrowLoops(cs, e, opt, c);
    NarrowTests(cs, e, c, hf);
  }

  lemma NarrowChoices(cs: Charset, e: bool, opt: bool, c: Code, d: Code)
    requires AllNarrow(c) && AllNarrow(d)
    ensures AllNarrow(TestLayout(cs, c, d, opt)) && AllNarrow(ChoiceLayout(cs, e, c, d))
  {
    hide AllNarrow, Wide, CodeTestSet;
    var jmp := if opt then [] else Wide(IJmp(2 + |d|));
    NarrowWide(IJmp(2 + |d|));
    NarrowCat(jmp, d);
    NarrowCat(c, jmp + d);
    NarrowTest(cs, false, |c| + |jmp|);
    NarrowCat(CodeTestSet(cs, false, |c| + |jmp|), c + (jmp + d));
    NarrowAfter(ICommit(2 + |d|), d);
    var rest := Wide(ICommit(2 + |d|)) + d;
    NarrowCat(c, rest);
    NarrowAfter(IChoice(|c| + 4), c + rest);
    NarrowTest(cs, e, |c| + 4);
    NarrowCat(CodeTestSet(cs, e, |c| + 4), Wide(IChoice(|c| + 4)) + (c + rest));
  }

  lemma NarrowLoops(cs: Charset, e: bool, opt: bool, c: Code)
    requires AllNarrow(c)
    ensures AllNarrow(TestLoopLayout(cs, c)) && AllNarrow(ChoiceLoopLayout(cs, e, opt, c))
  {
    hide AllNarrow, Wide, CodeTestSet, TestSize;
    var jmp := IJmp(-(TestSize(cs, false) + |c|));
    NarrowWide(jmp);
    NarrowCat(c, Wide(jmp));
    NarrowTest(cs, false, |c| + 2);
    NarrowCat(CodeTestSet(cs, false, |c| + 2), c + Wide(jmp));
    var first, back := if opt then IPartialCommit(2) else IChoice(|c| + 4), IPartialCommit(-|c|);
    NarrowWide(back);
    NarrowCat(c, Wide(back));
    NarrowAfter(first, c + Wide(back));
    NarrowTest(cs, e, |c| + 4);
    NarrowCat(CodeTestSet(cs, e, |c| + 4), Wide(first) + (c + Wide(back)));
  }

  lemma NarrowTests(cs: Charset, e: bool, c: Code, hf: bool)
    requires AllNarrow(c)
    ensures AllNarrow(AndLayout(c)) && AllNarrow(NotLayout(cs, e, hf, c))
  {
    hide AllNarrow, Wide, CodeTestSet;
    NarrowWide(IFail); NarrowWide(IFailTwice);
    NarrowAfter(IBackCommit(3), [IFail]);
    NarrowCat(c, Wide(IBackCommit(3)) + [IFail]);
    NarrowAfter(IChoice(|c| + 4), c + (Wide(IBackCommit(3)) + [IFail]));
    NarrowTest(cs, e, 1);
    NarrowCat(CodeTestSet(cs, e, 1), [IFail]);
    NarrowCat(c, [IFailTwice]);
    NarrowAfter(IChoice(|c| + 3), c + [IFailTwice]);
    NarrowTest(cs, e, |c| + 3);
    NarrowCat(CodeTestSet(cs, e, |c| + 3), Wide(IChoice(|c| + 3)) + (c + [IFailTwice]));
  }

  lemma NarrowLeaf(t: Tree, tt: Guard)
    ensures t.Char? ==> AllNarrow(CodeChar(t.c, tt))
    ensures t.Set? ==> AllNarrow(CodeCharset(t.cs, tt))
  {
    hide CharsetType;
  }

  lemma {:induction false} GenNarrow(x: Context, t: Tree, opt: bool, tt: Guard, fl: Charset)
    requires Wf(x.g, t)
    ensures AllNarrow(Gen(x.g, x.a, t, opt, tt, fl))
    decreases t, 1
  {
    hide Gen, AllNarrow, GetFirst, HeadFail, FixedLen, HasCaptures, CharsetType, TestLayout, ChoiceLayout,
         TestLoopLayout, ChoiceLoopLayout, AndLayout, NotLayout, GrammarLayout, Eval, CodeChar, CodeCharset;
    var g, a := x.g, x.a;
    NarrowWide(IAny); NarrowWide(IFail);
    match t
    case Seq(p1, p2) =>
      UnfoldSeq(x, t, opt, tt, fl, 0, 0);
      var fl1 := if NeedFollow(p1) then GetFirst(g, p2, fl, a).1 else FULLSET;
      var tt2 := if FixedLen(g, p1, 0) != 0 then NoTest else tt;
      GenNarrow(x, p1, false, tt, fl1);
      GenNarrow(x, p2, opt, tt2, fl);
      NarrowCat(Gen(g, a, p1, false, tt, fl1), Gen(g, a, p2, opt, tt2, fl));
    case Choice(p1, p2) =>
      UnfoldChoice(x, t, opt, tt, fl, 0, 0);
      var (e1, cs1) := GetFirst(g, p1, FULLSET, a);
      var c2 := Gen(g, a, p2, opt, NoTest, fl);
      GenNarrow(x, p2, opt, NoTest, fl);
      GenNarrow(x, p1, false, GuardOf(cs1, false), fl);
      GenNarrow(x, p1, p2.True?, GuardOf(cs1, e1), FULLSET);
      GenNarrow(x, p1, true, NoTest, FULLSET);
      NarrowLayouts(cs1, e1, p2.True?, Gen(g, a, p1, false, GuardOf(cs1, false), fl), c2, false);
      NarrowLayouts(cs1, e1, false, Gen(g, a, p1, p2.True?, GuardOf(cs1, e1), FULLSET), c2, false);
      NarrowWide(IPartialCommit(2));
      NarrowCat(Wide(IPartialCommit(2)), Gen(g, a, p1, true, NoTest, FULLSET));
    case Rep(p) =>
      UnfoldRep(x, t, opt, tt, fl, 0, 0);
      var (e1, st) := GetFirst(g, p, FULLSET, a);
      GenNarrow(x, p, false, GuardOf(st, false), FULLSET);
      GenNarrow(x, p, false, NoTest, FULLSET);
      NarrowWide(ISpan(ToCharset(p).1));
      var c, d := Gen(g, a, p, false, GuardOf(st, false), FULLSET), Gen(g, a, p, false, NoTest, FULLSET);
      NarrowLayouts(st, e1, opt, c, c, false);
      NarrowLayouts(st, e1, opt, d, d, false);
    case Grammar(rs) =>
      UnfoldGrammar(x, t, tt, fl, 0, 0); GenIgnoresOpt(x, t, opt, tt, fl);
      RulesNarrow(x.(g := rs), |rs|);
      GrammarNarrow(GenRules(rs, a, |rs|), Positions(rs, a));
    case Call(k) =>
      UnfoldGrammar(x, t, tt, fl, 0, 0); GenIgnoresOpt(x, t, opt, tt, fl);
      NarrowWide(IOpenCall(k));
    case Not(p) => NarrowPredicate(x, t, opt, tt, fl);
    case And(p) => NarrowPredicate(x, t, opt, tt, fl);
    case Behind(_, p) => NarrowPredicate(x, t, opt, tt, fl);
    case Capture(kind, key, p) =>
      UnfoldCapture(x, t, tt, fl, 0, 0); GenIgnoresOpt(x, t, opt, tt, fl);
      var c := Gen(g, a, p, false, tt, fl);
      GenNarrow(x, p, false, tt, fl);
      var len := FixedLen(g, p, 0);
      NarrowWide(IOpenCapture(kind, key)); NarrowWide(ICloseCapture);
      if 0 <= len <= MAXOFF {
        NarrowWide(IFullCapture(kind, key, len));
        NarrowCat(c, [IFullCapture(kind, key, len)]);
      }
      NarrowCat(c, [ICloseCapture]);
      NarrowCat([IOpenCapture(kind, key)], c + [ICloseCapture]);
    case _ =>
      UnfoldLeaf(x, t, tt, fl, 0, 0); GenIgnoresOpt(x, t, opt, tt, fl);
      NarrowLeaf(t, tt);
  }

  lemma {:induction false} NarrowPredicate(x: Context, t: Tree, opt: bool, tt: Guard, fl: Charset)
    requires (t.Not? || t.And? || t.Behind?) && Wf(x.g, t)
    ensures AllNarrow(Gen(x.g, x.a, t, opt, tt, fl))
    decreases t, 0
  {
    hide Gen, AllNarrow, GetFirst, HeadFail, FixedLen, HasCaptures, AndLayout, NotLayout, Eval, BehindOk;
    UnfoldPredicate(x, t, tt, fl, 0, 0); GenIgnoresOpt(x, t, opt, tt, fl);
    var g, a, p := x.g, x.a, t.body;
    var c, d := Gen(g, a, p, false, NoTest, FULLSET), Gen(g, a, p, false, tt, FULLSET);
    GenNarrow(x, p, false, NoTest, FULLSET);
    GenNarrow(x, p, false, tt, FULLSET);
    var (e, cs) := GetFirst(g, p, FULLSET, a);
    NarrowLayouts(cs, e, false, c, c, HeadFail(g, p, a));
    NarrowLayouts(cs, e, false, d, d, false);
    if t.Behind? {
      BehindCount(t.n, p);
      NarrowBehind(t.n);
      NarrowCat(CodeBehind(t.n), c);
    }
    if t.And? && 0 <= FixedLen(g, p, 0) <= MAXBEHIND {
      NarrowBehind(FixedLen(g, p, 0));
      NarrowCat(d, CodeBehind(FixedLen(g, p, 0)));
    }
  }

  lemma BehindCount(m: nat, p: Tree)
    requires BehindOk(m, p)
    ensures m <= 255
  {
  }

  lemma NarrowBehind(n: nat)
    requires n <= 255
    ensures AllNarrow(CodeBehind(n))
  {
  }

  lemma {:induction false} RulesNarrow(x: Context, k: nat)
    requires k <= |x.g| && WfRules(x.g)
    ensures AllNarrow(GenRules(x.g, x.a, k))
    decreases x.g, 0, k
  {
    hide Gen, AllNarrow, Wf;
    NarrowWide(IRet);
    if k > 0 {
      var c := Gen(x.g, x.a, x.g[k - 1], false, NoTest, FULLSET);
      RulesNarrow(x, k - 1);
      GenNarrow(x, x.g[k - 1], false, NoTest, FULLSET);
      NarrowCat(c, [IRet]);
      NarrowCat(GenRules(x.g, x.a, k - 1), c + [IRet]);
    }
  }

  lemma {:induction false} CallsNarrow(c: Code, positions: seq<int>, i: nat)
    requires AllNarrow(c)
    ensures AllNarrow(CorrectCalls(c, positions, i, |c|))
    decreases if i < |c| then |c| - i else 0
  {
    hide ToRet;
    if i < |c| {
      var d := CorrectCall(c, positions, i);
      CallsNarrow(d, positions, i + Size(d[i]));
    }
  }

  lemma GrammarNarrow(raw: Code, positions: seq<int>)
    requires AllNarrow(raw)
    ensures AllNarrow(GrammarLayout(raw, positions))
  {
    hide CorrectCalls, AllNarrow;
    var x, y := Wide(ICall(4)), Wide(IJmp(2 + |raw|));
    NarrowWide(ICall(4)); NarrowWide(IJmp(2 + |raw|));
    NarrowCat(y, raw);
    NarrowCat(x, y + raw);
    CallsNarrow(x + (y + raw), positions, 4);
  }

  lemma {:induction false} PeepholeNarrow(c: Code, i: nat, fuel: nat)
    requires AllNarrow(c)
    ensures AllNarrow(PeepholeFrom(c, i, fuel))
    decreases |c| - i
  {
    hide FinalTarget;
    if i < |c| {
      var d := PeepholeAt(c, i, fuel);
      OneNarrow(c, i, fuel);
      PeepholeNarrow(d, i + Size(d[i]), fuel);
    }
  }

  lemma OneNarrow(c: Code, i: nat, fuel: nat)
    requires AllNarrow(c) && i < |c|
    ensures AllNarrow(PeepholeAt(c, i, fuel))
  {
    hide FinalTarget;
  }

  /** In the code of a pattern, before and after jump optimization, every field fits. */
  lemma CodeNarrow(t: Tree, a: nat, fuel: nat)
    requires Wf([], t)
    ensures AllNarrow(GenPattern(t, a)) && AllNarrow(Optimize(GenPattern(t, a), fuel))
  {
    hide Gen, AllNarrow, Wf, PeepholeFrom;
    GenNarrow(Context(Program([], []), [], a, []), t, false, NoTest, FULLSET);
    NarrowWide(IEnd);
    NarrowCat(Gen([], a, t, false, NoTest, FULLSET), [IEnd]);
    PeepholeNarrow(GenPattern(t, a), 0, fuel);
  }
}

/** Compiler correctness: generated code, wherever it sits in a program, simulates the meaning
    of its tree. */
module Correct {
  import opened Peg
  import opened Analysis
  import opened Machine
  import opened Captures
  import opened CodeGen
  import opened Layout
  import opened Placement

  /** A program that holds the rules of a grammar at the addresses 'pos'. */
  datatype Context = Context(p: Program, g: seq<Tree>, a: nat, pos: seq<int>)

  ghost predicate Sound(x: Context) {
    RulesPlaced(x.p.code, x.g, x.a, x.pos) && WfRules(x.g)
  }

  /** The machine about to run a fragment. */
  datatype Site = Site(pc: int, i: nat, stk: Stack, caps: seq<Entry>)

  function Start(w: Site): State {
    Run(w.pc, w.i, w.stk, w.caps)
  }

  function Fail(w: Site): State {
    Backtrack(w.stk, w.caps)
  }

  ghost predicate SiteOk(x: Context, frag: Code, w: Site) {
    && Placed(x.p.code, frag, w.pc, x.pos)
    && w.i <= |x.p.subject|
    && LevelsOk(w.stk, |w.caps|)
  }

  /** The test that protects the code has succeeded at this position. */
  predicate GuardOk(s: Subject, tt: Guard, i: nat) {
    tt.Test? ==> HeadIn(s, i, tt.cs)
  }

  /** Inside an optional pattern: its choice is on top, the code after the fragment commits it,
      the commit and the choice go to the same place, and nothing restricts what follows. */
  ghost predicate OptOk(x: Context, opt: bool, fl: Charset, end: int, stk: Stack) {
    opt ==>
      && fl == FULLSET
      && stk.Cons? && stk.top.Alt?
      && 0 <= end < |x.p.code| && x.p.code[end].ICommit? && end + x.p.code[end].offset == stk.top.pc
  }

  /** Where a successful match leads: just after the fragment or, inside an optional pattern,
      to where its choice leads, with that choice gone. */
  function Goal(opt: bool, end: int, j: nat, stk: Stack, caps: seq<Entry>): State
    requires opt ==> stk.Cons?
  {
    if opt then Run(stk.top.pc, j, stk.rest, caps) else Run(end, j, stk, caps)
  }

  /** The contract of a fragment. Failure of the pattern is failure of the machine. A match
      leads to the goal with its captures added; only if the next character is outside the
      follow set may the machine fail instead. */
  ghost predicate Post(x: Context, r: Outcome, opt: bool, fl: Charset, end: int, w: Site)
    requires opt ==> w.stk.Cons?
  {
    match r
    case Timeout => true
    case Failed => Joins(x.p, Start(w), Fail(w))
    case Matched(j, c) =>
      || Joins(x.p, Start(w), Goal(opt, end, j, w.stk, w.caps + Encode(c)))
      || (j < |x.p.subject| && x.p.subject[j] !in fl && Joins(x.p, Start(w), Fail(w)))
  }

  // ----- combining contracts -----------------------------------------------------------

  /** Contracts carry over to an earlier state with the same stack below and captures. */
  lemma PostBefore(x: Context, r: Outcome, opt: bool, fl: Charset, end: int, w: Site, w': Site)
    requires opt ==> w.stk.Cons?
    requires w'.stk == w.stk && w'.caps == w.caps
    requires Joins(x.p, Start(w), Start(w')) && Post(x, r, opt, fl, end, w')
    ensures Post(x, r, opt, fl, end, w)
  {
    hide Joins, Backtrack;
    match r
    case Timeout =>
    case Failed => JoinsTrans(x.p, Start(w), Start(w'), Fail(w));
    case Matched(j, c) =>
      if Joins(x.p, Start(w'), Fail(w)) { JoinsTrans(x.p, Start(w), Start(w'), Fail(w)); }
      var goal := Goal(opt, end, j, w.stk, w.caps + Encode(c));
      if Joins(x.p, Start(w'), goal) { JoinsTrans(x.p, Start(w), Start(w'), goal); }
  }

  /** Falling off the end of a fragment inside an optional pattern commits the choice. */
  lemma ReachGoal(x: Context, opt: bool, fl: Charset, end: int, j: nat, stk: Stack, caps: seq<Entry>, a: State)
    requires OptOk(x, opt, fl, end, stk) && Joins(x.p, a, Run(end, j, stk, caps))
    ensures opt ==> stk.Cons?
    ensures Joins(x.p, a, Goal(opt, end, j, stk, caps))
  {
    hide Joins;
    if opt {
      Dispatch(x.p, x.p.code[end], end, j, stk, caps);
      JoinsTrans(x.p, a, Run(end, j, stk, caps), Goal(opt, end, j, stk, caps));
    }
  }

  /** A fragment that ignores 'opt' meets the contract for either value. */
  lemma PostOpt(x: Context, r: Outcome, opt: bool, fl: Charset, end: int, w: Site)
    requires OptOk(x, opt, fl, end, w.stk) && Post(x, r, false, fl, end, w)
    ensures Post(x, r, opt, fl, end, w)
  {
    hide Joins, Backtrack;
    match r
    case Matched(j, c) =>
      if Joins(x.p, Start(w), Run(end, j, w.stk, w.caps + Encode(c))) {
        ReachGoal(x, opt, fl, end, j, w.stk, w.caps + Encode(c), Start(w));
      }
    case _ =>
  }

  // ----- single instructions -----------------------------------------------------------

  lemma CorrectOne(x: Context, ins: Instr, cs: Charset, fl: Charset, w: Site)
    requires SiteOk(x, [ins], w) || (ins.ISet? && SiteOk(x, Wide(ins), w))
    requires match ins
             case IAny => (GuardOk(x.p.subject, Test(cs), w.i) || cs == FULLSET)
             case IChar(c) => cs == {c}
             case ISet(d) => cs == d && SiteOk(x, Wide(ins), w)
             case IFail => cs == {}
             case _ => false
    ensures Post(x, MatchChar(x.p.subject, w.i, cs), false, fl, w.pc + Size(ins), w)
  {
    hide Joins;
    if ins.ISet? { PlacedHead(x.p.code, Wide(ins), w.pc, x.pos); } else { PlacedHead(x.p.code, [ins], w.pc, x.pos); }
    Dispatch(x.p, ins, w.pc, w.i, w.stk, w.caps);
    EncodeNil(w.caps);
  }

  lemma CorrectCharset(x: Context, cs: Charset, tt: Guard, fl: Charset, w: Site)
    requires SiteOk(x, CodeCharset(cs, tt), w) && GuardOk(x.p.subject, tt, w.i)
    ensures Post(x, MatchChar(x.p.subject, w.i, cs), false, fl, w.pc + |CodeCharset(cs, tt)|, w)
  {
    var frag := CodeCharset(cs, tt);
    CorrectOne(x, frag[0], cs, fl, w);
  }

  lemma CorrectChar(x: Context, c: byte, tt: Guard, fl: Charset, w: Site)
    requires SiteOk(x, CodeChar(c, tt), w) && GuardOk(x.p.subject, tt, w.i)
    ensures Post(x, MatchChar(x.p.subject, w.i, {c}), false, fl, w.pc + |CodeChar(c, tt)|, w)
  {
    CorrectOne(x, CodeChar(c, tt)[0], {c}, fl, w);
  }

  lemma {:induction false} SpanEval(g: seq<Tree>, s: Subject, p: Tree, i: nat, n: nat)
    requires ToCharset(p).0
    ensures var r := Eval(g, s, Rep(p), i, n);
            r.Timeout? || r == Matched(SpanEnd(s, i, ToCharset(p).1), [])
    decreases n
  {
    if HeadIn(s, i, ToCharset(p).1) && n > 0 {
      SpanEval(g, s, p, i + 1, n - 1);
    }
  }

  lemma CorrectSpan(x: Context, p: Tree, fl: Charset, w: Site, n: nat)
    requires ToCharset(p).0 && SiteOk(x, Wide(ISpan(ToCharset(p).1)), w)
    ensures Post(x, Eval(x.g, x.p.subject, Rep(p), w.i, n), false, fl, w.pc + CHARSETINSTSIZE, w)
  {
    hide Joins;
    var ins := ISpan(ToCharset(p).1);
    PlacedHead(x.p.code, Wide(ins), w.pc, x.pos);
    Dispatch(x.p, ins, w.pc, w.i, w.stk, w.caps);
    SpanEval(x.g, x.p.subject, p, w.i, n);
    EncodeNil(w.caps);
  }

  // ----- one level of the definitions --------------------------------------------------

  /** The outcome of a continuation, with earlier captures put in front. */
  function After(k1: seq<Node>, r: Outcome): Outcome {
    if r.Matched? then Matched(r.end, k1 + r.caps) else r
  }

  lemma UnfoldChoiceEval(x: Context, t: Tree, i: nat, n: nat)
    requires t.Choice?
    ensures Wf(x.g, t) ==> Wf(x.g, t.p1) && Wf(x.g, t.p2)
    ensures var r1 := Eval(x.g, x.p.subject, t.p1, i, n);
            Eval(x.g, x.p.subject, t, i, n) == if r1.Failed? then Eval(x.g, x.p.subject, t.p2, i, n) else r1
  {
  }

  lemma UnfoldChoice(x: Context, t: Tree, opt: bool, tt: Guard, fl: Charset, i: nat, n: nat)
    requires t.Choice?
    ensures Wf(x.g, t) ==> Wf(x.g, t.p1) && Wf(x.g, t.p2)
    ensures var r1 := Eval(x.g, x.p.subject, t.p1, i, n);
            Eval(x.g, x.p.subject, t, i, n) == if r1.Failed? then Eval(x.g, x.p.subject, t.p2, i, n) else r1
    ensures t.p2.True? ==> Eval(x.g, x.p.subject, t.p2, i, n) == Matched(i, [])
    ensures var (e1, cs1) := GetFirst(x.g, t.p1, FULLSET, x.a);
            var c2 := Gen(x.g, x.a, t.p2, opt, NoTest, fl);
            Gen(x.g, x.a, t, opt, tt, fl) ==
              if HeadFail(x.g, t.p1, x.a) || (!e1 && cs1 !! GetFirst(x.g, t.p2, fl, x.a).1) then
                TestLayout(cs1, Gen(x.g, x.a, t.p1, false, GuardOf(cs1, false), fl), c2, t.p2.True?)
              else if opt && t.p2.True? then
                Wide(IPartialCommit(2)) + Gen(x.g, x.a, t.p1, true, NoTest, FULLSET)
              else
                ChoiceLayout(cs1, e1, Gen(x.g, x.a, t.p1, t.p2.True?, GuardOf(cs1, e1), FULLSET), c2)
    ensures t.p2.True? ==> Gen(x.g, x.a, t.p2, opt, NoTest, fl) == []
  {
    hide GetFirst, HeadFail, CharsetType, TestLayout, ChoiceLayout;
  }

  lemma UnfoldSeq(x: Context, t: Tree, opt: bool, tt: Guard, fl: Charset, i: nat, n: nat)
    requires t.Seq?
    ensures Wf(x.g, t) ==> Wf(x.g, t.p1) && Wf(x.g, t.p2)
    ensures var r1 := Eval(x.g, x.p.subject, t.p1, i, n);
            Eval(x.g, x.p.subject, t, i, n) ==
              if r1.Matched? then After(r1.caps, Eval(x.g, x.p.subject, t.p2, r1.end, n)) else r1
    ensures var fl1 := if NeedFollow(t.p1) then GetFirst(x.g, t.p2, fl, x.a).1 else FULLSET;
            var tt2 := if FixedLen(x.g, t.p1, 0) != 0 then NoTest else tt;
            Gen(x.g, x.a, t, opt, tt, fl) ==
              Gen(x.g, x.a, t.p1, false, tt, fl1) + Gen(x.g, x.a, t.p2, opt, tt2, fl)
  {
    hide GetFirst, CharsetType, FixedLen;
  }

  lemma UnfoldRep(x: Context, t: Tree, opt: bool, tt: Guard, fl: Charset, i: nat, n: nat)
    requires t.Rep?
    ensures Wf(x.g, t) ==> Wf(x.g, t.body)
    ensures var r1 := Eval(x.g, x.p.subject, t.body, i, n);
            Eval(x.g, x.p.subject, t, i, n) ==
              match r1
              case Timeout => Timeout
              case Failed => Matched(i, [])
              case Matched(j, c1) => if n == 0 then Timeout else After(c1, Eval(x.g, x.p.subject, t, j, n - 1))
    ensures var (e1, st) := GetFirst(x.g, t.body, FULLSET, x.a);
            Gen(x.g, x.a, t, opt, tt, fl) ==
              if ToCharset(t.body).0 then Wide(ISpan(ToCharset(t.body).1))
              else if HeadFail(x.g, t.body, x.a) || (!e1 && st !! fl) then
                TestLoopLayout(st, Gen(x.g, x.a, t.body, false, GuardOf(st, false), FULLSET))
              else
                ChoiceLoopLayout(st, e1, opt, Gen(x.g, x.a, t.body, false, NoTest, FULLSET))
  {
    hide GetFirst, HeadFail, CharsetType, TestLoopLayout, ChoiceLoopLayout;
  }

  lemma UnfoldPredicate(x: Context, t: Tree, tt: Guard, fl: Charset, i: nat, n: nat)
    requires t.Behind? || t.Not? || t.And?
    ensures Wf(x.g, t) ==> Wf(x.g, t.body)
    ensures Wf(x.g, t) && t.Behind? ==> BehindOk(t.n, t.body)
    ensures t.Behind? ==>
              Eval(x.g, x.p.subject, t, i, n) ==
                if t.n > i then Failed else
                match Eval(x.g, x.p.subject, t.body, i - t.n, n)
                case Timeout => Timeout
                case Failed => Failed
                case Matched(j, _) => if j == i then Matched(i, []) else Failed
    ensures var r1 := Eval(x.g, x.p.subject, t.body, i, n);
            && (t.Not? ==>
                  Eval(x.g, x.p.subject, t, i, n) ==
                    if r1.Failed? then Matched(i, []) else if r1.Matched? then Failed else Timeout)
            && (t.And? ==> Eval(x.g, x.p.subject, t, i, n) == if r1.Matched? then Matched(i, []) else r1)
    ensures var c := Gen(x.g, x.a, t.body, false, NoTest, FULLSET);
            && (t.Behind? ==> Gen(x.g, x.a, t, false, tt, fl) == CodeBehind(t.n) + c)
            && (t.Not? ==>
                  var (e, st) := GetFirst(x.g, t.body, FULLSET, x.a);
                  Gen(x.g, x.a, t, false, tt, fl) == NotLayout(st, e, HeadFail(x.g, t.body, x.a), c))
    ensures t.And? ==>
              var len := FixedLen(x.g, t.body, 0);
              var c := Gen(x.g, x.a, t.body, false, tt, FULLSET);
              Gen(x.g, x.a, t, false, tt, fl) ==
                if 0 <= len <= MAXBEHIND && !HasCaptures(x.g, t.body, x.a) then c + CodeBehind(len)
                else AndLayout(c)
  {
    hide GetFirst, HeadFail, CharsetType, FixedLen, HasCaptures, BehindOk, NotLayout, AndLayout;
  }

  lemma UnfoldCapture(x: Context, t: Tree, tt: Guard, fl: Charset, i: nat, n: nat)
    requires t.Capture?
    ensures Wf(x.g, t) ==> Wf(x.g, t.body)
    ensures var r1 := Eval(x.g, x.p.subject, t.body, i, n);
            Eval(x.g, x.p.subject, t, i, n) ==
              if r1.Matched? then Matched(r1.end, [Node(t.kind, t.key, i, r1.end, r1.caps)]) else r1
    ensures var len := FixedLen(x.g, t.body, 0);
            var c := Gen(x.g, x.a, t.body, false, tt, fl);
            Gen(x.g, x.a, t, false, tt, fl) ==
              if 0 <= len <= MAXOFF && !HasCaptures(x.g, t.body, x.a) then
                c + [IFullCapture(t.kind, t.key, len)]
              else [IOpenCapture(t.kind, t.key)] + (c + [ICloseCapture])
  {
    hide CharsetType, FixedLen, HasCaptures;
  }

  lemma UnfoldGrammar(x: Context, t: Tree, tt: Guard, fl: Charset, i: nat, n: nat)
    requires t.Grammar? || t.Call?
    ensures t.Grammar? && Wf(x.g, t) ==>
              && |t.rules| > 0 && WfRules(t.rules)
              && Eval(x.g, x.p.subject, t, i, n) == Eval(t.rules, x.p.subject, t.rules[0], i, n)
    ensures t.Grammar? ==>
              Gen(x.g, x.a, t, false, tt, fl)
              == GrammarLayout(GenRules(t.rules, x.a, |t.rules|), Positions(t.rules, x.a))
    ensures t.Call? && Wf(x.g, t) ==>
              && t.rule < |x.g|
              && Eval(x.g, x.p.subject, t, i, n) ==
                   if n == 0 then Timeout else Eval(x.g, x.p.subject, x.g[t.rule], i, n - 1)
    ensures t.Call? ==> Gen(x.g, x.a, t, false, tt, fl) == Wide(IOpenCall(t.rule))
  {
    hide GrammarLayout, GenRules;
  }

  lemma GenIgnoresOpt(x: Context, t: Tree, opt: bool, tt: Guard, fl: Charset)
    requires !t.Choice? && !t.Rep? && !t.Seq?
    ensures Gen(x.g, x.a, t, opt, tt, fl) == Gen(x.g, x.a, t, false, tt, fl)
  {
  }

  lemma UnfoldLeaf(x: Context, t: Tree, tt: Guard, fl: Charset, i: nat, n: nat)
    ensures var r := Eval(x.g, x.p.subject, t, i, n);
            && (t.Char? ==> r == MatchChar(x.p.subject, i, {t.c}))
            && (t.AnyChar? ==> r == MatchChar(x.p.subject, i, FULLSET))
            && (t.Set? ==> r == MatchChar(x.p.subject, i, t.cs))
            && (t.True? ==> r == Matched(i, []))
            && (t.False? ==> r == Failed)
    ensures var c := Gen(x.g, x.a, t, false, tt, fl);
            && (t.Char? ==> c == CodeChar(t.c, tt))
            && (t.AnyChar? ==> c == [IAny])
            && (t.Set? ==> c == CodeCharset(t.cs, tt))
            && (t.True? ==> c == [])
            && (t.False? ==> c == [IFail])
  {
    hide CodeChar, CodeCharset;
  }

  // ----- the theorem for fragments -----------------------------------------------------

  ghost predicate Ready(x: Context, t: Tree, opt: bool, tt: Guard, fl: Charset, w: Site) {
    var frag := Gen(x.g, x.a, t, opt, tt, fl);
    && Sound(x) && Wf(x.g, t)
    && SiteOk(x, frag, w)
    && GuardOk(x.p.subject, tt, w.i)
    && OptOk(x, opt, fl, w.pc + |frag|, w.stk)
  }

  ghost predicate Meets(x: Context, t: Tree, opt: bool, tt: Guard, fl: Charset, w: Site, n: nat)
    requires opt ==> w.stk.Cons?
  {
    Post(x, Eval(x.g, x.p.subject, t, w.i, n), opt, fl, w.pc + |Gen(x.g, x.a, t, opt, tt, fl)|, w)
  }

  /** Every generated fragment meets its contract, for every budget of the analyses and of the
      evaluation. */
  lemma {:induction false} CorrectFragment(x: Context, t: Tree, opt: bool, tt: Guard, fl: Charset, w: Site, n: nat)
    requires Ready(x, t, opt, tt, fl, w)
    ensures Meets(x, t, opt, tt, fl, w, n)
    decreases n, t, 3
  {
    hide Gen, Eval, Wf, Joins, Placed, GetFirst, HeadFail, FixedLen, HasCaptures, CharsetType, Encode;
    match t
    case Choice(_, _) => CorrectChoice(x, t, opt, tt, fl, w, n);
    case Rep(_) => CorrectRep(x, t, opt, tt, fl, w, n);
    case Seq(_, _) => CorrectSeq(x, t, opt, tt, fl, w, n);
    case _ =>
      GenIgnoresOpt(x, t, opt, tt, fl);
      CorrectPlain(x, t, tt, fl, w, n);
      PostOpt(x, Eval(x.g, x.p.subject, t, w.i, n), opt, fl, w.pc + |Gen(x.g, x.a, t, opt, tt, fl)|, w);
  }

  lemma {:induction false} CorrectPlain(x: Context, t: Tree, tt: Guard, fl: Charset, w: Site, n: nat)
    requires Ready(x, t, false, tt, fl, w) && !t.Choice? && !t.Rep? && !t.Seq?
    ensures Meets(x, t, false, tt, fl, w, n)
    decreases n, t, 2
  {
    hide Gen, Eval, Wf, Joins, Placed, GetFirst, HeadFail, FixedLen, HasCaptures, CharsetType, Encode, CodeCharset,
         CodeChar, Backtrack;
    UnfoldLeaf(x, t, tt, fl, w.i, n);
    match t
    case Char(c) => CorrectChar(x, c, tt, fl, w);
    case AnyChar => CorrectOne(x, IAny, FULLSET, fl, w);
    case Set(cs) => CorrectCharset(x, cs, tt, fl, w);
    case True =>
      JoinsRefl(x.p, Start(w));
      EncodeNil(w.caps);
    case False => CorrectOne(x, IFail, {}, fl, w);
    case Behind(_, _) => CorrectBehind(x, t, tt, fl, w, n);
    case Not(_) => CorrectNot(x, t, tt, fl, w, n);
    case And(_) => CorrectAnd(x, t, tt, fl, w, n);
    case Capture(_, _, _) => CorrectCapture(x, t, tt, fl, w, n);
    case Grammar(_) => CorrectGrammar(x, t, tt, fl, w, n);
    case Call(_) => CorrectRuleCall(x, t, tt, fl, w, n);
  }

  // ----- sequence ----------------------------------------------------------------------

  lemma {:induction false} CorrectSeq(x: Context, t: Tree, opt: bool, tt: Guard, fl: Charset, w: Site, n: nat)
    requires t.Seq? && Ready(x, t, opt, tt, fl, w)
    ensures Meets(x, t, opt, tt, fl, w, n)
    decreases n, t, 0
  {
    hide Gen, Eval, Wf, Joins, Placed, GetFirst, HeadFail, FixedLen, HasCaptures, CharsetType, Encode;
    UnfoldSeq(x, t, opt, tt, fl, w.i, n);
    var g, s, p1, p2 := x.g, x.p.subject, t.p1, t.p2;
    var fl1 := if NeedFollow(p1) then GetFirst(g, p2, fl, x.a).1 else FULLSET;
    var tt2 := if FixedLen(g, p1, 0) != 0 then NoTest else tt;
    var c1, c2 := Gen(g, x.a, p1, false, tt, fl1), Gen(g, x.a, p2, opt, tt2, fl);
    PlacedCat(x.p.code, c1, c2, w.pc, x.pos);
    CorrectFragment(x, p1, false, tt, fl1, w, n);
    match Eval(g, s, p1, w.i, n)
    case Timeout =>
    case Failed =>
    case Matched(j, k1) =>
      EndInRange(g, s, p1, w.i, n);
      if FixedLen(g, p1, 0) == 0 { FixedLenSound(g, s, p1, w.i, n, 0); }
      var w2 := Site(w.pc + |c1|, j, w.stk, w.caps + Encode(k1));
      LevelsMore(w.stk, |w.caps|, |w2.caps|);
      BacktrackForgets(w.stk, w.caps, Encode(k1));
      CorrectFragment(x, p2, opt, tt2, fl, w2, n);
      var r2 := Eval(g, s, p2, j, n);
      var end := w.pc + |c1 + c2|;
      if Joins(x.p, Start(w), Start(w2)) {
        SeqAfter(x, k1, r2, opt, fl, end, w, w2);
      } else if r2.Matched? {
        EndInRange(g, s, p2, j, n);
        if r2.end > j || s[j] in fl {
          FirstSound(g, s, p2, j, n, fl, x.a);
        }
      }
  }

  /** The contract of a sequence whose first part has reached the second. */
  lemma SeqAfter(x: Context, k1: seq<Node>, r2: Outcome, opt: bool, fl: Charset, end: int, w: Site, w2: Site)
    requires opt ==> w.stk.Cons?
    requires w2.stk == w.stk && w2.caps == w.caps + Encode(k1) && Fail(w2) == Fail(w)
    requires Joins(x.p, Start(w), Start(w2)) && Post(x, r2, opt, fl, end, w2)
    ensures Post(x, After(k1, r2), opt, fl, end, w)
  {
    hide Joins, Backtrack, Encode;
    match r2
    case Timeout =>
    case Failed => JoinsTrans(x.p, Start(w), Start(w2), Fail(w));
    case Matched(k, c2) =>
      EncodeCat(k1, c2);
      CatAssoc(w.caps, Encode(k1), Encode(c2));
      if Joins(x.p, Start(w2), Fail(w)) { JoinsTrans(x.p, Start(w), Start(w2), Fail(w)); }
      var goal := Goal(opt, end, k, w.stk, w.caps + Encode(k1 + c2));
      if Joins(x.p, Start(w2), goal) { JoinsTrans(x.p, Start(w), Start(w2), goal); }
  }

  // ----- choice ------------------------------------------------------------------------

  lemma {:induction false} CorrectChoice(x: Context, t: Tree, opt: bool, tt: Guard, fl: Charset, w: Site, n: nat)
    requires t.Choice? && Ready(x, t, opt, tt, fl, w)
    ensures Meets(x, t, opt, tt, fl, w, n)
    decreases n, t, 2
  {
    hide Gen, Eval, Wf, Joins, Placed, GetFirst, HeadFail, FixedLen, HasCaptures, CharsetType, Encode;
    var g, p1, p2 := x.g, t.p1, t.p2;
    var (e1, cs1) := GetFirst(g, p1, FULLSET, x.a);
    if HeadFail(g, p1, x.a) || (!e1 && cs1 !! GetFirst(g, p2, fl, x.a).1) {
      CorrectTestChoice(x, t, opt, tt, fl, w, n);
    } else if opt && p2.True? {
      CorrectOptChoice(x, t, tt, fl, w, n);
    } else {
      CorrectFullChoice(x, t, opt, tt, fl, w, n);
    }
  }

  /** p1 or, on a failed test, p2, without a choice: the test alone decides. */
  lemma {:induction false} CorrectTestChoice(x: Context, t: Tree, opt: bool, tt: Guard, fl: Charset, w: Site, n: nat)
    requires t.Choice? && Ready(x, t, opt, tt, fl, w)
    requires var (e1, cs1) := GetFirst(x.g, t.p1, FULLSET, x.a);
             HeadFail(x.g, t.p1, x.a) || (!e1 && cs1 !! GetFirst(x.g, t.p2, fl, x.a).1)
    ensures Meets(x, t, opt, tt, fl, w, n)
    decreases n, t, 1
  {
    hide Gen, Eval, Wf, Joins, Placed, GetFirst, HeadFail, FixedLen, HasCaptures, CharsetType, Encode, Backtrack,
         TestLayout, CodeTestSet, TestSize;
    UnfoldChoice(x, t, opt, tt, fl, w.i, n);
    var g, s, p1, p2 := x.g, x.p.subject, t.p1, t.p2;
    var (e1, cs1) := GetFirst(g, p1, FULLSET, x.a);
    var c1, c2 := Gen(g, x.a, p1, false, GuardOf(cs1, false), fl), Gen(g, x.a, p2, opt, NoTest, fl);
    TestChoicePlaced(x, cs1, c1, c2, p2.True?, w);
    var w1 := w.(pc := w.pc + TestSize(cs1, false));
    var w2 := w.(pc := w1.pc + |c1| + JumpSize(p2));
    var end := w2.pc + |c2|;
    var r1, r2 := Eval(g, s, p1, w.i, n), Eval(g, s, p2, w.i, n);
    RunTest(x.p, cs1, |c1| + JumpSize(p2), w.pc, x.pos, w.i, w.stk, w.caps);
    if HeadFail(g, p1, x.a) {
      HeadFailExact(g, s, p1, w.i, n, x.a);
    } else if !HeadIn(s, w.i, cs1) {
      TestSound(g, s, p1, w.i, n, x.a);
    }
    if HeadIn(s, w.i, cs1) {
      RunTested(x, t, opt, fl, end, w1, n);
      PostBefore(x, Eval(g, s, t, w.i, n), opt, fl, end, w, w1);
    } else {
      CorrectFragment(x, p2, opt, NoTest, fl, w2, n);
      if r1.Failed? { PostBefore(x, r2, opt, fl, end, w, w2); }
    }
  }

  function JumpSize(p2: Tree): nat {
    if p2.True? then 0 else 2
  }

  lemma TestChoicePlaced(x: Context, cs: Charset, c1: Code, c2: Code, emptyp2: bool, w: Site)
    requires Placed(x.p.code, TestLayout(cs, c1, c2, emptyp2), w.pc, x.pos)
    ensures var jmp := if emptyp2 then 0 else 2;
            var pc1 := w.pc + TestSize(cs, false);
            && |TestLayout(cs, c1, c2, emptyp2)| == TestSize(cs, false) + |c1| + jmp + |c2|
            && Placed(x.p.code, CodeTestSet(cs, false, |c1| + jmp), w.pc, x.pos)
            && Placed(x.p.code, c1, pc1, x.pos)
            && Placed(x.p.code, c2, pc1 + |c1| + jmp, x.pos)
            && (!emptyp2 ==> 0 <= pc1 + |c1| < |x.p.code| && x.p.code[pc1 + |c1|] == IJmp(2 + |c2|))
  {
    hide Placed;
    var jmp := if emptyp2 then [] else Wide(IJmp(2 + |c2|));
    var test := CodeTestSet(cs, false, |c1| + |jmp|);
    PlacedCat(x.p.code, test, c1 + (jmp + c2), w.pc, x.pos);
    PlacedCat(x.p.code, c1, jmp + c2, w.pc + |test|, x.pos);
    PlacedCat(x.p.code, jmp, c2, w.pc + |test| + |c1|, x.pos);
    if !emptyp2 { PlacedHead(x.p.code, jmp, w.pc + |test| + |c1|, x.pos); }
  }

  /** The first part of such a choice, entered because the test succeeded. If it fails, the
      second part could only have matched the empty string before a character that cannot
      follow. */
  lemma {:induction false} RunTested(x: Context, t: Tree, opt: bool, fl: Charset, end: int, w: Site, n: nat)
    requires t.Choice? && Sound(x) && Wf(x.g, t)
    requires OptOk(x, opt, fl, end, w.stk)
    requires var (e1, cs1) := GetFirst(x.g, t.p1, FULLSET, x.a);
             var c1 := Gen(x.g, x.a, t.p1, false, GuardOf(cs1, false), fl);
             && HeadIn(x.p.subject, w.i, cs1) && SiteOk(x, c1, w)
             && (HeadFail(x.g, t.p1, x.a) || (!e1 && cs1 !! GetFirst(x.g, t.p2, fl, x.a).1))
             && (if t.p2.True? then end == w.pc + |c1|
                 else 0 <= w.pc + |c1| < |x.p.code| && x.p.code[w.pc + |c1|] == IJmp(end - (w.pc + |c1|)))
    ensures Post(x, Eval(x.g, x.p.subject, t, w.i, n), opt, fl, end, w)
    decreases n, t, 0
  {
    hide Gen, Eval, Wf, Joins, Placed, GetFirst, HeadFail, FixedLen, HasCaptures, CharsetType, Encode, Backtrack,
         Wide, TestInstr, Sound, LevelsOk, Exec, Post;
    UnfoldChoiceEval(x, t, w.i, n);
    var g, s, p1, p2 := x.g, x.p.subject, t.p1, t.p2;
    var (e1, cs1) := GetFirst(g, p1, FULLSET, x.a);
    var c1 := Gen(g, x.a, p1, false, GuardOf(cs1, false), fl);
    var end1 := w.pc + |c1|;
    CorrectFragment(x, p1, false, GuardOf(cs1, false), fl, w, n);
    match Eval(g, s, p1, w.i, n)
    case Timeout => TestedEnds(x, Timeout, Timeout, opt, fl, end1, end, w);
    case Matched(j, k) => TestedMatches(x, Matched(j, k), opt, fl, end1, end, w);
    case Failed =>
      TestedFails(g, s, p1, p2, fl, w.i, n, x.a);
      TestedEnds(x, Failed, Eval(g, s, p2, w.i, n), opt, fl, end1, end, w);
  }

  /** When the first part fails, the second part can only have matched nothing, where the rest
      cannot go on. */
  lemma TestedEnds(x: Context, r1: Outcome, r: Outcome, opt: bool, fl: Charset, end1: int, end: int, w: Site)
    requires OptOk(x, opt, fl, end, w.stk) && Post(x, r1, false, fl, end1, w)
    requires if r1.Timeout? then r.Timeout?
             else r1.Failed? && (r.Matched? ==> r.end == w.i && w.i < |x.p.subject| && x.p.subject[w.i] !in fl)
    ensures Post(x, r, opt, fl, end, w)
  {
    hide Joins, Encode, Backtrack, Exec;
  }

  /** When the first part matches, the jump after it, if there is one, leads to the end. */
  lemma TestedMatches(x: Context, r: Outcome, opt: bool, fl: Charset, end1: int, end: int, w: Site)
    requires r.Matched? && OptOk(x, opt, fl, end, w.stk) && Post(x, r, false, fl, end1, w)
    requires end == end1 || (0 <= end1 < |x.p.code| && x.p.code[end1] == IJmp(end - end1))
    ensures Post(x, r, opt, fl, end, w)
  {
    hide Joins, Encode, Backtrack, Exec;
    var caps' := w.caps + Encode(r.caps);
    if Joins(x.p, Start(w), Run(end1, r.end, w.stk, caps')) {
      if end != end1 {
        DispatchJmp(x.p, end - end1, end1, r.end, w.stk, caps');
        JoinsTrans(x.p, Start(w), Run(end1, r.end, w.stk, caps'), Run(end, r.end, w.stk, caps'));
      }
      ReachGoal(x, opt, fl, end, r.end, w.stk, caps', Start(w));
    }
  }

  /** When the test succeeds and the first part fails, the second part can only match nothing,
      before a character that cannot follow. */
  lemma TestedFails(g: seq<Tree>, s: Subject, p1: Tree, p2: Tree, fl: Charset, i: nat, n: nat, a: nat)
    requires var (e1, cs1) := GetFirst(g, p1, FULLSET, a);
             HeadIn(s, i, cs1) && (HeadFail(g, p1, a) || (!e1 && cs1 !! GetFirst(g, p2, fl, a).1))
    requires Eval(g, s, p1, i, n).Failed?
    ensures var r2 := Eval(g, s, p2, i, n); r2.Matched? ==> r2.end == i && i < |s| && s[i] !in fl
  {
    hide Eval, GetFirst, HeadFail;
    if HeadFail(g, p1, a) { HeadFailExact(g, s, p1, i, n, a); }
    var r2 := Eval(g, s, p2, i, n);
    if r2.Matched? {
      EndInRange(g, s, p2, i, n);
      if r2.end > i || s[i] in fl { FirstSound(g, s, p2, i, n, fl, a); }
    }
  }

  /** An optional pattern at the end of an optional pattern reuses the choice in place. */
  lemma {:induction false} CorrectOptChoice(x: Context, t: Tree, tt: Guard, fl: Charset, w: Site, n: nat)
    requires t.Choice? && Ready(x, t, true, tt, fl, w) && t.p2.True?
    requires var (e1, cs1) := GetFirst(x.g, t.p1, FULLSET, x.a);
             !(HeadFail(x.g, t.p1, x.a) || (!e1 && cs1 !! GetFirst(x.g, t.p2, fl, x.a).1))
    ensures Meets(x, t, true, tt, fl, w, n)
    decreases n, t, 0
  {
    hide Gen, Eval, Wf, Joins, Placed, GetFirst, HeadFail, FixedLen, HasCaptures, CharsetType, Encode, Backtrack,
         Wide, TestInstr, Sound;
    UnfoldChoice(x, t, true, tt, fl, w.i, n);
    var g, s, p1 := x.g, x.p.subject, t.p1;
    var c1 := Gen(g, x.a, p1, true, NoTest, FULLSET);
    var first := Wide(IPartialCommit(2));
    PlacedCat(x.p.code, first, c1, w.pc, x.pos);
    PlacedHead(x.p.code, first, w.pc, x.pos);
    var w1 := Site(w.pc + 2, w.i, Cons(Alt(w.stk.top.pc, w.i, |w.caps|), w.stk.rest), w.caps);
    LevelsMore(w.stk.rest, w.stk.top.level, |w.caps|);
    Dispatch(x.p, IPartialCommit(2), w.pc, w.i, w.stk, w.caps);
    CorrectFragment(x, p1, true, NoTest, FULLSET, w1, n);
    var end := w.pc + |first + c1|;
    match Eval(g, s, p1, w.i, n)
    case Timeout =>
    case Failed =>
      BacktrackFresh(w.stk.top.pc, w.i, w.stk.rest, w.caps);
      EncodeNil(w.caps);
      JoinsTrans(x.p, Start(w), Start(w1), Fail(w1));
    case Matched(j, k) =>
      JoinsTrans(x.p, Start(w), Start(w1), Goal(true, end, j, w.stk, w.caps + Encode(k)));
  }

  /** The general form: a choice that is committed when p1 matches. */
  lemma {:induction false} CorrectFullChoice(x: Context, t: Tree, opt: bool, tt: Guard, fl: Charset, w: Site, n: nat)
    requires t.Choice? && Ready(x, t, opt, tt, fl, w) && !(opt && t.p2.True?)
    requires var (e1, cs1) := GetFirst(x.g, t.p1, FULLSET, x.a);
             !(HeadFail(x.g, t.p1, x.a) || (!e1 && cs1 !! GetFirst(x.g, t.p2, fl, x.a).1))
    ensures Meets(x, t, opt, tt, fl, w, n)
    decreases n, t, 1
  {
    hide Gen, Eval, Wf, Joins, Placed, GetFirst, HeadFail, FixedLen, HasCaptures, CharsetType, Encode, Backtrack,
         Wide, TestInstr, Sound, LevelsOk, Exec, Post, ChoiceLayout, CodeTestSet, TestSize;
    UnfoldChoice(x, t, opt, tt, fl, w.i, n);
    var g, s, p1, p2 := x.g, x.p.subject, t.p1, t.p2;
    var (e1, cs1) := GetFirst(g, p1, FULLSET, x.a);
    var c1, c2 := Gen(g, x.a, p1, p2.True?, GuardOf(cs1, e1), FULLSET), Gen(g, x.a, p2, opt, NoTest, fl);
    var wc := w.(pc := w.pc + TestSize(cs1, e1));
    var w2 := w.(pc := wc.pc + 4 + |c1|);
    var end := w2.pc + |c2|;
    FullChoicePlaced(x, cs1, e1, c1, c2, w);
    CorrectFragment(x, p2, opt, NoTest, fl, w2, n);
    var r1, r2 := Eval(g, s, p1, w.i, n), Eval(g, s, p2, w.i, n);
    if !e1 && !HeadIn(s, w.i, cs1) {
      RunTest(x.p, cs1, |c1| + 4, w.pc, x.pos, w.i, w.stk, w.caps);
      TestSound(g, s, p1, w.i, n, x.a);
      JoinsRefl(x.p, Start(w));
      PostEither(x, r1, r2, opt, fl, end, w, w, w2);
    } else {
      if e1 { JoinsRefl(x.p, Start(w)); } else { RunTest(x.p, cs1, |c1| + 4, w.pc, x.pos, w.i, w.stk, w.caps); }
      RunChoice(x, t, GuardOf(cs1, e1), c2, wc, n);
      PostEither(x, r1, r2, opt, fl, end, w, wc, w2);
    }
  }

  /** The alternatives' outcomes r1 and r2 give the choice's own. */
  lemma PostEither(x: Context, r1: Outcome, r2: Outcome, opt: bool, fl: Charset, end: int, w: Site, wc: Site, w2: Site)
    requires wc == w.(pc := wc.pc) && w2 == w.(pc := w2.pc)
    requires OptOk(x, opt, fl, end, w.stk) && Joins(x.p, Start(w), Start(wc)) && Post(x, r2, opt, fl, end, w2)
    requires r1.Failed? ==> Joins(x.p, Start(wc), Start(w2))
    requires r1.Matched? ==> Joins(x.p, Start(wc), Run(end, r1.end, w.stk, w.caps + Encode(r1.caps)))
    ensures Post(x, if r1.Failed? then r2 else r1, opt, fl, end, w)
  {
    hide Joins, Backtrack, Encode;
    if r1.Failed? {
      JoinsTrans(x.p, Start(w), Start(wc), Start(w2));
      PostBefore(x, r2, opt, fl, end, w, w2);
    } else if r1.Matched? {
      JoinsTrans(x.p, Start(w), Start(wc), Run(end, r1.end, w.stk, w.caps + Encode(r1.caps)));
      ReachGoal(x, opt, fl, end, r1.end, w.stk, w.caps + Encode(r1.caps), Start(w));
    }
  }

  lemma FullChoicePlaced(x: Context, cs: Charset, e: bool, c1: Code, c2: Code, w: Site)
    requires Placed(x.p.code, ChoiceLayout(cs, e, c1, c2), w.pc, x.pos)
    ensures var wc := w.pc + TestSize(cs, e);
            && |ChoiceLayout(cs, e, c1, c2)| == TestSize(cs, e) + 4 + |c1| + |c2|
            && (e ==> TestSize(cs, e) == 0)
            && Placed(x.p.code, CodeTestSet(cs, e, |c1| + 4), w.pc, x.pos)
            && Placed(x.p.code, Wide(IChoice(|c1| + 4)) + (c1 + (Wide(ICommit(2 + |c2|)) + c2)), wc, x.pos)
            && Placed(x.p.code, c2, wc + 4 + |c1|, x.pos)
  {
    hide Placed;
    var rest := Wide(IChoice(|c1| + 4)) + (c1 + (Wide(ICommit(2 + |c2|)) + c2));
    PlacedCat(x.p.code, CodeTestSet(cs, e, |c1| + 4), rest, w.pc, x.pos);
    ChoicePlaced(x, c1, c2, w.(pc := w.pc + TestSize(cs, e)));
  }

  lemma ChoicePlaced(x: Context, c1: Code, c2: Code, w: Site)
    requires Placed(x.p.code, Wide(IChoice(|c1| + 4)) + (c1 + (Wide(ICommit(2 + |c2|)) + c2)), w.pc, x.pos)
    ensures Placed(x.p.code, c1, w.pc + 2, x.pos) && Placed(x.p.code, c2, w.pc + 4 + |c1|, x.pos)
    ensures 0 <= w.pc && w.pc + 4 + |c1| <= |x.p.code|
    ensures x.p.code[w.pc] == IChoice(|c1| + 4) && x.p.code[w.pc + 2 + |c1|] == ICommit(2 + |c2|)
  {
    hide Placed;
    var choice, commit := Wide(IChoice(|c1| + 4)), Wide(ICommit(2 + |c2|));
    PlacedCat(x.p.code, choice, c1 + (commit + c2), w.pc, x.pos);
    PlacedCat(x.p.code, c1, commit + c2, w.pc + 2, x.pos);
    PlacedCat(x.p.code, commit, c2, w.pc + 2 + |c1|, x.pos);
    PlacedHead(x.p.code, choice, w.pc, x.pos);
    PlacedHead(x.p.code, commit, w.pc + 2 + |c1|, x.pos);
  }

  /** choice L1; p1; commit L2; L1: p2; L2: leads to L1 if p1 fails and to L2 if it matches. */
  lemma {:induction false} RunChoice(x: Context, t: Tree, tt1: Guard, c2: Code, w: Site, n: nat)
    requires t.Choice? && Sound(x) && Wf(x.g, t.p1) && GuardOk(x.p.subject, tt1, w.i)
    requires t.p2.True? ==> c2 == []
    requires var c1 := Gen(x.g, x.a, t.p1, t.p2.True?, tt1, FULLSET);
             SiteOk(x, Wide(IChoice(|c1| + 4)) + (c1 + (Wide(ICommit(2 + |c2|)) + c2)), w)
    ensures var r1 := Eval(x.g, x.p.subject, t.p1, w.i, n);
            var c1 := Gen(x.g, x.a, t.p1, t.p2.True?, tt1, FULLSET);
            && (r1.Failed? ==> Joins(x.p, Start(w), Run(w.pc + 4 + |c1|, w.i, w.stk, w.caps)))
            && (r1.Matched? ==>
                  Joins(x.p, Start(w), Run(w.pc + 4 + |c1| + |c2|, r1.end, w.stk, w.caps + Encode(r1.caps))))
    decreases n, t, 0
  {
    hide Gen, Eval, Wf, Joins, Placed, GetFirst, HeadFail, FixedLen, HasCaptures, CharsetType, Encode, Backtrack,
         Wide, TestInstr, Sound;
    var opt1 := t.p2.True?;
    var c1 := Gen(x.g, x.a, t.p1, opt1, tt1, FULLSET);
    var onFail, end := w.pc + 4 + |c1|, w.pc + 4 + |c1| + |c2|;
    ChoicePlaced(x, c1, c2, w);
    var w1 := Site(w.pc + 2, w.i, Cons(Alt(onFail, w.i, |w.caps|), w.stk), w.caps);
    Dispatch(x.p, IChoice(|c1| + 4), w.pc, w.i, w.stk, w.caps);
    CorrectFragment(x, t.p1, opt1, tt1, FULLSET, w1, n);
    match Eval(x.g, x.p.subject, t.p1, w.i, n)
    case Timeout =>
    case Failed =>
      BacktrackFresh(onFail, w.i, w.stk, w.caps);
      JoinsTrans(x.p, Start(w), Start(w1), Run(onFail, w.i, w.stk, w.caps));
    case Matched(j, k) =>
      var caps' := w.caps + Encode(k);
      if !opt1 {
        Dispatch(x.p, ICommit(2 + |c2|), w1.pc + |c1|, j, w1.stk, caps');
        JoinsTrans(x.p, Start(w1), Run(w1.pc + |c1|, j, w1.stk, caps'), Run(end, j, w.stk, caps'));
      }
      JoinsTrans(x.p, Start(w), Start(w1), Run(end, j, w.stk, caps'));
  }

  // ----- repetition --------------------------------------------------------------------

  lemma {:induction false} CorrectRep(x: Context, t: Tree, opt: bool, tt: Guard, fl: Charset, w: Site, n: nat)
    requires t.Rep? && Ready(x, t, opt, tt, fl, w)
    ensures Meets(x, t, opt, tt, fl, w, n)
    decreases n, t, 2
  {
    hide Gen, Eval, Wf, Joins, Placed, GetFirst, HeadFail, FixedLen, HasCaptures, CharsetType, Encode, Backtrack,
         Wide, Sound, LevelsOk, TestLoopLayout, ChoiceLoopLayout;
    UnfoldRep(x, t, opt, tt, fl, w.i, n);
    var (e1, st) := GetFirst(x.g, t.body, FULLSET, x.a);
    var end := w.pc + |Gen(x.g, x.a, t, opt, tt, fl)|;
    if ToCharset(t.body).0 {
      CorrectSpan(x, t.body, fl, w, n);
      PostOpt(x, Eval(x.g, x.p.subject, t, w.i, n), opt, fl, end, w);
    } else if HeadFail(x.g, t.body, x.a) || (!e1 && st !! fl) {
      CorrectTestLoop(x, t, fl, w, n);
      PostOpt(x, Eval(x.g, x.p.subject, t, w.i, n), opt, fl, end, w);
    } else {
      CorrectChoiceLoop(x, t, opt, tt, fl, w, n);
    }
  }

  /** The loop without a choice: a test at the head decides whether to go on. */
  lemma {:induction false} CorrectTestLoop(x: Context, t: Tree, fl: Charset, w: Site, n: nat)
    requires t.Rep? && !ToCharset(t.body).0 && Sound(x) && Wf(x.g, t.body)
    requires var (e1, st) := GetFirst(x.g, t.body, FULLSET, x.a);
             && (HeadFail(x.g, t.body, x.a) || (!e1 && st !! fl))
             && SiteOk(x, TestLoopLayout(st, Gen(x.g, x.a, t.body, false, GuardOf(st, false), FULLSET)), w)
    ensures var st := GetFirst(x.g, t.body, FULLSET, x.a).1;
            Post(x, Eval(x.g, x.p.subject, t, w.i, n), false, fl,
                 w.pc + |TestLoopLayout(st, Gen(x.g, x.a, t.body, false, GuardOf(st, false), FULLSET))|, w)
    decreases n, t, 0
  {
    hide Gen, Eval, Wf, Joins, Placed, GetFirst, HeadFail, FixedLen, HasCaptures, CharsetType, Encode, Backtrack,
         Wide, TestInstr, Sound, LevelsOk, Exec, TestLoopLayout, ChoiceLoopLayout, CodeTestSet, TestSize;
    UnfoldRep(x, t, false, NoTest, fl, w.i, n);
    var g, s, p := x.g, x.p.subject, t.body;
    var (e1, st) := GetFirst(g, p, FULLSET, x.a);
    var tt1 := GuardOf(st, false);
    var c := Gen(g, x.a, p, false, tt1, FULLSET);
    TestLoopPlaced(x, st, c, w);
    var size := TestSize(st, false);
    RunTest(x.p, st, |c| + 2, w.pc, x.pos, w.i, w.stk, w.caps);
    var end := w.pc + size + |c| + 2;
    var r, r1 := Eval(g, s, t, w.i, n), Eval(g, s, p, w.i, n);
    if HeadFail(g, p, x.a) {
      HeadFailExact(g, s, p, w.i, n, x.a);
    } else if !HeadIn(s, w.i, st) {
      TestSound(g, s, p, w.i, n, x.a);
    }
    EncodeNil(w.caps);
    if HeadIn(s, w.i, st) {
      var w1 := w.(pc := w.pc + size);
      CorrectFragment(x, p, false, tt1, FULLSET, w1, n);
      match r1
      case Timeout =>
      case Failed => PostBefore(x, r, false, fl, end, w, w1);
      case Matched(j, k) =>
        if n > 0 {
          var w2 := Site(w.pc, j, w.stk, w.caps + Encode(k));
          DispatchJmp(x.p, -(size + |c|), w1.pc + |c|, j, w.stk, w2.caps);
          JoinsTrans(x.p, Start(w1), Run(w1.pc + |c|, j, w.stk, w2.caps), Start(w2));
          JoinsTrans(x.p, Start(w), Start(w1), Start(w2));
          TestLoopAgain(x, t, fl, w, j, k, n);
        }
    }
  }

  lemma TestLoopPlaced(x: Context, cs: Charset, c: Code, w: Site)
    requires Placed(x.p.code, TestLoopLayout(cs, c), w.pc, x.pos)
    ensures var size := TestSize(cs, false);
            && |TestLoopLayout(cs, c)| == size + |c| + 2
            && Placed(x.p.code, CodeTestSet(cs, false, |c| + 2), w.pc, x.pos)
            && Placed(x.p.code, c, w.pc + size, x.pos)
            && 0 <= w.pc + size + |c| < |x.p.code| && x.p.code[w.pc + size + |c|] == IJmp(-(size + |c|))
  {
    hide Placed;
    var test, jmp := CodeTestSet(cs, false, |c| + 2), Wide(IJmp(-(TestSize(cs, false) + |c|)));
    PlacedCat(x.p.code, test, c + jmp, w.pc, x.pos);
    PlacedCat(x.p.code, c, jmp, w.pc + |test|, x.pos);
    PlacedHead(x.p.code, jmp, w.pc + |test| + |c|, x.pos);
  }

  /** Back at the test after one match of the body. */
  lemma {:induction false} TestLoopAgain(x: Context, t: Tree, fl: Charset, w: Site, j: nat, k: seq<Node>, n: nat)
    requires t.Rep? && !ToCharset(t.body).0 && Sound(x) && Wf(x.g, t.body) && n > 0
    requires var (e1, st) := GetFirst(x.g, t.body, FULLSET, x.a);
             && (HeadFail(x.g, t.body, x.a) || (!e1 && st !! fl))
             && SiteOk(x, TestLoopLayout(st, Gen(x.g, x.a, t.body, false, GuardOf(st, false), FULLSET)), w)
    requires Eval(x.g, x.p.subject, t.body, w.i, n) == Matched(j, k)
    requires Joins(x.p, Start(w), Run(w.pc, j, w.stk, w.caps + Encode(k)))
    ensures var st := GetFirst(x.g, t.body, FULLSET, x.a).1;
            Post(x, After(k, Eval(x.g, x.p.subject, t, j, n - 1)), false, fl,
                 w.pc + |TestLoopLayout(st, Gen(x.g, x.a, t.body, false, GuardOf(st, false), FULLSET))|, w)
    decreases n, t.body, 2
  {
    hide Gen, Eval, Wf, Joins, Placed, GetFirst, HeadFail, Encode, Backtrack, Sound, TestLoopLayout, Post;
    var g, s := x.g, x.p.subject;
    EndInRange(g, s, t.body, w.i, n);
    var w2 := Site(w.pc, j, w.stk, w.caps + Encode(k));
    LevelsMore(w.stk, |w.caps|, |w2.caps|);
    BacktrackForgets(w.stk, w.caps, Encode(k));
    CorrectTestLoop(x, t, fl, w2, n - 1);
    var st := GetFirst(x.g, t.body, FULLSET, x.a).1;
    var end := w.pc + |TestLoopLayout(st, Gen(x.g, x.a, t.body, false, GuardOf(st, false), FULLSET))|;
    SeqAfter(x, k, Eval(g, s, t, j, n - 1), false, fl, end, w, w2);
  }

  /** The loop around a choice on top of the stack, entered at the body. */
  lemma {:induction false} RunChoiceLoop(x: Context, t: Tree, out: int, w: Site, n: nat)
    requires t.Rep? && Sound(x) && Wf(x.g, t.body)
    requires var c := Gen(x.g, x.a, t.body, false, NoTest, FULLSET);
             SiteOk(x, c + Wide(IPartialCommit(-|c|)), w)
    ensures var r := Eval(x.g, x.p.subject, t, w.i, n);
            && !r.Failed?
            && (r.Matched? ==>
                  Joins(x.p, Run(w.pc, w.i, Cons(Alt(out, w.i, |w.caps|), w.stk), w.caps),
                             Run(out, r.end, w.stk, w.caps + Encode(r.caps))))
    decreases n, t, 0
  {
    hide Gen, Eval, Wf, Joins, Placed, GetFirst, HeadFail, FixedLen, HasCaptures, CharsetType, Encode, Backtrack,
         Wide, TestInstr, Sound;
    hide TestLoopLayout, ChoiceLoopLayout, Sound, LevelsOk;
    UnfoldRep(x, t, false, NoTest, {}, w.i, n);
    var g, s, p := x.g, x.p.subject, t.body;
    var c := Gen(g, x.a, p, false, NoTest, FULLSET);
    var commit := Wide(IPartialCommit(-|c|));
    PlacedCat(x.p.code, c, commit, w.pc, x.pos);
    PlacedHead(x.p.code, commit, w.pc + |c|, x.pos);
    var w1 := w.(stk := Cons(Alt(out, w.i, |w.caps|), w.stk));
    FreshLevel(out, w.i, w.stk, |w.caps|);
    CorrectFragment(x, p, false, NoTest, FULLSET, w1, n);
    EncodeNil(w.caps);
    match Eval(g, s, p, w.i, n)
    case Timeout =>
    case Failed => BacktrackFresh(out, w.i, w.stk, w.caps);
    case Matched(j, k) =>
      if n > 0 {
        EndInRange(g, s, p, w.i, n);
        var w2 := Site(w.pc, j, w.stk, w.caps + Encode(k));
        LevelsMore(w.stk, |w.caps|, |w2.caps|);
        var loop := Run(w.pc, j, Cons(Alt(out, j, |w2.caps|), w.stk), w2.caps);
        Dispatch(x.p, commit[0], w.pc + |c|, j, w1.stk, w2.caps);
        JoinsTrans(x.p, Start(w1), Run(w.pc + |c|, j, w1.stk, w2.caps), loop);
        RunChoiceLoop(x, t, out, w2, n - 1);
        var r2 := Eval(g, s, t, j, n - 1);
        if r2.Matched? {
          EncodeCat(k, r2.caps);
          assert w2.caps + Encode(r2.caps) == w.caps + (Encode(k) + Encode(r2.caps));
          JoinsTrans(x.p, Start(w1), loop, Run(out, r2.end, w.stk, w.caps + Encode(k + r2.caps)));
        }
      }
  }

  lemma {:induction false} CorrectChoiceLoop(x: Context, t: Tree, opt: bool, tt: Guard, fl: Charset, w: Site, n: nat)
    requires t.Rep? && !ToCharset(t.body).0 && Ready(x, t, opt, tt, fl, w)
    requires var (e1, st) := GetFirst(x.g, t.body, FULLSET, x.a);
             !(HeadFail(x.g, t.body, x.a) || (!e1 && st !! fl))
    ensures Meets(x, t, opt, tt, fl, w, n)
    decreases n, t, 1
  {
    hide Gen, Eval, Wf, Joins, Placed, GetFirst, HeadFail, FixedLen, HasCaptures, CharsetType, Encode, Backtrack,
         Wide, TestInstr, Sound, CodeTestSet, TestSize, LevelsOk, Exec, TestLoopLayout, ChoiceLoopLayout;
    UnfoldRep(x, t, opt, tt, fl, w.i, n);
    var g, s, p := x.g, x.p.subject, t.body;
    var (e1, st) := GetFirst(g, p, FULLSET, x.a);
    var c := Gen(g, x.a, p, false, NoTest, FULLSET);
    var ins := if opt then IPartialCommit(2) else IChoice(|c| + 4);
    ChoiceLoopPlaced(x, st, e1, opt, c, w);
    var wc := w.(pc := w.pc + TestSize(st, e1));
    var end := wc.pc + 4 + |c|;
    var r := Eval(g, s, t, w.i, n);
    EncodeNil(w.caps);
    if !e1 { RunTest(x.p, st, |c| + 4, w.pc, x.pos, w.i, w.stk, w.caps); }
    if !e1 && !HeadIn(s, w.i, st) {
      TestSound(g, s, p, w.i, n, x.a);
      if r.Matched? { ReachGoal(x, opt, fl, end, w.i, w.stk, w.caps, Start(w)); }
    } else {
      if e1 { JoinsRefl(x.p, Start(w)); }
      var out, rest := if opt then w.stk.top.pc else end, if opt then w.stk.rest else w.stk;
      if opt { LevelsBelow(w.stk, |w.caps|); }
      var loop := Run(wc.pc + 2, w.i, Cons(Alt(out, w.i, |w.caps|), rest), w.caps);
      EnterLoop(x.p, opt, ins, wc.pc, w.i, w.stk, w.caps);
      JoinsTrans(x.p, Start(w), Start(wc), loop);
      RunChoiceLoop(x, t, out, Site(wc.pc + 2, w.i, rest, w.caps), n);
      if r.Matched? {
        JoinsTrans(x.p, Start(w), loop, Run(out, r.end, rest, w.caps + Encode(r.caps)));
      }
    }
  }

  lemma ChoiceLoopPlaced(x: Context, cs: Charset, e: bool, opt: bool, c: Code, w: Site)
    requires Placed(x.p.code, ChoiceLoopLayout(cs, e, opt, c), w.pc, x.pos)
    ensures var wc := w.pc + TestSize(cs, e);
            && |ChoiceLoopLayout(cs, e, opt, c)| == TestSize(cs, e) + 4 + |c|
            && (e ==> TestSize(cs, e) == 0)
            && Placed(x.p.code, CodeTestSet(cs, e, |c| + 4), w.pc, x.pos)
            && Placed(x.p.code, c + Wide(IPartialCommit(-|c|)), wc + 2, x.pos)
            && 0 <= wc < |x.p.code| && x.p.code[wc] == if opt then IPartialCommit(2) else IChoice(|c| + 4)
  {
    hide Placed;
    var first, commit := Wide(if opt then IPartialCommit(2) else IChoice(|c| + 4)), Wide(IPartialCommit(-|c|));
    var test := CodeTestSet(cs, e, |c| + 4);
    PlacedCat(x.p.code, test, first + (c + commit), w.pc, x.pos);
    PlacedCat(x.p.code, first, c + commit, w.pc + |test|, x.pos);
    PlacedHead(x.p.code, first, w.pc + |test|, x.pos);
  }

  lemma LevelsBelow(stk: Stack, m: nat)
    requires LevelsOk(stk, m) && stk.Cons? && stk.top.Alt?
    ensures LevelsOk(stk.rest, m)
  {
    LevelsMore(stk.rest, stk.top.level, m);
  }

  /** Entering a loop: a new choice, or the choice of the enclosing optional pattern. */
  lemma EnterLoop(p: Program, opt: bool, ins: Instr, pc: int, i: nat, stk: Stack, caps: seq<Entry>)
    requires 0 <= pc < |p.code| && p.code[pc] == ins && (if opt then ins == IPartialCommit(2) else ins.IChoice?)
    requires opt ==> stk.Cons? && stk.top.Alt?
    ensures var out, rest := if opt then stk.top.pc else pc + ins.offset, if opt then stk.rest else stk;
            Joins(p, Run(pc, i, stk, caps), Run(pc + 2, i, Cons(Alt(out, i, |caps|), rest), caps))
  {
    Dispatch(p, ins, pc, i, stk, caps);
  }

  // ----- predicates --------------------------------------------------------------------

  lemma {:induction false} CorrectBehind(x: Context, t: Tree, tt: Guard, fl: Charset, w: Site, n: nat)
    requires t.Behind? && Ready(x, t, false, tt, fl, w)
    ensures Meets(x, t, false, tt, fl, w, n)
    decreases n, t, 0
  {
    hide Gen, Eval, Wf, Joins, Placed, GetFirst, HeadFail, FixedLen, HasCaptures, CharsetType, Encode, Backtrack,
         BehindOk;
    UnfoldPredicate(x, t, tt, fl, w.i, n);
    var g, s, m, p := x.g, x.p.subject, t.n, t.body;
    var c := Gen(g, x.a, p, false, NoTest, FULLSET);
    PlacedCat(x.p.code, CodeBehind(m), c, w.pc, x.pos);
    if m > 0 {
      PlacedHead(x.p.code, CodeBehind(m), w.pc, x.pos);
      Dispatch(x.p, IBehind(m), w.pc, w.i, w.stk, w.caps);
    } else {
      JoinsRefl(x.p, Start(w));
    }
    if m <= w.i {
      var w1 := w.(pc := w.pc + |CodeBehind(m)|, i := w.i - m);
      CorrectFragment(x, p, false, NoTest, FULLSET, w1, n);
      var r1 := Eval(g, s, p, w1.i, n);
      if r1.Matched? { BehindExact(g, s, m, p, w.i, n); }
      var r := Eval(g, s, t, w.i, n);
      assert r == r1;
      PostBefore(x, r, false, FULLSET, w1.pc + |c|, w, w1);
    }
  }

  lemma {:induction false} CorrectNot(x: Context, t: Tree, tt: Guard, fl: Charset, w: Site, n: nat)
    requires t.Not? && Ready(x, t, false, tt, fl, w)
    ensures Meets(x, t, false, tt, fl, w, n)
    decreases n, t, 1
  {
    hide Gen, Eval, Wf, Joins, Placed, GetFirst, HeadFail, FixedLen, HasCaptures, CharsetType, Encode, Backtrack,
         Wide, TestInstr, CodeTestSet, Sound;
    UnfoldPredicate(x, t, tt, fl, w.i, n);
    var g, s, p := x.g, x.p.subject, t.body;
    var (e, st) := GetFirst(g, p, FULLSET, x.a);
    var hf := HeadFail(g, p, x.a);
    var c := Gen(g, x.a, p, false, NoTest, FULLSET);
    var rest := if hf then [IFail] else Wide(IChoice(|c| + 3)) + (c + [IFailTwice]);
    var test := CodeTestSet(st, e, |rest|);
    assert NotLayout(st, e, hf, c) == test + rest;
    hide NotLayout;
    PlacedCat(x.p.code, test, rest, w.pc, x.pos);
    var wc := w.(pc := w.pc + |test|);
    var r1 := Eval(g, s, p, w.i, n);
    EncodeNil(w.caps);
    if hf { HeadFailExact(g, s, p, w.i, n, x.a); }
    if !e {
      RunTest(x.p, st, |rest|, w.pc, x.pos, w.i, w.stk, w.caps);
      if !HeadIn(s, w.i, st) { TestSound(g, s, p, w.i, n, x.a); }
    } else {
      JoinsRefl(x.p, Start(w));
    }
    if e || HeadIn(s, w.i, st) {
      if hf {
        PlacedHead(x.p.code, rest, wc.pc, x.pos);
        Dispatch(x.p, IFail, wc.pc, w.i, w.stk, w.caps);
        JoinsTrans(x.p, Start(w), Start(wc), Fail(w));
      } else {
        RunNot(x, t, wc, n);
        if r1.Failed? {
          JoinsTrans(x.p, Start(w), Start(wc), Run(wc.pc + |rest|, w.i, w.stk, w.caps));
        } else if r1.Matched? {
          JoinsTrans(x.p, Start(w), Start(wc), Fail(w));
        }
      }
    }
  }

  /** choice L1; p; failtwice; L1: turns failure into success and success into failure. */
  lemma {:induction false} RunNot(x: Context, t: Tree, w: Site, n: nat)
    requires t.Not? && Sound(x) && Wf(x.g, t.body)
    requires var c := Gen(x.g, x.a, t.body, false, NoTest, FULLSET);
             SiteOk(x, Wide(IChoice(|c| + 3)) + (c + [IFailTwice]), w)
    ensures var r1 := Eval(x.g, x.p.subject, t.body, w.i, n);
            var c := Gen(x.g, x.a, t.body, false, NoTest, FULLSET);
            && (r1.Failed? ==> Joins(x.p, Start(w), Run(w.pc + |c| + 3, w.i, w.stk, w.caps)))
            && (r1.Matched? ==> Joins(x.p, Start(w), Fail(w)))
    decreases n, t, 0
  {
    hide Gen, Eval, Wf, Joins, Placed, GetFirst, HeadFail, FixedLen, HasCaptures, CharsetType, Encode, Backtrack,
         Wide, TestInstr, Sound;
    var p := t.body;
    var c := Gen(x.g, x.a, p, false, NoTest, FULLSET);
    var choice, end := Wide(IChoice(|c| + 3)), w.pc + |c| + 3;
    PlacedCat(x.p.code, choice, c + [IFailTwice], w.pc, x.pos);
    PlacedCat(x.p.code, c, [IFailTwice], w.pc + 2, x.pos);
    PlacedHead(x.p.code, choice, w.pc, x.pos);
    PlacedHead(x.p.code, [IFailTwice], w.pc + 2 + |c|, x.pos);
    var w1 := Site(w.pc + 2, w.i, Cons(Alt(end, w.i, |w.caps|), w.stk), w.caps);
    Dispatch(x.p, choice[0], w.pc, w.i, w.stk, w.caps);
    CorrectFragment(x, p, false, NoTest, FULLSET, w1, n);
    match Eval(x.g, x.p.subject, p, w.i, n)
    case Timeout =>
    case Failed =>
      BacktrackFresh(end, w.i, w.stk, w.caps);
      JoinsTrans(x.p, Start(w), Start(w1), Run(end, w.i, w.stk, w.caps));
    case Matched(j, k) =>
      BacktrackForgets(w.stk, w.caps, Encode(k));
      Dispatch(x.p, IFailTwice, w1.pc + |c|, j, w1.stk, w.caps + Encode(k));
      JoinsTrans(x.p, Start(w1), Run(w1.pc + |c|, j, w1.stk, w.caps + Encode(k)), Fail(w));
      JoinsTrans(x.p, Start(w), Start(w1), Fail(w));
  }

  lemma {:induction false} CorrectAnd(x: Context, t: Tree, tt: Guard, fl: Charset, w: Site, n: nat)
    requires t.And? && Ready(x, t, false, tt, fl, w)
    ensures Meets(x, t, false, tt, fl, w, n)
    decreases n, t, 1
  {
    hide Gen, Eval, Wf, Joins, Placed, GetFirst, HeadFail, FixedLen, HasCaptures, CharsetType, Encode, Backtrack,
         AndLayout;
    UnfoldPredicate(x, t, tt, fl, w.i, n);
    EncodeNil(w.caps);
    var len := FixedLen(x.g, t.body, 0);
    if 0 <= len <= MAXBEHIND && !HasCaptures(x.g, t.body, x.a) {
      CorrectFixedAnd(x, t, tt, fl, w, n);
    } else {
      RunAnd(x, t, tt, w, n);
    }
  }

  /** &p for a pattern of fixed length: match it and step back. */
  lemma {:induction false} CorrectFixedAnd(x: Context, t: Tree, tt: Guard, fl: Charset, w: Site, n: nat)
    requires t.And? && Ready(x, t, false, tt, fl, w)
    requires 0 <= FixedLen(x.g, t.body, 0) <= MAXBEHIND && !HasCaptures(x.g, t.body, x.a)
    ensures Meets(x, t, false, tt, fl, w, n)
    decreases n, t, 0
  {
    hide Gen, Eval, Wf, Joins, Placed, GetFirst, HeadFail, FixedLen, HasCaptures, CharsetType, Encode, Backtrack,
         AndLayout;
    UnfoldPredicate(x, t, tt, fl, w.i, n);
    EncodeNil(w.caps);
    var g, s, p := x.g, x.p.subject, t.body;
    var len := FixedLen(g, p, 0);
    var c := Gen(g, x.a, p, false, tt, FULLSET);
    var r1 := Eval(g, s, p, w.i, n);
    PlacedCat(x.p.code, c, CodeBehind(len), w.pc, x.pos);
    CorrectFragment(x, p, false, tt, FULLSET, w, n);
    if r1.Matched? {
      NoCapturesSound(g, s, p, w.i, n, x.a);
      FixedLenSound(g, s, p, w.i, n, 0);
      if len > 0 {
        PlacedHead(x.p.code, CodeBehind(len), w.pc + |c|, x.pos);
        Dispatch(x.p, IBehind(len), w.pc + |c|, r1.end, w.stk, w.caps);
        JoinsTrans(x.p, Start(w), Run(w.pc + |c|, r1.end, w.stk, w.caps), Run(w.pc + |c| + 1, w.i, w.stk, w.caps));
      }
    }
  }

  /** choice L1; p; backcommit L2; L1: fail; L2: */
  lemma {:induction false} RunAnd(x: Context, t: Tree, tt: Guard, w: Site, n: nat)
    requires t.And? && Sound(x) && Wf(x.g, t.body) && GuardOk(x.p.subject, tt, w.i)
    requires SiteOk(x, AndLayout(Gen(x.g, x.a, t.body, false, tt, FULLSET)), w)
    ensures var r1 := Eval(x.g, x.p.subject, t.body, w.i, n);
            var c := Gen(x.g, x.a, t.body, false, tt, FULLSET);
            && (r1.Failed? ==> Joins(x.p, Start(w), Fail(w)))
            && (r1.Matched? ==> Joins(x.p, Start(w), Run(w.pc + |c| + 5, w.i, w.stk, w.caps)))
    decreases n, t, 0
  {
    hide Gen, Eval, Wf, Joins, Placed, GetFirst, HeadFail, FixedLen, HasCaptures, CharsetType, Encode, Backtrack,
         Wide, TestInstr, Sound;
    var p := t.body;
    var c := Gen(x.g, x.a, p, false, tt, FULLSET);
    var choice, back, end := Wide(IChoice(|c| + 4)), Wide(IBackCommit(3)), w.pc + 5 + |c|;
    PlacedCat(x.p.code, choice, c + (back + [IFail]), w.pc, x.pos);
    PlacedCat(x.p.code, c, back + [IFail], w.pc + 2, x.pos);
    PlacedCat(x.p.code, back, [IFail], w.pc + 2 + |c|, x.pos);
    PlacedHead(x.p.code, choice, w.pc, x.pos);
    PlacedHead(x.p.code, back, w.pc + 2 + |c|, x.pos);
    PlacedHead(x.p.code, [IFail], end - 1, x.pos);
    var w1 := Site(w.pc + 2, w.i, Cons(Alt(end - 1, w.i, |w.caps|), w.stk), w.caps);
    Dispatch(x.p, choice[0], w.pc, w.i, w.stk, w.caps);
    CorrectFragment(x, p, false, tt, FULLSET, w1, n);
    match Eval(x.g, x.p.subject, p, w.i, n)
    case Timeout =>
    case Failed =>
      BacktrackFresh(end - 1, w.i, w.stk, w.caps);
      JoinsTrans(x.p, Start(w), Start(w1), Run(end - 1, w.i, w.stk, w.caps));
      Dispatch(x.p, IFail, end - 1, w.i, w.stk, w.caps);
      JoinsTrans(x.p, Start(w), Run(end - 1, w.i, w.stk, w.caps), Fail(w));
    case Matched(j, k) =>
      var at := Run(w1.pc + |c|, j, w1.stk, w.caps + Encode(k));
      assert (w.caps + Encode(k))[..|w.caps|] == w.caps;
      Dispatch(x.p, back[0], w1.pc + |c|, j, w1.stk, w.caps + Encode(k));
      JoinsTrans(x.p, Start(w1), at, Run(end, w.i, w.stk, w.caps));
      JoinsTrans(x.p, Start(w), Start(w1), Run(end, w.i, w.stk, w.caps));
  }

  // ----- captures ----------------------------------------------------------------------

  lemma {:induction false} CorrectCapture(x: Context, t: Tree, tt: Guard, fl: Charset, w: Site, n: nat)
    requires t.Capture? && Ready(x, t, false, tt, fl, w)
    ensures Meets(x, t, false, tt, fl, w, n)
    decreases n, t, 1
  {
    hide FixedLen, HasCaptures, Gen, Eval, Joins, Placed, Wf, Encode, Backtrack;
    var len := FixedLen(x.g, t.body, 0);
    if 0 <= len <= MAXOFF && !HasCaptures(x.g, t.body, x.a) {
      CorrectFullCapture(x, t, tt, fl, w, n);
    } else {
      CorrectOpenCapture(x, t, tt, fl, w, n);
    }
  }

  /** The body, and one instruction that records a full capture of its fixed length. */
  lemma {:induction false} CorrectFullCapture(x: Context, t: Tree, tt: Guard, fl: Charset, w: Site, n: nat)
    requires t.Capture? && Ready(x, t, false, tt, fl, w)
    requires 0 <= FixedLen(x.g, t.body, 0) <= MAXOFF && !HasCaptures(x.g, t.body, x.a)
    ensures Meets(x, t, false, tt, fl, w, n)
    decreases n, t, 0
  {
    hide Gen, Eval, Wf, Joins, Placed, GetFirst, HeadFail, FixedLen, HasCaptures, CharsetType, Encode, Backtrack,
         CloseCapture;
    UnfoldCapture(x, t, tt, fl, w.i, n);
    var g, s, p := x.g, x.p.subject, t.body;
    var c := Gen(g, x.a, p, false, tt, fl);
    var r1 := Eval(g, s, p, w.i, n);
    var full := IFullCapture(t.kind, t.key, FixedLen(g, p, 0));
    PlacedCat(x.p.code, c, [full], w.pc, x.pos);
    PlacedHead(x.p.code, [full], w.pc + |c|, x.pos);
    CorrectFragment(x, p, false, tt, fl, w, n);
    if r1.Matched? {
      EndInRange(g, s, p, w.i, n);
      NoCapturesSound(g, s, p, w.i, n, x.a);
      FixedLenSound(g, s, p, w.i, n, 0);
      var node := Node(t.kind, t.key, w.i, r1.end, []);
      EncodeOne(node);
      EncodeNil(w.caps);
      if Joins(x.p, Start(w), Run(w.pc + |c|, r1.end, w.stk, w.caps)) {
        Dispatch(x.p, full, w.pc + |c|, r1.end, w.stk, w.caps);
        JoinsTrans(x.p, Start(w), Run(w.pc + |c|, r1.end, w.stk, w.caps),
                   Run(w.pc + |c| + 1, r1.end, w.stk, w.caps + Encode([node])));
      }
    }
  }

  /** Open, body, close. */
  lemma {:induction false} CorrectOpenCapture(x: Context, t: Tree, tt: Guard, fl: Charset, w: Site, n: nat)
    requires t.Capture? && Ready(x, t, false, tt, fl, w)
    requires !(0 <= FixedLen(x.g, t.body, 0) <= MAXOFF && !HasCaptures(x.g, t.body, x.a))
    ensures Meets(x, t, false, tt, fl, w, n)
    decreases n, t, 0
  {
    hide Gen, Eval, Wf, Joins, Placed, GetFirst, HeadFail, FixedLen, HasCaptures, CharsetType, Encode, Backtrack,
         CloseCapture;
    UnfoldCapture(x, t, tt, fl, w.i, n);
    var g, s, p := x.g, x.p.subject, t.body;
    var c := Gen(g, x.a, p, false, tt, fl);
    var r1 := Eval(g, s, p, w.i, n);
    var open := IOpenCapture(t.kind, t.key);
    PlacedCat(x.p.code, [open], c + [ICloseCapture], w.pc, x.pos);
    PlacedCat(x.p.code, c, [ICloseCapture], w.pc + 1, x.pos);
    PlacedHead(x.p.code, [open], w.pc, x.pos);
    PlacedHead(x.p.code, [ICloseCapture], w.pc + 1 + |c|, x.pos);
    var w1 := Site(w.pc + 1, w.i, w.stk, w.caps + [Entry(w.i, t.key, t.kind, 0)]);
    LevelsMore(w.stk, |w.caps|, |w1.caps|);
    BacktrackForgets(w.stk, w.caps, [Entry(w.i, t.key, t.kind, 0)]);
    Dispatch(x.p, open, w.pc, w.i, w.stk, w.caps);
    CorrectFragment(x, p, false, tt, fl, w1, n);
    if Joins(x.p, Start(w1), Fail(w)) { JoinsTrans(x.p, Start(w), Start(w1), Fail(w)); }
    if r1.Matched? {
      EndInRange(g, s, p, w.i, n);
      var caps' := w1.caps + Encode(r1.caps);
      var at := Run(w1.pc + |c|, r1.end, w.stk, caps');
      CloseEncodes(w.caps, t.kind, t.key, w.i, r1.end, r1.caps);
      if Joins(x.p, Start(w1), at) {
        Dispatch(x.p, ICloseCapture, w1.pc + |c|, r1.end, w.stk, caps');
        var out := Run(w1.pc + |c| + 1, r1.end, w.stk, CloseCapture(caps', r1.end));
        JoinsTrans(x.p, Start(w1), at, out);
        JoinsTrans(x.p, Start(w), Start(w1), out);
      }
    }
  }

  // ----- grammars and calls ------------------------------------------------------------

  lemma {:induction false} CorrectGrammar(x: Context, t: Tree, tt: Guard, fl: Charset, w: Site, n: nat)
    requires t.Grammar? && Ready(x, t, false, tt, fl, w)
    ensures Meets(x, t, false, tt, fl, w, n)
    decreases n, t, 0
  {
    hide Gen, Eval, Wf, Joins, Placed, GetFirst, HeadFail, FixedLen, HasCaptures, CharsetType, Encode, GenRules,
         Positions;
    UnfoldGrammar(x, t, tt, fl, w.i, n);
    var rs := t.rules;
    var size := |GenRules(rs, x.a, |rs|)|;
    assert Gen(x.g, x.a, t, false, tt, fl) == GrammarLayout(GenRules(rs, x.a, |rs|), Positions(rs, x.a));
    GrammarPlaced(x.p.code, rs, x.a, w.pc, x.pos);
    var pos := Shift(Positions(rs, x.a), w.pc);
    var y := Context(x.p, rs, x.a, pos);
    assert pos[0] == w.pc + 4;
    var c := Gen(rs, x.a, rs[0], false, NoTest, FULLSET);
    assert RuleCode(rs, x.a, 0) == c + [IRet];
    PlacedCat(x.p.code, c, [IRet], pos[0], pos);
    PlacedHead(x.p.code, [IRet], pos[0] + |c|, pos);
    var w1 := Site(w.pc + 4, w.i, Cons(Return(w.pc + 2), w.stk), w.caps);
    Dispatch(x.p, ICall(4), w.pc, w.i, w.stk, w.caps);
    CorrectFragment(y, rs[0], false, NoTest, FULLSET, w1, n);
    match Eval(rs, x.p.subject, rs[0], w.i, n)
    case Timeout =>
    case Failed => JoinsTrans(x.p, Start(w), Start(w1), Fail(w));
    case Matched(j, k) =>
      var caps' := w.caps + Encode(k);
      var ret, back, out := Run(w1.pc + |c|, j, w1.stk, caps'), Run(w.pc + 2, j, w.stk, caps'),
                            Run(w.pc + 4 + size, j, w.stk, caps');
      Dispatch(x.p, IRet, w1.pc + |c|, j, w1.stk, caps');
      Dispatch(x.p, IJmp(2 + size), w.pc + 2, j, w.stk, caps');
      JoinsTrans(x.p, Start(w), Start(w1), ret);
      JoinsTrans(x.p, Start(w), ret, back);
      JoinsTrans(x.p, Start(w), back, out);
  }

  /** A call, and a call turned into a jump because a return follows it. */
  lemma {:induction false} CorrectRuleCall(x: Context, t: Tree, tt: Guard, fl: Charset, w: Site, n: nat)
    requires t.Call? && Ready(x, t, false, tt, fl, w)
    ensures Meets(x, t, false, tt, fl, w, n)
    decreases n, t, 0
  {
    hide Gen, Eval, Wf, Joins, Placed, GetFirst, HeadFail, FixedLen, HasCaptures, CharsetType, Encode, GenRules,
         FinalTarget;
    UnfoldGrammar(x, t, tt, fl, w.i, n);
    var g, s, k := x.g, x.p.subject, t.rule;
    PlacedCell(x.p.code, Wide(IOpenCall(k)), w.pc, x.pos, 0);
    if n > 0 {
      var c := Gen(g, x.a, g[k], false, NoTest, FULLSET);
      assert RuleCode(g, x.a, k) == c + [IRet];
      assert Placed(x.p.code, RuleCode(g, x.a, k), x.pos[k], x.pos);
      PlacedCat(x.p.code, c, [IRet], x.pos[k], x.pos);
      PlacedHead(x.p.code, [IRet], x.pos[k] + |c|, x.pos);
      var jump := x.p.code[w.pc].IJmp?;
      var stk1 := if jump then w.stk else Cons(Return(w.pc + 2), w.stk);
      var w1 := Site(x.pos[k], w.i, stk1, w.caps);
      Dispatch(x.p, x.p.code[w.pc], w.pc, w.i, w.stk, w.caps);
      CorrectFragment(x, g[k], false, NoTest, FULLSET, w1, n - 1);
      match Eval(g, s, g[k], w.i, n - 1)
      case Timeout =>
      case Failed => JoinsTrans(x.p, Start(w), Start(w1), Fail(w));
      case Matched(j, ks) =>
        var caps' := w.caps + Encode(ks);
        var ret, out := Run(w1.pc + |c|, j, stk1, caps'), Run(w.pc + 2, j, w.stk, caps');
        JoinsTrans(x.p, Start(w), Start(w1), ret);
        Dispatch(x.p, IRet, w1.pc + |c|, j, stk1, caps');
        JoinsTrans(x.p, Start(w), ret, Exec(x.p, IRet, w1.pc + |c|, j, stk1, caps'));
        if jump {
          var fuel: nat :| JumpsToRet(x.p.code, w.pc + 2, fuel);
          RunToRet(x.p, w.pc + 2, fuel, j, w.stk, caps');
          JoinsSym(x.p, out, Exec(x.p, IRet, w.pc + 2, j, w.stk, caps'));
          JoinsTrans(x.p, Start(w), Exec(x.p, IRet, w.pc + 2, j, w.stk, caps'), out);
        }
    }
  }
}

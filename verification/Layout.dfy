/** Facts about generated code as an array of cells: how instructions tile it, where a
    fragment sits in a program, and what closing the open calls does to it. */
module Layout {
  import opened Peg
  import opened Analysis
  import opened Machine
  import opened CodeGen

  // ----- tiling ------------------------------------------------------------------------

  /** The code is a sequence of whole instructions with their operand cells. */
  predicate Tiled(c: Code)
    decreases |c|
  {
    c == [] ||
    (c[0] != Pad && Size(c[0]) <= |c| && (forall x :: 1 <= x < Size(c[0]) ==> c[x] == Pad)
     && Tiled(c[Size(c[0])..]))
  }

  lemma {:induction false} TiledCat(c: Code, d: Code)
    requires Tiled(c) && Tiled(d)
    ensures Tiled(c + d)
    decreases |c|
  {
    hide Size;
    if c == [] {
      assert c + d == d;
    } else {
      var k := Size(c[0]);
      TiledCat(c[k..], d);
      var e := c + d;
      assert e[k..] == c[k..] + d;
      assert forall x :: 0 <= x < k ==> e[x] == c[x];
    }
  }

  lemma TiledNil()
    ensures Tiled([])
  {
  }

  /** Tiling seen from a position inside the code. */
  lemma TiledAt(c: Code, i: nat)
    requires i < |c|
    ensures Tiled(c[i..]) <==>
              (c[i] != Pad && i + Size(c[i]) <= |c| && (forall y :: i < y < i + Size(c[i]) ==> c[y] == Pad)
               && Tiled(c[i + Size(c[i])..]))
  {
    var d, k := c[i..], Size(c[i]);
    assert d[0] == c[i];
    if i + k <= |c| {
      assert d[k..] == c[i + k..];
      forall y | i < y < i + k ensures c[y] == d[y - i] {
      }
      forall x | 1 <= x < k ensures d[x] == c[i + x] {
      }
    }
  }

  lemma TiledWide(ins: Instr)
    requires ins != Pad
    ensures Tiled(Wide(ins))
  {
    assert Wide(ins)[Size(ins)..] == [];
  }

  lemma TiledOne(ins: Instr)
    requires ins != Pad && Size(ins) == 1
    ensures Tiled([ins])
  {
    assert [ins][1..] == [];
  }

  lemma TiledTest(cs: Charset, e: bool, skip: int)
    ensures Tiled(CodeTestSet(cs, e, skip))
  {
    if !e { TiledWide(TestInstr(cs, TestSize(cs, e) + skip)); }
  }

  lemma TiledBehind(n: nat)
    ensures Tiled(CodeBehind(n))
  {
    if n > 0 { TiledOne(IBehind(n)); }
  }

  lemma TiledWrap(x: Instr, c: Code, y: Instr)
    requires Tiled(c) && x != Pad && y != Pad
    ensures Tiled(Wide(x) + (c + Wide(y)))
  {
    hide Tiled;
    TiledWide(x); TiledWide(y);
    TiledCat(c, Wide(y));
    TiledCat(Wide(x), c + Wide(y));
  }

  lemma TiledNone()
    ensures Tiled([])
  {
  }

  lemma TiledTestLayout(cs: Charset, c1: Code, c2: Code, emptyp2: bool)
    requires Tiled(c1) && Tiled(c2)
    ensures Tiled(TestLayout(cs, c1, c2, emptyp2))
  {
    hide Tiled;
    var jmp := if emptyp2 then [] else Wide(IJmp(2 + |c2|));
    if emptyp2 { TiledNone(); } else { TiledWide(IJmp(2 + |c2|)); }
    TiledCat(jmp, c2);
    TiledCat(c1, jmp + c2);
    TiledTest(cs, false, |c1| + |jmp|);
    TiledCat(CodeTestSet(cs, false, |c1| + |jmp|), c1 + (jmp + c2));
  }

  lemma TiledChoiceLayout(cs: Charset, e: bool, c1: Code, c2: Code)
    requires Tiled(c1) && Tiled(c2)
    ensures Tiled(ChoiceLayout(cs, e, c1, c2))
  {
    hide Tiled;
    TiledWide(ICommit(2 + |c2|)); TiledWide(IChoice(|c1| + 4));
    TiledCat(Wide(ICommit(2 + |c2|)), c2);
    TiledCat(c1, Wide(ICommit(2 + |c2|)) + c2);
    TiledCat(Wide(IChoice(|c1| + 4)), c1 + (Wide(ICommit(2 + |c2|)) + c2));
    TiledTest(cs, e, |c1| + 4);
    TiledCat(CodeTestSet(cs, e, |c1| + 4), Wide(IChoice(|c1| + 4)) + (c1 + (Wide(ICommit(2 + |c2|)) + c2)));
  }

  lemma TiledLoops(cs: Charset, e: bool, opt: bool, c: Code)
    requires Tiled(c)
    ensures Tiled(TestLoopLayout(cs, c))
    ensures Tiled(ChoiceLoopLayout(cs, e, opt, c))
  {
    hide Tiled, Wide, CodeTestSet;
    var jmp := IJmp(-(TestSize(cs, false) + |c|));
    TiledWide(jmp);
    TiledCat(c, Wide(jmp));
    TiledTest(cs, false, |c| + 2);
    TiledCat(CodeTestSet(cs, false, |c| + 2), c + Wide(jmp));
    var first := if opt then IPartialCommit(2) else IChoice(|c| + 4);
    TiledWrap(first, c, IPartialCommit(-|c|));
    TiledTest(cs, e, |c| + 4);
    TiledCat(CodeTestSet(cs, e, |c| + 4), Wide(first) + (c + Wide(IPartialCommit(-|c|))));
  }

  lemma TiledPredicates(cs: Charset, e: bool, headfail: bool, c: Code)
    requires Tiled(c)
    ensures Tiled(AndLayout(c))
    ensures Tiled(NotLayout(cs, e, headfail, c))
  {
    hide Tiled;
    TiledOne(IFail); TiledOne(IFailTwice);
    TiledWide(IBackCommit(3)); TiledWide(IChoice(|c| + 4)); TiledWide(IChoice(|c| + 3));
    TiledCat(Wide(IBackCommit(3)), [IFail]);
    TiledCat(c, Wide(IBackCommit(3)) + [IFail]);
    TiledCat(Wide(IChoice(|c| + 4)), c + (Wide(IBackCommit(3)) + [IFail]));
    TiledCat(c, [IFailTwice]);
    TiledCat(Wide(IChoice(|c| + 3)), c + [IFailTwice]);
    TiledTest(cs, e, 1);
    TiledTest(cs, e, |c| + 3);
    TiledCat(CodeTestSet(cs, e, 1), [IFail]);
    TiledCat(CodeTestSet(cs, e, |c| + 3), Wide(IChoice(|c| + 3)) + (c + [IFailTwice]));
  }

  lemma TiledSingles(c: Code, kind: nat, key: int, len: nat)
    requires Tiled(c)
    ensures Tiled(c + [IFullCapture(kind, key, len)])
    ensures Tiled([IOpenCapture(kind, key)] + (c + [ICloseCapture]))
    ensures Tiled(c + CodeBehind(len)) && Tiled(CodeBehind(len) + c)
    ensures Tiled(c + [IRet]) && Tiled(c + [IEnd])
  {
    hide Tiled;
    TiledOne(IFullCapture(kind, key, len)); TiledOne(IOpenCapture(kind, key));
    TiledOne(ICloseCapture); TiledOne(IRet); TiledOne(IEnd);
    TiledBehind(len);
    TiledCat(c, [IFullCapture(kind, key, len)]);
    TiledCat(c, [ICloseCapture]);
    TiledCat([IOpenCapture(kind, key)], c + [ICloseCapture]);
    TiledCat(c, CodeBehind(len));
    TiledCat(CodeBehind(len), c);
    TiledCat(c, [IRet]);
    TiledCat(c, [IEnd]);
  }

  /** Generated code is a sequence of whole instructions. */
  lemma {:induction false} GenTiled(g: seq<Tree>, a: nat, t: Tree, opt: bool, tt: Guard, fl: Charset)
    ensures Tiled(Gen(g, a, t, opt, tt, fl))
    decreases t
  {
    hide Tiled;
    hide GetFirst, HeadFail, HasCaptures, FixedLen, Nullable, NeedFollow;
    hide TestLayout, ChoiceLayout, TestLoopLayout, ChoiceLoopLayout, AndLayout, NotLayout, GrammarLayout;
    match t
    case Char(c) => TiledOne(IAny); TiledOne(IChar(c));
    case AnyChar => TiledOne(IAny);
    case Set(cs) =>
      TiledOne(IAny); TiledOne(IFail); TiledWide(ISet(cs));
      if CharsetType(cs).One? { TiledOne(IChar(CharsetType(cs).c)); }
    case True => TiledNil();
    case False => TiledOne(IFail);
    case Choice(p1, p2) =>
      var (e1, cs1) := GetFirst(g, p1, FULLSET, a);
      GenTiled(g, a, p2, opt, NoTest, fl);
      var c2 := Gen(g, a, p2, opt, NoTest, fl);
      if HeadFail(g, p1, a) || (!e1 && cs1 !! GetFirst(g, p2, fl, a).1) {
        GenTiled(g, a, p1, false, GuardOf(cs1, false), fl);
        TiledTestLayout(cs1, Gen(g, a, p1, false, GuardOf(cs1, false), fl), c2, p2.True?);
      } else if opt && p2.True? {
        GenTiled(g, a, p1, true, NoTest, FULLSET);
        TiledWide(IPartialCommit(2));
        TiledCat(Wide(IPartialCommit(2)), Gen(g, a, p1, true, NoTest, FULLSET));
      } else {
        GenTiled(g, a, p1, p2.True?, GuardOf(cs1, e1), FULLSET);
        TiledChoiceLayout(cs1, e1, Gen(g, a, p1, p2.True?, GuardOf(cs1, e1), FULLSET), c2);
      }
    case Rep(p) =>
      var (isSet, cs) := ToCharset(p);
      var (e1, st) := GetFirst(g, p, FULLSET, a);
      TiledWide(ISpan(cs));
      GenTiled(g, a, p, false, GuardOf(st, false), FULLSET);
      GenTiled(g, a, p, false, NoTest, FULLSET);
      TiledLoops(st, e1, opt, Gen(g, a, p, false, GuardOf(st, false), FULLSET));
      TiledLoops(st, e1, opt, Gen(g, a, p, false, NoTest, FULLSET));
    case Behind(n, p) =>
      GenTiled(g, a, p, false, NoTest, FULLSET);
      TiledSingles(Gen(g, a, p, false, NoTest, FULLSET), 0, 0, n);
    case Not(p) =>
      var (e, st) := GetFirst(g, p, FULLSET, a);
      GenTiled(g, a, p, false, NoTest, FULLSET);
      TiledPredicates(st, e, HeadFail(g, p, a), Gen(g, a, p, false, NoTest, FULLSET));
    case And(p) =>
      var c := Gen(g, a, p, false, tt, FULLSET);
      GenTiled(g, a, p, false, tt, FULLSET);
      TiledPredicates({}, false, false, c);
      if FixedLen(g, p, 0) >= 0 { TiledSingles(c, 0, 0, FixedLen(g, p, 0)); }
    case Capture(kind, key, p) =>
      var c := Gen(g, a, p, false, tt, fl);
      GenTiled(g, a, p, false, tt, fl);
      TiledSingles(c, kind, key, if FixedLen(g, p, 0) >= 0 then FixedLen(g, p, 0) else 0);
    case Grammar(rs) =>
      GenRulesTiled(rs, a, |rs|);
      GrammarTiled(GenRules(rs, a, |rs|), Positions(rs, a));
    case Call(k) => TiledWide(IOpenCall(k));
    case Seq(p1, p2) =>
      var fl1 := if NeedFollow(p1) then GetFirst(g, p2, fl, a).1 else FULLSET;
      var tt2 := if FixedLen(g, p1, 0) != 0 then NoTest else tt;
      GenTiled(g, a, p1, false, tt, fl1);
      GenTiled(g, a, p2, opt, tt2, fl);
      TiledCat(Gen(g, a, p1, false, tt, fl1), Gen(g, a, p2, opt, tt2, fl));
  }

  lemma {:induction false} GenRulesTiled(rs: seq<Tree>, a: nat, k: nat)
    requires k <= |rs|
    ensures Tiled(GenRules(rs, a, k))
    decreases rs, k
  {
    hide Tiled;
    TiledNil();
    if k > 0 {
      GenRulesTiled(rs, a, k - 1);
      GenTiled(rs, a, rs[k - 1], false, NoTest, FULLSET);
      TiledSingles(Gen(rs, a, rs[k - 1], false, NoTest, FULLSET), 0, 0, 0);
      TiledCat(GenRules(rs, a, k - 1), Gen(rs, a, rs[k - 1], false, NoTest, FULLSET) + [IRet]);
    }
  }

  ghost function Positions(rs: seq<Tree>, a: nat): (r: seq<int>)
    ensures |r| == |rs|
  {
    seq(|rs|, k requires 0 <= k < |rs| => RulePos(rs, a, k))
  }

  // ----- closing calls -----------------------------------------------------------------

  /** 'd' is 'c' with some open calls rewritten. */
  predicate OnlyCallsDiffer(c: Code, d: Code) {
    |c| == |d| && forall y :: 0 <= y < |c| && !c[y].IOpenCall? ==> d[y] == c[y]
  }

  /** A chain of jumps that ends in a return does not change when open calls are closed. */
  lemma ToRetStays(c: Code, d: Code, i: int)
    requires OnlyCallsDiffer(c, d) && ToRet(c, i)
    ensures ToRet(d, i)
  {
    var fuel: nat :| JumpsToRet(c, i, fuel);
    ChainStays(c, d, i, fuel);
  }

  lemma {:induction false} ChainStays(c: Code, d: Code, i: int, fuel: nat)
    requires OnlyCallsDiffer(c, d) && JumpsToRet(c, i, fuel)
    ensures JumpsToRet(d, i, fuel)
    decreases fuel
  {
    if c[i].IJmp? && fuel > 0 {
      ChainStays(c, d, i + c[i].offset, fuel - 1);
    }
  }

  /** What has become of the cells of 'c' in 'd': open calls of known rules are closed. They are jumps
      only before a return, and calls only where no return followed; a return that only comes to
      follow because a call behind it became a jump may be missed. */
  ghost predicate Closed(c: Code, d: Code, positions: seq<int>, from: nat) {
    && OnlyCallsDiffer(c, d)
    && forall y :: from <= y < |c| && c[y].IOpenCall? && c[y].rule < |positions| ==>
         || (d[y] == ICall(positions[c[y].rule] - y) && !ToRet(c, y + 2))
         || (d[y] == IJmp(positions[c[y].rule] - y) && ToRet(d, y + 2))
  }

  lemma {:induction false} CorrectCallsSpec(c: Code, positions: seq<int>, i: nat)
    requires i <= |c| && Tiled(c[i..])
    ensures Closed(c, CorrectCalls(c, positions, i, |c|), positions, i)
    ensures Tiled(CorrectCalls(c, positions, i, |c|)[i..])
    ensures CorrectCalls(c, positions, i, |c|)[..i] == c[..i]
    decreases |c| - i
  {
    hide Tiled, CorrectCall, ToRet, Closed, OnlyCallsDiffer, Size;
    ClosedRefl(c, positions);
    if i < |c| {
      TiledAt(c, i);
      var d := CorrectCall(c, positions, i);
      var k := Size(d[i]);
      assert d[i + k..] == c[i + k..];
      CorrectCallsSpec(d, positions, i + k);
      var r := CorrectCalls(d, positions, i + k, |d|);
      CorrectCallsStep(c, d, r, positions, i);
      TiledAt(r, i);
    }
  }

  lemma ClosedRefl(c: Code, positions: seq<int>)
    ensures Closed(c, c, positions, |c|)
  {
  }

  /** One step of CorrectCalls, given what the remaining steps do. */
  lemma CorrectCallsStep(c: Code, d: Code, r: Code, positions: seq<int>, i: nat)
    requires i < |c| && d == CorrectCall(c, positions, i)
    requires i + Size(c[i]) <= |c| && forall y :: i < y < i + Size(c[i]) ==> c[y] == Pad
    requires Closed(d, r, positions, i + Size(d[i])) && r[..i + Size(d[i])] == d[..i + Size(d[i])]
    ensures Closed(c, r, positions, i)
    ensures r[..i] == c[..i] && r[i] == d[i]
    ensures forall y :: i < y < i + Size(d[i]) ==> r[y] == Pad
  {
    hide ToRet;
    var k := Size(d[i]);
    assert |r| == |c|;
    forall y | 0 <= y < i + k ensures r[y] == d[y] {
      assert r[y] == r[..i + k][y] == d[..i + k][y];
    }
    assert OnlyCallsDiffer(c, r) by {
      forall y | 0 <= y < |c| && !c[y].IOpenCall? ensures r[y] == c[y] {
        assert d[y] == c[y];
      }
    }
    if d[i].IJmp? && c[i].IOpenCall? {
      ToRetStays(c, r, i + 2);
    }
    forall y | i + k <= y < |c| ensures d[y] == c[y] && (ToRet(c, y + 2) ==> ToRet(d, y + 2)) {
      if ToRet(c, y + 2) { ToRetStays(c, d, y + 2); }
    }
    assert r[..i] == c[..i];
  }

  lemma GrammarTiled(rulesCode: Code, positions: seq<int>)
    requires Tiled(rulesCode)
    ensures Tiled(GrammarLayout(rulesCode, positions))
  {
    hide Tiled, CorrectCalls;
    var x, y := Wide(ICall(4)), Wide(IJmp(2 + |rulesCode|));
    var code := x + (y + rulesCode);
    assert code[4..] == rulesCode;
    CorrectCallsSpec(code, positions, 4);
    var r := GrammarLayout(rulesCode, positions);
    assert r[..4] == code[..4] == x + y;
    TiledWide(ICall(4)); TiledWide(IJmp(2 + |rulesCode|));
    TiledCat(y, r[4..]);
    TiledCat(x, y + r[4..]);
    assert r == r[..4] + r[4..];
    assert (x + y) + r[4..] == x + (y + r[4..]);
  }
}

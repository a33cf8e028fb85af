/** The static analyses that the pattern compiler relies on, and what each guarantees.

    In the program these recursions follow rule calls without bound; here a budget 'n' goes
    down at each call and an exhausted budget gives the answer that promises least. The
    guarantees hold for every budget. Module Accept shows that for an accepted grammar the
    answers stop depending on the budget. */
module Analysis {
  import opened Peg

  const MAXRULES: nat := 1000

  datatype Pred = PEnullable | PEnofail

  /** How a pattern behaves on the empty string (PEnullable) or whether it never fails
      (PEnofail). */
  predicate CheckAux(g: seq<Tree>, t: Tree, pred: Pred, n: nat)
    decreases n, t
  {
    match t
    case Char(_) => false
    case Set(_) => false
    case AnyChar => false
    case False => false
    case Rep(_) => true
    case True => true
    case Not(_) => pred.PEnullable?
    case Behind(_, _) => pred.PEnullable?
    case And(p) => pred.PEnullable? || CheckAux(g, p, pred, n)
    case Seq(p1, p2) => CheckAux(g, p1, pred, n) && CheckAux(g, p2, pred, n)
    case Choice(p1, p2) => CheckAux(g, p2, pred, n) || CheckAux(g, p1, pred, n)
    case Capture(_, _, p) => CheckAux(g, p, pred, n)
    case Grammar(rs) => |rs| > 0 && CheckAux(rs, rs[0], pred, n)
    case Call(k) =>
      if k >= |g| then false
      else if n == 0 then pred.PEnullable?
      else CheckAux(g, g[k], pred, n - 1)
  }

  predicate Nullable(g: seq<Tree>, t: Tree, n: nat) {
    CheckAux(g, t, PEnullable, n)
  }

  predicate NoFail(g: seq<Tree>, t: Tree, n: nat) {
    CheckAux(g, t, PEnofail, n)
  }

  /** Number of characters that a pattern matches, or -1 when it may vary. 'count' is the
      number of calls already followed. */
  function FixedLen(g: seq<Tree>, t: Tree, count: nat): int
    requires count <= MAXRULES
    ensures FixedLen(g, t, count) >= -1
    decreases MAXRULES - count, t
  {
    match t
    case Char(_) => 1
    case Set(_) => 1
    case AnyChar => 1
    case False => 0
    case True => 0
    case Not(_) => 0
    case And(_) => 0
    case Behind(_, _) => 0
    case Rep(_) => -1
    case Capture(_, _, p) => FixedLen(g, p, count)
    case Grammar(rs) => if |rs| == 0 then -1 else FixedLen(rs, rs[0], count)
    case Call(k) =>
      if k >= |g| || count >= MAXRULES then -1 else FixedLen(g, g[k], count + 1)
    case Seq(p1, p2) =>
      var n1 := FixedLen(g, p1, count);
      if n1 < 0 then -1 else
      var n2 := FixedLen(g, p2, count);
      if n2 < 0 then -1 else n1 + n2
    case Choice(p1, p2) =>
      var n1 := FixedLen(g, p1, count);
      if n1 < 0 then -1 else
      if FixedLen(g, p2, count) == n1 then n1 else -1
  }

  /** A call leads to its rule and, through the rule list, to every later rule. */
  predicate HasCaptures(g: seq<Tree>, t: Tree, n: nat)
    decreases n, t
  {
    match t
    case Capture(_, _, _) => true
    case Rep(p) => HasCaptures(g, p, n)
    case Not(p) => HasCaptures(g, p, n)
    case And(p) => HasCaptures(g, p, n)
    case Behind(_, p) => HasCaptures(g, p, n)
    case Seq(p1, p2) => HasCaptures(g, p1, n) || HasCaptures(g, p2, n)
    case Choice(p1, p2) => HasCaptures(g, p1, n) || HasCaptures(g, p2, n)
    case Grammar(rs) => exists k | 0 <= k < |rs| :: HasCaptures(rs, rs[k], n)
    case Call(j) =>
      j < |g| && (n == 0 || exists k | j <= k < |g| :: HasCaptures(g, g[k], n - 1))
    case _ => false
  }

  /** The set of a 'char' pattern, if the tree is one. */
  function ToCharset(t: Tree): (r: (bool, Charset)) {
    match t
    case Set(cs) => (true, cs)
    case Char(c) => (true, {c})
    case AnyChar => (true, FULLSET)
    case _ => (false, {})
  }

  /** First set of a pattern followed by 'follow'. The flag is the program's non-zero return:
      the set may not be used in a test, because the pattern may accept the empty input. */
  function GetFirst(g: seq<Tree>, t: Tree, follow: Charset, n: nat): (r: (bool, Charset))
    decreases n, t
  {
    match t
    case Char(c) => (false, {c})
    case Set(cs) => (false, cs)
    case AnyChar => (false, FULLSET)
    case True => (true, follow)
    case False => (false, {})
    case Choice(p1, p2) =>
      var (e1, cs1) := GetFirst(g, p1, follow, n);
      var (e2, cs2) := GetFirst(g, p2, follow, n);
      (e1 || e2, cs1 + cs2)
    case Seq(p1, p2) =>
      if !Nullable(g, p1, n) then
        GetFirst(g, p1, FULLSET, n)
      else
        var (e2, cs2) := GetFirst(g, p2, follow, n);
        var (e1, cs1) := GetFirst(g, p1, cs2, n);
        (e1 && e2, cs1)
    case Rep(p) => (true, GetFirst(g, p, follow, n).1 + follow)
    case Capture(_, _, p) => GetFirst(g, p, follow, n)
    case Grammar(rs) => if |rs| == 0 then (false, {}) else GetFirst(rs, rs[0], follow, n)
    case Call(k) =>
      if k >= |g| then (false, {})
      else if n == 0 then (true, FULLSET)
      else GetFirst(g, g[k], follow, n - 1)
    case And(p) =>
      var (e, cs) := GetFirst(g, p, follow, n);
      (e, cs * follow)
    case Not(p) =>
      var (isSet, cs) := ToCharset(p);
      if isSet then (true, FULLSET - cs) else (true, follow)
    case Behind(_, _) => (true, follow)
  }

  /** True only if failure depends on nothing but the next character. */
  predicate HeadFail(g: seq<Tree>, t: Tree, n: nat)
    decreases n, t
  {
    match t
    case Char(_) => true
    case Set(_) => true
    case AnyChar => true
    case False => true
    case True => false
    case Rep(_) => false
    case Not(_) => false
    case Behind(_, _) => false
    case Capture(_, _, p) => HeadFail(g, p, n)
    case And(p) => HeadFail(g, p, n)
    case Grammar(rs) => |rs| > 0 && HeadFail(rs, rs[0], n)
    case Call(k) => k < |g| && n > 0 && HeadFail(g, g[k], n - 1)
    case Seq(p1, p2) => NoFail(g, p2, n) && HeadFail(g, p1, n)
    case Choice(p1, p2) => HeadFail(g, p1, n) && HeadFail(g, p2, n)
  }

  /** Whether code generation for the pattern looks at its follow set. */
  predicate NeedFollow(t: Tree) {
    match t
    case Choice(_, _) => true
    case Rep(_) => true
    case Capture(_, _, p) => NeedFollow(p)
    case Seq(_, p2) => NeedFollow(p2)
    case _ => false
  }

  // ----- nullable, nofail, fixedlen, hascaptures ---------------------------------------

  /** A pattern reported as not nullable consumes something whenever it matches. */
  lemma {:induction false} NullableSound(g: seq<Tree>, s: Subject, t: Tree, i: nat, n: nat, a: nat)
    requires i <= |s| && Eval(g, s, t, i, n).Matched?
    requires !Nullable(g, t, a)
    ensures Eval(g, s, t, i, n).end > i
    decreases n, t
  {
    match t
    case Seq(p1, p2) =>
      var j := Eval(g, s, p1, i, n).end;
      EndInRange(g, s, p1, i, n);
      EndInRange(g, s, p2, j, n);
      if !Nullable(g, p1, a) {
        NullableSound(g, s, p1, i, n, a);
      } else {
        NullableSound(g, s, p2, j, n, a);
      }
    case Choice(p1, p2) =>
      if Eval(g, s, p1, i, n).Matched? {
        NullableSound(g, s, p1, i, n, a);
      } else {
        NullableSound(g, s, p2, i, n, a);
      }
    case Capture(_, _, p) => NullableSound(g, s, p, i, n, a);
    case Grammar(rs) => NullableSound(rs, s, rs[0], i, n, a);
    case Call(k) => NullableSound(g, s, g[k], i, n - 1, a - 1);
    case _ =>
  }

  /** A pattern reported as nofail matches wherever its evaluation ends. */
  lemma {:induction false} NoFailSound(g: seq<Tree>, s: Subject, t: Tree, i: nat, n: nat, a: nat)
    requires NoFail(g, t, a)
    ensures !Eval(g, s, t, i, n).Failed?
    decreases n, t
  {
    match t
    case Rep(p) =>
      if n > 0 && Eval(g, s, p, i, n).Matched? {
        NoFailSound(g, s, t, Eval(g, s, p, i, n).end, n - 1, a);
      }
    case And(p) => NoFailSound(g, s, p, i, n, a);
    case Seq(p1, p2) =>
      NoFailSound(g, s, p1, i, n, a);
      if Eval(g, s, p1, i, n).Matched? {
        NoFailSound(g, s, p2, Eval(g, s, p1, i, n).end, n, a);
      }
    case Choice(p1, p2) =>
      if NoFail(g, p2, a) {
        NoFailSound(g, s, p2, i, n, a);
      } else {
        NoFailSound(g, s, p1, i, n, a);
      }
    case Capture(_, _, p) => NoFailSound(g, s, p, i, n, a);
    case Grammar(rs) => NoFailSound(rs, s, rs[0], i, n, a);
    case Call(k) => if n > 0 && a > 0 { NoFailSound(g, s, g[k], i, n - 1, a - 1); }
    case _ =>
  }

  /** A fixed length is the length of every match. */
  lemma {:induction false} FixedLenSound(g: seq<Tree>, s: Subject, t: Tree, i: nat, n: nat, count: nat)
    requires count <= MAXRULES && FixedLen(g, t, count) >= 0
    requires Eval(g, s, t, i, n).Matched?
    ensures Eval(g, s, t, i, n).end == i + FixedLen(g, t, count)
    decreases n, t
  {
    match t
    case Seq(p1, p2) =>
      FixedLenSound(g, s, p1, i, n, count);
      FixedLenSound(g, s, p2, Eval(g, s, p1, i, n).end, n, count);
    case Choice(p1, p2) =>
      if Eval(g, s, p1, i, n).Matched? {
        FixedLenSound(g, s, p1, i, n, count);
      } else {
        FixedLenSound(g, s, p2, i, n, count);
      }
    case Capture(_, _, p) => FixedLenSound(g, s, p, i, n, count);
    case Grammar(rs) => FixedLenSound(rs, s, rs[0], i, n, count);
    case Call(k) => FixedLenSound(g, s, g[k], i, n - 1, count + 1);
    case _ =>
  }

  /** Adding rules for open calls does not change a length that is already fixed. */
  lemma {:induction false} FixedLenClosed(g: seq<Tree>, t: Tree, count: nat)
    requires count <= MAXRULES && FixedLen([], t, count) >= 0
    ensures FixedLen(g, t, count) == FixedLen([], t, count)
    decreases t
  {
    match t
    case Seq(p1, p2) => FixedLenClosed(g, p1, count); FixedLenClosed(g, p2, count);
    case Choice(p1, p2) => FixedLenClosed(g, p1, count); FixedLenClosed(g, p2, count);
    case Capture(_, _, p) => FixedLenClosed(g, p, count);
    case _ =>
  }

  /** A pattern reported as free of captures produces none. */
  lemma {:induction false} NoCapturesSound(g: seq<Tree>, s: Subject, t: Tree, i: nat, n: nat, a: nat)
    requires !HasCaptures(g, t, a)
    requires Eval(g, s, t, i, n).Matched?
    ensures Eval(g, s, t, i, n).caps == []
    decreases n, t
  {
    match t
    case Rep(p) =>
      if Eval(g, s, p, i, n).Matched? {
        NoCapturesSound(g, s, p, i, n, a);
        NoCapturesSound(g, s, t, Eval(g, s, p, i, n).end, n - 1, a);
      }
    case Seq(p1, p2) =>
      NoCapturesSound(g, s, p1, i, n, a);
      NoCapturesSound(g, s, p2, Eval(g, s, p1, i, n).end, n, a);
    case Choice(p1, p2) =>
      if Eval(g, s, p1, i, n).Matched? {
        NoCapturesSound(g, s, p1, i, n, a);
      } else {
        NoCapturesSound(g, s, p2, i, n, a);
      }
    case Grammar(rs) => NoCapturesSound(rs, s, rs[0], i, n, a);
    case Call(k) => NoCapturesSound(g, s, g[k], i, n - 1, a - 1);
    case _ =>
  }

  // ----- first sets --------------------------------------------------------------------

  /** If the pattern matches before a character and either consumes something or stands
      before a character of 'follow', then that character is in the first set. */
  lemma {:induction false} FirstSound(g: seq<Tree>, s: Subject, t: Tree, i: nat, n: nat,
                                      follow: Charset, a: nat)
    requires i < |s| && Eval(g, s, t, i, n).Matched?
    requires Eval(g, s, t, i, n).end > i || s[i] in follow
    ensures s[i] in GetFirst(g, t, follow, a).1
    decreases n, t
  {
    match t
    case Choice(p1, p2) =>
      if Eval(g, s, p1, i, n).Matched? {
        FirstSound(g, s, p1, i, n, follow, a);
      } else {
        FirstSound(g, s, p2, i, n, follow, a);
      }
    case Seq(p1, p2) =>
      var j := Eval(g, s, p1, i, n).end;
      EndInRange(g, s, p1, i, n);
      if !Nullable(g, p1, a) {
        NullableSound(g, s, p1, i, n, a);
        FirstSound(g, s, p1, i, n, FULLSET, a);
      } else {
        if j == i { FirstSound(g, s, p2, i, n, follow, a); }
        FirstSound(g, s, p1, i, n, GetFirst(g, p2, follow, a).1, a);
      }
    case Rep(p) =>
      if s[i] !in follow {
        var j := Eval(g, s, p, i, n).end;
        EndInRange(g, s, p, i, n);
        if j == i {
          FirstSound(g, s, t, i, n - 1, follow, a);
        } else {
          FirstSound(g, s, p, i, n, follow, a);
        }
      }
    case Capture(_, _, p) => FirstSound(g, s, p, i, n, follow, a);
    case Grammar(rs) => FirstSound(rs, s, rs[0], i, n, follow, a);
    case Call(k) => if a > 0 { FirstSound(g, s, g[k], i, n - 1, follow, a - 1); }
    case And(p) =>
      FirstSound(g, s, p, i, n, follow, a);
    case Not(p) =>
      var (isSet, cs) := ToCharset(p);
    case _ =>
  }

  /** A first set that may be used in a test belongs to a pattern that cannot match at the
      end of the subject. */
  lemma {:induction false} FirstEmptySound(g: seq<Tree>, s: Subject, t: Tree, n: nat,
                                           follow: Charset, a: nat)
    requires !GetFirst(g, t, follow, a).0
    ensures !Eval(g, s, t, |s|, n).Matched?
    decreases n, t
  {
    match t
    case Choice(p1, p2) =>
      FirstEmptySound(g, s, p1, n, follow, a);
      FirstEmptySound(g, s, p2, n, follow, a);
    case Seq(p1, p2) =>
      if Eval(g, s, p1, |s|, n).Matched? { EndInRange(g, s, p1, |s|, n); }
      if !Nullable(g, p1, a) {
        FirstEmptySound(g, s, p1, n, FULLSET, a);
      } else if !GetFirst(g, p2, follow, a).0 {
        FirstEmptySound(g, s, p2, n, follow, a);
      } else {
        FirstEmptySound(g, s, p1, n, GetFirst(g, p2, follow, a).1, a);
      }
    case Capture(_, _, p) => FirstEmptySound(g, s, p, n, follow, a);
    case Grammar(rs) => if |rs| > 0 { FirstEmptySound(rs, s, rs[0], n, follow, a); }
    case Call(k) => if k < |g| && n > 0 && a > 0 { FirstEmptySound(g, s, g[k], n - 1, follow, a - 1); }
    case And(p) => FirstEmptySound(g, s, p, n, follow, a);
    case _ =>
  }

  /** What a test on the first set may conclude: if the test fails, the pattern does not
      match. */
  lemma TestSound(g: seq<Tree>, s: Subject, t: Tree, i: nat, n: nat, a: nat)
    requires i <= |s|
    requires !GetFirst(g, t, FULLSET, a).0
    requires !HeadIn(s, i, GetFirst(g, t, FULLSET, a).1)
    ensures !Eval(g, s, t, i, n).Matched?
  {
    if Eval(g, s, t, i, n).Matched? {
      if i == |s| {
        FirstEmptySound(g, s, t, n, FULLSET, a);
      } else {
        FirstSound(g, s, t, i, n, FULLSET, a);
      }
    }
  }

  // ----- headfail ----------------------------------------------------------------------

  /** A pattern that never fails can start with any character. */
  lemma {:induction false} NoFailFirst(g: seq<Tree>, t: Tree, a: nat)
    requires NoFail(g, t, a)
    ensures GetFirst(g, t, FULLSET, a).1 == FULLSET
    decreases a, t
  {
    NoFailNullable(g, t, a);
    match t
    case And(p) => NoFailFirst(g, p, a);
    case Seq(p1, p2) =>
      NoFailFirst(g, p1, a);
      NoFailFirst(g, p2, a);
    case Choice(p1, p2) =>
      if NoFail(g, p2, a) {
        NoFailFirst(g, p2, a);
      } else {
        NoFailFirst(g, p1, a);
      }
      InFull(GetFirst(g, t, FULLSET, a).1);
    case Rep(p) => InFull(GetFirst(g, t, FULLSET, a).1);
    case Capture(_, _, p) => NoFailFirst(g, p, a);
    case Grammar(rs) => NoFailFirst(rs, rs[0], a);
    case Call(k) => if a > 0 { NoFailFirst(g, g[k], a - 1); }
    case _ =>
  }

  lemma InFull(cs: Charset)
    ensures cs <= FULLSET
  {
  }

  lemma {:induction false} NoFailNullable(g: seq<Tree>, t: Tree, a: nat)
    requires NoFail(g, t, a)
    ensures Nullable(g, t, a)
    decreases a, t
  {
    match t
    case Seq(p1, p2) => NoFailNullable(g, p1, a); NoFailNullable(g, p2, a);
    case Choice(p1, p2) =>
      if NoFail(g, p2, a) {
        NoFailNullable(g, p2, a);
      } else {
        NoFailNullable(g, p1, a);
      }
    case Capture(_, _, p) => NoFailNullable(g, p, a);
    case Grammar(rs) => NoFailNullable(rs, rs[0], a);
    case Call(k) => if a > 0 { NoFailNullable(g, g[k], a - 1); }
    case _ =>
  }

  /** A headfail pattern has a first set fit for a test, and matches exactly when the next
      character is in it. */
  lemma {:induction false} HeadFailExact(g: seq<Tree>, s: Subject, t: Tree, i: nat, n: nat, a: nat)
    requires i <= |s| && HeadFail(g, t, a)
    ensures !GetFirst(g, t, FULLSET, a).0
    ensures !Eval(g, s, t, i, n).Timeout? ==>
              (Eval(g, s, t, i, n).Matched? <==> HeadIn(s, i, GetFirst(g, t, FULLSET, a).1))
    decreases a, t
  {
    match t
    case Capture(_, _, p) => HeadFailExact(g, s, p, i, n, a);
    case And(p) =>
      HeadFailExact(g, s, p, i, n, a);
      InFull(GetFirst(g, p, FULLSET, a).1);
    case Grammar(rs) => HeadFailExact(rs, s, rs[0], i, n, a);
    case Call(k) => HeadFailExact(g, s, g[k], i, if n > 0 then n - 1 else n, a - 1);
    case Seq(p1, p2) =>
      HeadFailExact(g, s, p1, i, n, a);
      NoFailFirst(g, p2, a);
      if Eval(g, s, p1, i, n).Matched? {
        NoFailSound(g, s, p2, Eval(g, s, p1, i, n).end, n, a);
      }
    case Choice(p1, p2) =>
      HeadFailExact(g, s, p1, i, n, a);
      HeadFailExact(g, s, p2, i, n, a);
    case _ =>
  }

  // ----- well-formed trees -------------------------------------------------------------

  /** What the constructors of patterns guarantee: calls name rules of their grammar, a
      grammar has a rule, captures have a proper kind, and the body of a look-behind has the
      recorded length, at most a byte, and no captures (both judged before its open calls are
      resolved, hence the empty grammar). */
  ghost predicate Wf(g: seq<Tree>, t: Tree)
    decreases t
  {
    match t
    case Rep(p) => Wf(g, p)
    case Not(p) => Wf(g, p)
    case And(p) => Wf(g, p)
    case Seq(p1, p2) => Wf(g, p1) && Wf(g, p2)
    case Choice(p1, p2) => Wf(g, p1) && Wf(g, p2)
    case Call(k) => k < |g|
    case Grammar(rs) => |rs| > 0 && forall k :: 0 <= k < |rs| ==> Wf(rs, rs[k])
    case Behind(m, p) => Wf(g, p) && BehindOk(m, p)
    case Capture(kind, _, p) => 0 < kind < 16 && Wf(g, p)
    case _ => true
  }

  ghost predicate BehindOk(m: nat, p: Tree) {
    FixedLen([], p, 0) == m && m <= 255 && exists b: nat :: !HasCaptures([], p, b)
  }

  ghost predicate WfRules(g: seq<Tree>) {
    forall k :: 0 <= k < |g| ==> Wf(g, g[k])
  }

  /** The body of a look-behind has no captures in any grammar. */
  lemma {:induction false} BehindNoCaptures(g: seq<Tree>, s: Subject, t: Tree, i: nat, n: nat, b: nat)
    requires FixedLen([], t, 0) >= 0 && !HasCaptures([], t, b)
    requires Eval(g, s, t, i, n).Matched?
    ensures Eval(g, s, t, i, n).caps == []
    decreases t
  {
    hide FixedLen, HasCaptures;
    BehindParts(t, b);
    match t
    case Seq(p1, p2) =>
      BehindNoCaptures(g, s, p1, i, n, b);
      BehindNoCaptures(g, s, p2, Eval(g, s, p1, i, n).end, n, b);
    case Choice(p1, p2) =>
      if Eval(g, s, p1, i, n).Matched? {
        BehindNoCaptures(g, s, p1, i, n, b);
      } else {
        BehindNoCaptures(g, s, p2, i, n, b);
      }
    case Grammar(rs) => NoCapturesSound(rs, s, rs[0], i, n, b);
    case _ =>
  }

  /** Patterns of fixed length have no repetitions and no calls without their grammar. */
  lemma BehindParts(t: Tree, b: nat)
    requires FixedLen([], t, 0) >= 0 && !HasCaptures([], t, b)
    ensures !t.Rep? && !t.Capture? && !t.Call?
    ensures t.Seq? || t.Choice? ==> FixedLen([], t.p1, 0) >= 0 && FixedLen([], t.p2, 0) >= 0
    ensures t.Seq? || t.Choice? ==> !HasCaptures([], t.p1, b) && !HasCaptures([], t.p2, b)
    ensures t.Grammar? ==> |t.rules| > 0 && !HasCaptures(t.rules, t.rules[0], b)
  {
  }

  /** A well-formed look-behind succeeds exactly where its body matches the characters just
      before the position. */
  lemma BehindExact(g: seq<Tree>, s: Subject, m: nat, p: Tree, i: nat, n: nat)
    requires BehindOk(m, p) && m <= i
    requires Eval(g, s, p, i - m, n).Matched?
    ensures Eval(g, s, p, i - m, n) == Matched(i, [])
    ensures Eval(g, s, Behind(m, p), i, n) == Matched(i, [])
  {
    hide FixedLen, HasCaptures, Eval;
    FixedLenClosed(g, p, 0);
    FixedLenSound(g, s, p, i - m, n, 0);
    var b: nat :| !HasCaptures([], p, b);
    BehindNoCaptures(g, s, p, i - m, n, b);
    BehindMatches(g, s, m, p, i, n);
  }

  lemma BehindMatches(g: seq<Tree>, s: Subject, m: nat, p: Tree, i: nat, n: nat)
    requires m <= i && Eval(g, s, p, i - m, n) == Matched(i, [])
    ensures Eval(g, s, Behind(m, p), i, n) == Matched(i, [])
  {
  }
}

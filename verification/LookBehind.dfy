/** What a look-behind may have as its body: patterns of one length, at most 255, without captures. */
module LookBehind {
  import opened Peg
  import opened Analysis
  import opened Acceptance

  /** No calls and no grammars. */
  predicate Plain(t: Tree) {
    match t
    case Call(_) => false
    case Grammar(_) => false
    case Rep(p) => Plain(p)
    case Not(p) => Plain(p)
    case And(p) => Plain(p)
    case Behind(_, p) => Plain(p)
    case Capture(_, _, p) => Plain(p)
    case Seq(p1, p2) => Plain(p1) && Plain(p2)
    case Choice(p1, p2) => Plain(p1) && Plain(p2)
    case _ => true
  }

  /** The pattern may take 'm' characters, as its form goes. False counts as taking none, as the
      program counts it. */
  ghost predicate Takes(t: Tree, m: nat)
    decreases t, m
  {
    match t
    case Char(_) => m == 1
    case Set(_) => m == 1
    case AnyChar => m == 1
    case Rep(p) => m == 0 || exists k: nat :: 0 < k <= m && Takes(p, k) && Takes(t, m - k)
    case Seq(p1, p2) => exists k: nat :: k <= m && Takes(p1, k) && Takes(p2, m - k)
    case Choice(p1, p2) => Takes(p1, m) || Takes(p2, m)
    case Capture(_, _, p) => Takes(p, m)
    case _ => m == 0
  }

  /** It takes this many characters in every way. */
  ghost predicate AlwaysTakes(t: Tree, n: nat) {
    forall m: nat :: Takes(t, m) <==> m == n
  }

  lemma {:induction false} SomeLength(t: Tree) returns (m: nat)
    ensures Takes(t, m)
    decreases t
  {
    match t
    case Char(_) => m := 1;
    case Set(_) => m := 1;
    case AnyChar => m := 1;
    case Seq(p1, p2) =>
      var k := SomeLength(p1);
      var l := SomeLength(p2);
      m := k + l;
      assert Takes(p2, m - k);
    case Choice(p1, p2) => m := SomeLength(p1);
    case Capture(_, _, p) => m := SomeLength(p);
    case _ => m := 0;
  }

  /** A fixed length is the only one. */
  lemma {:induction false} FixedTakes(t: Tree, n: nat)
    requires Plain(t) && FixedLen([], t, 0) == n
    ensures AlwaysTakes(t, n)
    decreases t
  {
    match t
    case Seq(p1, p2) =>
      var n1, n2 := FixedLen([], p1, 0), FixedLen([], p2, 0);
      FixedTakes(p1, n1);
      FixedTakes(p2, n2);
      forall m: nat ensures Takes(t, m) <==> m == n {
        if m == n { assert Takes(p1, n1) && Takes(p2, m - n1); }
      }
    case Choice(p1, p2) => FixedTakes(p1, n); FixedTakes(p2, n);
    case Capture(_, _, p) => FixedTakes(p, n);
    case _ =>
  }

  /** Something that is not empty takes at least one character. */
  lemma {:induction false} TakesNothing(t: Tree)
    requires Plain(t) && Takes(t, 0)
    ensures t.False? || MayBeEmpty([], t) || HasFalse(t)
    decreases t
  {
    hide MayBeEmpty;
    EmptyParts([], t);
    match t
    case Seq(p1, p2) => TakesNothing(p1); TakesNothing(p2);
    case Choice(p1, p2) => if Takes(p1, 0) { TakesNothing(p1); } else { TakesNothing(p2); }
    case Capture(_, _, p) => TakesNothing(p);
    case _ =>
  }

  predicate HasFalse(t: Tree) {
    match t
    case False => true
    case Seq(p1, p2) => HasFalse(p1) || HasFalse(p2)
    case Choice(p1, p2) => HasFalse(p1) || HasFalse(p2)
    case Capture(_, _, p) => HasFalse(p)
    case Rep(p) => HasFalse(p)
    case _ => false
  }

  /** Without a fixed length there are two. */
  lemma {:induction false} TwoLengths(t: Tree) returns (m: nat, n: nat)
    requires Plain(t) && FixedLen([], t, 0) < 0 && !EmptyLoop([], t) && !HasFalse(t)
    ensures m != n && Takes(t, m) && Takes(t, n)
    decreases t
  {
    hide MayBeEmpty, EmptyLoop;
    LoopParts([], t);
    match t
    case Rep(p) =>
      m := 0;
      n := SomeLength(p);
      if n == 0 { TakesNothing(p); }
      assert Takes(p, n) && Takes(t, n - n);
    case Seq(p1, p2) =>
      if FixedLen([], p1, 0) < 0 {
        var k, l := TwoLengths(p1);
        var j := SomeLength(p2);
        m, n := k + j, l + j;
        assert Takes(p2, m - k) && Takes(p2, n - l);
      } else {
        var j := SomeLength(p1);
        var k, l := TwoLengths(p2);
        m, n := j + k, j + l;
        assert Takes(p2, m - j) && Takes(p2, n - j);
      }
    case Choice(p1, p2) =>
      if FixedLen([], p1, 0) < 0 {
        m, n := TwoLengths(p1);
      } else if FixedLen([], p2, 0) < 0 {
        m, n := TwoLengths(p2);
      } else {
        m, n := FixedLen([], p1, 0), FixedLen([], p2, 0);
        FixedTakes(p1, m);
        FixedTakes(p2, n);
      }
    case Capture(_, _, p) => m, n := TwoLengths(p);
  }

  /** Some part of the tree is a capture. */
  ghost predicate HasCapture(t: Tree) {
    exists kind, key, p :: Contains(t, Capture(kind, key, p))
  }

  lemma {:induction false} CapturesExact(t: Tree, n: nat)
    requires Plain(t)
    ensures HasCaptures([], t, n) <==> HasCapture(t)
    decreases t
  {
    match t
    case Rep(p) => CapturesExact(p, n); HasCaptureUp(t, p);
    case Not(p) => CapturesExact(p, n); HasCaptureUp(t, p);
    case And(p) => CapturesExact(p, n); HasCaptureUp(t, p);
    case Behind(_, p) => CapturesExact(p, n); HasCaptureUp(t, p);
    case Capture(kind, key, p) => assert Contains(t, Capture(kind, key, p));
    case Seq(p1, p2) => CapturesExact(p1, n); CapturesExact(p2, n); HasCaptureUp(t, p1); HasCaptureUp(t, p2);
    case Choice(p1, p2) => CapturesExact(p1, n); CapturesExact(p2, n); HasCaptureUp(t, p1); HasCaptureUp(t, p2);
    case _ =>
  }

  lemma HasCaptureUp(t: Tree, p: Tree)
    requires ((t.Rep? || t.Not? || t.And? || t.Behind?) && p == t.body)
             || ((t.Seq? || t.Choice?) && (p == t.p1 || p == t.p2))
    ensures HasCapture(p) ==> HasCapture(t)
  {
    if HasCapture(p) {
      var kind, key, q :| Contains(p, Capture(kind, key, q));
      assert Contains(t, Capture(kind, key, q));
    }
  }

  /** A plain pattern can be looked back at, over 'n' characters, exactly if it takes that many in every
      way, there are at most 255, and nothing in it is a capture. */
  lemma BehindExactly(n: nat, t: Tree)
    requires Plain(t) && !EmptyLoop([], t) && !HasFalse(t)
    ensures BehindOk(n, t) <==> AlwaysTakes(t, n) && n <= 255 && !HasCapture(t)
  {
    hide Takes, EmptyLoop, HasCapture, HasCaptures, FixedLen;
    forall b: nat ensures HasCaptures([], t, b) <==> HasCapture(t) { CapturesExact(t, b); }
    assert (exists b: nat :: !HasCaptures([], t, b)) <==> !HasCapture(t) by {
      if !HasCapture(t) { assert !HasCaptures([], t, 0); }
    }
    var len := FixedLen([], t, 0);
    if len >= 0 {
      FixedTakes(t, len);
      if AlwaysTakes(t, n) { assert Takes(t, n); }
    } else {
      var k, l := TwoLengths(t);
    }
  }
}

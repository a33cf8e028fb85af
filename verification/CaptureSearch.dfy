/** The search for captures, which follows calls without a bound: when it ends, and when the searches
    that the generator makes end. */
module CaptureSearch {
  import opened Peg
  import opened Analysis
  import opened Accept
  import CodeGen

  datatype Answer = NoAnswer | Found | None

  function Then(first: Answer, second: Answer): Answer {
    if first.None? then second else first
  }

  /** The search in the order of the program; it may follow at most 'n' calls. A call goes on with its
      rule and, through the rule list, with every later rule. */
  function Search(g: seq<Tree>, t: Tree, n: nat): Answer
    decreases n, t, 0
  {
    match t
    case Capture(_, _, _) => Found
    case Rep(p) => Search(g, p, n)
    case Not(p) => Search(g, p, n)
    case And(p) => Search(g, p, n)
    case Behind(_, p) => Search(g, p, n)
    case Seq(p1, p2) => Then(Search(g, p1, n), Search(g, p2, n))
    case Choice(p1, p2) => Then(Search(g, p1, n), Search(g, p2, n))
    case Grammar(rs) => SearchRules(rs, 0, n)
    case Call(j) => if j >= |g| then None else if n == 0 then NoAnswer else SearchRules(g, j, n - 1)
    case _ => None
  }

  function SearchRules(g: seq<Tree>, k: nat, n: nat): Answer
    decreases n, g, |g| - k
  {
    if k >= |g| then None else Then(Search(g, g[k], n), SearchRules(g, k + 1, n))
  }

  /** A scan that remembers which rules it is following, and gives up when it would enter one again. */
  function Scan(g: seq<Tree>, t: Tree, seen: set<nat>): Answer
    decreases Height(g, t), Left(g, seen), t, 0
  {
    match t
    case Capture(_, _, _) => Found
    case Rep(p) => Scan(g, p, seen)
    case Not(p) => Scan(g, p, seen)
    case And(p) => Scan(g, p, seen)
    case Behind(_, p) => Scan(g, p, seen)
    case Seq(p1, p2) => Then(Scan(g, p1, seen), Scan(g, p2, seen))
    case Choice(p1, p2) => Then(Scan(g, p1, seen), Scan(g, p2, seen))
    case Grammar(rs) => ScanRules(rs, 0, {})
    case Call(j) =>
      if j >= |g| then None else if j in seen then NoAnswer else
      LeftLess(g, seen, j);
      ScanRules(g, j, seen + {j})
    case _ => None
  }

  function ScanRules(g: seq<Tree>, k: nat, seen: set<nat>): Answer
    decreases DepthOf(g), Left(g, seen), g, |g| - k
  {
    if k >= |g| then None else
    DepthRule(g, k);
    Then(Scan(g, g[k], seen), ScanRules(g, k + 1, seen))
  }

  function Max(a: nat, b: nat): nat {
    if a > b then a else b
  }

  function Height(g: seq<Tree>, t: Tree): nat {
    Max(DepthOf(g), Depth(t))
  }

  /** How many rules are not being followed. */
  function Left(g: seq<Tree>, seen: set<nat>): (r: nat)
    ensures r <= |g|
  {
    |Below(|g|) - seen|
  }

  lemma LeftLess(g: seq<Tree>, seen: set<nat>, j: nat)
    requires j < |g| && j !in seen
    ensures Left(g, seen + {j}) == Left(g, seen) - 1
  {
    assert Below(|g|) - seen == (Below(|g|) - (seen + {j})) + {j};
  }

  /** How many calls the search of a tree can follow in the grammars inside it. */
  function Room(t: Tree): nat
    decreases t, 0
  {
    match t
    case Grammar(rs) => |rs| + RoomOf(rs)
    case Rep(p) => Room(p)
    case Not(p) => Room(p)
    case And(p) => Room(p)
    case Behind(_, p) => Room(p)
    case Capture(_, _, p) => Room(p)
    case Seq(p1, p2) => Max(Room(p1), Room(p2))
    case Choice(p1, p2) => Max(Room(p1), Room(p2))
    case _ => 0
  }

  function RoomOf(rs: seq<Tree>): nat
    decreases rs, 1
  {
    if rs == [] then 0 else Max(Room(rs[0]), RoomOf(rs[1..]))
  }

  lemma {:induction false} RoomRule(rs: seq<Tree>, k: nat)
    requires k < |rs|
    ensures Room(rs[k]) <= RoomOf(rs)
    decreases |rs|
  {
    if k > 0 {
      RoomRule(rs[1..], k - 1);
      assert rs[1..][k - 1] == rs[k];
    }
  }

  lemma UnfoldSearch(g: seq<Tree>, t: Tree, n: nat)
    ensures t.Capture? ==> Search(g, t, n) == Found
    ensures t.Rep? || t.Not? || t.And? || t.Behind? ==> Search(g, t, n) == Search(g, t.body, n)
    ensures t.Seq? || t.Choice? ==> Search(g, t, n) == Then(Search(g, t.p1, n), Search(g, t.p2, n))
    ensures t.Grammar? ==> Search(g, t, n) == SearchRules(t.rules, 0, n)
    ensures t.Call? ==>
              Search(g, t, n) ==
                if t.rule >= |g| then None else if n == 0 then NoAnswer else SearchRules(g, t.rule, n - 1)
    ensures t.Char? || t.Set? || t.AnyChar? || t.True? || t.False? ==> Search(g, t, n) == None
  {
  }

  lemma UnfoldScan(g: seq<Tree>, t: Tree, seen: set<nat>)
    ensures t.Capture? ==> Scan(g, t, seen) == Found
    ensures t.Rep? || t.Not? || t.And? || t.Behind? ==> Scan(g, t, seen) == Scan(g, t.body, seen)
    ensures t.Seq? || t.Choice? ==> Scan(g, t, seen) == Then(Scan(g, t.p1, seen), Scan(g, t.p2, seen))
    ensures t.Grammar? ==> Scan(g, t, seen) == ScanRules(t.rules, 0, {})
    ensures t.Call? ==>
              Scan(g, t, seen) ==
                if t.rule >= |g| then None else if t.rule in seen then NoAnswer
                else ScanRules(g, t.rule, seen + {t.rule})
    ensures t.Char? || t.Set? || t.AnyChar? || t.True? || t.False? ==> Scan(g, t, seen) == None
  {
    hide Height, Left;
    if t.Call? && t.rule < |g| && t.rule !in seen { LeftLess(g, seen, t.rule); }
  }

  lemma UnfoldHeight(g: seq<Tree>, t: Tree)
    ensures t.Rep? || t.Not? || t.And? || t.Behind? || t.Capture? ==>
              Height(g, t.body) == Height(g, t) && Room(t.body) == Room(t)
    ensures t.Seq? || t.Choice? ==>
              && Height(g, t.p1) <= Height(g, t) && Height(g, t.p2) <= Height(g, t)
              && Room(t.p1) <= Room(t) && Room(t.p2) <= Room(t)
    ensures t.Grammar? ==> DepthOf(t.rules) < Height(g, t) && Room(t) == |t.rules| + RoomOf(t.rules)
    ensures DepthOf(g) <= Height(g, t)
  {
  }

  // ----- when the search ends --------------------------------------------------------------

  /** More calls do not change an answer. */
  lemma {:induction false} SameAnswer(g: seq<Tree>, t: Tree, n: nat, m: nat)
    requires n <= m && !Search(g, t, n).NoAnswer?
    ensures Search(g, t, m) == Search(g, t, n)
    decreases n, t, 0
  {
    match t
    case Rep(p) => SameAnswer(g, p, n, m);
    case Not(p) => SameAnswer(g, p, n, m);
    case And(p) => SameAnswer(g, p, n, m);
    case Behind(_, p) => SameAnswer(g, p, n, m);
    case Seq(p1, p2) => SameAnswer(g, p1, n, m); if Search(g, p1, n).None? { SameAnswer(g, p2, n, m); }
    case Choice(p1, p2) => SameAnswer(g, p1, n, m); if Search(g, p1, n).None? { SameAnswer(g, p2, n, m); }
    case Grammar(rs) => SameRules(rs, 0, n, m);
    case Call(j) => if j < |g| { SameRules(g, j, n - 1, m - 1); }
    case _ =>
  }

  lemma {:induction false} SameRules(g: seq<Tree>, k: nat, n: nat, m: nat)
    requires n <= m && !SearchRules(g, k, n).NoAnswer?
    ensures SearchRules(g, k, m) == SearchRules(g, k, n)
    decreases n, g, |g| - k
  {
    if k < |g| {
      SameAnswer(g, g[k], n, m);
      if Search(g, g[k], n).None? { SameRules(g, k + 1, n, m); }
    }
  }

  /** If the scan has an answer, the search finds it. */
  lemma {:induction false} ScanFound(g: seq<Tree>, t: Tree, seen: set<nat>, n: nat)
    requires !Scan(g, t, seen).NoAnswer? && n >= Left(g, seen) + Max(RoomOf(g), Room(t))
    ensures Search(g, t, n) == Scan(g, t, seen)
    decreases Height(g, t), Left(g, seen), t, 0
  {
    hide Search, Scan, Height, Room, Left;
    UnfoldSearch(g, t, n);
    UnfoldScan(g, t, seen);
    UnfoldHeight(g, t);
    match t
    case Rep(p) => ScanFound(g, p, seen, n);
    case Not(p) => ScanFound(g, p, seen, n);
    case And(p) => ScanFound(g, p, seen, n);
    case Behind(_, p) => ScanFound(g, p, seen, n);
    case Seq(p1, p2) => ScanFound(g, p1, seen, n); if Scan(g, p1, seen).None? { ScanFound(g, p2, seen, n); }
    case Choice(p1, p2) => ScanFound(g, p1, seen, n); if Scan(g, p1, seen).None? { ScanFound(g, p2, seen, n); }
    case Grammar(rs) => ScanRulesFound(rs, 0, {}, n);
    case Call(j) => if j < |g| { LeftLess(g, seen, j); ScanRulesFound(g, j, seen + {j}, n - 1); }
    case _ =>
  }

  lemma {:induction false} ScanRulesFound(g: seq<Tree>, k: nat, seen: set<nat>, n: nat)
    requires !ScanRules(g, k, seen).NoAnswer? && n >= Left(g, seen) + RoomOf(g)
    ensures SearchRules(g, k, n) == ScanRules(g, k, seen)
    decreases DepthOf(g), Left(g, seen), g, |g| - k
  {
    if k < |g| {
      DepthRule(g, k);
      RoomRule(g, k);
      ScanFound(g, g[k], seen, n);
      if Scan(g, g[k], seen).None? { ScanRulesFound(g, k + 1, seen, n); }
    }
  }

  /** The rules being followed have no answer after fewer than 'n' calls. */
  ghost predicate Following(g: seq<Tree>, seen: set<nat>, n: nat) {
    forall j :: j in seen && n > 0 ==> SearchRules(g, j, n - 1).NoAnswer?
  }

  lemma FollowingFewer(g: seq<Tree>, seen: set<nat>, n: nat, m: nat)
    requires m <= n && Following(g, seen, n)
    ensures Following(g, seen, m)
  {
    forall j | j in seen && m > 0 ensures SearchRules(g, j, m - 1).NoAnswer? {
      if !SearchRules(g, j, m - 1).NoAnswer? { SameRules(g, j, m - 1, n - 1); }
    }
  }

  /** If the scan meets a rule again, the search has no answer after any number of calls. */
  lemma {:induction false} ScanStuck(g: seq<Tree>, t: Tree, seen: set<nat>, n: nat)
    requires Scan(g, t, seen).NoAnswer? && Following(g, seen, n)
    ensures Search(g, t, n).NoAnswer?
    decreases Height(g, t), Left(g, seen), 1, t, 1
  {
    hide Search, Scan, Height, Room, Left;
    UnfoldSearch(g, t, n);
    UnfoldScan(g, t, seen);
    UnfoldHeight(g, t);
    match t
    case Rep(p) => ScanStuck(g, p, seen, n);
    case Not(p) => ScanStuck(g, p, seen, n);
    case And(p) => ScanStuck(g, p, seen, n);
    case Behind(_, p) => ScanStuck(g, p, seen, n);
    case Seq(p1, p2) => PairStuck(g, t, seen, n);
    case Choice(p1, p2) => PairStuck(g, t, seen, n);
    case Grammar(rs) => RulesStuck(rs, 0, {}, n);
    case Call(j) =>
      if n > 0 && j !in seen {
        FollowingFewer(g, seen, n, n - 1);
        EntryStuck(g, j, seen, n - 1);
      }
    case _ =>
  }

  lemma {:induction false} PairStuck(g: seq<Tree>, t: Tree, seen: set<nat>, n: nat)
    requires (t.Seq? || t.Choice?) && Scan(g, t, seen).NoAnswer? && Following(g, seen, n)
    ensures Search(g, t, n).NoAnswer?
    decreases Height(g, t), Left(g, seen), 1, t, 0
  {
    hide Search, Scan, Height, Room, Left;
    UnfoldSearch(g, t, n);
    UnfoldScan(g, t, seen);
    UnfoldHeight(g, t);
    if Scan(g, t.p1, seen).NoAnswer? {
      ScanStuck(g, t.p1, seen, n);
    } else {
      Agrees(g, t.p1, seen, n);
      ScanStuck(g, t.p2, seen, n);
    }
  }

  /** Two answers are the same. */
  lemma Agrees(g: seq<Tree>, t: Tree, seen: set<nat>, n: nat)
    requires !Scan(g, t, seen).NoAnswer?
    ensures Search(g, t, n).NoAnswer? || Search(g, t, n) == Scan(g, t, seen)
  {
    var m := n + Left(g, seen) + Max(RoomOf(g), Room(t));
    ScanFound(g, t, seen, m);
    if !Search(g, t, n).NoAnswer? { SameAnswer(g, t, n, m); }
  }

  /** Entering a rule that is not yet being followed. */
  lemma {:induction false} EntryStuck(g: seq<Tree>, j: nat, seen: set<nat>, n: nat)
    requires j < |g| && j !in seen && ScanRules(g, j, seen + {j}).NoAnswer? && Following(g, seen, n)
    ensures SearchRules(g, j, n).NoAnswer?
    decreases DepthOf(g), Left(g, seen), 0, n, 0
  {
    if n > 0 {
      FollowingFewer(g, seen, n, n - 1);
      EntryStuck(g, j, seen, n - 1);
    }
    LeftLess(g, seen, j);
    RulesStuck(g, j, seen + {j}, n);
  }

  lemma {:induction false} RulesStuck(g: seq<Tree>, k: nat, seen: set<nat>, n: nat)
    requires ScanRules(g, k, seen).NoAnswer? && Following(g, seen, n)
    ensures SearchRules(g, k, n).NoAnswer?
    decreases DepthOf(g), Left(g, seen), 1, g, |g| - k
  {
    DepthRule(g, k);
    if Scan(g, g[k], seen).NoAnswer? {
      ScanStuck(g, g[k], seen, n);
    } else {
      Agrees(g, g[k], seen, n);
      RulesStuck(g, k + 1, seen, n);
    }
  }

  /** The search ends if and only if the scan, which never enters a rule that it is following, comes to
      a capture or to the end; and then both have the same answer. */
  lemma SearchExact(g: seq<Tree>, t: Tree, n: nat)
    ensures Search(g, t, n).NoAnswer? || Search(g, t, n) == Scan(g, t, {})
    ensures n >= |g| + Max(RoomOf(g), Room(t)) ==> Search(g, t, n) == Scan(g, t, {})
  {
    if Scan(g, t, {}).NoAnswer? {
      ScanStuck(g, t, {}, n);
    } else {
      Agrees(g, t, {}, n);
      if n >= |g| + Max(RoomOf(g), Room(t)) { ScanFound(g, t, {}, n); }
    }
  }

  lemma SearchEnds(g: seq<Tree>, t: Tree)
    ensures (exists n: nat :: !Search(g, t, n).NoAnswer?) <==> !Scan(g, t, {}).NoAnswer?
  {
    var m := |g| + Max(RoomOf(g), Room(t));
    SearchExact(g, t, m);
    forall n: nat | !Search(g, t, n).NoAnswer? ensures !Scan(g, t, {}).NoAnswer? { SearchExact(g, t, n); }
  }

  // ----- what the generator makes of it ------------------------------------------------------

  /** The generator takes a pattern to have captures unless the search says that there are none. */
  lemma {:induction false} SearchAnswers(g: seq<Tree>, t: Tree, n: nat)
    ensures HasCaptures(g, t, n) <==> !Search(g, t, n).None?
    decreases n, t, 0
  {
    match t
    case Rep(p) => SearchAnswers(g, p, n);
    case Not(p) => SearchAnswers(g, p, n);
    case And(p) => SearchAnswers(g, p, n);
    case Behind(_, p) => SearchAnswers(g, p, n);
    case Seq(p1, p2) => SearchAnswers(g, p1, n); SearchAnswers(g, p2, n);
    case Choice(p1, p2) => SearchAnswers(g, p1, n); SearchAnswers(g, p2, n);
    case Grammar(rs) => RulesAnswer(rs, 0, n);
    case Call(j) => if j < |g| && n > 0 { RulesAnswer(g, j, n - 1); }
    case _ =>
  }

  lemma {:induction false} RulesAnswer(g: seq<Tree>, k: nat, n: nat)
    ensures (exists j | k <= j < |g| :: HasCaptures(g, g[j], n)) <==> !SearchRules(g, k, n).None?
    decreases n, g, |g| - k
  {
    if k < |g| {
      SearchAnswers(g, g[k], n);
      RulesAnswer(g, k + 1, n);
    }
  }

  /** Whether the generator, at a predicate or a capture of this length, searches its body. */
  predicate Asked(g: seq<Tree>, t: Tree)
    requires t.And? || t.Capture?
  {
    0 <= FixedLen(g, t.body, 0) <= if t.And? then CodeGen.MAXBEHIND else CodeGen.MAXOFF
  }

  /** Every search that the generator makes for the tree ends. The body of a set's repetition and that
      of a headfail negation are not looked at. */
  predicate SearchesEnd(g: seq<Tree>, t: Tree, a: nat)
    decreases t
  {
    match t
    case Seq(p1, p2) => SearchesEnd(g, p1, a) && SearchesEnd(g, p2, a)
    case Choice(p1, p2) => SearchesEnd(g, p1, a) && SearchesEnd(g, p2, a)
    case Rep(p) => ToCharset(p).0 || SearchesEnd(g, p, a)
    case Not(p) => HeadFail(g, p, a) || SearchesEnd(g, p, a)
    case Behind(_, p) => SearchesEnd(g, p, a)
    case And(p) => (Asked(g, t) ==> !Scan(g, p, {}).NoAnswer?) && SearchesEnd(g, p, a)
    case Capture(_, _, p) => (Asked(g, t) ==> !Scan(g, p, {}).NoAnswer?) && SearchesEnd(g, p, a)
    case Grammar(rs) => forall k :: 0 <= k < |rs| ==> SearchesEnd(rs, rs[k], a)
    case _ => true
  }

  /** The same, with the number of calls that is enough. */
  predicate Searched(g: seq<Tree>, t: Tree, a: nat, n: nat)
    decreases t
  {
    match t
    case Seq(p1, p2) => Searched(g, p1, a, n) && Searched(g, p2, a, n)
    case Choice(p1, p2) => Searched(g, p1, a, n) && Searched(g, p2, a, n)
    case Rep(p) => ToCharset(p).0 || Searched(g, p, a, n)
    case Not(p) => HeadFail(g, p, a) || Searched(g, p, a, n)
    case Behind(_, p) => Searched(g, p, a, n)
    case And(p) => (Asked(g, t) ==> !Search(g, p, n).NoAnswer?) && Searched(g, p, a, n)
    case Capture(_, _, p) => (Asked(g, t) ==> !Search(g, p, n).NoAnswer?) && Searched(g, p, a, n)
    case Grammar(rs) => forall k :: 0 <= k < |rs| ==> Searched(rs, rs[k], a, n)
    case _ => true
  }

  /** No number of calls is enough for the generator if one of its scans meets a rule again;
      otherwise one call for each rule, the grammars inside each other added up, is enough. */
  lemma {:induction false} GeneratorEnds(g: seq<Tree>, t: Tree, a: nat, n: nat)
    ensures Searched(g, t, a, n) ==> SearchesEnd(g, t, a)
    ensures n >= |g| + Max(RoomOf(g), Room(t)) && SearchesEnd(g, t, a) ==> Searched(g, t, a, n)
    decreases t
  {
    hide Scan, Search, HeadFail, FixedLen;
    match t
    case Seq(p1, p2) => GeneratorEnds(g, p1, a, n); GeneratorEnds(g, p2, a, n);
    case Choice(p1, p2) => GeneratorEnds(g, p1, a, n); GeneratorEnds(g, p2, a, n);
    case Rep(p) => GeneratorEnds(g, p, a, n);
    case Not(p) => GeneratorEnds(g, p, a, n);
    case Behind(_, p) => GeneratorEnds(g, p, a, n);
    case And(p) => SearchExact(g, p, n); GeneratorEnds(g, p, a, n);
    case Capture(_, _, p) => SearchExact(g, p, n); GeneratorEnds(g, p, a, n);
    case Grammar(rs) =>
      forall k | 0 <= k < |rs|
        ensures Searched(rs, rs[k], a, n) ==> SearchesEnd(rs, rs[k], a)
        ensures n >= Room(t) && SearchesEnd(rs, rs[k], a) ==> Searched(rs, rs[k], a, n)
      {
        RoomRule(rs, k);
        GeneratorEnds(rs, rs[k], a, n);
      }
    case _ =>
  }

  // ----- patterns on which it does not end ------------------------------------------------------

  /** A rule that begins with a character and a call of itself. */
  lemma CallsItself(g: seq<Tree>, k: nat, seen: set<nat>)
    requires k < |g| && g[k].Choice? && g[k].p1.Seq? && g[k].p1.p1.Char? && g[k].p1.p2 == Call(k)
    ensures Scan(g, Call(k), seen).NoAnswer?
  {
    hide Scan, Height, Left;
    var s := seen + {k};
    UnfoldScan(g, Call(k), seen);
    UnfoldScan(g, g[k], s);
    UnfoldScan(g, g[k].p1, s);
    UnfoldScan(g, g[k].p1.p1, s);
    UnfoldScan(g, Call(k), s);
  }

  /** S <- &!A 'c', A <- 'a' A / 'b': nothing here is a capture, and all checks accept it. */
  function Endless(): seq<Tree> {
    [Seq(And(Not(Call(1))), Char(99)), Choice(Seq(Char(97), Call(1)), Char(98))]
  }

  /** The search that the generator makes below &!A has no answer after any number of calls. */
  lemma EndlessSearch(n: nat)
    ensures Search(Endless(), Not(Call(1)), n).NoAnswer?
  {
    hide Search, Scan;
    var g := Endless();
    CallsItself(g, 1, {});
    UnfoldScan(g, Not(Call(1)), {});
    SearchExact(g, Not(Call(1)), n);
  }

  /** The generator makes it, since the length of a predicate is known. */
  lemma EndlessAsked(a: nat)
    ensures !SearchesEnd([], Grammar(Endless()), a)
  {
    hide Scan, HeadFail;
    var g := Endless();
    CallsItself(g, 1, {});
    UnfoldScan(g, Not(Call(1)), {});
    assert FixedLen(g, Not(Call(1)), 0) == 0;
    assert !SearchesEnd(g, g[0].p1, a);
    assert !SearchesEnd(g, g[0], a);
  }

  /** The order matters: a capture behind the call is never come to, one before it ends the search. */
  lemma CaptureBehindCall(n: nat)
    ensures Search([Choice(Seq(Char(97), Call(0)), Capture(1, 0, Char(98)))], Call(0), n).NoAnswer?
    ensures n > 0 ==> Search([Choice(Capture(1, 0, Char(98)), Seq(Char(97), Call(0)))], Call(0), n).Found?
  {
    var g := [Choice(Seq(Char(97), Call(0)), Capture(1, 0, Char(98)))];
    CallsItself(g, 0, {});
    SearchExact(g, Call(0), n);
    var h := [Choice(Capture(1, 0, Char(98)), Seq(Char(97), Call(0)))];
    if n > 0 { assert Search(h, h[0], n - 1).Found?; }
  }

  lemma EndlessVerdicts(a: nat)
    ensures var g := Endless();
            && VerifyRule(g, g[0], 0, false, a).Ok? && Repaired(g, g[0], 0, false, a).Ok?
            && VerifyRule(g, g[1], 0, false, a).Ok? && Repaired(g, g[1], 0, false, a).Ok?
  {
    var g := Endless();
    var pred, loop := And(Not(Call(1))), Seq(Char(97), Call(1));
    forall npassed: nat, nb | npassed <= MAXRULES
      ensures VerifyRule(g, g[1], npassed, nb, a) == Ok(nb) && Repaired(g, g[1], npassed, nb, a) == Ok(nb)
    {
      assert VerifyRule(g, loop, npassed, nb, a) == Ok(nb) && Repaired(g, loop, npassed, nb, a) == Ok(nb);
    }
    assert VerifyRule(g, Call(1), 0, true, a) == Ok(true) && Repaired(g, Call(1), 0, true, a) == Ok(true);
    assert VerifyRule(g, Not(Call(1)), 0, true, a) == Ok(true) && Repaired(g, Not(Call(1)), 0, true, a) == Ok(true);
    assert VerifyRule(g, pred, 0, false, a) == Ok(true) && Repaired(g, pred, 0, false, a) == Ok(true);
  }

  /** The checks accept the grammar, and it is in neither of their gaps. */
  lemma EndlessAccepted(a: nat)
    ensures Accepted(Grammar(Endless()), a) && NoGaps(Grammar(Endless()), a)
  {
    hide Fine, Used, VerifyRule, Repaired, Accepted, NoGaps;
    EndlessVerdicts(a);
    EndlessRule(a, 0);
    EndlessRule(a, 1);
    GrammarAccepted(Endless(), a);
  }

  ghost predicate Fine(g: seq<Tree>, t: Tree, a: nat) {
    && Wf(g, t) && GrammarsOk(t, a) && NoGaps(t, a) && !CheckLoops(g, t, a)
    && forall k: nat :: !CalledBehind(t, k)
  }

  lemma GrammarAccepted(g: seq<Tree>, a: nat)
    requires g != []
    requires forall k :: 0 <= k < |g| ==>
               Fine(g, g[k], a) && VerifyRule(g, g[k], 0, false, a).Ok? && Repaired(g, g[k], 0, false, a).Ok?
    ensures Accepted(Grammar(g), a) && NoGaps(Grammar(g), a)
  {
    hide Used, VerifyRule, Repaired, Reach;
    assert forall k :: 0 <= k < |g| ==> Fine(g, g[k], a);
  }

  lemma FineParts(g: seq<Tree>, t: Tree, a: nat)
    ensures t.Char? || (t.Call? && t.rule < |g|) ==> Fine(g, t, a)
    ensures (t.Not? || t.And?) && Fine(g, t.body, a) ==> Fine(g, t, a)
    ensures (t.Seq? || t.Choice?) && Fine(g, t.p1, a) && Fine(g, t.p2, a) ==> Fine(g, t, a)
  {
    hide Used, VerifyRule, Repaired, BehindsLeave;
    forall k: nat { CallsParts(t, k); }
  }

  lemma EndlessRule(a: nat, k: nat)
    requires k < 2
    ensures Fine(Endless(), Endless()[k], a)
  {
    hide Fine;
    var g := Endless();
    FineParts(g, Call(1), a);
    FineParts(g, Not(Call(1)), a);
    FineParts(g, And(Not(Call(1))), a);
    FineParts(g, Char(97), a);
    FineParts(g, g[k].p2, a);
    FineParts(g, g[1].p1, a);
    FineParts(g, g[k], a);
  }
}

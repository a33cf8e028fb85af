/** Parsing expression trees and their meaning.

    A tree is matched against a subject at a position. The meaning is a big-step evaluation
    bounded by a step budget: the budget goes down at each rule call and at each further
    iteration of a repetition, and an exhausted budget gives Timeout. A result other than
    Timeout no longer depends on the budget (MoreBudget). */
module Peg {

  type byte = b: int | 0 <= b < 256

  type Charset = set<byte>

  const FULLSET: Charset := set b: byte | 0 <= b < 256

  type Subject = seq<byte>

  /** Trees after 'finalfix': a call names a rule of the innermost enclosing grammar. A call
      whose number is no rule of that grammar stands for an open call (TOpenCall). */
  datatype Tree =
    | Char(c: byte)
    | Set(cs: Charset)
    | AnyChar
    | True
    | False
    | Rep(body: Tree)
    | Seq(p1: Tree, p2: Tree)
    | Choice(p1: Tree, p2: Tree)
    | Not(body: Tree)
    | And(body: Tree)
    | Call(rule: nat)
    | Grammar(rules: seq<Tree>)
    | Behind(n: nat, body: Tree)
    | Capture(kind: nat, key: int, body: Tree)

  /** A finished capture with the captures nested in it. */
  datatype Node = Node(kind: nat, key: int, start: nat, end: nat, sub: seq<Node>)

  datatype Outcome = Timeout | Failed | Matched(end: nat, caps: seq<Node>)

  predicate HeadIn(s: Subject, i: nat, cs: Charset) {
    i < |s| && s[i] in cs
  }

  function MatchChar(s: Subject, i: nat, cs: Charset): Outcome {
    if HeadIn(s, i, cs) then Matched(i + 1, []) else Failed
  }

  function Eval(g: seq<Tree>, s: Subject, t: Tree, i: nat, n: nat): Outcome
    decreases n, t
  {
    match t
    case Char(c) => MatchChar(s, i, {c})
    case Set(cs) => MatchChar(s, i, cs)
    case AnyChar => MatchChar(s, i, FULLSET)
    case True => Matched(i, [])
    case False => Failed
    case Rep(p) =>
      (match Eval(g, s, p, i, n)
       case Timeout => Timeout
       case Failed => Matched(i, [])
       case Matched(j, c1) =>
         if n == 0 then Timeout else
         match Eval(g, s, t, j, n - 1)
         case Timeout => Timeout
         case Failed => Failed
         case Matched(k, c2) => Matched(k, c1 + c2))
    case Seq(p1, p2) =>
      (match Eval(g, s, p1, i, n)
       case Timeout => Timeout
       case Failed => Failed
       case Matched(j, c1) =>
         match Eval(g, s, p2, j, n)
         case Timeout => Timeout
         case Failed => Failed
         case Matched(k, c2) => Matched(k, c1 + c2))
    case Choice(p1, p2) =>
      (match Eval(g, s, p1, i, n)
       case Timeout => Timeout
       case Failed => Eval(g, s, p2, i, n)
       case Matched(j, c1) => Matched(j, c1))
    case Not(p) =>
      (match Eval(g, s, p, i, n)
       case Timeout => Timeout
       case Failed => Matched(i, [])
       case Matched(_, _) => Failed)
    case And(p) =>
      (match Eval(g, s, p, i, n)
       case Timeout => Timeout
       case Failed => Failed
       case Matched(_, _) => Matched(i, []))
    case Call(k) =>
      if k >= |g| then Failed
      else if n == 0 then Timeout
      else Eval(g, s, g[k], i, n - 1)
    case Grammar(rs) =>
      if |rs| == 0 then Failed else Eval(rs, s, rs[0], i, n)
    case Behind(m, p) =>
      if m > i then Failed else
      (match Eval(g, s, p, i - m, n)
       case Timeout => Timeout
       case Failed => Failed
       case Matched(j, _) => if j == i then Matched(i, []) else Failed)
    case Capture(kind, key, p) =>
      (match Eval(g, s, p, i, n)
       case Timeout => Timeout
       case Failed => Failed
       case Matched(j, c) => Matched(j, [Node(kind, key, i, j, c)]))
  }

  /** A result obtained within one budget is the result within every larger budget. */
  lemma {:induction false} MoreBudget(g: seq<Tree>, s: Subject, t: Tree, i: nat, n: nat, m: nat)
    requires n <= m
    requires !Eval(g, s, t, i, n).Timeout?
    ensures Eval(g, s, t, i, m) == Eval(g, s, t, i, n)
    decreases n, t
  {
    match t
    case Rep(p) =>
      MoreBudget(g, s, p, i, n, m);
      match Eval(g, s, p, i, n) {
        case Matched(j, _) => MoreBudget(g, s, t, j, n - 1, m - 1);
        case _ =>
      }
    case Seq(p1, p2) =>
      MoreBudget(g, s, p1, i, n, m);
      match Eval(g, s, p1, i, n) {
        case Matched(j, _) => MoreBudget(g, s, p2, j, n, m);
        case _ =>
      }
    case Choice(p1, p2) =>
      MoreBudget(g, s, p1, i, n, m);
      if Eval(g, s, p1, i, n).Failed? { MoreBudget(g, s, p2, i, n, m); }
    case Not(p) => MoreBudget(g, s, p, i, n, m);
    case And(p) => MoreBudget(g, s, p, i, n, m);
    case Call(k) => if k < |g| { MoreBudget(g, s, g[k], i, n - 1, m - 1); }
    case Grammar(rs) => if |rs| > 0 { MoreBudget(rs, s, rs[0], i, n, m); }
    case Behind(b, p) => if b <= i { MoreBudget(g, s, p, i - b, n, m); }
    case Capture(_, _, p) => MoreBudget(g, s, p, i, n, m);
    case _ =>
  }

  /** A match never ends before its start nor after the end of the subject. */
  lemma {:induction false} EndInRange(g: seq<Tree>, s: Subject, t: Tree, i: nat, n: nat)
    requires i <= |s|
    requires Eval(g, s, t, i, n).Matched?
    ensures i <= Eval(g, s, t, i, n).end <= |s|
    decreases n, t
  {
    match t
    case Rep(p) =>
      if Eval(g, s, p, i, n).Matched? {
        EndInRange(g, s, p, i, n);
        EndInRange(g, s, t, Eval(g, s, p, i, n).end, n - 1);
      }
    case Seq(p1, p2) =>
      EndInRange(g, s, p1, i, n);
      EndInRange(g, s, p2, Eval(g, s, p1, i, n).end, n);
    case Choice(p1, p2) =>
      if Eval(g, s, p1, i, n).Matched? {
        EndInRange(g, s, p1, i, n);
      } else {
        EndInRange(g, s, p2, i, n);
      }
    case Call(k) => EndInRange(g, s, g[k], i, n - 1);
    case Grammar(rs) => EndInRange(rs, s, rs[0], i, n);
    case Capture(_, _, p) => EndInRange(g, s, p, i, n);
    case _ =>
  }

  lemma CatAssoc<T>(a: seq<T>, b: seq<T>, c: seq<T>)
    ensures a + (b + c) == a + b + c
  {
  }
}

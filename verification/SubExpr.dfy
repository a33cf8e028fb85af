/** Precedence climbing: the expression parser reads exactly the trees that respect the
    priorities of the operators. */
module SubExpr {
  datatype Operator =
    | Add | Minus | Mul | Div | Mod | Pow | Concat | Ne | Eq | Lt | Le | Gt | Ge | And | Or
    | Not | Len

  /** 'Const' is any simple expression that takes no suffix; 'Suffix' is a field, an index or the
      arguments of a call. */
  datatype Token = Const(n: int) | Name(n: int) | Suffix(n: int) | Open | Close | Op(o: Operator) | Other(n: int)

  datatype Expr =
    | Constant(n: int)
    | Variable(n: int)
    | Paren(inner: Expr)
    | Suffixed(prefix: Expr, n: int)
    | Unary(o: Operator, x: Expr)
    | Binary(o: Operator, l: Expr, r: Expr)

  const UNARY_PRIORITY: nat := 8
  /** Above every priority. */
  const NO_LIMIT: nat := 11

  predicate IsUnary(o: Operator) {
    o.Not? || o.Minus? || o.Len?
  }

  predicate IsBinary(o: Operator) {
    !o.Not? && !o.Len?
  }

  function Left(o: Operator): (p: nat)
    ensures IsBinary(o) ==> 0 < p < NO_LIMIT
  {
    match o
    case Add | Minus => 6
    case Mul | Div | Mod => 7
    case Pow => 10
    case Concat => 5
    case Ne | Eq | Lt | Le | Gt | Ge => 3
    case And => 2
    case Or => 1
    case Not | Len => 0
  }

  function Right(o: Operator): (p: nat)
    ensures p < NO_LIMIT
  {
    match o
    case Add | Minus => 6
    case Mul | Div | Mod => 7
    case Pow => 9
    case Concat => 4
    case Ne | Eq | Lt | Le | Gt | Ge => 3
    case And => 2
    case Or => 1
    case Not | Len => 0
  }

  // ----- the parser as a function --------------------------------------------------------

  /** 'Fail' is a syntax error. */
  datatype Parse = Fail | Done(e: Expr, rest: seq<Token>)

  predicate BinaryAt(ts: seq<Token>) {
    ts != [] && ts[0].Op? && IsBinary(ts[0].o)
  }

  function Suffixes(p: Expr, ts: seq<Token>): (r: Parse)
    ensures r.Done? && |r.rest| <= |ts|
    decreases |ts|
  {
    if ts != [] && ts[0].Suffix? then Suffixes(Suffixed(p, ts[0].n), ts[1..]) else Done(p, ts)
  }

  function Simple(ts: seq<Token>): (r: Parse)
    ensures r.Done? ==> |r.rest| < |ts|
    decreases |ts|, 0
  {
    if ts == [] then Fail
    else if ts[0].Const? then Done(Constant(ts[0].n), ts[1..])
    else if ts[0].Name? then Suffixes(Variable(ts[0].n), ts[1..])
    else if ts[0].Open? then
      var x := Sub(ts[1..], 0);
      if x.Done? && x.rest != [] && x.rest[0].Close? then Suffixes(Paren(x.e), x.rest[1..]) else Fail
    else Fail
  }

  /** A subexpression: all operators with a priority above 'limit' belong to it. */
  function Sub(ts: seq<Token>, limit: nat): (r: Parse)
    ensures r.Done? ==> |r.rest| < |ts|
    decreases |ts|, 1
  {
    if ts != [] && ts[0].Op? && IsUnary(ts[0].o) then
      var x := Sub(ts[1..], UNARY_PRIORITY);
      if x.Fail? then Fail else Tail(Unary(ts[0].o, x.e), x.rest, limit)
    else
      var v := Simple(ts);
      if v.Fail? then Fail else Tail(v.e, v.rest, limit)
  }

  /** What follows the operand 'v'. */
  function Tail(v: Expr, ts: seq<Token>, limit: nat): (r: Parse)
    ensures r.Done? ==> |r.rest| <= |ts|
    decreases |ts|, 2
  {
    if BinaryAt(ts) && Left(ts[0].o) > limit then
      var x := Sub(ts[1..], Right(ts[0].o));
      if x.Fail? then Fail else Tail(Binary(ts[0].o, v, x.e), x.rest, limit)
    else Done(v, ts)
  }

  // ----- trees that respect the priorities -------------------------------------------------

  predicate Primary(e: Expr) {
    e.Variable? || e.Paren? || e.Suffixed?
  }

  /** An operator behind the tree with a left priority above this would go into the tree. */
  function Edge(e: Expr): nat {
    match e
    case Unary(_, x) => Min(UNARY_PRIORITY, Edge(x))
    case Binary(o, _, r) => Min(Right(o), Edge(r))
    case _ => NO_LIMIT
  }

  function Min(a: nat, b: nat): nat {
    if a <= b then a else b
  }

  /** The tree ends where a suffix would go into it. */
  predicate EndsPrimary(e: Expr) {
    match e
    case Unary(_, x) => EndsPrimary(x)
    case Binary(_, _, r) => EndsPrimary(r)
    case _ => Primary(e)
  }

  /** Every operand can stand without parentheses, and the tree itself where operators must have
      a priority above 'limit'. */
  predicate Respects(e: Expr, limit: nat) {
    match e
    case Constant(_) => true
    case Variable(_) => true
    case Paren(x) => Respects(x, 0)
    case Suffixed(p, _) => Primary(p) && Respects(p, 0)
    case Unary(o, x) => IsUnary(o) && Respects(x, UNARY_PRIORITY)
    case Binary(o, l, r) =>
      IsBinary(o) && Left(o) > limit && Respects(l, limit) && Edge(l) >= Left(o) && Respects(r, Right(o))
  }

  function Flat(e: Expr): (ts: seq<Token>)
    ensures ts != []
  {
    match e
    case Constant(n) => [Const(n)]
    case Variable(n) => [Name(n)]
    case Paren(x) => [Open] + Flat(x) + [Close]
    case Suffixed(p, n) => Flat(p) + [Suffix(n)]
    case Unary(o, x) => [Op(o)] + Flat(x)
    case Binary(o, l, r) => Flat(l) + [Op(o)] + Flat(r)
  }

  /** The tokens go on with nothing that belongs to a tree before them. */
  predicate Ends(e: Expr, limit: nat, rest: seq<Token>) {
    && (BinaryAt(rest) ==> Left(rest[0].o) <= limit && Left(rest[0].o) <= Edge(e))
    && (EndsPrimary(e) && rest != [] ==> !rest[0].Suffix?)
  }

  // ----- the parser finds every such tree ----------------------------------------------------

  lemma TailEnds(v: Expr, ts: seq<Token>, limit: nat)
    requires BinaryAt(ts) ==> Left(ts[0].o) <= limit
    ensures Tail(v, ts, limit) == Done(v, ts)
  {
  }

  lemma SubUnary(ts: seq<Token>, limit: nat, x: Parse)
    requires ts != [] && ts[0].Op? && IsUnary(ts[0].o) && Sub(ts[1..], UNARY_PRIORITY) == x && x.Done?
    ensures Sub(ts, limit) == Tail(Unary(ts[0].o, x.e), x.rest, limit)
  {
  }

  lemma TailStep(v: Expr, ts: seq<Token>, limit: nat, x: Parse)
    requires BinaryAt(ts) && Left(ts[0].o) > limit && Sub(ts[1..], Right(ts[0].o)) == x && x.Done?
    ensures Tail(v, ts, limit) == Tail(Binary(ts[0].o, v, x.e), x.rest, limit)
  {
  }

  lemma SubSimple(ts: seq<Token>, limit: nat)
    requires ts != [] && !ts[0].Op? && Simple(ts).Done?
    ensures Sub(ts, limit) == Tail(Simple(ts).e, Simple(ts).rest, limit)
  {
  }

  /** A tree is read as an operand, and the parser goes on behind it. */
  lemma {:induction false} Climbs(e: Expr, limit: nat, rest: seq<Token>)
    requires Respects(e, limit) && Ends(e, NO_LIMIT, rest)
    ensures Sub(Flat(e) + rest, limit) == Tail(e, rest, limit)
    decreases e, 1
  {
    hide Sub, Tail, Simple;
    var ts := Flat(e) + rest;
    match e {
      case Unary(o, x) =>
        assert ts[1..] == Flat(x) + rest;
        Climbs(x, UNARY_PRIORITY, rest);
        TailEnds(x, rest, UNARY_PRIORITY);
        SubUnary(ts, limit, Done(x, rest));
      case Binary(o, l, r) =>
        var more := [Op(o)] + Flat(r) + rest;
        assert ts == Flat(l) + more;
        Climbs(l, limit, more);
        assert more[1..] == Flat(r) + rest;
        Climbs(r, Right(o), rest);
        TailEnds(r, rest, Right(o));
        TailStep(l, more, limit, Done(r, rest));
      case _ =>
        Simply(e, rest);
        SubSimple(ts, limit);
    }
  }

  /** A name or a parenthesis is read with all suffixes that follow. */
  lemma {:induction false} Simply(e: Expr, rest: seq<Token>)
    requires Respects(e, 0) && (Primary(e) || e.Constant?)
    ensures Flat(e) + rest != [] && !(Flat(e) + rest)[0].Op?
    ensures Simple(Flat(e) + rest) == if e.Constant? then Done(e, rest) else Suffixes(e, rest)
    decreases e, 0
  {
    hide Sub, Tail;
    var ts := Flat(e) + rest;
    match e {
      case Paren(x) =>
        var more := [Close] + rest;
        assert ts[1..] == Flat(x) + more && more[1..] == rest;
        Climbs(x, 0, more);
        TailEnds(x, more, 0);
      case Suffixed(p, n) =>
        var more := [Suffix(n)] + rest;
        assert ts == Flat(p) + more && more[1..] == rest;
        Simply(p, more);
      case Constant(n) => assert ts[1..] == rest;
      case Variable(n) => assert ts[1..] == rest;
    }
  }

  /** Parsing a tree's tokens gives the tree, and leaves exactly what follows. */
  lemma ParseFlat(e: Expr, limit: nat, rest: seq<Token>)
    requires Respects(e, limit) && Ends(e, limit, rest)
    ensures Sub(Flat(e) + rest, limit) == Done(e, rest)
  {
    hide Sub, Tail;
    Climbs(e, limit, rest);
    TailEnds(e, rest, limit);
  }

  // ----- the parser finds nothing else ---------------------------------------------------------

  /** A parsed tree respects the priorities, has the tokens that were read, and ends there. */
  lemma {:induction false} SubSound(ts: seq<Token>, limit: nat)
    requires Sub(ts, limit).Done?
    ensures var r := Sub(ts, limit);
            Respects(r.e, limit) && ts == Flat(r.e) + r.rest && Ends(r.e, limit, r.rest)
    decreases |ts|, 1
  {
    hide Respects, Flat, Edge, EndsPrimary, Tail;
    if ts[0].Op? && IsUnary(ts[0].o) {
      var x := Sub(ts[1..], UNARY_PRIORITY);
      SubSound(ts[1..], UNARY_PRIORITY);
      var v := Unary(ts[0].o, x.e);
      MadeUnary(ts[0].o, x.e, limit, x.rest);
      assert ts == [ts[0]] + ts[1..];
      assert ts == Flat(v) + x.rest;
      TailSound(v, x.rest, limit);
    } else {
      var v := Simple(ts);
      SimpleSound(ts, limit);
      TailSound(v.e, v.rest, limit);
    }
  }

  lemma MadeUnary(o: Operator, x: Expr, limit: nat, rest: seq<Token>)
    requires IsUnary(o) && Respects(x, UNARY_PRIORITY) && Ends(x, UNARY_PRIORITY, rest)
    ensures Respects(Unary(o, x), limit) && Ends(Unary(o, x), NO_LIMIT, rest) && Flat(Unary(o, x)) == [Op(o)] + Flat(x)
  {
  }

  lemma MadeBinary(o: Operator, l: Expr, r: Expr, limit: nat, rest: seq<Token>)
    requires IsBinary(o) && Left(o) > limit && Respects(l, limit) && Edge(l) >= Left(o)
    requires Respects(r, Right(o)) && Ends(r, Right(o), rest)
    ensures Respects(Binary(o, l, r), limit) && Ends(Binary(o, l, r), NO_LIMIT, rest)
    ensures Flat(Binary(o, l, r)) == Flat(l) + [Op(o)] + Flat(r)
  {
  }

  lemma {:induction false} TailSound(v: Expr, ts: seq<Token>, limit: nat)
    requires Tail(v, ts, limit).Done? && Respects(v, limit) && Ends(v, NO_LIMIT, ts)
    ensures var r := Tail(v, ts, limit);
            Respects(r.e, limit) && Flat(v) + ts == Flat(r.e) + r.rest && Ends(r.e, limit, r.rest)
    decreases |ts|, 2
  {
    hide Respects, Flat, Edge, EndsPrimary, Sub;
    if BinaryAt(ts) && Left(ts[0].o) > limit {
      var o, x := ts[0].o, Sub(ts[1..], Right(ts[0].o));
      SubSound(ts[1..], Right(o));
      MadeBinary(o, v, x.e, limit, x.rest);
      assert ts == [Op(o)] + ts[1..];
      assert Flat(v) + ts == Flat(Binary(o, v, x.e)) + x.rest;
      TailSound(Binary(o, v, x.e), x.rest, limit);
    }
  }

  lemma {:induction false} SimpleSound(ts: seq<Token>, limit: nat)
    requires Simple(ts).Done?
    ensures var r := Simple(ts);
            Respects(r.e, limit) && ts == Flat(r.e) + r.rest && Ends(r.e, NO_LIMIT, r.rest)
    decreases |ts|, 0
  {
    hide Sub, Tail;
    if ts[0].Const? {
      assert ts == [ts[0]] + ts[1..];
    } else if ts[0].Name? {
      assert ts == [ts[0]] + ts[1..];
      SuffixesSound(Variable(ts[0].n), ts[1..], limit);
    } else {
      var x := Sub(ts[1..], 0);
      SubSound(ts[1..], 0);
      assert ts == [Open] + Flat(x.e) + [Close] + x.rest[1..];
      SuffixesSound(Paren(x.e), x.rest[1..], limit);
    }
  }

  lemma {:induction false} SuffixesSound(p: Expr, ts: seq<Token>, limit: nat)
    requires Primary(p) && Respects(p, 0)
    ensures var r := Suffixes(p, ts);
            Primary(r.e) && Respects(r.e, limit) && Flat(p) + ts == Flat(r.e) + r.rest && Ends(r.e, NO_LIMIT, r.rest)
    decreases |ts|
  {
    if ts != [] && ts[0].Suffix? {
      assert Flat(p) + ts == Flat(Suffixed(p, ts[0].n)) + ts[1..];
      SuffixesSound(Suffixed(p, ts[0].n), ts[1..], limit);
    }
  }

  /** The parser reads a tree from the tokens exactly if the tree respects the priorities, the
      tokens begin with its own, and the rest does not go on with it. */
  lemma ParseExactly(ts: seq<Token>, limit: nat, e: Expr, rest: seq<Token>)
    ensures Sub(ts, limit) == Done(e, rest) <==> Respects(e, limit) && ts == Flat(e) + rest && Ends(e, limit, rest)
  {
    hide Sub, Respects, Flat, Ends;
    if Sub(ts, limit) == Done(e, rest) { SubSound(ts, limit); }
    if Respects(e, limit) && ts == Flat(e) + rest && Ends(e, limit, rest) { ParseFlat(e, limit, rest); }
  }

  /** Two trees never have the same tokens. */
  lemma Unambiguous(d: Expr, e: Expr)
    requires Respects(d, 0) && Respects(e, 0) && Flat(d) == Flat(e)
    ensures d == e
  {
    ParseFlat(d, 0, []);
    ParseFlat(e, 0, []);
    assert Flat(d) + [] == Flat(d) && Flat(e) + [] == Flat(e);
  }

  // ----- printing with the parentheses that are needed -------------------------------------------

  /** The lowest left priority along the left side of the tree. */
  function Head(e: Expr): nat {
    if e.Binary? then Min(Left(e.o), Head(e.l)) else NO_LIMIT
  }

  /** Unary and binary operators stand at unary and binary nodes. */
  predicate Proper(e: Expr) {
    match e
    case Paren(x) => Proper(x)
    case Suffixed(p, _) => Proper(p)
    case Unary(o, x) => IsUnary(o) && Proper(x)
    case Binary(o, l, r) => IsBinary(o) && Proper(l) && Proper(r)
    case _ => true
  }

  function Wrap(needed: bool, e: Expr): Expr {
    if needed then Paren(e) else e
  }

  /** The same tree with a parenthesis wherever an operand could not stand without. */
  function Parens(e: Expr): Expr {
    match e
    case Paren(x) => Paren(Parens(x))
    case Suffixed(p, n) => Suffixed(Wrap(!Primary(p), Parens(p)), n)
    case Unary(o, x) => Unary(o, Wrap(Head(Parens(x)) <= UNARY_PRIORITY, Parens(x)))
    case Binary(o, l, r) =>
      Binary(o, Wrap(Edge(Parens(l)) < Left(o), Parens(l)), Wrap(Head(Parens(r)) <= Right(o), Parens(r)))
    case _ => e
  }

  /** The tree without its parentheses. */
  function Erase(e: Expr): Expr {
    match e
    case Paren(x) => Erase(x)
    case Suffixed(p, n) => Suffixed(Erase(p), n)
    case Unary(o, x) => Unary(o, Erase(x))
    case Binary(o, l, r) => Binary(o, Erase(l), Erase(r))
    case _ => e
  }

  /** A limit only matters for the operators along the left side. */
  lemma {:induction false} RespectsHead(e: Expr, limit: nat)
    requires limit < NO_LIMIT
    ensures Respects(e, limit) <==> Respects(e, 0) && Head(e) > limit
    decreases e
  {
    if e.Binary? { RespectsHead(e.l, limit); }
  }

  lemma {:induction false} ParensRespect(e: Expr)
    requires Proper(e)
    ensures Respects(Parens(e), 0) && Erase(Parens(e)) == Erase(e) && (Primary(e) ==> Primary(Parens(e)))
    decreases e
  {
    match e {
      case Paren(x) => ParensRespect(x);
      case Suffixed(p, n) => ParensRespect(p);
      case Unary(o, x) =>
        ParensRespect(x);
        RespectsHead(Parens(x), UNARY_PRIORITY);
      case Binary(o, l, r) =>
        ParensRespect(l);
        ParensRespect(r);
        RespectsHead(Parens(r), Right(o));
      case _ =>
    }
  }

  // ----- the grammar of expressions ----------------------------------------------------------------

  /** One kind of expression for each line of the grammar, the loosest first. */
  datatype Level = OrExp | AndExp | Comparison | Concatenation | Sum | Product | Signed | Power | Operand

  function Rank(lv: Level): (n: nat)
    ensures n <= 8
  {
    match lv
    case OrExp => 0
    case AndExp => 1
    case Comparison => 2
    case Concatenation => 3
    case Sum => 4
    case Product => 5
    case Signed => 6
    case Power => 7
    case Operand => 8
  }

  /** The grammar. All binary operators group to the left, but concatenation and power to the right. */
  predicate Is(e: Expr, lv: Level)
    decreases e, 8 - Rank(lv)
  {
    match lv
    case OrExp => Is(e, AndExp) || (e.Binary? && e.o == Or && Is(e.l, OrExp) && Is(e.r, AndExp))
    case AndExp => Is(e, Comparison) || (e.Binary? && e.o == And && Is(e.l, AndExp) && Is(e.r, Comparison))
    case Comparison =>
      || Is(e, Concatenation)
      || (e.Binary? && e.o in {Ne, Eq, Lt, Le, Gt, Ge} && Is(e.l, Comparison) && Is(e.r, Concatenation))
    case Concatenation =>
      Is(e, Sum) || (e.Binary? && e.o == Concat && Is(e.l, Sum) && Is(e.r, Concatenation))
    case Sum => Is(e, Product) || (e.Binary? && e.o in {Add, Minus} && Is(e.l, Sum) && Is(e.r, Product))
    case Product => Is(e, Signed) || (e.Binary? && e.o in {Mul, Div, Mod} && Is(e.l, Product) && Is(e.r, Signed))
    case Signed => Is(e, Power) || (e.Unary? && e.o in {Not, Minus, Len} && Is(e.x, Signed))
    case Power => Is(e, Operand) || (e.Binary? && e.o == Pow && Is(e.l, Operand) && Is(e.r, Signed))
    case Operand =>
      match e
      case Constant(_) => true
      case Variable(_) => true
      case Paren(x) => Is(x, OrExp)
      case Suffixed(p, _) => !p.Constant? && Is(p, Operand)
      case _ => false
  }

  /** The line that an operator stands in, and its operands there. */
  function LevelOf(o: Operator): Level {
    match o
    case Or => OrExp
    case And => AndExp
    case Ne | Eq | Lt | Le | Gt | Ge => Comparison
    case Concat => Concatenation
    case Add | Minus => Sum
    case Mul | Div | Mod => Product
    case Pow => Power
    case Not | Len => Signed
  }

  function LeftLevel(o: Operator): Level {
    if o == Concat then Sum else if o == Pow then Operand else LevelOf(o)
  }

  function RightLevel(o: Operator): Level {
    match o
    case Or => AndExp
    case And => Comparison
    case Ne | Eq | Lt | Le | Gt | Ge | Concat => Concatenation
    case Add | Minus => Product
    case Mul | Div | Mod | Pow => Signed
    case Not | Len => Signed
  }

  lemma {:induction false} IsUnfold(e: Expr, lv: Level)
    ensures e.Binary? ==>
              (Is(e, lv) <==> && IsBinary(e.o) && Rank(lv) <= Rank(LevelOf(e.o))
                              && Is(e.l, LeftLevel(e.o)) && Is(e.r, RightLevel(e.o)))
    ensures e.Unary? ==> (Is(e, lv) <==> IsUnary(e.o) && Rank(lv) <= Rank(Signed) && Is(e.x, Signed))
    ensures !e.Binary? && !e.Unary? ==> (Is(e, lv) <==> Is(e, Operand))
    decreases 8 - Rank(lv)
  {
    match lv
    case OrExp => IsUnfold(e, AndExp);
    case AndExp => IsUnfold(e, Comparison);
    case Comparison => IsUnfold(e, Concatenation);
    case Concatenation => IsUnfold(e, Sum);
    case Sum => IsUnfold(e, Product);
    case Product => IsUnfold(e, Signed);
    case Signed => IsUnfold(e, Power);
    case Power => IsUnfold(e, Operand);
    case Operand =>
  }

  /** The loosest expressions whose operators on the left have a priority above the limit. */
  function LimitLevel(limit: nat): Level {
    match limit
    case 0 => OrExp
    case 1 => AndExp
    case 2 => Comparison
    case 3 => Concatenation
    case 4 => Concatenation
    case 5 => Sum
    case 6 => Product
    case _ => Signed
  }

  /** What no operator behind such an expression can go into. */
  function EdgeOf(lv: Level): nat {
    match lv
    case OrExp => 1
    case AndExp => 2
    case Comparison => 3
    case Concatenation => 4
    case Sum => 6
    case Product => 7
    case Signed => 8
    case Power => 8
    case Operand => NO_LIMIT
  }

  lemma {:induction false} EdgeAtLeast(e: Expr, lv: Level)
    requires Is(e, lv)
    ensures Edge(e) >= EdgeOf(lv)
    decreases e
  {
    hide Is;
    IsUnfold(e, lv);
    match e
    case Unary(_, x) => EdgeAtLeast(x, Signed);
    case Binary(o, _, r) => EdgeAtLeast(r, RightLevel(o));
    case _ =>
  }

  /** Respecting the priorities is being an expression of the grammar. */
  lemma {:induction false} PrioritiesAreLevels(e: Expr, limit: nat)
    requires limit < 10
    ensures Respects(e, limit) <==> Is(e, LimitLevel(limit))
    decreases e, 1
  {
    hide Is;
    IsUnfold(e, LimitLevel(limit));
    match e
    case Paren(x) => IsParen(e); PrioritiesAreLevels(x, 0);
    case Suffixed(p, _) => IsParen(e); IsUnfold(p, Operand); PrioritiesAreLevels(p, 0); IsUnfold(p, OrExp);
    case Unary(o, x) => PrioritiesAreLevels(x, UNARY_PRIORITY);
    case Binary(o, l, r) =>
      if IsBinary(o) {
        PrioritiesAreLevels(r, Right(o));
        if Left(o) > limit { LeftOperands(l, o, limit); }
      }
    case _ => IsParen(e);
  }

  lemma IsParen(e: Expr)
    ensures e.Constant? || e.Variable? ==> Is(e, Operand)
    ensures e.Paren? ==> (Is(e, Operand) <==> Is(e.inner, OrExp))
    ensures e.Suffixed? ==> (Is(e, Operand) <==> !e.prefix.Constant? && Is(e.prefix, Operand))
  {
  }

  lemma PriorityTable(o: Operator, q: Operator)
    requires IsBinary(o) && IsBinary(q)
    ensures Right(q) >= Left(o) <==> Rank(LeftLevel(o)) <= Rank(LevelOf(q))
    ensures Right(q) >= Left(o) ==> EdgeOf(RightLevel(q)) >= Left(o)
    ensures LimitLevel(Right(q)) == RightLevel(q) && Right(q) < 10 && 0 < Left(q)
    ensures Left(o) < NO_LIMIT && Right(q) < NO_LIMIT
    ensures Rank(LeftLevel(o)) <= Rank(LevelOf(q)) ==> Left(q) >= Left(o)
    ensures UNARY_PRIORITY >= Left(o) <==> Rank(LeftLevel(o)) <= Rank(Signed)
    ensures LimitLevel(UNARY_PRIORITY) == Signed
    ensures UNARY_PRIORITY >= Left(o) ==> EdgeOf(Signed) >= Left(o)
  {
  }

  /** What can stand on the left of an operator. */
  lemma {:induction false} LeftOperands(e: Expr, o: Operator, limit: nat)
    requires IsBinary(o) && limit < Left(o)
    ensures Respects(e, limit) && Edge(e) >= Left(o) <==> Is(e, LeftLevel(o))
    decreases e, 0
  {
    hide Is, LeftLevel, RightLevel, LevelOf, LimitLevel, EdgeOf, Left, Right, Rank;
    IsUnfold(e, LeftLevel(o));
    PriorityTable(o, if e.Binary? && IsBinary(e.o) then e.o else o);
    Levels();
    match e
    case Paren(x) => IsParen(e); PrioritiesAreLevels(x, 0);
    case Suffixed(p, _) => IsParen(e); IsUnfold(p, Operand); PrioritiesAreLevels(p, 0); IsUnfold(p, OrExp);
    case Unary(_, x) =>
      PrioritiesAreLevels(x, UNARY_PRIORITY);
      if Is(x, Signed) { EdgeAtLeast(x, Signed); }
    case Binary(q, l, r) =>
      if IsBinary(q) {
        PrioritiesAreLevels(r, Right(q));
        if Is(r, RightLevel(q)) { EdgeAtLeast(r, RightLevel(q)); }
        LeftOperands(l, q, if limit < Left(q) then limit else 0);
      }
    case _ => IsParen(e);
  }

  lemma Levels()
    ensures LimitLevel(0) == OrExp
    ensures Rank(Signed) < Rank(Operand) && forall o :: Rank(LevelOf(o)) < Rank(Operand)
  {
  }

  /** The next token is neither a binary operator nor a suffix of the tree. */
  predicate EndsHere(e: Expr, rest: seq<Token>) {
    rest != [] ==> !(rest[0].Op? && rest[0].o != Not && rest[0].o != Len) && !(rest[0].Suffix? && EndsPrimary(e))
  }

  /** The parser reads an expression of the grammar, and nothing else. */
  lemma ParsesGrammar(ts: seq<Token>, e: Expr, rest: seq<Token>)
    ensures Sub(ts, 0) == Done(e, rest) <==> Is(e, OrExp) && ts == Flat(e) + rest && EndsHere(e, rest)
  {
    hide Sub, Respects, Flat, Is;
    ParseExactly(ts, 0, e, rest);
    PrioritiesAreLevels(e, 0);
  }

  /** Round trip: a printed tree is an expression of the grammar, and is read back, up to its
      parentheses, with all its tokens. */
  lemma PrintThenParse(e: Expr, rest: seq<Token>)
    requires Proper(e) && EndsHere(Parens(e), rest)
    ensures Is(Parens(e), OrExp) && Erase(Parens(e)) == Erase(e)
    ensures Sub(Flat(Parens(e)) + rest, 0) == Done(Parens(e), rest)
  {
    hide Sub, Is, Flat, Respects, EndsHere, Parens;
    ParensRespect(e);
    PrioritiesAreLevels(Parens(e), 0);
    ParsesGrammar(Flat(Parens(e)) + rest, Parens(e), rest);
  }

  /** Each parenthesis is needed: without it no tokens are read as the tree. */
  lemma ParensNeeded(o: Operator, l: Expr, r: Expr, ts: seq<Token>, limit: nat, rest: seq<Token>)
    requires !Is(l, LeftLevel(o)) || !Is(r, RightLevel(o))
    ensures Sub(ts, limit) != Done(Binary(o, l, r), rest)
    ensures !Is(r, Signed) ==> Sub(ts, limit) != Done(Unary(o, r), rest)
  {
    hide Sub, Flat, Ends, Respects, Is;
    if Sub(ts, limit).Done? {
      SubSound(ts, limit);
      if Respects(Binary(o, l, r), limit) { BinaryParts(o, l, r, limit); }
      if Respects(Unary(o, r), limit) { UnaryPart(o, r, limit); }
    }
  }

  lemma BinaryParts(o: Operator, l: Expr, r: Expr, limit: nat)
    requires Respects(Binary(o, l, r), limit)
    ensures Is(l, LeftLevel(o)) && Is(r, RightLevel(o))
  {
    hide Is, Edge, Left, Right, Rank, LevelOf, LeftLevel, RightLevel, LimitLevel, EdgeOf;
    PriorityTable(o, o);
    PrioritiesAreLevels(r, Right(o));
    LeftOperands(l, o, limit);
  }

  lemma UnaryPart(o: Operator, x: Expr, limit: nat)
    requires Respects(Unary(o, x), limit)
    ensures Is(x, Signed)
  {
    hide Is;
    PrioritiesAreLevels(x, UNARY_PRIORITY);
  }

  /** Printing puts an operand into parentheses if and only if it could not stand there without. */
  lemma ParensExactly(e: Expr)
    requires Proper(e) && (e.Binary? || e.Unary?)
    ensures e.Binary? ==>
              && Parens(e).l == (if Is(Parens(e.l), LeftLevel(e.o)) then Parens(e.l) else Paren(Parens(e.l)))
              && Parens(e).r == (if Is(Parens(e.r), RightLevel(e.o)) then Parens(e.r) else Paren(Parens(e.r)))
    ensures e.Unary? ==> Parens(e).x == if Is(Parens(e.x), Signed) then Parens(e.x) else Paren(Parens(e.x))
  {
    hide Is, Respects, Edge, Left, Right, Rank, LevelOf, LeftLevel, RightLevel, LimitLevel, EdgeOf, Head;
    PriorityTable(Add, if e.Binary? && IsBinary(e.o) then e.o else Add);
    match e
    case Unary(o, x) =>
      ParensRespect(x);
      RespectsHead(Parens(x), UNARY_PRIORITY);
      PrioritiesAreLevels(Parens(x), UNARY_PRIORITY);
    case Binary(o, l, r) =>
      ParensRespect(l);
      ParensRespect(r);
      RespectsHead(Parens(r), Right(o));
      PrioritiesAreLevels(Parens(r), Right(o));
      LeftOperands(Parens(l), o, 0);
  }

  // ----- the parser ------------------------------------------------------------------------------

  datatype BinOpr = NoBinOpr | BinOpr(o: Operator)

  function GetBinOpr(ts: seq<Token>): BinOpr {
    if BinaryAt(ts) then BinOpr(ts[0].o) else NoBinOpr
  }

  /** 'ts' is what the lexer has not read yet; 'ok' is false after a syntax error. */
  class LexState {
    var ts: seq<Token>

    constructor (ts: seq<Token>)
      ensures this.ts == ts
    {
      this.ts := ts;
    }

    method PrimaryExp() returns (ok: bool, v: Expr)
      modifies this
      requires ts == [] || !ts[0].Const?
      ensures ok == Simple(old(ts)).Done?
      ensures ok ==> Done(v, ts) == Simple(old(ts))
      decreases |ts|, 0
    {
      v := Constant(0);
      if ts != [] && ts[0].Open? {
        ts := ts[1..];
        var op;
        ok, v, op := SubExpr(0);
        if !ok || ts == [] || !ts[0].Close? { return false, v; }
        v := Paren(v);
      } else if ts != [] && ts[0].Name? {
        v := Variable(ts[0].n);
      } else {
        return false, v;
      }
      ts := ts[1..];
      while ts != [] && ts[0].Suffix?
        invariant Suffixes(v, ts) == Simple(old(ts)) && |ts| < |old(ts)|
        decreases |ts|
      {
        v := Suffixed(v, ts[0].n);
        ts := ts[1..];
      }
      ok := true;
    }

    method SimpleExp() returns (ok: bool, v: Expr)
      modifies this
      ensures ok == Simple(old(ts)).Done?
      ensures ok ==> Done(v, ts) == Simple(old(ts))
      decreases |ts|, 1
    {
      if ts != [] && ts[0].Const? {
        ok, v := true, Constant(ts[0].n);
        ts := ts[1..];
      } else {
        ok, v := PrimaryExp();
      }
    }

    /** The operand and all operators with a left priority above the limit. 'op' is the first
        operator that is left. */
    method SubExpr(limit: nat) returns (ok: bool, v: Expr, op: BinOpr)
      modifies this
      ensures ok == Sub(old(ts), limit).Done?
      ensures ok ==> Done(v, ts) == Sub(old(ts), limit) && op == GetBinOpr(ts)
      decreases |ts|, 2
    {
      op := NoBinOpr;
      if ts != [] && ts[0].Op? && IsUnary(ts[0].o) {
        var uop := ts[0].o;
        ts := ts[1..];
        var x, next;
        ok, x, next := SubExpr(UNARY_PRIORITY);
        v := Unary(uop, x);
      } else {
        ok, v := SimpleExp();
      }
      if !ok { return; }
      op := GetBinOpr(ts);
      while op != NoBinOpr && Left(op.o) > limit
        invariant op == GetBinOpr(ts) && Tail(v, ts, limit) == Sub(old(ts), limit) && |ts| < |old(ts)|
        decreases |ts|
      {
        ts := ts[1..];
        var v2, nextop;
        ok, v2, nextop := SubExpr(Right(op.o));
        if !ok { return; }
        v := Binary(op.o, v, v2);
        op := nextop;
      }
    }

    /** An expression of the grammar is read from the tokens, with everything that belongs to it. */
    method Expression() returns (ok: bool, v: Expr)
      modifies this
      ensures ok <==> exists e, rest :: Is(e, OrExp) && old(ts) == Flat(e) + rest && EndsHere(e, rest)
      ensures ok ==> Is(v, OrExp) && old(ts) == Flat(v) + ts && EndsHere(v, ts)
    {
      hide Sub, Is, Flat, EndsHere;
      ghost var was := ts;
      var op;
      ok, v, op := SubExpr(0);
      if ok { ParsesGrammar(was, v, ts); }
      forall e, rest | Is(e, OrExp) && was == Flat(e) + rest && EndsHere(e, rest)
        ensures ok
      {
        ParsesGrammar(was, e, rest);
      }
    }
  }
}

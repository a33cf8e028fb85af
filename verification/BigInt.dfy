/** Multi-word arithmetic on 32-bit words, with 64-bit accumulators. */
module BigInt {
  const BASE: int := 0x1_0000_0000

  type Word = w: int | 0 <= w < 0x1_0000_0000
  type Double = d: int | 0 <= d < 0x1_0000_0000_0000_0000

  // ----- values of words -------------------------------------------------------------------

  function Pow(n: nat): (p: int)
    ensures p >= 1
  {
    if n == 0 then 1 else BASE * Pow(n - 1)
  }

  /** The number that words stand for, the lowest first. */
  function Val(s: seq<Word>): (v: int)
    ensures v >= 0
  {
    if s == [] then 0 else Val(s[..|s| - 1]) + s[|s| - 1] * Pow(|s| - 1)
  }

  lemma ValSnoc(s: seq<Word>, i: nat)
    requires i < |s|
    ensures Val(s[..i + 1]) == Val(s[..i]) + s[i] * Pow(i)
  {
    assert s[..i + 1][..i] == s[..i];
  }

  lemma PowSnoc(i: nat)
    ensures Pow(i + 1) == BASE * Pow(i)
  {
  }

  lemma {:induction false} PowAdd(i: nat, j: nat)
    ensures Pow(i + j) == Pow(i) * Pow(j)
  {
    if i > 0 {
      PowAdd(i - 1, j);
      assert BASE * (Pow(i - 1) * Pow(j)) == (BASE * Pow(i - 1)) * Pow(j);
    }
  }

  lemma {:induction false} PowMonotone(i: nat, j: nat)
    requires i <= j
    ensures Pow(i) <= Pow(j)
    decreases j
  {
    if i < j { PowMonotone(i, j - 1); }
  }

  lemma {:induction false} ValBound(s: seq<Word>)
    ensures Val(s) < Pow(|s|)
  {
    if s != [] {
      var p := Pow(|s| - 1);
      ValBound(s[..|s| - 1]);
      Below(s[|s| - 1] as int, p);
    }
  }

  lemma Below(w: int, p: int)
    requires w <= BASE - 1 && p >= 1
    ensures w * p + p <= BASE * p
  {
    assert (BASE - 1 - w) * p >= 0;
  }

  lemma {:induction false} ValUpdate(s: seq<Word>, k: nat, w: Word)
    requires k < |s|
    ensures Val(s[k := w]) == Val(s) + (w - s[k]) * Pow(k)
    decreases |s|
  {
    var t := s[..|s| - 1];
    if k == |s| - 1 {
      assert s[k := w][..|s| - 1] == t;
      assert w * Pow(k) == s[k] * Pow(k) + (w - s[k]) * Pow(k);
    } else {
      assert s[k := w][..|s| - 1] == t[k := w];
      ValUpdate(t, k, w);
    }
  }

  /** Leading zeros do not count. */
  lemma {:induction false} ValZeros(s: seq<Word>, n: nat)
    requires n <= |s| && forall i :: n <= i < |s| ==> s[i] == 0
    ensures Val(s) == Val(s[..n])
    decreases |s|
  {
    if n < |s| {
      assert s[..|s| - 1][..n] == s[..n];
      ValZeros(s[..|s| - 1], n);
    } else {
      assert s[..n] == s;
    }
  }

  lemma TopBounds(t: int, p: int, low: int)
    requires 0 <= t && 0 <= low < p
    ensures low + t * p < (t + 1) * p && (t > 0 ==> low + t * p >= p)
  {
    assert (t + 1) * p == t * p + p;
    if t > 0 { assert (t - 1) * p >= 0; }
  }

  lemma ValTop(s: seq<Word>)
    requires s != []
    ensures Val(s) >= s[|s| - 1] * Pow(|s| - 1) && Val(s) < (s[|s| - 1] + 1) * Pow(|s| - 1)
    ensures s[|s| - 1] != 0 ==> Val(s) >= Pow(|s| - 1)
  {
    hide Val, Pow;
    ValSnoc(s, |s| - 1);
    assert s[..|s| - 1 + 1] == s;
    ValBound(s[..|s| - 1]);
    TopBounds(s[|s| - 1], Pow(|s| - 1), Val(s[..|s| - 1]));
  }

  // ----- numbers --------------------------------------------------------------------------------

  /** The words in use have no zero on top, unless there is only one. */
  predicate Trimmed(s: seq<Word>) {
    |s| > 1 ==> s[|s| - 1] != 0
  }

  class Bigint {
    var x: array<Word>
    var wds: nat

    predicate Valid()
      reads this
    {
      wds <= x.Length
    }

    function Words(): (s: seq<Word>)
      requires Valid()
      reads this, x
      ensures |s| == wds
    {
      x[..wds]
    }

    function Value(): int
      requires Valid()
      reads this, x
    {
      Val(Words())
    }

    constructor (maxwds: nat)
      ensures Valid() && fresh(x) && x.Length == maxwds && wds == 0
    {
      x := new Word[maxwds](_ => 0);
      wds := 0;
    }
  }

  /** Negative, zero or positive like the difference. */
  method Cmp(a: Bigint, b: Bigint) returns (r: int)
    requires a.Valid() && b.Valid() && Trimmed(a.Words()) && Trimmed(b.Words())
    requires (a.wds == 0 ==> b.wds > 0 && b.x[b.wds - 1] > 0) && (b.wds == 0 ==> a.wds > 0 && a.x[a.wds - 1] > 0)
    ensures r < 0 <==> a.Value() < b.Value()
    ensures r > 0 <==> a.Value() > b.Value()
  {
    hide Val;
    if a.wds != b.wds {
      CmpLengths(a.Words(), b.Words());
      return a.wds - b.wds;
    }
    var j := a.wds;
    ghost var s, t := a.Words(), b.Words();
    assert s[..j] == s && t[..j] == t;
    while j > 0
      invariant 0 <= j <= a.wds && a.wds == b.wds
      invariant Val(s) - Val(t) == Val(s[..j]) - Val(t[..j])
    {
      ValSnoc(s, j - 1);
      ValSnoc(t, j - 1);
      j := j - 1;
      if a.x[j] != b.x[j] {
        CmpWords(s, t, j);
        return if a.x[j] < b.x[j] then -1 else 1;
      }
    }
    assert s[..0] == t[..0];
    return 0;
  }

  lemma CmpLengths(s: seq<Word>, t: seq<Word>)
    requires Trimmed(s) && Trimmed(t) && |s| != |t|
    requires (s == [] ==> t[|t| - 1] > 0) && (t == [] ==> s[|s| - 1] > 0)
    ensures |s| < |t| <==> Val(s) < Val(t)
    ensures |s| > |t| <==> Val(s) > Val(t)
  {
    hide Val, Pow;
    ValBound(s);
    ValBound(t);
    if |s| < |t| {
      ValTop(t);
      PowMonotone(|s|, |t| - 1);
    } else {
      ValTop(s);
      PowMonotone(|t|, |s| - 1);
    }
  }

  lemma TopDecides(u: int, v: int, p: int, a: int, b: int)
    requires u < v && 0 <= a < p && 0 <= b < p
    ensures a + u * p < b + v * p
  {
    assert (v - u - 1) * p >= 0;
    assert v * p == u * p + (v - u - 1) * p + p;
  }

  lemma CmpWords(s: seq<Word>, t: seq<Word>, j: nat)
    requires j < |s| && j < |t| && s[j] != t[j]
    ensures s[j] < t[j] ==> Val(s[..j + 1]) < Val(t[..j + 1])
    ensures s[j] > t[j] ==> Val(s[..j + 1]) > Val(t[..j + 1])
  {
    hide Val, Pow;
    ValSnoc(s, j);
    ValSnoc(t, j);
    ValBound(s[..j]);
    ValBound(t[..j]);
    if s[j] < t[j] {
      TopDecides(s[j], t[j], Pow(j), Val(s[..j]), Val(t[..j]));
    } else {
      TopDecides(t[j], s[j], Pow(j), Val(t[..j]), Val(s[..j]));
    }
  }

  // ----- multiplication ---------------------------------------------------------------------------

  /** One step of a row: the product of two words, the word so far and the carry fit into a
      double word. */
  lemma RowFits(x: int, y: int, c: int, carry: int)
    requires 0 <= x < BASE && 0 <= y < BASE && 0 <= c < BASE && 0 <= carry < BASE
    ensures 0 <= x * y + c + carry < BASE * BASE
  {
    MulBound(x, y, BASE - 1);
  }

  lemma MulBound(x: int, y: int, b: int)
    requires 0 <= x <= b && 0 <= y <= b
    ensures 0 <= x * y <= b * b
  {
    assert (b - x) * y == b * y - x * y;
    assert b * (b - y) == b * b - b * y;
    assert 0 <= x * y && 0 <= (b - x) * y && 0 <= b * (b - y);
  }

  lemma RowSums(x: int, y: int, c: int, carry: int, high: int, low: int, p: int, q: int)
    requires high * BASE + low == x * y + c + carry
    ensures (low - c) * (p * q) + high * ((BASE * p) * q) == carry * (p * q) + (x * p) * (y * q)
  {
    var r := p * q;
    assert (BASE * p) * q == BASE * r;
    assert high * (BASE * r) == (high * BASE) * r;
    assert (x * p) * (y * q) == (x * y) * r by {
      assert (x * p) * (y * q) == x * (p * (y * q)) == x * (y * (p * q));
    }
    assert (low - c) * r + (high * BASE) * r == (low - c + high * BASE) * r;
    assert carry * r + (x * y) * r == (carry + x * y) * r;
  }

  /** The product of the first 'i' words of 's' with 'y' has been added to 'was', from word 'j'
      on, but for the carry. */
  ghost predicate RowSoFar(was: seq<Word>, c: seq<Word>, s: seq<Word>, i: nat, y: Word, j: nat, carry: Word)
    requires i <= |s|
  {
    Val(c) + carry * (Pow(i) * Pow(j)) == Val(was) + Val(s[..i]) * (y * Pow(j))
  }

  ghost predicate RowAdded(was: seq<Word>, c: seq<Word>, s: seq<Word>, y: Word, j: nat) {
    Val(c) == Val(was) + Val(s) * (y * Pow(j))
  }

  lemma RowStart(c: seq<Word>, s: seq<Word>, y: Word, j: nat)
    ensures RowSoFar(c, c, s, 0, y, j, 0)
  {
    assert s[..0] == [];
  }

  lemma RowStep(was: seq<Word>, c: seq<Word>, s: seq<Word>, i: nat, j: nat, y: Word, carry: Word, high: Word, low: Word)
    requires j + i < |c| && i < |s| && high * BASE + low == s[i] * y + c[j + i] + carry
    requires RowSoFar(was, c, s, i, y, j, carry)
    ensures RowSoFar(was, c[j + i := low], s, i + 1, y, j, high)
  {
    hide Val, Pow;
    var p, q := Pow(i), Pow(j);
    PowSnoc(i);
    PowAdd(j, i);
    ValUpdate(c, j + i, low);
    ValSnoc(s, i);
    RowSums(s[i], y, c[j + i], carry, high, low, p, q);
    Distribute(Val(s[..i]), s[i] * p, y * q);
    assert Pow(j + i) == p * q;
  }

  lemma RowEnd(was: seq<Word>, c: seq<Word>, s: seq<Word>, y: Word, j: nat, carry: Word)
    requires RowSoFar(was, c, s, |s|, y, j, carry) && j + |s| < |c| && c[j + |s|] == 0
    ensures RowAdded(was, c[j + |s| := carry], s, y, j)
  {
    hide Val, Pow;
    assert s[..|s|] == s;
    PowAdd(j, |s|);
    ValUpdate(c, j + |s|, carry);
  }

  /** 'c' is the product of 's' and the first 'j' words of 't'. */
  ghost predicate ProductSoFar(c: seq<Word>, s: seq<Word>, t: seq<Word>, j: nat)
    requires j <= |t|
  {
    Val(c) == Val(s) * Val(t[..j])
  }

  lemma ProductStart(c: seq<Word>, s: seq<Word>, t: seq<Word>)
    requires forall i :: 0 <= i < |c| ==> c[i] == 0
    ensures ProductSoFar(c, s, t, 0)
  {
    AllZero(c);
    assert t[..0] == [];
  }

  lemma ProductStep(was: seq<Word>, c: seq<Word>, s: seq<Word>, t: seq<Word>, j: nat)
    requires j < |t| && ProductSoFar(was, s, t, j) && if t[j] == 0 then c == was else RowAdded(was, c, s, t[j], j)
    ensures ProductSoFar(c, s, t, j + 1)
  {
    hide Val, Pow;
    ValSnoc(t, j);
    Distribute(Val(t[..j]), t[j] * Pow(j), Val(s));
  }

  lemma ProductEnd(c: seq<Word>, s: seq<Word>, t: seq<Word>)
    requires ProductSoFar(c, s, t, |t|)
    ensures Val(c) == Val(s) * Val(t) == Val(t) * Val(s)
  {
    assert t[..|t|] == t;
  }

  lemma Distribute(a: int, b: int, c: int)
    ensures (a + b) * c == a * c + b * c
  {
  }

  /** The product, in a new number. */
  method Mult(a0: Bigint, b0: Bigint) returns (c: Bigint)
    requires a0.Valid() && b0.Valid()
    ensures fresh(c) && c.Valid() && c.Value() == a0.Value() * b0.Value()
    ensures c.wds == 0 || c.x[c.wds - 1] != 0
  {
    hide Val, Pow, ProductSoFar, RowAdded;
    var a, b := a0, b0;
    if a.wds < b.wds { a, b := b, a; }
    var wc := a.wds + b.wds;
    c := NewZero(wc);
    ghost var s, t := a.Words(), b.Words();
    var j := 0;
    ProductStart(c.x[..], s, t);
    while j < b.wds
      invariant 0 <= j <= b.wds && wc == a.wds + b.wds == c.x.Length && fresh(c) && fresh(c.x)
      invariant a.Words() == s && b.Words() == t && a.Valid() && b.Valid()
      invariant ProductSoFar(c.x[..], s, t, j)
      invariant forall i :: a.wds + j <= i < wc ==> c.x[i] == 0
    {
      var y := b.x[j];
      ghost var was := c.x[..];
      if y != 0 { Row(a, y, c, j); }
      ProductStep(was, c.x[..], s, t, j);
      j := j + 1;
    }
    ProductEnd(c.x[..], s, t);
    TrimZeros(c, wc);
  }

  method NewZero(n: nat) returns (c: Bigint)
    ensures fresh(c) && fresh(c.x) && c.x.Length == n && c.Valid() && forall i :: 0 <= i < n ==> c.x[i] == 0
  {
    c := new Bigint(n);
    for i := 0 to n
      invariant fresh(c) && fresh(c.x) && c.x.Length == n && c.Valid()
      invariant forall k :: 0 <= k < i ==> c.x[k] == 0
    {
      c.x[i] := 0;
    }
  }

  /** Use as few of the words as possible. */
  method TrimZeros(c: Bigint, n: nat)
    requires n == c.x.Length
    modifies c`wds
    ensures c.Valid() && c.Value() == Val(c.x[..]) && (c.wds == 0 || c.x[c.wds - 1] != 0)
  {
    hide Val;
    var wc := n;
    while wc > 0 && c.x[wc - 1] == 0
      invariant 0 <= wc <= n && forall i :: wc <= i < n ==> c.x[i] == 0
    {
      wc := wc - 1;
    }
    c.wds := wc;
    ValZeros(c.x[..], wc);
    assert c.x[..][..wc] == c.x[..wc];
  }

  /** Add the product of 'a' and the word 'y' to 'c', from word 'j' on. */
  method Row(a: Bigint, y: Word, c: Bigint, j: nat)
    requires a.Valid() && j + a.wds < c.x.Length && c.x[j + a.wds] == 0 && c.x != a.x && a.wds > 0
    modifies c.x
    ensures RowAdded(old(c.x[..]), c.x[..], a.Words(), y, j)
    ensures forall i :: j + a.wds < i < c.x.Length ==> c.x[i] == old(c.x[i])
  {
    hide Val, Pow, RowSoFar, RowAdded;
    ghost var was, s := c.x[..], a.Words();
    var i := 0;
    var carry: Word := 0;
    RowStart(was, s, y, j);
    while i < a.wds
      invariant 0 <= i <= a.wds && a.Words() == s
      invariant forall k :: j + a.wds <= k < c.x.Length ==> c.x[k] == was[k]
      invariant RowSoFar(was, c.x[..], s, i, y, j, carry)
    {
      RowFits(a.x[i], y, c.x[j + i], carry);
      var z: Double := a.x[i] * y + c.x[j + i] + carry;
      ghost var before := c.x[..];
      var high: Word, low: Word := z / BASE, z % BASE;
      RowStep(was, before, s, i, j, y, carry, high, low);
      c.x[j + i] := low;
      assert c.x[..] == before[j + i := low];
      carry := high;
      i := i + 1;
    }
    ghost var before := c.x[..];
    RowEnd(was, before, s, y, j, carry);
    c.x[j + i] := carry;
    assert c.x[..] == before[j + i := carry];
  }

  lemma {:induction false} AllZero(s: seq<Word>)
    requires forall i :: 0 <= i < |s| ==> s[i] == 0
    ensures Val(s) == 0
  {
    if s != [] { AllZero(s[..|s| - 1]); }
  }

  // ----- division with a small quotient -------------------------------------------------------------

  /** The quotient of the top words, the divisor's made one larger, is at most one too small. */
  lemma Estimate(v: int, d: int, p: int, top: int, dtop: int)
    requires p >= 1 && 0 <= top < BASE && 0x1_0000 <= dtop
    requires top * p <= v < (top + 1) * p && dtop * p <= d < (dtop + 1) * p
    ensures var q := top / (dtop + 1); 0 <= q < 0x1_0000 && 0 <= q * d <= v < (q + 2) * d
  {
    var q := top / (dtop + 1);
    QuotientSmall(top, dtop);
    Scale(q * (dtop + 1), top, p);
    Scale(top + 1, (q + 2) * dtop, p);
    assert q * ((dtop + 1) * p) == (q * (dtop + 1)) * p;
    assert (q + 2) * (dtop * p) == ((q + 2) * dtop) * p;
    Times(q, d, (dtop + 1) * p);
    Times(q + 2, dtop * p, d);
  }

  lemma QuotientSmall(top: int, dtop: int)
    requires 0 <= top < BASE && 0x1_0000 <= dtop
    ensures var q := top / (dtop + 1); 0 <= q < 0x1_0000 && q * (dtop + 1) <= top && top + 1 <= (q + 2) * dtop
  {
    var q, m := top / (dtop + 1), top % (dtop + 1);
    assert top == q * (dtop + 1) + m;
    assert q < 0x1_0000 by {
      if q >= 0x1_0000 { MulAtLeast(q, dtop + 1, 0x1_0000); }
    }
    assert (q + 2) * dtop == q * (dtop + 1) - q + 2 * dtop;
  }

  lemma MulAtLeast(x: int, y: int, b: int)
    requires 0 <= b <= x && b <= y
    ensures b * b <= x * y
  {
    assert b * (y - b) >= 0 && (x - b) * y >= 0;
    assert x * y == b * y + (x - b) * y;
    assert b * y == b * b + b * (y - b);
  }

  lemma Scale(x: int, y: int, p: int)
    requires x <= y && 0 <= p
    ensures x * p <= y * p
  {
    assert (y - x) * p >= 0;
  }

  lemma Times(q: int, x: int, y: int)
    requires 0 <= q && x <= y
    ensures q * x <= q * y
  {
    assert q * (y - x) >= 0;
  }

  /** One word of a subtraction: the difference wraps around in 64 bits, and the borrow is bit 32. */
  lemma Borrowed(x: Word, low: Word, borrow: int)
    requires 0 <= borrow <= 1
    ensures var y := (x - low - borrow) % (BASE * BASE);
            y / BASE % 2 == (if x - low - borrow < 0 then 1 else 0)
            && y % BASE == x - low - borrow + BASE * (y / BASE % 2)
  {
    var t := x - low - borrow;
    if t < 0 {
      assert t % (BASE * BASE) == t + BASE * BASE;
      assert t + BASE * BASE == (BASE - 1) * BASE + (t + BASE);
      assert (t + BASE * BASE) / BASE == BASE - 1;
    } else {
      assert t % (BASE * BASE) == t;
    }
  }

  /** 'q' times the first 'i' words of 'd' have been taken off 'was', but for what is still owed. */
  ghost predicate TakenSoFar(was: seq<Word>, x: seq<Word>, d: seq<Word>, i: nat, q: Word, owed: int)
    requires i <= |was| && i <= |x| && i <= |d|
  {
    Val(x[..i]) == Val(was[..i]) - q * Val(d[..i]) + owed * Pow(i)
  }

  lemma TakenStart(was: seq<Word>, d: seq<Word>, q: Word)
    ensures TakenSoFar(was, was, d, 0, q, 0)
  {
    assert was[..0] == [] && d[..0] == [];
  }

  /** Nothing is owed in the end, because the difference is a number of as many words. */
  lemma TakenEnd(was: seq<Word>, x: seq<Word>, d: seq<Word>, q: Word, owed: int)
    requires |d| <= |was| && |d| <= |x| && TakenSoFar(was, x, d, |d|, q, owed) && owed >= 0
    requires q * Val(d) <= Val(was[..|d|])
    ensures owed == 0 && Val(x[..|d|]) == Val(was[..|d|]) - q * Val(d)
  {
    hide Val, Pow;
    assert d[..|d|] == d;
    ValBound(x[..|d|]);
    NothingLeft(Val(x[..|d|]), Val(was[..|d|]) - q * Val(d), owed, Pow(|d|));
  }

  /** Take 'q' times 's' off the number 'b', which is at least that large. */
  method SubtractTimes(b: Bigint, s: Bigint, q: Word)
    requires s.Valid() && 0 < s.wds <= b.x.Length && b.x != s.x
    requires q * s.Value() <= Val(b.x[..s.wds])
    modifies b.x
    ensures Val(b.x[..s.wds]) == old(Val(b.x[..s.wds])) - q * s.Value()
    ensures forall k :: s.wds <= k < b.x.Length ==> b.x[k] == old(b.x[k])
  {
    hide Val, Pow, TakenSoFar;
    ghost var was, d := b.x[..], s.Words();
    var i := 0;
    var borrow: Word, carry: Word := 0, 0;
    TakenStart(was, d, q);
    while i < s.wds
      invariant 0 <= i <= s.wds && s.Words() == d && 0 <= borrow <= 1
      invariant forall k :: i <= k < b.x.Length ==> b.x[k] == was[k]
      invariant TakenSoFar(was, b.x[..], d, i, q, carry + borrow)
    {
      ghost var before, c := b.x[..], carry;
      ghost var o := borrow;
      var w;
      w, carry, borrow := SubtractOne(b.x[i], s.x[i], q, carry, borrow);
      b.x[i] := w;
      SubtractStep(was, d, before, b.x[..], i, q, c, o, carry, borrow);
      i := i + 1;
    }
    assert was[..i] == old(b.x[..s.wds]) && b.x[..][..i] == b.x[..i];
    TakenEnd(was, b.x[..], d, q, carry + borrow);
  }

  /** One word of the difference, with the carry of the product and the borrow. */
  method SubtractOne(x: Word, d: Word, q: Word, c: Word, o: Word) returns (w: Word, carry: Word, borrow: Word)
    requires o <= 1
    ensures borrow <= 1 && w - borrow * BASE == x - (d * q + c - carry * BASE) - o
  {
    RowFits(d, q, 0, c);
    var ys: Double := d * q + c;
    carry := ys / BASE;
    var low: Word := ys % BASE;
    Borrowed(x, low, o);
    var y: Double := (x - low - o) % 0x1_0000_0000_0000_0000;
    borrow := y / BASE % 2;
    w := y % BASE;
  }

  lemma SubtractStep(was: seq<Word>, d: seq<Word>, before: seq<Word>, after: seq<Word>, i: nat, q: Word,
                     c: int, o: int, carry: int, borrow: int)
    requires i < |d| && i < |was| && i < |before| && |after| == |before| && before[i] == was[i]
    requires after == before[i := after[i]]
    requires TakenSoFar(was, before, d, i, q, c + o)
    requires after[i] - borrow * BASE == was[i] - (d[i] * q + c - carry * BASE) - o
    ensures TakenSoFar(was, after, d, i + 1, q, carry + borrow)
  {
    hide Val, Pow;
    var p := Pow(i);
    ValSnoc(after, i);
    ValSnoc(was, i);
    ValSnoc(d, i);
    PowSnoc(i);
    assert after[..i] == before[..i];
    SubtractSums(was[i], d[i], q, c, o, carry, borrow, p, Val(d[..i]), after[i]);
  }

  lemma SubtractSums(x: int, d: int, q: int, c: int, o: int, carry: int, borrow: int, p: int, rest: int, w: int)
    requires w - borrow * BASE == x - (d * q + c - carry * BASE) - o
    ensures (c + o) * p + w * p - q * rest == x * p - q * (rest + d * p) + (carry + borrow) * (BASE * p)
  {
    assert q * (rest + d * p) == q * rest + (d * q) * p;
    assert (carry + borrow) * (BASE * p) == ((carry + borrow) * BASE) * p;
    assert w == x - d * q - c - o + (carry + borrow) * BASE;
    assert w * p == (x - d * q - c - o + (carry + borrow) * BASE) * p;
    assert (x - d * q - c - o + (carry + borrow) * BASE) * p
        == x * p - (d * q) * p - (c + o) * p + ((carry + borrow) * BASE) * p;
  }

  lemma NothingLeft(v: int, d: int, k: int, p: int)
    requires v == d + k * p && 0 <= v < p && d >= 0 && k >= 0
    ensures k == 0
  {
    PositiveTimes(k, p);
  }

  lemma PositiveTimes(k: int, p: int)
    requires p >= 0
    ensures (k >= 1 ==> k * p >= p) && (k <= -1 ==> k * p <= -p)
  {
    if k >= 1 { assert (k - 1) * p >= 0; }
    if k <= -1 { assert (-k - 1) * p >= 0; }
  }

  /** Give up words on top that have become zero; 'n' is the place of the top word. */
  method DropTop(b: Bigint, n0: nat)
    requires b.Valid() && n0 < b.x.Length && b.wds == n0 + 1
    modifies b`wds
    ensures b.Valid() && b.Value() == Val(b.x[..n0 + 1]) && Trimmed(b.Words()) && b.wds <= n0 + 1
    ensures b.wds <= n0 <==> b.x[n0] == 0
  {
    hide Val;
    var n := n0;
    if b.x[n] == 0 {
      var e := n - 1;
      while e > 0 && b.x[e] == 0
        invariant e == n - 1 && n <= n0 && e >= -1 && (n0 > 0 ==> e >= 0)
        invariant forall k :: n <= k <= n0 ==> b.x[k] == 0
      {
        n := n - 1;
        e := e - 1;
      }
      b.wds := n;
      ValZeros(b.x[..n0 + 1], n);
      assert b.x[..n0 + 1][..n] == b.x[..n];
    }
  }

  /** Take off the estimated quotient; less than two divisors are left. */
  method TakeEstimate(b: Bigint, s: Bigint) returns (q: Word)
    requires b.Valid() && s.Valid() && b != s && b.x != s.x
    requires 0 < s.wds == b.wds && Trimmed(b.Words())
    requires 0x1_0000 <= s.x[s.wds - 1] < 0xFFFF_FFFF
    modifies b, b.x
    ensures b.Valid() && b.x == old(b.x) && Trimmed(b.Words()) && b.wds <= old(b.wds) && q < 0x1_0000
    ensures 0 <= b.Value() < 2 * s.Value() && b.Value() == old(b.Value()) - q * s.Value()
  {
    hide Val, Pow, Trimmed;
    var n := s.wds - 1;
    ghost var v, d := b.Value(), s.Value();
    ValTop(s.Words());
    ValTop(b.Words());
    Estimate(v, d, Pow(n), b.x[n], s.x[n]);
    q := b.x[n] / (s.x[n] + 1);
    Distribute(q, 2, d);
    if q != 0 {
      assert b.x[..s.wds] == b.Words();
      SubtractTimes(b, s, q);
      DropTop(b, n);
    }
  }

  /** The quotient, with the remainder left in 'b'. */
  method Quorem(b: Bigint, s: Bigint) returns (q: Word)
    requires b.Valid() && s.Valid() && b != s && b.x != s.x
    requires 0 < s.wds && b.wds <= s.wds && Trimmed(b.Words())
    requires 0x1_0000 <= s.x[s.wds - 1] < 0xFFFF_FFFF
    modifies b, b.x
    ensures b.Valid() && b.x == old(b.x) && Trimmed(b.Words()) && b.wds <= old(b.wds)
    ensures s.Value() > 0 && q == old(b.Value()) / s.Value() && b.Value() == old(b.Value()) % s.Value()
  {
    hide Val, Pow, Trimmed;
    ghost var v, d := b.Value(), s.Value();
    ValTop(s.Words());
    if b.wds < s.wds {
      ValBound(b.Words());
      PowMonotone(b.wds, s.wds - 1);
      Divides(v, d, 0);
      return 0;
    }
    q := TakeEstimate(b, s);
    ghost var first := q;
    var more := Correct(b, s);
    q := q + more;
    Distribute(first, more, d);
    Distribute(q, 1, d);
    Divides(v, d, q);
  }

  /** Take the divisor off once more if it is not larger. */
  method Correct(b: Bigint, s: Bigint) returns (more: Word)
    requires b.Valid() && s.Valid() && b != s && b.x != s.x && 0 < s.wds <= b.x.Length && b.wds <= s.wds
    requires Trimmed(b.Words()) && s.x[s.wds - 1] != 0 && (b.wds == 0 ==> s.wds > 0)
    modifies b, b.x
    ensures b.Valid() && b.x == old(b.x) && Trimmed(b.Words()) && b.wds <= old(b.wds)
    ensures more == (if old(b.Value()) >= s.Value() then 1 else 0) && b.Value() == old(b.Value()) - more * s.Value()
  {
    hide Val, Pow;
    var c := Cmp(b, s);
    if c < 0 { return 0; }
    CmpLengths2(b.Words(), s.Words());
    assert b.x[..s.wds] == b.Words();
    SubtractTimes(b, s, 1);
    DropTop(b, s.wds - 1);
    more := 1;
  }

  /** A number that is not smaller has as many words. */
  lemma CmpLengths2(s: seq<Word>, t: seq<Word>)
    requires Trimmed(s) && t != [] && t[|t| - 1] != 0 && |s| <= |t| && Val(s) >= Val(t)
    ensures |s| == |t|
  {
    hide Val, Pow;
    if |s| != |t| { CmpLengths(s, t); }
  }

  lemma Divides(v: int, d: int, q: int)
    requires 0 < d && q * d <= v < (q + 1) * d
    ensures v / d == q && v % d == v - q * d
  {
    var e, r := v / d, v % d;
    assert v == e * d + r;
    assert (q + 1) * d == q * d + d;
    PositiveTimes(e - q, d);
    assert (e - q) * d == e * d - q * d;
  }

  /** A dividend below ten times a divisor whose top word is below 2^28 has not more words, and
      the quotient is a decimal digit. */
  lemma TenTimesFits(b: seq<Word>, s: seq<Word>)
    requires Trimmed(b) && s != [] && s[|s| - 1] < 0x1000_0000 && Val(b) < 10 * Val(s)
    ensures |b| <= |s| && Val(b) / Val(s) <= 9
  {
    hide Val, Pow;
    var p, t := Pow(|s| - 1), s[|s| - 1] as int;
    ValTop(s);
    Scale(t + 1, 0x1000_0000, p);
    PowSnoc(|s| - 1);
    if |b| > |s| {
      ValTop(b);
      PowMonotone(|s|, |b| - 1);
    }
    DigitQuotient(Val(b), Val(s));
  }

  lemma DigitQuotient(v: int, d: int)
    requires 0 <= v < 10 * d
    ensures v / d <= 9
  {
    var e := v / d;
    assert v == e * d + v % d;
    PositiveTimes(e - 9, d);
    assert (e - 9) * d == e * d - 9 * d;
  }

  // ----- making a divisor's top word 28 bits long ------------------------------------------------------

  function Two(k: nat): (p: int)
    ensures p >= 1
  {
    if k == 0 then 1 else 2 * Two(k - 1)
  }

  lemma {:induction false} TwoAdd(j: nat, k: nat)
    ensures Two(j + k) == Two(j) * Two(k)
  {
    if j > 0 { TwoAdd(j - 1, k); }
  }

  lemma TwoValues()
    ensures Two(1) == 2 && Two(2) == 4 && Two(4) == 16 && Two(8) == 0x100 && Two(16) == 0x1_0000 && Two(32) == BASE
  {
    assert Two(1) == 2 * Two(0);
    TwoAdd(1, 1);
    TwoAdd(2, 2);
    TwoAdd(4, 4);
    TwoAdd(8, 8);
    TwoAdd(16, 16);
  }

  lemma {:induction false} PowTwo(n: nat)
    ensures Pow(n) == Two(32 * n)
  {
    if n > 0 {
      PowTwo(n - 1);
      TwoAdd(32, 32 * (n - 1));
      TwoValues();
    }
  }

  lemma Shifted(x: int, p: int, q: int, r: int, w: int)
    requires x == w * p && r == p * q
    ensures x * q == w * r
  {
    assert (w * p) * q == w * (p * q);
  }

  /** How many zero bits are on top of a word. */
  method Hi0Bits(w: Word) returns (k: nat)
    ensures w == 0 ==> k == 32
    ensures w != 0 ==> k < 32 && BASE / 2 <= w * Two(k) < BASE
  {
    hide Two;
    TwoValues();
    var x := w;
    k := 0;
    assert Two(0) == 1 by { TwoAdd(0, 1); }
    if x < 0x1_0000 {
      k := 16;
      x := x * 0x1_0000;
    }
    if x < 0x100_0000 {
      TwoAdd(k, 8);
      Shifted(x, Two(k), 0x100, Two(k + 8), w);
      k := k + 8;
      x := x * 0x100;
    }
    if x < 0x1000_0000 {
      TwoAdd(k, 4);
      Shifted(x, Two(k), 16, Two(k + 4), w);
      k := k + 4;
      x := x * 16;
    }
    if x < 0x4000_0000 {
      TwoAdd(k, 2);
      Shifted(x, Two(k), 4, Two(k + 2), w);
      k := k + 2;
      x := x * 4;
    }
    if x < 0x8000_0000 {
      TwoAdd(k, 1);
      Shifted(x, Two(k), 2, Two(k + 1), w);
      k := k + 1;
      if x < 0x4000_0000 {
        assert w == 0 by { if w >= 1 { PositiveTimes(w, Two(k)); } }
        return 32;
      }
      x := x * 2;
    }
  }

  /** The words of 's' shifted by 'k' bits, 'k' below 32, have gone to 'c' from word 'n' on. */
  ghost predicate ShiftedSoFar(c: seq<Word>, s: seq<Word>, i: nat, n: nat, k: nat, z: int)
    requires i <= |s| && n + i <= |c|
  {
    Val(c[..n + i]) + z * (Pow(n) * Pow(i)) == Val(s[..i]) * (Two(k) * Pow(n))
  }

  /** A word and the bits that were shifted out of the one below it fit into a word. */
  lemma ShiftWord(x: Word, z: int, k: nat)
    requires 0 < k < 32 && 0 <= z < Two(k)
    ensures Two(32 - k) > 0
    ensures var high, low := x / Two(32 - k), x * Two(k) % BASE + z;
            0 <= high < Two(k) && 0 <= low < BASE && high * BASE + low == x * Two(k) + z
  {
    hide Two;
    var p, q := Two(k), Two(32 - k);
    TwoAdd(k, 32 - k);
    TwoValues();
    ShiftSplit(x, p, q, x / q, x % q);
    Remainder(x * p, x / q, x % q * p);
  }

  lemma ShiftSplit(x: int, p: int, q: int, u: int, v: int)
    requires p >= 1 && q >= 1 && p * q == BASE && x == u * q + v && 0 <= v < q && 0 <= x < BASE
    ensures x * p == u * BASE + v * p && 0 <= v * p <= BASE - p && 0 <= u < p
  {
    Assoc(u, q, p);
    Distribute(u * q, v, p);
    Scale(v + 1, q, p);
    Distribute(v, 1, p);
    if u >= p { Scale(p, u, q); }
    if u < 0 { PositiveTimes(u, q); }
  }

  lemma Remainder(y: int, u: int, r: int)
    requires y == u * BASE + r && 0 <= r < BASE
    ensures y % BASE == r
  {
  }

  lemma ShiftSums(a: int, z: int, low: int, high: int, x: int, p: int, i: int, n: int, rest: int)
    requires high * BASE + low == x * p + z && a + z * (n * i) == rest * (p * n)
    ensures a + low * (n * i) + high * (n * (BASE * i)) == (rest + x * i) * (p * n)
  {
    var r := n * i;
    assert n * (BASE * i) == BASE * r;
    assert high * (BASE * r) == (high * BASE) * r;
    assert (x * i) * (p * n) == (x * p) * r by {
      assert (x * i) * (p * n) == x * (i * (p * n)) == x * (p * (n * i));
    }
    assert (rest + x * i) * (p * n) == rest * (p * n) + (x * i) * (p * n);
    assert low * r + (high * BASE) * r == (low + high * BASE) * r;
    assert (x * p + z) * r == (x * p) * r + z * r;
  }

  lemma ShiftStep(before: seq<Word>, c: seq<Word>, s: seq<Word>, i: nat, n: nat, k: nat, z: int, high: int)
    requires i < |s| && n + i < |c| == |before| && ShiftedSoFar(before, s, i, n, k, z)
    requires c[..n + i] == before[..n + i] && high * BASE + c[n + i] == s[i] * Two(k) + z
    ensures ShiftedSoFar(c, s, i + 1, n, k, high)
  {
    hide Val, Pow, Two;
    ValSnoc(c, n + i);
    ValSnoc(s, i);
    PowSnoc(i);
    PowAdd(n, i);
    ShiftSums(Val(c[..n + i]), z, c[n + i], high, s[i], Two(k), Pow(i), Pow(n), Val(s[..i]));
  }

  lemma ShiftStart(c: seq<Word>, s: seq<Word>, n: nat, k: nat)
    requires n <= |c| && forall i :: 0 <= i < n ==> c[i] == 0
    ensures ShiftedSoFar(c, s, 0, n, k, 0)
  {
    AllZero(c[..n]);
    assert s[..0] == [];
  }

  /** The number times a power of two, in a new number. */
  method LShift(b: Bigint, bits: nat) returns (c: Bigint)
    requires b.Valid() && b.wds > 0
    ensures fresh(c) && c.Valid() && c.Value() == b.Value() * Two(bits)
    ensures b.x[b.wds - 1] != 0 ==> c.wds > 0 && c.x[c.wds - 1] != 0
  {
    hide Val, Pow, Two, ShiftedSoFar;
    var n, k, m := bits / 32, bits % 32, b.wds;
    c := NewZero(n + m + 1);
    ghost var s := b.Words();
    ShiftStart(c.x[..], s, n, k);
    if k != 0 {
      ShiftBits(b, c, n, k);
    } else {
      CopyWords(b, c, n);
    }
    PowTwo(n);
    TwoAdd(k, 32 * n);
    assert s[..m] == s;
  }

  /** Shift the words of 'b' by less than a word. */
  method ShiftBits(b: Bigint, c: Bigint, n: nat, k: nat)
    requires b.Valid() && b.wds > 0 && c != b && c.x != b.x && c.x.Length == n + b.wds + 1 && 0 < k < 32
    requires forall j :: 0 <= j < c.x.Length ==> c.x[j] == 0
    modifies c, c.x
    ensures c.Valid() && c.x == old(c.x) && c.Value() == b.Value() * (Two(k) * Pow(n))
    ensures b.x[b.wds - 1] != 0 ==> c.wds > 0 && c.x[c.wds - 1] != 0
  {
    hide Val, Pow, Two, ShiftedSoFar;
    var m := b.wds;
    ghost var s := b.Words();
    ShiftStart(c.x[..], s, n, k);
    var z, i := 0, 0;
    while i < m
      invariant 0 <= i <= m && c.x == old(c.x) && b.Words() == s && b.Valid() && b.wds == m
      invariant c.x[n + m] == 0 && ShiftedSoFar(c.x[..], s, i, n, k, z) && 0 <= z < Two(k)
      invariant i > 0 && s[i - 1] != 0 ==> c.x[n + i - 1] != 0 || z != 0
      decreases m - i
    {
      ghost var before, was := c.x[..], z;
      var low, high := ShiftOne(b.x[i], z, k);
      c.x[n + i] := low;
      z := high;
      assert c.x[..][..n + i] == before[..n + i];
      ShiftStep(before, c.x[..], s, i, n, k, was, z);
      i := i + 1;
    }
    ShiftTop(z, k);
    ghost var before := c.x[..];
    c.x[n + m] := z;
    ShiftKept(before, c.x[..], s, n, k, z);
    c.wds := if z != 0 then n + m + 1 else n + m;
    ShiftEnd(c.x[..], s, n, k, z);
    assert c.x[..][..n + m] == c.x[..n + m] && c.x[..][..n + m + 1] == c.x[..n + m + 1];
  }

  /** The bits of a word that stay, with those from below, and the bits that go up. */
  method ShiftOne(x: Word, z: int, k: nat) returns (low: Word, high: int)
    requires 0 < k < 32 && 0 <= z < Two(k)
    ensures high * BASE + low == x * Two(k) + z && 0 <= high < Two(k)
    ensures x != 0 ==> low != 0 || high != 0
  {
    hide Two;
    ShiftWord(x, z, k);
    low := x * Two(k) % BASE + z;
    high := x / Two(32 - k);
    NotZero(x, Two(k), z);
  }

  lemma NotZero(x: int, p: int, z: int)
    requires p >= 1 && z >= 0 && x >= 0
    ensures x != 0 ==> x * p + z > 0
  {
  }

  lemma ShiftTop(z: int, k: nat)
    requires k < 32 && z < Two(k)
    ensures z < BASE
  {
    hide Two;
    TwoAdd(k, 32 - k);
    TwoValues();
    Times(Two(k), 1, Two(32 - k));
  }

  lemma ShiftKept(before: seq<Word>, c: seq<Word>, s: seq<Word>, n: nat, k: nat, z: int)
    requires |before| == |c| == n + |s| + 1 && ShiftedSoFar(before, s, |s|, n, k, z)
    requires forall j :: 0 <= j < n + |s| ==> c[j] == before[j]
    ensures ShiftedSoFar(c, s, |s|, n, k, z)
  {
    assert c[..n + |s|] == before[..n + |s|];
  }

  lemma ShiftEnd(c: seq<Word>, s: seq<Word>, n: nat, k: nat, z: int)
    requires |c| == n + |s| + 1 && c[n + |s|] == z && ShiftedSoFar(c, s, |s|, n, k, z)
    ensures Val(c[..n + |s| + 1]) == Val(s) * (Two(k) * Pow(n))
    ensures z == 0 ==> Val(c[..n + |s|]) == Val(s) * (Two(k) * Pow(n))
  {
    hide Val, Pow, Two;
    assert s[..|s|] == s;
    ValSnoc(c, n + |s|);
    PowAdd(n, |s|);
  }

  method CopyWords(b: Bigint, c: Bigint, n: nat)
    requires b.Valid() && b.wds > 0 && c != b && c.x != b.x && c.x.Length == n + b.wds + 1
    requires forall j :: 0 <= j < c.x.Length ==> c.x[j] == 0
    modifies c, c.x
    ensures c.Valid() && c.x == old(c.x) && c.Value() == b.Value() * (Two(0) * Pow(n))
    ensures b.x[b.wds - 1] != 0 ==> c.wds > 0 && c.x[c.wds - 1] != 0
  {
    hide Val, Pow, Two, ShiftedSoFar;
    var m, i := b.wds, 0;
    ghost var s := b.Words();
    ShiftStart(c.x[..], s, n, 0);
    while i < m
      invariant 0 <= i <= m && c.x == old(c.x) && b.Words() == s && b.Valid() && b.wds == m
      invariant c.x[n + m] == 0 && ShiftedSoFar(c.x[..], s, i, n, 0, 0) && (i > 0 ==> c.x[n + i - 1] == s[i - 1])
      decreases m - i
    {
      ghost var before := c.x[..];
      c.x[n + i] := b.x[i];
      TwoZero();
      assert c.x[..][..n + i] == before[..n + i];
      ShiftStep(before, c.x[..], s, i, n, 0, 0, 0);
      i := i + 1;
    }
    c.wds := n + m;
    ShiftEnd(c.x[..], s, n, 0, 0);
    assert c.x[..][..n + m] == c.x[..n + m];
  }

  lemma TwoZero()
    ensures Two(0) == 1
  {
  }

  /** By how many bits a number has to be shifted, besides 'p2', to have four zero bits on top. */
  method DShift(b: Bigint, p2: int) returns (rv: nat, ghost h: nat)
    requires b.Valid() && b.wds > 0 && b.x[b.wds - 1] != 0
    ensures h < 32 && BASE / 2 <= b.x[b.wds - 1] * Two(h) < BASE
    ensures rv < 32 && (h - 4 - (if p2 > 0 then p2 else 0) - rv) % 32 == 0
  {
    var k := Hi0Bits(b.x[b.wds - 1]);
    h := k;
    var r: int := k;
    r := r - 4;
    if p2 > 0 { r := r - p2; }
    rv := r % 32;
  }

  /** The bounds on a number whose top word has 'h' leading zero bits. */
  lemma Magnitude(s: seq<Word>, h: nat)
    requires s != [] && h < 32 && BASE / 2 <= s[|s| - 1] * Two(h) < BASE
    ensures BASE / 2 * Pow(|s| - 1) <= Val(s) * Two(h) < BASE * Pow(|s| - 1)
  {
    hide Val, Pow, Two;
    var t, q := s[|s| - 1] as int, Two(h);
    ValTop(s);
    TwoAdd(h, 32 - h);
    TwoValues();
    TopFits(t, q, Two(32 - h));
    MagnitudeSums(t, q, Pow(|s| - 1), Val(s));
  }

  lemma TopFits(t: int, q: int, r: int)
    requires q >= 1 && t * q < q * r
    ensures (t + 1) * q <= q * r
  {
    PositiveTimes(t - r, q);
    assert (t - r) * q == t * q - q * r;
    if t < r { Scale(t + 1, r, q); }
  }

  lemma MagnitudeSums(t: int, q: int, p: int, v: int)
    requires p >= 1 && q >= 1 && BASE / 2 <= t * q && (t + 1) * q <= BASE && t * p <= v < (t + 1) * p
    ensures BASE / 2 * p <= v * q < BASE * p
  {
    Scale(BASE / 2, t * q, p);
    Swap(t, q, p);
    Scale(t * p, v, q);
    Strictly(v, (t + 1) * p, q);
    Swap(t + 1, p, q);
    Scale((t + 1) * q, BASE, p);
  }

  lemma Swap(x: int, y: int, z: int)
    ensures (x * y) * z == (x * z) * y
  {
    Assoc(x, y, z);
    Assoc(x, z, y);
  }

  lemma Assoc(x: int, y: int, z: int)
    ensures (x * y) * z == x * (y * z)
  {
  }

  lemma Strictly(x: int, y: int, q: int)
    requires x < y && q >= 1
    ensures x * q < y * q
  {
    PositiveTimes(y - x, q);
    assert (y - x) * q == y * q - x * q;
  }

  /** A number between those bounds has a top word of exactly 28 bits. */
  lemma TopWord(t: seq<Word>, n: nat)
    requires t != [] && t[|t| - 1] != 0 && 0x800_0000 * Pow(n) <= Val(t) < 0x1000_0000 * Pow(n)
    ensures |t| == n + 1 && 0x800_0000 <= t[|t| - 1] < 0x1000_0000
  {
    hide Val, Pow;
    ValTop(t);
    ValBound(t);
    PowSnoc(n);
    if |t| - 1 > n { PowMonotone(n + 1, |t| - 1); }
    if |t| - 1 < n { PowMonotone(|t|, n); }
    var w, p := t[|t| - 1] as int, Pow(n);
    if w >= 0x1000_0000 { Scale(0x1000_0000, w, p); }
    if w + 1 <= 0x800_0000 { Scale(w + 1, 0x800_0000, p); }
  }

  /** Shifted by what DShift says, a divisor meets what the estimate of the quotient needs. */
  lemma DShiftNormalises(s: seq<Word>, t: seq<Word>, h: nat, bits: nat)
    requires s != [] && h < 32 && BASE / 2 <= s[|s| - 1] * Two(h) < BASE && (h - 4 - bits) % 32 == 0
    requires t != [] && t[|t| - 1] != 0 && Val(t) == Val(s) * Two(bits)
    ensures 0x800_0000 <= t[|t| - 1] < 0x1000_0000
  {
    hide Val, Pow, Two;
    var m := (bits + 4 - h) / 32;
    assert bits + 4 == h + 32 * m;
    var n := |s| - 1;
    Magnitude(s, h);
    TwoAdd(bits, 4);
    TwoAdd(h, 32 * m);
    TwoValues();
    PowTwo(m);
    PowAdd(n, m);
    ShiftedBounds(Val(s), Val(t), Two(bits), Two(h), Pow(m), Pow(n));
    TopWord(t, n + m);
  }

  lemma ShiftedBounds(v: int, w: int, a: int, b: int, p: int, q: int)
    requires w == v * a && a * 16 == b * p && p >= 1 && BASE / 2 * q <= v * b < BASE * q
    ensures 0x800_0000 * (q * p) <= w < 0x1000_0000 * (q * p)
  {
    assert w * 16 == (v * b) * p by {
      Assoc(v, a, 16);
      Assoc(v, b, p);
    }
    ScaledBounds(v * b, w, p, q);
  }

  lemma ScaledBounds(x: int, w: int, p: int, q: int)
    requires w * 16 == x * p && p >= 1 && BASE / 2 * q <= x < BASE * q
    ensures 0x800_0000 * (q * p) <= w < 0x1000_0000 * (q * p)
  {
    Scale(BASE / 2 * q, x, p);
    Strictly(x, BASE * q, p);
    Assoc(BASE / 2, q, p);
    Assoc(BASE, q, p);
  }
}

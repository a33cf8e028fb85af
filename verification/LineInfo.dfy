/** Packed line numbers: runs of instructions on the same line, each with a variable-length line
    delta, in a byte vector that is filled up and ends in its only zero. */
module LineInfo {
  type byte = b: int | 0 <= b < 256

  const FILL: byte := 0x7F
  const DELTA_MASK: int := 0x80
  const MAX_LINECNT: int := 126
  const MINSIZEARRAY: nat := 4

  /** 'count' instructions on the line that is 'delta' + 1 after the line of the run before. */
  datatype Run = Run(delta: int, count: byte)

  predicate Counts(rs: seq<Run>) {
    forall i :: 0 <= i < |rs| ==> 1 <= rs[i].count <= MAX_LINECNT
  }

  // ----- bytes of a run ----------------------------------------------------------------

  /** Seven bits a byte, the lowest first. */
  function Digits(m: nat): (r: seq<byte>)
    ensures forall i :: 0 <= i < |r| ==> r[i] >= DELTA_MASK
    ensures m == 0 <==> r == []
  {
    if m == 0 then [] else [DELTA_MASK + m % 128] + Digits(m / 128)
  }

  /** The first byte has the sign and six bits. */
  function Magnitude(negative: bool, m: nat): (r: seq<byte>)
    ensures forall i :: 0 <= i < |r| ==> r[i] >= DELTA_MASK
  {
    [DELTA_MASK + (if negative then 64 else 0) + m % 64] + Digits(m / 64)
  }

  function DeltaBytes(d: int): (r: seq<byte>)
    ensures forall i :: 0 <= i < |r| ==> r[i] >= DELTA_MASK
  {
    if d == 0 then [] else if d < 0 then Magnitude(true, -d - 1) else Magnitude(false, d - 1)
  }

  function Bytes(rs: seq<Run>): seq<byte> {
    if rs == [] then [] else Bytes(rs[..|rs| - 1]) + (DeltaBytes(rs[|rs| - 1].delta) + [rs[|rs| - 1].count])
  }

  // ----- lines -------------------------------------------------------------------------

  function LastLine(rs: seq<Run>): int {
    if rs == [] then 0 else LastLine(rs[..|rs| - 1]) + rs[|rs| - 1].delta + 1
  }

  function Repeat(line: int, n: nat): (r: seq<int>)
    ensures |r| == n && forall i :: 0 <= i < n ==> r[i] == line
  {
    seq(n, _ => line)
  }

  /** The line of each instruction. */
  function Lines(rs: seq<Run>): seq<int> {
    if rs == [] then [] else Lines(rs[..|rs| - 1]) + Repeat(LastLine(rs), rs[|rs| - 1].count)
  }

  lemma SnocRun(rs: seq<Run>, r: Run)
    ensures var q := rs + [r];
            && Bytes(q) == Bytes(rs) + (DeltaBytes(r.delta) + [r.count])
            && LastLine(q) == LastLine(rs) + r.delta + 1
            && Lines(q) == Lines(rs) + Repeat(LastLine(q), r.count)
  {
    assert (rs + [r])[..|rs|] == rs;
  }

  // ----- the decoder on bytes ----------------------------------------------------------

  /** The number in the delta bytes from 'p' on, up to the next count. */
  function Number(c: seq<byte>, p: nat): nat
    requires p <= |c|
    decreases |c| - p
  {
    if p < |c| && c[p] >= DELTA_MASK then c[p] % 128 + 128 * Number(c, p + 1) else 0
  }

  /** The place after the delta bytes from 'p' on. */
  function AfterDelta(c: seq<byte>, p: nat): (r: nat)
    requires p <= |c|
    ensures p <= r <= |c| && (r < |c| ==> c[r] < DELTA_MASK)
    decreases |c| - p
  {
    if p < |c| && c[p] >= DELTA_MASK then AfterDelta(c, p + 1) else p
  }

  /** What the decoder adds to the line at a run that starts at 'p'. */
  function LineStep(c: seq<byte>, p: nat): int
    requires p < |c|
  {
    if c[p] < DELTA_MASK then 1
    else
      var m := c[p] % 64 + 64 * Number(c, p + 1);
      SignedStep(c[p] / 64 % 2 == 1, m)
  }

  function SignedStep(negative: bool, m: int): int {
    if negative then -m else m + 2
  }

  /** The bytes 'd' stand at place 'p'. */
  predicate BytesAt(c: seq<byte>, p: nat, d: seq<byte>) {
    p + |d| <= |c| && forall i {:trigger d[i]} :: 0 <= i < |d| ==> c[p + i] == d[i]
  }

  lemma BytesAtTail(c: seq<byte>, p: nat, d: seq<byte>)
    requires BytesAt(c, p, d) && d != []
    ensures p < |c| && c[p] == d[0] && BytesAt(c, p + 1, d[1..])
  {
    assert c[p + 0] == d[0];
    forall i | 0 <= i < |d[1..]| ensures c[p + 1 + i] == d[1..][i] { assert c[p + (i + 1)] == d[i + 1]; }
  }

  lemma {:induction false} DigitsNumber(c: seq<byte>, p: nat, m: nat, k: byte)
    requires k < DELTA_MASK && BytesAt(c, p, Digits(m) + [k])
    ensures p <= |c| && Number(c, p) == m && AfterDelta(c, p) == p + |Digits(m)|
    decreases m
  {
    hide BytesAt;
    BytesAtTail(c, p, Digits(m) + [k]);
    if m > 0 {
      assert (Digits(m) + [k])[1..] == Digits(m / 128) + [k];
      DigitsNumber(c, p + 1, m / 128, k);
    }
  }

  lemma FirstByte(negative: bool, m: nat)
    ensures var b := DELTA_MASK + (if negative then 64 else 0) + m % 64;
            b % 64 == m % 64 && (b / 64 % 2 == 1 <==> negative) && m == m % 64 + 64 * (m / 64)
  {
  }

  lemma MagnitudeDecodes(c: seq<byte>, p: nat, negative: bool, m: nat, k: byte)
    requires k < DELTA_MASK && BytesAt(c, p, Magnitude(negative, m) + [k])
    ensures p < |c| && c[p] >= DELTA_MASK && LineStep(c, p) == SignedStep(negative, m)
    ensures AfterDelta(c, p) == p + |Magnitude(negative, m)|
  {
    hide BytesAt, Digits, Number, SignedStep;
    FirstByte(negative, m);
    BytesAtTail(c, p, Magnitude(negative, m) + [k]);
    assert (Magnitude(negative, m) + [k])[1..] == Digits(m / 64) + [k];
    DigitsNumber(c, p + 1, m / 64, k);
    assert AfterDelta(c, p) == AfterDelta(c, p + 1);
  }

  /** A run decodes to its delta and its count. */
  lemma RunDecodes(c: seq<byte>, p: nat, r: Run)
    requires 1 <= r.count <= MAX_LINECNT && BytesAt(c, p, DeltaBytes(r.delta) + [r.count])
    ensures p < |c| && c[p] != 0 && c[p] != FILL
    ensures LineStep(c, p) == r.delta + 1
    ensures var q := AfterDelta(c, p);
            q == p + |DeltaBytes(r.delta)| && q < |c| && c[q] == r.count
  {
    hide Magnitude, LineStep, AfterDelta;
    var d := DeltaBytes(r.delta);
    assert c[p + |d|] == (d + [r.count])[|d|];
    if r.delta != 0 {
      MagnitudeDecodes(c, p, r.delta < 0, if r.delta < 0 then -r.delta - 1 else r.delta - 1, r.count);
    } else {
      ShortStep(c, p);
    }
  }

  lemma ShortStep(c: seq<byte>, p: nat)
    requires p < |c| && c[p] < DELTA_MASK
    ensures LineStep(c, p) == 1 && AfterDelta(c, p) == p
  {
  }

  // ----- luaG_getline ------------------------------------------------------------------

  /** The bytes hold the runs, followed by a byte that ends them. */
  predicate Holds(c: seq<byte>, rs: seq<Run>) {
    && |Bytes(rs)| < |c| && Bytes(rs) <= c && (c[|Bytes(rs)|] == 0 || c[|Bytes(rs)|] == FILL)
  }

  lemma {:induction false} BytesPrefix(rs: seq<Run>, k: nat)
    requires k <= |rs|
    ensures Bytes(rs[..k]) <= Bytes(rs) && Lines(rs[..k]) <= Lines(rs)
    decreases |rs|
  {
    if k < |rs| {
      assert rs[..|rs| - 1][..k] == rs[..k];
      BytesPrefix(rs[..|rs| - 1], k);
    } else {
      assert rs[..k] == rs;
    }
  }

  /** The bytes of run 'k' stand after the bytes of the runs before it. */
  lemma RunAt(c: seq<byte>, rs: seq<Run>, k: nat)
    requires Holds(c, rs) && k < |rs|
    ensures var p := |Bytes(rs[..k])|;
            BytesAt(c, p, DeltaBytes(rs[k].delta) + [rs[k].count])
    ensures |Bytes(rs[..k + 1])| == |Bytes(rs[..k])| + |DeltaBytes(rs[k].delta)| + 1
    ensures LastLine(rs[..k + 1]) == LastLine(rs[..k]) + rs[k].delta + 1
    ensures Lines(rs[..k + 1]) == Lines(rs[..k]) + Repeat(LastLine(rs[..k + 1]), rs[k].count)
  {
    hide Bytes, Lines, LastLine, DeltaBytes;
    assert rs[..k + 1] == rs[..k] + [rs[k]];
    SnocRun(rs[..k], rs[k]);
    BytesPrefix(rs, k + 1);
    PrefixAt(c, Bytes(rs[..k]), DeltaBytes(rs[k].delta) + [rs[k].count]);
  }

  lemma PrefixAt(c: seq<byte>, a: seq<byte>, d: seq<byte>)
    requires a + d <= c
    ensures BytesAt(c, |a|, d)
  {
    forall i | 0 <= i < |d| ensures c[|a| + i] == d[i] { assert (a + d)[|a| + i] == d[i]; }
  }

  /** The line of an instruction; 0 if there is none. */
  method GetLine(info: array<byte>, pc: int, ghost rs: seq<Run>) returns (line: int)
    requires Counts(rs) && Holds(info[..], rs)
    ensures line == if 0 <= pc < |Lines(rs)| then Lines(rs)[pc] else 0
  {
    hide Bytes, Lines, LastLine, Number, AfterDelta, DeltaBytes;
    ghost var k := 0;
    line := 0;
    var p, thispc := 0, 0;
    NoRuns(rs);
    while info[p] != 0 && info[p] != FILL
      invariant 0 <= k <= |rs| && p == |Bytes(rs[..k])| && p < info.Length
      invariant thispc == |Lines(rs[..k])| && line == LastLine(rs[..k])
      invariant pc < 0 || thispc <= pc
      decreases |rs| - k
    {
      NotAtEnd(info[..], rs, k);
      RunAt(info[..], rs, k);
      RunDecodes(info[..], p, rs[k]);
      var step, q := Decode(info, p);
      p := q;
      line := line + step;
      var nextpc := thispc + info[p];
      BytesPrefix(rs, k + 1);
      p := p + 1;
      if thispc <= pc && pc < nextpc {
        assert Lines(rs)[pc] == Lines(rs[..k + 1])[pc];
        return;
      }
      thispc := nextpc;
      k := k + 1;
      WithinHolds(info[..], rs, k);
    }
    AtEnd(info[..], rs, k);
    line := 0;
  }

  lemma NoRuns(rs: seq<Run>)
    ensures rs[..0] == [] && Bytes(rs[..0]) == [] && Lines(rs[..0]) == [] && LastLine(rs[..0]) == 0
  {
  }

  lemma NotAtEnd(c: seq<byte>, rs: seq<Run>, k: nat)
    requires Holds(c, rs) && k <= |rs| && |Bytes(rs[..k])| < |c|
    requires c[|Bytes(rs[..k])|] != 0 && c[|Bytes(rs[..k])|] != FILL
    ensures k < |rs|
  {
    assert rs[..|rs|] == rs;
  }

  lemma AtEnd(c: seq<byte>, rs: seq<Run>, k: nat)
    requires Counts(rs) && Holds(c, rs) && k <= |rs| && |Bytes(rs[..k])| < |c|
    requires c[|Bytes(rs[..k])|] == 0 || c[|Bytes(rs[..k])|] == FILL
    ensures k == |rs| && rs[..k] == rs
  {
    assert rs[..|rs|] == rs;
    if k < |rs| {
      RunAt(c, rs, k);
      RunDecodes(c, |Bytes(rs[..k])|, rs[k]);
    }
  }

  lemma WithinHolds(c: seq<byte>, rs: seq<Run>, k: nat)
    requires Holds(c, rs) && k <= |rs|
    ensures |Bytes(rs[..k])| < |c|
  {
    BytesPrefix(rs, k);
  }

  lemma DecodeStep(c: seq<byte>, p: nat, weight: int)
    requires p < |c| && c[p] >= DELTA_MASK
    ensures weight * Number(c, p) == c[p] % 128 * weight + weight * 128 * Number(c, p + 1)
    ensures AfterDelta(c, p) == AfterDelta(c, p + 1) > p
  {
    var low, high := c[p] % 128, Number(c, p + 1);
    assert weight * (low + 128 * high) == low * weight + weight * 128 * high;
  }

  lemma DecodeEnd(c: seq<byte>, p: nat)
    requires p < |c|
    ensures c[p] < DELTA_MASK ==> Number(c, p) == 0 && AfterDelta(c, p) == p
  {
  }

  /** The delta at 'p', and the place of the count after it. */
  method Decode(info: array<byte>, p: nat) returns (step: int, q: nat)
    requires p < info.Length && AfterDelta(info[..], p) < info.Length
    ensures step == LineStep(info[..], p) && q == AfterDelta(info[..], p)
  {
    hide Number, AfterDelta;
    q := p;
    DecodeEnd(info[..], q);
    if info[q] >= DELTA_MASK {
      DecodeStep(info[..], q, 64);
      var delta := info[q] % 64;
      var negative := info[q] / 64 % 2 == 1;
      q := q + 1;
      var weight := 64;
      while info[q] >= DELTA_MASK
        invariant p < q < info.Length && AfterDelta(info[..], q) == AfterDelta(info[..], p)
        invariant delta + weight * Number(info[..], q) == info[p] % 64 + 64 * Number(info[..], p + 1)
        decreases info.Length - q
      {
        DecodeStep(info[..], q, weight);
        delta := delta + info[q] % 128 * weight;
        q := q + 1;
        weight := weight * 128;
      }
      DecodeEnd(info[..], q);
      step := if negative then -delta else delta + 2;
    } else {
      step := 1;
    }
  }

  // ----- the encoder -------------------------------------------------------------------

  /** From place 'p' on there are only fill bytes, and a zero at the very end. */
  ghost predicate Filled(c: seq<byte>, p: nat) {
    p < |c| && c[|c| - 1] == 0 && forall k :: p <= k < |c| - 1 ==> c[k] == FILL
  }

  /** The runs are at the front and everything else is filled up. */
  ghost predicate Packed(c: seq<byte>, b: seq<byte>) {
    |b| < |c| && c[..|b|] == b && Filled(c, |b|)
  }

  /** The vector has no zero but its last byte, so strlen + 1 is its size. */
  ghost predicate OnlyLastZero(c: seq<byte>) {
    c != [] && forall k :: 0 <= k < |c| ==> (c[k] == 0 <==> k == |c| - 1)
  }

  lemma {:induction false} BytesNotZero(rs: seq<Run>)
    requires Counts(rs)
    ensures forall k :: 0 <= k < |Bytes(rs)| ==> Bytes(rs)[k] != 0
    decreases |rs|
  {
    if rs != [] { BytesNotZero(rs[..|rs| - 1]); }
  }

  lemma PackedOnlyLastZero(c: seq<byte>, rs: seq<Run>)
    requires Counts(rs) && Packed(c, Bytes(rs))
    ensures OnlyLastZero(c) && Holds(c, rs)
  {
    BytesNotZero(rs);
    forall k | 0 <= k < |c| ensures c[k] == 0 <==> k == |c| - 1 {
      if k < |Bytes(rs)| { assert c[k] == c[..|Bytes(rs)|][k]; }
    }
  }

  /** The vector before the first instruction is empty; afterwards it is packed. */
  ghost predicate Holding(c: seq<byte>, b: seq<byte>) {
    if c == [] then b == [] else Packed(c, b)
  }

  lemma PutKeeps(c: seq<byte>, b: seq<byte>, v: byte)
    requires Packed(c, b) && c[|b|] != 0
    ensures Packed(c[|b| := v], b + [v])
  {
    var d := c[|b| := v];
    assert d[..|b| + 1] == b + [v];
  }

  /** A longer vector whose old end is a fill byte. */
  lemma GrownKeeps(c: seq<byte>, d: seq<byte>, b: seq<byte>)
    requires Holding(c, b) && (c == [] || |b| == |c| - 1)
    requires |d| > |c| && |d| >= 2 && (forall k :: 0 <= k < |c| - 1 ==> d[k] == c[k])
    requires forall k :: 0 <= k < |d| - 1 && k >= |c| - 1 ==> d[k] == FILL
    requires d[|d| - 1] == 0
    ensures Packed(d, b) && d[|b|] != 0
  {
    forall k | 0 <= k < |b| ensures d[k] == b[k] { assert c[..|b|][k] == b[k]; }
    assert d[..|b|] == b;
  }

  /** Bytes put back to fill bytes leave a shorter front. */
  lemma ErasedKeeps(c: seq<byte>, d: seq<byte>, b: seq<byte>, n: nat)
    requires Packed(c, b) && n <= |b| && |d| == |c|
    requires forall k :: 0 <= k < |c| ==> d[k] == if n <= k < |b| then FILL else c[k]
    ensures Packed(d, b[..n])
  {
    forall k | 0 <= k < n ensures d[k] == b[k] { assert c[..|b|][k] == b[k]; }
    assert d[..n] == b[..n];
  }

  // ----- going back over a delta ---------------------------------------------------------

  function Low(b: byte, modulus: int): int
    requires modulus > 0
  {
    b % modulus
  }

  /** What luaK_fixline makes of all delta bytes but the first: seven bits each, whatever the
      place of the byte. */
  function SevenBits(d: seq<byte>): int {
    if d == [] then 0 else 128 * Low(d[0], 128) + SevenBits(d[1..])
  }

  /** The delta that luaK_fixline gets by going back over delta bytes. */
  function Backwards(d: seq<byte>): int {
    if d == [] then 0
    else
      var m := SevenBits(d[1..]) + Low(d[0], 64) + 1;
      if d[0] / 64 % 2 == 1 then -m else m
  }

  /** How far off the line is that luaK_fixline goes back to. */
  function Slip(delta: int): int {
    delta - Backwards(DeltaBytes(delta))
  }

  /** What is left of a delta for the second delta byte on. */
  function Rest(delta: int): nat {
    if delta == 0 then 0 else if delta < 0 then (-delta - 1) / 64 else (delta - 1) / 64
  }

  function DigitSum(m: nat): nat {
    if m == 0 then 0 else m % 128 + DigitSum(m / 128)
  }

  lemma {:induction false} SevenBitsSum(m: nat)
    ensures SevenBits(Digits(m)) == 128 * DigitSum(m)
  {
    if m > 0 {
      assert Digits(m)[1..] == Digits(m / 128);
      SevenBitsSum(m / 128);
      DigitLow(m % 128);
    }
  }

  lemma DigitLow(k: nat)
    requires k < 128
    ensures (DELTA_MASK + k) % 128 == k
  {
  }

  lemma {:induction false} DigitSumBound(m: nat)
    ensures DigitSum(m) <= m
  {
    if m > 0 { DigitSumBound(m / 128); }
  }

  /** Only 0 and 254 are twice the sum of their base-128 digits. */
  lemma TwiceDigits(m: nat)
    ensures m == 2 * DigitSum(m) <==> m == 0 || m == 254
  {
    if m > 0 {
      DigitSumBound(m / 128);
      var high := m / 128;
      assert m == m % 128 + 128 * high;
      if high >= 2 { assert DigitSum(m) <= m % 128 + high; }
    }
  }

  lemma BackwardsMagnitude(negative: bool, m: nat)
    ensures var v := 128 * DigitSum(m / 64) + m % 64 + 1;
            Backwards(Magnitude(negative, m)) == if negative then -v else v
  {
    hide Digits, SevenBits, DigitSum;
    FirstByte(negative, m);
    assert Magnitude(negative, m)[1..] == Digits(m / 64);
    SevenBitsSum(m / 64);
  }

  /** Going back is right for exactly the deltas of at most one byte, and the deltas whose
      rest is 254. */
  lemma SlipFree(delta: int)
    ensures Slip(delta) == 0 <==> Rest(delta) == 0 || Rest(delta) == 254
    ensures Rest(delta) == 0 <==> |DeltaBytes(delta)| <= 1
    ensures Rest(delta) == 0 <==> -64 <= delta <= 64
  {
    hide DigitSum, Digits;
    if delta != 0 {
      var m := if delta < 0 then -delta - 1 else delta - 1;
      BackwardsMagnitude(delta < 0, m);
      TwiceDigits(m / 64);
      FirstByte(delta < 0, m);
      assert Slip(delta) == 0 <==> m / 64 == 2 * DigitSum(m / 64);
    }
  }

  /** A jump of 65 lines is taken for a jump of one line when it is taken back. */
  lemma SlipHappens()
    ensures Slip(65) == -64
  {
    BackwardsMagnitude(false, 64);
    assert DigitSum(1) == 1;
  }

  // ----- the encoder on a function being compiled ----------------------------------------

  function Recounted(rs: seq<Run>, k: byte): seq<Run>
    requires rs != []
  {
    rs[..|rs| - 1] + [Run(rs[|rs| - 1].delta, k)]
  }

  /** One more instruction: it is counted in the last run, or starts a new one. */
  function Appended(rs: seq<Run>, lastline: int, line: int): (q: seq<Run>)
    ensures q != []
  {
    if rs != [] && line == lastline && rs[|rs| - 1].count < MAX_LINECNT
    then Recounted(rs, rs[|rs| - 1].count + 1)
    else rs + [Run(line - lastline - 1, 1)]
  }

  /** An instruction on the line of the last one is counted in its run until that has 126; otherwise it
      starts a run. */
  lemma RunsFillUp(rs: seq<Run>, lastline: int, line: int)
    requires Counts(rs) && rs != []
    ensures forall i :: 0 <= i < |rs| ==> 1 <= rs[i].count <= 126
    ensures var last, q := rs[|rs| - 1], Appended(rs, lastline, line);
            if line == lastline && last.count < 126 then q == rs[..|rs| - 1] + [Run(last.delta, last.count + 1)]
            else q == rs + [Run(line - lastline - 1, 1)]
  {
  }

  /** The next line takes no byte, and a line up to 64 lines from there takes one. */
  lemma ShortDeltas(delta: int)
    requires -64 <= delta <= 64
    ensures DeltaBytes(delta) ==
            if delta == 0 then [] else if delta > 0 then [0x80 + delta - 1] else [0xC0 - delta - 1]
  {
  }

  class FuncLines {
    var info: array<byte>
    var lastline: int
    var lastlineOffset: nat
    var lineinfoLastPC: int
    var pc: nat
    ghost var runs: seq<Run>
    /** The line that each instruction was given. */
    ghost var lines: seq<int>
    /** How far 'lastline' is ahead of the decoder. */
    ghost var drift: int
    /** The encoder has never got off. */
    ghost var exact: bool

    /** What the bytes are. An empty vector stands for the null pointer. */
    ghost predicate Shape()
      reads this, info
    {
      && Counts(runs) && Holding(info[..], Bytes(runs))
      && (info.Length == 0 <==> runs == [])
      && lastlineOffset == (if runs == [] then 0 else |Bytes(runs)| - 1)
      && lastline == LastLine(runs) + drift
    }

    /** Between calls: every instruction coded so far has its line. */
    ghost predicate Valid()
      reads this, info
    {
      && Shape() && |Lines(runs)| == lineinfoLastPC + 1 == |lines|
      && (pc == lineinfoLastPC || pc == lineinfoLastPC + 1)
      && (runs == [] ==> lastline == 0 && drift == 0)
      && (exact ==> drift == 0 && Lines(runs) == lines)
    }

    constructor ()
      ensures Valid() && runs == [] && lines == [] && pc == 0 && exact && fresh(info)
    {
      info := new byte[0];
      lastline, lastlineOffset, lineinfoLastPC, pc := 0, 0, -1, 0;
      runs, lines, drift, exact := [], [], 0, true;
    }

    /** Twice as many bytes. The last byte so far becomes a fill byte. */
    method Grow(ghost b: seq<byte>)
      requires Holding(info[..], b) && (info.Length == 0 || |b| == info.Length - 1)
      modifies this`info
      ensures fresh(info) && info.Length > old(info.Length)
      ensures Packed(info[..], b) && info[|b|] != 0
    {
      hide Packed;
      var n := info.Length;
      var size := if 2 * n < MINSIZEARRAY then MINSIZEARRAY else 2 * n;
      var bigger := new byte[size](_ => FILL);
      for i := 0 to n
        invariant info == old(info)
        invariant forall k :: 0 <= k < i ==> bigger[k] == info[k]
        invariant forall k :: i <= k < size ==> bigger[k] == FILL
      {
        bigger[i] := info[i];
      }
      if n > 0 { bigger[n - 1] := FILL; }
      bigger[size - 1] := 0;
      GrownKeeps(info[..], bigger[..], b);
      info := bigger;
    }

    /** Write one more byte, at place 'p'; 'b' is what has been written before. */
    method Put(p: nat, v: byte, ghost b: seq<byte>)
      requires p == |b| && Holding(info[..], b)
      modifies this`info, info
      ensures (info == old(info) || fresh(info)) && info.Length > 0 && Packed(info[..], b + [v])
    {
      if info.Length == 0 || info[p] == 0 { Grow(b); }
      PutKeeps(info[..], b, v);
      ghost var c := info[..];
      info[p] := v;
      assert info[..] == c[p := v];
    }

    /** The delta bytes: sign and six bits, then seven bits each. */
    method PutDelta(from: nat, line: int, ghost b: seq<byte>) returns (p: nat)
      requires line != 0 && from == |b| && Holding(info[..], b)
      modifies this`info, info
      ensures (info == old(info) || fresh(info)) && info.Length > 0
      ensures p == |b + DeltaBytes(line)| && Packed(info[..], b + DeltaBytes(line))
    {
      hide Packed, Digits;
      p := from;
      var delta: nat := if line < 0 then -line - 1 else line - 1;
      var first: byte := DELTA_MASK + (if line < 0 then 64 else 0) + delta % 64;
      Put(p, first, b);
      ghost var w := b + [first];
      p := p + 1;
      delta := delta / 64;
      assert w + Digits(delta) == b + DeltaBytes(line);
      while delta != 0
        invariant info.Length > 0 && Packed(info[..], w) && p == |w| && w + Digits(delta) == b + DeltaBytes(line)
        invariant info == old(info) || fresh(info)
        decreases delta
      {
        var v: byte := DELTA_MASK + delta % 128;
        NextDigit(w, delta);
        Put(p, v, w);
        w := w + [v];
        p := p + 1;
        delta := delta / 128;
      }
      NoDigits();
      assert w + [] == w;
    }

    /** Start a run of one instruction. */
    method GenerateDelta(line: int)
      requires Shape()
      modifies this`info, this`lastline, this`lastlineOffset, this`runs, info
      ensures Shape() && (info == old(info) || fresh(info)) && lastline == line
      ensures runs == old(runs + [Run(line - lastline - 1, 1)])
      ensures Lines(runs) == old(Lines(runs)) + [line - drift]
    {
      hide Packed, Bytes, Lines, LastLine, DeltaBytes, Counts;
      ghost var b := Bytes(runs);
      NoBytes(runs);
      var p := if info.Length > 0 then lastlineOffset + 1 else 0;
      var delta := line - lastline - 1;
      ghost var d := DeltaBytes(delta);
      if delta != 0 {
        p := PutDelta(p, delta, b);
      } else {
        ShortDelta();
        assert b + d == b;
      }
      Put(p, 1, b + d);
      assert (b + d) + [1] == b + (d + [1]);
      SnocRun(runs, Run(delta, 1));
      CountsMore(runs, Run(delta, 1));
      runs := runs + [Run(delta, 1)];
      lastline := line;
      lastlineOffset := p;
    }

    /** luaK_fixline does not take away the first run, in front of which there is no byte. */
    ghost predicate CanFix(line: int)
      reads this
    {
      runs != [] && (line == lastline || runs[|runs| - 1].count > 1 || |runs| > 1)
    }

    /** How far the encoder gets off when the last instruction goes to another line. */
    ghost function FixSlip(line: int): int
      requires runs != []
      reads this
    {
      if line == lastline || runs[|runs| - 1].count > 1 then 0 else Slip(runs[|runs| - 1].delta)
    }

    /** Give the last instruction another line. The result is false if the byte before the vector has
        been read, which may be anything. */
    method FixLine(line: int) returns (ok: bool)
      requires Valid() && runs != []
      modifies this`info, this`lastline, this`lastlineOffset, this`runs, this`lines, this`drift, this`exact, info
      ensures ok <==> old(CanFix(line))
      ensures ok ==> Valid() && (info == old(info) || fresh(info))
      ensures ok ==> lines == old(lines[..|lines| - 1]) + [line]
      ensures ok ==> drift == old(drift + FixSlip(line)) && exact == old(exact && FixSlip(line) == 0)
      ensures ok ==> Lines(runs) == old(Lines(runs)[..|lines| - 1]) + [line - drift]
    {
      hide Packed, Bytes, Lines, LastLine, DeltaBytes, Slip;
      LastRun(runs);
      exact := exact && FixSlip(line) == 0;
      ok := true;
      if line != lastline {
        ok := Uncount();
        if ok { GenerateDelta(line); }
      }
      lines := lines[..|lines| - 1] + [line];
    }

    /** Take the last instruction out of the runs, unless it is alone in the first one. */
    method Uncount() returns (ok: bool)
      requires Shape() && runs != []
      modifies this`lastline, this`lastlineOffset, this`runs, this`drift, info
      ensures ok <==> old(runs[|runs| - 1].count > 1 || |runs| > 1)
      ensures ok ==> Shape() && runs != [] && info == old(info)
      ensures ok ==> drift == old(drift + if runs[|runs| - 1].count > 1 then 0 else Slip(runs[|runs| - 1].delta))
      ensures |Lines(old(runs))| > 0
      ensures ok ==> Lines(runs) == Lines(old(runs))[..|Lines(old(runs))| - 1]
    {
      hide Packed, Bytes, Lines, LastLine, DeltaBytes, Slip;
      ghost var rs := runs;
      LastRun(rs);
      var p := lastlineOffset;
      ghost var k: byte := rs[|rs| - 1].count - 1;
      Recount(rs, k);
      PackedLast(info[..], Bytes(rs), k);
      ok := true;
      if info[p] > 1 {
        ghost var c := info[..];
        info[p] := info[p] - 1;
        assert info[..] == c[p := info[p]];
        runs := Recounted(rs, info[p]);
      } else {
        SnocRun(rs[..|rs| - 1], rs[|rs| - 1]);
        assert rs == rs[..|rs| - 1] + [rs[|rs| - 1]];
        ok := Unrun();
      }
    }

    /** Go back over the delta bytes 'd', which start at place 'n' and end at 'from'. The walk ends at
        the byte before them; if there is none, it comes to place -1. */
    method EraseDelta(from: int, ghost n: nat, ghost d: seq<byte>) returns (ok: bool, p: int, delta: int)
      requires from == n + |d| - 1 < info.Length && (n > 0 ==> info[n - 1] < DELTA_MASK)
      requires forall j :: 0 <= j < |d| ==> info[n + j] == d[j] >= DELTA_MASK
      modifies info
      ensures p == n - 1 && (ok <==> p != -1)
      ensures ok ==> delta == Backwards(d)
      ensures forall k :: 0 <= k < info.Length ==> info[k] == if n <= k < n + |d| then FILL else old(info[k])
    {
      hide Backwards, SevenBits, Low;
      p := from;
      delta := 0;
      GoBackStart(d);
      ghost var c := info[..];
      while p != -1 && info[p] >= DELTA_MASK
        invariant n - 1 <= p < n + |d| && (p >= n ==> info[p] == d[p - n])
        invariant forall k :: 0 <= k <= p || n + |d| <= k < info.Length ==> info[k] == c[k]
        invariant forall k :: p < k < n + |d| ==> info[k] == FILL
        invariant p != -1 ==> delta == if p == n - 1 then Backwards(d) else SevenBits(d[p + 1 - n..])
        decreases p
      {
        var code := info[p];
        assert c[n + (p - n)] == d[p - n];
        GoBack(d, p - n);
        info[p] := FILL;
        p := p - 1;
        assert p >= n ==> c[n + (p - n)] == d[p - n] >= DELTA_MASK;
        if p != -1 && info[p] >= DELTA_MASK {
          delta := delta + 128 * Low(code, 128);
        } else {
          delta := delta + Low(code, 64) + 1;
          if code / 64 % 2 == 1 { delta := -delta; }
        }
      }
      ok := p != -1;
    }

    /** Take the last run, of one instruction, out of the bytes. */
    method Unrun() returns (ok: bool)
      requires Shape() && runs != [] && runs[|runs| - 1].count == 1
      modifies this`lastline, this`lastlineOffset, this`runs, this`drift, info
      ensures ok <==> old(|runs| > 1)
      ensures ok ==> Shape() && info == old(info)
      ensures ok ==> runs == old(runs[..|runs| - 1]) && drift == old(drift + Slip(runs[|runs| - 1].delta))
    {
      hide Packed, Bytes, Lines, LastLine, DeltaBytes, Backwards, SevenBits;
      ghost var rs, c, last := runs, info[..], |runs| - 1;
      ghost var n, d := |Bytes(rs[..last])|, DeltaBytes(rs[last].delta);
      LastBytes(c, rs);
      NoBytes(rs[..last]);
      if last > 0 { LastRun(rs[..last]); }
      var p: int := lastlineOffset;
      info[p] := FILL;
      var q: int, delta: int;
      ok, q, delta := EraseDelta(p - 1, n, d);
      if ok {
        ErasedKeeps(c, info[..], Bytes(rs), n);
        lastline := lastline - (delta + 1);
        lastlineOffset := q;
        drift := drift + Slip(rs[last].delta);
        runs := rs[..last];
      }
    }

    /** Count one more instruction on the line, or start a run. */
    method Count(line: int)
      requires Shape() && line > 0 && (runs == [] ==> lastline == 0)
      modifies this`info, this`lastline, this`lastlineOffset, this`runs, info
      ensures Shape() && (info == old(info) || fresh(info)) && lastline == line
      ensures runs == old(Appended(runs, lastline, line))
      ensures Lines(runs) == old(Lines(runs)) + [line - drift]
    {
      hide Packed, Bytes, Lines, LastLine, DeltaBytes;
      ghost var b := Bytes(runs);
      if runs != [] {
        LastRun(runs);
        PackedLast(info[..], b, FILL);
      }
      if line == lastline && info[lastlineOffset] < MAX_LINECNT {
        var count: byte := info[lastlineOffset] + 1;
        Recount(runs, count);
        PackedLast(info[..], b, count);
        ghost var c := info[..];
        info[lastlineOffset] := count;
        assert info[..] == c[lastlineOffset := count];
        runs := Recounted(runs, count);
      } else {
        GenerateDelta(line);
      }
    }

    /** Record the line of the next instruction, or of the last one if it is being overwritten. */
    method Code(line: int) returns (ok: bool)
      requires Valid() && line > 0
      modifies this, info
      ensures ok <==> old(pc > lineinfoLastPC || CanFix(line))
      ensures ok ==> Valid() && (info == old(info) || fresh(info))
      ensures pc == old(pc) + 1 == lineinfoLastPC + 1
      ensures ok ==> lines == old(lines[..pc]) + [line]
      ensures ok ==> drift == if old(pc > lineinfoLastPC) then old(drift) else old(drift + FixSlip(line))
      ensures ok ==> exact == old(exact && (pc > lineinfoLastPC || FixSlip(line) == 0))
      ensures old(pc > lineinfoLastPC) ==> lastline == line && runs == old(Appended(runs, lastline, line))
      ensures ok ==> Lines(runs) == old(Lines(runs)[..pc]) + [line - drift]
    {
      hide Packed, Bytes, Lines, LastLine, DeltaBytes, Slip, Appended;
      ok := true;
      if pc == lineinfoLastPC + 1 {
        Count(line);
        lines := lines + [line];
      } else {
        NoLines(runs);
        ok := FixLine(line);
      }
      lineinfoLastPC := pc;
      pc := pc + 1;
    }

    /** Take the last instruction back, to be overwritten. */
    method Uncode()
      requires Valid() && pc == lineinfoLastPC + 1 && pc > 0
      modifies this`pc
      ensures Valid() && pc == old(pc) - 1 == lineinfoLastPC
    {
      pc := pc - 1;
    }

    /** Cut the vector off behind the last run. */
    method Trim()
      requires Valid() && runs != []
      modifies this`info, info
      ensures Valid() && fresh(info) && info.Length == |Bytes(runs)| + 1
    {
      hide Bytes, Lines, LastLine;
      info[lastlineOffset + 1] := 0;
      var whole := info;
      info := new byte[lastlineOffset + 2](i requires 0 <= i < whole.Length reads whole => whole[i]);
      ghost var c := old(info[..]);
      assert info[..|Bytes(runs)|] == c[..|Bytes(runs)|];
    }

    /** The line of an instruction: the one it was given, if the encoder is not off. */
    method LineOf(i: nat) returns (line: int)
      requires Valid() && i < |lines|
      ensures line == Lines(runs)[i] && (exact ==> line == lines[i])
      ensures OnlyLastZero(info[..])
    {
      hide Packed, Bytes, LastLine;
      PackedOnlyLastZero(info[..], runs);
      line := GetLine(info, i, runs);
    }
  }

  /** The second of two instructions, on lines 1 and 67, is moved to line 60. Afterwards its line
      is read as 124. */
  method SlippedLine() returns (given: int, got: int)
    ensures given == 60 && got == 124
  {
    hide FuncLines.Shape, Bytes, Lines, LastLine, Slip;
    var f := new FuncLines();
    var _ := f.Code(1);
    var _ := f.Code(67);
    assert f.runs == [Run(0, 1), Run(65, 1)];
    SlipHappens();
    var _ := f.FixLine(60);
    given := 60;
    got := f.LineOf(1);
  }

  /** The only instruction so far, on line 3, is moved to line 2, as for a function statement on line 2
      that assigns to a local variable and ends on line 3. The byte before the vector is read. */
  method FirstRunMoved() returns (ok: bool)
    ensures !ok
  {
    hide FuncLines.Shape, Bytes, Lines, LastLine, Slip;
    var f := new FuncLines();
    var _ := f.Code(3);
    assert f.runs == [Run(2, 1)];
    ok := f.FixLine(2);
  }

  lemma NoLines(rs: seq<Run>)
    ensures Lines([]) == [] && (Lines(rs) != [] ==> rs != [])
  {
  }

  lemma GoBackStart(d: seq<byte>)
    ensures SevenBits(d[|d|..]) == 0 && (d == [] ==> Backwards(d) == 0)
  {
  }

  lemma GoBack(d: seq<byte>, j: nat)
    requires j < |d|
    ensures SevenBits(d[j..]) == 128 * Low(d[j], 128) + SevenBits(d[j + 1..])
    ensures Backwards(d) == var m := SevenBits(d[1..]) + Low(d[0], 64) + 1;
                            if d[0] / 64 % 2 == 1 then -m else m
  {
    assert d[j..][1..] == d[j + 1..];
  }

  /** The last run: its count is the last byte, and its instructions are the last lines. */
  lemma LastRun(rs: seq<Run>)
    requires rs != [] && Counts(rs)
    ensures |Lines(rs)| > 0 && Lines(rs)[|Lines(rs)| - 1] == LastLine(rs)
    ensures |Bytes(rs)| > 0 && Bytes(rs)[|Bytes(rs)| - 1] == rs[|rs| - 1].count
  {
  }

  /** The bytes of the last run. */
  lemma LastBytes(c: seq<byte>, rs: seq<Run>)
    requires Counts(rs) && rs != [] && Packed(c, Bytes(rs))
    ensures var n, d := |Bytes(rs[..|rs| - 1])|, DeltaBytes(rs[|rs| - 1].delta);
            && n + |d| + 1 == |Bytes(rs)| < |c| && Bytes(rs)[..n] == Bytes(rs[..|rs| - 1])
            && (forall j :: 0 <= j < |d| ==> c[n + j] == d[j])
            && (n > 0 ==> c[n - 1] == Bytes(rs[..|rs| - 1])[n - 1])
    ensures LastLine(rs) == LastLine(rs[..|rs| - 1]) + rs[|rs| - 1].delta + 1
  {
    hide DeltaBytes;
    var n, d := |Bytes(rs[..|rs| - 1])|, DeltaBytes(rs[|rs| - 1].delta);
    assert Bytes(rs) == Bytes(rs[..|rs| - 1]) + (d + [rs[|rs| - 1].count]);
    forall j | 0 <= j < |Bytes(rs)| ensures c[j] == Bytes(rs)[j] { assert c[..|Bytes(rs)|][j] == Bytes(rs)[j]; }
    forall j | 0 <= j < |d| ensures c[n + j] == d[j] { assert Bytes(rs)[n + j] == d[j]; }
  }

  /** Another count changes one byte, and how often the last line is repeated. */
  lemma Recount(rs: seq<Run>, k: byte)
    requires rs != [] && Counts(rs)
    ensures var q := Recounted(rs, k);
            && (1 <= k <= MAX_LINECNT ==> Counts(q)) && LastLine(q) == LastLine(rs)
            && Bytes(rs) != [] && Bytes(q) == Bytes(rs)[|Bytes(rs)| - 1 := k]
            && (k == rs[|rs| - 1].count + 1 ==> Lines(q) == Lines(rs) + [LastLine(rs)])
            && (k == rs[|rs| - 1].count - 1 ==> Lines(rs) == Lines(q) + [LastLine(rs)])
  {
    hide DeltaBytes;
    var r := rs[|rs| - 1];
    assert rs == rs[..|rs| - 1] + [r];
    SnocRun(rs[..|rs| - 1], r);
    SnocRun(rs[..|rs| - 1], Run(r.delta, k));
    assert Bytes(rs)[|Bytes(rs)| - 1 := k] == Bytes(rs[..|rs| - 1]) + (DeltaBytes(r.delta) + [k]);
    assert k == r.count + 1 ==> Repeat(LastLine(rs), k) == Repeat(LastLine(rs), r.count) + [LastLine(rs)];
    assert k == r.count - 1 ==> Repeat(LastLine(rs), r.count) == Repeat(LastLine(rs), k) + [LastLine(rs)];
  }

  lemma PackedLast(c: seq<byte>, b: seq<byte>, v: byte)
    requires Packed(c, b) && b != []
    ensures |b| < |c| && c[|b| - 1] == b[|b| - 1]
    ensures Packed(c[|b| - 1 := v], b[|b| - 1 := v])
  {
    assert c[..|b|][|b| - 1] == b[|b| - 1];
    assert c[|b| - 1 := v][..|b|] == c[..|b|][|b| - 1 := v];
  }

  lemma NextDigit(w: seq<byte>, m: nat)
    requires m > 0
    ensures w + Digits(m) == (w + [DELTA_MASK + m % 128]) + Digits(m / 128)
  {
    assert Digits(m) == [DELTA_MASK + m % 128] + Digits(m / 128);
  }

  lemma NoDigits()
    ensures Digits(0) == []
  {
  }

  lemma ShortDelta()
    ensures DeltaBytes(0) == []
  {
  }

  lemma CountsMore(rs: seq<Run>, r: Run)
    requires Counts(rs) && 1 <= r.count <= MAX_LINECNT
    ensures Counts(rs + [r])
  {
  }

  lemma NoBytes(rs: seq<Run>)
    ensures rs == [] ==> Bytes(rs) == []
    ensures rs != [] ==> |Bytes(rs)| >= 1
  {
  }
}

/** The capture array and the forest of captures it stands for. */
module Captures {
  import opened Peg
  import opened Machine

  /** The entries of one capture: a single full entry if it has nothing nested and is short
      enough, otherwise an open entry, the nested entries and a close entry. */
  function EncodeNode(c: Node): (r: seq<Entry>)
    decreases c, 1
  {
    if c.sub == [] && c.end - c.start < UCHAR_MAX && c.start <= c.end then
      [Entry(c.start, c.key, c.kind, c.end - c.start + 1)]
    else
      [Entry(c.start, c.key, c.kind, 0)] + Encode(c.sub) + [Entry(c.end, 0, CLOSE, 1)]
  }

  function Encode(cs: seq<Node>): (r: seq<Entry>)
    decreases cs, 0
  {
    if cs == [] then [] else EncodeNode(cs[0]) + Encode(cs[1..])
  }

  lemma {:induction false} EncodeCat(cs: seq<Node>, ds: seq<Node>)
    ensures Encode(cs + ds) == Encode(cs) + Encode(ds)
    decreases |cs|
  {
    if cs == [] {
      assert cs + ds == ds;
    } else {
      EncodeCat(cs[1..], ds);
      assert (cs + ds)[1..] == cs[1..] + ds;
      assert EncodeNode(cs[0]) + (Encode(cs[1..]) + Encode(ds))
          == (EncodeNode(cs[0]) + Encode(cs[1..])) + Encode(ds);
    }
  }

  lemma EncodeNil(caps: seq<Entry>)
    ensures caps + Encode([]) == caps
  {
  }

  lemma EncodeOne(c: Node)
    ensures Encode([c]) == EncodeNode(c)
  {
    assert [c][1..] == [];
    assert Encode([c][1..]) == [];
  }

  /** A non-empty forest never ends with an open entry. */
  lemma {:induction false} EncodeLast(cs: seq<Node>)
    requires cs != []
    ensures |Encode(cs)| > 0 && Encode(cs)[|Encode(cs)| - 1].siz != 0
    decreases |cs|
  {
    if |cs| > 1 {
      EncodeLast(cs[1..]);
      var x, y := EncodeNode(cs[0]), Encode(cs[1..]);
      assert (x + y)[|x + y| - 1] == y[|y| - 1];
    } else {
      assert cs == [cs[0]];
      EncodeOne(cs[0]);
    }
  }

  /** Sizes that fit the byte in which an entry keeps them. */
  predicate SizesFit(es: seq<Entry>) {
    forall i :: 0 <= i < |es| ==> es[i].siz <= 255
  }

  lemma SizesCat(es: seq<Entry>, fs: seq<Entry>)
    requires SizesFit(es) && SizesFit(fs)
    ensures SizesFit(es + fs)
  {
  }

  /** Every entry of a capture list has a size that fits a byte. */
  lemma {:induction false} EncodeFits(cs: seq<Node>)
    ensures SizesFit(Encode(cs))
    decreases cs
  {
    hide SizesFit;
    if cs == [] {
      assert SizesFit([]) by { NoSizes(); }
    } else {
      EncodeFits(cs[1..]);
      EncodeFits(cs[0].sub);
      NodeFits(cs[0]);
      SizesCat(EncodeNode(cs[0]), Encode(cs[1..]));
    }
  }

  lemma NoSizes()
    ensures SizesFit([])
  {
  }

  lemma NodeFits(c: Node)
    requires SizesFit(Encode(c.sub))
    ensures SizesFit(EncodeNode(c))
  {
    hide Encode;
  }

  /** Closing a capture, whether it folds the open entry or not, completes the encoding of
      the capture and touches nothing below it. */
  lemma CloseEncodes(caps: seq<Entry>, kind: nat, key: int, start: nat, end: nat, sub: seq<Node>)
    requires start <= end
    ensures CloseCapture(caps + [Entry(start, key, kind, 0)] + Encode(sub), end)
         == caps + Encode([Node(kind, key, start, end, sub)])
    ensures SizesFit(caps) ==> SizesFit(CloseCapture(caps + [Entry(start, key, kind, 0)] + Encode(sub), end))
  {
    var c := Node(kind, key, start, end, sub);
    var open := Entry(start, key, kind, 0);
    EncodeOne(c);
    if SizesFit(caps) {
      EncodeFits([c]);
      SizesCat(caps, Encode([c]));
    }
    var now := caps + [open] + Encode(sub);
    if sub == [] {
      assert now == caps + [open];
      assert now[|now| - 1] == open && now[..|now| - 1] == caps;
    } else {
      EncodeLast(sub);
      assert now[|now| - 1] == Encode(sub)[|Encode(sub)| - 1];
    }
  }
}

/** Walking the capture array: it is well bracketed, it determines the capture forest, and the
    two ways of skipping a capture (nextcap forward, findopen backward) undo each other. */
module CaptureList {
  import opened Peg
  import opened Analysis
  import opened Machine
  import opened Captures

  predicate IsClose(e: Entry) {
    e.kind == CLOSE
  }

  predicate IsFull(e: Entry) {
    e.siz != 0
  }

  predicate IsOpen(e: Entry) {
    !IsClose(e) && !IsFull(e)
  }

  /** Captures within lo..hi, in order, each containing the captures nested in it. */
  predicate WfForest(cs: seq<Node>, lo: nat, hi: nat)
    decreases cs
  {
    lo <= hi &&
    (cs == [] ||
      var c := cs[|cs| - 1];
      && c.kind != CLOSE && c.start <= c.end <= hi
      && WfForest(c.sub, c.start, c.end) && WfForest(cs[..|cs| - 1], lo, c.start))
  }

  lemma {:induction false} WfMore(cs: seq<Node>, lo: nat, hi: nat, hi': nat)
    requires WfForest(cs, lo, hi) && hi <= hi'
    ensures WfForest(cs, lo, hi')
  {
  }

  lemma {:induction false} WfCat(cs: seq<Node>, ds: seq<Node>, lo: nat, mid: nat, hi: nat)
    requires WfForest(cs, lo, mid) && WfForest(ds, mid, hi)
    ensures WfForest(cs + ds, lo, hi)
    decreases |ds|
  {
    if ds == [] {
      assert cs + ds == cs;
      WfMore(cs, lo, mid, hi);
    } else {
      var d := ds[|ds| - 1];
      WfCat(cs, ds[..|ds| - 1], lo, mid, d.start);
      assert (cs + ds)[..|cs + ds| - 1] == cs + ds[..|ds| - 1];
    }
  }

  /** The captures of a match lie inside the match, in order and properly nested. */
  lemma {:induction false} EvalForest(g: seq<Tree>, s: Subject, t: Tree, i: nat, n: nat)
    requires Wf(g, t) && WfRules(g) && i <= |s| && Eval(g, s, t, i, n).Matched?
    ensures WfForest(Eval(g, s, t, i, n).caps, i, Eval(g, s, t, i, n).end)
    decreases n, t
  {
    EndInRange(g, s, t, i, n);
    match t
    case Rep(p) =>
      var r := Eval(g, s, p, i, n);
      if r.Matched? {
        EndInRange(g, s, p, i, n);
        EvalForest(g, s, p, i, n);
        EvalForest(g, s, t, r.end, n - 1);
        WfCat(r.caps, Eval(g, s, t, r.end, n - 1).caps, i, r.end, Eval(g, s, t, i, n).end);
      }
    case Seq(p1, p2) =>
      var r := Eval(g, s, p1, i, n);
      EndInRange(g, s, p1, i, n);
      EvalForest(g, s, p1, i, n);
      EvalForest(g, s, p2, r.end, n);
      WfCat(r.caps, Eval(g, s, p2, r.end, n).caps, i, r.end, Eval(g, s, t, i, n).end);
    case Choice(p1, p2) =>
      if Eval(g, s, p1, i, n).Matched? { EvalForest(g, s, p1, i, n); } else { EvalForest(g, s, p2, i, n); }
    case Call(k) => EvalForest(g, s, g[k], i, n - 1);
    case Grammar(rs) => EvalForest(rs, s, rs[0], i, n);
    case Capture(kind, key, p) =>
      EvalForest(g, s, p, i, n);
      var c := Eval(g, s, t, i, n).caps;
      assert c[..|c| - 1] == [];
    case _ =>
  }

  // ----- the array determines the forest -----------------------------------------------

  /** Read a forest off the array, up to an unmatched close or the end. */
  function Parse(es: seq<Entry>): (r: (seq<Node>, seq<Entry>))
    ensures |r.1| <= |es|
    decreases |es|
  {
    if es == [] || IsClose(es[0]) then ([], es)
    else if IsFull(es[0]) then
      var (rest, tail) := Parse(es[1..]);
      ([Node(es[0].kind, es[0].key, es[0].pos, es[0].pos + es[0].siz - 1, [])] + rest, tail)
    else
      var (sub, after) := Parse(es[1..]);
      if after == [] then ([], es)
      else
        var (rest, tail) := Parse(after[1..]);
        ([Node(es[0].kind, es[0].key, es[0].pos, after[0].pos, sub)] + rest, tail)
  }

  predicate Stops(tail: seq<Entry>) {
    tail == [] || IsClose(tail[0])
  }

  ghost predicate ProperKinds(cs: seq<Node>)
    decreases cs
  {
    forall k :: 0 <= k < |cs| ==> cs[k].kind != CLOSE && cs[k].start <= cs[k].end && ProperKinds(cs[k].sub)
  }

  lemma {:induction false} WfProper(cs: seq<Node>, lo: nat, hi: nat)
    requires WfForest(cs, lo, hi)
    ensures ProperKinds(cs)
    decreases cs
  {
    if cs != [] {
      var m := |cs| - 1;
      WfProper(cs[..m], lo, cs[m].start);
      WfProper(cs[m].sub, cs[m].start, cs[m].end);
      assert forall k :: 0 <= k < m ==> cs[..m][k] == cs[k];
    }
  }

  /** Parsing the encoding of a forest gives the forest back: full captures, and open entries
      folded at their close, denote the same as separate open and close entries. */
  lemma {:induction false} ParseEncode(cs: seq<Node>, tail: seq<Entry>)
    requires ProperKinds(cs) && Stops(tail)
    ensures Parse(Encode(cs) + tail) == (cs, tail)
    decreases cs
  {
    hide Encode, EncodeNode;
    if cs == [] {
      EncodeNil([]);
      assert Encode(cs) + tail == tail;
    } else {
      var c, rest := cs[0], cs[1..];
      var more := Encode(rest) + tail;
      ParseEncode(rest, tail);
      EncodeFirst(cs);
      CatAssoc(EncodeNode(c), Encode(rest), tail);
      NodeHead(c);
      if !(c.sub == [] && c.end - c.start < UCHAR_MAX) {
        ParseEncode(c.sub, [Entry(c.end, 0, CLOSE, 1)] + more);
      }
      ParseNode(c, more, rest, tail);
      assert [c] + rest == cs;
    }
  }

  /** One capture at the head of the array, given how the rest parses. */
  lemma ParseNode(c: Node, more: seq<Entry>, rest: seq<Node>, tail: seq<Entry>)
    requires c.kind != CLOSE && c.start <= c.end && Parse(more) == (rest, tail)
    requires !(c.sub == [] && c.end - c.start < UCHAR_MAX) ==>
               var close := [Entry(c.end, 0, CLOSE, 1)];
               Parse(Encode(c.sub) + (close + more)) == (c.sub, close + more)
    ensures Parse(EncodeNode(c) + more) == ([c] + rest, tail)
  {
    hide Encode;
    var es := EncodeNode(c) + more;
    if c.sub == [] && c.end - c.start < UCHAR_MAX {
      assert es[1..] == more;
    } else {
      var open, close := [Entry(c.start, c.key, c.kind, 0)], [Entry(c.end, 0, CLOSE, 1)];
      CatAssoc(open + Encode(c.sub), close, more);
      CatAssoc(open, Encode(c.sub), close + more);
      assert es[1..] == Encode(c.sub) + (close + more);
      assert (close + more)[1..] == more;
    }
  }

  /** Different capture forests have different arrays. */
  lemma EncodeInjective(cs: seq<Node>, ds: seq<Node>)
    requires ProperKinds(cs) && ProperKinds(ds) && Encode(cs) == Encode(ds)
    ensures cs == ds
  {
    ParseEncode(cs, []);
    ParseEncode(ds, []);
  }

  /** The captures that a successful match reports are well bracketed and denote the capture
      forest of the pattern, and nothing else. */
  lemma MatchDenotes(t: Tree, s: Subject, i: nat, n: nat)
    requires Wf([], t) && i <= |s| && Eval([], s, t, i, n).Matched?
    ensures var r := Eval([], s, t, i, n);
            && WfForest(r.caps, i, r.end) && SizesFit(Encode(r.caps))
            && Parse(Encode(r.caps)) == (r.caps, [])
  {
    hide Eval, Wf, Encode, Parse, WfForest, SizesFit;
    EncodeFits(Eval([], s, t, i, n).caps);
    var r := Eval([], s, t, i, n);
    EvalForest([], s, t, i, n);
    WfProper(r.caps, i, r.end);
    ParseEncode(r.caps, []);
    assert Encode(r.caps) + [] == Encode(r.caps);
  }

  // ----- nextcap and findopen ----------------------------------------------------------

  /** Position of the close that matches when 'n' more opens are waiting, or |es|. */
  function CloseFrom(es: seq<Entry>, i: nat, n: nat): (r: nat)
    requires i <= |es|
    ensures i <= r <= |es|
    decreases |es| - i
  {
    if i == |es| then i
    else if IsClose(es[i]) then (if n == 0 then i else CloseFrom(es, i + 1, n - 1))
    else CloseFrom(es, i + 1, if IsFull(es[i]) then n else n + 1)
  }

  /** One past the position of the open that matches, going back, when 'n' more closes are
      waiting, or 0. */
  function OpenBefore(es: seq<Entry>, i: nat, n: nat): (r: nat)
    requires i <= |es|
    ensures r <= i
    decreases i
  {
    if i == 0 then 0
    else if IsClose(es[i - 1]) then OpenBefore(es, i - 1, n + 1)
    else if IsFull(es[i - 1]) then OpenBefore(es, i - 1, n)
    else if n == 0 then i else OpenBefore(es, i - 1, n - 1)
  }

  lemma EncodeFirst(cs: seq<Node>)
    requires cs != []
    ensures Encode(cs) == EncodeNode(cs[0]) + Encode(cs[1..])
  {
  }

  /** A forest in the array is skipped as a whole in both directions. */
  lemma {:induction false} SkipForest(pre: seq<Entry>, cs: seq<Node>, post: seq<Entry>, n: nat)
    requires ProperKinds(cs)
    ensures var es := pre + Encode(cs) + post;
            && CloseFrom(es, |pre|, n) == CloseFrom(es, |pre| + |Encode(cs)|, n)
            && OpenBefore(es, |pre| + |Encode(cs)|, n) == OpenBefore(es, |pre|, n)
    decreases cs
  {
    hide CloseFrom, OpenBefore, Encode, EncodeNode;
    if cs == [] {
      EncodeNil(pre);
    } else {
      var head, rest := EncodeNode(cs[0]), Encode(cs[1..]);
      EncodeFirst(cs);
      SkipNode(pre, cs[0], rest + post, n);
      CatAssoc(pre + head, rest, post);
      CatAssoc(pre, head, rest);
      SkipForest(pre + head, cs[1..], post, n);
    }
  }

  /** The pieces of a capture that is not a single full entry. */
  lemma OpenPieces(pre: seq<Entry>, c: Node, post: seq<Entry>)
    requires !(c.sub == [] && c.end - c.start < UCHAR_MAX && c.start <= c.end)
    ensures var open, close := Entry(c.start, c.key, c.kind, 0), Entry(c.end, 0, CLOSE, 1);
            var es := pre + EncodeNode(c) + post;
            && |EncodeNode(c)| == |Encode(c.sub)| + 2
            && es == (pre + [open]) + Encode(c.sub) + ([close] + post)
            && es[|pre|] == open && es[|pre| + 1 + |Encode(c.sub)|] == close
  {
    var open, close := Entry(c.start, c.key, c.kind, 0), Entry(c.end, 0, CLOSE, 1);
    var sub := Encode(c.sub);
    assert EncodeNode(c) == [open] + sub + [close];
    CatAssoc(pre, [open] + sub, [close]);
    CatAssoc(pre, [open], sub);
    CatAssoc(pre + [open] + sub, [close], post);
  }

  lemma {:induction false} SkipNode(pre: seq<Entry>, c: Node, post: seq<Entry>, n: nat)
    requires c.kind != CLOSE && c.start <= c.end && ProperKinds(c.sub)
    ensures var es := pre + EncodeNode(c) + post;
            && CloseFrom(es, |pre|, n) == CloseFrom(es, |pre| + |EncodeNode(c)|, n)
            && OpenBefore(es, |pre| + |EncodeNode(c)|, n) == OpenBefore(es, |pre|, n)
    decreases c
  {
    hide Encode;
    var es := pre + EncodeNode(c) + post;
    if c.sub == [] && c.end - c.start < UCHAR_MAX {
      assert es[|pre|] == EncodeNode(c)[0];
    } else {
      hide EncodeNode;
      OpenPieces(pre, c, post);
      SkipForest(pre + [Entry(c.start, c.key, c.kind, 0)], c.sub, [Entry(c.end, 0, CLOSE, 1)] + post, n + 1);
    }
  }

  /** The first and the last entry of a capture that has more than one. */
  lemma EndPieces(pre: seq<Entry>, c: Node, post: seq<Entry>)
    requires c.kind != CLOSE && !(c.sub == [] && c.end - c.start < UCHAR_MAX && c.start <= c.end)
    ensures var es := pre + EncodeNode(c) + post;
            var last := |pre| + |EncodeNode(c)| - 1;
            && |pre| < last < |es| && IsOpen(es[|pre|]) && IsClose(es[last])
            && last == |pre + [Entry(c.start, c.key, c.kind, 0)]| + |Encode(c.sub)|
  {
    hide Encode;
    var e := EncodeNode(c);
    assert (pre + e + post)[|pre|] == e[0] && (pre + e + post)[|pre| + |e| - 1] == e[|e| - 1];
  }

  /** Where a capture's open entry is, the matching close is its last entry, and back. */
  lemma BracketsMatch(pre: seq<Entry>, c: Node, post: seq<Entry>)
    requires c.kind != CLOSE && c.start <= c.end && ProperKinds(c.sub)
    requires !(c.sub == [] && c.end - c.start < UCHAR_MAX)
    ensures var es := pre + EncodeNode(c) + post;
            var last := |pre| + |EncodeNode(c)| - 1;
            && last > |pre|
            && CloseFrom(es, |pre| + 1, 0) == last && IsClose(es[last])
            && OpenBefore(es, last, 0) == |pre| + 1 && IsOpen(es[|pre|])
  {
    hide Encode, EncodeNode, CloseFrom, OpenBefore, IsOpen, IsClose, ProperKinds;
    EndPieces(pre, c, post);
    var front, back := pre + [Entry(c.start, c.key, c.kind, 0)], [Entry(c.end, 0, CLOSE, 1)] + post;
    assert pre + EncodeNode(c) + post == front + Encode(c.sub) + back by { OpenPieces(pre, c, post); }
    Inside(pre + EncodeNode(c) + post, front, c.sub, back);
  }

  lemma Inside(es: seq<Entry>, front: seq<Entry>, cs: seq<Node>, back: seq<Entry>)
    requires ProperKinds(cs) && es == front + Encode(cs) + back && front != [] && back != []
    requires IsOpen(es[|front| - 1]) && IsClose(es[|front| + |Encode(cs)|])
    ensures CloseFrom(es, |front|, 0) == |front| + |Encode(cs)|
    ensures OpenBefore(es, |front| + |Encode(cs)|, 0) == |front|
  {
    hide Encode, EncodeNode, CloseFrom, OpenBefore, IsOpen, IsClose, ProperKinds;
    CloseHere(es, |front| + |Encode(cs)|);
    OpenHere(es, |front| - 1);
    SkipWithin(es, front, cs, back);
  }

  lemma SkipWithin(es: seq<Entry>, front: seq<Entry>, cs: seq<Node>, back: seq<Entry>)
    requires ProperKinds(cs) && es == front + Encode(cs) + back
    ensures CloseFrom(es, |front|, 0) == CloseFrom(es, |front| + |Encode(cs)|, 0)
    ensures OpenBefore(es, |front| + |Encode(cs)|, 0) == OpenBefore(es, |front|, 0)
  {
    hide Encode, CloseFrom, OpenBefore, ProperKinds;
    SkipForest(front, cs, back, 0);
  }

  lemma CloseHere(es: seq<Entry>, p: nat)
    requires p < |es| && IsClose(es[p])
    ensures CloseFrom(es, p, 0) == p
  {
  }

  lemma OpenHere(es: seq<Entry>, p: nat)
    requires p < |es| && IsOpen(es[p])
    ensures OpenBefore(es, p + 1, 0) == p + 1
  {
  }

  lemma NodeHead(c: Node)
    requires c.kind != CLOSE && c.start <= c.end
    ensures IsFull(EncodeNode(c)[0]) <==> c.sub == [] && c.end - c.start < UCHAR_MAX
    ensures IsFull(EncodeNode(c)[0]) ==> |EncodeNode(c)| == 1 && !IsClose(EncodeNode(c)[0])
  {
  }

  class CapState {
    const capture: array<Entry>
    var cap: nat

    constructor (capture: array<Entry>)
      ensures this.capture == capture && cap == 0
    {
      this.capture := capture;
      cap := 0;
    }

    /** Go to the next capture: the current one stands between 'pre' and 'post'. */
    method NextCap(ghost pre: seq<Entry>, ghost c: Node, ghost post: seq<Entry>)
      requires c.kind != CLOSE && c.start <= c.end && ProperKinds(c.sub)
      requires capture[..] == pre + EncodeNode(c) + post && cap == |pre|
      modifies this
      ensures cap == |pre| + |EncodeNode(c)|
    {
      var i := cap;
      assert capture[i] == capture[..][i] == EncodeNode(c)[0];
      NodeHead(c);
      if !IsFull(capture[i]) {
        BracketsMatch(pre, c, post);
        ghost var goal := |pre| + |EncodeNode(c)| - 1;
        var n := 0;
        i := i + 1;
        while !(IsClose(capture[i]) && n == 0)
          invariant 0 < i <= goal && n >= 0
          invariant CloseFrom(capture[..], i, n) == goal
          decreases goal - i
        {
          if IsClose(capture[i]) { n := n - 1; } else if !IsFull(capture[i]) { n := n + 1; }
          i := i + 1;
        }
      }
      cap := i + 1;
    }

    /** Go back from a close entry to the open entry of the same capture. */
    method FindOpen(start: nat, ghost pre: seq<Entry>, ghost c: Node, ghost post: seq<Entry>) returns (i: nat)
      requires c.kind != CLOSE && c.start <= c.end && ProperKinds(c.sub)
      requires capture[..] == pre + EncodeNode(c) + post
      requires start == |pre| + |EncodeNode(c)| - 1 && IsClose(capture[start])
      ensures i == |pre|
    {
      assert capture[start] == capture[..][start] == EncodeNode(c)[|EncodeNode(c)| - 1];
      NodeHead(c);
      BracketsMatch(pre, c, post);
      var n := 0;
      i := start - 1;
      while !(IsOpen(capture[i]) && n == 0)
        invariant |pre| <= i < start && n >= 0
        invariant OpenBefore(capture[..], i + 1, n) == |pre| + 1
        decreases i
      {
        if IsClose(capture[i]) { n := n + 1; } else if !IsFull(capture[i]) { n := n - 1; }
        i := i - 1;
      }
    }
  }
}

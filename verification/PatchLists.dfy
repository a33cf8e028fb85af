/** Jump lists: the jumps whose targets are not known yet are linked through their own offsets. */
module PatchLists {
  const NO_JUMP: int := -1
  const NO_REG: int := 255
  const MAXARG_SBX: int := 131071

  datatype BranchOp = JMP | FORPREP | FORLOOP

  /** 'Branch' has a signed offset. 'TestSet', 'Test' and 'Compare' are the instructions in test
      mode: they decide whether the jump that follows them is taken. */
  datatype Instr =
    | Branch(op: BranchOp, a: int, offset: int)
    | TestSet(a: int, b: int, c: int)
    | Test(a: int, c: int)
    | Compare(operator: int, a: int, b: int, c: int)
    | Other(opcode: int, a: int, b: int, c: int)

  predicate TestMode(i: Instr) {
    i.TestSet? || i.Test? || i.Compare?
  }

  // ----- lists in the code ---------------------------------------------------------------

  predicate JumpAt(code: seq<Instr>, q: int) {
    0 <= q < |code| && code[q].Branch?
  }

  /** Where a jump goes. */
  function Dest(code: seq<Instr>, q: int): int
    requires JumpAt(code, q)
  {
    q + 1 + code[q].offset
  }

  /** The jump after 'q' in its list; a jump to itself is the last one. */
  function Next(code: seq<Instr>, q: int): int
    requires JumpAt(code, q)
  {
    if code[q].offset == NO_JUMP then NO_JUMP else Dest(code, q)
  }

  ghost predicate IsList(code: seq<Instr>, first: int, s: seq<int>) {
    && first == (if s == [] then NO_JUMP else s[0])
    && forall i {:trigger s[i]} :: 0 <= i < |s| ==>
         JumpAt(code, s[i]) && Next(code, s[i]) == if i + 1 < |s| then s[i + 1] else NO_JUMP
  }

  predicate Distinct(s: seq<int>) {
    forall i, j :: 0 <= i < j < |s| ==> s[i] != s[j]
  }

  predicate Disjoint(s: seq<int>, t: seq<int>) {
    forall i, j :: 0 <= i < |s| && 0 <= j < |t| ==> s[i] != t[j]
  }

  lemma ListAt(code: seq<Instr>, first: int, s: seq<int>, i: nat)
    requires IsList(code, first, s) && i < |s|
    ensures JumpAt(code, s[i]) && s[i] >= 0 && (i == 0 ==> first == s[0])
    ensures Next(code, s[i]) == if i + 1 < |s| then s[i + 1] else NO_JUMP
  {
  }

  /** From one jump on there is only one way to the end. */
  lemma {:induction false} SameRest(code: seq<Instr>, s: seq<int>, i: nat, t: seq<int>, j: nat)
    requires i < |s| && j < |t| && s[i] == t[j]
    requires IsList(code, s[0], s) && IsList(code, t[0], t)
    ensures s[i..] == t[j..]
    decreases |s| - i
  {
    hide IsList;
    ListAt(code, s[0], s, i);
    ListAt(code, t[0], t, j);
    if i + 1 < |s| { ListAt(code, s[0], s, i + 1); }
    if j + 1 < |t| { ListAt(code, t[0], t, j + 1); }
    if i + 1 < |s| {
      SameRest(code, s, i + 1, t, j + 1);
      assert s[i..] == [s[i]] + s[i + 1..] && t[j..] == [t[j]] + t[j + 1..];
    }
  }

  /** A list has no cycle. */
  lemma ListDistinct(code: seq<Instr>, first: int, s: seq<int>)
    requires IsList(code, first, s)
    ensures Distinct(s)
  {
    forall i, j | 0 <= i < j < |s| ensures s[i] != s[j] {
      if s[i] == s[j] {
        SameRest(code, s, i, s, j);
      }
    }
  }

  /** A list is what follows from its first jump. */
  lemma ListUnique(code: seq<Instr>, first: int, s: seq<int>, t: seq<int>)
    requires IsList(code, first, s) && IsList(code, first, t)
    ensures s == t
  {
    if s != [] && t != [] {
      SameRest(code, s, 0, t, 0);
    }
  }

  // ----- patching a list -----------------------------------------------------------------

  /** The instruction that decides whether jump 'q' is taken. */
  function Control(code: seq<Instr>, q: int): (i: int)
    requires 0 <= q < |code|
    ensures 0 <= i < |code|
  {
    if q >= 1 && TestMode(code[q - 1]) then q - 1 else q
  }

  /** The jump is taken with a value that a register is to get. */
  predicate GivesValue(code: seq<Instr>, q: int)
    requires 0 <= q < |code|
  {
    code[Control(code, q)].TestSet?
  }

  /** A test-and-set that puts its value into 'reg', or only tests. */
  function Retargeted(i: Instr, reg: int): Instr
    requires i.TestSet?
  {
    if reg != NO_REG && reg != i.b then TestSet(reg, i.b, i.c) else Test(i.b, i.c)
  }

  function Want(code: seq<Instr>, q: int, vtarget: int, dtarget: int): int
    requires 0 <= q < |code|
  {
    if GivesValue(code, q) then vtarget else dtarget
  }

  predicate Near(q: int, dest: int) {
    -MAXARG_SBX <= dest - (q + 1) <= MAXARG_SBX
  }

  /** Instruction 'i' after the jumps of 's' have been sent to their targets. */
  function PatchedAt(code: seq<Instr>, s: seq<int>, vtarget: int, reg: int, dtarget: int, i: int): Instr
    requires 0 <= i < |code|
  {
    if i in s && code[i].Branch? then code[i].(offset := Want(code, i, vtarget, dtarget) - (i + 1))
    else if i + 1 in s && code[i].TestSet? then Retargeted(code[i], reg)
    else code[i]
  }

  function Patched(code: seq<Instr>, s: seq<int>, vtarget: int, reg: int, dtarget: int): (r: seq<Instr>)
    ensures |r| == |code|
  {
    seq(|code|, i requires 0 <= i < |code| => PatchedAt(code, s, vtarget, reg, dtarget, i))
  }

  /** Every jump of the list goes to its target, and no other jump changes. */
  lemma PatchedJumps(code: seq<Instr>, s: seq<int>, vtarget: int, reg: int, dtarget: int, q: int)
    requires JumpAt(code, q)
    ensures var r := Patched(code, s, vtarget, reg, dtarget);
            && JumpAt(r, q) && r[q].op == code[q].op
            && if q in s then Dest(r, q) == Want(code, q, vtarget, dtarget) else r[q] == code[q]
  {
  }

  /** A list that has no jump in common with the patched one. */
  lemma PatchedKeepsList(code: seq<Instr>, s: seq<int>, vtarget: int, reg: int, dtarget: int, first: int, t: seq<int>)
    requires IsList(code, first, t) && Disjoint(s, t)
    ensures IsList(Patched(code, s, vtarget, reg, dtarget), first, t)
  {
    hide Patched;
    forall i | 0 <= i < |t|
      ensures var r := Patched(code, s, vtarget, reg, dtarget); JumpAt(r, t[i]) && r[t[i]] == code[t[i]]
    {
      PatchedJumps(code, s, vtarget, reg, dtarget, t[i]);
      assert t[i] !in s;
    }
  }

  /** What getjumpcontrol finds for jump 'k' when the jumps before it are patched. */
  lemma PatchedControl(code: seq<Instr>, s: seq<int>, vtarget: int, reg: int, dtarget: int, k: nat)
    requires k < |s| && Distinct(s) && forall i :: 0 <= i < |s| ==> JumpAt(code, s[i])
    ensures var c, q := Patched(code, s[..k], vtarget, reg, dtarget), s[k];
            && JumpAt(c, q) && c[q] == code[q] && Control(c, q) == Control(code, q)
            && c[Control(c, q)] == code[Control(code, q)]
  {
    var q := s[k];
    assert q !in s[..k];
  }

  /** One more jump of the list. */
  lemma PatchedStep(code: seq<Instr>, s: seq<int>, vtarget: int, reg: int, dtarget: int, k: nat)
    requires k < |s| && Distinct(s) && forall i :: 0 <= i < |s| ==> JumpAt(code, s[i])
    ensures var c, q := Patched(code, s[..k], vtarget, reg, dtarget), s[k];
            && JumpAt(c, q)
            && var d := if GivesValue(c, q) then c[Control(c, q) := Retargeted(c[Control(c, q)], reg)] else c;
               && JumpAt(d, q)
               && var w := Want(code, q, vtarget, dtarget);
                  Patched(code, s[..k + 1], vtarget, reg, dtarget) == d[q := d[q].(offset := w - (q + 1))]
  {
    hide Patched;
    PatchedControl(code, s, vtarget, reg, dtarget, k);
    var c, q := Patched(code, s[..k], vtarget, reg, dtarget), s[k];
    var d := if GivesValue(c, q) then c[Control(c, q) := Retargeted(c[Control(c, q)], reg)] else c;
    var r := Patched(code, s[..k + 1], vtarget, reg, dtarget);
    var e := d[q := d[q].(offset := Want(code, q, vtarget, dtarget) - (q + 1))];
    forall i | 0 <= i < |code| ensures r[i] == e[i] {
      PatchedIs(code, s[..k], vtarget, reg, dtarget, i);
      PatchedIs(code, s[..k + 1], vtarget, reg, dtarget, i);
      assert i in s[..k + 1] <==> i in s[..k] || i == q;
      assert i + 1 in s[..k + 1] <==> i + 1 in s[..k] || i + 1 == q;
    }
  }

  lemma PatchedIs(code: seq<Instr>, s: seq<int>, vtarget: int, reg: int, dtarget: int, i: nat)
    requires i < |code|
    ensures Patched(code, s, vtarget, reg, dtarget)[i] == PatchedAt(code, s, vtarget, reg, dtarget, i)
  {
  }

  // ----- the lists of a function being compiled ----------------------------------------------

  /** The code, the jumps that wait for the next instruction ('pending', from 'jpc'), the lists
      that the parser holds, and the jumps that were put on hold together with a new jump. */
  datatype World = World(code: seq<Instr>, jpc: int, pending: seq<int>, lists: set<seq<int>>, merged: set<(int, int)>)

  predicate Loose(w: World, q: int) {
    q !in w.pending && forall s :: s in w.lists ==> q !in s
  }

  /** Jump 'q', which was to go to the unconditional jump 'j', goes where that one goes. */
  ghost predicate SameFate(w: World, q: int, j: int) {
    && JumpAt(w.code, q) && JumpAt(w.code, j) && w.code[j].op == JMP
    && (q in w.pending <==> j in w.pending)
    && (forall s :: s in w.lists ==> (q in s <==> j in s))
    && (Loose(w, q) ==> Dest(w.code, q) == Dest(w.code, j))
  }

  ghost predicate Apart(w: World) {
    && (forall s, t :: s in w.lists && t in w.lists && s != t ==> Disjoint(s, t))
    && (forall s :: s in w.lists ==> Disjoint(s, w.pending))
  }

  ghost predicate Good(w: World) {
    && IsList(w.code, w.jpc, w.pending)
    && (forall s :: s in w.lists ==> s != [] && IsList(w.code, s[0], s))
    && Apart(w)
    && (forall q, j :: (q, j) in w.merged ==> SameFate(w, q, j))
  }

  /** 's' is the list of variable 'list' of the parser. */
  ghost predicate Held(w: World, list: int, s: seq<int>) {
    if list == NO_JUMP then s == [] else s in w.lists && s != [] && s[0] == list
  }

  // ----- pure steps ----------------------------------------------------------------------------

  /** One more instruction, when no jump is pending. */
  function Coded(w: World, i: Instr): World {
    w.(code := w.code + [i])
  }

  lemma CodedGood(w: World, i: Instr)
    requires Good(w)
    ensures Good(Coded(w, i))
  {
  }

  /** The jumps of a list go to 'target'; nobody holds the list any more. */
  ghost function Sent(w: World, s: seq<int>, vtarget: int, reg: int, dtarget: int): World {
    w.(code := Patched(w.code, s, vtarget, reg, dtarget), lists := w.lists - {s})
  }

  lemma SentGood(w: World, s: seq<int>, vtarget: int, reg: int, dtarget: int)
    requires Good(w) && s in w.lists
    requires vtarget == dtarget || forall q, j :: (q, j) in w.merged ==> q !in s
    ensures Good(Sent(w, s, vtarget, reg, dtarget))
  {
    hide IsList, Patched, Disjoint, SameFate;
    var d := Sent(w, s, vtarget, reg, dtarget);
    PatchedKeepsList(w.code, s, vtarget, reg, dtarget, w.jpc, w.pending);
    forall t | t in d.lists ensures IsList(d.code, t[0], t) {
      PatchedKeepsList(w.code, s, vtarget, reg, dtarget, t[0], t);
    }
    forall q, j | (q, j) in d.merged ensures SameFate(d, q, j) {
      SentFate(w, s, vtarget, reg, dtarget, q, j);
    }
  }

  lemma SentFate(w: World, s: seq<int>, vtarget: int, reg: int, dtarget: int, q: int, j: int)
    requires SameFate(w, q, j) && s in w.lists && Apart(w)
    requires vtarget == dtarget || q !in s
    ensures SameFate(Sent(w, s, vtarget, reg, dtarget), q, j)
  {
    hide Patched;
    PatchedJumps(w.code, s, vtarget, reg, dtarget, q);
    PatchedJumps(w.code, s, vtarget, reg, dtarget, j);
    var d := Sent(w, s, vtarget, reg, dtarget);
    if Loose(d, q) && q !in s {
      assert forall t :: t in w.lists ==> t == s || t in d.lists;
      assert Loose(w, q);
    }
  }

  /** The pending jumps go to the next instruction. */
  ghost function Discharged(w: World): World {
    w.(code := Patched(w.code, w.pending, |w.code|, NO_REG, |w.code|), jpc := NO_JUMP, pending := [])
  }

  lemma DischargedGood(w: World)
    requires Good(w)
    ensures Good(Discharged(w))
  {
    hide IsList, Patched, Disjoint, SameFate;
    var d, n := Discharged(w), |w.code|;
    EmptyList(d.code);
    forall t | t in d.lists ensures IsList(d.code, t[0], t) && Disjoint(t, []) {
      DisjointSymmetric(t, w.pending);
      PatchedKeepsList(w.code, w.pending, n, NO_REG, n, t[0], t);
      DisjointNone(t);
    }
    forall q, j | (q, j) in d.merged ensures SameFate(d, q, j) {
      DischargedFate(w, q, j);
    }
  }

  lemma DisjointNone(t: seq<int>)
    ensures Disjoint(t, [])
  {
  }

  lemma DischargedFate(w: World, q: int, j: int)
    requires SameFate(w, q, j)
    ensures SameFate(Discharged(w), q, j)
  {
    hide Patched;
    PatchedJumps(w.code, w.pending, |w.code|, NO_REG, |w.code|, q);
    PatchedJumps(w.code, w.pending, |w.code|, NO_REG, |w.code|, j);
  }

  /** The last jump of 's' leads to the list 't'. */
  function Tied(code: seq<Instr>, s: seq<int>, t: seq<int>): (r: seq<Instr>)
    requires forall i :: 0 <= i < |s| ==> JumpAt(code, s[i])
    ensures |r| == |code|
  {
    if s == [] || t == [] then code
    else
      var q := s[|s| - 1];
      assert JumpAt(code, q);
      code[q := code[q].(offset := t[0] - (q + 1))]
  }

  lemma TiedList(code: seq<Instr>, s: seq<int>, t: seq<int>, first: int, second: int)
    requires IsList(code, first, s) && IsList(code, second, t) && Disjoint(s, t)
    ensures var r := if s == [] then second else first;
            IsList(Tied(code, s, t), r, s + t)
  {
    if s != [] && t != [] {
      hide IsList;
      ListDistinct(code, first, s);
      var c, u := Tied(code, s, t), s + t;
      ListAt(code, first, s, 0);
      ListAt(code, second, t, 0);
      forall i | 0 <= i < |u| ensures JumpAt(c, u[i]) && Next(c, u[i]) == if i + 1 < |u| then u[i + 1] else NO_JUMP {
        if i < |s| { ListAt(code, first, s, i); } else { ListAt(code, second, t, i - |s|); }
      }
      MakeList(c, u);
    } else {
      assert s + [] == s && [] + t == t;
    }
  }

  lemma MakeList(code: seq<Instr>, s: seq<int>)
    requires s != []
    requires forall i {:trigger s[i]} :: 0 <= i < |s| ==>
               JumpAt(code, s[i]) && Next(code, s[i]) == if i + 1 < |s| then s[i + 1] else NO_JUMP
    ensures IsList(code, s[0], s)
  {
  }

  /** A tie changes one jump, of list 's'. */
  lemma TiedJumps(code: seq<Instr>, s: seq<int>, t: seq<int>, q: int)
    requires (forall i :: 0 <= i < |s| ==> JumpAt(code, s[i])) && JumpAt(code, q)
    ensures var r := Tied(code, s, t);
            JumpAt(r, q) && r[q].op == code[q].op && (q !in s ==> r[q] == code[q])
  {
  }

  lemma TiedKeepsList(code: seq<Instr>, s: seq<int>, t: seq<int>, first: int, u: seq<int>)
    requires (forall i :: 0 <= i < |s| ==> JumpAt(code, s[i])) && IsList(code, first, u) && Disjoint(s, u)
    ensures IsList(Tied(code, s, t), first, u)
  {
    forall i | 0 <= i < |u| ensures JumpAt(Tied(code, s, t), u[i]) && Tied(code, s, t)[u[i]] == code[u[i]] {
      TiedJumps(code, s, t, u[i]);
    }
  }

  /** Two lists of the parser become one. */
  ghost function Joined(w: World, s: seq<int>, t: seq<int>): World
    requires forall i :: 0 <= i < |s| ==> JumpAt(w.code, s[i])
  {
    if s == [] || t == [] then w
    else w.(code := Tied(w.code, s, t), lists := w.lists - {s, t} + {s + t})
  }

  lemma JoinedGood(w: World, s: seq<int>, t: seq<int>)
    requires Good(w) && (s == [] || s in w.lists) && (t == [] || t in w.lists) && (s == t ==> s == [])
    requires forall i :: 0 <= i < |s| ==> JumpAt(w.code, s[i])
    ensures Good(Joined(w, s, t))
  {
    if s != [] && t != [] {
      hide IsList, Tied, SameFate, Disjoint, Apart;
      var d := Joined(w, s, t);
      TiedList(w.code, s, t, s[0], t[0]);
      TiedKeepsList(w.code, s, t, w.jpc, w.pending);
      forall u | u in d.lists ensures u != [] && IsList(d.code, u[0], u) {
        if u != s + t { TiedKeepsList(w.code, s, t, u[0], u); }
      }
      JoinedApart(w, s, t);
      JoinedFates(w, s, t);
    }
  }

  lemma JoinedFates(w: World, s: seq<int>, t: seq<int>)
    requires Good(w) && s in w.lists && t in w.lists && s != [] && t != []
    requires forall i :: 0 <= i < |s| ==> JumpAt(w.code, s[i])
    ensures var d := Joined(w, s, t); forall q, j :: (q, j) in d.merged ==> SameFate(d, q, j)
  {
    hide IsList, Tied, SameFate, Disjoint, Apart;
    var d := Joined(w, s, t);
    forall q, j | (q, j) in d.merged ensures SameFate(d, q, j) {
      JoinedFate(w, s, t, q, j);
    }
  }

  lemma JoinedApart(w: World, s: seq<int>, t: seq<int>)
    requires Apart(w) && s in w.lists && t in w.lists && s != [] && t != []
    requires forall i :: 0 <= i < |s| ==> JumpAt(w.code, s[i])
    ensures Apart(Joined(w, s, t))
  {
    var d := Joined(w, s, t);
    forall u | Disjoint(u, s) && Disjoint(u, t) ensures Disjoint(u, s + t) && Disjoint(s + t, u) {}
    forall u | u in d.lists && u != s + t ensures Disjoint(u, s) && Disjoint(u, t) {}
    assert Disjoint(w.pending, s) && Disjoint(w.pending, t);
  }

  lemma JoinedFate(w: World, s: seq<int>, t: seq<int>, q: int, j: int)
    requires SameFate(w, q, j) && s in w.lists && t in w.lists && s != [] && t != []
    requires forall i :: 0 <= i < |s| ==> JumpAt(w.code, s[i])
    ensures SameFate(Joined(w, s, t), q, j)
  {
    hide Tied;
    TiedJumps(w.code, s, t, q);
    TiedJumps(w.code, s, t, j);
    var d := Joined(w, s, t);
    assert s + t in d.lists;
    if Loose(d, q) {
      assert forall u :: u in w.lists ==> u == s || u == t || u in d.lists;
      assert q !in s + t;
      assert Loose(w, q);
    }
  }

  /** A list of the parser waits for the next instruction. */
  ghost function Awaiting(w: World, s: seq<int>): World
    requires forall i :: 0 <= i < |w.pending| ==> JumpAt(w.code, w.pending[i])
  {
    if s == [] then w
    else w.(code := Tied(w.code, w.pending, s), jpc := if w.pending == [] then s[0] else w.jpc,
            pending := w.pending + s, lists := w.lists - {s})
  }

  lemma AwaitingGood(w: World, s: seq<int>)
    requires Good(w) && (s == [] || s in w.lists)
    requires forall i :: 0 <= i < |w.pending| ==> JumpAt(w.code, w.pending[i])
    ensures Good(Awaiting(w, s))
  {
    if s != [] {
      hide IsList, Tied, SameFate, Disjoint;
      var d := Awaiting(w, s);
      DisjointSymmetric(s, w.pending);
      TiedList(w.code, w.pending, s, w.jpc, s[0]);
      forall u | u in d.lists ensures IsList(d.code, u[0], u) && Disjoint(u, d.pending) {
        DisjointSymmetric(u, w.pending);
        TiedKeepsList(w.code, w.pending, s, u[0], u);
        DisjointBoth(u, w.pending, s);
      }
      forall q, j | (q, j) in d.merged ensures SameFate(d, q, j) {
        AwaitingFate(w, s, q, j);
      }
    }
  }

  lemma DisjointSymmetric(s: seq<int>, t: seq<int>)
    requires Disjoint(s, t)
    ensures Disjoint(t, s)
  {
  }

  lemma DisjointBoth(u: seq<int>, s: seq<int>, t: seq<int>)
    requires Disjoint(u, s) && Disjoint(u, t)
    ensures Disjoint(u, s + t)
  {
  }

  lemma AwaitingFate(w: World, s: seq<int>, q: int, j: int)
    requires SameFate(w, q, j) && s in w.lists && s != []
    requires forall i :: 0 <= i < |w.pending| ==> JumpAt(w.code, w.pending[i])
    ensures SameFate(Awaiting(w, s), q, j)
  {
    hide Tied;
    TiedJumps(w.code, w.pending, s, q);
    TiedJumps(w.code, w.pending, s, j);
    var d := Awaiting(w, s);
    if Loose(d, q) {
      assert forall u :: u in w.lists ==> u == s || u in d.lists;
      assert q !in w.pending + s;
      assert Loose(w, q);
    }
  }

  /** A new jump; the pending jumps are put on hold with it. */
  ghost function Jumped(w: World): World
    requires Good(w)
  {
    var j := |w.code|;
    var c := w.code + [Branch(JMP, 0, NO_JUMP)];
    w.(code := Tied(c, [j], w.pending), jpc := NO_JUMP, pending := [], lists := w.lists + {[j] + w.pending},
       merged := w.merged + set q | q in w.pending :: (q, j))
  }

  lemma JumpedGood(w: World)
    requires Good(w)
    ensures Good(Jumped(w))
  {
    hide IsList, Tied, SameFate, Disjoint;
    var j := |w.code|;
    var e := Coded(w, Branch(JMP, 0, NO_JUMP));
    CodedGood(w, Branch(JMP, 0, NO_JUMP));
    var d := Jumped(w);
    LastJump(w.code);
    EmptyList(d.code);
    NotYet(w);
    TiedList(e.code, [j], w.pending, j, w.jpc);
    forall u | u in d.lists ensures u != [] && IsList(d.code, u[0], u) {
      if u in w.lists { TiedKeepsList(e.code, [j], w.pending, u[0], u); }
    }
    JumpedApart(w);
    forall q, k | (q, k) in d.merged ensures SameFate(d, q, k) {
      if (q, k) in w.merged { JumpedFate(w, q, k); } else { JumpedTogether(w, q); }
    }
  }

  lemma LastJump(code: seq<Instr>)
    ensures IsList(code + [Branch(JMP, 0, NO_JUMP)], |code|, [|code|])
  {
  }

  lemma EmptyList(code: seq<Instr>)
    ensures IsList(code, NO_JUMP, [])
  {
  }

  /** The next instruction is in no list yet. */
  lemma PendingAt(w: World)
    requires Good(w)
    ensures forall i {:trigger w.pending[i]} :: 0 <= i < |w.pending| ==> JumpAt(w.code, w.pending[i])
  {
  }

  lemma NotYet(w: World)
    requires Good(w)
    ensures Disjoint([|w.code|], w.pending) && |w.code| !in w.pending
    ensures forall u :: u in w.lists ==> Disjoint([|w.code|], u) && |w.code| !in u
  {
    hide SameFate, Apart;
    forall u | u in w.lists ensures Disjoint([|w.code|], u) && |w.code| !in u { assert IsList(w.code, u[0], u); }
  }

  lemma JumpedApart(w: World)
    requires Good(w)
    ensures Apart(Jumped(w))
  {
    hide IsList, Tied, SameFate;
    NotYet(w);
    var d, v := Jumped(w), [|w.code|] + w.pending;
    forall u | u in w.lists ensures Disjoint(u, v) && Disjoint(v, u) {
      DisjointSymmetric([|w.code|], u);
      DisjointBoth(u, [|w.code|], w.pending);
      DisjointSymmetric(u, v);
    }
  }

  lemma JumpedFate(w: World, q: int, k: int)
    requires Good(w) && (q, k) in w.merged
    ensures SameFate(Jumped(w), q, k)
  {
    hide IsList, Tied, Disjoint;
    assert SameFate(w, q, k);
    var e := Coded(w, Branch(JMP, 0, NO_JUMP));
    TiedJumps(e.code, [|w.code|], w.pending, q);
    TiedJumps(e.code, [|w.code|], w.pending, k);
    var d := Jumped(w);
    assert [|w.code|] + w.pending in d.lists;
    if Loose(d, q) {
      assert q !in [|w.code|] + w.pending;
      assert Loose(w, q);
    }
  }

  lemma PendingNotHeld(w: World, q: int)
    requires Apart(w) && q in w.pending
    ensures forall u :: u in w.lists ==> q !in u
  {
  }

  lemma JumpedTogether(w: World, q: int)
    requires Good(w) && q in w.pending
    ensures SameFate(Jumped(w), q, |w.code|)
  {
    hide Tied, Disjoint, IsList;
    NotYet(w);
    PendingNotHeld(w, q);
    var i :| 0 <= i < |w.pending| && w.pending[i] == q;
    ListAt(w.code, w.jpc, w.pending, i);
    var e := Coded(w, Branch(JMP, 0, NO_JUMP));
    TiedJumps(e.code, [|w.code|], w.pending, q);
    TiedJumps(e.code, [|w.code|], w.pending, |w.code|);
    var d := Jumped(w);
    assert [|w.code|] + w.pending in d.lists;
  }

  // ----- what the steps mean for control ---------------------------------------------------------

  /** After a list is sent to a target, its jumps go there, and no other jump changes. */
  lemma SentJumps(w: World, s: seq<int>, target: int, q: int)
    requires JumpAt(w.code, q)
    ensures var d := Sent(w, s, target, NO_REG, target);
            JumpAt(d.code, q) && if q in s then Dest(d.code, q) == target else d.code[q] == w.code[q]
  {
    PatchedJumps(w.code, s, target, NO_REG, target, q);
  }

  /** The jumps that were waiting go to the instruction that comes next. */
  lemma WaitingJumps(w: World, i: Instr, q: int)
    requires Good(w) && JumpAt(w.code, q)
    ensures var d := Coded(Discharged(w), i);
            && d.code[|w.code|] == i && JumpAt(d.code, q)
            && if q in w.pending then Dest(d.code, q) == |w.code| else d.code[q] == w.code[q]
  {
    PatchedJumps(w.code, w.pending, |w.code|, NO_REG, |w.code|, q);
  }

  lemma MergedEnds(w: World, q: int, j: int)
    requires Good(w) && (q, j) in w.merged && Loose(w, q)
    ensures JumpAt(w.code, q) && JumpAt(w.code, j) && w.code[j].op == JMP && Dest(w.code, q) == Dest(w.code, j)
  {
    hide IsList, Disjoint;
  }

  // ----- the code generator --------------------------------------------------------------------

  /** 'ok' is false when a jump is too long, which ends the compilation with an error. */
  class FuncState {
    var code: seq<Instr>
    var jpc: int
    var lasttarget: int
    ghost var pending: seq<int>
    ghost var lists: set<seq<int>>
    ghost var merged: set<(int, int)>

    ghost function Here(): World
      reads this
    {
      World(code, jpc, pending, lists, merged)
    }

    constructor ()
      ensures Good(Here()) && code == [] && pending == [] && lists == {} && merged == {}
    {
      code, jpc, lasttarget := [], NO_JUMP, -1;
      pending, lists, merged := [], {}, {};
    }

    method FixJump(q: int, dest: int) returns (ok: bool)
      requires JumpAt(code, q)
      modifies this`code
      ensures ok == Near(q, dest)
      ensures ok <==> 0 <= dest - (q + 1) + 131071 < 0x4_0000 - 1
      ensures code == if ok then old(code)[q := old(code)[q].(offset := dest - (q + 1))] else old(code)
    {
      var offset := dest - (q + 1);
      ok := -MAXARG_SBX <= offset <= MAXARG_SBX;
      if ok { code := code[q := code[q].(offset := offset)]; }
    }

    method PatchTestReg(q: int, reg: int) returns (patched: bool)
      requires 0 <= q < |code|
      modifies this`code
      ensures patched == old(GivesValue(code, q))
      ensures var c, k := old(code), old(Control(code, q));
              code == if GivesValue(c, q) then c[k := Retargeted(c[k], reg)] else c
    {
      var k := Control(code, q);
      if !code[k].TestSet? { return false; }
      if reg != NO_REG && reg != code[k].b {
        code := code[k := TestSet(reg, code[k].b, code[k].c)];
      } else {
        code := code[k := Test(code[k].b, code[k].c)];
      }
      return true;
    }

    /** Does some jump of the list come without a value? */
    method NeedValue(first: int, ghost s: seq<int>) returns (need: bool)
      requires IsList(code, first, s)
      ensures need <==> exists i :: 0 <= i < |s| && !GivesValue(code, s[i])
    {
      hide Distinct;
      ListFields(code, first, s);
      ghost var k := 0;
      var list := first;
      while list != NO_JUMP
        invariant 0 <= k <= |s| && list == if k < |s| then s[k] else NO_JUMP
        invariant forall i :: 0 <= i < k ==> GivesValue(code, s[i])
        decreases |s| - k
      {
        ListAt(code, first, s, k);
        if !GivesValue(code, list) { return true; }
        list := Next(code, list);
        k := k + 1;
      }
      need := false;
    }

    /** Send the jumps of a list to 'vtarget' with their values, or to 'dtarget' without. */
    method PatchListAux(first: int, vtarget: int, reg: int, dtarget: int, ghost s: seq<int>) returns (ok: bool)
      requires IsList(code, first, s)
      modifies this`code
      ensures ok <==> forall i :: 0 <= i < |s| ==> Near(s[i], Want(old(code), s[i], vtarget, dtarget))
      ensures ok ==> code == Patched(old(code), s, vtarget, reg, dtarget)
    {
      hide IsList, Patched, Control, Distinct;
      ghost var c := code;
      ghost var k := 0;
      var list := first;
      ListFields(c, first, s);
      PatchedNone(c, vtarget, reg, dtarget);
      while list != NO_JUMP
        invariant 0 <= k <= |s| && list == if k < |s| then s[k] else NO_JUMP
        invariant code == Patched(c, s[..k], vtarget, reg, dtarget)
        invariant forall i :: 0 <= i < k ==> Near(s[i], Want(c, s[i], vtarget, dtarget))
        decreases |s| - k
      {
        PatchedControl(c, s, vtarget, reg, dtarget, k);
        PatchedStep(c, s, vtarget, reg, dtarget, k);
        ListAt(c, first, s, k);
        var next := Next(code, list);
        var patched := PatchTestReg(list, reg);
        if patched {
          ok := FixJump(list, vtarget);
        } else {
          ok := FixJump(list, dtarget);
        }
        if !ok { return; }
        list := next;
        k := k + 1;
      }
      assert k == |s|;
      assert s[..k] == s;
      ok := true;
    }

    method DischargeJpc() returns (ok: bool)
      requires Good(Here())
      modifies this`code, this`jpc, this`pending
      ensures ok <==> forall i :: 0 <= i < |old(pending)| ==> Near(old(pending)[i], |old(code)|)
      ensures ok ==> Good(Here()) && Here() == Discharged(old(Here()))
    {
      hide IsList, Patched, Apart, SameFate;
      DischargedGood(Here());
      ok := PatchListAux(jpc, |code|, NO_REG, |code|, pending);
      jpc, pending := NO_JUMP, [];
    }

    /** Emit an instruction; the pending jumps go to it. */
    method Code(i: Instr) returns (ok: bool, pc: int)
      requires Good(Here())
      modifies this`code, this`jpc, this`pending
      ensures ok <==> forall i :: 0 <= i < |old(pending)| ==> Near(old(pending)[i], |old(code)|)
      ensures ok ==> Good(Here()) && Here() == Coded(Discharged(old(Here())), i) && pc == |old(code)|
      ensures ok ==> forall q {:trigger JumpAt(old(code), q)} :: JumpAt(old(code), q) ==>
                JumpAt(code, q) && if q in old(pending) then Dest(code, q) == |old(code)| else code[q] == old(code)[q]
    {
      hide IsList, Patched, Apart, SameFate;
      ghost var w := Here();
      ok := DischargeJpc();
      pc := |code|;
      if ok {
        CodedGood(Here(), i);
        code := code + [i];
        forall q | JumpAt(w.code, q)
          ensures JumpAt(code, q) && if q in w.pending then Dest(code, q) == |w.code| else code[q] == w.code[q]
        {
          WaitingJumps(w, i, q);
        }
      }
    }

    /** Append list 'l2' to list 'l1'. */
    method Concat(l1: int, l2: int, ghost s: seq<int>, ghost t: seq<int>) returns (ok: bool, l: int)
      requires IsList(code, l1, s) && IsList(code, l2, t)
      requires forall i :: 0 <= i < |s| ==> JumpAt(code, s[i])
      modifies this`code
      ensures ok <==> (s != [] && t != [] ==> Near(s[|s| - 1], t[0]))
      ensures ok ==> code == Tied(old(code), s, t) && l == if s == [] then l2 else l1
    {
      hide IsList, Distinct;
      ListFields(code, l1, s);
      ListFields(code, l2, t);
      if l2 == NO_JUMP {
        return true, l1;
      } else if l1 == NO_JUMP {
        return true, l2;
      } else {
        var list := l1;
        ghost var k := 0;
        ListAt(code, l1, s, k);
        while Next(code, list) != NO_JUMP
          invariant 0 <= k < |s| && list == s[k] && JumpAt(code, list) && code == old(code)
          invariant Next(code, list) == if k + 1 < |s| then s[k + 1] else NO_JUMP
          decreases |s| - k
        {
          list := Next(code, list);
          k := k + 1;
          ListAt(code, l1, s, k);
        }
        ok := FixJump(list, l2);
        l := l1;
      }
    }

    /** Append a list that the parser holds to another one. */
    method Join(l1: int, l2: int, ghost s: seq<int>, ghost t: seq<int>) returns (ok: bool, l: int)
      requires Good(Here()) && Held(Here(), l1, s) && Held(Here(), l2, t) && (l1 == l2 ==> l1 == NO_JUMP)
      modifies this`code, this`lists
      ensures ok <==> (s != [] && t != [] ==> Near(s[|s| - 1], t[0]))
      ensures ok ==> forall i :: 0 <= i < |s| ==> JumpAt(old(code), s[i])
      ensures ok ==> Good(Here()) && Here() == Joined(old(Here()), s, t)
      ensures ok ==> Held(Here(), l, s + t) && l == if s == [] then l2 else l1
    {
      hide IsList, Patched, SameFate, Tied, Disjoint;
      HeldList(Here(), l1, s);
      HeldList(Here(), l2, t);
      JoinedGood(Here(), s, t);
      if s == [] || t == [] { TiedNone(code, s, t); }
      ok, l := Concat(l1, l2, s, t);
      if s != [] && t != [] { lists := lists - {s, t} + {s + t}; } else { assert s + [] == s && [] + t == t; }
    }

    /** The jumps of a list are to go to the next instruction. */
    method PatchToHere(list: int, ghost s: seq<int>) returns (ok: bool)
      requires Good(Here()) && Held(Here(), list, s)
      modifies this`code, this`jpc, this`lasttarget, this`pending, this`lists
      ensures ok <==> (old(pending) != [] && s != [] ==> Near(old(pending)[|old(pending)| - 1], s[0]))
      ensures ok ==> (forall i :: 0 <= i < |old(pending)| ==> JumpAt(old(code), old(pending)[i]))
      ensures ok ==> Good(Here()) && Here() == Awaiting(old(Here()), s)
    {
      hide IsList, Patched, SameFate, Tied, Disjoint;
      HeldList(Here(), list, s);
      ListFields(code, jpc, pending);
      AwaitingGood(Here(), s);
      if pending == [] || s == [] { TiedNone(code, pending, s); }
      lasttarget := |code|;
      ok, jpc := Concat(jpc, list, pending, s);
      if s != [] { pending, lists := pending + s, lists - {s}; }
    }

    /** The jumps of a list go to 'target', which is a place in the code or the next one. */
    method PatchList(list: int, target: int, ghost s: seq<int>) returns (ok: bool)
      requires Good(Here()) && Held(Here(), list, s) && 0 <= target <= |code|
      modifies this`code, this`jpc, this`lasttarget, this`pending, this`lists
      ensures ok <==>
                if target == |old(code)| then
                  old(pending) != [] && s != [] ==> Near(old(pending)[|old(pending)| - 1], s[0])
                else forall i :: 0 <= i < |s| ==> Near(s[i], target)
      ensures ok ==> (forall i :: 0 <= i < |old(pending)| ==> JumpAt(old(code), old(pending)[i])) && Good(Here())
      ensures ok ==>
                var w := old(Here());
                Here() == if target == |w.code| then Awaiting(w, s) else Sent(w, s, target, NO_REG, target)
      ensures ok && target < |old(code)| ==> forall q {:trigger JumpAt(old(code), q)} :: JumpAt(old(code), q) ==>
                JumpAt(code, q) && if q in s then Dest(code, q) == target else code[q] == old(code)[q]
      ensures ok ==> forall q, j :: (q, j) in merged && Loose(Here(), q) ==>
                JumpAt(code, q) && JumpAt(code, j) && Dest(code, q) == Dest(code, j)
    {
      hide IsList, Patched, SameFate, Tied, Disjoint, Apart;
      ghost var w := Here();
      ListFields(code, jpc, pending);
      if target == |code| {
        ok := PatchToHere(list, s);
      } else {
        HeldList(Here(), list, s);
        if s != [] {
          SentGood(Here(), s, target, NO_REG, target);
        } else {
          PatchedNone(code, target, NO_REG, target);
          assert lists - {s} == lists;
        }
        ok := PatchListAux(list, target, NO_REG, target, s);
        lists := lists - {s};
        if ok {
          forall q | JumpAt(w.code, q)
            ensures JumpAt(code, q) && if q in s then Dest(code, q) == target else code[q] == w.code[q]
          {
            SentJumps(w, s, target, q);
          }
        }
      }
      if ok {
        forall q, j | (q, j) in merged && Loose(Here(), q)
          ensures JumpAt(code, q) && JumpAt(code, j) && Dest(code, q) == Dest(code, j)
        {
          MergedEnds(Here(), q, j);
        }
      }
    }

    /** Emit a jump. The pending jumps are put on hold together with it. */
    method Jump() returns (ok: bool, j: int)
      requires Good(Here())
      modifies this`code, this`jpc, this`pending, this`lists, this`merged
      ensures ok <==> (old(pending) != [] ==> Near(|old(code)|, old(pending)[0]))
      ensures ok ==> Good(Here()) && Here() == Jumped(old(Here())) && j == |old(code)|
      ensures ok ==> Held(Here(), j, [j] + old(pending))
    {
      hide IsList, Patched, SameFate, Tied, Disjoint, Apart;
      ghost var w, p := Here(), pending;
      JumpedGood(w);
      OnHoldGood(w);
      var first := jpc;
      jpc := NO_JUMP;
      pending := [];
      if p != [] { lists := lists + {p}; }
      PatchedNone(code, |code|, NO_REG, |code|);
      ok, j := Code(Branch(JMP, 0, NO_JUMP));
      CodedGood(OnHold(w), Branch(JMP, 0, NO_JUMP));
      LastJump(w.code);
      ListFields(w.code, w.jpc, p);
      EmptyList(code);
      assert IsList(code, first, p) by { if p != [] { assert p in OnHold(w).lists; } }
      ok, j := Concat(j, first, [j], p);
      lists := w.lists + {[j] + p};
      merged := merged + set q | q in p :: (q, j);
    }

    /** Put the value of an expression with jump lists into a register: 't' and 'f' are its jumps
        for true and false, and 'info' is a last jump for true if 'isJump'. */
    method FinishValue(isJump: bool, info: int, t: int, f: int, reg: int, ghost ts: seq<int>, ghost fs: seq<int>)
      returns (ok: bool)
      requires Good(Here()) && Held(Here(), t, ts) && Held(Here(), f, fs) && (t == f ==> t == NO_JUMP)
      requires isJump ==> Held(Here(), info, [info]) && info != t && info != f && info != NO_JUMP
      requires forall q, j :: (q, j) in merged ==> q !in ts && q !in fs && (isJump ==> q != info)
      modifies this
      ensures |old(code)| + 4 <= MAXARG_SBX ==> ok
      ensures ok ==> Good(Here())
      ensures ok ==> forall q :: q in ts || (isJump && q == info) ==> Arrives(old(code), code, q, reg, true)
      ensures ok ==> forall q :: q in fs ==> Arrives(old(code), code, q, reg, false)
    {
      hide IsList, Patched, SameFate, Tied, Disjoint, Apart, Good, Arrives;
      ghost var was := code;
      var l := t;
      ghost var tt := ts;
      HeldList(Here(), t, ts);
      HeldList(Here(), f, fs);
      SameValuesSelf(code, ts);
      SameValuesSelf(code, fs);
      if isJump {
        JoinedValues(Here(), t, info, f, ts, fs);
        HeldList(Here(), info, [info]);
        ok, l := Join(t, info, ts, [info]);
        if !ok { return; }
        tt := ts + [info];
      }
      ok := true;
      ghost var mid := code;
      if l != f {
        ok := LoadAndPatch(isJump, l, f, reg, tt, fs);
        if ok {
          ArrivesFrom(was, mid, code, tt, reg, true);
          ArrivesFrom(was, mid, code, fs, reg, false);
        }
      }
    }

    /** Load the values that are missing, and send the jumps for true and false. */
    method LoadAndPatch(isJump: bool, t: int, f: int, reg: int, ghost ts: seq<int>,
                        ghost fs: seq<int>) returns (ok: bool)
      requires Good(Here()) && Held(Here(), t, ts) && Held(Here(), f, fs) && t != f
      requires forall q, j :: (q, j) in merged ==> q !in ts && q !in fs
      modifies this
      ensures |old(code)| + 4 <= MAXARG_SBX ==> ok
      ensures ok ==> Good(Here())
      ensures ok ==> forall q :: q in ts ==> Arrives(old(code), code, q, reg, true)
      ensures ok ==> forall q :: q in fs ==> Arrives(old(code), code, q, reg, false)
    {
      hide IsList, Patched, SameFate, Tied, Disjoint, Apart, Good, Arrives;
      ghost var w := Here();
      HeldList(w, t, ts);
      HeldList(w, f, fs);
      var pf, pt := NO_JUMP, NO_JUMP;
      SameValuesSelf(code, ts);
      SameValuesSelf(code, fs);
      var needTrue := NeedValue(t, ts);
      var needFalse := NeedValue(f, fs);
      if needTrue || needFalse {
        ok, pf, pt := LoadBoth(isJump, reg, t, f, ts, fs);
        if !ok { return; }
      }
      var final := |code|;
      lasttarget := final;
      ghost var v := Here();
      HeldList(v, t, ts);
      HeldList(v, f, fs);
      HeldApart(v, t, f, ts, fs);
      ok := PatchListAux(f, final, reg, pf, fs);
      if !ok { return; }
      SentHeld(v, f, fs, t, ts, final, reg, pf);
      lists := lists - {fs};
      HeldList(Here(), t, ts);
      ghost var u := Here();
      ok := PatchListAux(t, final, reg, pt, ts);
      if !ok { return; }
      SentHeld(u, t, ts, NO_JUMP, [], final, reg, pt);
      lists := lists - {ts};
      BothArrive(v.code, fs, ts, reg, pf, pt);
      ArrivesFrom(w.code, v.code, code, ts, reg, true);
      ArrivesFrom(w.code, v.code, code, fs, reg, false);
    }

    /** Code that loads false or true, jumped over by what comes from before. */
    method LoadBoth(isJump: bool, reg: int, t: int, f: int, ghost ts: seq<int>, ghost fs: seq<int>)
      returns (ok: bool, pf: int, pt: int)
      requires Good(Here()) && Held(Here(), t, ts) && Held(Here(), f, fs)
      requires forall q, j :: (q, j) in merged ==> q !in ts && q !in fs
      modifies this
      ensures |old(code)| + 4 <= MAXARG_SBX ==> ok
      ensures ok ==> |code| <= |old(code)| + 3
      ensures ok ==> Good(Here()) && Held(Here(), t, ts) && Held(Here(), f, fs)
      ensures ok ==> forall q, j :: (q, j) in merged ==> q !in ts && q !in fs
      ensures ok ==> 0 <= pf && pf + 1 == pt == |code| - 1
      ensures ok ==> code[pf] == LoadBool(reg, false) && code[pt] == LoadBool(reg, true)
      ensures ok ==> SameValues(old(code), code, ts) && SameValues(old(code), code, fs)
    {
      hide IsList, Patched, SameFate, Tied, Disjoint, Apart, Good, SameValues;
      ghost var w := Here();
      HeldList(w, t, ts);
      HeldList(w, f, fs);
      pf, pt := NO_JUMP, NO_JUMP;
      var fj := NO_JUMP;
      ghost var on: seq<int> := [];
      PendingAt(w);
      if !isJump {
        on := [|code|] + pending;
        ok, fj := Jump();
        if !ok { return; }
        JumpedValues(w, t, ts);
        JumpedValues(w, f, fs);
      } else { SameValuesSelf(code, ts); SameValuesSelf(code, fs); ok := true; }
      ghost var w1 := Here();
      PendingAt(w1);
      lasttarget := |code|;
      ok, pf := Code(LoadBool(reg, false));
      if !ok { return; }
      CodedValues(w1, LoadBool(reg, false), t, ts);
      CodedValues(w1, LoadBool(reg, false), f, fs);
      ghost var w2 := Here();
      lasttarget := |code|;
      ok, pt := Code(LoadBool(reg, true));
      if !ok { return; }
      CodedValues(w2, LoadBool(reg, true), t, ts);
      CodedValues(w2, LoadBool(reg, true), f, fs);
      SameValuesFurther(w.code, w1.code, w2.code, ts);
      SameValuesFurther(w.code, w1.code, w2.code, fs);
      SameValuesFurther(w.code, w2.code, code, ts);
      SameValuesFurther(w.code, w2.code, code, fs);
      ghost var w3 := Here();
      assert pending == [];
      PatchedNone(w2.code, |w2.code|, NO_REG, |w2.code|);
      TiedNone(code, [], on);
      OnceHeld(w3, fj, on, t, ts);
      OnceHeld(w3, fj, on, f, fs);
      ok := PatchToHere(fj, on);
    }
  }

  const OP_LOADBOOL: int := 2

  /** The load of false skips the load of true behind it. */
  function LoadBool(reg: int, value: bool): Instr {
    if value then Other(OP_LOADBOOL, reg, 1, 0) else Other(OP_LOADBOOL, reg, 0, 1)
  }

  /** Jump 'q' ends up behind the code with its value in the register: it has the value, or goes
      to an instruction that loads it. */
  ghost predicate Arrives(was: seq<Instr>, code: seq<Instr>, q: int, reg: int, value: bool) {
    && JumpAt(was, q) && JumpAt(code, q)
    && var d := Dest(code, q);
       if GivesValue(was, q) then q >= 1 && d == |code| && code[q - 1] == Retargeted(was[q - 1], reg)
       else 0 <= d == (if value then |code| - 1 else |code| - 2) && code[d] == LoadBool(reg, value)
  }

  // ----- what the code does ----------------------------------------------------------------------

  datatype Val = NilVal | Bool(b: bool) | OtherVal(n: int)

  type Registers = int -> Val

  predicate Truth(v: Val) {
    v != NilVal && v != Bool(false)
  }

  /** Where the machine is, and with which registers. */
  datatype At = At(pc: int, r: Registers)

  function Set(r: Registers, a: int, v: Val): Registers {
    x => if x == a then v else r(x)
  }

  /** One instruction; a test that comes out so takes the jump behind it, and skips it otherwise. */
  function Does(code: seq<Instr>, m: At): At
    requires 0 <= m.pc < |code|
  {
    match code[m.pc]
    case TestSet(a, b, c) =>
      if Truth(m.r(b)) == (c != 0) then At(Follows(code, m.pc + 1), Set(m.r, a, m.r(b))) else At(m.pc + 2, m.r)
    case Test(a, c) => if Truth(m.r(a)) == (c != 0) then At(Follows(code, m.pc + 1), m.r) else At(m.pc + 2, m.r)
    case Branch(_, _, offset) => At(m.pc + 1 + offset, m.r)
    case Other(2, a, b, c) => At(if c != 0 then m.pc + 2 else m.pc + 1, Set(m.r, a, Bool(b != 0)))
    case _ => At(m.pc + 1, m.r)
  }

  function Follows(code: seq<Instr>, pc: int): int {
    if 0 <= pc < |code| && code[pc].Branch? then pc + 1 + code[pc].offset else pc + 1
  }

  ghost predicate OnlySets(r: Registers, s: Registers, reg: int, v: Val) {
    s(reg) == v && forall x :: x != reg ==> s(x) == r(x)
  }

  /** When a jump is taken that has a value, the machine is behind the code, and the register has what
      the test looked at. When one is taken that has none, it is there one instruction later, and the
      register has true or false, as the jump was for. */
  lemma ArrivesMeans(was: seq<Instr>, code: seq<Instr>, q: int, reg: int, value: bool, r: Registers)
    requires Arrives(was, code, q, reg, value) && 0 <= reg < 250
    ensures if GivesValue(was, q) then
              && 1 <= q <= |code| && was[q - 1].TestSet?
              && (Truth(r(was[q - 1].b)) == (was[q - 1].c != 0) ==>
                    var m := Does(code, At(q - 1, r));
                    m.pc == |code| && OnlySets(r, m.r, reg, r(was[q - 1].b)))
            else
              && 0 <= q < |code|
              && var m := Does(code, At(q, r));
                 && 0 <= m.pc < |code|
                 && var n := Does(code, m);
                    n.pc == |code| && OnlySets(r, n.r, reg, Bool(value))
  {
  }

  /** The jump has the same instruction in test mode before it, or none. */
  ghost predicate SameValue(was: seq<Instr>, code: seq<Instr>, q: int) {
    && JumpAt(was, q) && JumpAt(code, q) && Control(code, q) == Control(was, q)
    && (Control(was, q) != q ==> code[q - 1] == was[q - 1])
  }

  ghost predicate SameValues(was: seq<Instr>, code: seq<Instr>, s: seq<int>) {
    forall q :: q in s ==> SameValue(was, code, q)
  }

  lemma SameValuesFurther(a: seq<Instr>, b: seq<Instr>, c: seq<Instr>, s: seq<int>)
    requires SameValues(a, b, s) && SameValues(b, c, s)
    ensures SameValues(a, c, s)
  {
  }

  lemma JumpedValues(w: World, list: int, s: seq<int>)
    requires Good(w) && Held(w, list, s)
    ensures SameValues(w.code, Jumped(w).code, s) && Held(Jumped(w), list, s)
    ensures forall q, j :: (q, j) in Jumped(w).merged && (q, j) !in w.merged ==> q !in s
  {
    hide IsList, SameFate, Tied;
    NotYet(w);
    var e := Coded(w, Branch(JMP, 0, NO_JUMP));
    HeldList(w, list, s);
    forall q | q in s
      ensures SameValue(w.code, Jumped(w).code, q)
    {
      var i :| 0 <= i < |s| && s[i] == q;
      TiedOthers(e.code, w.pending, q);
    }
  }

  lemma TiedOthers(code: seq<Instr>, t: seq<int>, q: int)
    requires code != [] && JumpAt(code, |code| - 1) && 0 <= q < |code| - 1
    ensures var c := Tied(code, [|code| - 1], t); c[q] == code[q] && (q >= 1 ==> c[q - 1] == code[q - 1])
  {
  }

  lemma SameValuesSelf(code: seq<Instr>, s: seq<int>)
    requires forall i :: 0 <= i < |s| ==> JumpAt(code, s[i])
    ensures SameValues(code, code, s)
  {
  }

  /** What arrives in the end has arrived from the beginning. */
  lemma ArrivesFrom(was: seq<Instr>, mid: seq<Instr>, code: seq<Instr>, s: seq<int>, reg: int, value: bool)
    requires SameValues(was, mid, s) && forall q :: q in s ==> Arrives(mid, code, q, reg, value)
    ensures forall q :: q in s ==> Arrives(was, code, q, reg, value)
  {
    forall q | q in s ensures Arrives(was, code, q, reg, value) {
      assert Arrives(mid, code, q, reg, value);
    }
  }

  /** Other lists are still held when one waits for the next instruction. */
  lemma OnceHeld(w: World, list: int, s: seq<int>, other: int, t: seq<int>)
    requires Good(w) && Held(w, list, s) && Held(w, other, t) && (list == other ==> list == NO_JUMP) && w.pending == []
    ensures Held(Awaiting(w, s), other, t)
  {
  }

  lemma JoinedValues(w: World, t: int, info: int, f: int, ts: seq<int>, fs: seq<int>)
    requires Good(w) && Held(w, t, ts) && Held(w, f, fs) && Held(w, info, [info]) && info != t && info != f
    requires info != NO_JUMP
    requires (t == f ==> t == NO_JUMP) && forall i :: 0 <= i < |ts| ==> JumpAt(w.code, ts[i])
    ensures var d := Joined(w, ts, [info]);
            SameValues(w.code, d.code, ts + [info]) && SameValues(w.code, d.code, fs) && Held(d, f, fs)
  {
    hide IsList, SameFate, Apart, Tied;
    HeldList(w, info, [info]);
    HeldList(w, f, fs);
    assert [info][0] == info;
    forall q | q in ts + [info] || q in fs
      ensures SameValue(w.code, Joined(w, ts, [info]).code, q)
    {
      assert JumpAt(w.code, q);
      TiedControl(w.code, ts, [info], q);
    }
  }

  lemma TiedControl(code: seq<Instr>, s: seq<int>, t: seq<int>, q: int)
    requires (forall i :: 0 <= i < |s| ==> JumpAt(code, s[i])) && JumpAt(code, q)
    ensures SameValue(code, Tied(code, s, t), q)
  {
  }

  lemma HeldApart(w: World, l1: int, l2: int, s: seq<int>, t: seq<int>)
    requires Good(w) && Held(w, l1, s) && Held(w, l2, t) && l1 != l2
    ensures Disjoint(s, t) && Disjoint(t, s)
  {
  }

  lemma SentHeld(w: World, list: int, s: seq<int>, other: int, t: seq<int>, vtarget: int, reg: int, dtarget: int)
    requires Good(w) && Held(w, list, s) && Held(w, other, t) && (list == other ==> list == NO_JUMP)
    requires forall q, j :: (q, j) in w.merged ==> q !in s
    ensures Good(Sent(w, s, vtarget, reg, dtarget)) && Held(Sent(w, s, vtarget, reg, dtarget), other, t)
  {
    hide IsList, Patched, SameFate, Disjoint, Apart;
    if s == [] {
      PatchedNone(w.code, vtarget, reg, dtarget);
      assert w.lists - {s} == w.lists;
    } else {
      SentGood(w, s, vtarget, reg, dtarget);
    }
  }

  lemma BothArrive(c: seq<Instr>, fs: seq<int>, ts: seq<int>, reg: int, pf: int, pt: int)
    requires Disjoint(fs, ts) && Disjoint(ts, fs)
    requires forall q :: q in fs || q in ts ==> JumpAt(c, q)
    requires (exists q :: (q in fs || q in ts) && JumpAt(c, q) && !GivesValue(c, q)) ==>
               0 <= pf && pf + 1 == pt == |c| - 1 && c[pf] == LoadBool(reg, false) && c[pt] == LoadBool(reg, true)
    ensures var e := Patched(Patched(c, fs, |c|, reg, pf), ts, |c|, reg, pt);
            && (forall q :: q in ts ==> Arrives(c, e, q, reg, true))
            && (forall q :: q in fs ==> Arrives(c, e, q, reg, false))
  {
  }

  lemma CodedValues(w: World, i: Instr, list: int, s: seq<int>)
    requires Good(w) && Held(w, list, s)
    ensures var d := Coded(Discharged(w), i); SameValues(w.code, d.code, s) && Held(d, list, s)
  {
    hide IsList, SameFate;
    HeldList(w, list, s);
    if s != [] { assert Disjoint(s, w.pending); }
  }

  lemma TiedNone(code: seq<Instr>, s: seq<int>, t: seq<int>)
    requires s == [] || t == []
    requires forall i :: 0 <= i < |s| ==> JumpAt(code, s[i])
    ensures Tied(code, s, t) == code
  {
  }

  lemma HeldList(w: World, list: int, s: seq<int>)
    requires Good(w) && Held(w, list, s)
    ensures IsList(w.code, list, s) && (forall i :: 0 <= i < |s| ==> JumpAt(w.code, s[i]))
    ensures s == [] <==> list == NO_JUMP
  {
    hide Apart, SameFate;
    if list == NO_JUMP { EmptyList(w.code); } else { ListFields(w.code, list, s); }
  }

  /** The parser holds the pending jumps. */
  ghost function OnHold(w: World): World {
    w.(jpc := NO_JUMP, pending := [], lists := if w.pending == [] then w.lists else w.lists + {w.pending})
  }

  lemma OnHoldGood(w: World)
    requires Good(w)
    ensures Good(OnHold(w))
  {
  }

  lemma PatchedNone(code: seq<Instr>, vtarget: int, reg: int, dtarget: int)
    ensures Patched(code, [], vtarget, reg, dtarget) == code
  {
  }

  lemma ListFields(code: seq<Instr>, first: int, s: seq<int>)
    requires IsList(code, first, s)
    ensures Distinct(s) && first == if s == [] then NO_JUMP else s[0]
    ensures forall i {:trigger s[i]} :: 0 <= i < |s| ==> JumpAt(code, s[i]) && s[i] >= 0
  {
    ListDistinct(code, first, s);
  }
}

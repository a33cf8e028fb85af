/** The object graph of the incremental collector: objects with their colour, the lists they are
    chained in, and what an object refers to. */
module GcHeap {
  type Ref = nat

  /** There are two whites; the collector's current white is a field of its state. */
  datatype Color = White(bit: bool) | Gray | Black

  /** Nil, a value that is not collectable, or an object. */
  datatype Value = Nil | Plain | Obj(r: Ref)

  /** Which parts of a table are weak. */
  datatype Mode = Mode(keys: bool, values: bool)

  const STRONG := Mode(false, false)

  /** A metatable is a table, or a table in read-only memory, which is not collectable. */
  datatype Meta = NoMeta | RomMeta(weakness: Mode) | Metatable(t: Ref)

  /** 'mode' is what the __mode field of a table says about the tables whose metatable it is. The
      stack of a thread goes up to its top. An entry whose value is nil does not refer to its key. */
  datatype Body =
    | Str(hash: nat)
    | Udata(meta: Meta, env: Ref)
    | ClosedUpval(v: Value)
    | OpenUpval(thread: Ref, slot: nat)
    | CClosure(env: Ref, upvalues: seq<Value>)
    | LClosure(env: Ref, proto: Ref, upvals: seq<Value>)
    | Table(meta: Meta, mode: Mode, arr: seq<Value>, nodes: seq<(Value, Value)>)
    | Thread(globals: Value, stack: seq<Value>, open: seq<Ref>)
    | Proto(source: Value, k: seq<Value>, upvalueNames: seq<Value>, protos: seq<Value>, localNames: seq<Value>)

  datatype Object = Object(color: Color, fixed: bool, body: Body)

  type Heap = map<Ref, Object>

  datatype Phase = Pause | Propagate | SweepString | Sweep | Finalize

  /** 'root' is the list from rootgc on; the userdata come after the main thread. 'sweep' is the
      index in it of the object that sweepgc points to. */
  datatype State = State(
    heap: Heap,
    gray: seq<Ref>, grayagain: seq<Ref>, weak: seq<Ref>,
    uvhead: seq<Ref>, strt: seq<seq<Ref>>, root: seq<Ref>,
    white: bool, phase: Phase, sweepstr: nat, sweep: nat,
    main: Ref, running: Ref, registry: Value, mt: seq<Value>)

  // ----- what an object refers to ------------------------------------------------------

  function MetaValue(m: Meta): Value {
    if m.Metatable? then Obj(m.t) else Nil
  }

  function ModeOf(h: Heap, m: Meta): Mode {
    match m
    case NoMeta => STRONG
    case RomMeta(w) => w
    case Metatable(t) => if t in h && h[t].body.Table? then h[t].body.mode else STRONG
  }

  /** From the last to the first. */
  function Backwards(vs: seq<Value>): (r: seq<Value>)
    ensures forall v :: v in r <==> v in vs
  {
    if vs == [] then [] else
      assert vs == vs[..|vs| - 1] + [vs[|vs| - 1]];
      [vs[|vs| - 1]] + Backwards(vs[..|vs| - 1])
  }

  function EntryValues(e: (Value, Value), m: Mode): seq<Value> {
    if e.1 == Nil then []
    else (if m.keys then [] else [e.0]) + (if m.values then [] else [e.1])
  }

  function NodeValues(nodes: seq<(Value, Value)>, m: Mode): (r: seq<Value>)
    ensures forall v :: v in r <==> exists e :: e in nodes && v in EntryValues(e, m)
  {
    if nodes == [] then [] else
      var e := nodes[|nodes| - 1];
      assert nodes == nodes[..|nodes| - 1] + [e];
      EntryValues(e, m) + NodeValues(nodes[..|nodes| - 1], m)
  }

  function SlotValue(h: Heap, th: Ref, slot: nat): Value {
    if th in h && h[th].body.Thread? && slot < |h[th].body.stack| then h[th].body.stack[slot] else Nil
  }

  /** The array part and the nodes, without what is weak. */
  function TableValues(b: Body, m: Mode): seq<Value>
    requires b.Table?
  {
    (if m.values then [] else Backwards(b.arr)) + NodeValues(b.nodes, m)
  }

  /** What the object refers to, in the order in which it is traversed; 'm' is the mode if it is
      a table. */
  function Contents(h: Heap, b: Body, m: Mode): seq<Value> {
    match b
    case Str(_) => []
    case Udata(meta, env) => [MetaValue(meta), Obj(env)]
    case ClosedUpval(v) => [v]
    case OpenUpval(th, slot) => [SlotValue(h, th, slot)]
    case CClosure(env, upvalues) => [Obj(env)] + upvalues
    case LClosure(env, proto, upvals) => [Obj(env), Obj(proto)] + upvals
    case Table(meta, _, _, _) => [MetaValue(meta)] + TableValues(b, m)
    case Thread(globals, stack, _) => [globals] + stack
    case Proto(source, k, names, protos, locals) => [source] + k + names + protos + locals
  }

  /** 'q' is in the object at 'r', possibly weakly. */
  predicate Refers(h: Heap, r: Ref, q: Ref) {
    r in h && Obj(q) in Contents(h, h[r].body, STRONG)
  }

  function Strongly(h: Heap, b: Body): seq<Value> {
    Contents(h, b, if b.Table? then ModeOf(h, b.meta) else STRONG)
  }

  /** 'q' is in the object at 'r', and not weakly. */
  predicate StrongRefers(h: Heap, r: Ref, q: Ref) {
    r in h && Obj(q) in Strongly(h, h[r].body)
  }

  lemma StrongIsReference(h: Heap, r: Ref, q: Ref)
    requires StrongRefers(h, r, q)
    ensures Refers(h, r, q)
  {
    var b := h[r].body;
    if b.Table? {
      var m := ModeOf(h, b.meta);
      if Obj(q) in NodeValues(b.nodes, m) {
        var e :| e in b.nodes && Obj(q) in EntryValues(e, m);
        assert Obj(q) in EntryValues(e, STRONG);
      }
    }
  }

  // ----- roots and reachability --------------------------------------------------------

  function Roots(s: State): seq<Value> {
    [Obj(s.main), Obj(s.running), s.registry] + s.mt
  }

  /** A chain of references from a root to 'r'. */
  predicate Path(s: State, p: seq<Ref>, r: Ref) {
    p != [] && Obj(p[0]) in Roots(s) && p[|p| - 1] == r && forall i :: 0 < i < |p| ==> Refers(s.heap, p[i - 1], p[i])
  }

  ghost predicate Reachable(s: State, r: Ref) {
    exists p :: Path(s, p, r)
  }

  predicate StrongPath(s: State, p: seq<Ref>, r: Ref) {
    p != [] && Obj(p[0]) in Roots(s) && p[|p| - 1] == r
    && forall i :: 0 < i < |p| ==> StrongRefers(s.heap, p[i - 1], p[i])
  }

  /** Reachable without weak references. */
  ghost predicate StrongReachable(s: State, r: Ref) {
    exists p :: StrongPath(s, p, r)
  }

  predicate IsWhite(s: State, r: Ref) {
    r in s.heap && s.heap[r].color.White?
  }

  /** To be freed when it is swept. */
  predicate Dead(s: State, r: Ref) {
    r in s.heap && s.heap[r].color == White(!s.white) && !s.heap[r].fixed
  }

  predicate Alive(s: State, r: Ref) {
    r in s.heap && !Dead(s, r)
  }

  /** The central invariant: roots are alive, and what is alive refers only to what is alive. */
  ghost predicate Closed(s: State) {
    && (forall q :: Obj(q) in Roots(s) ==> Alive(s, q))
    && (forall r, q :: Alive(s, r) && Refers(s.heap, r, q) ==> Alive(s, q))
  }

  lemma {:induction false} PathAlive(s: State, p: seq<Ref>, r: Ref)
    requires Closed(s) && Path(s, p, r)
    ensures forall i :: 0 <= i < |p| ==> Alive(s, p[i])
    decreases |p|
  {
    if |p| > 1 {
      var p' := p[..|p| - 1];
      PathAlive(s, p', p'[|p'| - 1]);
      assert Alive(s, p[|p| - 2]) && Refers(s.heap, p[|p| - 2], p[|p| - 1]) by { assert p'[|p| - 2] == p[|p| - 2]; }
      forall i | 0 <= i < |p| ensures Alive(s, p[i]) {
        if i < |p| - 1 { assert p'[i] == p[i]; }
      }
    }
  }

  /** No reference that a run can follow dangles. */
  lemma ReachableAlive(s: State, r: Ref)
    requires Closed(s) && Reachable(s, r)
    ensures Alive(s, r)
  {
    var p :| Path(s, p, r);
    PathAlive(s, p, r);
  }

  lemma {:induction false} StrongIsReachable(s: State, r: Ref)
    requires StrongReachable(s, r)
    ensures Reachable(s, r)
  {
    var p :| StrongPath(s, p, r);
    forall i | 0 < i < |p| ensures Refers(s.heap, p[i - 1], p[i]) { StrongIsReference(s.heap, p[i - 1], p[i]); }
    assert Path(s, p, r);
  }

  // ----- lists -------------------------------------------------------------------------

  predicate Distinct(a: seq<Ref>) {
    forall i, j :: 0 <= i < j < |a| ==> a[i] != a[j]
  }

  predicate Apart(a: seq<Ref>, b: seq<Ref>) {
    forall x :: x in a ==> x !in b
  }

  function Without(a: seq<Ref>, x: Ref): (r: seq<Ref>)
    ensures forall y :: y in r <==> y in a && y != x
    ensures Distinct(a) ==> Distinct(r)
    ensures x in a ==> |r| < |a|
    ensures |r| <= |a|
  {
    if a == [] then []
    else if a[0] == x then Without(a[1..], x)
    else
      assert Distinct(a) ==> a[0] !in a[1..];
      [a[0]] + Without(a[1..], x)
  }

  lemma DistinctCat(a: seq<Ref>, b: seq<Ref>)
    requires Distinct(a) && Distinct(b) && Apart(a, b)
    ensures Distinct(a + b)
  {
    var c := a + b;
    forall i, j | 0 <= i < j < |c| ensures c[i] != c[j] {
      if i < |a| <= j { assert c[i] in a && c[j] in b; }
    }
  }
}

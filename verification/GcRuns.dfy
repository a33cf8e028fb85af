/** Runs: any interleaving of collector steps, full collections and what the program does. */
module GcRuns {
  import opened GcHeap
  import opened GcMark
  import opened GcCycle
  import opened GcClear
  import opened GcSweep
  import opened GcSteps
  import opened GcMutator
  import opened GcAlloc
  import opened GcFull

  /** 'r' is the place of a new object; 'added' are the values that the code passes to the barrier
      after a write. */
  datatype Op =
    | CollectorStep
    | FullCollection
    | NewObject(r: Ref, body: Body)
    | NewUserdata(r: Ref, meta: Meta, env: Ref)
    | InternNew(r: Ref, hash: nat)
    | InternFound(r: Ref)
    | StackWrite(thread: Ref, stack: seq<Value>)
    | TableWrite(r: Ref, body: Body, added: seq<Value>)
    | ObjectWrite(r: Ref, body: Body, added: seq<Value>)
    | SetBasicMetatables(mt: seq<Value>)
    | Resume(thread: Ref)
    | CaptureSlot(slot: nat, r: Ref)
    | CloseUpvals(level: nat)

  /** The program gets hold only of objects that it can reach. */
  ghost predicate Available(s: State, vs: seq<Value>) {
    forall v :: v in vs && v.Obj? ==> Reachable(s, v.r)
  }

  /** A closure may also take over an open upvalue of the running thread that it has just found. */
  ghost predicate Captured(s: State, v: Value) {
    v.Obj? && Alive(s, v.r) && IsThread(s, s.running) && v.r in s.heap[s.running].body.open
  }

  /** What the program must respect. */
  ghost predicate Enabled(s: State, op: Op) {
    match op
    case CollectorStep => true
    case FullCollection => true
    case NewObject(r, b) =>
      r !in s.heap && Linkable(b) && !b.Udata?
      && forall v :: v in Contents(s.heap, b, STRONG) && v.Obj? ==> Reachable(s, v.r) || (b.LClosure? && Captured(s, v))
    case NewUserdata(r, meta, env) => r !in s.heap && Available(s, [MetaValue(meta), Obj(env)])
    case InternNew(r, _) => r !in s.heap
    case InternFound(r) => r in s.heap && s.heap[r].body.Str?
    case StackWrite(th, stack) => IsThread(s, th) && Reachable(s, th) && Available(s, stack) && SlotsFit(s, th, |stack|)
    case TableWrite(r, b, added) => IsTable(s, r) && Reachable(s, r) && b.Table? && Adds(s, r, b, added)
      && Available(s, added)
    case ObjectWrite(r, b, added) =>
      r in s.heap && Reachable(s, r) && SameOwner(s.heap[r].body, b) && !b.Table? && !b.Thread?
      && Adds(s, r, b, added) && Available(s, added)
    case SetBasicMetatables(mt) => Available(s, mt)
    case Resume(th) => IsThread(s, th) && Reachable(s, th)
    case CaptureSlot(slot, r) => r !in s.heap && IsThread(s, s.running) && slot < |s.heap[s.running].body.stack|
    case CloseUpvals(_) => true
  }

  /** Push a value on the stack of the running thread. */
  function Push(s: State, v: Value): State {
    if IsThread(s, s.running) then SetStack(s, s.running, s.heap[s.running].body.stack + [v]) else s
  }

  function Do(s: State, op: Op): State
    requires Inv(s) && Enabled(s, op)
  {
    match op
    case CollectorStep => SingleStep(s)
    case FullCollection => FullGc(s)
    case NewObject(r, b) => Push(Link(s, r, b), Obj(r))
    case NewUserdata(r, meta, env) => MainListed(s); Push(LinkUdata(s, r, Udata(meta, env)), Obj(r))
    case InternNew(r, hash) => OwnedListed(s); Push(NewString(s, r, hash), Obj(r))
    case InternFound(r) => Push(Resurrect(s, r), Obj(r))
    case StackWrite(th, stack) => SetStack(s, th, stack)
    case TableWrite(r, b, added) => WriteTable(s, r, b, added)
    case ObjectWrite(r, b, added) => WriteObject(s, r, b, added)
    case SetBasicMetatables(mt) => s.(mt := mt)
    case Resume(th) => s.(running := th)
    case CaptureSlot(slot, r) => FindUpval(s, slot, r)
    case CloseUpvals(level) => OwnedListed(s); Close(s, s.running, level, {})
  }

  lemma MainListed(s: State)
    requires Owned(s, {})
    ensures s.main in s.root
  {
    assert Listed(s, s.main);
  }

  lemma AvailableAlive(s: State, vs: seq<Value>)
    requires Closed(s) && Available(s, vs)
    ensures AllAlive(s, vs)
  {
    hide Reachable, Closed;
    forall v | v in vs && v.Obj? ensures Alive(s, v.r) { ReachableAlive(s, v.r); }
  }

  lemma RunningAlive(s: State)
    requires Closed(s)
    ensures Alive(s, s.running)
  {
    assert Obj(s.running) in Roots(s);
  }

  lemma StackAlive(s: State)
    requires Owned(s, {}) && Closed(s)
    ensures IsThread(s, s.running) && AllAlive(s, s.heap[s.running].body.stack)
    ensures SlotsFit(s, s.running, |s.heap[s.running].body.stack|)
  {
    RunningAlive(s);
    OwnedListed(s);
    forall v | v in s.heap[s.running].body.stack && v.Obj? ensures Alive(s, v.r) {
      assert v in Contents(s.heap, s.heap[s.running].body, STRONG);
      assert Refers(s.heap, s.running, v.r);
    }
    forall u | u in s.uvhead && u in s.heap && s.heap[u].body.OpenUpval? && s.heap[u].body.thread == s.running
      ensures s.heap[u].body.slot < |s.heap[s.running].body.stack|
    {
      assert IsOpen(s, u);
    }
  }

  lemma PushKeeps(s: State, r: Ref)
    requires Inv(s) && Alive(s, r)
    ensures Inv(Push(s, Obj(r))) && Push(s, Obj(r)).heap.Keys == s.heap.Keys
  {
    hide Owned, Closed, NeverBlackKinds, PhaseInv, SetStack;
    RunningAlive(s);
    StackAlive(s);
    SetStackKeeps(s, s.running, s.heap[s.running].body.stack + [Obj(r)]);
  }

  /** What an operation frees was not reachable; a full collection, which clears weak tables on its
      way, may also free what was reachable only through weak references. */
  ghost predicate FreesOnlyGarbage(s: State, op: Op)
    requires Inv(s) && Enabled(s, op)
  {
    forall r :: r in s.heap && r !in Do(s, op).heap ==>
      !(if op.FullCollection? then StrongReachable(s, r) else Reachable(s, r))
  }

  lemma DoKeeps(s: State, op: Op)
    requires Inv(s) && Enabled(s, op)
    ensures Inv(Do(s, op)) && FreesOnlyGarbage(s, op)
  {
    hide Inv, SingleStep, FullGc, Reachable, StrongReachable;
    match op {
      case CollectorStep => SingleStepKeeps(s);
      case FullCollection => FullGcExact(s);
      case NewObject(_, _) => NewKeeps(s, op);
      case NewUserdata(_, _, _) => NewKeeps(s, op);
      case InternNew(_, _) => StringKeeps(s, op);
      case InternFound(_) => StringKeeps(s, op);
      case StackWrite(_, _) => WriteKeeps(s, op);
      case TableWrite(_, _, _) => WriteKeeps(s, op);
      case ObjectWrite(_, _, _) => WriteKeeps(s, op);
      case SetBasicMetatables(_) => RootKeeps(s, op);
      case Resume(_) => RootKeeps(s, op);
      case CaptureSlot(_, _) => UpvalKeeps(s, op);
      case CloseUpvals(_) => UpvalKeeps(s, op);
    }
  }

  lemma InsertedAlive(s: State, k: nat, r: Ref, b: Body)
    requires k <= |s.root|
    ensures Alive(Insert(s, k, r, b), r)
  {
  }

  lemma NewKeeps(s: State, op: Op)
    requires Inv(s) && Enabled(s, op) && (op.NewObject? || op.NewUserdata?)
    ensures Inv(Do(s, op)) && forall r :: r in s.heap ==> r in Do(s, op).heap
  {
    hide Owned, Closed, NeverBlackKinds, PhaseInv, Reachable, Push, Alive, SingleStep, FullGc;
    var b := if op.NewObject? then op.body else Udata(op.meta, op.env);
    forall v | v in Contents(s.heap, b, STRONG) && v.Obj? ensures Alive(s, v.r) {
      if Reachable(s, v.r) { ReachableAlive(s, v.r); }
    }
    MainListed(s);
    var k := if op.NewObject? then 0 else IndexOf(s.root, s.main) + 1;
    InsertKeeps(s, k, op.r, b);
    var t := Insert(s, k, op.r, b);
    InsertedAlive(s, k, op.r, b);
    PushKeeps(t, op.r);
  }

  lemma StringKeeps(s: State, op: Op)
    requires Inv(s) && Enabled(s, op) && (op.InternNew? || op.InternFound?)
    ensures Inv(Do(s, op)) && forall r :: r in s.heap ==> r in Do(s, op).heap
  {
    hide Owned, Closed, NeverBlackKinds, PhaseInv, Push, Resurrect, SingleStep, FullGc;
    OwnedListed(s);
    if op.InternNew? {
      NewStringKeeps(s, op.r, op.hash);
      PushKeeps(NewString(s, op.r, op.hash), op.r);
    } else {
      ResurrectKeeps(s, op.r);
      PushKeeps(Resurrect(s, op.r), op.r);
    }
  }

  lemma WriteKeeps(s: State, op: Op)
    requires Inv(s) && Enabled(s, op) && (op.StackWrite? || op.TableWrite? || op.ObjectWrite?)
    ensures Inv(Do(s, op)) && Do(s, op).heap.Keys == s.heap.Keys
  {
    hide Owned, Closed, NeverBlackKinds, PhaseInv, Reachable, AllAlive, SetStack, WriteTable, WriteObject, Available,
         SingleStep, FullGc;
    match op {
      case StackWrite(th, stack) => ReachableAlive(s, th); AvailableAlive(s, stack); SetStackKeeps(s, th, stack);
      case TableWrite(r, b, added) => ReachableAlive(s, r); AvailableAlive(s, added); WriteTableKeeps(s, r, b, added);
      case ObjectWrite(r, b, added) => ReachableAlive(s, r); AvailableAlive(s, added); WriteObjectKeeps(s, r, b, added);
    }
  }

  lemma RootKeeps(s: State, op: Op)
    requires Inv(s) && Enabled(s, op) && (op.SetBasicMetatables? || op.Resume?)
    ensures Inv(Do(s, op)) && Do(s, op).heap == s.heap
  {
    hide Owned, Closed, NeverBlackKinds, PhaseInv, Reachable, SingleStep, FullGc;
    RunningAlive(s);
    OwnedListed(s);
    if op.SetBasicMetatables? {
      AvailableAlive(s, op.mt);
    } else {
      ReachableAlive(s, op.thread);
      assert AllAlive(s, s.mt) by { MtAlive(s); }
    }
    SetRootsKeeps(s, Do(s, op));
  }

  lemma MtAlive(s: State)
    requires Closed(s)
    ensures AllAlive(s, s.mt)
  {
    hide Contents;
    forall v | v in s.mt && v.Obj? ensures Alive(s, v.r) { assert v in Roots(s); }
  }

  lemma UpvalKeeps(s: State, op: Op)
    requires Inv(s) && Enabled(s, op) && (op.CaptureSlot? || op.CloseUpvals?)
    ensures Inv(Do(s, op)) && forall r :: r in s.heap && Reachable(s, r) ==> r in Do(s, op).heap
  {
    hide Owned, Closed, NeverBlackKinds, PhaseInv, Reachable, FindUpval, Close, SingleStep, FullGc;
    OwnedListed(s);
    if op.CaptureSlot? {
      FindUpvalKeeps(s, op.slot, op.r);
    } else {
      CloseKeeps(s, s.running, op.level);
      forall r | Reachable(s, r) ensures r in Do(s, op).heap { ReachableAlive(s, r); }
    }
  }

  // ----- runs --------------------------------------------------------------------------

  /** Each operation respects the rules in the state in which it happens. */
  ghost predicate Run(s: State, ops: seq<Op>)
    requires Inv(s)
    decreases |ops|
  {
    ops == [] || (Enabled(s, ops[0]) && (DoKeeps(s, ops[0]); Run(Do(s, ops[0]), ops[1..])))
  }

  ghost function After(s: State, ops: seq<Op>): State
    requires Inv(s) && Run(s, ops)
    decreases |ops|
  {
    if ops == [] then s else
      DoKeeps(s, ops[0]);
      After(Do(s, ops[0]), ops[1..])
  }

  /** Safety over every interleaving: after any run, whatever the program can reach is allocated and
      is not about to be freed, and the next operation frees only garbage. */
  lemma {:induction false} RunSafe(s: State, ops: seq<Op>)
    requires Inv(s) && Run(s, ops)
    ensures var t := After(s, ops);
            && Inv(t)
            && (forall r :: Reachable(t, r) ==> r in t.heap && !Dead(t, r))
            && (forall op :: Enabled(t, op) ==> FreesOnlyGarbage(t, op))
    decreases |ops|
  {
    if ops == [] {
      hide Inv, Reachable, FreesOnlyGarbage;
      InvParts(s);
      forall r | Reachable(s, r) ensures r in s.heap && !Dead(s, r) { ReachableAlive(s, r); }
      forall op | Enabled(s, op) ensures FreesOnlyGarbage(s, op) { DoKeeps(s, op); }
    } else {
      hide Inv, Do, Enabled, FreesOnlyGarbage, Reachable;
      DoKeeps(s, ops[0]);
      RunSafe(Do(s, ops[0]), ops[1..]);
    }
  }

  /** The main thread with its tables, before the first collection. */
  function Initial(buckets: nat, stack: seq<Value>): State
    requires buckets > 0
  {
    var globals, registry := 1, 2;
    State(map[0 := Object(White(false), true, Thread(Obj(globals), stack, [])),
              globals := Object(White(false), false, Table(NoMeta, STRONG, [], [])),
              registry := Object(White(false), false, Table(NoMeta, STRONG, [], []))],
          [], [], [], [], seq(buckets, _ => []), [2, 1, 0], false, Pause, 0, 0, 0, 0, Obj(registry), [])
  }

  /** Runs start in a state that satisfies the invariant. */
  lemma InitialInv(buckets: nat, stack: seq<Value>)
    requires buckets > 0 && forall v :: v in stack ==> !v.Obj?
    ensures Inv(Initial(buckets, stack))
  {
    var s := Initial(buckets, stack);
    assert s.heap[0].color == s.heap[1].color == s.heap[2].color == White(false);
    assert forall r :: r in s.heap ==> r == 0 || r == 1 || r == 2;
    assert forall r :: r in s.root <==> r == 0 || r == 1 || r == 2;
    assert Closed(s) by {
      forall r, q | Alive(s, r) && Refers(s.heap, r, q) ensures Alive(s, q) {
        if r == 0 { assert Contents(s.heap, s.heap[0].body, STRONG) == [Obj(1)] + stack; }
      }
    }
    hide Contents;
  }
}

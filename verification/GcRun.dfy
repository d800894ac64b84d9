// Whole runs: collector steps and program actions in any order.

module GcRun {
  import opened GcColours
  import opened GcState
  import opened GcMark
  import opened GcSweep
  import opened GcInvariant
  import opened GcMutator
  import opened GcAlloc
  import opened GcStrings
  import opened GcUpvals
  import opened GcClose
  import opened GcStep
  import opened GcKeeps

  datatype Action =
    | Collect                                            // a single step of the collector
    | StartFull                                          // a full collection resets its sweep
    | MarkAgain                                          // and marks the roots when that sweep is over
    | Create(kind: NodeKind, refs: seq<Id>)              // makes an object and pushes it
    | CreateThread
    | Intern(text: Text)                                 // finds or makes a string and pushes it
    | MakeClosure(refs: seq<Id>, levels: seq<nat>)       // makes a function that captures stack slots
    | Push(v: Value)
    | Pop(height: nat)
    | SetSlot(slot: nat, v: Value)
    | SetGlobals(v: Value)
    | SetMt(tag: nat, v: Value)
    | Resume(t: Id)
    | Store(o: Id, refs: seq<Id>, v: Value)              // stores `v` in `o`, or clears some of it
    | StoreUpval(u: Id, v: Value)
    | CloseTo(level: nat)
    | MoveTo(t: Id, v: Value)                            // pushes `v` on the stack of another thread
    | Fix(o: Id)                                         // never collect this string
    | SetRegistry(v: Value)                              // the first thing a new state does

  function Stack(g: G): seq<Value> {
    if IsThread(g, g.running) then g.heap[g.running].body.stack else []
  }

  function Globals(g: G): Value {
    if IsThread(g, g.running) then g.heap[g.running].body.globals else Nil
  }

  function SetStack(g: G, stack: seq<Value>): G {
    if IsThread(g, g.running) then SetThread(g, g.running, Globals(g), stack) else g
  }

  function PushNew(g: G, o: Id): G { SetStack(g, Stack(g) + [Ref(o)]) }

  // A new function captures a stack slot of the running thread.
  function CaptureNext(g: G, f: Id, level: nat): G {
    if !IsThread(g, g.running) || g.next in g.heap then g
    else
      var (g1, u) := FindUpval(g, g.running, level);
      if f in g1.heap && g1.heap[f].body.Node? then
        SetBody(g1, f, Node(g1.heap[f].body.kind, g1.heap[f].body.refs + [u]))
      else g1
  }

  function CaptureAll(g: G, f: Id, levels: seq<nat>): G
    decreases |levels|
  {
    if levels == [] then g else CaptureAll(CaptureNext(g, f, levels[0]), f, levels[1..])
  }

  // Stores in an upvalue, wherever its value lives.
  function StoreUpvalue(g: G, u: Id, v: Value): G {
    if u !in g.heap then g
    else match g.heap[u].body
      case Closed(_) => WriteClosed(g, u, v)
      case Open(t, slot) =>
        if IsThread(g, t) && slot < |g.heap[t].body.stack| then
          Barrier(SetThread(g, t, g.heap[t].body.globals, g.heap[t].body.stack[slot := v]), u, v)
        else g
      case _ => g
  }

  function PushOn(g: G, t: Id, v: Value): G {
    if IsThread(g, t) then SetThread(g, t, g.heap[t].body.globals, g.heap[t].body.stack + [v]) else g
  }

  function FixString(g: G, o: Id): G {
    if o in g.heap && g.heap[o].body.Str?
    then g.(heap := g.heap[o := g.heap[o].(mark := g.heap[o].mark.(fixed := true))]) else g
  }

  function Does(g: G, a: Action): G {
    match a
    case Collect => SingleStep(g)
    case StartFull => ResetSweep(g)
    case MarkAgain => MarkRoot(g)
    case Create(kind, refs) => PushNew(NewObject(g, Node(kind, refs)), g.next)
    case CreateThread => PushNew(NewObject(g, Thread(Globals(g), [Nil], [])), g.next)
    case Intern(text) =>
      if g.strt == [] then g else var (g1, o) := InternString(g, text); PushNew(g1, o)
    case MakeClosure(refs, levels) => PushNew(CaptureAll(NewObject(g, Node(Function, refs)), g.next, levels), g.next)
    case Push(v) => SetStack(g, Stack(g) + [v])
    case Pop(height) => if height <= |Stack(g)| then SetStack(g, Stack(g)[..height]) else g
    case SetSlot(slot, v) => if slot < |Stack(g)| then SetStack(g, Stack(g)[slot := v]) else g
    case SetGlobals(v) => if IsThread(g, g.running) then SetThread(g, g.running, v, Stack(g)) else g
    case SetMt(tag, v) => if tag < |g.mt| then g.(mt := g.mt[tag := v]) else g
    case Resume(t) => g.(running := t)
    case Store(o, refs, v) => if o in g.heap && g.heap[o].body.Node? then WriteNode(g, o, refs, v) else g
    case StoreUpval(u, v) => StoreUpvalue(g, u, v)
    case CloseTo(level) => CloseUpvals(g, g.running, level)
    case MoveTo(t, v) => PushOn(g, t, v)
    case Fix(o) => FixString(g, o)
    case SetRegistry(v) => g.(registry := v)
  }

  // A value the program has: one it can reach, and that is no upvalue.
  ghost predicate Has(g: G, v: Value) {
    v.Ref? ==> Reachable(g, v.id) && v.id in g.heap && !IsUpval(g.heap[v.id].body)
  }

  ghost predicate HasId(g: G, o: Id) { o in g.heap && Reachable(g, o) }

  // What the program and the collector may do: the program can only use what it can reach.
  ghost predicate May(g: G, a: Action) {
    match a
    case Collect => true
    case StartFull => g.phase.Pause? || g.phase.Propagate?
    case MarkAgain => g.phase.Finalize?
    case Create(kind, refs) => forall r :: r in refs ==> HasId(g, r) && Suits(Node(kind, refs), g.heap[r].body)
    case CreateThread => true
    case Intern(_) => true
    case MakeClosure(refs, levels) =>
      (forall r :: r in refs ==> HasId(g, r)) && forall l :: l in levels ==> l < |Stack(g)|
    case Push(v) => Has(g, v)
    case Pop(height) => forall u :: u in OpenList(g, g.running) && u in g.heap && g.heap[u].body.Open? ==>
        g.heap[u].body.slot < height
    case SetSlot(_, v) => Has(g, v)
    case SetGlobals(v) => Has(g, v)
    case SetMt(_, v) => Has(g, v)
    case Resume(t) => HasId(g, t) && IsThread(g, t)
    case Store(o, refs, v) =>
      && HasId(g, o) && g.heap[o].body.Node? && (v.Ref? ==> HasId(g, v.id) && Suits(g.heap[o].body, g.heap[v.id].body))
      && forall r :: r in refs ==> r in g.heap[o].body.refs || v == Ref(r)
    case StoreUpval(u, v) => HasId(g, u) && Has(g, v)
    case CloseTo(_) => true
    case MoveTo(t, v) => HasId(g, t) && IsThread(g, t) && Has(g, v)
    case Fix(o) => HasId(g, o) && g.heap[o].body.Str?
    case SetRegistry(v) => g.phase.Pause? && Has(g, v)
  }

  // ----- each action keeps the invariant --------------------------------------------

  lemma HasLive(g: G, v: Value)
    requires Inv(g) && Has(g, v)
    ensures Storable(g, v)
  {
    if v.Ref? { ReachableLive(g, v.id); }
  }

  lemma RunningThread(g: G)
    requires Inv(g)
    ensures IsThread(g, g.running) && Live(g, g.running)
    ensures forall u :: u in OpenList(g, g.running) ==>
              u in g.heap && g.heap[u].body.Open? && g.heap[u].body.slot < |Stack(g)|
  {
    assert OpenListOk(g, g.running);
  }

  lemma SetStackInv(g: G, stack: seq<Value>)
    requires Inv(g)
    requires forall i :: 0 <= i < |stack| ==> (i < |Stack(g)| && stack[i] == Stack(g)[i]) || Storable(g, stack[i])
    requires forall u :: u in OpenList(g, g.running) && u in g.heap && g.heap[u].body.Open? ==>
               g.heap[u].body.slot < |stack|
    ensures Inv(SetStack(g, stack)) && SetStack(g, stack).heap.Keys == g.heap.Keys
  {
    hide Inv;
    RunningThread(g);
    SetThreadInv(g, g.running, Globals(g), stack);
  }

  lemma PushNewInv(g: G, o: Id)
    requires Inv(g) && Live(g, o) && !IsUpval(g.heap[o].body)
    ensures Inv(PushNew(g, o)) && PushNew(g, o).heap.Keys == g.heap.Keys
  {
    hide Inv;
    RunningThread(g);
    SetStackInv(g, Stack(g) + [Ref(o)]);
  }

  lemma NewKeys(g: G, b: Body)
    ensures NewObject(g, b).heap.Keys == g.heap.Keys + {g.next} && NewObject(g, b).heap[g.next].body == b
    ensures NewObject(g, b).running == g.running
  {
  }

  lemma CreateInv(g: G, b: Body)
    requires Inv(g) && Fresh(b) && !IsUpval(b) && forall c :: c in BodyChildren(g, b) ==>
               Live(g, c) && Suits(b, g.heap[c].body)
    ensures var g' := PushNew(NewObject(g, b), g.next); Inv(g') && g.heap.Keys <= g'.heap.Keys
  {
    hide Inv, NewObject, PushNew;
    NewObjectInv(g, b);
    NewKeys(g, b);
    PushNewInv(NewObject(g, b), g.next);
  }

  lemma GlobalsLive(g: G)
    requires Inv(g)
    ensures Storable(g, Globals(g))
  {
    RunningThread(g);
    assert ChildrenLive(g, g.running);
    if Globals(g).Ref? { assert Globals(g).id in Children(g, g.running); }
  }

  lemma CreateThreadInv(g: G)
    requires Inv(g)
    ensures var g' := PushNew(NewObject(g, Thread(Globals(g), [Nil], [])), g.next);
            Inv(g') && g.heap.Keys <= g'.heap.Keys
  {
    hide Inv, NewObject, PushNew, Globals;
    GlobalsLive(g);
    ThreadChildren(g, Globals(g));
    CreateInv(g, Thread(Globals(g), [Nil], []));
  }

  lemma ThreadChildren(g: G, v: Value)
    ensures BodyChildren(g, Thread(v, [Nil], [])) == Ids(v)
  {
  }

  lemma InternStep(g: G, text: Text)
    requires Inv(g)
    ensures g.strt != []
    ensures var (g1, o) := InternString(g, text); Inv(PushNew(g1, o)) && g.heap.Keys <= PushNew(g1, o).heap.Keys
  {
    hide Inv, InternString, PushNew, Live;
    TableNotEmpty(g);
    InternInv(g, text);
    var (g1, o) := InternString(g, text);
    LiveStr(g1, o);
    PushNewInv(g1, o);
  }

  lemma LiveStr(g: G, o: Id)
    requires Live(g, o) && g.heap[o].body.Str?
    ensures o in g.heap && !IsUpval(g.heap[o].body)
  {
  }

  // ----- functions that capture ---------------------------------------------------------

  // Adding an upvalue to a function that is still white needs no barrier.
  lemma CaptureOne(g: G, f: Id, u: Id)
    requires Inv(g) && CurWhite(g, f) && g.heap[f].body.Node? && g.heap[f].body.kind.Function? && Live(g, u)
    ensures var g' := SetBody(g, f, Node(g.heap[f].body.kind, g.heap[f].body.refs + [u]));
            Inv(g') && CurWhite(g', f) && g'.heap[f].body.Node? && g'.heap[f].body.kind.Function?
              && g'.heap.Keys == g.heap.Keys
  {
    hide Inv, NewChildrenOk;
    var refs := g.heap[f].body.refs + [u];
    assert !Black(g, f);
    NodeChildrenOk(g, f, refs, Ref(u));
    SetBodyInv(g, f, Node(Function, refs));
  }

  ghost predicate NewFunction(g: G, f: Id) {
    CurWhite(g, f) && g.heap[f].body.Node? && g.heap[f].body.kind.Function?
  }

  lemma ResurrectKeeps(g: G, f: Id, u: Id)
    requires NewFunction(g, f) && u in g.heap
    ensures NewFunction(Resurrect(g, u), f) && Resurrect(g, u).running == g.running
            && Stack(Resurrect(g, u)) == Stack(g)
  {
  }

  lemma NewOpenKeeps(g: G, f: Id, t: Id, level: nat)
    requires NewFunction(g, f) && IsThread(g, t) && g.next !in g.heap && IsThread(g, g.running)
    ensures var g1 := NewOpen(g, t, level); NewFunction(g1, f) && g1.running == g.running && Stack(g1) == Stack(g)
  {
    hide NewOpen;
    NewOpenHeap(g, t, level);
  }

  lemma FindKeeps(g: G, f: Id, t: Id, level: nat)
    requires ThreadsOk(g) && NewFunction(g, f) && IsThread(g, t) && g.next !in g.heap
    ensures var (g1, u) := FindUpval(g, t, level);
            NewFunction(g1, f) && g1.running == g.running && Stack(g1) == Stack(g)
  {
    hide ThreadsOk, NewOpen, Resurrect, NewFunction, Stack;
    var us := OpenList(g, t);
    var i := OpenPos(g, us, level);
    OpenListDistinct(g, t);
    if i < |us| && SlotOf(g, us[i]) == level {
      assert OpenAt(g, t, i);
      ResurrectKeeps(g, f, us[i]);
    } else {
      RunningIs(g);
      NewOpenKeeps(g, f, t, level);
    }
  }

  lemma RunningIs(g: G)
    requires ThreadsOk(g)
    ensures IsThread(g, g.running)
  {
  }

  // One captured variable.
  lemma CaptureNextInv(g: G, f: Id, level: nat)
    requires Inv(g) && NewFunction(g, f) && level < |Stack(g)|
    ensures var g2 := CaptureNext(g, f, level);
            Inv(g2) && NewFunction(g2, f) && Stack(g2) == Stack(g) && g.heap.Keys <= g2.heap.Keys
  {
    hide Inv, FindUpval, ThreadsOk;
    RunningThread(g);
    NotInHeapInv(g);
    ThreadsOfInv(g);
    FindKeeps(g, f, g.running, level);
    var (g1, u) := FindUpval(g, g.running, level);
    FindUpvalInv(g, g.running, level);
    CaptureOne(g1, f, u);
    StackStays(g1, f, u);
  }

  lemma ThreadsOfInv(g: G)
    requires Inv(g)
    ensures ThreadsOk(g)
  {
  }

  lemma StackStays(g: G, f: Id, u: Id)
    requires f in g.heap && g.heap[f].body.Node?
    ensures Stack(SetBody(g, f, Node(g.heap[f].body.kind, g.heap[f].body.refs + [u]))) == Stack(g)
  {
  }

  lemma {:induction false} CaptureAllInv(g: G, f: Id, levels: seq<nat>)
    requires Inv(g) && NewFunction(g, f) && forall l :: l in levels ==> l < |Stack(g)|
    ensures var g' := CaptureAll(g, f, levels); Inv(g') && NewFunction(g', f) && g.heap.Keys <= g'.heap.Keys
    decreases |levels|
  {
    if levels != [] {
      hide Inv, NewFunction, Stack, CaptureNext;
      assert levels[0] in levels && forall l :: l in levels[1..] ==> l in levels;
      CaptureNextInv(g, f, levels[0]);
      CaptureAllInv(CaptureNext(g, f, levels[0]), f, levels[1..]);
    }
  }

  lemma NotInHeapInv(g: G)
    requires Inv(g)
    ensures g.next !in g.heap
  {
    NotInHeap(g);
  }

  lemma MakeClosureInv(g: G, refs: seq<Id>, levels: seq<nat>)
    requires Inv(g) && (forall r :: r in refs ==> Live(g, r)) && forall l :: l in levels ==> l < |Stack(g)|
    ensures var g' := PushNew(CaptureAll(NewObject(g, Node(Function, refs)), g.next, levels), g.next);
            Inv(g') && g.heap.Keys <= g'.heap.Keys
  {
    hide Inv, NewObject, PushNew, CaptureAll, Stack, CurWhite;
    var b := Node(Function, refs);
    NewObjectInv(g, b);
    NewKeys(g, b);
    NewStack(g, b);
    CaptureAllInv(NewObject(g, b), g.next, levels);
    var g2 := CaptureAll(NewObject(g, b), g.next, levels);
    FunctionLive(g2, g.next);
    PushNewInv(g2, g.next);
  }

  lemma FunctionLive(g: G, f: Id)
    requires NewFunction(g, f)
    ensures Live(g, f) && !IsUpval(g.heap[f].body)
  {
  }

  lemma NewStack(g: G, b: Body)
    requires Inv(g)
    ensures Stack(NewObject(g, b)) == Stack(g)
  {
    RunningThread(g);
    NotInHeapInv(g);
  }

  // ----- stores into upvalues --------------------------------------------------------------

  lemma StoreOpenInv(g: G, u: Id, v: Value)
    requires Inv(g) && Live(g, u) && g.heap[u].body.Open? && Storable(g, v)
    ensures Inv(StoreUpvalue(g, u, v)) && StoreUpvalue(g, u, v).heap.Keys == g.heap.Keys
  {
    hide Inv, StoreUpvalue, Storable, SetThread;
    var t, slot := g.heap[u].body.thread, g.heap[u].body.slot;
    OpenSlot(g, u);
    var stack := g.heap[t].body.stack[slot := v];
    StoreOpenIs(g, u, v);
    SetThreadInv(g, t, g.heap[t].body.globals, stack);
  }

  // An open upvalue is never black, so the barrier does nothing.
  lemma StoreOpenIs(g: G, u: Id, v: Value)
    requires Inv(g) && u in g.heap && g.heap[u].body.Open?
    requires var t, slot := g.heap[u].body.thread, g.heap[u].body.slot; IsThread(g, t) && slot < |g.heap[t].body.stack|
    ensures var t, slot := g.heap[u].body.thread, g.heap[u].body.slot;
            && StoreUpvalue(g, u, v) == SetThread(g, t, g.heap[t].body.globals, g.heap[t].body.stack[slot := v])
            && StoreUpvalue(g, u, v).heap.Keys == g.heap.Keys
  {
    hide Inv;
    OpenNeverBlack(g, u);
  }

  lemma OpenNeverBlack(g: G, u: Id)
    requires Inv(g) && u in g.heap && g.heap[u].body.Open?
    ensures !Black(g, u)
  {
  }

  lemma OpenSlot(g: G, u: Id)
    requires Inv(g) && u in g.heap && g.heap[u].body.Open?
    ensures var t, slot := g.heap[u].body.thread, g.heap[u].body.slot;
            && IsThread(g, t) && slot < |g.heap[t].body.stack|
            && forall p :: p in OpenList(g, t) ==>
                 p in g.heap && g.heap[p].body.Open? && g.heap[p].body.slot < |g.heap[t].body.stack|
  {
    var t := g.heap[u].body.thread;
    assert IsThread(g, t) && u in OpenList(g, t);
    assert OpenListOk(g, t);
  }

  lemma StoreUpvalInv(g: G, u: Id, v: Value)
    requires Inv(g) && Live(g, u) && Storable(g, v)
    ensures Inv(StoreUpvalue(g, u, v)) && g.heap.Keys == StoreUpvalue(g, u, v).heap.Keys
  {
    hide Inv, Storable;
    match g.heap[u].body
    case Closed(_) => WriteClosedInv(g, u, v); ClosedKeys(g, u, v);
    case Open(_, _) => StoreOpenInv(g, u, v);
    case _ =>
  }

  lemma ClosedKeys(g: G, u: Id, v: Value)
    requires u in g.heap && g.heap[u].body.Closed?
    ensures StoreUpvalue(g, u, v) == WriteClosed(g, u, v) && WriteClosed(g, u, v).heap.Keys == g.heap.Keys
  {
    BarrierKeysAny(SetBody(g, u, Closed(v)), u, v);
  }

  lemma BarrierKeysAny(g: G, u: Id, v: Value)
    ensures Barrier(g, u, v).heap.Keys == g.heap.Keys && BarrierT(g, u, v).heap.Keys == g.heap.Keys
  {
  }

  // ----- closing upvalues --------------------------------------------------------------------

  lemma CloseOneInv(g: G, t: Id)
    requires Inv(g) && OpenAt(g, t, 0)
    ensures Inv(CloseTop(g, t)) && FreesDead(g, CloseTop(g, t))
    ensures forall o :: o in g.heap && o in CloseTop(g, t).heap && Dead(CloseTop(g, t), o) ==> Dead(g, o)
    ensures forall o :: o in CloseTop(g, t).heap && o in g.heap ==> Fixed(CloseTop(g, t), o) == Fixed(g, o)
  {
    hide Inv, CloseTop, FreesDead;
    if Dead(g, OpenList(g, t)[0]) {
      FreeTopInv(g, t);
      assert CloseTop(g, t) == FreeOpen(g, t, 0) by { CloseDeadIs(g, t); }
      SweepsDeath(g, CloseTop(g, t));
    } else if g.phase.Propagate? {
      CloseMarking(g, t);
      CloseFixed(g, t);
      NothingDies(g, CloseTop(g, t));
    } else {
      CloseElsewhere(g, t);
      SweepsDeath(g, CloseTop(g, t));
    }
  }

  lemma CloseDeadIs(g: G, t: Id)
    requires OpenAt(g, t, 0) && Dead(g, OpenList(g, t)[0])
    ensures CloseTop(g, t) == FreeOpen(g, t, 0)
  {
  }

  lemma SweepsDeath(g: G, g': G)
    requires Sweeps(g, g')
    ensures FreesDead(g, g') && (forall o :: o in g.heap && o in g'.heap && Dead(g', o) ==> Dead(g, o))
    ensures forall o :: o in g'.heap && o in g.heap ==> Fixed(g', o) == Fixed(g, o)
  {
    SweepsFreesDead(g, g');
    forall o | o in g'.heap && o in g.heap ensures (Dead(g', o) ==> Dead(g, o)) && Fixed(g', o) == Fixed(g, o) {
      assert SweepsAt(g, g', o);
    }
  }

  lemma NothingDies(g: G, g': G)
    requires Inv(g') && g'.heap.Keys == g.heap.Keys && g'.phase.Propagate?
    ensures FreesDead(g, g') && forall o :: o in g'.heap ==> !Dead(g', o)
  {
    NothingDead(g');
  }

  lemma CloseFixed(g: G, t: Id)
    requires Inv(g) && OpenAt(g, t, 0) && !Dead(g, OpenList(g, t)[0]) && g.phase.Propagate?
    ensures CloseTop(g, t).phase.Propagate?
    ensures forall o :: o in CloseTop(g, t).heap && o in g.heap ==> Fixed(CloseTop(g, t), o) == Fixed(g, o)
  {
    hide Inv, LinkedTop, CloseTop;
    CloseTopMarks(g, t);
    LinkedTopIs(g, t);
    var u, g1 := OpenList(g, t)[0], LinkedTop(g, t);
    if Gray(g1, u) {
      var v := SlotValue(g, t, g.heap[u].body.slot);
      BarrierFixed(Blackened(g1, u), u, v);
    }
  }

  lemma BarrierFixed(g: G, u: Id, v: Value)
    requires g.phase.Propagate?
    ensures var g' := Barrier(g, u, v);
            g'.phase.Propagate? && forall o :: o in g'.heap && o in g.heap ==> Fixed(g', o) == Fixed(g, o)
  {
    if v.Ref? && White(g, v.id) && Black(g, u) {
      MarkObjectDarker(g, v.id);
      DarkerPhase(g, MarkObject(g, v.id));
      forall o | o in g.heap ensures Fixed(MarkObject(g, v.id), o) == Fixed(g, o) {
        assert DarkerAt(g, MarkObject(g, v.id), o);
      }
    }
  }

  // Closing the upvalues from a slot on, in any phase, closes those and leaves the rest as
  // it was.
  lemma CloseUpvalsExact(g: G, t: Id, level: nat)
    requires Inv(g) && IsThread(g, t)
    ensures Inv(CloseUpvals(g, t, level)) && FreesDead(g, CloseUpvals(g, t, level))
    ensures ClosedDown(g, CloseUpvals(g, t, level), t, level)
  {
    hide Inv, CloseUpvals, NoDangling, ThreadsOk, StringsOk, RootsOk, MarksOk;
    CloseUpvalsInv(g, t, level);
    InvShape(g);
    CloseUpvalsCloses(g, t, level, {});
  }

  lemma {:induction false} CloseUpvalsInv(g: G, t: Id, level: nat)
    requires Inv(g)
    ensures Inv(CloseUpvals(g, t, level)) && FreesDead(g, CloseUpvals(g, t, level))
    decreases |OpenList(g, t)|
  {
    hide Inv, CloseTop;
    if TopAbove(g, t, level) {
      var g1 := CloseTop(g, t);
      CloseOneInv(g, t);
      CloseTopShorter(g, t);
      CloseUpvalsInv(g1, t, level);
    }
  }

  // ----- any action ------------------------------------------------------------------------------

  lemma HasIdLive(g: G, o: Id)
    requires Inv(g) && HasId(g, o)
    ensures Live(g, o)
  {
    ReachableLive(g, o);
  }

  lemma StoreInv(g: G, o: Id, refs: seq<Id>, v: Value)
    requires Inv(g) && May(g, Store(o, refs, v))
    ensures Inv(Does(g, Store(o, refs, v))) && Does(g, Store(o, refs, v)).heap.Keys == g.heap.Keys
  {
    hide Inv, Reachable, WriteNode;
    HasIdLive(g, o);
    if v.Ref? { HasIdLive(g, v.id); }
    WriteNodeInv(g, o, refs, v);
    WriteKeys(g, o, refs, v);
  }

  lemma WriteKeys(g: G, o: Id, refs: seq<Id>, v: Value)
    requires o in g.heap && g.heap[o].body.Node?
    ensures WriteNode(g, o, refs, v).heap.Keys == g.heap.Keys
  {
    BarrierKeysAny(SetBody(g, o, Node(g.heap[o].body.kind, refs)), o, v);
  }

  lemma CollectorInv(g: G, a: Action)
    requires Inv(g) && May(g, a) && (a.Collect? || a.StartFull? || a.MarkAgain?)
    ensures Inv(Does(g, a)) && FreesDead(g, Does(g, a))
  {
    hide Inv, SingleStep, MarkRoot;
    match a {
      case Collect => SingleStepInv(g);
      case StartFull => ResetSweepInv(g);
      case MarkAgain => MarkRootInv(g);
    }
  }

  lemma StackActionInv(g: G, a: Action)
    requires Inv(g) && May(g, a) && (a.Push? || a.Pop? || a.SetSlot? || a.SetGlobals?)
    ensures Inv(Does(g, a)) && Does(g, a).heap.Keys == g.heap.Keys
  {
    hide Inv, SetStack, SetThread, Reachable, Storable, OpenList;
    RunningThread(g);
    match a {
      case Push(v) => HasLive(g, v); SetStackInv(g, Stack(g) + [v]);
      case Pop(height) => if height <= |Stack(g)| { SetStackInv(g, Stack(g)[..height]); }
      case SetSlot(slot, v) => HasLive(g, v); if slot < |Stack(g)| { SetStackInv(g, Stack(g)[slot := v]); }
      case SetGlobals(v) => HasLive(g, v); SetGlobalsInv(g, v);
    }
  }

  lemma SetGlobalsInv(g: G, v: Value)
    requires Inv(g) && Storable(g, v)
    ensures IsThread(g, g.running) && Inv(SetThread(g, g.running, v, Stack(g)))
    ensures SetThread(g, g.running, v, Stack(g)).heap.Keys == g.heap.Keys
  {
    hide Inv, Storable;
    RunningThread(g);
    SetThreadInv(g, g.running, v, Stack(g));
  }

  lemma CreatingInv(g: G, a: Action)
    requires Inv(g) && May(g, a) && (a.Create? || a.CreateThread? || a.Intern? || a.MakeClosure?)
    ensures Inv(Does(g, a)) && g.heap.Keys <= Does(g, a).heap.Keys
  {
    hide Inv, NewObject, PushNew, CaptureAll, InternString, Reachable;
    match a {
      case Create(kind, refs) =>
        forall r | r in refs ensures Live(g, r) { HasIdLive(g, r); }
        CreateInv(g, Node(kind, refs));
      case CreateThread => CreateThreadInv(g);
      case Intern(text) => InternStep(g, text);
      case MakeClosure(refs, levels) =>
        forall r | r in refs ensures Live(g, r) { HasIdLive(g, r); }
        MakeClosureInv(g, refs, levels);
    }
  }

  // Whatever happens next, the invariant stays and only dead objects are freed.
  lemma DoesInv(g: G, a: Action)
    requires Inv(g) && May(g, a)
    ensures Inv(Does(g, a)) && FreesDead(g, Does(g, a))
  {
    hide Inv, Does;
    if a.Collect? || a.StartFull? || a.MarkAgain? {
      CollectorInv(g, a);
    } else if a.Push? || a.Pop? || a.SetSlot? || a.SetGlobals? {
      StackActionInv(g, a);
    } else if a.Create? || a.CreateThread? || a.Intern? || a.MakeClosure? {
      CreatingInv(g, a);
    } else if a.MoveTo? || a.Fix? || a.SetRegistry? {
      RareInv(g, a);
    } else {
      OtherInv(g, a);
    }
  }

  lemma RareInv(g: G, a: Action)
    requires Inv(g) && May(g, a) && (a.MoveTo? || a.Fix? || a.SetRegistry?)
    ensures Inv(Does(g, a)) && FreesDead(g, Does(g, a))
  {
    hide Inv, PushOn, FixString;
    match a {
      case MoveTo(t, v) => HasLive(g, v); PushOnInv(g, t, v);
      case Fix(o) => HasIdLive(g, o); FixInv(g, o);
      case SetRegistry(v) => HasLive(g, v); SetRegistryInv(g, v);
    }
  }

  lemma PushOnInv(g: G, t: Id, v: Value)
    requires Inv(g) && IsThread(g, t) && Storable(g, v)
    ensures Inv(PushOn(g, t, v)) && PushOn(g, t, v).heap.Keys == g.heap.Keys
  {
    hide Inv, Storable;
    OpenSlots(g, t);
    SetThreadInv(g, t, g.heap[t].body.globals, g.heap[t].body.stack + [v]);
  }

  lemma OpenSlots(g: G, t: Id)
    requires Inv(g) && IsThread(g, t)
    ensures forall u :: u in OpenList(g, t) ==>
              u in g.heap && g.heap[u].body.Open? && g.heap[u].body.slot < |g.heap[t].body.stack|
  {
    assert OpenListOk(g, t);
  }

  // In the pause nothing is marked yet, so the registry needs no barrier.
  lemma SetRegistryInv(g: G, v: Value)
    requires Inv(g) && g.phase.Pause? && Storable(g, v)
    ensures Inv(g.(registry := v))
  {
    hide NoDangling, ThreadsOk, RootsOk, StringsOk, MarksOk, Storable;
    var g' := g.(registry := v);
    SetRegistryRefs(g, v);
    SweepgcOk(g);
    ThreadsOkSame(g, g');
    RootsOkSame(g, g', {});
    StringsOkSame(g, g');
    MarksOkSame(g, g');
  }

  lemma SetRegistryRefs(g: G, v: Value)
    requires NoDangling(g) && Storable(g, v)
    ensures NoDangling(g.(registry := v))
  {
    hide ChildrenLive;
    var g' := g.(registry := v);
    forall o | Live(g', o) ensures ChildrenLive(g', o) {
      assert ChildrenLive(g, o);
      RegistrySame(g, v, o);
    }
  }

  lemma RegistrySame(g: G, v: Value, o: Id)
    requires ChildrenLive(g, o)
    ensures ChildrenLive(g.(registry := v), o)
  {
    SameBodiesChildren(g, g.(registry := v), o);
  }

  // Fixing a string changes no colour.
  lemma FixInv(g: G, o: Id)
    requires Inv(g) && o in g.heap && g.heap[o].body.Str? && Live(g, o)
    ensures Inv(FixString(g, o)) && FixString(g, o).heap.Keys == g.heap.Keys
  {
    hide NoDangling, Inv, PhaseOk, Shape;
    var g' := FixString(g, o);
    FixRecolours(g, o);
    if g.phase.Propagate? { FixWhileMarking(g, o); } else { RecolouredInv(g, g'); }
  }

  lemma FixRecolours(g: G, o: Id)
    requires Inv(g) && o in g.heap && g.heap[o].body.Str? && Live(g, o)
    ensures Recoloured(g, FixString(g, o)) && MarksOk(FixString(g, o)) && SameBodies(g, FixString(g, o))
    ensures FixString(g, o).heap.Keys == g.heap.Keys
  {
    hide ThreadsOk, RootsOk, StringsOk, NoDangling, PhaseOk, ChildrenLive;
  }

  lemma FixWhileMarking(g: G, o: Id)
    requires Inv(g) && o in g.heap && g.heap[o].body.Str? && g.phase.Propagate?
    requires Recoloured(g, FixString(g, o)) && MarksOk(FixString(g, o))
    ensures Inv(FixString(g, o))
  {
    hide NoDangling, ThreadsOk, RootsOk, StringsOk, MarksOk, Tri, RootMarked, FixString, Recoloured;
    var g' := FixString(g, o);
    FixSame(g, o);
    RecolouredNoDangling(g, g');
    ThreadsOkSame(g, g');
    SweepgcOk(g);
    RootsOkSame(g, g', {});
    StringsOkSame(g, g');
    FixTri(g, o);
  }

  lemma FixSame(g: G, o: Id)
    ensures var g' := FixString(g, o); SameBodies(g, g') && g' == g.(heap := g'.heap)
  {
  }

  lemma FixTri(g: G, o: Id)
    requires Tri(g, {}, 0) && RootMarked(g) && o in g.heap && g.heap[o].body.Str?
    ensures Tri(FixString(g, o), {}, 0) && RootMarked(FixString(g, o))
  {
    var g' := FixString(g, o);
    FixSame(g, o);
    forall p | p in g'.heap ensures TriAt(g', {}, 0, p) {
      assert TriAt(g, {}, 0, p);
      SameBodiesChildren(g, g', p);
      assert forall c :: White(g', c) == White(g, c);
    }
  }

  lemma OtherInv(g: G, a: Action)
    requires Inv(g) && May(g, a) && (a.SetMt? || a.Resume? || a.Store? || a.StoreUpval? || a.CloseTo?)
    ensures Inv(Does(g, a)) && FreesDead(g, Does(g, a))
  {
    hide Inv;
    match a {
      case SetMt(tag, v) => HasLive(g, v); if tag < |g.mt| { SetMtInv(g, tag, v); }
      case Resume(t) => HasIdLive(g, t); SetRunningInv(g, t);
      case Store(o, refs, v) => StoreInv(g, o, refs, v);
      case StoreUpval(u, v) => HasIdLive(g, u); HasLive(g, v); StoreUpvalInv(g, u, v);
      case CloseTo(level) => CloseUpvalsInv(g, g.running, level);
    }
  }

  // ----- whole runs ---------------------------------------------------------------------------------

  // The state after a run.
  function Runs(g: G, run: seq<Action>): G
    decreases |run|
  {
    if run == [] then g else Runs(Does(g, run[0]), run[1..])
  }

  ghost predicate MayRun(g: G, run: seq<Action>)
    decreases |run|
  {
    run == [] || (May(g, run[0]) && MayRun(Does(g, run[0]), run[1..]))
  }

  // The actions of the collector alone.
  predicate IsCollector(a: Action) { a.Collect? || a.StartFull? || a.MarkAgain? }

  lemma CollectorCollects(g: G, a: Action)
    requires Inv(g) && May(g, a) && IsCollector(a)
    ensures Inv(Does(g, a)) && Collects(g, Does(g, a))
  {
    hide Inv, Collects, SingleStep, MarkRoot, ResetSweep;
    match a {
      case Collect => SingleStepCollects(g);
      case StartFull => ResetSweepCollects(g);
      case MarkAgain => MarkRootCollects(g);
    }
  }

  // However many of them come one after the other, the program can reach the same objects
  // as before, and they are what they were.
  lemma {:induction false} CollectingRun(g: G, run: seq<Action>)
    requires Inv(g) && MayRun(g, run) && forall i :: 0 <= i < |run| ==> IsCollector(run[i])
    ensures Inv(Runs(g, run)) && Collects(g, Runs(g, run))
    decreases |run|
  {
    hide Inv, Collects, Does;
    if run == [] {
      CollectsSelf(g);
    } else {
      assert IsCollector(run[0]);
      CollectorCollects(g, run[0]);
      CollectingRun(Does(g, run[0]), run[1..]);
      CollectsTrans(g, Does(g, run[0]), Runs(g, run));
    }
  }

  // No object the program can reach is ever freed, however steps of the collector and
  // actions of the program are interleaved; and an action of the collector leaves the
  // program all it could reach, as it was.
  lemma {:induction false} RunSafe(g: G, run: seq<Action>, k: nat)
    requires Inv(g) && MayRun(g, run) && k < |run|
    ensures var before := Runs(g, run[..k]);
            var after := Does(before, run[k]);
            && Inv(before) && Inv(after)
            && (forall o :: Reachable(before, o) ==> o in before.heap && o in after.heap)
            && (forall o :: Reachable(after, o) ==> o in after.heap)
            && (IsCollector(run[k]) ==> Collects(before, after))
    decreases k
  {
    hide Inv, Does, Collects;
    if k == 0 {
      assert run[..0] == [];
      DoesInv(g, run[0]);
      StepSafe(g, Does(g, run[0]));
      if IsCollector(run[0]) { CollectorCollects(g, run[0]); }
    } else {
      DoesInv(g, run[0]);
      RunSafe(Does(g, run[0]), run[1..], k - 1);
      assert run[..k][1..] == run[1..][..k - 1] && run[..k][0] == run[0];
    }
  }

  lemma StepSafe(g: G, g': G)
    requires Inv(g) && Inv(g') && FreesDead(g, g')
    ensures forall o :: Reachable(g, o) ==> o in g.heap && o in g'.heap
    ensures forall o :: Reachable(g', o) ==> o in g'.heap
  {
    forall o | Reachable(g, o) ensures o in g.heap && o in g'.heap { Safe(g, o); }
    forall o | Reachable(g', o) ensures o in g'.heap { Safe(g', o); }
  }

  // ----- colours -------------------------------------------------------------------------------------

  lemma NoBlackToWhite(g: G)
    requires Inv(g) && g.phase.Propagate?
    ensures forall o, c :: Black(g, o) && c in Children(g, o) ==> !White(g, c)
    ensures forall o :: Black(g, o) ==> !g.heap[o].body.Thread? && !g.heap[o].body.Open?
    ensures forall o :: o in g.heap ==> !Dead(g, o)
  {
    hide Shape, NoDangling;
    forall o | o in g.heap ensures TriAt(g, {}, 0, o) {}
    forall o, c | Black(g, o) && c in Children(g, o) ensures !White(g, c) { assert Settled(g, o); }
  }

  lemma ListedOnce(g: G)
    requires Inv(g) && g.phase.Propagate?
    ensures forall o :: Gray(g, o) && Listed(g.heap[o].body) <==> o in g.gray || o in g.grayagain
    ensures Distinct(g.gray) && Distinct(g.grayagain) && forall o :: !(o in g.gray && o in g.grayagain)
  {
    hide Shape, NoDangling;
    forall o | o in g.heap ensures TriAt(g, {}, 0, o) {}
  }

  // Any state of a run from a new one.
  lemma {:induction false} RunInv(run: seq<Action>, k: nat)
    requires MayRun(NewState(), run) && k <= |run|
    ensures Inv(Runs(NewState(), run[..k]))
  {
    hide Inv, Does, NewState;
    NewStateInv();
    if k > 0 {
      RunSafe(NewState(), run, k - 1);
      RunsSnoc(NewState(), run[..k - 1], run[k - 1]);
      assert run[..k] == run[..k - 1] + [run[k - 1]];
    } else {
      assert run[..0] == [];
    }
  }

  lemma {:induction false} RunsSnoc(g: G, run: seq<Action>, a: Action)
    ensures Runs(g, run + [a]) == Does(Runs(g, run), a)
    decreases |run|
  {
    hide Does;
    if run == [] {
      assert [] + [a] == [a];
      assert Runs(Does(g, a), [a][1..]) == Does(g, a);
    } else {
      assert (run + [a])[1..] == run[1..] + [a] && (run + [a])[0] == run[0];
      RunsSnoc(Does(g, run[0]), run[1..], a);
    }
  }

  // ----- the initial state ---------------------------------------------------------------------------

  // A new state: the main thread alone, between two collections.
  function NewState(): G {
    G(map[0 := Obj(Mark(true, false, false, true), Thread(Nil, [Nil], []))], 1, 0, 0, Nil, seq(9, _ => Nil), false,
      Pause, [], [], [0], 0, EmptyTable(MINSTRTABSIZE), 0, 0, [])
  }

  lemma NewStateInv()
    ensures Inv(NewState())
  {
    hide StringsOk, EmptyTable;
    var g := NewState();
    NewStrings();
    assert forall v :: v in g.mt ==> v == Nil;
    assert AllIds(g.mt) == {};
    assert Children(g, 0) == {};
    assert IsThread(g, 0) && OpenListOk(g, 0);
  }

  lemma NewStrings()
    ensures StringsOk(NewState())
  {
    EmptyTotal(MINSTRTABSIZE);
  }

  // ----- colours in a run ------------------------------------------------------------------------------

  // In a run from a new state, while marking: no black object refers to a white one;
  // threads and open upvalues are never black; nothing has the other white; each gray
  // object that is to be traversed is on exactly one gray list, once, and all objects on
  // these lists are gray.
  lemma ColoursWhileMarking(run: seq<Action>, k: nat)
    requires MayRun(NewState(), run) && k <= |run| && Runs(NewState(), run[..k]).phase.Propagate?
    ensures var g := Runs(NewState(), run[..k]);
            && (forall o, c :: Black(g, o) && c in Children(g, o) ==> !White(g, c))
            && (forall o :: Black(g, o) ==> !g.heap[o].body.Thread? && !g.heap[o].body.Open?)
            && (forall o :: o in g.heap ==> !Dead(g, o))
            && (forall o :: Gray(g, o) && Listed(g.heap[o].body) <==> o in g.gray || o in g.grayagain)
            && Distinct(g.gray) && Distinct(g.grayagain) && forall o :: !(o in g.gray && o in g.grayagain)
  {
    hide Inv, NewState, MayRun, Runs;
    RunInv(run, k);
    NoBlackToWhite(Runs(NewState(), run[..k]));
    ListedOnce(Runs(NewState(), run[..k]));
  }

  // Between collections, and when a sweep is over, everything is white, so no barrier is
  // ever asked for.
  lemma ColoursBetween(run: seq<Action>, k: nat)
    requires MayRun(NewState(), run) && k <= |run|
    requires var p := Runs(NewState(), run[..k]).phase; p.Pause? || p.Finalize?
    ensures var g := Runs(NewState(), run[..k]); forall o :: o in g.heap ==> CurWhite(g, o) && !Black(g, o)
  {
    hide Inv, NewState, MayRun, Runs;
    RunInv(run, k);
    AllWhite(Runs(NewState(), run[..k]));
  }

  lemma AllWhite(g: G)
    requires Inv(g) && (g.phase.Pause? || g.phase.Finalize?)
    ensures forall o :: o in g.heap ==> CurWhite(g, o) && !Black(g, o)
  {
    hide Shape, NoDangling;
  }
}

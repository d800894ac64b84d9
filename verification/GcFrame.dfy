// What an action of the program changes: the objects it names, and no others.

module GcFrame {
  import opened GcState
  import opened GcSweep
  import opened GcInvariant
  import opened GcMutator
  import opened GcAlloc
  import opened GcStrings
  import opened GcUpvals
  import opened GcKeeps
  import opened GcRun

  // What action `a` may change of what there is.
  ghost predicate Changes(g: G, a: Action, o: Id) {
    match a
    case Store(x, _, _) => o == x
    case StoreUpval(u, _) => o == u || (u in g.heap && g.heap[u].body.Open? && o == g.heap[u].body.thread)
    case CloseTo(level) =>
      o == g.running || (o in OpenList(g, g.running) && o in g.heap && g.heap[o].body.Open?
                         && level <= g.heap[o].body.slot)
    case MoveTo(t, _) => o == t
    case SetMt(_, _) => false
    case Resume(_) => false
    case Fix(_) => false
    case SetRegistry(_) => false
    case _ => o == g.running
  }

  // All objects of `g` outside `but` are still there, with the bodies they had.
  ghost predicate StayBut(g: G, g': G, but: iset<Id>) {
    forall o :: o in g.heap && o !in but ==> o in g'.heap && g'.heap[o].body == g.heap[o].body
  }

  lemma StayTrans(g: G, g1: G, g2: G, but: iset<Id>)
    requires StayBut(g, g1, but) && StayBut(g1, g2, but)
    ensures StayBut(g, g2, but)
  {
  }

  lemma SameStay(g: G, g': G, but: iset<Id>)
    requires SameBodies(g, g')
    ensures StayBut(g, g', but)
  {
  }

  lemma NewObjectStay(g: G, b: Body)
    requires g.next !in g.heap
    ensures StayBut(g, NewObject(g, b), iset{}) && NewObject(g, b).running == g.running
  {
  }

  lemma StackStay(g: G, stack: seq<Value>)
    ensures StayBut(g, SetStack(g, stack), iset{g.running}) && SetStack(g, stack).running == g.running
  {
  }

  lemma ResizeStay(g: G, newsize: nat)
    requires newsize > 0
    ensures Resize(g, newsize).heap == g.heap && Resize(g, newsize).running == g.running
  {
  }

  lemma InternStay(g: G, text: Text)
    requires 0 < |g.strt| && g.next !in g.heap
    ensures StayBut(g, InternString(g, text).0, iset{}) && InternString(g, text).0.running == g.running
  {
    hide FindText, Bucket, Resize;
    var g1 := ChainNew(g, text);
    ResizeStay(g1, |g1.strt| * 2);
  }

  lemma FindUpvalStay(g: G, t: Id, level: nat)
    requires IsThread(g, t) && g.next !in g.heap
    ensures StayBut(g, FindUpval(g, t, level).0, iset{t}) && FindUpval(g, t, level).0.running == g.running
    ensures forall o :: o in g.heap ==> o in FindUpval(g, t, level).0.heap
  {
    hide OpenPos;
  }

  lemma {:induction false} CaptureStay(g: G, f: Id, levels: seq<nat>)
    ensures StayBut(g, CaptureAll(g, f, levels), iset{g.running, f}) && CaptureAll(g, f, levels).running == g.running
    decreases |levels|
  {
    hide FindUpval;
    if levels != [] {
      var g1 := CaptureNext(g, f, levels[0]);
      if IsThread(g, g.running) && g.next !in g.heap { FindUpvalStay(g, g.running, levels[0]); }
      CaptureStay(g1, f, levels[1..]);
      StayTrans(g, g1, CaptureAll(g, f, levels), iset{g.running, f});
    }
  }

  lemma BackSame(g: G, t: Id, v: Value)
    ensures SameBodies(g, BarrierT(g, t, v)) && SameRoots(g, BarrierT(g, t, v))
  {
  }

  lemma WriteNodeStay(g: G, o: Id, refs: seq<Id>, v: Value)
    requires o in g.heap && g.heap[o].body.Node?
    ensures var g' := WriteNode(g, o, refs, v);
            && StayBut(g, g', iset{o}) && SameRoots(g, g')
            && o in g'.heap && g'.heap[o].body == Node(g.heap[o].body.kind, refs)
  {
    hide Barrier, BarrierT;
    var g1 := SetBody(g, o, Node(g.heap[o].body.kind, refs));
    if IsTable(g.heap[o].body) { BackSame(g1, o, v); } else { BarrierSame(g1, o, v); }
  }

  lemma StoreUpvalStay(g: G, u: Id, v: Value)
    requires u in g.heap
    ensures StayBut(g, StoreUpvalue(g, u, v), iset o | Changes(g, StoreUpval(u, v), o))
    ensures SameRoots(g, StoreUpvalue(g, u, v))
    ensures g.heap[u].body.Closed? ==>
              u in StoreUpvalue(g, u, v).heap && StoreUpvalue(g, u, v).heap[u].body == Closed(v)
  {
    hide Barrier;
    match g.heap[u].body
    case Closed(_) => BarrierSame(SetBody(g, u, Closed(v)), u, v);
    case Open(t, slot) =>
      if IsThread(g, t) && slot < |g.heap[t].body.stack| {
        BarrierSame(SetThread(g, t, g.heap[t].body.globals, g.heap[t].body.stack[slot := v]), u, v);
      }
    case _ =>
  }

  lemma CloseStay(g: G, level: nat)
    requires Inv(g)
    ensures StayBut(g, CloseUpvals(g, g.running, level), iset o | Changes(g, CloseTo(level), o))
  {
    hide Inv, CloseUpvals;
    RunningThread(g);
    CloseUpvalsExact(g, g.running, level);
    var us, g' := OpenList(g, g.running), CloseUpvals(g, g.running, level);
    var k: nat :|
      && ClosedFirst(g, g', g.running, k)
      && forall i :: 0 <= i < |us| ==> (i < k <==> level <= SlotOf(g, us[i]));
    ClosedNamed(g, level, k);
    hide Changes, ClosedOne;
    RunningNamed(g, level);
    assert forall o :: o in g.heap && !Changes(g, CloseTo(level), o) ==> o != g.running && o !in us[..k];
  }

  lemma RunningNamed(g: G, level: nat)
    ensures Changes(g, CloseTo(level), g.running)
  {
  }

  lemma ClosedNamed(g: G, level: nat, k: nat)
    requires k <= |OpenList(g, g.running)|
    requires forall i :: 0 <= i < |OpenList(g, g.running)| ==>
               (i < k <==> level <= SlotOf(g, OpenList(g, g.running)[i]))
    ensures forall o :: o in OpenList(g, g.running)[..k] ==> Changes(g, CloseTo(level), o)
  {
    var us := OpenList(g, g.running);
    forall o | o in us[..k] ensures Changes(g, CloseTo(level), o) {
      var i :| 0 <= i < k && us[..k][i] == o;
      assert us[i] == o && level <= SlotOf(g, us[i]);
    }
  }

  lemma CreatingStay(g: G, a: Action)
    requires g.next !in g.heap && (a.Create? || a.CreateThread? || a.Intern? || a.MakeClosure?)
    ensures StayBut(g, Does(g, a), iset{g.running})
  {
    hide NewObject, CaptureAll, InternString, SetStack, Stack, StayBut;
    match a {
      case Create(kind, refs) => NewThenPush(g, Node(kind, refs));
      case CreateThread => NewThenPush(g, Thread(Globals(g), [Nil], []));
      case Intern(text) =>
        if g.strt != [] {
          InternStay(g, text);
          PushStay(g, InternString(g, text).0, InternString(g, text).1);
        } else {
          SameStay(g, g, iset{g.running});
        }
      case MakeClosure(refs, levels) => ClosureStay(g, refs, levels);
    }
  }

  // A new object pushed behind something that changed nothing else.
  lemma PushStay(g: G, g1: G, o: Id)
    requires StayBut(g, g1, iset{}) && g1.running == g.running
    ensures StayBut(g, PushNew(g1, o), iset{g.running})
  {
    StackStay(g1, Stack(g1) + [Ref(o)]);
  }

  lemma NewThenPush(g: G, b: Body)
    requires g.next !in g.heap
    ensures StayBut(g, PushNew(NewObject(g, b), g.next), iset{g.running})
  {
    NewObjectStay(g, b);
    PushStay(g, NewObject(g, b), g.next);
  }

  lemma ClosureStay(g: G, refs: seq<Id>, levels: seq<nat>)
    requires g.next !in g.heap
    ensures StayBut(g, Does(g, MakeClosure(refs, levels)), iset{g.running})
  {
    hide NewObject, CaptureAll, SetStack, Stack;
    var g1 := NewObject(g, Node(Function, refs));
    var g2 := CaptureAll(g1, g.next, levels);
    NewObjectStay(g, Node(Function, refs));
    CaptureStay(g1, g.next, levels);
    StackStay(g2, Stack(g2) + [Ref(g.next)]);
  }

  lemma RestStay(g: G, a: Action)
    requires a.Push? || a.Pop? || a.SetSlot? || a.SetGlobals? || a.SetMt? || a.Resume? || a.MoveTo? || a.Fix?
             || a.SetRegistry?
    ensures StayBut(g, Does(g, a), iset o | Changes(g, a, o))
  {
  }

  // An action of the program leaves every object it does not name in the heap, as it was.
  lemma DoesOnly(g: G, a: Action)
    requires Inv(g) && May(g, a) && !IsCollector(a)
    ensures StayBut(g, Does(g, a), iset o | Changes(g, a, o))
  {
    hide Inv, StayBut, WriteNode, StoreUpvalue, CloseUpvals, NewObject, CaptureAll, InternString, SetStack, Stack,
         Reachable;
    if a.Create? || a.CreateThread? || a.Intern? || a.MakeClosure? {
      NotInHeapInv(g);
      CreatingStay(g, a);
      StayMore(g, Does(g, a), iset{g.running}, iset o | Changes(g, a, o));
    } else if a.Store? {
      WriteNodeStay(g, a.o, a.refs, a.v);
      StayMore(g, Does(g, a), iset{a.o}, iset o | Changes(g, a, o));
    } else if a.StoreUpval? {
      StoreUpvalStay(g, a.u, a.v);
    } else if a.CloseTo? {
      CloseStay(g, a.level);
    } else {
      RestStay(g, a);
    }
  }

  lemma StayMore(g: G, g': G, but: iset<Id>, more: iset<Id>)
    requires StayBut(g, g', but) && but <= more
    ensures StayBut(g, g', more)
  {
  }
}

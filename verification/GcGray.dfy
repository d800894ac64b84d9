// The gray lists: while marking what is on them is gray, and at no time is it black.

module GcGray {
  import opened GcColours
  import opened GcState
  import opened GcMark
  import opened GcAtomic
  import opened GcSweep
  import opened GcInvariant
  import opened GcMutator
  import opened GcAlloc
  import opened GcStrings
  import opened GcUpvals
  import opened GcClose
  import opened GcStep
  import opened GcKeeps
  import opened GcRun

  // What holds while objects are marked: what is on a gray list is gray and waits to be
  // traversed, nothing has two colours and nothing is dead.
  ghost predicate Coloured(g: G) {
    && (forall o :: o in g.gray || o in g.grayagain ==> Gray(g, o) && Listed(g.heap[o].body))
    && forall o :: o in g.heap ==> ColourOk(g.heap[o].mark) && !Dead(g, o)
  }

  // The back barrier, which is for black tables, lists nothing that is listed already.
  ghost predicate NoneBlack(g: G) { forall o :: o in g.gray || o in g.grayagain ==> !Black(g, o) }

  ghost predicate Ready(g: G) { Inv(g) && NoneBlack(g) }

  lemma TriColoured(g: G, busy: set<Id>, stage: Stage)
    requires Tri(g, busy, stage)
    ensures Coloured(g)
  {
    forall o | o in g.heap ensures ColourOk(g.heap[o].mark) && !Dead(g, o) { assert TriAt(g, busy, stage, o); }
  }

  lemma GrayNoneBlack(g: G)
    requires Coloured(g)
    ensures NoneBlack(g)
  {
  }

  // A white object turned gray, and listed if it is to be traversed.
  lemma GrayedColoured(g: G, o: Id)
    requires Coloured(g) && White(g, o)
    ensures o !in g.gray && o !in g.grayagain && Coloured(Grayed(g, o))
    ensures Listed(g.heap[o].body) ==> Coloured(Grayed(g, o).(gray := [o] + g.gray))
  {
    assert !Gray(g, o) && Gray(Grayed(g, o), o);
    assert forall p :: p in [o] + g.gray <==> p == o || p in g.gray;
  }

  lemma BlackenedColoured(g: G, o: Id)
    requires Coloured(g) && o in g.heap && !White(g, o)
             && (!Listed(g.heap[o].body) || (o !in g.gray && o !in g.grayagain))
    ensures Coloured(Blackened(g, o))
  {
  }

  // Outside the sweep phases the invariant says it all.
  lemma UnlessSweeping(g: G)
    requires Inv(g) && !g.phase.SweepString? && !g.phase.Sweep?
    ensures NoneBlack(g)
  {
    if g.phase.Propagate? {
      TriColoured(g, {}, 0);
    } else {
      forall o | o in g.heap ensures !Black(g, o) { assert CurWhite(g, o); }
    }
  }

  // The roots are marked with empty lists.
  lemma StartColoured(g: G)
    requires Inv(g) && (g.phase.Pause? || g.phase.Finalize?)
    ensures Coloured(g.(gray := [], grayagain := []))
  {
    hide Shape, NoDangling;
    WhiteColours(g);
  }

  // Between collections no object is gray or black, and none is dead.
  lemma WhiteColours(g: G)
    requires AllCurWhite(g)
    ensures forall o :: o in g.heap ==> ColourOk(g.heap[o].mark) && !Dead(g, o) && White(g, o) && !Black(g, o)
  {
    forall o | o in g.heap ensures ColourOk(g.heap[o].mark) && !Dead(g, o) && White(g, o) && !Black(g, o) {
      assert CurWhite(g, o);
    }
  }

  // ----- what the barriers are called with -----------------------------------------------------

  predicate Between(g: G) { g.phase.Pause? || g.phase.Finalize? }

  // A barrier is for a black object that has got a white one, when neither is dead and a
  // collection is under way.
  ghost predicate BarrierFits(g: G, o: Id, v: Id) {
    Black(g, o) && White(g, v) && !Dead(g, o) && !Dead(g, v) && !Between(g)
  }

  ghost predicate MayBarrier(g: G, o: Id, v: Value) {
    v.Ref? && White(g, v.id) && Black(g, o) ==> BarrierFits(g, o, v.id)
  }

  ghost predicate WhiteBetween(g: G) { Between(g) ==> AllCurWhite(g) }

  lemma ColouredBarrier(g: G, o: Id, v: Value)
    requires Coloured(g) && g.phase.Propagate?
    ensures MayBarrier(g, o, v)
  {
  }

  lemma InvBetween(g: G)
    requires Inv(g)
    ensures WhiteBetween(g)
  {
  }

  lemma StoreBarrier(g: G, o: Id, refs: seq<Id>, v: Value)
    requires Inv(g) && Live(g, o) && g.heap[o].body.Node? && (v.Ref? ==> Live(g, v.id))
    ensures MayBarrier(SetBody(g, o, Node(g.heap[o].body.kind, refs)), o, v)
  {
    hide Shape, NoDangling;
    if Between(g) { WhiteColours(g); }
  }

  // A gray upvalue is closed in the course of a collection.
  lemma CloseTopBetween(g: G, t: Id)
    requires WhiteBetween(g) && OpenAt(g, t, 0)
    ensures WhiteBetween(CloseTop(g, t))
    ensures Gray(g, OpenList(g, t)[0]) ==> !Between(g)
  {
    CloseTopPhase(g, t);
    if Between(g) { assert CurWhite(g, OpenList(g, t)[0]); }
  }

  // ----- in the sweep phases nothing turns black ----------------------------------------------

  ghost predicate Fades(g: G, g': G) {
    g'.gray == g.gray && g'.grayagain == g.grayagain && g'.phase == g.phase && forall o :: Black(g', o) ==> Black(g, o)
  }

  lemma FadesNone(g: G, g': G)
    requires Fades(g, g') && NoneBlack(g)
    ensures NoneBlack(g')
  {
  }

  lemma CloseTopFades(g: G, t: Id)
    requires !g.phase.Propagate? && OpenAt(g, t, 0)
    ensures Fades(g, CloseTop(g, t))
  {
  }

  lemma {:induction false} CloseUpvalsFades(g: G, t: Id, level: nat)
    requires !g.phase.Propagate?
    ensures Fades(g, CloseUpvals(g, t, level))
    decreases |OpenList(g, t)|
  {
    hide CloseTop;
    if TopAbove(g, t, level) {
      CloseTopShorter(g, t);
      CloseTopFades(g, t);
      CloseUpvalsFades(CloseTop(g, t), t, level);
    }
  }

  lemma {:induction false} SweepOpenFades(g: G, t: Id, i: nat)
    ensures Fades(g, SweepOpenFrom(g, t, i))
    decreases |OpenList(g, t)| - i
  {
    if OpenAt(g, t, i) {
      if Survives(g.second, g.heap[OpenList(g, t)[i]].mark) {
        SweepOpenFades(Whiten(g, OpenList(g, t)[i]), t, i + 1);
      } else {
        SweepOpenFades(FreeOpen(g, t, i), t, i);
      }
    }
  }

  lemma SweepNextFades(g: G)
    requires g.phase.Sweep? && g.sweepgc < |g.rootgc| && g.rootgc[g.sweepgc] in g.heap
    ensures Fades(g, SweepNext(g))
  {
    hide SweepOpenFrom, SweepThis;
    var o := g.rootgc[g.sweepgc];
    SweepOpenFades(g, o, 0);
    SweepThisFades(SweepOpenFrom(g, o, 0), o);
  }

  lemma SweepThisFades(g: G, o: Id)
    requires g.phase.Sweep?
    ensures Fades(g, SweepThis(g, o))
  {
    hide CloseUpvals;
    if o in g.heap && g.sweepgc < |g.rootgc| && !Survives(g.second, g.heap[o].mark) {
      var g1 := g.(rootgc := RemoveAt(g.rootgc, g.sweepgc));
      CloseUpvalsFades(g1, o, 0);
      assert Fades(g, if IsThread(g1, o) then CloseUpvals(g1, o, 0) else g1);
    }
  }

  lemma {:induction false} SweepManyFades(g: G, count: nat)
    requires g.phase.Sweep?
    ensures Fades(g, SweepMany(g, count))
    decreases count
  {
    hide SweepNext;
    if count > 0 && g.sweepgc < |g.rootgc| && g.rootgc[g.sweepgc] in g.heap {
      SweepNextFades(g);
      SweepManyFades(SweepNext(g), count - 1);
    }
  }

  lemma {:induction false} SweepBucketFades(g: G, b: nat, i: nat)
    ensures Fades(g, SweepBucketFrom(g, b, i))
    decreases if b < |g.strt| then |g.strt[b]| - i else 0
  {
    if b < |g.strt| && i < |g.strt[b]| && g.strt[b][i] in g.heap {
      if Survives(g.second, g.heap[g.strt[b][i]].mark) {
        SweepBucketFades(Whiten(g, g.strt[b][i]), b, i + 1);
      } else {
        SweepBucketFades(FreeString(g, b, i), b, i);
      }
    }
  }

  // The atomic step leaves threads on the list of objects to traverse again.
  lemma AtomicNone(g: G)
    requires Inv(g) && g.phase.Propagate?
    ensures NoneBlack(Atomic(g))
  {
    hide Inv, FinalMarks, Tri, Typed, Darker, Coloured, Shape, NoDangling;
    InvShape(g);
    NothingDead(g);
    UvheadIs(g);
    RootsTyped(g);
    TriOf(g);
    AtomicTri(g);
    TriColoured(FinalMarks(g), {}, 2);
    GrayNoneBlack(FinalMarks(g));
  }

  lemma TriOf(g: G)
    requires Inv(g) && g.phase.Propagate?
    ensures Tri(g, {}, 0)
  {
  }

  lemma MarkRootReady(g: G)
    requires Inv(g) && (g.phase.Pause? || g.phase.Finalize?)
    ensures Ready(MarkRoot(g)) && MarkRoot(g).phase.Propagate?
  {
    hide Inv, MarkAll, RootIds;
    MarkRootInv(g);
    UnlessSweeping(MarkRoot(g));
  }

  lemma SingleStepReady(g: G)
    requires Ready(g)
    ensures Inv(g) && Ready(SingleStep(g))
  {
    hide Inv, MarkRoot, PropagateMark, Atomic, SweepBucketFrom, SweepMany, CheckSizes;
    SingleStepInv(g);
    match g.phase {
      case Pause => MarkRootReady(g);
      case Propagate => if g.gray != [] { PropagatePhase(g); UnlessSweeping(PropagateMark(g)); } else { AtomicNone(g); }
      case SweepString => SweepBucketFades(g, g.sweepstrgc, 0);
      case Sweep => SweepManyFades(g, GCSWEEPMAX); SizesFade(SweepMany(g, GCSWEEPMAX));
      case Finalize =>
    }
  }

  lemma PropagatePhase(g: G)
    requires Inv(g) && g.phase.Propagate? && g.gray != []
    ensures PropagateMark(g).phase.Propagate?
  {
    NothingDead(g);
    hide Inv;
    TriOf(g);
    PropagateTri(g, 0);
  }

  lemma SizesFade(g: G)
    ensures Fades(g, CheckSizes(g))
  {
  }

  // ----- what the program does ------------------------------------------------------------------

  lemma NewObjectFades(g: G, b: Body)
    requires g.next !in g.heap
    ensures Fades(g, NewObject(g, b))
  {
  }

  lemma InternFades(g: G, text: Text)
    requires 0 < |g.strt| && g.next !in g.heap
    ensures Fades(g, InternString(g, text).0)
  {
    hide FindText, Bucket, RehashFrom;
  }

  lemma FindUpvalFades(g: G, t: Id, level: nat)
    requires IsThread(g, t) && g.next !in g.heap
    ensures Fades(g, FindUpval(g, t, level).0)
  {
    hide OpenPos;
  }

  lemma {:induction false} ClosePhase(g: G, t: Id, level: nat)
    ensures CloseUpvals(g, t, level).phase == g.phase
    decreases |OpenList(g, t)|
  {
    hide CloseTop;
    if TopAbove(g, t, level) {
      CloseTopShorter(g, t);
      CloseTopPhase(g, t);
      ClosePhase(CloseTop(g, t), t, level);
    }
  }

  lemma CloseTopPhase(g: G, t: Id)
    requires OpenAt(g, t, 0)
    ensures CloseTop(g, t).phase == g.phase
  {
    hide Barrier;
    if !Dead(g, OpenList(g, t)[0]) {
      var u := OpenList(g, t)[0];
      var g1 := LinkFront(ClosedTop(g, t), u);
      BarrierPhase(Blackened(g1, u), u, g1.heap[u].body.value);
    }
  }

  lemma NewObjectReady(g: G, b: Body)
    requires Ready(g) && Fresh(b)
    requires forall c :: c in BodyChildren(g, b) ==> Live(g, c) && Suits(b, g.heap[c].body)
    ensures Inv(g) && Ready(NewObject(g, b))
  {
    hide Inv, NewObject, BodyChildren;
    NewObjectInv(g, b);
    NotInHeapInv(g);
    NewObjectFades(g, b);
  }

  lemma InternReady(g: G, text: Text)
    requires Ready(g)
    ensures Inv(g) && g.strt != [] && Ready(InternString(g, text).0)
  {
    hide Inv, InternString;
    TableNotEmpty(g);
    InternInv(g, text);
    NotInHeapInv(g);
    InternFades(g, text);
  }

  lemma FindUpvalReady(g: G, t: Id, level: nat)
    requires Ready(g) && IsThread(g, t) && Live(g, t) && level < |g.heap[t].body.stack|
    ensures Inv(g) && g.next !in g.heap && Ready(FindUpval(g, t, level).0)
  {
    hide Inv, FindUpval;
    NotInHeapInv(g);
    FindUpvalInv(g, t, level);
    FindUpvalFades(g, t, level);
  }

  lemma CloseReady(g: G, level: nat)
    requires Ready(g)
    ensures Inv(g) && Ready(CloseUpvals(g, g.running, level))
  {
    hide Inv, CloseUpvals;
    RunningThread(g);
    CloseUpvalsInv(g, g.running, level);
    if g.phase.Propagate? {
      ClosePhase(g, g.running, level);
      UnlessSweeping(CloseUpvals(g, g.running, level));
    } else {
      CloseUpvalsFades(g, g.running, level);
    }
  }

  lemma WriteNodeReady(g: G, o: Id, refs: seq<Id>, v: Value)
    requires Ready(g) && Live(g, o) && g.heap[o].body.Node?
    requires v.Ref? ==> Live(g, v.id) && Suits(g.heap[o].body, g.heap[v.id].body)
    requires forall r :: r in refs ==> r in g.heap[o].body.refs || v == Ref(r)
    ensures Inv(g) && Ready(WriteNode(g, o, refs, v))
  {
    hide Inv, Barrier, BarrierT;
    WriteNodeInv(g, o, refs, v);
    var g1 := SetBody(g, o, Node(g.heap[o].body.kind, refs));
    BarrierPhase(g1, o, v);
    if IsTable(g.heap[o].body) { BackNone(g1, o, v); }
    if g.phase.Propagate? && !IsTable(g.heap[o].body) { UnlessSweeping(WriteNode(g, o, refs, v)); }
    if !g.phase.Propagate? { ForwardFades(g1, o, v); }
  }

  // A table turned gray again is listed.
  lemma BackNone(g: G, t: Id, v: Value)
    requires NoneBlack(g)
    ensures NoneBlack(BarrierT(g, t, v))
  {
  }

  lemma ForwardFades(g: G, o: Id, v: Value)
    requires !g.phase.Propagate? && o in g.heap
    ensures Fades(g, Barrier(g, o, v))
  {
  }

  // ----- whole runs ------------------------------------------------------------------------------

  lemma {:induction false} CaptureFades(g: G, f: Id, levels: seq<nat>)
    ensures Fades(g, CaptureAll(g, f, levels))
    decreases |levels|
  {
    hide FindUpval;
    if levels != [] {
      if IsThread(g, g.running) && g.next !in g.heap { FindUpvalFades(g, g.running, levels[0]); }
      CaptureFades(CaptureNext(g, f, levels[0]), f, levels[1..]);
    }
  }

  lemma CreatingFades(g: G, a: Action)
    requires g.next !in g.heap && (a.Create? || a.CreateThread? || a.Intern? || a.MakeClosure?)
    ensures Fades(g, Does(g, a))
  {
    hide NewObject, CaptureAll, InternString, SetStack, Stack;
    match a {
      case Create(kind, refs) =>
        NewObjectFades(g, Node(kind, refs));
        PushFades(NewObject(g, Node(kind, refs)), g.next);
      case CreateThread =>
        NewObjectFades(g, Thread(Globals(g), [Nil], []));
        PushFades(NewObject(g, Thread(Globals(g), [Nil], [])), g.next);
      case Intern(text) =>
        if g.strt != [] {
          InternFades(g, text);
          PushFades(InternString(g, text).0, InternString(g, text).1);
        }
      case MakeClosure(refs, levels) =>
        NewObjectFades(g, Node(Function, refs));
        CaptureFades(NewObject(g, Node(Function, refs)), g.next, levels);
        PushFades(CaptureAll(NewObject(g, Node(Function, refs)), g.next, levels), g.next);
    }
  }

  lemma PushFades(g: G, o: Id)
    ensures Fades(g, PushNew(g, o))
  {
  }

  lemma StoreUpvalFades(g: G, u: Id, v: Value)
    ensures StoreUpvalue(g, u, v).phase == g.phase && (!g.phase.Propagate? ==> Fades(g, StoreUpvalue(g, u, v)))
  {
    hide Barrier;
    if u in g.heap {
      match g.heap[u].body {
        case Closed(_) =>
          BarrierPhase(SetBody(g, u, Closed(v)), u, v);
          if !g.phase.Propagate? { ForwardFades(SetBody(g, u, Closed(v)), u, v); }
        case Open(t, slot) =>
          if IsThread(g, t) && slot < |g.heap[t].body.stack| {
            var g1 := SetThread(g, t, g.heap[t].body.globals, g.heap[t].body.stack[slot := v]);
            BarrierPhase(g1, u, v);
            if !g.phase.Propagate? { ForwardFades(g1, u, v); }
          }
        case _ =>
      }
    }
  }

  lemma OtherFades(g: G, a: Action)
    requires a.Push? || a.Pop? || a.SetSlot? || a.SetGlobals? || a.SetMt? || a.Resume? || a.MoveTo? || a.Fix?
             || a.SetRegistry?
    ensures Fades(g, Does(g, a))
  {
  }

  lemma StoringNone(g: G, a: Action)
    requires NoneBlack(g) && Inv(Does(g, a)) && (a.Store? || a.StoreUpval? || a.CloseTo?)
    ensures NoneBlack(Does(g, a))
  {
    hide Inv, Barrier, BarrierT, StoreUpvalue, CloseUpvals;
    match a {
      case Store(o, refs, v) =>
        if o in g.heap && g.heap[o].body.Node? {
          var g1 := SetBody(g, o, Node(g.heap[o].body.kind, refs));
          BarrierPhase(g1, o, v);
          if IsTable(g.heap[o].body) { BackNone(g1, o, v); }
          else if g.phase.Propagate? {
            UnlessSweeping(Does(g, a));
          } else {
            ForwardFades(g1, o, v);
          }
        }
      case StoreUpval(u, v) =>
        StoreUpvalFades(g, u, v);
        if g.phase.Propagate? { UnlessSweeping(Does(g, a)); }
      case CloseTo(level) =>
        ClosePhase(g, g.running, level);
        if g.phase.Propagate? { UnlessSweeping(Does(g, a)); } else { CloseUpvalsFades(g, g.running, level); }
    }
  }

  lemma CollectingNone(g: G, a: Action)
    requires Ready(g) && May(g, a) && (a.Collect? || a.StartFull? || a.MarkAgain?)
    ensures NoneBlack(Does(g, a))
  {
    hide Inv, SingleStep, MarkRoot;
    match a {
      case Collect => SingleStepReady(g);
      case StartFull =>
      case MarkAgain => MarkRootReady(g);
    }
  }

  lemma DoesNone(g: G, a: Action)
    requires Ready(g) && May(g, a)
    ensures NoneBlack(Does(g, a))
  {
    hide Inv, Does, May, Fades, NoneBlack;
    DoesInv(g, a);
    if a.Collect? || a.StartFull? || a.MarkAgain? {
      CollectingNone(g, a);
    } else if a.Store? || a.StoreUpval? || a.CloseTo? {
      StoringNone(g, a);
    } else {
      if a.Create? || a.CreateThread? || a.Intern? || a.MakeClosure? {
        NotInHeapInv(g);
        CreatingFades(g, a);
      } else {
        OtherFades(g, a);
      }
      FadesNone(g, Does(g, a));
    }
  }

  // In a run from a new state no object on a gray list is ever black, so that the back
  // barrier lists no table twice.
  lemma {:induction false} NoneBlackListed(run: seq<Action>, k: nat)
    requires MayRun(NewState(), run) && k <= |run|
    ensures NoneBlack(Runs(NewState(), run[..k]))
  {
    hide Inv, Does, May, NoneBlack;
    if k > 0 {
      NoneBlackListed(run, k - 1);
      RunInv(run, k - 1);
      RunsSnoc(NewState(), run[..k - 1], run[k - 1]);
      assert run[..k] == run[..k - 1] + [run[k - 1]];
      MayThen(NewState(), run, k - 1);
      DoesNone(Runs(NewState(), run[..k - 1]), run[k - 1]);
    } else {
      assert run[..0] == [];
      NewNone();
    }
  }

  lemma {:induction false} MayThen(g: G, run: seq<Action>, k: nat)
    requires MayRun(g, run) && k < |run|
    ensures May(Runs(g, run[..k]), run[k])
    decreases k
  {
    hide Does, May;
    if k > 0 {
      assert run[..k][0] == run[0] && run[..k][1..] == run[1..][..k - 1];
      MayThen(Does(g, run[0]), run[1..], k - 1);
    } else {
      assert run[..0] == [];
    }
  }

  lemma NewNone()
    ensures NoneBlack(NewState())
  {
  }
}

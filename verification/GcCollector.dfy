// The collector itself: its state is updated in place, one step at a time.

module GcCollector {
  import opened GcColours
  import opened GcState
  import GcMark
  import GcAtomic
  import GcSweep
  import GcSweepAll
  import GcInvariant
  import GcMutator
  import GcAlloc
  import GcStrings
  import GcUpvals
  import GcClose
  import GcStep
  import GcRun
  import GcFull
  import GcKeeps
  import GcGray
  import opened GcLinks

  class GlobalState {
    var heap: map<Id, Obj>
    var next: Id
    var mainthread: Id
    var running: Id
    var registry: Value
    var mt: seq<Value>
    var second: bool
    var gcstate: Phase
    var gclist: Links      // each gray object's link to the next one on its list
    var grayhead: Ptr      // the gray objects
    var againhead: Ptr     // those to be traversed again at the end
    var link: Links        // each object's link to the next one on its list
    var roothead: Ptr      // the list of all objects
    var sweepat: Place     // the pointer to the object to be swept next
    var hash: seq<Ptr>     // the string table
    var nuse: nat
    var sweepstrgc: nat
    var uvhead: seq<Id>

    // What the links hold.
    ghost var gray: seq<Id>
    ghost var grayagain: seq<Id>
    ghost var rootgc: seq<Id>
    ghost var sweepgc: nat
    ghost var strt: seq<seq<Id>>

    // The state as a value.
    ghost function Snap(): G
      reads this
    {
      G(heap, next, mainthread, running, registry, mt, second, gcstate, gray, grayagain, rootgc, sweepgc, strt, nuse,
        sweepstrgc, uvhead)
    }

    ghost predicate Valid()
      reads this
    {
      Linked(link, roothead, rootgc, sweepat, sweepgc, hash, strt)
        && GrayLinked(gclist, grayhead, gray, againhead, grayagain)
    }

    // What the pointers into the lists are.
    lemma Ends()
      requires Valid()
      ensures |hash| == |strt| && grayhead == if gray == [] then Null else To(gray[0])
      ensures At(link, roothead, sweepat) == if sweepgc < |rootgc| then To(rootgc[sweepgc]) else Null
    {
      LinkedParts(link, roothead, rootgc, sweepat, sweepgc, hash, strt);
      GrayFirst(gclist, grayhead, gray, againhead, grayagain);
    }

    constructor ()
      ensures Valid() && Snap() == GcRun.NewState() && GcGray.Ready(Snap())
    {
      hide GcInvariant.Inv, GcGray.NoneBlack;
      heap := map[0 := Obj(Mark(true, false, false, true), Thread(Nil, [Nil], []))];
      next, mainthread, running := 1, 0, 0;
      registry, mt, second, gcstate := Nil, seq(9, _ => Nil), false, Pause;
      gray, grayagain, rootgc, sweepgc := [], [], [0], 0;
      link, roothead, sweepat, hash := map[0 := Null], To(0), Head, seq(GcStrings.MINSTRTABSIZE, _ => Null);
      strt, nuse, sweepstrgc, uvhead := GcStrings.EmptyTable(GcStrings.MINSTRTABSIZE), 0, 0, [];
      gclist, grayhead, againhead := map[], Null, Null;
      new;
      GcRun.NewStateInv();
      GcGray.NewNone();
    }

    // ----- marking ------------------------------------------------------------

    method SetMark(o: Id, m: Mark)
      requires o in heap
      modifies this`heap
      ensures Snap() == GcMark.SetMark(old(Snap()), o, m)
    {
      heap := heap[o := heap[o].(mark := m)];
    }

    method Whiten(o: Id)
      requires o in heap
      modifies this`heap
      ensures Snap() == GcSweep.Whiten(old(Snap()), o)
    {
      SetMark(o, MakeWhite(second, heap[o].mark));
    }

    // Puts an object at the head of the gray list.
    method ListGray(o: Id)
      requires Valid() && o !in gray && o !in grayagain
      modifies this`gclist, this`grayhead, this`gray
      ensures Valid() && Snap() == old(Snap()).(gray := [o] + old(gray))
    {
      hide Linked, GrayLinked;
      PushGray(gclist, grayhead, gray, againhead, grayagain, o);
      gclist, grayhead := gclist[o := grayhead], To(o);
      gray := [o] + gray;
    }

    // Puts an object on the list of those to be traversed again.
    method ListAgain(o: Id)
      requires Valid() && o !in gray && o !in grayagain
      modifies this`gclist, this`againhead, this`grayagain
      ensures Valid() && Snap() == old(Snap()).(grayagain := [o] + old(grayagain))
    {
      hide Linked, GrayLinked;
      PushGray(gclist, grayhead, gray, againhead, grayagain, o);
      gclist, againhead := gclist[o := againhead], To(o);
      grayagain := [o] + grayagain;
    }

    // Takes the first gray object off its list.
    method Take() returns (o: Id)
      requires Valid() && gray != []
      modifies this`grayhead, this`gray
      ensures Valid() && Snap() == old(Snap()).(gray := old(gray)[1..]) && o == old(gray)[0] && o !in gray
              && o !in grayagain
    {
      hide Linked, GrayLinked;
      TakeGray(gclist, grayhead, gray, againhead, grayagain);
      o := grayhead.o;
      grayhead := gclist[o];
      gray := gray[1..];
    }

    method ClearGray()
      requires Valid()
      modifies this`grayhead, this`gray, this`againhead, this`grayagain
      ensures Valid() && Snap() == old(Snap()).(gray := [], grayagain := [])
    {
      hide Linked, GrayLinked;
      NoGray(gclist);
      grayhead, againhead, gray, grayagain := Null, Null, [], [];
    }

    // The objects to be traversed again become the gray ones.
    method TurnAgain()
      requires Valid() && gray == []
      modifies this`grayhead, this`gray, this`againhead, this`grayagain
      ensures Valid() && Snap() == GcAtomic.GrayAgain(old(Snap()))
    {
      hide Linked, GrayLinked;
      TurnGray(gclist, grayhead, againhead, grayagain);
      grayhead, againhead := againhead, Null;
      gray, grayagain := grayagain, [];
    }

    // Marks a white object: it turns gray and is listed, or black at once.
    method ReallyMarkObject(o: Id)
      requires Valid() && GcGray.Coloured(Snap()) && o in heap && IsWhite(heap[o].mark) && GcMark.Typed(Snap())
      modifies this`heap, this`gclist, this`grayhead, this`gray
      ensures Valid() && GcGray.Coloured(Snap()) && Snap() == GcMark.MarkObject(old(Snap()), o)
      decreases Rank(heap[o].body), 0
    {
      hide GcMark.Typed, GcGray.Coloured, Linked, GrayLinked;
      ghost var g := Snap();
      GrayedTyped(g, o);
      GcGray.GrayedColoured(g, o);
      SetMark(o, ToGray(heap[o].mark));
      match heap[o].body {
        case Str(_) =>
        case Closed(v) =>
          MarkValue(v);
          MarkedClosed(g, o, v);
          SetMark(o, ToBlack(heap[o].mark));
        case Open(th, slot) =>
          if th in heap && heap[th].body.Thread? && slot < |heap[th].body.stack| {
            MarkValue(heap[th].body.stack[slot]);
          }
        case Node(kind, refs) =>
          if kind.UserData? {
            GcGray.BlackenedColoured(Snap(), o);
            SetMark(o, ToBlack(heap[o].mark));  // userdata are never gray
            MarkTables(refs);
          } else {
            ListGray(o);
          }
        case Thread(_, _, _) =>
          ListGray(o);
      }
    }

    // Marks the object a value refers to, if it is white.
    method MarkValue(v: Value)
      requires Valid() && GcGray.Coloured(Snap())
      requires (v.Ref? ==> v.id in heap && !IsUpval(heap[v.id].body)) && GcMark.Typed(Snap())
      modifies this`heap, this`gclist, this`grayhead, this`gray
      ensures Valid() && GcGray.Coloured(Snap()) && Snap() == GcMark.MarkValue(old(Snap()), v)
      decreases if v.Ref? then Rank(heap[v.id].body) else 0, 1
    {
      hide GcMark.Typed, GcGray.Coloured, Valid;
      if v.Ref? && IsWhite(heap[v.id].mark) { ReallyMarkObject(v.id); }
    }

    method MarkTables(refs: seq<Id>)
      requires Valid() && GcGray.Coloured(Snap())
      requires (forall r :: r in refs ==> r in heap && IsTable(heap[r].body)) && GcMark.Typed(Snap())
      modifies this`heap, this`gclist, this`grayhead, this`gray
      ensures Valid() && GcGray.Coloured(Snap()) && Snap() == GcMark.MarkSimples(old(Snap()), refs)
      decreases 0, 1
    {
      hide GcMark.Typed, GcMark.MarkObject, GcMark.MarkSimple, GcMark.MarkSimples, AreTables, GcGray.Coloured, Valid;
      ghost var g := Snap();
      var i := 0;
      AllSimples(g, refs);
      while i < |refs|
        invariant Valid() && GcGray.Coloured(Snap()) && 0 <= i <= |refs|
        invariant GcMark.MarkSimples(Snap(), refs[i..]) == GcMark.MarkSimples(g, refs)
        invariant GcMark.Typed(Snap()) && AreTables(Snap(), refs)
      {
        SimpleStep(Snap(), refs, i);
        if IsWhite(heap[refs[i]].mark) { ReallyMarkObject(refs[i]); }
        i := i + 1;
      }
      NoSimples(Snap(), refs);
    }

    // Marks the objects of a list, one after the other.
    method MarkIds(ids: seq<Id>)
      requires Valid() && GcGray.Coloured(Snap()) && (forall c :: c in ids ==> c in heap) && GcMark.Typed(Snap())
      modifies this`heap, this`gclist, this`grayhead, this`gray
      ensures Valid() && GcGray.Coloured(Snap()) && Snap() == GcMark.MarkAll(old(Snap()), ids)
    {
      hide GcMark.Typed, GcMark.MarkAll, GcMark.MarkObject, GcGray.Coloured, Valid;
      ghost var g := Snap();
      var i := 0;
      AllObjects(g, ids);
      while i < |ids|
        invariant Valid() && GcGray.Coloured(Snap()) && 0 <= i <= |ids|
        invariant GcMark.MarkAll(Snap(), ids[i..]) == GcMark.MarkAll(g, ids)
        invariant GcMark.Typed(Snap()) && (forall c :: c in ids ==> c in heap)
      {
        ObjectStep(Snap(), ids, i);
        if IsWhite(heap[ids[i]].mark) { ReallyMarkObject(ids[i]); }
        i := i + 1;
      }
      NoObjects(Snap(), ids);
    }

    // Traverses one gray object, turning it black; threads stay gray.
    method PropagateMark(ghost stage: GcMark.Stage)
      requires Valid() && gray != [] && GcMark.Tri(Snap(), {}, stage) && GcMark.Typed(Snap())
      modifies this`heap, this`gclist, this`grayhead, this`gray, this`againhead, this`grayagain
      ensures Valid() && Snap() == GcAtomic.PropagateMark(old(Snap()))
    {
      hide GcMark.Tri, GcMark.Typed, GcGray.Coloured, Linked, GrayLinked;
      ghost var g := Snap();
      TraversalOk(g, stage);
      var o := Take();
      var body := heap[o].body;
      match body {
        case Thread(globals, stack, _) =>
          ListAgain(o);
          MarkIds(GcMark.Flat([globals] + stack));
        case Node(_, refs) =>
          SetMark(o, ToBlack(heap[o].mark));
          MarkIds(refs);
      }
    }

    method PropagateAll(ghost stage: GcMark.Stage)
      requires Valid() && GcMark.Tri(Snap(), {}, stage) && GcMark.Typed(Snap())
      modifies this`heap, this`gclist, this`grayhead, this`gray, this`againhead, this`grayagain
      ensures Valid() && Snap() == GcAtomic.PropagateAll(old(Snap()))
    {
      hide GcMark.Tri, GcMark.Typed, GcAtomic.PropagateMark, Linked, GrayLinked;
      ghost var g := Snap();
      Ends();
      while grayhead != Null
        invariant Valid() && (grayhead == Null <==> gray == [])
        invariant GcMark.Tri(Snap(), {}, stage) && GcMark.Typed(Snap())
                  && GcAtomic.PropagateAll(Snap()) == GcAtomic.PropagateAll(g)
        decreases GcMark.Whites(Snap()), |gray|
      {
        ghost var g1 := Snap();
        GcAtomic.PropagateTri(g1, stage);
        GcMark.DarkerTyped(g1, GcAtomic.PropagateMark(g1));
        GcAtomic.PropagateShrinks(g1);
        PropagateMark(stage);
        Ends();
      }
    }

    // Marks again the values of marked upvalues whose threads may be dead.
    method RemarkUpvals()
      requires Valid() && GcMark.Tri(Snap(), {}, 0) && GcMark.Typed(Snap()) && forall u :: u in uvhead ==> u in heap
      modifies this`heap, this`gclist, this`grayhead, this`gray
      ensures Valid() && Snap() == GcAtomic.RemarkUpvals(old(Snap()), uvhead)
    {
      hide GcMark.Tri, GcMark.Typed, GcGray.Coloured, Valid;
      ghost var g := Snap();
      var i := 0;
      while i < |uvhead|
        invariant Valid() && 0 <= i <= |uvhead|
                  && GcAtomic.RemarkUpvals(Snap(), uvhead[i..]) == GcAtomic.RemarkUpvals(g, uvhead)
        invariant GcMark.Tri(Snap(), {}, 0) && GcMark.Typed(Snap()) && (forall u :: u in uvhead ==> u in heap)
      {
        var u := uvhead[i];
        ghost var g1 := Snap();
        assert uvhead[i..][1..] == uvhead[i + 1..];
        GcAtomic.RemarkTri(g1, u);
        GcMark.DarkerTyped(g1, GcAtomic.Remark(g1, u));
        GcGray.TriColoured(g1, {}, 0);
        if IsGray(heap[u].mark) && heap[u].body.Open? {
          GcAtomic.OpenValueTyped(g1, u);
          var th, slot := heap[u].body.thread, heap[u].body.slot;
          if th in heap && heap[th].body.Thread? && slot < |heap[th].body.stack| {
            MarkValue(heap[th].body.stack[slot]);
          }
        }
        i := i + 1;
      }
    }

    // Marks the values of upvalues that were missed, and all they lead to.
    method MarkMissed()
      requires Valid() && GcInvariant.Inv(Snap()) && gcstate.Propagate?
      modifies this`heap, this`gclist, this`grayhead, this`gray, this`againhead, this`grayagain
      ensures Valid() && Snap() == GcAtomic.PropagateAll(GcAtomic.RemarkUpvals(old(Snap()), uvhead))
      ensures GcMark.Tri(Snap(), {}, 1) && GcMark.Typed(Snap())
              && forall c :: c in [running] + GcMark.Flat(mt) ==> c in heap
    {
      hide GcInvariant.Inv, GcMark.Tri, GcMark.Typed, GcAtomic.PropagateAll, GcAtomic.RemarkUpvals, GcMark.Flat, Valid;
      ghost var g := Snap();
      BeforeRemark(g);
      RemarkUpvals();
      ghost var g0 := Snap();
      AfterRemark(g, g0);
      PropagateAll(1);
      AfterPropagate(g, g0, Snap());
    }

    // Marks once more all that was missed, with nothing in between.
    method FinalMarks()
      requires Valid() && GcInvariant.Inv(Snap()) && gcstate.Propagate?
      modifies this`heap, this`gclist, this`grayhead, this`gray, this`againhead, this`grayagain
      ensures Valid() && Snap() == GcAtomic.FinalMarks(old(Snap()))
    {
      hide GcInvariant.Inv, GcMark.Tri, GcMark.Typed, GcAtomic.PropagateAll, GcAtomic.RemarkUpvals, GcMark.MarkAll,
           GcMark.Flat, GcGray.Coloured, Valid;
      MarkMissed();
      ghost var g1 := Snap();
      GcGray.TriColoured(g1, {}, 1);
      MarkIds([running] + GcMark.Flat(mt));  // the running thread and the basic metatables
      ghost var m := Snap();
      AfterRoots(g1, m, [running] + GcMark.Flat(mt));
      PropagateAll(1);
      BeforeAgain(m, Snap());
      TurnAgain();
      PropagateAll(2);
    }

    // Ends the mark phase: what is still white is dead from here on.
    method Atomic()
      requires Valid() && GcInvariant.Inv(Snap()) && gcstate.Propagate?
      modifies this`heap, this`gclist, this`grayhead, this`gray, this`againhead, this`grayagain, this`second,
               this`sweepstrgc, this`sweepat, this`sweepgc, this`gcstate
      ensures Valid() && Snap() == GcAtomic.Atomic(old(Snap())) && GcInvariant.Inv(Snap())
    {
      hide GcInvariant.Inv, GcAtomic.FinalMarks, Linked, GrayLinked;
      GcStep.AtomicInv(Snap());
      FinalMarks();
      second := !second;
      StartSweep();
    }

    // The sweeper starts at the first chain and the first object.
    method StartSweep()
      requires Valid()
      modifies this`sweepstrgc, this`sweepat, this`sweepgc, this`gcstate
      ensures Valid() && Snap() == old(Snap()).(sweepstrgc := 0, sweepgc := 0, phase := SweepString)
    {
      hide Linked, GrayLinked;
      FirstRoot(link, roothead, rootgc, sweepat, sweepgc, hash, strt);
      sweepstrgc, sweepat, sweepgc, gcstate := 0, Head, 0, SweepString;
    }

    // Starts a collection.
    method MarkRoot()
      requires Valid() && GcInvariant.Inv(Snap()) && (gcstate.Pause? || gcstate.Finalize?)
      modifies this`heap, this`gclist, this`grayhead, this`gray, this`againhead, this`grayagain, this`gcstate
      ensures Valid() && Snap() == GcStep.MarkRoot(old(Snap())) && GcGray.Ready(Snap())
    {
      hide GcInvariant.Inv, GcGray.Ready, GcMark.Typed, GcMark.MarkAll, GcMark.Flat, GcGray.Coloured, Linked,
           GrayLinked;
      ghost var g := Snap();
      GcStep.MarkRootInv(g);
      GcGray.MarkRootReady(g);
      RootsMarkable(g);
      GcGray.StartColoured(g);
      ClearGray();
      var ids := [mainthread] + GcMark.Flat([heap[mainthread].body.globals]) + GcMark.Flat([registry])
          + GcMark.Flat(mt);
      MarkIds(ids);
      gcstate := Propagate;
    }

    // ----- barriers ---------------------------------------------------------------

    // Forward barrier: while marking the child is marked, otherwise the parent gives up
    // its colour.
    method BarrierF(o: Id, v: Id)
      requires Valid() && GcGray.BarrierFits(Snap(), o, v) && !IsTable(heap[o].body)
      requires gcstate.Propagate? ==> GcMark.Typed(Snap()) && GcGray.Coloured(Snap())
      modifies this`heap, this`gclist, this`grayhead, this`gray
      ensures Valid() && Snap() == GcSweep.BarrierF(old(Snap()), o, v)
    {
      hide Linked, GrayLinked, GcMark.Typed, GcGray.Coloured;
      if gcstate.Propagate? { ReallyMarkObject(v); } else { SetMark(o, MakeWhite(second, heap[o].mark)); }
    }

    // Back barrier: the table waits to be traversed again.
    method BarrierBack(t: Id)
      requires Valid() && t in heap && heap[t].mark.black && !HasDeadWhite(second, heap[t].mark)
               && !GcGray.Between(Snap())
      requires t !in gray && t !in grayagain
      modifies this`heap, this`gclist, this`againhead, this`grayagain
      ensures Valid() && Snap() == GcSweep.BarrierBack(old(Snap()), t)
    {
      hide Linked, GrayLinked;
      SetMark(t, BackToGray(heap[t].mark));
      ListAgain(t);
    }

    method Barrier(o: Id, v: Value)
      requires Valid() && o in heap && (v.Ref? ==> v.id in heap) && GcGray.MayBarrier(Snap(), o, v)
               && !IsTable(heap[o].body)
      requires gcstate.Propagate? ==> GcMark.Typed(Snap()) && GcGray.Coloured(Snap())
      modifies this`heap, this`gclist, this`grayhead, this`gray
      ensures Valid() && Snap() == GcSweep.Barrier(old(Snap()), o, v)
    {
      hide Valid, GcMark.Typed, GcGray.Coloured, GcSweep.BarrierF;
      if v.Ref? && IsWhite(heap[v.id].mark) && heap[o].mark.black { BarrierF(o, v.id); }
    }

    method BarrierT(t: Id, v: Value)
      requires Valid() && t in heap && (v.Ref? ==> v.id in heap) && GcGray.MayBarrier(Snap(), t, v)
               && GcGray.NoneBlack(Snap())
      modifies this`heap, this`gclist, this`againhead, this`grayagain
      ensures Valid() && Snap() == GcSweep.BarrierT(old(Snap()), t, v)
    {
      hide Valid, GcSweep.BarrierBack;
      if v.Ref? && IsWhite(heap[v.id].mark) && heap[t].mark.black { BarrierBack(t); }
    }

    // ----- upvalues -----------------------------------------------------------------

    method LinkFront(o: Id)
      requires Valid() && o !in rootgc && InNoBucket(strt, o)
      modifies this`link, this`roothead, this`rootgc, this`sweepgc
      ensures Valid() && Snap() == GcSweep.LinkFront(old(Snap()), o)
    {
      hide Linked, GrayLinked, InNoBucket;
      PushRoot(link, roothead, rootgc, sweepat, sweepgc, hash, strt, o);
      link, roothead := link[o := roothead], To(o);
      rootgc := [o] + rootgc;
      sweepgc := if sweepgc == 0 then 0 else sweepgc + 1;
    }

    // Links a closed upvalue, which may be in the middle of being marked or swept.
    method LinkUpval(u: Id)
      requires Valid() && u !in rootgc && InNoBucket(strt, u)
      requires u in heap && heap[u].body.Closed? && (IsGray(heap[u].mark) ==> !GcGray.Between(Snap()))
               && (heap[u].body.value.Ref? ==> heap[u].body.value.id in heap)
      requires gcstate.Propagate? ==> GcMark.Typed(Snap()) && GcGray.Coloured(Snap())
      modifies this`link, this`roothead, this`rootgc, this`sweepgc, this`heap, this`gclist, this`grayhead, this`gray
      ensures Valid() && Snap() == GcSweep.LinkUpval(old(Snap()), u)
    {
      ghost var g := Snap();
      LinkFront(u);
      if IsGray(heap[u].mark) {
        if gcstate.Propagate? {
          LinkedTyped(g, u);
          GcGray.BlackenedColoured(Snap(), u);
          GcGray.ColouredBarrier(GcMark.Blackened(Snap(), u), u, heap[u].body.value);
          var v := heap[u].body.value;
          SetMark(u, ToBlack(heap[u].mark));
          Barrier(u, v);
        } else {
          SetMark(u, MakeWhite(second, heap[u].mark));
        }
      }
    }

    // Takes the `i`th open upvalue of a thread off the lists of open upvalues.
    method UnlinkOpen(t: Id, i: nat)
      requires t in heap && heap[t].body.Thread? && i < |heap[t].body.openupval|
      modifies this`heap, this`uvhead
      ensures Snap() == GcSweep.UnlinkOpen(old(Snap()), t, i)
    {
      var us := heap[t].body.openupval;
      heap := heap[t := heap[t].(body := heap[t].body.(openupval := GcSweep.RemoveAt(us, i)))];
      uvhead := GcSweep.Without(uvhead, us[i]);
    }

    method FreeOpen(t: Id, i: nat)
      requires t in heap && heap[t].body.Thread? && i < |heap[t].body.openupval|
      modifies this`heap, this`uvhead
      ensures Snap() == GcSweep.FreeOpen(old(Snap()), t, i)
    {
      var u := heap[t].body.openupval[i];
      UnlinkOpen(t, i);
      heap := heap - {u};
    }

    // Closes the topmost open upvalue of a thread; a dead one is freed instead.
    method CloseTop(t: Id, ghost gone: set<Id>)
      requires Valid() && GcClose.MayClose(Snap(), gone) && GcGray.WhiteBetween(Snap()) && GcSweep.OpenAt(Snap(), t, 0)
      modifies this`heap, this`uvhead, this`link, this`roothead, this`rootgc, this`sweepgc, this`gclist, this`grayhead,
               this`gray
      ensures Valid() && Snap() == GcSweep.CloseTop(old(Snap()), t)
    {
      hide GcClose.MayClose, GcMark.Typed, GcSweep.FreeOpen, GcSweep.LinkUpval, Linked, GrayLinked, InNoBucket;
      CloseOk(Snap(), t, gone);
      OnNoList(Snap(), t, gone);
      GcGray.CloseTopBetween(Snap(), t);
      if HasDeadWhite(second, heap[heap[t].body.openupval[0]].mark) { FreeOpen(t, 0); } else { CloseLive(t); }
    }

    method CloseLive(t: Id)
      requires Valid() && GcSweep.OpenAt(Snap(), t, 0)
      requires var u := heap[t].body.openupval[0];
               && u !in rootgc && InNoBucket(strt, u)
               && (IsGray(heap[u].mark) ==> !GcGray.Between(Snap()))
               && heap[u].body.slot < |heap[t].body.stack| && ValueInHeap(Snap(), heap[t].body.stack[heap[u].body.slot])
      requires gcstate.Propagate? ==>
                 GcMark.Typed(GcSweep.ClosedTop(Snap(), t)) && GcGray.Coloured(GcSweep.ClosedTop(Snap(), t))
      modifies this`heap, this`uvhead, this`link, this`roothead, this`rootgc, this`sweepgc, this`gclist, this`grayhead,
               this`gray
      ensures Valid() && Snap() == GcSweep.LinkUpval(GcSweep.ClosedTop(old(Snap()), t), old(heap[t].body.openupval[0]))
    {
      hide GcMark.Typed, GcSweep.LinkUpval, Linked, GrayLinked, InNoBucket;
      ghost var g := Snap();
      var u := heap[t].body.openupval[0];
      var v := heap[t].body.stack[heap[u].body.slot];
      UnlinkOpen(t, 0);
      heap := heap[u := heap[u].(body := Closed(v))];  // now the value lives here
      assert Snap() == GcSweep.ClosedTop(g, t);
      LinkUpval(u);
    }

    // Closes the open upvalues of a thread down to a stack slot.
    method CloseUpvals(t: Id, level: nat, ghost gone: set<Id>)
      requires Valid() && GcClose.MayClose(Snap(), gone) && GcGray.WhiteBetween(Snap()) && t in heap
               && heap[t].body.Thread? && gone <= {t}
      modifies this`heap, this`uvhead, this`link, this`roothead, this`rootgc, this`sweepgc, this`gclist, this`grayhead,
               this`gray
      ensures Valid() && Snap() == GcSweep.CloseUpvals(old(Snap()), t, level)
      ensures GcKeeps.ClosedDown(old(Snap()), Snap(), t, level)
    {
      hide GcClose.MayClose, GcSweep.CloseTop, GcGray.WhiteBetween, GcSweep.CloseUpvals, Valid, InNoBucket,
           GcKeeps.ClosedDown;
      ghost var g := Snap();
      GcKeeps.CloseUpvalsCloses(g, t, level, gone);
      while heap[t].body.openupval != [] && level <= TopSlot(t)
        invariant Valid() && GcClose.MayClose(Snap(), gone) && GcGray.WhiteBetween(Snap()) && t in heap
                  && heap[t].body.Thread?
        invariant GcSweep.CloseUpvals(Snap(), t, level) == GcSweep.CloseUpvals(g, t, level)
        decreases |heap[t].body.openupval|
      {
        ghost var g1 := Snap();
        HasTop(g1, t, gone);
        GcClose.CloseTopKeeps(g1, t, gone);
        GcGray.CloseTopBetween(g1, t);
        GcSweep.CloseTopShorter(g1, t);
        CloseMore(g1, t, level);
        CloseTop(t, gone);
      }
      NoTop(Snap(), t, level, gone);
    }

    function TopSlot(t: Id): int
      reads this
    {
      if t in heap && heap[t].body.Thread? && heap[t].body.openupval != [] && heap[t].body.openupval[0] in heap
         && heap[heap[t].body.openupval[0]].body.Open?
      then heap[heap[t].body.openupval[0]].body.slot
      else -1
    }

    // ----- sweeping -------------------------------------------------------------------

    // Sweeps the open upvalues of a thread.
    method SweepOpen(t: Id, ghost gone: set<Id>)
      requires GcSweep.ShapeBut(Snap(), gone) && t in heap && heap[t].body.Thread?
      modifies this`heap, this`uvhead
      ensures Snap() == GcSweep.SweepOpenFrom(old(Snap()), t, 0)
    {
      hide GcSweep.ShapeBut, GcSweep.OpenClean, GcSweep.FreeOpen, GcSweep.Whiten;
      ghost var g := Snap();
      var i := 0;
      CleanStart(g, t);
      while i < |heap[t].body.openupval|
        invariant GcSweep.ShapeBut(Snap(), gone) && t in heap && heap[t].body.Thread? && GcSweep.OpenClean(Snap(), t, i)
                  && 0 <= i
        invariant GcSweep.SweepOpenFrom(Snap(), t, i) == GcSweep.SweepOpenFrom(g, t, 0)
        decreases |heap[t].body.openupval| - i
      {
        ghost var g1 := Snap();
        OpenStep(g1, t, i, gone);
        var u := heap[t].body.openupval[i];
        if Survives(second, heap[u].mark) {
          Whiten(u);
          i := i + 1;
        } else {
          FreeOpen(t, i);
        }
      }
      OpenDone(Snap(), t, i);
    }

    method FreeObject(o: Id)
      requires Valid() && GcClose.MayClose(Snap(), {o}) && GcGray.WhiteBetween(Snap()) && o in heap
      modifies this`heap, this`uvhead, this`link, this`roothead, this`rootgc, this`sweepgc, this`gclist, this`grayhead,
               this`gray
      ensures Valid() && Snap() == GcSweep.FreeObject(old(Snap()), o)
    {
      hide GcClose.MayClose, GcGray.WhiteBetween, GcSweep.CloseUpvals, Linked, GrayLinked, InNoBucket;
      if heap[o].body.Thread? { CloseUpvals(o, 0, {o}); }
      heap := heap - {o};
    }

    // Sweeps up to `count` objects of the list of all objects.
    method SweepList(count: nat)
      requires Valid() && Shape(Snap()) && NoDangling(Snap()) && GcSweepAll.RootsClean(Snap()) && gcstate.Sweep?
      modifies this`heap, this`uvhead, this`link, this`roothead, this`rootgc, this`sweepat, this`sweepgc, this`gclist,
               this`grayhead, this`gray
      ensures Valid() && Snap() == GcSweep.SweepMany(old(Snap()), count)
    {
      hide Shape, NoDangling, GcSweepAll.RootsClean, GcSweep.SweepNext, GcSweep.SweepMany, Valid, At;
      ghost var g := Snap();
      var left := count;
      Ends();
      while left > 0 && At(link, roothead, sweepat) != Null
        invariant Valid() && At(link, roothead, sweepat) == if sweepgc < |rootgc| then To(rootgc[sweepgc]) else Null
        invariant Shape(Snap()) && NoDangling(Snap()) && GcSweepAll.RootsClean(Snap()) && gcstate.Sweep?
        invariant 0 <= left && GcSweep.SweepMany(Snap(), left) == GcSweep.SweepMany(g, count)
      {
        SweepMore(Snap(), left);
        SweepNext();
        Ends();
        left := left - 1;
      }
      SweepDone(Snap(), left);
    }

    method SweepNext()
      requires Valid() && Shape(Snap()) && NoDangling(Snap()) && GcSweepAll.RootsClean(Snap()) && gcstate.Sweep?
               && sweepgc < |rootgc|
      requires rootgc[sweepgc] in heap
      modifies this`heap, this`uvhead, this`link, this`roothead, this`rootgc, this`sweepat, this`sweepgc, this`gclist,
               this`grayhead, this`gray
      ensures Valid() && Snap() == GcSweep.SweepNext(old(Snap()))
    {
      hide Shape, NoDangling, GcSweepAll.RootsClean, GcSweep.SweepOpenFrom, GcSweep.SweepThis, GcSweep.ShapeBut,
           GcClose.MayClose, Linked, GrayLinked, At;
      ghost var g := Snap();
      NextOk(g);
      Ends();
      var curr := At(link, roothead, sweepat).o;
      if heap[curr].body.Thread? { SweepOpen(curr, {}); }
      SweepThis(curr);
    }

    method SweepThis(curr: Id)
      requires Valid() && gcstate.Sweep? && curr in heap && sweepgc < |rootgc| && curr == rootgc[sweepgc]
      requires !Survives(second, heap[curr].mark) ==>
                 GcClose.MayClose(Snap().(rootgc := GcSweep.RemoveAt(rootgc, sweepgc)), {curr})
      modifies this`heap, this`uvhead, this`link, this`roothead, this`rootgc, this`sweepat, this`sweepgc, this`gclist,
               this`grayhead, this`gray
      ensures Valid() && Snap() == GcSweep.SweepThis(old(Snap()), curr)
    {
      hide GcSweep.FreeObject, GcSweep.Whiten, GcClose.MayClose, Linked, GrayLinked;
      NextRoot(link, roothead, rootgc, sweepat, sweepgc, hash, strt);
      if Survives(second, heap[curr].mark) {
        Whiten(curr);  // for the next cycle
        sweepat := Behind(curr);
        sweepgc := sweepgc + 1;
      } else {
        UnlinkRoot(curr);
        FreeObject(curr);
      }
    }

    method UnlinkRoot(curr: Id)
      requires Valid() && sweepgc < |rootgc| && curr == rootgc[sweepgc]
      modifies this`link, this`roothead, this`rootgc
      ensures Valid() && Snap() == old(Snap()).(rootgc := GcSweep.RemoveAt(old(rootgc), sweepgc))
    {
      hide Linked, GrayLinked;
      RemoveRoot(link, roothead, rootgc, sweepat, sweepgc, hash, strt);
      var after := link[curr];
      roothead := PutHead(roothead, sweepat, after);
      link := PutLink(link, sweepat, after);
      rootgc := GcSweep.RemoveAt(rootgc, sweepgc);
    }

    // Sweeps a bucket of the string table.
    method SweepBucket(b: nat)
      requires Valid() && Shape(Snap()) && NoDangling(Snap()) && b < |strt|
      modifies this`heap, this`link, this`hash, this`strt, this`nuse
      ensures Valid() && Snap() == GcSweep.SweepBucketFrom(old(Snap()), b, 0)
    {
      hide Shape, NoDangling, GcSweep.FreeString, GcSweep.Whiten, GcSweepAll.BucketClean, Linked, PlaceOf, At,
           GcSweep.RemoveAt;
      ghost var g := Snap();
      var at := Head;
      ghost var i := 0;
      GcStep.NothingYet(g, b);
      FirstPlace(strt[b]);
      AtString(link, roothead, rootgc, sweepat, sweepgc, hash, strt, b, i);
      while At(link, hash[b], at) != Null
        invariant Valid() && Shape(Snap()) && NoDangling(Snap()) && b < |strt| == |hash|
                  && GcSweepAll.BucketClean(Snap(), b, i)
        invariant 0 <= i <= |strt[b]| && at == PlaceOf(strt[b], i)
        invariant At(link, hash[b], at) == if i < |strt[b]| then To(strt[b][i]) else Null
        invariant GcSweep.SweepBucketFrom(Snap(), b, i) == GcSweep.SweepBucketFrom(g, b, 0)
        decreases |strt[b]| - i
      {
        StringOk(Snap(), b, i);
        AtString(link, roothead, rootgc, sweepat, sweepgc, hash, strt, b, i);
        var o := At(link, hash[b], at).o;
        if Survives(second, heap[o].mark) {
          Whiten(o);
          at := Behind(o);
          i := i + 1;
        } else {
          FreeString(b, at, i);
        }
        AtString(link, roothead, rootgc, sweepat, sweepgc, hash, strt, b, i);
      }
    }

    method FreeString(b: nat, at: Place, ghost i: nat)
      requires Valid() && b < |strt| && i < |strt[b]| && at == PlaceOf(strt[b], i)
      modifies this`heap, this`link, this`hash, this`strt, this`nuse
      ensures Valid() && Snap() == GcSweep.FreeString(old(Snap()), b, i)
      ensures b < |strt| && i <= |strt[b]| && at == PlaceOf(strt[b], i)
    {
      hide Linked, PlaceOf, At, GcSweep.RemoveAt;
      AtString(link, roothead, rootgc, sweepat, sweepgc, hash, strt, b, i);
      var o := At(link, hash[b], at).o;
      UnlinkAt(b, at, o, i);
      heap := heap - {o};
      nuse := if nuse > 0 then nuse - 1 else 0;
    }

    method UnlinkAt(b: nat, at: Place, o: Id, ghost i: nat)
      requires Valid() && b < |strt| && i < |strt[b]| && at == PlaceOf(strt[b], i) && o == strt[b][i]
      modifies this`link, this`hash, this`strt
      ensures Valid() && Snap() == old(Snap()).(strt := old(strt)[b := GcSweep.RemoveAt(old(strt[b]), i)])
      ensures b < |strt| && i <= |strt[b]| && at == PlaceOf(strt[b], i)
    {
      hide Linked, PutHead, PutLink;
      Ends();
      UnlinkString(link, roothead, rootgc, sweepat, sweepgc, hash, strt, b, i);
      var after := link[o];
      hash := hash[b := PutHead(hash[b], at, after)];
      link := PutLink(link, at, after);
      strt := strt[b := GcSweep.RemoveAt(strt[b], i)];
    }

    // ----- the string table ----------------------------------------------------------------

    method Resize(newsize: nat)
      requires Valid() && newsize > 0 && StringsOk(Snap())
      modifies this`link, this`hash, this`strt
      ensures Valid() && Snap() == GcStrings.Resize(old(Snap()), newsize)
    {
      hide StringsOk, GcStrings.RehashFrom, GcStrings.RehashList, Moving, Waiting, RootsLinked, TableLinked;
      ghost var g := Snap();
      if gcstate.SweepString? { return; }  // cannot resize while it is being swept
      TableSize(link, hash, strt);
      var newhash := seq(newsize, _ => Null);
      ghost var table := GcStrings.EmptyTable(newsize);
      StartMoving(link, roothead, rootgc, sweepat, sweepgc, hash, strt, newhash, table);
      var i := 0;
      while i < |hash|
        invariant 0 <= i <= |hash| == |strt| && |table| == |newhash| == newsize && Snap() == g && hash == old(hash)
        invariant Moving(link, roothead, rootgc, sweepat, sweepgc, strt, i, 0, newhash, table)
                  && Waiting(link, hash, strt, i)
        invariant GcStrings.RehashFrom(g, i, table) == GcStrings.RehashFrom(g, 0, GcStrings.EmptyTable(newsize))
      {
        BucketStrings(g, i);
        RehashNext(g, i, table);
        newhash, table := Rehash(i, newhash, table);
        i := i + 1;
      }
      RehashDone(g, table);
      AllMoved(link, roothead, rootgc, sweepat, sweepgc, strt, newhash, table);
      hash, strt := newhash, table;
    }

    // Moves the strings of an old bucket to the new table.
    method Rehash(i: nat, hash0: seq<Ptr>, ghost table0: seq<seq<Id>>)
      returns (newhash: seq<Ptr>, ghost table: seq<seq<Id>>)
      requires i < |hash| == |strt| && |hash0| == |table0| > 0
               && forall o :: o in strt[i] ==> o in heap && heap[o].body.Str?
      requires Moving(link, roothead, rootgc, sweepat, sweepgc, strt, i, 0, hash0, table0)
               && Waiting(link, hash, strt, i)
      modifies this`link
      ensures Moving(link, roothead, rootgc, sweepat, sweepgc, strt, i + 1, 0, newhash, table)
              && Waiting(link, hash, strt, i + 1)
      ensures table == GcStrings.RehashList(Snap(), strt[i], table0) && |newhash| == |table| == |table0|
    {
      hide Moving, Waiting, Chain, Bucket, GcStrings.RehashList;
      newhash, table := hash0, table0;
      FirstWaiting(link, hash, strt, i);
      var p := hash[i];
      ghost var k := 0;
      ghost var list := strt[i];
      while p != Null
        invariant 0 <= k <= |list| && |newhash| == |table| == |table0| && p == if k < |list| then To(list[k]) else Null
        invariant Chain(link, p, list[k..]) && Waiting(link, hash, strt, i + 1)
        invariant Moving(link, roothead, rootgc, sweepat, sweepgc, strt, i, k, newhash, table)
        invariant GcStrings.RehashList(Snap(), list[k..], table) == GcStrings.RehashList(Snap(), list, table0)
        decreases |list| - k
      {
        var o := p.o;
        RehashOne(Snap(), list, k, table);
        var h1 := Bucket(heap[o].body.text, |newhash|);  // its chain in the new table
        MoveOne(link, roothead, rootgc, sweepat, sweepgc, hash, strt, i, k, p, newhash, table, h1);
        p := link[o];
        link := link[o := newhash[h1]];
        newhash := newhash[h1 := To(o)];
        table := table[h1 := [o] + table[h1]];
        k := k + 1;
        ChainHead(link, p, list, k);
      }
      RehashNone(Snap(), list[k..], table);
      NextBucket(link, roothead, rootgc, sweepat, sweepgc, strt, i, newhash, table);
    }

    // The string with the given text: the one in the table, brought back if it was dead,
    // or a new one.
    method InternString(text: Text) returns (o: Id)
      requires Valid() && GcGray.Ready(Snap())
      modifies this`heap, this`next, this`link, this`hash, this`strt, this`nuse
      ensures old(strt) != [] && (Snap(), o) == GcStrings.InternString(old(Snap()), text)
      ensures Valid() && GcGray.Ready(Snap()) && Live(Snap(), o) && heap[o].body == Str(text)
    {
      hide GcInvariant.Inv, GcGray.Ready, GcStrings.NewString, GcStrings.Resurrect, GcStrings.FindText, Linked,
           GrayLinked, InNoBucket;
      ghost var g := Snap();
      GcGray.InternReady(g, text);
      GcStrings.InternInv(g, text);
      InternedTable(g, text);
      Ends();
      var b := Bucket(text, |hash|);
      var p;
      ghost var i;
      p, i := FindString(b, text);
      if p != Null {
        o := p.o;
        Resurrect(o);  // a string found dead lives on
      } else {
        o := next;
        NewOnNoList(g);
        NewString(text);
      }
    }

    // Where a text is found in a bucket, or its end.
    method FindString(b: nat, text: Text) returns (p: Ptr, ghost i: nat)
      requires Valid() && b < |strt| == |hash| && forall o :: o in strt[b] ==> o in heap
      ensures i == GcStrings.FindText(Snap(), strt[b], text)
      ensures i <= |strt[b]| && p == if i < |strt[b]| then To(strt[b][i]) else Null
    {
      hide Linked, PlaceOf;
      p, i := hash[b], 0;
      ghost var bucket := strt[b];
      FirstPlace(bucket);
      AtString(link, roothead, rootgc, sweepat, sweepgc, hash, strt, b, 0);
      while p != Null && heap[p.o].body != Str(text)
        invariant 0 <= i <= |bucket| && p == if i < |bucket| then To(bucket[i]) else Null
        invariant i + GcStrings.FindText(Snap(), bucket[i..], text) == GcStrings.FindText(Snap(), bucket, text)
        decreases |bucket| - i
      {
        assert bucket[i] in bucket && bucket[i..][0] == bucket[i] && bucket[i..][1..] == bucket[i + 1..];
        AtString(link, roothead, rootgc, sweepat, sweepgc, hash, strt, b, i);
        AtString(link, roothead, rootgc, sweepat, sweepgc, hash, strt, b, i + 1);
        p := link[p.o];
        i := i + 1;
      }
      if i < |bucket| { assert bucket[i..][0] == bucket[i] && bucket[i] in bucket; }
    }

    method Resurrect(o: Id)
      requires o in heap
      modifies this`heap
      ensures Snap() == GcStrings.Resurrect(old(Snap()), o)
    {
      if HasDeadWhite(second, heap[o].mark) { SetMark(o, ChangeWhite(heap[o].mark)); }
    }

    method NewString(text: Text)
      requires Valid() && 0 < |strt| && next !in rootgc && InNoBucket(strt, next)
               && StringsOk(GcStrings.ChainNew(Snap(), text))
      modifies this`heap, this`next, this`link, this`hash, this`strt, this`nuse
      ensures Valid() && Snap() == GcStrings.NewString(old(Snap()), text)
    {
      hide StringsOk, GcStrings.Resize, Bucket, Linked, GrayLinked, InNoBucket;
      Ends();
      ghost var g := Snap();
      LinkInChain(Bucket(text, |hash|), next);
      heap := heap[next := Obj(Mark(!second, second, false, false), Str(text))];
      next, nuse := next + 1, nuse + 1;
      assert Snap() == GcStrings.ChainNew(g, text) && |hash| == |strt| by {
        Ends();
      }
      if nuse > |hash| && |hash| <= GcStrings.MAX_INT / 2 { Resize(|hash| * 2); }  // more strings than chains
    }

    // Puts a string at the head of a chain.
    method LinkInChain(b: nat, o: Id)
      requires Valid() && b < |strt| && o !in rootgc && InNoBucket(strt, o)
      modifies this`link, this`hash, this`strt
      ensures Valid() && Snap() == old(Snap()).(strt := old(strt)[b := [o] + old(strt)[b]])
    {
      hide Linked, GrayLinked, InNoBucket;
      Ends();
      LinkString(link, roothead, rootgc, sweepat, sweepgc, hash, strt, b, o);
      link, hash := link[o := hash[b]], hash[b := To(o)];
      strt := strt[b := [o] + strt[b]];
    }

    // ----- captured variables ------------------------------------------------------------------

    // The open upvalue of a stack slot: the list is sorted from the stack's top down.
    method FindUpval(t: Id, level: nat) returns (u: Id)
      requires Valid() && GcGray.Ready(Snap()) && t in heap && heap[t].body.Thread? && Live(Snap(), t)
               && level < |heap[t].body.stack|
      modifies this`heap, this`next, this`uvhead
      ensures old(next) !in old(heap) && (Snap(), u) == GcUpvals.FindUpval(old(Snap()), t, level)
      ensures Valid() && GcGray.Ready(Snap()) && Live(Snap(), u) && heap[u].body == Open(t, level)
    {
      hide GcInvariant.Inv, GcGray.Ready, GcUpvals.NewOpen, GcStrings.Resurrect, GcUpvals.OpenPos, Linked, GrayLinked;
      ghost var g := Snap();
      GcGray.FindUpvalReady(g, t, level);
      GcUpvals.FindUpvalInv(g, t, level);
      OpenListInHeap(g, t);
      var us := heap[t].body.openupval;
      var i := FindSlot(us, level);
      if i < |us| && heap[us[i]].body.slot == level {
        u := us[i];
        Resurrect(u);  // one found dead lives on
      } else {
        u := next;
        NewOpen(t, level, i);
      }
    }

    method FindSlot(us: seq<Id>, level: nat) returns (i: nat)
      requires forall k :: 0 <= k < |us| ==> us[k] in heap && heap[us[k]].body.Open?
      ensures i == GcUpvals.OpenPos(Snap(), us, level)
    {
      i := 0;
      while i < |us| && heap[us[i]].body.slot > level
        invariant 0 <= i <= |us| && i + GcUpvals.OpenPos(Snap(), us[i..], level) == GcUpvals.OpenPos(Snap(), us, level)
      {
        assert us[i..][0] == us[i] && us[i..][1..] == us[i + 1..];
        i := i + 1;
      }
      if i < |us| { assert us[i..][0] == us[i]; }
    }

    method NewOpen(t: Id, level: nat, i: nat)
      requires t in heap && heap[t].body.Thread? && next !in heap
               && i == GcUpvals.OpenPos(Snap(), heap[t].body.openupval, level)
      modifies this`heap, this`next, this`uvhead
      ensures Snap() == GcUpvals.NewOpen(old(Snap()), t, level)
    {
      var us := heap[t].body.openupval;
      heap := heap[next := Obj(Mark(!second, second, false, false), Open(t, level))];
      heap := heap[t := heap[t].(body := heap[t].body.(openupval := us[..i] + [next] + us[i..]))];
      uvhead := [next] + uvhead;
      next := next + 1;
    }

    // Closes the upvalues of the running thread down to a stack slot.
    method Close(level: nat)
      requires Valid() && GcGray.Ready(Snap())
      modifies this`heap, this`uvhead, this`link, this`roothead, this`rootgc, this`sweepgc, this`gclist, this`grayhead,
               this`gray
      ensures Valid() && Snap() == GcSweep.CloseUpvals(old(Snap()), running, level) && GcGray.Ready(Snap())
      ensures GcKeeps.ClosedDown(old(Snap()), Snap(), running, level)
    {
      hide GcKeeps.ClosedDown, GcInvariant.Inv, GcGray.Ready, GcClose.MayClose, GcSweep.CloseUpvals, Linked, GrayLinked,
           InNoBucket;
      GcGray.CloseReady(Snap(), level);
      GcRun.RunningThread(Snap());
      InvMayClose(Snap());
      GcGray.InvBetween(Snap());
      CloseUpvals(running, level, {});
    }

    // ----- new objects and stores ----------------------------------------------------------------

    // A new object in the current white; userdata go behind the main thread.
    method Link(b: Body) returns (o: Id)
      requires Valid() && GcGray.Ready(Snap()) && GcAlloc.Fresh(b)
      requires forall c :: c in BodyChildren(Snap(), b) ==> Live(Snap(), c) && Suits(b, heap[c].body)
      modifies this`heap, this`next, this`link, this`roothead, this`rootgc, this`sweepgc
      ensures Valid() && o == old(next) && Snap() == GcAlloc.NewObject(old(Snap()), b) && GcGray.Ready(Snap())
    {
      hide GcInvariant.Inv, GcGray.Ready, GcAlloc.NewObject, BodyChildren, Live, Suits, Linked, GrayLinked, InNoBucket;
      GcGray.NewObjectReady(Snap(), b);
      NewOnNoList(Snap());
      o := LinkNew(b);
    }

    method LinkNew(b: Body) returns (o: Id)
      requires Valid() && next !in rootgc && InNoBucket(strt, next) && mainthread in rootgc
      modifies this`heap, this`next, this`link, this`roothead, this`rootgc, this`sweepgc
      ensures Valid() && o == old(next) && Snap() == GcAlloc.NewObject(old(Snap()), b)
    {
      hide GcAlloc.IndexOf, IsUserData, GcAlloc.NewObject, GcAlloc.LinkAfter, GcAlloc.Allocated, GcSweep.LinkFront,
           Linked, GrayLinked, InNoBucket;
      ghost var g := Snap();
      o := Allocate(b);
      NewObjectIs(g, b);
      if IsUserData(b) {
        MainIndex(rootgc, mainthread);
        LinkBehind(mainthread, o, GcAlloc.IndexOf(rootgc, mainthread));
      } else {
        LinkFront(o);
      }
    }

    method Allocate(b: Body) returns (o: Id)
      modifies this`heap, this`next
      ensures o == old(next) && Snap() == GcAlloc.Allocated(old(Snap()), b)
    {
      o := next;
      heap := heap[o := Obj(Mark(!second, second, false, false), b)];
      next := next + 1;
    }

    // Links an object behind another one.
    method LinkBehind(p: Id, o: Id, ghost i: nat)
      requires Valid() && i < |rootgc| && p == rootgc[i] && o !in rootgc && InNoBucket(strt, o)
      modifies this`link, this`rootgc, this`sweepgc
      ensures Valid() && Snap() == GcAlloc.LinkAfter(old(Snap()), o, i + 1)
    {
      hide Linked, GrayLinked, InNoBucket;
      InsertRoot(link, roothead, rootgc, sweepat, sweepgc, hash, strt, i, o);
      link := link[o := link[p]][p := To(o)];
      rootgc := rootgc[..i + 1] + [o] + rootgc[i + 1..];
      sweepgc := if sweepgc <= i + 1 then sweepgc else sweepgc + 1;
    }

    // Stores `v` in an object that refers to `refs` from then on, with the barrier its
    // kind needs.
    method Store(o: Id, refs: seq<Id>, v: Value)
      requires Valid() && GcGray.Ready(Snap()) && Live(Snap(), o) && heap[o].body.Node?
      requires v.Ref? ==> Live(Snap(), v.id) && Suits(heap[o].body, heap[v.id].body)
      requires forall r :: r in refs ==> r in heap[o].body.refs || v == Ref(r)
      modifies this`heap, this`gclist, this`grayhead, this`gray, this`againhead, this`grayagain
      ensures Valid() && Snap() == GcMutator.WriteNode(old(Snap()), o, refs, v) && GcGray.Ready(Snap())
    {
      hide GcInvariant.Inv, GcGray.Coloured, GcMark.Typed, Linked, GrayLinked;
      ghost var g := Snap();
      GcGray.WriteNodeReady(g, o, refs, v);
      StoreTyped(g, o, refs, v);
      var kind := heap[o].body.kind;
      heap := heap[o := heap[o].(body := Node(kind, refs))];
      GcGray.StoreBarrier(g, o, refs, v);
      if kind.Table? { BarrierT(o, v); } else { Barrier(o, v); }
    }

    // ----- steps -------------------------------------------------------------------------------------

    // One step of the collector.
    method SingleStep()
      requires Valid() && GcGray.Ready(Snap())
      modifies this`heap, this`gclist, this`grayhead, this`gray, this`againhead, this`grayagain, this`second,
               this`gcstate, this`sweepstrgc, this`sweepat, this`sweepgc, this`link, this`roothead, this`rootgc,
               this`uvhead, this`hash, this`strt, this`nuse
      ensures Valid() && Snap() == GcStep.SingleStep(old(Snap())) && GcGray.Ready(Snap())
      ensures GcKeeps.Collects(old(Snap()), Snap())
    {
      hide GcInvariant.Inv, GcGray.Ready, GcStep.MarkRoot, GcAtomic.Atomic, GcAtomic.PropagateMark,
           GcStep.SweepBucketStep, GcStep.SweepRootStep, Linked, GrayLinked, GcKeeps.Collects;
      ghost var g := Snap();
      GcGray.SingleStepReady(g);
      GcKeeps.SingleStepCollects(g);
      match gcstate {
        case Pause => MarkRoot();
        case Propagate =>
          Ends();
          if grayhead != Null {
            BeforeRemark(g);
            PropagateMark(0);
          } else {
            Atomic();
          }
        case SweepString => SweepStringStep();
        case Sweep => SweepRootStep();
        case Finalize => gcstate := Pause;
      }
    }

    method SweepStringStep()
      requires Valid() && GcInvariant.Inv(Snap()) && gcstate.SweepString?
      modifies this`heap, this`link, this`hash, this`strt, this`nuse, this`sweepstrgc, this`gcstate
      ensures Valid() && Snap() == GcStep.SweepBucketStep(old(Snap()))
    {
      hide GcInvariant.Inv, GcSweep.SweepBucketFrom, Shape, NoDangling, StringsOk, GcSweepAll.RootsClean, Linked,
           GrayLinked;
      InvParts(Snap());
      SweepBucket(sweepstrgc);
      Ends();
      sweepstrgc := sweepstrgc + 1;
      if sweepstrgc >= |hash| { gcstate := Sweep; }
    }

    method SweepRootStep()
      requires Valid() && GcInvariant.Inv(Snap()) && gcstate.Sweep?
      modifies this`heap, this`uvhead, this`link, this`roothead, this`rootgc, this`sweepat, this`sweepgc,
               this`gclist, this`grayhead, this`gray, this`hash, this`strt, this`gcstate
      ensures Valid() && Snap() == GcStep.SweepRootStep(old(Snap()))
    {
      hide GcInvariant.Inv, GcSweep.SweepMany, Shape, NoDangling, GcSweepAll.RootsClean, GcStep.CheckSizes, StringsOk,
           Linked, GrayLinked;
      SweepManyParts(Snap());
      SweepList(GcStep.GCSWEEPMAX);
      Ends();
      if At(link, roothead, sweepat) == Null {
        CheckSizes();
        gcstate := Finalize;
      }
    }

    method CheckSizes()
      requires Valid() && StringsOk(Snap())
      modifies this`link, this`hash, this`strt
      ensures Valid() && Snap() == GcStep.CheckSizes(old(Snap()))
    {
      hide GcStrings.Resize, Linked, GrayLinked;
      Ends();
      if nuse < |hash| / 4 && |hash| > GcStrings.MINSTRTABSIZE * 2 { Resize(|hash| / 2); }  // mostly empty
    }

    // A full collection: a pending sweep is finished or an idle one made, then a whole
    // cycle is run.
    method FullGc()
      requires Valid() && GcGray.Ready(Snap())
      modifies this
      ensures Valid() && Snap() == GcFull.FullGc(old(Snap())) && GcGray.Ready(Snap()) && gcstate.Pause?
      ensures GcKeeps.Collects(old(Snap()), Snap())
      ensures forall o :: o in heap <==> o in old(heap) && (Reachable(old(Snap()), o) || Fixed(old(Snap()), o))
    {
      hide GcInvariant.Inv, GcFull.BeforeMark, GcFull.RunUntil, GcStep.MarkRoot, Valid, GcKeeps.Collects, Reachable;
      GcFull.FullGcExact(Snap());
      BeforeMark();
      MarkRoot();
      RunUntil(Pause);
    }

    // Finishes a pending sweep, or sweeps everything back to the current white.
    method BeforeMark()
      requires Valid() && GcGray.Ready(Snap())
      modifies this`heap, this`gclist, this`grayhead, this`gray, this`againhead, this`grayagain, this`second,
               this`gcstate, this`sweepstrgc, this`sweepat, this`sweepgc, this`link, this`roothead, this`rootgc,
               this`uvhead, this`hash, this`strt, this`nuse
      ensures Valid() && Snap() == GcFull.BeforeMark(old(Snap())) && GcGray.Ready(Snap()) && gcstate.Finalize?
    {
      hide GcInvariant.Inv, GcFull.RunUntil, Valid;
      ghost var g := Snap();
      if gcstate.Pause? || gcstate.Propagate? {
        GcStep.ResetSweepInv(g);
        ClearGray();
        StartSweep();
      }
      RunUntil(Finalize);
    }

    method RunUntil(stop: Phase)
      requires Valid() && GcGray.Ready(Snap()) && (stop.Pause? || (stop.Finalize? && !gcstate.Pause?))
      modifies this`heap, this`gclist, this`grayhead, this`gray, this`againhead, this`grayagain, this`second,
               this`gcstate, this`sweepstrgc, this`sweepat, this`sweepgc, this`link, this`roothead, this`rootgc,
               this`uvhead, this`hash, this`strt, this`nuse
      ensures Valid() && Snap() == GcFull.RunUntil(old(Snap()), stop) && GcGray.Ready(Snap()) && gcstate == stop
    {
      hide GcInvariant.Inv, GcStep.SingleStep, Valid;
      ghost var g := Snap();
      while gcstate != stop
        invariant Valid() && GcGray.Ready(Snap()) && (stop.Pause? || (stop.Finalize? && !gcstate.Pause?))
        invariant GcFull.RunUntil(Snap(), stop) == GcFull.RunUntil(g, stop)
        decreases GcFull.PhaseRank(gcstate), GcFull.WhitesLeft(Snap()), GcFull.StepsLeft(Snap())
      {
        ghost var g1 := Snap();
        GcGray.SingleStepReady(g1);
        GcFull.StepProgress(g1);
        GcFull.StepsLeftBound(g1);
        if stop.Finalize? { GcFull.BeforeStop(g1); }
        SingleStep();
      }
    }
  }

  // Upvalues refer to other objects, userdata to tables; marking goes no deeper.
  function Rank(b: Body): nat { if IsUpval(b) then 2 else if IsUserData(b) then 1 else 0 }

  lemma GrayedTyped(g: G, o: Id)
    requires White(g, o) && GcMark.Typed(g)
    ensures var g1 := GcMark.Grayed(g, o);
            && GcMark.Typed(g1) && g1.heap.Keys == g.heap.Keys
            && (forall p :: p in g.heap ==> g1.heap[p].body == g.heap[p].body)
            && (forall c :: c in Children(g, o) ==> c in g.heap && Suits(g.heap[o].body, g.heap[c].body))
            && (g.heap[o].body.Node? ==> GcMark.Typed(GcMark.Blackened(g1, o)))
  {
    var g1 := GcMark.Grayed(g, o);
    GcMark.RecolourDarker(g, o);
    GcMark.DarkerTyped(g, g1);
    assert GcMark.TypedAt(g, o);
    GcMark.RecolourDarker(g1, o);
    if g.heap[o].body.Node? { GcMark.DarkerTyped(g1, GcMark.Blackened(g1, o)); }
  }

  // A closed upvalue whose value has been marked is still gray.
  lemma MarkedClosed(g: G, u: Id, v: Value)
    requires White(g, u) && g.heap[u].body == Closed(v) && GcGray.Coloured(GcMark.MarkValue(GcMark.Grayed(g, u), v))
    ensures var g1 := GcMark.MarkValue(GcMark.Grayed(g, u), v); u in g1.heap && GcGray.Coloured(GcMark.Blackened(g1, u))
  {
    var g0 := GcMark.Grayed(g, u);
    var g1 := GcMark.MarkValue(g0, v);
    GcMark.MarkValueDarker(g0, v);
    assert GcMark.DarkerAt(g0, g1, u);
    GcGray.BlackenedColoured(g1, u);
  }

  ghost predicate AreTables(g: G, refs: seq<Id>) {
    forall r :: r in refs ==> r in g.heap && IsTable(g.heap[r].body)
  }

  lemma NewObjectIs(g: G, b: Body)
    ensures var i, g1 := GcAlloc.IndexOf(g.rootgc, g.main), GcAlloc.Allocated(g, b);
            GcAlloc.NewObject(g, b)
              == if IsUserData(b) && i < |g.rootgc| then GcAlloc.LinkAfter(g1, g.next, i + 1)
                 else GcSweep.LinkFront(g1, g.next)
  {
    hide GcAlloc.IndexOf;
  }

  lemma AllSimples(g: G, refs: seq<Id>)
    requires forall r :: r in refs ==> r in g.heap && IsTable(g.heap[r].body)
    ensures AreTables(g, refs) && GcMark.MarkSimples(g, refs[0..]) == GcMark.MarkSimples(g, refs)
  {
    assert refs[0..] == refs;
  }

  lemma NoSimples(g: G, refs: seq<Id>)
    ensures GcMark.MarkSimples(g, refs[|refs|..]) == g
  {
  }

  // One table of a userdata.
  lemma SimpleStep(g: G, refs: seq<Id>, i: nat)
    requires i < |refs| && GcMark.Typed(g) && AreTables(g, refs)
    ensures refs[i] in g.heap && IsTable(g.heap[refs[i]].body)
    ensures var g1 := GcMark.MarkSimple(g, refs[i]);
            && GcMark.MarkSimples(g, refs[i..]) == GcMark.MarkSimples(g1, refs[i + 1..])
            && GcMark.Typed(g1) && AreTables(g1, refs)
            && (White(g, refs[i]) ==> GcMark.MarkObject(g, refs[i]) == g1) && (!White(g, refs[i]) ==> g1 == g)
  {
    var g1 := GcMark.MarkSimple(g, refs[i]);
    assert refs[i..][1..] == refs[i + 1..];
    GcMark.MarkSimpleDarker(g, refs[i]);
    GcMark.DarkerTyped(g, g1);
    forall r | r in refs ensures r in g1.heap && IsTable(g1.heap[r].body) { GcMark.DarkerBody(g, g1, r); }
  }

  lemma AllObjects(g: G, ids: seq<Id>)
    ensures GcMark.MarkAll(g, ids[0..]) == GcMark.MarkAll(g, ids)
  {
    assert ids[0..] == ids;
  }

  lemma NoObjects(g: G, ids: seq<Id>)
    ensures GcMark.MarkAll(g, ids[|ids|..]) == g
  {
  }

  // One object of a list.
  lemma ObjectStep(g: G, ids: seq<Id>, i: nat)
    requires i < |ids| && GcMark.Typed(g) && forall c :: c in ids ==> c in g.heap
    ensures var g1 := GcMark.MarkObject(g, ids[i]);
            && GcMark.MarkAll(g, ids[i..]) == GcMark.MarkAll(g1, ids[i + 1..])
            && GcMark.Typed(g1) && (forall c :: c in ids ==> c in g1.heap) && (!White(g, ids[i]) ==> g1 == g)
  {
    var g1 := GcMark.MarkObject(g, ids[i]);
    assert ids[i..][1..] == ids[i + 1..];
    GcMark.MarkObjectDarker(g, ids[i]);
    GcMark.DarkerTyped(g, g1);
  }

  // What a traversal may rely on.
  lemma TraversalOk(g: G, stage: GcMark.Stage)
    requires g.gray != [] && GcMark.Tri(g, {}, stage) && GcMark.Typed(g)
    ensures var o := g.gray[0];
            && o in g.heap && Listed(g.heap[o].body) && GcMark.Typed(GcAtomic.Taken(g))
            && (forall c :: c in GcAtomic.Traversed(g.heap[o].body) ==> c in g.heap)
            && GcGray.Coloured(GcAtomic.Taken(g))
  {
    GcAtomic.TakenTri(g, stage);
    GcGray.TriColoured(GcAtomic.Taken(g), {g.gray[0]}, stage);
    var o := g.gray[0];
    GcAtomic.TraversesChildren(g, o);
    assert GcMark.TypedAt(g, o);
    GcMark.DarkerTyped(g, GcAtomic.Taken(g));
  }

  // ----- the stages of the end of the mark phase -----------------------------------

  lemma BeforeRemark(g: G)
    requires GcInvariant.Inv(g) && g.phase.Propagate?
    ensures GcMark.Tri(g, {}, 0) && GcMark.Typed(g) && (forall u :: u in g.uvhead ==> u in g.heap)
  {
    GcInvariant.NothingDead(g);
    GcStep.UvheadIs(g);
  }

  lemma AfterRemark(g: G, g0: G)
    requires GcInvariant.Inv(g) && g.phase.Propagate? && g0 == GcAtomic.RemarkUpvals(g, g.uvhead)
    ensures GcMark.Tri(g0, {}, 1) && GcMark.Typed(g0) && GcMark.Darker(g, g0)
  {
    BeforeRemark(g);
    GcStep.UvheadIs(g);
    GcAtomic.RemarkUpvalsTri(g, g.uvhead);
    GcMark.DarkerTyped(g, g0);
    forall u | u in g0.heap && g0.heap[u].body.Open? ensures GcAtomic.GrayUpvalSettled(g0, u) {
      assert GcMark.DarkerAt(g, g0, u);
    }
    GcAtomic.ToStageOne(g0);
  }

  lemma AfterPropagate(g: G, g0: G, g1: G)
    requires GcInvariant.Inv(g) && GcMark.Darker(g, g0) && GcMark.Tri(g0, {}, 1) && GcMark.Typed(g0)
             && g1 == GcAtomic.PropagateAll(g0)
    ensures GcMark.Tri(g1, {}, 1) && GcMark.Typed(g1)
    ensures forall c :: c in [g1.running] + GcMark.Flat(g1.mt) ==> c in g1.heap
  {
    GcStep.RootsTyped(g);
    hide GcMark.Tri, GcMark.Darker, GcMark.Typed, GcAtomic.PropagateAll, GcInvariant.Inv;
    GcAtomic.PropagateAllTri(g0, 1);
    GcMark.DarkerTyped(g0, g1);
    GcMark.DarkerTrans(g, g0, g1);
    GcStep.DarkerRoots(g, g1);
    GcAtomic.FlatIds(g.mt);
  }

  lemma AfterRoots(g1: G, m: G, ids: seq<Id>)
    requires GcMark.Tri(g1, {}, 1) && GcMark.Typed(g1) && (forall c :: c in ids ==> c in g1.heap)
             && m == GcMark.MarkAll(g1, ids)
    ensures GcMark.Tri(m, {}, 1) && GcMark.Typed(m)
  {
    hide GcMark.Tri, GcMark.Darker, GcMark.Typed, GcMark.MarkAll;
    GcMark.MarkAllTri(g1, ids, {}, 1);
    GcMark.DarkerTyped(g1, m);
  }

  lemma BeforeAgain(m: G, g2: G)
    requires GcMark.Tri(m, {}, 1) && GcMark.Typed(m) && g2 == GcAtomic.PropagateAll(m)
    ensures GcMark.Tri(GcAtomic.GrayAgain(g2), {}, 2) && GcMark.Typed(GcAtomic.GrayAgain(g2))
  {
    hide GcMark.Tri, GcMark.Darker, GcMark.Typed, GcAtomic.PropagateAll;
    GcAtomic.PropagateAllTri(m, 1);
    GcMark.DarkerTyped(m, g2);
    GcAtomic.ToStageTwo(g2);
    GcMark.DarkerTyped(g2, GcAtomic.GrayAgain(g2));
  }

  lemma RootsMarkable(g: G)
    requires GcInvariant.Inv(g) && (g.phase.Pause? || g.phase.Finalize?)
    ensures GcMark.Typed(g.(gray := [], grayagain := [])) && (forall c :: c in GcStep.RootIds(g) ==> c in g.heap)
    ensures IsThread(g, g.main)
  {
    GcStep.RootIdsAre(g);
    GcStep.ListsCleared(g);
    GcInvariant.NothingDead(g.(gray := [], grayagain := []));
  }

  // ----- upvalues --------------------------------------------------------------------

  // Linking and blackening an upvalue whose value is in the heap keeps references typed.
  lemma LinkedTyped(g: G, u: Id)
    requires GcMark.Typed(g) && u in g.heap && g.heap[u].body.Closed? && IsGray(g.heap[u].mark)
    ensures GcMark.Typed(GcMark.Blackened(GcSweep.LinkFront(g, u), u))
  {
    var g1 := GcSweep.LinkFront(g, u);
    forall o | o in g1.heap ensures GcMark.TypedAt(g1, o) {
      assert GcMark.TypedAt(g, o);
      GcSweepAll.SameChildren(g, g1, o);
    }
    GcMark.RecolourDarker(g1, u);
    GcMark.DarkerTyped(g1, GcMark.Blackened(g1, u));
  }

  lemma HasTop(g: G, t: Id, gone: set<Id>)
    requires GcClose.MayClose(g, gone) && IsThread(g, t) && GcSweep.OpenList(g, t) != []
    ensures GcSweep.OpenAt(g, t, 0)
  {
    GcSweep.OpenListDistinct(g, t);
  }

  lemma CloseMore(g: G, t: Id, level: nat)
    requires GcSweep.TopAbove(g, t, level)
    ensures GcSweep.CloseUpvals(g, t, level) == GcSweep.CloseUpvals(GcSweep.CloseTop(g, t), t, level)
  {
  }

  lemma NoTop(g: G, t: Id, level: nat, gone: set<Id>)
    requires GcClose.MayClose(g, gone) && IsThread(g, t) && !GcSweep.TopAbove(g, t, level)
    ensures GcSweep.CloseUpvals(g, t, level) == g
  {
  }

  predicate ValueInHeap(g: G, v: Value) { v.Ref? ==> v.id in g.heap }

  lemma FirstPlace(s: seq<Id>)
    ensures PlaceOf(s, 0) == Head
  {
  }

  // A new object is not on any list yet.
  lemma NewOnNoList(g: G)
    requires GcInvariant.Inv(g)
    ensures g.next !in g.rootgc && InNoBucket(g.strt, g.next) && g.main in g.rootgc
  {
  }

  lemma MainIndex(s: seq<Id>, x: Id)
    requires x in s
    ensures GcAlloc.IndexOf(s, x) < |s| && s[GcAlloc.IndexOf(s, x)] == x
  {
  }

  // An open upvalue is not on the lists its link serves otherwise.
  lemma OnNoList(g: G, t: Id, gone: set<Id>)
    requires GcClose.MayClose(g, gone) && GcSweep.OpenAt(g, t, 0)
    ensures var u := GcSweep.OpenList(g, t)[0]; u !in g.rootgc && InNoBucket(g.strt, u)
  {
    CloseOk(g, t, gone);
  }

  // What closing an upvalue may rely on.
  lemma CloseOk(g: G, t: Id, gone: set<Id>)
    requires GcClose.MayClose(g, gone) && GcSweep.OpenAt(g, t, 0)
    ensures var u := GcSweep.OpenList(g, t)[0];
            && u in g.heap && g.heap[u].body.Open? && g.heap[u].body.thread == t
            && g.heap[u].body.slot < |g.heap[t].body.stack|
            && (!Dead(g, u) ==> ValueInHeap(g, g.heap[t].body.stack[g.heap[u].body.slot])
                                && (g.phase.Propagate? ==>
                                      GcMark.Typed(GcSweep.ClosedTop(g, t))
                                        && GcGray.Coloured(GcSweep.ClosedTop(g, t))))
  {
    var u := GcSweep.OpenList(g, t)[0];
    GcClose.OwnerOf(g, t);
    if !Dead(g, u) {
      var v := g.heap[t].body.stack[g.heap[u].body.slot];
      assert ChildrenLive(g, u);
      if v.Ref? { assert v.id in Children(g, u); }
      if g.phase.Propagate? {
        ClosedTyped(g, t);
        ClosedColoured(g, t);
      }
    }
  }

  lemma ClosedColoured(g: G, t: Id)
    requires GcMark.Tri(g, {}, 0) && GcSweep.OpenAt(g, t, 0)
    ensures GcGray.Coloured(GcSweep.ClosedTop(g, t))
  {
    GcGray.TriColoured(g, {}, 0);
  }

  lemma ClosedTyped(g: G, t: Id)
    requires GcInvariant.Inv(g) && g.phase.Propagate? && GcSweep.OpenAt(g, t, 0)
    ensures GcMark.Typed(GcSweep.ClosedTop(g, t)) 
  {
    var g1, g2 := GcSweep.ClosedTop(g, t), GcClose.LinkedTop(g, t);
    GcClose.LinkedTopKeeps(g, t);
    GcClose.LinkedTopIs(g, t);
    GcClose.LinkedTopMarked(g, g2);
    forall o | o in g1.heap ensures GcMark.TypedAt(g1, o) {
      assert GcMark.TypedAt(g2, o);
      GcSweepAll.SameChildren(g1, g2, o);
    }
  }

  // ----- sweeping ----------------------------------------------------------------------

  lemma CleanStart(g: G, t: Id)
    requires IsThread(g, t)
    ensures GcSweep.OpenClean(g, t, 0)
  {
  }

  // One open upvalue of a thread being swept.
  lemma OpenStep(g: G, t: Id, i: nat, gone: set<Id>)
    requires GcSweep.ShapeBut(g, gone) && IsThread(g, t) && GcSweep.OpenClean(g, t, i) && i < |GcSweep.OpenList(g, t)|
    ensures var u := GcSweep.OpenList(g, t)[i];
            && u in g.heap
            && var (g1, j) := if Survives(g.second, g.heap[u].mark) then (GcSweep.Whiten(g, u), i + 1)
                              else (GcSweep.FreeOpen(g, t, i), i);
               && GcSweep.SweepOpenFrom(g, t, i) == GcSweep.SweepOpenFrom(g1, t, j)
               && GcSweep.ShapeBut(g1, gone) && IsThread(g1, t) && GcSweep.OpenClean(g1, t, j)
               && |GcSweep.OpenList(g1, t)| - j < |GcSweep.OpenList(g, t)| - i
  {
    var u := GcSweep.OpenList(g, t)[i];
    GcSweep.OpenListDistinct(g, t);
    assert GcSweep.OpenAt(g, t, i);
    hide GcSweep.ShapeBut, GcSweep.OpenClean, GcSweep.OpenSwept, GcSweep.Whiten, GcSweep.FreeOpen;
    if Survives(g.second, g.heap[u].mark) {
      GcSweep.WhitenUpval(g, t, i, gone);
      GcSweep.OpenSweptShape(g, GcSweep.Whiten(g, u), t, gone);
    } else {
      GcSweep.FreeUpval(g, t, i, gone);
      GcSweep.OpenSweptShape(g, GcSweep.FreeOpen(g, t, i), t, gone);
    }
  }

  lemma OpenDone(g: G, t: Id, i: nat)
    requires i >= |GcSweep.OpenList(g, t)|
    ensures GcSweep.SweepOpenFrom(g, t, i) == g
  {
  }

  lemma SweepDone(g: G, left: nat)
    requires left == 0 || g.sweepgc >= |g.rootgc|
    ensures GcSweep.SweepMany(g, left) == g
  {
  }

  // One object of many.
  lemma SweepMore(g: G, left: nat)
    requires left > 0 && Shape(g) && NoDangling(g) && GcSweepAll.RootsClean(g) && g.phase.Sweep?
             && g.sweepgc < |g.rootgc|
    ensures g.rootgc[g.sweepgc] in g.heap
            && GcSweep.SweepMany(g, left) == GcSweep.SweepMany(GcSweep.SweepNext(g), left - 1)
    ensures var g1 := GcSweep.SweepNext(g); Shape(g1) && NoDangling(g1) && GcSweepAll.RootsClean(g1) && g1.phase.Sweep?
  {
    hide GcSweep.SweepNext;
    GcSweepAll.SweepNextGood(g);
  }

  // What sweeping the next object may rely on.
  lemma NextOk(g: G)
    requires Shape(g) && NoDangling(g) && GcSweepAll.RootsClean(g) && g.phase.Sweep? && g.sweepgc < |g.rootgc|
    ensures var o := g.rootgc[g.sweepgc];
            var g1 := GcSweep.SweepOpenFrom(g, o, 0);
            && o in g.heap && o in g1.heap && GcSweep.ShapeBut(g, {})
            && g1.rootgc == g.rootgc && g1.sweepgc == g.sweepgc && (!g.heap[o].body.Thread? ==> g1 == g)
            && (!Survives(g1.second, g1.heap[o].mark) ==>
                  GcClose.MayClose(g1.(rootgc := GcSweep.RemoveAt(g1.rootgc, g1.sweepgc)), {o}))
  {
    hide Shape, NoDangling, GcSweep.Sweeps, GcSweep.SweepOpenFrom, GcSweep.OpenClean, GcSweepAll.RootsClean,
         GcSweep.ShapeBut;
    var o := g.rootgc[g.sweepgc];
    var g1 := GcSweep.SweepOpenFrom(g, o, 0);
    GcSweepAll.OpenFirst(g);
    GcSweepAll.ShapeIs(g);
    if !IsThread(g, o) { GcSweepAll.NoListNoUpvals(g, o); }
    GcSweep.SweepsNoDangling(g, g1);
    GcSweepAll.UnlinkedRoot(g1, o);
    GcStep.SameRefs(g1, g1.(rootgc := GcSweep.RemoveAt(g1.rootgc, g1.sweepgc)));
    GcStep.SamePhase(g, g1);
  }

  // One string of a bucket being swept.
  lemma StringOk(g: G, b: nat, i: nat)
    requires Shape(g) && NoDangling(g) && b < |g.strt| && i < |g.strt[b]| && GcSweepAll.BucketClean(g, b, i)
    ensures var o := g.strt[b][i];
            && o in g.heap
            && var (g1, j) := if Survives(g.second, g.heap[o].mark) then (GcSweep.Whiten(g, o), i + 1)
                              else (GcSweep.FreeString(g, b, i), i);
               && GcSweep.SweepBucketFrom(g, b, i) == GcSweep.SweepBucketFrom(g1, b, j)
               && Shape(g1) && NoDangling(g1) && b < |g1.strt| && GcSweepAll.BucketClean(g1, b, j)
               && |g1.strt[b]| - j < |g.strt[b]| - i
  {
    hide Shape, NoDangling, GcSweep.FreeString, GcSweep.Whiten, GcSweepAll.BucketClean, GcSweepAll.StringTurn;
    GcSweepAll.IsString(g, b, i);
    var o := g.strt[b][i];
    if Survives(g.second, g.heap[o].mark) {
      GcSweepAll.KeepString(g, b, i);
      GcSweepAll.TurnKeeps(g, GcSweep.Whiten(g, o), b);
    } else {
      GcSweepAll.DropString(g, b, i);
      GcSweepAll.TurnKeeps(g, GcSweep.FreeString(g, b, i), b);
    }
  }

  // ----- the other lists -----------------------------------------------------------------

  lemma RehashNext(g: G, i: nat, table: seq<seq<Id>>)
    requires i < |g.strt| && table != []
    ensures GcStrings.RehashFrom(g, i, table) ==
            GcStrings.RehashFrom(g, i + 1, GcStrings.RehashList(g, g.strt[i], table))
  {
  }

  lemma RehashDone(g: G, table: seq<seq<Id>>)
    requires table != []
    ensures GcStrings.RehashFrom(g, |g.strt|, table) == table
  {
  }

  lemma RehashOne(g: G, list: seq<Id>, k: nat, table: seq<seq<Id>>)
    requires k < |list| && table != [] && forall o :: o in list ==> o in g.heap && g.heap[o].body.Str?
    ensures list[k] in g.heap && g.heap[list[k]].body.Str?
    ensures var o := list[k];
            var h := Bucket(g.heap[o].body.text, |table|);
            GcStrings.RehashList(g, list[k..], table) ==
              GcStrings.RehashList(g, list[k + 1..], table[h := [o] + table[h]])
  {
    assert list[k] in list && list[k..][0] == list[k] && list[k..][1..] == list[k + 1..];
  }

  lemma RehashNone(g: G, list: seq<Id>, table: seq<seq<Id>>)
    requires list == [] && table != []
    ensures GcStrings.RehashList(g, list, table) == table
  {
  }

  lemma BucketStrings(g: G, b: nat)
    requires StringsOk(g) && b < |g.strt|
    ensures forall o :: o in g.strt[b] ==> o in g.heap && g.heap[o].body.Str?
  {
  }

  // What interning may rely on.
  lemma InternedTable(g: G, text: Text)
    requires GcInvariant.Inv(g) && 0 < |g.strt|
    ensures var b := Bucket(text, |g.strt|);
            && (forall o :: o in g.strt[b] ==> o in g.heap)
            && (GcStrings.FindText(g, g.strt[b], text) == |g.strt[b]| ==> StringsOk(GcStrings.ChainNew(g, text)))
  {
    var b := Bucket(text, |g.strt|);
    BucketStrings(g, b);
    GcStrings.FindTextFinds(g, g.strt[b], text);
    GcAlloc.NotInHeap(g);
    if GcStrings.FindText(g, g.strt[b], text) == |g.strt[b]| { GcStrings.ChainNewStrings(g, text); }
  }

  lemma OpenListInHeap(g: G, t: Id)
    requires GcInvariant.Inv(g) && IsThread(g, t)
    ensures forall i :: 0 <= i < |GcSweep.OpenList(g, t)| ==>
              GcSweep.OpenList(g, t)[i] in g.heap && g.heap[GcSweep.OpenList(g, t)[i]].body.Open?
  {
    GcSweep.OpenListDistinct(g, t);
    forall i | 0 <= i < |GcSweep.OpenList(g, t)| ensures GcSweep.OpenAt(g, t, i) {}
  }

  lemma InvParts(g: G)
    requires GcInvariant.Inv(g)
    ensures Shape(g) && NoDangling(g) && StringsOk(g) && 0 < |g.strt|
    ensures g.phase.SweepString? ==> g.sweepstrgc < |g.strt|
    ensures g.phase.Sweep? ==> GcSweepAll.RootsClean(g)
  {
  }

  lemma SweepManyParts(g: G)
    requires GcInvariant.Inv(g) && g.phase.Sweep?
    ensures Shape(g) && NoDangling(g) && GcSweepAll.RootsClean(g) && StringsOk(GcSweep.SweepMany(g, GcStep.GCSWEEPMAX))
  {
    GcSweepAll.SweepManyGood(g, GcStep.GCSWEEPMAX);
  }

  lemma StoreTyped(g: G, o: Id, refs: seq<Id>, v: Value)
    requires GcInvariant.Inv(g) && Live(g, o) && g.heap[o].body.Node?
    requires v.Ref? ==> Live(g, v.id) && Suits(g.heap[o].body, g.heap[v.id].body)
    requires forall r :: r in refs ==> r in g.heap[o].body.refs || v == Ref(r)
    ensures var g1 := GcMutator.SetBody(g, o, Node(g.heap[o].body.kind, refs));
            g.phase.Propagate? ==> GcMark.Typed(g1) && GcGray.Coloured(g1)
  {
    hide GcInvariant.Inv, NoDangling, GcMark.Typed, GcMutator.NewChildrenOk;
    if g.phase.Propagate? {
      var b := Node(g.heap[o].body.kind, refs);
      GcMutator.NodeChildrenOk(g, o, refs, v);
      GcInvariant.NothingDead(g);
      GcGray.TriOf(g);
      GcGray.TriColoured(g, {}, 0);
      GcUpvals.InvNoDangling(g);
      GcMutator.SetBodyNoDangling(g, o, b);
      GcMutator.AllTyped(GcMutator.SetBody(g, o, b));
    }
  }

  lemma InvMayClose(g: G)
    requires GcInvariant.Inv(g)
    ensures GcClose.MayClose(g, {})
  {
    GcSweepAll.ShapeIs(g);
  }
}

// Closing upvalues in the middle of a collection.

module GcClose {
  import opened GcState
  import opened GcMark
  import opened GcSweep
  import opened GcSweepAll
  import opened GcInvariant
  import opened GcMutator
  import opened GcUpvals

  // ----- what a sweep-like step keeps of a phase -------------------------------

  ghost predicate SameTables(g: G, g': G) {
    g'.strt == g.strt && g'.sweepstrgc == g.sweepstrgc && g'.phase == g.phase
  }

  // Outside marking, what sweeping keeps is enough, if what was put before the sweeper is clean.
  lemma SweepsPhase(g: G, g': G)
    requires PhaseOk(g) && !g.phase.Propagate? && Sweeps(g, g') && SameTables(g, g')
    requires g.phase.Sweep? ==> RootsClean(g') && forall o :: o in g'.heap && g'.heap[o].body.Str? ==>
               o in g.heap && g.heap[o].body.Str?
    requires g.phase.SweepString? ==> g'.sweepgc == 0
    ensures PhaseOk(g')
  {
    if g.phase.SweepString? {
      forall b | 0 <= b < g'.sweepstrgc ensures BucketClean(g', b, |g'.strt[b]|) {
        assert BucketClean(g, b, |g.strt[b]|);
        forall i | 0 <= i < |g'.strt[b]| ensures CurWhite(g', g'.strt[b][i]) { CurWhiteStays(g, g', g.strt[b][i]); }
      }
    } else {
      forall o | o in g'.heap && (g.phase.Sweep? ==> g'.heap[o].body.Str?) ensures CurWhite(g', o) {
        assert SweepsAt(g, g', o);
        CurWhiteStays(g, g', o);
      }
    }
  }

  // ----- a dead upvalue is freed at once ------------------------------------------

  lemma FreeTopInv(g: G, t: Id)
    requires Inv(g) && OpenAt(g, t, 0) && Dead(g, OpenList(g, t)[0])
    ensures Inv(FreeOpen(g, t, 0)) && Sweeps(g, FreeOpen(g, t, 0))
  {
    hide Shape, ShapeBut, NoDangling, Sweeps, FreeOpen, PhaseOk;
    var u, g' := OpenList(g, t)[0], FreeOpen(g, t, 0);
    if !g.phase.Sweep? && !g.phase.SweepString? { NothingDead(g); }
    NotFixedUpval(g, u);
    FreeOpenFields(g, t);
    ShapeIs(g);
    FreeOpenShape(g, t, 0, {});
    ShapeIs(g');
    FreeOpenSweeps(g, t, 0);
    SweepsNoDangling(g, g');
    FreeTopPhase(g, t);
  }

  lemma NotFixedUpval(g: G, u: Id)
    requires Shape(g) && u in g.heap && g.heap[u].body.Open?
    ensures !Fixed(g, u)
  {
    UpvalNotFixed(g, u);
  }

  lemma FreeOpenFields(g: G, t: Id)
    requires OpenAt(g, t, 0)
    ensures var g' := FreeOpen(g, t, 0);
            && SameTables(g, g') && g'.rootgc == g.rootgc && g'.sweepgc == g.sweepgc
            && forall o :: o in g'.heap ==> o in g.heap && (g'.heap[o].body.Str? ==> g.heap[o].body.Str?)
  {
  }

  lemma FreeTopPhase(g: G, t: Id)
    requires OpenAt(g, t, 0) && PhaseOk(g) && Sweeps(g, FreeOpen(g, t, 0)) && (g.phase.Sweep? || g.phase.SweepString?)
    ensures PhaseOk(FreeOpen(g, t, 0))
  {
    hide FreeOpen, Sweeps;
    var g' := FreeOpen(g, t, 0);
    FreeOpenFields(g, t);
    if g.phase.Sweep? { RootsCleanStays(g, g'); }
    SweepsPhase(g, g');
  }

  // ----- a live one is closed -----------------------------------------------------------

  // The upvalue closed and linked, before its colour is seen to.
  function LinkedTop(g: G, t: Id): G
    requires OpenAt(g, t, 0)
  {
    LinkFront(ClosedTop(g, t), OpenList(g, t)[0])
  }

  lemma LinkedTopIs(g: G, t: Id)
    requires OpenAt(g, t, 0)
    ensures var g', u := LinkedTop(g, t), OpenList(g, t)[0];
            && SameTables(g, g') && g'.rootgc == [u] + g.rootgc && g'.sweepgc == Shifted(g.sweepgc, 1)
            && u in g'.heap && g'.heap[u].mark == g.heap[u].mark
            && g'.heap[u].body == Closed(SlotValue(g, t, g.heap[u].body.slot))
            && g'.heap.Keys == g.heap.Keys
            && (forall o :: o in g.heap ==>
                  g'.heap[o].mark == g.heap[o].mark && (g'.heap[o].body.Str? ==> g.heap[o].body.Str?))
            && g'.gray == g.gray && g'.grayagain == g.grayagain
            && (forall o :: o in g.heap && o != t && o != u ==> g'.heap[o].body == g.heap[o].body)
            && IsThread(g', t) && OpenList(g', t) == OpenList(g, t)[1..] && OpenList(g', u) == []
  {
    ClosedTopUnlinked(g, t);
  }

  lemma LinkedTopKeeps(g: G, t: Id)
    requires Inv(g) && OpenAt(g, t, 0)
    ensures var g' := LinkedTop(g, t); Shape(g') && Sweeps(g, g') && NoDangling(g')
  {
    hide Shape, ShapeBut, NoDangling, Sweeps, PhaseOk;
    var g', u := LinkedTop(g, t), OpenList(g, t)[0];
    OpenBelow(g, t, 0);
    ShapeIs(g);
    ClosedTopShape(g, t, {});
    ShapeIs(g');
    ClosedTopSweeps(g, t);
    SweepsNoDangling(g, g');
  }

  lemma CleanLinked(g: G, g': G, u: Id)
    requires RootsClean(g) && Sweeps(g, g') && g'.rootgc == [u] + g.rootgc && g'.sweepgc == Shifted(g.sweepgc, 1)
             && CleanRoot(g', u)
    ensures RootsClean(g')
  {
    hide CleanRoot, Sweeps;
    forall i | 0 <= i < g'.sweepgc ensures CleanRoot(g', g'.rootgc[i]) {
      if i > 0 {
        assert g'.rootgc[i] == g.rootgc[i - 1];
        CleanStays(g, g', g.rootgc[i - 1]);
      }
    }
  }

  // Outside marking the closed upvalue ends up in the current white.
  lemma CloseElsewhere(g: G, t: Id)
    requires Inv(g) && OpenAt(g, t, 0) && !Dead(g, OpenList(g, t)[0]) && !g.phase.Propagate?
    ensures Inv(CloseTop(g, t)) && Sweeps(g, CloseTop(g, t))
  {
    var u, g1, g' := OpenList(g, t)[0], LinkedTop(g, t), CloseTop(g, t);
    LinkedTopKeeps(g, t);
    LinkedTopIs(g, t);
    NeverBlackUpval(g, u);
    CloseTopIs(g, t);
    hide Shape, NoDangling, Sweeps, PhaseOk, LinkedTop, CloseTop;
    if Gray(g1, u) { WhitenLinked(g, g1, u); }
    ClosePhase(g, g1, g', u);
  }

  lemma WhitenLinked(g: G, g1: G, u: Id)
    requires Shape(g1) && Sweeps(g, g1) && NoDangling(g1) && Gray(g1, u)
    ensures var g' := Whiten(g1, u); Shape(g') && Sweeps(g, g') && NoDangling(g')
  {
    hide Shape, ShapeBut, NoDangling, Sweeps, Whiten;
    assert !Dead(g1, u);
    ShapeIs(g1);
    WhitenShape(g1, u, {});
    ShapeIs(Whiten(g1, u));
    WhitenSweeps(g1, u);
    SweepsTrans(g, g1, Whiten(g1, u));
    SweepsNoDangling(g1, Whiten(g1, u));
  }

  lemma CloseTopIs(g: G, t: Id)
    requires OpenAt(g, t, 0) && !Dead(g, OpenList(g, t)[0]) && !g.phase.Propagate?
    ensures CloseTop(g, t) == if Gray(LinkedTop(g, t), OpenList(g, t)[0])
                              then Whiten(LinkedTop(g, t), OpenList(g, t)[0]) else LinkedTop(g, t)
  {
  }

  lemma ClosePhase(g: G, g1: G, g': G, u: Id)
    requires PhaseOk(g) && !g.phase.Propagate? && Sweeps(g, g1) && Sweeps(g, g') && SameTables(g, g1)
    requires g1.rootgc == [u] + g.rootgc && g1.sweepgc == Shifted(g.sweepgc, 1) && OpenList(g1, u) == []
    requires u in g1.heap && (g' == if Gray(g1, u) then Whiten(g1, u) else g1) && (Gray(g1, u) || CurWhite(g1, u))
    requires forall o :: o in g1.heap ==> o in g.heap && (g1.heap[o].body.Str? ==> g.heap[o].body.Str?)
    ensures PhaseOk(g')
  {
    assert CurWhite(g', u) && OpenList(g', u) == [] && SameTables(g, g') && g'.rootgc == g1.rootgc
           && g'.sweepgc == g1.sweepgc;
    assert forall o :: o in g'.heap ==> o in g1.heap && g'.heap[o].body == g1.heap[o].body;
    hide Sweeps, CurWhite, Whiten;
    if g.phase.Sweep? { CleanLinked(g, g', u); }
    SweepsPhase(g, g');
  }

  // ----- while marking -----------------------------------------------------------------------

  lemma LinkedTopTri(g: G, t: Id)
    requires Inv(g) && g.phase.Propagate? && OpenAt(g, t, 0)
    ensures var g1, u := LinkedTop(g, t), OpenList(g, t)[0];
            Tri(g1, if Gray(g1, u) then {u} else {}, 0)
  {
    hide Shape, NoDangling, LinkedTop, Sweeps, ListsOk, OpenList;
    var g1, u := LinkedTop(g, t), OpenList(g, t)[0];
    LinkedTopKeeps(g, t);
    LinkedTopIs(g, t);
    LinkedLists(g, g1, t, u);
    OpenNotListed(g, u);
    forall o | o in g1.heap ensures TriAt(g1, if Gray(g1, u) then {u} else {}, 0, o) {
      assert TriAt(g, {}, 0, o);
      LinkedTriAt(g, g1, t, u, o);
    }
  }

  lemma LinkedTriAt(g: G, g1: G, t: Id, u: Id, o: Id)
    requires o in g.heap && TriAt(g, {}, 0, o) && Sweeps(g, g1) && g1.heap.Keys == g.heap.Keys
    requires u in g.heap && g.heap[u].body.Open? && g1.heap[u].body.Closed? && IsThread(g, t) && IsThread(g1, t)
    requires (forall p :: p in g.heap ==> g1.heap[p].mark == g.heap[p].mark) && g1.gray == g.gray
             && g1.grayagain == g.grayagain
    requires o != t && o != u ==> g1.heap[o].body == g.heap[o].body
    ensures TriAt(g1, if Gray(g1, u) then {u} else {}, 0, o)
  {
    assert g1.second == g.second;
    LinkedSettled(g, g1, o);
  }

  lemma OpenNotListed(g: G, u: Id)
    requires Tri(g, {}, 0) && u in g.heap && g.heap[u].body.Open?
    ensures u !in g.gray && u !in g.grayagain
  {
  }

  lemma LinkedLists(g: G, g1: G, t: Id, u: Id)
    requires Tri(g, {}, 0) && u in g.heap && g.heap[u].body.Open? && g1.heap.Keys == g.heap.Keys
    requires g1.gray == g.gray && g1.grayagain == g.grayagain && IsThread(g, t) && IsThread(g1, t)
    requires forall o :: o in g.heap ==> g1.heap[o].mark == g.heap[o].mark
    requires forall o :: o in g.heap && o != t && o != u ==> g1.heap[o].body == g.heap[o].body
    ensures ListsOk(g1, 0)
  {
    OpenNotListed(g, u);
  }

  lemma LinkedSettled(g: G, g1: G, o: Id)
    requires Sweeps(g, g1) && g1.heap.Keys == g.heap.Keys && o in g.heap
    requires forall p :: p in g.heap ==> g1.heap[p].mark == g.heap[p].mark
    ensures Settled(g, o) ==> Settled(g1, o)
  {
    assert SweepsAt(g, g1, o);
  }

  lemma CloseMarking(g: G, t: Id)
    requires Inv(g) && OpenAt(g, t, 0) && g.phase.Propagate? && !Dead(g, OpenList(g, t)[0])
    ensures Inv(CloseTop(g, t)) && CloseTop(g, t).heap.Keys == g.heap.Keys
  {
    var u, g1 := OpenList(g, t)[0], LinkedTop(g, t);
    var v := SlotValue(g, t, g.heap[u].body.slot);
    LinkedTopKeeps(g, t);
    LinkedTopIs(g, t);
    LinkedTopTri(g, t);
    LinkedTopMarked(g, g1);
    CloseTopMarks(g, t);
    hide Inv, Marking, Tri, LinkedTop, CloseTop, Blackened, Shape, NoDangling, RootMarked, Typed, Sweeps;
    if Gray(g1, u) {
      var g2 := Blackened(g1, u);
      BlackenedTop(g1, u, v);
      BarrierInv(g2, u, v, false);
      BarrierKeys(g2, u, v);
      BlackenedKeys(g1, u);
    } else {
      MarkingInv(g1);
    }
  }

  lemma BlackenedKeys(g: G, u: Id)
    requires u in g.heap
    ensures Blackened(g, u).heap.Keys == g.heap.Keys && Blackened(g, u).phase == g.phase
  {
  }

  lemma MarkingInv(g: G)
    requires Shape(g) && NoDangling(g) && Tri(g, {}, 0) && RootMarked(g) && g.phase.Propagate?
    ensures Inv(g)
  {
  }

  lemma BarrierKeys(g: G, u: Id, v: Value)
    requires g.phase.Propagate?
    ensures Barrier(g, u, v).heap.Keys == g.heap.Keys
  {
  }

  lemma CloseTopMarks(g: G, t: Id)
    requires OpenAt(g, t, 0) && !Dead(g, OpenList(g, t)[0]) && g.phase.Propagate?
    ensures var u, g1, v := OpenList(g, t)[0], LinkedTop(g, t), SlotValue(g, t, g.heap[OpenList(g, t)[0]].body.slot);
            u in g1.heap && CloseTop(g, t) == if Gray(g1, u) then Barrier(Blackened(g1, u), u, v) else g1
  {
    LinkedTopIs(g, t);
  }

  // Whatever is in the heap is live, and the roots are marked, as before.
  lemma LinkedTopMarked(g: G, g1: G)
    requires Inv(g) && g.phase.Propagate? && Sweeps(g, g1) && NoDangling(g1)
    requires g1.heap.Keys == g.heap.Keys && forall o :: o in g.heap ==> g1.heap[o].mark == g.heap[o].mark
    ensures RootMarked(g1) && Typed(g1) && (forall o :: o in g1.heap ==> Live(g1, o)) && g1.phase.Propagate?
  {
    NothingDead(g);
    AllTyped(g1);
  }

  lemma BlackenedTop(g1: G, u: Id, v: Value)
    requires Shape(g1) && NoDangling(g1) && Gray(g1, u) && g1.heap[u].body == Closed(v) && Tri(g1, {u}, 0)
    requires RootMarked(g1) && Typed(g1) && (forall o :: o in g1.heap ==> Live(g1, o)) && g1.phase.Propagate?
    ensures var g2 := Blackened(g1, u);
            && Marking(g2, {u}) && Black(g2, u) && (v.Ref? ==> Live(g2, v.id)) && Live(g2, u)
            && (forall c :: c in Children(g2, u) ==> v == Ref(c)) && u in g2.heap
  {
    hide Tri, NoDangling, Typed, Shape, ShapeBut, RootMarked, Darker, Blackened;
    var g2 := Blackened(g1, u);
    BlackenDarker(g1, u);
    DarkerNoDangling(g1, g2);
    DarkerTyped(g1, g2);
    BlackenTriBusy(g1, u);
    ShapeIs(g1);
    DarkerShape(g1, g2, {});
    ShapeIs(g2);
    NoDanglingMain(g1);
    DarkerRootMarked(g1, g2);
    BlackenedFacts(g1, u, v);
  }

  lemma BlackenedFacts(g1: G, u: Id, v: Value)
    requires Gray(g1, u) && g1.heap[u].body == Closed(v) && Typed(g1)
    ensures var g2 := Blackened(g1, u);
            && u in g2.heap && Black(g2, u) && (v.Ref? ==> v.id in g2.heap) && g2.phase == g1.phase
            && (forall c :: c in Children(g2, u) ==> v == Ref(c))
  {
    assert TypedAt(g1, u);
    if v.Ref? { assert v.id in Children(g1, u); }
  }

  lemma NoDanglingMain(g: G)
    requires NoDangling(g)
    ensures g.main in g.heap && forall c :: c in Ids(g.registry) ==> c in g.heap
  {
  }

  lemma BlackenDarker(g: G, u: Id)
    requires Gray(g, u) && g.heap[u].body.Closed?
    ensures Darker(g, Blackened(g, u))
  {
  }

  lemma BlackenTriBusy(g: G, u: Id)
    requires Tri(g, {u}, 0) && Gray(g, u) && g.heap[u].body.Closed?
    ensures Tri(Blackened(g, u), {u}, 0)
  {
    var g' := Blackened(g, u);
    assert TriAt(g, {u}, 0, u);
    BlackenDarker(g, u);
    assert u !in g.gray && u !in g.grayagain;
    TriKept(g, g', {u}, {u}, 0, u);
  }

  // ----- closing down to a slot ---------------------------------------------------------------

  lemma NeverBlackUpval(g: G, u: Id)
    requires Inv(g) && u in g.heap && g.heap[u].body.Open? && !Dead(g, u)
    ensures Gray(g, u) || CurWhite(g, u)
  {
  }

  // ----- closing, in a sweep or on the program's behalf --------------------------------------

  // What closing an upvalue needs and keeps, also while its thread is being freed.
  ghost predicate MayClose(g: G, gone: set<Id>) {
    ShapeBut(g, gone) && NoDangling(g) && (g.phase.Propagate? ==> Inv(g))
  }

  lemma CloseTopKeeps(g: G, t: Id, gone: set<Id>)
    requires MayClose(g, gone) && OpenAt(g, t, 0) && gone <= {t}
    ensures MayClose(CloseTop(g, t), gone) && IsThread(CloseTop(g, t), t)
  {
    hide Inv, NoDangling, ShapeBut, CloseTop, Sweeps;
    if g.phase.Propagate? {
      InvShape(g);
      ShapeIs(g);
      CloseMarkingKeeps(g, t, gone);
    } else if Dead(g, OpenList(g, t)[0]) {
      CloseDeadKeeps(g, t, gone);
    } else {
      CloseLiveKeeps(g, t, gone);
    }
  }

  lemma InvShape(g: G)
    requires Inv(g)
    ensures Shape(g) && NoDangling(g)
  {
  }

  lemma CloseMarkingKeeps(g: G, t: Id, gone: set<Id>)
    requires Inv(g) && g.phase.Propagate? && ShapeBut(g, gone) && OpenAt(g, t, 0) && gone <= {t}
    ensures MayClose(CloseTop(g, t), gone) && IsThread(CloseTop(g, t), t)
  {
    NothingDead(g);
    ShapeIs(g);
    GoneIsEmpty(g, t, gone);
    hide Inv, CloseTop, ShapeBut;
    CloseMarking(g, t);
    InvShape(CloseTop(g, t));
    ShapeIs(CloseTop(g, t));
    CloseTopThread(g, t);
  }

  // Nothing is being unlinked outside a sweep.
  lemma GoneIsEmpty(g: G, t: Id, gone: set<Id>)
    requires ShapeBut(g, {}) && ShapeBut(g, gone) && gone <= {t} && IsThread(g, t)
    ensures gone == {}
  {
    assert t in g.rootgc;
    assert t !in gone;
  }

  lemma CloseTopThread(g: G, t: Id)
    requires OpenAt(g, t, 0)
    ensures IsThread(CloseTop(g, t), t)
  {
    CloseTopShorter(g, t);
    var u := OpenList(g, t)[0];
    if !Dead(g, u) {
      LinkedTopIs(g, t);
      var g1 := LinkedTop(g, t);
      if Gray(g1, u) && g.phase.Propagate? {
        CloseTopMarks(g, t);
        var g2, v := Blackened(g1, u), SlotValue(g, t, g.heap[u].body.slot);
        if v.Ref? && White(g2, v.id) && Black(g2, u) {
          MarkObjectDarker(g2, v.id);
          assert DarkerAt(g2, MarkObject(g2, v.id), t);
        }
      }
    }
  }

  lemma CloseDeadKeeps(g: G, t: Id, gone: set<Id>)
    requires ShapeBut(g, gone) && NoDangling(g) && OpenAt(g, t, 0) && Dead(g, OpenList(g, t)[0]) && !g.phase.Propagate?
    ensures MayClose(CloseTop(g, t), gone) && IsThread(CloseTop(g, t), t)
  {
    UpvalNotFixed(g, OpenList(g, t)[0]);
    CloseTopThread(g, t);
    assert CloseTop(g, t) == FreeOpen(g, t, 0);
    FreeOpenFields(g, t);
    hide NoDangling, ShapeBut, CloseTop, Sweeps, FreeOpen;
    FreeOpenShape(g, t, 0, gone);
    FreeOpenSweeps(g, t, 0);
    SweepsNoDangling(g, FreeOpen(g, t, 0));
  }

  lemma CloseLiveKeeps(g: G, t: Id, gone: set<Id>)
    requires ShapeBut(g, gone) && NoDangling(g) && OpenAt(g, t, 0) && !Dead(g, OpenList(g, t)[0]) && !g.phase.Propagate?
             && gone <= {t}
    ensures MayClose(CloseTop(g, t), gone) && IsThread(CloseTop(g, t), t)
  {
    var u, g1 := OpenList(g, t)[0], LinkedTop(g, t);
    OwnerOf(g, t);
    CloseTopThread(g, t);
    CloseTopIs(g, t);
    LinkedTopIs(g, t);
    ClosedTopShape(g, t, gone);
    ClosedTopSweeps(g, t);
    hide NoDangling, ShapeBut, CloseTop, Sweeps, LinkFront, ClosedTop, Whiten;
    if Gray(g1, u) {
      WhitenShape(g1, u, gone);
      WhitenSweeps(g1, u);
      SweepsTrans(g, g1, Whiten(g1, u));
      WhitenPhase(g1, u);
    }
    SweepsNoDangling(g, CloseTop(g, t));
  }

  lemma WhitenPhase(g: G, u: Id)
    requires u in g.heap
    ensures Whiten(g, u).phase == g.phase
  {
  }

  lemma OwnerOf(g: G, t: Id)
    requires ThreadsOk(g) && OpenAt(g, t, 0)
    ensures g.heap[OpenList(g, t)[0]].body.thread == t && g.heap[OpenList(g, t)[0]].body.slot < |g.heap[t].body.stack|
  {
    assert OpenListOk(g, t) && OpenList(g, t)[0] in OpenList(g, t);
  }
}

// A full collection with nothing in between frees exactly what cannot be reached.

module GcFull {
  import opened GcColours
  import opened GcState
  import opened GcMark
  import opened GcAtomic
  import opened GcSweep
  import opened GcSweepAll
  import opened GcInvariant
  import opened GcMutator
  import opened GcUpvals
  import opened GcStep
  import opened GcKeeps

  // ----- marking never goes beyond a closed set ----------------------------------------

  ghost predicate ClosedSet(g: G, s: iset<Id>) { forall p, c :: p in s && c in Children(g, p) ==> c in s }

  ghost predicate MarkedWithin(g: G, s: iset<Id>) { forall o :: o in g.heap && !White(g, o) ==> o in s }

  // What differs from `g` in `g'` was turned dark within `s`.
  ghost predicate DarkerWithin(g: G, g': G, s: iset<Id>) {
    Darker(g, g') && ClosedSet(g, s) && MarkedWithin(g, s) && MarkedWithin(g', s) && ClosedSet(g', s)
  }

  lemma WithinTrans(g: G, g1: G, g2: G, s: iset<Id>)
    requires DarkerWithin(g, g1, s) && DarkerWithin(g1, g2, s)
    ensures DarkerWithin(g, g2, s)
  {
    hide Darker, ClosedSet, MarkedWithin;
    DarkerTrans(g, g1, g2);
  }

  lemma ClosedStays(g: G, g': G, s: iset<Id>)
    requires Darker(g, g') && ClosedSet(g, s)
    ensures ClosedSet(g', s)
  {
    hide Darker, Children;
    forall p, c | p in s && c in Children(g', p) ensures c in s { DarkerChildren(g, g', p); }
  }

  lemma SimpleWithin(g: G, o: Id, s: iset<Id>)
    requires ClosedSet(g, s) && MarkedWithin(g, s) && o in s
    ensures DarkerWithin(g, MarkSimple(g, o), s)
  {
    MarkSimpleDarker(g, o);
    ClosedStays(g, MarkSimple(g, o), s);
  }

  lemma {:induction false} SimplesWithin(g: G, ids: seq<Id>, s: iset<Id>)
    requires ClosedSet(g, s) && MarkedWithin(g, s) && forall c :: c in ids ==> c in s
    ensures DarkerWithin(g, MarkSimples(g, ids), s)
    decreases |ids|
  {
    hide ClosedSet, MarkedWithin, Darker, MarkSimple;
    DarkerSelf(g);
    if ids != [] {
      assert ids[0] in ids && forall c :: c in ids[1..] ==> c in ids;
      SimpleWithin(g, ids[0], s);
      SimplesWithin(MarkSimple(g, ids[0]), ids[1..], s);
      WithinTrans(g, MarkSimple(g, ids[0]), MarkSimples(g, ids), s);
    }
  }

  // Turning one object of the set gray or black.
  lemma RecolourWithin(g: G, o: Id, m: Mark, s: iset<Id>)
    requires ClosedSet(g, s) && MarkedWithin(g, s) && o in s && o in g.heap && Darker(g, SetMark(g, o, m))
    ensures DarkerWithin(g, SetMark(g, o, m), s)
  {
    ClosedStays(g, SetMark(g, o, m), s);
  }

  lemma DataWithin(g: G, o: Id, s: iset<Id>)
    requires ClosedSet(g, s) && MarkedWithin(g, s) && o in s
    ensures DarkerWithin(g, MarkData(g, o), s)
  {
    if White(g, o) && IsUserData(g.heap[o].body) {
      var g1, refs := Blackened(Grayed(g, o), o), g.heap[o].body.refs;
      assert forall c :: c in refs ==> c in Children(g, o);
      var m := ToBlack(ToGray(g.heap[o].mark));
      assert g1 == SetMark(g, o, m);
      RecolourDarker(g, o);
      RecolourDarker(Grayed(g, o), o);
      hide ClosedSet, MarkedWithin, Darker, MarkSimples, Blackened, Grayed, SetMark;
      DarkerTrans(g, Grayed(g, o), g1);
      RecolourWithin(g, o, m, s);
      RefsWithin(g, o, refs, s);
      SimplesWithin(g1, refs, s);
      WithinTrans(g, g1, MarkData(g, o), s);
    } else {
      SimpleWithin(g, o, s);
    }
  }

  lemma RefsWithin(g: G, o: Id, refs: seq<Id>, s: iset<Id>)
    requires ClosedSet(g, s) && o in s && forall c :: c in refs ==> c in Children(g, o)
    ensures forall c :: c in refs ==> c in s
  {
  }

  lemma ValueWithin(g: G, v: Value, s: iset<Id>)
    requires ClosedSet(g, s) && MarkedWithin(g, s) && (v.Ref? ==> v.id in s)
    ensures DarkerWithin(g, MarkValue(g, v), s)
  {
    DarkerSelf(g);
    if v.Ref? { DataWithin(g, v.id, s); }
  }

  lemma UpvalWithin(g: G, o: Id, v: Value, s: iset<Id>)
    requires ClosedSet(g, s) && MarkedWithin(g, s) && o in s && White(g, o) && Children(g, o) == Ids(v)
    ensures DarkerWithin(g, MarkValue(Grayed(g, o), v), s)
  {
    assert v.Ref? ==> v.id in Children(g, o);
    RecolourDarker(g, o);
    hide Darker, MarkValue, Grayed, MarkedWithin;
    assert v.Ref? ==> v.id in s;
    hide ClosedSet;
    assert Grayed(g, o) == SetMark(g, o, ToGray(g.heap[o].mark)) by { GrayedIs(g, o); }
    RecolourWithin(g, o, ToGray(g.heap[o].mark), s);
    ValueWithin(Grayed(g, o), v, s);
    WithinTrans(g, Grayed(g, o), MarkValue(Grayed(g, o), v), s);
  }

  lemma GrayedIs(g: G, o: Id)
    requires o in g.heap
    ensures Grayed(g, o) == SetMark(g, o, ToGray(g.heap[o].mark))
  {
  }

  lemma ObjectWithin(g: G, o: Id, s: iset<Id>)
    requires ClosedSet(g, s) && MarkedWithin(g, s) && o in s
    ensures DarkerWithin(g, MarkObject(g, o), s)
  {
    DarkerSelf(g);
    if White(g, o) {
      match g.heap[o].body
      case Closed(v) => ClosedWithin(g, o, v, s);
      case Open(th, slot) => UpvalWithin(g, o, SlotValue(g, th, slot), s);
      case _ => DataWithin(g, o, s);
    }
  }

  lemma ClosedWithin(g: G, o: Id, v: Value, s: iset<Id>)
    requires ClosedSet(g, s) && MarkedWithin(g, s) && o in s && White(g, o) && g.heap[o].body == Closed(v)
    ensures DarkerWithin(g, MarkObject(g, o), s)
  {
    hide Darker, ClosedSet, MarkValue;
    var g1 := MarkValue(Grayed(g, o), v);
    UpvalWithin(g, o, v, s);
    MarkObjectDarker(g, o);
    var g' := MarkObject(g, o);
    assert g' == SetMark(g1, o, ToBlack(g1.heap[o].mark));
    assert MarkedWithin(g', s);
    ClosedStays(g, g', s);
  }

  lemma {:induction false} AllWithin(g: G, ids: seq<Id>, s: iset<Id>)
    requires ClosedSet(g, s) && MarkedWithin(g, s) && forall c :: c in ids ==> c in s
    ensures DarkerWithin(g, MarkAll(g, ids), s)
    decreases |ids|
  {
    hide ClosedSet, MarkedWithin, Darker, MarkObject;
    DarkerSelf(g);
    if ids != [] {
      assert ids[0] in ids && forall c :: c in ids[1..] ==> c in ids;
      ObjectWithin(g, ids[0], s);
      AllWithin(MarkObject(g, ids[0]), ids[1..], s);
      WithinTrans(g, MarkObject(g, ids[0]), MarkAll(g, ids), s);
    }
  }

  lemma PropagateWithin(g: G, stage: Stage, s: iset<Id>)
    requires Tri(g, {}, stage) && g.gray != [] && ClosedSet(g, s) && MarkedWithin(g, s)
    ensures DarkerWithin(g, PropagateMark(g), s)
  {
    TakenTri(g, stage);
    var o, t := g.gray[0], Taken(g);
    var ids := Traversed(g.heap[o].body);
    TraversesChildren(g, o);
    assert o in g.gray && !White(g, o);
    assert forall p :: White(t, p) <==> White(g, p);
    hide Tri, Darker, Taken, Traversed, Children;
    assert o in s && forall c :: c in ids ==> c in s;
    assert MarkedWithin(t, s);
    hide MarkedWithin;
    ClosedStays(g, t, s);
    AllWithin(t, ids, s);
    WithinTrans(g, t, PropagateMark(g), s);
  }

  lemma {:induction false} PropagateAllWithin(g: G, stage: Stage, s: iset<Id>)
    requires Tri(g, {}, stage) && Typed(g) && ClosedSet(g, s) && MarkedWithin(g, s)
    ensures DarkerWithin(g, PropagateAll(g), s)
    decreases Whites(g), |g.gray|
  {
    hide Tri, Darker, Typed, PropagateMark, ClosedSet, MarkedWithin;
    DarkerSelf(g);
    if g.gray != [] {
      var g1 := PropagateMark(g);
      PropagateTri(g, stage);
      PropagateWithin(g, stage, s);
      DarkerTyped(g, g1);
      PropagateShrinks(g);
      PropagateAllWithin(g1, stage, s);
      WithinTrans(g, g1, PropagateAll(g), s);
    }
  }

  lemma RemarkWithin(g: G, u: Id, s: iset<Id>)
    requires ClosedSet(g, s) && MarkedWithin(g, s)
    ensures DarkerWithin(g, Remark(g, u), s)
  {
    DarkerSelf(g);
    if Gray(g, u) && g.heap[u].body.Open? {
      var v := SlotValue(g, g.heap[u].body.thread, g.heap[u].body.slot);
      assert u in s && (v.Ref? ==> v.id in Children(g, u));
      ValueWithin(g, v, s);
    }
  }

  lemma {:induction false} RemarkUpvalsWithin(g: G, us: seq<Id>, s: iset<Id>)
    requires ClosedSet(g, s) && MarkedWithin(g, s)
    ensures DarkerWithin(g, RemarkUpvals(g, us), s)
    decreases |us|
  {
    hide Darker, ClosedSet, MarkedWithin, Remark;
    DarkerSelf(g);
    if us != [] {
      RemarkWithin(g, us[0], s);
      RemarkUpvalsWithin(Remark(g, us[0]), us[1..], s);
      WithinTrans(g, Remark(g, us[0]), RemarkUpvals(g, us), s);
    }
  }

  lemma FinalWithin(g: G, s: iset<Id>)
    requires Inv(g) && g.phase.Propagate? && ClosedSet(g, s) && MarkedWithin(g, s)
             && forall c :: c in Roots(g) ==> c in s
    ensures DarkerWithin(g, FinalMarks(g), s)
  {
    NothingDead(g);
    RootsTyped(g);
    UvheadIs(g);
    hide Shape, NoDangling, RootMarked;
    var g0 := RemarkUpvals(g, g.uvhead);
    RemarkUpvalsTri(g, g.uvhead);
    DarkerTyped(g, g0);
    forall u | u in g0.heap && g0.heap[u].body.Open? ensures GrayUpvalSettled(g0, u) { assert DarkerAt(g, g0, u); }
    ToStageOne(g0);
    RemarkUpvalsWithin(g, g.uvhead, s);
    var g1 := PropagateAll(g0);
    hide Tri, Darker, Typed, PropagateAll, MarkAll, RemarkUpvals, ClosedSet, MarkedWithin;
    PropagateAllTri(g0, 1);
    PropagateAllWithin(g0, 1, s);
    DarkerTyped(g0, g1);
    WithinTrans(g, g0, g1, s);
    SecondHalf(g, g1, s);
  }

  lemma SecondHalf(g: G, g1: G, s: iset<Id>)
    requires DarkerWithin(g, g1, s) && Tri(g1, {}, 1) && Typed(g1) && forall c :: c in Roots(g) ==> c in s
    requires g1 == PropagateAll(RemarkUpvals(g, g.uvhead)) && g1.running in g1.heap
             && forall c :: c in AllIds(g1.mt) ==> c in g1.heap
    ensures DarkerWithin(g, FinalMarks(g), s)
  {
    hide Tri, Darker, Typed, PropagateAll, MarkAll, RemarkUpvals, ClosedSet, MarkedWithin;
    DarkerRoots(g, g1);
    var ids := [g.running] + Flat(g.mt);
    FlatIds(g.mt);
    assert forall c :: c in ids ==> c in Roots(g);
    var m := MarkAll(g1, ids);
    MarkAllTri(g1, ids, {}, 1);
    AllWithin(g1, ids, s);
    DarkerTyped(g1, m);
    WithinTrans(g, g1, m, s);
    var g2 := PropagateAll(m);
    PropagateAllTri(m, 1);
    PropagateAllWithin(m, 1, s);
    DarkerTyped(m, g2);
    WithinTrans(g, m, g2, s);
    var a := GrayAgain(g2);
    ToStageTwo(g2);
    DarkerTyped(g2, a);
    AgainWithin(g2, s);
    WithinTrans(g, g2, a, s);
    PropagateAllWithin(a, 2, s);
    WithinTrans(g, a, PropagateAll(a), s);
  }

  lemma AgainWithin(g: G, s: iset<Id>)
    requires ClosedSet(g, s) && MarkedWithin(g, s) && Darker(g, GrayAgain(g))
    ensures DarkerWithin(g, GrayAgain(g), s)
  {
    ClosedStays(g, GrayAgain(g), s);
  }

  // ----- what the sweep phases keep ------------------------------------------------------

  // What is live or fixed stays, what is dead and not fixed is not revived.
  ghost predicate SiftsAt(g: G, g': G, o: Id) {
    && (o in g.heap && (Live(g, o) || Fixed(g, o)) ==> o in g'.heap)
    && (o in g'.heap ==>
          && o in g.heap && Fixed(g', o) == Fixed(g, o) && (Live(g, o) ==> Live(g', o))
          && (Dead(g, o) && !Fixed(g, o) ==> Dead(g', o)))
  }

  ghost predicate Sifts(g: G, g': G) { g'.second == g.second && forall o :: SiftsAt(g, g', o) }

  lemma SiftsTrans(g: G, g1: G, g2: G)
    requires Sifts(g, g1) && Sifts(g1, g2)
    ensures Sifts(g, g2)
  {
    forall o ensures SiftsAt(g, g2, o) { assert SiftsAt(g, g1, o) && SiftsAt(g1, g2, o); }
  }

  lemma SweepsSifts(g: G, g': G)
    requires Sweeps(g, g')
    ensures Sifts(g, g')
  {
    forall o ensures SiftsAt(g, g', o) { assert SweepsAt(g, g', o); }
  }

  lemma SiftsSame(g: G, g1: G, g2: G)
    requires Sifts(g, g1) && g2.heap == g1.heap && g2.second == g1.second
    ensures Sifts(g, g2)
  {
    forall o ensures SiftsAt(g, g2, o) { assert SiftsAt(g, g1, o); }
  }

  ghost predicate Sweeping(g: G) { g.phase.SweepString? || g.phase.Sweep? || g.phase.Finalize? }

  lemma StringStepSifts(g: G)
    requires Inv(g) && g.phase.SweepString?
    ensures Sifts(g, SweepBucketStep(g))
  {
    hide Inv, Sweeps, Sifts, SweepBucketFrom;
    var g1 := SweepBucketFrom(g, g.sweepstrgc, 0);
    BucketSweeps(g);
    SweepsSifts(g, g1);
    SiftsSame(g, g1, SweepBucketStep(g));
  }

  lemma RootStepSifts(g: G)
    requires Inv(g) && g.phase.Sweep?
    ensures Sifts(g, SweepRootStep(g))
  {
    hide Inv, Sweeps, Sifts, SweepMany, CheckSizes;
    var g1 := SweepMany(g, GCSWEEPMAX);
    RootSweeps(g);
    SweepsSifts(g, g1);
    CheckSizesHeap(g1);
    SiftsSame(g, g1, SweepRootStep(g));
  }

  lemma StepSifts(g: G)
    requires Inv(g) && Sweeping(g)
    ensures Sifts(g, SingleStep(g))
  {
    hide Inv, Sweeps, Sifts, SweepBucketStep, SweepRootStep;
    if g.phase.SweepString? {
      StringStepSifts(g);
    } else if g.phase.Sweep? {
      RootStepSifts(g);
    } else {
      SweepsSelf(g);
      SweepsSifts(g, g);
      SiftsSame(g, g, SingleStep(g));
    }
  }

  lemma BucketSweeps(g: G)
    requires Inv(g) && g.phase.SweepString?
    ensures Sweeps(g, SweepBucketFrom(g, g.sweepstrgc, 0)) && |SweepBucketFrom(g, g.sweepstrgc, 0).strt| == |g.strt|
    ensures g.sweepstrgc < |g.strt| && SweepBucketFrom(g, g.sweepstrgc, 0).sweepstrgc == g.sweepstrgc
  {
    hide Shape, NoDangling, Sweeps;
    NothingYet(g, g.sweepstrgc);
    SweepBucketGood(g, g.sweepstrgc, 0);
  }

  lemma RootSweeps(g: G)
    requires Inv(g) && g.phase.Sweep?
    ensures Sweeps(g, SweepMany(g, GCSWEEPMAX))
  {
    hide Shape, NoDangling, Sweeps, StringsClean, RootsClean;
    SweepManyGood(g, GCSWEEPMAX);
  }

  lemma CheckSizesHeap(g: G)
    ensures CheckSizes(g).heap == g.heap && CheckSizes(g).second == g.second && CheckSizes(g).rootgc == g.rootgc
    ensures CheckSizes(g).sweepgc == g.sweepgc && CheckSizes(g).phase == g.phase
  {
  }

  // ----- every loop of steps ends -----------------------------------------------------------

  function PhaseRank(p: Phase): nat {
    match p
    case Propagate => 4
    case SweepString => 3
    case Sweep => 2
    case Finalize => 1
    case Pause => 0
  }

  function Unswept(g: G): int { |g.rootgc| - g.sweepgc + |g.uvhead| }

  function StepsLeft(g: G): int {
    match g.phase
    case Propagate => |g.gray|
    case SweepString => |g.strt| - g.sweepstrgc
    case Sweep => Unswept(g)
    case _ => 0
  }

  function WhitesLeft(g: G): set<Id> { if g.phase.Propagate? then Whites(g) else {} }

  // Closing an upvalue moves it from one list to the other.
  lemma {:induction false} CloseUnswept(g: G, t: Id)
    requires ShapeBut(g, {t}) && IsThread(g, t) && OpenClean(g, t, |OpenList(g, t)|)
    ensures Unswept(CloseUpvals(g, t, 0)) <= Unswept(g)
    decreases |OpenList(g, t)|
  {
    OpenListDistinct(g, t);
    if OpenList(g, t) != [] {
      assert OpenAt(g, t, 0) && TopAbove(g, t, 0);
      TopInUvhead(g, t);
      var g1 := CloseTop(g, t);
      hide CloseTop, Sweeps, CurWhite, OpenClean, Unswept;
      CloseCleanTop(g, t, {t});
      CloseOneUnswept(g, t);
      CloseUnswept(g1, t);
    }
  }

  lemma TopInUvhead(g: G, t: Id)
    requires ThreadsOk(g) && OpenAt(g, t, 0)
    ensures OpenList(g, t)[0] in g.uvhead
  {
  }

  lemma CloseOneUnswept(g: G, t: Id)
    requires OpenAt(g, t, 0) && OpenList(g, t)[0] in g.uvhead
    ensures Unswept(LinkFront(ClosedTop(g, t), OpenList(g, t)[0])) <= Unswept(g)
  {
  }

  lemma {:induction false} SweepOpenUnswept(g: G, t: Id, i: nat)
    ensures Unswept(SweepOpenFrom(g, t, i)) <= Unswept(g)
    decreases |OpenList(g, t)| - i
  {
    if OpenAt(g, t, i) {
      var u := OpenList(g, t)[i];
      if Survives(g.second, g.heap[u].mark) {
        SweepOpenUnswept(Whiten(g, u), t, i + 1);
      } else {
        SweepOpenUnswept(FreeOpen(g, t, i), t, i);
      }
    }
  }

  lemma SweepThisUnswept(g: G, o: Id)
    requires ShapeBut(g, {}) && g.sweepgc < |g.rootgc| && g.rootgc[g.sweepgc] == o && o in g.heap
             && OpenClean(g, o, |OpenList(g, o)|)
    ensures Unswept(SweepThis(g, o)) < Unswept(g)
  {
    hide ShapeBut, Shape, CloseUpvals;
    if !Survives(g.second, g.heap[o].mark) {
      var g1 := g.(rootgc := RemoveAt(g.rootgc, g.sweepgc));
      ShapeIs(g);
      UnlinkedRoot(g, o);
      if IsThread(g, o) {
        assert OpenClean(g1, o, |OpenList(g1, o)|);
        CloseUnswept(g1, o);
      }
    }
  }

  lemma SweepNextUnswept(g: G)
    requires Shape(g) && NoDangling(g) && RootsClean(g) && g.sweepgc < |g.rootgc|
    ensures g.rootgc[g.sweepgc] in g.heap && Unswept(SweepNext(g)) < Unswept(g)
  {
    hide Shape, ShapeBut, NoDangling, Sweeps, OpenClean, SweepThis, SweepOpenFrom, CurWhite;
    var o := g.rootgc[g.sweepgc];
    OpenFirst(g);
    SweepOpenUnswept(g, o, 0);
    ShapeIs(SweepOpenFrom(g, o, 0));
    SweepThisUnswept(SweepOpenFrom(g, o, 0), o);
  }

  lemma {:induction false} SweepManyUnswept(g: G, count: nat)
    requires Shape(g) && NoDangling(g) && RootsClean(g)
    ensures Unswept(SweepMany(g, count)) <= Unswept(g)
    ensures count > 0 && g.sweepgc < |g.rootgc| ==> Unswept(SweepMany(g, count)) < Unswept(g)
    decreases count
  {
    hide Shape, NoDangling, RootsClean, SweepNext, Unswept;
    if count > 0 && g.sweepgc < |g.rootgc| {
      SweepNextGood(g);
      SweepNextUnswept(g);
      SweepManyUnswept(SweepNext(g), count - 1);
    }
  }

  // A step leaves less to do, in its phase or by going on to the next.
  lemma StepProgress(g: G)
    requires Inv(g) && !g.phase.Pause?
    ensures var g' := SingleStep(g);
            || PhaseRank(g'.phase) < PhaseRank(g.phase)
            || (g'.phase == g.phase && (WhitesLeft(g') < WhitesLeft(g)
                                        || (WhitesLeft(g') == WhitesLeft(g) && 0 <= StepsLeft(g') < StepsLeft(g))))
  {
    hide Inv, PropagateMark, SweepBucketFrom, SweepMany, Atomic;
    match g.phase
    case Propagate =>
      if g.gray != [] {
        PropagatePhase(g);
        PropagateShrinks(g);
      } else {
        AtomicPhase(g);
      }
    case SweepString => BucketSweeps(g); SamePhase(g, SweepBucketFrom(g, g.sweepstrgc, 0));
    case Sweep => RootProgress(g);
    case Finalize =>
  }

  lemma PropagatePhase(g: G)
    requires Inv(g) && g.phase.Propagate? && g.gray != []
    ensures PropagateMark(g).phase.Propagate?
  {
    PropagateTri(g, 0) by { NothingDead(g); }
    DarkerPhase(g, PropagateMark(g));
  }

  lemma AtomicPhase(g: G)
    ensures Atomic(g).phase.SweepString?
  {
  }

  lemma RootProgress(g: G)
    requires Inv(g) && g.phase.Sweep?
    ensures var g' := SweepRootStep(g); g'.phase.Finalize? || (g'.phase.Sweep? && 0 <= StepsLeft(g') < StepsLeft(g))
  {
    hide Shape, NoDangling, Sweeps, StringsClean, RootsClean, SweepMany;
    var g1 := SweepMany(g, GCSWEEPMAX);
    RootSweeps(g);
    SamePhase(g, g1);
    SweepManyUnswept(g, GCSWEEPMAX);
    CheckSizesHeap(g1);
    if g.sweepgc >= |g.rootgc| { NothingLeft(g); }
  }

  lemma NothingLeft(g: G)
    requires g.sweepgc >= |g.rootgc|
    ensures SweepMany(g, GCSWEEPMAX) == g
  {
  }

  lemma StepsLeftBound(g: G)
    requires Inv(g)
    ensures 0 <= StepsLeft(g)
  {
    RootsgcBound(g);
  }

  // Steps the collector until the phase `stop`.
  ghost function RunUntil(g: G, stop: Phase): (r: G)
    requires Inv(g) && (stop.Pause? || (stop.Finalize? && !g.phase.Pause?))
    ensures Inv(r) && r.phase == stop
    decreases PhaseRank(g.phase), WhitesLeft(g), StepsLeft(g)
  {
    if g.phase == stop then g
    else
      SingleStepInv(g);
      StepProgress(g);
      StepsLeftBound(g);
      assert stop.Finalize? ==> !SingleStep(g).phase.Pause? by {
        if stop.Finalize? { BeforeStop(g); }
      }
      RunUntil(SingleStep(g), stop)
  }

  lemma BeforeStop(g: G)
    requires Inv(g) && !g.phase.Pause? && !g.phase.Finalize?
    ensures !SingleStep(g).phase.Pause?
  {
    hide Inv, PropagateMark, SweepBucketFrom, SweepMany, Atomic;
    match g.phase
    case Propagate => if g.gray != [] { PropagatePhase(g); } else { AtomicPhase(g); }
    case SweepString => BucketSweeps(g); SamePhase(g, SweepBucketFrom(g, g.sweepstrgc, 0));
    case Sweep => RootProgress(g);
  }

  // ----- the mark phase of a full collection ------------------------------------------------

  // The state in which sweeping begins.
  ghost function Marked(g: G): (r: G)
    requires Inv(g) && g.phase.Propagate?
    ensures Inv(r) && r.phase.SweepString?
    decreases Whites(g), |g.gray|
  {
    if g.gray == [] then
      AtomicInv(g);
      Atomic(g)
    else
      PropagateInv(g);
      PropagatePhase(g);
      PropagateShrinks(g);
      Marked(PropagateMark(g))
  }

  lemma {:induction false} RunMarks(g: G, stop: Phase)
    requires Inv(g) && g.phase.Propagate? && (stop.Pause? || stop.Finalize?)
    ensures RunUntil(g, stop) == RunUntil(Marked(g), stop)
    decreases Whites(g), |g.gray|
  {
    hide Inv, PropagateMark, Atomic;
    if g.gray != [] {
      PropagateInv(g);
      PropagatePhase(g);
      PropagateShrinks(g);
      RunMarks(PropagateMark(g), stop);
    } else {
      AtomicInv(g);
    }
  }

  // The same objects, references and roots.
  ghost predicate SameGraph(g: G, g': G) {
    g'.heap.Keys == g.heap.Keys && Roots(g') == Roots(g)
      && forall o :: Children(g', o) == Children(g, o) && Fixed(g', o) == Fixed(g, o)
  }

  lemma DarkerGraph(g: G, g': G)
    requires Darker(g, g')
    ensures SameGraph(g, g')
  {
    forall o ensures Children(g', o) == Children(g, o) && Fixed(g', o) == Fixed(g, o) {
      DarkerChildren(g, g', o);
      if o in g.heap { assert DarkerAt(g, g', o); }
    }
  }

  lemma RecordGraph(g: G, g': G)
    requires g'.heap == g.heap && Roots(g') == Roots(g)
    ensures SameGraph(g, g')
  {
    forall o ensures Children(g', o) == Children(g, o) { SameChildren(g, g', o); }
  }

  lemma GraphTrans(g: G, g1: G, g2: G)
    requires SameGraph(g, g1) && SameGraph(g1, g2)
    ensures SameGraph(g, g2)
  {
  }

  // Marking ends with every marked object in the set it stays within.
  ghost predicate LiveWithin(g: G, s: iset<Id>) { forall o :: Live(g, o) ==> o in s }

  lemma AtomicWithin(g: G, s: iset<Id>)
    requires Inv(g) && g.phase.Propagate? && ClosedSet(g, s) && MarkedWithin(g, s)
             && forall c :: c in Roots(g) ==> c in s
    ensures LiveWithin(Atomic(g), s) && SameGraph(g, Atomic(g))
  {
    hide Inv, Darker, FinalMarks, Children, ClosedSet;
    var r := FinalMarks(g);
    FinalWithin(g, s);
    FinalRoots(g);
    DarkerSecond(g, r);
    DarkerGraph(g, r);
    FlippedWithin(g, r, s);
    RecordGraph(r, Atomic(g));
    GraphTrans(g, r, Atomic(g));
  }

  lemma FlippedWithin(g: G, r: G, s: iset<Id>)
    requires r == FinalMarks(g) && Tri(r, {}, 2) && MarkedWithin(r, s) && r.second == g.second
    ensures LiveWithin(Atomic(g), s)
  {
    forall o | Live(Atomic(g), o) ensures o in s { FlipMeans(r, o); }
  }

  lemma {:induction false} MarkedIs(g: G, s: iset<Id>)
    requires Inv(g) && g.phase.Propagate? && ClosedSet(g, s) && MarkedWithin(g, s)
             && forall c :: c in Roots(g) ==> c in s
    ensures LiveWithin(Marked(g), s) && SameGraph(g, Marked(g))
    decreases Whites(g), |g.gray|
  {
    if g.gray == [] {
      AtomicWithin(g, s);
    } else {
      var g1 := PropagateMark(g);
      PropagateWithin(g, 0, s);
      hide Inv, Darker, PropagateMark, Children, Roots, MarkedWithin, ClosedSet, LiveWithin;
      PropagateInv(g);
      PropagatePhase(g);
      PropagateShrinks(g);
      DarkerGraph(g, g1);
      MarkedIs(g1, s);
      GraphTrans(g, g1, Marked(g));
    }
  }

  // ----- the sweep of a full collection --------------------------------------------------------

  lemma {:induction false} RunSifts(g: G, stop: Phase)
    requires Inv(g) && Sweeping(g) && (stop.Pause? || stop.Finalize?)
    ensures Sifts(g, RunUntil(g, stop))
    decreases PhaseRank(g.phase), StepsLeft(g)
  {
    hide Inv, Sifts, SingleStep;
    if g.phase != stop {
      SingleStepInv(g);
      StepProgress(g);
      StepsLeftBound(g);
      StepSifts(g);
      var g1 := SingleStep(g);
      if g1.phase != stop {
        NextPhase(g);
        RunSifts(g1, stop);
        SiftsTrans(g, g1, RunUntil(g, stop));
      }
    } else {
      SiftsSelf(g);
    }
  }

  lemma SiftsSelf(g: G)
    ensures Sifts(g, g)
  {
  }

  lemma NextPhase(g: G)
    requires Inv(g) && Sweeping(g)
    ensures var g' := SingleStep(g);
            (Sweeping(g') || g'.phase.Pause?) && WhitesLeft(g') == WhitesLeft(g) == {}
              && (g.phase.Finalize? <==> g'.phase.Pause?)
  {
    hide Inv, SweepBucketFrom, SweepMany;
    if g.phase.SweepString? {
      BucketSweeps(g);
      SamePhase(g, SweepBucketFrom(g, g.sweepstrgc, 0));
    } else if g.phase.Sweep? {
      RootProgress(g);
    }
  }

  // ----- a full collection -------------------------------------------------------------------

  // What luaC_fullgc does before it marks the roots: a pending sweep is finished, or one
  // that only turns objects white again is made.
  ghost function BeforeMark(g: G): (r: G)
    requires Inv(g)
    ensures Inv(r) && r.phase.Finalize?
  {
    if g.phase.Pause? || g.phase.Propagate? then
      ResetSweepInv(g);
      RunUntil(ResetSweep(g), Finalize)
    else RunUntil(g, Finalize)
  }

  ghost function FullGc(g: G): (r: G)
    requires Inv(g)
    ensures Inv(r) && r.phase.Pause?
  {
    var g1 := BeforeMark(g);
    MarkRootInv(g1);
    RunUntil(MarkRoot(g1), Pause)
  }

  // The preliminary sweep of a collection that has not begun sweeping frees nothing.
  lemma ResetFreesNothing(g: G)
    requires Inv(g) && (g.phase.Pause? || g.phase.Propagate?)
    ensures BeforeMark(g).heap.Keys == g.heap.Keys
  {
    hide Inv, ResetSweep, RunUntil, Sifts, Live, Dead;
    var g1 := ResetSweep(g);
    ResetSweepInv(g);
    ResetIs(g);
    RunSifts(g1, Finalize);
    KeepsAll(g1, BeforeMark(g));
  }

  lemma ResetIs(g: G)
    ensures ResetSweep(g).heap == g.heap && Sweeping(ResetSweep(g)) && !ResetSweep(g).phase.Pause?
  {
  }

  lemma KeepsAll(g: G, g': G)
    requires Sifts(g, g') && forall o :: o in g.heap ==> !Dead(g, o)
    ensures g'.heap.Keys == g.heap.Keys
  {
    forall o ensures o in g'.heap <==> o in g.heap { assert SiftsAt(g, g', o); }
  }

  ghost function ReachSet(g: G): iset<Id> { iset o | Reachable(g, o) }

  lemma ReachSetClosed(g: G)
    ensures ClosedSet(g, ReachSet(g)) && forall c :: c in Roots(g) ==> c in ReachSet(g)
  {
    forall p, c | p in ReachSet(g) && c in Children(g, p) ensures c in ReachSet(g) { ChildReachable(g, p, c); }
    forall c | c in Roots(g) ensures c in ReachSet(g) { RootReachable(g, c); }
  }

  // What is reachable in the same graph is live there.
  lemma GraphReach(g: G, g': G, o: Id)
    requires SameGraph(g, g') && NoDangling(g') && Reachable(g, o)
    ensures Live(g', o)
  {
    var s := iset p | Live(g', p);
    var n: nat :| ReachIn(g, o, n);
    assert forall r :: r in Roots(g) ==> r in s;
    forall p, c | p in s && c in Children(g, p) ensures c in s { assert ChildrenLive(g', p); }
    ReachInWithin(g, s, o, n);
  }

  lemma StartWithin(g: G)
    requires Inv(g) && g.phase.Finalize?
    ensures var m, s := MarkRoot(g), ReachSet(g);
            Inv(m) && m.phase.Propagate? && ClosedSet(m, s) && MarkedWithin(m, s) && SameGraph(g, m)
  {
    hide Inv, ReachSet, Reachable, MarkAll, RootIds, Children, ClosedSet, MarkedWithin, AllCurWhite, SameGraph,
         MarkRoot, DarkerWithin;
    var s, g0 := ReachSet(g), g.(gray := [], grayagain := []);
    WhiteBefore(g);
    MarkRootInv(g);
    ReachSetClosed(g);
    RecordGraph(g, g0);
    RootIdsReach(g);
    AllWhiteWithin(g, g0, s);
    AllWithin(g0, RootIds(g), s);
    MarkedFrom(g, g0, s);
  }

  lemma WhiteBefore(g: G)
    requires Inv(g) && g.phase.Finalize?
    ensures AllCurWhite(g)
  {
  }

  lemma MarkedFrom(g: G, g0: G, s: iset<Id>)
    requires g0 == g.(gray := [], grayagain := []) && SameGraph(g, g0) && DarkerWithin(g0, MarkAll(g0, RootIds(g)), s)
    ensures var m := MarkRoot(g); m.phase.Propagate? && ClosedSet(m, s) && MarkedWithin(m, s) && SameGraph(g, m)
  {
    hide ClosedSet, MarkedWithin, MarkAll, RootIds, SameGraph, Darker;
    var m1, m := MarkAll(g0, RootIds(g)), MarkRoot(g);
    DarkerGraph(g0, m1);
    GraphTrans(g, g0, m1);
    RecordGraph(m1, m);
    GraphTrans(g, m1, m);
    RecordWithin(m1, m, s);
  }

  lemma RecordWithin(g: G, g': G, s: iset<Id>)
    requires g'.heap == g.heap && ClosedSet(g, s) && MarkedWithin(g, s)
    ensures ClosedSet(g', s) && MarkedWithin(g', s)
  {
    forall p, c | p in s && c in Children(g', p) ensures c in s { SameChildren(g, g', p); }
  }

  lemma AllWhiteWithin(g: G, g0: G, s: iset<Id>)
    requires AllCurWhite(g) && g0.heap == g.heap && ClosedSet(g, s)
    ensures ClosedSet(g0, s) && MarkedWithin(g0, s)
  {
    forall p, c | p in s && c in Children(g0, p) ensures c in s { SameChildren(g, g0, p); }
    forall o | o in g0.heap ensures White(g0, o) { assert CurWhite(g, o); }
  }

  lemma RootIdsReach(g: G)
    requires Inv(g)
    ensures forall c :: c in RootIds(g) ==> c in ReachSet(g)
  {
    hide Inv;
    FlatIds([MainGlobals(g)]);
    FlatIds([g.registry]);
    FlatIds(g.mt);
    assert forall v :: AllIds([v]) == Ids(v);
    ReachSetClosed(g);
    forall c | c in Ids(MainGlobals(g)) ensures c in ReachSet(g) {
      assert c in Children(g, g.main) && g.main in ReachSet(g);
    }
  }

  // ----- what a full collection leaves alone ----------------------------------------------------

  lemma {:induction false} RunCollects(g: G, stop: Phase)
    requires Inv(g) && (stop.Pause? || (stop.Finalize? && !g.phase.Pause?))
    ensures Collects(g, RunUntil(g, stop))
    decreases PhaseRank(g.phase), WhitesLeft(g), StepsLeft(g)
  {
    hide Inv, SingleStep, Collects;
    if g.phase == stop {
      CollectsSelf(g);
    } else {
      SingleStepCollects(g);
      StepProgress(g);
      StepsLeftBound(g);
      if stop.Finalize? { BeforeStop(g); }
      RunCollects(SingleStep(g), stop);
      CollectsTrans(g, SingleStep(g), RunUntil(g, stop));
    }
  }

  lemma BeforeMarkCollects(g: G)
    requires Inv(g)
    ensures Collects(g, BeforeMark(g))
  {
    hide Inv, Collects, RunUntil;
    if g.phase.Pause? || g.phase.Propagate? {
      ResetSweepCollects(g);
      RunCollects(ResetSweep(g), Finalize);
      CollectsTrans(g, ResetSweep(g), BeforeMark(g));
    } else {
      RunCollects(g, Finalize);
    }
  }

  lemma FullGcCollects(g: G)
    requires Inv(g)
    ensures Collects(g, FullGc(g))
  {
    hide Inv, Collects, RunUntil, MarkRoot, BeforeMark;
    var g1 := BeforeMark(g);
    BeforeMarkCollects(g);
    MarkRootCollects(g1);
    RunCollects(MarkRoot(g1), Pause);
    CollectsTrans(g, g1, MarkRoot(g1));
    CollectsTrans(g, MarkRoot(g1), FullGc(g));
  }

  // A full collection keeps exactly what can be reached or is fixed when it is asked for,
  // as it was, and leaves it in the current white.
  lemma FullGcExact(g: G)
    requires Inv(g)
    ensures var after := FullGc(g);
            && (forall o :: o in after.heap <==> o in g.heap && (Reachable(g, o) || Fixed(g, o)))
            && (forall o :: o in after.heap ==> CurWhite(after, o))
            && Collects(g, after)
  {
    hide Inv, BeforeMark, FullGc, Reachable, Untouched;
    BeforeMarkCollects(g);
    FullGcCollects(g);
    MarkedExact(g);
    var before, after := BeforeMark(g), FullGc(g);
    forall o ensures o in after.heap <==> o in g.heap && (Reachable(g, o) || Fixed(g, o)) {
      assert o in after.heap <==> o in before.heap && (Reachable(before, o) || Fixed(before, o));
      UntouchedKeys(g, before);
    }
  }

  lemma UntouchedKeys(g: G, g': G)
    requires Untouched(g, g')
    ensures g'.heap.Keys <= g.heap.Keys
  {
  }

  // The same about the state in which the roots are marked.
  lemma MarkedExact(g: G)
    requires Inv(g)
    ensures var before, after := BeforeMark(g), FullGc(g);
            && (forall o :: o in after.heap <==> o in before.heap && (Reachable(before, o) || Fixed(before, o)))
            && (forall o :: o in after.heap ==> CurWhite(after, o))
  {
    hide Inv, ClosedSet, MarkedWithin, Roots, Children, BeforeMark, MarkRoot;
    var g0, r := BeforeMark(g), FullGc(g);
    var m, s := MarkRoot(g0), ReachSet(g0);
    StartWithin(g0);
    ReachSetClosed(g0);
    AllWhiteAtEnd(r);
    assert forall c :: c in Roots(m) ==> c in s;
    MarkedIs(m, s);
    RunMarks(m, Pause);
    var a := Marked(m);
    GraphTrans(g0, m, a);
    RunSifts(a, Pause);
    InvNoDangling(a);
    forall o ensures o in r.heap <==> o in g0.heap && (Reachable(g0, o) || Fixed(g0, o)) { Exactly(g0, a, r, o); }
  }

  lemma AllWhiteAtEnd(g: G)
    requires Inv(g) && g.phase.Pause?
    ensures forall o :: o in g.heap ==> CurWhite(g, o)
  {
  }

  lemma Exactly(g0: G, a: G, r: G, o: Id)
    requires SameGraph(g0, a) && NoDangling(a) && LiveWithin(a, ReachSet(g0)) && Sifts(a, r)
    requires forall p :: p in r.heap ==> CurWhite(r, p)
    ensures o in r.heap <==> o in g0.heap && (Reachable(g0, o) || Fixed(g0, o))
  {
    assert SiftsAt(a, r, o);
    assert Fixed(a, o) == Fixed(g0, o);
    if Reachable(g0, o) { GraphReach(g0, a, o); }
    if o in r.heap && !Fixed(a, o) { assert !Dead(a, o); }
  }
}

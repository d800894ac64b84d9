// The collector's single step, in every phase.

module GcStep {
  import opened GcState
  import opened GcMark
  import opened GcAtomic
  import opened GcSweep
  import opened GcSweepAll
  import opened GcInvariant
  import opened GcMutator
  import opened GcStrings
  import opened GcClose

  const GCSWEEPMAX := 40

  function MainGlobals(g: G): Value {
    if IsThread(g, g.main) then g.heap[g.main].body.globals else Nil
  }

  function RootIds(g: G): seq<Id> {
    [g.main] + Flat([MainGlobals(g)]) + Flat([g.registry]) + Flat(g.mt)
  }

  // Starts a collection: marks the roots.
  function MarkRoot(g: G): G {
    MarkAll(g.(gray := [], grayagain := []), RootIds(g)).(phase := Propagate)
  }

  function SweepBucketStep(g: G): G {
    var g1 := SweepBucketFrom(g, g.sweepstrgc, 0);
    if g.sweepstrgc + 1 >= |g1.strt| then g1.(sweepstrgc := g.sweepstrgc + 1, phase := Sweep)
    else g1.(sweepstrgc := g.sweepstrgc + 1)
  }

  // Halves a string table that is mostly empty.
  function CheckSizes(g: G): G {
    if g.nuse < |g.strt| / 4 && |g.strt| > MINSTRTABSIZE * 2 then Resize(g, |g.strt| / 2) else g
  }

  function SweepRootStep(g: G): G {
    var g1 := SweepMany(g, GCSWEEPMAX);
    if g1.sweepgc >= |g1.rootgc| then CheckSizes(g1).(phase := Finalize) else g1
  }

  // One step of the collector.
  function SingleStep(g: G): G {
    match g.phase
    case Pause => MarkRoot(g)
    case Propagate => if g.gray != [] then PropagateMark(g) else Atomic(g)
    case SweepString => SweepBucketStep(g)
    case Sweep => SweepRootStep(g)
    case Finalize => g.(phase := Pause)
  }

  // The beginning of a full collection: marks set so far are swept away.
  function ResetSweep(g: G): G {
    g.(sweepstrgc := 0, sweepgc := 0, gray := [], grayagain := [], phase := SweepString)
  }

  // Everything that is freed was dead.
  ghost predicate FreesDead(g: G, g': G) {
    forall o :: o in g.heap && o !in g'.heap ==> Dead(g, o) && !Fixed(g, o)
  }

  lemma SweepsFreesDead(g: G, g': G)
    requires Sweeps(g, g')
    ensures FreesDead(g, g')
  {
    forall o | o in g.heap && o !in g'.heap ensures Dead(g, o) && !Fixed(g, o) { assert SweepsAt(g, g', o); }
  }

  // ----- starting -----------------------------------------------------------------

  lemma WhiteTri(g: G)
    requires AllCurWhite(g) && Shape(g)
    ensures Tri(g.(gray := [], grayagain := []), {}, 0)
  {
    var g' := g.(gray := [], grayagain := []);
    forall o | o in g'.heap ensures TriAt(g', {}, 0, o) { assert CurWhite(g, o); }
  }

  lemma RootIdsAre(g: G)
    requires NoDangling(g)
    ensures forall c :: c in RootIds(g) ==> c in g.heap
    ensures g.main in RootIds(g) && forall c :: c in Ids(g.registry) + AllIds(g.mt) ==> c in RootIds(g)
  {
    FlatIds([MainGlobals(g)]);
    FlatIds([g.registry]);
    FlatIds(g.mt);
    assert forall v :: AllIds([v]) == Ids(v);
    assert ChildrenLive(g, g.main);
    forall c | c in Ids(MainGlobals(g)) ensures c in g.heap { assert c in Children(g, g.main); }
  }

  lemma MarkRootInv(g: G)
    requires Inv(g) && (g.phase.Pause? || g.phase.Finalize?)
    ensures Inv(MarkRoot(g)) && MarkRoot(g).heap.Keys == g.heap.Keys
  {
    hide Tri, Typed, Darker, Shape, ShapeBut, NoDangling, MarkAll, RootIds;
    var g0 := g.(gray := [], grayagain := []);
    var g1 := MarkAll(g0, RootIds(g));
    NothingDead(g);
    WhiteTri(g);
    RootIdsAre(g);
    assert Inv(g0) by { ListsCleared(g); }
    NothingDead(g0);
    MarkAllTri(g0, RootIds(g), {}, 0);
    DarkerNoDangling(g0, g1);
    ShapeIs(g0);
    DarkerShape(g0, g1, {});
    ShapeIs(g1);
    DarkerRoots(g0, g1);
    Started(g1);
  }

  lemma MarksOf(g: G)
    requires Inv(g)
    ensures MarksOk(g)
  {
  }

  lemma ListsCleared(g: G)
    requires Inv(g) && (g.phase.Pause? || g.phase.Finalize?)
    ensures Inv(g.(gray := [], grayagain := []))
  {
    hide Inv, ChildrenLive, MarksOk;
    var g' := g.(gray := [], grayagain := []);
    MarksOf(g);
    MarksOkSame(g, g');
    RecolouredInv(g, g');
  }

  lemma DarkerRoots(g: G, g': G)
    requires Darker(g, g')
    ensures g'.main == g.main && g'.running == g.running && g'.registry == g.registry && g'.mt == g.mt
            && g'.heap.Keys == g.heap.Keys
  {
  }

  lemma Started(g: G)
    requires Shape(g) && NoDangling(g) && Tri(g, {}, 0) && RootMarked(g)
    ensures Inv(g.(phase := Propagate))
  {
    hide Shape, NoDangling;
    var g' := g.(phase := Propagate);
    RootsgcBound(g);
    SameHeap(g, g');
    StartedTri(g);
  }

  lemma StartedTri(g: G)
    requires Tri(g, {}, 0)
    ensures Tri(g.(phase := Propagate), {}, 0)
  {
    var g' := g.(phase := Propagate);
    forall o | o in g'.heap ensures TriAt(g', {}, 0, o) {
      assert TriAt(g, {}, 0, o);
      SameChildren(g, g', o);
    }
  }

  // Phase and sweep positions do not matter to the shape or to what refers to what.
  lemma SameHeap(g: G, g': G)
    requires Shape(g) && NoDangling(g)
    requires g' == g.(phase := g'.phase, sweepgc := g'.sweepgc, sweepstrgc := g'.sweepstrgc, gray := g'.gray,
                      grayagain := g'.grayagain)
    requires g'.sweepgc <= |g.rootgc|
    ensures Shape(g') && NoDangling(g')
  {
    hide ThreadsOk, RootsOk, StringsOk, MarksOk, NoDangling;
    ThreadsOkSame(g, g');
    RootsOkSame(g, g', {});
    StringsOkSame(g, g');
    MarksOkSame(g, g');
    SameRefs(g, g');
  }

  lemma SameRefs(g: G, g': G)
    requires NoDangling(g) && g'.heap == g.heap && g'.second == g.second
    requires g'.main == g.main && g'.running == g.running && g'.registry == g.registry && g'.mt == g.mt
    ensures NoDangling(g')
  {
    forall o | Live(g', o) ensures ChildrenLive(g', o) {
      assert ChildrenLive(g, o);
      SameChildren(g, g', o);
    }
  }

  // ----- marking --------------------------------------------------------------------

  lemma PropagateInv(g: G)
    requires Inv(g) && g.phase.Propagate? && g.gray != []
    ensures Inv(PropagateMark(g)) && PropagateMark(g).heap.Keys == g.heap.Keys
  {
    hide Tri, Typed, Darker, Shape, ShapeBut, NoDangling, PropagateMark, RootMarked;
    var g' := PropagateMark(g);
    NothingDead(g);
    NoDanglingMain(g);
    PropagateTri(g, 0);
    DarkerNoDangling(g, g');
    ShapeIs(g);
    DarkerShape(g, g', {});
    ShapeIs(g');
    DarkerRootMarked(g, g');
    DarkerPhase(g, g');
  }

  // ----- the end of marking ------------------------------------------------------------

  // After the flip, what was marked is live and what was not is dead.
  lemma FlipMeans(r: G, o: Id)
    requires Tri(r, {}, 2) && o in r.heap
    ensures Live(r.(second := !r.second), o) <==> !White(r, o)
  {
    assert TriAt(r, {}, 2, o);
  }

  lemma FlipNoDangling(r: G)
    requires Tri(r, {}, 2) && r.gray == [] && Typed(r)
    requires forall c :: c in Roots(r) ==> c in r.heap && !White(r, c)
    requires forall c :: c in Ids(r.registry) + AllIds(r.mt) ==> c in r.heap && !IsUpval(r.heap[c].body)
    ensures NoDangling(r.(second := !r.second))
  {
    var g' := r.(second := !r.second);
    forall o | Live(g', o) ensures ChildrenLive(g', o) {
      FlipMeans(r, o);
      AllSettled(r, o);
      assert TypedAt(r, o);
      SameChildren(r, g', o);
      forall c | c in Children(g', o) ensures Live(g', c) { FlipMeans(r, c); }
    }
    forall c | c in Roots(r) ensures Live(g', c) { FlipMeans(r, c); }
  }

  lemma FinalRoots(g: G)
    requires Inv(g) && g.phase.Propagate?
    ensures var r := FinalMarks(g);
            && Darker(g, r) && Tri(r, {}, 2) && Typed(r) && r.gray == []
            && (forall c :: c in Roots(r) ==> c in r.heap && !White(r, c))
            && (forall c :: c in Ids(r.registry) + AllIds(r.mt) ==> c in r.heap && !IsUpval(r.heap[c].body))
  {
    hide Tri, Typed, Shape, NoDangling, FinalMarks, Darker, RootMarked;
    var r := FinalMarks(g);
    NothingDead(g);
    RootsTyped(g);
    UvheadIs(g);
    AtomicTri(g);
    DarkerTyped(g, r);
    DarkerRoots(g, r);
    DarkerRootMarked(g, r);
    MarkedRoots(g, r);
  }

  lemma RootsTyped(g: G)
    requires NoDangling(g)
    ensures forall c :: c in Roots(g) ==> c in g.heap
    ensures forall c :: c in Ids(g.registry) + AllIds(g.mt) ==> c in g.heap && !IsUpval(g.heap[c].body)
  {
  }

  lemma MarkedRoots(g: G, r: G)
    requires Darker(g, r) && RootMarked(r) && !White(r, r.running) && (forall c :: c in AllIds(g.mt) ==> !White(r, c))
    requires r.main == g.main && r.running == g.running && r.registry == g.registry && r.mt == g.mt
    requires forall c :: c in Roots(g) ==> c in g.heap
    requires forall c :: c in Ids(g.registry) + AllIds(g.mt) ==> c in g.heap && !IsUpval(g.heap[c].body)
    ensures forall c :: c in Roots(r) ==> c in r.heap && !White(r, c)
    ensures forall c :: c in Ids(r.registry) + AllIds(r.mt) ==> c in r.heap && !IsUpval(r.heap[c].body)
  {
    hide Darker;
    forall c | c in Roots(r) ensures c in r.heap && !White(r, c) { DarkerBody(g, r, c); }
    forall c | c in Ids(r.registry) + AllIds(r.mt) ensures c in r.heap && !IsUpval(r.heap[c].body) {
      DarkerBody(g, r, c);
    }
  }

  lemma UvheadIs(g: G)
    requires Shape(g)
    ensures forall u :: u in g.uvhead <==> u in g.heap && g.heap[u].body.Open?
  {
  }

  lemma AtomicInv(g: G)
    requires Inv(g) && g.phase.Propagate?
    ensures Inv(Atomic(g)) && Atomic(g).heap.Keys == g.heap.Keys
  {
    hide Tri, Typed, Shape, ShapeBut, NoDangling, FinalMarks, Darker;
    var r := FinalMarks(g);
    FinalRoots(g);
    assert Shape(g);
    ShapeIs(g);
    DarkerShape(g, r, {});
    ShapeIs(r);
    FlipNoDangling(r);
    var r1 := r.(second := !r.second);
    FlipShape(r);
    SameHeap(r1, r1.(sweepstrgc := 0, sweepgc := 0, phase := SweepString));
    DarkerRoots(g, r);
    assert Atomic(g) == r1.(sweepstrgc := 0, sweepgc := 0, phase := SweepString) by { DarkerSecond(g, r); }
    Flipped(Atomic(g));
  }

  lemma DarkerSecond(g: G, r: G)
    requires Darker(g, r)
    ensures r.second == g.second
  {
  }

  lemma FlipShape(r: G)
    requires Shape(r)
    ensures Shape(r.(second := !r.second))
  {
    hide ThreadsOk, RootsOk, StringsOk, MarksOk;
    var g' := r.(second := !r.second);
    ThreadsOkSame(r, g');
    SweepgcOk(r);
    RootsOkSame(r, g', {});
    StringsOkSame(r, g');
    MarksOkSame(r, g');
  }

  lemma Flipped(g: G)
    requires Shape(g) && NoDangling(g) && g.phase.SweepString? && g.sweepgc == 0 && g.sweepstrgc == 0
    ensures Inv(g)
  {
  }

  // ----- sweeping strings -----------------------------------------------------------------

  lemma SweepStringInv(g: G)
    requires Inv(g) && g.phase.SweepString?
    ensures Inv(SweepBucketStep(g)) && FreesDead(g, SweepBucketStep(g))
  {
    hide Shape, NoDangling, Sweeps, SweepBucketFrom, BucketClean, StringTurn, FreesDead, SweepBucketStep;
    var b, g1 := g.sweepstrgc, SweepBucketFrom(g, g.sweepstrgc, 0);
    NothingYet(g, b);
    SweepBucketGood(g, b, 0);
    EarlierBuckets(g, g1, b);
    TurnFacts(g, g1, b);
    AfterBucket(g, g1, b);
  }

  lemma TurnFacts(g: G, g1: G, b: nat)
    requires StringTurn(g, g1, b)
    ensures Shape(g1) && NoDangling(g1) && FreesDead(g, g1) && g1.sweepgc == g.sweepgc && g1.phase == g.phase
    ensures |g1.strt| == |g.strt| && g1.sweepstrgc == g.sweepstrgc
  {
    SweepsFreesDead(g, g1);
  }

  lemma FreesAlike(g: G, g1: G, g': G)
    requires FreesDead(g, g1) && g'.heap == g1.heap
    ensures FreesDead(g, g')
  {
  }

  lemma AfterBucket(g: G, g1: G, b: nat)
    requires g1 == SweepBucketFrom(g, g.sweepstrgc, 0) && b == g.sweepstrgc && b < |g1.strt| && g1.sweepstrgc == b
    requires Shape(g1) && NoDangling(g1) && FreesDead(g, g1) && g1.sweepgc == 0 && g1.phase.SweepString?
    requires forall c :: 0 <= c <= b ==> BucketClean(g1, c, |g1.strt[c]|)
    ensures Inv(SweepBucketStep(g)) && FreesDead(g, SweepBucketStep(g))
  {
    hide Shape, NoDangling, BucketClean, SweepBucketStep, SweepBucketFrom, Inv, FreesDead;
    var g' := SweepBucketStep(g);
    RootsgcBound(g1);
    BucketStepIs(g, g1, b);
    FreesAlike(g, g1, g');
    SameHeap(g1, g');
    BucketsOf(g1, g', b);
  }

  lemma BucketStepIs(g: G, g1: G, b: nat)
    requires g1 == SweepBucketFrom(g, g.sweepstrgc, 0) && b == g.sweepstrgc && b < |g1.strt|
    ensures SweepBucketStep(g) == if b + 1 >= |g1.strt| then g1.(sweepstrgc := b + 1, phase := Sweep)
                                  else g1.(sweepstrgc := b + 1)
  {
    hide SweepBucketFrom;
  }

  lemma NothingYet(g: G, b: nat)
    requires b < |g.strt|
    ensures BucketClean(g, b, 0)
  {
  }

  lemma RootsgcBound(g: G)
    requires Shape(g)
    ensures g.sweepgc <= |g.rootgc|
  {
  }

  lemma EarlierBuckets(g: G, g1: G, b: nat)
    requires BucketsClean(g) && b == g.sweepstrgc && StringTurn(g, g1, b) && BucketClean(g1, b, |g1.strt[b]|)
    ensures forall c :: 0 <= c <= b ==> BucketClean(g1, c, |g1.strt[c]|)
  {
    forall c | 0 <= c <= b ensures BucketClean(g1, c, |g1.strt[c]|) {
      if c < b {
        assert BucketClean(g, c, |g.strt[c]|);
        forall i | 0 <= i < |g1.strt[c]| ensures CurWhite(g1, g1.strt[c][i]) { CurWhiteStays(g, g1, g.strt[c][i]); }
      }
    }
  }

  lemma BucketsOf(g1: G, g': G, b: nat)
    requires Shape(g') && NoDangling(g') && b < |g1.strt|
             && (forall c :: 0 <= c <= b ==> BucketClean(g1, c, |g1.strt[c]|))
    requires g1.sweepgc == 0 && g1.phase.SweepString?
    requires g' == if b + 1 >= |g1.strt| then g1.(sweepstrgc := b + 1, phase := Sweep) else g1.(sweepstrgc := b + 1)
    ensures Inv(g')
  {
    if b + 1 >= |g1.strt| {
      forall o | o in g'.heap && g'.heap[o].body.Str? ensures CurWhite(g', o) {
        var c := Bucket(g'.heap[o].body.text, |g'.strt|);
        assert o in g'.strt[c];
        var i :| 0 <= i < |g'.strt[c]| && g'.strt[c][i] == o;
        assert BucketClean(g1, c, |g1.strt[c]|);
      }
    } else {
      forall c | 0 <= c < g'.sweepstrgc ensures BucketClean(g', c, |g'.strt[c]|) {
        assert BucketClean(g1, c, |g1.strt[c]|);
      }
    }
  }

  // ----- sweeping all objects ----------------------------------------------------------------

  lemma SweepRootInv(g: G)
    requires Inv(g) && g.phase.Sweep?
    ensures Inv(SweepRootStep(g)) && FreesDead(g, SweepRootStep(g))
  {
    hide Shape, NoDangling, Sweeps, SweepMany, StringsClean, RootsClean, CheckSizes, FreesDead;
    var g1 := SweepMany(g, GCSWEEPMAX);
    SweepManyGood(g, GCSWEEPMAX);
    SweepsFreesDead(g, g1);
    SweptStrings(g, g1);
    SamePhase(g, g1);
    if g1.sweepgc >= |g1.rootgc| {
      CheckSizesInv(g1);
      Finished(CheckSizes(g1));
      FreesSame(g, g1, SweepRootStep(g));
    }
  }

  lemma SamePhase(g: G, g1: G)
    requires Sweeps(g, g1)
    ensures g1.phase == g.phase
  {
  }

  lemma FreesSame(g: G, g1: G, g2: G)
    requires FreesDead(g, g1) && g2.heap == g1.heap
    ensures FreesDead(g, g2)
  {
  }

  lemma SweptStrings(g: G, g1: G)
    requires StringsClean(g) && Sweeps(g, g1) && Shape(g) && Shape(g1) && g1.strt == g.strt
    ensures StringsClean(g1)
  {
    forall o | o in g1.heap && g1.heap[o].body.Str? ensures CurWhite(g1, o) {
      assert SweepsAt(g, g1, o);
      assert o in g1.strt[Bucket(g1.heap[o].body.text, |g1.strt|)];
      CurWhiteStays(g, g1, o);
    }
  }

  lemma CheckSizesInv(g: G)
    requires Inv(g) && g.phase.Sweep? && g.sweepgc >= |g.rootgc|
    ensures var g' := CheckSizes(g);
            Inv(g') && g'.phase.Sweep? && g'.sweepgc >= |g'.rootgc| && g'.heap == g.heap
  {
    hide Inv;
    if g.nuse < |g.strt| / 4 && |g.strt| > MINSTRTABSIZE * 2 {
      ResizeInv(g, |g.strt| / 2);
      ResizeFields(g, |g.strt| / 2);
    }
  }

  lemma ResizeFields(g: G, newsize: nat)
    requires newsize > 0
    ensures Resize(g, newsize) == g.(strt := Resize(g, newsize).strt)
  {
  }

  // When the sweeper is through, everything is white: also open upvalues, which are
  // swept with their threads.
  lemma Finished(g: G)
    requires Inv(g) && g.phase.Sweep? && g.sweepgc >= |g.rootgc|
    ensures Inv(g.(phase := Finalize))
  {
    var g' := g.(phase := Finalize);
    RootsgcBound(g);
    SameHeap(g, g');
    forall o | o in g.heap ensures CurWhite(g', o) { AllSwept(g, o); }
  }

  lemma AllSwept(g: G, o: Id)
    requires Inv(g) && g.phase.Sweep? && g.sweepgc >= |g.rootgc| && o in g.heap
    ensures CurWhite(g, o)
  {
    match g.heap[o].body
    case Str(_) =>
    case Open(t, _) =>
      assert IsThread(g, t) && o in OpenList(g, t) && t in g.rootgc;
      SweptRoot(g, t);
    case _ =>
      assert o in g.rootgc;
      SweptRoot(g, o);
  }

  lemma SweptRoot(g: G, o: Id)
    requires RootsClean(g) && g.sweepgc >= |g.rootgc| && o in g.rootgc
    ensures CleanRoot(g, o)
  {
    var i :| 0 <= i < |g.rootgc| && g.rootgc[i] == o;
    assert CleanRoot(g, g.rootgc[i]);
  }

  // ----- any step ----------------------------------------------------------------------------

  lemma PausedInv(g: G)
    requires Inv(g) && g.phase.Finalize?
    ensures Inv(g.(phase := Pause))
  {
    hide Shape, NoDangling;
    var g' := g.(phase := Pause);
    RootsgcBound(g);
    SameHeap(g, g');
    forall o | o in g'.heap ensures CurWhite(g', o) { assert CurWhite(g, o); }
  }

  // Every step of the collector keeps the invariant and frees only what was dead.
  lemma SingleStepInv(g: G)
    requires Inv(g)
    ensures Inv(SingleStep(g)) && FreesDead(g, SingleStep(g))
  {
    hide Inv, MarkRoot, PropagateMark, Atomic, SweepBucketStep, SweepRootStep;
    match g.phase
    case Pause => MarkRootInv(g);
    case Propagate => if g.gray != [] { PropagateInv(g); } else { AtomicInv(g); }
    case SweepString => SweepStringInv(g);
    case Sweep => SweepRootInv(g);
    case Finalize => PausedInv(g);
  }

  // The preliminary reset of a full collection finds nothing dead.
  lemma ResetSweepInv(g: G)
    requires Inv(g) && (g.phase.Pause? || g.phase.Propagate?)
    ensures Inv(ResetSweep(g)) && forall o :: o in g.heap ==> !Dead(ResetSweep(g), o)
  {
    NothingDead(g);
    RootsgcBound(g);
    SameHeap(g, ResetSweep(g));
    TableNotEmpty(g);
  }
}

// Sweeping the list of all objects and the string table.

module GcSweepAll {
  import opened GcColours
  import opened GcState
  import opened GcSweep

  // What the sweeper has passed on the list of all objects is in the current white.
  ghost predicate RootsClean(g: G) {
    g.sweepgc <= |g.rootgc| && forall i :: 0 <= i < g.sweepgc ==> CleanRoot(g, g.rootgc[i])
  }

  predicate BucketClean(g: G, b: nat, n: nat)
    requires b < |g.strt|
  {
    n <= |g.strt[b]| && forall i :: 0 <= i < n ==> CurWhite(g, g.strt[b][i])
  }

  // One turn of the sweeper over the list of all objects.
  ghost predicate SweepTurn(g: G, g': G) {
    && Shape(g') && Sweeps(g, g') && RootsClean(g') && NoDangling(g')
    && g'.strt == g.strt && g'.sweepstrgc == g.sweepstrgc && g'.nuse == g.nuse
  }

  lemma SweepTurnTrans(g: G, g1: G, g2: G)
    requires SweepTurn(g, g1) && SweepTurn(g1, g2)
    ensures SweepTurn(g, g2)
  {
    hide Sweeps, Shape, RootsClean, NoDangling;
    SweepsTrans(g, g1, g2);
  }

  lemma NoListNoUpvals(g: G, o: Id)
    requires !IsThread(g, o)
    ensures SweepOpenFrom(g, o, 0) == g && OpenList(g, o) == []
  {
  }

  // Sweeping the open upvalues of the next object, when it is a thread.
  lemma OpenFirst(g: G)
    requires Shape(g) && g.sweepgc < |g.rootgc|
    ensures var o := g.rootgc[g.sweepgc];
            var g1 := SweepOpenFrom(g, o, 0);
            && o in g.heap && Rooted(g.heap[o].body) && o in g1.heap && g1.heap[o].mark == g.heap[o].mark
            && Shape(g1) && Sweeps(g, g1) && SameLists(g, g1) && (forall u :: u in OpenList(g1, o) ==> CurWhite(g1, u))
            && OpenClean(g1, o, |OpenList(g1, o)|)
  {
    var o := g.rootgc[g.sweepgc];
    assert o in g.rootgc;
    SweepsSelf(g);
    if IsThread(g, o) {
      hide Shape, ShapeBut, Sweeps, CurWhite;
      ShapeIs(g);
      SweepOpenGood(g, o, 0, {});
      ShapeIs(SweepOpenFrom(g, o, 0));
    } else {
      NoListNoUpvals(g, o);
    }
  }

  lemma ShapeIs(g: G)
    ensures Shape(g) <==> ShapeBut(g, {})
  {
  }

  lemma RootsCleanStays(g: G, g': G)
    requires RootsClean(g) && Sweeps(g, g') && g'.rootgc == g.rootgc && g'.sweepgc == g.sweepgc
    ensures RootsClean(g')
  {
    forall i | 0 <= i < g'.sweepgc ensures CleanRoot(g', g'.rootgc[i]) { CleanStays(g, g', g.rootgc[i]); }
  }

  // The next object stays and turns white.
  lemma KeepNext(g: G, o: Id)
    requires Shape(g) && RootsClean(g) && g.sweepgc < |g.rootgc| && g.rootgc[g.sweepgc] == o && o in g.heap
    requires (forall u :: u in OpenList(g, o) ==> CurWhite(g, u)) && !Dead(g, o) && NoDangling(g)
    ensures SweepTurn(g, Whiten(g, o).(sweepgc := g.sweepgc + 1))
  {
    var g1 := Whiten(g, o);
    var g2 := g1.(sweepgc := g.sweepgc + 1);
    ShapeIs(g);
    WhitenShape(g, o, {});
    ShapeIs(g1);
    WhitenSweeps(g, o);
    SweepsNoDangling(g, g1);
    RootsCleanStays(g, g1);
    CleanNow(g, o);
    hide Whiten, Shape, NoDangling, Sweeps, CleanRoot;
    Advanced(g1, o);
    SweepsTrans(g, g1, g2);
  }

  lemma CleanNow(g: G, o: Id)
    requires o in g.heap && Sweeps(g, Whiten(g, o)) && forall u :: u in OpenList(g, o) ==> CurWhite(g, u)
    ensures CleanRoot(Whiten(g, o), o)
  {
    forall u | u in OpenList(Whiten(g, o), o) ensures CurWhite(Whiten(g, o), u) { CurWhiteStays(g, Whiten(g, o), u); }
  }

  lemma Advanced(g: G, o: Id)
    requires Shape(g) && RootsClean(g) && g.sweepgc < |g.rootgc| && g.rootgc[g.sweepgc] == o && CleanRoot(g, o)
             && NoDangling(g)
    ensures var g' := g.(sweepgc := g.sweepgc + 1);
            Shape(g') && RootsClean(g') && Sweeps(g, g') && NoDangling(g')
  {
    hide Shape, NoDangling, Sweeps, CleanRoot;
    var g' := g.(sweepgc := g.sweepgc + 1);
    AdvancedShape(g);
    SweepsHeap(g, g');
    SweepsNoDangling(g, g');
    forall i | 0 <= i < g'.sweepgc ensures CleanRoot(g', g'.rootgc[i]) {
      if i < g.sweepgc { assert CleanRoot(g, g.rootgc[i]); }
      CleanStays(g, g', g.rootgc[i]);
    }
  }

  lemma AdvancedShape(g: G)
    requires Shape(g) && g.sweepgc < |g.rootgc|
    ensures Shape(g.(sweepgc := g.sweepgc + 1))
  {
    hide ThreadsOk, StringsOk, MarksOk;
    var g' := g.(sweepgc := g.sweepgc + 1);
    ThreadsOkSame(g, g');
    StringsOkSame(g, g');
    MarksOkSame(g, g');
  }

  // Lists other than the heap do not matter to what sweeping keeps.
  lemma SweepsHeap(g: G, g': G)
    requires g'.heap == g.heap && g'.main == g.main && g'.running == g.running && g'.registry == g.registry
             && g'.mt == g.mt
    requires g'.second == g.second && g'.phase == g.phase && g'.next == g.next
    ensures Sweeps(g, g')
  {
    forall o ensures SweepsAt(g, g', o) { SameChildren(g, g', o); }
  }

  lemma SameChildren(g: G, g': G, o: Id)
    requires g'.heap == g.heap
    ensures Children(g', o) == Children(g, o) && OpenList(g', o) == OpenList(g, o)
  {
  }

  // ----- the next object goes ----------------------------------------------------------

  lemma UnlinkedRoot(g: G, o: Id)
    requires Shape(g) && g.sweepgc < |g.rootgc| && g.rootgc[g.sweepgc] == o
    ensures ShapeBut(g.(rootgc := RemoveAt(g.rootgc, g.sweepgc)), {o})
  {
    hide ThreadsOk, StringsOk, MarksOk;
    var g' := g.(rootgc := RemoveAt(g.rootgc, g.sweepgc));
    RemoveAtDistinct(g.rootgc, g.sweepgc);
    ThreadsOkSame(g, g');
    StringsOkSame(g, g');
    MarksOkSame(g, g');
  }

  lemma DropNext(g: G, o: Id)
    requires Shape(g) && RootsClean(g) && g.sweepgc < |g.rootgc| && g.rootgc[g.sweepgc] == o && o in g.heap
    requires OpenClean(g, o, |OpenList(g, o)|) && Dead(g, o) && !Fixed(g, o) && NoDangling(g)
    ensures SweepTurn(g, FreeObject(g.(rootgc := RemoveAt(g.rootgc, g.sweepgc)), o))
  {
    var k := g.sweepgc;
    var g1 := g.(rootgc := RemoveAt(g.rootgc, k));
    assert o in g.rootgc && Rooted(g.heap[o].body);
    UnlinkedRoot(g, o);
    SweepsHeap(g, g1);
    SameChildren(g, g1, o);
    CleanListStays(g, g1, o);
    LiveRoots(g);
    var g2, pre := BeforeFree(g1, o);
    hide Shape, ShapeBut, Sweeps, NoDangling, CleanRoot, CurWhite, OpenClean;
    PrefixClean(g, g1, g2, pre);
    Freed(g, g1, g2, o);
  }

  lemma CleanListStays(g: G, g': G, o: Id)
    requires OpenClean(g, o, |OpenList(g, o)|) && Sweeps(g, g') && OpenList(g', o) == OpenList(g, o)
    ensures OpenClean(g', o, |OpenList(g', o)|)
  {
    forall j | 0 <= j < |OpenList(g', o)| ensures CurWhite(g', OpenList(g', o)[j]) {
      CurWhiteStays(g, g', OpenList(g, o)[j]);
    }
  }

  lemma LiveRoots(g: G)
    requires NoDangling(g)
    ensures Live(g, g.main) && Live(g, g.running)
  {
  }

  // A thread closes its upvalues; any other object is left as it is.
  lemma BeforeFree(g: G, o: Id) returns (g': G, pre: seq<Id>)
    requires ShapeBut(g, {o}) && o in g.heap && Rooted(g.heap[o].body) && OpenClean(g, o, |OpenList(g, o)|)
    ensures FreeObject(g, o) == Dropped(g', o)
    ensures ShapeBut(g', {o}) && Sweeps(g, g') && o in g'.heap && Rooted(g'.heap[o].body)
            && g'.heap[o].mark == g.heap[o].mark
    ensures OpenList(g', o) == [] && g'.rootgc == pre + g.rootgc && g'.sweepgc == Shifted(g.sweepgc, |pre|)
    ensures g'.strt == g.strt && g'.sweepstrgc == g.sweepstrgc && g'.nuse == g.nuse
            && forall u :: u in pre ==> CleanRoot(g', u)
  {
    if IsThread(g, o) {
      pre := CloseAllClean(g, o, {o});
      g' := CloseUpvals(g, o, 0);
    } else {
      g', pre := g, [];
      SweepsSelf(g);
      NoListNoUpvals(g, o);
    }
  }

  lemma PrefixClean(g: G, g1: G, g2: G, pre: seq<Id>)
    requires RootsClean(g) && g.sweepgc < |g.rootgc| && Sweeps(g, g1) && Sweeps(g1, g2)
    requires g1 == g.(rootgc := RemoveAt(g.rootgc, g.sweepgc)) && g2.rootgc == pre + g1.rootgc
    requires g2.sweepgc == Shifted(g.sweepgc, |pre|) && forall u :: u in pre ==> CleanRoot(g2, u)
    ensures RootsClean(g2)
  {
    forall i | 0 <= i < g2.sweepgc ensures CleanRoot(g2, g2.rootgc[i]) {
      if i < |pre| {
        assert g2.rootgc[i] == pre[i];
      } else {
        assert g2.rootgc[i] == g.rootgc[i - |pre|];
        CleanStays(g, g1, g.rootgc[i - |pre|]);
        CleanStays(g1, g2, g.rootgc[i - |pre|]);
      }
    }
  }

  lemma Freed(g: G, g1: G, g2: G, o: Id)
    requires Sweeps(g, g1) && Sweeps(g1, g2) && ShapeBut(g2, {o}) && RootsClean(g2) && NoDangling(g)
    requires o in g2.heap && Rooted(g2.heap[o].body) && OpenList(g2, o) == [] && o in g.heap
             && g2.heap[o].mark == g.heap[o].mark
    requires Dead(g, o) && !Fixed(g, o) && Live(g, g.main) && Live(g, g.running)
    requires g2.strt == g.strt && g2.sweepstrgc == g.sweepstrgc && g2.nuse == g.nuse
    ensures SweepTurn(g, Dropped(g2, o))
  {
    var g3 := Dropped(g2, o);
    assert o != g.main && o != g.running;
    assert Dead(g2, o) && !Fixed(g2, o) && !g2.heap[o].body.Open?;
    assert g2.main == g.main && g2.running == g.running;
    DroppedRooted(g2, o);
    DroppedSweeps(g2, o);
    hide Shape, ShapeBut, Sweeps, NoDangling, CleanRoot;
    SweepsTrans(g, g1, g2);
    SweepsTrans(g, g2, g3);
    SweepsNoDangling(g, g3);
    RootsCleanStays(g2, g3);
  }

  // ----- a turn ------------------------------------------------------------------------------

  lemma SweepNextGood(g: G)
    requires Shape(g) && NoDangling(g) && RootsClean(g) && g.sweepgc < |g.rootgc|
    ensures g.rootgc[g.sweepgc] in g.heap && SweepTurn(g, SweepNext(g))
  {
    var k, o := g.sweepgc, g.rootgc[g.sweepgc];
    var g1 := SweepOpenFrom(g, o, 0);
    OpenFirst(g);
    RootsCleanStays(g, g1);
    SweepsNoDangling(g, g1);
    assert SweepTurn(g, g1);
    hide Shape, NoDangling, Sweeps, RootsClean, SweepTurn, CurWhite, OpenClean, SweepThis, SweepOpenFrom;
    SweepThisGood(g1, o);
    SweepTurnTrans(g, g1, SweepNext(g));
  }

  lemma SweepThisGood(g: G, o: Id)
    requires Shape(g) && NoDangling(g) && RootsClean(g) && g.sweepgc < |g.rootgc| && g.rootgc[g.sweepgc] == o
             && o in g.heap
    requires Rooted(g.heap[o].body) && (forall u :: u in OpenList(g, o) ==> CurWhite(g, u))
             && OpenClean(g, o, |OpenList(g, o)|)
    ensures SweepTurn(g, SweepThis(g, o))
  {
    hide Shape, NoDangling, Sweeps, RootsClean, SweepTurn, CurWhite, OpenClean, FreeObject, Whiten, OpenList, Dead,
         Fixed, Survives;
    StaysOrStr(g, o);
    if Survives(g.second, g.heap[o].mark) { KeepNext(g, o); } else { DropNext(g, o); }
  }

  lemma StaysOrStr(g: G, o: Id)
    requires Shape(g) && NoDangling(g) && o in g.heap && Rooted(g.heap[o].body)
    ensures Survives(g.second, g.heap[o].mark) ==> !Dead(g, o)
    ensures !Survives(g.second, g.heap[o].mark) ==> Dead(g, o) && !Fixed(g, o)
  {
    LiveRoots(g);
  }

  lemma {:induction false} SweepManyGood(g: G, count: nat)
    requires Shape(g) && NoDangling(g) && RootsClean(g)
    ensures SweepTurn(g, SweepMany(g, count))
    decreases count
  {
    hide Shape, NoDangling, Sweeps, RootsClean, SweepNext;
    SweepsSelf(g);
    if count > 0 && g.sweepgc < |g.rootgc| {
      SweepNextGood(g);
      SweepManyGood(SweepNext(g), count - 1);
      SweepTurnTrans(g, SweepNext(g), SweepMany(g, count));
    }
  }

  // ----- sweeping a bucket of strings ---------------------------------------------------------

  // One string of a bucket kept or freed; other buckets are as they were.
  ghost predicate StringTurn(g: G, g': G, b: nat) {
    && Shape(g') && Sweeps(g, g') && NoDangling(g') && g'.rootgc == g.rootgc && g'.sweepgc == g.sweepgc
    && g'.sweepstrgc == g.sweepstrgc && |g'.strt| == |g.strt|
    && forall b' :: 0 <= b' < |g.strt| && b' != b ==> g'.strt[b'] == g.strt[b']
  }

  lemma StringTurnTrans(g: G, g1: G, g2: G, b: nat)
    requires StringTurn(g, g1, b) && StringTurn(g1, g2, b)
    ensures StringTurn(g, g2, b)
  {
    hide Sweeps, Shape, NoDangling;
    SweepsTrans(g, g1, g2);
  }

  lemma IsString(g: G, b: nat, i: nat)
    requires Shape(g) && b < |g.strt| && i < |g.strt[b]|
    ensures g.strt[b][i] in g.heap && g.heap[g.strt[b][i]].body.Str?
  {
  }

  lemma KeepString(g: G, b: nat, i: nat)
    requires Shape(g) && NoDangling(g) && b < |g.strt| && i < |g.strt[b]| && BucketClean(g, b, i)
             && g.strt[b][i] in g.heap
    requires Survives(g.second, g.heap[g.strt[b][i]].mark)
    ensures var g' := Whiten(g, g.strt[b][i]); StringTurn(g, g', b) && BucketClean(g', b, i + 1) && g'.strt == g.strt
  {
    hide Shape, ShapeBut, NoDangling, Sweeps, CurWhite, BucketClean;
    var o := g.strt[b][i];
    IsString(g, b, i);
    ShapeIs(g);
    WhitenShape(g, o, {});
    ShapeIs(Whiten(g, o));
    WhitenSweeps(g, o);
    SweepsNoDangling(g, Whiten(g, o));
    WhitenBucket(g, b, i);
  }

  lemma WhitenBucket(g: G, b: nat, i: nat)
    requires b < |g.strt| && i < |g.strt[b]| && BucketClean(g, b, i) && g.strt[b][i] in g.heap
    requires Sweeps(g, Whiten(g, g.strt[b][i]))
    ensures BucketClean(Whiten(g, g.strt[b][i]), b, i + 1)
  {
    var o := g.strt[b][i];
    var g' := Whiten(g, o);
    assert CurWhite(g', o) && g'.strt == g.strt;
    hide Sweeps, Whiten, CurWhite;
    forall j | 0 <= j <= i ensures CurWhite(g', g.strt[b][j]) {
      if j < i { CurWhiteStays(g, g', g.strt[b][j]); }
    }
  }

  lemma FreeStringShape(g: G, b: nat, i: nat)
    requires Shape(g) && b < |g.strt| && i < |g.strt[b]|
    ensures Shape(FreeString(g, b, i))
  {
    hide RootsOk, StringsOk, MarksOk, ThreadsOk, FreeString;
    var g', o := FreeString(g, b, i), g.strt[b][i];
    IsString(g, b, i);
    NoListNoUpvals(g, o);
    FreeStringRest(g, b, i);
    NotMain(g, o);
    DroppedThreads(g, o);
    ThreadsOkSame(Dropped(g, o), g');
    FreeStringTable(g, b, i);
  }

  lemma NotMain(g: G, o: Id)
    requires ThreadsOk(g) && o in g.heap && g.heap[o].body.Str?
    ensures o != g.main && o != g.running
  {
  }

  lemma FreeStringRest(g: G, b: nat, i: nat)
    requires RootsOk(g, {}) && MarksOk(g) && b < |g.strt| && i < |g.strt[b]|
    requires g.strt[b][i] in g.heap && g.heap[g.strt[b][i]].body.Str?
    ensures var g', o := FreeString(g, b, i), g.strt[b][i];
            && RootsOk(g', {}) && MarksOk(g')
            && SameBodies(Dropped(g, o), g') && g'.uvhead == g.uvhead && g'.main == g.main && g'.running == g.running
  {
    var g', o := FreeString(g, b, i), g.strt[b][i];
    assert forall p :: p in g'.heap <==> p in g.heap && p != o;
  }

  lemma FreeStringTable(g: G, b: nat, i: nat)
    requires StringsOk(g) && b < |g.strt| && i < |g.strt[b]|
    ensures StringsOk(FreeString(g, b, i))
  {
    var g', o := FreeString(g, b, i), g.strt[b][i];
    RemoveAtDistinct(g.strt[b], i);
    TotalChanged(g.strt, b, RemoveAt(g.strt[b], i));
    assert g'.strt == g.strt[b := RemoveAt(g.strt[b], i)];
    assert forall p :: p in g'.heap <==> p in g.heap && p != o;
    assert forall p :: p in g'.heap ==> g'.heap[p] == g.heap[p];
    forall b', j | 0 <= b' < |g'.strt| && 0 <= j < |g'.strt[b']|
      ensures var p := g'.strt[b'][j];
              p in g'.heap && g'.heap[p].body.Str? && Bucket(g'.heap[p].body.text, |g'.strt|) == b'
    {
      var p := g'.strt[b'][j];
      if b' == b {
        assert p in RemoveAt(g.strt[b], i);
        var j' :| 0 <= j' < |g.strt[b]| && g.strt[b][j'] == p;
      } else {
        assert g.strt[b'][j] == p;
      }
    }
    forall p | p in g'.heap && g'.heap[p].body.Str? ensures p in g'.strt[Bucket(g'.heap[p].body.text, |g'.strt|)] {
      assert p in g.strt[Bucket(g.heap[p].body.text, |g.strt|)];
    }
  }

  lemma FreeStringSweeps(g: G, b: nat, i: nat)
    requires Shape(g) && b < |g.strt| && i < |g.strt[b]| && Dead(g, g.strt[b][i]) && !Fixed(g, g.strt[b][i])
    ensures Sweeps(g, FreeString(g, b, i))
  {
    var o := g.strt[b][i];
    IsString(g, b, i);
    NoListNoUpvals(g, o);
    var d, g' := Dropped(g, o), FreeString(g, b, i);
    assert g' == d.(strt := g'.strt, nuse := g'.nuse);
    assert ThreadsOk(g);
    hide Shape, ThreadsOk, Sweeps, FreeString, Dropped;
    DroppedSweeps(g, o);
    SweepsHeap(d, g');
    SweepsTrans(g, d, g');
  }

  lemma FreeStringFields(g: G, b: nat, i: nat)
    requires b < |g.strt| && i < |g.strt[b]|
    ensures var g' := FreeString(g, b, i);
            && g'.rootgc == g.rootgc && g'.sweepgc == g.sweepgc && g'.sweepstrgc == g.sweepstrgc
            && g'.strt == g.strt[b := RemoveAt(g.strt[b], i)]
  {
  }

  lemma DropString(g: G, b: nat, i: nat)
    requires Shape(g) && NoDangling(g) && b < |g.strt| && i < |g.strt[b]| && BucketClean(g, b, i)
             && g.strt[b][i] in g.heap
    requires !Survives(g.second, g.heap[g.strt[b][i]].mark)
    ensures var g' := FreeString(g, b, i);
            StringTurn(g, g', b) && BucketClean(g', b, i) && |g'.strt[b]| == |g.strt[b]| - 1
  {
    hide Shape, NoDangling, Sweeps, CurWhite, FreeString;
    var g' := FreeString(g, b, i);
    FreeStringFields(g, b, i);
    FreeStringSweeps(g, b, i);
    SweepsNoDangling(g, g');
    FreeStringShape(g, b, i);
    forall j | 0 <= j < i ensures CurWhite(g', g'.strt[b][j]) { CurWhiteStays(g, g', g.strt[b][j]); }
  }

  lemma {:induction false} SweepBucketGood(g: G, b: nat, i: nat)
    requires Shape(g) && NoDangling(g) && b < |g.strt| && BucketClean(g, b, i)
    ensures var g' := SweepBucketFrom(g, b, i); StringTurn(g, g', b) && BucketClean(g', b, |g'.strt[b]|)
    decreases |g.strt[b]| - i
  {
    if i < |g.strt[b]| {
      var g1, i1 := SweepStringStep(g, b, i);
      SweepBucketGood(g1, b, i1);
      StringTurnTrans(g, g1, SweepBucketFrom(g, b, i), b);
    } else {
      SweepsSelf(g);
    }
  }

  lemma SweepStringStep(g: G, b: nat, i: nat) returns (g1: G, i1: nat)
    requires Shape(g) && NoDangling(g) && b < |g.strt| && i < |g.strt[b]| && BucketClean(g, b, i)
    ensures SweepBucketFrom(g, b, i) == SweepBucketFrom(g1, b, i1)
    ensures StringTurn(g, g1, b) && Shape(g1) && NoDangling(g1) && b < |g1.strt| && BucketClean(g1, b, i1)
    ensures i1 <= |g1.strt[b]| && |g1.strt[b]| - i1 < |g.strt[b]| - i
  {
    hide Shape, NoDangling, Sweeps, BucketClean, Whiten, FreeString, StringTurn, Survives;
    var o := g.strt[b][i];
    IsString(g, b, i);
    if Survives(g.second, g.heap[o].mark) {
      g1, i1 := Whiten(g, o), i + 1;
      KeepString(g, b, i);
    } else {
      g1, i1 := FreeString(g, b, i), i;
      DropString(g, b, i);
    }
    TurnKeeps(g, g1, b);
    CleanCount(g1, b, i1);
  }

  lemma TurnKeeps(g: G, g1: G, b: nat)
    requires StringTurn(g, g1, b)
    ensures Shape(g1) && NoDangling(g1) && |g1.strt| == |g.strt|
  {
  }

  lemma CleanCount(g: G, b: nat, n: nat)
    requires b < |g.strt| && BucketClean(g, b, n)
    ensures n <= |g.strt[b]|
  {
  }
}

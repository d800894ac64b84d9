// What the program can see does not change: collecting leaves roots, stacks, references and
// values alone, and closing upvalues changes nothing but those upvalues.

module GcKeeps {
  import opened GcColours
  import opened GcState
  import opened GcMark
  import opened GcAtomic
  import opened GcSweep
  import opened GcSweepAll
  import opened GcInvariant
  import opened GcUpvals
  import opened GcClose
  import opened GcStep

  // ----- closing upvalues ----------------------------------------------------------------

  ghost predicate SameRoots(g: G, g': G) {
    g'.main == g.main && g'.running == g.running && g'.registry == g.registry && g'.mt == g.mt && g'.next == g.next
  }

  // The first `k` open upvalues of `t` are not open any more: the live ones hold the value
  // of their slot, the dead ones are gone.  Nothing else has changed.
  ghost predicate ClosedFirst(g: G, g': G, t: Id, k: nat) {
    var us := OpenList(g, t);
    && IsThread(g, t) && k <= |us| && SameRoots(g, g')
    && IsThread(g', t) && g'.heap[t].body == g.heap[t].body.(openupval := us[k..])
    && (forall i :: 0 <= i < k ==> ClosedOne(g, g', t, us[i]))
    && (forall o :: o in g.heap && o != t && o !in us[..k] ==> o in g'.heap && g'.heap[o].body == g.heap[o].body)
    && (forall o :: o in g'.heap ==> o in g.heap)
  }

  ghost predicate ClosedOne(g: G, g': G, t: Id, u: Id) {
    && u in g.heap && g.heap[u].body.Open?
    && if Dead(g, u) then u !in g'.heap
       else u in g'.heap && g'.heap[u].body == Closed(SlotValue(g, t, g.heap[u].body.slot))
  }

  // The open upvalues of `t` from slot `level` on are closed, and no others.
  ghost predicate ClosedDown(g: G, g': G, t: Id, level: nat) {
    exists k: nat ::
      && ClosedFirst(g, g', t, k)
      && forall i :: 0 <= i < |OpenList(g, t)| ==> (i < k <==> level <= SlotOf(g, OpenList(g, t)[i]))
  }

  lemma LinkedTopCloses(g: G, t: Id)
    requires ThreadsOk(g) && OpenAt(g, t, 0) && !Dead(g, OpenList(g, t)[0])
    ensures ClosedFirst(g, LinkedTop(g, t), t, 1)
  {
    OpenListDistinct(g, t);
    LinkedTopIs(g, t);
    assert OpenList(g, t)[..1] == [OpenList(g, t)[0]];
  }

  lemma ClosedRecoloured(g: G, g1: G, g2: G, t: Id, k: nat)
    requires ClosedFirst(g, g1, t, k) && SameBodies(g1, g2) && SameRoots(g1, g2)
    ensures ClosedFirst(g, g2, t, k)
  {
    forall i | 0 <= i < k ensures ClosedOne(g, g2, t, OpenList(g, t)[i]) {
      assert ClosedOne(g, g1, t, OpenList(g, t)[i]);
    }
  }

  lemma DarkerSame(g: G, g': G)
    requires Darker(g, g')
    ensures SameBodies(g, g') && SameRoots(g, g') && g'.phase == g.phase
  {
    forall o | o in g.heap ensures g'.heap[o].body == g.heap[o].body { assert DarkerAt(g, g', o); }
  }

  // What is left to do about the colour of a closed upvalue.
  lemma BarrierSame(g: G, o: Id, v: Value)
    ensures SameBodies(g, Barrier(g, o, v)) && SameRoots(g, Barrier(g, o, v))
  {
    if v.Ref? && White(g, v.id) && Black(g, o) && g.phase.Propagate? {
      MarkObjectDarker(g, v.id);
      DarkerSame(g, MarkObject(g, v.id));
    }
  }

  lemma ColouredSame(g: G, t: Id)
    requires OpenAt(g, t, 0) && !Dead(g, OpenList(g, t)[0])
    ensures SameBodies(LinkedTop(g, t), CloseTop(g, t)) && SameRoots(LinkedTop(g, t), CloseTop(g, t))
  {
    var u, g1 := OpenList(g, t)[0], LinkedTop(g, t);
    LinkedTopIs(g, t);
    if g.phase.Propagate? {
      CloseTopMarks(g, t);
      BarrierSame(Blackened(g1, u), u, SlotValue(g, t, g.heap[u].body.slot));
    } else {
      CloseTopIs(g, t);
    }
  }

  lemma FreeOpenCloses(g: G, t: Id)
    requires ThreadsOk(g) && OpenAt(g, t, 0) && Dead(g, OpenList(g, t)[0])
    ensures ClosedFirst(g, FreeOpen(g, t, 0), t, 1)
  {
    OpenListDistinct(g, t);
    assert OpenList(g, t)[..1] == [OpenList(g, t)[0]];
    assert RemoveAt(OpenList(g, t), 0) == OpenList(g, t)[1..];
  }

  lemma CloseTopCloses(g: G, t: Id)
    requires ThreadsOk(g) && OpenAt(g, t, 0)
    ensures ClosedFirst(g, CloseTop(g, t), t, 1)
  {
    if Dead(g, OpenList(g, t)[0]) {
      FreeOpenCloses(g, t);
    } else {
      LinkedTopCloses(g, t);
      ColouredSame(g, t);
      hide ClosedFirst, CloseTop, LinkedTop, ThreadsOk, SameRoots, SameBodies;
      ClosedRecoloured(g, LinkedTop(g, t), CloseTop(g, t), t, 1);
    }
  }

  lemma FirstClosed(g: G, g1: G, g2: G, t: Id, k: nat)
    requires ClosedFirst(g, g1, t, 1) && ClosedFirst(g1, g2, t, k) && Distinct(OpenList(g, t)) && t !in OpenList(g, t)
    ensures ClosedOne(g, g2, t, OpenList(g, t)[0])
  {
    var us := OpenList(g, t);
    assert ClosedOne(g, g1, t, us[0]) && OpenList(g1, t) == us[1..];
    assert us[0] !in us[1..][..k] && us[0] in us;
  }

  lemma LaterClosed(g: G, g1: G, g2: G, t: Id, k: nat, i: nat)
    requires ClosedFirst(g, g1, t, 1) && ClosedFirst(g1, g2, t, k) && Distinct(OpenList(g, t)) && t !in OpenList(g, t)
    requires 0 < i < k + 1 && Dead(g1, OpenList(g, t)[i]) == Dead(g, OpenList(g, t)[i])
    ensures ClosedOne(g, g2, t, OpenList(g, t)[i])
  {
    var us := OpenList(g, t);
    assert OpenList(g1, t) == us[1..] && us[1..][i - 1] == us[i] && us[..1] == [us[0]];
    assert ClosedOne(g1, g2, t, us[i]);
    assert us[i] in us && us[i] != us[0];
    assert us[i] in g.heap;
  }

  lemma ClosedMore(g: G, g1: G, g2: G, t: Id, k: nat)
    requires ClosedFirst(g, g1, t, 1) && ClosedFirst(g1, g2, t, k) && Distinct(OpenList(g, t)) && t !in OpenList(g, t)
    requires forall i :: 0 <= i < |OpenList(g, t)| ==> OpenList(g, t)[i] in g.heap
    requires forall i :: 0 < i < |OpenList(g, t)| ==> Dead(g1, OpenList(g, t)[i]) == Dead(g, OpenList(g, t)[i])
    ensures ClosedFirst(g, g2, t, k + 1)
  {
    var us := OpenList(g, t);
    assert OpenList(g1, t) == us[1..] && us[1..][k..] == us[k + 1..];
    forall i | 0 <= i < k + 1 ensures ClosedOne(g, g2, t, us[i]) {
      if i == 0 { FirstClosed(g, g1, g2, t, k); } else { LaterClosed(g, g1, g2, t, k, i); }
    }
    hide ClosedOne, Dead;
    forall o | o in g.heap && o != t && o !in us[..k + 1] ensures o in g2.heap && g2.heap[o].body == g.heap[o].body {
      assert us[0] == us[..k + 1][0] && us[..1] == [us[0]];
      assert us[1..][..k] == us[..k + 1][1..];
    }
  }

  // Closing one upvalue leaves the others as dead or alive as they were.
  lemma OthersStay(g: G, t: Id, gone: set<Id>, i: nat)
    requires MayClose(g, gone) && gone <= {t} && OpenAt(g, t, 0) && 0 < i < |OpenList(g, t)|
    ensures Dead(CloseTop(g, t), OpenList(g, t)[i]) == Dead(g, OpenList(g, t)[i])
  {
    hide ThreadsOk, RootsOk, StringsOk, MarksOk, NoDangling, Inv, CloseTop;
    OpenListDistinct(g, t);
    if g.phase.Propagate? {
      MarkingStays(g, t, OpenList(g, t)[i]);
    } else if Dead(g, OpenList(g, t)[0]) {
      DeadStays(g, t, OpenList(g, t)[i]);
    } else {
      ElsewhereStays(g, t, OpenList(g, t)[i]);
    }
  }

  lemma DeadStays(g: G, t: Id, w: Id)
    requires OpenAt(g, t, 0) && Dead(g, OpenList(g, t)[0]) && w != OpenList(g, t)[0]
    ensures Dead(CloseTop(g, t), w) == Dead(g, w)
  {
  }

  lemma ElsewhereStays(g: G, t: Id, w: Id)
    requires OpenAt(g, t, 0) && !Dead(g, OpenList(g, t)[0]) && !g.phase.Propagate? && w != OpenList(g, t)[0]
    ensures Dead(CloseTop(g, t), w) == Dead(g, w)
  {
    hide CloseTop;
    CloseTopIs(g, t);
  }

  lemma MarkingStays(g: G, t: Id, w: Id)
    requires Inv(g) && g.phase.Propagate? && OpenAt(g, t, 0)
    ensures Dead(CloseTop(g, t), w) == Dead(g, w)
  {
    hide Inv, CloseTop, LinkedTop;
    NothingDead(g);
    CloseMarking(g, t);
    LinkedTopIs(g, t);
    ColouredSame(g, t);
    var u, g1 := OpenList(g, t)[0], LinkedTop(g, t);
    CloseTopMarks(g, t);
    if Gray(g1, u) { BarrierPhase(Blackened(g1, u), u, SlotValue(g, t, g.heap[u].body.slot)); }
    NothingDead(CloseTop(g, t));
  }

  lemma BarrierPhase(g: G, o: Id, v: Value)
    ensures Barrier(g, o, v).phase == g.phase
  {
    if v.Ref? { MarkObjectDarker(g, v.id); }
  }

  // Closing down to a slot closes exactly the upvalues from that slot on.
  lemma {:induction false} CloseUpvalsCloses(g: G, t: Id, level: nat, gone: set<Id>)
    requires MayClose(g, gone) && gone <= {t} && IsThread(g, t)
    ensures ClosedDown(g, CloseUpvals(g, t, level), t, level)
    decreases |OpenList(g, t)|
  {
    hide MayClose, CloseTop, ClosedFirst, ThreadsOk;
    OpenListOf(g, t, gone);
    var us := OpenList(g, t);
    if TopAbove(g, t, level) {
      var g1 := CloseTop(g, t);
      CloseTopShorter(g, t);
      CloseTopKeeps(g, t, gone);
      CloseTopCloses(g, t);
      CloseUpvalsCloses(g1, t, level, gone);
      forall i | 0 < i < |us| ensures Dead(g1, us[i]) == Dead(g, us[i]) { OthersStay(g, t, gone, i); }
      ClosedOnward(g, g1, CloseUpvals(g, t, level), t, level);
    } else {
      NothingCloses(g, t, level);
    }
  }

  lemma OpenListOf(g: G, t: Id, gone: set<Id>)
    requires MayClose(g, gone) && IsThread(g, t)
    ensures ThreadsOk(g) && Distinct(OpenList(g, t)) && t !in OpenList(g, t)
    ensures forall i :: 0 <= i < |OpenList(g, t)| ==> OpenAt(g, t, i)
    ensures forall i, j :: 0 <= i < j < |OpenList(g, t)| ==> SlotOf(g, OpenList(g, t)[j]) < SlotOf(g, OpenList(g, t)[i])
  {
    OpenListDistinct(g, t);
    assert OpenListOk(g, t);
  }

  lemma NothingCloses(g: G, t: Id, level: nat)
    requires IsThread(g, t) && !TopAbove(g, t, level) && (forall i :: 0 <= i < |OpenList(g, t)| ==> OpenAt(g, t, i))
    requires forall i, j :: 0 <= i < j < |OpenList(g, t)| ==>
               SlotOf(g, OpenList(g, t)[j]) < SlotOf(g, OpenList(g, t)[i])
    ensures ClosedDown(g, g, t, level)
  {
    var us := OpenList(g, t);
    assert us[0..] == us;
    assert ClosedFirst(g, g, t, 0);
    if us != [] { assert OpenAt(g, t, 0); }
  }

  lemma ClosedOnward(g: G, g1: G, g2: G, t: Id, level: nat)
    requires ClosedFirst(g, g1, t, 1) && ClosedDown(g1, g2, t, level) && TopAbove(g, t, level)
    requires Distinct(OpenList(g, t)) && t !in OpenList(g, t)
             && forall i :: 0 <= i < |OpenList(g, t)| ==> OpenAt(g, t, i)
    requires forall i :: 0 < i < |OpenList(g, t)| ==> Dead(g1, OpenList(g, t)[i]) == Dead(g, OpenList(g, t)[i])
    ensures ClosedDown(g, g2, t, level)
  {
    hide Dead, ClosedFirst;
    var us := OpenList(g, t);
    forall i | 0 <= i < |us| ensures us[i] in g.heap { assert OpenAt(g, t, i); }
    var k: nat :|
      && ClosedFirst(g1, g2, t, k)
      && forall i :: 0 <= i < |OpenList(g1, t)| ==> (i < k <==> level <= SlotOf(g1, OpenList(g1, t)[i]));
    ClosedMore(g, g1, g2, t, k);
    forall i | 0 <= i < |us| ensures i < k + 1 <==> level <= SlotOf(g, us[i]) {
      if i > 0 { SameSlot(g, g1, t, i); }
    }
  }

  lemma SameSlot(g: G, g1: G, t: Id, i: nat)
    requires ClosedFirst(g, g1, t, 1) && Distinct(OpenList(g, t)) && t !in OpenList(g, t) && 0 < i < |OpenList(g, t)|
    requires OpenAt(g, t, i)
    ensures OpenList(g1, t) == OpenList(g, t)[1..] && OpenList(g1, t)[i - 1] == OpenList(g, t)[i]
    ensures SlotOf(g1, OpenList(g, t)[i]) == SlotOf(g, OpenList(g, t)[i])
  {
    var us := OpenList(g, t);
    assert us[..1] == [us[0]] && us[i] in us;
  }

  // ----- what collecting leaves alone ---------------------------------------------------------

  // The elements of `us` that are in `keys`, in their order.
  function Rest(us: seq<Id>, keys: set<Id>): (r: seq<Id>)
    ensures (forall u :: u in us ==> u in keys) ==> r == us
  {
    if us == [] then []
    else if us[0] in keys then
      assert us == [us[0]] + us[1..];
      [us[0]] + Rest(us[1..], keys)
    else Rest(us[1..], keys)
  }

  // `o` is what it was: the same text, references, value, stack and globals.  Only the open
  // upvalues that are freed leave their thread's list, and those of a thread that is freed
  // are closed with their slot's value.
  ghost predicate StaysAt(g: G, g': G, o: Id)
    requires o in g.heap && o in g'.heap
  {
    var b, b' := g.heap[o].body, g'.heap[o].body;
    match b
    case Thread(_, _, us) =>
      b' == b.(openupval := Rest(us, g'.heap.Keys))
    case Open(t, slot) =>
      || (b' == b && (t in g.heap ==> t in g'.heap))
      || (t !in g'.heap && b' == Closed(SlotValue(g, t, slot)))
    case _ => b' == b
  }

  ghost predicate Untouched(g: G, g': G) {
    && SameRoots(g, g') && g'.heap.Keys <= g.heap.Keys
    && forall o :: o in g'.heap ==> StaysAt(g, g', o)
  }

  lemma {:induction false} RestTwice(us: seq<Id>, keys1: set<Id>, keys2: set<Id>)
    requires keys2 <= keys1
    ensures Rest(Rest(us, keys1), keys2) == Rest(us, keys2)
    decreases |us|
  {
    if us != [] {
      RestTwice(us[1..], keys1, keys2);
      if us[0] in keys1 { assert ([us[0]] + Rest(us[1..], keys1))[1..] == Rest(us[1..], keys1); }
    }
  }

  lemma {:induction false} RestWithout(us: seq<Id>, keys: set<Id>, i: nat)
    requires i < |us| && us[i] !in keys && forall j :: 0 <= j < |us| && j != i ==> us[j] in keys
    ensures Rest(us, keys) == RemoveAt(us, i)
    decreases |us|
  {
    if i == 0 {
      assert RemoveAt(us, 0) == us[1..];
      forall u | u in us[1..] ensures u in keys {
        var j :| 0 <= j < |us[1..]| && us[1..][j] == u;
        assert us[j + 1] in keys;
      }
    } else {
      RestWithout(us[1..], keys, i - 1);
      assert RemoveAt(us, i) == [us[0]] + RemoveAt(us[1..], i - 1);
    }
  }

  lemma UntouchedTrans(g: G, g1: G, g2: G)
    requires Untouched(g, g1) && Untouched(g1, g2)
    ensures Untouched(g, g2)
  {
    forall o | o in g2.heap ensures StaysAt(g, g2, o) {
      assert StaysAt(g, g1, o) && StaysAt(g1, g2, o);
      match g.heap[o].body
      case Thread(_, _, us) => RestTwice(us, g1.heap.Keys, g2.heap.Keys);
      case Open(t, slot) => if t in g1.heap { assert StaysAt(g, g1, t); }
      case _ =>
    }
  }

  lemma ListsInHeap(g: G, t: Id)
    requires ThreadsOk(g) && IsThread(g, t)
    ensures forall u :: u in g.heap[t].body.openupval ==>
              u in g.heap && g.heap[u].body.Open? && g.heap[u].body.thread == t
  {
    assert OpenListOk(g, t);
  }

  // Colours, lists and phases do not matter.
  lemma SameUntouched(g: G, g': G)
    requires ThreadsOk(g) && SameBodies(g, g') && SameRoots(g, g')
    ensures Untouched(g, g')
  {
    forall o | o in g'.heap ensures StaysAt(g, g', o) {
      if IsThread(g, o) { ListsInHeap(g, o); }
    }
  }

  // ----- sweeping -------------------------------------------------------------------------------

  lemma FreeOpenUntouched(g: G, t: Id, i: nat)
    requires ThreadsOk(g) && OpenAt(g, t, i)
    ensures Untouched(g, FreeOpen(g, t, i))
  {
    var u, g' := OpenList(g, t)[i], FreeOpen(g, t, i);
    OpenListDistinct(g, t);
    ListsInHeap(g, t);
    forall o | o in g'.heap ensures StaysAt(g, g', o) {
      if o == t {
        RestWithout(OpenList(g, t), g'.heap.Keys, i);
      } else if IsThread(g, o) {
        ListsInHeap(g, o);
      }
    }
  }

  lemma {:induction false} SweepOpenUntouched(g: G, t: Id, i: nat, gone: set<Id>)
    requires ShapeBut(g, gone) && IsThread(g, t) && OpenClean(g, t, i)
    ensures Untouched(g, SweepOpenFrom(g, t, i))
    decreases |OpenList(g, t)| - i
  {
    hide ThreadsOk, RootsOk, StringsOk, MarksOk, OpenClean, Untouched, FreeOpen, Whiten;
    ThreadsOf(g, gone);
    if OpenAt(g, t, i) {
      var u := OpenList(g, t)[i];
      if Survives(g.second, g.heap[u].mark) {
        WhitenUpval(g, t, i, gone);
        OpenSweptShape(g, Whiten(g, u), t, gone);
        WhitenSame(g, u);
        SameUntouched(g, Whiten(g, u));
        SweepOpenUntouched(Whiten(g, u), t, i + 1, gone);
        UntouchedTrans(g, Whiten(g, u), SweepOpenFrom(g, t, i));
      } else {
        FreeUpval(g, t, i, gone);
        OpenSweptShape(g, FreeOpen(g, t, i), t, gone);
        FreeOpenUntouched(g, t, i);
        SweepOpenUntouched(FreeOpen(g, t, i), t, i, gone);
        UntouchedTrans(g, FreeOpen(g, t, i), SweepOpenFrom(g, t, i));
      }
    } else {
      SameUntouched(g, g);
    }
  }

  lemma ThreadsOf(g: G, gone: set<Id>)
    requires ShapeBut(g, gone)
    ensures ThreadsOk(g)
  {
  }

  lemma WhitenSame(g: G, o: Id)
    requires o in g.heap
    ensures SameBodies(g, Whiten(g, o)) && SameRoots(g, Whiten(g, o))
  {
  }

  // A thread all of whose open upvalues have been closed goes.
  lemma ThreadGoes(g: G, g1: G, t: Id, k: nat)
    requires ThreadsOk(g) && ClosedFirst(g, g1, t, k) && k == |OpenList(g, t)|
    ensures Untouched(g, Dropped(g1, t))
  {
    hide Dead;
    var g', us := Dropped(g1, t), OpenList(g, t);
    assert us[..k] == us;
    ListsInHeap(g, t);
    forall o | o in g'.heap ensures StaysAt(g, g', o) {
      if o in us {
        var i :| 0 <= i < k && us[i] == o;
        assert ClosedOne(g, g1, t, us[i]);
      } else if IsThread(g, o) {
        ListsInHeap(g, o);
        forall u | u in g.heap[o].body.openupval ensures u in g'.heap { assert u !in us && u != t; }
      } else if g.heap[o].body.Open? {
        assert g.heap[o].body.thread != t;
      }
    }
  }

  lemma OtherGoes(g: G, o: Id)
    requires ThreadsOk(g) && (o in g.heap ==> !g.heap[o].body.Open? && !g.heap[o].body.Thread?)
    ensures Untouched(g, Dropped(g, o))
  {
    var g' := Dropped(g, o);
    forall p | p in g'.heap ensures StaysAt(g, g', p) {
      if IsThread(g, p) { ListsInHeap(g, p); }
    }
  }

  lemma FreeObjectUntouched(g: G, o: Id)
    requires MayClose(g, {o}) && o in g.heap && !g.heap[o].body.Open?
    ensures Untouched(g, FreeObject(g, o))
  {
    hide CloseUpvals, ClosedFirst, Untouched, Dropped, RootsOk, StringsOk, MarksOk, NoDangling, Inv;
    ThreadsOf(g, {o});
    if IsThread(g, o) {
      CloseUpvalsCloses(g, o, 0, {o});
      var k: nat :|
        && ClosedFirst(g, CloseUpvals(g, o, 0), o, k)
        && forall i :: 0 <= i < |OpenList(g, o)| ==> (i < k <==> 0 <= SlotOf(g, OpenList(g, o)[i]));
      AllClosed(g, CloseUpvals(g, o, 0), o, k);
      ThreadGoes(g, CloseUpvals(g, o, 0), o, k);
    } else {
      OtherGoes(g, o);
    }
  }

  lemma AllClosed(g: G, g1: G, t: Id, k: nat)
    requires ThreadsOk(g) && ClosedFirst(g, g1, t, k)
    requires forall i :: 0 <= i < |OpenList(g, t)| ==> (i < k <==> 0 <= SlotOf(g, OpenList(g, t)[i]))
    ensures k == |OpenList(g, t)|
  {
    OpenListDistinct(g, t);
    var us := OpenList(g, t);
    if us != [] { assert OpenAt(g, t, |us| - 1) && 0 <= SlotOf(g, us[|us| - 1]); }
  }

  lemma SweepNextUntouched(g: G)
    requires Shape(g) && NoDangling(g) && g.phase.Sweep? && g.sweepgc < |g.rootgc|
    ensures g.rootgc[g.sweepgc] in g.heap && Untouched(g, SweepNext(g))
  {
    hide ThreadsOk, RootsOk, StringsOk, MarksOk, NoDangling, SweepOpenFrom, SweepThis, OpenClean, Untouched, Sweeps;
    var o := g.rootgc[g.sweepgc];
    var g1 := SweepOpenFrom(g, o, 0);
    OpenFirst(g);
    SweepsNoDangling(g, g1);
    if IsThread(g, o) {
      NoneYet(g, o);
      SweepOpenUntouched(g, o, 0, {});
    } else {
      NoListNoUpvals(g, o);
      SameUntouched(g, g);
    }
    SamePhase(g, g1);
    SweepThisUntouched(g1, o);
    UntouchedTrans(g, g1, SweepNext(g));
  }

  lemma NoneYet(g: G, t: Id)
    requires IsThread(g, t)
    ensures OpenClean(g, t, 0)
  {
  }

  lemma SweepThisUntouched(g: G, o: Id)
    requires Shape(g) && NoDangling(g) && g.phase.Sweep? && o in g.heap && g.sweepgc < |g.rootgc|
    requires g.rootgc[g.sweepgc] == o
    ensures Untouched(g, SweepThis(g, o))
  {
    hide ThreadsOk, StringsOk, MarksOk, NoDangling, FreeObject, Untouched;
    assert o in g.rootgc;
    if Survives(g.second, g.heap[o].mark) {
      WhitenSame(g, o);
      SameUntouched(g, SweepThis(g, o));
    } else {
      var g1 := g.(rootgc := RemoveAt(g.rootgc, g.sweepgc));
      UnlinkedRoot(g, o);
      SameRefs(g, g1);
      FreeObjectUntouched(g1, o);
      SameUntouched(g, g1);
      UntouchedTrans(g, g1, SweepThis(g, o));
    }
  }

  lemma {:induction false} SweepManyUntouched(g: G, count: nat)
    requires Shape(g) && NoDangling(g) && RootsClean(g) && g.phase.Sweep?
    ensures Untouched(g, SweepMany(g, count))
    decreases count
  {
    hide ThreadsOk, RootsOk, StringsOk, MarksOk, NoDangling, RootsClean, SweepNext, Untouched, Sweeps;
    SameUntouched(g, g);
    if count > 0 && g.sweepgc < |g.rootgc| {
      SweepNextUntouched(g);
      SweepNextGood(g);
      TurnKept(g, SweepNext(g));
      SweepManyUntouched(SweepNext(g), count - 1);
      UntouchedTrans(g, SweepNext(g), SweepMany(g, count));
    }
  }

  lemma TurnKept(g: G, g': G)
    requires SweepTurn(g, g')
    ensures Shape(g') && NoDangling(g') && RootsClean(g') && g'.phase == g.phase
  {
  }

  lemma FreeStringUntouched(g: G, b: nat, i: nat)
    requires Shape(g) && b < |g.strt| && i < |g.strt[b]|
    ensures Untouched(g, FreeString(g, b, i))
  {
    hide ThreadsOk, RootsOk, MarksOk, Untouched, Dropped;
    var o := g.strt[b][i];
    var g1 := g.(strt := g.strt[b := RemoveAt(g.strt[b], i)], nuse := if g.nuse > 0 then g.nuse - 1 else 0);
    IsString(g, b, i);
    SameUntouched(g, g1);
    ThreadsOkSame(g, g1);
    OtherGoes(g1, o);
    UntouchedTrans(g, g1, FreeString(g, b, i));
  }

  lemma {:induction false} SweepBucketUntouched(g: G, b: nat, i: nat)
    requires Shape(g) && NoDangling(g) && b < |g.strt| && BucketClean(g, b, i)
    ensures Untouched(g, SweepBucketFrom(g, b, i))
    decreases |g.strt[b]| - i
  {
    hide ThreadsOk, RootsOk, StringsOk, MarksOk, NoDangling, BucketClean, FreeString, Whiten, Untouched, Sweeps;
    SameUntouched(g, g);
    if i < |g.strt[b]| && g.strt[b][i] in g.heap {
      var o := g.strt[b][i];
      if Survives(g.second, g.heap[o].mark) {
        KeepString(g, b, i);
        TurnKeeps(g, Whiten(g, o), b);
        WhitenSame(g, o);
        SameUntouched(g, Whiten(g, o));
        SweepBucketUntouched(Whiten(g, o), b, i + 1);
        UntouchedTrans(g, Whiten(g, o), SweepBucketFrom(g, b, i));
      } else {
        DropString(g, b, i);
        TurnKeeps(g, FreeString(g, b, i), b);
        FreeStringUntouched(g, b, i);
        SweepBucketUntouched(FreeString(g, b, i), b, i);
        UntouchedTrans(g, FreeString(g, b, i), SweepBucketFrom(g, b, i));
      }
    }
  }

  // ----- a step of the collector --------------------------------------------------------------

  lemma {:induction false} MarkAllDarker(g: G, ids: seq<Id>)
    ensures Darker(g, MarkAll(g, ids))
    decreases |ids|
  {
    hide Darker, MarkObject;
    DarkerSelf(g);
    if ids != [] {
      MarkObjectDarker(g, ids[0]);
      MarkAllDarker(MarkObject(g, ids[0]), ids[1..]);
      DarkerTrans(g, MarkObject(g, ids[0]), MarkAll(g, ids));
    }
  }

  lemma MarkRootUntouched(g: G)
    requires ThreadsOk(g)
    ensures Untouched(g, MarkRoot(g))
  {
    hide MarkAll, RootIds, ThreadsOk, SameBodies;
    var g0 := g.(gray := [], grayagain := []);
    SameThings(g, g0);
    MarkAllDarker(g0, RootIds(g));
    DarkerSame(g0, MarkAll(g0, RootIds(g)));
    SameThings(MarkAll(g0, RootIds(g)), MarkRoot(g));
    BodiesTrans(g, MarkAll(g0, RootIds(g)), MarkRoot(g));
    SameUntouched(g, MarkRoot(g));
  }

  lemma SameThings(g: G, g': G)
    requires g'.heap == g.heap && SameRoots(g, g')
    ensures SameBodies(g, g')
  {
  }

  lemma BodiesTrans(g: G, g1: G, g2: G)
    requires SameBodies(g, g1) && SameBodies(g1, g2)
    ensures SameBodies(g, g2)
  {
  }

  lemma ResetSweepUntouched(g: G)
    requires ThreadsOk(g)
    ensures Untouched(g, ResetSweep(g))
  {
    SameUntouched(g, ResetSweep(g));
  }

  lemma PropagateUntouched(g: G)
    requires Inv(g) && g.phase.Propagate? && g.gray != []
    ensures Untouched(g, PropagateMark(g))
  {
    hide Inv, PropagateMark, Tri, Typed;
    MarkingParts(g);
    PropagateTri(g, 0);
    DarkerSame(g, PropagateMark(g));
    SameUntouched(g, PropagateMark(g));
  }

  lemma MarkingParts(g: G)
    requires Inv(g) && g.phase.Propagate?
    ensures Tri(g, {}, 0) && Typed(g) && ThreadsOk(g)
  {
    NothingDead(g);
  }

  lemma AtomicUntouched(g: G)
    requires Inv(g) && g.phase.Propagate?
    ensures Untouched(g, Atomic(g))
  {
    hide Inv, FinalMarks, Tri, Typed, Shape, NoDangling, ThreadsOk, SameBodies;
    InvShape(g);
    MarkingParts(g);
    UvheadIs(g);
    RootsTyped(g);
    AtomicTri(g);
    DarkerSame(g, FinalMarks(g));
    SameThings(FinalMarks(g), Atomic(g));
    BodiesTrans(g, FinalMarks(g), Atomic(g));
    SameUntouched(g, Atomic(g));
  }

  lemma BucketStepUntouched(g: G)
    requires Inv(g) && g.phase.SweepString?
    ensures Untouched(g, SweepBucketStep(g))
  {
    hide ThreadsOk, RootsOk, StringsOk, MarksOk, NoDangling, SweepBucketFrom, Untouched;
    var g1 := SweepBucketFrom(g, g.sweepstrgc, 0);
    NothingYet(g, g.sweepstrgc);
    SweepBucketUntouched(g, g.sweepstrgc, 0);
    SweepBucketGood(g, g.sweepstrgc, 0);
    TurnKeeps(g, g1, g.sweepstrgc);
    SameUntouched(g1, SweepBucketStep(g));
    UntouchedTrans(g, g1, SweepBucketStep(g));
  }

  lemma RootStepUntouched(g: G)
    requires Inv(g) && g.phase.Sweep?
    ensures Untouched(g, SweepRootStep(g))
  {
    hide ThreadsOk, RootsOk, StringsOk, MarksOk, NoDangling, SweepMany, Untouched, CheckSizes, Sweeps, RootsClean;
    var g1 := SweepMany(g, GCSWEEPMAX);
    SweepManyUntouched(g, GCSWEEPMAX);
    SweepManyGood(g, GCSWEEPMAX);
    TurnKept(g, g1);
    ResizeKeeps(g1);
    SameUntouched(g1, SweepRootStep(g));
    UntouchedTrans(g, g1, SweepRootStep(g));
  }

  lemma ResizeKeeps(g: G)
    ensures CheckSizes(g).heap == g.heap && SameRoots(g, CheckSizes(g))
  {
  }

  // A step of the collector, in any phase, leaves alone all that it does not free.
  lemma SingleStepUntouched(g: G)
    requires Inv(g)
    ensures Untouched(g, SingleStep(g))
  {
    hide MarkRoot, PropagateMark, Atomic, SweepBucketStep, SweepRootStep, Untouched, NoDangling, ThreadsOk, PhaseOk,
         RootsOk, StringsOk, MarksOk;
    match g.phase
    case Pause => MarkRootUntouched(g);
    case Propagate => if g.gray != [] { PropagateUntouched(g); } else { AtomicUntouched(g); }
    case SweepString => BucketStepUntouched(g);
    case Sweep => RootStepUntouched(g);
    case Finalize => SameUntouched(g, SingleStep(g));
  }

  // ----- what the program can reach -------------------------------------------------------------

  lemma ChildrenStay(g: G, g': G, o: Id)
    requires Untouched(g, g') && ThreadsOk(g') && o in g'.heap
    ensures Children(g', o) == Children(g, o)
  {
    assert StaysAt(g, g', o);
    if g'.heap[o].body.Open? {
      assert IsThread(g', g'.heap[o].body.thread);
      assert StaysAt(g, g', g'.heap[o].body.thread);
    }
  }

  lemma {:induction false} ReachStays(g: G, g': G, o: Id, n: nat)
    requires Untouched(g, g') && ThreadsOk(g') && NoDangling(g) && forall p :: Live(g, p) ==> p in g'.heap
    requires ReachIn(g, o, n)
    ensures ReachIn(g', o, n)
    decreases n
  {
    if o !in Roots(g) {
      var p :| ReachIn(g, p, n - 1) && o in Children(g, p);
      ReachInLive(g, p, n - 1);
      ReachStays(g, g', p, n - 1);
      ChildrenStay(g, g', p);
    }
  }

  lemma {:induction false} ReachWas(g: G, g': G, o: Id, n: nat)
    requires Untouched(g, g') && ThreadsOk(g') && NoDangling(g') && ReachIn(g', o, n)
    ensures ReachIn(g, o, n)
    decreases n
  {
    if o !in Roots(g') {
      var p :| ReachIn(g', p, n - 1) && o in Children(g', p);
      ReachInLive(g', p, n - 1);
      ReachWas(g, g', p, n - 1);
      ChildrenStay(g, g', p);
    }
  }

  // The program can reach the same objects as before.
  lemma SameReach(g: G, g': G)
    requires Untouched(g, g') && Inv(g) && Inv(g') && FreesDead(g, g')
    ensures forall o :: Reachable(g, o) <==> Reachable(g', o)
  {
    hide Untouched, ThreadsOk, NoDangling, PhaseOk, RootsOk, StringsOk, MarksOk;
    forall o ensures Reachable(g, o) <==> Reachable(g', o) {
      if Reachable(g, o) {
        var n: nat :| ReachIn(g, o, n);
        ReachStays(g, g', o, n);
      }
      if Reachable(g', o) {
        var n: nat :| ReachIn(g', o, n);
        ReachWas(g, g', o, n);
      }
    }
  }

  ghost predicate FixedStays(g: G, g': G) { forall o :: o in g'.heap && o in g.heap ==> Fixed(g', o) == Fixed(g, o) }

  // What collecting is allowed to do: only what is neither reachable nor fixed goes, and
  // what stays is what it was.
  ghost predicate Collects(g: G, g': G) {
    && Untouched(g, g') && FixedStays(g, g')
    && (forall o :: Reachable(g, o) <==> Reachable(g', o))
    && (forall o :: o in g.heap && o !in g'.heap ==> !Reachable(g, o) && !Fixed(g, o))
  }

  lemma CollectsSelf(g: G)
    requires Inv(g)
    ensures Collects(g, g)
  {
    hide NoDangling, PhaseOk, ThreadsOk, RootsOk, StringsOk, MarksOk, Untouched;
    SameUntouched(g, g);
  }

  lemma CollectsTrans(g: G, g1: G, g2: G)
    requires Collects(g, g1) && Collects(g1, g2)
    ensures Collects(g, g2)
  {
    hide StaysAt, Reachable;
    UntouchedTrans(g, g1, g2);
  }

  lemma UntouchedCollects(g: G, g': G)
    requires Untouched(g, g') && FixedStays(g, g') && Inv(g) && Inv(g') && FreesDead(g, g')
    ensures Collects(g, g')
  {
    hide Untouched, Inv, Reachable, FixedStays;
    SameReach(g, g');
    forall o | o in g.heap && o !in g'.heap ensures !Reachable(g, o) && !Fixed(g, o) {
      if Reachable(g, o) { Safe(g, o); }
    }
  }

  lemma DarkerFixed(g: G, g': G)
    requires Darker(g, g')
    ensures FixedStays(g, g')
  {
    forall o | o in g'.heap ensures Fixed(g', o) == Fixed(g, o) { assert DarkerAt(g, g', o); }
  }

  lemma SweepsFixed(g: G, g': G)
    requires Sweeps(g, g')
    ensures FixedStays(g, g')
  {
    forall o | o in g'.heap && o in g.heap ensures Fixed(g', o) == Fixed(g, o) { assert SweepsAt(g, g', o); }
  }

  lemma FixedSame(g: G, g1: G, g2: G)
    requires FixedStays(g, g1) && g2.heap == g1.heap
    ensures FixedStays(g, g2)
  {
  }

  lemma MarkRootFixed(g: G)
    ensures FixedStays(g, MarkRoot(g))
  {
    hide MarkAll, RootIds;
    var g0 := g.(gray := [], grayagain := []);
    MarkAllDarker(g0, RootIds(g));
    DarkerFixed(g0, MarkAll(g0, RootIds(g)));
  }

  lemma PropagateFixed(g: G)
    requires Inv(g) && g.phase.Propagate?
    ensures g.gray != [] ==> FixedStays(g, PropagateMark(g))
    ensures FixedStays(g, Atomic(g))
  {
    hide Inv, FinalMarks, PropagateMark, Tri, Typed, Shape, NoDangling, FixedStays;
    InvShape(g);
    MarkingParts(g);
    if g.gray != [] {
      PropagateTri(g, 0);
      DarkerFixed(g, PropagateMark(g));
    }
    UvheadIs(g);
    RootsTyped(g);
    AtomicTri(g);
    DarkerFixed(g, FinalMarks(g));
    FixedSame(g, FinalMarks(g), Atomic(g));
  }

  lemma BucketStepFixed(g: G)
    requires Inv(g) && g.phase.SweepString?
    ensures FixedStays(g, SweepBucketStep(g))
  {
    hide Shape, NoDangling, SweepBucketFrom, Sweeps;
    var g1 := SweepBucketFrom(g, g.sweepstrgc, 0);
    NothingYet(g, g.sweepstrgc);
    SweepBucketGood(g, g.sweepstrgc, 0);
    SweepsFixed(g, g1);
    FixedSame(g, g1, SweepBucketStep(g));
  }

  lemma RootStepFixed(g: G)
    requires Inv(g) && g.phase.Sweep?
    ensures FixedStays(g, SweepRootStep(g))
  {
    hide Shape, NoDangling, SweepMany, Sweeps, CheckSizes, RootsClean, StringsClean;
    var g1 := SweepMany(g, GCSWEEPMAX);
    SweepManyGood(g, GCSWEEPMAX);
    SweepsFixed(g, g1);
    ResizeKeeps(g1);
    FixedSame(g, g1, SweepRootStep(g));
  }

  lemma SingleStepFixed(g: G)
    requires Inv(g)
    ensures FixedStays(g, SingleStep(g))
  {
    hide Inv, MarkRoot, PropagateMark, Atomic, SweepBucketStep, SweepRootStep;
    match g.phase
    case Pause => MarkRootFixed(g);
    case Propagate => PropagateFixed(g);
    case SweepString => BucketStepFixed(g);
    case Sweep => RootStepFixed(g);
    case Finalize =>
  }

  // A step of the collector leaves to the program all it could reach, as it was.
  lemma SingleStepCollects(g: G)
    requires Inv(g)
    ensures Inv(SingleStep(g)) && Collects(g, SingleStep(g))
  {
    hide Inv, SingleStep, Untouched, FixedStays, FreesDead, Collects;
    SingleStepInv(g);
    SingleStepUntouched(g);
    SingleStepFixed(g);
    UntouchedCollects(g, SingleStep(g));
  }

  lemma MarkRootCollects(g: G)
    requires Inv(g) && (g.phase.Pause? || g.phase.Finalize?)
    ensures Inv(MarkRoot(g)) && Collects(g, MarkRoot(g))
  {
    hide Inv, MarkRoot, Untouched, FixedStays, Collects;
    MarkRootInv(g);
    InvThreads(g);
    MarkRootUntouched(g);
    MarkRootFixed(g);
    UntouchedCollects(g, MarkRoot(g));
  }

  lemma InvThreads(g: G)
    requires Inv(g)
    ensures ThreadsOk(g)
  {
  }

  lemma ResetSweepCollects(g: G)
    requires Inv(g) && (g.phase.Pause? || g.phase.Propagate?)
    ensures Inv(ResetSweep(g)) && Collects(g, ResetSweep(g))
  {
    hide Inv, Untouched, Collects;
    ResetSweepInv(g);
    InvThreads(g);
    ResetSweepUntouched(g);
    UntouchedCollects(g, ResetSweep(g));
  }
}

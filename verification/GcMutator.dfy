// What the program does to the heap between two steps of the collector.

module GcMutator {
  import opened GcColours
  import opened GcState
  import opened GcMark
  import opened GcSweep
  import opened GcSweepAll
  import opened GcInvariant

  // ----- changing what an object refers to ------------------------------------------

  function SetBody(g: G, o: Id, b: Body): G
    requires o in g.heap
  {
    g.(heap := g.heap[o := g.heap[o].(body := b)])
  }

  // Objects keep their kind, threads their open upvalues.
  predicate SameForm(g: G, b: Body, b': Body) {
    match b
    case Node(kind, _) => b'.Node? && b'.kind == kind
    case Closed(_) => b'.Closed?
    case Thread(_, _, us) =>
      b'.Thread? && b'.openupval == us && forall u :: u in us && u in g.heap && g.heap[u].body.Open? ==>
          g.heap[u].body.slot < |b'.stack|
    case _ => false
  }

  lemma SetBodyThreads(g: G, o: Id, b: Body)
    requires ThreadsOk(g) && o in g.heap && SameForm(g, g.heap[o].body, b)
    ensures ThreadsOk(SetBody(g, o, b))
  {
    var g' := SetBody(g, o, b);
    forall t {:trigger IsThread(g', t)} | IsThread(g', t) ensures OpenListOk(g', t) {
      assert IsThread(g, t);
      assert OpenListOk(g, t);
    }
    forall u | u in g'.heap && g'.heap[u].body.Open?
      ensures IsThread(g', g'.heap[u].body.thread) && u in g'.heap[g'.heap[u].body.thread].body.openupval
    {
      assert IsThread(g, g.heap[u].body.thread);
    }
  }

  lemma SetBodyShape(g: G, o: Id, b: Body)
    requires Shape(g) && o in g.heap && SameForm(g, g.heap[o].body, b)
    ensures Shape(SetBody(g, o, b))
  {
    hide SetBody, ThreadsOk, StringsOk, SameForm, MarksOk, RootsOk;
    SetBodyThreads(g, o, b);
    SetBodyStrings(g, o, b);
    SetBodyMarks(g, o, b);
  }

  lemma SetBodyMarks(g: G, o: Id, b: Body)
    requires MarksOk(g) && RootsOk(g, {}) && o in g.heap && SameForm(g, g.heap[o].body, b)
    ensures MarksOk(SetBody(g, o, b)) && RootsOk(SetBody(g, o, b), {})
  {
    var g' := SetBody(g, o, b);
    assert forall p :: p in g.heap && p != o ==> g'.heap[p] == g.heap[p];
  }

  lemma SetBodyStrings(g: G, o: Id, b: Body)
    requires StringsOk(g) && o in g.heap && SameForm(g, g.heap[o].body, b)
    ensures StringsOk(SetBody(g, o, b))
  {
    var g' := SetBody(g, o, b);
    assert forall p :: p in g.heap && p != o ==> g'.heap[p] == g.heap[p];
  }

  // What others refer to stays, but for upvalues that live in a rewritten stack.
  lemma SetBodyChildren(g: G, o: Id, b: Body, p: Id)
    requires o in g.heap && SameForm(g, g.heap[o].body, b) && p != o
    requires p in g.heap && g.heap[p].body.Open? && g.heap[p].body.thread == o ==>
               SlotValue(SetBody(g, o, b), o, g.heap[p].body.slot) == SlotValue(g, o, g.heap[p].body.slot)
    ensures Children(SetBody(g, o, b), p) == Children(g, p)
  {
    var g' := SetBody(g, o, b);
    if p in g.heap && g.heap[p].body.Open? && g.heap[p].body.thread != o {
      assert SlotValue(g', g.heap[p].body.thread, g.heap[p].body.slot) ==
             SlotValue(g, g.heap[p].body.thread, g.heap[p].body.slot);
    }
  }

  // A value the program may store: live, and no upvalue.
  predicate Storable(g: G, v: Value) { v.Ref? ==> Live(g, v.id) && !IsUpval(g.heap[v.id].body) }

  ghost predicate NewChildrenOk(g: G, o: Id, b: Body)
    requires o in g.heap
  {
    && (Live(g, o) ==> forall c :: c in BodyChildren(g, b) ==> Live(g, c) && Suits(b, g.heap[c].body))
    && forall u :: Live(g, u) && g.heap[u].body.Open? && g.heap[u].body.thread == o ==>
         Storable(g, SlotValue(SetBody(g, o, b), o, g.heap[u].body.slot))
  }

  lemma SetBodyNoDangling(g: G, o: Id, b: Body)
    requires NoDangling(g) && o in g.heap && SameForm(g, g.heap[o].body, b) && NewChildrenOk(g, o, b)
    ensures NoDangling(SetBody(g, o, b))
  {
    var g' := SetBody(g, o, b);
    assert forall p :: Live(g', p) <==> Live(g, p);
    forall p | Live(g', p) ensures ChildrenLive(g', p) {
      assert ChildrenLive(g, p);
      if p != o {
        var q := g.heap[p].body;
        if q.Open? && q.thread == o {
          assert Storable(g, SlotValue(g', o, q.slot));
        } else {
          SetBodyChildren(g, o, b, p);
        }
      } else {
        assert Children(g', o) == BodyChildren(g, b);
      }
    }
  }

  lemma SetBodyPhase(g: G, o: Id, b: Body)
    requires PhaseOk(g) && !g.phase.Propagate? && o in g.heap && SameForm(g, g.heap[o].body, b) && RootsOk(g, {})
    ensures PhaseOk(SetBody(g, o, b))
  {
    var g' := SetBody(g, o, b);
    assert forall p :: CurWhite(g', p) <==> CurWhite(g, p);
    assert forall p :: OpenList(g', p) == OpenList(g, p);
    if g.phase.Sweep? {
      forall i | 0 <= i < g'.sweepgc ensures CleanRoot(g', g'.rootgc[i]) { assert CleanRoot(g, g.rootgc[i]); }
    }
    if g.phase.SweepString? {
      forall c | 0 <= c < g'.sweepstrgc ensures BucketClean(g', c, |g'.strt[c]|) {
        assert BucketClean(g, c, |g.strt[c]|);
      }
    }
  }

  // While marking, only a black object that was changed may refer to something white.
  lemma SetBodyTri(g: G, o: Id, b: Body, busy: set<Id>)
    requires Tri(g, {}, 0) && o in g.heap && SameForm(g, g.heap[o].body, b)
    requires busy == if Black(g, o) then {o} else {}
    ensures Tri(SetBody(g, o, b), busy, 0)
  {
    var g' := SetBody(g, o, b);
    forall p | p in g'.heap ensures TriAt(g', busy, 0, p) {
      assert TriAt(g, {}, 0, p);
      if g.heap[p].mark.black && p != o {
        SetBodyChildren(g, o, b, p);
      }
    }
  }

  // ----- marking between two steps keeps the invariant ---------------------------------

  lemma DarkerNoDangling(g: G, g': G)
    requires NoDangling(g) && Darker(g, g') && (forall o :: o in g.heap ==> Live(g, o))
    ensures NoDangling(g') && forall o :: o in g'.heap ==> Live(g', o)
  {
    forall o | o in g'.heap ensures Live(g', o) { assert DarkerAt(g, g', o); }
    forall o | Live(g', o) ensures ChildrenLive(g', o) {
      assert ChildrenLive(g, o);
      DarkerChildren(g, g', o);
      DarkerBody(g, g', o);
      forall c | c in Children(g', o) ensures Live(g', c) && Suits(g'.heap[o].body, g'.heap[c].body) {
        DarkerBody(g, g', c);
      }
    }
    forall c | c in Ids(g'.registry) + AllIds(g'.mt) ensures Live(g', c) && !IsUpval(g'.heap[c].body) {
      DarkerBody(g, g', c);
    }
  }

  lemma DarkerRootMarked(g: G, g': G)
    requires RootMarked(g) && Darker(g, g') && g.main in g.heap && (forall c :: c in Ids(g.registry) ==> c in g.heap)
    ensures RootMarked(g')
  {
    DarkerBody(g, g', g.main);
    forall c | c in Ids(g'.registry) ensures !White(g', c) { DarkerBody(g, g', c); }
  }

  // A state of the mark phase in which `busy` objects may still refer to white ones.
  ghost predicate Marking(g: G, busy: set<Id>) {
    && g.phase.Propagate? && Shape(g) && NoDangling(g) && Tri(g, busy, 0) && RootMarked(g)
    && Typed(g) && forall o :: o in g.heap ==> Live(g, o)
  }

  lemma InvMarking(g: G)
    requires g.phase.Propagate?
    ensures Inv(g) <==> Marking(g, {})
  {
    if Inv(g) { NothingDead(g); }
  }

  lemma MarkMarking(g: G, v: Id, busy: set<Id>)
    requires Marking(g, busy) && v in g.heap
    ensures var g' := MarkObject(g, v); Marking(g', busy) && Darker(g, g') && !White(g', v)
  {
    hide Tri, Typed, Shape, NoDangling, RootMarked, MarkObject, Darker, DarkerAt;
    var g' := MarkObject(g, v);
    RootsInHeap(g);
    MarkObjectTri(g, v, busy, 0);
    DarkerNoDangling(g, g');
    DarkerTyped(g, g');
    DarkerRootMarked(g, g');
    ShapeIs(g);
    DarkerShape(g, g', {});
    ShapeIs(g');
    DarkerPhase(g, g');
  }

  lemma DarkerPhase(g: G, g': G)
    requires Darker(g, g')
    ensures g'.phase == g.phase
  {
  }

  lemma RootsInHeap(g: G)
    requires NoDangling(g)
    ensures g.main in g.heap && g.running in g.heap && forall c :: c in Ids(g.registry) + AllIds(g.mt) ==> c in g.heap
  {
  }

  lemma DoneMarking(g: G, o: Id)
    requires Marking(g, {o}) && Black(g, o) && Settled(g, o)
    ensures Marking(g, {})
  {
    assert {} + {o} == {o};
    NoLongerBusy(g, {}, o, 0);
  }

  // ----- the barriers restore the invariant ----------------------------------------------

  // A black table that got a white value waits to be traversed again.
  lemma BarrierBackMarking(g: G, t: Id)
    requires Marking(g, {t}) && Black(g, t) && IsTable(g.heap[t].body)
    ensures Marking(BarrierBack(g, t), {})
  {
    hide NoDangling, Shape, Typed, Tri;
    assert ColourOk(g.heap[t].mark) by { ColourOfMarks(g, t); }
    BackShape(g, t);
    BackTri(g, t);
    BackNoDangling(g, t);
  }

  lemma ColourOfMarks(g: G, o: Id)
    requires Shape(g) && o in g.heap
    ensures ColourOk(g.heap[o].mark)
  {
  }

  lemma BackNoDangling(g: G, t: Id)
    requires NoDangling(g) && Typed(g) && t in g.heap
    ensures NoDangling(BarrierBack(g, t)) && Typed(BarrierBack(g, t))
  {
    var g' := BarrierBack(g, t);
    assert forall p :: Live(g', p) <==> Live(g, p);
    assert forall p :: p in g.heap ==> g'.heap[p].body == g.heap[p].body;
    forall p ensures Children(g', p) == Children(g, p) { BackChildren(g, t, p); }
    hide Children, Live;
    forall p | Live(g', p) ensures ChildrenLive(g', p) { assert ChildrenLive(g, p); }
    forall p | p in g'.heap ensures TypedAt(g', p) { assert TypedAt(g, p); }
  }

  lemma BackChildren(g: G, t: Id, p: Id)
    requires t in g.heap
    ensures Children(BarrierBack(g, t), p) == Children(g, p)
  {
    var g' := BarrierBack(g, t);
    if p in g.heap && g.heap[p].body.Open? {
      assert SlotValue(g', g.heap[p].body.thread, g.heap[p].body.slot) ==
             SlotValue(g, g.heap[p].body.thread, g.heap[p].body.slot);
    }
  }

  lemma BackTri(g: G, t: Id)
    requires Tri(g, {t}, 0) && Black(g, t) && IsTable(g.heap[t].body)
    ensures Tri(BarrierBack(g, t), {}, 0)
  {
    var g' := BarrierBack(g, t);
    assert t !in g.gray && t !in g.grayagain;
    forall p | p in g'.heap ensures TriAt(g', {}, 0, p) {
      assert TriAt(g, {t}, 0, p);
      BackChildren(g, t, p);
      if p != t && g.heap[p].mark.black {
        forall c | c in Children(g', p) ensures !White(g', c) { assert !White(g, c); }
      }
    }
  }

  lemma BackShape(g: G, t: Id)
    requires Shape(g) && t in g.heap && ColourOk(g.heap[t].mark)
    ensures Shape(BarrierBack(g, t))
  {
    hide ThreadsOk, RootsOk, StringsOk, MarksOk, SameBodies;
    var g' := BarrierBack(g, t);
    BackMarks(g, t);
    SweepgcOk(g);
    ThreadsOkSame(g, g');
    RootsOkSame(g, g', {});
    StringsOkSame(g, g');
  }

  lemma BackMarks(g: G, t: Id)
    requires MarksOk(g) && t in g.heap && ColourOk(g.heap[t].mark)
    ensures MarksOk(BarrierBack(g, t)) && SameBodies(g, BarrierBack(g, t))
  {
  }

  lemma SweepgcOk(g: G)
    requires RootsOk(g, {})
    ensures g.sweepgc <= |g.rootgc|
  {
  }

  // ----- recolouring while sweeping ---------------------------------------------------------

  ghost predicate Recoloured(g: G, g': G) {
    && g' == g.(heap := g'.heap, gray := g'.gray, grayagain := g'.grayagain)
    && SameBodies(g, g')
    && forall o :: o in g.heap ==>
         && (Live(g, o) ==> Live(g', o)) && (CurWhite(g, o) ==> CurWhite(g', o))
         && (Live(g', o) && !Live(g, o) ==> ChildrenLive(g, o))
  }

  lemma SameBodiesChildren(g: G, g': G, o: Id)
    requires SameBodies(g, g')
    ensures Children(g', o) == Children(g, o) && OpenList(g', o) == OpenList(g, o)
  {
    if o in g.heap && g.heap[o].body.Open? {
      assert SlotValue(g', g.heap[o].body.thread, g.heap[o].body.slot) ==
             SlotValue(g, g.heap[o].body.thread, g.heap[o].body.slot);
    }
  }

  lemma RecolouredNoDangling(g: G, g': G)
    requires NoDangling(g) && Recoloured(g, g')
    ensures NoDangling(g')
  {
    forall o | Live(g', o) ensures ChildrenLive(g', o) {
      assert ChildrenLive(g, o);
      SameBodiesChildren(g, g', o);
    }
  }

  lemma RecolouredPhase(g: G, g': G)
    requires PhaseOk(g) && Recoloured(g, g') && !g.phase.Propagate?
    ensures PhaseOk(g')
  {
    if g.phase.SweepString? {
      forall b | 0 <= b < g'.sweepstrgc ensures BucketClean(g', b, |g'.strt[b]|) { 
        assert BucketClean(g, b, |g.strt[b]|);
        forall i | 0 <= i < |g'.strt[b]| ensures CurWhite(g', g'.strt[b][i]) { assert CurWhite(g, g.strt[b][i]); }
      }
    } else if g.phase.Sweep? {
      forall i | 0 <= i < g'.sweepgc ensures CleanRoot(g', g'.rootgc[i]) {
        assert CleanRoot(g, g.rootgc[i]);
        SameBodiesChildren(g, g', g.rootgc[i]);
      }
    }
  }

  lemma RecolouredInv(g: G, g': G)
    requires Inv(g) && Recoloured(g, g') && !g.phase.Propagate? && MarksOk(g')
    ensures Inv(g')
  {
    hide NoDangling, ThreadsOk, RootsOk, StringsOk, MarksOk, PhaseOk;
    RecolouredNoDangling(g, g');
    RecolouredPhase(g, g');
    ThreadsOkSame(g, g');
    SweepgcOk(g);
    RootsOkSame(g, g', {});
    StringsOkSame(g, g');
  }

  lemma MarkedInv(g: G, o: Id, m: Mark, again: seq<Id>)
    requires Inv(g) && !g.phase.Propagate? && o in g.heap && ColourOk(m) && m.fixed == g.heap[o].mark.fixed
    requires m.black ==> g.heap[o].mark.black
    requires !HasDeadWhite(g.second, m)
             && (CurWhite(g, o) ==> m.white0 == !g.second && m.white1 == g.second && !m.black)
    requires Dead(g, o) ==> ChildrenLive(g, o)
    ensures Inv(SetMark(g, o, m).(grayagain := again))
  {
    hide Shape, NoDangling, PhaseOk;
    var g' := SetMark(g, o, m).(grayagain := again);
    MarkedMarks(g, o, m, again);
    hide MarksOk;
    assert Recoloured(g, g') by { hide ChildrenLive; }
    RecolouredInv(g, g');
  }

  lemma MarkedMarks(g: G, o: Id, m: Mark, again: seq<Id>)
    requires Shape(g) && o in g.heap && ColourOk(m) && m.fixed == g.heap[o].mark.fixed
    requires m.black ==> g.heap[o].mark.black
    ensures MarksOk(SetMark(g, o, m).(grayagain := again))
  {
  }

  // ----- writes ----------------------------------------------------------------------------------

  // Stores `v` in a table, a function, a userdata or a prototype, which then refers to
  // `refs`, and lets the collector know.
  function WriteNode(g: G, o: Id, refs: seq<Id>, v: Value): G
    requires o in g.heap && g.heap[o].body.Node?
  {
    var g1 := SetBody(g, o, Node(g.heap[o].body.kind, refs));
    if IsTable(g.heap[o].body) then BarrierT(g1, o, v) else Barrier(g1, o, v)
  }

  // Stores `v` in a closed upvalue.
  function WriteClosed(g: G, u: Id, v: Value): G
    requires u in g.heap && g.heap[u].body.Closed?
  {
    Barrier(SetBody(g, u, Closed(v)), u, v)
  }

  lemma SetBodyInv(g: G, o: Id, b: Body)
    requires Inv(g) && o in g.heap && SameForm(g, g.heap[o].body, b) && NewChildrenOk(g, o, b)
    ensures !g.phase.Propagate? || !Black(g, o) ==> Inv(SetBody(g, o, b))
    ensures g.phase.Propagate? && Black(g, o) ==> Marking(SetBody(g, o, b), {o})
  {
    hide Shape, NoDangling, Tri, Typed, NewChildrenOk, SameForm;
    SetBodyShape(g, o, b);
    SetBodyNoDangling(g, o, b);
    if g.phase.Propagate? {
      SetBodyTri(g, o, b, if Black(g, o) then {o} else {});
      NothingDead(g);
      AllTyped(SetBody(g, o, b));
    } else {
      ShapeRoots(g);
      SetBodyPhase(g, o, b);
    }
  }

  lemma ShapeRoots(g: G)
    requires Shape(g)
    ensures RootsOk(g, {})
  {
  }

  lemma AllTyped(g: G)
    requires NoDangling(g) && forall o :: o in g.heap ==> Live(g, o)
    ensures Typed(g)
  {
    forall o | o in g.heap ensures TypedAt(g, o) { assert ChildrenLive(g, o); }
  }

  // Storing `v` in an object that so far referred only to marked objects, or was not black.
  lemma BarrierInv(g: G, o: Id, v: Value, back: bool)
    requires if g.phase.Propagate? && Black(g, o) then Marking(g, {o}) else Inv(g)
    requires o in g.heap && (v.Ref? ==> Live(g, v.id)) && (back ==> IsTable(g.heap[o].body))
             && (Black(g, o) ==> Live(g, o))
    requires g.phase.Propagate? && Black(g, o) ==> forall c :: c in Children(g, o) ==> !White(g, c) || v == Ref(c)
    ensures Inv(if back then BarrierT(g, o, v) else Barrier(g, o, v))
  {
    if g.phase.Propagate? {
      InvMarking(g);
      if Black(g, o) {
        if v.Ref? && White(g, v.id) {
          if back {
            BarrierBackMarking(g, o);
            InvMarking(BarrierBack(g, o));
          } else {
            ForwardMarking(g, o, v.id);
            InvMarking(MarkObject(g, v.id));
          }
        } else {
          DoneMarking(g, o);
        }
      }
    } else if v.Ref? && White(g, v.id) && Black(g, o) {
      assert ColourOk(g.heap[o].mark);
      if back {
        MarkedInv(g, o, BackToGray(g.heap[o].mark), [o] + g.grayagain);
      } else {
        var m := MakeWhite(g.second, g.heap[o].mark);
        MarkedInv(g, o, m, g.grayagain);
        assert SetMark(g, o, m).(grayagain := g.grayagain) == SetMark(g, o, m);
      }
    }
  }

  lemma ForwardMarking(g: G, o: Id, v: Id)
    requires Marking(g, {o}) && Black(g, o) && v in g.heap && forall c :: c in Children(g, o) ==> !White(g, c) || c == v
    ensures Marking(MarkObject(g, v), {})
  {
    hide Marking, MarkObject, Darker, Children, White;
    MarkMarking(g, v, {o});
    var g' := MarkObject(g, v);
    DarkerChildren(g, g', o);
    forall c | c in Children(g', o) ensures !White(g', c) { if c != v { StaysMarked(g, g', c); } }
    StaysBlack(g, g', o);
    DoneMarking(g', o);
  }

  lemma StaysBlack(g: G, g': G, o: Id)
    requires Darker(g, g') && Black(g, o)
    ensures Black(g', o)
  {
    assert DarkerAt(g, g', o);
  }

  lemma StaysMarked(g: G, g': G, c: Id)
    requires Darker(g, g') && !White(g, c)
    ensures !White(g', c)
  {
    if c in g.heap { assert DarkerAt(g, g', c); }
  }

  lemma WriteNodeInv(g: G, o: Id, refs: seq<Id>, v: Value)
    requires Inv(g) && Live(g, o) && g.heap[o].body.Node?
    requires v.Ref? ==> Live(g, v.id) && Suits(g.heap[o].body, g.heap[v.id].body)
    requires forall r :: r in refs ==> r in g.heap[o].body.refs || v == Ref(r)
    ensures Inv(WriteNode(g, o, refs, v))
  {
    hide Inv, Marking, Settled, NewChildrenOk, Children, Suits;
    var b := Node(g.heap[o].body.kind, refs);
    NodeChildrenOk(g, o, refs, v);
    NodeBarrierOk(g, o, refs, v);
    SetBodyInv(g, o, b);
    BarrierInv(SetBody(g, o, b), o, v, IsTable(b));
  }

  lemma NodeChildrenOk(g: G, o: Id, refs: seq<Id>, v: Value)
    requires Inv(g) && Live(g, o) && g.heap[o].body.Node?
    requires v.Ref? ==> Live(g, v.id) && Suits(g.heap[o].body, g.heap[v.id].body)
    requires forall r :: r in refs ==> r in g.heap[o].body.refs || v == Ref(r)
    ensures NewChildrenOk(g, o, Node(g.heap[o].body.kind, refs))
  {
    assert ChildrenLive(g, o);
    forall u | Live(g, u) && g.heap[u].body.Open? && g.heap[u].body.thread == o ensures false { OwnerIsThread(g, u); }
    forall c | c in refs ensures Live(g, c) && Suits(g.heap[o].body, g.heap[c].body) {
      if c in g.heap[o].body.refs { assert c in Children(g, o); }
    }
  }

  lemma NodeBarrierOk(g: G, o: Id, refs: seq<Id>, v: Value)
    requires Inv(g) && o in g.heap && g.heap[o].body.Node?
    requires forall r :: r in refs ==> r in g.heap[o].body.refs || v == Ref(r)
    ensures var g1 := SetBody(g, o, Node(g.heap[o].body.kind, refs));
            g.phase.Propagate? && Black(g, o) ==> forall c :: c in Children(g1, o) ==> !White(g1, c) || v == Ref(c)
  {
    if g.phase.Propagate? && Black(g, o) {
      assert TriAt(g, {}, 0, o);
      var g1 := SetBody(g, o, Node(g.heap[o].body.kind, refs));
      forall c | c in Children(g1, o) ensures !White(g1, c) || v == Ref(c) {
        if c in g.heap[o].body.refs { assert c in Children(g, o); }
      }
    }
  }

  lemma OwnerIsThread(g: G, u: Id)
    requires Inv(g) && u in g.heap && g.heap[u].body.Open?
    ensures IsThread(g, g.heap[u].body.thread)
  {
  }

  lemma WriteClosedInv(g: G, u: Id, v: Value)
    requires Inv(g) && Live(g, u) && g.heap[u].body.Closed? && Storable(g, v)
    ensures Inv(WriteClosed(g, u, v))
  {
    hide Inv, Marking, NewChildrenOk, Children;
    var b := Closed(v);
    ClosedChildrenOk(g, u, v);
    SetBodyInv(g, u, b);
    BarrierInv(SetBody(g, u, b), u, v, false);
  }

  lemma ClosedChildrenOk(g: G, u: Id, v: Value)
    requires Inv(g) && u in g.heap && g.heap[u].body.Closed? && Storable(g, v)
    ensures NewChildrenOk(g, u, Closed(v)) && Children(SetBody(g, u, Closed(v)), u) == Ids(v)
  {
    hide Inv;
    forall p | Live(g, p) && g.heap[p].body.Open? && g.heap[p].body.thread == u ensures false { OwnerIsThread(g, p); }
  }

  // ----- stacks and roots ---------------------------------------------------------------------

  function SetThread(g: G, t: Id, globals: Value, stack: seq<Value>): G
    requires IsThread(g, t)
  {
    SetBody(g, t, Thread(globals, stack, OpenList(g, t)))
  }

  // Stack slots take no barrier: threads are never black.
  lemma SetThreadInv(g: G, t: Id, globals: Value, stack: seq<Value>)
    requires Inv(g) && IsThread(g, t)
    requires globals == g.heap[t].body.globals || Storable(g, globals)
    requires forall i :: 0 <= i < |stack| ==>
               (i < |g.heap[t].body.stack| && stack[i] == g.heap[t].body.stack[i]) || Storable(g, stack[i])
    requires forall u :: u in OpenList(g, t) ==> u in g.heap && g.heap[u].body.Open? && g.heap[u].body.slot < |stack|
    ensures Inv(SetThread(g, t, globals, stack))
  {
    var b := Thread(globals, stack, OpenList(g, t));
    assert NewChildrenOk(g, t, b) by { StackChildrenOk(g, t, globals, stack); }
    if g.phase.Propagate? { assert TriAt(g, {}, 0, t); }
    hide Inv, NewChildrenOk;
    SetBodyInv(g, t, b);
  }

  lemma StackChildrenOk(g: G, t: Id, globals: Value, stack: seq<Value>)
    requires Inv(g) && IsThread(g, t)
    requires globals == g.heap[t].body.globals || Storable(g, globals)
    requires forall i :: 0 <= i < |stack| ==>
               (i < |g.heap[t].body.stack| && stack[i] == g.heap[t].body.stack[i]) || Storable(g, stack[i])
    requires forall u :: u in OpenList(g, t) ==> u in g.heap && g.heap[u].body.Open? && g.heap[u].body.slot < |stack|
    ensures NewChildrenOk(g, t, Thread(globals, stack, OpenList(g, t)))
  {
    hide Inv, ChildrenLive, Storable, BodyChildren;
    var b := Thread(globals, stack, OpenList(g, t));
    if Live(g, t) {
      InvChildren(g, t);
      forall c | c in BodyChildren(g, b) ensures Live(g, c) && Suits(b, g.heap[c].body) {
        StackChildOk(g, t, globals, stack, c);
      }
    }
    forall u | Live(g, u) && g.heap[u].body.Open? && g.heap[u].body.thread == t
      ensures Storable(g, SlotValue(SetBody(g, t, b), t, g.heap[u].body.slot))
    {
      InvChildren(g, u);
      StackSlotOk(g, t, globals, stack, u);
    }
  }

  // What an open upvalue of the thread refers to.
  lemma StackSlotOk(g: G, t: Id, globals: Value, stack: seq<Value>, u: Id)
    requires IsThread(g, t) && Live(g, u) && g.heap[u].body.Open? && g.heap[u].body.thread == t && ChildrenLive(g, u)
    requires forall i :: 0 <= i < |stack| ==>
               (i < |g.heap[t].body.stack| && stack[i] == g.heap[t].body.stack[i]) || Storable(g, stack[i])
    ensures Storable(g, SlotValue(SetBody(g, t, Thread(globals, stack, OpenList(g, t))), t, g.heap[u].body.slot))
  {
  }

  lemma InvChildren(g: G, o: Id)
    requires Inv(g) && Live(g, o)
    ensures ChildrenLive(g, o)
  {
  }

  lemma StackChildOk(g: G, t: Id, globals: Value, stack: seq<Value>, c: Id)
    requires IsThread(g, t) && ChildrenLive(g, t)
    requires globals == g.heap[t].body.globals || Storable(g, globals)
    requires forall i :: 0 <= i < |stack| ==>
               (i < |g.heap[t].body.stack| && stack[i] == g.heap[t].body.stack[i]) || Storable(g, stack[i])
    requires c in BodyChildren(g, Thread(globals, stack, OpenList(g, t)))
    ensures Live(g, c) && Suits(Thread(globals, stack, OpenList(g, t)), g.heap[c].body)
  {
    var was := g.heap[t].body;
    if c !in Ids(globals) {
      var v :| v in stack && v == Ref(c);
      var i :| 0 <= i < |stack| && stack[i] == v;
      if i < |was.stack| && stack[i] == was.stack[i] { assert v in was.stack; assert c in Children(g, t); }
    } else if globals == was.globals {
      assert c in Children(g, t);
    }
  }

  lemma RootsOf(g: G)
    requires Inv(g)
    ensures RootsLive(g) && IsThread(g, g.running)
  {
  }

  lemma SetMtInv(g: G, i: nat, v: Value)
    requires Inv(g) && i < |g.mt| && Storable(g, v)
    ensures Inv(g.(mt := g.mt[i := v]))
  {
    hide Inv;
    RootsOf(g);
    var g' := g.(mt := g.mt[i := v]);
    forall c | c in AllIds(g'.mt) ensures Live(g', c) && !IsUpval(g'.heap[c].body) {
      if v != Ref(c) { assert c in AllIds(g.mt) by { assert Ref(c) in g.mt; } }
    }
    RootsChanged(g, g');
  }

  lemma SetRunningInv(g: G, t: Id)
    requires Inv(g) && IsThread(g, t) && Live(g, t)
    ensures Inv(g.(running := t))
  {
    RootsChanged(g, g.(running := t));
  }

  lemma RootsChanged(g: G, g': G)
    requires Inv(g) && g' == g.(mt := g'.mt, running := g'.running) && RootsLive(g') && IsThread(g', g'.running)
    ensures Inv(g')
  {
    hide PhaseOk, RootsLive, Shape, ThreadsOk, StringsOk, RootsOk, MarksOk, NoDangling;
    RootsChangedPhase(g, g');
    RootsChangedNoDangling(g, g');
    RootsChangedShape(g, g');
  }

  lemma RootsChangedShape(g: G, g': G)
    requires Shape(g) && g' == g.(mt := g'.mt, running := g'.running) && IsThread(g', g'.running)
    ensures Shape(g')
  {
    hide StringsOk;
    assert SameBodies(g, g');
    StringsOkSame(g, g');
    RunningChanged(g, g');
  }

  lemma RunningChanged(g: G, g': G)
    requires ThreadsOk(g) && g' == g.(mt := g'.mt, running := g'.running) && IsThread(g', g'.running)
    ensures ThreadsOk(g')
  {
    forall t {:trigger IsThread(g', t)} | IsThread(g', t) ensures OpenListOk(g', t) {
      assert IsThread(g, t) && OpenListOk(g, t);
    }
    forall u | u in g'.heap && g'.heap[u].body.Open?
      ensures IsThread(g', g'.heap[u].body.thread) && u in g'.heap[g'.heap[u].body.thread].body.openupval
    {
      assert IsThread(g, g.heap[u].body.thread);
    }
  }

  lemma RootsChangedNoDangling(g: G, g': G)
    requires NoDangling(g) && g' == g.(mt := g'.mt, running := g'.running) && RootsLive(g')
    ensures NoDangling(g')
  {
    hide RootsLive;
    forall o | Live(g', o) ensures ChildrenLive(g', o) {
      assert ChildrenLive(g, o);
      SameBodiesChildren(g, g', o);
    }
  }

  lemma RootsChangedPhase(g: G, g': G)
    requires PhaseOk(g) && g' == g.(mt := g'.mt, running := g'.running)
    ensures PhaseOk(g')
  {
    if g.phase.Propagate? {
      forall o | o in g'.heap ensures TriAt(g', {}, 0, o) {
        assert TriAt(g, {}, 0, o);
        SameBodiesChildren(g, g', o);
      }
    } else if g.phase.Sweep? {
      forall i | 0 <= i < g'.sweepgc ensures CleanRoot(g', g'.rootgc[i]) {
        assert CleanRoot(g, g.rootgc[i]);
        SameBodiesChildren(g, g', g.rootgc[i]);
      }
    } else if g.phase.SweepString? {
      forall b | 0 <= b < g'.sweepstrgc ensures BucketClean(g', b, |g'.strt[b]|) {
        assert BucketClean(g, b, |g.strt[b]|);
      }
    }
  }
}

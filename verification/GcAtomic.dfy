// Traversing gray objects, and the step that ends the mark phase.

module GcAtomic {
  import opened GcColours
  import opened GcState
  import opened GcMark

  // What a gray object's traversal marks, in order.
  function Traversed(b: Body): seq<Id> {
    match b
    case Node(_, refs) => refs
    case Thread(globals, stack, _) => Flat([globals] + stack)
    case _ => []
  }

  // Takes the first object off the gray list.  A thread is never black: it goes to
  // the list of objects to traverse again.
  function Taken(g: G): (r: G)
    requires g.gray != [] && g.gray[0] in g.heap
    ensures r.heap.Keys == g.heap.Keys
  {
    var o := g.gray[0];
    if g.heap[o].body.Thread? then g.(gray := g.gray[1..], grayagain := [o] + g.grayagain)
    else Blackened(g.(gray := g.gray[1..]), o)
  }

  function PropagateMark(g: G): (r: G)
    requires g.gray != []
    ensures r.heap.Keys == g.heap.Keys
  {
    if g.gray[0] in g.heap then MarkAll(Taken(g), Traversed(g.heap[g.gray[0]].body)) else g.(gray := g.gray[1..])
  }

  lemma PropagateShrinks(g: G)
    requires g.gray != []
    ensures var r := PropagateMark(g); Whites(r) < Whites(g) || (Whites(r) == Whites(g) && |r.gray| < |g.gray|)
  {
    if g.gray[0] in g.heap {
      var t := Taken(g);
      assert Whites(t) == Whites(g);
    } else {
      assert Whites(g.(gray := g.gray[1..])) == Whites(g);
    }
  }

  function PropagateAll(g: G): (r: G)
    ensures r.heap.Keys == g.heap.Keys && r.gray == []
    decreases Whites(g), |g.gray|
  {
    if g.gray == [] then g
    else
      PropagateShrinks(g);
      PropagateAll(PropagateMark(g))
  }

  // Marks again the values of marked upvalues, whose threads may be dead.
  function RemarkUpvals(g: G, us: seq<Id>): (r: G)
    ensures r.heap.Keys == g.heap.Keys
    decreases |us|
  {
    if us == [] then g else RemarkUpvals(Remark(g, us[0]), us[1..])
  }

  function Remark(g: G, u: Id): (r: G)
    ensures r.heap.Keys == g.heap.Keys
  {
    if Gray(g, u) && g.heap[u].body.Open? then MarkValue(g, SlotValue(g, g.heap[u].body.thread, g.heap[u].body.slot))
    else g
  }

  // The whole mark phase once more, with nothing in between.
  function FinalMarks(g: G): (r: G)
    ensures r.heap.Keys == g.heap.Keys && r.gray == []
  {
    var g1 := PropagateAll(RemarkUpvals(g, g.uvhead));
    var g2 := PropagateAll(MarkAll(g1, [g.running] + Flat(g.mt)));
    PropagateAll(g2.(gray := g2.grayagain, grayagain := []))
  }

  function Atomic(g: G): (r: G)
    ensures r.heap.Keys == g.heap.Keys
  {
    var g3 := FinalMarks(g);
    g3.(second := !g.second, sweepstrgc := 0, sweepgc := 0, phase := SweepString)
  }

  // ----- a traversal keeps the invariant ---------------------------------------------

  lemma {:induction false} FlatIds(vs: seq<Value>)
    ensures forall c :: c in Flat(vs) <==> c in AllIds(vs)
  {
    if vs != [] { FlatIds(vs[1..]); }
  }

  lemma TraversesChildren(g: G, o: Id)
    requires o in g.heap && Listed(g.heap[o].body)
    ensures forall c :: c in Traversed(g.heap[o].body) <==> c in Children(g, o)
  {
    match g.heap[o].body
    case Thread(globals, stack, _) =>
      FlatIds([globals] + stack);
      assert AllIds([globals] + stack) == Ids(globals) + AllIds(stack);
    case _ =>
  }

  lemma TakenTri(g: G, stage: Stage)
    requires Tri(g, {}, stage) && g.gray != []
    ensures g.gray[0] in g.heap && Listed(g.heap[g.gray[0]].body)
    ensures Darker(g, Taken(g)) && Tri(Taken(g), {g.gray[0]}, stage)
  {
    hide Tri, ListsOk, Taken, Darker;
    var o := g.gray[0];
    TakenLists(g, stage);
    TakenDarker(g, stage);
    TriKept(g, Taken(g), {}, {o}, stage, o);
  }

  lemma TakenLists(g: G, stage: Stage)
    requires Tri(g, {}, stage) && g.gray != []
    ensures g.gray[0] in g.heap && Listed(g.heap[g.gray[0]].body) && ListsOk(Taken(g), stage)
    ensures var t, o := Taken(g), g.gray[0];
            forall p :: p != o ==> (p in t.gray <==> p in g.gray) && (p in t.grayagain <==> p in g.grayagain)
  {
    var o := g.gray[0];
    assert o in g.gray;
    assert TriAt(g, {}, stage, o);
    var t := Taken(g);
    forall p | p != o ensures (p in t.gray <==> p in g.gray) && (p in t.grayagain <==> p in g.grayagain) {
      if p in g.gray { assert p in g.gray[1..]; }
    }
  }

  lemma TakenDarker(g: G, stage: Stage)
    requires Tri(g, {}, stage) && g.gray != [] && g.gray[0] in g.heap && Listed(g.heap[g.gray[0]].body)
    ensures var t, o := Taken(g), g.gray[0];
            && Darker(g, t) && TriAt(t, {o}, stage, o)
            && forall p :: p in g.heap && p != o ==> t.heap[p].mark == g.heap[p].mark
  {
    var o := g.gray[0];
    assert o in g.gray;
    assert TriAt(g, {}, stage, o);
  }

  lemma PropagateTri(g: G, stage: Stage)
    requires Tri(g, {}, stage) && Typed(g) && g.gray != []
    ensures Darker(g, PropagateMark(g)) && Tri(PropagateMark(g), {}, stage)
  {
    TakenTri(g, stage);
    var o, t := g.gray[0], Taken(g);
    var ids := Traversed(g.heap[o].body);
    TraversesChildren(g, o);
    assert TypedAt(g, o);
    DarkerTyped(g, t);
    var r := MarkAll(t, ids);
    assert t.heap[o].body.Thread? ==> o in t.grayagain;
    assert !t.heap[o].body.Thread? ==> t.heap[o].mark.black;
    assert t.heap[o].body == g.heap[o].body;
    hide Tri, Darker, Typed, TypedAt, Taken, Traversed;
    MarkAllTri(t, ids, {o}, stage);
    DarkerTrans(g, t, r);
    DarkerChildren(g, r, o);
    TakenDone(t, r, o, stage);
    NoLongerBusy(r, {}, o, stage);
  }

  lemma TakenDone(t: G, r: G, o: Id, stage: Stage)
    requires Darker(t, r) && o in t.heap && Listed(t.heap[o].body) && r.grayagain == t.grayagain
    requires if t.heap[o].body.Thread? then o in t.grayagain else t.heap[o].mark.black
    ensures o in r.heap && (IsGray(r.heap[o].mark) ==> Waits(r, o)) && {} + {o} == {o}
  {
    assert DarkerAt(t, r, o);
  }

  lemma {:induction false} PropagateAllTri(g: G, stage: Stage)
    requires Tri(g, {}, stage) && Typed(g)
    ensures Darker(g, PropagateAll(g)) && Tri(PropagateAll(g), {}, stage)
    decreases Whites(g), |g.gray|
  {
    hide Tri, Darker, Typed, PropagateMark;
    DarkerSelf(g);
    if g.gray != [] {
      var g1 := PropagateMark(g);
      PropagateTri(g, stage);
      DarkerTyped(g, g1);
      PropagateShrinks(g);
      PropagateAllTri(g1, stage);
      DarkerTrans(g, g1, PropagateAll(g));
    }
  }

  // ----- the stages of the last step ------------------------------------------------------

  // Marking a value never touches an upvalue.
  lemma MarkValueUpvals(g: G, v: Value, u: Id)
    requires Typed(g) && u in g.heap && IsUpval(g.heap[u].body)
    requires v.Ref? ==> v.id in g.heap && !IsUpval(g.heap[v.id].body)
    ensures MarkValue(g, v).heap[u] == g.heap[u]
  {
    if v.Ref? && White(g, v.id) && IsUserData(g.heap[v.id].body) {
      var refs := g.heap[v.id].body.refs;
      var g1 := Blackened(Grayed(g, v.id), v.id);
      assert TypedAt(g, v.id);
      MarkSimplesUpvals(g1, refs, u);
    }
  }

  lemma {:induction false} MarkSimplesUpvals(g: G, ids: seq<Id>, u: Id)
    requires u in g.heap && u !in ids
    ensures MarkSimples(g, ids).heap[u] == g.heap[u]
    decreases |ids|
  {
    if ids != [] { MarkSimplesUpvals(MarkSimple(g, ids[0]), ids[1..], u); }
  }

  lemma OpenValueTyped(g: G, u: Id)
    requires Typed(g) && u in g.heap && g.heap[u].body.Open?
    ensures var v := SlotValue(g, g.heap[u].body.thread, g.heap[u].body.slot);
            Children(g, u) == Ids(v) && (v.Ref? ==> v.id in g.heap && !IsUpval(g.heap[v.id].body))
  {
    var v := SlotValue(g, g.heap[u].body.thread, g.heap[u].body.slot);
    assert TypedAt(g, u);
    if v.Ref? { assert v.id in Children(g, u); }
  }

  ghost predicate GrayUpvalSettled(g: G, u: Id) {
    Gray(g, u) && g.heap[u].body.Open? ==> Settled(g, u)
  }

  lemma RemarkTri(g: G, u: Id)
    requires Tri(g, {}, 0) && Typed(g)
    ensures var g' := Remark(g, u); Darker(g, g') && Tri(g', {}, 0) && GrayUpvalSettled(g', u)
    ensures forall p :: GrayUpvalSettled(g, p) ==> GrayUpvalSettled(Remark(g, u), p)
  {
    hide Tri, Typed, Darker, MarkValue;
    var g' := Remark(g, u);
    DarkerSelf(g);
    if Gray(g, u) && g.heap[u].body.Open? {
      var v := SlotValue(g, g.heap[u].body.thread, g.heap[u].body.slot);
      OpenValueTyped(g, u);
      MarkValueTri(g, v, {}, 0);
      DarkerChildren(g, g', u);
      forall p | GrayUpvalSettled(g, p) ensures GrayUpvalSettled(g', p) {
        if Gray(g', p) && g'.heap[p].body.Open? {
          DarkerBody(g, g', p);
          MarkValueUpvals(g, v, p);
          DarkerChildren(g, g', p);
          SettledStays(g, g', p);
        }
      }
    }
  }

  lemma SettledStays(g: G, g': G, o: Id)
    requires Darker(g, g') && Settled(g, o)
    ensures Settled(g', o)
  {
    DarkerChildren(g, g', o);
    forall c | c in Children(g', o) ensures !White(g', c) {
      if c in g.heap { assert DarkerAt(g, g', c); }
    }
  }

  lemma {:induction false} RemarkUpvalsTri(g: G, us: seq<Id>)
    requires Tri(g, {}, 0) && Typed(g)
    ensures var g' := RemarkUpvals(g, us);
            && Darker(g, g') && Tri(g', {}, 0)
            && (forall u :: u in us ==> GrayUpvalSettled(g', u))
            && (forall p :: GrayUpvalSettled(g, p) ==> GrayUpvalSettled(g', p))
    decreases |us|
  {
    hide Tri, Darker, Typed, Remark, GrayUpvalSettled;
    DarkerSelf(g);
    if us != [] {
      var g1 := Remark(g, us[0]);
      RemarkTri(g, us[0]);
      DarkerTyped(g, g1);
      RemarkUpvalsTri(g1, us[1..]);
      DarkerTrans(g, g1, RemarkUpvals(g, us));
    }
  }

  lemma ToStageOne(g: G)
    requires Tri(g, {}, 0) && forall u :: u in g.heap && g.heap[u].body.Open? ==> GrayUpvalSettled(g, u)
    ensures Tri(g, {}, 1)
  {
    forall o | o in g.heap ensures TriAt(g, {}, 1, o) { assert TriAt(g, {}, 0, o); }
  }

  // All that was caught since, and all threads, are put back on the gray list.
  function GrayAgain(g: G): G { g.(gray := g.grayagain, grayagain := []) }

  lemma ToStageTwo(g: G)
    requires Tri(g, {}, 1) && g.gray == []
    ensures Tri(GrayAgain(g), {}, 2) && Darker(g, GrayAgain(g))
  {
    var g' := GrayAgain(g);
    forall o | o in g'.heap ensures TriAt(g', {}, 2, o) {
      assert TriAt(g, {}, 1, o);
      DarkerChildren(g, g', o);
    }
  }

  lemma AtomicTri(g: G)
    requires Tri(g, {}, 0) && Typed(g) && (forall u :: u in g.uvhead <==> u in g.heap && g.heap[u].body.Open?)
    requires g.running in g.heap && forall c :: c in AllIds(g.mt) ==> c in g.heap
    ensures var r := FinalMarks(g);
            && Darker(g, r) && Tri(r, {}, 2) && !White(r, g.running) && forall c :: c in AllIds(g.mt) ==> !White(r, c)
  {
    var g0 := RemarkUpvals(g, g.uvhead);
    RemarkUpvalsTri(g, g.uvhead);
    DarkerTyped(g, g0);
    forall u | u in g0.heap && g0.heap[u].body.Open? ensures GrayUpvalSettled(g0, u) { assert DarkerAt(g, g0, u); }
    ToStageOne(g0);
    var g1 := PropagateAll(g0);
    hide Tri, Darker, Typed, PropagateAll, MarkAll, RemarkUpvals;
    PropagateAllTri(g0, 1);
    DarkerTyped(g0, g1);
    DarkerTrans(g, g0, g1);
    var ids := [g.running] + Flat(g.mt);
    FlatIds(g.mt);
    var m := MarkAll(g1, ids);
    MarkAllTri(g1, ids, {}, 1);
    DarkerTyped(g1, m);
    DarkerTrans(g, g1, m);
    var g2 := PropagateAll(m);
    PropagateAllTri(m, 1);
    DarkerTyped(m, g2);
    DarkerTrans(g, m, g2);
    var a := GrayAgain(g2);
    ToStageTwo(g2);
    DarkerTyped(g2, a);
    var r := PropagateAll(a);
    PropagateAllTri(a, 2);
    DarkerTrans(g, g2, a);
    DarkerTrans(g, a, r);
    DarkerTrans(m, g2, a);
    DarkerTrans(m, a, r);
    forall c | c in ids ensures !White(r, c) { DarkerBody(m, r, c); }
  }

  // Once no object is gray on a list, everything marked has only marked children.
  lemma AllSettled(g: G, o: Id)
    requires Tri(g, {}, 2) && g.gray == [] && o in g.heap && !White(g, o)
    ensures Settled(g, o)
  {
    assert TriAt(g, {}, 2, o);
    if !g.heap[o].mark.black && !g.heap[o].body.Open? && !g.heap[o].body.Thread? {
      assert Waits(g, o);
      assert g.heap[o].body.Str?;
    }
  }
}

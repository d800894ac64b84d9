// The mark phase: graying, traversing and the invariant that lets the mutator run
// between two steps of it.

module GcMark {
  import opened GcColours
  import opened GcState

  // ----- marking an object -----------------------------------------------------

  function SetMark(g: G, o: Id, m: Mark): G
    requires o in g.heap
  {
    g.(heap := g.heap[o := g.heap[o].(mark := m)])
  }

  function Grayed(g: G, o: Id): G
    requires o in g.heap
  {
    SetMark(g, o, ToGray(g.heap[o].mark))
  }

  function Blackened(g: G, o: Id): G
    requires o in g.heap
  {
    SetMark(g, o, ToBlack(g.heap[o].mark))
  }

  lemma WhitesFewer(g: G, o: Id)
    requires White(g, o)
    ensures Whites(Grayed(g, o)) < Whites(g)
  {
    assert Whites(Grayed(g, o)) == Whites(g) - {o};
    assert o in Whites(g);
  }

  lemma BlackenedWhites(g: G, o: Id)
    requires o in g.heap
    ensures Whites(Blackened(g, o)) == Whites(g)
  {
  }

  function Flat(vs: seq<Value>): seq<Id> {
    if vs == [] then [] else (if vs[0].Ref? then [vs[0].id] else []) + Flat(vs[1..])
  }

  function Whites(g: G): set<Id> { set o | o in g.heap && IsWhite(g.heap[o].mark) }

  // Marks an object other than userdata and upvalues.
  function MarkSimple(g: G, o: Id): (r: G)
    ensures r.heap.Keys == g.heap.Keys && r.grayagain == g.grayagain && (r == g || Whites(r) < Whites(g))
  {
    if !White(g, o) then g
    else
      WhitesFewer(g, o);
      var g1 := Grayed(g, o);
      if Listed(g.heap[o].body) then
        var g2 := g1.(gray := [o] + g.gray);
        assert Whites(g2) == Whites(g1);
        g2
      else g1
  }

  function MarkSimples(g: G, ids: seq<Id>): (r: G)
    ensures r.heap.Keys == g.heap.Keys && r.grayagain == g.grayagain && (r == g || Whites(r) < Whites(g))
    decreases |ids|
  {
    if ids == [] then g else MarkSimples(MarkSimple(g, ids[0]), ids[1..])
  }

  // Marks an object other than an upvalue; userdata are never gray.
  function MarkData(g: G, o: Id): (r: G)
    ensures r.heap.Keys == g.heap.Keys && r.grayagain == g.grayagain && (r == g || Whites(r) < Whites(g))
  {
    if White(g, o) && IsUserData(g.heap[o].body) then
      WhitesFewer(g, o);
      BlackenedWhites(Grayed(g, o), o);
      MarkSimples(Blackened(Grayed(g, o), o), g.heap[o].body.refs)
    else MarkSimple(g, o)
  }

  function MarkValue(g: G, v: Value): (r: G)
    ensures r.heap.Keys == g.heap.Keys && r.grayagain == g.grayagain && (r == g || Whites(r) < Whites(g))
  {
    if v.Ref? then MarkData(g, v.id) else g
  }

  // Marks any object; open upvalues are never black.
  function MarkObject(g: G, o: Id): (r: G)
    ensures r.heap.Keys == g.heap.Keys && r.grayagain == g.grayagain && (r == g || Whites(r) < Whites(g))
  {
    if !White(g, o) then g
    else
      WhitesFewer(g, o);
      match g.heap[o].body
      case Closed(v) =>
        BlackenedWhites(MarkValue(Grayed(g, o), v), o);
        Blackened(MarkValue(Grayed(g, o), v), o)
      case Open(th, slot) => MarkValue(Grayed(g, o), SlotValue(g, th, slot))
      case _ => MarkData(g, o)
  }

  function MarkAll(g: G, ids: seq<Id>): (r: G)
    ensures r.heap.Keys == g.heap.Keys && r.grayagain == g.grayagain && (r == g || Whites(r) < Whites(g))
    decreases |ids|
  {
    if ids == [] then g else MarkAll(MarkObject(g, ids[0]), ids[1..])
  }

  // ----- what marking changes ------------------------------------------------------

  // Only colours and gray lists differ; nothing turns lighter.
  ghost predicate Darker(g: G, g': G) {
    && g'.heap.Keys == g.heap.Keys
    && g' == g.(heap := g'.heap, gray := g'.gray, grayagain := g'.grayagain)
    && forall o :: o in g.heap ==> DarkerAt(g, g', o)
  }

  ghost predicate DarkerAt(g: G, g': G, o: Id)
    requires o in g.heap && o in g'.heap
  {
    var m, m' := g.heap[o].mark, g'.heap[o].mark;
    && g'.heap[o].body == g.heap[o].body && m'.fixed == m.fixed
    && (IsWhite(m') ==> m' == m)
    && (!IsWhite(m) ==> !IsWhite(m'))
    && (m.black ==> m'.black)
    && (m'.black && !m.black ==> g.heap[o].body.Node? || g.heap[o].body.Closed?)
  }

  lemma DarkerTrans(g: G, g1: G, g2: G)
    requires Darker(g, g1) && Darker(g1, g2)
    ensures Darker(g, g2)
  {
    forall o | o in g.heap ensures DarkerAt(g, g2, o) {
      assert DarkerAt(g, g1, o) && DarkerAt(g1, g2, o);
    }
  }

  lemma DarkerChildren(g: G, g': G, o: Id)
    requires Darker(g, g')
    ensures Children(g', o) == Children(g, o)
  {
    if o in g.heap {
      assert DarkerAt(g, g', o);
      match g.heap[o].body
      case Open(th, slot) => if th in g.heap { assert DarkerAt(g, g', th); }
      case _ =>
    }
  }

  // ----- the invariant of the mark phase -----------------------------------------------

  // The stages: 0 while the mutator runs; 1 when the stacks of dead threads have been
  // looked at; 2 once all threads are on the gray list for the last time.
  type Stage = n: nat | n <= 2

  ghost predicate Settled(g: G, o: Id) {
    forall c :: c in Children(g, o) ==> !White(g, c)
  }

  predicate MustSettle(g: G, o: Id, stage: Stage)
    requires o in g.heap
  {
    || g.heap[o].mark.black
    || (stage >= 1 && g.heap[o].body.Open? && IsGray(g.heap[o].mark))
    || (stage >= 2 && g.heap[o].body.Thread? && !IsWhite(g.heap[o].mark) && o !in g.gray)
  }

  // A gray object: a string, an open upvalue, or one that waits to be traversed.
  predicate Waits(g: G, o: Id)
    requires o in g.heap
  {
    var b := g.heap[o].body;
    b.Str? || b.Open? || (Listed(b) && (o in g.gray || o in g.grayagain))
  }

  ghost predicate TriAt(g: G, busy: set<Id>, stage: Stage, o: Id)
    requires o in g.heap
  {
    && !HasDeadWhite(g.second, g.heap[o].mark) && ColourOk(g.heap[o].mark)
    && (g.heap[o].mark.black ==> g.heap[o].body.Node? || g.heap[o].body.Closed?)
    && (if o in busy then !IsWhite(g.heap[o].mark)
        else (MustSettle(g, o, stage) ==> Settled(g, o)) && (IsGray(g.heap[o].mark) ==> Waits(g, o)))
  }

  ghost predicate ListsOk(g: G, stage: Stage) {
    && Distinct(g.gray) && Distinct(g.grayagain) && (forall o :: o in g.gray ==> o !in g.grayagain)
    && (forall o :: o in g.gray || o in g.grayagain ==> Gray(g, o) && Listed(g.heap[o].body))
    && (stage >= 2 ==> forall o :: o in g.grayagain ==> g.heap[o].body.Thread?)
  }

  // No black object refers to a white one, outside `busy`.
  ghost predicate Tri(g: G, busy: set<Id>, stage: Stage) {
    && ListsOk(g, stage)
    && forall o :: o in g.heap ==> TriAt(g, busy, stage, o)
  }

  // A darker state in which only `changed` objects differ keeps the invariant, if they do.
  lemma TriKept(g: G, g': G, busy: set<Id>, busy': set<Id>, stage: Stage, o: Id)
    requires Tri(g, busy, stage) && Darker(g, g') && ListsOk(g', stage) && busy <= busy' + {o} && busy' <= busy + {o}
    requires forall p :: p in g.heap && p != o ==> g'.heap[p].mark == g.heap[p].mark
    requires forall p :: p != o ==> (p in g'.gray <==> p in g.gray) && (p in g'.grayagain <==> p in g.grayagain)
    requires o in g.heap ==> TriAt(g', busy', stage, o)
    ensures Tri(g', busy', stage)
  {
    forall p | p in g'.heap ensures TriAt(g', busy', stage, p) {
      if p != o {
        assert TriAt(g, busy, stage, p) && DarkerAt(g, g', p);
        DarkerChildren(g, g', p);
        if p !in busy' && MustSettle(g', p, stage) {
          forall c | c in Children(g', p) ensures !White(g', c) {
            if c in g.heap { assert DarkerAt(g, g', c); }
          }
        }
      }
    }
  }

  lemma MarkSimpleDarker(g: G, o: Id)
    ensures Darker(g, MarkSimple(g, o)) && !(White(MarkSimple(g, o), o))
  {
  }

  lemma MarkSimpleTri(g: G, o: Id, busy: set<Id>, stage: Stage)
    requires Tri(g, busy, stage) && (White(g, o) ==> g.heap[o].body.Str? || Listed(g.heap[o].body))
    ensures Tri(MarkSimple(g, o), busy, stage)
  {
    hide Settled, Darker;
    var g' := MarkSimple(g, o);
    if White(g, o) {
      assert TriAt(g, busy, stage, o);
      assert o !in g.gray && o !in g.grayagain;
      MarkSimpleDarker(g, o);
      assert ListsOk(g', stage) by {
        if Listed(g.heap[o].body) { assert g'.gray == [o] + g.gray; }
      }
      TriKept(g, g', busy, busy, stage, o);
    }
  }

  // Every reference leads to an object of a kind it may lead to.
  ghost predicate TypedAt(g: G, o: Id) {
    forall c :: c in Children(g, o) ==> c in g.heap && o in g.heap && Suits(g.heap[o].body, g.heap[c].body)
  }

  ghost predicate Typed(g: G) {
    forall o :: o in g.heap ==> TypedAt(g, o)
  }

  lemma DarkerTyped(g: G, g': G)
    requires Darker(g, g') && Typed(g)
    ensures Typed(g')
  {
    forall o | o in g'.heap ensures TypedAt(g', o) {
      DarkerChildren(g, g', o);
      assert TypedAt(g, o) && DarkerAt(g, g', o);
      forall c | c in Children(g', o) ensures c in g'.heap && Suits(g'.heap[o].body, g'.heap[c].body) {
        assert DarkerAt(g, g', c);
      }
    }
  }

  lemma DarkerSelf(g: G)
    ensures Darker(g, g)
  {
  }

  lemma DarkerBody(g: G, g': G, o: Id)
    requires Darker(g, g') && o in g.heap
    ensures o in g'.heap && g'.heap[o].body == g.heap[o].body && (!White(g, o) ==> !White(g', o))
  {
    assert DarkerAt(g, g', o);
  }

  lemma {:induction false} MarkSimplesTri(g: G, ids: seq<Id>, busy: set<Id>, stage: Stage)
    requires Tri(g, busy, stage) && forall c :: c in ids ==> c in g.heap && IsTable(g.heap[c].body)
    ensures var g' := MarkSimples(g, ids);
            Darker(g, g') && Tri(g', busy, stage) && forall c :: c in ids ==> !White(g', c)
    decreases |ids|
  {
    hide Tri, Darker;
    DarkerSelf(g);
    if ids != [] {
      var g1 := MarkSimple(g, ids[0]);
      var g' := MarkSimples(g, ids);
      MarkSimpleTri(g, ids[0], busy, stage);
      MarkSimpleDarker(g, ids[0]);
      forall c | c in ids ensures c in g1.heap && IsTable(g1.heap[c].body) { DarkerBody(g, g1, c); }
      MarkSimplesTri(g1, ids[1..], busy, stage);
      DarkerTrans(g, g1, g');
      forall c | c in ids ensures !White(g', c) {
        if c !in ids[1..] {
          assert c == ids[0];
          DarkerBody(g1, g', c);
        }
      }
    }
  }

  // Leaving the traversal of `o`, whose children are all marked.
  lemma NoLongerBusy(g: G, busy: set<Id>, o: Id, stage: Stage)
    requires Tri(g, busy + {o}, stage)
    requires o in g.heap && (MustSettle(g, o, stage) ==> Settled(g, o)) && (IsGray(g.heap[o].mark) ==> Waits(g, o))
    ensures Tri(g, busy, stage)
  {
    forall p | p in g.heap ensures TriAt(g, busy, stage, p) { assert TriAt(g, busy + {o}, stage, p); }
  }

  // `o` turns from white to gray or black while it is being traversed.
  lemma RecolourTri(g: G, o: Id, m: Mark, busy: set<Id>, stage: Stage)
    requires Tri(g, busy, stage) && White(g, o)
    requires m == ToGray(g.heap[o].mark) || (m == ToBlack(ToGray(g.heap[o].mark)) && g.heap[o].body.Node?)
    ensures Tri(SetMark(g, o, m), busy + {o}, stage) && Darker(g, SetMark(g, o, m)) && !White(SetMark(g, o, m), o)
  {
    assert TriAt(g, busy, stage, o);
    TriKept(g, SetMark(g, o, m), busy, busy + {o}, stage, o);
  }

  lemma MarkDataTri(g: G, o: Id, busy: set<Id>, stage: Stage)
    requires Tri(g, busy, stage) && Typed(g) && o in g.heap && !IsUpval(g.heap[o].body)
    ensures Darker(g, MarkData(g, o)) && Tri(MarkData(g, o), busy, stage) && !White(MarkData(g, o), o)
  {
    if White(g, o) && IsUserData(g.heap[o].body) {
      var refs, m := g.heap[o].body.refs, ToBlack(ToGray(g.heap[o].mark));
      var g1 := SetMark(g, o, m);
      assert Blackened(Grayed(g, o), o) == g1;
      RecolourTri(g, o, m, busy, stage);
      assert TypedAt(g, o);
      forall c | c in refs ensures c in g1.heap && IsTable(g1.heap[c].body) { DarkerBody(g, g1, c); }
      MarkSimplesTri(g1, refs, busy + {o}, stage);
      var g' := MarkSimples(g1, refs);
      DarkerTrans(g, g1, g');
      assert DarkerAt(g1, g', o);
      assert Settled(g', o);
      NoLongerBusy(g', busy, o, stage);
    } else {
      MarkSimpleTri(g, o, busy, stage);
      MarkSimpleDarker(g, o);
    }
  }

  lemma MarkValueTri(g: G, v: Value, busy: set<Id>, stage: Stage)
    requires Tri(g, busy, stage) && Typed(g)
    requires v.Ref? ==> v.id in g.heap && !IsUpval(g.heap[v.id].body)
    ensures var g' := MarkValue(g, v);
            Darker(g, g') && Tri(g', busy, stage) && (v.Ref? ==> !White(g', v.id))
  {
    DarkerSelf(g);
    if v.Ref? { MarkDataTri(g, v.id, busy, stage); }
  }

  lemma MarkUpvalTri(g: G, o: Id, v: Value, busy: set<Id>, stage: Stage)
    requires Tri(g, busy, stage) && Typed(g) && White(g, o) && IsUpval(g.heap[o].body)
    requires Children(g, o) == Ids(v)
    ensures var g1 := MarkValue(Grayed(g, o), v);
            && Darker(g, g1) && Tri(g1, busy + {o}, stage) && Settled(g1, o) && Gray(g1, o)
            && g1.heap[o].body == g.heap[o].body
  {
    var g0 := Grayed(g, o);
    RecolourTri(g, o, ToGray(g.heap[o].mark), busy, stage);
    DarkerTyped(g, g0);
    assert TypedAt(g, o);
    if v.Ref? { assert v.id in Children(g, o); }
    var g1 := MarkValue(g0, v);
    hide Tri, MarkValue, Typed, TypedAt, Darker;
    if v.Ref? { DarkerBody(g, g0, v.id); }
    MarkValueTri(g0, v, busy + {o}, stage);
    DarkerTrans(g, g0, g1);
    DarkerChildren(g, g1, o);
    MarkValueKeeps(g0, v, o);
    DarkerBody(g0, g1, o);
    SettledByValue(g1, o, v);
  }

  lemma SettledByValue(g: G, o: Id, v: Value)
    requires Children(g, o) == Ids(v) && (v.Ref? ==> !White(g, v.id))
    ensures Settled(g, o)
  {
  }

  // Marking leaves alone what is not white.
  lemma {:induction false} MarkSimplesKeeps(g: G, ids: seq<Id>, p: Id)
    requires p in g.heap && !White(g, p)
    ensures MarkSimples(g, ids).heap[p] == g.heap[p]
    decreases |ids|
  {
    if ids != [] { MarkSimplesKeeps(MarkSimple(g, ids[0]), ids[1..], p); }
  }

  lemma MarkValueKeeps(g: G, v: Value, p: Id)
    requires p in g.heap && !White(g, p)
    ensures MarkValue(g, v).heap[p] == g.heap[p]
  {
    if v.Ref? && White(g, v.id) && IsUserData(g.heap[v.id].body) {
      MarkSimplesKeeps(Blackened(Grayed(g, v.id), v.id), g.heap[v.id].body.refs, p);
    }
  }

  lemma ClosedTri(g: G, o: Id, v: Value, busy: set<Id>, stage: Stage)
    requires Tri(g, busy, stage) && Typed(g) && White(g, o) && g.heap[o].body == Closed(v)
    ensures var g' := Blackened(MarkValue(Grayed(g, o), v), o);
            Darker(g, g') && Tri(g', busy, stage) && !White(g', o)
  {
    assert TriAt(g, busy, stage, o);
    hide Tri, Darker, MarkValue, Blackened;
    MarkUpvalTri(g, o, v, busy, stage);
    var g1 := MarkValue(Grayed(g, o), v);
    BlackenTri(g1, o, busy, stage);
    DarkerTrans(g, g1, Blackened(g1, o));
  }

  // A closed upvalue turns black once its value is marked.
  lemma BlackenTri(g: G, o: Id, busy: set<Id>, stage: Stage)
    requires Tri(g, busy + {o}, stage) && o !in busy && Gray(g, o) && g.heap[o].body.Closed? && Settled(g, o)
    ensures var g' := Blackened(g, o);
            Darker(g, g') && Tri(g', busy, stage) && !White(g', o)
  {
    var g' := Blackened(g, o);
    assert TriAt(g, busy + {o}, stage, o);
    DarkerChildren(g, g', o);
    assert o !in g.gray && o !in g.grayagain;
    assert Settled(g', o);
    TriKept(g, g', busy + {o}, busy, stage, o);
  }

  lemma OpenTri(g: G, o: Id, v: Value, busy: set<Id>, stage: Stage)
    requires Tri(g, busy, stage) && Typed(g) && White(g, o) && g.heap[o].body.Open?
    requires v == SlotValue(g, g.heap[o].body.thread, g.heap[o].body.slot)
    ensures var g' := MarkValue(Grayed(g, o), v);
            Darker(g, g') && Tri(g', busy, stage) && !White(g', o)
  {
    MarkUpvalTri(g, o, v, busy, stage);
    var g' := MarkValue(Grayed(g, o), v);
    NoLongerBusy(g', busy, o, stage);
  }

  lemma MarkObjectTri(g: G, o: Id, busy: set<Id>, stage: Stage)
    requires Tri(g, busy, stage) && Typed(g) && o in g.heap
    ensures var g' := MarkObject(g, o);
            Darker(g, g') && Tri(g', busy, stage) && !White(g', o)
  {
    hide Tri, Darker, MarkData, MarkValue, Typed;
    DarkerSelf(g);
    if White(g, o) {
      match g.heap[o].body
      case Closed(v) => ClosedTri(g, o, v, busy, stage);
      case Open(th, slot) => OpenTri(g, o, SlotValue(g, th, slot), busy, stage);
      case _ => MarkDataTri(g, o, busy, stage);
    }
  }

  lemma {:induction false} MarkAllTri(g: G, ids: seq<Id>, busy: set<Id>, stage: Stage)
    requires Tri(g, busy, stage) && Typed(g) && forall c :: c in ids ==> c in g.heap
    ensures var g' := MarkAll(g, ids);
            Darker(g, g') && Tri(g', busy, stage) && forall c :: c in ids ==> !White(g', c)
    decreases |ids|
  {
    hide Tri, Darker, MarkObject, Typed;
    DarkerSelf(g);
    if ids != [] {
      var g1, g' := MarkObject(g, ids[0]), MarkAll(g, ids);
      MarkObjectTri(g, ids[0], busy, stage);
      DarkerTyped(g, g1);
      MarkAllTri(g1, ids[1..], busy, stage);
      DarkerTrans(g, g1, g');
      DarkerBody(g1, g', ids[0]);
      forall c | c in ids ensures !White(g', c) {
        if c !in ids[1..] { assert c == ids[0]; }
      }
    }
  }

  // ----- marking only darkens, whatever the state --------------------------------------

  lemma RecolourDarker(g: G, o: Id)
    requires o in g.heap
    ensures Darker(g, Grayed(g, o)) && !White(Grayed(g, o), o) && Grayed(g, o).heap[o].body == g.heap[o].body
    ensures !White(g, o) && (g.heap[o].body.Node? || g.heap[o].body.Closed?) ==> Darker(g, Blackened(g, o))
  {
  }

  lemma {:induction false} MarkSimplesDarker(g: G, ids: seq<Id>)
    ensures Darker(g, MarkSimples(g, ids))
    decreases |ids|
  {
    hide Darker;
    DarkerSelf(g);
    if ids != [] {
      MarkSimpleDarker(g, ids[0]);
      MarkSimplesDarker(MarkSimple(g, ids[0]), ids[1..]);
      DarkerTrans(g, MarkSimple(g, ids[0]), MarkSimples(g, ids));
    }
  }

  lemma MarkValueDarker(g: G, v: Value)
    ensures Darker(g, MarkValue(g, v))
  {
    hide Darker;
    DarkerSelf(g);
    if v.Ref? {
      var o := v.id;
      if White(g, o) && IsUserData(g.heap[o].body) {
        var g1, g2 := Grayed(g, o), Blackened(Grayed(g, o), o);
        RecolourDarker(g, o);
        RecolourDarker(g1, o);
        MarkSimplesDarker(g2, g.heap[o].body.refs);
        DarkerTrans(g, g1, g2);
        DarkerTrans(g, g2, MarkValue(g, v));
      } else {
        MarkSimpleDarker(g, o);
      }
    }
  }

  lemma MarkObjectDarker(g: G, o: Id)
    ensures Darker(g, MarkObject(g, o))
  {
    hide Darker, MarkValue;
    DarkerSelf(g);
    if White(g, o) {
      RecolourDarker(g, o);
      match g.heap[o].body
      case Closed(v) =>
        var g1 := MarkValue(Grayed(g, o), v);
        MarkValueDarker(Grayed(g, o), v);
        DarkerTrans(g, Grayed(g, o), g1);
        DarkerBody(Grayed(g, o), g1, o);
        RecolourDarker(g1, o);
        DarkerTrans(g, g1, Blackened(g1, o));
      case Open(th, slot) =>
        var v := SlotValue(g, th, slot);
        MarkValueDarker(Grayed(g, o), v);
        DarkerTrans(g, Grayed(g, o), MarkValue(Grayed(g, o), v));
      case _ =>
        MarkValueDarker(g, Ref(o));
        assert MarkValue(g, Ref(o)) == MarkData(g, o) by { MarkValueIs(g, o); }
    }
  }

  lemma MarkValueIs(g: G, o: Id)
    ensures MarkValue(g, Ref(o)) == MarkData(g, o)
  {
  }
}

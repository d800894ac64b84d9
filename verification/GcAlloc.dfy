// New objects, interned strings and captured variables.

module GcAlloc {
  import opened GcColours
  import opened GcState
  import opened GcMark
  import opened GcSweep
  import opened GcSweepAll
  import opened GcInvariant
  import opened GcMutator

  function NewMark(g: G): Mark { Mark(!g.second, g.second, false, false) }

  // A new object, in the current white and not yet on any list.
  function Allocated(g: G, b: Body): G {
    g.(heap := g.heap[g.next := Obj(NewMark(g), b)], next := g.next + 1)
  }

  // Userdata are kept behind the main thread.
  function LinkAfter(g: G, o: Id, i: nat): G
    requires i <= |g.rootgc|
  {
    g.(rootgc := g.rootgc[..i] + [o] + g.rootgc[i..], sweepgc := if g.sweepgc <= i then g.sweepgc else g.sweepgc + 1)
  }

  function IndexOf(s: seq<Id>, x: Id): (i: nat)
    ensures i <= |s| && (x in s ==> i < |s| && s[i] == x)
  {
    if s == [] || s[0] == x then 0 else 1 + IndexOf(s[1..], x)
  }

  function NewObject(g: G, b: Body): G {
    var i := IndexOf(g.rootgc, g.main);
    if IsUserData(b) && i < |g.rootgc| then LinkAfter(Allocated(g, b), g.next, i + 1)
    else LinkFront(Allocated(g, b), g.next)
  }

  // ----- one more object -------------------------------------------------------------

  predicate SameButOpenList(b: Body, b': Body) {
    b' == b || (b.Thread? && b'.Thread? && b' == b.(openupval := b'.openupval))
  }

  // `g'` has one more object, new and white; threads may have got it as an open upvalue.
  ghost predicate Extends(g: G, g': G) {
    && g.next !in g.heap && g.next in g'.heap
    && (forall p :: p in g'.heap <==> p in g.heap || p == g.next)
    && (forall p :: p in g.heap ==>
          g'.heap[p].mark == g.heap[p].mark && SameButOpenList(g.heap[p].body, g'.heap[p].body))
    && g'.heap[g.next].mark == NewMark(g)
    && g'.main == g.main && g'.running == g.running && g'.registry == g.registry && g'.mt == g.mt
    && g'.second == g.second && g'.phase == g.phase && g'.gray == g.gray && g'.grayagain == g.grayagain
  }

  lemma ExtendsChildren(g: G, g': G, p: Id)
    requires Extends(g, g') && p in g.heap && (g.heap[p].body.Open? ==> IsThread(g, g.heap[p].body.thread))
    ensures Children(g', p) == Children(g, p)
  {
    if g.heap[p].body.Open? {
      var t := g.heap[p].body.thread;
      assert SameButOpenList(g.heap[t].body, g'.heap[t].body);
    }
    assert SameButOpenList(g.heap[p].body, g'.heap[p].body);
  }

  lemma ExtendsAlike(g: G, g': G)
    requires Extends(g, g')
    ensures forall p :: p in g.heap ==> Live(g', p) == Live(g, p) && SameKind(g.heap[p].body, g'.heap[p].body)
    ensures forall p :: p in g.heap && g'.heap[p].body.Node? ==> g'.heap[p].body == g.heap[p].body
  {
    forall p | p in g.heap
      ensures Live(g', p) == Live(g, p) && SameKind(g.heap[p].body, g'.heap[p].body)
      ensures g'.heap[p].body.Node? ==> g'.heap[p].body == g.heap[p].body
    {
      assert SameButOpenList(g.heap[p].body, g'.heap[p].body);
    }
  }

  lemma ExtendsNoDangling(g: G, g': G)
    requires Extends(g, g') && NoDangling(g) && ThreadsOk(g)
    requires forall c :: c in Children(g', g.next) ==> Live(g, c) && Suits(g'.heap[g.next].body, g.heap[c].body)
    ensures NoDangling(g')
  {
    hide SameButOpenList, ThreadsOk;
    ExtendsAlike(g, g');
    forall p | Live(g', p) ensures ChildrenLive(g', p) {
      if p != g.next {
        assert ChildrenLive(g, p);
        OpenOwner(g, p);
        ExtendsChildren(g, g', p);
        SameSuits(g, g', p);
      }
    }
  }

  lemma OpenOwner(g: G, p: Id)
    requires ThreadsOk(g) && p in g.heap
    ensures g.heap[p].body.Open? ==> IsThread(g, g.heap[p].body.thread)
  {
  }

  lemma SameSuits(g: G, g': G, p: Id)
    requires ChildrenLive(g, p) && p in g.heap && p in g'.heap && Children(g', p) == Children(g, p)
    requires forall q :: q in g.heap ==>
               q in g'.heap && Live(g', q) == Live(g, q) && SameKind(g.heap[q].body, g'.heap[q].body)
    requires g'.heap[p].body.Node? ==> g.heap[p].body.Node? && g'.heap[p].body.kind == g.heap[p].body.kind
    ensures ChildrenLive(g', p)
  {
  }

  lemma ExtendsTri(g: G, g': G)
    requires Extends(g, g') && Tri(g, {}, 0) && ThreadsOk(g) && Typed(g)
    ensures Tri(g', {}, 0)
  {
    forall o | o in g.gray || o in g.grayagain ensures Gray(g', o) && Listed(g'.heap[o].body) {
      assert SameButOpenList(g.heap[o].body, g'.heap[o].body);
    }
    forall p | p in g'.heap ensures TriAt(g', {}, 0, p) {
      if p in g.heap {
        assert TriAt(g, {}, 0, p);
        assert SameButOpenList(g.heap[p].body, g'.heap[p].body);
        OpenOwner(g, p);
        ExtendsChildren(g, g', p);
        assert TypedAt(g, p);
      }
    }
  }

  // The new object on the lists: only where objects are taken from the front or are clean.
  ghost predicate ListsExtend(g: G, g': G) {
    && g'.sweepgc <= |g'.rootgc| && (g.sweepgc == 0 ==> g'.sweepgc == 0)
    && (forall i :: 0 <= i < g'.sweepgc ==>
          g'.rootgc[i] == g.next || exists j :: 0 <= j < g.sweepgc && j < |g.rootgc| && g.rootgc[j] == g'.rootgc[i])
    && (forall p :: p in g.heap ==> forall u :: u in OpenList(g', p) ==> u in OpenList(g, p) || u == g.next)
    && OpenList(g', g.next) == []
    && (g.phase.SweepString? ==>
          && |g'.strt| == |g.strt| && g'.sweepstrgc == g.sweepstrgc
          && forall b, i :: 0 <= b < |g.strt| && 0 <= i < |g'.strt[b]| ==>
               g'.strt[b][i] == g.next || g'.strt[b][i] in g.strt[b])
  }

  lemma ExtendsCurWhite(g: G, g': G, p: Id)
    requires Extends(g, g') && (CurWhite(g, p) || p == g.next)
    ensures CurWhite(g', p)
  {
  }

  lemma ExtendsPhase(g: G, g': G)
    requires Extends(g, g') && ListsExtend(g, g') && PhaseOk(g) && ThreadsOk(g) && (g.phase.Propagate? ==> Typed(g))
    requires g.phase.Propagate? ==> g.main in g.heap && forall c :: c in Ids(g.registry) ==> c in g.heap
    ensures PhaseOk(g')
  {
    match g.phase
    case Propagate => ExtendsTri(g, g');
    case SweepString =>
      forall b | 0 <= b < g'.sweepstrgc ensures BucketClean(g', b, |g'.strt[b]|) {
        assert BucketClean(g, b, |g.strt[b]|);
        forall i | 0 <= i < |g'.strt[b]| ensures CurWhite(g', g'.strt[b][i]) {
          if g'.strt[b][i] != g.next { assert g'.strt[b][i] in g.strt[b]; }
          ExtendsCurWhite(g, g', g'.strt[b][i]);
        }
      }
    case Sweep => ExtendsSweep(g, g');
    case _ => forall p | p in g'.heap ensures CurWhite(g', p) { ExtendsCurWhite(g, g', p); }
  }

  lemma ExtendsSweep(g: G, g': G)
    requires Extends(g, g') && ListsExtend(g, g') && StringsClean(g) && RootsClean(g)
    ensures StringsClean(g') && RootsClean(g')
  {
    forall p | p in g'.heap && g'.heap[p].body.Str? ensures CurWhite(g', p) {
      if p in g.heap { assert SameButOpenList(g.heap[p].body, g'.heap[p].body); }
      ExtendsCurWhite(g, g', p);
    }
    forall i | 0 <= i < g'.sweepgc ensures CleanRoot(g', g'.rootgc[i]) {
      var o := g'.rootgc[i];
      if o != g.next {
        var j :| 0 <= j < g.sweepgc && j < |g.rootgc| && g.rootgc[j] == o;
        assert CleanRoot(g, o);
      }
      ExtendsCurWhite(g, g', o);
      forall u | u in OpenList(g', o) ensures CurWhite(g', u) { ExtendsCurWhite(g, g', u); }
    }
  }

  lemma ExtendsInv(g: G, g': G)
    requires Inv(g) && Extends(g, g') && ListsExtend(g, g') && Shape(g')
    requires forall c :: c in Children(g', g.next) ==> Live(g, c) && Suits(g'.heap[g.next].body, g.heap[c].body)
    ensures Inv(g')
  {
    hide Extends, ListsExtend, Shape, NoDangling, PhaseOk, Children;
    if g.phase.Propagate? { NothingDead(g); }
    RootsInHeap(g);
    ShapeThreads(g);
    ExtendsNoDangling(g, g');
    ExtendsPhase(g, g');
  }

  lemma ShapeThreads(g: G)
    requires Shape(g)
    ensures ThreadsOk(g)
  {
  }

  // ----- objects on the list of all objects ------------------------------------------------

  predicate Fresh(b: Body) { b.Node? || b.Closed? || (b.Thread? && b.openupval == []) }

  lemma NotInHeap(g: G)
    requires Shape(g)
    ensures g.next !in g.heap && g.next !in g.rootgc && g.next !in g.uvhead
  {
  }

  lemma AllocatedThreads(g: G, b: Body)
    requires ThreadsOk(g) && Fresh(b) && g.next !in g.heap
    ensures ThreadsOk(Allocated(g, b))
  {
    var g' := Allocated(g, b);
    assert forall p :: p in g.heap ==> g'.heap[p] == g.heap[p];
    forall t {:trigger IsThread(g', t)} | IsThread(g', t) ensures OpenListOk(g', t) {
      if t in g.heap { assert IsThread(g, t) && OpenListOk(g, t); }
    }
    forall u | u in g'.heap && g'.heap[u].body.Open?
      ensures IsThread(g', g'.heap[u].body.thread) && u in g'.heap[g'.heap[u].body.thread].body.openupval
    {
      assert IsThread(g, g.heap[u].body.thread);
    }
  }

  lemma AllocatedStrings(g: G, b: Body)
    requires StringsOk(g) && !b.Str? && g.next !in g.heap
    ensures StringsOk(Allocated(g, b))
  {
    var g' := Allocated(g, b);
    assert forall p :: p in g.heap ==> g'.heap[p] == g.heap[p];
  }

  lemma InsertDistinct(s: seq<Id>, i: nat, x: Id)
    requires Distinct(s) && i <= |s| && x !in s
    ensures Distinct(s[..i] + [x] + s[i..]) && forall y :: y in s[..i] + [x] + s[i..] <==> y in s || y == x
  {
    var r := s[..i] + [x] + s[i..];
    forall y | y in s ensures y in r {
      var j :| 0 <= j < |s| && s[j] == y;
      if j < i { assert r[j] == y; } else { assert r[j + 1] == y; }
    }
    assert r[i] == x;
  }

  lemma NewObjectShape(g: G, b: Body)
    requires Shape(g) && Fresh(b)
    ensures Shape(NewObject(g, b))
  {
    hide ThreadsOk, StringsOk, RootsOk, MarksOk, Allocated, NewObject;
    NotInHeap(g);
    var g1, g' := Allocated(g, b), NewObject(g, b);
    AllocatedThreads(g, b);
    AllocatedStrings(g, b);
    NewObjectRoots(g, b);
    AllocatedMarks(g, b);
    NewObjectHeap(g, b);
    assert SameBodies(g1, g');
    ThreadsOkSame(g1, g');
    StringsOkSame(g1, g');
    MarksOkSame(g1, g');
  }

  lemma AllocatedMarks(g: G, b: Body)
    requires MarksOk(g) && g.next !in g.heap
    ensures MarksOk(Allocated(g, b))
  {
    var g' := Allocated(g, b);
    assert forall p :: p in g.heap ==> g'.heap[p] == g.heap[p];
  }

  lemma NewObjectRoots(g: G, b: Body)
    requires RootsOk(g, {}) && Fresh(b) && g.next !in g.heap && g.next !in g.rootgc
    ensures RootsOk(NewObject(g, b), {})
  {
    var g', i := NewObject(g, b), IndexOf(g.rootgc, g.main);
    if IsUserData(b) && i < |g.rootgc| {
      InsertDistinct(g.rootgc, i + 1, g.next);
    } else {
      DistinctFront(g.next, g.rootgc);
    }
    assert forall o :: o in g'.rootgc <==> o in g.rootgc || o == g.next;
    assert forall p :: p in g.heap ==> g'.heap[p] == g.heap[p];
  }

  lemma NewObjectHeap(g: G, b: Body)
    ensures var g' := NewObject(g, b);
            && g' == Allocated(g, b).(rootgc := g'.rootgc, sweepgc := g'.sweepgc)
            && Children(g', g.next) == (if Fresh(b) then BodyChildren(g, b) else Children(g', g.next))
  {
  }

  lemma NewObjectExtends(g: G, b: Body)
    requires Shape(g) && Fresh(b)
    ensures Extends(g, NewObject(g, b))
  {
    hide NewObject, Shape;
    NotInHeap(g);
    NewObjectHeap(g, b);
    assert NewObject(g, b).heap == g.heap[g.next := Obj(NewMark(g), b)];
  }

  lemma NewObjectLists(g: G, b: Body)
    requires Shape(g) && Fresh(b)
    ensures ListsExtend(g, NewObject(g, b))
  {
    hide NewObject, Shape, Fresh;
    NotInHeap(g);
    SweepgcBound(g);
    NewObjectHeap(g, b);
    NewObjectPrefix(g, b);
    NewObjectOpen(g, b);
  }

  lemma SweepgcBound(g: G)
    requires Shape(g)
    ensures g.sweepgc <= |g.rootgc|
  {
  }

  lemma NewObjectOpen(g: G, b: Body)
    requires Fresh(b) && g.next !in g.heap
    ensures var g' := NewObject(g, b);
            (forall p :: p in g.heap ==> OpenList(g', p) == OpenList(g, p)) && OpenList(g', g.next) == []
  {
  }

  lemma NewObjectPrefix(g: G, b: Body)
    requires g.sweepgc <= |g.rootgc|
    ensures var g' := NewObject(g, b);
            && g'.sweepgc <= |g'.rootgc| && (g.sweepgc == 0 ==> g'.sweepgc == 0)
            && forall i :: 0 <= i < g'.sweepgc ==>
                 g'.rootgc[i] == g.next
                 || exists j :: 0 <= j < g.sweepgc && j < |g.rootgc| && g.rootgc[j] == g'.rootgc[i]
  {
    var g', i := NewObject(g, b), IndexOf(g.rootgc, g.main);
    forall j | 0 <= j < g'.sweepgc
      ensures g'.rootgc[j] == g.next || exists k :: 0 <= k < g.sweepgc && k < |g.rootgc| && g.rootgc[k] == g'.rootgc[j]
    {
      if IsUserData(b) && i < |g.rootgc| {
        var k := if j <= i then j else j - 1;
        if j != i + 1 { assert g.rootgc[k] == g'.rootgc[j]; }
      } else if j > 0 {
        assert g.rootgc[j - 1] == g'.rootgc[j];
      }
    }
  }

  // A new object that refers to live ones.
  lemma NewObjectInv(g: G, b: Body)
    requires Inv(g) && Fresh(b) && forall c :: c in BodyChildren(g, b) ==> Live(g, c) && Suits(b, g.heap[c].body)
    ensures Inv(NewObject(g, b)) && CurWhite(NewObject(g, b), g.next)
  {
    hide NewObject, Extends, ListsExtend, Shape, Children, BodyChildren, NoDangling, PhaseOk;
    var g' := NewObject(g, b);
    NewObjectShape(g, b);
    NewObjectExtends(g, b);
    NewObjectLists(g, b);
    NewObjectHeap(g, b);
    NewIsWhite(g, g');
    ExtendsInv(g, g');
  }

  lemma NewIsWhite(g: G, g': G)
    requires Extends(g, g')
    ensures CurWhite(g', g.next)
  {
  }
}

// Captured variables: finding or creating the open upvalue of a stack slot, and closing
// upvalues when their stack slots go away.

module GcUpvals {
  import opened GcState
  import opened GcSweep
  import opened GcInvariant
  import opened GcMutator
  import opened GcAlloc
  import opened GcStrings

  // ----- finding an upvalue ---------------------------------------------------

  function SlotOf(g: G, u: Id): int {
    if u in g.heap && g.heap[u].body.Open? then g.heap[u].body.slot else -1
  }

  // Where in a list sorted from the stack's top down `level` is or belongs.
  function OpenPos(g: G, us: seq<Id>, level: nat): (i: nat)
    ensures i <= |us|
  {
    if us == [] || SlotOf(g, us[0]) <= level then 0 else 1 + OpenPos(g, us[1..], level)
  }

  lemma {:induction false} OpenPosIs(g: G, us: seq<Id>, level: nat)
    ensures var i := OpenPos(g, us, level);
            (forall j :: 0 <= j < i ==> SlotOf(g, us[j]) > level) && (i < |us| ==> SlotOf(g, us[i]) <= level)
  {
    if us != [] && SlotOf(g, us[0]) > level { OpenPosIs(g, us[1..], level); }
  }

  function NewOpen(g: G, t: Id, level: nat): G
    requires IsThread(g, t) && g.next !in g.heap
  {
    var us := OpenList(g, t);
    var i := OpenPos(g, us, level);
    SetOpenList(Allocated(g, Open(t, level)), t, us[..i] + [g.next] + us[i..]).(uvhead := [g.next] + g.uvhead)
  }

  // The open upvalue of a stack slot: the one there is, or a new one in its place.
  function FindUpval(g: G, t: Id, level: nat): (G, Id)
    requires IsThread(g, t) && g.next !in g.heap
  {
    var us := OpenList(g, t);
    var i := OpenPos(g, us, level);
    if i < |us| && SlotOf(g, us[i]) == level then (Resurrect(g, us[i]), us[i]) else (NewOpen(g, t, level), g.next)
  }

  lemma NewOpenHeap(g: G, t: Id, level: nat)
    requires IsThread(g, t) && g.next !in g.heap
    ensures var g', us, i := NewOpen(g, t, level), OpenList(g, t), OpenPos(g, OpenList(g, t), level);
            && (forall p :: p in g'.heap <==> p in g.heap || p == g.next)
            && (forall p :: p in g.heap && p != t ==> g'.heap[p] == g.heap[p])
            && g'.heap[t] == g.heap[t].(body := g.heap[t].body.(openupval := us[..i] + [g.next] + us[i..]))
            && g'.heap[g.next] == Obj(NewMark(g), Open(t, level))
            && g' == g.(heap := g'.heap, next := g.next + 1, uvhead := [g.next] + g.uvhead)
  {
  }

  predicate Decreasing(s: seq<int>) { forall a, b :: 0 <= a < b < |s| ==> s[b] < s[a] }

  lemma DecreasingInsert(s: seq<int>, i: nat, x: int)
    requires Decreasing(s) && i <= |s| && (forall j :: 0 <= j < i ==> s[j] > x) && (i < |s| ==> s[i] < x)
    ensures Decreasing(s[..i] + [x] + s[i..])
  {
    var r := s[..i] + [x] + s[i..];
    forall a, b | 0 <= a < b < |r| ensures r[b] < r[a] {
      assert forall j :: 0 <= j < |r| ==> r[j] == if j < i then s[j] else if j == i then x else s[j - 1];
    }
  }

  // A list of open upvalues of `t` whose slots decrease.
  lemma ListOkFromSlots(g: G, t: Id, slots: seq<int>)
    requires IsThread(g, t) && |slots| == |OpenList(g, t)| && Decreasing(slots)
    requires forall j :: 0 <= j < |slots| ==>
               var u := OpenList(g, t)[j];
               u in g.heap && g.heap[u].body.Open? && g.heap[u].body.thread == t && g.heap[u].body.slot == slots[j]
               && slots[j] < |g.heap[t].body.stack|
    ensures OpenListOk(g, t)
  {
  }

  lemma SlotsOfList(g: G, t: Id) returns (slots: seq<int>)
    requires IsThread(g, t) && OpenListOk(g, t)
    ensures |slots| == |OpenList(g, t)| && Decreasing(slots)
    ensures forall j :: 0 <= j < |slots| ==>
              var u := OpenList(g, t)[j];
              u in g.heap && g.heap[u].body.Open? && g.heap[u].body.thread == t && g.heap[u].body.slot == slots[j]
              && slots[j] < |g.heap[t].body.stack| && slots[j] == SlotOf(g, u)
  {
    var us := OpenList(g, t);
    assert forall j :: 0 <= j < |us| ==> us[j] in us;
    slots := seq(|us|, j requires 0 <= j < |us| => SlotOf(g, us[j]));
  }

  lemma NewOpenOwnList(g: G, t: Id, level: nat)
    requires IsThread(g, t) && OpenListOk(g, t) && g.next !in g.heap && level < |g.heap[t].body.stack|
    requires var i := OpenPos(g, OpenList(g, t), level); i < |OpenList(g, t)| ==> SlotOf(g, OpenList(g, t)[i]) < level
    ensures IsThread(NewOpen(g, t, level), t) && OpenListOk(NewOpen(g, t, level), t)
  {
    hide NewOpen, OpenPos, OpenListOk, SlotOf, Decreasing;
    var g', us, i := NewOpen(g, t, level), OpenList(g, t), OpenPos(g, OpenList(g, t), level);
    OpenPosIs(g, us, level);
    NewOpenHeap(g, t, level);
    var slots := SlotsOfList(g, t);
    DecreasingInsert(slots, i, level);
    ListOkFromSlots(g', t, slots[..i] + [level] + slots[i..]);
  }

  lemma NewOpenThreads(g: G, t: Id, level: nat)
    requires ThreadsOk(g) && IsThread(g, t) && g.next !in g.heap && level < |g.heap[t].body.stack|
    requires var i := OpenPos(g, OpenList(g, t), level); i < |OpenList(g, t)| ==> SlotOf(g, OpenList(g, t)[i]) < level
    ensures ThreadsOk(NewOpen(g, t, level))
  {
    hide NewOpen, OpenPos, OpenListOk, SlotOf;
    var g', us, i := NewOpen(g, t, level), OpenList(g, t), OpenPos(g, OpenList(g, t), level);
    NewOpenOwnList(g, t, level);
    NewOpenHeap(g, t, level);
    forall t' {:trigger IsThread(g', t')} | IsThread(g', t') ensures OpenListOk(g', t') {
      if t' != t { OtherList(g, g', t'); }
    }
    forall u | u in g'.heap && g'.heap[u].body.Open?
      ensures IsThread(g', g'.heap[u].body.thread) && u in g'.heap[g'.heap[u].body.thread].body.openupval
    {
      if u != g.next {
        assert IsThread(g, g.heap[u].body.thread);
        if g.heap[u].body.thread == t { InsertKeeps(us, i, g.next, u); }
      }
    }
    assert g.next !in g.uvhead;
    DistinctFront(g.next, g.uvhead);
  }

  lemma OtherList(g: G, g': G, t': Id)
    requires ThreadsOk(g) && IsThread(g, t') && t' in g'.heap && g'.heap[t'] == g.heap[t']
    requires forall p :: p in g.heap && g.heap[p].body.Open? ==> p in g'.heap && g'.heap[p] == g.heap[p]
    ensures OpenListOk(g', t')
  {
    assert OpenListOk(g, t');
  }

  lemma InsertKeeps(s: seq<Id>, i: nat, x: Id, y: Id)
    requires i <= |s| && y in s
    ensures y in s[..i] + [x] + s[i..]
  {
    var j :| 0 <= j < |s| && s[j] == y;
    var r := s[..i] + [x] + s[i..];
    if j < i { assert r[j] == y; } else { assert r[j + 1] == y; }
  }

  lemma NewOpenRest(g: G, t: Id, level: nat)
    requires RootsOk(g, {}) && StringsOk(g) && MarksOk(g) && IsThread(g, t) && g.next !in g.heap && g.next !in g.rootgc
    ensures var g' := NewOpen(g, t, level); RootsOk(g', {}) && MarksOk(g')
    ensures StringsOk(NewOpen(g, t, level))
  {
    hide NewOpen, StringsOk;
    NewOpenHeap(g, t, level);
    NewOpenStrings(g, t, level);
  }

  lemma NewOpenStrings(g: G, t: Id, level: nat)
    requires StringsOk(g) && IsThread(g, t) && g.next !in g.heap
    ensures StringsOk(NewOpen(g, t, level))
  {
    hide NewOpen;
    var g' := NewOpen(g, t, level);
    NewOpenHeap(g, t, level);
    forall o | o in g'.heap && g'.heap[o].body.Str? ensures o in g.heap && g.heap[o].body == g'.heap[o].body {}
    forall o | o in g.heap && g.heap[o].body.Str? ensures o in g'.heap && g.heap[o].body == g'.heap[o].body {}
  }

  lemma NewOpenExtends(g: G, t: Id, level: nat)
    requires IsThread(g, t) && g.next !in g.heap
    ensures Extends(g, NewOpen(g, t, level))
  {
    hide NewOpen;
    NewOpenHeap(g, t, level);
  }

  lemma NewOpenLists(g: G, t: Id, level: nat)
    requires IsThread(g, t) && g.next !in g.heap && g.sweepgc <= |g.rootgc|
    ensures ListsExtend(g, NewOpen(g, t, level))
  {
    hide NewOpen;
    NewOpenHeap(g, t, level);
    var g' := NewOpen(g, t, level);
    forall p | p in g.heap ensures forall u :: u in OpenList(g', p) ==> u in OpenList(g, p) || u == g.next {}
    assert OpenList(g', g.next) == [];
  }

  lemma NewOpenShape(g: G, t: Id, level: nat)
    requires Shape(g) && IsThread(g, t) && level < |g.heap[t].body.stack|
    requires var i := OpenPos(g, OpenList(g, t), level); i < |OpenList(g, t)| ==> SlotOf(g, OpenList(g, t)[i]) < level
    ensures g.next !in g.heap && g.sweepgc <= |g.rootgc| && Shape(NewOpen(g, t, level))
  {
    hide ThreadsOk, RootsOk, StringsOk, MarksOk, NewOpen;
    NotInHeap(g);
    SweepgcOk(g);
    NewOpenThreads(g, t, level);
    NewOpenRest(g, t, level);
  }

  lemma NewOpenInv(g: G, t: Id, level: nat)
    requires Inv(g) && IsThread(g, t) && Live(g, t) && level < |g.heap[t].body.stack|
    requires var i := OpenPos(g, OpenList(g, t), level); i < |OpenList(g, t)| ==> SlotOf(g, OpenList(g, t)[i]) < level
    ensures g.next !in g.heap
    ensures var g' := NewOpen(g, t, level);
            && Inv(g') && Live(g', g.next) && g'.heap[g.next].body == Open(t, level)
            && g'.heap.Keys == g.heap.Keys + {g.next}
  {
    hide Extends, ListsExtend, Shape, NoDangling, PhaseOk, NewOpen, OpenPos, SlotOf;
    NewOpenShape(g, t, level);
    NewOpenExtends(g, t, level);
    NewOpenLists(g, t, level);
    NewOpenHeap(g, t, level);
    var g' := NewOpen(g, t, level);
    SlotLive(g, t, level);
    NewIsWhite(g, g');
    assert Children(g', g.next) == Ids(g.heap[t].body.stack[level]);
    hide Children;
    ExtendsInv(g, g');
    assert g'.heap.Keys == g.heap.Keys + {g.next};
  }

  // A slot of a live thread holds a live value.
  lemma SlotLive(g: G, t: Id, slot: nat)
    requires NoDangling(g) && IsThread(g, t) && Live(g, t) && slot < |g.heap[t].body.stack|
    ensures Storable(g, g.heap[t].body.stack[slot])
  {
    var v := g.heap[t].body.stack[slot];
    assert ChildrenLive(g, t);
    if v.Ref? {
      assert v in g.heap[t].body.stack;
      assert v.id in Children(g, t);
    }
  }

  lemma OpenChildrenLive(g: G, u: Id, t: Id)
    requires NoDangling(g) && IsThread(g, t) && Live(g, t) && u in g.heap && g.heap[u].body.Open?
             && g.heap[u].body.thread == t
    requires g.heap[u].body.slot < |g.heap[t].body.stack|
    ensures ChildrenLive(g, u)
  {
    SlotLive(g, t, g.heap[u].body.slot);
    assert Children(g, u) == Ids(g.heap[t].body.stack[g.heap[u].body.slot]);
  }

  lemma ResurrectOpenInv(g: G, t: Id, i: nat)
    requires Inv(g) && OpenAt(g, t, i) && Live(g, t)
    ensures var u := OpenList(g, t)[i];
            var g' := Resurrect(g, u);
            && Inv(g') && Live(g', u) && g'.heap[u].body == g.heap[u].body && g'.heap.Keys == g.heap.Keys + {u}
  {
    hide Inv, ChildrenLive, NoDangling, Resurrect, Live;
    var u := OpenList(g, t)[i];
    OpenBelow(g, t, i);
    InvNoDangling(g);
    OpenChildrenLive(g, u, t);
    ResurrectInv(g, u);
    KeysSame(g, u);
  }

  lemma InvNoDangling(g: G)
    requires Inv(g)
    ensures NoDangling(g)
  {
  }

  lemma KeysSame(g: G, u: Id)
    requires u in g.heap
    ensures g.heap.Keys + {u} == g.heap.Keys
  {
  }

  lemma OpenBelow(g: G, t: Id, i: nat)
    requires Inv(g) && OpenAt(g, t, i)
    ensures var u := OpenList(g, t)[i]; g.heap[u].body.thread == t && g.heap[u].body.slot < |g.heap[t].body.stack|
  {
    assert OpenListOk(g, t) && OpenList(g, t)[i] in OpenList(g, t);
  }

  // The upvalue found is open at the slot asked for, and live, though no closure may
  // have kept it alive so far.
  lemma FindUpvalInv(g: G, t: Id, level: nat)
    requires Inv(g) && IsThread(g, t) && Live(g, t) && level < |g.heap[t].body.stack|
    ensures g.next !in g.heap
    ensures var (g', u) := FindUpval(g, t, level);
            && Inv(g') && Live(g', u) && g'.heap[u].body == Open(t, level) && g'.heap.Keys == g.heap.Keys + {u}
            && (u !in g.heap ==> u == g.next)
  {
    NotInHeap(g);
    var us := OpenList(g, t);
    var i := OpenPos(g, us, level);
    OpenPosIs(g, us, level);
    OpenListDistinct(g, t);
    if i < |us| && SlotOf(g, us[i]) == level {
      assert OpenAt(g, t, i);
      OpenBelow(g, t, i);
      ResurrectOpenInv(g, t, i);
    } else {
      NewOpenInv(g, t, level);
    }
  }
}

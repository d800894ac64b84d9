// The string table: interning, resurrection of dead strings, and resizing.

module GcStrings {
  import opened GcColours
  import opened GcState
  import opened GcMark
  import opened GcSweep
  import opened GcInvariant
  import opened GcMutator
  import opened GcAlloc

  const MAX_INT := 2147483645
  const MINSTRTABSIZE := 32

  // ----- resizing -------------------------------------------------------------

  function TextOf(g: G, o: Id): Text {
    if o in g.heap && g.heap[o].body.Str? then g.heap[o].body.text else []
  }

  // Chains the strings of an old bucket into the new table, one by one.
  function RehashList(g: G, list: seq<Id>, table: seq<seq<Id>>): (r: seq<seq<Id>>)
    requires table != []
    ensures |r| == |table|
    decreases |list|
  {
    if list == [] then table
    else
      var h := Bucket(TextOf(g, list[0]), |table|);
      RehashList(g, list[1..], table[h := [list[0]] + table[h]])
  }

  function RehashFrom(g: G, i: nat, table: seq<seq<Id>>): (r: seq<seq<Id>>)
    requires table != []
    ensures |r| == |table|
    decreases |g.strt| - i
  {
    if i >= |g.strt| then table else RehashFrom(g, i + 1, RehashList(g, g.strt[i], table))
  }

  function EmptyTable(size: nat): (r: seq<seq<Id>>)
    ensures |r| == size && forall b :: 0 <= b < size ==> r[b] == []
  {
    seq(size, _ => [])
  }

  // The table cannot be resized while it is being swept.
  function Resize(g: G, newsize: nat): G
    requires newsize > 0
  {
    if g.phase.SweepString? then g else g.(strt := RehashFrom(g, 0, EmptyTable(newsize)))
  }

  // `table` holds exactly the strings of `s`, each in its bucket, once.
  ghost predicate TableHolds(g: G, table: seq<seq<Id>>, s: iset<Id>) {
    && table != []
    && (forall b, o :: 0 <= b < |table| && o in table[b] ==> o in s && Bucket(TextOf(g, o), |table|) == b)
    && (forall o :: o in s ==> o in table[Bucket(TextOf(g, o), |table|)])
    && forall b :: 0 <= b < |table| ==> Distinct(table[b])
  }

  lemma ChainOne(g: G, table: seq<seq<Id>>, s: iset<Id>, o: Id)
    requires TableHolds(g, table, s) && o !in s
    ensures var h := Bucket(TextOf(g, o), |table|);
            TableHolds(g, table[h := [o] + table[h]], s + iset{o})
  {
    var h := Bucket(TextOf(g, o), |table|);
    assert o !in table[h];
    DistinctFront(o, table[h]);
  }

  lemma {:induction false} RehashListHolds(g: G, list: seq<Id>, table: seq<seq<Id>>, s: iset<Id>)
    requires TableHolds(g, table, s) && Distinct(list) && forall o :: o in list ==> o !in s
    ensures TableHolds(g, RehashList(g, list, table), s + (iset o | o in list))
    decreases |list|
  {
    if list == [] {
      assert s + (iset o | o in list) == s;
    } else {
      var o := list[0];
      var h := Bucket(TextOf(g, o), |table|);
      ChainOne(g, table, s, o);
      assert forall p :: p in list[1..] ==> p in list && p != o;
      RehashListHolds(g, list[1..], table[h := [o] + table[h]], s + iset{o});
      assert s + iset{o} + (iset p | p in list[1..]) == s + (iset p | p in list);
    }
  }

  ghost predicate InBefore(g: G, i: nat, o: Id) {
    exists b :: 0 <= b < i && b < |g.strt| && o in g.strt[b]
  }

  // The strings of the buckets before `i`.
  ghost function Before(g: G, i: nat): iset<Id> { iset o | InBefore(g, i, o) }

  lemma OneBucketMore(g: G, i: nat)
    requires i < |g.strt|
    ensures Before(g, i + 1) == Before(g, i) + (iset o | o in g.strt[i])
  {
    forall o ensures InBefore(g, i + 1, o) <==> InBefore(g, i, o) || o in g.strt[i] {
      if InBefore(g, i, o) {
        var b :| 0 <= b < i && b < |g.strt| && o in g.strt[b];
        assert b < i + 1;
      }
    }
  }

  lemma InOneBucket(g: G, o: Id, i: nat)
    requires StringsOk(g) && i < |g.strt| && o in g.strt[i]
    ensures !InBefore(g, i, o)
  {
    var k :| 0 <= k < |g.strt[i]| && g.strt[i][k] == o;
    forall b | 0 <= b < i && b < |g.strt| ensures o !in g.strt[b] {
      forall j | 0 <= j < |g.strt[b]| ensures g.strt[b][j] != o {}
    }
  }

  lemma {:induction false} RehashFromHolds(g: G, i: nat, table: seq<seq<Id>>)
    requires StringsOk(g) && i <= |g.strt| && TableHolds(g, table, Before(g, i))
    ensures TableHolds(g, RehashFrom(g, i, table), Before(g, |g.strt|))
    decreases |g.strt| - i
  {
    if i < |g.strt| {
      assert Distinct(g.strt[i]);
      forall o | o in g.strt[i] ensures o !in Before(g, i) { InOneBucket(g, o, i); }
      OneBucketMore(g, i);
      hide StringsOk, TableHolds, RehashList, Before;
      RehashListHolds(g, g.strt[i], table, Before(g, i));
      RehashFromHolds(g, i + 1, RehashList(g, g.strt[i], table));
    }
  }

  lemma ResizeStrings(g: G, newsize: nat)
    requires StringsOk(g) && newsize > 0
    ensures StringsOk(Resize(g, newsize))
  {
    if !g.phase.SweepString? {
      var table := EmptyTable(newsize);
      assert Before(g, 0) == iset{} by { forall o ensures !InBefore(g, 0, o) {} }
      RehashFromHolds(g, 0, table);
      var t := RehashFrom(g, 0, table);
      var g' := g.(strt := t);
      assert TableHolds(g, t, Before(g, |g.strt|));
      RehashFromTotal(g, 0, table);
      EmptyTotal(newsize);
      assert g.strt[0..] == g.strt;
      hide RehashFrom, EmptyTable, TableHolds;
      TableStrings(g, t);
    }
  }

  // Rehashing loses no string and makes none.
  lemma {:induction false} RehashListTotal(g: G, list: seq<Id>, table: seq<seq<Id>>)
    requires table != []
    ensures Total(RehashList(g, list, table)) == Total(table) + |list|
    decreases |list|
  {
    if list != [] {
      var h := Bucket(TextOf(g, list[0]), |table|);
      TotalChanged(table, h, [list[0]] + table[h]);
      RehashListTotal(g, list[1..], table[h := [list[0]] + table[h]]);
    }
  }

  lemma {:induction false} RehashFromTotal(g: G, i: nat, table: seq<seq<Id>>)
    requires table != [] && i <= |g.strt|
    ensures Total(RehashFrom(g, i, table)) == Total(table) + Total(g.strt[i..])
    decreases |g.strt| - i
  {
    if i < |g.strt| {
      RehashListTotal(g, g.strt[i], table);
      RehashFromTotal(g, i + 1, RehashList(g, g.strt[i], table));
      assert g.strt[i..][1..] == g.strt[i + 1..];
    }
  }

  lemma {:induction false} EmptyTotal(size: nat)
    ensures Total(EmptyTable(size)) == 0
  {
    if size > 0 {
      EmptyTotal(size - 1);
      assert EmptyTable(size)[1..] == EmptyTable(size - 1);
    }
  }

  lemma TableStrings(g: G, t: seq<seq<Id>>)
    requires StringsOk(g) && TableHolds(g, t, Before(g, |g.strt|)) && Total(t) == Total(g.strt)
    ensures StringsOk(g.(strt := t))
  {
    forall b, i | 0 <= b < |t| && 0 <= i < |t[b]|
      ensures t[b][i] in g.heap && g.heap[t[b][i]].body.Str? && Bucket(g.heap[t[b][i]].body.text, |t|) == b
    {
      var o := t[b][i];
      assert o in t[b];
      assert o in Before(g, |g.strt|);
      var c :| 0 <= c < |g.strt| && o in g.strt[c];
      var j :| 0 <= j < |g.strt[c]| && g.strt[c][j] == o;
      assert TextOf(g, o) == g.heap[o].body.text;
    }
    forall o | o in g.heap && g.heap[o].body.Str? ensures o in t[Bucket(g.heap[o].body.text, |t|)] {
      var b := Bucket(g.heap[o].body.text, |g.strt|);
      assert 0 <= b < |g.strt| && o in g.strt[b];
      assert InBefore(g, |g.strt|, o) && o in Before(g, |g.strt|);
      assert TextOf(g, o) == g.heap[o].body.text;
    }
  }

  lemma ResizeInv(g: G, newsize: nat)
    requires Inv(g) && newsize > 0
    ensures Inv(Resize(g, newsize))
  {
    var g' := Resize(g, newsize);
    ResizeStrings(g, newsize);
    assert g' == g.(strt := g'.strt);
    if !g.phase.SweepString? { TableChanged(g, g'); }
  }

  lemma TableChanged(g: G, g': G)
    requires Inv(g) && g' == g.(strt := g'.strt) && StringsOk(g') && !g.phase.SweepString?
    ensures Inv(g')
  {
    hide PhaseOk, StringsOk, NoDangling, ThreadsOk, RootsOk, MarksOk;
    assert SameBodies(g, g');
    TableChangedPhase(g, g');
    ThreadsOkSame(g, g');
    SweepgcOk(g);
    RootsOkSame(g, g', {});
    MarksOkSame(g, g');
    TableChangedNoDangling(g, g');
  }

  lemma TableChangedNoDangling(g: G, g': G)
    requires NoDangling(g) && g' == g.(strt := g'.strt)
    ensures NoDangling(g')
  {
    forall o | Live(g', o) ensures ChildrenLive(g', o) {
      assert ChildrenLive(g, o);
      SameBodiesChildren(g, g', o);
    }
  }

  lemma TableChangedPhase(g: G, g': G)
    requires PhaseOk(g) && g' == g.(strt := g'.strt) && !g.phase.SweepString?
    ensures PhaseOk(g')
  {
    if g.phase.Propagate? {
      forall o | o in g'.heap ensures TriAt(g', {}, 0, o) {
        assert TriAt(g, {}, 0, o);
        SameBodiesChildren(g, g', o);
      }
    } else if g.phase.Sweep? {
      forall i | 0 <= i < g'.sweepgc ensures CleanRoot(g', g'.rootgc[i]) {
        assert CleanRoot(g, g.rootgc[i]);
        SameBodiesChildren(g, g', g.rootgc[i]);
      }
    }
  }

  // ----- interning ---------------------------------------------------------------------

  // Where in a bucket a text is found first, or the bucket's length.
  function FindText(g: G, list: seq<Id>, text: Text): (i: nat)
    ensures i <= |list|
  {
    if list == [] || (list[0] in g.heap && g.heap[list[0]].body == Str(text)) then 0
    else 1 + FindText(g, list[1..], text)
  }

  lemma {:induction false} FindTextFinds(g: G, list: seq<Id>, text: Text)
    ensures var i := FindText(g, list, text);
            && (i < |list| ==> list[i] in g.heap && g.heap[list[i]].body == Str(text))
            && (i == |list| ==> forall o :: o in list && o in g.heap ==> g.heap[o].body != Str(text))
  {
    if list != [] && !(list[0] in g.heap && g.heap[list[0]].body == Str(text)) {
      FindTextFinds(g, list[1..], text);
    }
  }

  // A dead object that is wanted again turns to the current white.
  function Resurrect(g: G, o: Id): G {
    if Dead(g, o) then SetMark(g, o, ChangeWhite(g.heap[o].mark)) else g
  }

  function ChainNew(g: G, text: Text): G
    requires 0 < |g.strt|
  {
    var b := Bucket(text, |g.strt|);
    Allocated(g, Str(text)).(strt := g.strt[b := [g.next] + g.strt[b]], nuse := g.nuse + 1)
  }

  function NewString(g: G, text: Text): G
    requires 0 < |g.strt|
  {
    var g1 := ChainNew(g, text);
    if g1.nuse > |g1.strt| && |g1.strt| <= MAX_INT / 2 then Resize(g1, |g1.strt| * 2) else g1
  }

  // The string with the given text: the one in the table, or a new one.
  function InternString(g: G, text: Text): (r: (G, Id))
    requires 0 < |g.strt|
  {
    var bucket := g.strt[Bucket(text, |g.strt|)];
    var i := FindText(g, bucket, text);
    if i < |bucket| then (Resurrect(g, bucket[i]), bucket[i]) else (NewString(g, text), g.next)
  }

  lemma ResurrectInv(g: G, o: Id)
    requires Inv(g) && o in g.heap && (Dead(g, o) ==> ChildrenLive(g, o))
    ensures Inv(Resurrect(g, o)) && Live(Resurrect(g, o), o)
    ensures Resurrect(g, o).heap.Keys == g.heap.Keys && Resurrect(g, o).heap[o].body == g.heap[o].body
  {
    hide Inv, ChildrenLive;
    if Dead(g, o) { DeadResurrected(g, o); } else { SpareResurrected(g, o); }
  }

  lemma SpareResurrected(g: G, o: Id)
    requires o in g.heap && !Dead(g, o)
    ensures Resurrect(g, o) == g && Live(g, o)
  {
  }

  lemma DeadResurrected(g: G, o: Id)
    requires Inv(g) && Dead(g, o) && ChildrenLive(g, o)
    ensures Inv(Resurrect(g, o))
  {
    hide Inv, ChildrenLive;
    DeadWhileSweeping(g, o);
    var m := ChangeWhite(g.heap[o].mark);
    MarkedInv(g, o, m, g.grayagain);
    assert SetMark(g, o, m).(grayagain := g.grayagain) == SetMark(g, o, m);
  }

  lemma DeadWhileSweeping(g: G, o: Id)
    requires Inv(g) && Dead(g, o)
    ensures (g.phase.SweepString? || g.phase.Sweep?) && ColourOk(g.heap[o].mark)
  {
    hide Shape, NoDangling;
    ColourOfMarks(g, o);
    if !g.phase.SweepString? && !g.phase.Sweep? { NothingDead(g); }
  }

  lemma ChainNewStrings(g: G, text: Text)
    requires StringsOk(g) && g.next !in g.heap
    requires forall o :: o in g.strt[Bucket(text, |g.strt|)] && o in g.heap ==> g.heap[o].body != Str(text)
    ensures StringsOk(ChainNew(g, text))
  {
    var g', b := ChainNew(g, text), Bucket(text, |g.strt|);
    assert forall p :: p in g.heap ==> g'.heap[p] == g.heap[p];
    assert forall p :: p in g'.heap <==> p in g.heap || p == g.next;
    forall i | 0 <= i < |g.strt[b]| ensures g.strt[b][i] != g.next {}
    DistinctFront(g.next, g.strt[b]);
    TotalChanged(g.strt, b, [g.next] + g.strt[b]);
    forall o | o in g'.heap && g'.heap[o].body.Str? ensures o in g'.strt[Bucket(g'.heap[o].body.text, |g'.strt|)] {
      if o != g.next { assert o in g.strt[Bucket(g.heap[o].body.text, |g.strt|)]; }
    }
  }

  lemma ChainNewShape(g: G, text: Text)
    requires Shape(g) && forall o :: o in g.strt[Bucket(text, |g.strt|)] && o in g.heap ==> g.heap[o].body != Str(text)
    ensures Shape(ChainNew(g, text))
  {
    NotInHeap(g);
    ChainNewStrings(g, text);
    ChainNewRest(g, text);
  }

  lemma ChainNewRest(g: G, text: Text)
    requires ThreadsOk(g) && RootsOk(g, {}) && MarksOk(g) && g.next !in g.heap && 0 < |g.strt|
    ensures var g' := ChainNew(g, text); ThreadsOk(g') && RootsOk(g', {}) && MarksOk(g')
  {
    hide ThreadsOk;
    var g' := ChainNew(g, text);
    assert forall p :: p in g.heap ==> g'.heap[p] == g.heap[p];
    assert forall p :: p in g'.heap <==> p in g.heap || p == g.next;
    ChainNewThreads(g, text);
  }

  lemma ChainNewThreads(g: G, text: Text)
    requires ThreadsOk(g) && g.next !in g.heap && 0 < |g.strt|
    ensures ThreadsOk(ChainNew(g, text))
  {
    var g' := ChainNew(g, text);
    assert forall p :: p in g.heap ==> g'.heap[p] == g.heap[p];
    forall t {:trigger IsThread(g', t)} | IsThread(g', t) ensures OpenListOk(g', t) {
      assert IsThread(g, t) && OpenListOk(g, t);
    }
    forall u | u in g'.heap && g'.heap[u].body.Open?
      ensures IsThread(g', g'.heap[u].body.thread) && u in g'.heap[g'.heap[u].body.thread].body.openupval
    {
      assert IsThread(g, g.heap[u].body.thread);
    }
  }

  lemma ChainNewHeap(g: G, text: Text)
    requires 0 < |g.strt|
    ensures var g' := ChainNew(g, text);
            && g' == Allocated(g, Str(text)).(strt := g'.strt, nuse := g.nuse + 1)
            && |g'.strt| == |g.strt|
            && forall b, i :: 0 <= b < |g.strt| && 0 <= i < |g'.strt[b]| ==>
                 g'.strt[b][i] == g.next || g'.strt[b][i] in g.strt[b]
  {
  }

  lemma HasBuckets(g: G)
    requires Shape(g)
    ensures 0 < |g.strt|
  {
  }

  lemma ChainNewExtends(g: G, text: Text)
    requires Shape(g)
    ensures Extends(g, ChainNew(g, text)) && ChainNew(g, text).heap[g.next].body == Str(text)
  {
    hide ChainNew, Shape;
    NotInHeap(g);
    HasBuckets(g);
    ChainNewHeap(g, text);
    assert ChainNew(g, text).heap == g.heap[g.next := Obj(NewMark(g), Str(text))];
  }

  lemma TableHasChains(g: G)
    requires Shape(g)
    ensures 0 < |g.strt|
  {
  }

  lemma ChainNewLists(g: G, text: Text)
    requires Shape(g)
    ensures ListsExtend(g, ChainNew(g, text))
  {
    hide Shape, Bucket;
    NotInHeap(g);
    SweepgcBound(g);
    TableHasChains(g);
    ChainNewHeap(g, text);
    var g' := ChainNew(g, text);
    assert forall p :: p in g.heap ==> OpenList(g', p) == OpenList(g, p);
    assert OpenList(g', g.next) == [];
  }

  lemma NotInHeapShape(g: G)
    requires Inv(g)
    ensures Shape(g) && g.next !in g.heap && g.next !in g.rootgc
  {
    NotInHeap(g);
  }

  lemma ChainNewFacts(g: G, text: Text)
    requires Inv(g)
    ensures var g1 := ChainNew(g, text);
            && Children(g1, g.next) == {} && g1.heap.Keys == g.heap.Keys + {g.next}
            && g.next in g1.heap && g1.heap[g.next].body == Str(text) && g1.phase == g.phase
  {
  }

  lemma NewStringInv(g: G, text: Text)
    requires Inv(g) && forall o :: o in g.strt[Bucket(text, |g.strt|)] && o in g.heap ==> g.heap[o].body != Str(text)
    ensures var g' := NewString(g, text);
            Inv(g') && CurWhite(g', g.next) && g'.heap[g.next].body == Str(text) && g.next !in g.heap
            && g'.heap.Keys == g.heap.Keys + {g.next}
  {
    hide Inv, ChainNew, Shape, ListsExtend, Children;
    TableNotEmpty(g);
    var g1 := ChainNew(g, text);
    NotInHeapShape(g);
    ChainNewShape(g, text);
    ChainNewExtends(g, text);
    ChainNewLists(g, text);
    ChainNewFacts(g, text);
    ExtendsInv(g, g1);
    NewIsWhite(g, g1);
    if g1.nuse > |g1.strt| && |g1.strt| <= MAX_INT / 2 {
      TableNotEmpty(g1);
      ResizeInv(g1, |g1.strt| * 2);
    }
  }

  lemma TableNotEmpty(g: G)
    requires Inv(g)
    ensures 0 < |g.strt|
  {
  }

  // Interning gives a live string of that text, whether it was dead or not there at all.
  lemma InternInv(g: G, text: Text)
    requires Inv(g)
    ensures var (g', o) := InternString(g, text);
            && Inv(g') && Live(g', o) && g'.heap[o].body == Str(text)
            && g'.heap.Keys == g.heap.Keys + {o} && (o !in g.heap ==> o == g.next)
  {
    hide Inv, Resurrect, NewString;
    TableNotEmpty(g);
    var bucket := g.strt[Bucket(text, |g.strt|)];
    FindTextFinds(g, bucket, text);
    var i := FindText(g, bucket, text);
    if i < |bucket| {
      FoundInv(g, bucket[i], text);
    } else {
      NewStringInv(g, text);
    }
  }

  lemma NoChildren(g: G, o: Id)
    requires o in g.heap && g.heap[o].body.Str?
    ensures ChildrenLive(g, o)
  {
    assert Children(g, o) == {};
  }

  lemma FoundInv(g: G, o: Id, text: Text)
    requires Inv(g) && o in g.heap && g.heap[o].body == Str(text)
    ensures var g' := Resurrect(g, o);
            && Inv(g') && Live(g', o) && g'.heap[o].body == Str(text) && g'.heap.Keys == g.heap.Keys + {o}
  {
    hide Inv, Resurrect, ChildrenLive, Live;
    NoChildren(g, o);
    ResurrectInv(g, o);
    assert g.heap.Keys + {o} == g.heap.Keys;
  }

  // ----- the count of strings ---------------------------------------------------------------

  function Elements(s: seq<Id>): set<Id> { set o | o in s }

  function Members(strt: seq<seq<Id>>): set<Id> {
    if strt == [] then {} else Elements(strt[0]) + Members(strt[1..])
  }

  lemma {:induction false} MemberOf(strt: seq<seq<Id>>, o: Id)
    ensures o in Members(strt) <==> exists b :: 0 <= b < |strt| && o in strt[b]
  {
    if strt != [] {
      MemberOf(strt[1..], o);
      if o in Members(strt[1..]) {
        var b :| 0 <= b < |strt[1..]| && o in strt[1..][b];
        assert o in strt[b + 1];
      }
      if b :| 0 <= b < |strt| && o in strt[b] && b > 0 { assert o in strt[1..][b - 1]; }
    }
  }

  lemma {:induction false} DistinctCount(s: seq<Id>)
    requires Distinct(s)
    ensures |Elements(s)| == |s|
    decreases |s|
  {
    if s != [] {
      DistinctCount(s[1..]);
      assert s[0] !in s[1..];
      assert Elements(s) == {s[0]} + Elements(s[1..]);
    }
  }

  lemma {:induction false} MembersCount(strt: seq<seq<Id>>)
    requires forall b :: 0 <= b < |strt| ==> Distinct(strt[b])
    requires forall b, c, o :: 0 <= b < c < |strt| && o in strt[b] ==> o !in strt[c]
    ensures |Members(strt)| == Total(strt)
  {
    if strt != [] {
      MembersCount(strt[1..]);
      DistinctCount(strt[0]);
      forall o | o in strt[0] ensures o !in Members(strt[1..]) { MemberOf(strt[1..], o); }
      assert Elements(strt[0]) !! Members(strt[1..]);
    }
  }

  // The table's count is the number of strings there are.
  lemma StringCount(g: G)
    requires StringsOk(g)
    ensures g.nuse == |set o | o in g.heap && g.heap[o].body.Str?|
  {
    forall b, c, o | 0 <= b < c < |g.strt| && o in g.strt[b] ensures o !in g.strt[c] {
      var i :| 0 <= i < |g.strt[b]| && g.strt[b][i] == o;
      forall j | 0 <= j < |g.strt[c]| ensures g.strt[c][j] != o {}
    }
    MembersCount(g.strt);
    forall o ensures o in Members(g.strt) <==> o in g.heap && g.heap[o].body.Str? {
      MemberOf(g.strt, o);
      if b :| 0 <= b < |g.strt| && o in g.strt[b] {
        var i :| 0 <= i < |g.strt[b]| && g.strt[b][i] == o;
      }
    }
    assert Members(g.strt) == (set o | o in g.heap && g.heap[o].body.Str?);
  }
}

// The sweep phases: what is dead is freed, what is not turns white again.

module GcSweep {
  import opened GcColours
  import opened GcState
  import opened GcMark

  // ----- write barriers ---------------------------------------------------------

  // Forward barrier: a black object got a white child.
  function BarrierF(g: G, o: Id, v: Id): G
    requires o in g.heap
  {
    if g.phase.Propagate? then MarkObject(g, v)
    else SetMark(g, o, MakeWhite(g.second, g.heap[o].mark))
  }

  // Back barrier: the table is to be traversed again.
  function BarrierBack(g: G, t: Id): G
    requires t in g.heap
  {
    SetMark(g, t, BackToGray(g.heap[t].mark)).(grayagain := [t] + g.grayagain)
  }

  function Barrier(g: G, p: Id, v: Value): G {
    if v.Ref? && White(g, v.id) && Black(g, p) then BarrierF(g, p, v.id) else g
  }

  function BarrierT(g: G, t: Id, v: Value): G {
    if v.Ref? && White(g, v.id) && Black(g, t) then BarrierBack(g, t) else g
  }

  // ----- lists ---------------------------------------------------------------------

  function RemoveAt<T>(s: seq<T>, i: nat): (r: seq<T>)
    requires i < |s|
    ensures |r| == |s| - 1
  {
    s[..i] + s[i + 1..]
  }

  function Without(s: seq<Id>, u: Id): (r: seq<Id>)
    ensures forall x :: x in r <==> x in s && x != u
    ensures Distinct(s) ==> Distinct(r)
    ensures |r| <= |s| && (u in s ==> |r| < |s|)
  {
    if s == [] then []
    else
      assert Distinct(s) ==> Distinct(s[1..]);
      if s[0] == u then Without(s[1..], u)
      else
        var r := Without(s[1..], u);
        assert Distinct(s) ==> Distinct([s[0]] + r) by {
          if Distinct(s) { DistinctFront(s[0], r); }
        }
        [s[0]] + r
  }

  lemma DistinctFront(x: Id, s: seq<Id>)
    requires Distinct(s) && x !in s
    ensures Distinct([x] + s)
  {
  }

  lemma RemoveAtDistinct<T>(s: seq<T>, i: nat)
    requires Distinct(s) && i < |s|
    ensures Distinct(RemoveAt(s, i)) && forall x :: x in RemoveAt(s, i) <==> x in s && x != s[i]
  {
    var r := RemoveAt(s, i);
    forall x | x in s && x != s[i] ensures x in r {
      var j :| 0 <= j < |s| && s[j] == x;
      if j < i { assert r[j] == x; } else { assert r[j - 1] == x; }
    }
    forall x | x in r ensures x in s && x != s[i] {
      var j :| 0 <= j < |r| && r[j] == x;
      assert x == if j < i then s[j] else s[j + 1];
    }
  }

  // A new first element of the list of all objects comes before what is swept next,
  // unless the sweeper is still at the list's head.
  function LinkFront(g: G, o: Id): G {
    g.(rootgc := [o] + g.rootgc, sweepgc := if g.sweepgc == 0 then 0 else g.sweepgc + 1)
  }

  // ----- upvalues ------------------------------------------------------------------

  function OpenList(g: G, t: Id): seq<Id> {
    if IsThread(g, t) then g.heap[t].body.openupval else []
  }

  function SetOpenList(g: G, t: Id, us: seq<Id>): G
    requires IsThread(g, t)
  {
    g.(heap := g.heap[t := g.heap[t].(body := g.heap[t].body.(openupval := us))])
  }

  // Unlinks the `i`th open upvalue of thread `t` from its thread's list and from
  // the list of all open upvalues.
  function UnlinkOpen(g: G, t: Id, i: nat): G
    requires IsThread(g, t) && i < |OpenList(g, t)|
  {
    SetOpenList(g, t, RemoveAt(OpenList(g, t), i)).(uvhead := Without(g.uvhead, OpenList(g, t)[i]))
  }

  function FreeOpen(g: G, t: Id, i: nat): G
    requires IsThread(g, t) && i < |OpenList(g, t)|
  {
    var g1 := UnlinkOpen(g, t, i);
    g1.(heap := g1.heap - {OpenList(g, t)[i]})
  }

  // A closed upvalue joins the list of all objects; a gray one needs a barrier, or is
  // swept at once.
  function LinkUpval(g: G, u: Id): G
    requires u in g.heap && g.heap[u].body.Closed?
  {
    var g1 := LinkFront(g, u);
    if !Gray(g1, u) then g1
    else if g1.phase.Propagate? then Barrier(Blackened(g1, u), u, g.heap[u].body.value)
    else SetMark(g1, u, MakeWhite(g1.second, g1.heap[u].mark))
  }

  // Closes the topmost open upvalue of thread `t`.
  function CloseTop(g: G, t: Id): G
    requires IsThread(g, t) && OpenList(g, t) != [] && OpenList(g, t)[0] in g.heap
             && g.heap[OpenList(g, t)[0]].body.Open?
  {
    var u := OpenList(g, t)[0];
    if Dead(g, u) then FreeOpen(g, t, 0)
    else
      var v := SlotValue(g, t, g.heap[u].body.slot);
      var g1 := UnlinkOpen(g, t, 0);
      LinkUpval(g1.(heap := g1.heap[u := g1.heap[u].(body := Closed(v))]), u)
  }

  // Closes the open upvalues of thread `t` down to stack slot `level`.
  function CloseUpvals(g: G, t: Id, level: nat): (r: G)
    decreases |OpenList(g, t)|
  {
    if TopAbove(g, t, level) then
      CloseTopShorter(g, t);
      CloseUpvals(CloseTop(g, t), t, level)
    else g
  }

  predicate TopAbove(g: G, t: Id, level: nat) {
    && IsThread(g, t) && OpenList(g, t) != [] && OpenList(g, t)[0] in g.heap && g.heap[OpenList(g, t)[0]].body.Open?
    && level <= g.heap[OpenList(g, t)[0]].body.slot
  }

  // ----- the lists get shorter ---------------------------------------------------------

  lemma DarkerOpenList(g: G, g': G, t: Id)
    requires Darker(g, g')
    ensures OpenList(g', t) == OpenList(g, t)
  {
    if t in g.heap { assert DarkerAt(g, g', t); }
  }

  lemma BarrierOpenList(g: G, p: Id, v: Value, t: Id)
    ensures OpenList(Barrier(g, p, v), t) == OpenList(g, t)
  {
    if v.Ref? && White(g, v.id) && Black(g, p) {
      if g.phase.Propagate? {
        MarkObjectDarker(g, v.id);
        DarkerOpenList(g, MarkObject(g, v.id), t);
      }
    }
  }

  lemma CloseTopShorter(g: G, t: Id)
    requires IsThread(g, t) && OpenList(g, t) != [] && OpenList(g, t)[0] in g.heap
             && g.heap[OpenList(g, t)[0]].body.Open?
    ensures OpenList(CloseTop(g, t), t) == OpenList(g, t)[1..]
  {
    var u := OpenList(g, t)[0];
    assert RemoveAt(OpenList(g, t), 0) == OpenList(g, t)[1..];
    if !Dead(g, u) {
      var v := SlotValue(g, t, g.heap[u].body.slot);
      var g1 := UnlinkOpen(g, t, 0);
      var g2 := g1.(heap := g1.heap[u := g1.heap[u].(body := Closed(v))]);
      var g3 := LinkFront(g2, u);
      assert OpenList(g3, t) == OpenList(g, t)[1..];
      if Gray(g3, u) && g3.phase.Propagate? { BarrierOpenList(Blackened(g3, u), u, v, t); }
    }
  }

  // ----- sweeping -----------------------------------------------------------------------

  function Whiten(g: G, o: Id): G
    requires o in g.heap
  {
    SetMark(g, o, MakeWhite(g.second, g.heap[o].mark))
  }

  function Dropped(g: G, o: Id): G { g.(heap := g.heap - {o}) }

  predicate OpenAt(g: G, t: Id, i: nat) {
    IsThread(g, t) && i < |OpenList(g, t)| && OpenList(g, t)[i] in g.heap && g.heap[OpenList(g, t)[i]].body.Open?
  }

  // Sweeps the open upvalues of a thread from the `i`th on.
  function SweepOpenFrom(g: G, t: Id, i: nat): G
    decreases |OpenList(g, t)| - i
  {
    if !OpenAt(g, t, i) then g
    else
      var u := OpenList(g, t)[i];
      if Survives(g.second, g.heap[u].mark) then SweepOpenFrom(Whiten(g, u), t, i + 1)
      else SweepOpenFrom(FreeOpen(g, t, i), t, i)
  }

  // A thread closes its open upvalues before it goes.
  function FreeObject(g: G, o: Id): G {
    Dropped(if IsThread(g, o) then CloseUpvals(g, o, 0) else g, o)
  }

  // Sweeps the next object on the list of all objects.
  function SweepNext(g: G): G
    requires g.sweepgc < |g.rootgc| && g.rootgc[g.sweepgc] in g.heap
  {
    SweepThis(SweepOpenFrom(g, g.rootgc[g.sweepgc], 0), g.rootgc[g.sweepgc])
  }

  function SweepThis(g: G, o: Id): G {
    if o !in g.heap || g.sweepgc >= |g.rootgc| then g
    else if Survives(g.second, g.heap[o].mark) then Whiten(g, o).(sweepgc := g.sweepgc + 1)
    else FreeObject(g.(rootgc := RemoveAt(g.rootgc, g.sweepgc)), o)
  }

  function SweepMany(g: G, count: nat): G
    decreases count
  {
    if count == 0 || g.sweepgc >= |g.rootgc| || g.rootgc[g.sweepgc] !in g.heap then g
    else SweepMany(SweepNext(g), count - 1)
  }

  // Sweeps a bucket of the string table from its `i`th string on.
  function SweepBucketFrom(g: G, b: nat, i: nat): G
    decreases if b < |g.strt| then |g.strt[b]| - i else 0
  {
    if b >= |g.strt| || i >= |g.strt[b]| || g.strt[b][i] !in g.heap then g
    else
      var o := g.strt[b][i];
      if Survives(g.second, g.heap[o].mark) then SweepBucketFrom(Whiten(g, o), b, i + 1)
      else SweepBucketFrom(FreeString(g, b, i), b, i)
  }

  function FreeString(g: G, b: nat, i: nat): G
    requires b < |g.strt| && i < |g.strt[b]|
  {
    Dropped(g.(strt := g.strt[b := RemoveAt(g.strt[b], i)], nuse := if g.nuse > 0 then g.nuse - 1 else 0), g.strt[b][i])
  }

  // ----- what sweeping changes ----------------------------------------------------------------

  predicate SameKind(b: Body, b': Body) {
    IsUpval(b) == IsUpval(b') && IsTable(b) == IsTable(b') && IsUserData(b) == IsUserData(b') && b.Node? == b'.Node?
  }

  ghost predicate SweepsAt(g: G, g': G, o: Id) {
    && (o in g'.heap ==>
          && o in g.heap && Children(g', o) == Children(g, o) && SameKind(g.heap[o].body, g'.heap[o].body)
          && g'.heap[o].mark.fixed == g.heap[o].mark.fixed
          && (Live(g, o) ==> Live(g', o)) && (CurWhite(g, o) ==> CurWhite(g', o))
          && (Live(g', o) && !Live(g, o) ==> Children(g', o) == {})
          && (Dead(g, o) && !Fixed(g, o) ==> Dead(g', o))
          && (forall u :: u in OpenList(g', o) ==> u in OpenList(g, o)))
    && (o in g.heap && o !in g'.heap ==> Dead(g, o) && !Fixed(g, o))
  }

  // Only what is dead goes, what stays refers to the same objects, and nothing dies.
  ghost predicate Sweeps(g: G, g': G) {
    && g'.main == g.main && g'.running == g.running && g'.registry == g.registry && g'.mt == g.mt
    && g'.second == g.second && g'.phase == g.phase && g'.next == g.next
    && forall o :: SweepsAt(g, g', o)
  }

  lemma SweepsSelf(g: G)
    ensures Sweeps(g, g)
  {
  }

  lemma SweepsTrans(g: G, g1: G, g2: G)
    requires Sweeps(g, g1) && Sweeps(g1, g2)
    ensures Sweeps(g, g2)
  {
    forall o ensures SweepsAt(g, g2, o) {
      assert SweepsAt(g, g1, o) && SweepsAt(g1, g2, o);
    }
  }

  lemma SweepsNoDangling(g: G, g': G)
    requires Sweeps(g, g') && NoDangling(g)
    ensures NoDangling(g')
  {
    forall o | Live(g', o) ensures ChildrenLive(g', o) {
      assert SweepsAt(g, g', o);
      if Live(g, o) {
        assert ChildrenLive(g, o);
        forall c | c in Children(g', o) ensures Live(g', c) && Suits(g'.heap[o].body, g'.heap[c].body) {
          assert SweepsAt(g, g', c);
        }
      }
    }
    assert SweepsAt(g, g', g.main) && SweepsAt(g, g', g.running);
    forall c | c in Ids(g'.registry) + AllIds(g'.mt) ensures Live(g', c) && !IsUpval(g'.heap[c].body) {
      assert SweepsAt(g, g', c);
    }
  }

  ghost predicate ShapeBut(g: G, gone: set<Id>) {
    ThreadsOk(g) && RootsOk(g, gone) && StringsOk(g) && MarksOk(g)
  }

  // ----- turning an object white --------------------------------------------------------------

  lemma WhitenShape(g: G, o: Id, gone: set<Id>)
    requires o in g.heap && ShapeBut(g, gone)
    ensures ShapeBut(Whiten(g, o), gone)
  {
    var g' := Whiten(g, o);
    WhitenMarks(g, o);
    hide ThreadsOk, RootsOk, StringsOk, MarksOk;
    ThreadsOkSame(g, g');
    RootsOkSame(g, g', gone);
    StringsOkSame(g, g');
  }

  lemma WhitenMarks(g: G, o: Id)
    requires o in g.heap && MarksOk(g) && g.sweepgc <= |g.rootgc|
    ensures MarksOk(Whiten(g, o)) && SameBodies(g, Whiten(g, o))
  {
  }

  lemma WhitenSweeps(g: G, o: Id)
    requires o in g.heap && (Dead(g, o) ==> g.heap[o].body.Str? && Fixed(g, o))
    ensures Sweeps(g, Whiten(g, o)) && CurWhite(Whiten(g, o), o)
  {
    var g' := Whiten(g, o);
    forall p ensures SweepsAt(g, g', p) {
      if p in g.heap {
        match g.heap[p].body
        case Open(th, slot) => assert th in g.heap ==> g'.heap[th].body == g.heap[th].body;
        case _ =>
      }
    }
  }

  // ----- unlinking an open upvalue ----------------------------------------------------------------

  // `g'` differs from `g` in that the `i`th open upvalue of `t` is unlinked, and no longer open.
  ghost predicate Unlinked(g: G, g': G, t: Id, i: nat)
    requires OpenAt(g, t, i)
  {
    var u := OpenList(g, t)[i];
    && t in g'.heap && g'.heap[t].body == g.heap[t].body.(openupval := RemoveAt(OpenList(g, t), i))
    && (u in g'.heap ==> g'.heap[u].body.Closed?)
    && (forall o :: o in g.heap <==> o in g'.heap || o == u)
    && (forall o :: o in g'.heap && o != t && o != u ==> g'.heap[o].body == g.heap[o].body)
    && g'.uvhead == Without(g.uvhead, u)
    && g'.main == g.main && g'.running == g.running && g'.next == g.next
  }

  lemma OpenListDistinct(g: G, t: Id)
    requires ThreadsOk(g) && IsThread(g, t)
    ensures Distinct(OpenList(g, t)) && forall i :: 0 <= i < |OpenList(g, t)| ==> OpenAt(g, t, i)
  {
    assert OpenListOk(g, t);
    var us := OpenList(g, t);
    forall i, j | 0 <= i < j < |us| ensures us[i] != us[j] {
      assert us[i] in us && us[j] in us;
    }
  }

  // The open upvalues of a thread are in order if they are some of the former ones, in order.
  lemma OpenListSome(g: G, g': G, t: Id, from: seq<int>)
    requires IsThread(g, t) && OpenListOk(g, t) && IsThread(g', t) && g'.heap[t].body.stack == g.heap[t].body.stack
    requires |from| == |OpenList(g', t)| && forall a, b :: 0 <= a < b < |from| ==> from[a] < from[b]
    requires forall a :: 0 <= a < |from| ==>
               && 0 <= from[a] < |OpenList(g, t)| && OpenList(g', t)[a] == OpenList(g, t)[from[a]]
               && OpenList(g', t)[a] in g'.heap && OpenList(g', t)[a] in g.heap
               && g'.heap[OpenList(g', t)[a]].body == g.heap[OpenList(g', t)[a]].body
    ensures OpenListOk(g', t)
  {
    forall x | x in OpenList(g', t) ensures x in g'.heap && x in OpenList(g, t) && g'.heap[x].body == g.heap[x].body {}
  }

  lemma ThreadListOk(g: G, t: Id)
    requires ThreadsOk(g) && IsThread(g, t)
    ensures OpenListOk(g, t)
  {
  }

  // Threads do not share open upvalues.
  lemma OtherList(g: G, t: Id, i: nat, t': Id, a: nat)
    requires ThreadsOk(g) && OpenAt(g, t, i) && IsThread(g, t') && t' != t && a < |OpenList(g, t')|
    ensures var u := OpenList(g, t')[a]; u in g.heap && g.heap[u].body.Open? && u != OpenList(g, t)[i] && u != t
  {
    assert OpenListOk(g, t) && OpenListOk(g, t');
    assert OpenList(g, t)[i] in OpenList(g, t) && OpenList(g, t')[a] in OpenList(g, t');
  }

  lemma UnlinkedOwn(g: G, g': G, t: Id, i: nat)
    requires ThreadsOk(g) && OpenAt(g, t, i) && Unlinked(g, g', t, i)
    ensures IsThread(g', t) && OpenListOk(g', t)
  {
    hide ThreadsOk, OpenListOk;
    var us := OpenList(g, t);
    OpenListDistinct(g, t);
    ThreadListOk(g, t);
    var from := seq(|us| - 1, a => if a < i then a else a + 1);
    forall a | 0 <= a < |from| ensures us[from[a]] in g'.heap && g'.heap[us[from[a]]].body == g.heap[us[from[a]]].body {
      assert OpenAt(g, t, from[a]) && us[from[a]] != us[i];
    }
    hide Unlinked;
    UnlinkedOwnList(g, g', t, i, from);
    OpenListSome(g, g', t, from);
  }

  lemma UnlinkedOwnList(g: G, g': G, t: Id, i: nat, from: seq<int>)
    requires OpenAt(g, t, i) && Unlinked(g, g', t, i)
    requires from == seq(|OpenList(g, t)| - 1, a => if a < i then a else a + 1)
    ensures IsThread(g', t) && g'.heap[t].body.stack == g.heap[t].body.stack && |from| == |OpenList(g', t)|
    ensures forall a :: 0 <= a < |from| ==> OpenList(g', t)[a] == OpenList(g, t)[from[a]]
  {
  }

  lemma UnlinkedOther(g: G, g': G, t: Id, i: nat, t': Id)
    requires ThreadsOk(g) && OpenAt(g, t, i) && Unlinked(g, g', t, i) && IsThread(g', t') && t' != t
    ensures OpenListOk(g', t')
  {
    hide ThreadsOk, OpenListOk;
    assert IsThread(g, t');
    ThreadListOk(g, t');
    var us := OpenList(g, t');
    forall a | 0 <= a < |us| ensures us[a] in g.heap && g.heap[us[a]].body.Open? && us[a] != OpenList(g, t)[i]
      && us[a] != t {
      OtherList(g, t, i, t', a);
    }
    OpenListSome(g, g', t', seq(|us|, a => a));
  }

  lemma UnlinkedThreads(g: G, g': G, t: Id, i: nat)
    requires ThreadsOk(g) && OpenAt(g, t, i) && Unlinked(g, g', t, i)
    ensures ThreadsOk(g')
  {
    var u, us := OpenList(g, t)[i], OpenList(g, t);
    OpenListDistinct(g, t);
    RemoveAtDistinct(us, i);
    forall t' {:trigger IsThread(g', t')} | IsThread(g', t') ensures OpenListOk(g', t') {
      if t' == t { UnlinkedOwn(g, g', t, i); } else { UnlinkedOther(g, g', t, i, t'); }
    }
    forall u' | u' in g'.heap && g'.heap[u'].body.Open?
      ensures IsThread(g', g'.heap[u'].body.thread) && u' in g'.heap[g'.heap[u'].body.thread].body.openupval
    {
      assert g'.heap[u'].body == g.heap[u'].body;
    }
    assert g.main != u && g.running != u;
  }

  // ----- freeing an open upvalue ---------------------------------------------------------------------

  lemma FreeOpenUnlinked(g: G, t: Id, i: nat)
    requires OpenAt(g, t, i)
    ensures Unlinked(g, FreeOpen(g, t, i), t, i) && OpenList(g, t)[i] !in FreeOpen(g, t, i).heap
  {
    var g' := FreeOpen(g, t, i);
    assert g'.heap.Keys == g.heap.Keys - {OpenList(g, t)[i]};
  }

  // Strings and listed objects do not notice that an upvalue goes or is closed.
  lemma UnlinkedRest(g: G, g': G, t: Id, i: nat, gone: set<Id>)
    requires OpenAt(g, t, i) && Unlinked(g, g', t, i) && OpenList(g, t)[i] !in g'.heap
    requires RootsOk(g, gone) && StringsOk(g) && g'.rootgc == g.rootgc && g'.sweepgc == g.sweepgc && g'.strt == g.strt
    requires g'.nuse == g.nuse
    ensures RootsOk(g', gone)
    ensures StringsOk(g')
  {
    var u := OpenList(g, t)[i];
    assert forall o :: o in g'.heap && o != t ==> g'.heap[o].body == g.heap[o].body;
    assert forall o :: o in g'.heap <==> o in g.heap && o != u;
    UnlinkedStrings(g, g', t, i);
  }

  lemma UnlinkedStrings(g: G, g': G, t: Id, i: nat)
    requires OpenAt(g, t, i) && Unlinked(g, g', t, i) && StringsOk(g) && g'.strt == g.strt && g'.nuse == g.nuse
    ensures StringsOk(g')
  {
    var u := OpenList(g, t)[i];
    forall o | o in g'.heap && g'.heap[o].body.Str? ensures o in g.heap && g.heap[o].body == g'.heap[o].body {}
    forall o | o in g.heap && g.heap[o].body.Str? ensures o in g'.heap && g.heap[o].body == g'.heap[o].body {}
  }

  lemma FreeOpenShape(g: G, t: Id, i: nat, gone: set<Id>)
    requires ShapeBut(g, gone) && OpenAt(g, t, i)
    ensures ShapeBut(FreeOpen(g, t, i), gone)
  {
    var g' := FreeOpen(g, t, i);
    FreeOpenUnlinked(g, t, i);
    UnlinkedThreads(g, g', t, i);
    UnlinkedRest(g, g', t, i, gone);
    FreeOpenMarks(g, t, i);
  }

  lemma FreeOpenMarks(g: G, t: Id, i: nat)
    requires MarksOk(g) && OpenAt(g, t, i)
    ensures MarksOk(FreeOpen(g, t, i))
  {
    assert forall o :: o in FreeOpen(g, t, i).heap ==> o in g.heap && FreeOpen(g, t, i).heap[o].mark == g.heap[o].mark;
  }

  lemma FreeOpenSweeps(g: G, t: Id, i: nat)
    requires OpenAt(g, t, i) && Dead(g, OpenList(g, t)[i]) && !Fixed(g, OpenList(g, t)[i])
    ensures Sweeps(g, FreeOpen(g, t, i))
    ensures OpenList(FreeOpen(g, t, i), t) == RemoveAt(OpenList(g, t), i)
  {
    var g', u := FreeOpen(g, t, i), OpenList(g, t)[i];
    forall p ensures SweepsAt(g, g', p) {
      if p in g.heap && p != u {
        match g.heap[p].body
        case Open(th, slot) => assert SlotValue(g', th, slot) == SlotValue(g, th, slot);
        case _ =>
      }
    }
  }

  // ----- sweeping the open upvalues of a thread ---------------------------------------------------------

  predicate SameLists(g: G, g': G) {
    && g'.rootgc == g.rootgc && g'.sweepgc == g.sweepgc && g'.strt == g.strt && g'.sweepstrgc == g.sweepstrgc
    && g'.nuse == g.nuse
  }

  lemma UpvalNotFixed(g: G, u: Id)
    requires MarksOk(g) && ThreadsOk(g) && u in g.heap && g.heap[u].body.Open?
    ensures !Fixed(g, u)
  {
  }

  // The first `n` open upvalues of thread `t` are in the current white.
  predicate OpenClean(g: G, t: Id, n: nat) {
    n <= |OpenList(g, t)| && forall j :: 0 <= j < n ==> CurWhite(g, OpenList(g, t)[j])
  }

  // From `g` to `g'` only open upvalues of thread `t` are swept.
  ghost predicate OpenSwept(g: G, g': G, t: Id, gone: set<Id>) {
    && ShapeBut(g', gone) && Sweeps(g, g') && IsThread(g', t) && IsThread(g, t) && g'.heap[t].mark == g.heap[t].mark
    && SameLists(g, g')
  }

  lemma OpenSweptTrans(g: G, g1: G, g2: G, t: Id, gone: set<Id>)
    requires OpenSwept(g, g1, t, gone) && OpenSwept(g1, g2, t, gone)
    ensures OpenSwept(g, g2, t, gone)
  {
    hide Sweeps, ShapeBut;
    SweepsTrans(g, g1, g2);
  }

  lemma OpenSweptShape(g: G, g': G, t: Id, gone: set<Id>)
    requires OpenSwept(g, g', t, gone)
    ensures ShapeBut(g', gone) && IsThread(g', t)
  {
  }

  lemma {:induction false} SweepOpenGood(g: G, t: Id, i: nat, gone: set<Id>)
    requires ShapeBut(g, gone) && IsThread(g, t) && OpenClean(g, t, i)
    ensures var g' := SweepOpenFrom(g, t, i);
            OpenSwept(g, g', t, gone) && OpenClean(g', t, |OpenList(g', t)|)
    decreases |OpenList(g, t)| - i
  {
    if i < |OpenList(g, t)| {
      OpenListDistinct(g, t);
      var g1, i1 := SweepOpenStep(g, t, i, gone);
      SweepOpenGood(g1, t, i1, gone);
      OpenSweptTrans(g, g1, SweepOpenFrom(g, t, i), t, gone);
    } else {
      SweepsSelf(g);
      AllClean(g, t, i);
    }
  }

  lemma SweepOpenStep(g: G, t: Id, i: nat, gone: set<Id>) returns (g1: G, i1: nat)
    requires ShapeBut(g, gone) && OpenAt(g, t, i) && OpenClean(g, t, i)
    ensures SweepOpenFrom(g, t, i) == SweepOpenFrom(g1, t, i1)
    ensures OpenSwept(g, g1, t, gone) && ShapeBut(g1, gone) && IsThread(g1, t) && OpenClean(g1, t, i1)
    ensures i1 <= |OpenList(g1, t)| && |OpenList(g1, t)| - i1 < |OpenList(g, t)| - i
  {
    hide ShapeBut, Sweeps, Whiten, FreeOpen, CurWhite, Survives, OpenSwept;
    var u := OpenList(g, t)[i];
    if Survives(g.second, g.heap[u].mark) {
      g1, i1 := Whiten(g, u), i + 1;
      WhitenUpval(g, t, i, gone);
    } else {
      g1, i1 := FreeOpen(g, t, i), i;
      FreeUpval(g, t, i, gone);
    }
    OpenSweptShape(g, g1, t, gone);
  }

  lemma AllClean(g: G, t: Id, i: nat)
    requires OpenClean(g, t, i) && i >= |OpenList(g, t)|
    ensures OpenClean(g, t, |OpenList(g, t)|) && SweepOpenFrom(g, t, i) == g
  {
  }

  lemma CurWhiteStays(g: G, g': G, o: Id)
    requires Sweeps(g, g') && CurWhite(g, o)
    ensures CurWhite(g', o)
  {
    assert SweepsAt(g, g', o);
  }

  lemma WhitenOpen(g: G, t: Id, i: nat)
    requires OpenAt(g, t, i)
    ensures var g1 := Whiten(g, OpenList(g, t)[i]);
            && IsThread(g1, t) && g1.heap[t].mark == g.heap[t].mark && OpenList(g1, t) == OpenList(g, t)
            && SameLists(g, g1)
  {
  }

  lemma WhitenClean(g: G, t: Id, i: nat)
    requires OpenAt(g, t, i) && OpenClean(g, t, i) && Sweeps(g, Whiten(g, OpenList(g, t)[i]))
    ensures OpenClean(Whiten(g, OpenList(g, t)[i]), t, i + 1)
  {
    var us, g1 := OpenList(g, t), Whiten(g, OpenList(g, t)[i]);
    WhitenOpen(g, t, i);
    assert CurWhite(g1, us[i]);
    hide CurWhite, Whiten, Sweeps, OpenList;
    forall j | 0 <= j <= i ensures CurWhite(g1, us[j]) {
      if j < i { CurWhiteStays(g, g1, us[j]); }
    }
  }

  lemma WhitenUpval(g: G, t: Id, i: nat, gone: set<Id>)
    requires ShapeBut(g, gone) && OpenAt(g, t, i) && Survives(g.second, g.heap[OpenList(g, t)[i]].mark)
             && OpenClean(g, t, i)
    ensures var g1 := Whiten(g, OpenList(g, t)[i]);
            && OpenSwept(g, g1, t, gone) && OpenList(g1, t) == OpenList(g, t) && OpenClean(g1, t, i + 1)
  {
    var u := OpenList(g, t)[i];
    UpvalNotFixed(g, u);
    WhitenOpen(g, t, i);
    hide ShapeBut, OpenClean, Whiten, Sweeps;
    WhitenShape(g, u, gone);
    WhitenSweeps(g, u);
    WhitenClean(g, t, i);
  }

  lemma OpenListDistinctBut(g: G, t: Id, gone: set<Id>)
    requires ShapeBut(g, gone) && IsThread(g, t)
    ensures Distinct(OpenList(g, t)) && forall i :: 0 <= i < |OpenList(g, t)| ==> OpenAt(g, t, i)
  {
    OpenListDistinct(g, t);
  }

  lemma FreeOpenLists(g: G, t: Id, i: nat)
    requires OpenAt(g, t, i)
    ensures SameLists(g, FreeOpen(g, t, i)) && IsThread(FreeOpen(g, t, i), t)
            && FreeOpen(g, t, i).heap[t].mark == g.heap[t].mark
  {
  }

  lemma FreeUpval(g: G, t: Id, i: nat, gone: set<Id>)
    requires ShapeBut(g, gone) && OpenAt(g, t, i) && !Survives(g.second, g.heap[OpenList(g, t)[i]].mark)
             && OpenClean(g, t, i)
    ensures var g1 := FreeOpen(g, t, i);
            && OpenSwept(g, g1, t, gone) && OpenList(g1, t) == RemoveAt(OpenList(g, t), i) && OpenClean(g1, t, i)
  {
    hide ShapeBut, CurWhite, FreeOpen, Sweeps;
    OpenListDistinctBut(g, t, gone);
    FreeOpenShape(g, t, i, gone);
    FreeOpenSweeps(g, t, i);
    var g1 := FreeOpen(g, t, i);
    FreeOpenUnlinked(g, t, i);
    FreeOpenLists(g, t, i);
    forall j | 0 <= j < i ensures CurWhite(g1, OpenList(g1, t)[j]) {
      CurWhiteStays(g, g1, OpenList(g, t)[j]);
    }
  }

  // ----- marking keeps the lists consistent ------------------------------------------------------

  lemma DarkerShape(g: G, g': G, gone: set<Id>)
    requires Darker(g, g') && ShapeBut(g, gone)
    ensures ShapeBut(g', gone)
  {
    DarkerMarks(g, g');
    assert SameBodies(g, g') by {
      forall o | o in g.heap ensures g'.heap[o].body == g.heap[o].body { assert DarkerAt(g, g', o); }
    }
    assert g'.sweepgc <= |g.rootgc|;
    hide ThreadsOk, RootsOk, StringsOk, MarksOk;
    ThreadsOkSame(g, g');
    RootsOkSame(g, g', gone);
    StringsOkSame(g, g');
  }

  lemma DarkerMarks(g: G, g': G)
    requires Darker(g, g') && MarksOk(g)
    ensures MarksOk(g')
  {
    forall o | o in g'.heap
      ensures ColourOk(g'.heap[o].mark) && (g'.heap[o].mark.black ==> g'.heap[o].body.Node? || g'.heap[o].body.Closed?)
      ensures g'.heap[o].mark.fixed ==> g'.heap[o].body.Str? || o == g'.main
    {
      assert DarkerAt(g, g', o);
    }
  }

  // ----- closing an upvalue ------------------------------------------------------------------------

  // The topmost open upvalue of `t` with its value copied in, off the lists of open upvalues.
  function ClosedTop(g: G, t: Id): G
    requires OpenAt(g, t, 0)
  {
    var u := OpenList(g, t)[0];
    var g1 := UnlinkOpen(g, t, 0);
    g1.(heap := g1.heap[u := g1.heap[u].(body := Closed(SlotValue(g, t, g.heap[u].body.slot)))])
  }

  lemma ClosedTopUnlinked(g: G, t: Id)
    requires OpenAt(g, t, 0)
    ensures var g', u := ClosedTop(g, t), OpenList(g, t)[0];
            && Unlinked(g, g', t, 0) && u in g'.heap && g'.heap.Keys == g.heap.Keys
            && (forall o :: o in g.heap ==> g'.heap[o].mark == g.heap[o].mark)
            && g' == g.(heap := g'.heap, uvhead := g'.uvhead)
            && g'.heap[u].body == Closed(SlotValue(g, t, g.heap[u].body.slot))
            && OpenList(g', t) == OpenList(g, t)[1..]
  {
  }

  lemma ClosedTopShape(g: G, t: Id, gone: set<Id>)
    requires ShapeBut(g, gone) && OpenAt(g, t, 0) && OpenList(g, t)[0] !in gone
    ensures ShapeBut(LinkFront(ClosedTop(g, t), OpenList(g, t)[0]), gone)
  {
    hide ThreadsOk, RootsOk, StringsOk, MarksOk, ClosedTop, Unlinked;
    var g1, u := ClosedTop(g, t), OpenList(g, t)[0];
    ClosedTopUnlinked(g, t);
    UnlinkedThreads(g, g1, t, 0);
    UnlinkedStrings(g, g1, t, 0);
    var g2 := LinkFront(g1, u);
    assert MarksOk(g1) && RootsOk(g2, gone) by { ClosedTopRoots(g, g1, t, gone); }
    assert SameBodies(g1, g2);
    ThreadsOkSame(g1, g2);
    StringsOkSame(g1, g2);
    assert MarksOk(g2) by { MarksOkSame(g1, g2); }
  }

  lemma MarksOkSame(g: G, g': G)
    requires MarksOk(g) && g'.heap == g.heap && g'.main == g.main
    ensures MarksOk(g')
  {
  }

  lemma ClosedTopRoots(g: G, g1: G, t: Id, gone: set<Id>)
    requires RootsOk(g, gone) && MarksOk(g) && OpenAt(g, t, 0) && Unlinked(g, g1, t, 0) && g1.heap.Keys == g.heap.Keys
    requires (forall o :: o in g.heap ==> g1.heap[o].mark == g.heap[o].mark)
             && g1 == g.(heap := g1.heap, uvhead := g1.uvhead)
    requires OpenList(g, t)[0] !in gone
    ensures MarksOk(g1) && RootsOk(LinkFront(g1, OpenList(g, t)[0]), gone)
  {
    var u := OpenList(g, t)[0];
    DistinctFront(u, g.rootgc);
    var g2 := LinkFront(g1, u);
    forall o ensures o in g2.rootgc <==> o in g2.heap && Rooted(g2.heap[o].body) && o !in gone {
      if o in g.heap && o != u && o != t { assert g2.heap[o].body == g.heap[o].body; }
    }
  }

  // Closing the topmost upvalue of a swept thread.
  lemma CloseCleanTop(g: G, t: Id, gone: set<Id>)
    requires ShapeBut(g, gone) && OpenAt(g, t, 0) && OpenClean(g, t, |OpenList(g, t)|) && OpenList(g, t)[0] !in gone
    ensures var g', u := CloseTop(g, t), OpenList(g, t)[0];
            && g' == LinkFront(ClosedTop(g, t), u)
            && ShapeBut(g', gone) && Sweeps(g, g') && IsThread(g', t) && g'.heap[t].mark == g.heap[t].mark
            && OpenList(g', t) == OpenList(g, t)[1..] && OpenClean(g', t, |OpenList(g', t)|)
            && CurWhite(g', u) && OpenList(g', u) == []
  {
    hide ShapeBut, ClosedTop, LinkFront, CloseTop, Unlinked;
    var g', u := CloseTop(g, t), OpenList(g, t)[0];
    assert CurWhite(g, u);
    TopThread(g, t, gone);
    ClosedTopShape(g, t, gone);
    CloseTopClean(g, t);
    ClosedTopSweeps(g, t);
    ClosedTopKeeps(g, t);
    forall j | 0 <= j < |OpenList(g', t)| ensures CurWhite(g', OpenList(g', t)[j]) {
      assert CurWhite(g, OpenList(g, t)[j + 1]);
    }
  }

  lemma TopThread(g: G, t: Id, gone: set<Id>)
    requires ShapeBut(g, gone) && OpenAt(g, t, 0)
    ensures g.heap[OpenList(g, t)[0]].body.thread == t
  {
    assert OpenListOk(g, t) && OpenList(g, t)[0] in OpenList(g, t);
  }

  // A white upvalue is closed without a barrier.
  lemma CloseTopClean(g: G, t: Id)
    requires OpenAt(g, t, 0) && CurWhite(g, OpenList(g, t)[0])
    ensures CloseTop(g, t) == LinkFront(ClosedTop(g, t), OpenList(g, t)[0])
  {
  }

  lemma ClosedTopKeeps(g: G, t: Id)
    requires OpenAt(g, t, 0) && g.heap[OpenList(g, t)[0]].body.thread == t
    ensures var g', u := LinkFront(ClosedTop(g, t), OpenList(g, t)[0]), OpenList(g, t)[0];
            && IsThread(g', t) && g'.heap[t].mark == g.heap[t].mark && OpenList(g', t) == OpenList(g, t)[1..]
            && OpenList(g', u) == [] && g'.second == g.second
            && forall o :: CurWhite(g, o) ==> CurWhite(g', o)
  {
  }

  lemma ClosedTopSweeps(g: G, t: Id)
    requires OpenAt(g, t, 0) && g.heap[OpenList(g, t)[0]].body.thread == t
    ensures Sweeps(g, LinkFront(ClosedTop(g, t), OpenList(g, t)[0]))
  {
    var g1, u := ClosedTop(g, t), OpenList(g, t)[0];
    ClosedTopUnlinked(g, t);
    var g2 := LinkFront(g1, u);
    forall p ensures SweepsAt(g, g2, p) {
      if p in g.heap && p != u {
        match g.heap[p].body
        case Open(th, slot) => assert SlotValue(g2, th, slot) == SlotValue(g, th, slot);
        case _ =>
      }
    }
  }

  // ----- freeing a thread -----------------------------------------------------------------------------

  ghost predicate CleanRoot(g: G, o: Id) {
    CurWhite(g, o) && forall u :: u in OpenList(g, o) ==> CurWhite(g, u)
  }

  function Shifted(k: nat, n: nat): nat { if k == 0 then 0 else k + n }

  // From `g` to `g'` upvalues were closed and put in front of the list of all objects.
  ghost predicate ClosesMore(g: G, g': G, t: Id, gone: set<Id>, pre: seq<Id>) {
    && ShapeBut(g', gone) && Sweeps(g, g') && IsThread(g', t) && IsThread(g, t) && g'.heap[t].mark == g.heap[t].mark
    && g'.rootgc == pre + g.rootgc && g'.sweepgc == Shifted(g.sweepgc, |pre|)
    && g'.strt == g.strt && g'.sweepstrgc == g.sweepstrgc && g'.nuse == g.nuse
    && forall u :: u in pre ==> CleanRoot(g', u)
  }

  lemma ClosesMoreTrans(g: G, g1: G, g2: G, t: Id, gone: set<Id>, u: Id, pre: seq<Id>)
    requires ClosesMore(g, g1, t, gone, [u]) && ClosesMore(g1, g2, t, gone, pre) && u in g2.heap
    ensures ClosesMore(g, g2, t, gone, pre + [u])
  {
    hide Sweeps, ShapeBut, CleanRoot;
    SweepsTrans(g, g1, g2);
    assert pre + ([u] + g.rootgc) == pre + [u] + g.rootgc;
    CleanStays(g1, g2, u);
  }

  lemma CleanStays(g: G, g': G, o: Id)
    requires Sweeps(g, g') && CleanRoot(g, o)
    ensures CleanRoot(g', o)
  {
    assert SweepsAt(g, g', o);
    forall u | u in OpenList(g', o) ensures CurWhite(g', u) {
      assert SweepsAt(g, g', u) && u in OpenList(g, o);
    }
  }

  lemma CloseCleanStep(g: G, t: Id, gone: set<Id>)
    requires ShapeBut(g, gone) && OpenAt(g, t, 0) && OpenClean(g, t, |OpenList(g, t)|) && OpenList(g, t)[0] !in gone
    ensures ClosesMore(g, CloseTop(g, t), t, gone, [OpenList(g, t)[0]])
    ensures OpenClean(CloseTop(g, t), t, |OpenList(CloseTop(g, t), t)|)
            && OpenList(CloseTop(g, t), t) == OpenList(g, t)[1..]
  {
    hide ShapeBut, Sweeps, OpenClean, CurWhite, CloseTop, OpenList;
    var u := OpenList(g, t)[0];
    CloseCleanTop(g, t, gone);
    CloseTopLists(g, t);
  }

  lemma CloseTopLists(g: G, t: Id)
    requires OpenAt(g, t, 0)
    ensures var g' := LinkFront(ClosedTop(g, t), OpenList(g, t)[0]);
            && g'.rootgc == [OpenList(g, t)[0]] + g.rootgc && g'.sweepgc == Shifted(g.sweepgc, 1)
            && g'.strt == g.strt && g'.sweepstrgc == g.sweepstrgc && g'.nuse == g.nuse
  {
  }

  lemma CloseUpvalsStep(g: G, t: Id)
    requires IsThread(g, t) && (OpenList(g, t) != [] ==> OpenAt(g, t, 0))
    ensures CloseUpvals(g, t, 0) == if OpenList(g, t) == [] then g else CloseUpvals(CloseTop(g, t), t, 0)
  {
    if OpenList(g, t) != [] { assert TopAbove(g, t, 0); }
  }

  lemma {:induction false} CloseAllClean(g: G, t: Id, gone: set<Id>) returns (pre: seq<Id>)
    requires ShapeBut(g, gone) && IsThread(g, t) && OpenClean(g, t, |OpenList(g, t)|) && gone <= {t}
    ensures ClosesMore(g, CloseUpvals(g, t, 0), t, gone, pre) && OpenList(CloseUpvals(g, t, 0), t) == []
    decreases |OpenList(g, t)|
  {
    hide ShapeBut, CloseTop, CloseUpvals, CurWhite, OpenClean, Sweeps, CleanRoot;
    OpenListDistinctBut(g, t, gone);
    CloseUpvalsStep(g, t);
    var us := OpenList(g, t);
    if us == [] {
      pre := [];
      SweepsSelf(g);
      assert [] + g.rootgc == g.rootgc;
    } else {
      var g1, g' := CloseTop(g, t), CloseUpvals(g, t, 0);
      CloseCleanStep(g, t, gone);
      pre := CloseAllClean(g1, t, gone);
      assert us[0] in g'.heap by { CleanIn(g1, g', us[0]); }
      ClosesMoreTrans(g, g1, g', t, gone, us[0], pre);
      pre := pre + [us[0]];
    }
  }

  lemma CleanIn(g: G, g': G, o: Id)
    requires CleanRoot(g, o) && Sweeps(g, g')
    ensures o in g'.heap
  {
    CleanStays(g, g', o);
  }

  // Taking a dead object without open upvalues out of the heap.
  lemma DroppedSweeps(g: G, o: Id)
    requires Dead(g, o) && !Fixed(g, o) && ThreadsOk(g) && OpenList(g, o) == []
             && (o in g.heap ==> !g.heap[o].body.Open?)
    ensures Sweeps(g, Dropped(g, o))
  {
    var g' := Dropped(g, o);
    forall p ensures SweepsAt(g, g', p) {
      if p in g.heap && p != o {
        match g.heap[p].body
        case Open(th, slot) =>
          assert th != o;
          assert SlotValue(g', th, slot) == SlotValue(g, th, slot);
        case _ =>
      }
    }
  }

  lemma DroppedThreads(g: G, o: Id)
    requires ThreadsOk(g) && OpenList(g, o) == [] && (o in g.heap ==> !g.heap[o].body.Open?) && o != g.main
             && o != g.running
    ensures ThreadsOk(Dropped(g, o))
  {
    var g' := Dropped(g, o);
    assert forall p :: p in g'.heap <==> p in g.heap && p != o;
    forall t {:trigger IsThread(g', t)} | IsThread(g', t) ensures OpenListOk(g', t) {
      assert IsThread(g, t);
      assert OpenListOk(g, t);
      forall u | u in g.heap[t].body.openupval ensures u in g'.heap && g'.heap[u] == g.heap[u] {}
    }
    forall u | u in g'.heap && g'.heap[u].body.Open?
      ensures IsThread(g', g'.heap[u].body.thread) && u in g'.heap[g'.heap[u].body.thread].body.openupval
    {
      assert IsThread(g, g.heap[u].body.thread) && u in OpenList(g, g.heap[u].body.thread);
    }
  }

  lemma DroppedRooted(g: G, o: Id)
    requires ShapeBut(g, {o}) && o in g.heap && Rooted(g.heap[o].body) && OpenList(g, o) == [] && o != g.main
             && o != g.running
    ensures Shape(Dropped(g, o))
  {
    var g' := Dropped(g, o);
    DroppedThreads(g, o);
    assert forall p :: p in g'.heap <==> p in g.heap && p != o;
    assert RootsOk(g', {});
    assert MarksOk(g');
    DroppedStrings(g, o);
  }

  lemma DroppedStrings(g: G, o: Id)
    requires StringsOk(g) && o in g.heap && !g.heap[o].body.Str?
    ensures StringsOk(Dropped(g, o))
  {
  }
}

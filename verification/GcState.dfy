// The collector's state: objects and what they refer to, the lists they are on,
// and what keeps all of it consistent.

module GcState {
  import opened GcColours

  type Id = nat

  type Text = seq<bv8>

  // Values that are not collectable are all `Nil`.
  datatype Value = Nil | Ref(id: Id)

  datatype NodeKind = UserData | Table | Function | Prototype

  datatype Body =
    | Str(text: Text)
    | Node(kind: NodeKind, refs: seq<Id>)      // what it refers to, in the order it is traversed
    | Closed(value: Value)                      // an upvalue that holds its own value
    | Open(thread: Id, slot: nat)               // an upvalue whose value lives in a stack
    | Thread(globals: Value, stack: seq<Value>, openupval: seq<Id>)

  datatype Obj = Obj(mark: Mark, body: Body)

  datatype Phase = Pause | Propagate | SweepString | Sweep | Finalize

  datatype G = G(
    heap: map<Id, Obj>,
    next: Id,                  // identifiers from here on are unused
    main: Id,
    running: Id,
    registry: Value,
    mt: seq<Value>,            // metatables of the basic types
    second: bool,              // which of the two whites is current
    phase: Phase,
    gray: seq<Id>,
    grayagain: seq<Id>,
    rootgc: seq<Id>,           // all objects but strings and open upvalues
    sweepgc: nat,              // how many of them the sweeper has passed
    strt: seq<seq<Id>>,        // the string table, by bucket
    nuse: nat,                 // number of strings in it
    sweepstrgc: nat,           // how many buckets the sweeper has passed
    uvhead: seq<Id>)           // all open upvalues

  // ----- the hash of a string ---------------------------------------------------

  function HashFrom(text: Text, h: bv32, l1: nat, step: nat): bv32
    requires l1 <= |text| && 0 < step
    decreases l1
  {
    if l1 >= step then HashFrom(text, h ^ ((h << 5) + (h >> 2) + (text[l1 - 1] as bv32)), l1 - step, step) else h
  }

  // Long strings are sampled.
  function Hash(text: Text): nat {
    HashFrom(text, (|text| % 0x1_0000_0000) as bv32, |text|, |text| / 32 + 1) as nat
  }

  function Bucket(text: Text, size: nat): (b: nat)
    requires size > 0
    ensures b < size
  {
    Hash(text) % size
  }

  // ----- colours ------------------------------------------------------------------

  predicate White(g: G, o: Id) { o in g.heap && IsWhite(g.heap[o].mark) }

  predicate Gray(g: G, o: Id) { o in g.heap && IsGray(g.heap[o].mark) }

  predicate Black(g: G, o: Id) { o in g.heap && g.heap[o].mark.black }

  predicate Dead(g: G, o: Id) { o in g.heap && HasDeadWhite(g.second, g.heap[o].mark) }

  predicate Fixed(g: G, o: Id) { o in g.heap && g.heap[o].mark.fixed }

  // In the heap and not in the other white.
  predicate Live(g: G, o: Id) { o in g.heap && !HasDeadWhite(g.second, g.heap[o].mark) }

  predicate CurWhite(g: G, o: Id) {
    o in g.heap && g.heap[o].mark.white0 == !g.second && g.heap[o].mark.white1 == g.second && !g.heap[o].mark.black
  }

  // One colour only.
  predicate ColourOk(m: Mark) {
    !(m.white0 && m.white1) && (m.black ==> !IsWhite(m))
  }

  // ----- references -----------------------------------------------------------------

  function Ids(v: Value): set<Id> { if v.Ref? then {v.id} else {} }

  function AllIds(vs: seq<Value>): set<Id> { set v | v in vs && v.Ref? :: v.id }

  function SlotValue(g: G, th: Id, slot: nat): Value {
    if th in g.heap && g.heap[th].body.Thread? && slot < |g.heap[th].body.stack| then g.heap[th].body.stack[slot]
    else Nil
  }

  function BodyChildren(g: G, b: Body): set<Id> {
    match b
    case Str(_) => {}
    case Node(_, refs) => set r | r in refs
    case Closed(v) => Ids(v)
    case Open(th, slot) => Ids(SlotValue(g, th, slot))
    case Thread(globals, stack, _) => Ids(globals) + AllIds(stack)
  }

  // What an object refers to.
  function Children(g: G, o: Id): set<Id> {
    if o in g.heap then BodyChildren(g, g.heap[o].body) else {}
  }

  // What the program can name directly.
  function Roots(g: G): set<Id> {
    {g.main, g.running} + Ids(g.registry) + AllIds(g.mt)
  }

  ghost predicate ReachIn(g: G, o: Id, n: nat)
    decreases n
  {
    o in Roots(g) || (n > 0 && exists p :: ReachIn(g, p, n - 1) && o in Children(g, p))
  }

  ghost predicate Reachable(g: G, o: Id) { exists n: nat :: ReachIn(g, o, n) }

  // ----- kinds ------------------------------------------------------------------------

  predicate IsUpval(b: Body) { b.Closed? || b.Open? }

  predicate IsTable(b: Body) { b.Node? && b.kind.Table? }

  predicate IsUserData(b: Body) { b.Node? && b.kind.UserData? }

  // Objects that wait on a gray list until they are traversed.
  predicate Listed(b: Body) { b.Thread? || (b.Node? && !b.kind.UserData?) }

  // Objects on the list of all objects.
  predicate Rooted(b: Body) { b.Node? || b.Closed? || b.Thread? }

  // Userdata refer to tables, stacks and upvalues hold no upvalues.
  predicate Suits(b: Body, child: Body) {
    match b
    case Node(kind, _) => kind.UserData? ==> IsTable(child)
    case _ => !IsUpval(child)
  }

  // ----- consistency ---------------------------------------------------------------------

  predicate Distinct<T(==)>(s: seq<T>) { forall i, j :: 0 <= i < j < |s| ==> s[i] != s[j] }

  predicate IsThread(g: G, t: Id) { t in g.heap && g.heap[t].body.Thread? }

  // The open upvalues of a thread, from the top of its stack down.
  predicate OpenListOk(g: G, t: Id)
    requires IsThread(g, t)
  {
    var th := g.heap[t].body;
    && (forall u :: u in th.openupval ==> u in g.heap && g.heap[u].body.Open? && g.heap[u].body.thread == t
                                           && g.heap[u].body.slot < |th.stack|)
    && forall i, j :: 0 <= i < j < |th.openupval| ==>
         g.heap[th.openupval[j]].body.slot < g.heap[th.openupval[i]].body.slot
  }

  ghost predicate ThreadsOk(g: G) {
    && (forall t {:trigger IsThread(g, t)} :: IsThread(g, t) ==> OpenListOk(g, t))
    && (forall u :: u in g.heap && g.heap[u].body.Open? ==>
          IsThread(g, g.heap[u].body.thread) && u in g.heap[g.heap[u].body.thread].body.openupval)
    && Distinct(g.uvhead)
    && (forall u :: u in g.uvhead <==> u in g.heap && g.heap[u].body.Open?)
    && IsThread(g, g.main) && IsThread(g, g.running)
  }

  // `gone` has been unlinked and is about to be freed.
  ghost predicate RootsOk(g: G, gone: set<Id>) {
    && Distinct(g.rootgc)
    && (forall o :: o in g.rootgc <==> o in g.heap && Rooted(g.heap[o].body) && o !in gone)
    && g.sweepgc <= |g.rootgc|
    && forall o :: o in g.heap ==> o < g.next
  }

  // The number of strings in a table.
  function Total(strt: seq<seq<Id>>): nat { if strt == [] then 0 else |strt[0]| + Total(strt[1..]) }

  lemma {:induction false} TotalChanged(strt: seq<seq<Id>>, b: nat, s: seq<Id>)
    requires b < |strt|
    ensures Total(strt[b := s]) == Total(strt) - |strt[b]| + |s|
  {
    if b > 0 {
      assert strt[b := s][1..] == strt[1..][b - 1 := s];
      TotalChanged(strt[1..], b - 1, s);
    } else {
      assert strt[0 := s][1..] == strt[1..];
    }
  }

  ghost predicate StringsOk(g: G) {
    && 0 < |g.strt| && g.nuse == Total(g.strt)
    && (forall b, i :: 0 <= b < |g.strt| && 0 <= i < |g.strt[b]| ==>
          g.strt[b][i] in g.heap && g.heap[g.strt[b][i]].body.Str?
            && Bucket(g.heap[g.strt[b][i]].body.text, |g.strt|) == b)
    && (forall o :: o in g.heap && g.heap[o].body.Str? ==> o in g.strt[Bucket(g.heap[o].body.text, |g.strt|)])
    && (forall b :: 0 <= b < |g.strt| ==> Distinct(g.strt[b]))
    && forall o, p :: o in g.heap && p in g.heap && g.heap[o].body.Str? && g.heap[o].body == g.heap[p].body ==> o == p
  }

  ghost predicate MarksOk(g: G) {
    && (forall o :: o in g.heap ==> ColourOk(g.heap[o].mark))
    && (forall o :: o in g.heap && g.heap[o].mark.black ==> g.heap[o].body.Node? || g.heap[o].body.Closed?)
    && forall o :: o in g.heap && g.heap[o].mark.fixed ==> g.heap[o].body.Str? || o == g.main
  }

  // The lists and tables agree with the heap.
  ghost predicate Shape(g: G) { ThreadsOk(g) && RootsOk(g, {}) && StringsOk(g) && MarksOk(g) }

  // A live object refers only to live objects, of the kinds it may refer to.
  ghost predicate ChildrenLive(g: G, o: Id) {
    forall c :: c in Children(g, o) ==> o in g.heap && Live(g, c) && Suits(g.heap[o].body, g.heap[c].body)
  }

  ghost predicate RootsLive(g: G) {
    && Live(g, g.main) && Live(g, g.running)
    && (forall c :: c in Ids(g.registry) + AllIds(g.mt) ==> Live(g, c) && !IsUpval(g.heap[c].body))
  }

  ghost predicate NoDangling(g: G) {
    && RootsLive(g)
    && forall o :: Live(g, o) ==> ChildrenLive(g, o)
  }

  // ----- what follows ------------------------------------------------------------------------

  lemma {:induction false} ReachInLive(g: G, o: Id, n: nat)
    requires NoDangling(g) && ReachIn(g, o, n)
    ensures Live(g, o)
    decreases n
  {
    if o !in Roots(g) {
      var p :| ReachIn(g, p, n - 1) && o in Children(g, p);
      ReachInLive(g, p, n - 1);
      assert ChildrenLive(g, p);
    }
  }

  // Whatever the program can get at is in the heap, and not dead.
  lemma ReachableLive(g: G, o: Id)
    requires NoDangling(g) && Reachable(g, o)
    ensures Live(g, o)
  {
    var n: nat :| ReachIn(g, o, n);
    ReachInLive(g, o, n);
  }

  lemma RootReachable(g: G, o: Id)
    requires o in Roots(g)
    ensures Reachable(g, o)
  {
    assert ReachIn(g, o, 0);
  }

  lemma ChildReachable(g: G, o: Id, c: Id)
    requires Reachable(g, o) && c in Children(g, o)
    ensures Reachable(g, c)
  {
    var n: nat :| ReachIn(g, o, n);
    assert ReachIn(g, c, n + 1);
  }

  // A set that holds the roots and is closed under references holds all that is reachable.
  lemma {:induction false} ReachInWithin(g: G, s: iset<Id>, o: Id, n: nat)
    requires (forall r :: r in Roots(g) ==> r in s) && (forall p, c :: p in s && c in Children(g, p) ==> c in s)
    requires ReachIn(g, o, n)
    ensures o in s
    decreases n
  {
    if o !in Roots(g) {
      var p :| ReachIn(g, p, n - 1) && o in Children(g, p);
      ReachInWithin(g, s, p, n - 1);
    }
  }

  // ----- consistency only depends on bodies and lists ------------------------------------------

  ghost predicate SameBodies(g: G, g': G) {
    g'.heap.Keys == g.heap.Keys && forall o :: o in g.heap ==> g'.heap[o].body == g.heap[o].body
  }

  lemma ThreadsOkSame(g: G, g': G)
    requires ThreadsOk(g) && SameBodies(g, g') && g'.uvhead == g.uvhead && g'.main == g.main && g'.running == g.running
    ensures ThreadsOk(g')
  {
    forall t {:trigger IsThread(g', t)} | IsThread(g', t) ensures OpenListOk(g', t) {
      assert IsThread(g, t) && OpenListOk(g, t);
    }
    forall u | u in g'.heap && g'.heap[u].body.Open?
      ensures IsThread(g', g'.heap[u].body.thread) && u in g'.heap[g'.heap[u].body.thread].body.openupval
    {
      assert g'.heap[u].body == g.heap[u].body && IsThread(g, g.heap[u].body.thread);
    }
  }

  lemma RootsOkSame(g: G, g': G, gone: set<Id>)
    requires RootsOk(g, gone) && SameBodies(g, g') && g'.rootgc == g.rootgc && g'.sweepgc <= |g.rootgc|
             && g'.next == g.next
    ensures RootsOk(g', gone)
  {
  }

  lemma StringsOkSame(g: G, g': G)
    requires StringsOk(g) && SameBodies(g, g') && g'.strt == g.strt && g'.nuse == g.nuse
    ensures StringsOk(g')
  {
  }
}

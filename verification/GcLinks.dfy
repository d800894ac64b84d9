// Lists as the collector keeps them: a pointer to the first object and a link in each.

module GcLinks {
  import opened GcState
  import GcSweep

  datatype Ptr = Null | To(o: Id)

  // Where a pointer into a list is kept: at its head, or in an object of the list.
  datatype Place = Head | Behind(o: Id)

  type Links = map<Id, Ptr>

  // From `p` on the list is `s`.
  predicate Chain(link: Links, p: Ptr, s: seq<Id>)
    decreases |s|
  {
    if s == [] then p.Null? else p == To(s[0]) && s[0] in link && Chain(link, link[s[0]], s[1..])
  }

  function PlaceOf(s: seq<Id>, i: nat): Place
    requires i <= |s|
  {
    if i == 0 then Head else Behind(s[i - 1])
  }

  // The pointer at a place.
  function At(link: Links, p: Ptr, at: Place): Ptr {
    if at.Head? then p else if at.o in link then link[at.o] else Null
  }

  // ----- reading ------------------------------------------------------------------

  lemma {:induction false} ChainAt(link: Links, p: Ptr, s: seq<Id>, i: nat)
    requires Chain(link, p, s) && i <= |s|
    ensures var q := At(link, p, PlaceOf(s, i)); Chain(link, q, s[i..]) && q == if i < |s| then To(s[i]) else Null
    ensures i < |s| ==> s[i] in link
    decreases i
  {
    if i > 0 {
      ChainAt(link, link[s[0]], s[1..], i - 1);
      assert s[1..][i - 1..] == s[i..];
    } else {
      assert s[0..] == s;
    }
  }

  // No object is on a list twice.
  lemma {:induction false} ChainOnce(link: Links, p: Ptr, s: seq<Id>, i: nat, j: nat)
    requires Chain(link, p, s) && i < j < |s|
    ensures s[i] != s[j]
  {
    ChainAt(link, p, s, i);
    ChainAt(link, p, s, j);
    if s[i] == s[j] { SameLength(link, To(s[i]), s[i..], s[j..]); }
  }

  lemma {:induction false} SameLength(link: Links, p: Ptr, s: seq<Id>, t: seq<Id>)
    requires Chain(link, p, s) && Chain(link, p, t)
    ensures s == t
    decreases |s|
  {
    if s != [] && t != [] {
      SameLength(link, link[s[0]], s[1..], t[1..]);
      assert s == [s[0]] + s[1..] && t == [t[0]] + t[1..];
    }
  }

  // ----- writing -------------------------------------------------------------------

  // Links of objects that are not on a list do not matter to it.
  lemma {:induction false} ChainKept(link: Links, link': Links, p: Ptr, s: seq<Id>)
    requires Chain(link, p, s) && forall o :: o in s && o in link ==> o in link' && link'[o] == link[o]
    ensures Chain(link', p, s)
    decreases |s|
  {
    if s != [] {
      var o := s[0];
      assert o in s && forall x :: x in s[1..] ==> x in s;
      ChainKept(link, link', link[o], s[1..]);
    }
  }

  lemma ChainPush(link: Links, p: Ptr, s: seq<Id>, o: Id)
    requires Chain(link, p, s) && o !in s
    ensures Chain(link[o := p], To(o), [o] + s)
  {
    ChainKept(link, link[o := p], p, s);
    assert ([o] + s)[1..] == s;
  }

  // `o` behind the `i`th object.
  lemma {:induction false} ChainInsert(link: Links, p: Ptr, s: seq<Id>, i: nat, o: Id)
    requires Chain(link, p, s) && i < |s| && o !in s
    ensures s[i] in link
    ensures Chain(link[o := link[s[i]]][s[i] := To(o)], p, s[..i + 1] + [o] + s[i + 1..])
    decreases i
  {
    var x := s[0];
    ChainAt(link, p, s, i);
    var link' := link[o := link[s[i]]][s[i] := To(o)];
    var s' := s[..i + 1] + [o] + s[i + 1..];
    assert s[i] in s;
    if i == 0 {
      assert s'[1..] == [o] + s[1..];
      forall y | y in s[1..] ensures y != x { NotFirst(link, p, s, y); }
      ChainKept(link, link', link[x], s[1..]);
      assert ([o] + s[1..])[1..] == s[1..];
    } else {
      ChainInsert(link, link[x], s[1..], i - 1, o);
      assert s'[1..] == s[1..][..i] + [o] + s[1..][i..];
      ChainOnce(link, p, s, 0, i);
    }
  }

  lemma NotFirst(link: Links, p: Ptr, s: seq<Id>, y: Id)
    requires Chain(link, p, s) && s != [] && y in s[1..]
    ensures y != s[0]
  {
    var j :| 0 <= j < |s[1..]| && s[1..][j] == y;
    ChainOnce(link, p, s, 0, j + 1);
  }

  // The `i`th object unlinked: the pointer to it is made to lead past it.
  lemma {:induction false} ChainRemove(link: Links, p: Ptr, s: seq<Id>, i: nat)
    requires Chain(link, p, s) && i < |s|
    ensures s[i] in link
    ensures i == 0 ==> Chain(link, link[s[0]], GcSweep.RemoveAt(s, 0))
    ensures i > 0 ==> s[i - 1] in link && Chain(link[s[i - 1] := link[s[i]]], p, GcSweep.RemoveAt(s, i))
    decreases i
  {
    ChainAt(link, p, s, i);
    if i == 0 {
      assert GcSweep.RemoveAt(s, 0) == s[1..];
    } else {
      ChainAt(link, p, s, i - 1);
      var link' := link[s[i - 1] := link[s[i]]];
      assert GcSweep.RemoveAt(s, i)[1..] == GcSweep.RemoveAt(s[1..], i - 1);
      if i == 1 {
        assert GcSweep.RemoveAt(s, 1)[1..] == s[2..] && s[1..][1..] == s[2..];
        forall y | y in s[2..] ensures y != s[0] {
          assert y in s[1..] by { assert s[1..] == [s[1]] + s[2..]; }
          NotFirst(link, p, s, y);
        }
        ChainKept(link, link', link[s[1]], s[2..]);
      } else {
        ChainRemove(link, link[s[0]], s[1..], i - 1);
        ChainOnce(link, p, s, 0, i - 1);
      }
    }
  }

  // ----- the list of all objects and the sweeper's place in it ----------------------------

  predicate RootsLinked(link: Links, roothead: Ptr, rootgc: seq<Id>, sweepat: Place, sweepgc: nat) {
    Chain(link, roothead, rootgc) && sweepgc <= |rootgc| && sweepat == PlaceOf(rootgc, sweepgc)
  }

  // Chained strings, each in one bucket.
  predicate TableLinked(link: Links, hash: seq<Ptr>, strt: seq<seq<Id>>) {
    && |hash| == |strt| && (forall b :: 0 <= b < |strt| ==> Chain(link, hash[b], strt[b]))
    && forall b, b', o :: 0 <= b < b' < |strt| && o in strt[b] ==> o !in strt[b']
  }

  predicate InNoBucket(strt: seq<seq<Id>>, o: Id) { forall b :: 0 <= b < |strt| ==> o !in strt[b] }

  // An object has one link, so it is on one list at most.
  predicate Linked(link: Links, roothead: Ptr, rootgc: seq<Id>, sweepat: Place, sweepgc: nat, hash: seq<Ptr>,
                   strt: seq<seq<Id>>) {
    && RootsLinked(link, roothead, rootgc, sweepat, sweepgc) && TableLinked(link, hash, strt)
    && forall o :: o in rootgc ==> InNoBucket(strt, o)
  }

  lemma TableKept(link: Links, link': Links, hash: seq<Ptr>, strt: seq<seq<Id>>, o: Id)
    requires TableLinked(link, hash, strt) && InNoBucket(strt, o)
    requires forall x :: x in link && x != o ==> x in link' && link'[x] == link[x]
    ensures TableLinked(link', hash, strt)
  {
    forall b | 0 <= b < |strt| ensures Chain(link', hash[b], strt[b]) { ChainKept(link, link', hash[b], strt[b]); }
  }

  // A new first object.  The sweeper's place stays, behind the object it was behind.
  lemma PushRoot(link: Links, roothead: Ptr, rootgc: seq<Id>, sweepat: Place, sweepgc: nat, hash: seq<Ptr>,
                 strt: seq<seq<Id>>, o: Id)
    requires Linked(link, roothead, rootgc, sweepat, sweepgc, hash, strt) && o !in rootgc && InNoBucket(strt, o)
    ensures Linked(link[o := roothead], To(o), [o] + rootgc, sweepat, if sweepgc == 0 then 0 else sweepgc + 1, hash,
                   strt)
  {
    ChainPush(link, roothead, rootgc, o);
    TableKept(link, link[o := roothead], hash, strt, o);
  }

  // A new object behind the `i`th one.
  lemma InsertRoot(link: Links, roothead: Ptr, rootgc: seq<Id>, sweepat: Place, sweepgc: nat, hash: seq<Ptr>,
                   strt: seq<seq<Id>>, i: nat, o: Id)
    requires Linked(link, roothead, rootgc, sweepat, sweepgc, hash, strt) && i < |rootgc| && o !in rootgc
             && InNoBucket(strt, o)
    ensures rootgc[i] in link
    ensures Linked(link[o := link[rootgc[i]]][rootgc[i] := To(o)], roothead, rootgc[..i + 1] + [o] + rootgc[i + 1..],
                   sweepat, if sweepgc <= i + 1 then sweepgc else sweepgc + 1, hash, strt)
  {
    ChainInsert(link, roothead, rootgc, i, o);
    assert rootgc[i] in rootgc;
    TableKept(link, link[o := link[rootgc[i]]], hash, strt, o);
    TableKept(link[o := link[rootgc[i]]], link[o := link[rootgc[i]]][rootgc[i] := To(o)], hash, strt, rootgc[i]);
  }

  lemma AtSweeper(link: Links, roothead: Ptr, rootgc: seq<Id>, sweepat: Place, sweepgc: nat)
    requires RootsLinked(link, roothead, rootgc, sweepat, sweepgc)
    ensures At(link, roothead, sweepat) == if sweepgc < |rootgc| then To(rootgc[sweepgc]) else Null
    ensures sweepgc < |rootgc| ==> rootgc[sweepgc] in link && PlaceOf(rootgc, sweepgc + 1) == Behind(rootgc[sweepgc])
  {
    ChainAt(link, roothead, rootgc, sweepgc);
  }

  // The sweeper starts again.
  lemma FirstRoot(link: Links, roothead: Ptr, rootgc: seq<Id>, sweepat: Place, sweepgc: nat, hash: seq<Ptr>,
                  strt: seq<seq<Id>>)
    requires Linked(link, roothead, rootgc, sweepat, sweepgc, hash, strt)
    ensures Linked(link, roothead, rootgc, Head, 0, hash, strt)
  {
  }

  // What the fields hold.
  lemma LinkedParts(link: Links, roothead: Ptr, rootgc: seq<Id>, sweepat: Place, sweepgc: nat, hash: seq<Ptr>,
                    strt: seq<seq<Id>>)
    requires Linked(link, roothead, rootgc, sweepat, sweepgc, hash, strt)
    ensures |hash| == |strt|
    ensures At(link, roothead, sweepat) == if sweepgc < |rootgc| then To(rootgc[sweepgc]) else Null
  {
    AtSweeper(link, roothead, rootgc, sweepat, sweepgc);
  }

  // The pointer at a place of a bucket.
  lemma AtString(link: Links, roothead: Ptr, rootgc: seq<Id>, sweepat: Place, sweepgc: nat, hash: seq<Ptr>,
                 strt: seq<seq<Id>>, b: nat, i: nat)
    requires Linked(link, roothead, rootgc, sweepat, sweepgc, hash, strt) && b < |strt| && i <= |strt[b]|
    ensures |hash| == |strt|
    ensures At(link, hash[b], PlaceOf(strt[b], i)) == if i < |strt[b]| then To(strt[b][i]) else Null
    ensures i < |strt[b]| ==> strt[b][i] in link && PlaceOf(strt[b], i + 1) == Behind(strt[b][i])
  {
    ChainAt(link, hash[b], strt[b], i);
  }

  // The sweeper goes on.
  lemma NextRoot(link: Links, roothead: Ptr, rootgc: seq<Id>, sweepat: Place, sweepgc: nat, hash: seq<Ptr>,
                 strt: seq<seq<Id>>)
    requires Linked(link, roothead, rootgc, sweepat, sweepgc, hash, strt) && sweepgc < |rootgc|
    ensures Linked(link, roothead, rootgc, Behind(rootgc[sweepgc]), sweepgc + 1, hash, strt)
  {
  }

  // The pointer at a place made to lead elsewhere.
  function PutLink(link: Links, at: Place, q: Ptr): Links { if at.Head? then link else link[at.o := q] }
  function PutHead(p: Ptr, at: Place, q: Ptr): Ptr { if at.Head? then q else p }

  // The object the sweeper is at unlinked.
  lemma RemoveRoot(link: Links, roothead: Ptr, rootgc: seq<Id>, sweepat: Place, sweepgc: nat, hash: seq<Ptr>,
                   strt: seq<seq<Id>>)
    requires Linked(link, roothead, rootgc, sweepat, sweepgc, hash, strt) && sweepgc < |rootgc|
    ensures rootgc[sweepgc] in link
    ensures var q := link[rootgc[sweepgc]];
            Linked(PutLink(link, sweepat, q), PutHead(roothead, sweepat, q), GcSweep.RemoveAt(rootgc, sweepgc), sweepat,
                   sweepgc, hash, strt)
  {
    ChainRemove(link, roothead, rootgc, sweepgc);
    var q := link[rootgc[sweepgc]];
    if sweepgc > 0 {
      assert rootgc[sweepgc - 1] in rootgc;
      TableKept(link, PutLink(link, sweepat, q), hash, strt, rootgc[sweepgc - 1]);
    }
  }

  // ----- the gray lists, which share a link of their own --------------------------------------

  predicate GrayLinked(gclist: Links, grayhead: Ptr, gray: seq<Id>, againhead: Ptr, grayagain: seq<Id>) {
    Chain(gclist, grayhead, gray) && Chain(gclist, againhead, grayagain) && forall o :: o in gray ==> o !in grayagain
  }

  lemma GrayFirst(gclist: Links, grayhead: Ptr, gray: seq<Id>, againhead: Ptr, grayagain: seq<Id>)
    requires GrayLinked(gclist, grayhead, gray, againhead, grayagain)
    ensures grayhead == if gray == [] then Null else To(gray[0])
  {
  }

  lemma NoGray(gclist: Links)
    ensures GrayLinked(gclist, Null, [], Null, [])
  {
  }

  lemma TurnGray(gclist: Links, grayhead: Ptr, againhead: Ptr, grayagain: seq<Id>)
    requires GrayLinked(gclist, grayhead, [], againhead, grayagain)
    ensures GrayLinked(gclist, againhead, grayagain, Null, [])
  {
  }

  // A new first gray object.
  lemma PushGray(gclist: Links, grayhead: Ptr, gray: seq<Id>, againhead: Ptr, grayagain: seq<Id>, o: Id)
    requires GrayLinked(gclist, grayhead, gray, againhead, grayagain) && o !in gray && o !in grayagain
    ensures GrayLinked(gclist[o := grayhead], To(o), [o] + gray, againhead, grayagain)
    ensures GrayLinked(gclist[o := againhead], grayhead, gray, To(o), [o] + grayagain)
  {
    ChainPush(gclist, grayhead, gray, o);
    ChainKept(gclist, gclist[o := grayhead], againhead, grayagain);
    ChainPush(gclist, againhead, grayagain, o);
    ChainKept(gclist, gclist[o := againhead], grayhead, gray);
  }

  // The first gray object taken off its list.
  lemma TakeGray(gclist: Links, grayhead: Ptr, gray: seq<Id>, againhead: Ptr, grayagain: seq<Id>)
    requires GrayLinked(gclist, grayhead, gray, againhead, grayagain) && gray != []
    ensures grayhead == To(gray[0]) && gray[0] in gclist && gray[0] !in gray[1..] && gray[0] !in grayagain
    ensures GrayLinked(gclist, gclist[gray[0]], gray[1..], againhead, grayagain)
  {
    var o := gray[0];
    assert o in gray;
    forall y | y in gray[1..] ensures y != o { NotFirst(gclist, grayhead, gray, y); }
  }

  // ----- the string table ------------------------------------------------------------------

  lemma RootsKept(link: Links, link': Links, roothead: Ptr, rootgc: seq<Id>, sweepat: Place, sweepgc: nat, o: Id)
    requires RootsLinked(link, roothead, rootgc, sweepat, sweepgc) && o !in rootgc
    requires forall x :: x in link && x != o ==> x in link' && link'[x] == link[x]
    ensures RootsLinked(link', roothead, rootgc, sweepat, sweepgc)
  {
    ChainKept(link, link', roothead, rootgc);
  }

  // A string at the head of a chain.
  lemma PushString(link: Links, hash: seq<Ptr>, strt: seq<seq<Id>>, b: nat, o: Id)
    requires TableLinked(link, hash, strt) && b < |strt| && InNoBucket(strt, o)
    ensures TableLinked(link[o := hash[b]], hash[b := To(o)], strt[b := [o] + strt[b]])
  {
    var link', strt' := link[o := hash[b]], strt[b := [o] + strt[b]];
    ChainPush(link, hash[b], strt[b], o);
    forall b' | 0 <= b' < |strt| && b' != b ensures Chain(link', hash[b'], strt[b']) {
      ChainKept(link, link', hash[b'], strt[b']);
    }
  }

  // A string unlinked from its chain.
  lemma RemoveString(link: Links, hash: seq<Ptr>, strt: seq<seq<Id>>, b: nat, i: nat)
    requires TableLinked(link, hash, strt) && b < |strt| && i < |strt[b]|
    ensures strt[b][i] in link
    ensures var at, q := PlaceOf(strt[b], i), link[strt[b][i]];
            TableLinked(PutLink(link, at, q), hash[b := PutHead(hash[b], at, q)],
                        strt[b := GcSweep.RemoveAt(strt[b], i)])
  {
    ChainRemove(link, hash[b], strt[b], i);
    var at, q, s := PlaceOf(strt[b], i), link[strt[b][i]], GcSweep.RemoveAt(strt[b], i);
    var link' := PutLink(link, at, q);
    if i > 0 { assert strt[b][i - 1] in strt[b]; }
    forall b' | 0 <= b' < |strt| && b' != b ensures Chain(link', hash[b'], strt[b']) {
      ChainKept(link, link', hash[b'], strt[b']);
    }
    assert forall x :: x in s ==> x in strt[b];
  }

  lemma LinkString(link: Links, roothead: Ptr, rootgc: seq<Id>, sweepat: Place, sweepgc: nat, hash: seq<Ptr>,
                   strt: seq<seq<Id>>, b: nat, o: Id)
    requires Linked(link, roothead, rootgc, sweepat, sweepgc, hash, strt) && b < |strt| && o !in rootgc
             && InNoBucket(strt, o)
    ensures Linked(link[o := hash[b]], roothead, rootgc, sweepat, sweepgc, hash[b := To(o)], strt[b := [o] + strt[b]])
  {
    PushString(link, hash, strt, b, o);
    RootsKept(link, link[o := hash[b]], roothead, rootgc, sweepat, sweepgc, o);
  }

  lemma UnlinkString(link: Links, roothead: Ptr, rootgc: seq<Id>, sweepat: Place, sweepgc: nat, hash: seq<Ptr>,
                     strt: seq<seq<Id>>, b: nat, i: nat)
    requires Linked(link, roothead, rootgc, sweepat, sweepgc, hash, strt) && b < |strt| && i < |strt[b]|
    ensures strt[b][i] in link
    ensures var at, q := PlaceOf(strt[b], i), link[strt[b][i]];
            Linked(PutLink(link, at, q), roothead, rootgc, sweepat, sweepgc, hash[b := PutHead(hash[b], at, q)],
                   strt[b := GcSweep.RemoveAt(strt[b], i)])
  {
    RemoveString(link, hash, strt, b, i);
    var at, q := PlaceOf(strt[b], i), link[strt[b][i]];
    if i > 0 {
      assert strt[b][i - 1] in strt[b];
      StringNoRoot(rootgc, strt, b, strt[b][i - 1]);
      RootsKept(link, PutLink(link, at, q), roothead, rootgc, sweepat, sweepgc, strt[b][i - 1]);
    }
    assert forall x :: x in GcSweep.RemoveAt(strt[b], i) ==> x in strt[b];
  }

  // ----- rehashing: strings move from the old chains to the new ones, one by one ------------

  // The strings that have moved: those of the buckets before `i` and the first `k` of that one.
  predicate Moved(strt: seq<seq<Id>>, i: nat, k: nat, o: Id) {
    (exists j :: 0 <= j < i && j < |strt| && o in strt[j]) || (i < |strt| && k <= |strt[i]| && o in strt[i][..k])
  }

  // What holds all the time.
  predicate Moving(link: Links, roothead: Ptr, rootgc: seq<Id>, sweepat: Place, sweepgc: nat, strt: seq<seq<Id>>,
                   i: nat, k: nat, newhash: seq<Ptr>, table: seq<seq<Id>>) {
    && RootsLinked(link, roothead, rootgc, sweepat, sweepgc) && TableLinked(link, newhash, table)
    && (forall b, o :: 0 <= b < |table| && o in table[b] ==> Moved(strt, i, k, o))
    && (forall b, b', o :: 0 <= b < b' < |strt| && o in strt[b] ==> o !in strt[b'])
    && (forall b :: 0 <= b < |strt| ==> Distinct(strt[b]))
    && forall o :: o in rootgc ==> InNoBucket(strt, o)
  }

  // The old chains from bucket `i` on are still there.
  predicate Waiting(link: Links, hash: seq<Ptr>, strt: seq<seq<Id>>, i: nat) {
    |hash| == |strt| && forall b :: i <= b < |strt| ==> Chain(link, hash[b], strt[b])
  }

  lemma TableSize(link: Links, hash: seq<Ptr>, strt: seq<seq<Id>>)
    requires TableLinked(link, hash, strt)
    ensures |hash| == |strt|
  {
  }

  lemma FirstWaiting(link: Links, hash: seq<Ptr>, strt: seq<seq<Id>>, i: nat)
    requires Waiting(link, hash, strt, i) && i < |strt|
    ensures Waiting(link, hash, strt, i + 1) && Chain(link, hash[i], strt[i][0..])
    ensures hash[i] == if strt[i] == [] then Null else To(strt[i][0])
  {
    assert strt[i][0..] == strt[i];
  }

  lemma ChainHead(link: Links, p: Ptr, s: seq<Id>, k: nat)
    requires k <= |s| && Chain(link, p, s[k..])
    ensures p == if k < |s| then To(s[k]) else Null
  {
  }

  lemma StartMoving(link: Links, roothead: Ptr, rootgc: seq<Id>, sweepat: Place, sweepgc: nat, hash: seq<Ptr>,
                    strt: seq<seq<Id>>, newhash: seq<Ptr>, table: seq<seq<Id>>)
    requires Linked(link, roothead, rootgc, sweepat, sweepgc, hash, strt) && |newhash| == |table|
    requires forall b :: 0 <= b < |table| ==> newhash[b].Null? && table[b] == []
    ensures Moving(link, roothead, rootgc, sweepat, sweepgc, strt, 0, 0, newhash, table) && Waiting(link, hash, strt, 0)
  {
    forall b | 0 <= b < |strt| ensures Distinct(strt[b]) {
      forall i, j | 0 <= i < j < |strt[b]| ensures strt[b][i] != strt[b][j] { ChainOnce(link, hash[b], strt[b], i, j); }
    }
  }

  lemma MoveOne(link: Links, roothead: Ptr, rootgc: seq<Id>, sweepat: Place, sweepgc: nat, hash: seq<Ptr>,
                strt: seq<seq<Id>>, i: nat, k: nat, p: Ptr, newhash: seq<Ptr>, table: seq<seq<Id>>, h: nat)
    requires Moving(link, roothead, rootgc, sweepat, sweepgc, strt, i, k, newhash, table)
             && Waiting(link, hash, strt, i + 1)
    requires i < |strt| && k < |strt[i]| && Chain(link, p, strt[i][k..]) && h < |table|
    ensures var o := strt[i][k];
            var link' := link[o := newhash[h]];
            && p == To(o) && o in link && Chain(link', link[o], strt[i][k + 1..]) && Waiting(link', hash, strt, i + 1)
            && Moving(link', roothead, rootgc, sweepat, sweepgc, strt, i, k + 1, newhash[h := To(o)],
                      table[h := [o] + table[h]])
  {
    var o, s := strt[i][k], strt[i];
    var link', table' := link[o := newhash[h]], table[h := [o] + table[h]];
    assert o in s && s[k..][0] == o && s[k..][1..] == s[k + 1..];
    NotMoved(strt, i, k);
    forall b | 0 <= b < |table| ensures o !in table[b] {}
    PushString(link, newhash, table, h, o);
    StringNoRoot(rootgc, strt, i, o);
    RootsKept(link, link', roothead, rootgc, sweepat, sweepgc, o);
    assert o !in s[k + 1..];
    ChainKept(link, link', link[o], s[k + 1..]);
    forall b | i + 1 <= b < |strt| ensures Chain(link', hash[b], strt[b]) { ChainKept(link, link', hash[b], strt[b]); }
    forall b, x | 0 <= b < |table'| && x in table'[b] ensures Moved(strt, i, k + 1, x) {
      MovedMore(strt, i, k, table, h, b, x);
    }
  }

  lemma StringNoRoot(rootgc: seq<Id>, strt: seq<seq<Id>>, b: nat, o: Id)
    requires b < |strt| && o in strt[b] && forall x :: x in rootgc ==> InNoBucket(strt, x)
    ensures o !in rootgc
  {
  }

  lemma NotMoved(strt: seq<seq<Id>>, i: nat, k: nat)
    requires i < |strt| && k < |strt[i]| && Distinct(strt[i])
    requires forall b, b', o :: 0 <= b < b' < |strt| && o in strt[b] ==> o !in strt[b']
    ensures !Moved(strt, i, k, strt[i][k])
  {
    var o := strt[i][k];
    assert o in strt[i];
    forall j | 0 <= j < k ensures strt[i][..k][j] != o {}
  }

  lemma MovedMore(strt: seq<seq<Id>>, i: nat, k: nat, table: seq<seq<Id>>, h: nat, b: nat, x: Id)
    requires i < |strt| && k < |strt[i]| && h < |table| && b < |table| && x in table[h := [strt[i][k]] + table[h]][b]
    requires forall b, o :: 0 <= b < |table| && o in table[b] ==> Moved(strt, i, k, o)
    ensures Moved(strt, i, k + 1, x)
  {
    assert strt[i][..k + 1] == strt[i][..k] + [strt[i][k]];
    if x == strt[i][k] {
      assert strt[i][..k + 1][k] == x;
    } else {
      assert x in table[b] && Moved(strt, i, k, x);
      assert x in strt[i][..k] ==> x in strt[i][..k + 1];
    }
  }

  lemma NextBucket(link: Links, roothead: Ptr, rootgc: seq<Id>, sweepat: Place, sweepgc: nat, strt: seq<seq<Id>>,
                   i: nat, newhash: seq<Ptr>, table: seq<seq<Id>>)
    requires i < |strt| && Moving(link, roothead, rootgc, sweepat, sweepgc, strt, i, |strt[i]|, newhash, table)
    ensures Moving(link, roothead, rootgc, sweepat, sweepgc, strt, i + 1, 0, newhash, table)
  {
    forall b, o | 0 <= b < |table| && o in table[b] ensures Moved(strt, i + 1, 0, o) {
      assert Moved(strt, i, |strt[i]|, o) && strt[i][..|strt[i]|] == strt[i];
    }
  }

  lemma AllMoved(link: Links, roothead: Ptr, rootgc: seq<Id>, sweepat: Place, sweepgc: nat, strt: seq<seq<Id>>,
                 newhash: seq<Ptr>, table: seq<seq<Id>>)
    requires Moving(link, roothead, rootgc, sweepat, sweepgc, strt, |strt|, 0, newhash, table)
    ensures Linked(link, roothead, rootgc, sweepat, sweepgc, newhash, table)
  {
    forall b, o | 0 <= b < |table| && o in table[b] ensures o !in rootgc {
      assert Moved(strt, |strt|, 0, o);
      MovedNoRoot(rootgc, strt, o);
    }
  }

  lemma MovedNoRoot(rootgc: seq<Id>, strt: seq<seq<Id>>, o: Id)
    requires Moved(strt, |strt|, 0, o) && forall x :: x in rootgc ==> InNoBucket(strt, x)
    ensures o !in rootgc
  {
    var j :| 0 <= j < |strt| && o in strt[j];
    StringNoRoot(rootgc, strt, j, o);
  }
}

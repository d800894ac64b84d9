// Lists of open jumps threaded through the jump instructions themselves: each jump's offset
// leads to the next one of its list, and an offset of -1, a jump to itself, ends the list.

module LcodeThread {
  import opened LcodeVm
  import opened LcodeGen
  import opened LcodeGiven
  import opened LcodePatch
  import opened LcodeResolve
  import opened LcodeMeaning
  import opened LcodeAssign

  // An instruction as it is stored: jumps hold a signed offset from the next instruction.
  datatype Word = Jump(sBx: int) | Op(i: Instr)

  predicate IsTest(w: Word) { w.Op? && TestMode(w.i) }

  // `w` stores the code `c`; the offset of a jump that is still open is free for its list.
  predicate StoredAt(c: Code, w: seq<Word>, i: nat)
    requires i < |c| == |w|
  {
    match w[i]
    case Jump(s) => c[i].OpJmp? && (c[i].dest != NO_JUMP ==> s == c[i].dest - (i + 1))
    case Op(x) => x == c[i] && !x.OpJmp?
  }

  predicate Stored(c: Code, w: seq<Word>) {
    |c| == |w| && forall i :: 0 <= i < |w| ==> StoredAt(c, w, i)
  }

  lemma StoredSize(c: Code, w: seq<Word>)
    requires Stored(c, w)
    ensures |c| == |w|
  {
  }

  // Where the list goes on behind the jump at `pc`.
  function NextJump(w: seq<Word>, pc: int): int {
    if 0 <= pc < |w| && w[pc].Jump? && w[pc].sBx != NO_JUMP then pc + 1 + w[pc].sBx else NO_JUMP
  }

  predicate OpenAt(c: Code, w: seq<Word>, j: int) {
    0 <= j < |w| && j < |c| && w[j].Jump? && c[j] == OpJmp(NO_JUMP)
  }

  // The list that starts at `head` is `s`.
  predicate Threaded(c: Code, w: seq<Word>, head: int, s: seq<int>)
    decreases |s|
  {
    if s == [] then head == NO_JUMP
    else head == s[0] && OpenAt(c, w, head) && Threaded(c, w, NextJump(w, head), s[1..])
  }

  lemma {:induction false} ThreadedOpen(c: Code, w: seq<Word>, head: int, s: seq<int>)
    requires Threaded(c, w, head, s)
    ensures forall j :: j in s ==> OpenAt(c, w, j)
    ensures head == NO_JUMP <==> s == []
    decreases |s|
  {
    if s != [] {
      ThreadedOpen(c, w, NextJump(w, head), s[1..]);
      forall j | j in s ensures OpenAt(c, w, j) {
        if j != s[0] { assert j in s[1..]; }
      }
    }
  }

  // The jumps in `w` that are not in `but` stay as they are.
  predicate Kept(c: Code, w: seq<Word>, c': Code, w': seq<Word>, but: set<int>) {
    && |c| == |w| && |c'| == |w'|
    && forall i :: 0 <= i < |w| && w[i].Jump? && i !in but ==> i < |w'| && w'[i] == w[i] && c'[i] == c[i]
  }

  lemma {:induction false} ThreadedKept(c: Code, w: seq<Word>, c': Code, w': seq<Word>, but: set<int>, head: int,
                                        s: seq<int>)
    requires Threaded(c, w, head, s) && Kept(c, w, c', w', but) && forall j :: j in s ==> j !in but
    ensures Threaded(c', w', head, s)
    decreases |s|
  {
    if s != [] {
      assert s[0] in s;
      var j := s[0];
      assert j in s;
      assert forall k :: k in s[1..] ==> k in s;
      ThreadedKept(c, w, c', w', but, NextJump(w, head), s[1..]);
    }
  }

  // One jump in front of a list.
  lemma ThreadedPut(c: Code, w: seq<Word>, head: int, j: int, head2: int, u: seq<int>, w': seq<Word>)
    requires Threaded(c, w, head, [j]) && Threaded(c, w, head2, u) && u != [] && j !in u
    requires |c| == |w| && 0 <= j < |w| && w' == w[j := Jump(head2 - (j + 1))]
    ensures Threaded(c, w', head, [j] + u)
  {
    assert j in [j];
    assert Kept(c, w, c, w', {j});
    ThreadedKept(c, w, c, w', {j}, head2, u);
    var k := u[0];
    assert k in u;
    assert ([j] + u)[1..] == u;
  }

  // Linking the last jump of one list to the first of another joins them.
  lemma {:induction false} ThreadedConcat(c: Code, w: seq<Word>, head: int, s: seq<int>, head2: int, u: seq<int>,
                                          w': seq<Word>)
    requires Threaded(c, w, head, s) && Threaded(c, w, head2, u) && s != [] && u != []
    requires DistinctSeq(s) && Disjoint(s, u) && |c| == |w|
    requires 0 <= s[|s| - 1] < |w| && w' == w[s[|s| - 1] := Jump(head2 - (s[|s| - 1] + 1))]
    ensures Threaded(c, w', head, s + u)
    decreases |s|
  {
    var last := s[|s| - 1];
    var j := s[0];
    assert j in s;
    assert s + u == [j] + (s[1..] + u);
    if |s| == 1 {
      ThreadedPut(c, w, head, j, head2, u, w');
      assert s[1..] + u == u;
    } else {
      assert forall k :: k in s[1..] ==> k in s;
      assert s[1..][|s| - 2] == last;
      ThreadedConcat(c, w, NextJump(w, head), s[1..], head2, u, w');
    }
  }

  lemma StoredControl(c: Code, w: seq<Word>, j: int)
    requires Stored(c, w)
    ensures Control(c, j) == if 1 <= j <= |w| && IsTest(w[j - 1]) then j - 1 else j
  {
    if 1 <= j <= |w| { assert StoredAt(c, w, j - 1); }
  }

  lemma KeptTrans(c0: Code, w0: seq<Word>, b1: set<int>, c1: Code, w1: seq<Word>, b2: set<int>, c2: Code, w2: seq<Word>)
    requires Kept(c0, w0, c1, w1, b1) && Kept(c1, w1, c2, w2, b2) && forall j :: j in b2 ==> j in b1 || j >= |w0|
    ensures Kept(c0, w0, c2, w2, b1)
  {
    forall i | 0 <= i < |w0| && w0[i].Jump? && i !in b1 ensures i < |w2| && w2[i] == w0[i] && c2[i] == c0[i] {
      assert w1[i] == w0[i];
    }
  }

  // ----- the lists of an expression ------------------------------------------------------

  // The lists of `e` start at `t` and `f`; together with the jumps to here, `jpcs`, they hold
  // every jump at most once.
  predicate Holds(c: Code, w: seq<Word>, jpcs: seq<int>, e: Exp, t: int, f: int) {
    && Threaded(c, w, t, e.t) && Threaded(c, w, f, e.f) && DistinctSeq(e.t) && DistinctSeq(e.f)
    && Disjoint(e.t, e.f) && Disjoint(e.t, jpcs) && Disjoint(e.f, jpcs)
    && (e.k.VJmp? ==> Threaded(c, w, e.k.pc, [e.k.pc]) && e.k.pc !in e.t && e.k.pc !in e.f && e.k.pc !in jpcs
                      && 1 <= e.k.pc && c[e.k.pc - 1].OpComp?)
    && (e.k.VReloc? ==> 0 <= e.k.pc == |c| - 1 && c[e.k.pc].OpNot?)
  }

  // The jumps an expression holds, with those to here.
  function Mine(jpcs: seq<int>, e: Exp): set<int> {
    AsSet(jpcs) + AsSet(e.t) + AsSet(e.f) + if e.k.VJmp? then {e.k.pc} else {}
  }

  // Jumps are only taken over or new.
  predicate FreshFrom(now: set<int>, before: set<int>, n: int) { forall j :: j in now ==> j in before || j >= n }

  lemma ListsKept(c: Code, w: seq<Word>, c': Code, w': seq<Word>, but: set<int>, t: int, ts: seq<int>, f: int,
                  fls: seq<int>)
    requires Threaded(c, w, t, ts) && Threaded(c, w, f, fls) && Kept(c, w, c', w', but)
    requires forall j :: j in ts || j in fls ==> j !in but
    ensures Threaded(c', w', t, ts) && Threaded(c', w', f, fls)
  {
    ThreadedKept(c, w, c', w', but, t, ts);
    ThreadedKept(c, w, c', w', but, f, fls);
  }

  // Lists that share no jump start differently, unless both are empty.
  lemma HeadsDiffer(c: Code, w: seq<Word>, t: int, ts: seq<int>, f: int, fls: seq<int>)
    requires Threaded(c, w, t, ts) && Threaded(c, w, f, fls) && Disjoint(ts, fls)
    ensures t == f <==> ts == fls
  {
    if ts != [] {
      var j := ts[0];
      assert j in ts;
      if fls != [] {
        var k := fls[0];
        assert k in fls;
      }
    }
  }

  // ----- patching one jump of a list -------------------------------------------------------

  lemma NodePatched(c: Code, w: seq<Word>, s: seq<int>, c1: Code, w1: seq<Word>, d: int)
    requires s != [] && Stored(c, w) && Threaded(c, w, s[0], s) && DistinctSeq(s)
    requires Stored(c1, w1) && Kept(c, w, c1, w1, {}) && |w1| == |w| && d != NO_JUMP && 0 <= s[0] < |w|
    ensures var c2, w2 := c1[s[0] := OpJmp(d)], w1[s[0] := Jump(d - (s[0] + 1))];
            Stored(c2, w2) && Kept(c, w, c2, w2, {s[0]}) && Threaded(c2, w2, NextJump(w, s[0]), s[1..])
  {
    var j := s[0];
    var c2, w2 := c1[j := OpJmp(d)], w1[j := Jump(d - (j + 1))];
    forall i | 0 <= i < |w2| ensures StoredAt(c2, w2, i) { assert StoredAt(c1, w1, i); }
    assert OpenAt(c, w, j);
    assert DistinctSeq(s[1..]) && forall k :: k in s[1..] ==> k != j;
    ThreadedKept(c, w, c2, w2, {j}, NextJump(w, j), s[1..]);
  }

  // Patching one jump decides for no other whether it brings a value.
  lemma NeedValueStays(c: Code, s: seq<int>, vtarget: int, reg: int, dtarget: int)
    requires s != [] && OpenList(c, s) && !NeedValue(c, s)
    ensures !NeedValue(PatchOne(c, s[0], vtarget, reg, dtarget), s[1..])
  {
    var j := s[0];
    assert j in s;
    forall k | k in s[1..] ensures HasTestSet(PatchOne(c, j, vtarget, reg, dtarget), k) {
      assert k in s && HasTestSet(c, k);
      TestSetStays(c, j, k, vtarget, reg, dtarget);
    }
  }

  lemma ThreadedList(c: Code, w: seq<Word>, head: int, s: seq<int>)
    requires Threaded(c, w, head, s) && DistinctSeq(s)
    ensures OpenList(c, s)
  {
    ThreadedOpen(c, w, head, s);
  }

  lemma DistinctAppend(s: seq<int>, u: seq<int>)
    requires DistinctSeq(s) && DistinctSeq(u) && Disjoint(s, u)
    ensures DistinctSeq(s + u)
  {
    var v := s + u;
    forall a, b | 0 <= a < b < |v| ensures v[a] != v[b] {
      if a < |s| <= b {
        var k := s[a];
        assert k in s && u[b - |s|] in u;
      }
    }
  }

  // An expression whose jumps are not touched keeps its lists.
  lemma HoldsKept(c: Code, w: seq<Word>, jpcs: seq<int>, e: Exp, t: int, f: int, c': Code, w': seq<Word>, but: set<int>,
                  jpcs': seq<int>, k': Kind)
    requires Holds(c, w, jpcs, e, t, f) && Kept(c, w, c', w', but)
    requires forall j :: j in e.t || j in e.f ==> j !in but && j !in jpcs'
    requires !k'.VJmp? && (k'.VReloc? ==> 0 <= k'.pc == |c'| - 1 && c'[k'.pc].OpNot?)
    ensures Holds(c', w', jpcs', e.(k := k'), t, f)
  {
    ListsKept(c, w, c', w', but, t, e.t, f, e.f);
  }

  lemma KeptSame(c: Code, w: seq<Word>, but: set<int>)
    requires |c| == |w|
    ensures Kept(c, w, c, w, but)
  {
  }

  // Patching one list decides for no jump of another whether it brings a value.
  lemma OtherNeeds(c: Code, f: seq<int>, t: seq<int>, vtarget: int, reg: int, dtarget: int)
    requires OpenList(c, f) && OpenList(c, t) && Disjoint(t, f) && !NeedValue(c, t)
    ensures !NeedValue(PatchList(c, f, vtarget, reg, dtarget), t)
  {
    var c' := PatchList(c, f, vtarget, reg, dtarget);
    forall k | k in t ensures HasTestSet(c', k) {
      assert HasTestSet(c, k);
      PatchListAt(c, f, vtarget, reg, dtarget, k);
      if k >= 1 { PatchListAt(c, f, vtarget, reg, dtarget, k - 1); }
    }
  }

  // Two lists, and nothing else, that an expression leaves through.
  predicate Exits(c: Code, w: seq<Word>, jpcs: seq<int>, t: int, ts: seq<int>, f: int, fls: seq<int>) {
    && Threaded(c, w, t, ts) && Threaded(c, w, f, fls) && DistinctSeq(ts) && DistinctSeq(fls)
    && Disjoint(ts, fls) && Disjoint(ts, jpcs) && Disjoint(fls, jpcs)
  }

  lemma ExitsKept(c: Code, w: seq<Word>, jpcs: seq<int>, t: int, ts: seq<int>, f: int, fls: seq<int>, c': Code,
                  w': seq<Word>, but: set<int>, jpcs': seq<int>)
    requires Exits(c, w, jpcs, t, ts, f, fls) && Kept(c, w, c', w', but)
    requires forall j :: j in ts || j in fls ==> j !in but && j !in jpcs'
    ensures Exits(c', w', jpcs', t, ts, f, fls)
  {
    ListsKept(c, w, c', w', but, t, ts, f, fls);
  }

  lemma ExitsBelow(c: Code, w: seq<Word>, jpcs: seq<int>, t: int, ts: seq<int>, f: int, fls: seq<int>)
    requires Exits(c, w, jpcs, t, ts, f, fls)
    ensures OpenList(c, ts) && OpenList(c, fls) && forall j :: j in ts || j in fls ==> 0 <= j < |w| && j !in jpcs
    ensures t == f <==> ts == fls
  {
    ThreadedList(c, w, t, ts);
    ThreadedList(c, w, f, fls);
    ThreadedOpen(c, w, t, ts);
    ThreadedOpen(c, w, f, fls);
    HeadsDiffer(c, w, t, ts, f, fls);
    forall j | j in ts || j in fls ensures 0 <= j < |w| && j !in jpcs { assert OpenAt(c, w, j); }
  }

  lemma NothingHeld(c: Code, w: seq<Word>, jpcs: seq<int>, k: Kind)
    requires k.VNonReloc? || k.VLocal? || k.VConst?
    ensures Holds(c, w, jpcs, Exp(k, [], []), NO_JUMP, NO_JUMP)
  {
  }

  lemma HoldsHeads(c: Code, w: seq<Word>, jpcs: seq<int>, e: Exp, t: int, f: int)
    requires Holds(c, w, jpcs, e, t, f)
    ensures (t == f <==> e.t == e.f) && Exits(c, w, jpcs, t, e.t, f, e.f)
  {
    HeadsDiffer(c, w, t, e.t, f, e.f);
  }

  lemma NoList(c: Code, w: seq<Word>)
    ensures Threaded(c, w, NO_JUMP, []) && DistinctSeq([])
  {
  }

  // Jumps that none of the two lists holds.
  predicate Apart(ws: seq<int>, jpcs: seq<int>, ts: seq<int>, fls: seq<int>) {
    DistinctSeq(ws) && forall j :: j in ws ==> j !in ts && j !in fls && j !in jpcs
  }

  lemma OneApart(j: int, jpcs: seq<int>, ts: seq<int>, fls: seq<int>)
    requires j !in ts && j !in fls && j !in jpcs
    ensures Apart([j], jpcs, ts, fls)
  {
  }

  lemma ApartSwap(ws: seq<int>, jpcs: seq<int>, ts: seq<int>, fls: seq<int>)
    requires Apart(ws, jpcs, ts, fls)
    ensures Apart(ws, jpcs, fls, ts)
  {
  }

  // More jumps at the end of a list.
  lemma ExitsLonger(c: Code, w: seq<Word>, jpc: int, jpcs: seq<int>, t: int, ts: seq<int>, f: int, fls: seq<int>,
                    ws: seq<int>, w': seq<Word>, f': int)
    requires Exits(c, w, jpcs, t, ts, f, fls) && Threaded(c, w, jpc, jpcs)
    requires Threaded(c, w', f', fls + ws) && Kept(c, w, c, w', AsSet(fls)) && Apart(ws, jpcs, ts, fls)
    ensures Exits(c, w', jpcs, t, ts, f', fls + ws) && Threaded(c, w', jpc, jpcs)
  {
    ThreadedKept(c, w, c, w', AsSet(fls), t, ts);
    ThreadedKept(c, w, c, w', AsSet(fls), jpc, jpcs);
    DistinctAppend(fls, ws);
  }

  lemma ExitsSwap(c: Code, w: seq<Word>, jpcs: seq<int>, t: int, ts: seq<int>, f: int, fls: seq<int>)
    requires Exits(c, w, jpcs, t, ts, f, fls)
    ensures Exits(c, w, jpcs, f, fls, t, ts)
  {
  }

  // Nothing but value-setting tests changed.
  predicate SameButSets(c: Code, c': Code) {
    |c'| == |c| && forall i :: 0 <= i < |c| && !c[i].OpTestSet? ==> c'[i] == c[i]
  }

  lemma HoldsRemoved(c: Code, w: seq<Word>, jpcs: seq<int>, e: Exp, t: int, f: int, c': Code, w': seq<Word>)
    requires Holds(c, w, jpcs, e, t, f) && Kept(c, w, c', w', {}) && SameButSets(c, c')
    ensures Holds(c', w', jpcs, e, t, f)
  {
    ListsKept(c, w, c', w', {}, t, e.t, f, e.f);
    if e.k.VJmp? { ThreadedKept(c, w, c', w', {}, e.k.pc, [e.k.pc]); }
  }

  lemma HoldsSwap(c: Code, w: seq<Word>, jpcs: seq<int>, e: Exp, t: int, f: int)
    requires Holds(c, w, jpcs, e, t, f)
    ensures Holds(c, w, jpcs, Exp(e.k, e.f, e.t), f, t)
  {
  }

  // What else changes does not matter to the lists of `e`.
  lemma HoldsOther(c: Code, w: seq<Word>, jpcs: seq<int>, e: Exp, t: int, f: int, w': seq<Word>)
    requires Holds(c, w, jpcs, e, t, f) && Kept(c, w, c, w', AsSet(jpcs))
    ensures Holds(c, w', jpcs, e, t, f)
  {
    ListsKept(c, w, c, w', AsSet(jpcs), t, e.t, f, e.f);
    if e.k.VJmp? { ThreadedKept(c, w, c, w', AsSet(jpcs), e.k.pc, [e.k.pc]); }
  }

  lemma HoldsEmpty(c: Code, w: seq<Word>, jpcs: seq<int>, e: Exp, t: int, f: int)
    requires Holds(c, w, jpcs, e, t, f) && e.t == [] && e.f == []
    ensures t == NO_JUMP && f == NO_JUMP
  {
  }

  lemma ComparisonHolds(c: Code, w: seq<Word>, pc: int)
    requires |c| == |w| && Threaded(c, w, pc, [pc]) && 1 <= pc && c[pc - 1].OpComp?
    ensures Holds(c, w, [], Exp(VJmp(pc), [], []), NO_JUMP, NO_JUMP)
  {
  }

  lemma KeptWider(c: Code, w: seq<Word>, b1: set<int>, c': Code, w': seq<Word>, b2: set<int>)
    requires Kept(c, w, c', w', b1) && b1 <= b2
    ensures Kept(c, w, c', w', b2)
  {
  }

  lemma FreshTrans(m2: set<int>, m1: set<int>, n1: int, m0: set<int>, n0: int)
    requires FreshFrom(m2, m1, n1) && FreshFrom(m1, m0, n0) && n0 <= n1
    ensures FreshFrom(m2, m0, n0)
  {
  }

  // An expression without jumps.
  lemma HoldsNone(c: Code, w: seq<Word>, jpcs: seq<int>, e: Exp, t: int, f: int)
    requires Holds(c, w, jpcs, e, t, f) && t == f
    ensures e.t == [] && e.f == []
  {
    HeadsDiffer(c, w, t, e.t, f, e.f);
    if e.t != [] { NotSame(e.t, e.f); }
  }

  // The list `l` of the first operand is appended to the list `f` of the second one.
  lemma HoldsJoined(c: Code, w: seq<Word>, jpc: int, jpcs: seq<int>, e: Exp, t: int, f: int, list: seq<int>,
                    w': seq<Word>, f': int)
    requires Holds(c, w, jpcs, e, t, f) && Threaded(c, w, jpc, jpcs) && Threaded(c, w', f', e.f + list)
             && Kept(c, w, c, w', AsSet(e.f))
    requires DistinctSeq(list) && forall j :: j in list ==> j !in Mine(jpcs, e)
    ensures Holds(c, w', jpcs, e.(f := e.f + list), t, f') && Threaded(c, w', jpc, jpcs)
  {
    hide Kept, Threaded, DistinctSeq;
    ThreadedKept(c, w, c, w', AsSet(e.f), t, e.t);
    ThreadedKept(c, w, c, w', AsSet(e.f), jpc, jpcs);
    if e.k.VJmp? { ThreadedKept(c, w, c, w', AsSet(e.f), e.k.pc, [e.k.pc]); }
    DistinctAppend(e.f, list);
  }

  lemma ExitsParts(c: Code, w: seq<Word>, jpcs: seq<int>, t: int, ts: seq<int>, f: int, fls: seq<int>)
    requires Exits(c, w, jpcs, t, ts, f, fls)
    ensures Threaded(c, w, t, ts) && Threaded(c, w, f, fls) && DistinctSeq(ts) && DistinctSeq(fls)
  {
  }

  // Older jumps that were not waiting are not held by what came later.
  lemma OlderApart(m: set<int>, j1: seq<int>, n1: int, s: seq<int>)
    requires FreshFrom(m, AsSet(j1), n1) && forall j :: j in s ==> j < n1 && j !in j1
    ensures forall j :: j in s ==> j !in m
  {
  }

  // ----- what the stored instructions do ------------------------------------------------------

  // The instructions with their jumps' targets worked out.
  function Decoded(w: seq<Word>): (c: Code)
    ensures |c| == |w|
  {
    seq(|w|, i requires 0 <= i < |w| => if w[i].Jump? then OpJmp(i + 1 + w[i].sBx) else w[i].i)
  }

  lemma DecodedAt(c: Code, w: seq<Word>, i: nat)
    requires Stored(c, w) && i < |c|
    ensures Decoded(w)[i] == c[i] || (c[i] == OpJmp(NO_JUMP) && Decoded(w)[i].OpJmp?)
  {
    assert StoredAt(c, w, i);
  }

  lemma {:induction false} DecodedRun(cmp: Answers, c: Code, w: seq<Word>, n: nat, pc: int, r: Regs, ev: seq<Event>)
    requires Stored(c, w) && n <= |c| && Run(cmp, c, n, {}, pc, r, ev).Fall?
    ensures Run(cmp, Decoded(w), n, {}, pc, r, ev) == Run(cmp, c, n, {}, pc, r, ev)
    decreases n - pc, 1
  {
    if 0 <= pc < n {
      DecodedAt(c, w, pc);
      match c[pc]
      case OpMove(a, b) => DecodedRun(cmp, c, w, n, pc + 1, Put(r, a, r(b)), ev);
      case OpNot(a, b) => DecodedRun(cmp, c, w, n, pc + 1, Put(r, a, Bool(IsFalse(r(b)))), ev);
      case OpLoadK(a, id) => DecodedRun(cmp, c, w, n, pc + 1, Put(r, a, Other(id)), ev);
      case OpLoadBool(a, val, skip) =>
        DecodedRun(cmp, c, w, n, if skip then pc + 2 else pc + 1, Put(r, a, Bool(val)), ev);
      case OpJmp(_) => DecodedTake(cmp, c, w, n, pc, r, ev);
      case OpTest(a, k) =>
        if pc + 1 < n && IsFalse(r(a)) != k {
          DecodedTake(cmp, c, w, n, pc + 1, r, ev);
        } else {
          DecodedRun(cmp, c, w, n, pc + 2, r, ev);
        }
      case OpTestSet(a, b, k) =>
        if pc + 1 < n && IsFalse(r(b)) != k {
          DecodedTake(cmp, c, w, n, pc + 1, Put(r, a, r(b)), ev);
        } else {
          DecodedRun(cmp, c, w, n, pc + 2, r, ev);
        }
      case OpComp(op, cond, b, k) =>
        var ev' := ev + [Event(op, Rk(r, b), Rk(r, k))];
        if pc + 1 < n && cmp(op, Rk(r, b), Rk(r, k)) == cond {
          DecodedTake(cmp, c, w, n, pc + 1, r, ev');
        } else {
          DecodedRun(cmp, c, w, n, pc + 2, r, ev');
        }
    }
  }

  lemma {:induction false} DecodedTake(cmp: Answers, c: Code, w: seq<Word>, n: nat, j: int, r: Regs, ev: seq<Event>)
    requires Stored(c, w) && 0 <= j < n <= |c| && Take(cmp, c, n, {}, j, r, ev).Fall?
    ensures Take(cmp, Decoded(w), n, {}, j, r, ev) == Take(cmp, c, n, {}, j, r, ev)
    decreases n - j, 0
  {
    DecodedAt(c, w, j);
    var d := c[j].dest;
    DecodedAt(c, w, d - 1);
    DecodedRun(cmp, c, w, n, d, r, ev);
  }

  lemma DecodedEnter(cmp: Answers, c: Code, w: seq<Word>, n: nat, at: Entry, r: Regs, ev: seq<Event>)
    requires Stored(c, w) && n <= |c| && Enter(cmp, c, n, {}, at, r, ev).Fall?
    ensures Enter(cmp, Decoded(w), n, {}, at, r, ev) == Enter(cmp, c, n, {}, at, r, ev)
  {
    match at
    case Here(pc) => DecodedRun(cmp, c, w, n, pc, r, ev);
    case By(j) =>
      if j >= 1 { DecodedAt(c, w, j - 1); }
      DecodedTake(cmp, c, w, n, j, Arrive(c, j, r), ev);
  }

  // Control coming in at `at`, the stored instructions end with `v` in `reg`, having carried
  // out the comparisons `es`, and keep the other registers below `fr`.
  ghost predicate WordsEndWith(cmp: Answers, w: seq<Word>, fr: int, reg: int, at: Entry, v: Value, es: seq<Event>,
                               r: Regs, ev: seq<Event>)
  {
    var o := Enter(cmp, Decoded(w), |w|, {}, at, r, ev);
    o.Fall? && o.r(reg) == v && o.events == ev + es && forall i :: 0 <= i < fr && i != reg ==> o.r(i) == r(i)
  }

  ghost predicate WordsDeliverAt(cmp: Answers, fs0: FS, w: seq<Word>, x: Expr, reg: int, at: Entry, r: Regs,
                                 ev: seq<Event>)
  {
    var g := Give(cmp, x, EntryBrings(fs0.code, at, r), r);
    WordsEndWith(cmp, w, fs0.freereg, reg, at, g.v, g.events, r, ev)
  }

  // However control comes to what is stored behind `fs0`, it puts in `reg` what `x` gives.
  ghost predicate WordsDeliver(cmp: Answers, fs0: FS, w: seq<Word>, x: Expr, reg: int) {
    forall at, r, ev :: EntryFor(fs0, at) ==> WordsDeliverAt(cmp, fs0, w, x, reg, at, r, ev)
  }

  ghost predicate WordsComputeAt(cmp: Answers, fs0: FS, w: seq<Word>, x: Expr, reg: int, at: Entry, r: Regs,
                                 ev: seq<Event>)
  {
    WordsEndWith(cmp, w, fs0.freereg, reg, at, Eval(cmp, x, r).v, Eval(cmp, x, r).events, r, ev)
  }

  // It puts the value of `x` there.
  ghost predicate WordsCompute(cmp: Answers, fs0: FS, w: seq<Word>, x: Expr, reg: int) {
    forall at, r, ev :: EntryFor(fs0, at) ==> WordsComputeAt(cmp, fs0, w, x, reg, at, r, ev)
  }

  lemma StoredAtEnd(cmp: Answers, fs0: FS, fs: FS, w: seq<Word>, x: Expr, reg: int, at: Entry, r: Regs, ev: seq<Event>)
    requires DeliversAt(cmp, fs0, fs, x, reg, at, r, ev) && Stored(Discharged(fs), w)
    ensures WordsDeliverAt(cmp, fs0, w, x, reg, at, r, ev)
    ensures WordsComputeAt(cmp, fs0, w, x, reg, at, r, ev) <==> ComputesAt(cmp, fs0, fs, x, reg, at, r, ev)
  {
    hide Enter, Give, Eval, Discharged;
    DecodedEnter(cmp, Discharged(fs), w, |fs.code|, at, r, ev);
  }

  // What is stored does what the code does.
  lemma StoredComputes(cmp: Answers, fs0: FS, fs: FS, w: seq<Word>, x: Expr, reg: int)
    requires Delivers(cmp, fs0, fs, x, reg) && Stored(Discharged(fs), w)
    ensures WordsDeliver(cmp, fs0, w, x, reg)
    ensures WordsCompute(cmp, fs0, w, x, reg) <==> Computes(cmp, fs0, fs, x, reg)
  {
    hide DeliversAt, ComputesAt, WordsDeliverAt, WordsComputeAt, Stored, Discharged;
    forall at, r, ev | EntryFor(fs0, at)
      ensures WordsDeliverAt(cmp, fs0, w, x, reg, at, r, ev)
      ensures WordsComputeAt(cmp, fs0, w, x, reg, at, r, ev) <==> ComputesAt(cmp, fs0, fs, x, reg, at, r, ev)
    {
      assert DeliversAt(cmp, fs0, fs, x, reg, at, r, ev);
      StoredAtEnd(cmp, fs0, fs, w, x, reg, at, r, ev);
    }
  }

  // The jump of a comparison is held by nothing else.
  lemma HoldsJump(c: Code, w: seq<Word>, jpcs: seq<int>, e: Exp, t: int, f: int)
    requires Holds(c, w, jpcs, e, t, f) && e.k.VJmp?
    ensures Threaded(c, w, e.k.pc, [e.k.pc]) && e.k.pc !in e.t && e.k.pc !in e.f && e.k.pc !in jpcs
  {
  }
}

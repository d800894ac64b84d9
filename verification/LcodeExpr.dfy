// Whole expressions: what is generated for the parts, put together.

module LcodeExpr {
  import opened LcodeVm
  import opened LcodeGiven
  import opened LcodeGen
  import opened LcodeResolve
  import opened LcodePatch
  import opened LcodeMeaning
  import opened LcodeCond
  import opened LcodeLoad

  // ----- one piece of code behind another ------------------------------------------

  // Jumps that are not settled stay as they are.
  predicate OtherJumps(c: Code, open: set<int>, keep: set<int>) {
    forall j :: j in keep ==> 0 <= j < |c| && c[j].OpJmp? && j !in open
  }

  lemma KeptAt(c: Code, open: set<int>, keep: set<int>, c': Code, n': nat, open': set<int>, low: int, j: int)
    requires Settles(c, |c|, open, c', n', open', low) && OtherJumps(c, open, keep) && j in keep
    ensures 0 <= j < |c| && c'[j] == c[j] && j !in open' && SameControl(c, c', j)
  {
    var n := |c|;
    assert ResolvedAt(c, n, open, c', n', open', Dests(c', open), j);
    if j >= 1 { assert ResolvedAt(c, n, open, c', n', open', Dests(c', open), j - 1); }
  }

  lemma KeepSettles(c: Code, open: set<int>, keep: set<int>, c': Code, n': nat, open': set<int>, low: int)
    requires Settles(c, |c|, open, c', n', open', low) && OtherJumps(c, open, keep)
    ensures Settles(c, |c|, keep + open, c', n', keep + open', low)
  {
    var n := |c|;
    forall i | 0 <= i < n
      ensures ResolvedAt(c, n, keep + open, c', n', keep + open', Dests(c', keep + open), i)
      ensures i in keep + open && i !in keep + open' ==> c'[i].OpJmp? && low <= c'[i].dest
    {
      assert ResolvedAt(c, n, open, c', n', open', Dests(c', open), i);
      if i in keep { KeptAt(c, open, keep, c', n', open', low, i); }
    }
  }

  // A run of the first piece goes on into the second, except for the jumps that leave.
  lemma ExtEnter(cmp: Answers, fs: FS, fs': FS, keep: set<int>, n': nat, open': set<int>, at: Entry, r: Regs,
                 ev: seq<Event>)
    requires Ext(fs, fs', n', open') && OtherJumps(fs.code, AsSet(fs.jpc), keep) && EntryOk(fs.code, |fs.code|, at)
    requires !Enter(cmp, fs.code, |fs.code|, keep + AsSet(fs.jpc), at, r, ev).Stuck?
    ensures n' <= |fs'.code|
    ensures var o := Enter(cmp, fs.code, |fs.code|, keep + AsSet(fs.jpc), at, r, ev);
            Enter(cmp, fs'.code, n', keep + open', at, r, ev)
              == if AtEnd(o, fs.jpc)
                 then Enter(cmp, fs'.code, n', keep + open', Onwards(|fs.code|, o), o.r, o.events)
                 else o
  {
    hide Run;
    var n, c' := |fs.code|, fs'.code;
    var open := keep + AsSet(fs.jpc);
    var o := Enter(cmp, fs.code, n, open, at, r, ev);
    KeepSettles(fs.code, AsSet(fs.jpc), keep, c', n', open', n);
    ResolveEnter(cmp, fs.code, n, open, c', n', keep + open', Dests(c', open), at, r, ev);
    if o.Exit? && o.j in fs.jpc {
      EnterOpen(cmp, fs.code, n, open, at, r, ev);
      assert ResolvedAt(fs.code, n, open, c', n', keep + open', Dests(c', open), o.j);
      assert o.j !in keep;
    }
  }

  // A run that leaves does so by an open jump.
  lemma {:induction false} RunOpen(cmp: Answers, c: Code, n: nat, open: set<int>, pc: int, r: Regs, ev: seq<Event>)
    requires n <= |c|
    ensures var o := Run(cmp, c, n, open, pc, r, ev); o.Exit? ==> o.j in open && 0 <= o.j < n
    decreases n - pc, 1
  {
    if 0 <= pc < n && pc !in open {
      match c[pc]
      case OpMove(a, b) => RunOpen(cmp, c, n, open, pc + 1, Put(r, a, r(b)), ev);
      case OpNot(a, b) => RunOpen(cmp, c, n, open, pc + 1, Put(r, a, Bool(IsFalse(r(b)))), ev);
      case OpLoadK(a, id) => RunOpen(cmp, c, n, open, pc + 1, Put(r, a, Other(id)), ev);
      case OpLoadBool(a, val, skip) =>
        RunOpen(cmp, c, n, open, if skip then pc + 2 else pc + 1, Put(r, a, Bool(val)), ev);
      case OpJmp(_) => TakeOpen(cmp, c, n, open, pc, r, ev);
      case OpTest(a, k) =>
        if pc + 1 < n { TakeOpen(cmp, c, n, open, pc + 1, r, ev); }
        RunOpen(cmp, c, n, open, pc + 2, r, ev);
      case OpTestSet(a, b, k) =>
        if pc + 1 < n { TakeOpen(cmp, c, n, open, pc + 1, if pc + 1 in open then r else Put(r, a, r(b)), ev); }
        RunOpen(cmp, c, n, open, pc + 2, r, ev);
      case OpComp(op, cond, b, k) =>
        var ev' := ev + [Event(op, Rk(r, b), Rk(r, k))];
        if pc + 1 < n { TakeOpen(cmp, c, n, open, pc + 1, r, ev'); }
        RunOpen(cmp, c, n, open, pc + 2, r, ev');
    }
  }

  lemma {:induction false} TakeOpen(cmp: Answers, c: Code, n: nat, open: set<int>, j: int, r: Regs, ev: seq<Event>)
    requires 0 <= j < n <= |c|
    ensures var o := Take(cmp, c, n, open, j, r, ev); o.Exit? ==> o.j in open && 0 <= o.j < n
    decreases n - j, 0
  {
    if j !in open && c[j].OpJmp? && j < c[j].dest <= n { RunOpen(cmp, c, n, open, c[j].dest, r, ev); }
  }

  lemma EnterOpen(cmp: Answers, c: Code, n: nat, open: set<int>, at: Entry, r: Regs, ev: seq<Event>)
    requires n <= |c|
    ensures var o := Enter(cmp, c, n, open, at, r, ev); o.Exit? ==> o.j in open && 0 <= o.j < n
  {
    match at
    case Here(pc) => RunOpen(cmp, c, n, open, pc, r, ev);
    case By(j) => if 0 <= j < n && j !in open { TakeOpen(cmp, c, n, open, j, Arrive(c, j, r), ev); }
  }

  // Open jumps that a run never meets do not matter.
  lemma {:induction false} OpenBelow(cmp: Answers, c: Code, n: nat, low: int, s: set<int>, open: set<int>, pc: int,
                                     r: Regs, ev: seq<Event>)
    requires n <= |c| && low <= pc && forall j :: j in s ==> j < low
    ensures Run(cmp, c, n, s + open, pc, r, ev) == Run(cmp, c, n, open, pc, r, ev)
    decreases n - pc, 1
  {
    if 0 <= pc < n && pc !in open {
      match c[pc]
      case OpMove(a, b) => OpenBelow(cmp, c, n, low, s, open, pc + 1, Put(r, a, r(b)), ev);
      case OpNot(a, b) => OpenBelow(cmp, c, n, low, s, open, pc + 1, Put(r, a, Bool(IsFalse(r(b)))), ev);
      case OpLoadK(a, id) => OpenBelow(cmp, c, n, low, s, open, pc + 1, Put(r, a, Other(id)), ev);
      case OpLoadBool(a, val, skip) =>
        OpenBelow(cmp, c, n, low, s, open, if skip then pc + 2 else pc + 1, Put(r, a, Bool(val)), ev);
      case OpJmp(_) => OpenBelowTake(cmp, c, n, low, s, open, pc, r, ev);
      case OpTest(a, k) =>
        if pc + 1 < n { OpenBelowTake(cmp, c, n, low, s, open, pc + 1, r, ev); }
        OpenBelow(cmp, c, n, low, s, open, pc + 2, r, ev);
      case OpTestSet(a, b, k) =>
        if pc + 1 < n {
          OpenBelowTake(cmp, c, n, low, s, open, pc + 1, if pc + 1 in open then r else Put(r, a, r(b)), ev);
        }
        OpenBelow(cmp, c, n, low, s, open, pc + 2, r, ev);
      case OpComp(op, cond, b, k) =>
        var ev' := ev + [Event(op, Rk(r, b), Rk(r, k))];
        if pc + 1 < n { OpenBelowTake(cmp, c, n, low, s, open, pc + 1, r, ev'); }
        OpenBelow(cmp, c, n, low, s, open, pc + 2, r, ev');
    }
  }

  lemma {:induction false} OpenBelowTake(cmp: Answers, c: Code, n: nat, low: int, s: set<int>, open: set<int>, j: int,
                                         r: Regs, ev: seq<Event>)
    requires 0 <= j < n <= |c| && low <= j && forall k :: k in s ==> k < low
    ensures Take(cmp, c, n, s + open, j, r, ev) == Take(cmp, c, n, open, j, r, ev)
    decreases n - j, 0
  {
    if j !in open && c[j].OpJmp? && j < c[j].dest <= n { OpenBelow(cmp, c, n, low, s, open, c[j].dest, r, ev); }
  }

  // Neither to what comes in behind them.
  lemma EnterBelow(cmp: Answers, fs: FS, fs': FS, keep: set<int>, n': nat, open': set<int>, at: Entry, r: Regs,
                   ev: seq<Event>)
    requires Ext(fs, fs', n', open') && OtherJumps(fs.code, AsSet(fs.jpc), keep) && EntryFor(fs, at)
    ensures n' <= |fs'.code|
    ensures Enter(cmp, fs'.code, n', keep + open', at, r, ev) == Enter(cmp, fs'.code, n', open', at, r, ev)
  {
    hide Run;
    var n, c' := |fs.code|, fs'.code;
    match at
    case Here(_) => OpenBelow(cmp, c', n', n, keep, open', n, r, ev);
    case By(j) =>
      assert j in AsSet(fs.jpc);
      assert ResolvedAt(fs.code, n, AsSet(fs.jpc), c', n', open', Dests(c', AsSet(fs.jpc)), j);
      if j !in open' { OpenBelow(cmp, c', n', n, keep, open', c'[j].dest, Arrive(c', j, r), ev); }
  }

  // ----- `and`, `or` ------------------------------------------------------------------

  function WithList(e: Exp, list: seq<int>, sense: bool): Exp {
    if sense then e.(f := e.f + list) else e.(t := e.t + list)
  }

  // Behind `fs0` the first operand was tested, giving `fsA` and `list`; then the second one
  // was generated.
  ghost predicate Halves(cmp: Answers, fs0: FS, fsA: FS, list: seq<int>, a: Expr, sense: bool, fsB: FS, e: Exp,
                         b: Expr) {
    && CondOk(cmp, fs0, fsA, list, a, fs0.freereg, sense) && fsA.freereg == fs0.freereg
    && (list == [] <==> !Leaving(a, sense))
    && GenOk(cmp, fsA, fsB, e, b) && LocalsBelow(b, fs0.nactvar) && !e.k.VLocal?
  }

  lemma WithOpens(fs: FS, e: Exp, list: seq<int>, sense: bool)
    ensures Opens(fs, WithList(e, list, sense)) == AsSet(list) + Opens(fs, e)
    ensures Limit(fs, WithList(e, list, sense)) == Limit(fs, e)
  {
  }

  lemma HalvesPlaced(cmp: Answers, fs0: FS, fsA: FS, list: seq<int>, a: Expr, sense: bool, fsB: FS, e: Exp, b: Expr)
    requires Halves(cmp, fs0, fsA, list, a, sense, fsB, e, b)
    ensures Placed(fs0, fsB, WithList(e, list, sense))
  {
    hide Settles, Cond, Denotes, KindIs;
    var n, m, open := |fsA.code|, Limit(fsB, e), Opens(fsB, e);
    var waits, keep := AsSet(fsA.jpc), AsSet(list);
    WithOpens(fsB, e, list, sense);
    ExtOk(fs0, fsA, n, keep + waits);
    ExtOk(fsA, fsB, m, open);
    KeepSettles(fsA.code, waits, keep, fsB.code, m, open, n);
    ExtMore(fs0, fsA, n, keep + waits, fsB, m, keep + open, n);
    forall j | j in list ensures 0 <= j < n && fsB.code[j].OpJmp? && j !in open {
      KeptAt(fsA.code, waits, keep, fsB.code, m, open, n, j);
    }
    assert OpenList(fsB.code, list) && Disjoint(list, e.t) && Disjoint(list, e.f) && Disjoint(list, fsB.jpc);
    WithListOk(fsB, e, list, sense, n);
  }

  lemma WithListOk(fs: FS, e: Exp, list: seq<int>, sense: bool, n: int)
    requires ExpOk(fs, e) && OpenList(fs.code, list) && (forall j :: j in list ==> j < n) && n <= Limit(fs, e)
    requires Disjoint(list, e.t) && Disjoint(list, e.f) && Disjoint(list, fs.jpc)
    ensures ExpOk(fs, WithList(e, list, sense))
  {
    JoinedList(fs.code, e.f, list);
    JoinedList(fs.code, e.t, list);
  }

  // What comes to the end of the first operand goes into the second one.
  lemma JoinEnter(cmp: Answers, fs0: FS, fsA: FS, list: seq<int>, a: Expr, sense: bool, fsB: FS, e: Exp, b: Expr,
                  at: Entry, r: Regs, ev: seq<Event>)
    requires Halves(cmp, fs0, fsA, list, a, sense, fsB, e, b) && EntryFor(fs0, at)
    ensures var o := Enter(cmp, fsA.code, |fsA.code|, AsSet(list) + AsSet(fsA.jpc), at, r, ev);
            && !o.Stuck?
            && Enter(cmp, fsB.code, Limit(fsB, e), AsSet(list) + Opens(fsB, e), at, r, ev)
               == if AtEnd(o, fsA.jpc)
                  then Enter(cmp, fsB.code, Limit(fsB, e), Opens(fsB, e), Onwards(|fsA.code|, o), o.r, o.events)
                  else o
  {
    hide Run, Enter, Settles, Denotes, Limit, Opens, ExpOk, KindIs, LocalsBelow;
    var n := |fsA.code|;
    assert CondFor(cmp, fs0, fsA, list, a, fs0.freereg, sense, at, r, ev);
    var o := Enter(cmp, fsA.code, n, AsSet(list) + AsSet(fsA.jpc), at, r, ev);
    EntriesOk(fs0, fsA, n, AsSet(list) + AsSet(fsA.jpc), at);
    ExtEnter(cmp, fsA, fsB, AsSet(list), Limit(fsB, e), Opens(fsB, e), at, r, ev);
    if AtEnd(o, fsA.jpc) {
      EnterBelow(cmp, fsA, fsB, AsSet(list), Limit(fsB, e), Opens(fsB, e), Onwards(n, o), o.r, o.events);
    }
  }

  lemma JoinedIs(cmp: Answers, a: Expr, b: Expr, sense: bool, w: Brought, r: Regs)
    ensures var t := Test(Give(cmp, a, w, r), ShapeOf(a), sense);
            Give(cmp, Joined(a, b, sense), w, r) == Through(t, sense, Give(cmp, b, Onto(t), r))
  {
    hide Test, Through;
  }

  predicate Apart(e: Exp, list: seq<int>) {
    Disjoint(list, e.t) && Disjoint(list, e.f) && Disjoint(e.t, list) && Disjoint(e.f, list)
  }

  // Control goes on into the second operand.
  lemma JoinOnAt(cmp: Answers, fs: FS, at: Entry, at': Entry, list: seq<int>, sense: bool, e: Exp, t: Tested, y: Given,
                 fr: int, r: Regs, ev: seq<Event>, r1: Regs, ev1: seq<Event>)
    requires DenotesAt(cmp, fs, at', e, y, fr, NO_JUMP, r1, ev1) && t.next.On?
    requires Same(r, r1, fr, NO_JUMP) && ev1 == ev + t.events
    requires Apart(e, list)
    requires Enter(cmp, fs.code, Limit(fs, e), AsSet(list) + Opens(fs, e), at, r, ev)
             == Enter(cmp, fs.code, Limit(fs, e), Opens(fs, e), at', r1, ev1)
    ensures DenotesAt(cmp, fs, at, WithList(e, list, sense), Through(t, sense, y), fr, NO_JUMP, r, ev)
  {
    hide Run, Enter, Limit, Opens, Carried, HasTestSet, Brings;
    var e' := WithList(e, list, sense);
    WithOpens(fs, e, list, sense);
    var o := Enter(cmp, fs.code, Limit(fs, e), Opens(fs, e), at', r1, ev1);
    assert ev1 + y.events == ev + (t.events + y.events);
    if AtEnd(o, fs.jpc) {
      assert Arrived(cmp, fs, e', o.r) == Arrived(cmp, fs, e, o.r);
    } else {
      assert o.j in e'.t <==> o.j in e.t;
      assert o.j in e.f ==> o.j in e'.f;
    }
  }

  // Control leaves behind the first operand.
  lemma JoinOffAt(cmp: Answers, fsA: FS, fs: FS, at: Entry, list: seq<int>, sense: bool, e: Exp, t: Tested, y: Given,
                  fr: int, r: Regs, ev: seq<Event>, o: Outcome)
    requires o.Exit? && o.j in list && t.next == Off(HasTestSet(fsA.code, o.j)) && Same(r, o.r, fr, NO_JUMP)
    requires t.v == Carried(fsA.code, o.j, o.r, !sense) && o.events == ev + t.events
    requires Apart(e, list) && Disjoint(list, fs.jpc) && SameControl(fsA.code, fs.code, o.j)
    requires Enter(cmp, fs.code, Limit(fs, e), AsSet(list) + Opens(fs, e), at, r, ev) == o
    ensures DenotesAt(cmp, fs, at, WithList(e, list, sense), Through(t, sense, y), fr, NO_JUMP, r, ev)
  {
    hide Run, Enter, Limit, Opens;
    WithOpens(fs, e, list, sense);
    SameBrings(fsA.code, fs.code, o.j, o.r, !sense);
  }

  lemma FirstAt(cmp: Answers, fs0: FS, fsA: FS, list: seq<int>, a: Expr, sense: bool, fsB: FS, e: Exp, b: Expr,
                at: Entry, r: Regs, ev: seq<Event>)
    requires Halves(cmp, fs0, fsA, list, a, sense, fsB, e, b) && EntryFor(fs0, at)
    ensures CondFor(cmp, fs0, fsA, list, a, fs0.freereg, sense, at, r, ev)
  {
    hide CondFor, GenOk, Ext, Leaving;
  }

  // What the second operand gives with the registers the first one leaves.
  lemma SecondAt(cmp: Answers, fs0: FS, fsA: FS, list: seq<int>, a: Expr, sense: bool, fsB: FS, e: Exp, b: Expr,
                 at: Entry, r0: Regs, r: Regs, ev: seq<Event>)
    requires Halves(cmp, fs0, fsA, list, a, sense, fsB, e, b) && EntryFor(fsA, at) && Same(r0, r, fs0.freereg, NO_JUMP)
    ensures DenotesAt(cmp, fsB, at, e, Give(cmp, b, EntryBrings(fsA.code, at, r), r0), fs0.freereg, NO_JUMP, r, ev)
  {
    hide Settles, Cond, DenotesAt, EntryBrings, Give;
    ExtOk(fs0, fsA, |fsA.code|, AsSet(list) + AsSet(fsA.jpc));
    GiveSame(cmp, b, EntryBrings(fsA.code, at, r), fs0.nactvar, r0, r);
    assert DenotesFor(cmp, fsA, fsB, e, b, fsA.freereg, NO_JUMP, at, r, ev);
  }

  lemma JoinAt(cmp: Answers, fs0: FS, fsA: FS, list: seq<int>, a: Expr, sense: bool, fsB: FS, e: Exp, b: Expr,
               at: Entry, r: Regs, ev: seq<Event>)
    requires Halves(cmp, fs0, fsA, list, a, sense, fsB, e, b) && EntryFor(fs0, at)
    requires ListApart(fsA, list, fsB, e)
    ensures DenotesFor(cmp, fs0, fsB, WithList(e, list, sense), Joined(a, b, sense), fs0.freereg, NO_JUMP, at, r, ev)
  {
    hide Run, Enter, Halves, Limit, Opens, DenotesAt, Test, Through, Joined, WithList, SameControl, Give, ShapeOf,
         Carried;
    var n, w := |fsA.code|, EntryBrings(fs0.code, at, r);
    var t := Test(Give(cmp, a, w, r), ShapeOf(a), sense);
    var y := Give(cmp, b, Onto(t), r);
    var o := Enter(cmp, fsA.code, n, AsSet(list) + AsSet(fsA.jpc), at, r, ev);
    FirstAt(cmp, fs0, fsA, list, a, sense, fsB, e, b, at, r, ev);
    JoinEnter(cmp, fs0, fsA, list, a, sense, fsB, e, b, at, r, ev);
    JoinedIs(cmp, a, b, sense, w, r);
    if AtEnd(o, fsA.jpc) {
      SecondAt(cmp, fs0, fsA, list, a, sense, fsB, e, b, Onwards(n, o), r, o.r, o.events);
      JoinOnAt(cmp, fsB, at, Onwards(n, o), list, sense, e, t, y, fs0.freereg, r, ev, o.r, o.events);
    } else {
      assert SameControl(fsA.code, fsB.code, o.j);
      JoinOffAt(cmp, fsA, fsB, at, list, sense, e, t, y, fs0.freereg, r, ev, o);
    }
  }

  // The jumps of the first operand are no others and have not changed.
  predicate ListApart(fsA: FS, list: seq<int>, fs: FS, e: Exp) {
    && Apart(e, list) && Disjoint(list, fs.jpc)
    && forall j :: j in list ==> SameControl(fsA.code, fs.code, j)
  }

  lemma HalvesApart(cmp: Answers, fs0: FS, fsA: FS, list: seq<int>, a: Expr, sense: bool, fsB: FS, e: Exp, b: Expr)
    requires Halves(cmp, fs0, fsA, list, a, sense, fsB, e, b)
    ensures ListApart(fsA, list, fsB, e)
  {
    hide Settles, Cond, Denotes, KindIs, SameControl;
    forall j | j in list ensures j !in Opens(fsB, e) && SameControl(fsA.code, fsB.code, j) {
      KeptAt(fsA.code, AsSet(fsA.jpc), AsSet(list), fsB.code, Limit(fsB, e), Opens(fsB, e), |fsA.code|, j);
    }
    forall j | j in list ensures j !in e.t && j !in e.f && j !in fsB.jpc { assert j !in Opens(fsB, e); }
  }

  // Testing the first operand and generating the second one gives `and`, or `or`.
  lemma JoinOk(cmp: Answers, fs0: FS, fsA: FS, list: seq<int>, a: Expr, sense: bool, fsB: FS, e: Exp, b: Expr)
    requires Halves(cmp, fs0, fsA, list, a, sense, fsB, e, b)
    ensures GenOk(cmp, fs0, fsB, WithList(e, list, sense), Joined(a, b, sense))
  {
    HalvesPlaced(cmp, fs0, fsA, list, a, sense, fsB, e, b);
    HalvesApart(cmp, fs0, fsA, list, a, sense, fsB, e, b);
    hide Ext, Placed, DenotesFor, CondOk, Denotes, ListApart;
    JoinKind(e, list, a, b, sense);
    forall at, r, ev | EntryFor(fs0, at)
      ensures DenotesFor(cmp, fs0, fsB, WithList(e, list, sense), Joined(a, b, sense), fs0.freereg, NO_JUMP, at, r, ev)
    {
      JoinAt(cmp, fs0, fsA, list, a, sense, fsB, e, b, at, r, ev);
    }
    JoinDenotes(cmp, fs0, fsB, WithList(e, list, sense), Joined(a, b, sense));
  }

  lemma JoinDenotes(cmp: Answers, fs0: FS, fs: FS, e: Exp, x: Expr)
    requires forall at, r, ev :: EntryFor(fs0, at) ==> DenotesFor(cmp, fs0, fs, e, x, fs0.freereg, NO_JUMP, at, r, ev)
    ensures Denotes(cmp, fs0, fs, e, x, fs0.freereg, NO_JUMP)
  {
    hide DenotesFor;
  }

  lemma JoinKind(e: Exp, list: seq<int>, a: Expr, b: Expr, sense: bool)
    requires KindIs(e.k, ShapeOf(b)) && ListsFor(e, b) && (list == [] <==> !Leaving(a, sense))
    ensures var e', x := WithList(e, list, sense), Joined(a, b, sense); KindIs(e'.k, ShapeOf(x)) && ListsFor(e', x)
  {
    hide Skips;
  }

  // ----- the most registers used ----------------------------------------------------------

  lemma Exp2RegMax(fs: FS, e: Exp, reg: int)
    ensures Exp2Reg(fs, e, reg).0.maxstack == fs.maxstack && Exp2Reg(fs, e, reg).0.freereg == fs.freereg
  {
  }

  // ----- comparisons --------------------------------------------------------------------

  // The code gets to its end with the value in `e`, a register or a constant.
  ghost predicate OperandAt(cmp: Answers, fs: FS, at: Entry, e: Exp, x: Expr, g: Given, fr: int, r: Regs,
                            ev: seq<Event>)
  {
    var o := Enter(cmp, fs.code, |fs.code|, AsSet(fs.jpc), at, r, ev);
    && AtEnd(o, fs.jpc) && Same(r, o.r, fr, NO_JUMP) && o.events == ev + g.events
    && Rk(o.r, RegOf(e)) == g.v && EndBrings(fs.code, o) == OperandWay(x, g.way)
  }

  ghost predicate OperandFor(cmp: Answers, fs0: FS, fs: FS, e: Exp, x: Expr, at: Entry, r: Regs, ev: seq<Event>) {
    OperandAt(cmp, fs, at, e, x, Give(cmp, x, EntryBrings(fs0.code, at, r), r), fs0.freereg, r, ev)
  }

  // An operand of a comparison: a constant, or in a local variable or the next register.
  ghost predicate OperandOk(cmp: Answers, fs0: FS, fs: FS, e: Exp, x: Expr) {
    && e.t == [] && e.f == [] && Ext(fs0, fs, |fs.code|, AsSet(fs.jpc))
    && (match e.k
        case VConst(_) => fs.freereg == fs0.freereg
        case VNonReloc(reg) =>
          0 <= reg < BITRK && if reg < fs.nactvar then fs.freereg == fs0.freereg
                              else reg == fs0.freereg == fs.freereg - 1
        case _ => false)
    && forall at, r, ev :: EntryFor(fs0, at) ==> OperandFor(cmp, fs0, fs, e, x, at, r, ev)
  }

  lemma NextRegIs(fs0: FS, fs: FS, e: Exp)
    requires Placed(fs0, fs, e)
    ensures Exp2NextReg(fs, e) == Exp2Reg(Reserve(fs), DischargeVars(e), fs.freereg)
  {
  }

  // The value goes to the next free register.
  lemma NextRegOk(cmp: Answers, fs0: FS, fs: FS, e: Exp, x: Expr)
    requires GenOk(cmp, fs0, fs, e, x) && Exp2NextReg(fs, e).0.maxstack < MAXSTACK
    ensures var (fs', e') := Exp2NextReg(fs, e);
            && InReg(cmp, fs0, fs', x, fs0.freereg, fs0.freereg) && e' == Exp(VNonReloc(fs0.freereg), [], [])
            && fs'.freereg == fs0.freereg + 1 && fs0.freereg < BITRK && NoneBrings(fs')
  {
    var e1, fs1, reg := DischargeVars(e), Reserve(fs), fs.freereg;
    VarsDenote(cmp, fs0, fs, e, x);
    ExtOk(fs0, fs, Limit(fs, e), Opens(fs, e));
    NextRegIs(fs0, fs, e);
    ReservePlaced(cmp, fs0, fs, e1, x);
    hide Exp2Reg, Denotes, DenotesAt, Exp2NextReg, Ext, InReg, NoneBrings, ListsFor, KindIs;
    Exp2RegMax(fs1, e1, reg);
    Exp2RegOk(cmp, fs0, fs1, e1, x, fs0.freereg, reg);
    Exp2RegPlain(cmp, fs0, fs1, e1, x, fs0.freereg, reg);
  }

  lemma ReservePlaced(cmp: Answers, fs0: FS, fs: FS, e: Exp, x: Expr)
    requires GenOk(cmp, fs0, fs, e, x)
    ensures Placed(fs0, Reserve(fs), e) && Denotes(cmp, fs0, Reserve(fs), e, x, fs0.freereg, NO_JUMP)
    ensures Reserve(fs).maxstack > fs.freereg
  {
    hide Enter, Settles;
    forall at, r, ev | EntryFor(fs0, at)
      ensures DenotesFor(cmp, fs0, Reserve(fs), e, x, fs0.freereg, NO_JUMP, at, r, ev)
    {
      assert DenotesFor(cmp, fs0, fs, e, x, fs0.freereg, NO_JUMP, at, r, ev);
    }
  }

  lemma SettledIs(fs: FS, e: Exp)
    ensures var e' := Exp2NextReg(fs, e).1; e'.k.VNonReloc? && e'.t == [] && e'.f == []
    ensures Exp2NextReg(fs, DischargeVars(e)) == Exp2NextReg(fs, e)
  {
  }

  lemma OperandIs(cmp: Answers, fs0: FS, fs: FS, e: Exp, x: Expr)
    requires GenOk(cmp, fs0, fs, e, x)
    ensures Exp2RK(fs, e) == if Plain(x) then (fs, DischargeVars(e)) else Exp2NextReg(fs, e)
    ensures Plain(x) ==> e.t == [] && e.f == [] && (DischargeVars(e).k.VConst? || DischargeVars(e).k.VNonReloc?)
  {
    hide Ext, Denotes, Exp2Reg, Exp2NextReg, OpenList, LeavesTrue, LeavesFalse;
    SettledIs(fs, e);
    if !HasJumps(e) && e.t != [] { NotSame(e.t, e.f); }
    assert Plain(x) <==> !HasJumps(e) && (DischargeVars(e).k.VConst? || DischargeVars(e).k.VNonReloc?);
    if HasJumps(e) {
      assert Exp2Val(fs, e) == Exp2NextReg(fs, e);
    }
  }

  lemma Exp2RKOk(cmp: Answers, fs0: FS, fs: FS, e: Exp, x: Expr)
    requires GenOk(cmp, fs0, fs, e, x) && Exp2RK(fs, e).0.maxstack < MAXSTACK
    ensures OperandOk(cmp, fs0, Exp2RK(fs, e).0, Exp2RK(fs, e).1, x)
  {
    hide Exp2RK, Exp2NextReg, OperandOk, GenOk;
    OperandIs(cmp, fs0, fs, e, x);
    if Plain(x) { PlainOk(cmp, fs0, fs, e, x); } else { SettledOk(cmp, fs0, fs, e, x); }
  }

  // A constant or a local variable: what comes with a value keeps it.
  lemma PlainOk(cmp: Answers, fs0: FS, fs: FS, e: Exp, x: Expr)
    requires GenOk(cmp, fs0, fs, e, x) && Plain(x)
    ensures OperandOk(cmp, fs0, fs, DischargeVars(e), x)
  {
    hide Enter, Settles, Plain;
    var e1 := DischargeVars(e);
    VarsDenote(cmp, fs0, fs, e, x);
    OperandIs(cmp, fs0, fs, e, x);
    ExtOk(fs0, fs, Limit(fs, e), Opens(fs, e));
    assert Opens(fs, e1) == AsSet(fs.jpc) && Limit(fs, e1) == |fs.code|;
    forall at, r, ev | EntryFor(fs0, at) ensures OperandFor(cmp, fs0, fs, e1, x, at, r, ev) {
      assert DenotesFor(cmp, fs0, fs, e1, x, fs0.freereg, NO_JUMP, at, r, ev);
      var o := Enter(cmp, fs.code, |fs.code|, AsSet(fs.jpc), at, r, ev);
      assert o.events + [] == o.events;
    }
  }

  lemma SettledOk(cmp: Answers, fs0: FS, fs: FS, e: Exp, x: Expr)
    requires GenOk(cmp, fs0, fs, e, x) && !Plain(x) && Exp2NextReg(fs, e).0.maxstack < MAXSTACK
    ensures OperandOk(cmp, fs0, Exp2NextReg(fs, e).0, Exp2NextReg(fs, e).1, x)
  {
    hide Enter, Settles, Plain, GenOk, Exp2NextReg;
    var (fs', e') := Exp2NextReg(fs, e);
    NextRegOk(cmp, fs0, fs, e, x);
    ExtOk(fs0, fs', |fs'.code|, AsSet(fs'.jpc));
    assert Opens(fs', e') == AsSet(fs'.jpc) && Limit(fs', e') == |fs'.code|;
    forall at, r, ev | EntryFor(fs0, at) ensures OperandFor(cmp, fs0, fs', e', x, at, r, ev) {
      assert HoldsFor(cmp, fs0, fs', e', x, fs0.freereg, fs0.freereg, at, r, ev);
      var o := Enter(cmp, fs'.code, |fs'.code|, AsSet(fs'.jpc), at, r, ev);
      assert o.events + [] == o.events;
    }
  }
}

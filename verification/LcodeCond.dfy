// Going on only if an expression is true, or only if it is false.

module LcodeCond {
  import opened LcodeVm
  import opened LcodeGiven
  import opened LcodeGen
  import opened LcodeResolve
  import opened LcodePatch
  import opened LcodeMeaning

  // ----- code that grows behind a start ------------------------------------------

  // From `fs0` to `fs` code was only appended.  Of the first `n` instructions the jumps of
  // `open` are open; they are new, or those that waited at the end of `fs0` and have not
  // got their targets yet.  Those that have lead behind `fs0`.
  ghost predicate Ext(fs0: FS, fs: FS, n: nat, open: set<int>) {
    && Ok(fs0) && Ok(fs) && fs.nactvar == fs0.nactvar
    && Settles(fs0.code, |fs0.code|, AsSet(fs0.jpc), fs.code, n, open, |fs0.code|)
  }

  lemma StartFree(c: Code, n: nat)
    requires PairsOk(c) && n == |c|
    ensures !Guarded(c, n)
  {
    if n > 0 { assert PairAt(c, n - 1); }
  }

  lemma ExtSelf(fs: FS)
    requires Ok(fs)
    ensures Ext(fs, fs, |fs.code|, AsSet(fs.jpc))
  {
    StartFree(fs.code, |fs.code|);
    PrefixSettles(fs.code, |fs.code|, AsSet(fs.jpc), fs.code, |fs.code|, AsSet(fs.jpc), |fs.code|);
  }

  lemma ExtOk(fs0: FS, fs: FS, n: nat, open: set<int>)
    requires Ext(fs0, fs, n, open)
    ensures |fs0.code| <= n <= |fs.code| && !Guarded(fs.code, |fs0.code|)
    ensures 0 <= fs0.nactvar <= fs0.freereg && fs.nactvar == fs0.nactvar && Ok(fs)
  {
    SameGuard(fs0.code, |fs0.code|, AsSet(fs0.jpc), fs.code, n, open, Dests(fs.code, AsSet(fs0.jpc)), |fs0.code|);
  }

  // Further code settles some of the jumps that are open.
  lemma ExtMore(fs0: FS, fs: FS, n: nat, open: set<int>, fs': FS, n': nat, open': set<int>, low: int)
    requires Ext(fs0, fs, n, open) && Ok(fs') && fs'.nactvar == fs.nactvar && |fs0.code| <= low
    requires Settles(fs.code, n, open, fs'.code, n', open', low)
    ensures Ext(fs0, fs', n', open')
  {
    SettlesTrans(fs0.code, |fs0.code|, AsSet(fs0.jpc), fs.code, n, open, fs'.code, n', open', |fs0.code|, low);
  }

  // Control comes to what is behind `fs0` in one of its ways.
  lemma EntriesOk(fs0: FS, fs: FS, n: nat, open: set<int>, at: Entry)
    requires Ext(fs0, fs, n, open) && EntryFor(fs0, at)
    ensures n <= |fs.code| && EntryOk(fs.code, n, at)
  {
    ExtOk(fs0, fs, n, open);
    if at.By? {
      assert at.j in AsSet(fs0.jpc);
      assert ResolvedAt(fs0.code, |fs0.code|, AsSet(fs0.jpc), fs.code, n, open, Dests(fs.code, AsSet(fs0.jpc)), at.j);
    }
  }

  lemma DischargedPairs(fs: FS)
    requires Ok(fs)
    ensures PairsOk(Discharged(fs)) && forall i :: 0 <= i < |fs.code| ==>
              TestMode(Discharged(fs)[i]) == TestMode(fs.code[i])
    ensures forall i :: 0 <= i < |fs.code| ==> Discharged(fs)[i].OpJmp? == fs.code[i].OpJmp?
  {
    PatchListPairs(fs.code, fs.jpc, |fs.code|, NO_REG, |fs.code|);
  }

  // Lists other than the jumps to here stay lists when code is emitted.
  lemma ListStays(fs: FS, more: Code, s: seq<int>)
    requires Ok(fs) && OpenList(fs.code, s)
    ensures OpenList(Discharged(fs) + more, s)
  {
    DischargedPairs(fs);
  }

  // The test of a jump is the same in both, or there is none in either.
  predicate SameControl(c: Code, c': Code, j: int) {
    HasTestSet(c', j) == HasTestSet(c, j) && Control(c', j) == Control(c, j)
      && (HasTestSet(c, j) ==> c'[Control(c', j)].b == c[Control(c, j)].b)
  }

  lemma SameBrings(c: Code, c': Code, j: int, r: Regs, b: bool)
    requires SameControl(c, c', j)
    ensures Carried(c', j, r, b) == Carried(c, j, r, b) && Brings(c', j, r) == Brings(c, j, r)
  {
  }

  lemma ControlStays(fs: FS, more: Code, j: int)
    requires Ok(fs) && 0 <= j < |fs.code| && j !in fs.jpc && fs.code[j].OpJmp?
    ensures SameControl(fs.code, Discharged(fs) + more, j)
  {
    DischargedPairs(fs);
    DischargedAt(fs, j);
    if j >= 1 { DischargedAt(fs, j - 1); }
  }

  // ----- conditions -----------------------------------------------------------------

  // The two ways to test a value, as one: go on if it is true, or if it is false.
  function GoIf(fs: FS, e: Exp, sense: bool): (FS, Exp) {
    if sense then GoIfTrue(fs, e) else GoIfFalse(fs, e)
  }

  function Leave(e: Exp, sense: bool): seq<int> { if sense then e.f else e.t }
  function Stay(e: Exp, sense: bool): seq<int> { if sense then e.t else e.f }

  // The result of such a test: a list of jumps that leave.
  ghost predicate CondOk(cmp: Answers, fs0: FS, fs: FS, list: seq<int>, x: Expr, fr: int, sense: bool) {
    && Ext(fs0, fs, |fs.code|, AsSet(list) + AsSet(fs.jpc)) && OpenList(fs.code, list) && Disjoint(list, fs.jpc)
    && Cond(cmp, fs0, fs, list, x, fr, sense)
  }

  // An expression placed behind `fs0`.
  ghost predicate Placed(fs0: FS, fs: FS, e: Exp) {
    && Ext(fs0, fs, Limit(fs, e), Opens(fs, e)) && ExpOk(fs, e) && (e.k.VNonReloc? ==> e.k.reg < fs.nactvar)
  }

  predicate KindIs(k: Kind, s: Shape) {
    match s
    case AConstant(c) => k == VConst(c)
    case ALocal => k.VLocal? || k.VNonReloc?
    case ANegation => k.VReloc?
    case AComparison => k.VJmp?
  }

  predicate ListsFor(e: Exp, x: Expr) { (e.t == [] <==> !LeavesTrue(x)) && (e.f == [] <==> !LeavesFalse(x)) }

  // An expression generated behind `fs0`.
  ghost predicate GenOk(cmp: Answers, fs0: FS, fs: FS, e: Exp, x: Expr) {
    && Placed(fs0, fs, e) && fs.freereg == fs0.freereg && KindIs(e.k, ShapeOf(x)) && ListsFor(e, x)
    && Denotes(cmp, fs0, fs, e, x, fs0.freereg, NO_JUMP)
  }

  lemma UnionOpen(e: Exp, sense: bool, j: int)
    ensures AsSet(Leave(e, sense) + [j]) + AsSet(Stay(e, sense)) == AsSet(e.t) + AsSet(e.f) + {j}
  {
  }

  // A test at the end whose jump is open.
  lemma TestStep(cmp: Answers, c: Code, m: nat, open: set<int>, r: Regs, ev: seq<Event>)
    requires |c| == m + 2 && m !in open && m + 1 in open && TestMode(c[m])
    ensures var i := c[m];
            var taken := match i
              case OpTest(a, k) => IsFalse(r(a)) != k
              case OpTestSet(a, b, k) => IsFalse(r(b)) != k
              case OpComp(op, cond, x, y) => cmp(op, Rk(r, x), Rk(r, y)) == cond
              case _ => false;
            var ev' := if i.OpComp? then ev + [Event(i.op, Rk(r, i.x), Rk(r, i.y))] else ev;
            Run(cmp, c, m + 2, open, m, r, ev) == if taken then Exit(m + 1, r, ev') else Fall(r, ev')
  {
  }

  // A register: its test is emitted.
  lemma TestRegAt(cmp: Answers, fs: FS, fs': FS, at: Entry, e: Exp, g: Given, k: Shape, fr: int, sense: bool, r: Regs,
                  ev: seq<Event>)
    requires Ok(fs) && ExpOk(fs, e) && e.k.VNonReloc? && EntryOk(fs.code, |fs.code|, at)
    requires Keeps(k) && !Skips(k, sense) && !Forced(k, sense)
    requires fs'.code == Discharged(fs) + [OpTestSet(NO_REG, e.k.reg, !sense), OpJmp(NO_JUMP)]
             && fs'.jpc == Stay(e, sense)
    requires DenotesAt(cmp, fs, at, e, g, fr, NO_JUMP, r, ev)
    ensures CondAt(cmp, fs', at, Leave(e, sense) + [|fs.code| + 1], Test(g, k, sense), fr, sense, r, ev)
  {
    hide Run, Enter, Discharged, KindOk, Carried, Brings, HasTestSet, Keeps, Skips, Forced;
    var n, more := |fs.code|, [OpTestSet(NO_REG, e.k.reg, !sense), OpJmp(NO_JUMP)];
    var keep := AsSet(e.t) + AsSet(e.f);
    TestRegRun(cmp, fs, fs'.code, at, e.k.reg, keep, sense, r, ev);
    UnionOpen(e, sense, n + 1);
    var o := Enter(cmp, fs.code, n, keep + AsSet(fs.jpc), at, r, ev);
    assert o.events + [] == o.events;
    if AtEnd(o, fs.jpc) {
      TestCarries(fs'.code, n, o.r, !sense);
    } else {
      ControlStays(fs, more, o.j);
      SameBrings(fs.code, fs'.code, o.j, o.r, !sense);
      LeftAlong(fs.code, o.j, o.r, o.j in e.t);
    }
  }

  // A jump that leaves brings along what it stands for.
  lemma LeftAlong(c: Code, j: int, r: Regs, b: bool)
    ensures Brings(c, j, r) == Along(HasTestSet(c, j), Carried(c, j, r, b))
  {
  }

  // The emitted test, reached from wherever the code ended.
  lemma TestRegRun(cmp: Answers, fs: FS, c': Code, at: Entry, reg: int, keep: set<int>, sense: bool, r: Regs,
                   ev: seq<Event>)
    requires Ok(fs) && EntryOk(fs.code, |fs.code|, at)
    requires forall j :: j in keep ==> 0 <= j < |fs.code| && fs.code[j].OpJmp? && j !in fs.jpc
    requires c' == Discharged(fs) + [OpTestSet(NO_REG, reg, !sense), OpJmp(NO_JUMP)]
    requires !Enter(cmp, fs.code, |fs.code|, keep + AsSet(fs.jpc), at, r, ev).Stuck?
    ensures var n := |fs.code|;
            var o := Enter(cmp, fs.code, n, keep + AsSet(fs.jpc), at, r, ev);
            && |c'| == n + 2
            && Enter(cmp, c', n + 2, keep + {n + 1}, at, r, ev)
               == if !AtEnd(o, fs.jpc) then o
                  else if IsFalse(o.r(reg)) == sense then Exit(n + 1, o.r, o.events) else Fall(o.r, o.events)
  {
    hide Run, Enter, Discharged;
    var n, more := |fs.code|, [OpTestSet(NO_REG, reg, !sense), OpJmp(NO_JUMP)];
    var o := Enter(cmp, fs.code, n, keep + AsSet(fs.jpc), at, r, ev);
    assert |c'| == n + 2 && c'[n] == more[0] && c'[n + 1] == more[1];
    EmitEnter(cmp, fs, more, keep, {n + 1}, n + 2, at, r, ev);
    if AtEnd(o, fs.jpc) { TestStep(cmp, c', n, keep + {n + 1}, o.r, o.events); }
  }

  lemma TestCarries(c: Code, n: nat, r: Regs, b: bool)
    requires |c| == n + 2 && c[n].OpTestSet?
    ensures HasTestSet(c, n + 1) && Carried(c, n + 1, r, b) == r(c[n].b)
  {
  }

  lemma CondPairsOk(fs: FS, i: Instr)
    requires Ok(fs) && TestMode(i)
    ensures PairsOk(Discharged(fs) + [i, OpJmp(NO_JUMP)])
  {
    DischargedPairs(fs);
    assert PairsOk([i, OpJmp(NO_JUMP)]);
    AppendPairs(Discharged(fs), [i, OpJmp(NO_JUMP)]);
  }

  // A conditional jump: the test and its open jump.
  lemma CondJumpIs(fs: FS, i: Instr)
    ensures var (fs', list) := CondJump(fs, i);
            && fs'.code == Discharged(fs) + [i, OpJmp(NO_JUMP)] && fs'.jpc == [] && list == [|fs.code| + 1]
            && fs'.freereg == fs.freereg && fs'.nactvar == fs.nactvar
  {
  }

  lemma SnocList(c: Code, s: seq<int>, j: int)
    requires OpenList(c, s) && 0 <= j < |c| && c[j].OpJmp? && j !in s
    ensures OpenList(c, s + [j])
  {
  }

  lemma RegTested(fs: FS, e: Exp, sense: bool)
    requires e.k.VNonReloc? && e.k.reg < fs.nactvar
    ensures var (fs', e') := GoIf(fs, e, sense);
            && fs'.jpc == Stay(e, sense) && fs'.freereg == fs.freereg && fs'.nactvar == fs.nactvar
            && fs'.code == Discharged(fs) + [OpTestSet(NO_REG, e.k.reg, !sense), OpJmp(NO_JUMP)]
            && Leave(e', sense) == Leave(e, sense) + [|fs.code| + 1]
  {
    hide CondJump;
    var (fs', e') := GoIf(fs, e, sense);
    CondJumpIs(fs, OpTestSet(NO_REG, e.k.reg, !sense));
    assert fs'.jpc == Stay(e, sense);
    assert Leave(e', sense) == Leave(e, sense) + [|fs.code| + 1];
  }

  // Loaded into a register, what was in no register brings nothing along.
  function Loaded(g: Given): Given { if g.way.ToEnd? then g.(way := ToEnd(Nothing)) else g }

  lemma LoadedTest(g: Given, k: Shape, sense: bool)
    requires !Skips(k, sense) && !Forced(k, sense)
    ensures Test(Loaded(g), k, sense) == Test(g, k, sense)
  {
  }

  ghost predicate InSomeForm(cmp: Answers, fs0: FS, fs: FS, e: Exp, x: Expr, fr: int, at: Entry, r: Regs,
                             ev: seq<Event>)
  {
    var g := Give(cmp, x, EntryBrings(fs0.code, at, r), r);
    DenotesAt(cmp, fs, at, e, g, fr, NO_JUMP, r, ev) || DenotesAt(cmp, fs, at, e, Loaded(g), fr, NO_JUMP, r, ev)
  }

  lemma GivenForms(cmp: Answers, fs0: FS, fs: FS, e: Exp, x: Expr, fr: int)
    requires Denotes(cmp, fs0, fs, e, x, fr, NO_JUMP)
    ensures forall at, r, ev :: EntryFor(fs0, at) ==> InSomeForm(cmp, fs0, fs, e, x, fr, at, r, ev)
  {
    forall at, r, ev | EntryFor(fs0, at) ensures InSomeForm(cmp, fs0, fs, e, x, fr, at, r, ev) {
      assert DenotesFor(cmp, fs0, fs, e, x, fr, NO_JUMP, at, r, ev);
    }
  }

  // The test of a register that holds the value, behind `fs`.
  lemma TestedOk(cmp: Answers, fs0: FS, fs: FS, e: Exp, x: Expr, fr: int, sense: bool, fs': FS, list: seq<int>)
    requires Ext(fs0, fs, |fs.code|, Opens(fs, e)) && ExpOk(fs, e) && e.k.VNonReloc?
    requires forall at, r, ev :: EntryFor(fs0, at) ==> InSomeForm(cmp, fs0, fs, e, x, fr, at, r, ev)
    requires Keeps(ShapeOf(x)) && !Skips(ShapeOf(x), sense) && !Forced(ShapeOf(x), sense)
    requires fs'.code == Discharged(fs) + [OpTestSet(NO_REG, e.k.reg, !sense), OpJmp(NO_JUMP)]
             && fs'.jpc == Stay(e, sense)
    requires list == Leave(e, sense) + [|fs.code| + 1] && fs'.nactvar == fs.nactvar <= fs'.freereg
    ensures CondOk(cmp, fs0, fs', list, x, fr, sense)
  {
    hide Run, Enter, CondAt, DenotesAt, Discharged, Settles, Test, Keeps, Skips, Forced;
    var n, i := |fs.code|, OpTestSet(NO_REG, e.k.reg, !sense);
    CondPairsOk(fs, i);
    ListStays(fs, [i, OpJmp(NO_JUMP)], e.t);
    ListStays(fs, [i, OpJmp(NO_JUMP)], e.f);
    SnocList(fs'.code, Leave(e, sense), n + 1);
    UnionOpen(e, sense, n + 1);
    EmitSettles(fs, [i, OpJmp(NO_JUMP)], AsSet(e.t) + AsSet(e.f), {n + 1}, n + 2);
    ExtOk(fs0, fs, n, Opens(fs, e));
    ExtMore(fs0, fs, n, Opens(fs, e), fs', n + 2, AsSet(list) + AsSet(fs'.jpc), n);
    forall at, r, ev | EntryFor(fs0, at) ensures CondFor(cmp, fs0, fs', list, x, fr, sense, at, r, ev) {
      assert InSomeForm(cmp, fs0, fs, e, x, fr, at, r, ev);
      EntriesOk(fs0, fs, n, Opens(fs, e), at);
      var g := Give(cmp, x, EntryBrings(fs0.code, at, r), r);
      LoadedTest(g, ShapeOf(x), sense);
      TestRegAt(cmp, fs, fs', at, e, if DenotesAt(cmp, fs, at, e, g, fr, NO_JUMP, r, ev) then g else Loaded(g),
                ShapeOf(x), fr, sense, r, ev);
    }
  }

  lemma GoIfReg(cmp: Answers, fs0: FS, fs: FS, e: Exp, x: Expr, sense: bool)
    requires GenOk(cmp, fs0, fs, e, x) && e.k.VNonReloc?
    ensures var (fs', e') := GoIf(fs, e, sense);
            CondOk(cmp, fs0, fs', Leave(e', sense), x, fs0.freereg, sense) && fs'.freereg == fs0.freereg
  {
    hide GoIf, Discharged, Denotes, CondOk, Ext;
    var (fs', e') := GoIf(fs, e, sense);
    RegTested(fs, e, sense);
    ExtOk(fs0, fs, |fs.code|, Opens(fs, e));
    GivenForms(cmp, fs0, fs, e, x, fs0.freereg);
    TestedOk(cmp, fs0, fs, e, x, fs0.freereg, sense, fs', Leave(e', sense));
  }

  // ----- constants ------------------------------------------------------------------------

  // A constant that is known to go on: nothing is emitted.
  predicate NeverJumps(k: Kind, sense: bool) { k.VConst? && Truth(k.c) == sense }

  // A boolean that is known to leave: a jump is emitted without a test.
  predicate AlwaysJumps(k: Kind, sense: bool) { k.VConst? && !k.c.KOther? && Truth(k.c) != sense }

  lemma JoinedList(c: Code, s: seq<int>, u: seq<int>)
    requires OpenList(c, s) && OpenList(c, u) && Disjoint(u, s)
    ensures OpenList(c, s + u)
  {
    var w := s + u;
    forall i, j | 0 <= i < j < |w| ensures w[i] != w[j] {
      if i < |s| <= j { assert w[j] in u && w[i] in s; }
    }
  }

  lemma SkipOpens(e: Exp, jpc: seq<int>, sense: bool)
    ensures AsSet(Leave(e, sense)) + AsSet(jpc + Stay(e, sense)) == AsSet(e.t) + AsSet(e.f) + AsSet(jpc)
  {
  }

  lemma SkipAt(cmp: Answers, fs: FS, at: Entry, e: Exp, g: Given, k: Shape, fr: int, sense: bool, r: Regs,
               ev: seq<Event>)
    requires ExpOk(fs, e) && NeverJumps(e.k, sense) && Skips(k, sense)
             && DenotesAt(cmp, fs, at, e, g, fr, NO_JUMP, r, ev)
    ensures CondAt(cmp, PatchToHere(fs, Stay(e, sense)), at, Leave(e, sense), Test(g, k, sense), fr, sense, r, ev)
  {
    hide Run, Enter, Carried, Brings, HasTestSet, Skips, Forced, Keeps;
    var fs' := PatchToHere(fs, Stay(e, sense));
    SkipOpens(e, fs.jpc, sense);
    var o := Enter(cmp, fs.code, |fs.code|, Opens(fs, e), at, r, ev);
    assert o.events + [] == o.events;
    if o.Exit? && o.j !in fs.jpc { LeftAlong(fs.code, o.j, o.r, o.j in e.t); }
  }

  lemma GoIfSkip(cmp: Answers, fs0: FS, fs: FS, e: Exp, x: Expr, sense: bool)
    requires GenOk(cmp, fs0, fs, e, x) && NeverJumps(e.k, sense)
    ensures var (fs', e') := GoIf(fs, e, sense);
            CondOk(cmp, fs0, fs', Leave(e', sense), x, fs0.freereg, sense) && fs'.freereg == fs0.freereg
  {
    hide Settles, Test, DenotesAt, CondAt;
    var (fs', e') := GoIf(fs, e, sense);
    assert Leave(e, sense) + [] == Leave(e, sense);
    assert fs' == PatchToHere(fs, Stay(e, sense)) && Leave(e', sense) == Leave(e, sense);
    SkipOpens(e, fs.jpc, sense);
    JoinedList(fs.code, fs.jpc, Stay(e, sense));
    forall at, r, ev | EntryFor(fs0, at)
      ensures CondFor(cmp, fs0, fs', Leave(e', sense), x, fs0.freereg, sense, at, r, ev)
    {
      assert DenotesFor(cmp, fs0, fs, e, x, fs0.freereg, NO_JUMP, at, r, ev);
      SkipAt(cmp, fs, at, e, Give(cmp, x, EntryBrings(fs0.code, at, r), r), ShapeOf(x), fs0.freereg, sense, r, ev);
    }
  }

  // A boolean that leaves: the jumps that were waiting leave with the new one.
  lemma FixedJumpIs(fs: FS, e: Exp, sense: bool)
    requires AlwaysJumps(e.k, sense)
    ensures var (fs', e') := GoIf(fs, e, sense);
            && fs'.code == fs.code + [OpJmp(NO_JUMP)] && fs'.jpc == Stay(e, sense)
            && Leave(e', sense) == Leave(e, sense) + ([|fs.code|] + fs.jpc)
            && fs'.freereg == fs.freereg && fs'.nactvar == fs.nactvar
  {
    var (fs1, list) := Jump(fs);
    assert fs1.code == fs.code + [OpJmp(NO_JUMP)] && list == [|fs.code|] + fs.jpc;
    assert [] + Stay(e, sense) == Stay(e, sense);
  }

  lemma AppendedControl(fs: FS, i: Instr, j: int)
    requires PairsOk(fs.code) && 0 <= j < |fs.code|
    ensures SameControl(fs.code, fs.code + [i], j)
  {
  }

  lemma LastBrings(fs: FS, r: Regs, b: bool)
    requires PairsOk(fs.code)
    ensures var c := fs.code + [OpJmp(NO_JUMP)];
            !HasTestSet(c, |fs.code|) && Carried(c, |fs.code|, r, b) == Bool(b)
  {
    StartFree(fs.code, |fs.code|);
  }

  lemma FixedOpen(e: Exp, jpc: seq<int>, sense: bool, n: int)
    ensures AsSet(Leave(e, sense) + ([n] + jpc)) + AsSet(Stay(e, sense)) == AsSet(e.t) + AsSet(e.f) + AsSet(jpc) + {n}
  {
  }

  lemma FixedRun(cmp: Answers, fs: FS, at: Entry, open: set<int>, r: Regs, ev: seq<Event>)
    requires PairsOk(fs.code) && EntryOk(fs.code, |fs.code|, at)
    requires forall j :: j in open ==> 0 <= j < |fs.code| && fs.code[j].OpJmp?
    requires !Enter(cmp, fs.code, |fs.code|, open, at, r, ev).Stuck?
    ensures var n, c' := |fs.code|, fs.code + [OpJmp(NO_JUMP)];
            var o := Enter(cmp, fs.code, n, open, at, r, ev);
            Enter(cmp, c', n + 1, open + {n}, at, r, ev) == if o.Fall? then Exit(n, o.r, o.events) else o
  {
    hide Enter;
    var n, c' := |fs.code|, fs.code + [OpJmp(NO_JUMP)];
    StartFree(fs.code, n);
    PrefixEnter(cmp, fs.code, n, open, c', n + 1, open + {n}, at, r, ev);
  }

  // What waited leaves with what it brings, whatever the boolean is.
  lemma FixedAt(cmp: Answers, fs: FS, fs': FS, at: Entry, e: Exp, g: Given, k: Shape, fr: int, sense: bool, r: Regs,
                ev: seq<Event>)
    requires Ok(fs) && ExpOk(fs, e) && AlwaysJumps(e.k, sense) && EntryOk(fs.code, |fs.code|, at)
    requires Forced(k, sense) && KindIs(e.k, k) && DenotesAt(cmp, fs, at, e, g, fr, NO_JUMP, r, ev)
    requires fs'.code == fs.code + [OpJmp(NO_JUMP)] && fs'.jpc == Stay(e, sense)
    ensures CondAt(cmp, fs', at, Leave(e, sense) + ([|fs.code|] + fs.jpc), Test(g, k, sense), fr, sense, r, ev)
  {
    hide Run, Enter, Carried, Brings, HasTestSet, Keeps;
    var n, open := |fs.code|, Opens(fs, e);
    FixedOpen(e, fs.jpc, sense, n);
    FixedRun(cmp, fs, at, open, r, ev);
    var o := Enter(cmp, fs.code, n, open, at, r, ev);
    assert o.events + [] == o.events;
    if o.Fall? {
      LastBrings(fs, o.r, !sense);
    } else {
      AppendedControl(fs, OpJmp(NO_JUMP), o.j);
      SameBrings(fs.code, fs'.code, o.j, o.r, !sense);
      LeftAlong(fs.code, o.j, o.r, !sense);
      LeftAlong(fs.code, o.j, o.r, sense);
      NotKept(fs.code, o.j, o.r, !sense);
    }
  }

  lemma NotKept(c: Code, j: int, r: Regs, b: bool)
    ensures !HasTestSet(c, j) ==> Carried(c, j, r, b) == Bool(b)
  {
  }

  lemma FixedList(fs: FS, e: Exp, fs': FS, sense: bool)
    requires Ok(fs) && ExpOk(fs, e) && fs'.code == fs.code + [OpJmp(NO_JUMP)] && fs'.jpc == Stay(e, sense)
    requires fs'.nactvar == fs.nactvar <= fs'.freereg
    ensures var list := Leave(e, sense) + ([|fs.code|] + fs.jpc);
            Ok(fs') && OpenList(fs'.code, list) && Disjoint(list, fs'.jpc)
  {
    AppendPairs(fs.code, [OpJmp(NO_JUMP)]) by { assert PairsOk([OpJmp(NO_JUMP)]); }
    ConsDistinct(|fs.code|, fs.jpc);
    JoinedList(fs'.code, Leave(e, sense), [|fs.code|] + fs.jpc);
  }

  lemma GoIfFixed(cmp: Answers, fs0: FS, fs: FS, e: Exp, x: Expr, sense: bool)
    requires GenOk(cmp, fs0, fs, e, x) && AlwaysJumps(e.k, sense)
    ensures var (fs', e') := GoIf(fs, e, sense);
            CondOk(cmp, fs0, fs', Leave(e', sense), x, fs0.freereg, sense) && fs'.freereg == fs0.freereg
  {
    hide GoIf, Settles, Test, DenotesAt, CondAt;
    var (fs', e') := GoIf(fs, e, sense);
    var n := |fs.code|;
    FixedJumpIs(fs, e, sense);
    FixedOpen(e, fs.jpc, sense, n);
    FixedList(fs, e, fs', sense);
    StartFree(fs.code, n);
    PrefixSettles(fs.code, n, Opens(fs, e), fs'.code, n + 1, Opens(fs, e) + {n}, n);
    ExtOk(fs0, fs, n, Opens(fs, e));
    ExtMore(fs0, fs, n, Opens(fs, e), fs', n + 1, Opens(fs, e) + {n}, n);
    forall at, r, ev | EntryFor(fs0, at)
      ensures CondFor(cmp, fs0, fs', Leave(e', sense), x, fs0.freereg, sense, at, r, ev)
    {
      assert DenotesFor(cmp, fs0, fs, e, x, fs0.freereg, NO_JUMP, at, r, ev);
      EntriesOk(fs0, fs, n, Opens(fs, e), at);
      FixedAt(cmp, fs, fs', at, e, Give(cmp, x, EntryBrings(fs0.code, at, r), r), ShapeOf(x), fs0.freereg, sense, r,
              ev);
    }
  }

  // A constant loaded into a register.
  lemma LoadStep(cmp: Answers, c: Code, m: nat, open: set<int>, reg: int, k: Const, r: Regs, ev: seq<Event>)
    requires m < |c| && c[m] == LoadOf(reg, k) && m !in open
    ensures Run(cmp, c, m + 1, open, m, r, ev) == Fall(Put(r, reg, ConstValue(k)), ev)
  {
  }

  lemma LoadedAt(cmp: Answers, fs: FS, at: Entry, e: Exp, g: Given, fr: int, fs': FS, reg: int, r: Regs,
                 ev: seq<Event>)
    requires Ok(fs) && ExpOk(fs, e) && e.k.VConst? && EntryOk(fs.code, |fs.code|, at)
    requires fs'.code == Discharged(fs) + [LoadOf(reg, e.k.c)] && fs'.jpc == []
    requires DenotesAt(cmp, fs, at, e, g, fr, NO_JUMP, r, ev)
    ensures DenotesAt(cmp, fs', at, e.(k := VNonReloc(reg)), Loaded(g), fr, reg, r, ev)
  {
    hide Discharged, Run, Enter, Carried, Brings, HasTestSet;
    var n, more := |fs.code|, [LoadOf(reg, e.k.c)];
    var keep := AsSet(e.t) + AsSet(e.f);
    assert |fs'.code| == n + 1 && fs'.code[n] == more[0];
    EmitEnter(cmp, fs, more, keep, {}, n + 1, at, r, ev);
    assert keep + {} == keep && keep + AsSet(fs'.jpc) == keep;
    var o := Enter(cmp, fs.code, n, keep + AsSet(fs.jpc), at, r, ev);
    assert o.events + [] == o.events;
    if AtEnd(o, fs.jpc) {
      LoadStep(cmp, fs'.code, n, keep, reg, e.k.c, o.r, o.events);
    } else {
      ControlStays(fs, more, o.j);
      SameBrings(fs.code, fs'.code, o.j, o.r, true);
      SameBrings(fs.code, fs'.code, o.j, o.r, false);
    }
  }

  lemma OneMore(fs: FS, i: Instr)
    requires Ok(fs) && !TestMode(i) && !(i.OpLoadBool? && i.skip)
    ensures PairsOk(Discharged(fs) + [i])
  {
    DischargedPairs(fs);
    assert PairsOk([i]);
    AppendPairs(Discharged(fs), [i]);
  }


  // What loading a constant into `reg` gives.
  lemma LoadedOk(cmp: Answers, fs0: FS, fs: FS, e: Exp, x: Expr, fr: int, reg: int, fs': FS)
    requires Placed(fs0, fs, e) && Denotes(cmp, fs0, fs, e, x, fr, NO_JUMP) && e.k.VConst?
    requires fs'.code == Discharged(fs) + [LoadOf(reg, e.k.c)] && fs'.jpc == []
             && fs'.nactvar == fs.nactvar <= fs'.freereg
    ensures var e' := e.(k := VNonReloc(reg));
            && Ext(fs0, fs', |fs'.code|, Opens(fs', e')) && OpenList(fs'.code, e.t) && OpenList(fs'.code, e.f)
            && forall at, r, ev :: EntryFor(fs0, at) ==> LoadedFor(cmp, fs0, fs', e', x, fr, reg, at, r, ev)
  {
    hide Run, Enter, DenotesAt, Discharged, Settles;
    var i, n, keep := LoadOf(reg, e.k.c), |fs.code|, AsSet(e.t) + AsSet(e.f);
    var e' := e.(k := VNonReloc(reg));
    OneMore(fs, i);
    ListStays(fs, [i], e.t);
    ListStays(fs, [i], e.f);
    EmitSettles(fs, [i], keep, {}, n + 1);
    assert keep + {} == Opens(fs', e');
    ExtOk(fs0, fs, n, Opens(fs, e));
    ExtMore(fs0, fs, n, Opens(fs, e), fs', n + 1, Opens(fs', e'), n);
    forall at, r, ev | EntryFor(fs0, at) ensures LoadedFor(cmp, fs0, fs', e', x, fr, reg, at, r, ev) {
      assert DenotesFor(cmp, fs0, fs, e, x, fr, NO_JUMP, at, r, ev);
      EntriesOk(fs0, fs, n, Opens(fs, e), at);
      LoadedAt(cmp, fs, at, e, Give(cmp, x, EntryBrings(fs0.code, at, r), r), fr, fs', reg, r, ev);
    }
  }

  ghost predicate LoadedFor(cmp: Answers, fs0: FS, fs: FS, e: Exp, x: Expr, fr: int, ex: int, at: Entry, r: Regs,
                            ev: seq<Event>)
  {
    DenotesAt(cmp, fs, at, e, Loaded(Give(cmp, x, EntryBrings(fs0.code, at, r), r)), fr, ex, r, ev)
  }

  // Any other constant is loaded and tested.
  lemma GoIfLoaded(cmp: Answers, fs0: FS, fs: FS, e: Exp, x: Expr, sense: bool)
    requires GenOk(cmp, fs0, fs, e, x) && e.k.VConst? && !NeverJumps(e.k, sense) && !AlwaysJumps(e.k, sense)
    ensures var (fs', e') := GoIf(fs, e, sense);
            CondOk(cmp, fs0, fs', Leave(e', sense), x, fs0.freereg, sense) && fs'.freereg == fs0.freereg
  {
    hide Denotes, CondOk, Discharged, Ext, GoIf, Emit, OpenList, Disjoint, LoadedFor, InSomeForm, ListsFor;
    var reg := fs.freereg;
    var fs1 := Emit(Reserve(fs), LoadOf(reg, e.k.c));
    var e1 := e.(k := VNonReloc(reg));
    var (fs', e') := GoIf(fs, e, sense);
    ExtOk(fs0, fs, |fs.code|, Opens(fs, e));
    LoadedTested(fs, e, sense);
    ReservedEmit(fs, LoadOf(reg, e.k.c));
    LoadedOk(cmp, fs0, fs, e, x, fs0.freereg, reg, fs1);
    LoadedForms(cmp, fs0, fs1, e1, x, fs0.freereg, reg);
    assert ExpOk(fs1, e1) by { LoadedExp(fs, e, fs1, reg); }
    TestedOk(cmp, fs0, fs1, e1, x, fs0.freereg, sense, fs', Leave(e', sense));
  }

  lemma ReservedEmit(fs: FS, i: Instr)
    ensures var fs1 := Emit(Reserve(fs), i);
            && fs1.code == Discharged(fs) + [i] && fs1.jpc == [] && fs1.nactvar == fs.nactvar
            && fs1.freereg == fs.freereg + 1
  {
  }

  lemma LoadedExp(fs: FS, e: Exp, fs1: FS, reg: int)
    requires ExpOk(fs, e) && OpenList(fs1.code, e.t) && OpenList(fs1.code, e.f) && fs1.jpc == []
    requires 0 <= reg == fs1.freereg - 1
    ensures ExpOk(fs1, e.(k := VNonReloc(reg)))
  {
  }

  // A register above those that are kept is not among them anyway.
  lemma LoadedForms(cmp: Answers, fs0: FS, fs: FS, e: Exp, x: Expr, fr: int, reg: int)
    requires reg >= fr && forall at, r, ev :: EntryFor(fs0, at) ==> LoadedFor(cmp, fs0, fs, e, x, fr, reg, at, r, ev)
    ensures forall at, r, ev :: EntryFor(fs0, at) ==> InSomeForm(cmp, fs0, fs, e, x, fr, at, r, ev)
  {
    hide Enter, Opens, Arrived, Carried;
    forall at, r, ev | EntryFor(fs0, at) ensures InSomeForm(cmp, fs0, fs, e, x, fr, at, r, ev) {
      assert LoadedFor(cmp, fs0, fs, e, x, fr, reg, at, r, ev);
    }
  }

  lemma LoadedTested(fs: FS, e: Exp, sense: bool)
    requires e.k.VConst? && !NeverJumps(e.k, sense) && !AlwaysJumps(e.k, sense) && fs.nactvar <= fs.freereg
    ensures var reg := fs.freereg;
            var fs1 := Emit(Reserve(fs), LoadOf(reg, e.k.c));
            var (fs', e') := GoIf(fs, e, sense);
            && fs'.jpc == Stay(e, sense) && fs'.freereg == fs.freereg && fs'.nactvar == fs.nactvar
            && fs'.code == Discharged(fs1) + [OpTestSet(NO_REG, reg, !sense), OpJmp(NO_JUMP)]
            && Leave(e', sense) == Leave(e, sense) + [|fs1.code| + 1]
  {
    hide CondJump, Discharged;
    var reg := fs.freereg;
    var fs1 := Emit(Reserve(fs), LoadOf(reg, e.k.c));
    var (fs', e') := GoIf(fs, e, sense);
    assert Discharge2AnyReg(fs, e) == (fs1, e.(k := VNonReloc(reg)));
    var fs2 := FreeExp(fs1, e.(k := VNonReloc(reg)));
    CondJumpIs(fs2, OpTestSet(NO_REG, reg, !sense));
    assert Discharged(fs2) == Discharged(fs1) by { SameCode(fs1, fs2); }
    assert fs'.jpc == Stay(e, sense);
    assert Leave(e', sense) == Leave(e, sense) + [|fs1.code| + 1];
  }

  lemma SameCode(fs1: FS, fs2: FS)
    requires fs2.code == fs1.code && fs2.jpc == fs1.jpc
    ensures Discharged(fs2) == Discharged(fs1)
  {
  }

  // ----- a negation or a comparison still to be placed ----------------------------------

  lemma LimitFree(fs: FS, e: Exp)
    requires Ok(fs) && ExpOk(fs, e)
    ensures !Guarded(fs.code, Limit(fs, e))
    ensures forall j :: j in e.t || j in e.f ==> j < Limit(fs, e)
  {
    StartFree(fs.code, |fs.code|);
    match e.k
    case VReloc(pc) => if pc > 0 { assert PairAt(fs.code, pc - 1); }
    case VJmp(pc) => if pc > 1 { assert PairAt(fs.code, pc - 2); }
    case _ =>
  }

  // The code that ends up testing what `e` still holds back.
  ghost predicate Tests(fs: FS, e: Exp, c: Code, sense: bool)
    requires KindOk(fs, e)
  {
    var m := Limit(fs, e);
    && |c| == m + 2 && c[m + 1].OpJmp? && (forall i :: 0 <= i < m ==> c[i] == fs.code[i])
    && (match e.k
        case VReloc(pc) => c[m] == OpTest(fs.code[pc].b, sense)
        case VJmp(pc) => c[m] == fs.code[m].(cond := if sense then !fs.code[m].cond else fs.code[m].cond)
        case _ => false)
  }

  // Behind the limit, what is tested is the value that has arrived.
  lemma TestsStep(cmp: Answers, fs: FS, e: Exp, c: Code, sense: bool, open: set<int>, r: Regs, ev: seq<Event>)
    requires KindOk(fs, e) && Tests(fs, e, c, sense) && Limit(fs, e) !in open && Limit(fs, e) + 1 in open
    ensures var m, a := Limit(fs, e), Arrived(cmp, fs, e, r);
            Run(cmp, c, m + 2, open, m, r, ev)
              == (if IsFalse(a.v) == sense then Exit(m + 1, r, ev + a.events) else Fall(r, ev + a.events))
    ensures Arrived(cmp, fs, e, r).v.Bool?
  {
    TestStep(cmp, c, Limit(fs, e), open, r, ev);
    assert ev + [] == ev;
  }

  lemma TestsCarried(fs: FS, e: Exp, c: Code, sense: bool, j: int)
    requires KindOk(fs, e) && Tests(fs, e, c, sense) && 0 <= j < Limit(fs, e)
    ensures SameControl(fs.code, c, j)
  {
  }

  lemma TestsCarriedLast(fs: FS, e: Exp, c: Code, sense: bool, r: Regs, b: bool)
    requires KindOk(fs, e) && Tests(fs, e, c, sense)
    ensures !HasTestSet(c, Limit(fs, e) + 1) && Carried(c, Limit(fs, e) + 1, r, b) == Bool(b)
  {
  }

  // Nothing waits at the end of code that holds something back.
  lemma HeldBackAt(cmp: Answers, fs: FS, fs': FS, at: Entry, e: Exp, g: Given, k: Shape, fr: int, sense: bool, r: Regs,
                   ev: seq<Event>)
    requires Ok(fs) && ExpOk(fs, e) && (e.k.VReloc? || e.k.VJmp?) && KindIs(e.k, k)
             && EntryOk(fs.code, Limit(fs, e), at)
    requires Tests(fs, e, fs'.code, sense) && fs'.jpc == Stay(e, sense)
    requires DenotesAt(cmp, fs, at, e, g, fr, NO_JUMP, r, ev)
    ensures CondAt(cmp, fs', at, Leave(e, sense) + [Limit(fs, e) + 1], Test(g, k, sense), fr, sense, r, ev)
  {
    hide Run, Enter, KindOk, Tests, Arrived, Limit, Carried, Brings, HasTestSet, Guarded, PairsOk;
    var m := Limit(fs, e);
    var open' := AsSet(e.t) + AsSet(e.f) + {m + 1};
    HeldBackShape(fs, e, fs'.code, sense);
    LimitFree(fs, e);
    UnionOpen(e, sense, m + 1);
    HeldBackRun(cmp, fs, fs'.code, at, e, sense, Opens(fs, e), open', r, ev);
    var o := Enter(cmp, fs.code, m, Opens(fs, e), at, r, ev);
    if o.Fall? {
      TestsStep(cmp, fs, e, fs'.code, sense, open', o.r, o.events);
      TestsCarriedLast(fs, e, fs'.code, sense, o.r, !sense);
    } else {
      assert o.j in e.t || o.j in e.f;
      TestsCarried(fs, e, fs'.code, sense, o.j);
      SameBrings(fs.code, fs'.code, o.j, o.r, !sense);
      LeftAlong(fs.code, o.j, o.r, o.j in e.t);
    }
  }

  lemma HeldBackShape(fs: FS, e: Exp, c: Code, sense: bool)
    requires ExpOk(fs, e) && (e.k.VReloc? || e.k.VJmp?) && Tests(fs, e, c, sense)
    ensures fs.jpc == [] && |c| == Limit(fs, e) + 2
    ensures forall j :: j in e.t || j in e.f ==> 0 <= j
  {
  }

  lemma HeldBackRun(cmp: Answers, fs: FS, c: Code, at: Entry, e: Exp, sense: bool, open: set<int>, open': set<int>,
                    r: Regs, ev: seq<Event>)
    requires Ok(fs) && ExpOk(fs, e) && (e.k.VReloc? || e.k.VJmp?) && EntryOk(fs.code, Limit(fs, e), at)
    requires Tests(fs, e, c, sense) && open == Opens(fs, e) && open' == AsSet(e.t) + AsSet(e.f) + {Limit(fs, e) + 1}
    requires !Enter(cmp, fs.code, Limit(fs, e), open, at, r, ev).Stuck?
    ensures var m := Limit(fs, e);
            var o := Enter(cmp, fs.code, m, open, at, r, ev);
            Enter(cmp, c, m + 2, open', at, r, ev) == if o.Fall? then Run(cmp, c, m + 2, open', m, o.r, o.events)
                                                       else o
  {
    hide Enter;
    LimitFree(fs, e);
    PrefixEnter(cmp, fs.code, Limit(fs, e), open, c, Limit(fs, e) + 2, open', at, r, ev);
  }

  lemma GoIfHeldBack(cmp: Answers, fs0: FS, fs: FS, e: Exp, x: Expr, sense: bool, fs': FS, list: seq<int>)
    requires GenOk(cmp, fs0, fs, e, x) && (e.k.VReloc? || e.k.VJmp?)
    requires Tests(fs, e, fs'.code, sense) && fs'.jpc == Stay(e, sense) && list == Leave(e, sense) + [Limit(fs, e) + 1]
    requires fs'.freereg == fs.freereg && fs'.nactvar == fs.nactvar
    ensures CondOk(cmp, fs0, fs', list, x, fs0.freereg, sense)
  {
    hide Settles, DenotesAt, CondAt, Test;
    var m := Limit(fs, e);
    LimitFree(fs, e);
    TestsPairs(fs, e, fs'.code, sense);
    TestsLists(fs, e, fs'.code, sense);
    SnocList(fs'.code, Leave(e, sense), m + 1);
    UnionOpen(e, sense, m + 1);
    ExtOk(fs0, fs, m, Opens(fs, e));
    PrefixSettles(fs.code, m, Opens(fs, e), fs'.code, m + 2, AsSet(list) + AsSet(fs'.jpc), m);
    ExtMore(fs0, fs, m, Opens(fs, e), fs', m + 2, AsSet(list) + AsSet(fs'.jpc), m);
    forall at, r, ev | EntryFor(fs0, at) ensures CondFor(cmp, fs0, fs', list, x, fs0.freereg, sense, at, r, ev) {
      assert DenotesFor(cmp, fs0, fs, e, x, fs0.freereg, NO_JUMP, at, r, ev);
      EntriesOk(fs0, fs, m, Opens(fs, e), at);
      HeldBackAt(cmp, fs, fs', at, e, Give(cmp, x, EntryBrings(fs0.code, at, r), r), ShapeOf(x), fs0.freereg, sense, r,
                 ev);
    }
  }

  lemma TestsPairs(fs: FS, e: Exp, c: Code, sense: bool)
    requires Ok(fs) && ExpOk(fs, e) && Tests(fs, e, c, sense)
    ensures PairsOk(c) && TestMode(c[Limit(fs, e)])
  {
    LimitFree(fs, e);
    forall i | 0 <= i < |c| ensures PairAt(c, i) {
      if i < Limit(fs, e) { assert PairAt(fs.code, i); }
    }
  }

  lemma TestsLists(fs: FS, e: Exp, c: Code, sense: bool)
    requires Ok(fs) && ExpOk(fs, e) && Tests(fs, e, c, sense)
    ensures OpenList(c, e.t) && OpenList(c, e.f)
  {
    LimitFree(fs, e);
  }

  lemma GoIfReloc(cmp: Answers, fs0: FS, fs: FS, e: Exp, x: Expr, sense: bool)
    requires GenOk(cmp, fs0, fs, e, x) && e.k.VReloc?
    ensures var (fs', e') := GoIf(fs, e, sense);
            CondOk(cmp, fs0, fs', Leave(e', sense), x, fs0.freereg, sense) && fs'.freereg == fs0.freereg
  {
    var m := |fs.code| - 1;
    var (fs', e') := GoIf(fs, e, sense);
    var i := OpTest(fs.code[m].b, sense);
    var fs1 := fs.(code := fs.code[..m]);
    CondJumpIs(fs1, i);
    assert Discharged(fs1) == fs1.code;
    assert fs'.code == fs.code[..m] + [i, OpJmp(NO_JUMP)];
    GoIfHeldBack(cmp, fs0, fs, e, x, sense, fs', Leave(e', sense));
  }

  lemma GoIfJmp(cmp: Answers, fs0: FS, fs: FS, e: Exp, x: Expr, sense: bool)
    requires GenOk(cmp, fs0, fs, e, x) && e.k.VJmp?
    ensures var (fs', e') := GoIf(fs, e, sense);
            CondOk(cmp, fs0, fs', Leave(e', sense), x, fs0.freereg, sense) && fs'.freereg == fs0.freereg
  {
    var (fs', e') := GoIf(fs, e, sense);
    GoIfHeldBack(cmp, fs0, fs, e, x, sense, fs', Leave(e', sense));
  }

  lemma VarsDenote(cmp: Answers, fs0: FS, fs: FS, e: Exp, x: Expr)
    requires GenOk(cmp, fs0, fs, e, x)
    ensures GenOk(cmp, fs0, fs, DischargeVars(e), x)
  {
    hide Enter, Settles;
    var e1 := DischargeVars(e);
    assert Opens(fs, e1) == Opens(fs, e) && Limit(fs, e1) == Limit(fs, e);
    forall at, r, ev | EntryFor(fs0, at) ensures DenotesFor(cmp, fs0, fs, e1, x, fs0.freereg, NO_JUMP, at, r, ev) {
      assert DenotesFor(cmp, fs0, fs, e, x, fs0.freereg, NO_JUMP, at, r, ev);
    }
  }

  lemma GoIfLeaves(fs: FS, e: Exp, x: Expr, sense: bool)
    requires KindIs(e.k, ShapeOf(x)) && ListsFor(e, x)
    ensures Leave(GoIf(fs, e, sense).1, sense) == [] <==> !Leaving(x, sense)
  {
    hide Discharge2AnyReg, InvertJump, LeavesTrue, LeavesFalse;
  }

  // Testing an expression: the code goes on or leaves as testing what it gives does.
  lemma GoIfOk(cmp: Answers, fs0: FS, fs: FS, e: Exp, x: Expr, sense: bool)
    requires GenOk(cmp, fs0, fs, e, x)
    ensures var (fs', e') := GoIf(fs, e, sense);
            && CondOk(cmp, fs0, fs', Leave(e', sense), x, fs0.freereg, sense) && fs'.freereg == fs0.freereg
            && (Leave(e', sense) == [] <==> !Leaving(x, sense))
  {
    var e1 := DischargeVars(e);
    VarsDenote(cmp, fs0, fs, e, x);
    GoIfLeaves(fs, e, x, sense);
    assert GoIf(fs, e, sense) == GoIf(fs, e1, sense);
    hide GenOk, GoIf, CondOk;
    match e1.k
    case VConst(_) =>
      if NeverJumps(e1.k, sense) {
        GoIfSkip(cmp, fs0, fs, e1, x, sense);
      } else if AlwaysJumps(e1.k, sense) {
        GoIfFixed(cmp, fs0, fs, e1, x, sense);
      } else {
        GoIfLoaded(cmp, fs0, fs, e1, x, sense);
      }
    case VNonReloc(_) => GoIfReg(cmp, fs0, fs, e1, x, sense);
    case VReloc(_) => GoIfReloc(cmp, fs0, fs, e1, x, sense);
    case VJmp(_) => GoIfJmp(cmp, fs0, fs, e1, x, sense);
  }
}

// Comparisons, whole expressions, and the values they leave in registers.

module LcodeWhole {
  import opened LcodeVm
  import opened LcodeGiven
  import opened LcodeGen
  import opened LcodeResolve
  import opened LcodePatch
  import opened LcodeMeaning
  import opened LcodeCond
  import opened LcodeNot
  import opened LcodeExpr

  // ----- comparisons --------------------------------------------------------------------

  // The code gets to its end with what the operands give in `ra` and `rb`.
  ghost predicate PairAt2(cmp: Answers, fs: FS, at: Entry, p: Given, ra: int, q: Given, rb: int, fr: int, r: Regs,
                          ev: seq<Event>)
  {
    var o := Enter(cmp, fs.code, |fs.code|, AsSet(fs.jpc), at, r, ev);
    && AtEnd(o, fs.jpc) && Same(r, o.r, fr, NO_JUMP) && Rk(o.r, ra) == p.v && Rk(o.r, rb) == q.v
    && o.events == ev + p.events + q.events
  }

  lemma OperandReg(cmp: Answers, fs0: FS, fs: FS, e: Exp, x: Expr)
    requires OperandOk(cmp, fs0, fs, e, x)
    ensures RegOf(e) >= BITRK || 0 <= RegOf(e) < fs.freereg
    ensures fs0.freereg <= fs.freereg && 0 <= fs0.nactvar <= fs0.freereg && fs.nactvar == fs0.nactvar
  {
    ExtOk(fs0, fs, |fs.code|, AsSet(fs.jpc));
  }

  lemma PairRun(cmp: Answers, fs0: FS, fs1: FS, e1: Exp, a: Expr, fs2: FS, e2: Exp, b: Expr, at: Entry, r: Regs,
                ev: seq<Event>)
    requires Operands(cmp, fs0, fs1, e1, a, fs2, e2, b) && EntryFor(fs0, at)
    ensures var p := Give(cmp, a, EntryBrings(fs0.code, at, r), r);
            var q := Give(cmp, b, OperandWay(a, p.way), r);
            PairAt2(cmp, fs2, at, p, RegOf(e1), q, RegOf(e2), fs0.freereg, r, ev)
  {
    hide Run, Enter, Settles, OperandWay, Give, Rk, RegOf, Brings;
    var n1, n2 := |fs1.code|, |fs2.code|;
    var p := Give(cmp, a, EntryBrings(fs0.code, at, r), r);
    assert OperandFor(cmp, fs0, fs1, e1, a, at, r, ev);
    OperandReg(cmp, fs0, fs1, e1, a);
    var o1 := Enter(cmp, fs1.code, n1, AsSet(fs1.jpc), at, r, ev);
    assert {} + AsSet(fs1.jpc) == AsSet(fs1.jpc) && {} + AsSet(fs2.jpc) == AsSet(fs2.jpc);
    EntriesOk(fs0, fs1, n1, AsSet(fs1.jpc), at);
    ExtEnter(cmp, fs1, fs2, {}, n2, AsSet(fs2.jpc), at, r, ev);
    assert OperandFor(cmp, fs1, fs2, e2, b, Onwards(n1, o1), o1.r, o1.events);
    GiveSame(cmp, b, OperandWay(a, p.way), fs0.nactvar, r, o1.r);
    var o2 := Enter(cmp, fs2.code, n2, AsSet(fs2.jpc), Onwards(n1, o1), o1.r, o1.events);
    RkSame(o1.r, o2.r, RegOf(e1), fs1.freereg);
  }

  lemma RkSame(r: Regs, r': Regs, x: int, n: int)
    requires Same(r, r', n, NO_JUMP) && (x >= BITRK || 0 <= x < n)
    ensures Rk(r', x) == Rk(r, x)
  {
  }

  // Two operands were put in registers and their registers freed again.
  ghost predicate Operands(cmp: Answers, fs0: FS, fs1: FS, e1: Exp, a: Expr, fs2: FS, e2: Exp, b: Expr) {
    OperandOk(cmp, fs0, fs1, e1, a) && OperandOk(cmp, fs1, fs2, e2, b) && LocalsBelow(b, fs0.nactvar)
  }

  lemma FreeBoth(cmp: Answers, fs0: FS, fs1: FS, e1: Exp, a: Expr, fs2: FS, e2: Exp, b: Expr)
    requires Operands(cmp, fs0, fs1, e1, a, fs2, e2, b)
    ensures FreeExp(FreeExp(fs2, e2), e1) == fs2.(freereg := fs0.freereg)
    ensures e2.k.VNonReloc? && e2.k.reg >= fs2.nactvar ==> e2.k.reg == fs2.freereg - 1
    ensures e1.k.VNonReloc? && e1.k.reg >= fs2.nactvar ==> e1.k.reg == FreeExp(fs2, e2).freereg - 1
  {
  }

  lemma AtEndRun(cmp: Answers, c: Code, n: nat, open: set<int>, o: Outcome)
    requires n <= |c| && !o.Stuck?
    ensures Run(cmp, c, n, open, n, o.r, o.events) == Fall(o.r, o.events)
  {
  }

  lemma CompAt(cmp: Answers, fs: FS, at: Entry, rel: RelOp, p: Given, ra: int, q: Given, rb: int, fr: int, fs': FS,
               r: Regs, ev: seq<Event>)
    requires Ok(fs) && EntryOk(fs.code, |fs.code|, at) && PairAt2(cmp, fs, at, p, ra, q, rb, fr, r, ev)
    requires fs'.code == Discharged(fs) + [CompInstr(rel, ra, rb), OpJmp(NO_JUMP)] && fs'.jpc == []
    ensures var c := CompareValues(cmp, rel, p.v, q.v);
            DenotesAt(cmp, fs', at, Exp(VJmp(|fs.code| + 1), [], []),
                      Given(c.v, ToEnd(Nothing), p.events + q.events + c.events), fr, NO_JUMP, r, ev)
  {
    hide Discharged, Run, Enter, CompInstr, CompareValues, Rk;
    var n, i := |fs.code|, CompInstr(rel, ra, rb);
    var e := Exp(VJmp(n + 1), [], []);
    var none: set<int> := {};
    assert none + AsSet(fs.jpc) == AsSet(fs.jpc) && none + none == none && Opens(fs', e) == none;
    EmitEnter(cmp, fs, [i, OpJmp(NO_JUMP)], none, none, n, at, r, ev);
    var o := Enter(cmp, fs.code, n, AsSet(fs.jpc), at, r, ev);
    assert |fs'.code| == n + 2 && fs'.code[n] == i;
    AtEndRun(cmp, fs'.code, n, none, o);
    CompMeans(cmp, rel, ra, rb, o.r);
    var c := CompareValues(cmp, rel, p.v, q.v);
    assert ev + p.events + q.events + c.events == ev + (p.events + q.events + c.events);
  }

  // The instruction answers the comparison, with the operands exchanged or the answer
  // negated.
  lemma CompMeans(cmp: Answers, rel: RelOp, ra: int, rb: int, r: Regs)
    ensures var i := CompInstr(rel, ra, rb);
            i.OpComp? && CompareValues(cmp, rel, Rk(r, ra), Rk(r, rb)) ==
              Result(Bool(cmp(i.op, Rk(r, i.x), Rk(r, i.y)) == i.cond), [Event(i.op, Rk(r, i.x), Rk(r, i.y))])
  {
  }

  lemma CompOk(cmp: Answers, fs0: FS, fs1: FS, e1: Exp, a: Expr, fs2: FS, e2: Exp, b: Expr, rel: RelOp)
    requires Operands(cmp, fs0, fs1, e1, a, fs2, e2, b)
    ensures var fs3 := FreeExp(FreeExp(fs2, e2), e1);
            var fs' := CondJump(fs3, CompInstr(rel, RegOf(e1), RegOf(e2))).0;
            GenOk(cmp, fs0, fs', Exp(VJmp(|fs3.code| + 1), [], []), Compare(rel, a, b))
  {
    var fs3 := fs2.(freereg := fs0.freereg);
    var i, n := CompInstr(rel, RegOf(e1), RegOf(e2)), |fs2.code|;
    var e, x := Exp(VJmp(n + 1), [], []), Compare(rel, a, b);
    FreeBoth(cmp, fs0, fs1, e1, a, fs2, e2, b);
    var fs' := CondJump(fs3, i).0;
    CondJumpIs(fs3, i);
    assert Discharged(fs3) == Discharged(fs2);
    CompPlaced(cmp, fs0, fs1, e1, a, fs2, e2, b, i, fs');
    hide Operands, Placed, Ext, PairAt2, CondJump, DenotesAt, Discharged, Give, CompareValues;
    forall at, r, ev | EntryFor(fs0, at)
      ensures DenotesFor(cmp, fs0, fs', e, x, fs0.freereg, NO_JUMP, at, r, ev)
    {
      PairRun(cmp, fs0, fs1, e1, a, fs2, e2, b, at, r, ev);
      EntriesOk(fs0, fs2, n, AsSet(fs2.jpc), at);
      var p := Give(cmp, a, EntryBrings(fs0.code, at, r), r);
      CompAt(cmp, fs2, at, rel, p, RegOf(e1), Give(cmp, b, OperandWay(a, p.way), r), RegOf(e2), fs0.freereg, fs', r,
             ev);
      CompareIs(cmp, rel, a, b, EntryBrings(fs0.code, at, r), r);
    }
  }

  lemma CompareIs(cmp: Answers, rel: RelOp, a: Expr, b: Expr, w: Brought, r: Regs)
    ensures var p := Give(cmp, a, w, r);
            var q := Give(cmp, b, OperandWay(a, p.way), r);
            var c := CompareValues(cmp, rel, p.v, q.v);
            Give(cmp, Compare(rel, a, b), w, r) == Given(c.v, ToEnd(Nothing), p.events + q.events + c.events)
  {
  }

  lemma OperandsExt(cmp: Answers, fs0: FS, fs1: FS, e1: Exp, a: Expr, fs2: FS, e2: Exp, b: Expr)
    requires Operands(cmp, fs0, fs1, e1, a, fs2, e2, b)
    ensures Ext(fs0, fs2, |fs2.code|, AsSet(fs2.jpc))
  {
    hide Settles, OperandFor;
    ExtOk(fs0, fs1, |fs1.code|, AsSet(fs1.jpc));
    ExtMore(fs0, fs1, |fs1.code|, AsSet(fs1.jpc), fs2, |fs2.code|, AsSet(fs2.jpc), |fs1.code|);
  }

  lemma CompPlaced(cmp: Answers, fs0: FS, fs1: FS, e1: Exp, a: Expr, fs2: FS, e2: Exp, b: Expr, i: Instr, fs': FS)
    requires Operands(cmp, fs0, fs1, e1, a, fs2, e2, b) && i.OpComp? && fs'.freereg == fs0.freereg
    requires fs'.code == Discharged(fs2) + [i, OpJmp(NO_JUMP)] && fs'.jpc == [] && fs'.nactvar == fs2.nactvar
    ensures Placed(fs0, fs', Exp(VJmp(|fs2.code| + 1), [], [])) && Ok(fs2) && Ext(fs0, fs2, |fs2.code|, AsSet(fs2.jpc))
  {
    hide Operands, Settles, Discharged;
    var n, e := |fs2.code|, Exp(VJmp(|fs2.code| + 1), [], []);
    OperandsExt(cmp, fs0, fs1, e1, a, fs2, e2, b);
    ExtOk(fs0, fs2, n, AsSet(fs2.jpc));
    CondPairsOk(fs2, i);
    EmitSettles(fs2, [i, OpJmp(NO_JUMP)], {}, {}, n);
    assert {} + AsSet(fs2.jpc) == AsSet(fs2.jpc) && {} + {} == Opens(fs', e);
    ExtMore(fs0, fs2, n, AsSet(fs2.jpc), fs', n, Opens(fs', e), n);
  }

  // ----- the most registers used never shrinks -------------------------------------------

  lemma GoIfMax(fs: FS, e: Exp, sense: bool)
    ensures GoIf(fs, e, sense).0.maxstack >= fs.maxstack
  {
  }

  lemma CodeNotMax(fs: FS, e: Exp)
    ensures CodeNot(fs, e).0.maxstack >= fs.maxstack
  {
    CodeNotIs(fs, e);
  }

  lemma Exp2RKMax(fs: FS, e: Exp)
    ensures Exp2RK(fs, e).0.maxstack >= fs.maxstack
  {
    Exp2AnyRegMax(fs, e);
    Exp2AnyRegMax(Exp2Val(fs, e).0, Exp2Val(fs, e).1);
  }

  lemma Exp2AnyRegMax(fs: FS, e: Exp)
    ensures Exp2AnyReg(fs, e).0.maxstack >= fs.maxstack
  {
    var e1 := DischargeVars(e);
    var fs1 := FreeExp(fs, e1);
    if e1.k.VNonReloc? { Exp2RegMax(fs, e1, e1.k.reg); }
    Exp2RegMax(Reserve(fs1), e1, fs1.freereg);
  }

  lemma CodeCompMax(fs: FS, rel: RelOp, e1: Exp, e2: Exp)
    ensures CodeComp(fs, rel, e1, e2).0.maxstack >= Exp2RK(Exp2RK(fs, e1).0, e2).0.maxstack
  {
    hide Exp2RK;
  }

  lemma {:induction false} GenMax(fs: FS, x: Expr)
    ensures Gen(fs, x).0.maxstack >= fs.maxstack
    decreases x
  {
    hide CodeComp, CodeNot, Exp2RK, GoIfTrue, GoIfFalse;
    match x
    case Local(_) =>
    case Constant(_) =>
    case Not(a) =>
      GenMax(fs, a);
      CodeNotMax(Gen(fs, a).0, Gen(fs, a).1);
    case And(a, b) =>
      GenMax(fs, a);
      GoIfMax(Gen(fs, a).0, Gen(fs, a).1, true);
      GenMax(GoIfTrue(Gen(fs, a).0, Gen(fs, a).1).0, b);
    case Or(a, b) =>
      GenMax(fs, a);
      GoIfMax(Gen(fs, a).0, Gen(fs, a).1, false);
      GenMax(GoIfFalse(Gen(fs, a).0, Gen(fs, a).1).0, b);
    case Compare(rel, a, b) =>
      GenMax(fs, a);
      var (fs2, e2) := Exp2RK(Gen(fs, a).0, Gen(fs, a).1);
      Exp2RKMax(Gen(fs, a).0, Gen(fs, a).1);
      GenMax(fs2, b);
      var (fs3, e3) := Gen(fs2, b);
      Exp2RKMax(fs3, e2);
      Exp2RKMax(Exp2RK(fs3, e2).0, e3);
      CodeCompMax(fs3, rel, e2, e3);
  }

  // ----- whole expressions ------------------------------------------------------------------

  // The second operand of `and` and `or`.
  lemma SecondOk(cmp: Answers, fs: FS, fs2: FS, list: seq<int>, a: Expr, sense: bool, fs3: FS, e3: Exp, b: Expr)
    requires CondOk(cmp, fs, fs2, list, a, fs.freereg, sense) && fs2.freereg == fs.freereg
    requires list == [] <==> !Leaving(a, sense)
    requires GenOk(cmp, fs2, fs3, e3, b) && LocalsBelow(b, fs.nactvar)
    ensures GenOk(cmp, fs, fs3, WithList(DischargeVars(e3), list, sense), Joined(a, b, sense))
  {
    hide CondOk, GenOk, Leaving;
    VarsDenote(cmp, fs2, fs3, e3, b);
    JoinOk(cmp, fs, fs2, list, a, sense, fs3, DischargeVars(e3), b);
  }

  lemma CondStart(cmp: Answers, fs: FS, fs2: FS, list: seq<int>, a: Expr, sense: bool)
    requires CondOk(cmp, fs, fs2, list, a, fs.freereg, sense)
    ensures Ok(fs2) && fs2.nactvar == fs.nactvar
  {
  }

  // The first operand of a comparison is already in its register when the second one comes.
  lemma CompareOk(cmp: Answers, fs: FS, fs2: FS, e2: Exp, a: Expr, fs3: FS, e3: Exp, b: Expr, rel: RelOp)
    requires OperandOk(cmp, fs, fs2, e2, a) && GenOk(cmp, fs2, fs3, e3, b) && LocalsBelow(b, fs.nactvar)
    requires Exp2RK(fs3, e3).0.maxstack < MAXSTACK
    ensures Exp2RK(fs3, e2) == (fs3, e2)
    ensures GenOk(cmp, fs, CodeComp(fs3, rel, e2, e3).0, CodeComp(fs3, rel, e2, e3).1, Compare(rel, a, b))
  {
    hide Exp2RK, GenOk, OperandOk, CondJump;
    var (fs4, o2) := Exp2RK(fs3, e3);
    Exp2RKOk(cmp, fs2, fs3, e3, b);
    SecondNoop(cmp, fs, fs2, e2, a, fs3);
    CompOk(cmp, fs, fs2, e2, a, fs4, o2, b, rel);
  }

  // The code that `Gen` generates gives what the expression gives, however control comes to it.
  lemma {:induction false} GenGives(cmp: Answers, fs: FS, x: Expr)
    requires Ok(fs) && LocalsBelow(x, fs.nactvar) && Gen(fs, x).0.maxstack < MAXSTACK
    ensures GenOk(cmp, fs, Gen(fs, x).0, Gen(fs, x).1, x)
    decreases x
  {
    hide GenOk, CondOk, OperandOk, CodeComp, CodeNot, Exp2RK, GoIfTrue, GoIfFalse, PairsOk, OpenList, WithList;
    match x
    case Local(reg) => LocalOk(cmp, fs, reg);
    case Constant(c) => ConstantOk(cmp, fs, c);
    case Not(a) =>
      var (fs1, e1) := Gen(fs, a);
      CodeNotMax(fs1, e1);
      GenGives(cmp, fs, a);
      CodeNotOk(cmp, fs, fs1, e1, a);
    case And(a, b) => JoinGenGives(cmp, fs, a, b, true);
    case Or(a, b) => JoinGenGives(cmp, fs, a, b, false);
    case Compare(rel, a, b) =>
      var (fs1, e1) := Gen(fs, a);
      var (fs2, e2) := Exp2RK(fs1, e1);
      var (fs3, e3) := Gen(fs2, b);
      CodeCompMax(fs3, rel, e2, e3);
      Exp2RKMax(Exp2RK(fs3, e2).0, e3);
      Exp2RKMax(fs3, e2);
      GenMax(fs2, b);
      Exp2RKMax(fs1, e1);
      GenGives(cmp, fs, a);
      Exp2RKOk(cmp, fs, fs1, e1, a);
      OperandStart(cmp, fs, fs2, e2, a);
      GenGives(cmp, fs2, b);
      SecondNoop(cmp, fs, fs2, e2, a, fs3);
      CompareOk(cmp, fs, fs2, e2, a, fs3, e3, b, rel);
  }

  lemma SecondNoop(cmp: Answers, fs: FS, fs2: FS, e2: Exp, a: Expr, fs3: FS)
    requires OperandOk(cmp, fs, fs2, e2, a)
    ensures Exp2RK(fs3, e2) == (fs3, e2) && e2.t == [] && e2.f == []
  {
  }

  lemma OperandStart(cmp: Answers, fs: FS, fs2: FS, e2: Exp, a: Expr)
    requires OperandOk(cmp, fs, fs2, e2, a)
    ensures Ok(fs2) && fs2.nactvar == fs.nactvar
  {
  }

  lemma LocalOk(cmp: Answers, fs: FS, reg: nat)
    requires Ok(fs) && reg < fs.nactvar
    ensures GenOk(cmp, fs, fs, Exp(VLocal(reg), [], []), Local(reg))
  {
    LeafOk(cmp, fs, Exp(VLocal(reg), [], []), Local(reg));
  }

  lemma ConstantOk(cmp: Answers, fs: FS, c: Const)
    requires Ok(fs)
    ensures GenOk(cmp, fs, fs, Exp(VConst(c), [], []), Constant(c))
  {
    LeafOk(cmp, fs, Exp(VConst(c), [], []), Constant(c));
  }

  lemma LeafOk(cmp: Answers, fs: FS, e: Exp, x: Expr)
    requires Ok(fs) && e.t == [] && e.f == [] && ExpOk(fs, e)
    requires (x.Local? && e.k == VLocal(x.reg)) || (x.Constant? && e.k == VConst(x.c))
    ensures GenOk(cmp, fs, fs, e, x)
  {
    hide Settles;
    assert Opens(fs, e) == AsSet(fs.jpc) && Limit(fs, e) == |fs.code|;
    StartFree(fs.code, |fs.code|);
    ExtSelf(fs);
    forall at, r, ev | EntryFor(fs, at) ensures DenotesFor(cmp, fs, fs, e, x, fs.freereg, NO_JUMP, at, r, ev) {
      EntriesOk(fs, fs, |fs.code|, AsSet(fs.jpc), at);
      assert ev + [] == ev;
    }
  }

  lemma {:induction false} JoinGenGives(cmp: Answers, fs: FS, a: Expr, b: Expr, sense: bool)
    requires Ok(fs) && LocalsBelow(a, fs.nactvar) && LocalsBelow(b, fs.nactvar)
             && Gen(fs, Joined(a, b, sense)).0.maxstack < MAXSTACK
    ensures GenOk(cmp, fs, Gen(fs, Joined(a, b, sense)).0, Gen(fs, Joined(a, b, sense)).1, Joined(a, b, sense))
    decreases Joined(a, b, sense), 0
  {
    hide GenOk, CondOk, GoIfTrue, GoIfFalse, PairsOk, OpenList;
    var (fs1, e1) := Gen(fs, a);
    var (fs2, e2) := GoIf(fs1, e1, sense);
    var (fs3, e3) := Gen(fs2, b);
    GenMax(fs2, b);
    GoIfMax(fs1, e1, sense);
    GenGives(cmp, fs, a);
    GoIfOk(cmp, fs, fs1, e1, a, sense);
    var list := Leave(e2, sense);
    CondStart(cmp, fs, fs2, list, a, sense);
    GenGives(cmp, fs2, b);
    SecondOk(cmp, fs, fs2, list, a, sense, fs3, e3, b);
  }
}

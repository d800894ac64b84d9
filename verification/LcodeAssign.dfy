// What the code for an assignment puts in the variable.

module LcodeAssign {
  import opened LcodeVm
  import opened LcodeGiven
  import opened LcodeGen
  import opened LcodeResolve
  import opened LcodePatch
  import opened LcodeMeaning
  import opened LcodeCond
  import opened LcodeLoad
  import opened LcodeExpr
  import opened LcodeWhole
  import opened LcodeNeed

  // Code finished by whatever comes next: the jumps that wait lead to its end.  Control coming
  // in at `at`, it ends with `v` in `reg`, having carried out the comparisons `es` in their
  // order, and leaves the other registers that are in use alone.
  ghost predicate EndsWith(cmp: Answers, fs0: FS, fs: FS, reg: int, at: Entry, v: Value, es: seq<Event>, r: Regs,
                           ev: seq<Event>)
  {
    var o := Enter(cmp, Discharged(fs), |fs.code|, {}, at, r, ev);
    o.Fall? && o.r(reg) == v && o.events == ev + es && forall i :: 0 <= i < fs0.freereg && i != reg ==> o.r(i) == r(i)
  }

  ghost predicate DeliversAt(cmp: Answers, fs0: FS, fs: FS, x: Expr, reg: int, at: Entry, r: Regs, ev: seq<Event>) {
    var g := Give(cmp, x, EntryBrings(fs0.code, at, r), r);
    EndsWith(cmp, fs0, fs, reg, at, g.v, g.events, r, ev)
  }

  // However control comes to it, the code puts in `reg` what `x` gives.
  ghost predicate Delivers(cmp: Answers, fs0: FS, fs: FS, x: Expr, reg: int) {
    forall at, r, ev :: EntryFor(fs0, at) ==> DeliversAt(cmp, fs0, fs, x, reg, at, r, ev)
  }

  ghost predicate ComputesAt(cmp: Answers, fs0: FS, fs: FS, x: Expr, reg: int, at: Entry, r: Regs, ev: seq<Event>) {
    EndsWith(cmp, fs0, fs, reg, at, Eval(cmp, x, r).v, Eval(cmp, x, r).events, r, ev)
  }

  // However control comes to it, the code puts the value of `x` in `reg`, with the
  // comparisons that evaluating `x` makes.
  ghost predicate Computes(cmp: Answers, fs0: FS, fs: FS, x: Expr, reg: int) {
    forall at, r, ev :: EntryFor(fs0, at) ==> ComputesAt(cmp, fs0, fs, x, reg, at, r, ev)
  }

  // What `x` gives there is its value.
  ghost predicate GivesBehind(cmp: Answers, fs: FS, x: Expr) {
    forall at, r :: EntryFor(fs, at) ==> GivesAt(cmp, x, EntryBrings(fs.code, at, r), r)
  }

  lemma GivesHere(cmp: Answers, fs: FS, x: Expr)
    requires fs.jpc == []
    ensures GivesBehind(cmp, fs, x) <==> Gives(cmp, x)
  {
    hide GivesAt, Give;
    assert EntryFor(fs, Here(|fs.code|));
    if GivesBehind(cmp, fs, x) {
      forall r ensures GivesAt(cmp, x, Nothing, r) {
        assert GivesAt(cmp, x, EntryBrings(fs.code, Here(|fs.code|), r), r);
      }
    }
  }

  // It is wherever no jump without a test takes over a jump that may bring a value.
  lemma NothingTakenBehind(cmp: Answers, fs: FS, x: Expr)
    requires NothingTaken(x, !NoneBrings(fs))
    ensures GivesBehind(cmp, fs, x)
  {
    hide GivesAt, Give, HasTestSet, Control;
    forall at, r | EntryFor(fs, at) ensures GivesAt(cmp, x, EntryBrings(fs.code, at, r), r) {
      NothingTakenGives(cmp, x, !NoneBrings(fs), EntryBrings(fs.code, at, r), r);
    }
  }

  lemma FinishedAt(cmp: Answers, fs0: FS, fs: FS, x: Expr, reg: int, at: Entry, r: Regs, ev: seq<Event>)
    requires InReg(cmp, fs0, fs, x, fs0.freereg, reg) && EntryFor(fs0, at)
    ensures DeliversAt(cmp, fs0, fs, x, reg, at, r, ev)
  {
    hide Run, Enter, Settles, Discharged, Give;
    var e := Exp(VNonReloc(reg), [], []);
    var none: set<int> := {};
    assert HoldsFor(cmp, fs0, fs, e, x, fs0.freereg, reg, at, r, ev);
    assert Opens(fs, e) == none + AsSet(fs.jpc) == AsSet(fs.jpc) && none + none == none && Limit(fs, e) == |fs.code|;
    EntriesOk(fs0, fs, |fs.code|, AsSet(fs.jpc), at);
    EmitEnter(cmp, fs, [], none, none, |fs.code|, at, r, ev);
    assert Discharged(fs) + [] == Discharged(fs);
    var o := Enter(cmp, fs.code, |fs.code|, none + AsSet(fs.jpc), at, r, ev);
    AtEndRun(cmp, Discharged(fs), |fs.code|, none, o);
    assert o.events + [] == o.events;
  }

  // Evaluated with no comparison made before, the two ends are the same.
  lemma BothEnds(cmp: Answers, fs0: FS, fs: FS, x: Expr, reg: int, at: Entry, r: Regs)
    requires DeliversAt(cmp, fs0, fs, x, reg, at, r, []) && ComputesAt(cmp, fs0, fs, x, reg, at, r, [])
    ensures GivesAt(cmp, x, EntryBrings(fs0.code, at, r), r)
  {
    hide Enter, Give, Eval, Discharged, EntryBrings;
    assert forall es: seq<Event> :: [] + es == es;
  }

  // The code computes the expression exactly when the expression gives its value.
  lemma Finished(cmp: Answers, fs0: FS, fs: FS, x: Expr, reg: int)
    requires InReg(cmp, fs0, fs, x, fs0.freereg, reg)
    ensures Ext(fs0, fs, |fs.code|, AsSet(fs.jpc)) && Delivers(cmp, fs0, fs, x, reg)
    ensures Computes(cmp, fs0, fs, x, reg) <==> GivesBehind(cmp, fs0, x)
  {
    hide DeliversAt, ComputesAt, GivesAt, EntryFor, Ext;
    forall at, r, ev | EntryFor(fs0, at) ensures DeliversAt(cmp, fs0, fs, x, reg, at, r, ev) {
      FinishedAt(cmp, fs0, fs, x, reg, at, r, ev);
    }
    if Computes(cmp, fs0, fs, x, reg) {
      forall at, r | EntryFor(fs0, at) ensures GivesAt(cmp, x, EntryBrings(fs0.code, at, r), r) {
        assert DeliversAt(cmp, fs0, fs, x, reg, at, r, []) && ComputesAt(cmp, fs0, fs, x, reg, at, r, []);
        BothEnds(cmp, fs0, fs, x, reg, at, r);
      }
    }
    if GivesBehind(cmp, fs0, x) {
      forall at, r, ev | EntryFor(fs0, at) ensures ComputesAt(cmp, fs0, fs, x, reg, at, r, ev) {
        assert DeliversAt(cmp, fs0, fs, x, reg, at, r, ev);
        SameEnd(cmp, fs0, fs, x, reg, at, r, ev);
      }
    }
  }

  lemma SameEnd(cmp: Answers, fs0: FS, fs: FS, x: Expr, reg: int, at: Entry, r: Regs, ev: seq<Event>)
    requires DeliversAt(cmp, fs0, fs, x, reg, at, r, ev) && GivesAt(cmp, x, EntryBrings(fs0.code, at, r), r)
    ensures ComputesAt(cmp, fs0, fs, x, reg, at, r, ev)
  {
    hide EndsWith, Give, Eval, EntryBrings;
  }

  // Assigning an expression to a local variable: the code delivers what the expression
  // gives, and nothing before it changes but the jumps that were waiting.  It computes the
  // expression exactly when that is its value, and it is when no jump without a test takes
  // over a jump that may bring a value.
  lemma AssignComputes(cmp: Answers, fs: FS, x: Expr, reg: nat)
    requires Ok(fs) && LocalsBelow(x, fs.nactvar) && reg < fs.nactvar && Assign(fs, x, reg).maxstack < MAXSTACK
    ensures var fs' := Assign(fs, x, reg);
            && Ext(fs, fs', |fs'.code|, AsSet(fs'.jpc)) && fs'.freereg == fs.freereg
            && Delivers(cmp, fs, fs', x, reg)
            && (Computes(cmp, fs, fs', x, reg) <==> GivesBehind(cmp, fs, x))
            && (NothingTaken(x, !NoneBrings(fs)) ==> Computes(cmp, fs, fs', x, reg))
  {
    hide Gen, Exp2Reg, Ext, GenOk, InReg, Computes, Delivers, GivesBehind, LocalsBelow, NothingTaken, PairsOk, OpenList,
         NoneBrings;
    var (fs1, e) := Gen(fs, x);
    Exp2RegMax(FreeExp(fs1, e), e, reg);
    assert FreeExp(fs1, e).maxstack == fs1.maxstack;
    GenGives(cmp, fs, x);
    GenFree(cmp, fs, fs1, e, x);
    Exp2RegOk(cmp, fs, fs1, e, x, fs.freereg, reg);
    Finished(cmp, fs, Assign(fs, x, reg), x, reg);
    if NothingTaken(x, !NoneBrings(fs)) { NothingTakenBehind(cmp, fs, x); }
  }

  lemma GenFree(cmp: Answers, fs: FS, fs1: FS, e: Exp, x: Expr)
    requires GenOk(cmp, fs, fs1, e, x)
    ensures FreeExp(fs1, e) == fs1 && Placed(fs, fs1, e) && fs1.freereg == fs.freereg
    ensures Denotes(cmp, fs, fs1, e, x, fs.freereg, NO_JUMP)
  {
  }

  // The same for a value that goes to the next free register.
  function Push(fs: FS, x: Expr): FS {
    var (fs1, e) := Gen(fs, x);
    Exp2NextReg(fs1, e).0
  }

  lemma PushComputes(cmp: Answers, fs: FS, x: Expr)
    requires Ok(fs) && LocalsBelow(x, fs.nactvar) && Push(fs, x).maxstack < MAXSTACK
    ensures var fs' := Push(fs, x);
            && Ext(fs, fs', |fs'.code|, AsSet(fs'.jpc)) && fs'.freereg == fs.freereg + 1
            && Delivers(cmp, fs, fs', x, fs.freereg)
            && (Computes(cmp, fs, fs', x, fs.freereg) <==> GivesBehind(cmp, fs, x))
            && (NothingTaken(x, !NoneBrings(fs)) ==> Computes(cmp, fs, fs', x, fs.freereg))
  {
    hide Gen, Exp2NextReg, Ext, GenOk, InReg, Computes, Delivers, GivesBehind, Ok, LocalsBelow, NothingTaken,
         NoneBrings;
    var (fs1, e) := Gen(fs, x);
    NextRegMax(fs1, e);
    GenGives(cmp, fs, x);
    NextRegOk(cmp, fs, fs1, e, x);
    Finished(cmp, fs, Push(fs, x), x, fs.freereg);
    if NothingTaken(x, !NoneBrings(fs)) { NothingTakenBehind(cmp, fs, x); }
  }

  lemma NextRegMax(fs: FS, e: Exp)
    ensures Exp2NextReg(fs, e).0.maxstack >= fs.maxstack
  {
    var e1 := DischargeVars(e);
    Exp2RegMax(Reserve(FreeExp(fs, e1)), e1, FreeExp(fs, e1).freereg);
  }

  // ----- the registers it takes ------------------------------------------------------------

  // The assignment is not too complex exactly when the registers the expression needs are
  // there.
  lemma AssignFits(fs: FS, x: Expr, reg: nat)
    requires Ok(fs) && LocalsBelow(x, fs.nactvar) && fs.freereg <= fs.maxstack
    ensures Assign(fs, x, reg).maxstack < MAXSTACK <==> Max(fs.maxstack, fs.freereg + Need(x)) < MAXSTACK
    ensures Assign(fs, x, reg).maxstack < MAXSTACK ==>
              Assign(fs, x, reg).maxstack == Max(fs.maxstack, fs.freereg + Need(x))
  {
    hide Gen, Need, Exp2Reg;
    var (fs1, e) := Gen(fs, x);
    Exp2RegMax(FreeExp(fs1, e), e, reg);
    var cmp: Answers := (op, a, b) => false;
    if Fits(fs, x) { GenUses(cmp, fs, x); }
  }
}

// Booleans that decide an operator.  A false in front of `and`, or a true in front of `or`,
// makes the generator emit a jump without a test.  The jumps that were waiting for this
// place are put on the new jump's list; one of them that brings a value then brings it
// where the boolean is wanted.  This module says when one such jump is wrong, that a
// boolean on its own is compiled rightly, and gives expressions that are not.

module LcodeConst {
  import opened LcodeVm
  import opened LcodeGiven
  import opened LcodeGen
  import opened LcodeResolve
  import opened LcodeMeaning
  import opened LcodeCond
  import opened LcodeLoad
  import opened LcodeAssign
  import N = LcodeNeed

  // ----- one jump -----------------------------------------------------------------------

  // A waiting jump that some run takes brings the boolean and nothing else.
  ghost predicate WaitingAgree(cmp: Answers, fs0: FS, fs: FS, e: Exp, sense: bool) {
    forall at, r :: EntryFor(fs0, at) ==> WaitingAgreesAt(cmp, fs, e, sense, at, r)
  }

  ghost predicate WaitingAgreesAt(cmp: Answers, fs: FS, e: Exp, sense: bool, at: Entry, r: Regs) {
    var o := Enter(cmp, fs.code, |fs.code|, Opens(fs, e), at, r, []);
    o.Exit? && o.j in fs.jpc ==> Carried(fs.code, o.j, o.r, !sense) == Bool(!sense)
  }

  // What is tested keeps its value.
  predicate TestKeeps(cmp: Answers, x: Expr, sense: bool, w: Brought, r: Regs) {
    var g := Give(cmp, x, w, r);
    Test(g, ShapeOf(x), sense).v == g.v
  }

  ghost predicate TestsKeep(cmp: Answers, fs0: FS, x: Expr, sense: bool) {
    forall at, r :: EntryFor(fs0, at) ==> TestKeeps(cmp, x, sense, EntryBrings(fs0.code, at, r), r)
  }

  lemma FixedJumpAt(cmp: Answers, fs: FS, e: Exp, x: Expr, sense: bool, fr: int, at: Entry, w: Brought, r: Regs)
    requires AlwaysJumps(e.k, sense) && KindIs(e.k, ShapeOf(x))
    requires DenotesAt(cmp, fs, at, e, Give(cmp, x, w, r), fr, NO_JUMP, r, [])
    ensures TestKeeps(cmp, x, sense, w, r) <==> WaitingAgreesAt(cmp, fs, e, sense, at, r)
  {
    hide Enter, Give, Same;
  }

  // A jump made without a test leaves with the value of the expression exactly when no
  // waiting jump brings another one.
  lemma FixedJumpExact(cmp: Answers, fs0: FS, fs: FS, e: Exp, x: Expr, sense: bool)
    requires GenOk(cmp, fs0, fs, e, x) && AlwaysJumps(e.k, sense)
    ensures TestsKeep(cmp, fs0, x, sense) <==> WaitingAgree(cmp, fs0, fs, e, sense)
  {
    hide TestKeeps, WaitingAgreesAt, DenotesAt, Placed, EntryBrings;
    forall at, r | EntryFor(fs0, at)
      ensures TestKeeps(cmp, x, sense, EntryBrings(fs0.code, at, r), r) <==> WaitingAgreesAt(cmp, fs, e, sense, at, r)
    {
      assert DenotesFor(cmp, fs0, fs, e, x, fs0.freereg, NO_JUMP, at, r, []);
      FixedJumpAt(cmp, fs, e, x, sense, fs0.freereg, at, EntryBrings(fs0.code, at, r), r);
    }
  }

  // It does so whenever no waiting jump brings a value at all.
  lemma NothingBrought(cmp: Answers, fs0: FS, fs: FS, e: Exp, sense: bool)
    requires NoneBrings(fs)
    ensures WaitingAgree(cmp, fs0, fs, e, sense)
  {
  }

  // ----- booleans that are compiled rightly ------------------------------------------------

  // Whatever comes behind it, a boolean that nothing leads to decides rightly.
  lemma DecidedGives(cmp: Answers, b: Expr)
    ensures Gives(cmp, And(Constant(KFalse), b)) && Gives(cmp, Or(Constant(KTrue), b))
  {
    hide Gives, Rightly;
    DecidedTaken(b);
    TakenGives(cmp, And(Constant(KFalse), b));
    TakenGives(cmp, Or(Constant(KTrue), b));
  }

  lemma DecidedTaken(b: Expr)
    ensures NothingTaken(And(Constant(KFalse), b), false) && NothingTaken(Or(Constant(KTrue), b), false)
  {
  }

  lemma TakenGives(cmp: Answers, x: Expr)
    requires NothingTaken(x, false)
    ensures Gives(cmp, x)
  {
    hide GivesAt, WayOk, ConstantIs;
    forall r ensures GivesAt(cmp, x, Nothing, r) { NothingTakenGives(cmp, x, false, Nothing, r); }
  }

  // ----- expressions that go wrong ----------------------------------------------------------

  // `((a or b) and false) and c`
  const KEPT := And(And(Or(Local(0), Local(1)), Constant(KFalse)), Local(2))

  const FS0 := FS([], [], 4, 4, 4)

  // With something true in `a` it gives that instead of false.
  lemma KeptGives(cmp: Answers, r: Regs)
    requires !IsFalse(r(0))
    ensures Give(cmp, KEPT, Nothing, r).v == r(0) && Eval(cmp, KEPT, r).v == Bool(false)
  {
    var x := Or(Local(0), Local(1));
    var t := Test(Give(cmp, x, Nothing, r), ShapeOf(x), true);
    assert Give(cmp, x, Nothing, r) == Given(r(0), ToTrue(true), []);
    assert t.next == On(Something(r(0)));
    var y := And(x, Constant(KFalse));
    assert Give(cmp, y, Nothing, r) == Given(Bool(false), ToEnd(Something(r(0))), []);
    assert Eval(cmp, x, r).v == r(0) && Eval(cmp, y, r).v == Bool(false);
  }

  lemma KeptFits()
    ensures Ok(FS0) && LocalsBelow(KEPT, FS0.nactvar) && N.Need(KEPT) == 0
  {
    hide N.Need;
    N.NeedsNothing(KEPT);
  }

  // The jump of `false` takes over one that brings what `a or b` keeps.
  lemma KeptTaken()
    ensures !NothingTaken(KEPT, false)
  {
    var x := Or(Local(0), Local(1));
    assert KeepsOff(Local(0), false, false);
    assert MayPass(x, false, true);
    assert MayBring(And(x, Constant(KFalse)), false);
    assert TakesOff(And(x, Constant(KFalse)), false, true);
  }

  lemma KeptFails(cmp: Answers)
    ensures Ok(FS0) && LocalsBelow(KEPT, FS0.nactvar) && Assign(FS0, KEPT, 3).maxstack < MAXSTACK
    ensures !NothingTaken(KEPT, false) && !Computes(cmp, FS0, Assign(FS0, KEPT, 3), KEPT, 3)
  {
    hide Assign, Computes, Delivers, Give, Eval, LocalsBelow, NothingTaken, Ok, N.Need, N.Simple, Ext;
    var r: Regs := x => Other(7);
    KeptFits();
    KeptTaken();
    AssignFits(FS0, KEPT, 3);
    AssignComputes(cmp, FS0, KEPT, 3);
    GivesHere(cmp, FS0, KEPT);
    KeptGives(cmp, r);
    assert !GivesAt(cmp, KEPT, Nothing, r);
  }

  // `if a or b then d = false and c`: the assignment itself is compiled rightly at other places.
  const DECIDED := And(Constant(KFalse), Local(2))

  const FIRST: Code := [OpTestSet(NO_REG, 0, true), OpJmp(NO_JUMP), OpTestSet(NO_REG, 1, false), OpJmp(NO_JUMP)]

  const BEHIND := FS(FIRST, [1], 4, 4, 4)

  // A local variable tested in front of an operator.
  lemma LocalTested(fs: FS, reg: int, t: seq<int>, f: seq<int>, sense: bool)
    requires fs.jpc == [] && 0 <= reg < fs.nactvar
    ensures var test := [OpTestSet(NO_REG, reg, !sense), OpJmp(NO_JUMP)];
            var list := [|fs.code| + 1];
            GoIf(fs, Exp(VNonReloc(reg), t, f), sense)
              == (fs.(code := fs.code + test, jpc := if sense then t else f),
                  Exp(VNonReloc(reg), if sense then [] else t + list, if sense then f + list else []))
  {
    var e, i := Exp(VNonReloc(reg), t, f), OpTestSet(NO_REG, reg, !sense);
    var (fs1, list) := CondJump(fs, i);
    assert Discharged(fs) == fs.code;
    assert fs1.code == fs.code + [i, OpJmp(NO_JUMP)] && fs1.jpc == [] && list == [|fs.code| + 1];
    assert [] + t == t && [] + f == f;
  }

  lemma OrTested()
    ensures var (fs, e) := Gen(FS0, Or(Local(0), Local(1)));
            GoIfTrue(fs, e) == (FS(FIRST, [1], 4, 4, 4), Exp(VNonReloc(1), [], [3]))
  {
    hide GoIfTrue, GoIfFalse;
    var first := FIRST[..2];
    var (fs1, e1) := GoIfFalse(FS0, Exp(VLocal(0), [], []));
    SameVars(FS0, 0);
    LocalTested(FS0, 0, [], [], false);
    assert FS0.code + FIRST[..2] == first && [] + [1] == [1];
    assert fs1 == FS(first, [], 4, 4, 4) && e1 == Exp(VNonReloc(0), [1], []);
    var (fs, e) := Gen(FS0, Or(Local(0), Local(1)));
    assert e == Exp(VNonReloc(1), [1], []) && fs == fs1;
    LocalTested(fs, 1, [1], [], true);
    assert first + [OpTestSet(NO_REG, 1, false), OpJmp(NO_JUMP)] == FIRST && [] + [3] == [3];
  }

  lemma SameVars(fs: FS, reg: int)
    ensures GoIfFalse(fs, Exp(VLocal(reg), [], [])) == GoIfFalse(fs, Exp(VNonReloc(reg), [], []))
  {
  }

  // The jump that was made for `a` waits behind the condition and brings `a` along.
  lemma BehindFails(cmp: Answers)
    ensures GoIfTrue(Gen(FS0, Or(Local(0), Local(1))).0, Gen(FS0, Or(Local(0), Local(1))).1).0 == BEHIND
    ensures Ok(BEHIND) && LocalsBelow(DECIDED, BEHIND.nactvar) && Assign(BEHIND, DECIDED, 3).maxstack < MAXSTACK
    ensures Gives(cmp, DECIDED) && !Computes(cmp, BEHIND, Assign(BEHIND, DECIDED, 3), DECIDED, 3)
  {
    hide Assign, Computes, Delivers, Gen, GoIfTrue, Give, Eval, Gives, LocalsBelow, NothingTaken, Ok, N.Need, Ext;
    var r: Regs := x => Other(7);
    OrTested();
    BehindFits();
    DecidedGives(cmp, Local(2));
    AssignFits(BEHIND, DECIDED, 3);
    AssignComputes(cmp, BEHIND, DECIDED, 3);
    DecidedKeeps(cmp, r);
    BehindEntered(r);
    assert !GivesAt(cmp, DECIDED, EntryBrings(BEHIND.code, By(1), r), r);
  }

  lemma BehindFits()
    ensures Ok(BEHIND) && LocalsBelow(DECIDED, BEHIND.nactvar) && N.Need(DECIDED) == 0
  {
    assert forall i :: 0 <= i < |FIRST| ==> PairAt(FIRST, i);
    N.NeedsNothing(DECIDED);
  }

  lemma BehindEntered(r: Regs)
    ensures EntryFor(BEHIND, By(1)) && EntryBrings(BEHIND.code, By(1), r) == Something(r(0))
  {
  }

  lemma DecidedKeeps(cmp: Answers, r: Regs)
    requires r(0) == Other(7)
    ensures Give(cmp, DECIDED, Something(r(0)), r).v == r(0) && Eval(cmp, DECIDED, r).v == Bool(false)
  {
  }
}

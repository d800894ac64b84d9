// How many registers an expression takes while it is evaluated.

module LcodeNeed {
  import opened LcodeVm
  import opened LcodeGiven
  import opened LcodeGen
  import opened LcodeMeaning
  import opened LcodeCond
  import opened LcodeNot
  import opened LcodeExpr
  import opened LcodeWhole

  function Max(a: int, b: int): int { if a >= b then a else b }

  // An operand of a comparison takes a register unless it is left where it is.
  function Kept(x: Expr): nat { if Plain(x) then 0 else 1 }

  function Need(x: Expr): nat {
    match x
    case Not(a) => Max(Need(a), if ShapeOf(a).ANegation? then 1 else 0)
    case And(a, b) => Max(Need(a), Need(b))
    case Or(a, b) => Max(Max(Need(a), Need(b)), if ToLoad(ShapeOf(a)) then 1 else 0)
    case Compare(_, a, b) => Max(Max(Need(a), Kept(a)), Kept(a) + Max(Need(b), Kept(b)))
    case _ => 0
  }

  // A number or a string in front of `or` is loaded to be tested.
  predicate ToLoad(k: Shape) { k.AConstant? && k.c.KOther? }

  lemma CodeNotUses(fs: FS, e: Exp, x: Expr)
    requires KindIs(e.k, ShapeOf(x)) && fs.freereg <= fs.maxstack
    ensures CodeNot(fs, e).0.maxstack == Max(fs.maxstack, fs.freereg + if ShapeOf(x).ANegation? then 1 else 0)
  {
    hide NoValues;
    CodeNotIs(fs, e);
  }

  lemma GoIfUses(fs: FS, e: Exp, x: Expr, sense: bool)
    requires KindIs(e.k, ShapeOf(x)) && fs.freereg <= fs.maxstack
    requires e.k.VReloc? ==> 0 <= e.k.pc < |fs.code| && fs.code[e.k.pc].OpNot?
    ensures GoIf(fs, e, sense).0.maxstack
            == Max(fs.maxstack, fs.freereg + if ToLoad(ShapeOf(x)) && !sense then 1 else 0)
  {
    hide Discharged, InvertJump;
  }

  lemma OperandUses(cmp: Answers, fs0: FS, fs: FS, e: Exp, x: Expr)
    requires GenOk(cmp, fs0, fs, e, x) && fs.freereg <= fs.maxstack
    ensures Exp2RK(fs, e).0.maxstack == Max(fs.maxstack, fs.freereg + Kept(x))
    ensures Exp2RK(fs, e).0.freereg == fs.freereg + Kept(x)
  {
    hide Exp2RK, Exp2Reg, Exp2NextReg, Denotes, Ext, Plain;
    OperandIs(cmp, fs0, fs, e, x);
    NextRegIs(fs0, fs, e);
    Exp2RegMax(Reserve(fs), DischargeVars(e), fs.freereg);
  }

  lemma RelocIs(cmp: Answers, fs0: FS, fs: FS, e: Exp, x: Expr)
    requires GenOk(cmp, fs0, fs, e, x)
    ensures e.k.VReloc? ==> 0 <= e.k.pc < |fs.code| && fs.code[e.k.pc].OpNot?
    ensures KindIs(e.k, ShapeOf(x)) && fs.freereg == fs0.freereg
  {
  }

  // The expression fits: by what was generated, or by what it needs.
  predicate Fits(fs: FS, x: Expr) {
    Gen(fs, x).0.maxstack < MAXSTACK || Max(fs.maxstack, fs.freereg + Need(x)) < MAXSTACK
  }

  // Generating code takes exactly the registers that the expression needs.
  lemma {:induction false} GenUses(cmp: Answers, fs: FS, x: Expr)
    requires Ok(fs) && LocalsBelow(x, fs.nactvar) && fs.freereg <= fs.maxstack && Fits(fs, x)
    ensures Gen(fs, x).0.maxstack == Max(fs.maxstack, fs.freereg + Need(x))
    decreases x
  {
    hide GenOk, CodeComp, CodeNot, Exp2RK, GoIfTrue, GoIfFalse, ShapeOf;
    match x
    case Local(_) =>
    case Constant(_) =>
    case Not(a) =>
      var (fs1, e1) := Gen(fs, a);
      CodeNotMax(fs1, e1);
      GenUses(cmp, fs, a);
      GenGives(cmp, fs, a);
      RelocIs(cmp, fs, fs1, e1, a);
      CodeNotUses(fs1, e1, a);
    case And(a, b) => JoinUses(cmp, fs, a, b, true);
    case Or(a, b) => JoinUses(cmp, fs, a, b, false);
    case Compare(rel, a, b) => CompareUses(cmp, fs, rel, a, b);
  }

  lemma JoinParts(fs: FS, a: Expr, b: Expr, sense: bool)
    ensures Gen(fs, Joined(a, b, sense)).0 == Gen(GoIf(Gen(fs, a).0, Gen(fs, a).1, sense).0, b).0
    ensures Need(Joined(a, b, sense)) == Max(Max(Need(a), Need(b)), if ToLoad(ShapeOf(a)) && !sense then 1 else 0)
  {
    hide GoIfTrue, GoIfFalse, CodeNot, CodeComp, Exp2RK, DischargeVars, Max, ToLoad, ShapeOf;
    assert Max(Max(Need(a), Need(b)), 0) == Max(Need(a), Need(b)) by { MaxZero(Need(a), Need(b)); }
  }

  lemma MaxZero(a: nat, b: nat)
    ensures Max(Max(a, b), 0) == Max(a, b)
  {
  }

  lemma {:induction false} JoinUses(cmp: Answers, fs: FS, a: Expr, b: Expr, sense: bool)
    requires Ok(fs) && LocalsBelow(a, fs.nactvar) && LocalsBelow(b, fs.nactvar) && fs.freereg <= fs.maxstack
    requires Fits(fs, Joined(a, b, sense))
    ensures Gen(fs, Joined(a, b, sense)).0.maxstack == Max(fs.maxstack, fs.freereg + Need(Joined(a, b, sense)))
    decreases Joined(a, b, sense), 0
  {
    hide GenOk, CondOk, GoIf, Gen, Need, ShapeOf, Ok, KindIs, Leaving, ToLoad;
    JoinParts(fs, a, b, sense);
    var (fs1, e1) := Gen(fs, a);
    var (fs2, e2) := GoIf(fs1, e1, sense);
    GenMax(fs2, b);
    GoIfMax(fs1, e1, sense);
    GenUses(cmp, fs, a);
    GenGives(cmp, fs, a);
    RelocIs(cmp, fs, fs1, e1, a);
    GoIfUses(fs1, e1, a, sense);
    GoIfOk(cmp, fs, fs1, e1, a, sense);
    CondStart(cmp, fs, fs2, Leave(e2, sense), a, sense);
    GenUses(cmp, fs2, b);
  }

  lemma CompareParts(fs: FS, rel: RelOp, a: Expr, b: Expr)
    ensures var (fs1, e1) := Gen(fs, a);
            var (fs2, e2) := Exp2RK(fs1, e1);
            var (fs3, e3) := Gen(fs2, b);
            Gen(fs, Compare(rel, a, b)).0 == CodeComp(fs3, rel, e2, e3).0
    ensures Need(Compare(rel, a, b)) == Max(Max(Need(a), Kept(a)), Kept(a) + Max(Need(b), Kept(b)))
  {
    hide Exp2RK, CodeComp, Max;
  }

  lemma {:induction false} CompareUses(cmp: Answers, fs: FS, rel: RelOp, a: Expr, b: Expr)
    requires Ok(fs) && LocalsBelow(a, fs.nactvar) && LocalsBelow(b, fs.nactvar) && fs.freereg <= fs.maxstack
    requires Fits(fs, Compare(rel, a, b))
    ensures Gen(fs, Compare(rel, a, b)).0.maxstack == Max(fs.maxstack, fs.freereg + Need(Compare(rel, a, b)))
    decreases Compare(rel, a, b), 0
  {
    hide GenOk, OperandOk, CodeComp, Exp2RK, Plain, ShapeOf, Ok, KindIs, ToLoad, Kept, Gen, Need;
    CompareParts(fs, rel, a, b);
    var (fs1, e1) := Gen(fs, a);
    var (fs2, e2) := Exp2RK(fs1, e1);
    var (fs3, e3) := Gen(fs2, b);
    CodeCompMax(fs3, rel, e2, e3);
    Exp2RKMax(Exp2RK(fs3, e2).0, e3);
    Exp2RKMax(fs3, e2);
    GenMax(fs2, b);
    Exp2RKMax(fs1, e1);
    GenUses(cmp, fs, a);
    GenGives(cmp, fs, a);
    RelocIs(cmp, fs, fs1, e1, a);
    OperandUses(cmp, fs, fs1, e1, a);
    Exp2RKOk(cmp, fs, fs1, e1, a);
    OperandStart(cmp, fs, fs2, e2, a);
    GenUses(cmp, fs2, b);
    GenGives(cmp, fs2, b);
    RelocIs(cmp, fs2, fs3, e3, b);
    OperandUses(cmp, fs2, fs3, e3, b);
    SecondNoop(cmp, fs, fs2, e2, a, fs3);
    CodeCompUses(fs3, rel, e2, e3);
  }

  lemma CodeCompUses(fs: FS, rel: RelOp, e1: Exp, e2: Exp)
    ensures CodeComp(fs, rel, e1, e2).0.maxstack == Exp2RK(Exp2RK(fs, e1).0, e2).0.maxstack
  {
    hide Exp2RK;
  }

  // Without comparisons, negations and numbers in front of `or` it needs none.
  predicate Simple(x: Expr) {
    match x
    case And(a, b) => Simple(a) && Simple(b)
    case Or(a, b) => Simple(a) && Simple(b) && !ToLoad(ShapeOf(a))
    case Not(_) => false
    case Compare(_, _, _) => false
    case _ => true
  }

  lemma {:induction false} NeedsNothing(x: Expr)
    requires Simple(x)
    ensures Need(x) == 0
  {
    match x
    case And(a, b) => NeedsNothing(a); NeedsNothing(b);
    case Or(a, b) => NeedsNothing(a); NeedsNothing(b);
    case _ =>
  }
}

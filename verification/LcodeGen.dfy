// Generating code for boolean expressions in one pass, with the lists of jumps that are
// still open kept as sequences of positions.

module LcodeGen {
  import opened LcodeVm

  // Where the value of an expression will be found.
  datatype Kind =
    | VConst(c: Const)       // it is a constant
    | VLocal(reg: int)       // in a local variable
    | VNonReloc(reg: int)    // in a register
    | VReloc(pc: int)        // the instruction at `pc` can put it in any register
    | VJmp(pc: int)          // it is whether the jump at `pc` is taken

  // `t` are the jumps that leave when it is true, `f` those that leave when it is false.
  datatype Exp = Exp(k: Kind, t: seq<int>, f: seq<int>)

  const MAXSTACK := 250
  const MAXVARS := 200

  // `maxstack` is the most registers that were ever reserved.
  datatype FS = FS(code: Code, jpc: seq<int>, freereg: int, nactvar: int, maxstack: int)

  predicate HasJumps(e: Exp) { e.t != e.f }

  function AsSet(s: seq<int>): set<int> { set j | j in s }

  // ----- patching -----------------------------------------------------------------

  // The instruction that decides whether the jump at `j` is taken.
  function Control(c: Code, j: int): int {
    if 1 <= j <= |c| && TestMode(c[j - 1]) then j - 1 else j
  }

  predicate HasTestSet(c: Code, j: int) {
    0 <= Control(c, j) < |c| && c[Control(c, j)].OpTestSet?
  }

  function SetAt(c: Code, j: int, i: Instr): (r: Code)
    ensures |r| == |c|
  {
    if 0 <= j < |c| then c[j := i] else c
  }

  // A value-setting test gets its register, or becomes a plain test when no value is
  // wanted or the register already has it.
  function PatchTestReg(c: Code, node: int, reg: int): (r: Code)
    ensures |r| == |c|
  {
    if !HasTestSet(c, node) then c
    else
      var i := c[Control(c, node)];
      SetAt(c, Control(c, node), if reg != NO_REG && reg != i.b then OpTestSet(reg, i.b, i.c) else OpTest(i.b, i.c))
  }

  function PatchOne(c: Code, j: int, vtarget: int, reg: int, dtarget: int): (r: Code)
    ensures |r| == |c|
  {
    SetAt(PatchTestReg(c, j, reg), j, OpJmp(if HasTestSet(c, j) then vtarget else dtarget))
  }

  function PatchList(c: Code, list: seq<int>, vtarget: int, reg: int, dtarget: int): (r: Code)
    ensures |r| == |c|
    decreases |list|
  {
    if list == [] then c else PatchList(PatchOne(c, list[0], vtarget, reg, dtarget), list[1..], vtarget, reg, dtarget)
  }

  function RemoveValues(c: Code, list: seq<int>): (r: Code)
    ensures |r| == |c|
    decreases |list|
  {
    if list == [] then c else RemoveValues(PatchTestReg(c, list[0], NO_REG), list[1..])
  }

  predicate NeedValue(c: Code, list: seq<int>) {
    exists j :: j in list && !HasTestSet(c, j)
  }

  // ----- emitting --------------------------------------------------------------------

  // The jumps to here are resolved when an instruction is put here.
  function Discharged(fs: FS): (r: Code)
    ensures |r| == |fs.code|
  {
    PatchList(fs.code, fs.jpc, |fs.code|, NO_REG, |fs.code|)
  }

  function Emit(fs: FS, i: Instr): FS {
    fs.(code := Discharged(fs) + [i], jpc := [])
  }

  // An open jump; jumps to here wait with it.
  function Jump(fs: FS): (FS, seq<int>) {
    (Emit(fs.(jpc := []), OpJmp(NO_JUMP)), [|fs.code|] + fs.jpc)
  }

  function CondJump(fs: FS, i: Instr): (FS, seq<int>) { Jump(Emit(fs, i)) }

  function PatchToHere(fs: FS, list: seq<int>): FS { fs.(jpc := fs.jpc + list) }

  // ----- registers ----------------------------------------------------------------------

  function FreeReg(fs: FS, reg: int): FS {
    if reg >= fs.nactvar then fs.(freereg := fs.freereg - 1) else fs
  }

  function FreeExp(fs: FS, e: Exp): FS {
    if e.k.VNonReloc? then FreeReg(fs, e.k.reg) else fs
  }

  // Reserving `MAXSTACK` registers or more is an error.
  function Reserve(fs: FS): FS {
    fs.(freereg := fs.freereg + 1, maxstack := if fs.freereg + 1 > fs.maxstack then fs.freereg + 1 else fs.maxstack)
  }

  function DischargeVars(e: Exp): Exp {
    if e.k.VLocal? then e.(k := VNonReloc(e.k.reg)) else e
  }

  // ----- putting a value in a register ------------------------------------------------------

  function LoadOf(reg: int, c: Const): Instr {
    match c
    case KFalse => OpLoadBool(reg, false, false)
    case KTrue => OpLoadBool(reg, true, false)
    case KOther(id) => OpLoadK(reg, id)
  }

  function Relocated(i: Instr, reg: int): Instr { if i.OpNot? then OpNot(reg, i.b) else i }

  function Discharge2Reg(fs: FS, e: Exp, reg: int): (FS, Exp) {
    var e1 := DischargeVars(e);
    match e1.k
    case VReloc(pc) =>
      (if 0 <= pc < |fs.code| then fs.(code := fs.code[pc := Relocated(fs.code[pc], reg)]) else fs,
       e1.(k := VNonReloc(reg)))
    case VConst(c) => (Emit(fs, LoadOf(reg, c)), e1.(k := VNonReloc(reg)))
    case VNonReloc(info) => (if reg != info then Emit(fs, OpMove(reg, info)) else fs, e1.(k := VNonReloc(reg)))
    case _ => (fs, e1)
  }

  function Discharge2AnyReg(fs: FS, e: Exp): (FS, Exp) {
    if e.k.VNonReloc? then (fs, e) else Discharge2Reg(Reserve(fs), e, fs.freereg)
  }

  // Loads of false and true for the jumps that carry no value; whoever arrives with a
  // value already in place goes around them.
  function Loads(fs: FS, reg: int, around: bool): (FS, int) {
    var (fs1, fj) := if around then Jump(fs) else (fs, []);
    var fs2 := Emit(fs1, OpLoadBool(reg, false, true));
    var fs3 := Emit(fs2, OpLoadBool(reg, true, false));
    (PatchToHere(fs3, fj), |fs1.code|)
  }

  function Exp2Reg(fs: FS, e: Exp, reg: int): (FS, Exp) {
    var (fs1, e1) := Discharge2Reg(fs, e, reg);
    var t := if e1.k.VJmp? then e1.t + [e1.k.pc] else e1.t;
    var done := Exp(VNonReloc(reg), [], []);
    if t == e1.f then (fs1, done)
    else
      var (fs2, pf) := if NeedValue(fs1.code, t) || NeedValue(fs1.code, e1.f) then Loads(fs1, reg, !e1.k.VJmp?)
                       else (fs1, NO_JUMP);
      var end := |fs2.code|;
      var c := PatchList(PatchList(fs2.code, e1.f, end, reg, pf), t, end, reg,
                         if pf == NO_JUMP then NO_JUMP else pf + 1);
      (fs2.(code := c), done)
  }

  function Exp2NextReg(fs: FS, e: Exp): (FS, Exp) {
    var e1 := DischargeVars(e);
    var fs1 := FreeExp(fs, e1);
    Exp2Reg(Reserve(fs1), e1, fs1.freereg)
  }

  function Exp2AnyReg(fs: FS, e: Exp): (FS, Exp) {
    var e1 := DischargeVars(e);
    if e1.k.VNonReloc? && !HasJumps(e1) then (fs, e1)
    else if e1.k.VNonReloc? && e1.k.reg >= fs.nactvar then Exp2Reg(fs, e1, e1.k.reg)
    else Exp2NextReg(fs, e1)
  }

  function Exp2Val(fs: FS, e: Exp): (FS, Exp) {
    if HasJumps(e) then Exp2AnyReg(fs, e) else (fs, DischargeVars(e))
  }

  // The operand of a comparison: a constant, or in a register.
  function Exp2RK(fs: FS, e: Exp): (FS, Exp) {
    var (fs1, e1) := Exp2Val(fs, e);
    if e1.k.VConst? then (fs1, e1) else Exp2AnyReg(fs1, e1)
  }

  // ----- conditions -----------------------------------------------------------------------------

  function InvertJump(c: Code, j: int): Code {
    var k := Control(c, j);
    if 0 <= k < |c| && c[k].OpComp? then c[k := c[k].(cond := !c[k].cond)] else c
  }

  // Leaves when the value of `e` is `cond`.  The negation of a register is tested directly.
  function JumpOnCond(fs: FS, e: Exp, cond: bool): (FS, seq<int>) {
    if e.k.VReloc? && 0 < |fs.code| && 0 <= e.k.pc < |fs.code| && fs.code[e.k.pc].OpNot? then
      CondJump(fs.(code := fs.code[..|fs.code| - 1]), OpTest(fs.code[e.k.pc].b, !cond))
    else
      var (fs1, e1) := Discharge2AnyReg(fs, e);
      CondJump(FreeExp(fs1, e1), OpTestSet(NO_REG, if e1.k.VNonReloc? then e1.k.reg else 0, cond))
  }

  // The jump that leaves if `e`, which is in no local variable, is false.
  function JumpIfFalse(fs: FS, e: Exp): (FS, seq<int>) {
    if e.k.VConst? then (if Truth(e.k.c) then (fs, []) else Jump(fs))
    else if e.k.VJmp? then (fs.(code := InvertJump(fs.code, e.k.pc)), [e.k.pc])
    else JumpOnCond(fs, e, false)
  }

  // The one that leaves if it is true.
  function JumpIfTrue(fs: FS, e: Exp): (FS, seq<int>) {
    if e.k == VConst(KFalse) then (fs, [])
    else if e.k == VConst(KTrue) then Jump(fs)
    else if e.k.VJmp? then (fs, [e.k.pc])
    else JumpOnCond(fs, e, true)
  }

  function GoIfTrue(fs: FS, e: Exp): (FS, Exp) {
    var e1 := DischargeVars(e);
    var (fs1, pc) := JumpIfFalse(fs, e1);
    (PatchToHere(fs1, e1.t), e1.(f := e1.f + pc, t := []))
  }

  function GoIfFalse(fs: FS, e: Exp): (FS, Exp) {
    var e1 := DischargeVars(e);
    var (fs1, pc) := JumpIfTrue(fs, e1);
    (PatchToHere(fs1, e1.f), Exp(KindTested(fs, e1.k), e1.t + pc, []))
  }

  // A number or a string is loaded to be tested.
  function KindTested(fs: FS, k: Kind): Kind { if k.VConst? && k.c.KOther? then VNonReloc(fs.freereg) else k }

  function CodeNot(fs: FS, e: Exp): (FS, Exp) {
    var e1 := DischargeVars(e);
    var (fs2, k2) :=
      if e1.k.VConst? then (fs, VConst(Negation(e1.k.c)))
      else if e1.k.VJmp? then (fs.(code := InvertJump(fs.code, e1.k.pc)), e1.k)
      else
        var (fs1, e2) := Discharge2AnyReg(fs, e1);
        var fs2 := FreeExp(fs1, e2);
        (Emit(fs2, OpNot(0, if e2.k.VNonReloc? then e2.k.reg else 0)), VReloc(|fs2.code|));
    (fs2.(code := RemoveValues(RemoveValues(fs2.code, e1.t), e1.f)), Exp(k2, e1.f, e1.t))
  }

  function OpOf(rel: RelOp): CompOp {
    match rel
    case Equal => EQ
    case NotEqual => EQ
    case Less => LT
    case Greater => LT
    case _ => LE
  }

  predicate CondOf(rel: RelOp) { rel.Equal? || rel.Less? || rel.LessEqual? }

  function RegOf(e: Exp): int { if e.k.VNonReloc? then e.k.reg else if e.k.VConst? then RkAsK(e.k.c) else 0 }

  // Negated orders are replaced by exchanging the operands.
  function CompInstr(rel: RelOp, o1: int, o2: int): Instr {
    if !CondOf(rel) && !OpOf(rel).EQ? then OpComp(OpOf(rel), true, o2, o1) else OpComp(OpOf(rel), CondOf(rel), o1, o2)
  }

  function CodeComp(fs: FS, rel: RelOp, e1: Exp, e2: Exp): (FS, Exp) {
    var (fs1, o1) := Exp2RK(fs, e1);
    var (fs2, o2) := Exp2RK(fs1, e2);
    var fs3 := FreeExp(FreeExp(fs2, o2), o1);
    var (fs4, list) := CondJump(fs3, CompInstr(rel, RegOf(o1), RegOf(o2)));
    (fs4, o1.(k := VJmp(|fs3.code| + 1)))
  }

  // ----- whole expressions -------------------------------------------------------------------------

  function Gen(fs: FS, x: Expr): (FS, Exp)
    decreases x
  {
    match x
    case Local(reg) => (fs, Exp(VLocal(reg), [], []))
    case Constant(c) => (fs, Exp(VConst(c), [], []))
    case Not(a) => var (fs1, e) := Gen(fs, a); CodeNot(fs1, e)
    case And(a, b) =>
      var (fs1, e1) := Gen(fs, a);
      var (fs2, e2) := GoIfTrue(fs1, e1);
      var (fs3, e3) := Gen(fs2, b);
      (fs3, DischargeVars(e3).(f := e3.f + e2.f))
    case Or(a, b) =>
      var (fs1, e1) := Gen(fs, a);
      var (fs2, e2) := GoIfFalse(fs1, e1);
      var (fs3, e3) := Gen(fs2, b);
      (fs3, DischargeVars(e3).(t := e3.t + e2.t))
    case Compare(rel, a, b) =>
      var (fs1, e1) := Gen(fs, a);
      var (fs2, e2) := Exp2RK(fs1, e1);
      var (fs3, e3) := Gen(fs2, b);
      CodeComp(fs3, rel, e2, e3)
  }

  // `local = x`, or the value of `x` in the next free register.
  function Assign(fs: FS, x: Expr, reg: int): FS {
    var (fs1, e) := Gen(fs, x);
    Exp2Reg(FreeExp(fs1, e), e, reg).0
  }
}

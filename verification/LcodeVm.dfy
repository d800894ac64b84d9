// Boolean expressions, what they evaluate to, and the instructions that compute them.

module LcodeVm {

  // Only nil and false are false.
  datatype Value = Nil | Bool(b: bool) | Other(id: int)

  predicate IsFalse(v: Value) { v == Nil || v == Bool(false) }

  datatype CompOp = EQ | LT | LE

  // A comparison that was carried out, on the values it compared: it may run
  // program code, so which ones are carried out, and in what order, matters.
  datatype Event = Event(op: CompOp, x: Value, y: Value)

  // What comparisons answer.
  type Answers = (CompOp, Value, Value) -> bool

  type Regs = int -> Value

  // ----- constants ----------------------------------------------------------------

  // A boolean, or one of the other constants, which are all true: numbers and strings.
  datatype Const = KFalse | KTrue | KOther(id: nat)

  function ConstValue(c: Const): Value {
    match c
    case KFalse => Bool(false)
    case KTrue => Bool(true)
    case KOther(id) => Other(id)
  }

  predicate Truth(c: Const) { !c.KFalse? }

  function Negation(c: Const): Const { if Truth(c) then KFalse else KTrue }

  const BITRK := 256  // operands from here on are constants

  function RkAsK(c: Const): (x: int)
    ensures x >= BITRK
  {
    match c
    case KFalse => BITRK
    case KTrue => BITRK + 1
    case KOther(id) => BITRK + 2 + id
  }

  // The operand `x` of a comparison: a register or a constant.
  function Rk(r: Regs, x: int): Value {
    if x < BITRK then r(x)
    else if x == BITRK then Bool(false)
    else if x == BITRK + 1 then Bool(true)
    else Other(x - BITRK - 2)
  }

  // ----- expressions ------------------------------------------------------------

  datatype RelOp = Equal | NotEqual | Less | LessEqual | Greater | GreaterEqual

  datatype Expr =
    | Local(reg: nat)
    | Constant(c: Const)
    | And(a: Expr, b: Expr)
    | Or(a: Expr, b: Expr)
    | Not(a: Expr)
    | Compare(rel: RelOp, a: Expr, b: Expr)

  datatype Result = Result(v: Value, events: seq<Event>)

  // `>` and `>=` are `<` and `<=` the other way round.
  function CompareValues(cmp: Answers, rel: RelOp, x: Value, y: Value): Result {
    match rel
    case Equal => Result(Bool(cmp(EQ, x, y)), [Event(EQ, x, y)])
    case NotEqual => Result(Bool(!cmp(EQ, x, y)), [Event(EQ, x, y)])
    case Less => Result(Bool(cmp(LT, x, y)), [Event(LT, x, y)])
    case LessEqual => Result(Bool(cmp(LE, x, y)), [Event(LE, x, y)])
    case Greater => Result(Bool(cmp(LT, y, x)), [Event(LT, y, x)])
    case GreaterEqual => Result(Bool(cmp(LE, y, x)), [Event(LE, y, x)])
  }

  // The value of an expression and the comparisons made on the way.
  function Eval(cmp: Answers, e: Expr, r: Regs): Result {
    match e
    case Local(reg) => Result(r(reg), [])
    case Constant(c) => Result(ConstValue(c), [])
    case And(a, b) =>
      var x := Eval(cmp, a, r);
      if IsFalse(x.v) then x else var y := Eval(cmp, b, r); Result(y.v, x.events + y.events)
    case Or(a, b) =>
      var x := Eval(cmp, a, r);
      if IsFalse(x.v) then var y := Eval(cmp, b, r); Result(y.v, x.events + y.events) else x
    case Not(a) => var x := Eval(cmp, a, r); Result(Bool(IsFalse(x.v)), x.events)
    case Compare(rel, a, b) =>
      var x := Eval(cmp, a, r);
      var y := Eval(cmp, b, r);
      var c := CompareValues(cmp, rel, x.v, y.v);
      Result(c.v, x.events + y.events + c.events)
  }

  predicate LocalsBelow(e: Expr, n: int) {
    match e
    case Local(reg) => reg < n
    case Constant(_) => true
    case Not(a) => LocalsBelow(a, n)
    case And(a, b) => LocalsBelow(a, n) && LocalsBelow(b, n)
    case Or(a, b) => LocalsBelow(a, n) && LocalsBelow(b, n)
    case Compare(_, a, b) => LocalsBelow(a, n) && LocalsBelow(b, n)
  }

  // Only the locals matter.
  lemma {:induction false} EvalSame(cmp: Answers, e: Expr, n: int, r: Regs, r': Regs)
    requires LocalsBelow(e, n) && forall x :: 0 <= x < n ==> r'(x) == r(x)
    ensures Eval(cmp, e, r') == Eval(cmp, e, r)
  {
    match e
    case Local(_) =>
    case Constant(_) =>
    case Not(a) => EvalSame(cmp, a, n, r, r');
    case And(a, b) => EvalSame(cmp, a, n, r, r'); EvalSame(cmp, b, n, r, r');
    case Or(a, b) => EvalSame(cmp, a, n, r, r'); EvalSame(cmp, b, n, r, r');
    case Compare(_, a, b) => EvalSame(cmp, a, n, r, r'); EvalSame(cmp, b, n, r, r');
  }

  // ----- instructions -----------------------------------------------------------------

  const NO_JUMP := -1
  const NO_REG := 255

  // Jumps carry the position they lead to.
  datatype Instr =
    | OpMove(a: int, b: int)
    | OpLoadK(a: int, id: nat)
    | OpLoadBool(a: int, val: bool, skip: bool)
    | OpNot(a: int, b: int)
    | OpJmp(dest: int)
    | OpTest(a: int, c: bool)
    | OpTestSet(a: int, b: int, c: bool)
    | OpComp(op: CompOp, cond: bool, x: int, y: int)

  type Code = seq<Instr>

  // Instructions that are followed by a jump and skip it unless their test holds.
  predicate TestMode(i: Instr) { i.OpTest? || i.OpTestSet? || i.OpComp? }

  // A jump that belongs to the test before it.
  predicate Guarded(c: Code, pc: int) { 1 <= pc <= |c| && TestMode(c[pc - 1]) }

  function Put(r: Regs, i: int, v: Value): Regs { x => if x == i then v else r(x) }

  // How a run ends: behind the last instruction, or at a jump whose target is still open.
  datatype Outcome =
    | Fall(r: Regs, events: seq<Event>)
    | Exit(j: int, r: Regs, events: seq<Event>)
    | Stuck

  // Runs the first `n` instructions from `pc` on; `open` are the jumps still to be
  // patched.  A test whose jump is open changes no register.
  function Run(cmp: Answers, c: Code, n: nat, open: set<int>, pc: int, r: Regs, ev: seq<Event>): Outcome
    requires n <= |c|
    decreases n - pc, 1
  {
    if pc == n then Fall(r, ev)
    else if !(0 <= pc < n) then Stuck
    else if pc in open then Exit(pc, r, ev)
    else match c[pc]
      case OpMove(a, b) => Run(cmp, c, n, open, pc + 1, Put(r, a, r(b)), ev)
      case OpLoadK(a, id) => Run(cmp, c, n, open, pc + 1, Put(r, a, Other(id)), ev)
      case OpLoadBool(a, val, skip) => Run(cmp, c, n, open, if skip then pc + 2 else pc + 1, Put(r, a, Bool(val)), ev)
      case OpNot(a, b) => Run(cmp, c, n, open, pc + 1, Put(r, a, Bool(IsFalse(r(b)))), ev)
      case OpJmp(_) => Take(cmp, c, n, open, pc, r, ev)
      case OpTest(a, k) =>
        if pc + 1 < n && IsFalse(r(a)) != k then Take(cmp, c, n, open, pc + 1, r, ev)
        else Run(cmp, c, n, open, pc + 2, r, ev)
      case OpTestSet(a, b, k) =>
        if pc + 1 < n && IsFalse(r(b)) != k then
          Take(cmp, c, n, open, pc + 1, if pc + 1 in open then r else Put(r, a, r(b)), ev)
        else Run(cmp, c, n, open, pc + 2, r, ev)
      case OpComp(op, cond, b, k) =>
        var ev' := ev + [Event(op, Rk(r, b), Rk(r, k))];
        if pc + 1 < n && cmp(op, Rk(r, b), Rk(r, k)) == cond then Take(cmp, c, n, open, pc + 1, r, ev')
        else Run(cmp, c, n, open, pc + 2, r, ev')
  }

  // Executes the jump at `j`.
  function Take(cmp: Answers, c: Code, n: nat, open: set<int>, j: int, r: Regs, ev: seq<Event>): Outcome
    requires n <= |c| && 0 <= j < n
    decreases n - j, 0
  {
    if j in open then Exit(j, r, ev)
    else if c[j].OpJmp? && j < c[j].dest <= n && !Guarded(c, c[j].dest) then Run(cmp, c, n, open, c[j].dest, r, ev)
    else Stuck
  }
}

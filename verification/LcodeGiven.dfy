// What the code for an expression gives.  It is the value of the expression, but for one
// thing: a boolean that decides an operator makes the generator emit a jump without a test,
// and that jump takes over the jumps that were waiting for its place.  One of them may bring
// a value, which then stands where the boolean should.

module LcodeGiven {
  import opened LcodeVm

  // What the jump by which control comes to a place brings along.
  datatype Brought = Nothing | Something(v: Value)

  // How control gets past the code: to its end, or out of it when the expression is known
  // to be true or to be false, by a jump that brings the value (`kept`) or not.
  datatype Way = ToEnd(b: Brought) | ToTrue(kept: bool) | ToFalse(kept: bool)

  datatype Given = Given(v: Value, way: Way, events: seq<Event>)

  // What is at the end of the code.
  datatype Shape = AConstant(c: Const) | ALocal | ANegation | AComparison

  function ShapeOf(x: Expr): Shape {
    match x
    case Local(_) => ALocal
    case Constant(c) => AConstant(c)
    case Not(a) =>
      (match ShapeOf(a)
       case AConstant(c) => AConstant(Negation(c))
       case AComparison => AComparison
       case _ => ANegation)
    case And(_, b) => ShapeOf(b)
    case Or(_, b) => ShapeOf(b)
    case Compare(_, _, _) => AComparison
  }

  // In front of an operator that goes on when the truth is `sense`: a constant that goes on,
  // a boolean that leaves, and values whose test keeps them.
  predicate Skips(k: Shape, sense: bool) { k.AConstant? && Truth(k.c) == sense }

  predicate Forced(k: Shape, sense: bool) { k.AConstant? && !k.c.KOther? && Truth(k.c) != sense }

  predicate Keeps(k: Shape) { k.ALocal? || k.AConstant? }

  // What becomes of a value in front of an operator.
  datatype Next = On(b: Brought) | Off(kept: bool)

  datatype Tested = Tested(v: Value, next: Next, events: seq<Event>)

  function Along(kept: bool, v: Value): Brought { if kept then Something(v) else Nothing }

  function Test(g: Given, k: Shape, sense: bool): Tested {
    match g.way
    case ToTrue(kept) => Tested(g.v, if sense then On(Along(kept, g.v)) else Off(kept), g.events)
    case ToFalse(kept) => Tested(g.v, if sense then Off(kept) else On(Along(kept, g.v)), g.events)
    case ToEnd(b) =>
      if Skips(k, sense) then Tested(g.v, On(b), g.events)
      else if Forced(k, sense) then Tested(if b.Something? then b.v else g.v, Off(b.Something?), g.events)
      else if IsFalse(g.v) == sense then Tested(g.v, Off(Keeps(k)), g.events)
      else Tested(g.v, On(Nothing), g.events)
  }

  // Whether there are jumps out of the code.
  predicate LeavesTrue(x: Expr) {
    match x
    case Not(a) => LeavesFalse(a)
    case And(_, b) => LeavesTrue(b)
    case Or(a, b) => LeavesTrue(b) || LeavesTrue(a) || !Skips(ShapeOf(a), false)
    case _ => false
  }

  predicate LeavesFalse(x: Expr) {
    match x
    case Not(a) => LeavesTrue(a)
    case And(a, b) => LeavesFalse(b) || LeavesFalse(a) || !Skips(ShapeOf(a), true)
    case Or(_, b) => LeavesFalse(b)
    case _ => false
  }

  // Whether some jump leaves in front of the operator.
  predicate Leaving(x: Expr, sense: bool) {
    (if sense then LeavesFalse(x) else LeavesTrue(x)) || !Skips(ShapeOf(x), sense)
  }

  // An operand of a comparison that is left where it is.
  predicate Plain(x: Expr) { Keeps(ShapeOf(x)) && !LeavesTrue(x) && !LeavesFalse(x) }

  function OperandWay(x: Expr, way: Way): Brought { if Plain(x) && way.ToEnd? then way.b else Nothing }

  function Negated(g: Given, k: Shape): Given {
    match g.way
    case ToEnd(b) => Given(Bool(IsFalse(g.v)), ToEnd(if k.AConstant? then b else Nothing), g.events)
    case ToTrue(_) => Given(Bool(false), ToFalse(false), g.events)
    case ToFalse(_) => Given(Bool(true), ToTrue(false), g.events)
  }

  function Through(t: Tested, sense: bool, y: Given): Given {
    match t.next
    case Off(kept) => Given(t.v, if sense then ToFalse(kept) else ToTrue(kept), t.events)
    case On(_) => Given(y.v, y.way, t.events + y.events)
  }

  function Onto(t: Tested): Brought { if t.next.On? then t.next.b else Nothing }

  // What the code gives when control comes to it with `w`.
  function Give(cmp: Answers, x: Expr, w: Brought, r: Regs): Given {
    match x
    case Local(reg) => Given(r(reg), ToEnd(w), [])
    case Constant(c) => Given(ConstValue(c), ToEnd(w), [])
    case Not(a) => Negated(Give(cmp, a, w, r), ShapeOf(a))
    case And(a, b) =>
      var t := Test(Give(cmp, a, w, r), ShapeOf(a), true);
      Through(t, true, Give(cmp, b, Onto(t), r))
    case Or(a, b) =>
      var t := Test(Give(cmp, a, w, r), ShapeOf(a), false);
      Through(t, false, Give(cmp, b, Onto(t), r))
    case Compare(rel, a, b) =>
      var p := Give(cmp, a, w, r);
      var q := Give(cmp, b, OperandWay(a, p.way), r);
      var c := CompareValues(cmp, rel, p.v, q.v);
      Given(c.v, ToEnd(Nothing), p.events + q.events + c.events)
  }

  // Only the locals matter.
  lemma {:induction false} GiveSame(cmp: Answers, x: Expr, w: Brought, n: int, r: Regs, r': Regs)
    requires LocalsBelow(x, n) && forall i :: 0 <= i < n ==> r'(i) == r(i)
    ensures Give(cmp, x, w, r') == Give(cmp, x, w, r)
  {
    match x
    case Local(_) =>
    case Constant(_) =>
    case Not(a) => GiveSame(cmp, a, w, n, r, r');
    case And(a, b) =>
      GiveSame(cmp, a, w, n, r, r');
      GiveSame(cmp, b, Onto(Test(Give(cmp, a, w, r), ShapeOf(a), true)), n, r, r');
    case Or(a, b) =>
      GiveSame(cmp, a, w, n, r, r');
      GiveSame(cmp, b, Onto(Test(Give(cmp, a, w, r), ShapeOf(a), false)), n, r, r');
    case Compare(_, a, b) =>
      GiveSame(cmp, a, w, n, r, r');
      GiveSame(cmp, b, OperandWay(a, Give(cmp, a, w, r).way), n, r, r');
  }

  // ----- when it is the value of the expression ------------------------------------------------

  // `x` is given as it is evaluated.
  predicate GivesAt(cmp: Answers, x: Expr, w: Brought, r: Regs) {
    Give(cmp, x, w, r).v == Eval(cmp, x, r).v && Give(cmp, x, w, r).events == Eval(cmp, x, r).events
  }

  ghost predicate Gives(cmp: Answers, x: Expr) { forall r :: GivesAt(cmp, x, Nothing, r) }

  // The following look at the expression alone.  Control comes to `x` by a jump with a value
  // only if `w` says so.

  // Whether the operand behind `a` may be evaluated at all: a boolean decides the operator
  // for what comes to it, but not for the jumps over it.
  predicate Reached(a: Expr, sense: bool) {
    !Forced(ShapeOf(a), sense) || (if sense then LeavesTrue(a) else LeavesFalse(a))
  }

  // Whether control may come by a jump with a value to the end of `x`, or, behind the
  // operator, to the next operand.
  predicate MayBring(x: Expr, w: bool)
    decreases x, 0
  {
    match x
    case Not(a) => ShapeOf(a).AConstant? && MayBring(a, w)
    case And(a, b) => Reached(a, true) && MayBring(b, MayPass(a, w, true))
    case Or(a, b) => Reached(a, false) && MayBring(b, MayPass(a, w, false))
    case Compare(_, _, _) => false
    case _ => w
  }

  predicate MayPass(a: Expr, w: bool, sense: bool)
    decreases a, 1
  {
    (Skips(ShapeOf(a), sense) && MayBring(a, w)) || (if sense then KeepsTrue(a, w) else KeepsFalse(a, w))
  }

  // Whether some jump out of `x` brings a value along.
  predicate KeepsTrue(x: Expr, w: bool)
    decreases x, 0
  {
    match x
    case And(a, b) => Reached(a, true) && KeepsTrue(b, MayPass(a, w, true))
    case Or(a, b) => (Reached(a, false) && KeepsTrue(b, MayPass(a, w, false))) || KeepsOff(a, w, false)
    case _ => false
  }

  predicate KeepsFalse(x: Expr, w: bool)
    decreases x, 0
  {
    match x
    case And(a, b) => (Reached(a, true) && KeepsFalse(b, MayPass(a, w, true))) || KeepsOff(a, w, true)
    case Or(a, b) => Reached(a, false) && KeepsFalse(b, MayPass(a, w, false))
    case _ => false
  }

  // Whether one that leaves in front of the operator does.
  predicate KeepsOff(a: Expr, w: bool, sense: bool)
    decreases a, 1
  {
    || (if sense then KeepsFalse(a, w) else KeepsTrue(a, w))
    || (if Forced(ShapeOf(a), sense) then MayBring(a, w) else Keeps(ShapeOf(a)) && !Skips(ShapeOf(a), sense))
  }

  // Whether the value that some jump out of `x` brings may be one that a boolean's jump took
  // over.
  predicate TakesTrue(x: Expr, w: bool)
    decreases x, 0
  {
    match x
    case And(a, b) => Reached(a, true) && TakesTrue(b, MayPass(a, w, true))
    case Or(a, b) => (Reached(a, false) && TakesTrue(b, MayPass(a, w, false))) || TakesOff(a, w, false)
    case _ => false
  }

  predicate TakesFalse(x: Expr, w: bool)
    decreases x, 0
  {
    match x
    case And(a, b) => (Reached(a, true) && TakesFalse(b, MayPass(a, w, true))) || TakesOff(a, w, true)
    case Or(a, b) => Reached(a, false) && TakesFalse(b, MayPass(a, w, false))
    case _ => false
  }

  predicate TakesOff(a: Expr, w: bool, sense: bool)
    decreases a, 1
  {
    (if sense then TakesFalse(a, w) else TakesTrue(a, w)) || (Forced(ShapeOf(a), sense) && MayBring(a, w))
  }

  // Whether it may become the value of an operand of a comparison.
  predicate TakesIn(x: Expr, w: bool) {
    match x
    case Not(a) => TakesIn(a, w)
    case And(a, b) => TakesIn(a, w) || (Reached(a, true) && TakesIn(b, MayPass(a, w, true)))
    case Or(a, b) => TakesIn(a, w) || (Reached(a, false) && TakesIn(b, MayPass(a, w, false)))
    case Compare(_, a, b) =>
      var w' := Plain(a) && MayBring(a, w);
      TakesIn(a, w) || TakesTrue(a, w) || TakesFalse(a, w) || TakesIn(b, w') || TakesTrue(b, w') || TakesFalse(b, w')
    case _ => false
  }

  // No value that a boolean's jump took over becomes the value of `x` or of an operand.
  predicate NothingTaken(x: Expr, w: bool) { !TakesIn(x, w) && !TakesTrue(x, w) && !TakesFalse(x, w) }

  // The way out of `x` agrees with its value `v`, and with what may be brought along; what
  // is given is that value unless it was taken over.
  predicate WayOk(x: Expr, w: bool, g: Given, v: Value) {
    match g.way
    case ToEnd(b) => g.v == v && (b.Something? ==> MayBring(x, w))
    case ToTrue(kept) =>
      !IsFalse(v) && LeavesTrue(x) && (kept ==> KeepsTrue(x, w)) && (g.v == v || TakesTrue(x, w))
    case ToFalse(kept) =>
      IsFalse(v) && LeavesFalse(x) && (kept ==> KeepsFalse(x, w)) && (g.v == v || TakesFalse(x, w))
  }

  // At the end of code that ends with a constant is that constant.
  predicate ConstantIs(x: Expr, g: Given) {
    g.way.ToEnd? && ShapeOf(x).AConstant? ==> g.v == ConstValue(ShapeOf(x).c)
  }

  ghost predicate Rightly(cmp: Answers, x: Expr, may: bool, w: Brought, r: Regs) {
    var g, y := Give(cmp, x, w, r), Eval(cmp, x, r);
    g.events == y.events && WayOk(x, may, g, y.v) && ConstantIs(x, g)
  }

  // Then what `x` gives is its value.
  lemma NothingTakenGives(cmp: Answers, x: Expr, may: bool, w: Brought, r: Regs)
    requires NothingTaken(x, may) && (w.Something? ==> may)
    ensures GivesAt(cmp, x, w, r)
  {
    hide Give, Eval, KeepsTrue, KeepsFalse, MayBring, ConstantIs, LeavesTrue, LeavesFalse;
    RightlyGiven(cmp, x, may, w, r);
  }

  lemma {:induction false} RightlyGiven(cmp: Answers, x: Expr, may: bool, w: Brought, r: Regs)
    requires !TakesIn(x, may) && (w.Something? ==> may)
    ensures Rightly(cmp, x, may, w, r)
    decreases x, 1
  {
    hide Test, Through, WayOk;
    match x
    case Not(a) =>
      RightlyGiven(cmp, a, may, w, r);
      NotRightly(cmp, a, may, w, r);
    case And(a, b) => JoinGives(cmp, a, b, true, may, w, r);
    case Or(a, b) => JoinGives(cmp, a, b, false, may, w, r);
    case Compare(rel, a, b) =>
      var g := Give(cmp, a, w, r);
      RightlyGiven(cmp, a, may, w, r);
      OperandMay(a, may, g, Eval(cmp, a, r).v);
      RightlyGiven(cmp, b, Plain(a) && MayBring(a, may), OperandWay(a, g.way), r);
      OperandMay(b, Plain(a) && MayBring(a, may), Give(cmp, b, OperandWay(a, g.way), r), Eval(cmp, b, r).v);
      CompareRightly(cmp, rel, a, b, may, w, r);
    case _ => LeafRightly(cmp, x, may, w, r);
  }

  lemma LeafRightly(cmp: Answers, x: Expr, may: bool, w: Brought, r: Regs)
    requires (x.Local? || x.Constant?) && (w.Something? ==> may)
    ensures Rightly(cmp, x, may, w, r)
  {
  }

  lemma OperandMay(a: Expr, may: bool, g: Given, v: Value)
    requires WayOk(a, may, g, v) && !TakesTrue(a, may) && !TakesFalse(a, may)
    ensures g.v == v && (OperandWay(a, g.way).Something? ==> Plain(a) && MayBring(a, may))
  {
  }

  lemma NotRightly(cmp: Answers, a: Expr, may: bool, w: Brought, r: Regs)
    requires Rightly(cmp, a, may, w, r)
    ensures Rightly(cmp, Not(a), may, w, r)
  {
  }

  lemma CompareRightly(cmp: Answers, rel: RelOp, a: Expr, b: Expr, may: bool, w: Brought, r: Regs)
    requires GivesAt(cmp, a, w, r) && GivesAt(cmp, b, OperandWay(a, Give(cmp, a, w, r).way), r)
    ensures Rightly(cmp, Compare(rel, a, b), may, w, r)
  {
  }

  // `and`, or `or`.
  function Joined(a: Expr, b: Expr, sense: bool): Expr { if sense then And(a, b) else Or(a, b) }

  lemma {:induction false} JoinGives(cmp: Answers, a: Expr, b: Expr, sense: bool, may: bool, w: Brought, r: Regs)
    requires !TakesIn(Joined(a, b, sense), may) && (w.Something? ==> may)
    ensures Rightly(cmp, Joined(a, b, sense), may, w, r)
    decreases Joined(a, b, sense), 0
  {
    hide Test, Through, WayOk, ConstantIs;
    var t := Test(Give(cmp, a, w, r), ShapeOf(a), sense);
    RightlyGiven(cmp, a, may, w, r);
    TestOk(cmp, a, sense, may, w, r);
    if t.next.On? {
      RightlyGiven(cmp, b, MayPass(a, may, sense), Onto(t), r);
      JoinOnRightly(cmp, a, b, sense, may, w, r);
    } else {
      JoinOffRightly(cmp, a, b, sense, may, w, r);
    }
  }

  // The operator goes on exactly when the truth is `sense`.
  predicate TestedRightly(a: Expr, may: bool, sense: bool, v: Value, t: Tested) {
    match t.next
    case On(b) => IsFalse(v) != sense && Reached(a, sense) && (b.Something? ==> MayPass(a, may, sense))
    case Off(kept) =>
      && IsFalse(v) == sense && (t.v == v || TakesOff(a, may, sense)) && (kept ==> KeepsOff(a, may, sense))
      && Leaving(a, sense)
  }

  lemma TestOk(cmp: Answers, a: Expr, sense: bool, may: bool, w: Brought, r: Regs)
    requires Rightly(cmp, a, may, w, r)
    ensures TestedRightly(a, may, sense, Eval(cmp, a, r).v, Test(Give(cmp, a, w, r), ShapeOf(a), sense))
  {
    hide Give, Eval, LeavesTrue, LeavesFalse, KeepsTrue, KeepsFalse, TakesTrue, TakesFalse, MayBring;
  }

  lemma JoinOnRightly(cmp: Answers, a: Expr, b: Expr, sense: bool, may: bool, w: Brought, r: Regs)
    requires var t := Test(Give(cmp, a, w, r), ShapeOf(a), sense);
             && Give(cmp, a, w, r).events == Eval(cmp, a, r).events
             && TestedRightly(a, may, sense, Eval(cmp, a, r).v, t) && t.next.On?
             && Rightly(cmp, b, MayPass(a, may, sense), Onto(t), r)
    ensures Rightly(cmp, Joined(a, b, sense), may, w, r)
  {
    TestEvents(Give(cmp, a, w, r), ShapeOf(a), sense);
    hide Test, MayPass, Skips, Forced, Keeps, Reached, KeepsOff, TakesOff, Leaving;
  }

  lemma JoinOffRightly(cmp: Answers, a: Expr, b: Expr, sense: bool, may: bool, w: Brought, r: Regs)
    requires var t := Test(Give(cmp, a, w, r), ShapeOf(a), sense);
             && Give(cmp, a, w, r).events == Eval(cmp, a, r).events
             && TestedRightly(a, may, sense, Eval(cmp, a, r).v, t) && t.next.Off?
    ensures Rightly(cmp, Joined(a, b, sense), may, w, r)
  {
    TestEvents(Give(cmp, a, w, r), ShapeOf(a), sense);
    hide Test, MayPass, Skips, Forced, Keeps, Reached, KeepsOff, TakesOff;
  }

  lemma TestEvents(g: Given, k: Shape, sense: bool)
    ensures Test(g, k, sense).events == g.events
  {
  }

  // In particular where no boolean decides an operator.
  predicate NoFixedJumps(x: Expr) {
    match x
    case Not(a) => NoFixedJumps(a)
    case And(a, b) => NoFixedJumps(a) && NoFixedJumps(b) && !Forced(ShapeOf(a), true)
    case Or(a, b) => NoFixedJumps(a) && NoFixedJumps(b) && !Forced(ShapeOf(a), false)
    case Compare(_, a, b) => NoFixedJumps(a) && NoFixedJumps(b)
    case _ => true
  }

  lemma {:induction false} NoFixedTaken(x: Expr, w: bool)
    requires NoFixedJumps(x)
    ensures NothingTaken(x, w)
  {
    match x
    case Not(a) => NoFixedTaken(a, w);
    case And(a, b) => NoFixedTaken(a, w); NoFixedTaken(b, MayPass(a, w, true));
    case Or(a, b) => NoFixedTaken(a, w); NoFixedTaken(b, MayPass(a, w, false));
    case Compare(_, a, b) => NoFixedTaken(a, w); NoFixedTaken(b, Plain(a) && MayBring(a, w));
    case _ =>
  }
}

// Which patterns cannot be built, and what is raised for them.

module LpegErrors {
  import opened LpegCode
  import opened LpegPeg
  import opened LpegMachine
  import opened LpegBuild
  import opened LpegTyping
  import opened LpegMeaning
  import opened LpegLoops
  import opened LpegSolid
  import opened LpegUnion
  import opened LpegSeparate
  import opened LpegCorrect
  import opened LpegVm
  import opened LpegVerify

  // On the lenient reading `p` matches the empty subject: it may match nothing.
  ghost predicate MayBeEmpty(p: Pat) { Peg(LENIENT, p, 0, []).Got? }

  // The lenient run of the body of a loop comes to a choice with MAXBACK others pending.
  ghost predicate PendsTooMany(body: Pat) { Compile(body).Ok? && Overflows(Compile(body).value) }

  datatype Failure = Fine | Raises(error: BuildError)

  function First(f: Failure, g: Failure): Failure { if f.Raises? then f else g }

  // Operands are built before what they are operands of, the left one first.
  ghost function Fails(p: Pat): Failure {
    match p
    case Cat(a, b) => First(Fails(a), Fails(b))
    case Or(a, b) => First(Fails(a), Fails(b))
    case Diff(a, b) => First(Fails(a), Fails(b))
    case Neg(a) => Fails(a)
    case And(a) => Fails(a)
    case Rep(a, _) => First(Fails(a), LoopFails(PendsTooMany(a), a))
    case Opt(a, _) => Fails(a)
    case Capt(_, _, a) => Fails(a)
    case _ => Fine
  }

  ghost function LoopFails(deep: bool, body: Pat): Failure {
    if deep then Raises(TooManyPending) else if MayBeEmpty(body) then Raises(EmptyLoopBody) else Fine
  }

  // Some unbounded repetition has a body that may match nothing.
  ghost predicate HasEmptyLoop(p: Pat) {
    match p
    case Cat(a, b) => HasEmptyLoop(a) || HasEmptyLoop(b)
    case Or(a, b) => HasEmptyLoop(a) || HasEmptyLoop(b)
    case Diff(a, b) => HasEmptyLoop(a) || HasEmptyLoop(b)
    case Neg(a) => HasEmptyLoop(a)
    case And(a) => HasEmptyLoop(a)
    case Rep(a, _) => HasEmptyLoop(a) || MayBeEmpty(a)
    case Opt(a, _) => HasEmptyLoop(a)
    case Capt(_, _, a) => HasEmptyLoop(a)
    case _ => false
  }

  // ----- one loop ------------------------------------------------------------------------------

  // A body that starts with a check fails at once on the lenient reading.
  lemma CheckRefused(c: Code)
    requires c != [] && IsCheck(c[0])
    ensures Accepts(c) && !Overflows(c)
  {
    assert Step(LENIENT, c, START) == Fail([]);
    OneMore(c, 0);
    assert Steps(LENIENT, c, START, 0) == START;
    assert Steps(LENIENT, c, START, 1) == Fail([]);
    NotOverflowed(c, 1);
  }

  // A body that is a set, or fails at its head only, is never refused; any other one is
  // refused exactly when it pends too much or may match nothing.
  lemma RepFails(c: Code, n: nat, body: Pat)
    requires Implements(c, body)
    ensures match RepCode(c, n)
            case Ok(_) => LoopFails(Overflows(c), body) == Fine
            case Err(e) => LoopFails(Overflows(c), body) == Raises(e)
  {
    hide Accepts, Overflows;
    AcceptsMeaning(c, body);
    if ToCharset(c).IsCharset? || IsHeadFail(c) { CheckRefused(c); }
  }

  // ----- whole patterns --------------------------------------------------------------------------

  lemma {:induction false} BuildFails(p: Pat)
    requires Safe(p)
    ensures match Fails(p)
            case Fine => Compile(p).Ok?
            case Raises(e) => Compile(p) == Err(e)
  {
    hide RepCode, Overflows, Good, MayBeEmpty, LoopFails;
    match p
    case Cat(a, b) => BuildFails(a); BuildFails(b);
    case Or(a, b) => BuildFails(a); BuildFails(b);
    case Diff(a, b) => BuildFails(a); BuildFails(b);
    case Neg(a) => BuildFails(a);
    case And(a) => BuildFails(a);
    case Rep(a, n) =>
      BuildFails(a);
      if Compile(a).Ok? {
        CompileGood(a);
        GoodBasics(Compile(a).value, a, Depth(a));
        RepFails(Compile(a).value, n, a);
      }
    case Opt(a, _) => BuildFails(a);
    case Capt(_, _, a) => BuildFails(a);
    case _ =>
  }

  // ----- shallow patterns --------------------------------------------------------------------------

  lemma {:induction false} LenientRunsWell(c: Code, ty: seq<Ctx>, d: int, n: nat)
    requires TypedBy(c, ty, d)
    ensures RunsWell(c, ty, Steps(LENIENT, c, START, n))
  {
    hide Step, TypedBy;
    if n == 0 {
      StartWell(c, ty, d);
    } else {
      LenientRunsWell(c, ty, d, n - 1);
      OneMore(c, n - 1);
      StepRunsWell(c, ty, d, LENIENT, Steps(LENIENT, c, START, n - 1));
    }
  }

  lemma StartWell(c: Code, ty: seq<Ctx>, d: int)
    requires TypedBy(c, ty, d)
    ensures |ty| == |c| + 1 && RunsWell(c, ty, START) && Steps(LENIENT, c, START, 0) == START
  {
  }

  lemma OverflowIsDeep(c: Code, d: nat)
    requires Typed(c, d) && Overflows(c)
    ensures d > MAXBACK
  {
    hide Steps;
    var ty :| TypedBy(c, ty, d);
    var n: nat :|
      var st := Steps(LENIENT, c, Run(0, 0, [], []), n);
      st.Run? && 0 <= st.pc < |c| && c[st.pc].op.IChoice? && |st.stack| >= MAXBACK;
    LenientRunsWell(c, ty, d, n);
    var st := Steps(LENIENT, c, START, n);
    assert TypedAt(c, ty, st.pc) && Choices(ty[st.pc + 1]) <= d;
    FitsCount(ty, ty[st.pc], st.stack, |st.caps|);
  }

  lemma PendingIsDeep(body: Pat)
    requires Safe(body) && PendsTooMany(body)
    ensures Depth(body) > MAXBACK
  {
    hide Overflows;
    CompileGood(body);
    GoodBasics(Compile(body).value, body, Depth(body));
    OverflowIsDeep(Compile(body).value, Depth(body));
  }

  // Where no more than MAXBACK choices are nested, patterns fail exactly for a loop that
  // may match nothing.
  lemma {:induction false} ShallowFails(p: Pat)
    requires Safe(p) && Depth(p) <= MAXBACK
    ensures Fails(p) == if HasEmptyLoop(p) then Raises(EmptyLoopBody) else Fine
  {
    hide PendsTooMany, MayBeEmpty;
    match p
    case Cat(a, b) => ShallowFails(a); ShallowFails(b);
    case Or(a, b) => ShallowFails(a); ShallowFails(b);
    case Diff(a, b) => ShallowFails(a); ShallowFails(b);
    case Neg(a) => ShallowFails(a);
    case And(a) => ShallowFails(a);
    case Rep(a, n) =>
      ShallowFails(a);
      if PendsTooMany(a) { PendingIsDeep(a); }
    case Opt(a, _) => ShallowFails(a);
    case Capt(_, _, a) => ShallowFails(a);
    case _ =>
  }
}

// The virtual machine that runs compiled patterns, with backtrack entries that
// remember the captures they restore.

module LpegMachine {
  import opened LpegCode
  import opened LpegPeg

  datatype Frame = Frame(pc: int, s: int, caps: seq<Capture>)

  datatype State =
    | Run(pc: int, s: int, stack: seq<Frame>, caps: seq<Capture>)
    | Fail(stack: seq<Frame>)

  // Does a check or test succeed at `s`?  The verifier takes every one to fail.
  predicate Passes(env: Env, i: Instr, s: int) {
    !env.lenient &&
    match i.op
    case IAny => i.aux <= |env.subj| - s
    case ITestAny => i.aux <= |env.subj| - s
    case IChar => CharAt(env.subj, s) == i.aux && s < |env.subj|
    case ITestChar => CharAt(env.subj, s) == i.aux && s < |env.subj|
    case ISet => CharAt(env.subj, s) in i.cs
    case ITestSet => CharAt(env.subj, s) in i.cs
    case IZSet => CharAt(env.subj, s) in i.cs && s < |env.subj|
    case ITestZSet => CharAt(env.subj, s) in i.cs && s < |env.subj|
    case _ => false
  }

  function SpanEnd(subj: Subject, cs: Charset, s: int): int
    decreases |subj| - s
  {
    if s < |subj| && CharAt(subj, s) in cs then SpanEnd(subj, cs, s + 1) else s
  }

  // What a capture instruction does to the capture list.
  function CapStep(i: Instr, s: int, caps: seq<Capture>): seq<Capture> {
    match i.op
    case ICloseCapture => CloseCap(caps, s - GetOff(i), i.offset, GetKind(i))
    case IEmptyCapture => caps + [Capture(s - GetOff(i), i.offset, GetKind(i), 1)]
    case IOpenCapture => caps + [Capture(s - GetOff(i), i.offset, GetKind(i), 0)]
    case _ => caps + [Capture(s - GetOff(i), i.offset, GetKind(i), GetOff(i) + 1)]
  }

  function Exec(env: Env, i: Instr, pc: int, s: int, k: seq<Frame>, caps: seq<Capture>): State {
    if IsCheck(i) then
      if Passes(env, i, s) then Run(pc + 1, s + StepLen(i), k, caps) else Fail(k)
    else if IsTest(i) then
      if Passes(env, i, s) then Run(pc + 1, s + StepLen(i), k, caps) else Run(pc + i.offset, s, k, caps)
    else if IsSpan(i) then
      Run(pc + 1, SpanEnd(env.subj, i.cs, s), k, caps)
    else if IsCapture(i) then
      Run(pc + 1, s, k, CapStep(i, s, caps))
    else if i.op.IJmp? then
      Run(pc + i.offset, s, k, caps)
    else if i.op.IChoice? then
      Run(pc + 1, s, k + [Frame(pc + i.offset, s - i.aux, caps)], caps)
    else if i.op.IFail? then
      if env.lenient && i.aux != 0 then Run(pc + 1, s, k, caps) else Fail(k)
    else if k == [] then
      Run(pc, s, k, caps)
    else
      var top, below := k[|k| - 1], k[..|k| - 1];
      match i.op
      case ICommit => Run(pc + i.offset, s, below, caps)
      case IPartialCommit =>
        if env.lenient && i.offset <= 0 then Run(pc + 1, s, below, caps)
        else Run(pc + i.offset, s, below + [Frame(top.pc, s, caps)], caps)
      case IBackCommit => Run(pc + i.offset, top.s, below, top.caps)
      case IFailTwice => if env.lenient then Fail(k) else Fail(below)
      case _ => Run(pc, s, k, caps)
  }

  function Step(env: Env, c: Code, st: State): State {
    match st
    case Run(pc, s, k, caps) => if 0 <= pc < |c| then Exec(env, c[pc], pc, s, k, caps) else st
    case Fail(k) =>
      if k == [] then st
      else var top := k[|k| - 1]; Run(top.pc, top.s, k[..|k| - 1], top.caps)
  }

  // A run of a pattern on its own ends outside the code or with nothing left to try.
  predicate Halted(c: Code, st: State) {
    match st
    case Run(pc, _, _, _) => pc < 0 || pc >= |c|
    case Fail(k) => k == []
  }

  function Steps(env: Env, c: Code, st: State, n: nat): State
    decreases n
  {
    if n == 0 then st else Steps(env, c, Step(env, c, st), n - 1)
  }

  ghost predicate Reaches(env: Env, c: Code, st: State, st': State) {
    exists n: nat :: Steps(env, c, st, n) == st'
  }

  lemma {:induction false} StepsAdd(env: Env, c: Code, st: State, m: nat, n: nat)
    ensures Steps(env, c, st, m + n) == Steps(env, c, Steps(env, c, st, m), n)
    decreases m
  {
    if m > 0 { StepsAdd(env, c, Step(env, c, st), m - 1, n); }
  }

  lemma {:induction false} HaltedStays(env: Env, c: Code, st: State, n: nat)
    requires Halted(c, st)
    ensures Steps(env, c, st, n) == st
  {
    if n > 0 { HaltedStays(env, c, st, n - 1); }
  }

  lemma ReachesSelf(env: Env, c: Code, st: State)
    ensures Reaches(env, c, st, st)
  {
    assert Steps(env, c, st, 0) == st;
  }

  lemma ReachesTrans(env: Env, c: Code, a: State, b: State, d: State)
    requires Reaches(env, c, a, b) && Reaches(env, c, b, d)
    ensures Reaches(env, c, a, d)
  {
    var m: nat :| Steps(env, c, a, m) == b;
    var n: nat :| Steps(env, c, b, n) == d;
    StepsAdd(env, c, a, m, n);
  }

  // One step, then the rest.
  lemma ReachesStep(env: Env, c: Code, a: State, d: State)
    requires Reaches(env, c, Step(env, c, a), d)
    ensures Reaches(env, c, a, d)
  {
    var n: nat :| Steps(env, c, Step(env, c, a), n) == d;
    assert Steps(env, c, a, n + 1) == d;
  }

  lemma StepsFirst(env: Env, c: Code, a: State, n: nat)
    requires n > 0
    ensures Steps(env, c, a, n) == Steps(env, c, Step(env, c, a), n - 1)
  {
  }

  lemma ReachesFromStep(env: Env, c: Code, a: State, d: State)
    requires Reaches(env, c, a, d) && a != d
    ensures Reaches(env, c, Step(env, c, a), d)
  {
    var n: nat :| Steps(env, c, a, n) == d;
    assert n > 0;
    assert Steps(env, c, Step(env, c, a), n - 1) == d;
  }

  // Where a run halts does not depend on how it got there.
  lemma HaltUnique(env: Env, c: Code, a: State, d: State, d': State)
    requires Reaches(env, c, a, d) && Reaches(env, c, a, d') && Halted(c, d) && Halted(c, d')
    ensures d == d'
  {
    var m: nat :| Steps(env, c, a, m) == d;
    var n: nat :| Steps(env, c, a, n) == d';
    StepsAdd(env, c, a, m, n);
    StepsAdd(env, c, a, n, m);
    HaltedStays(env, c, d, n);
    HaltedStays(env, c, d', m);
  }

  // ----- single steps ----------------------------------------------------------

  lemma StepChoice(env: Env, c: Code, pc: int, s: int, k: seq<Frame>, caps: seq<Capture>)
    requires 0 <= pc < |c| && c[pc].op.IChoice?
    ensures Step(env, c, Run(pc, s, k, caps)) ==
            Run(pc + 1, s, k + [Frame(pc + c[pc].offset, s - c[pc].aux, caps)], caps)
  {
    hide CapStep, Passes, SpanEnd;
  }

  lemma StepFail(env: Env, c: Code, below: seq<Frame>, top: Frame)
    ensures Step(env, c, Fail(below + [top])) == Run(top.pc, top.s, below, top.caps)
  {
    assert (below + [top])[..|below|] == below;
  }

  lemma StepCommit(env: Env, c: Code, pc: int, s: int, below: seq<Frame>, top: Frame, caps: seq<Capture>)
    requires 0 <= pc < |c|
    ensures c[pc].op.ICommit? ==>
              Step(env, c, Run(pc, s, below + [top], caps)) == Run(pc + c[pc].offset, s, below, caps)
    ensures c[pc].op.IPartialCommit? && (env.lenient ==> c[pc].offset > 0) ==>
              Step(env, c, Run(pc, s, below + [top], caps)) ==
                Run(pc + c[pc].offset, s, below + [Frame(top.pc, s, caps)], caps)
    ensures c[pc].op.IPartialCommit? && env.lenient && c[pc].offset <= 0 ==>
              Step(env, c, Run(pc, s, below + [top], caps)) == Run(pc + 1, s, below, caps)
    ensures c[pc].op.IBackCommit? ==>
              Step(env, c, Run(pc, s, below + [top], caps)) == Run(pc + c[pc].offset, top.s, below, top.caps)
    ensures c[pc].op.IFailTwice? ==>
              Step(env, c, Run(pc, s, below + [top], caps)) == if env.lenient then Fail(below + [top]) else Fail(below)
  {
    hide CapStep, Passes, SpanEnd;
    assert (below + [top])[..|below|] == below;
  }

  // An instruction that leaves the backtrack stack alone: it goes on somewhere, or fails.
  lemma ExecFlow(env: Env, i: Instr, pc: int, s: int, k: seq<Frame>, k': seq<Frame>, caps: seq<Capture>)
    requires !Stuck(i) && !i.op.IChoice?
    ensures match Exec(env, i, pc, s, k, caps)
            case Run(pc', s', k1, caps') => k1 == k && Exec(env, i, pc, s, k', caps) == Run(pc', s', k', caps')
                                            && (!IsJmp(i) ==> pc' == pc + 1)
            case Fail(k1) => k1 == k && Exec(env, i, pc, s, k', caps) == Fail(k')
  {
    hide CapStep, Passes, SpanEnd;
  }

  lemma StepFlow(env: Env, c: Code, pc: int, s: int, k: seq<Frame>, caps: seq<Capture>)
    requires 0 <= pc < |c|
    ensures c[pc].op.IJmp? ==> Step(env, c, Run(pc, s, k, caps)) == Run(pc + c[pc].offset, s, k, caps)
    ensures c[pc].op.IFail? ==>
              Step(env, c, Run(pc, s, k, caps)) == if env.lenient && c[pc].aux != 0 then Run(pc + 1, s, k, caps)
                                                   else Fail(k)
    ensures IsCheck(c[pc]) ==>
              Step(env, c, Run(pc, s, k, caps))
                == if Passes(env, c[pc], s) then Run(pc + 1, s + StepLen(c[pc]), k, caps) else Fail(k)
    ensures IsTest(c[pc]) ==>
              Step(env, c, Run(pc, s, k, caps))
                == if Passes(env, c[pc], s) then Run(pc + 1, s + StepLen(c[pc]), k, caps)
                   else Run(pc + c[pc].offset, s, k, caps)
    ensures IsSpan(c[pc]) ==>
              Step(env, c, Run(pc, s, k, caps)) == Run(pc + 1, SpanEnd(env.subj, c[pc].cs, s), k, caps)
    ensures IsCapture(c[pc]) ==>
              Step(env, c, Run(pc, s, k, caps)) == Run(pc + 1, s, k, CapStep(c[pc], s, caps))
  {
    hide CapStep, Passes, SpanEnd;
  }

  // ----- running a fragment inside larger code -------------------------------

  // `x` is where the larger code sends the exits that lie past the fragment's end.
  function LiftPc(f: Code, b: int, x: int, pc: int): int {
    if pc > |f| then x + (pc - |f| - 1) else b + pc
  }

  function LiftFrame(f: Code, b: int, x: int, fr: Frame): Frame {
    fr.(pc := LiftPc(f, b, x, fr.pc))
  }

  // The entries `k` of a fragment, on top of the entries `base`.
  function LiftFrames(f: Code, b: int, x: int, base: seq<Frame>, k: seq<Frame>): (up: seq<Frame>)
    ensures |up| == |base| + |k|
  {
    if k == [] then base
    else LiftFrames(f, b, x, base, k[..|k| - 1]) + [LiftFrame(f, b, x, k[|k| - 1])]
  }

  function Lift(f: Code, b: int, x: int, base: seq<Frame>, st: State): State {
    match st
    case Run(pc, s, k, caps) => Run(LiftPc(f, b, x, pc), s, LiftFrames(f, b, x, base, k), caps)
    case Fail(k) => Fail(LiftFrames(f, b, x, base, k))
  }

  function Relocated(f: Code, b: int, x: int, i: int): Instr
    requires 0 <= i < |f|
  {
    if IsJmp(f[i]) then f[i].(offset := LiftPc(f, b, x, i + f[i].offset) - (b + i)) else f[i]
  }

  ghost predicate AtX(big: Code, b: int, f: Code, x: int) {
    && 0 <= b && b + |f| <= |big| && b + |f| <= x
    && forall i {:trigger Relocated(f, b, x, i)} :: 0 <= i < |f| ==> big[b + i] == Relocated(f, b, x, i)
  }

  lemma AtIsAtX(big: Code, b: int, f: Code)
    requires At(big, b, f)
    ensures AtX(big, b, f, b + |f| + 1)
  {
    forall i {:trigger Relocated(f, b, b + |f| + 1, i)} | 0 <= i < |f|
      ensures big[b + i] == Relocated(f, b, b + |f| + 1, i)
    {
      assert big[b..b + |f|][i] == f[i];
    }
  }

  lemma LiftPush(f: Code, b: int, x: int, base: seq<Frame>, k: seq<Frame>, fr: Frame)
    ensures LiftFrames(f, b, x, base, k + [fr]) == LiftFrames(f, b, x, base, k) + [LiftFrame(f, b, x, fr)]
  {
    assert (k + [fr])[..|k|] == k;
  }

  lemma LiftPop(f: Code, b: int, x: int, base: seq<Frame>, k: seq<Frame>)
    requires k != []
    ensures var up := LiftFrames(f, b, x, base, k);
            && up != []
            && up[..|up| - 1] == LiftFrames(f, b, x, base, k[..|k| - 1])
            && up[|up| - 1] == LiftFrame(f, b, x, k[|k| - 1])
  {
  }

  // The instructions that need a backtrack entry.
  predicate Stuck(i: Instr) {
    i.op.ICommit? || i.op.IPartialCommit? || i.op.IBackCommit? || i.op.IFailTwice? || i.op.IEnd?
  }

  lemma LiftPlain(env: Env, f: Code, b: int, x: int, base: seq<Frame>, i: Instr, pc: int, s: int, k: seq<Frame>,
                  caps: seq<Capture>)
    requires !IsJmp(i) && 0 <= pc < |f| && !Stuck(i)
    ensures Exec(env, i, b + pc, s, LiftFrames(f, b, x, base, k), caps) ==
            Lift(f, b, x, base, Exec(env, i, pc, s, k, caps))
  {
    hide CapStep, Passes, SpanEnd;
  }

  lemma LiftJump(env: Env, f: Code, b: int, x: int, base: seq<Frame>, i: Instr, pc: int, s: int, k: seq<Frame>,
                 caps: seq<Capture>)
    requires IsTest(i) || i.op.IJmp?
    requires 0 <= pc < |f|
    ensures var i' := i.(offset := LiftPc(f, b, x, pc + i.offset) - (b + pc));
            Exec(env, i', b + pc, s, LiftFrames(f, b, x, base, k), caps) ==
              Lift(f, b, x, base, Exec(env, i, pc, s, k, caps))
  {
    hide Exec;
    ExecJump(env, i, pc, s, k, caps);
    ExecJump(env, i.(offset := LiftPc(f, b, x, pc + i.offset) - (b + pc)), b + pc, s, LiftFrames(f, b, x, base, k),
             caps);
  }

  lemma ExecJump(env: Env, i: Instr, pc: int, s: int, k: seq<Frame>, caps: seq<Capture>)
    requires IsTest(i) || i.op.IJmp?
    ensures Exec(env, i, pc, s, k, caps)
            == if IsTest(i) && Passes(env, i, s) then Run(pc + 1, s + StepLen(i), k, caps)
               else Run(pc + i.offset, s, k, caps)
  {
    hide CapStep, SpanEnd, Passes;
  }

  lemma ExecChoice(env: Env, i: Instr, pc: int, s: int, k: seq<Frame>, caps: seq<Capture>)
    requires i.op.IChoice?
    ensures Exec(env, i, pc, s, k, caps) == Run(pc + 1, s, k + [Frame(pc + i.offset, s - i.aux, caps)], caps)
  {
    hide CapStep, Passes, SpanEnd;
  }

  lemma LiftChoice(env: Env, f: Code, b: int, x: int, base: seq<Frame>, i: Instr, pc: int, s: int, k: seq<Frame>,
                   caps: seq<Capture>)
    requires i.op.IChoice? && 0 <= pc < |f|
    ensures var i' := i.(offset := LiftPc(f, b, x, pc + i.offset) - (b + pc));
            Exec(env, i', b + pc, s, LiftFrames(f, b, x, base, k), caps) ==
              Lift(f, b, x, base, Exec(env, i, pc, s, k, caps))
  {
    hide Exec;
    ExecChoice(env, i, pc, s, k, caps);
    ExecChoice(env, i.(offset := LiftPc(f, b, x, pc + i.offset) - (b + pc)), b + pc, s, LiftFrames(f, b, x, base, k),
               caps);
    LiftPush(f, b, x, base, k, Frame(pc + i.offset, s - i.aux, caps));
  }

  lemma ExecPop(env: Env, i: Instr, pc: int, s: int, below: seq<Frame>, top: Frame, caps: seq<Capture>)
    requires i.op.ICommit? || i.op.IPartialCommit? || i.op.IBackCommit? || i.op.IFailTwice?
    ensures Exec(env, i, pc, s, below + [top], caps) ==
            match i.op
            case ICommit => Run(pc + i.offset, s, below, caps)
            case IPartialCommit =>
              if env.lenient && i.offset <= 0 then Run(pc + 1, s, below, caps)
              else Run(pc + i.offset, s, below + [Frame(top.pc, s, caps)], caps)
            case IBackCommit => Run(pc + i.offset, top.s, below, top.caps)
            case _ => if env.lenient then Fail(below + [top]) else Fail(below)
  {
    hide CapStep, Passes, SpanEnd;
    assert (below + [top])[..|below|] == below;
  }

  lemma LiftPopping(env: Env, f: Code, b: int, x: int, base: seq<Frame>, i: Instr, pc: int, s: int, k: seq<Frame>,
                    caps: seq<Capture>)
    requires i.op.ICommit? || i.op.IPartialCommit? || i.op.IBackCommit? || i.op.IFailTwice?
    requires 0 <= pc < |f| && k != [] && b + |f| <= x
    ensures var i' := if IsJmp(i) then i.(offset := LiftPc(f, b, x, pc + i.offset) - (b + pc)) else i;
            Exec(env, i', b + pc, s, LiftFrames(f, b, x, base, k), caps) ==
              Lift(f, b, x, base, Exec(env, i, pc, s, k, caps))
  {
    hide Exec;
    var i' := if IsJmp(i) then i.(offset := LiftPc(f, b, x, pc + i.offset) - (b + pc)) else i;
    var top, below := k[|k| - 1], k[..|k| - 1];
    assert k == below + [top];
    var up := LiftFrames(f, b, x, base, below);
    LiftPush(f, b, x, base, below, top);
    LiftPush(f, b, x, base, below, Frame(top.pc, s, caps));
    ExecPop(env, i, pc, s, below, top, caps);
    ExecPop(env, i', b + pc, s, up, LiftFrame(f, b, x, top), caps);
  }

  lemma ExecStuck(env: Env, i: Instr, pc: int, s: int, k: seq<Frame>, caps: seq<Capture>)
    requires Stuck(i) && (k == [] || i.op.IEnd?)
    ensures Exec(env, i, pc, s, k, caps) == Run(pc, s, k, caps)
  {
    hide CapStep, Passes, SpanEnd;
  }

  lemma LiftExec(env: Env, f: Code, b: int, x: int, base: seq<Frame>, pc: int, s: int, k: seq<Frame>,
                 caps: seq<Capture>)
    requires 0 <= pc < |f| && b + |f| <= x
    requires k == [] && base != [] ==> !Stuck(f[pc])
    ensures Exec(env, Relocated(f, b, x, pc), b + pc, s, LiftFrames(f, b, x, base, k), caps)
         == Lift(f, b, x, base, Exec(env, f[pc], pc, s, k, caps))
  {
    hide Exec;
    var i := f[pc];
    if Stuck(i) && (k == [] || i.op.IEnd?) {
      ExecStuck(env, i, pc, s, k, caps);
      ExecStuck(env, Relocated(f, b, x, pc), b + pc, s, LiftFrames(f, b, x, base, k), caps);
    } else if Stuck(i) {
      LiftPopping(env, f, b, x, base, i, pc, s, k, caps);
    } else if !IsJmp(i) {
      LiftPlain(env, f, b, x, base, i, pc, s, k, caps);
    } else if i.op.IChoice? {
      LiftChoice(env, f, b, x, base, i, pc, s, k, caps);
    } else {
      LiftJump(env, f, b, x, base, i, pc, s, k, caps);
    }
  }

  lemma LiftStep(env: Env, f: Code, big: Code, b: int, x: int, base: seq<Frame>, st: State)
    requires AtX(big, b, f, x) && !Halted(f, st)
    requires st.Run? && st.stack == [] && base != [] ==> !Stuck(f[st.pc])
    ensures Step(env, big, Lift(f, b, x, base, st)) == Lift(f, b, x, base, Step(env, f, st))
  {
    hide Exec;
    match st
    case Fail(k) => LiftPop(f, b, x, base, k);
    case Run(pc, s, k, caps) =>
      assert big[b + pc] == Relocated(f, b, x, pc);
      LiftExec(env, f, b, x, base, pc, s, k, caps);
  }

  // A step without its backtrack entry never moves again.
  lemma {:induction false} StuckStays(env: Env, c: Code, st: State, n: nat)
    requires st.Run? && 0 <= st.pc < |c| && st.stack == [] && Stuck(c[st.pc])
    ensures Steps(env, c, st, n) == st
  {
    if n > 0 { StuckStays(env, c, st, n - 1); }
  }

  // A halting run of a fragment is also a run of any code that contains it, on
  // top of whatever backtrack entries are pending.
  lemma {:induction false} Embed(env: Env, f: Code, big: Code, b: int, x: int, base: seq<Frame>, st: State, n: nat)
    requires AtX(big, b, f, x) && Halted(f, Steps(env, f, st, n))
    ensures Reaches(env, big, Lift(f, b, x, base, st), Lift(f, b, x, base, Steps(env, f, st, n)))
    decreases n
  {
    if Halted(f, st) {
      HaltedStays(env, f, st, n);
      ReachesSelf(env, big, Lift(f, b, x, base, st));
    } else {
      if st.Run? && st.stack == [] && Stuck(f[st.pc]) { StuckStays(env, f, st, n); }
      LiftStep(env, f, big, b, x, base, st);
      Embed(env, f, big, b, x, base, Step(env, f, st), n - 1);
      ReachesStep(env, big, Lift(f, b, x, base, st), Lift(f, b, x, base, Steps(env, f, st, n)));
    }
  }

  // ----- dropping a prefix that is never revisited ---------------------------

  predicate NoJumpBelow(f: Code) {
    forall j :: 0 <= j < |f| && IsJmp(f[j]) ==> 0 <= Dest(f, j)
  }

  predicate FramesFrom(k: seq<Frame>) {
    forall i :: 0 <= i < |k| ==> 0 <= k[i].pc
  }

  predicate StateFrom(st: State) {
    FramesFrom(st.stack) && (st.Run? ==> 0 <= st.pc)
  }

  lemma StepFrom(env: Env, f: Code, st: State)
    requires NoJumpBelow(f) && StateFrom(st)
    ensures StateFrom(Step(env, f, st))
  {
    hide CapStep, Passes, SpanEnd;
    match st
    case Fail(k) =>
    case Run(pc, s, k, caps) =>
      if pc < |f| && IsJmp(f[pc]) { assert 0 <= Dest(f, pc); }
  }

  lemma SuffixStep(env: Env, c: Code, b: nat, st: State)
    requires b <= |c| && NoJumpBelow(c[b..]) && StateFrom(st)
    ensures var f := c[b..]; var x := b + |f| + 1;
            Step(env, c, Lift(f, b, x, [], st)) == Lift(f, b, x, [], Step(env, f, st))
  {
    hide Step, AtX, NoJumpBelow, LiftFrames, Stuck;
    var f := c[b..];
    AtIsAtX(c, b, f);
    if Halted(f, st) { SuffixHalted(env, c, b, st); } else { LiftStep(env, f, c, b, b + |f| + 1, [], st); }
  }

  lemma SuffixHalted(env: Env, c: Code, b: nat, st: State)
    requires b <= |c| && StateFrom(st) && Halted(c[b..], st)
    ensures var f := c[b..]; var x := b + |f| + 1;
            Step(env, f, st) == st && Step(env, c, Lift(f, b, x, [], st)) == Lift(f, b, x, [], st)
  {
    hide Exec;
  }

  // Code that never jumps in front of `b` runs like its own suffix.
  lemma {:induction false} SuffixSteps(env: Env, c: Code, b: nat, st: State, n: nat)
    requires b <= |c| && NoJumpBelow(c[b..]) && StateFrom(st)
    ensures Steps(env, c, Lift(c[b..], b, |c| + 1, [], st), n) ==
            Lift(c[b..], b, |c| + 1, [], Steps(env, c[b..], st, n))
    decreases n
  {
    hide Step, Lift, NoJumpBelow, StateFrom;
    if n > 0 {
      SuffixStep(env, c, b, st);
      StepFrom(env, c[b..], st);
      StepsFirst(env, c, Lift(c[b..], b, |c| + 1, [], st), n);
      StepsFirst(env, c[b..], st, n);
      SuffixSteps(env, c, b, Step(env, c[b..], st), n - 1);
    }
  }
}

// The matcher as it runs: a backtrack stack of fixed size whose entries keep only
// the number of captures to go back to.

module LpegVm {
  import opened LpegCode
  import opened LpegPeg
  import opened LpegMachine
  import opened LpegTyping

  const GIVEUP := -1       // address of the instruction under the first stack entry
  const IMAXCAPTURES := 600

  datatype Entry = Entry(pc: int, s: int, caplevel: nat)

  datatype VmState =
    | Going(pc: int, s: int, stack: seq<Entry>, caps: seq<Capture>)
    | Ended(s: int, caps: seq<Capture>)
    | GaveUp
    | TooManyPendingEntries

  // Back to the latest entry, whatever was captured since.
  function Backtrack(stack: seq<Entry>, caps: seq<Capture>): VmState {
    if stack == [] then GaveUp
    else
      var top := stack[|stack| - 1];
      Going(top.pc, top.s, stack[..|stack| - 1], if top.caplevel <= |caps| then caps[..top.caplevel] else caps)
  }

  function VmExec(subj: Subject, i: Instr, pc: int, s: int, k: seq<Entry>, caps: seq<Capture>): VmState {
    if IsCheck(i) then
      if Passes(Env(subj, false), i, s) then Going(pc + 1, s + StepLen(i), k, caps) else Backtrack(k, caps)
    else if IsTest(i) then
      if Passes(Env(subj, false), i, s) then Going(pc + 1, s + StepLen(i), k, caps)
      else Going(pc + i.offset, s, k, caps)
    else if IsSpan(i) then
      Going(pc + 1, SpanEnd(subj, i.cs, s), k, caps)
    else if IsCapture(i) then
      Going(pc + 1, s, k, CapStep(i, s, caps))
    else if i.op.IJmp? then
      Going(pc + i.offset, s, k, caps)
    else if i.op.IChoice? then
      if |k| >= MAXBACK then TooManyPendingEntries
      else Going(pc + 1, s, k + [Entry(pc + i.offset, s - i.aux, |caps|)], caps)
    else if i.op.IFail? || k == [] then
      Backtrack(k, caps)
    else
      var top, below := k[|k| - 1], k[..|k| - 1];
      match i.op
      case ICommit => Going(pc + i.offset, s, below, caps)
      case IPartialCommit => Going(pc + i.offset, s, below + [Entry(top.pc, s, |caps|)], caps)
      case IBackCommit =>
        Going(pc + i.offset, top.s, below, if top.caplevel <= |caps| then caps[..top.caplevel] else caps)
      case _ => Backtrack(below, caps)
  }

  function VmStep(subj: Subject, c: Code, st: VmState): VmState {
    match st
    case Going(pc, s, k, caps) =>
      if pc == |c| then Ended(s, caps)
      else if 0 <= pc < |c| then VmExec(subj, c[pc], pc, s, k, caps)
      else GaveUp
    case _ => st
  }

  // ----- brackets at run time ---------------------------------------------------------

  // The pending entries `k` and the `n` captures taken so far fit the brackets `t`:
  // one entry a choice, and above an entry at least one capture for each that is open.
  ghost predicate Fits(ty: seq<Ctx>, t: Ctx, k: seq<Frame>, n: int)
    decreases t
  {
    match t
    case Base => k == [] && 0 <= n
    case InCapture(b) => 1 <= n && Fits(ty, b, k, n - 1)
    case InChoice(b) =>
      && k != [] && 0 <= k[|k| - 1].pc < |ty| && ty[k[|k| - 1].pc] == b
      && |k[|k| - 1].caps| <= n && Fits(ty, b, k[..|k| - 1], |k[|k| - 1].caps|)
  }

  lemma {:induction false} FitsMore(ty: seq<Ctx>, t: Ctx, k: seq<Frame>, n: int, n': int)
    requires Fits(ty, t, k, n) && n <= n'
    ensures Fits(ty, t, k, n')
    decreases t
  {
    match t
    case Base =>
    case InCapture(b) => FitsMore(ty, b, k, n - 1, n' - 1);
    case InChoice(b) =>
  }

  lemma {:induction false} FitsCount(ty: seq<Ctx>, t: Ctx, k: seq<Frame>, n: int)
    requires Fits(ty, t, k, n)
    ensures |k| == Choices(t) && 0 <= n
    decreases t
  {
    match t
    case Base =>
    case InCapture(b) => FitsCount(ty, b, k, n - 1);
    case InChoice(b) => FitsCount(ty, b, k[..|k| - 1], |k[|k| - 1].caps|);
  }

  // Every entry goes back to an initial part of the captures.
  ghost predicate Nested(k: seq<Frame>, caps: seq<Capture>)
    decreases |k|
  {
    k != [] ==> k[|k| - 1].caps <= caps && Nested(k[..|k| - 1], k[|k| - 1].caps)
  }

  lemma {:induction false} NestedMore(k: seq<Frame>, caps: seq<Capture>, caps': seq<Capture>)
    requires Nested(k, caps) && (k != [] ==> k[|k| - 1].caps <= caps')
    ensures Nested(k, caps')
  {
  }

  ghost predicate RunsWell(c: Code, ty: seq<Ctx>, st: State)
    requires |ty| == |c| + 1
  {
    match st
    case Run(pc, s, k, caps) => 0 <= pc <= |c| && Fits(ty, ty[pc], k, |caps|) && Nested(k, caps)
    case Fail(k) =>
      k != [] ==>
        var top := k[|k| - 1];
        0 <= top.pc <= |c| && Fits(ty, ty[top.pc], k[..|k| - 1], |top.caps|) && Nested(k[..|k| - 1], top.caps)
  }

  lemma FitsTop(ty: seq<Ctx>, t: Ctx, below: seq<Frame>, top: Frame, n: int)
    requires 0 <= top.pc < |ty| && ty[top.pc] == t && |top.caps| <= n && Fits(ty, t, below, |top.caps|)
    ensures Fits(ty, InChoice(t), below + [top], n)
  {
    assert (below + [top])[..|below|] == below;
  }

  lemma NestedTop(below: seq<Frame>, top: Frame, caps: seq<Capture>)
    requires Nested(below, top.caps) && top.caps <= caps
    ensures Nested(below + [top], caps)
  {
    assert (below + [top])[..|below|] == below;
  }

  // The entry to go back to, when brackets say there is one.
  lemma FitsFail(c: Code, ty: seq<Ctx>, t: Ctx, k: seq<Frame>, n: int, caps: seq<Capture>)
    requires |ty| == |c| + 1 && Fits(ty, t, k, n) && Nested(k, caps)
    ensures RunsWell(c, ty, Fail(k))
    decreases t
  {
    match t
    case Base =>
    case InCapture(b) => FitsFail(c, ty, b, k, n - 1, caps);
    case InChoice(b) =>
  }

  // A capture instruction never touches the captures an entry goes back to.
  lemma CapStepKeeps(ty: seq<Ctx>, i: Instr, t: Ctx, t': Ctx, k: seq<Frame>, s: int, caps: seq<Capture>)
    requires IsCapture(i) && Fits(ty, t, k, |caps|) && Nested(k, caps)
    requires match i.op
             case IOpenCapture => t' == InCapture(t)
             case ICloseCapture => t == InCapture(t')
             case _ => t' == t
    ensures Fits(ty, t', k, |CapStep(i, s, caps)|) && Nested(k, CapStep(i, s, caps))
  {
    var caps' := CapStep(i, s, caps);
    if i.op.ICloseCapture? {
      assert Fits(ty, t', k, |caps| - 1);
      if k != [] { FitsBelow(ty, t', k, |caps| - 1); }
      FitsMore(ty, t', k, |caps| - 1, |caps'|);
      assert caps[..|caps| - 1] == caps'[..|caps| - 1];
      if k != [] { assert k[|k| - 1].caps <= caps[..|caps| - 1]; }
      NestedMore(k, caps, caps');
    } else {
      FitsMore(ty, t, k, |caps|, |caps'| - 1);
      FitsMore(ty, t, k, |caps|, |caps'|);
      NestedMore(k, caps, caps');
    }
  }

  lemma {:induction false} FitsBelow(ty: seq<Ctx>, t: Ctx, k: seq<Frame>, n: int)
    requires Fits(ty, t, k, n) && k != []
    ensures |k[|k| - 1].caps| <= n
    decreases t
  {
    match t
    case Base =>
    case InCapture(b) => FitsBelow(ty, b, k, n - 1);
    case InChoice(b) =>
  }

  lemma ChoiceRunsWell(c: Code, ty: seq<Ctx>, d: int, env: Env, pc: int, s: int, k: seq<Frame>, caps: seq<Capture>)
    requires TypedBy(c, ty, d) && 0 <= pc < |c| && c[pc].op.IChoice?
    requires Fits(ty, ty[pc], k, |caps|) && Nested(k, caps)
    ensures RunsWell(c, ty, Step(env, c, Run(pc, s, k, caps)))
  {
    assert TypedAt(c, ty, pc);
    hide Step, TypedAt, TypedBy;
    var fr := Frame(pc + c[pc].offset, s - c[pc].aux, caps);
    StepChoice(env, c, pc, s, k, caps);
    FitsTop(ty, ty[pc], k, fr, |caps|);
    NestedTop(k, fr, caps);
  }

  lemma CaptureRunsWell(c: Code, ty: seq<Ctx>, d: int, env: Env, pc: int, s: int, k: seq<Frame>, caps: seq<Capture>)
    requires TypedBy(c, ty, d) && 0 <= pc < |c| && IsCapture(c[pc])
    requires Fits(ty, ty[pc], k, |caps|) && Nested(k, caps)
    ensures RunsWell(c, ty, Step(env, c, Run(pc, s, k, caps)))
  {
    hide Step, CapStep;
    assert TypedAt(c, ty, pc);
    StepFlow(env, c, pc, s, k, caps);
    CapStepKeeps(ty, c[pc], ty[pc], ty[pc + 1], k, s, caps);
  }

  lemma FitsStuck(c: Code, ty: seq<Ctx>, d: int, pc: int, k: seq<Frame>, n: int)
    requires TypedBy(c, ty, d) && 0 <= pc < |c| && Fits(ty, ty[pc], k, n) && Stuck(c[pc]) && !c[pc].op.IEnd?
    ensures k != []
  {
    assert TypedAt(c, ty, pc);
  }

  lemma StepRunsWell(c: Code, ty: seq<Ctx>, d: int, env: Env, st: State)
    requires TypedBy(c, ty, d) && RunsWell(c, ty, st)
    ensures RunsWell(c, ty, Step(env, c, st))
    ensures st.Run? && st.pc < |c| && st.stack == [] ==> !Stuck(c[st.pc]) || c[st.pc].op.IEnd?
  {
    match st
    case Fail(k) =>
    case Run(pc, s, k, caps) =>
      hide Step, Exec, TypedAt, Nested, Fits, TypedBy;
      if pc == |c| {
        HaltedHere(env, c, st);
      } else if c[pc].op.IChoice? {
        ChoiceRunsWell(c, ty, d, env, pc, s, k, caps);
      } else if c[pc].op.IEnd? {
        ExecEnd(env, c, pc, s, k, caps);
      } else if Stuck(c[pc]) {
        PopRunsWell(c, ty, d, env, pc, s, k, caps);
        FitsStuck(c, ty, d, pc, k, |caps|);
      } else if IsCapture(c[pc]) {
        CaptureRunsWell(c, ty, d, env, pc, s, k, caps);
      } else {
        FlowRunsWell(c, ty, d, env, pc, s, k, caps);
      }
  }

  lemma FlowRunsWell(c: Code, ty: seq<Ctx>, d: int, env: Env, pc: int, s: int, k: seq<Frame>, caps: seq<Capture>)
    requires TypedBy(c, ty, d) && 0 <= pc < |c|
    requires !Stuck(c[pc]) && !c[pc].op.IChoice? && !IsCapture(c[pc])
    requires Fits(ty, ty[pc], k, |caps|) && Nested(k, caps)
    ensures RunsWell(c, ty, Step(env, c, Run(pc, s, k, caps)))
  {
    assert TypedAt(c, ty, pc);
    StepFlow(env, c, pc, s, k, caps);
    FitsFail(c, ty, ty[pc], k, |caps|, caps);
    hide Step, Exec, Passes, Fits, Nested, TypedBy;
  }

  lemma HaltedHere(env: Env, c: Code, st: State)
    requires Halted(c, st)
    ensures Step(env, c, st) == st
  {
  }

  lemma ExecEnd(env: Env, c: Code, pc: int, s: int, k: seq<Frame>, caps: seq<Capture>)
    requires 0 <= pc < |c| && c[pc].op.IEnd?
    ensures Step(env, c, Run(pc, s, k, caps)) == Run(pc, s, k, caps)
  {
  }

  lemma PopRunsWell(c: Code, ty: seq<Ctx>, d: int, env: Env, pc: int, s: int, k: seq<Frame>, caps: seq<Capture>)
    requires TypedBy(c, ty, d) && 0 <= pc < |c| && Stuck(c[pc]) && !c[pc].op.IEnd?
    requires Fits(ty, ty[pc], k, |caps|) && Nested(k, caps)
    ensures k != [] && RunsWell(c, ty, Step(env, c, Run(pc, s, k, caps)))
  {
    hide Step, TypedBy, TypedAt, Fits, Nested, Stuck, IsJmp;
    StuckTyped(c, ty, d, pc);
    FitsStuck(c, ty, d, pc, k, |caps|);
    var i, t := c[pc], ty[pc];
    var below, top := k[..|k| - 1], k[|k| - 1];
    assert k == below + [top];
    StepCommit(env, c, pc, s, below, top, caps);
    FitsUnder(ty, t, below, top, |caps|);
    NestedBelow(below, top, caps);
    FitsMore(ty, t.below, below, |top.caps|, |caps|);
    if i.op.IPartialCommit? && (env.lenient ==> i.offset > 0) {
      FitsTop(ty, t.below, below, Frame(top.pc, s, caps), |caps|);
      NestedTop(below, Frame(top.pc, s, caps), caps);
    } else if i.op.IFailTwice? {
      FitsFail(c, ty, t.below, below, |top.caps|, top.caps);
      FitsFail(c, ty, t, k, |caps|, caps);
    }
  }

  lemma StuckTyped(c: Code, ty: seq<Ctx>, d: int, pc: int)
    requires TypedBy(c, ty, d) && 0 <= pc < |c| && Stuck(c[pc]) && !c[pc].op.IEnd?
    ensures |ty| == |c| + 1 && ty[pc].InChoice?
    ensures var i, t, dest := c[pc], ty[pc], pc + c[pc].offset;
            match i.op
            case ICommit => 0 <= dest <= |c| && ty[dest] == t.below
            case IBackCommit => 0 <= dest <= |c| && ty[dest] == t.below
            case IPartialCommit => 0 <= dest <= |c| && ty[dest] == t && (i.offset <= 0 ==> ty[pc + 1] == t.below)
            case IFailTwice => true
            case _ => false
  {
    assert TypedAt(c, ty, pc);
  }

  lemma FitsUnder(ty: seq<Ctx>, t: Ctx, below: seq<Frame>, top: Frame, n: int)
    requires t.InChoice? && Fits(ty, t, below + [top], n)
    ensures 0 <= top.pc < |ty| && ty[top.pc] == t.below && |top.caps| <= n && Fits(ty, t.below, below, |top.caps|)
  {
    assert (below + [top])[..|below|] == below;
  }

  lemma NestedBelow(below: seq<Frame>, top: Frame, caps: seq<Capture>)
    requires Nested(below + [top], caps)
    ensures top.caps <= caps && Nested(below, top.caps) && Nested(below, caps)
  {
    assert (below + [top])[..|below|] == below;
    NestedMore(below, top.caps, caps);
  }

  // ----- the matcher follows the ideal machine ---------------------------------------------

  ghost predicate SameEntries(stack: seq<Entry>, k: seq<Frame>) {
    && |stack| == |k| + 1 && stack[0].pc == GIVEUP && stack[0].caplevel == 0
    && forall i :: 0 <= i < |k| ==> stack[i + 1] == Entry(k[i].pc, k[i].s, |k[i].caps|)
  }

  ghost predicate Represents(vs: VmState, st: State) {
    vs.Going? && st.Run? && vs.pc == st.pc && vs.s == st.s && vs.caps == st.caps && SameEntries(vs.stack, st.stack)
  }

  ghost predicate AfterStep(vs: VmState, env: Env, c: Code, st: State) {
    match st
    case Run(_, _, _, _) => Represents(vs, st)
    case Fail(k) => if k == [] then vs.Going? && vs.pc == GIVEUP else Represents(vs, Step(env, c, st))
  }

  lemma BacktrackRepresents(stack: seq<Entry>, k: seq<Frame>, caps: seq<Capture>, env: Env, c: Code)
    requires SameEntries(stack, k) && Nested(k, caps)
    ensures AfterStep(Backtrack(stack, caps), env, c, Fail(k))
  {
    if k != [] {
      var below, top := k[..|k| - 1], k[|k| - 1];
      assert k == below + [top];
      StepFail(env, c, below, top);
      assert stack[|stack| - 1] == Entry(top.pc, top.s, |top.caps|);
      assert caps[..|top.caps|] == top.caps;
    }
  }

  // One turn of the matcher's loop is one step of the ideal machine, or two when it
  // backtracks; exactly a choice on a full stack is refused.
  lemma VmStepRefines(c: Code, ty: seq<Ctx>, d: int, subj: Subject, vs: VmState, st: State)
    requires TypedBy(c, ty, d) && WF(c) && RunsWell(c, ty, st) && Represents(vs, st) && st.pc < |c|
    ensures VmStep(subj, c, vs).TooManyPendingEntries? <==> |vs.stack| >= MAXBACK && c[vs.pc].op.IChoice?
    ensures !VmStep(subj, c, vs).TooManyPendingEntries? ==>
              AfterStep(VmStep(subj, c, vs), Env(subj, false), c, Step(Env(subj, false), c, st))
  {
    var env := Env(subj, false);
    var Run(pc, s, k, caps) := st;
    var i := c[pc];
    assert WFAt(c, pc);
    StepRunsWell(c, ty, d, env, st);
    hide TypedBy, WF, WFAt, TypedAt, RunsWell, Passes, CapStep, SpanEnd, Exec;
    if i.op.IChoice? {
      StepChoice(env, c, pc, s, k, caps);
    } else if Stuck(i) {
      PopRefines(c, env, i, pc, s, vs.stack, k, caps);
    } else {
      FlowRefines(c, env, i, pc, s, vs.stack, k, caps);
    }
  }

  lemma FlowRefines(c: Code, env: Env, i: Instr, pc: int, s: int, stack: seq<Entry>, k: seq<Frame>, caps: seq<Capture>)
    requires !env.lenient && !Stuck(i) && !i.op.IChoice? && SameEntries(stack, k) && Nested(k, caps)
    ensures AfterStep(VmExec(env.subj, i, pc, s, stack, caps), env, c, Exec(env, i, pc, s, k, caps))
  {
    hide CapStep, SpanEnd;
    BacktrackRepresents(stack, k, caps, env, c);
  }

  lemma VmPop(subj: Subject, i: Instr, pc: int, s: int, lower: seq<Entry>, top: Entry, caps: seq<Capture>)
    requires Stuck(i) && !i.op.IEnd? && top.caplevel <= |caps|
    ensures VmExec(subj, i, pc, s, lower + [top], caps) ==
            match i.op
            case ICommit => Going(pc + i.offset, s, lower, caps)
            case IPartialCommit => Going(pc + i.offset, s, lower + [Entry(top.pc, s, |caps|)], caps)
            case IBackCommit => Going(pc + i.offset, top.s, lower, caps[..top.caplevel])
            case _ => Backtrack(lower, caps)
  {
    hide Backtrack;
    assert (lower + [top])[..|lower|] == lower;
  }

  lemma SplitEntries(stack: seq<Entry>, k: seq<Frame>)
    returns (lower: seq<Entry>, etop: Entry, below: seq<Frame>, top: Frame)
    requires SameEntries(stack, k) && k != []
    ensures stack == lower + [etop] && k == below + [top] && SameEntries(lower, below)
    ensures etop == Entry(top.pc, top.s, |top.caps|)
  {
    lower, etop := stack[..|stack| - 1], stack[|stack| - 1];
    below, top := k[..|k| - 1], k[|k| - 1];
  }

  lemma NestedPrefix(below: seq<Frame>, top: Frame, caps: seq<Capture>)
    requires Nested(below + [top], caps)
    ensures |top.caps| <= |caps| && caps[..|top.caps|] == top.caps
  {
  }

  lemma PopRefines(c: Code, env: Env, i: Instr, pc: int, s: int, stack: seq<Entry>, k: seq<Frame>, caps: seq<Capture>)
    requires !env.lenient && Stuck(i) && !i.op.IEnd? && k != [] && SameEntries(stack, k) && Nested(k, caps)
    ensures AfterStep(VmExec(env.subj, i, pc, s, stack, caps), env, c, Exec(env, i, pc, s, k, caps))
  {
    hide Exec, Backtrack, VmExec, Nested;
    var lower, etop, below, top := SplitEntries(stack, k);
    NestedPrefix(below, top, caps);
    NestedBelow(below, top, caps);
    BacktrackRepresents(lower, below, caps, env, c);
    ExecPop(env, i, pc, s, below, top, caps);
    VmPop(env.subj, i, pc, s, lower, etop, caps);
  }
}

// Sending every jump straight to the end of its chain of plain jumps.

module LpegJumps {
  import opened LpegCode
  import opened LpegPeg
  import opened LpegMachine
  import opened LpegBuild
  import opened LpegTyping
  import opened LpegMeaning

  predicate PlainJumpAt(c: Code, i: int) { 0 <= i < |c| && c[i].op.IJmp? }

  lemma {:induction false} TargetEnds(c: Code, i: int)
    requires (forall j :: 0 <= j < |c| ==> WFAt(c, j)) && 0 <= i <= |c|
    ensures var t := Target(c, i);
            && 0 <= t <= |c| && !PlainJumpAt(c, t)
            && (t == i || (t < |c| && IsTest(c[t])) || (PlainJumpAt(c, i) && t > i))
    decreases |c| - i
  {
    if PlainJumpAt(c, i) {
      assert WFAt(c, i);
      if c[i].offset > 0 { TargetEnds(c, Dest(c, i)); }
    }
  }

  lemma OptimizeJumpsAt(c: Code, j: int)
    requires 0 <= j < |c|
    ensures OptimizeJumps(c)[j] == if IsJmp(c[j]) then c[j].(offset := Target(c, Dest(c, j)) - j) else c[j]
  {
  }

  lemma OptimizeJumpsWFAt(c: Code, j: int)
    requires (forall i :: 0 <= i < |c| ==> WFAt(c, i)) && 0 <= j < |c|
    ensures WFAt(OptimizeJumps(c), j)
  {
    var c' := OptimizeJumps(c);
    OptimizeJumpsAt(c, j);
    assert WFAt(c, j);
    if IsJmp(c[j]) {
      var d := Dest(c, j);
      TargetEnds(c, d);
      var t := Target(c, d);
      assert Dest(c', j) == t;
      if t < |c| { OptimizeJumpsAt(c, t); }
      if 1 <= t <= |c| { OptimizeJumpsAt(c, t - 1); }
      if t <= j && !IsTest(c[t]) {
        assert t == d;
      }
    }
  }

  // ----- the run is the same up to plain jumps --------------------------------------

  function NormFrames(c: Code, k: seq<Frame>): (r: seq<Frame>)
    ensures |r| == |k|
  {
    if k == [] then []
    else
      var top := k[|k| - 1];
      NormFrames(c, k[..|k| - 1]) + [Frame(Target(c, top.pc), top.s, top.caps)]
  }

  function Norm(c: Code, st: State): State {
    match st
    case Run(pc, s, k, caps) => Run(Target(c, pc), s, NormFrames(c, k), caps)
    case Fail(k) => Fail(NormFrames(c, k))
  }

  ghost predicate InBounds(c: Code, st: State) {
    && (st.Run? ==> 0 <= st.pc <= |c|)
    && forall i :: 0 <= i < |st.stack| ==> 0 <= st.stack[i].pc <= |c|
  }

  lemma NormPush(c: Code, k: seq<Frame>, fr: Frame)
    ensures NormFrames(c, k + [fr]) == NormFrames(c, k) + [Frame(Target(c, fr.pc), fr.s, fr.caps)]
  {
    assert (k + [fr])[..|k|] == k;
  }

  lemma NormTop(c: Code, k: seq<Frame>, k': seq<Frame>)
    requires NormFrames(c, k) == NormFrames(c, k') && k != []
    ensures k' != [] && NormFrames(c, k[..|k| - 1]) == NormFrames(c, k'[..|k'| - 1])
    ensures var top, top' := k[|k| - 1], k'[|k'| - 1];
            Target(c, top.pc) == Target(c, top'.pc) && top.s == top'.s && top.caps == top'.caps
  {
    var a, b := NormFrames(c, k), NormFrames(c, k');
    assert a[..|a| - 1] == NormFrames(c, k[..|k| - 1]) && b[..|b| - 1] == NormFrames(c, k'[..|k'| - 1]);
    assert a[|a| - 1] == b[|b| - 1];
  }

  lemma StepInBounds(env: Env, c: Code, st: State)
    requires JumpsInside(c) && InBounds(c, st)
    ensures InBounds(c, Step(env, c, st))
  {
    match st
    case Fail(k) =>
    case Run(pc, s, k, caps) =>
      if pc < |c| && IsJmp(c[pc]) { assert 0 <= Dest(c, pc) <= |c|; }
  }

  // Following plain jumps in the optimised code reaches the same end.
  lemma {:induction false} Resolve(env: Env, c: Code, pc: int, s: int, k: seq<Frame>, caps: seq<Capture>)
    requires (forall j :: 0 <= j < |c| ==> WFAt(c, j)) && 0 <= pc <= |c|
    ensures Reaches(env, OptimizeJumps(c), Run(pc, s, k, caps), Run(Target(c, pc), s, k, caps))
    decreases |c| - pc
  {
    hide Step, Steps, Reaches, OptimizeJumps;
    var c' := OptimizeJumps(c);
    var d := Run(Target(c, pc), s, k, caps);
    ReachesSelf(env, c', d);
    if PlainJumpAt(c, pc) {
      assert WFAt(c, pc);
      OptimizeJumpsAt(c, pc);
      StepFlow(env, c', pc, s, k, caps);
      TargetEnds(c, Dest(c, pc));
      ReachesStep(env, c', Run(pc, s, k, caps), d);
    }
  }

  lemma OptimizedInstr(c: Code, pc: int)
    requires (forall j :: 0 <= j < |c| ==> WFAt(c, j)) && 0 <= pc < |c|
    ensures var i, i' := c[pc], OptimizeJumps(c)[pc];
            && !i.op.IEnd?
            && i' == (if IsJmp(i) then i.(offset := Target(c, Dest(c, pc)) - pc) else i)
            && (IsJmp(i) ==> Target(c, Target(c, Dest(c, pc))) == Target(c, Dest(c, pc)))
            && (i.op.IPartialCommit? ==> i' == i)
  {
    assert WFAt(c, pc);
    OptimizeJumpsAt(c, pc);
    if IsJmp(c[pc]) { TargetOfTarget(c, Dest(c, pc)); }
  }

  // One step that is not a plain jump, in both codes.
  lemma ExecSame(env: Env, c: Code, pc: int, s: int, k: seq<Frame>, k': seq<Frame>, caps: seq<Capture>)
    requires (forall j :: 0 <= j < |c| ==> WFAt(c, j)) && 0 <= pc < |c| && !c[pc].op.IJmp?
    requires NormFrames(c, k) == NormFrames(c, k')
    ensures Norm(c, Exec(env, OptimizeJumps(c)[pc], pc, s, k', caps)) == Norm(c, Exec(env, c[pc], pc, s, k, caps))
  {
    hide NormFrames, Target, OptimizeJumps, Exec, WFAt;
    OptimizedInstr(c, pc);
    var i, i' := c[pc], OptimizeJumps(c)[pc];
    if i.op.IChoice? {
      ChoiceSame(env, c, pc, s, k, k', caps);
    } else if !Stuck(i) {
      PlainSame(env, c, pc, s, k, k', caps);
    } else if k != [] {
      PopSame(env, c, i, i', pc, s, k, k', caps);
    } else {
      assert |NormFrames(c, k)| == |NormFrames(c, k')|;
      ExecStuck(env, i, pc, s, k, caps);
      ExecStuck(env, i', pc, s, k', caps);
    }
  }

  lemma TargetOfTarget(c: Code, i: int)
    requires (forall j :: 0 <= j < |c| ==> WFAt(c, j)) && 0 <= i <= |c|
    ensures Target(c, Target(c, i)) == Target(c, i)
  {
    TargetEnds(c, i);
  }

  lemma PlainSame(env: Env, c: Code, pc: int, s: int, k: seq<Frame>, k': seq<Frame>, caps: seq<Capture>)
    requires 0 <= pc < |c| && !c[pc].op.IJmp? && !c[pc].op.IChoice? && !Stuck(c[pc])
    requires NormFrames(c, k) == NormFrames(c, k')
    requires IsJmp(c[pc]) ==> Target(c, Target(c, Dest(c, pc))) == Target(c, Dest(c, pc))
    requires OptimizeJumps(c)[pc] == if IsJmp(c[pc]) then c[pc].(offset := Target(c, Dest(c, pc)) - pc) else c[pc]
    ensures Norm(c, Exec(env, OptimizeJumps(c)[pc], pc, s, k', caps)) == Norm(c, Exec(env, c[pc], pc, s, k, caps))
  {
    hide NormFrames, Target, OptimizeJumps, Exec;
    ExecFlow(env, c[pc], pc, s, k, k', caps);
    if IsJmp(c[pc]) { TestSame(env, c[pc], OptimizeJumps(c)[pc].offset, pc, s, k', caps); }
  }

  lemma TestSame(env: Env, i: Instr, off: int, pc: int, s: int, k: seq<Frame>, caps: seq<Capture>)
    requires IsTest(i)
    ensures Exec(env, i.(offset := off), pc, s, k, caps)
         == if Passes(env, i, s) then Exec(env, i, pc, s, k, caps) else Run(pc + off, s, k, caps)
    ensures !Passes(env, i, s) ==> Exec(env, i, pc, s, k, caps) == Run(pc + i.offset, s, k, caps)
  {
  }

  lemma ChoiceSame(env: Env, c: Code, pc: int, s: int, k: seq<Frame>, k': seq<Frame>, caps: seq<Capture>)
    requires 0 <= pc < |c| && c[pc].op.IChoice?
    requires NormFrames(c, k) == NormFrames(c, k')
    requires Target(c, Target(c, Dest(c, pc))) == Target(c, Dest(c, pc))
    requires OptimizeJumps(c)[pc] == c[pc].(offset := Target(c, Dest(c, pc)) - pc)
    ensures Norm(c, Exec(env, OptimizeJumps(c)[pc], pc, s, k', caps)) == Norm(c, Exec(env, c[pc], pc, s, k, caps))
  {
    hide NormFrames, Target, OptimizeJumps, Exec;
    var i := c[pc];
    ExecChoice(env, i, pc, s, k, caps);
    ExecChoice(env, OptimizeJumps(c)[pc], pc, s, k', caps);
    NormPush(c, k, Frame(Dest(c, pc), s - i.aux, caps));
    NormPush(c, k', Frame(Target(c, Dest(c, pc)), s - i.aux, caps));
  }

  lemma SplitTop(k: seq<Frame>) returns (below: seq<Frame>, top: Frame)
    requires k != []
    ensures k == below + [top]
  {
    below, top := k[..|k| - 1], k[|k| - 1];
  }

  lemma NormTopSplit(c: Code, below: seq<Frame>, top: Frame, below': seq<Frame>, top': Frame)
    requires NormFrames(c, below + [top]) == NormFrames(c, below' + [top'])
    ensures NormFrames(c, below) == NormFrames(c, below')
    ensures Target(c, top.pc) == Target(c, top'.pc) && top.s == top'.s && top.caps == top'.caps
  {
    NormTop(c, below + [top], below' + [top']);
    assert (below + [top])[..|below|] == below && (below' + [top'])[..|below'|] == below';
  }

  lemma PopSame(env: Env, c: Code, i: Instr, i': Instr, pc: int, s: int, k: seq<Frame>, k': seq<Frame>,
                caps: seq<Capture>)
    requires i.op.ICommit? || i.op.IPartialCommit? || i.op.IBackCommit? || i.op.IFailTwice?
    requires NormFrames(c, k) == NormFrames(c, k') && k != []
    requires i' == if IsJmp(i) then i.(offset := i'.offset) else i
    requires IsJmp(i) ==> Target(c, pc + i'.offset) == Target(c, pc + i.offset)
    requires i.op.IPartialCommit? ==> i' == i
    ensures Norm(c, Exec(env, i', pc, s, k', caps)) == Norm(c, Exec(env, i, pc, s, k, caps))
  {
    hide NormFrames, Target, Exec;
    assert |NormFrames(c, k)| == |k| == |NormFrames(c, k')| == |k'|;
    var below, top := SplitTop(k);
    var below', top' := SplitTop(k');
    NormTopSplit(c, below, top, below', top');
    PopSameTop(env, c, i, i', pc, s, below, top, below', top', caps);
  }

  lemma PopSameTop(env: Env, c: Code, i: Instr, i': Instr, pc: int, s: int, below: seq<Frame>, top: Frame,
                   below': seq<Frame>, top': Frame, caps: seq<Capture>)
    requires i.op.ICommit? || i.op.IPartialCommit? || i.op.IBackCommit? || i.op.IFailTwice?
    requires NormFrames(c, below) == NormFrames(c, below')
    requires Target(c, top.pc) == Target(c, top'.pc) && top.s == top'.s && top.caps == top'.caps
    requires i' == if IsJmp(i) then i.(offset := i'.offset) else i
    requires IsJmp(i) ==> Target(c, pc + i'.offset) == Target(c, pc + i.offset)
    requires i.op.IPartialCommit? ==> i' == i
    ensures Norm(c, Exec(env, i', pc, s, below' + [top'], caps)) == Norm(c, Exec(env, i, pc, s, below + [top], caps))
  {
    hide NormFrames, Target, Exec;
    ExecPop(env, i, pc, s, below, top, caps);
    ExecPop(env, i', pc, s, below', top', caps);
    NormPush(c, below, Frame(top.pc, s, caps));
    NormPush(c, below', Frame(top'.pc, s, caps));
    NormPush(c, below, top);
    NormPush(c, below', top');
  }

  lemma {:induction false} JumpsSimulated(env: Env, c: Code, st: State, st': State, n: nat, r: Res)
    requires (forall j :: 0 <= j < |c| ==> WFAt(c, j)) && JumpsInside(c) && InBounds(c, st) && InBounds(c, st')
    requires Norm(c, st) == Norm(c, st') && Steps(env, c, st, n) == Outcomes(r, |c|, [])
    ensures Reaches(env, OptimizeJumps(c), st', Outcomes(r, |c|, []))
    decreases n
  {
    hide Exec, OptimizeJumps;
    var c', d := OptimizeJumps(c), Outcomes(r, |c|, []);
    match st
    case Fail(k) =>
      if k == [] {
        HaltedStays(env, c, st, n);
        assert st' == Fail([]);
        ReachesSelf(env, c', d);
      } else {
        NormTop(c, k, st'.stack);
        StepInBounds(env, c, st);
        StepInBounds(env, c, st');
        assert Step(env, c', st') == Step(env, c, st');
        JumpsSimulated(env, c, Step(env, c, st), Step(env, c, st'), n - 1, r);
        ReachesStep(env, c', st', d);
      }
    case Run(pc, s, k, caps) =>
      Resolve(env, c, st'.pc, s, st'.stack, caps);
      if pc == |c| {
        HaltedStays(env, c, st, n);
        assert st'.stack == [];
      } else if c[pc].op.IJmp? {
        RunJumpSimulated(env, c, st, st', n, r);
      } else {
        RunStepSimulated(env, c, st, st', n, r);
      }
  }

  lemma StepsZero(env: Env, c: Code, st: State)
    ensures Steps(env, c, st, 0) == st
  {
  }

  lemma {:induction false} RunJumpSimulated(env: Env, c: Code, st: State, st': State, n: nat, r: Res)
    requires (forall j :: 0 <= j < |c| ==> WFAt(c, j)) && JumpsInside(c) && InBounds(c, st) && InBounds(c, st')
    requires Norm(c, st) == Norm(c, st') && Steps(env, c, st, n) == Outcomes(r, |c|, [])
    requires st.Run? && st.pc < |c| && c[st.pc].op.IJmp?
    ensures Reaches(env, OptimizeJumps(c), st', Outcomes(r, |c|, []))
    decreases n, 0
  {
    hide Exec, OptimizeJumps, Step, Steps, NormFrames, Reaches;
    if n == 0 { StepsZero(env, c, st); }
    StepsFirst(env, c, st, n);
    assert 0 <= Dest(c, st.pc) <= |c| && Target(c, Dest(c, st.pc)) == Target(c, st.pc) by {
      assert WFAt(c, st.pc);
      TargetEnds(c, Dest(c, st.pc));
    }
    StepFlow(env, c, st.pc, st.s, st.stack, st.caps);
    StepInBounds(env, c, st);
    JumpsSimulated(env, c, Step(env, c, st), st', n - 1, r);
  }

  lemma {:induction false} RunStepSimulated(env: Env, c: Code, st: State, st': State, n: nat, r: Res)
    requires (forall j :: 0 <= j < |c| ==> WFAt(c, j)) && JumpsInside(c) && InBounds(c, st) && InBounds(c, st')
    requires Norm(c, st) == Norm(c, st') && Steps(env, c, st, n) == Outcomes(r, |c|, [])
    requires st.Run? && st.pc < |c| && !c[st.pc].op.IJmp?
    ensures Reaches(env, OptimizeJumps(c), st', Outcomes(r, |c|, []))
    decreases n, 0
  {
    hide Exec, OptimizeJumps;
    var c', d := OptimizeJumps(c), Outcomes(r, |c|, []);
    var at := Run(st.pc, st.s, st'.stack, st.caps);
    assert n > 0;
    assert Target(c, st'.pc) == st.pc;
    Resolve(env, c, st'.pc, st.s, st'.stack, st.caps);
    ExecSame(env, c, st.pc, st.s, st.stack, st'.stack, st.caps);
    StepInBounds(env, c, st);
    OptimizedStepInBounds(env, c, at);
    JumpsSimulated(env, c, Step(env, c, st), Step(env, c', at), n - 1, r);
    ReachesStep(env, c', at, d);
    ReachesTrans(env, c', st', at, d);
  }

  lemma OptimizedStepInBounds(env: Env, c: Code, st: State)
    requires (forall j :: 0 <= j < |c| ==> WFAt(c, j)) && InBounds(c, st)
    ensures InBounds(c, Step(env, OptimizeJumps(c), st))
  {
    var c' := OptimizeJumps(c);
    forall j | 0 <= j < |c'| && IsJmp(c'[j]) ensures 0 <= Dest(c', j) <= |c'| {
      OptimizeJumpsWFAt(c, j);
    }
    StepInBounds(env, c', st);
  }

  lemma OptimizeJumpsImplements(c: Code, p: Pat)
    requires WF(c) && Implements(c, p)
    ensures Implements(OptimizeJumps(c), p)
  {
    WFJumpsInside(c);
    forall env, s, caps {:trigger Peg(env, p, s, caps)} | EnvOk(env) && 0 <= s <= |env.subj|
      ensures Reaches(env, OptimizeJumps(c), Run(0, s, [], caps), Outcomes(Peg(env, p, s, caps), |c|, []))
    {
      var r := Peg(env, p, s, caps);
      var n: nat :| Steps(env, c, Run(0, s, [], caps), n) == Outcomes(r, |c|, []);
      JumpsSimulated(env, c, Run(0, s, [], caps), Run(0, s, [], caps), n, r);
    }
  }

  // A leading test that jumped to itself would never let the pattern finish.
  lemma OptimizeJumpsFirst(c: Code, p: Pat)
    requires WF(c) && Implements(c, p)
    ensures FirstOk(OptimizeJumps(c))
  {
    if c != [] && IsJmp(c[0]) {
      var c' := OptimizeJumps(c);
      OptimizeJumpsAt(c, 0);
      assert WFAt(c, 0);
      TargetEnds(c, Dest(c, 0));
      if c'[0].offset == 0 {
        OptimizeJumpsImplements(c, p);
        var env := Env([], false);
        var st := Run(0, 0, [], []);
        var r := Peg(env, p, 0, []);
        assert Reaches(env, c', st, Outcomes(r, |c'|, []));
        PassesFill(env, c'[0], 0);
        StepFlow(env, c', 0, 0, [], []);
        var n: nat :| Steps(env, c', st, n) == Outcomes(r, |c'|, []);
        SelfLoop(env, c', st, n);
        assert false;
      }
    }
  }

  lemma {:induction false} SelfLoop(env: Env, c: Code, st: State, n: nat)
    requires Step(env, c, st) == st
    ensures Steps(env, c, st, n) == st
    decreases n
  {
    if n > 0 { SelfLoop(env, c, st, n - 1); }
  }

  lemma OptimizeJumpsWF(c: Code, p: Pat)
    requires WF(c) && Implements(c, p)
    ensures WF(OptimizeJumps(c))
  {
    OptimizeJumpsFirst(c, p);
    forall j | 0 <= j < |c| ensures WFAt(OptimizeJumps(c), j) { OptimizeJumpsWFAt(c, j); }
  }

  lemma {:induction false} TargetTyped(c: Code, ty: seq<Ctx>, d: int, i: int)
    requires TypedBy(c, ty, d) && 0 <= i <= |c|
    ensures 0 <= Target(c, i) <= |c| && ty[Target(c, i)] == ty[i]
    decreases |c| - i
  {
    if PlainJumpAt(c, i) {
      assert TypedAt(c, ty, i);
      if c[i].offset > 0 { TargetTyped(c, ty, d, Dest(c, i)); }
    }
  }

  lemma OptimizeJumpsTyped(c: Code, d: int)
    requires WF(c) && Typed(c, d)
    ensures Typed(OptimizeJumps(c), d)
  {
    var ty :| TypedBy(c, ty, d);
    var c' := OptimizeJumps(c);
    forall j | 0 <= j < |c| ensures (IsJmp(c'[j]) ==> 0 <= Dest(c', j) <= |c|) && TypedAt(c', ty, j) {
      OptimizeJumpsAt(c, j);
      assert TypedAt(c, ty, j) && WFAt(c, j);
      if IsJmp(c[j]) { TargetTyped(c, ty, d, Dest(c, j)); }
    }
    assert TypedBy(c', ty, d);
  }
}

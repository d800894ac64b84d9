// The matching loop itself, on its stack and capture arrays.

module LpegMatch {
  import opened LpegCode
  import opened LpegPeg
  import opened LpegMachine
  import opened LpegTyping
  import opened LpegMeaning
  import opened LpegUnion
  import opened LpegVm

  datatype MatchResult = Matched(s: int, caps: seq<Capture>) | NoMatch | TooMany

  function Verdict(r: Res): MatchResult {
    match r
    case Nope => NoMatch
    case Got(s, caps) => Matched(s, caps)
  }

  // Reads bytes while they belong to the set; the sentinel stops the scan when the
  // set cannot hold it, the subject's end otherwise.
  method Span(subj: Subject, cs: Charset, toEnd: bool, s: int) returns (e: int)
    requires !toEnd ==> 0 !in cs
    ensures e == SpanEnd(subj, cs, s)
  {
    e := s;
    while (toEnd ==> e < |subj|) && CharAt(subj, e) in cs
      invariant SpanEnd(subj, cs, e) == SpanEnd(subj, cs, s)
      decreases |subj| - e
    {
      e := e + 1;
    }
  }

  // Appends a capture, doubling the list when it is full.
  method PushCapture(capture: array<Capture>, captop: nat, cap: Capture) returns (list: array<Capture>)
    requires captop < capture.Length
    modifies capture
    ensures captop + 1 < list.Length && list[..captop + 1] == old(capture[..captop]) + [cap]
    ensures list == capture || fresh(list)
  {
    capture[captop] := cap;
    list := capture;
    if captop + 1 >= capture.Length {
      list := new Capture[2 * (captop + 1)](
        i requires 0 <= i < 2 * (captop + 1) reads capture => if i <= captop then capture[i] else cap);
    }
  }

  // Closes the latest capture in place when it is open and short enough.
  method CloseCapture(capture: array<Capture>, captop: nat, s: int, idx: int, kind: int)
    returns (list: array<Capture>, top: nat)
    requires captop < capture.Length
    modifies capture
    ensures top <= list.Length && list[..top] == CloseCap(old(capture[..captop]), s, idx, kind) && top < list.Length
    ensures list == capture || fresh(list)
  {
    if captop > 0 && capture[captop - 1].siz == 0 && s - capture[captop - 1].s < UCHAR_MAX {
      capture[captop - 1] := capture[captop - 1].(siz := s - capture[captop - 1].s + 1);
      list, top := capture, captop;
    } else {
      list := PushCapture(capture, captop, Capture(s, idx, kind, 1));
      top := captop + 1;
    }
  }

  method PushEntry(stack: array<Entry>, top: nat, e: Entry)
    requires top < stack.Length
    modifies stack
    ensures stack[..top + 1] == old(stack[..top]) + [e]
  {
    stack[top] := e;
  }

  // An instruction that only moves the program counter and the position.
  predicate Moves(i: Instr) { IsCheck(i) || IsTest(i) || IsSpan(i) || i.op.IJmp? }

  method Move(subj: Subject, i: Instr, pc: int, s: int) returns (failed: bool, pc': int, s': int)
    requires Moves(i) && InstrOk(i)
    ensures forall k: seq<Entry>, caps: seq<Capture> {:trigger VmExec(subj, i, pc, s, k, caps)} ::
              VmExec(subj, i, pc, s, k, caps) == if failed then Backtrack(k, caps) else Going(pc', s', k, caps)
  {
    failed, pc', s' := false, pc + 1, s;
    match i.op {
      case IAny =>
        if i.aux > |subj| - s { failed := true; } else { s' := s + i.aux; }
      case ITestAny =>
        if i.aux > |subj| - s { pc' := pc + i.offset; } else { s' := s + i.aux; }
      case IChar =>
        if CharAt(subj, s) != i.aux || s >= |subj| { failed := true; } else { s' := s + 1; }
      case ITestChar =>
        if CharAt(subj, s) != i.aux || s >= |subj| { pc' := pc + i.offset; } else { s' := s + 1; }
      case ISet =>
        if CharAt(subj, s) !in i.cs { failed := true; } else { s' := s + 1; }
      case ITestSet =>
        if CharAt(subj, s) !in i.cs { pc' := pc + i.offset; } else { s' := s + 1; }
      case IZSet =>
        if CharAt(subj, s) !in i.cs || s >= |subj| { failed := true; } else { s' := s + 1; }
      case ITestZSet =>
        if CharAt(subj, s) !in i.cs || s >= |subj| { pc' := pc + i.offset; } else { s' := s + 1; }
      case ISpan => s' := Span(subj, i.cs, false, s);
      case ISpanZ => s' := Span(subj, i.cs, true, s);
      case IJmp => pc' := pc + i.offset;
    }
  }

  // A choice with as many others pending as the stack has room for, less the entry at
  // its bottom.
  ghost predicate FullChoice(c: Code, st: State) {
    st.Run? && 0 <= st.pc < |c| && c[st.pc].op.IChoice? && |st.stack| + 1 >= MAXBACK
  }

  // The run of `c` on `subj` from `init` comes to such a choice.
  ghost predicate Exhausts(c: Code, subj: Subject, init: int) {
    exists n: nat :: FullChoice(c, Steps(Env(subj, false), c, Run(0, init, [], []), n))
  }

  // It has not within its first `n` steps.
  ghost predicate Roomy(c: Code, subj: Subject, init: int, n: nat) {
    forall m: nat :: m < n ==> !FullChoice(c, Steps(Env(subj, false), c, Run(0, init, [], []), m))
  }

  // `st` is where the run is after `n` steps.
  ghost predicate RunsTo(c: Code, subj: Subject, init: int, n: nat, st: State) {
    Roomy(c, subj, init, n) && Steps(Env(subj, false), c, Run(0, init, [], []), n) == st
  }

  lemma RunsOn(c: Code, subj: Subject, init: int, n: nat, st: State)
    requires RunsTo(c, subj, init, n, st) && !FullChoice(c, st)
    ensures RunsTo(c, subj, init, n + 1, Step(Env(subj, false), c, st))
  {
    hide Step;
    var env := Env(subj, false);
    StepsAdd(env, c, Run(0, init, [], []), n, 1);
    StepsFirst(env, c, st, 1);
    StepsNone(env, c, Step(env, c, st));
  }

  lemma HaltsRoomy(c: Code, subj: Subject, init: int, n: nat, st: State)
    requires RunsTo(c, subj, init, n, st) && Halted(c, st)
    ensures !Exhausts(c, subj, init)
  {
    hide Step;
    var env, st0 := Env(subj, false), Run(0, init, [], []);
    forall m: nat ensures !FullChoice(c, Steps(env, c, st0, m)) {
      if m >= n {
        StepsAdd(env, c, st0, n, m - n);
        HaltedStays(env, c, st, m - n);
      }
    }
  }

  lemma FullRepresented(c: Code, subj: Subject, vs: VmState, st: State)
    requires Represents(vs, st) && st.Run? && 0 <= st.pc < |c| && vs.pc == st.pc
    ensures FullChoice(c, st) <==> |vs.stack| >= MAXBACK && c[vs.pc].op.IChoice?
  {
  }

  // The state of the loop after a turn, on the ideal machine.
  lemma Turn(c: Code, ty: seq<Ctx>, d: int, subj: Subject, init: int, vs: VmState, st: State, done: nat, left: nat,
             r: Res)
    returns (st': State, done': nat, left': nat)
    requires TypedBy(c, ty, d) && WF(c) && RunsWell(c, ty, st) && Represents(vs, st) && st.pc < |c|
    requires Steps(Env(subj, false), c, st, left) == Outcomes(r, |c|, []) && RunsTo(c, subj, init, done, st)
    requires !VmStep(subj, c, vs).TooManyPendingEntries?
    ensures var vs' := VmStep(subj, c, vs);
            && vs'.Going? && left' < left && RunsTo(c, subj, init, done', st')
            && (vs'.pc == GIVEUP ==> r == Nope && Halted(c, st'))
            && (vs'.pc != GIVEUP ==> Represents(vs', st') && RunsWell(c, ty, st')
                                     && Steps(Env(subj, false), c, st', left') == Outcomes(r, |c|, []))
  {
    hide VmStep, Step, Steps, TypedBy, WF, RunsTo, FullChoice;
    var env := Env(subj, false);
    VmStepRefines(c, ty, d, subj, vs, st);
    FullRepresented(c, subj, vs, st);
    StepRunsWell(c, ty, d, env, st);
    if left == 0 { StepsNone(env, c, st); }
    StepsFirst(env, c, st, left);
    RunsOn(c, subj, init, done, st);
    st', done', left' := Step(env, c, st), done + 1, left - 1;
    if st'.Fail? {
      if st'.stack == [] {
        HaltedStays(env, c, st', left');
      } else {
        if left' == 0 { StepsNone(env, c, st'); }
        StepsFirst(env, c, st', left');
        StepRunsWell(c, ty, d, env, st');
        FailNotFull(c, st');
        RunsOn(c, subj, init, done', st');
        st', done', left' := Step(env, c, st'), done' + 1, left' - 1;
      }
    }
  }

  lemma FailNotFull(c: Code, st: State)
    requires st.Fail?
    ensures !FullChoice(c, st)
  {
  }

  lemma StepsNone(env: Env, c: Code, st: State)
    ensures Steps(env, c, st, 0) == st
  {
  }

  // Only code with too many choices open at once can exhaust the stack.
  lemma StackBound(c: Code, ty: seq<Ctx>, d: int, vs: VmState, st: State)
    requires TypedBy(c, ty, d) && RunsWell(c, ty, st) && Represents(vs, st) && st.pc < |c| && c[st.pc].op.IChoice?
    ensures |vs.stack| <= d
  {
    assert TypedAt(c, ty, st.pc) && Choices(ty[st.pc + 1]) <= d;
    FitsCount(ty, ty[st.pc], st.stack, |st.caps|);
  }

  // At the end of the code nothing is pending.
  lemma AtEnd(c: Code, ty: seq<Ctx>, d: int, subj: Subject, st: State, left: nat, r: Res)
    requires TypedBy(c, ty, d) && RunsWell(c, ty, st) && st.Run? && st.pc == |c|
    requires Steps(Env(subj, false), c, st, left) == Outcomes(r, |c|, [])
    ensures r == Got(st.s, st.caps) && st.stack == []
  {
    HaltedStays(Env(subj, false), c, st, left);
  }

  lemma StartsWell(c: Code, ty: seq<Ctx>, d: int, init: int, stack: seq<Entry>, caps: seq<Capture>)
    requires TypedBy(c, ty, d) && stack == [Entry(GIVEUP, init, 0)] && caps == []
    ensures Represents(Going(0, init, stack, caps), Run(0, init, [], [])) && RunsWell(c, ty, Run(0, init, [], []))
  {
  }

  lemma {:induction false} Levels(k: seq<Frame>, caps: seq<Capture>)
    requires Nested(k, caps)
    ensures forall i :: 0 <= i < |k| ==> |k[i].caps| <= |caps|
    decreases |k|
  {
    if k != [] { Levels(k[..|k| - 1], k[|k| - 1].caps); }
  }

  // What the loop may rely on before a turn.
  lemma InRange(c: Code, ty: seq<Ctx>, d: int, subj: Subject, vs: VmState, st: State)
    requires TypedBy(c, ty, d) && WF(c) && RunsWell(c, ty, st) && Represents(vs, st)
    ensures st.Run? && 0 <= vs.pc <= |c| && vs.pc == st.pc && vs.s == st.s && vs.caps == st.caps && |vs.stack| >= 1
    ensures forall i :: 0 <= i < |vs.stack| ==> vs.stack[i].caplevel <= |vs.caps|
    ensures vs.pc < |c| ==> InstrOk(c[vs.pc]) && (Stuck(c[vs.pc]) ==> |vs.stack| >= 2)
  {
    Levels(st.stack, st.caps);
    assert forall i :: 0 <= i < |st.stack| ==>
             vs.stack[i + 1] == Entry(st.stack[i].pc, st.stack[i].s, |st.stack[i].caps|);
    forall i | 0 <= i < |vs.stack| ensures vs.stack[i].caplevel <= |vs.caps| {
      if i > 0 { assert vs.stack[(i - 1) + 1].caplevel == |st.stack[i - 1].caps|; }
    }
    if st.pc < |c| {
      assert WFAt(c, st.pc);
      StepRunsWell(c, ty, d, Env(subj, false), st);
    }
  }

  lemma VmCapture(subj: Subject, i: Instr, pc: int, s: int, k: seq<Entry>, caps: seq<Capture>)
    requires IsCapture(i)
    ensures VmExec(subj, i, pc, s, k, caps) == Going(pc + 1, s, k, CapStep(i, s, caps))
  {
  }

  lemma VmChoice(subj: Subject, i: Instr, pc: int, s: int, k: seq<Entry>, caps: seq<Capture>)
    requires i.op.IChoice?
    ensures VmExec(subj, i, pc, s, k, caps)
         == if |k| >= MAXBACK then TooManyPendingEntries
            else Going(pc + 1, s, k + [Entry(pc + i.offset, s - i.aux, |caps|)], caps)
  {
  }

  lemma VmFail(subj: Subject, i: Instr, pc: int, s: int, k: seq<Entry>, caps: seq<Capture>)
    requires i.op.IFail?
    ensures VmExec(subj, i, pc, s, k, caps) == Backtrack(k, caps)
  {
  }

  lemma BacktrackTop(lower: seq<Entry>, top: Entry, caps: seq<Capture>)
    requires top.caplevel <= |caps|
    ensures Backtrack(lower + [top], caps) == Going(top.pc, top.s, lower, caps[..top.caplevel])
  {
    assert (lower + [top])[..|lower|] == lower;
  }

  // Executes a capture instruction on the capture list.
  method TakeCapture(i: Instr, s: int, capture: array<Capture>, captop: nat) returns (list: array<Capture>, top: nat)
    requires IsCapture(i) && captop < capture.Length
    modifies capture
    ensures top < list.Length && list[..top] == CapStep(i, s, old(capture[..captop]))
    ensures list == capture || fresh(list)
  {
    var start := s - GetOff(i);
    if i.op.ICloseCapture? {
      list, top := CloseCapture(capture, captop, start, i.offset, GetKind(i));
    } else {
      var siz := if i.op.IOpenCapture? then 0 else if i.op.IEmptyCapture? then 1 else GetOff(i) + 1;
      list := PushCapture(capture, captop, Capture(start, i.offset, GetKind(i), siz));
      top := captop + 1;
    }
  }

  // Executes an instruction that closes or renews the latest backtrack entry.
  method Pop(subj: Subject, i: Instr, stack: array<Entry>, top: nat, pc: int, s: int, captop: nat,
             ghost caps: seq<Capture>)
    returns (failed: bool, top': nat, pc': int, s': int, captop': nat)
    requires Stuck(i) && !i.op.IEnd? && 2 <= top <= stack.Length && |caps| == captop
             && stack[top - 1].caplevel <= captop
    modifies stack
    ensures 1 <= top' <= top && captop' <= captop && stack[..top - 1] == old(stack[..top - 1])
    ensures VmExec(subj, i, pc, s, old(stack[..top]), caps)
         == if failed then Backtrack(stack[..top'], caps[..captop']) else Going(pc', s', stack[..top'], caps[..captop'])
    ensures failed ==> top' < top && captop' == captop
  {
    hide VmExec;
    VmPop(subj, i, pc, s, stack[..top - 1], stack[top - 1], caps);
    assert stack[..top] == stack[..top - 1] + [stack[top - 1]];
    failed, top', pc', s', captop' := false, top - 1, pc + i.offset, s, captop;
    assert caps[..captop] == caps;
    match i.op {
      case ICommit =>
      case IPartialCommit =>
        stack[top - 1] := stack[top - 1].(s := s, caplevel := captop);
        top' := top;
        assert stack[..top] == stack[..top - 1] + [stack[top - 1]];
      case IBackCommit =>
        s', captop' := stack[top - 1].s, stack[top - 1].caplevel;
      case IFailTwice =>
        failed := true;
    }
  }

  // One instruction on the arrays, up to backtracking.
  method Attempt(subj: Subject, i: Instr, stack: array<Entry>, top: nat, pc: int, s: int, capture: array<Capture>,
                 captop: nat)
    returns (overflow: bool, failed: bool, top': nat, pc': int, s': int, capture': array<Capture>, captop': nat)
    requires InstrOk(i) && 1 <= top <= stack.Length == MAXBACK && captop < capture.Length
    requires (Stuck(i) ==> 2 <= top) && (forall j :: 0 <= j < top ==> stack[j].caplevel <= captop)
    modifies stack, capture
    ensures captop' < capture'.Length && (capture' == capture || fresh(capture'))
    ensures overflow <==> VmExec(subj, i, pc, s, old(stack[..top]), old(capture[..captop])).TooManyPendingEntries?
    ensures overflow ==> i.op.IChoice? && top == MAXBACK
    ensures !overflow ==> top' <= MAXBACK
    ensures !overflow && failed ==> 1 <= top' <= top && stack[top' - 1].caplevel <= captop'
    ensures !overflow ==>
              VmExec(subj, i, pc, s, old(stack[..top]), old(capture[..captop]))
                == if failed then Backtrack(stack[..top'], capture'[..captop'])
                   else Going(pc', s', stack[..top'], capture'[..captop'])
  {
    hide VmExec, CapStep;
    ghost var k, caps := stack[..top], capture[..captop];
    overflow, failed, top', pc', s', capture', captop' := false, false, top, pc, s, capture, captop;
    if Moves(i) {
      failed, pc', s' := Move(subj, i, pc, s);
      assert VmExec(subj, i, pc, s, k, caps) == if failed then Backtrack(k, caps) else Going(pc', s', k, caps);
    } else if IsCapture(i) {
      VmCapture(subj, i, pc, s, k, caps);
      capture', captop' := TakeCapture(i, s, capture, captop);
      pc' := pc + 1;
    } else if i.op.IChoice? {
      VmChoice(subj, i, pc, s, k, caps);
      if top >= stack.Length {
        overflow := true;
      } else {
        PushEntry(stack, top, Entry(pc + i.offset, s - i.aux, captop));
        top', pc' := top + 1, pc + 1;
      }
    } else if i.op.IFail? {
      VmFail(subj, i, pc, s, k, caps);
      failed := true;
    } else {
      failed, top', pc', s', captop' := Pop(subj, i, stack, top, pc, s, captop, caps);
      assert capture[..captop'] == caps[..captop'];
    }
  }

  // One turn of the loop, on the arrays.
  method Execute(subj: Subject, i: Instr, stack: array<Entry>, top: nat, pc: int, s: int, capture: array<Capture>,
                 captop: nat)
    returns (overflow: bool, top': nat, pc': int, s': int, capture': array<Capture>, captop': nat)
    requires InstrOk(i) && 1 <= top <= stack.Length == MAXBACK && captop < capture.Length
    requires (Stuck(i) ==> 2 <= top) && (forall j :: 0 <= j < top ==> stack[j].caplevel <= captop)
    modifies stack, capture
    ensures captop' < capture'.Length && (capture' == capture || fresh(capture'))
    ensures overflow <==> VmExec(subj, i, pc, s, old(stack[..top]), old(capture[..captop])).TooManyPendingEntries?
    ensures overflow ==> i.op.IChoice? && top == MAXBACK
    ensures !overflow ==> top' <= MAXBACK
    ensures !overflow ==>
              VmExec(subj, i, pc, s, old(stack[..top]), old(capture[..captop]))
                == Going(pc', s', stack[..top'], capture'[..captop'])
  {
    hide VmExec;
    var failed;
    overflow, failed, top', pc', s', capture', captop' := Attempt(subj, i, stack, top, pc, s, capture, captop);
    if !overflow && failed {  // go back to the latest entry
      BacktrackTop(stack[..top' - 1], stack[top' - 1], capture'[..captop']);
      assert stack[..top'] == stack[..top' - 1] + [stack[top' - 1]];
      top' := top' - 1;
      s', captop', pc' := stack[top'].s, stack[top'].caplevel, stack[top'].pc;
    }
  }

  // Runs the code of a pattern against `subj` from position `init`.
  method Match(op: array<Instr>, subj: Subject, init: nat, ghost c: Code, ghost p: Pat, ghost d: int)
    returns (r: MatchResult)
    requires op[..] == c + [END] && Good(c, p, d) && init <= |subj|
    ensures r.TooMany? <==> Exhausts(c, subj, init)
    ensures r.TooMany? ==> d >= MAXBACK
    ensures !r.TooMany? ==> r == Verdict(Peg(Env(subj, false), p, init, []))
  {
    ghost var final := Peg(Env(subj, false), p, init, []);
    ghost var left: nat, ty := Begin(c, p, d, subj, init);
    r := Loop(op, subj, init, c, ty, d, final, left);
  }

  lemma Begin(c: Code, p: Pat, d: int, subj: Subject, init: nat) returns (left: nat, ty: seq<Ctx>)
    requires Good(c, p, d) && init <= |subj|
    ensures WF(c) && TypedBy(c, ty, d)
    ensures Steps(Env(subj, false), c, Run(0, init, [], []), left) ==
            Outcomes(Peg(Env(subj, false), p, init, []), |c|, [])
  {
    var env := Env(subj, false);
    assert Reaches(env, c, Run(0, init, [], []), Outcomes(Peg(env, p, init, []), |c|, []));
    left :| Steps(env, c, Run(0, init, [], []), left) == Outcomes(Peg(env, p, init, []), |c|, []);
    ty :| TypedBy(c, ty, d);
  }

  method Loop(op: array<Instr>, subj: Subject, init: nat, ghost c: Code, ghost ty: seq<Ctx>, ghost d: int,
              ghost final: Res, ghost steps: nat)
    returns (r: MatchResult)
    requires op[..] == c + [END] && WF(c) && TypedBy(c, ty, d)
    requires Steps(Env(subj, false), c, Run(0, init, [], []), steps) == Outcomes(final, |c|, [])
    ensures r.TooMany? <==> Exhausts(c, subj, init)
    ensures r.TooMany? ==> d >= MAXBACK
    ensures !r.TooMany? ==> r == Verdict(final)
  {
    assert |ty| == |c| + 1;
    hide TypedBy, Steps, Represents, RunsWell, WF, VmExec, InstrOk, RunsTo, Exhausts, FullChoice;
    ghost var st, done, left := Run(0, init, [], []), 0, steps;
    RunsStart(c, subj, init);
    var stack := new Entry[MAXBACK](_ => Entry(GIVEUP, init, 0));
    var capture := new Capture[IMAXCAPTURES](_ => Capture(0, 0, 0, 0));
    var top: nat, captop: nat, pc: int, s: int := 1, 0, 0, init;
    StartsWell(c, ty, d, init, stack[..top], capture[..captop]);
    while pc != GIVEUP
      invariant op[..] == c + [END]
      invariant top <= stack.Length == MAXBACK && captop < capture.Length && fresh(stack) && fresh(capture)
      invariant pc != GIVEUP ==> Represents(Going(pc, s, stack[..top], capture[..captop]), st) && RunsWell(c, ty, st)
      invariant pc != GIVEUP ==> Steps(Env(subj, false), c, st, left) == Outcomes(final, |c|, [])
      invariant RunsTo(c, subj, init, done, st)
      invariant pc == GIVEUP ==> final == Nope && Halted(c, st)
      decreases pc != GIVEUP, left
    {
      ghost var vs := Going(pc, s, stack[..top], capture[..captop]);
      InRange(c, ty, d, subj, vs, st);
      var i := op[pc];
      if i.op.IEnd? {
        InstrIsEnd(c, op[..], pc);
        AtEnd(c, ty, d, subj, st, left, final);
        HaltsRoomy(c, subj, init, done, st);
        return Matched(s, capture[..captop]);
      }
      InstrIsCode(c, op[..], pc);
      forall j | 0 <= j < top ensures stack[j].caplevel <= captop { assert vs.stack[j] == stack[j]; }
      var overflow;
      overflow, top, pc, s, capture, captop := Execute(subj, i, stack, top, pc, s, capture, captop);
      if overflow {
        StackBound(c, ty, d, vs, st);
        FullRepresented(c, subj, vs, st);
        IsExhausted(c, subj, init, done, st);
        return TooMany;
      }
      assert Going(pc, s, stack[..top], capture[..captop]) == VmStep(subj, c, vs);
      st, done, left := Turn(c, ty, d, subj, init, vs, st, done, left, final);
    }
    HaltsRoomy(c, subj, init, done, st);
    r := NoMatch;
  }

  lemma RunsStart(c: Code, subj: Subject, init: int)
    ensures RunsTo(c, subj, init, 0, Run(0, init, [], []))
  {
  }

  lemma IsExhausted(c: Code, subj: Subject, init: int, n: nat, st: State)
    requires RunsTo(c, subj, init, n, st) && FullChoice(c, st)
    ensures Exhausts(c, subj, init)
  {
  }

  lemma InstrIsEnd(c: Code, all: Code, pc: int)
    requires all == c + [END] && 0 <= pc <= |c| && all[pc].op.IEnd? && (pc < |c| ==> InstrOk(c[pc]))
    ensures pc == |c|
  {
  }

  lemma InstrIsCode(c: Code, all: Code, pc: int)
    requires all == c + [END] && 0 <= pc <= |c| && !all[pc].op.IEnd?
    ensures pc < |c| && all[pc] == c[pc]
  {
  }
}

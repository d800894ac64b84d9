// The check that a loop body cannot match the empty string.

module LpegVerify {
  import opened LpegCode
  import opened LpegPeg
  import opened LpegMachine
  import opened LpegBuild
  import opened LpegTyping
  import opened LpegMeaning
  import opened LpegLoops
  import opened LpegJumps

  datatype VerifyResult = AcceptsEmpty | NeverEmpty | TooDeep

  // What the verifier does at an instruction.
  datatype Move = Retry | Go(to: int) | Try(to: int) | Leave(to: int)

  function VerifierMove(i: Instr, pc: int): Move {
    if IsCheck(i) || i.op.IFailTwice? then Retry
    else if IsTest(i) || i.op.IJmp? then Go(pc + i.offset)
    else match i.op
      case IChoice => Try(pc + i.offset)
      case ICommit => Leave(pc + i.offset)
      case IBackCommit => Leave(pc + i.offset)
      case IPartialCommit => if i.offset > 0 then Go(pc + i.offset) else Leave(pc + 1)
      case IFail => if i.aux != 0 then Go(pc + 1) else Retry
      case _ => Go(pc + 1)
  }

  function Targets(k: seq<Frame>): (r: seq<int>)
    ensures |r| == |k|
    ensures forall i :: 0 <= i < |k| ==> r[i] == k[i].pc
  {
    seq(|k|, i requires 0 <= i < |k| => k[i].pc)
  }

  // The verifier's moves are the steps of the machine on the lenient reading.
  lemma LenientStep(c: Code, pc: int, s: int, k: seq<Frame>, caps: seq<Capture>)
    requires 0 <= pc < |c| && !c[pc].op.IEnd? && (Stuck(c[pc]) ==> k != [])
    ensures var st := Step(LENIENT, c, Run(pc, s, k, caps));
            match VerifierMove(c[pc], pc)
            case Retry => st == Fail(k)
            case Go(to) => st.Run? && st.pc == to && Targets(st.stack) == Targets(k)
            case Try(to) => st.Run? && st.pc == pc + 1 && Targets(st.stack) == Targets(k) + [to]
            case Leave(to) => st.Run? && st.pc == to && k != [] && Targets(st.stack) == Targets(k)[..|k| - 1]
  {
    hide Step, Exec;
    var i := c[pc];
    if Stuck(i) {
      var below, top := k[..|k| - 1], k[|k| - 1];
      assert k == below + [top];
      ExecPop(LENIENT, i, pc, s, below, top, caps);
      StepIsExec(c, pc, s, k, caps);
    } else if i.op.IChoice? {
      StepChoice(LENIENT, c, pc, s, k, caps);
    } else {
      StepFlow(LENIENT, c, pc, s, k, caps);
    }
  }

  lemma StepIsExec(c: Code, pc: int, s: int, k: seq<Frame>, caps: seq<Capture>)
    requires 0 <= pc < |c|
    ensures Step(LENIENT, c, Run(pc, s, k, caps)) == Exec(LENIENT, c[pc], pc, s, k, caps)
  {
    hide Exec;
  }

  predicate OverflowsHere(c: Code, st: State) {
    st.Run? && 0 <= st.pc < |c| && c[st.pc].op.IChoice? && |st.stack| >= MAXBACK
  }

  const START := Run(0, 0, [], [])

  lemma Overflowed(c: Code, done: nat)
    requires OverflowsHere(c, Steps(LENIENT, c, START, done))
    ensures Overflows(c)
  {
  }

  // A run that has halted without overflowing never overflows.
  lemma NotOverflowed(c: Code, done: nat)
    requires Halted(c, Steps(LENIENT, c, START, done))
    requires forall n: nat :: n < done ==> !OverflowsHere(c, Steps(LENIENT, c, START, n))
    ensures !Overflows(c)
  {
    forall n: nat ensures !OverflowsHere(c, Steps(LENIENT, c, START, n)) {
      if n >= done {
        StepsAdd(LENIENT, c, START, done, n - done);
        HaltedStays(LENIENT, c, Steps(LENIENT, c, START, done), n - done);
      }
    }
  }

  lemma OneMore(c: Code, n: nat)
    ensures Steps(LENIENT, c, START, n + 1) == Step(LENIENT, c, Steps(LENIENT, c, START, n))
  {
    StepsAdd(LENIENT, c, START, n, 1);
    assert Steps(LENIENT, c, Steps(LENIENT, c, START, n), 1) == Step(LENIENT, c, Steps(LENIENT, c, START, n));
  }

  // Before it halts the run is inside the code, and has an entry where it needs one.
  lemma StillRunning(c: Code, done: nat, total: nat)
    requires JumpsInside(c) && Halted(c, Steps(LENIENT, c, START, total))
    requires !Halted(c, Steps(LENIENT, c, START, done))
    ensures done < total
    ensures var st := Steps(LENIENT, c, START, done);
            st.Run? && Stuck(c[st.pc]) ==> st.stack != [] && !c[st.pc].op.IEnd?
  {
    var st := Steps(LENIENT, c, START, done);
    if done >= total {
      StepsAdd(LENIENT, c, START, total, done - total);
      HaltedStays(LENIENT, c, Steps(LENIENT, c, START, total), done - total);
    } else {
      StepsAdd(LENIENT, c, START, done, total - done);
      if st.Run? && Stuck(c[st.pc]) && (st.stack == [] || c[st.pc].op.IEnd?) {
        StuckForever(c, st, total - done);
      }
    }
  }

  lemma {:induction false} StuckForever(c: Code, st: State, n: nat)
    requires st.Run? && 0 <= st.pc < |c| && Stuck(c[st.pc]) && (st.stack == [] || c[st.pc].op.IEnd?)
    ensures Steps(LENIENT, c, st, n) == st
    decreases n
  {
    if n > 0 {
      ExecStuck(LENIENT, c[st.pc], st.pc, st.s, st.stack, st.caps);
      StuckForever(c, st, n - 1);
    }
  }

  // The verifier's state stands for a state of the lenient run.
  ghost predicate Follows(c: Code, done: nat, pc: int, pending: seq<int>) {
    var st := Steps(LENIENT, c, START, done);
    && st.Run? && st.pc == pc && Targets(st.stack) == pending && InBounds(c, st)
    && forall n: nat :: n < done ==> !OverflowsHere(c, Steps(LENIENT, c, START, n))
  }

  ghost predicate Failed(c: Code, done: nat, pending: seq<int>) {
    var st := Steps(LENIENT, c, START, done);
    && st.Fail? && Targets(st.stack) == pending && InBounds(c, st)
    && forall n: nat :: n < done ==> !OverflowsHere(c, Steps(LENIENT, c, START, n))
  }

  lemma FollowsStart(c: Code)
    ensures Follows(c, 0, 0, [])
  {
  }

  // One move of the verifier that does not overflow.
  lemma Moved(c: Code, done: nat, pc: int, pending: seq<int>, total: nat)
    requires WF(c) && Follows(c, done, pc, pending) && pc != |c| && Halted(c, Steps(LENIENT, c, START, total))
    requires VerifierMove(c[pc], pc).Try? ==> |pending| < MAXBACK
    ensures 0 <= pc < |c| && done < total
    ensures match VerifierMove(c[pc], pc)
            case Retry => Failed(c, done + 1, pending)
            case Go(to) => Follows(c, done + 1, to, pending)
            case Try(to) => Follows(c, done + 1, pc + 1, pending + [to])
            case Leave(to) => pending != [] && Follows(c, done + 1, to, pending[..|pending| - 1])
  {
    var st := Steps(LENIENT, c, START, done);
    WFJumpsInside(c);
    StillRunning(c, done, total);
    OneMore(c, done);
    StepInBounds(LENIENT, c, st);
    assert !OverflowsHere(c, st);
    assert WFAt(c, pc);
    hide Step, Exec, Steps, WF, InBounds;
    LenientStep(c, pc, st.s, st.stack, st.caps);
  }

  // Going back to the latest pending choice.
  lemma WentBack(c: Code, done: nat, pending: seq<int>, total: nat)
    requires WF(c) && Failed(c, done, pending) && pending != [] && Halted(c, Steps(LENIENT, c, START, total))
    ensures done < total && Follows(c, done + 1, pending[|pending| - 1], pending[..|pending| - 1])
  {
    var st := Steps(LENIENT, c, START, done);
    WFJumpsInside(c);
    StillRunning(c, done, total);
    OneMore(c, done);
    StepInBounds(LENIENT, c, st);
    assert !OverflowsHere(c, st);
    var below, top := st.stack[..|st.stack| - 1], st.stack[|st.stack| - 1];
    assert st.stack == below + [top];
    StepFail(LENIENT, c, below, top);
    assert Targets(below) == pending[..|pending| - 1];
  }

  lemma NothingPending(c: Code, done: nat)
    requires Failed(c, done, [])
    ensures !Overflows(c) && Accepts(c)
  {
    assert Steps(LENIENT, c, START, done) == Fail([]);
    NotOverflowed(c, done);
  }

  lemma ReachedEnd(c: Code, done: nat, pending: seq<int>)
    requires Follows(c, done, |c|, pending)
    ensures !Overflows(c) && !Accepts(c)
  {
    var st := Steps(LENIENT, c, START, done);
    NotOverflowed(c, done);
    if Accepts(c) {
      assert Reaches(LENIENT, c, START, st);
      HaltUnique(LENIENT, c, START, st, Fail([]));
    }
  }

  lemma TotalSteps(c: Code, p: Pat) returns (total: nat)
    requires Implements(c, p)
    ensures Halted(c, Steps(LENIENT, c, START, total))
  {
    assert Reaches(LENIENT, c, START, Outcomes(Peg(LENIENT, p, 0, []), |c|, []));
    total :| Steps(LENIENT, c, START, total) == Outcomes(Peg(LENIENT, p, 0, []), |c|, []);
  }

  // Explores the body `c` of a loop on the empty string, taking every predicate to
  // succeed; `p` is the pattern the body implements.
  method Verify(op: array<Instr>, ghost c: Code, ghost p: Pat) returns (r: VerifyResult)
    requires op[..] == c + [END] && WF(c) && Implements(c, p)
    ensures r.TooDeep? <==> Overflows(c)
    ensures !r.TooDeep? ==> (r.NeverEmpty? <==> Accepts(c))
    ensures r.NeverEmpty? ==> Advances(p)
  {
    hide Steps, Follows, Failed, WF, Implements, Accepts, Overflows, Halted;
    ghost var total := TotalSteps(c, p);
    ghost var done := 0;
    FollowsStart(c);
    var back := new int[MAXBACK](_ => 0);
    var backtop: nat, pc: int := 0, 0;
    var e := op.Length - 1;
    assert e == |c| && back[..0] == [];
    while pc != e
      invariant op[..] == c + [END] && fresh(back) && backtop <= back.Length == MAXBACK
      invariant done <= total && Follows(c, done, pc, back[..backtop])
      decreases total - done
    {
      Bounded(c, done, pc, back[..backtop]);
      var i := op[pc];
      assert i == c[pc];
      if i.op.IChoice? && backtop >= MAXBACK {
        DeepHere(c, done, pc, back[..backtop]);
        return TooDeep;
      }
      Moved(c, done, pc, back[..backtop], total);
      match VerifierMove(i, pc) {
        case Go(to) =>
          pc := to;
        case Try(to) =>
          ghost var pending := back[..backtop];
          back[backtop] := to;
          backtop, pc := backtop + 1, pc + 1;
          assert back[..backtop] == pending + [to];
        case Leave(to) =>
          assert back[..backtop][..backtop - 1] == back[..backtop - 1];
          backtop, pc := backtop - 1, to;
        case Retry =>
          if backtop == 0 {
            assert back[..backtop] == [];
            NothingPending(c, done + 1);
            AcceptedAdvances(c, p);
            return NeverEmpty;
          }
          WentBack(c, done + 1, back[..backtop], total);
          assert back[..backtop][..backtop - 1] == back[..backtop - 1];
          backtop := backtop - 1;
          pc := back[backtop];
          done := done + 1;
      }
      done := done + 1;
    }
    ReachedEnd(c, done, back[..backtop]);
    r := AcceptsEmpty;
  }

  lemma Bounded(c: Code, done: nat, pc: int, pending: seq<int>)
    requires Follows(c, done, pc, pending)
    ensures 0 <= pc <= |c|
  {
  }

  lemma DeepHere(c: Code, done: nat, pc: int, pending: seq<int>)
    requires Follows(c, done, pc, pending) && 0 <= pc < |c| && c[pc].op.IChoice? && |pending| >= MAXBACK
    ensures Overflows(c)
  {
    Overflowed(c, done);
  }
}

// The forms that replace a choice by a test on the leading check.

module LpegHeads {
  import opened LpegCode
  import opened LpegPeg
  import opened LpegMachine
  import opened LpegBuild
  import opened LpegTyping
  import opened LpegMeaning

  // Code `i; body` implements `p`, read off from what `body` does once `i` has passed.
  ghost predicate HeadBody(i: Instr, body: Code, p: Pat) {
    && IsCheck(i) && InstrOk(i)
    && forall env, s, caps {:trigger Peg(env, p, s, caps)} ::
         EnvOk(env) && 0 <= s <= |env.subj| ==>
           if Passes(env, i, s)
           then Reaches(env, body, Run(0, s + StepLen(i), [], caps), Outcomes(Peg(env, p, s, caps), |body|, []))
           else Peg(env, p, s, caps).Nope?
  }

  lemma LowerOutcome(c: Code, st: State, r: Res)
    requires c != [] && Lift(c[1..], 1, |c| + 1, [], st) == Outcomes(r, |c|, [])
    ensures st == Outcomes(r, |c| - 1, [])
  {
  }

  lemma NoJumpBelowTail(c: Code)
    requires WF(c) && c != [] && IsCheck(c[0])
    ensures NoJumpBelow(c[1..])
  {
    var f := c[1..];
    forall j | 0 <= j < |f| && IsJmp(f[j]) ensures 0 <= Dest(f, j) {
      NoJumpToHead(c, j + 1);
    }
  }

  lemma HeadRun(c: Code, p: Pat, env: Env, s: int, caps: seq<Capture>)
    requires WF(c) && c != [] && IsCheck(c[0]) && Implements(c, p)
    requires EnvOk(env) && 0 <= s <= |env.subj|
    ensures if Passes(env, c[0], s)
            then Reaches(env, c[1..], Run(0, s + StepLen(c[0]), [], caps), Outcomes(Peg(env, p, s, caps), |c| - 1, []))
            else Peg(env, p, s, caps).Nope?
  {
    hide Step, Steps, Peg;
    var a, d := Run(0, s, [], caps), Outcomes(Peg(env, p, s, caps), |c|, []);
    assert Reaches(env, c, a, d);
    StepFlow(env, c, 0, s, [], caps);
    ReachesFromStep(env, c, a, d);
    if Passes(env, c[0], s) {
      HeadTail(c, env, s + StepLen(c[0]), caps, Peg(env, p, s, caps));
    } else {
      HaltedReaches(env, c, Fail([]), d);
    }
  }

  lemma HaltedReaches(env: Env, c: Code, st: State, d: State)
    requires Halted(c, st) && Reaches(env, c, st, d)
    ensures st == d
  {
    var n: nat :| Steps(env, c, st, n) == d;
    HaltedStays(env, c, st, n);
  }

  lemma HeadTail(c: Code, env: Env, s: int, caps: seq<Capture>, r: Res)
    requires WF(c) && c != [] && IsCheck(c[0])
    requires Reaches(env, c, Run(1, s, [], caps), Outcomes(r, |c|, []))
    ensures Reaches(env, c[1..], Run(0, s, [], caps), Outcomes(r, |c| - 1, []))
  {
    hide Step, Steps;
    var f, st := c[1..], Run(0, s, [], caps);
    var n: nat :| Steps(env, c, Run(1, s, [], caps), n) == Outcomes(r, |c|, []);
    assert Lift(f, 1, |c| + 1, [], st) == Run(1, s, [], caps);
    NoJumpBelowTail(c);
    SuffixSteps(env, c, 1, st, n);
    LowerOutcome(c, Steps(env, f, st, n), r);
  }

  lemma HeadSplit(c: Code, p: Pat)
    requires WF(c) && c != [] && IsCheck(c[0]) && Implements(c, p)
    ensures HeadBody(c[0], c[1..], p)
  {
    assert WFAt(c, 0);
    forall env, s, caps {:trigger Peg(env, p, s, caps)} | EnvOk(env) && 0 <= s <= |env.subj|
      ensures if Passes(env, c[0], s)
              then Reaches(env, c[1..], Run(0, s + StepLen(c[0]), [], caps),
                           Outcomes(Peg(env, p, s, caps), |c[1..]|, []))
              else Peg(env, p, s, caps).Nope?
    {
      HeadRun(c, p, env, s, caps);
    }
  }

  // The test form at position `b`, followed by the body.
  lemma UseHead(i: Instr, body: Code, p: Pat, big: Code, b: int, env: Env, s: int, k: seq<Frame>, caps: seq<Capture>)
    requires HeadBody(i, body, p) && EnvOk(env) && 0 <= s <= |env.subj|
    requires 0 <= b < |big| && big[b] == Check2Test(i, big[b].offset) && At(big, b + 1, body)
    ensures if Passes(env, i, s)
            then Reaches(env, big, Run(b, s, k, caps), Outcomes(Peg(env, p, s, caps), b + 1 + |body|, k))
            else Reaches(env, big, Run(b, s, k, caps), Run(Dest(big, b), s, k, caps)) && Peg(env, p, s, caps).Nope?
  {
    hide Step, Steps, Peg;
    StepFlow(env, big, b, s, k, caps);
    var r := Peg(env, p, s, caps);
    if Passes(env, i, s) {
      EmbedReaches(env, body, big, b + 1, k, Run(0, s + StepLen(i), [], caps), Outcomes(r, |body|, []));
      LiftEmpty(body, b + 1, b + 1 + |body| + 1, k, r);
      ReachesStep(env, big, Run(b, s, k, caps), Outcomes(r, b + 1 + |body|, k));
    } else {
      ReachesSelf(env, big, Run(Dest(big, b), s, k, caps));
      ReachesStep(env, big, Run(b, s, k, caps), Run(Dest(big, b), s, k, caps));
    }
  }

  // ----- code that cannot fail -------------------------------------------------

  lemma {:induction false} NoFailSteps(env: Env, c: Code, st: State, n: nat)
    requires NoFail(c) && st.Run? && st.stack == []
    ensures Steps(env, c, st, n).Run?
    decreases n
  {
    if n > 0 {
      if 0 <= st.pc < |c| { StepFlow(env, c, st.pc, st.s, [], st.caps); }
      NoFailSteps(env, c, Step(env, c, st), n - 1);
    }
  }

  lemma NoFailGot(i: Instr, body: Code, p: Pat, env: Env, s: int, caps: seq<Capture>)
    requires HeadBody(i, body, p) && NoFail(body) && EnvOk(env) && 0 <= s <= |env.subj| && Passes(env, i, s)
    ensures Peg(env, p, s, caps).Got?
  {
    var n: nat :| Steps(env, body, Run(0, s + StepLen(i), [], caps), n) == Outcomes(Peg(env, p, s, caps), |body|, []);
    NoFailSteps(env, body, Run(0, s + StepLen(i), [], caps), n);
  }

  lemma HeadFailParts(c: Code)
    requires IsHeadFail(c)
    ensures c != [] && IsCheck(c[0]) && NoFail(c[1..])
  {
  }

  // A pattern fails where its leading check cannot start.
  lemma NopeOutside(i: Instr, body: Code, p: Pat, env: Env, s: int, caps: seq<Capture>)
    requires HeadBody(i, body, p) && EnvOk(env) && 0 <= s <= |env.subj|
    requires s < |env.subj| ==> env.subj[s] !in FillCharset(i)
    ensures Peg(env, p, s, caps).Nope?
  {
    PassesFill(env, i, s);
  }

  // ----- ordered choice behind a test --------------------------------------------

  // After the first alternative's test has passed, its failure settles the choice.
  ghost predicate TestDecides(i: Instr, body: Code, c2: Code) {
    NoFail(body) || (c2 != [] && IsCheck(c2[0]) && FillCharset(i) !! FillCharset(c2[0]))
  }

  lemma TestDecided(i: Instr, body: Code, p1: Pat, c2: Code, p2: Pat, env: Env, s: int, caps: seq<Capture>)
    requires HeadBody(i, body, p1) && WF(c2) && Implements(c2, p2) && TestDecides(i, body, c2)
    requires EnvOk(env) && 0 <= s <= |env.subj| && Passes(env, i, s)
    ensures Peg(env, Or(p1, p2), s, caps) == Peg(env, p1, s, caps)
  {
    if NoFail(body) {
      NoFailGot(i, body, p1, env, s, caps);
    } else {
      PassesFill(env, i, s);
      HeadSplit(c2, p2);
      NopeOutside(c2[0], c2[1..], p2, env, s, caps);
    }
  }

  lemma TestUnionRun(i: Instr, body: Code, p1: Pat, c2: Code, p2: Pat, c: Code, env: Env, s: int, caps: seq<Capture>)
    requires HeadBody(i, body, p1) && WF(c2) && Implements(c2, p2) && TestDecides(i, body, c2)
    requires EnvOk(env) && 0 <= s <= |env.subj|
    requires |c| == |body| + 2 + |c2| && c[0] == Check2Test(i, |body| + 2) && At(c, 1, body)
    requires c[|body| + 1] == Set(IJmp, |c2| + 1) && At(c, |body| + 2, c2)
    ensures Reaches(env, c, Run(0, s, [], caps), Outcomes(Peg(env, Or(p1, p2), s, caps), |c|, []))
  {
    hide Step, Steps;
    var r1, r := Peg(env, p1, s, caps), Outcomes(Peg(env, Or(p1, p2), s, caps), |c|, []);
    UseHead(i, body, p1, c, 0, env, s, [], caps);
    if Passes(env, i, s) {
      TestDecided(i, body, p1, c2, p2, env, s, caps);
      if r1.Got? {
        StepFlow(env, c, |body| + 1, r1.s, [], r1.caps);
        ReachesSelf(env, c, r);
        ReachesStep(env, c, Run(|body| + 1, r1.s, [], r1.caps), r);
        ReachesTrans(env, c, Run(0, s, [], caps), Run(|body| + 1, r1.s, [], r1.caps), r);
      }
    } else {
      UseAt(c2, p2, c, |body| + 2, env, s, [], caps);
      ReachesTrans(env, c, Run(0, s, [], caps), Run(|body| + 2, s, [], caps), r);
    }
  }

  lemma TestUnionParts(c1: Code, c2: Code)
    requires c1 != []
    ensures var c, body := TestUnion(c1, c2), c1[1..];
            && |c| == |body| + 2 + |c2| && c[0] == Check2Test(c1[0], |body| + 2) && At(c, 1, body)
            && c[|body| + 1] == Set(IJmp, |c2| + 1) && At(c, |body| + 2, c2)
  {
  }

  lemma TestUnionImplements(c1: Code, p1: Pat, c2: Code, p2: Pat)
    requires WF(c1) && Implements(c1, p1) && WF(c2) && Implements(c2, p2)
    requires IsHeadFail(c1) || Exclusive(ToCharset(c1), ToCharset(c2))
    ensures Implements(TestUnion(c1, c2), Or(p1, p2))
  {
    TestUnionParts(c1, c2);
    HeadSplit(c1, p1);
    var c := TestUnion(c1, c2);
    forall env, s, caps {:trigger Peg(env, Or(p1, p2), s, caps)} | EnvOk(env) && 0 <= s <= |env.subj|
      ensures Reaches(env, c, Run(0, s, [], caps), Outcomes(Peg(env, Or(p1, p2), s, caps), |c|, []))
    {
      TestUnionRun(c1[0], c1[1..], p1, c2, p2, c, env, s, caps);
    }
  }

  // ----- negation of a head-fail pattern -------------------------------------------

  lemma NotHeadRun(i: Instr, body: Code, p2: Pat, c1: Code, p1: Pat, c: Code, env: Env, s: int, caps: seq<Capture>)
    requires HeadBody(i, body, p2) && NoFail(body) && Implements(c1, p1)
    requires EnvOk(env) && 0 <= s <= |env.subj|
    requires |c| == |body| + 2 + |c1| && c[0] == Check2Test(i, |body| + 2) && At(c, 1, body)
    requires c[|body| + 1] == Set(IFail, 0) && At(c, |body| + 2, c1)
    ensures Reaches(env, c, Run(0, s, [], caps), Outcomes(Peg(env, Diff(p1, p2), s, caps), |c|, []))
  {
    hide Step, Steps, Peg;
    PegDiff(env, p1, p2, s, caps);
    var r2, r := Peg(env, p2, s, caps), Outcomes(Peg(env, Diff(p1, p2), s, caps), |c|, []);
    UseHead(i, body, p2, c, 0, env, s, [], caps);
    if Passes(env, i, s) {
      PassesFill(env, i, s);
      NoFailGot(i, body, p2, env, s, caps);
      StepFlow(env, c, |body| + 1, r2.s, [], r2.caps);
      ReachesSelf(env, c, r);
      ReachesStep(env, c, Run(|body| + 1, r2.s, [], r2.caps), r);
      ReachesTrans(env, c, Run(0, s, [], caps), Run(|body| + 1, r2.s, [], r2.caps), r);
    } else {
      UseAt(c1, p1, c, |body| + 2, env, s, [], caps);
      ReachesTrans(env, c, Run(0, s, [], caps), Run(|body| + 2, s, [], caps), r);
    }
  }

  function NotHead(c2: Code, c1: Code): Code
    requires c2 != []
  {
    TestHead(c2, |c2| + 1) + [Set(IFail, 0)] + c1
  }

  lemma NotHeadParts(c2: Code, c1: Code)
    requires c2 != []
    ensures var c, body := NotHead(c2, c1), c2[1..];
            && |c| == |body| + 2 + |c1| && c[0] == Check2Test(c2[0], |body| + 2) && At(c, 1, body)
            && c[|body| + 1] == Set(IFail, 0) && At(c, |body| + 2, c1)
  {
  }

  lemma NotHeadImplements(c1: Code, p1: Pat, c2: Code, p2: Pat)
    requires WF(c2) && Implements(c1, p1) && Implements(c2, p2) && IsHeadFail(c2)
    ensures Implements(NotHead(c2, c1), Diff(p1, p2))
  {
    NotHeadParts(c2, c1);
    HeadSplit(c2, p2);
    HeadFailParts(c2);
    var c := NotHead(c2, c1);
    forall env, s, caps {:trigger Peg(env, Diff(p1, p2), s, caps)} | EnvOk(env) && 0 <= s <= |env.subj|
      ensures Reaches(env, c, Run(0, s, [], caps), Outcomes(Peg(env, Diff(p1, p2), s, caps), |c|, []))
    {
      NotHeadRun(c2[0], c2[1..], p2, c1, p1, c, env, s, caps);
    }
  }

  // ----- choice behind a test ----------------------------------------------------

  ghost predicate NoJumpTo(c: Code, d: int) {
    forall j :: 0 <= j < |c| && IsJmp(c[j]) ==> d < Dest(c, j)
  }

  ghost predicate StateAbove(st: State, b: int) {
    (st.Run? ==> b <= st.pc) && forall i :: 0 <= i < |st.stack| ==> b <= st.stack[i].pc
  }

  lemma StepAbove(env: Env, c: Code, st: State, b: int)
    requires forall j :: b <= j < |c| && 0 <= j && IsJmp(c[j]) ==> b <= Dest(c, j)
    requires StateAbove(st, b)
    ensures StateAbove(Step(env, c, st), b)
  {
    match st
    case Fail(k) =>
    case Run(pc, s, k, caps) =>
      if 0 <= pc < |c| && IsJmp(c[pc]) { assert b <= Dest(c, pc); }
  }

  // Codes that agree from `b` on, and never jump in front of it, run alike from there.
  lemma {:induction false} SameFrom(env: Env, c: Code, c': Code, b: nat, st: State, n: nat)
    requires |c| == |c'| && b <= |c| && c[b..] == c'[b..] && StateAbove(st, b)
    requires forall j :: b <= j < |c| && IsJmp(c[j]) ==> b <= Dest(c, j)
    ensures Steps(env, c', st, n) == Steps(env, c, st, n)
    decreases n
  {
    if n > 0 {
      if st.Run? && 0 <= st.pc < |c| {
        assert c[st.pc] == c[b..][st.pc - b] && c'[st.pc] == c'[b..][st.pc - b];
      }
      StepAbove(env, c, st, b);
      SameFrom(env, c, c', b, Step(env, c, st), n - 1);
    }
  }

  lemma SameSuffix(c: Code)
    requires |c| > 1 && c[0].op.IChoice? && IsCheck(c[1])
    ensures var c' := OptimizeChoice(c);
            && |c'| == |c| && c'[2..] == c[2..]
            && c'[0] == Check2Test(c[1], c[0].offset)
            && c'[1] == c[0].(aux := StepLen(c[1]), offset := c[0].offset - 1)
  {
  }

  lemma OptimizeChoiceTail(c: Code, env: Env, st: State, d: State)
    requires |c| > 1 && c[0].op.IChoice? && IsCheck(c[1]) && NoJumpTo(c, 1)
    requires StateAbove(st, 2) && Reaches(env, c, st, d)
    ensures Reaches(env, OptimizeChoice(c), st, d)
  {
    SameSuffix(c);
    var n: nat :| Steps(env, c, st, n) == d;
    SameFrom(env, c, OptimizeChoice(c), 2, st, n);
  }

  // The run of `choice; check; ...` up to the check's outcome.
  lemma ChoiceCheckRun(c: Code, env: Env, s: int, caps: seq<Capture>, d: State)
    requires |c| > 1 && c[0].op.IChoice? && c[0].aux == 0 && IsCheck(c[1])
    requires Reaches(env, c, Run(0, s, [], caps), d)
    requires d.stack == [] && (d.Run? ==> d.pc >= 2)
    ensures Reaches(env, c, if Passes(env, c[1], s) then Run(2, s + StepLen(c[1]), [Frame(Dest(c, 0), s, caps)], caps)
                            else Run(Dest(c, 0), s, [], caps), d)
  {
    hide Step, Steps, Reaches;
    var fr := Frame(Dest(c, 0), s, caps);
    assert [] + [fr] == [fr];
    StepChoice(env, c, 0, s, [], caps);
    ReachesFromStep(env, c, Run(0, s, [], caps), d);
    StepFlow(env, c, 1, s, [fr], caps);
    ReachesFromStep(env, c, Run(1, s, [fr], caps), d);
    if !Passes(env, c[1], s) {
      StepFail(env, c, [], fr);
      ReachesFromStep(env, c, Fail([fr]), d);
    }
  }

  // Entering the choice only after its leading check has passed changes nothing.
  lemma OptimizeChoiceRun(c: Code, env: Env, s: int, caps: seq<Capture>, d: State)
    requires |c| > 1 && c[0].op.IChoice? && c[0].aux == 0 && IsCheck(c[1]) && NoJumpTo(c, 1)
    requires Reaches(env, c, Run(0, s, [], caps), d)
    requires d.stack == [] && (d.Run? ==> d.pc >= 2)
    ensures Reaches(env, OptimizeChoice(c), Run(0, s, [], caps), d)
  {
    hide Step, Steps, Reaches, OptimizeChoice;
    var c' := OptimizeChoice(c);
    var i, s' := c[1], s + StepLen(c[1]);
    var fr := Frame(Dest(c, 0), s, caps);
    SameSuffix(c);
    ChoiceCheckRun(c, env, s, caps, d);
    OptimizeChoiceTail(c, env, if Passes(env, i, s) then Run(2, s', [fr], caps) else Run(Dest(c, 0), s, [], caps), d);
    StepFlow(env, c', 0, s, [], caps);
    if Passes(env, i, s) {
      StepChoice(env, c', 1, s', [], caps);
      assert [] + [fr] == [fr];
      ReachesStep(env, c', Run(1, s', [], caps), d);
    }
    ReachesStep(env, c', Run(0, s, [], caps), d);
  }

  lemma OptimizeChoiceImplements(c: Code, p: Pat)
    requires c != [] && c[0].op.IChoice? && c[0].aux == 0 && Implements(c, p)
    requires |c| > 1 && IsCheck(c[1]) ==> NoJumpTo(c, 1)
    ensures Implements(OptimizeChoice(c), p) && |OptimizeChoice(c)| == |c|
  {
    if |c| > 1 && IsCheck(c[1]) {
      SameSuffix(c);
      forall env, s, caps {:trigger Peg(env, p, s, caps)} | EnvOk(env) && 0 <= s <= |env.subj|
        ensures Reaches(env, OptimizeChoice(c), Run(0, s, [], caps), Outcomes(Peg(env, p, s, caps), |c|, []))
      {
        OptimizeChoiceRun(c, env, s, caps, Outcomes(Peg(env, p, s, caps), |c|, []));
      }
    }
  }
}

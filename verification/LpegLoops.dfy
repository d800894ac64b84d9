// Repetition: span loops, loops behind a test, loops with a partial commit, and
// bounded repetition.

module LpegLoops {
  import opened LpegCode
  import opened LpegPeg
  import opened LpegMachine
  import opened LpegBuild
  import opened LpegMeaning
  import opened LpegHeads

  lemma EmptyImplements()
    ensures Implements([], Lit([]))
  {
    forall env, s, caps {:trigger Peg(env, Lit([]), s, caps)} | EnvOk(env) && 0 <= s <= |env.subj|
      ensures Reaches(env, [], Run(0, s, [], caps), Outcomes(Peg(env, Lit([]), s, caps), 0, []))
    {
      ReachesSelf(env, [], Run(0, s, [], caps));
    }
  }

  // ----- leading copies ----------------------------------------------------------

  lemma {:induction false} CopiesImplements(c: Code, p: Pat, n: nat, loop: Code)
    requires Implements(c, p) && Implements(loop, Rep(p, 0))
    ensures Implements(Copies(c, n) + loop, Rep(p, n))
    decreases n
  {
    if n == 0 {
      assert Copies(c, 0) + loop == loop;
    } else {
      CopiesImplements(c, p, n - 1, loop);
      CatImplements(c, p, Copies(c, n - 1) + loop, Rep(p, n - 1));
      assert c + (Copies(c, n - 1) + loop) == Copies(c, n) + loop;
      ImplementsSame(Copies(c, n) + loop, Cat(p, Rep(p, n - 1)), Rep(p, n));
    }
  }

  // ----- sets --------------------------------------------------------------------

  lemma CharsetMeaning(c: Code, p: Pat, env: Env, s: int, caps: seq<Capture>)
    requires WF(c) && Implements(c, p) && ToCharset(c).IsCharset? && EnvOk(env) && 0 <= s <= |env.subj|
    ensures Peg(env, p, s, caps) == SetMatch(env.subj, s, ToCharset(c).cs, caps)
  {
    var cs := ToCharset(c).cs;
    assert WFAt(c, 0) && c == [c[0]];
    OneByteRun(env, c[0], cs, s, caps);
    var r, m := Outcomes(Peg(env, p, s, caps), 1, []), Outcomes(SetMatch(env.subj, s, cs, caps), 1, []);
    HaltUnique(env, c, Run(0, s, [], caps), r, m);
  }

  lemma {:induction false} SpanMeaning(p: Pat, cs: Charset, env: Env, s: int, caps: seq<Capture>)
    requires EnvOk(env) && 0 <= s <= |env.subj|
    requires forall t | 0 <= t <= |env.subj| :: Peg(env, p, t, caps) == SetMatch(env.subj, t, cs, caps)
    ensures PegRep(env, p, 0, s, caps) == Got(SpanEnd(env.subj, cs, s), caps)
    decreases |env.subj| - s
  {
    if s < |env.subj| && env.subj[s] in cs {
      assert Peg(env, p, s, caps) == Got(s + 1, caps);
      SpanMeaning(p, cs, env, s + 1, caps);
    } else {
      assert Peg(env, p, s, caps) == Nope;
    }
  }

  lemma SpanImplements(c: Code, p: Pat)
    requires WF(c) && Implements(c, p) && ToCharset(c).IsCharset?
    ensures Implements([SpanInstr(ToCharset(c).cs)], Rep(p, 0))
  {
    var cs := ToCharset(c).cs;
    var loop := [SpanInstr(cs)];
    forall env, s, caps {:trigger Peg(env, Rep(p, 0), s, caps)} | EnvOk(env) && 0 <= s <= |env.subj|
      ensures Reaches(env, loop, Run(0, s, [], caps), Outcomes(Peg(env, Rep(p, 0), s, caps), 1, []))
    {
      forall t | 0 <= t <= |env.subj| ensures Peg(env, p, t, caps) == SetMatch(env.subj, t, cs, caps) {
        CharsetMeaning(c, p, env, t, caps);
      }
      SpanMeaning(p, cs, env, s, caps);
      StepFlow(env, loop, 0, s, [], caps);
      ReachesSelf(env, loop, Run(1, SpanEnd(env.subj, cs, s), [], caps));
      ReachesStep(env, loop, Run(0, s, [], caps), Run(1, SpanEnd(env.subj, cs, s), [], caps));
    }
  }

  // ----- loops behind a test -------------------------------------------------------

  lemma {:induction false} SpanForward(subj: Subject, cs: Charset, s: int)
    ensures s <= SpanEnd(subj, cs, s)
    ensures s <= |subj| ==> SpanEnd(subj, cs, s) <= |subj|
    decreases |subj| - s
  {
    if s < |subj| && CharAt(subj, s) in cs { SpanForward(subj, cs, s + 1); }
  }

  lemma {:induction false} NoFailForward(env: Env, c: Code, st: State, n: nat)
    requires NoFail(c) && st.Run? && st.stack == []
    ensures var st' := Steps(env, c, st, n); st'.Run? && st.s <= st'.s
    decreases n
  {
    if n > 0 {
      if 0 <= st.pc < |c| {
        StepFlow(env, c, st.pc, st.s, [], st.caps);
        SpanForward(env.subj, c[st.pc].cs, st.s);
      }
      NoFailForward(env, c, Step(env, c, st), n - 1);
    }
  }

  // Past its check a head-fail pattern matches, further on.
  lemma HeadAdvances(i: Instr, body: Code, p: Pat, env: Env, s: int, caps: seq<Capture>)
    requires HeadBody(i, body, p) && NoFail(body) && EnvOk(env) && 0 <= s <= |env.subj| && Passes(env, i, s)
    ensures Peg(env, p, s, caps).Got? && Peg(env, p, s, caps).s > s
  {
    NoFailGot(i, body, p, env, s, caps);
    var n: nat :| Steps(env, body, Run(0, s + StepLen(i), [], caps), n) == Outcomes(Peg(env, p, s, caps), |body|, []);
    NoFailForward(env, body, Run(0, s + StepLen(i), [], caps), n);
  }

  lemma {:induction false} HeadFailLoopRun(i: Instr, body: Code, p: Pat, c: Code, env: Env, s: int, caps: seq<Capture>)
    requires HeadBody(i, body, p) && NoFail(body) && EnvOk(env) && 0 <= s <= |env.subj|
    requires |c| == |body| + 2 && c[0] == Check2Test(i, |c|) && At(c, 1, body)
             && c[|body| + 1] == Set(IJmp, -(|body| + 1))
    ensures Reaches(env, c, Run(0, s, [], caps), Outcomes(PegRep(env, p, 0, s, caps), |c|, []))
    decreases |env.subj| - s
  {
    hide Step, Steps, Reaches;
    var r1, r := Peg(env, p, s, caps), Outcomes(PegRep(env, p, 0, s, caps), |c|, []);
    UseHead(i, body, p, c, 0, env, s, [], caps);
    if Passes(env, i, s) {
      HeadAdvances(i, body, p, env, s, caps);
      HeadFailLoopRun(i, body, p, c, env, r1.s, r1.caps);
      StepFlow(env, c, |body| + 1, r1.s, [], r1.caps);
      ReachesStep(env, c, Run(|body| + 1, r1.s, [], r1.caps), r);
      ReachesTrans(env, c, Run(0, s, [], caps), Run(|body| + 1, r1.s, [], r1.caps), r);
    }
  }

  lemma HeadFailLoopParts(c: Code)
    requires c != []
    ensures var l, body := HeadFailLoop(c), c[1..];
            |l| == |body| + 2 && l[0] == Check2Test(c[0], |l|) && At(l, 1, body)
              && l[|body| + 1] == Set(IJmp, -(|body| + 1))
  {
  }

  lemma HeadFailLoopImplements(c: Code, p: Pat)
    requires WF(c) && Implements(c, p) && IsHeadFail(c)
    ensures Implements(HeadFailLoop(c), Rep(p, 0))
  {
    HeadFailLoopParts(c);
    HeadSplit(c, p);
    var l := HeadFailLoop(c);
    forall env, s, caps {:trigger Peg(env, Rep(p, 0), s, caps)} | EnvOk(env) && 0 <= s <= |env.subj|
      ensures Reaches(env, l, Run(0, s, [], caps), Outcomes(Peg(env, Rep(p, 0), s, caps), |l|, []))
    {
      HeadFailLoopRun(c[0], c[1..], p, l, env, s, caps);
    }
  }

  // ----- loops with a partial commit --------------------------------------------------

  // The body either fails or moves forward; on the verifier's reading it fails.
  ghost predicate Advances(p: Pat) {
    forall env, s, caps {:trigger Peg(env, p, s, caps)} ::
      EnvOk(env) && 0 <= s <= |env.subj| && Peg(env, p, s, caps).Got? ==> Peg(env, p, s, caps).s > s
  }

  // The verifier accepts exactly the bodies whose lenient reading rejects the empty subject.
  lemma AcceptsMeaning(c: Code, p: Pat)
    requires Implements(c, p)
    ensures Accepts(c) <==> Peg(LENIENT, p, 0, []).Nope?
  {
    var r := Outcomes(Peg(LENIENT, p, 0, []), |c|, []);
    assert Reaches(LENIENT, c, Run(0, 0, [], []), r);
    if Accepts(c) { HaltUnique(LENIENT, c, Run(0, 0, [], []), r, Fail([])); }
  }

  lemma AcceptedAdvances(c: Code, p: Pat)
    requires Implements(c, p) && Accepts(c)
    ensures Advances(p)
  {
    AcceptsMeaning(c, p);
    forall env, s, caps {:trigger Peg(env, p, s, caps)} | EnvOk(env) && 0 <= s <= |env.subj|
      && Peg(env, p, s, caps).Got?
      ensures Peg(env, p, s, caps).s > s
    {
      if env.lenient {
        assert env == LENIENT;
        CapsIrrelevant(env, p, 0, caps, []);
      } else {
        RejectedConsumes(p, env, s, caps);
      }
    }
  }

  lemma {:induction false} ChoiceLoopRun(c: Code, p: Pat, l: Code, env: Env, s: int, caps: seq<Capture>)
    requires Implements(c, p) && Advances(p) && EnvOk(env) && 0 <= s <= |env.subj|
    requires |l| == |c| + 2 && At(l, 1, c) && l[|c| + 1] == Set(IPartialCommit, -|c|)
    ensures Reaches(env, l, Run(1, s, [Frame(|l|, s, caps)], caps), Outcomes(PegRep(env, p, 0, s, caps), |l|, []))
    decreases |env.subj| - s
  {
    hide Step, Steps, Reaches, Implements;
    var fr := Frame(|l|, s, caps);
    assert [] + [fr] == [fr];
    var r1, r := Peg(env, p, s, caps), Outcomes(PegRep(env, p, 0, s, caps), |l|, []);
    UseAt(c, p, l, 1, env, s, [fr], caps);
    if r1.Got? {
      ChoiceLoopRun(c, p, l, env, r1.s, r1.caps);
      StepCommit(env, l, |c| + 1, r1.s, [], fr, r1.caps);
      assert !env.lenient;
      var fr' := Frame(|l|, r1.s, r1.caps);
      assert [] + [fr'] == [fr'];
    } else {
      StepFail(env, l, [], fr);
      ReachesSelf(env, l, r);
    }
    ReachesStep(env, l, Outcomes(r1, |c| + 1, [fr]), r);
    ReachesTrans(env, l, Run(1, s, [fr], caps), Outcomes(r1, |c| + 1, [fr]), r);
  }

  lemma ChoiceLoopImplements(c: Code, p: Pat)
    requires Implements(c, p) && Advances(p)
    ensures Implements(ChoiceLoop(c), Rep(p, 0))
  {
    var l := ChoiceLoop(c);
    assert At(l, 1, c);
    forall env, s, caps {:trigger Peg(env, Rep(p, 0), s, caps)} | EnvOk(env) && 0 <= s <= |env.subj|
      ensures Reaches(env, l, Run(0, s, [], caps), Outcomes(Peg(env, Rep(p, 0), s, caps), |l|, []))
    {
      ChoiceLoopRun(c, p, l, env, s, caps);
      StepChoice(env, l, 0, s, [], caps);
      assert [] + [Frame(|l|, s, caps)] == [Frame(|l|, s, caps)];
      ReachesStep(env, l, Run(0, s, [], caps), Outcomes(Peg(env, Rep(p, 0), s, caps), |l|, []));
    }
  }

  // ----- at most n -----------------------------------------------------------------

  lemma {:induction false} OptionalBodiesLength(c: Code, n: Pos)
    ensures |OptionalBodies(c, n)| == n * (|c| + 1)
    decreases n
  {
    if n > 1 { OptionalBodiesLength(c, n - 1); }
  }

  lemma OptionalBodiesParts(c: Code, n: Pos, big: Code, b: nat)
    requires At(big, b, OptionalBodies(c, n)) && b + |OptionalBodies(c, n)| == |big|
    ensures At(big, b, c) && b + |c| < |big|
    ensures n == 1 ==> big[b + |c|] == Set(ICommit, 1) && b + |c| + 1 == |big|
    ensures n > 1 ==> big[b + |c|] == Set(IPartialCommit, 1) && At(big, b + |c| + 1, OptionalBodies(c, n - 1))
                      && b + |c| + 1 + |OptionalBodies(c, n - 1)| == |big|
  {
    var bodies := OptionalBodies(c, n);
    SubAt(big, b, bodies, 0, |c|);
    SubAt(big, b, bodies, |c| + 1, |bodies|);
    assert big[b + |c|] == big[b..b + |bodies|][|c|] == bodies[|c|];
    assert bodies[..|c|] == c;
    if n > 1 { assert bodies[|c| + 1..] == OptionalBodies(c, n - 1); }
  }

  lemma {:induction false} OptionalBodiesRun(c: Code, p: Pat, n: Pos, big: Code, b: nat, env: Env, s: int,
                                             caps: seq<Capture>)
    requires Implements(c, p) && EnvOk(env) && 0 <= s <= |env.subj|
    requires At(big, b, OptionalBodies(c, n)) && b + |OptionalBodies(c, n)| == |big|
    ensures var r := PegOpt(env, p, n, s, caps);
            Reaches(env, big, Run(b, s, [Frame(|big|, s, caps)], caps), Run(|big|, r.s, [], r.caps))
    decreases n
  {
    hide Step, Steps, Reaches, Implements, OptionalBodies;
    OptionalBodiesParts(c, n, big, b);
    var e, fr := b + |c|, Frame(|big|, s, caps);
    assert [] + [fr] == [fr];
    var r1, r := Peg(env, p, s, caps), PegOpt(env, p, n, s, caps);
    var d := Run(|big|, r.s, [], r.caps);
    UseAt(c, p, big, b, env, s, [fr], caps);
    ReachesSelf(env, big, d);
    if r1.Nope? {
      StepFail(env, big, [], fr);
    } else {
      StepCommit(env, big, e, r1.s, [], fr, r1.caps);
      if n == 1 {
        assert PegOpt(env, p, 0, r1.s, r1.caps) == Got(r1.s, r1.caps);
      } else {
        OptionalBodiesRun(c, p, n - 1, big, e + 1, env, r1.s, r1.caps);
        assert [] + [Frame(|big|, r1.s, r1.caps)] == [Frame(|big|, r1.s, r1.caps)];
      }
    }
    ReachesStep(env, big, Outcomes(r1, e, [fr]), d);
    ReachesTrans(env, big, Run(b, s, [fr], caps), Outcomes(r1, e, [fr]), d);
  }

  function Optionals(c: Code, n: Pos): Code {
    [Set(IChoice, 1 + n * (|c| + 1))] + OptionalBodies(c, n)
  }

  lemma OptionalsImplements(c: Code, p: Pat, n: Pos)
    requires Implements(c, p)
    ensures Implements(Optionals(c, n), Opt(p, n))
  {
    var l := Optionals(c, n);
    OptionalBodiesLength(c, n);
    assert At(l, 1, OptionalBodies(c, n)) && l[0] == Set(IChoice, |l|);
    forall env, s, caps {:trigger Peg(env, Opt(p, n), s, caps)} | EnvOk(env) && 0 <= s <= |env.subj|
      ensures Reaches(env, l, Run(0, s, [], caps), Outcomes(Peg(env, Opt(p, n), s, caps), |l|, []))
    {
      OptionalBodiesRun(c, p, n, l, 1, env, s, caps);
      StepChoice(env, l, 0, s, [], caps);
      assert [] + [Frame(|l|, s, caps)] == [Frame(|l|, s, caps)];
      ReachesStep(env, l, Run(0, s, [], caps), Outcomes(Peg(env, Opt(p, n), s, caps), |l|, []));
    }
  }

  lemma {:induction false} HeadFailOptionalsLength(c: Code, n: nat)
    requires c != []
    ensures |HeadFailOptionals(c, n)| == n * |c|
    decreases n
  {
    if n > 0 { HeadFailOptionalsLength(c, n - 1); }
  }

  lemma FirstOptional(c: Code, n: nat, big: Code, b: nat)
    requires n > 0 && c != [] && At(big, b, HeadFailOptionals(c, n)) && b + |HeadFailOptionals(c, n)| == |big|
    ensures b + |c| <= |big| && big[b] == Check2Test(c[0], |big| - b) && At(big, b + 1, c[1..])
    ensures At(big, b + |c|, HeadFailOptionals(c, n - 1)) && b + |c| + |HeadFailOptionals(c, n - 1)| == |big|
  {
    var all := HeadFailOptionals(c, n);
    HeadFailOptionalsLength(c, n);
    SubAt(big, b, all, 1, |c|);
    assert big[b] == big[b..][0] == all[0] == Check2Test(c[0], n * |c|);
    assert big[b + 1..b + |c|] == all[1..|c|] == c[1..];
    assert big[b + |c|..] == all[|c|..] == HeadFailOptionals(c, n - 1);
  }

  lemma NoOptional(c: Code)
    requires c != []
    ensures HeadFailOptionals(c, 0) == []
  {
  }

  lemma {:induction false} HeadFailOptionalsRun(c: Code, p: Pat, n: nat, big: Code, b: nat, env: Env, s: int,
                                                caps: seq<Capture>)
    requires c != [] && HeadBody(c[0], c[1..], p) && NoFail(c[1..]) && EnvOk(env) && 0 <= s <= |env.subj|
    requires At(big, b, HeadFailOptionals(c, n)) && b + |HeadFailOptionals(c, n)| == |big|
    ensures Reaches(env, big, Run(b, s, [], caps), Outcomes(PegOpt(env, p, n, s, caps), |big|, []))
    decreases n
  {
    hide Step, Steps, Reaches, HeadBody, HeadFailOptionals, Peg, NoFail;
    var r1, d := Peg(env, p, s, caps), Outcomes(PegOpt(env, p, n, s, caps), |big|, []);
    if n == 0 {
      NoOptional(c);
      ReachesSelf(env, big, d);
    } else {
      FirstOptional(c, n, big, b);
      UseHead(c[0], c[1..], p, big, b, env, s, [], caps);
      if Passes(env, c[0], s) {
        NoFailGot(c[0], c[1..], p, env, s, caps);
        HeadFailOptionalsRun(c, p, n - 1, big, b + |c|, env, r1.s, r1.caps);
        ReachesTrans(env, big, Run(b, s, [], caps), Run(b + |c|, r1.s, [], r1.caps), d);
      }
    }
  }

  lemma HeadFailOptionalsImplements(c: Code, p: Pat, n: Pos)
    requires WF(c) && Implements(c, p) && IsHeadFail(c)
    ensures Implements(HeadFailOptionals(c, n), Opt(p, n))
  {
    HeadSplit(c, p);
    var l := HeadFailOptionals(c, n);
    forall env, s, caps {:trigger Peg(env, Opt(p, n), s, caps)} | EnvOk(env) && 0 <= s <= |env.subj|
      ensures Reaches(env, l, Run(0, s, [], caps), Outcomes(Peg(env, Opt(p, n), s, caps), |l|, []))
    {
      HeadFailOptionalsRun(c, p, n, l, 0, env, s, caps);
    }
  }
}

// Building flattened ordered choices, one alternative at a time.

module LpegSeparate {
  import opened LpegCode
  import opened LpegPeg
  import opened LpegMachine
  import opened LpegBuild
  import opened LpegTyping
  import opened LpegMeaning
  import opened LpegHeads
  import opened LpegLoops
  import opened LpegSolid
  import opened LpegUnion

  // ----- restoring a choice ----------------------------------------------------------

  // The restored alternative, before its commit is directed past the rest.
  function Restored(first: Code): Code
    requires |first| >= 2
  {
    [first[0].(offset := first[0].offset + 1), SetAux(IChoice, |first|, 1)] + first[1..|first| - 1] + [Set(ICommit, 1)]
  }

  lemma RestoreIsKeep(first: Code, rest: Code)
    requires |first| >= 2
    ensures RestoreChoice(first, rest) == KeepFirst(Restored(first), rest)
  {
  }

  lemma RestoredParts(first: Code, head: Code, pf: Pat, d: int)
    requires Tested(first, head, pf, d)
    ensures |first| >= 2
    ensures var r, l := Restored(first), |head|;
            && |r| == l + 2 && r[0] == Check2Test(head[0], l + 2) && r[1] == SetAux(IChoice, l + 1, 1)
            && At(r, 2, head[1..]) && r[l + 1] == Set(ICommit, 1)
            && Alone(r) == r[l + 1 := Set(ICommit, 2)] && At(Alone(r), 2, head[1..])
  {
    var r, l := Restored(first), |head|;
    assert first[1..1 + (l - 1)] == head[1..];
    assert r[2..2 + (l - 1)] == head[1..];
    assert Alone(r)[2..2 + (l - 1)] == head[1..];
  }

  lemma RestoredSolid(first: Code, head: Code, pf: Pat, d: nat)
    requires Tested(first, head, pf, d)
    ensures FirstSolid(Restored(first), d + 1)
  {
    hide Restored, Fine, WFAt, TypedAt, At, HeadBody;
    RestoredParts(first, head, pf, d);
    var r, t := Restored(first), InChoice(Base);
    var th :| TypedBy(head, th, d);
    var ty := [Base, Base] + Wrap(th[1..], t) + [Base];
    CarriesWrap([Base, Base], th[1..], t, [Base]);
    RestoredTy(first, head, pf, d, th);
    TailFine(head, th, d, r, ty, 1, t, d + 1);
    assert FirstFine(r, ty, d + 1);
  }

  // The two instructions in front of a restored body, and what surrounds it.
  lemma RestoredTy(first: Code, head: Code, pf: Pat, d: nat, th: seq<Ctx>)
    requires Tested(first, head, pf, d) && TypedBy(head, th, d)
    ensures var r, l, t := Restored(first), |head|, InChoice(Base);
            var ty := [Base, Base] + Wrap(th[1..], t) + [Base];
            && |ty| == l + 3 && ty[0] == Base && ty[2] == t && ty[l + 1] == t && ty[l + 2] == Base
            && Fine(r, ty, d + 1, 0) && Fine(r, ty, d + 1, 1)
  {
    RestoredParts(first, head, pf, d);
    var r, l, t := Restored(first), |head|, InChoice(Base);
    var ty := [Base, Base] + Wrap(th[1..], t) + [Base];
    SecondTy(head, th, d);
    CheckOk(head);
    assert ty[2] == Wrap(th[1..], t)[0] == Within(th[1], t) == t;
    assert ty[l + 1] == Wrap(th[1..], t)[l - 1] == Within(th[l], t) == t;
  }

  // A restored alternative run where its test succeeds: after a failure the next
  // alternative starts `StepLen(i) - 1` bytes too far.
  lemma PastTest(r: Code, i: Instr, body: Code, pf: Pat, env: Env, s: int, caps: seq<Capture>)
    requires HeadBody(i, body, pf) && EnvOk(env) && 0 <= s <= |env.subj| && Passes(env, i, s)
    requires |r| == |body| + 3 && r[0] == Check2Test(i, |r|) && r[1] == SetAux(IChoice, |r| - 1, 1)
    requires At(r, 2, body) && r[|r| - 1] == Set(ICommit, 2)
    ensures match Peg(env, pf, s, caps)
            case Got(s', caps') => Reaches(env, r, Run(0, s, [], caps), Run(|r| + 1, s', [], caps'))
            case Nope => Reaches(env, r, Run(0, s, [], caps), Run(|r|, s + StepLen(i) - 1, [], caps))
  {
    hide Step, Steps, Peg, Reaches;
    var l, rf, n := |r|, Peg(env, pf, s, caps), StepLen(i);
    var fr := Frame(l, s + n - 1, caps);
    assert [] + [fr] == [fr];
    StepFlow(env, r, 0, s, [], caps);
    var d := if rf.Got? then Run(l + 1, rf.s, [], rf.caps) else Run(l, s + n - 1, [], caps);
    BodyAt(i, body, pf, r, 2, env, s, [fr], caps);
    StepFail(env, r, [], fr);
    if rf.Got? { StepCommit(env, r, l - 1, rf.s, [], fr, rf.caps); }
    ReachesSelf(env, r, d);
    ReachesStep(env, r, Outcomes(rf, l - 1, [fr]), d);
    ReachesTrans(env, r, Run(2, s + n, [fr], caps), Outcomes(rf, l - 1, [fr]), d);
    StepChoice(env, r, 1, s + n, [], caps);
    ReachesStep(env, r, Run(1, s + n, [], caps), d);
    ReachesStep(env, r, Run(0, s, [], caps), d);
  }

  lemma BeforeTest(r: Code, i: Instr, body: Code, pf: Pat, env: Env, s: int, caps: seq<Capture>)
    requires HeadBody(i, body, pf) && EnvOk(env) && 0 <= s <= |env.subj| && !Passes(env, i, s)
    requires r != [] && r[0] == Check2Test(i, |r|)
    ensures Peg(env, pf, s, caps).Nope? && Reaches(env, r, Run(0, s, [], caps), Run(|r|, s, [], caps))
  {
    hide Step, Steps, Peg, Reaches;
    StepFlow(env, r, 0, s, [], caps);
    HeadNope(i, body, pf, env, s, caps);
    ReachesSelf(env, r, Run(|r|, s, [], caps));
    ReachesStep(env, r, Run(0, s, [], caps), Run(|r|, s, [], caps));
  }

  lemma HeadNope(i: Instr, body: Code, p: Pat, env: Env, s: int, caps: seq<Capture>)
    requires HeadBody(i, body, p) && EnvOk(env) && 0 <= s <= |env.subj| && !Passes(env, i, s)
    ensures Peg(env, p, s, caps).Nope?
  {
  }

  // The body alone at position `b`, once its check has passed.
  lemma BodyAt(i: Instr, body: Code, p: Pat, big: Code, b: int, env: Env, s: int, k: seq<Frame>, caps: seq<Capture>)
    requires HeadBody(i, body, p) && EnvOk(env) && 0 <= s <= |env.subj| && Passes(env, i, s) && At(big, b, body)
    ensures Reaches(env, big, Run(b, s + StepLen(i), k, caps), Outcomes(Peg(env, p, s, caps), b + |body|, k))
  {
    var r := Peg(env, p, s, caps);
    EmbedReaches(env, body, big, b, k, Run(0, s + StepLen(i), [], caps), Outcomes(r, |body|, []));
    LiftEmpty(body, b, b + |body| + 1, k, r);
  }

  lemma RestoredExits(first: Code, head: Code, pf: Pat, d: int, pr: Pat)
    requires Tested(first, head, pf, d) && StepLen(first[0]) == 1
    ensures |first| >= 2 && Exits(Restored(first), pf, pr)
  {
    hide Restored, ExitsAt, Reaches, Peg, Passes, Solid, HeadBody;
    RestoredParts(first, head, pf, d);
    var r := Restored(first);
    forall env, s, caps | EnvOk(env) && 0 <= s <= |env.subj|
      ensures ExitsAt(r, pf, pr, env, s, caps)
    {
      RestoredExitsAt(r, head[0], head[1..], pf, pr, env, s, caps);
    }
  }

  lemma RestoredExitsAt(r: Code, i: Instr, body: Code, pf: Pat, pr: Pat, env: Env, s: int, caps: seq<Capture>)
    requires HeadBody(i, body, pf) && StepLen(i) == 1 && EnvOk(env) && 0 <= s <= |env.subj|
    requires |r| == |body| + 3 && r[0] == Check2Test(i, |r|) && r[1] == SetAux(IChoice, |r| - 1, 1)
    requires Alone(r) == r[|r| - 1 := Set(ICommit, 2)] && At(Alone(r), 2, body)
    ensures ExitsAt(r, pf, pr, env, s, caps)
  {
    hide Alone, Reaches, Peg, Passes, HeadBody;
    if Passes(env, i, s) {
      PastTest(Alone(r), i, body, pf, env, s, caps);
    } else {
      BeforeTest(Alone(r), i, body, pf, env, s, caps);
    }
  }

  // ----- the certificates of a basic union ------------------------------------------------

  // The first alternative of solid code, when nothing in it jumps past its end.
  lemma FirstFromWhole(c: Code, sp: nat, d: int)
    requires Solid(c, d) && 2 <= sp <= |c| && IsJmp(c[0]) && Dest(c, 0) == sp && !c[0].op.ICommit?
             && !c[0].op.IPartialCommit? && !c[0].op.IBackCommit?
    requires (c[sp - 1].op.ICommit? || c[sp - 1].op.IJmp?) && Dest(c, sp - 1) == |c|
    requires forall j :: 0 <= j < sp - 1 && IsJmp(c[j]) ==> Dest(c, j) <= sp
    ensures FirstSolid(c[..sp], d)
  {
    var ty :| TypedBy(c, ty, d);
    var first, tf := c[..sp], ty[..sp + 1];
    assert TypedAt(c, ty, 0) && TypedAt(c, ty, sp - 1);
    if c[sp - 1].op.ICommit? { assert ty[sp - 1] == InChoice(Base); }
    forall j | 0 <= j < sp - 1 ensures Fine(first, tf, d, j) { FineFromWhole(c, ty, d, sp, j); }
    assert FirstFine(first, tf, d);
  }

  lemma FineFromWhole(c: Code, ty: seq<Ctx>, d: int, sp: nat, j: nat)
    requires WF(c) && TypedBy(c, ty, d) && j < sp - 1 && sp <= |c| && ty[sp] == Base
    requires IsJmp(c[j]) ==> Dest(c, j) <= sp
    ensures Fine(c[..sp], ty[..sp + 1], d, j)
  {
    assert WFAt(c, j) && TypedAt(c, ty, j);
  }

  lemma ChoiceUnionInside(c1: Code, c2: Code, j: nat)
    requires WF(c1) && j <= |c1| && IsJmp(ChoiceUnion(c1, c2)[j])
    ensures 0 < Dest(ChoiceUnion(c1, c2), j) <= |c1| + 2
    ensures c1 != [] && IsCheck(c1[0]) ==> 1 < Dest(ChoiceUnion(c1, c2), j)
  {
    var c := ChoiceUnion(c1, c2);
    if j > 0 {
      assert c[j] == c1[j - 1] && WFAt(c1, j - 1);
      if c1 != [] && IsCheck(c1[0]) { NoJumpToHead(c1, j - 1); }
    }
  }

  lemma ChoiceAloneParts(c1: Code, c2: Code)
    requires WF(c1)
    ensures var f, sp := Alone(ChoiceUnion(c1, c2)[..|c1| + 2]), |c1| + 2;
            && |f| == sp && f[0] == Set(IChoice, sp) && At(f, 1, c1) && f[sp - 1] == Set(ICommit, 2)
            && (IsCheck(f[1]) ==> NoJumpTo(f, 1))
  {
    var c, sp := ChoiceUnion(c1, c2), |c1| + 2;
    ChoiceUnionParts(c1, c2);
    var f := Alone(c[..sp]);
    forall j | 0 <= j < |f| && IsJmp(f[j]) && IsCheck(f[1]) ensures 1 < Dest(f, j) {
      if j < sp - 1 { assert f[j] == c[j]; ChoiceUnionInside(c1, c2, j); }
    }
  }

  // A choice alone, also when it is entered behind its check.
  lemma ChoiceAloneRun(f: Code, c1: Code, p1: Pat, env: Env, s: int, caps: seq<Capture>, d: State)
    requires WF(c1) && Implements(c1, p1) && EnvOk(env) && 0 <= s <= |env.subj|
    requires |f| == |c1| + 2 && f[0] == Set(IChoice, |f|) && At(f, 1, c1) && f[|f| - 1] == Set(ICommit, 2)
    requires IsCheck(f[1]) ==> NoJumpTo(f, 1)
    requires d == match Peg(env, p1, s, caps) case Got(s', caps') => Run(|f| + 1, s', [], caps') case Nope => Run(|f|,
               s, [], caps)
    ensures Reaches(env, OptimizeChoice(f), Run(0, s, [], caps), d)
  {
    hide OptimizeChoice, Reaches, Peg, Implements;
    FirstAlternativeRun(f, c1, p1, env, s, caps);
    if IsCheck(f[1]) { OptimizeChoiceRun(f, env, s, caps, d); } else { OptimizeChoiceNot(f); }
  }

  lemma ChoiceExits(first: Code, f: Code, c1: Code, p1: Pat, p2: Pat)
    requires WF(c1) && Implements(c1, p1) && |first| == |f| && first != []
    requires |f| == |c1| + 2 && f[0] == Set(IChoice, |f|) && At(f, 1, c1) && f[|f| - 1] == Set(ICommit, 2)
    requires (IsCheck(f[1]) ==> NoJumpTo(f, 1)) && Alone(first) == OptimizeChoice(f)
    ensures Exits(first, p1, p2)
  {
    hide OptimizeChoice, Alone, Implements, Peg, Reaches, At, NoJumpTo, WF;
    forall env, s, caps | EnvOk(env) && 0 <= s <= |env.subj|
      ensures ExitsAt(first, p1, p2, env, s, caps)
    {
      var r := Peg(env, p1, s, caps);
      ChoiceAloneRun(f, c1, p1, env, s, caps, if r.Got? then Run(|f| + 1, r.s, [], r.caps) else Run(|f|, s, [], caps));
    }
  }

  lemma ChoiceUnionExits(c1: Code, p1: Pat, c2: Code, p2: Pat)
    requires WF(c1) && Implements(c1, p1)
    ensures var c := OptimizeChoice(ChoiceUnion(c1, c2));
            |c| >= |c1| + 2 && Exits(c[..|c1| + 2], p1, p2)
  {
    var c0, sp := ChoiceUnion(c1, c2), |c1| + 2;
    ChoiceUnionParts(c1, c2);
    AloneOptimized(c0, sp);
    ChoiceAloneParts(c1, c2);
    ChoiceExits(OptimizeChoice(c0)[..sp], Alone(c0[..sp]), c1, p1, p2);
  }

  lemma OptimizeChoiceNot(c: Code)
    requires c != [] && c[0].op.IChoice? && (|c| > 1 ==> !IsCheck(c[1]))
    ensures OptimizeChoice(c) == c
  {
  }

  lemma AloneOptimized(c: Code, sp: nat)
    requires 2 <= sp <= |c| && c[0].op.IChoice? && c[sp - 1].op.ICommit?
    ensures |OptimizeChoice(c)| == |c|
    ensures Alone(OptimizeChoice(c)[..sp]) == OptimizeChoice(Alone(c[..sp]))
  {
    var a := Alone(c[..sp]);
    assert |a| == sp && a[0] == c[0] && (sp > 2 ==> a[1] == c[1]) && (forall j :: 0 <= j < sp - 1 ==> a[j] == c[j]);
    if IsCheck(c[1]) {
      assert !IsCheck(c[sp - 1]) && sp > 2;
      var l, r := Alone(OptimizeChoice(c)[..sp]), OptimizeChoice(a);
      assert |l| == sp && |r| == sp;
      forall j | 0 <= j < sp ensures l[j] == r[j] {
        if j >= 2 { assert r[j] == a[2..][j - 2] == a[j] && OptimizeChoice(c)[j] == c[2..][j - 2] == c[j]; }
      }
      assert l == r;
    } else {
      OptimizeChoiceNot(c);
      OptimizeChoiceNot(a);
    }
  }

  // ----- basic unions -----------------------------------------------------------------

  lemma OrSame(p: Pat, q: Pat)
    ensures SameMeaning(Or(p, q), Or(p, q))
  {
  }

  lemma SetUnionGood(c1: Code, p1: Pat, c2: Code, p2: Pat, d: nat)
    requires WF(c1) && WF(c2) && Implements(c1, p1) && Implements(c2, p2)
    requires ToCharset(c1).IsCharset? && ToCharset(c2).IsCharset?
    ensures Good([SetInstr(ToCharset(c1).cs + ToCharset(c2).cs)], Or(p1, p2), d)
  {
    var cs := ToCharset(c1).cs + ToCharset(c2).cs;
    SetSolid(cs, d);
    forall env, s, caps {:trigger Peg(env, Or(p1, p2), s, caps)} | EnvOk(env) && 0 <= s <= |env.subj|
      ensures Peg(env, Or(p1, p2), s, caps) == SetMatch(env.subj, s, cs, caps)
    {
      CharsetMeaning(c1, p1, env, s, caps);
      CharsetMeaning(c2, p2, env, s, caps);
      PegOr(env, p1, p2, s, caps);
    }
    SetImplements(cs, Or(p1, p2));
  }

  lemma ChoiceUnionGood(c1: Code, p1: Pat, c2: Code, p2: Pat, d: Pos)
    requires Solid(c1, d - 1) && Implements(c1, p1) && Good(c2, p2, d)
    ensures Good(OptimizeChoice(ChoiceUnion(c1, c2)), Or(p1, p2), d)
  {
    var c0, sp := ChoiceUnion(c1, c2), |c1| + 2;
    var c := OptimizeChoice(c0);
    ChoiceUnionParts(c1, c2);
    ChoiceUnionImplements(c1, p1, c2, p2);
    ChoiceUnionSolid(c1, c2, d);
    if IsCheck(c0[1]) { NoJumpToBracket(c0, c1, c2); SameSuffix(c0); } else { OptimizeChoiceNot(c0); }
    OptimizeChoiceImplements(c0, Or(p1, p2));
    OptimizeChoiceSolid(c0, d);
    ChoiceUnionExits(c1, p1, c2, p2);
    assert c[2..] == c0[2..] && c[sp..] == c[2..][sp - 2..] == c0[2..][sp - 2..] == c0[sp..] == c2;
    ChoiceUnionFirst(c1, c2, d);
    OrSame(p1, p2);
    var sl := Split(p1, p2, []);
    assert FirstBy(c[..sp], sl, d);
    assert SplitBy(c, Or(p1, p2), d, sp, sl);
    assert FirstPart(c) == sp;
  }

  lemma ChoiceUnionFirst(c1: Code, c2: Code, d: int)
    requires WF(c1) && Solid(OptimizeChoice(ChoiceUnion(c1, c2)), d)
    ensures var c, sp := OptimizeChoice(ChoiceUnion(c1, c2)), |c1| + 2;
            && |c| == sp + |c2| && FirstSolid(c[..sp], d) && c[sp - 1].op.ICommit? && FirstPart(c) == sp
  {
    var c0, sp := ChoiceUnion(c1, c2), |c1| + 2;
    var c := OptimizeChoice(c0);
    ChoiceUnionParts(c1, c2);
    if IsCheck(c0[1]) { SameSuffix(c0); } else { OptimizeChoiceNot(c0); }
    forall j | 2 <= j < |c| ensures c[j] == c0[j] { assert c[2..][j - 2] == c0[2..][j - 2]; }
    forall j | 0 <= j < sp - 1 && IsJmp(c[j]) ensures Dest(c, j) <= sp {
      if j >= 2 || !IsCheck(c0[1]) { ChoiceUnionInside(c1, c2, j); }
    }
    FirstFromWhole(c, sp, d);
  }

  lemma TestUnionInside(c1: Code, c2: Code, j: nat)
    requires WF(c1) && c1 != [] && IsCheck(c1[0]) && j < |c1| && IsJmp(TestUnion(c1, c2)[j])
    ensures 0 < Dest(TestUnion(c1, c2), j) <= |c1| + 1
  {
    var c := TestUnion(c1, c2);
    if j > 0 {
      assert c[j] == c1[j];
      NoJumpToHead(c1, j);
    }
  }

  lemma TestAloneRun(f: Code, i: Instr, body: Code, pf: Pat, env: Env, s: int, caps: seq<Capture>)
    requires HeadBody(i, body, pf) && NoFail(body) && EnvOk(env) && 0 <= s <= |env.subj|
    requires |f| == |body| + 2 && f[0] == Check2Test(i, |f|) && At(f, 1, body) && f[|f| - 1].op.IJmp?
             && f[|f| - 1].offset == 2
    ensures Reaches(env, f, Run(0, s, [], caps), match Peg(env, pf, s, caps)
                    case Got(s', caps') => Run(|f| + 1, s', [], caps') case Nope => Run(|f|, s, [], caps))
  {
    hide Step, Steps, Peg, Reaches;
    var rf, l := Peg(env, pf, s, caps), |body| + 1;
    UseHead(i, body, pf, f, 0, env, s, [], caps);
    if Passes(env, i, s) {
      NoFailGot(i, body, pf, env, s, caps);
      var d := Run(l + 2, rf.s, [], rf.caps);
      StepFlow(env, f, l, rf.s, [], rf.caps);
      ReachesSelf(env, f, d);
      ReachesStep(env, f, Run(l, rf.s, [], rf.caps), d);
      ReachesTrans(env, f, Run(0, s, [], caps), Run(l, rf.s, [], rf.caps), d);
    }
  }

  lemma AloneJump(first: Code, body: Code)
    requires |first| == |body| + 2 && At(first, 1, body) && first[|first| - 1].op.IJmp?
    ensures var f := Alone(first);
            && |f| == |first| && At(f, 1, body) && f[0] == first[0] && f[|f| - 1].op.IJmp? && f[|f| - 1].offset == 2
  {
  }

  // The first alternative behind a test, when it cannot fail past the test.
  lemma TestUnionExits(first: Code, i: Instr, body: Code, pf: Pat, pr: Pat)
    requires HeadBody(i, body, pf) && NoFail(body)
    requires |first| == |body| + 2 && first[0] == Check2Test(i, |first|) && At(first, 1, body)
             && first[|first| - 1].op.IJmp?
    ensures Exits(first, pf, pr)
  {
    hide Alone, HeadBody, Peg, Reaches, At;
    var f := Alone(first);
    AloneJump(first, body);
    forall env, s, caps | EnvOk(env) && 0 <= s <= |env.subj|
      ensures ExitsAt(first, pf, pr, env, s, caps)
    {
      TestAloneRun(f, i, body, pf, env, s, caps);
    }
  }

  lemma TestUnionGood(c1: Code, p1: Pat, c2: Code, p2: Pat, d: nat)
    requires Solid(c1, d) && Implements(c1, p1) && Good(c2, p2, d)
    requires IsHeadFail(c1) || Exclusive(ToCharset(c1), ToCharset(c2))
    ensures Good(TestUnion(c1, c2), Or(p1, p2), d)
  {
    var c, sp := TestUnion(c1, c2), |c1| + 1;
    TestUnionParts(c1, c2);
    TestUnionImplements(c1, p1, c2, p2);
    TestUnionSolid(c1, c2, d);
    HeadSplit(c1, p1);
    forall j | 0 <= j < sp - 1 && IsJmp(c[j]) ensures Dest(c, j) <= sp { TestUnionInside(c1, c2, j); }
    FirstFromWhole(c, sp, d);
    assert c[sp..] == c2 && FirstPart(c) == sp;
    var first := c[..sp];
    assert At(first, 1, c1[1..]);
    assert Tested(first, c1, p1, d);
    OrSame(p1, p2);
    var sl := Split(p1, p2, c1);
    if NoFail(first) {
      forall j | 0 <= j < |c1[1..]| ensures IsNoFail(c1[1..][j]) { assert first[1..1 + |c1[1..]|][j] == first[j + 1]; }
      TestUnionExits(first, c1[0], c1[1..], p1, p2);
    }
    assert FirstBy(first, sl, d);
    assert SplitBy(c, Or(p1, p2), d, sp, sl);
  }

  lemma BasicUnionGood(c1: Code, p1: Pat, c2: Code, p2: Pat, d: Pos)
    requires Solid(c1, d - 1) && Implements(c1, p1) && Good(c2, p2, d)
    ensures Good(BasicUnion(c1, c2), Or(p1, p2), d)
  {
    hide Good, Implements, OptimizeChoice, ChoiceUnion, TestUnion;
    var (t1, t2) := (ToCharset(c1), ToCharset(c2));
    SolidMore(c1, d - 1, d);
    if t1.IsCharset? && t2.IsCharset? {
      assert Implements(c2, p2) && WF(c2) by { GoodBasics(c2, p2, d); }
      SetUnionGood(c1, p1, c2, p2, d);
    } else if Exclusive(t1, t2) || IsHeadFail(c1) {
      TestUnionGood(c1, p1, c2, p2, d);
    } else {
      ChoiceUnionGood(c1, p1, c2, p2, d);
    }
  }

  lemma GoodBasics(c: Code, p: Pat, d: int)
    requires Good(c, p, d)
    ensures Implements(c, p) && Solid(c, d) && WF(c)
  {
  }

  // ----- flattening -----------------------------------------------------------------------

  lemma OrAssoc(p: Pat, a: Pat, b: Pat, q: Pat)
    requires SameMeaning(p, Or(a, b))
    ensures SameMeaning(Or(p, q), Or(a, Or(b, q)))
  {
    forall env, s, caps {:trigger Peg(env, Or(p, q), s, caps)} | EnvOk(env) && 0 <= s <= |env.subj|
      ensures Peg(env, Or(p, q), s, caps) == Peg(env, Or(a, Or(b, q)), s, caps)
    {
      PegOr(env, p, q, s, caps);
      assert Peg(env, p, s, caps) == Peg(env, Or(a, b), s, caps);
      PegOr(env, a, b, s, caps);
      PegOr(env, a, Or(b, q), s, caps);
      PegOr(env, b, q, s, caps);
    }
  }

  lemma FirstPartOfKeep(first: Code, rest: Code)
    requires |first| >= 2 && (IsTest(first[0]) || first[0].op.IChoice?) && first[0].offset == |first|
    requires first[|first| - 1].op.ICommit? || (IsTest(first[0]) && first[|first| - 1].op.IJmp?)
    ensures FirstPart(KeepFirst(first, rest)) == |first|
            && KeepFirst(first, rest)[..|first| - 1] == first[..|first| - 1]
  {
    KeepFirstParts(first, rest);
  }

  function Redirected(first: Code, off: int): Code
    requires first != []
  {
    first[..|first| - 1] + [first[|first| - 1].(offset := off)]
  }

  lemma RedirectedParts(first: Code, off: int)
    requires first != []
    ensures var f, l := Redirected(first, off), |first|;
            && |f| == l && f[l - 1].op == first[l - 1].op && Alone(f) == Alone(first) && NoFail(f) == NoFail(first)
            && (forall j :: 0 <= j < l - 1 ==> f[j] == first[j])
            && (l >= 2 ==> f[1..l - 1] == first[1..l - 1])
  {
    var f, l := Redirected(first, off), |first|;
    assert forall j :: 0 <= j < l ==> IsNoFail(f[j]) == IsNoFail(first[j]);
  }

  lemma RedirectedSolid(first: Code, d: int, off: int)
    requires FirstSolid(first, d)
    ensures FirstSolid(Redirected(first, off), d)
  {
    hide Redirected, WFAt, TypedAt, Fine;
    var f, l := Redirected(first, off), |first|;
    var ty :| FirstFine(first, ty, d);
    RedirectedParts(first, off);
    assert l >= 2 && f[0] == first[0];
    forall j | 0 <= j < l - 1 ensures Fine(f, ty, d, j) {
      assert Fine(first, ty, d, j);
      FineInPrefix(first, ty, f, ty, d, j);
    }
    assert FirstOk(f);
    assert FirstFine(f, ty, d);
  }

  // What a first alternative satisfies does not depend on where its closing jump goes.
  lemma FirstByRedirected(first: Code, sl: Split, d: int, off: int)
    requires FirstBy(first, sl, d)
    ensures FirstBy(Redirected(first, off), sl, d)
  {
    var f, l := Redirected(first, off), |first|;
    RedirectedSolid(first, d, off);
    RedirectedParts(first, off);
    hide Redirected, Alone, FirstSolid, NoFail, HeadBody, Solid;
    if f[l - 1].op.ICommit? || NoFail(f) {
      forall env, s, caps | EnvOk(env) && 0 <= s <= |env.subj|
        ensures ExitsAt(f, sl.first, sl.rest, env, s, caps)
      {
        assert ExitsAt(first, sl.first, sl.rest, env, s, caps);
      }
    } else {
      assert l >= 2 && first[1..1 + (l - 2)] == first[1..l - 1];
    }
  }

  lemma ExitsWithRest(first: Code, pf: Pat, pr: Pat, q: Pat)
    requires first != [] && Exits(first, pf, pr)
    ensures Exits(first, pf, Or(pr, q))
  {
    if Trivial(pr) { TrivialOr(pr, q); }
    forall env, s, caps | EnvOk(env) && 0 <= s <= |env.subj|
      ensures ExitsAt(first, pf, Or(pr, q), env, s, caps)
    {
      assert ExitsAt(first, pf, pr, env, s, caps);
    }
  }

  // Keeping the first alternative, with the new pattern joined to the rest.
  lemma KeepGood(c1: Code, p1: Pat, sp: nat, sl: Split, rest: Code, c2: Code, p2: Pat, d: Pos)
    requires Good(c1, p1, d) && FirstPart(c1) == sp != 0 && SplitBy(c1, p1, d, sp, sl)
    requires Good(rest, Or(sl.rest, p2), d) && WF(c2) && Implements(c2, p2)
    requires c1[sp - 1].op.ICommit? || !Interfere(c1[..sp], ToCharset(c2))
    ensures Good(KeepFirst(c1[..sp], rest), Or(p1, p2), d)
  {
    hide Solid, Implements, SameMeaning, Exits, HeadBody;
    var first, q := c1[..sp], Or(sl.rest, p2);
    var c := KeepFirst(first, rest);
    GoodBasics(rest, q, d);
    KeepFirstSolid(first, rest, d);
    if first[sp - 1].op.ICommit? || NoFail(first) {
      if Trivial(sl.rest) { TrivialOr(sl.rest, p2); }
      KeepExitsImplements(first, sl.first, sl.rest, rest, q, d);
      ExitsWithRest(first, sl.first, sl.rest, p2);
    } else {
      SettledRest(c1, p1, d, sp, sl);
      SettledSecond(first, sl.head, sl.first, d, c2, p2);
      SettlesOr(sl.head[0], sl.first, sl.rest, p2);
      KeepTestedImplements(first, sl.head, sl.first, d, rest, q);
    }
    var sl' := Split(sl.first, q, sl.head);
    assert FirstBy(first, sl', d);
    KeepGoodSplit(first, sl', rest, Or(p1, p2), d, p1, sl, p2);
  }

  lemma KeepGoodSplit(first: Code, sl: Split, rest: Code, p: Pat, d: Pos, p1: Pat, sl1: Split, p2: Pat)
    requires |first| >= 2 && (IsTest(first[0]) || first[0].op.IChoice?) && first[0].offset == |first|
    requires first[|first| - 1].op.ICommit? || (IsTest(first[0]) && first[|first| - 1].op.IJmp?)
    requires FirstBy(first, sl, d) && Good(rest, sl.rest, d)
    requires Solid(KeepFirst(first, rest), d) && Implements(KeepFirst(first, rest), Or(sl.first, sl.rest))
    requires sl.rest == Or(sl1.rest, p2) && sl.first == sl1.first && p == Or(p1, p2)
             && SameMeaning(p1, Or(sl1.first, sl1.rest))
    ensures Good(KeepFirst(first, rest), p, d)
  {
    var c := KeepFirst(first, rest);
    OrAssoc(p1, sl1.first, sl1.rest, p2);
    ImplementsSame(c, Or(sl.first, sl.rest), p);
    FirstPartOfKeep(first, rest);
    KeepFirstParts(first, rest);
    FirstByRedirected(first, sl, d, 1 + |rest|);
    assert c[..|first|] == Redirected(first, 1 + |rest|);
    assert SplitBy(c, p, d, |first|, sl);
  }

  lemma RestoreGood(c1: Code, p1: Pat, sp: nat, sl: Split, rest: Code, p2: Pat, d: Pos)
    requires FirstPart(c1) == sp != 0 && SplitBy(c1, p1, d - 1, sp, sl)
    requires Good(rest, Or(sl.rest, p2), d)
    requires !c1[sp - 1].op.ICommit? && !NoFail(c1[..sp]) && StepLen(c1[0]) == 1
    ensures sp >= 2 && Good(RestoreChoice(c1[..sp], rest), Or(p1, p2), d)
  {
    hide Restored, RestoreChoice;
    var first, q := c1[..sp], Or(sl.rest, p2);
    var f := Restored(first);
    GoodBasics(rest, q, d);
    RestoredSolid(first, sl.head, sl.first, d - 1);
    RestoredExits(first, sl.head, sl.first, d - 1, sl.rest);
    RestoredExits(first, sl.head, sl.first, d - 1, q);
    RestoredParts(first, sl.head, sl.first, d - 1);
    RestoreIsKeep(first, rest);
    KeepFirstSolid(f, rest, d);
    if Trivial(sl.rest) { TrivialOr(sl.rest, p2); }
    KeepExitsImplements(f, sl.first, sl.rest, rest, q, d);
    var sl' := Split(sl.first, q, []);
    assert FirstBy(f, sl', d);
    KeepGoodSplit(f, sl', rest, Or(p1, p2), d, p1, sl, p2);
  }

  lemma GoodRest(c: Code, pat: Pat, d: int) returns (sl: Split)
    requires Good(c, pat, d) && FirstPart(c) != 0
    ensures SplitBy(c, pat, d, FirstPart(c), sl) && Good(c[FirstPart(c)..], sl.rest, d)
  {
    sl :| SplitBy(c, pat, d, FirstPart(c), sl);
  }

  // Flattening keeps the meaning of ordered choice whenever every restored choice
  // stands behind a one-byte test.
  lemma {:induction false} SeparateGood(c1: Code, p1: Pat, c2: Code, p2: Pat, d: Pos)
    requires Good(c1, p1, d - 1) && Good(c2, p2, d) && RestoresOneByte(c1, c2)
    ensures Good(Separate(c1, c2), Or(p1, p2), d)
    decreases |c1|
  {
    hide Good, SplitBy, Implements, Solid, BasicUnion, KeepFirst, RestoreChoice, FirstPart, WF, Typed;
    var sp := FirstPart(c1);
    GoodBasics(c1, p1, d - 1);
    GoodBasics(c2, p2, d);
    if sp == 0 {
      BasicUnionGood(c1, p1, c2, p2, d);
    } else {
      var sl := GoodRest(c1, p1, d - 1);
      var first, rest := c1[..sp], Separate(c1[sp..], c2);
      SeparateGood(c1[sp..], sl.rest, c2, p2, d);
      if c1[sp - 1].op.ICommit? || !Interfere(first, ToCharset(c2)) {
        GoodMore(c1, p1, d - 1, d);
        SplitMore(c1, p1, sp, sl, d - 1, d);
        KeepGood(c1, p1, sp, sl, rest, c2, p2, d);
      } else {
        RestoreGood(c1, p1, sp, sl, rest, p2, d);
      }
    }
  }

  lemma SplitMore(c: Code, p: Pat, sp: nat, sl: Split, d: int, d': int)
    requires 0 < sp <= |c| && SplitBy(c, p, d, sp, sl) && d <= d'
    ensures SplitBy(c, p, d', sp, sl)
  {
    GoodMore(c[sp..], sl.rest, d, d');
    FirstByMore(c[..sp], sl, d, d');
  }
}

// What it means for code to implement a pattern, and the builders that simply
// put implementations together.

module LpegMeaning {
  import opened LpegCode
  import opened LpegPeg
  import opened LpegMachine
  import opened LpegBuild

  function Outcomes(r: Res, pc: int, k: seq<Frame>): State {
    match r
    case Nope => Fail(k)
    case Got(s, caps) => Run(pc, s, k, caps)
  }

  // Run alone from its first instruction, `c` leaves through its end exactly where
  // and with exactly the captures that `p` gives, and fails exactly when `p` fails.
  ghost predicate Implements(c: Code, p: Pat) {
    forall env, s, caps {:trigger Peg(env, p, s, caps)} ::
      EnvOk(env) && 0 <= s <= |env.subj| ==>
        Reaches(env, c, Run(0, s, [], caps), Outcomes(Peg(env, p, s, caps), |c|, []))
  }

  ghost predicate SameMeaning(p: Pat, q: Pat) {
    forall env, s, caps {:trigger Peg(env, p, s, caps)} ::
      EnvOk(env) && 0 <= s <= |env.subj| ==> Peg(env, p, s, caps) == Peg(env, q, s, caps)
  }

  lemma LiftEmpty(f: Code, b: int, x: int, base: seq<Frame>, r: Res)
    ensures Lift(f, b, x, base, Outcomes(r, |f|, [])) == Outcomes(r, b + |f|, base)
  {
  }

  // A fragment behaves in any code that contains it as it does alone.
  lemma EmbedReaches(env: Env, f: Code, big: Code, b: int, base: seq<Frame>, st: State, st': State)
    requires At(big, b, f) && Reaches(env, f, st, st') && Halted(f, st')
    ensures Reaches(env, big, Lift(f, b, b + |f| + 1, base, st), Lift(f, b, b + |f| + 1, base, st'))
  {
    var n: nat :| Steps(env, f, st, n) == st';
    AtIsAtX(big, b, f);
    Embed(env, f, big, b, b + |f| + 1, base, st, n);
  }

  lemma EmbedReachesX(env: Env, f: Code, big: Code, b: int, x: int, base: seq<Frame>, st: State, st': State)
    requires AtX(big, b, f, x) && Reaches(env, f, st, st') && Halted(f, st')
    ensures Reaches(env, big, Lift(f, b, x, base, st), Lift(f, b, x, base, st'))
  {
    var n: nat :| Steps(env, f, st, n) == st';
    Embed(env, f, big, b, x, base, st, n);
  }

  lemma UseAt(c: Code, p: Pat, big: Code, b: int, env: Env, s: int, k: seq<Frame>, caps: seq<Capture>)
    requires Implements(c, p) && At(big, b, c) && EnvOk(env) && 0 <= s <= |env.subj|
    ensures Reaches(env, big, Run(b, s, k, caps), Outcomes(Peg(env, p, s, caps), b + |c|, k))
  {
    var r := Peg(env, p, s, caps);
    EmbedReaches(env, c, big, b, k, Run(0, s, [], caps), Outcomes(r, |c|, []));
    LiftEmpty(c, b, b + |c| + 1, k, r);
  }

  lemma ImplementsSame(c: Code, p: Pat, q: Pat)
    requires Implements(c, p) && SameMeaning(q, p)
    ensures Implements(c, q)
  {
    forall env, s, caps {:trigger Peg(env, q, s, caps)} | EnvOk(env) && 0 <= s <= |env.subj|
      ensures Reaches(env, c, Run(0, s, [], caps), Outcomes(Peg(env, q, s, caps), |c|, []))
    {
      assert Peg(env, q, s, caps) == Peg(env, p, s, caps);
    }
  }

  // ----- leaves --------------------------------------------------------------

  lemma {:induction false} LitRun(env: Env, bytes: seq<Byte>, j: nat, s: int, caps: seq<Capture>)
    requires j <= |bytes| && EnvOk(env) && 0 <= s <= |env.subj|
    ensures Reaches(env, LitCode(bytes), Run(j, s, [], caps),
                    Outcomes(Peg(env, Lit(bytes[j..]), s, caps), |bytes|, []))
    decreases |bytes| - j
  {
    var c := LitCode(bytes);
    var st := Run(j, s, [], caps);
    if j == |bytes| {
      ReachesSelf(env, c, st);
    } else {
      var tail := bytes[j..];
      assert c[j] == SetAux(IChar, 0, bytes[j]);
      hide Step, Steps, Reaches, LitCode;
      StepFlow(env, c, j, s, [], caps);
      if s < |env.subj| && env.subj[s] == bytes[j] {
        LitRun(env, bytes, j + 1, s + 1, caps);
        assert bytes[j + 1..] == tail[1..];
        if s + |tail| <= |env.subj| {
          assert env.subj[s..s + |tail|] == [env.subj[s]] + env.subj[s + 1..s + |tail|];
          assert tail == [tail[0]] + tail[1..];
        }
        ReachesStep(env, c, st, Outcomes(Peg(env, Lit(tail), s, caps), |bytes|, []));
      } else {
        assert Peg(env, Lit(tail), s, caps).Nope? by {
          if s + |tail| <= |env.subj| { assert env.subj[s..s + |tail|][0] == env.subj[s]; }
        }
        ReachesSelf(env, c, Fail([]));
        ReachesStep(env, c, st, Fail([]));
      }
    }
  }

  lemma LitImplements(bytes: seq<Byte>)
    ensures Implements(LitCode(bytes), Lit(bytes))
  {
    forall env, s, caps {:trigger Peg(env, Lit(bytes), s, caps)} | EnvOk(env) && 0 <= s <= |env.subj|
      ensures Reaches(env, LitCode(bytes), Run(0, s, [], caps), Outcomes(Peg(env, Lit(bytes), s, caps), |bytes|, []))
    {
      LitRun(env, bytes, 0, s, caps);
      assert bytes[0..] == bytes;
    }
  }

  // A single check that consumes one byte of a set.
  lemma OneByteRun(env: Env, i: Instr, cs: Charset, s: int, caps: seq<Capture>)
    requires IsCheck(i) && StepLen(i) == 1 && FillCharset(i) == cs && InstrOk(i)
    requires EnvOk(env) && 0 <= s <= |env.subj|
    ensures Reaches(env, [i], Run(0, s, [], caps), Outcomes(SetMatch(env.subj, s, cs, caps), 1, []))
  {
    var r := Outcomes(SetMatch(env.subj, s, cs, caps), 1, []);
    PassesFill(env, i, s);
    assert Step(env, [i], Run(0, s, [], caps)) == r;
    ReachesSelf(env, [i], r);
    ReachesStep(env, [i], Run(0, s, [], caps), r);
  }

  // A one-byte check or test succeeds exactly on the bytes of its set.
  lemma PassesFill(env: Env, i: Instr, s: int)
    requires (IsCheck(i) || IsTest(i)) && InstrOk(i) && EnvOk(env) && 0 <= s <= |env.subj|
    ensures Passes(env, i, s) ==> s < |env.subj| && env.subj[s] in FillCharset(i) && s + StepLen(i) <= |env.subj|
    ensures StepLen(i) == 1 && s < |env.subj| && env.subj[s] in FillCharset(i) ==> Passes(env, i, s)
  {
    assert s < |env.subj| ==> env.subj[s] in FULL_SET;
  }

  lemma SetImplements(cs: Charset, p: Pat)
    requires forall env, s, caps {:trigger Peg(env, p, s, caps)} ::
               EnvOk(env) && 0 <= s <= |env.subj| ==> Peg(env, p, s, caps) == SetMatch(env.subj, s, cs, caps)
    ensures Implements([SetInstr(cs)], p)
  {
    forall env, s, caps {:trigger Peg(env, p, s, caps)} | EnvOk(env) && 0 <= s <= |env.subj|
      ensures Reaches(env, [SetInstr(cs)], Run(0, s, [], caps), Outcomes(Peg(env, p, s, caps), 1, []))
    {
      OneByteRun(env, SetInstr(cs), cs, s, caps);
    }
  }

  lemma {:induction false} AnyRun(env: Env, n: nat, big: Code, b: int, s: int, k: seq<Frame>, caps: seq<Capture>)
    requires n > 0 && At(big, b, AnyInstrs(n)) && EnvOk(env) && 0 <= s <= |env.subj|
    ensures Reaches(env, big, Run(b, s, k, caps),
                    if s + n <= |env.subj| then Run(b + |AnyInstrs(n)|, s + n, k, caps) else Fail(k))
    decreases n
  {
    var c := AnyInstrs(n);
    var st := Run(b, s, k, caps);
    var r := if s + n <= |env.subj| then Run(b + |c|, s + n, k, caps) else Fail(k);
    assert big[b] == big[b..b + |c|][0] == c[0];
    if n > UCHAR_MAX && s + UCHAR_MAX <= |env.subj| {
      assert big[b + 1..b + |c|] == big[b..b + |c|][1..] == AnyInstrs(n - UCHAR_MAX);
      AnyRun(env, n - UCHAR_MAX, big, b + 1, s + UCHAR_MAX, k, caps);
    } else {
      ReachesSelf(env, big, r);
      assert Step(env, big, st) == r;
    }
    ReachesStep(env, big, st, r);
  }

  lemma AnyImplements(n: nat)
    ensures Implements(AnyCode(n), Any(n))
  {
    forall env, s, caps {:trigger Peg(env, Any(n), s, caps)} | EnvOk(env) && 0 <= s <= |env.subj|
      ensures Reaches(env, AnyCode(n), Run(0, s, [], caps), Outcomes(Peg(env, Any(n), s, caps), |AnyCode(n)|, []))
    {
      if n == 0 {
        ReachesSelf(env, [], Run(0, s, [], caps));
      } else {
        AnyRun(env, n, AnyCode(n), 0, s, [], caps);
      }
    }
  }

  lemma NotAnyImplements(n: Pos)
    ensures Implements(NotAnyCode(n), NotAny(n))
  {
    var c := NotAnyCode(n);
    forall env, s, caps {:trigger Peg(env, NotAny(n), s, caps)} | EnvOk(env) && 0 <= s <= |env.subj|
      ensures Reaches(env, c, Run(0, s, [], caps), Outcomes(Peg(env, NotAny(n), s, caps), |c|, []))
    {
      var st := Run(0, s, [], caps);
      var r := Outcomes(Peg(env, NotAny(n), s, caps), |c|, []);
      ReachesSelf(env, c, r);
      if n <= UCHAR_MAX {
        if s + n <= |env.subj| {
          assert Step(env, c, st) == Run(1, s + n, [], caps);
          assert env.lenient ==> false;
          ReachesStep(env, c, Run(1, s + n, [], caps), r);
        }
        ReachesStep(env, c, st, r);
      } else if s + UCHAR_MAX > |env.subj| {
        ReachesStep(env, c, st, r);
      } else {
        NotAnyLong(env, n, s, caps);
      }
    }
  }

  lemma NotAnyLongParts(n: Pos)
    requires n > UCHAR_MAX
    ensures var c, rest := NotAnyCode(n), AnyInstrs(n - UCHAR_MAX);
            && |c| == |rest| + 3 && c[0] == SetAux(ITestAny, |c|, UCHAR_MAX)
            && c[1] == SetAux(IChoice, |c| - 1, UCHAR_MAX)
            && At(c, 2, rest) && c[|c| - 1] == Set(IFailTwice, 0)
  {
  }

  lemma NotAnyLong(env: Env, n: Pos, s: int, caps: seq<Capture>)
    requires n > UCHAR_MAX && EnvOk(env) && 0 <= s && s + UCHAR_MAX <= |env.subj|
    ensures Reaches(env, NotAnyCode(n), Run(0, s, [], caps),
                    if s + n <= |env.subj| then Fail([]) else Run(|NotAnyCode(n)|, s, [], caps))
  {
    hide Step, Steps, Reaches, NotAnyCode, AnyInstrs;
    NotAnyLongParts(n);
    var c, l := NotAnyCode(n), |NotAnyCode(n)|;
    var r := if s + n <= |env.subj| then Fail([]) else Run(l, s, [], caps);
    var fr := Frame(l, s, caps);
    var st1, st2 := Run(1, s + UCHAR_MAX, [], caps), Run(2, s + UCHAR_MAX, [fr], caps);
    var st3 := if s + n <= |env.subj| then Run(l - 1, s + n, [fr], caps) else Fail([fr]);
    assert [] + [fr] == [fr];
    AnyRun(env, n - UCHAR_MAX, c, 2, s + UCHAR_MAX, [fr], caps);
    StepCommit(env, c, l - 1, s + n, [], fr, caps);
    StepFail(env, c, [], fr);
    ReachesSelf(env, c, r);
    ReachesStep(env, c, st3, r);
    ReachesTrans(env, c, st2, st3, r);
    StepChoice(env, c, 1, s + UCHAR_MAX, [], caps);
    ReachesStep(env, c, st1, r);
    StepFlow(env, c, 0, s, [], caps);
    ReachesStep(env, c, Run(0, s, [], caps), r);
  }

  lemma BoolImplements(b: bool)
    ensures Implements(if b then [] else [Set(IFail, 0)], Bool(b))
  {
    var c := if b then [] else [Set(IFail, 0)];
    forall env, s, caps {:trigger Peg(env, Bool(b), s, caps)} | EnvOk(env) && 0 <= s <= |env.subj|
      ensures Reaches(env, c, Run(0, s, [], caps), Outcomes(Peg(env, Bool(b), s, caps), |c|, []))
    {
      ReachesSelf(env, c, Outcomes(Peg(env, Bool(b), s, caps), |c|, []));
      if !b { ReachesStep(env, c, Run(0, s, [], caps), Fail([])); }
    }
  }

  lemma {:induction false} EmptiesRun(env: Env, entries: seq<(CapKind, int)>, j: nat, s: int, caps: seq<Capture>)
    requires j <= |entries|
    ensures Reaches(env, EmptiesCode(entries), Run(j, s, [], caps),
                    Run(|entries|, s, [], AddEmpties(caps, s, entries[j..])))
    decreases |entries| - j
  {
    var c := EmptiesCode(entries);
    if j == |entries| {
      ReachesSelf(env, c, Run(j, s, [], caps));
    } else {
      var caps' := caps + [Capture(s, entries[j].1, entries[j].0, 1)];
      assert c[j] == SetCap(IEmptyCapture, entries[j].1, entries[j].0, 0);
      assert CapStep(c[j], s, caps) == caps';
      hide Step, Steps, Reaches, CapStep, EmptiesCode;
      StepFlow(env, c, j, s, [], caps);
      assert entries[j..][1..] == entries[j + 1..];
      EmptiesRun(env, entries, j + 1, s, caps');
      ReachesStep(env, c, Run(j, s, [], caps), Run(|entries|, s, [], AddEmpties(caps, s, entries[j..])));
    }
  }

  lemma EmptiesImplements(entries: seq<(CapKind, int)>)
    ensures Implements(EmptiesCode(entries), Empties(entries))
  {
    forall env, s, caps {:trigger Peg(env, Empties(entries), s, caps)} | EnvOk(env) && 0 <= s <= |env.subj|
      ensures Reaches(env, EmptiesCode(entries), Run(0, s, [], caps),
                      Outcomes(Peg(env, Empties(entries), s, caps), |entries|, []))
    {
      EmptiesRun(env, entries, 0, s, caps);
      assert entries[0..] == entries;
    }
  }

  // ----- sequences and predicates --------------------------------------------

  lemma CatImplements(c1: Code, p1: Pat, c2: Code, p2: Pat)
    requires Implements(c1, p1) && Implements(c2, p2)
    ensures Implements(c1 + c2, Cat(p1, p2))
  {
    hide Reaches, Peg;
    var c := c1 + c2;
    forall env, s, caps {:trigger Peg(env, Cat(p1, p2), s, caps)} | EnvOk(env) && 0 <= s <= |env.subj|
      ensures Reaches(env, c, Run(0, s, [], caps), Outcomes(Peg(env, Cat(p1, p2), s, caps), |c|, []))
    {
      CatRun(c1, p1, c2, p2, env, s, caps);
    }
  }

  lemma CatRun(c1: Code, p1: Pat, c2: Code, p2: Pat, env: Env, s: int, caps: seq<Capture>)
    requires Implements(c1, p1) && Implements(c2, p2) && EnvOk(env) && 0 <= s <= |env.subj|
    ensures var c := c1 + c2; Reaches(env, c, Run(0, s, [], caps), Outcomes(Peg(env, Cat(p1, p2), s, caps), |c|, []))
  {
    hide Reaches, Implements;
    var c, r1 := c1 + c2, Peg(env, p1, s, caps);
    UseAt(c1, p1, c, 0, env, s, [], caps);
    if r1.Got? {
      UseAt(c2, p2, c, |c1|, env, r1.s, [], r1.caps);
      ReachesTrans(env, c, Run(0, s, [], caps), Run(|c1|, r1.s, [], r1.caps),
                   Outcomes(Peg(env, p2, r1.s, r1.caps), |c|, []));
    }
  }

  // `choice; c2; failtwice` alone arrives behind itself exactly when `p2` fails.
  lemma NotRun(big: Code, c2: Code, p2: Pat, env: Env, s: int, caps: seq<Capture>)
    requires Implements(c2, p2) && EnvOk(env) && 0 <= s <= |env.subj|
    requires |big| >= |c2| + 2 && big[0] == Set(IChoice, |c2| + 2) && At(big, 1, c2) && big[|c2| + 1].op.IFailTwice?
    ensures Reaches(env, big, Run(0, s, [], caps),
                    if !env.lenient && Peg(env, p2, s, caps).Got? then Fail([]) else Run(|c2| + 2, s, [], caps))
  {
    hide Step, Steps, Peg, Reaches, Implements;
    var l := |c2|;
    var fr := Frame(l + 2, s, caps);
    var r2 := Peg(env, p2, s, caps);
    var st1, st2, st3 := Run(1, s, [fr], caps), Outcomes(r2, l + 1, [fr]), Run(l + 2, s, [], caps);
    var r := if !env.lenient && r2.Got? then Fail([]) else st3;
    UseAt(c2, p2, big, 1, env, s, [fr], caps);
    StepFail(env, big, [], fr);
    assert [] + [fr] == [fr];
    ReachesSelf(env, big, r);
    if r2.Got? {
      StepCommit(env, big, l + 1, r2.s, [], fr, r2.caps);
      if env.lenient { ReachesStep(env, big, Fail([fr]), r); }
    }
    ReachesStep(env, big, st2, r);
    ReachesTrans(env, big, st1, st2, r);
    StepChoice(env, big, 0, s, [], caps);
    ReachesStep(env, big, Run(0, s, [], caps), r);
  }

  lemma PegDiff(env: Env, p1: Pat, p2: Pat, s: int, caps: seq<Capture>)
    requires 0 <= s <= |env.subj|
    ensures Peg(env, Diff(p1, p2), s, caps)
         == if !env.lenient && Peg(env, p2, s, caps).Got? then Nope else Peg(env, p1, s, caps)
  {
  }

  lemma NotThenRun(c: Code, c1: Code, p1: Pat, c2: Code, p2: Pat, env: Env, s: int, caps: seq<Capture>)
    requires Implements(c1, p1) && Implements(c2, p2) && EnvOk(env) && 0 <= s <= |env.subj|
    requires |c| == |c2| + |c1| + 2 && c[0] == Set(IChoice, |c2| + 2) && c[|c2| + 1].op.IFailTwice?
    requires At(c, 1, c2) && At(c, |c2| + 2, c1)
    ensures Reaches(env, c, Run(0, s, [], caps), Outcomes(Peg(env, Diff(p1, p2), s, caps), |c|, []))
  {
    hide Step, Steps, Peg;
    PegDiff(env, p1, p2, s, caps);
    NotRun(c, c2, p2, env, s, caps);
    if env.lenient || Peg(env, p2, s, caps).Nope? {
      UseAt(c1, p1, c, |c2| + 2, env, s, [], caps);
      ReachesTrans(env, c, Run(0, s, [], caps), Run(|c2| + 2, s, [], caps), Outcomes(Peg(env, p1, s, caps), |c|, []));
    }
  }

  lemma NotThenParts(c1: Code, c2: Code)
    ensures var c := NotThen(c2, c1);
            && |c| == |c2| + |c1| + 2 && c[0] == Set(IChoice, |c2| + 2) && c[|c2| + 1] == Set(IFailTwice, 0)
            && At(c, 1, c2) && At(c, |c2| + 2, c1)
  {
  }

  lemma NotThenImplements(c1: Code, p1: Pat, c2: Code, p2: Pat)
    requires Implements(c1, p1) && Implements(c2, p2)
    ensures Implements(NotThen(c2, c1), Diff(p1, p2))
  {
    NotThenParts(c1, c2);
    var c := NotThen(c2, c1);
    forall env, s, caps {:trigger Peg(env, Diff(p1, p2), s, caps)} | EnvOk(env) && 0 <= s <= |env.subj|
      ensures Reaches(env, c, Run(0, s, [], caps), Outcomes(Peg(env, Diff(p1, p2), s, caps), |c|, []))
    {
      NotThenRun(c, c1, p1, c2, p2, env, s, caps);
    }
  }

  lemma PegAnd(env: Env, p1: Pat, s: int, caps: seq<Capture>)
    requires 0 <= s <= |env.subj|
    ensures Peg(env, And(p1), s, caps) == if env.lenient || Peg(env, p1, s, caps).Got? then Got(s, caps) else Nope
  {
  }

  lemma AndRun(c1: Code, p1: Pat, env: Env, s: int, caps: seq<Capture>)
    requires Implements(c1, p1) && EnvOk(env) && 0 <= s <= |env.subj|
    ensures Reaches(env, AndCode(c1), Run(0, s, [], caps), Outcomes(Peg(env, And(p1), s, caps), |AndCode(c1)|, []))
  {
    var c, l := AndCode(c1), |c1|;
    assert At(c, 1, c1) && c[l + 1] == Set(IBackCommit, 2) && c[l + 2] == SetAux(IFail, 0, 1);
    var fr := Frame(l + 2, s, caps);
    var r1, r := Peg(env, p1, s, caps), Outcomes(Peg(env, And(p1), s, caps), |c|, []);
    var st1, st2 := Run(1, s, [fr], caps), Outcomes(r1, l + 1, [fr]);
    hide Step, Steps, Peg, Reaches, AndCode, Implements;
    PegAnd(env, p1, s, caps);
    UseAt(c1, p1, c, 1, env, s, [fr], caps);
    ReachesSelf(env, c, r);
    assert [] + [fr] == [fr];
    if r1.Nope? {
      StepFail(env, c, [], fr);
      StepFlow(env, c, l + 2, s, [], caps);
      ReachesStep(env, c, Run(l + 2, s, [], caps), r);
    } else {
      StepCommit(env, c, l + 1, r1.s, [], fr, r1.caps);
    }
    ReachesStep(env, c, st2, r);
    ReachesTrans(env, c, st1, st2, r);
    StepChoice(env, c, 0, s, [], caps);
    ReachesStep(env, c, Run(0, s, [], caps), r);
  }

  lemma AndImplements(c1: Code, p1: Pat)
    requires Implements(c1, p1)
    ensures Implements(AndCode(c1), And(p1))
  {
    forall env, s, caps {:trigger Peg(env, And(p1), s, caps)} | EnvOk(env) && 0 <= s <= |env.subj|
      ensures Reaches(env, AndCode(c1), Run(0, s, [], caps), Outcomes(Peg(env, And(p1), s, caps), |AndCode(c1)|, []))
    {
      AndRun(c1, p1, env, s, caps);
    }
  }

  // The first alternative of `choice; c1; commit x; ...` alone: it leaves through
  // the commit, or arrives behind it with the state it started in.
  lemma FirstAlternativeRun(big: Code, c1: Code, p1: Pat, env: Env, s: int, caps: seq<Capture>)
    requires Implements(c1, p1) && EnvOk(env) && 0 <= s <= |env.subj|
    requires |big| >= |c1| + 2 && big[0] == Set(IChoice, |c1| + 2) && At(big, 1, c1) && big[|c1| + 1].op.ICommit?
    ensures Reaches(env, big, Run(0, s, [], caps),
                    match Peg(env, p1, s, caps)
                    case Got(s', caps') => Run(Dest(big, |c1| + 1), s', [], caps')
                    case Nope => Run(|c1| + 2, s, [], caps))
  {
    hide Step, Steps, Peg, Reaches, Implements;
    var l := |c1|;
    var fr := Frame(l + 2, s, caps);
    var r1 := Peg(env, p1, s, caps);
    var r := match r1 case Got(s', caps') => Run(Dest(big, l + 1), s', [], caps') case Nope => Run(l + 2, s, [], caps);
    var st1, st2 := Run(1, s, [fr], caps), Outcomes(r1, l + 1, [fr]);
    UseAt(c1, p1, big, 1, env, s, [fr], caps);
    assert [] + [fr] == [fr];
    if r1.Nope? {
      StepFail(env, big, [], fr);
    } else {
      StepCommit(env, big, l + 1, r1.s, [], fr, r1.caps);
    }
    ReachesSelf(env, big, r);
    ReachesStep(env, big, st2, r);
    ReachesTrans(env, big, st1, st2, r);
    StepChoice(env, big, 0, s, [], caps);
    ReachesStep(env, big, Run(0, s, [], caps), r);
  }

  lemma ChoiceUnionParts(c1: Code, c2: Code)
    ensures var c := ChoiceUnion(c1, c2);
            && |c| == |c1| + |c2| + 2 && c[0] == Set(IChoice, |c1| + 2) && c[|c1| + 1] == Set(ICommit, 1 + |c2|)
            && At(c, 1, c1) && At(c, |c1| + 2, c2) && c[|c1| + 2..] == c2
            && (c1 != [] ==> c[1] == c1[0])
  {
  }

  lemma ChoiceUnionImplements(c1: Code, p1: Pat, c2: Code, p2: Pat)
    requires Implements(c1, p1) && Implements(c2, p2)
    ensures Implements(ChoiceUnion(c1, c2), Or(p1, p2))
  {
    hide Step, Steps, Reaches, ChoiceUnion, At;
    var c, l := ChoiceUnion(c1, c2), |c1|;
    ChoiceUnionParts(c1, c2);
    forall env, s, caps {:trigger Peg(env, Or(p1, p2), s, caps)} | EnvOk(env) && 0 <= s <= |env.subj|
      ensures Reaches(env, c, Run(0, s, [], caps), Outcomes(Peg(env, Or(p1, p2), s, caps), |c|, []))
    {
      FirstAlternativeRun(c, c1, p1, env, s, caps);
      if Peg(env, p1, s, caps).Nope? {
        UseAt(c2, p2, c, l + 2, env, s, [], caps);
        ReachesTrans(env, c, Run(0, s, [], caps), Run(l + 2, s, [], caps), Outcomes(Peg(env, p2, s, caps), |c|, []));
      }
    }
  }
}

// Every pattern the builders accept compiles to code that means the pattern.

module LpegCorrect {
  import opened LpegCode
  import opened LpegPeg
  import opened LpegMachine
  import opened LpegBuild
  import opened LpegTyping
  import opened LpegMeaning
  import opened LpegHeads
  import opened LpegLoops
  import opened LpegJumps
  import opened LpegMoves
  import opened LpegSolid
  import opened LpegUnion
  import opened LpegSeparate

  // Most choices a pattern's code ever has open at once.
  function Depth(p: Pat): nat {
    match p
    case NotAny(_) => 1
    case Cat(a, b) => Max(Depth(a), Depth(b))
    case Or(a, b) => Max(Depth(a) + 1, Depth(b))
    case Diff(a, b) => Max(Depth(a), Depth(b) + 1)
    case Neg(a) => Depth(a) + 1
    case And(a) => Depth(a) + 1
    case Rep(a, _) => Depth(a) + 1
    case Opt(a, _) => Depth(a) + 1
    case Capt(_, _, a) => Depth(a)
    case _ => 0
  }

  function Max(a: nat, b: nat): nat { if a < b then b else a }

  // ----- sequences ------------------------------------------------------------------

  lemma EmptyMeaning(p: Pat)
    requires Implements([], p)
    ensures Trivial(p)
  {
    forall env, s, caps {:trigger Peg(env, p, s, caps)} | EnvOk(env) && 0 <= s <= |env.subj|
      ensures Peg(env, p, s, caps) == Got(s, caps)
    {
      HaltedReaches(env, [], Run(0, s, [], caps), Outcomes(Peg(env, p, s, caps), 0, []));
    }
  }

  lemma CatFirstPart(c1: Code, c2: Code)
    requires WF(c1) && c1 != [] && c2 != []
    ensures FirstPart(c1 + c2) == 0
  {
    var c := c1 + c2;
    WFJumpsInside(c1);
    if IsTest(c[0]) || c[0].op.IChoice? {
      assert Dest(c1, 0) <= |c1|;
      var e := c[0].offset - 1;
      if 0 <= e < |c1| && IsJmp(c[e]) { assert c[e] == c1[e] && Dest(c1, e) <= |c1|; }
    }
  }

  lemma CatGood(c1: Code, p1: Pat, c2: Code, p2: Pat, d: nat)
    requires Good(c1, p1, d) && Good(c2, p2, d)
    ensures Good(OptimizeCaptures(c1 + c2), Cat(p1, p2), d)
  {
    GoodBasics(c1, p1, d);
    GoodBasics(c2, p2, d);
    CatImplements(c1, p1, c2, p2);
    CatSolid(c1, c2, d);
    var c := c1 + c2;
    OptimizeCapturesKeeps(c, Cat(p1, p2), d);
    FirstPartSame(c, OptimizeCaptures(c));
    if FirstPart(c) != 0 {
      FirstPartStays(c);
      hide Good, Solid, Implements, OptimizeCaptures;
      if c2 == [] {
        assert c == c1;
        EmptyMeaning(p2);
        CatTrivialRight(p1, p2);
        GoodSame(c1, p1, Cat(p1, p2), d);
      } else if c1 == [] {
        assert c == c2;
        EmptyMeaning(p1);
        CatTrivialLeft(p1, p2);
        GoodSame(c2, p2, Cat(p1, p2), d);
      } else {
        CatFirstPart(c1, c2);
      }
    }
  }

  lemma CatTrivialRight(p: Pat, q: Pat)
    requires Trivial(q)
    ensures SameMeaning(Cat(p, q), p)
  {
    forall env, s, caps {:trigger Peg(env, Cat(p, q), s, caps)} | EnvOk(env) && 0 <= s <= |env.subj|
      ensures Peg(env, Cat(p, q), s, caps) == Peg(env, p, s, caps)
    {
      var r := Peg(env, p, s, caps);
      if r.Got? { assert Peg(env, q, r.s, r.caps) == Got(r.s, r.caps); }
    }
  }

  lemma CatTrivialLeft(p: Pat, q: Pat)
    requires Trivial(p)
    ensures SameMeaning(Cat(p, q), q)
  {
    forall env, s, caps {:trigger Peg(env, Cat(p, q), s, caps)} | EnvOk(env) && 0 <= s <= |env.subj|
      ensures Peg(env, Cat(p, q), s, caps) == Peg(env, q, s, caps)
    {
      assert Peg(env, p, s, caps) == Got(s, caps);
    }
  }

  lemma AnyMeaning(c: Code, p: Pat, env: Env, s: int, caps: seq<Capture>)
    requires IsAnyCode(c) && WF(c) && Implements(c, p) && EnvOk(env) && 0 <= s <= |env.subj|
    ensures Peg(env, p, s, caps) == if s + c[0].aux <= |env.subj| then Got(s + c[0].aux, caps) else Nope
  {
    var st, d := Run(0, s, [], caps), Outcomes(Peg(env, p, s, caps), 1, []);
    assert WFAt(c, 0);
    StepFlow(env, c, 0, s, [], caps);
    ReachesFromStep(env, c, st, d);
    HaltedReaches(env, c, Step(env, c, st), d);
  }

  lemma AnyCatGood(c1: Code, p1: Pat, c2: Code, p2: Pat, d: nat)
    requires IsAnyCode(c1) && IsAnyCode(c2) && WF(c1) && WF(c2)
    requires Implements(c1, p1) && Implements(c2, p2) && c1[0].aux + c2[0].aux > 0
    ensures Good(AnyInstrs(c1[0].aux + c2[0].aux), Cat(p1, p2), d)
  {
    var n := c1[0].aux + c2[0].aux;
    AnyImplements(n);
    AnySolid(n, d);
    forall env, s, caps {:trigger Peg(env, Cat(p1, p2), s, caps)} | EnvOk(env) && 0 <= s <= |env.subj|
      ensures Peg(env, Cat(p1, p2), s, caps) == Peg(env, Any(n), s, caps)
    {
      AnyMeaning(c1, p1, env, s, caps);
      var r := Peg(env, p1, s, caps);
      if r.Got? { AnyMeaning(c2, p2, env, r.s, r.caps); }
    }
    ImplementsSame(AnyInstrs(n), Any(n), Cat(p1, p2));
    AnyStraight(n);
  }

  lemma ConcatGood(c1: Code, p1: Pat, c2: Code, p2: Pat, d: nat)
    requires Good(c1, p1, d) && Good(c2, p2, d)
    ensures Good(ConcatCode(c1, c2), Cat(p1, p2), d)
  {
    if IsAnyCode(c1) && IsAnyCode(c2) && c1[0].aux + c2[0].aux > 0 {
      AnyCatGood(c1, p1, c2, p2, d);
    } else {
      CatGood(c1, p1, c2, p2, d);
    }
  }

  // ----- predicates -------------------------------------------------------------------

  lemma SetDiffGood(c1: Code, p1: Pat, c2: Code, p2: Pat, d: nat)
    requires WF(c1) && WF(c2) && Implements(c1, p1) && Implements(c2, p2)
    requires ToCharset(c1).IsCharset? && ToCharset(c2).IsCharset?
    ensures Good([SetInstr(ToCharset(c1).cs - ToCharset(c2).cs)], Diff(p1, p2), d)
  {
    var cs := ToCharset(c1).cs - ToCharset(c2).cs;
    SetSolid(cs, d);
    forall env, s, caps {:trigger Peg(env, Diff(p1, p2), s, caps)} | EnvOk(env) && 0 <= s <= |env.subj|
      ensures Peg(env, Diff(p1, p2), s, caps) == SetMatch(env.subj, s, cs, caps)
    {
      CharsetMeaning(c1, p1, env, s, caps);
      CharsetMeaning(c2, p2, env, s, caps);
      PegDiff(env, p1, p2, s, caps);
    }
    SetImplements(cs, Diff(p1, p2));
  }

  lemma NotThenGood(c1: Code, p1: Pat, c2: Code, p2: Pat, d: Pos)
    requires Solid(c1, d) && Implements(c1, p1) && Solid(c2, d - 1) && Implements(c2, p2)
    ensures Good(OptimizeChoice(NotThen(c2, c1)), Diff(p1, p2), d)
  {
    var c0 := NotThen(c2, c1);
    NotThenParts(c1, c2);
    NotThenImplements(c1, p1, c2, p2);
    NotThenSolid(c1, c2, d);
    assert c2 != [] ==> c0[1] == c0[1..1 + |c2|][0] == c2[0];
    if IsCheck(c0[1]) { NoJumpToBracket(c0, c2, c1); SameSuffix(c0); } else { OptimizeChoiceNot(c0); }
    OptimizeChoiceImplements(c0, Diff(p1, p2));
    OptimizeChoiceSolid(c0, d);
    NotThenFirst(c1, c2);
  }

  lemma NotThenFirst(c1: Code, c2: Code)
    ensures FirstPart(OptimizeChoice(NotThen(c2, c1))) == 0
  {
    hide OptimizeChoice, NotThen;
    var c0 := NotThen(c2, c1);
    NotThenParts(c1, c2);
    var c, e := OptimizeChoice(c0), |c2| + 1;
    assert c2 != [] ==> c0[1] == c0[1..1 + |c2|][0] == c2[0];
    if IsCheck(c0[1]) { SameSuffix(c0); } else { OptimizeChoiceNot(c0); }
    assert e >= 2 ==> c[e] == c[2..][e - 2] == c0[2..][e - 2] == c0[e];
    assert FirstPart(c) == 0;
  }

  lemma NotHeadGood(c1: Code, p1: Pat, c2: Code, p2: Pat, d: nat)
    requires Solid(c1, d) && Implements(c1, p1) && Solid(c2, d) && Implements(c2, p2) && IsHeadFail(c2)
    ensures Good(NotHead(c2, c1), Diff(p1, p2), d)
  {
    hide NotHead;
    NotHeadParts(c2, c1);
    NotHeadImplements(c1, p1, c2, p2);
    NotHeadSolid(c1, c2, d);
    var c := NotHead(c2, c1);
    assert FirstPart(c) == 0;
  }

  lemma DiffGood(c1: Code, p1: Pat, c2: Code, p2: Pat, d: Pos)
    requires Solid(c1, d) && Implements(c1, p1) && Solid(c2, d - 1) && Implements(c2, p2)
    ensures Good(DiffCode(c1, c2), Diff(p1, p2), d)
  {
    SolidMore(c2, d - 1, d);
    if ToCharset(c1).IsCharset? && ToCharset(c2).IsCharset? {
      SetDiffGood(c1, p1, c2, p2, d);
    } else if IsHeadFail(c2) {
      NotHeadGood(c1, p1, c2, p2, d);
    } else {
      NotThenGood(c1, p1, c2, p2, d);
    }
  }

  lemma NegGood(c: Code, p: Pat, d: Pos)
    requires Solid(c, d - 1) && Implements(c, p)
    ensures Good(DiffCode([], c), Neg(p), d)
  {
    EmptyImplements();
    StraightSolid([], d);
    DiffGood([], Lit([]), c, p, d);
    forall env, s, caps {:trigger Peg(env, Neg(p), s, caps)} | EnvOk(env) && 0 <= s <= |env.subj|
      ensures Peg(env, Neg(p), s, caps) == Peg(env, Diff(Lit([]), p), s, caps)
    {
      assert Peg(env, Lit([]), s, caps) == Got(s, caps);
    }
    GoodSame(DiffCode([], c), Diff(Lit([]), p), Neg(p), d);
  }

  lemma AndGood(c: Code, p: Pat, d: Pos)
    requires Solid(c, d - 1) && Implements(c, p)
    ensures Good(AndCode(c), And(p), d)
  {
    AndImplements(c, p);
    AndSolid(c, d);
    assert FirstPart(AndCode(c)) == 0;
  }

  // ----- repetition -------------------------------------------------------------------

  lemma {:induction false} TargetStays(c: Code, c1: Code, i: int)
    requires WF(c1) && |c1| < |c| && 0 <= i <= |c1| && !c[|c1|].op.IJmp?
    requires forall j :: 0 <= j < |c1| && c[j].op.IJmp? ==> c[j] == c1[j]
    ensures 0 <= Target(c, i) <= |c1|
    decreases |c1| - i
  {
    if i < |c1| && c[i].op.IJmp? {
      assert WFAt(c1, i);
      if c[i].offset > 0 { TargetStays(c, c1, Dest(c, i)); }
    }
  }

  // A loop behind leading copies is not an ordered choice.
  lemma LoopFirstPart(c1: Code, tail: Code, c: Code)
    requires WF(c1) && c1 != [] && tail != [] && !tail[0].op.IJmp? && SameJumps(c1 + tail, c)
    ensures FirstPart(OptimizeJumps(c)) == 0
  {
    var c', c0 := OptimizeJumps(c), c1 + tail;
    assert c0[|c1|] == tail[0];
    OptimizeJumpsAt(c, 0);
    if IsTest(c'[0]) || c'[0].op.IChoice? {
      assert c[0] == c0[0] == c1[0] && WFAt(c1, 0);
      TargetStays(c, c1, Dest(c, 0));
      var e := c'[0].offset - 1;
      if 0 <= e < |c1| && (c'[e].op.ICommit? || c'[e].op.IJmp?) {
        OptimizeJumpsAt(c, e);
        assert c[e] == c0[e] == c1[e] && WFAt(c1, e);
        TargetStays(c, c1, Dest(c, e));
      }
    }
  }

  lemma CopiesFront(c: Code, n: Pos, loop: Code)
    ensures Copies(c, n) + loop == c + (Copies(c, n - 1) + loop)
  {
  }

  lemma CopiesTail(c: Code, n: nat, loop: Code)
    requires loop != [] && !loop[0].op.IJmp? && FirstOk(c)
    ensures Copies(c, n) + loop != [] && !(Copies(c, n) + loop)[0].op.IJmp?
    decreases n
  {
    if n > 0 {
      CopiesTail(c, n - 1, loop);
      CopiesFront(c, n, loop);
    } else {
      assert Copies(c, 0) + loop == loop;
    }
  }

  // Optimising a loop behind leading copies keeps it good.
  lemma LoopGood(c: Code, p: Pat, n: nat, loop: Code, d: nat)
    requires Solid(c, d) && Implements(c, p) && c != []
    requires Solid(loop, d) && Implements(loop, Rep(p, 0)) && loop != []
    requires forall c' :: SameJumps(loop, c') ==> FirstPart(OptimizeJumps(c')) == 0
    ensures Good(OptimizeJumps(OptimizeCaptures(Copies(c, n) + loop)), Rep(p, n), d)
  {
    var c0 := Copies(c, n) + loop;
    CopiesImplements(c, p, n, loop);
    CopiesSolid(c, n, loop, d);
    OptimizeCapturesKeeps(c0, Rep(p, n), d);
    var c1 := OptimizeCaptures(c0);
    OptimizeJumpsImplements(c1, Rep(p, n));
    OptimizeJumpsWF(c1, Rep(p, n));
    OptimizeJumpsTyped(c1, d);
    RepeatedFirst(c, n, loop, c1);
  }

  lemma RepeatedFirst(c: Code, n: nat, loop: Code, c1: Code)
    requires WF(c) && c != [] && WF(loop) && loop != [] && SameJumps(Copies(c, n) + loop, c1)
    requires forall c' :: SameJumps(loop, c') ==> FirstPart(OptimizeJumps(c')) == 0
    ensures FirstPart(OptimizeJumps(c1)) == 0
  {
    if n == 0 {
      assert Copies(c, 0) + loop == loop;
    } else {
      CopiesTail(c, n - 1, loop);
      CopiesFront(c, n, loop);
      LoopFirstPart(c, Copies(c, n - 1) + loop, c1);
    }
  }

  lemma HeadFailLoopFirstPart(c: Code, c': Code)
    requires c != [] && IsCheck(c[0]) && SameJumps(HeadFailLoop(c), c')
    ensures FirstPart(OptimizeJumps(c')) == 0
  {
    var l := HeadFailLoop(c);
    HeadFailLoopParts(c);
    var e := |l| - 1;
    assert c'[0] == l[0] && c'[e] == l[e];
    OptimizeJumpsAt(c', 0);
    OptimizeJumpsAt(c', e);
  }

  lemma ChoiceLoopFirstPart(c: Code, c': Code)
    requires SameJumps(ChoiceLoop(c), c')
    ensures FirstPart(OptimizeJumps(c')) == 0
  {
    var l := ChoiceLoop(c);
    var e := |l| - 1;
    assert l[0] == Set(IChoice, |l|) && l[e] == Set(IPartialCommit, -|c|);
    assert c'[0] == l[0] && c'[e] == l[e];
    OptimizeJumpsAt(c', 0);
    OptimizeJumpsAt(c', e);
  }

  lemma SpanRepGood(c: Code, p: Pat, n: nat, d: nat)
    requires Solid(c, d) && Implements(c, p) && ToCharset(c).IsCharset?
    ensures Good(Copies(c, n) + [SpanInstr(ToCharset(c).cs)], Rep(p, n), d)
  {
    var loop := [SpanInstr(ToCharset(c).cs)];
    SpanImplements(c, p);
    SpanSolid(ToCharset(c).cs, d);
    CopiesImplements(c, p, n, loop);
    CopiesSolid(c, n, loop, d);
    if n == 0 { assert Copies(c, 0) + loop == loop; } else { CopiesFront(c, n, loop); }
    assert FirstPart(Copies(c, n) + loop) == 0;
  }

  lemma RepGood(c: Code, p: Pat, n: nat, d: Pos)
    requires Solid(c, d - 1) && Implements(c, p) && RepCode(c, n).Ok?
    ensures Good(RepCode(c, n).value, Rep(p, n), d)
  {
    SolidMore(c, d - 1, d);
    if ToCharset(c).IsCharset? {
      SpanRepGood(c, p, n, d);
    } else if IsHeadFail(c) {
      HeadFailLoopImplements(c, p);
      HeadFailLoopSolid(c, d);
      forall c' | SameJumps(HeadFailLoop(c), c') ensures FirstPart(OptimizeJumps(c')) == 0 {
        HeadFailLoopFirstPart(c, c');
      }
      LoopGood(c, p, n, HeadFailLoop(c), d);
    } else {
      AcceptsSomething(c);
      AcceptedAdvances(c, p);
      ChoiceLoopImplements(c, p);
      ChoiceLoopSolid(c, d);
      forall c' | SameJumps(ChoiceLoop(c), c') ensures FirstPart(OptimizeJumps(c')) == 0 { ChoiceLoopFirstPart(c, c'); }
      LoopGood(c, p, n, ChoiceLoop(c), d);
    }
  }

  lemma AcceptsSomething(c: Code)
    requires Accepts(c)
    ensures c != []
  {
    if c == [] { HaltedReaches(LENIENT, c, Run(0, 0, [], []), Fail([])); }
  }

  // ----- bounded repetition ----------------------------------------------------------------

  // Code whose closing jump leads to its own end, with that exit told apart.
  lemma {:induction false} ExitShift(env: Env, c: Code, st: State, n: nat, s: int, caps: seq<Capture>)
    requires c != [] && (c[|c| - 1].op.ICommit? || c[|c| - 1].op.IJmp?) && Dest(c, |c| - 1) == |c|
    requires Steps(env, c, st, n) == Run(|c|, s, [], caps)
    ensures Reaches(env, Alone(c), st, Run(|c| + 1, s, [], caps)) || Reaches(env, Alone(c), st, Run(|c|, s, [], caps))
    decreases n
  {
    var f, d := Alone(c), Run(|c|, s, [], caps);
    if st == d {
      ReachesSelf(env, f, d);
    } else {
      StepsFirst(env, c, st, n);
      if st.Run? && st.pc == |c| - 1 {
        LastStep(env, c, st, n, s, caps);
      } else {
        assert Step(env, f, st) == Step(env, c, st);
        ExitShift(env, c, Step(env, c, st), n - 1, s, caps);
        if Reaches(env, f, Step(env, c, st), d) {
          ReachesStep(env, f, st, d);
        } else {
          ReachesStep(env, f, st, Run(|c| + 1, s, [], caps));
        }
      }
    }
  }

  lemma LastStep(env: Env, c: Code, st: State, n: nat, s: int, caps: seq<Capture>)
    requires c != [] && (c[|c| - 1].op.ICommit? || c[|c| - 1].op.IJmp?) && Dest(c, |c| - 1) == |c|
    requires Steps(env, c, st, n) == Run(|c|, s, [], caps) && st.Run? && st.pc == |c| - 1
    ensures Reaches(env, Alone(c), st, Run(|c| + 1, s, [], caps))
  {
    var f, e := Alone(c), |c| - 1;
    assert f[e] == c[e].(offset := 2);
    StepsFirst(env, c, st, n);
    ReachesSelf(env, f, Run(|c| + 1, s, [], caps));
    if c[e].op.IJmp? {
      StepFlow(env, c, e, st.s, st.stack, st.caps);
      StepFlow(env, f, e, st.s, st.stack, st.caps);
      HaltedStays(env, c, Step(env, c, st), n - 1);
    } else if st.stack == [] {
      StuckStays(env, c, st, n);
    } else {
      var below, top := SplitTop(st.stack);
      StepCommit(env, c, e, st.s, below, top, st.caps);
      StepCommit(env, f, e, st.s, below, top, st.caps);
      HaltedStays(env, c, Step(env, c, st), n - 1);
    }
    ReachesStep(env, f, st, Run(|c| + 1, s, [], caps));
  }

  ghost predicate AlwaysMatches(p: Pat) {
    forall env, s, caps {:trigger Peg(env, p, s, caps)} ::
      EnvOk(env) && 0 <= s <= |env.subj| ==> Peg(env, p, s, caps).Got?
  }

  lemma WholeExits(c: Code, p: Pat)
    requires c != [] && (c[|c| - 1].op.ICommit? || c[|c| - 1].op.IJmp?) && Dest(c, |c| - 1) == |c|
    requires Implements(c, p) && AlwaysMatches(p)
    ensures Exits(c, p, Lit([]))
  {
    hide Alone, Steps, Step, Dest;
    EmptyImplements();
    EmptyMeaning(Lit([]));
    forall env, s, caps | EnvOk(env) && 0 <= s <= |env.subj|
      ensures ExitsAt(c, p, Lit([]), env, s, caps)
    {
      var r := Peg(env, p, s, caps);
      var n: nat :| Steps(env, c, Run(0, s, [], caps), n) == Run(|c|, r.s, [], r.caps);
      ExitShift(env, c, Run(0, s, [], caps), n, r.s, r.caps);
    }
  }

  // A pattern that always matches, as an ordered choice whose second part is empty.
  lemma WholeGood(c: Code, p: Pat, d: nat)
    requires Solid(c, d) && Implements(c, p) && AlwaysMatches(p)
    requires FirstPart(c) != 0 ==> FirstPart(c) == |c| && (c[|c| - 1].op.ICommit? || NoFail(c))
    ensures Good(c, p, d)
  {
    if FirstPart(c) != 0 {
      WFJumpsInside(c);
      FirstFromWhole(c, |c|, d);
      assert c[..|c|] == c && c[|c|..] == [];
      WholeExits(c, p);
      StraightSolid([], d);
      EmptyImplements();
      assert FirstPart([]) == 0;
      forall env, s, caps {:trigger Peg(env, p, s, caps)} | EnvOk(env) && 0 <= s <= |env.subj|
        ensures Peg(env, p, s, caps) == Peg(env, Or(p, Lit([])), s, caps)
      {
        PegOr(env, p, Lit([]), s, caps);
      }
      var sl := Split(p, Lit([]), []);
      assert Good([], Lit([]), d);
      assert FirstBy(c, sl, d);
      assert SplitBy(c, p, d, |c|, sl);
    }
  }

  lemma {:induction false} HeadFailOptionalsNoFail(c: Code, n: nat)
    requires IsHeadFail(c)
    ensures NoFail(HeadFailOptionals(c, n))
    decreases n
  {
    if n > 0 { HeadFailOptionalsNoFail(c, n - 1); }
  }

  lemma OptMatches(p: Pat, n: Pos)
    ensures AlwaysMatches(Opt(p, n))
  {
  }

  lemma HeadFailOptGood(c: Code, p: Pat, n: Pos, d: nat)
    requires Solid(c, d) && Implements(c, p) && IsHeadFail(c)
    ensures Good(HeadFailOptionals(c, n), Opt(p, n), d)
  {
    HeadFailOptionalsImplements(c, p, n);
    HeadFailOptionalsSolid(c, n, d);
    HeadFailOptionalsNoFail(c, n);
    HeadFailOptionalsLength(c, n);
    OptMatches(p, n);
    assert HeadFailOptionals(c, n)[0] == Check2Test(c[0], n * |c|);
    WholeGood(HeadFailOptionals(c, n), Opt(p, n), d);
  }

  lemma {:induction false} OptionalBodiesLast(c: Code, n: Pos)
    ensures var b := OptionalBodies(c, n); b[|b| - 1] == Set(ICommit, 1)
    decreases n
  {
    if n > 1 { OptionalBodiesLast(c, n - 1); }
  }

  lemma OptionalsNoJump(c: Code, n: Pos, d: Pos)
    requires Solid(c, d - 1) && IsCheck(Optionals(c, n)[1])
    ensures NoJumpTo(Optionals(c, n), 1)
  {
    var l, b := Optionals(c, n), OptionalBodies(c, n);
    OptionalBodiesFront(c, n);
    OptionalBodiesLength(c, n);
    var ty := OptionalBodiesSolid(c, n, d);
    forall j | 0 <= j < |l| && IsJmp(l[j]) ensures 1 < Dest(l, j) {
      if j > 0 { assert l[j] == b[j - 1] && Fine(b, ty, d, j - 1) && l[1] == b[0]; }
    }
  }

  lemma ChoiceOptGood(c: Code, p: Pat, n: Pos, d: Pos)
    requires Solid(c, d - 1) && Implements(c, p)
    ensures Good(OptimizeChoice(Optionals(c, n)), Opt(p, n), d)
  {
    var l := Optionals(c, n);
    OptionalBodiesLength(c, n);
    OptionalBodiesFront(c, n);
    OptionalBodiesLast(c, n);
    OptionalsImplements(c, p, n);
    OptionalsSolid(c, n, d);
    OptMatches(p, n);
    assert l[0] == Set(IChoice, |l|) && l[|l| - 1] == Set(ICommit, 1);
    if IsCheck(l[1]) { OptionalsNoJump(c, n, d); SameSuffix(l); } else { OptimizeChoiceNot(l); }
    OptimizeChoiceImplements(l, Opt(p, n));
    OptimizeChoiceSolid(l, d);
    ChoiceOptFirst(c, n);
    hide OptimizeChoice, Optionals;
    WholeGood(OptimizeChoice(l), Opt(p, n), d);
  }

  lemma ChoiceOptFirst(c: Code, n: Pos)
    ensures var o := OptimizeChoice(Optionals(c, n));
            FirstPart(o) != 0 ==> FirstPart(o) == |o| && o[|o| - 1].op.ICommit?
  {
    var l := Optionals(c, n);
    OptionalBodiesLength(c, n);
    OptionalBodiesFront(c, n);
    OptionalBodiesLast(c, n);
    assert l[0] == Set(IChoice, |l|) && l[|l| - 1] == Set(ICommit, 1);
    if IsCheck(l[1]) { SameSuffix(l); } else { OptimizeChoiceNot(l); }
    var o := OptimizeChoice(l);
    assert |o| > 2 ==> o[|o| - 1] == o[2..][|o| - 3] == l[2..][|o| - 3];
  }

  lemma OptGood(c: Code, p: Pat, n: Pos, d: Pos)
    requires Solid(c, d - 1) && Implements(c, p)
    ensures Good(OptCode(c, n), Opt(p, n), d)
  {
    if IsHeadFail(c) {
      SolidMore(c, d - 1, d);
      HeadFailOptGood(c, p, n, d);
    } else {
      ChoiceOptGood(c, p, n, d);
    }
  }

  // ----- captures ----------------------------------------------------------------------------

  lemma SetCapFields(op: Opcode, idx: int, kind: CapKind, n: nat)
    requires n <= MAXOFF
    ensures GetKind(SetCap(op, idx, kind, n)) == kind && GetOff(SetCap(op, idx, kind, n)) == n
    ensures SetCap(op, idx, kind, n).aux < 256
  {
  }

  lemma ChecksMeaning(c: Code, p: Pat, env: Env, s: int, caps: seq<Capture>)
    requires Implements(c, p) && (forall j :: 0 <= j < |c| ==> IsCheck(c[j])) && EnvOk(env) && 0 <= s <= |env.subj|
    ensures Peg(env, p, s, caps) == if AllPass(env, c, s) then Got(s + CheckLen(c), caps) else Nope
  {
    var st, d := Run(0, s, [], caps), Outcomes(Peg(env, p, s, caps), |c|, []);
    var m := RunChecks(env, c, 0, c, s, [], caps);
    HaltUnique(env, c, st, d, Steps(env, c, st, m));
  }

  lemma PegCapt(env: Env, kind: CapKind, idx: int, p: Pat, s: int, caps: seq<Capture>)
    requires 0 <= s <= |env.subj|
    ensures var r := Peg(env, p, s, caps + [Capture(s, idx, kind, 0)]);
            Peg(env, Capt(kind, idx, p), s, caps) == if r.Got? then Got(r.s, CloseCap(r.caps, r.s, 0, CCLOSE)) else Nope
  {
  }

  lemma FullCaptureRun(c: Code, p: Pat, kind: CapKind, idx: int, n: nat, env: Env, s: int, caps: seq<Capture>)
    requires Implements(c, p) && (forall j :: 0 <= j < |c| ==> IsCheck(c[j])) && CheckLen(c) == n <= MAXOFF
    requires EnvOk(env) && 0 <= s <= |env.subj|
    ensures var f := c + [SetCap(IFullCapture, idx, kind, n)];
            Reaches(env, f, Run(0, s, [], caps), Outcomes(Peg(env, Capt(kind, idx, p), s, caps), |f|, []))
  {
    hide Peg, Reaches, Implements, AllPass, CheckLen, SetCap, CloseCap;
    var f := c + [SetCap(IFullCapture, idx, kind, n)];
    var open := caps + [Capture(s, idx, kind, 0)];
    assert f[0..|c|] == c;
    ChecksMeaning(c, p, env, s, open);
    ChecksMeaning(c, p, env, s, caps);
    PegCapt(env, kind, idx, p, s, caps);
    UseAt(c, p, f, 0, env, s, [], caps);
    if AllPass(env, c, s) { FullCaptureEnd(c, kind, idx, n, env, s, caps); }
  }

  // Past the checks the capture is closed at once.
  lemma FullCaptureEnd(c: Code, kind: CapKind, idx: int, n: nat, env: Env, s: int, caps: seq<Capture>)
    requires n <= MAXOFF
    requires Reaches(env, c + [SetCap(IFullCapture, idx, kind, n)], Run(0, s, [], caps), Run(|c|, s + n, [], caps))
    ensures var f := c + [SetCap(IFullCapture, idx, kind, n)];
            Reaches(env, f, Run(0, s, [], caps),
                    Run(|f|, s + n, [], CloseCap(caps + [Capture(s, idx, kind, 0)], s + n, 0, CCLOSE)))
  {
    hide Reaches, Step, Steps, Exec, Passes, SpanEnd;
    var i := SetCap(IFullCapture, idx, kind, n);
    var f, full := c + [i], caps + [Capture(s, idx, kind, n + 1)];
    SetCapFields(IFullCapture, idx, kind, n);
    assert CloseCap(caps + [Capture(s, idx, kind, 0)], s + n, 0, CCLOSE) == full;
    assert CapStep(i, s + n, caps) == full;
    StepFlow(env, f, |c|, s + n, [], caps);
    ReachesSelf(env, f, Run(|f|, s + n, [], full));
    ReachesStep(env, f, Run(|c|, s + n, [], caps), Run(|f|, s + n, [], full));
    ReachesTrans(env, f, Run(0, s, [], caps), Run(|c|, s + n, [], caps), Run(|f|, s + n, [], full));
  }

  lemma FullCaptureGood(c: Code, p: Pat, kind: CapKind, idx: int, n: nat, d: nat)
    requires Implements(c, p) && WF(c) && (forall j :: 0 <= j < |c| ==> IsCheck(c[j])) && CheckLen(c) == n <= MAXOFF
    ensures Good(c + [SetCap(IFullCapture, idx, kind, n)], Capt(kind, idx, p), d)
  {
    var i := SetCap(IFullCapture, idx, kind, n);
    var f := c + [i];
    SetCapFields(IFullCapture, idx, kind, n);
    forall j | 0 <= j < |f| ensures Straight(f[j]) { if j < |c| { assert WFAt(c, j); } }
    StraightSolid(f, d);
    assert FirstPart(f) == 0;
    forall env, s, caps {:trigger Peg(env, Capt(kind, idx, p), s, caps)} | EnvOk(env) && 0 <= s <= |env.subj|
      ensures Reaches(env, f, Run(0, s, [], caps), Outcomes(Peg(env, Capt(kind, idx, p), s, caps), |f|, []))
    {
      FullCaptureRun(c, p, kind, idx, n, env, s, caps);
    }
  }

  function OpenClose(kind: CapKind, idx: int, c: Code): Code {
    [SetCap(IOpenCapture, idx, kind, 0)] + c + [SetCap(ICloseCapture, 0, CCLOSE, 0)]
  }

  lemma OpenCloseParts(kind: CapKind, idx: int, c: Code)
    ensures var f := OpenClose(kind, idx, c);
            && |f| == |c| + 2 && f[0] == SetCap(IOpenCapture, idx, kind, 0) && At(f, 1, c)
            && f[|c| + 1] == SetCap(ICloseCapture, 0, CCLOSE, 0)
  {
  }

  lemma OpenCloseRun(f: Code, c: Code, p: Pat, kind: CapKind, idx: int, env: Env, s: int, caps: seq<Capture>)
    requires Implements(c, p) && EnvOk(env) && 0 <= s <= |env.subj|
    requires |f| == |c| + 2 && f[0] == SetCap(IOpenCapture, idx, kind, 0) && At(f, 1, c)
    requires f[|c| + 1] == SetCap(ICloseCapture, 0, CCLOSE, 0)
    ensures Reaches(env, f, Run(0, s, [], caps), Outcomes(Peg(env, Capt(kind, idx, p), s, caps), |f|, []))
  {
    hide Peg, Reaches, Implements, Step, Steps, Exec, Passes, SpanEnd;
    PegCapt(env, kind, idx, p, s, caps);
    var open := caps + [Capture(s, idx, kind, 0)];
    var r, d := Peg(env, p, s, open), Outcomes(Peg(env, Capt(kind, idx, p), s, caps), |f|, []);
    SetCapFields(IOpenCapture, idx, kind, 0);
    SetCapFields(ICloseCapture, 0, CCLOSE, 0);
    assert CapStep(f[0], s, caps) == open;
    StepFlow(env, f, 0, s, [], caps);
    UseAt(c, p, f, 1, env, s, [], open);
    ReachesSelf(env, f, d);
    if r.Got? {
      assert CapStep(f[|c| + 1], r.s, r.caps) == CloseCap(r.caps, r.s, 0, CCLOSE);
      StepFlow(env, f, |c| + 1, r.s, [], r.caps);
      ReachesStep(env, f, Outcomes(r, |c| + 1, []), d);
    }
    ReachesTrans(env, f, Run(1, s, [], open), Outcomes(r, |c| + 1, []), d);
    ReachesStep(env, f, Run(0, s, [], caps), d);
  }

  lemma OpenCloseImplements(c: Code, p: Pat, kind: CapKind, idx: int)
    requires Implements(c, p)
    ensures Implements(OpenClose(kind, idx, c), Capt(kind, idx, p))
  {
    OpenCloseParts(kind, idx, c);
    var f := OpenClose(kind, idx, c);
    forall env, s, caps {:trigger Peg(env, Capt(kind, idx, p), s, caps)} | EnvOk(env) && 0 <= s <= |env.subj|
      ensures Reaches(env, f, Run(0, s, [], caps), Outcomes(Peg(env, Capt(kind, idx, p), s, caps), |f|, []))
    {
      OpenCloseRun(f, c, p, kind, idx, env, s, caps);
    }
  }

  lemma CaptureFine(c: Code, ty: seq<Ctx>, d: nat, l: nat)
    requires |c| == l + 2 && |ty| == l + 3 && ty[0] == Base && ty[l + 2] == Base
    requires ty[1] == InCapture(Base) && ty[l + 1] == InCapture(Base)
    requires c[0].op.IOpenCapture? && c[0].aux < 256 && c[l + 1].op.ICloseCapture? && c[l + 1].aux < 256
    ensures Fine(c, ty, d, 0) && Fine(c, ty, d, l + 1) && FirstOk(c)
  {
  }

  lemma CaptureTy(c: Code, tc: seq<Ctx>, d: int) returns (ty: seq<Ctx>)
    requires TypedBy(c, tc, d)
    ensures |ty| == |c| + 3 && ty[0] == Base && ty[|c| + 2] == Base
    ensures ty[1] == InCapture(Base) && ty[|c| + 1] == InCapture(Base) && Carries(ty, 1, tc, InCapture(Base))
  {
    var t := InCapture(Base);
    ty := [Base] + Wrap(tc, t) + [Base];
    CarriesWrap([Base], tc, t, [Base]);
    assert ty[1] == Wrap(tc, t)[0] == Within(tc[0], t) && ty[|c| + 1] == Wrap(tc, t)[|c|] == Within(tc[|c|], t);
  }

  lemma OpenCloseEnds(kind: CapKind, idx: int, c: Code)
    ensures var f := OpenClose(kind, idx, c);
            |f| == |c| + 2 && f[0].op.IOpenCapture? && f[0].aux < 256 && f[|c| + 1].op.ICloseCapture?
              && f[|c| + 1].aux < 256
  {
    SetCapFields(IOpenCapture, idx, kind, 0);
    SetCapFields(ICloseCapture, 0, CCLOSE, 0);
  }

  lemma OpenCloseSolid(c: Code, kind: CapKind, idx: int, d: nat)
    requires Solid(c, d)
    ensures Solid(OpenClose(kind, idx, c), d)
  {
    hide OpenClose, WF, Fine, WFAt, TypedAt, At, Carries, TypedBy, FirstOk, SetCap, GetOff, GetKind;
    OpenCloseParts(kind, idx, c);
    OpenCloseEnds(kind, idx, c);
    var f, l := OpenClose(kind, idx, c), |c|;
    var tc :| TypedBy(c, tc, d);
    var ty := CaptureTy(c, tc, d);
    CaptureFine(f, ty, d, l);
    PieceFine(c, tc, d, f, ty, 1, InCapture(Base), d);
    Assemble(f, ty, d);
  }

  lemma CaptGood(c: Code, p: Pat, kind: CapKind, idx: int, d: nat)
    requires Solid(c, d) && Implements(c, p)
    ensures Good(CaptCode(kind, idx, c), Capt(kind, idx, p), d)
  {
    var (k, n) := SkipChecks(c, 0, 0, 0);
    SkipChecksProps(c, 0, 0, 0);
    if k == |c| {
      assert c[0..0 + k] == c;
      FullCaptureGood(c, p, kind, idx, n, d);
    } else {
      var f := OpenClose(kind, idx, c);
      OpenCloseImplements(c, p, kind, idx);
      OpenCloseSolid(c, kind, idx, d);
      OptimizeCapturesKeeps(f, Capt(kind, idx, p), d);
      FirstPartSame(f, OptimizeCaptures(f));
      assert FirstPart(f) == 0;
    }
  }

  // ----- whole patterns -----------------------------------------------------------------------

  lemma LeafGood(c: Code, p: Pat, d: nat)
    requires Solid(c, d) && Implements(c, p) && (c != [] ==> !IsJmp(c[0]))
    ensures Good(c, p, d)
  {
  }

  lemma CharsGood(bytes: seq<Byte>, d: nat)
    ensures Good(CharsCode(bytes), Chars(bytes), d)
  {
    if |bytes| == 1 {
      LitImplements(bytes);
      LitSolid(bytes, d);
      forall env, s, caps {:trigger Peg(env, Chars(bytes), s, caps)} | EnvOk(env) && 0 <= s <= |env.subj|
        ensures Peg(env, Chars(bytes), s, caps) == Peg(env, Lit(bytes), s, caps)
      {
        if s + 1 <= |env.subj| { assert env.subj[s..s + 1] == [env.subj[s]]; }
      }
      ImplementsSame(LitCode(bytes), Lit(bytes), Chars(bytes));
      LeafGood(LitCode(bytes), Chars(bytes), d);
    } else {
      SetImplements(CharsSet(bytes), Chars(bytes));
      SetSolid(CharsSet(bytes), d);
      LeafGood(CharsCode(bytes), Chars(bytes), d);
    }
  }

  lemma NotAnyGood(n: Pos, d: Pos)
    ensures Good(NotAnyCode(n), NotAny(n), d)
  {
    NotAnyImplements(n);
    NotAnySolid(n, d);
    if n > UCHAR_MAX { NotAnyLongParts(n); }
    assert FirstPart(NotAnyCode(n)) == 0;
  }

  lemma UnionGood(c1: Code, p1: Pat, c2: Code, p2: Pat, d: Pos)
    requires Good(c1, p1, d - 1) && Good(c2, p2, d) && UnionSafe(c1, c2)
    ensures Good(UnionCode(c1, c2), Or(p1, p2), d)
  {
    hide Good, Peg, Separate, RestoresOneByte, Implements, Solid;
    GoodBasics(c1, p1, d - 1);
    GoodBasics(c2, p2, d);
    if c1 != [] && c1[0].op.IFail? {
      NeverMatches(c1, p1);
      forall env, s, caps {:trigger Peg(env, Or(p1, p2), s, caps)} | EnvOk(env) && 0 <= s <= |env.subj|
        ensures Peg(env, Or(p1, p2), s, caps) == Peg(env, p2, s, caps)
      {
        PegOr(env, p1, p2, s, caps);
      }
      GoodSame(c2, p2, Or(p1, p2), d);
    } else if c2 != [] && c2[0].op.IFail? {
      NeverMatches(c2, p2);
      forall env, s, caps {:trigger Peg(env, Or(p1, p2), s, caps)} | EnvOk(env) && 0 <= s <= |env.subj|
        ensures Peg(env, Or(p1, p2), s, caps) == Peg(env, p1, s, caps)
      {
        PegOr(env, p1, p2, s, caps);
      }
      GoodMore(c1, p1, d - 1, d);
      GoodSame(c1, p1, Or(p1, p2), d);
    } else {
      SeparateGood(c1, p1, c2, p2, d);
    }
  }

  // Code that starts with a failure implements only patterns that never match.
  lemma NeverMatches(c: Code, p: Pat)
    requires WF(c) && Implements(c, p) && c != [] && c[0].op.IFail?
    ensures forall env, s, caps {:trigger Peg(env, p, s, caps)} ::
              EnvOk(env) && 0 <= s <= |env.subj| ==> Peg(env, p, s, caps).Nope?
  {
    forall env, s, caps {:trigger Peg(env, p, s, caps)} | EnvOk(env) && 0 <= s <= |env.subj|
      ensures Peg(env, p, s, caps).Nope?
    {
      var st, d := Run(0, s, [], caps), Outcomes(Peg(env, p, s, caps), |c|, []);
      StepFlow(env, c, 0, s, [], caps);
      ReachesFromStep(env, c, st, d);
      HaltedReaches(env, c, Fail([]), d);
    }
  }

  predicate IsLeaf(p: Pat) { p.Lit? || p.Any? || p.NotAny? || p.Bool? || p.Chars? || p.Ranges? || p.Empties? }

  lemma CompileLeafGood(p: Pat)
    requires Compile(p).Ok? && IsLeaf(p)
    ensures Good(Compile(p).value, p, Depth(p))
  {
    hide Good, Implements, Typed, WF, Solid;
    match p
    case Lit(bytes) => LitImplements(bytes); LitSolid(bytes, 0); LeafGood(LitCode(bytes), p, 0);
    case Any(n) => AnyImplements(n); AnySolid(n, 0); if n > 0 { AnyStraight(n); } LeafGood(AnyCode(n), p, 0);
    case NotAny(n) => NotAnyGood(n, 1);
    case Bool(b) =>
      BoolImplements(b);
      StraightSolid(if b then [] else [Set(IFail, 0)], 0);
      LeafGood(if b then [] else [Set(IFail, 0)], p, 0);
    case Chars(bytes) => CharsGood(bytes, 0);
    case Ranges(pairs) =>
      SetImplements(RangesSet(pairs), p);
      SetSolid(RangesSet(pairs), 0);
      LeafGood([SetInstr(RangesSet(pairs))], p, 0);
    case Empties(entries) => EmptiesImplements(entries); EmptiesSolid(entries, 0); LeafGood(EmptiesCode(entries), p, 0);
  }

  // The code of a pattern means the pattern, is well formed and well bracketed.
  lemma {:induction false} CompileGood(p: Pat)
    requires Compile(p).Ok? && Safe(p)
    ensures Good(Compile(p).value, p, Depth(p))
    decreases p, 1
  {
    match p
    case Cat(_, _) => CompilePairGood(p);
    case Or(_, _) => CompilePairGood(p);
    case Diff(_, _) => CompilePairGood(p);
    case Neg(_) => CompileOneGood(p);
    case And(_) => CompileOneGood(p);
    case Rep(_, _) => CompileOneGood(p);
    case Opt(_, _) => CompileOneGood(p);
    case Capt(_, _, _) => CompileOneGood(p);
    case _ => CompileLeafGood(p);
  }

  lemma CatParts(a: Pat, b: Pat)
    requires Compile(Cat(a, b)).Ok? && Safe(Cat(a, b))
    ensures Compile(a).Ok? && Safe(a) && Compile(b).Ok? && Safe(b)
    ensures Compile(Cat(a, b)).value == ConcatCode(Compile(a).value, Compile(b).value)
    ensures Depth(a) <= Depth(Cat(a, b)) && Depth(b) <= Depth(Cat(a, b))
  {
    hide ConcatCode;
  }

  lemma OrParts(a: Pat, b: Pat)
    requires Compile(Or(a, b)).Ok? && Safe(Or(a, b))
    ensures Compile(a).Ok? && Safe(a) && Compile(b).Ok? && Safe(b)
    ensures Compile(Or(a, b)).value == UnionCode(Compile(a).value, Compile(b).value)
            && UnionSafe(Compile(a).value, Compile(b).value)
    ensures Depth(a) + 1 <= Depth(Or(a, b)) && Depth(b) <= Depth(Or(a, b))
  {
    hide UnionCode, UnionSafe;
  }

  lemma DiffParts(a: Pat, b: Pat)
    requires Compile(Diff(a, b)).Ok? && Safe(Diff(a, b))
    ensures Compile(a).Ok? && Safe(a) && Compile(b).Ok? && Safe(b)
    ensures Compile(Diff(a, b)).value == DiffCode(Compile(a).value, Compile(b).value)
    ensures Depth(a) <= Depth(Diff(a, b)) && Depth(b) + 1 <= Depth(Diff(a, b))
  {
    hide DiffCode;
  }

  lemma {:induction false} CompilePairGood(p: Pat)
    requires Compile(p).Ok? && Safe(p) && (p.Cat? || p.Or? || p.Diff?)
    ensures Good(Compile(p).value, p, Depth(p))
    decreases p, 0
  {
    hide Compile, Safe, Depth, Good, Implements, Solid, WF, ConcatCode, UnionCode, DiffCode, UnionSafe;
    var d := Depth(p);
    match p
    case Cat(a, b) =>
      CatParts(a, b);
      CompileGoodAt(a, d); CompileGoodAt(b, d);
      ConcatGood(Compile(a).value, a, Compile(b).value, b, d);
    case Or(a, b) =>
      OrParts(a, b);
      CompileGoodAt(a, d - 1); CompileGoodAt(b, d);
      UnionGood(Compile(a).value, a, Compile(b).value, b, d);
    case Diff(a, b) =>
      DiffParts(a, b);
      CompileGoodAt(a, d); CompileGoodAt(b, d - 1);
      GoodBasics(Compile(a).value, a, d);
      GoodBasics(Compile(b).value, b, d - 1);
      DiffGood(Compile(a).value, a, Compile(b).value, b, d);
  }

  lemma {:induction false} CompileOneGood(p: Pat)
    requires Compile(p).Ok? && Safe(p) && (p.Neg? || p.And? || p.Rep? || p.Opt? || p.Capt?)
    ensures Good(Compile(p).value, p, Depth(p))
    decreases p, 0
  {
    hide Good, Implements, Solid, WF, AndCode, RepCode, OptCode, CaptCode;
    var d := Depth(p);
    match p
    case Neg(a) => CompileGoodAt(a, d - 1); GoodBasics(Compile(a).value, a, d - 1); NegGood(Compile(a).value, a, d);
    case And(a) => CompileGoodAt(a, d - 1); GoodBasics(Compile(a).value, a, d - 1); AndGood(Compile(a).value, a, d);
    case Rep(a, n) =>
      CompileGoodAt(a, d - 1);
      GoodBasics(Compile(a).value, a, d - 1);
      RepGood(Compile(a).value, a, n, d);
    case Opt(a, n) =>
      CompileGoodAt(a, d - 1);
      GoodBasics(Compile(a).value, a, d - 1);
      OptGood(Compile(a).value, a, n, d);
    case Capt(kind, idx, a) =>
      CompileGoodAt(a, d);
      GoodBasics(Compile(a).value, a, d);
      CaptGood(Compile(a).value, a, kind, idx, d);
  }

  lemma {:induction false} CompileGoodAt(p: Pat, d: int)
    requires Compile(p).Ok? && Safe(p) && Depth(p) <= d
    ensures Good(Compile(p).value, p, d)
    decreases p, 2
  {
    CompileGood(p);
    GoodMore(Compile(p).value, p, Depth(p), d);
  }
}

// Which patterns the restored choices can spoil at all: only those with an ordered
// choice whose second operand starts with an empty character set.

module LpegGuard {
  import opened LpegCode
  import opened LpegPeg
  import opened LpegBuild
  import opened LpegMeaning
  import opened LpegHeads
  import opened LpegLoops
  import opened LpegMoves
  import opened LpegSolid
  import opened LpegUnion
  import opened LpegSeparate
  import opened LpegCorrect

  // Code whose first check no byte passes.
  predicate StartsNowhere(c: Code) {
    c != [] && IsCheck(c[0]) && FillCharset(c[0]) == {}
  }

  ghost predicate Guarded(p: Pat) {
    match p
    case Cat(a, b) => Guarded(a) && Guarded(b)
    case Or(a, b) => Guarded(a) && Guarded(b) && (Compile(b).Ok? ==> !StartsNowhere(Compile(b).value))
    case Diff(a, b) => Guarded(a) && Guarded(b)
    case Neg(a) => Guarded(a)
    case And(a) => Guarded(a)
    case Rep(a, n) => Guarded(a)
    case Opt(a, n) => Guarded(a)
    case Capt(_, _, a) => Guarded(a)
    case _ => true
  }

  // No alternative would need a restored choice behind a test of several bytes,
  // whatever the code is united with.
  predicate Steady(c: Code)
    decreases |c|
  {
    var sp := FirstPart(c);
    sp != 0 ==>
      && (c[sp - 1].op.ICommit? || NoFail(c[..sp]) || StepLen(c[0]) == 1)
      && Steady(c[sp..])
  }

  lemma {:induction false} SteadyRestores(c1: Code, c2: Code)
    requires Steady(c1)
    ensures RestoresOneByte(c1, c2)
    decreases |c1|
  {
    var sp := FirstPart(c1);
    if sp != 0 { SteadyRestores(c1[sp..], c2); }
  }

  // A single test is exclusive with other code only if it is of one byte.
  lemma ExclusiveTest(c1: Code, c2: Code)
    requires Exclusive(ToCharset(c1), ToCharset(c2)) && !StartsNowhere(c2)
    ensures c1 != [] && IsCheck(c1[0]) && StepLen(c1[0]) == 1
  {
    var b :| b in FillCharset(c2[0]);
    assert b in ToCharset(c2).cs;
    if c1[0].op.IAny? { assert b in FULL_SET; }
  }

  lemma TestUnionSteady(c1: Code, c2: Code)
    requires c1 != [] && IsCheck(c1[0]) && Steady(c2) && (StepLen(c1[0]) == 1 || IsHeadFail(c1))
    ensures Steady(TestUnion(c1, c2))
  {
    var c, sp := TestUnion(c1, c2), |c1| + 1;
    assert c[sp..] == c2 && c[sp - 1] == Set(IJmp, |c2| + 1) && c[0] == Check2Test(c1[0], sp);
    if IsHeadFail(c1) {
      forall j | 0 <= j < sp ensures IsNoFail(c[..sp][j]) {
        if 0 < j < sp - 1 { assert c[j] == c1[j]; }
      }
    }
    assert FirstPart(c) == sp;
  }

  lemma ChoiceUnionSteady(c1: Code, c2: Code)
    requires Steady(c2)
    ensures Steady(OptimizeChoice(ChoiceUnion(c1, c2)))
  {
    var c0, sp := ChoiceUnion(c1, c2), |c1| + 2;
    var c := OptimizeChoice(c0);
    ChoiceUnionParts(c1, c2);
    if IsCheck(c0[1]) { SameSuffix(c0); } else { OptimizeChoiceNot(c0); }
    assert c[2..] == c0[2..] && c[sp..] == c[2..][sp - 2..] == c0[2..][sp - 2..] == c0[sp..] == c2;
    assert sp > 2 ==> c[sp - 1] == c[2..][sp - 3] == c0[2..][sp - 3];
    assert FirstPart(c) == sp;
  }

  lemma BasicUnionSteady(c1: Code, c2: Code)
    requires Steady(c2) && !StartsNowhere(c2)
    ensures Steady(BasicUnion(c1, c2))
  {
    hide ToCharset, TestUnion, ChoiceUnion, OptimizeChoice, IsHeadFail, Exclusive, StartsNowhere;
    var (t1, t2) := (ToCharset(c1), ToCharset(c2));
    if t1.IsCharset? && t2.IsCharset? {
      assert FirstPart([SetInstr(t1.cs + t2.cs)]) == 0;
    } else if Exclusive(t1, t2) {
      ExclusiveTest(c1, c2);
      TestUnionSteady(c1, c2);
    } else if IsHeadFail(c1) {
      HeadFailCheck(c1);
      TestUnionSteady(c1, c2);
    } else {
      ChoiceUnionSteady(c1, c2);
    }
  }

  lemma HeadFailCheck(c: Code)
    requires IsHeadFail(c)
    ensures c != [] && IsCheck(c[0])
  {
  }

  lemma FirstPartShape(c: Code)
    requires FirstPart(c) != 0
    ensures var sp := FirstPart(c);
            && sp <= |c| && (IsTest(c[0]) || c[0].op.IChoice?) && c[0].offset == sp
            && (c[sp - 1].op.ICommit? || (IsTest(c[0]) && c[sp - 1].op.IJmp?)) && Dest(c, sp - 1) == |c|
            && sp >= 2
  {
  }

  lemma KeepSteady(first: Code, rest: Code)
    requires |first| >= 2 && (IsTest(first[0]) || first[0].op.IChoice?) && first[0].offset == |first|
    requires first[|first| - 1].op.ICommit? || (IsTest(first[0]) && first[|first| - 1].op.IJmp?)
    requires Steady(rest) && (first[|first| - 1].op.ICommit? || NoFail(first) || StepLen(first[0]) == 1)
    ensures Steady(KeepFirst(first, rest))
  {
    var c, sp := KeepFirst(first, rest), |first|;
    FirstPartOfKeep(first, rest);
    KeepFirstParts(first, rest);
    if NoFail(first) {
      forall j | 0 <= j < sp ensures IsNoFail(c[..sp][j]) { assert c[j].op == first[j].op; }
    }
  }

  lemma RestoreSteady(first: Code, rest: Code)
    requires |first| >= 2 && IsTest(first[0]) && first[0].offset == |first| && Steady(rest)
    ensures Steady(RestoreChoice(first, rest))
  {
    RestoreIsKeep(first, rest);
    var f := Restored(first);
    assert f[0].offset == |f| && f[|f| - 1].op.ICommit?;
    KeepSteady(f, rest);
  }

  lemma {:induction false} SeparateSteady(c1: Code, c2: Code)
    requires Steady(c1) && Steady(c2) && !StartsNowhere(c2)
    ensures Steady(Separate(c1, c2))
    decreases |c1|
  {
    var sp := FirstPart(c1);
    if sp == 0 {
      BasicUnionSteady(c1, c2);
    } else {
      var first, rest := c1[..sp], Separate(c1[sp..], c2);
      FirstPartShape(c1);
      SeparateSteady(c1[sp..], c2);
      hide KeepFirst, RestoreChoice, FirstPart, Interfere;
      if c1[sp - 1].op.ICommit? || !Interfere(first, ToCharset(c2)) {
        KeepSteady(first, rest);
      } else {
        RestoreSteady(first, rest);
      }
    }
  }

  lemma UnionSteady(c1: Code, c2: Code)
    requires Steady(c1) && Steady(c2) && !StartsNowhere(c2)
    ensures Steady(UnionCode(c1, c2)) && UnionSafe(c1, c2)
  {
    SteadyRestores(c1, c2);
    SeparateSteady(c1, c2);
  }

  lemma NoFirstSteady(c: Code)
    requires FirstPart(c) == 0
    ensures Steady(c)
  {
  }

  // At most one alternative, the whole code, and that one never needs a choice put back.
  predicate Whole(c: Code) {
    FirstPart(c) != 0 ==> FirstPart(c) == |c| && (c[|c| - 1].op.ICommit? || NoFail(c))
  }

  lemma WholeSteady(c: Code)
    requires Whole(c)
    ensures Steady(c)
  {
    if FirstPart(c) != 0 {
      assert c[..|c|] == c && c[|c|..] == [];
      assert FirstPart([]) == 0;
    }
  }

  // ----- each kind of pattern -------------------------------------------------------

  // A sequence with an empty operand has the alternatives of the other one, any other none.
  lemma CatAlternatives(c1: Code, p1: Pat, c2: Code, p2: Pat, d: nat)
    requires Good(c1, p1, d) && Good(c2, p2, d)
    ensures var c, only := ConcatCode(c1, c2), if c1 == [] then c2 else c1;
            && FirstPart(c) == (if c1 == [] || c2 == [] then FirstPart(only) else 0)
            && (FirstPart(c) != 0 ==> c == only)
  {
    GoodBasics(c1, p1, d);
    GoodBasics(c2, p2, d);
    if IsAnyCode(c1) && IsAnyCode(c2) && c1[0].aux + c2[0].aux > 0 {
      AnyStraight(c1[0].aux + c2[0].aux);
    } else {
      var c := c1 + c2;
      CatImplements(c1, p1, c2, p2);
      CatSolid(c1, c2, d);
      OptimizeCapturesKeeps(c, Cat(p1, p2), d);
      FirstPartSame(c, OptimizeCaptures(c));
      if FirstPart(c) != 0 { FirstPartStays(c); }
      hide FirstPart, OptimizeCaptures;
      if c1 == [] { assert c == c2; } else if c2 == [] { assert c == c1; } else { CatFirstPart(c1, c2); }
    }
  }

  lemma CatSteady(c1: Code, p1: Pat, c2: Code, p2: Pat, d: nat)
    requires Steady(c1) && Steady(c2) && Good(c1, p1, d) && Good(c2, p2, d)
    ensures Steady(ConcatCode(c1, c2))
  {
    hide Steady, ConcatCode;
    CatAlternatives(c1, p1, c2, p2, d);
    if FirstPart(ConcatCode(c1, c2)) == 0 { NoFirstSteady(ConcatCode(c1, c2)); }
  }

  lemma DiffWhole(c1: Code, c2: Code)
    ensures Whole(DiffCode(c1, c2))
  {
    if IsHeadFail(c2) { NotHeadFirst(c1, c2); } else { NotThenFirst(c1, c2); }
  }

  lemma NotHeadFirst(c1: Code, c2: Code)
    requires IsHeadFail(c2)
    ensures FirstPart(NotHead(c2, c1)) == 0
  {
    hide NotHead;
    NotHeadParts(c2, c1);
    var c := NotHead(c2, c1);
    assert FirstPart(c) == 0;
  }

  lemma RepWhole(c: Code, p: Pat, n: nat, d: nat)
    requires Solid(c, d) && Implements(c, p) && RepCode(c, n).Ok?
    ensures Whole(RepCode(c, n).value)
  {
    if ToCharset(c).IsCharset? {
      var loop := [SpanInstr(ToCharset(c).cs)];
      if n == 0 { assert Copies(c, 0) + loop == loop; } else { CopiesFront(c, n, loop); }
    } else if IsHeadFail(c) {
      HeadFailLoopImplements(c, p);
      HeadFailLoopSolid(c, d);
      forall c' | SameJumps(HeadFailLoop(c), c') ensures FirstPart(OptimizeJumps(c')) == 0 {
        HeadFailLoopFirstPart(c, c');
      }
      LoopWhole(c, p, n, HeadFailLoop(c), d);
    } else {
      AcceptsSomething(c);
      AcceptedAdvances(c, p);
      SolidMore(c, d, d + 1);
      ChoiceLoopImplements(c, p);
      ChoiceLoopSolid(c, d + 1);
      forall c' | SameJumps(ChoiceLoop(c), c') ensures FirstPart(OptimizeJumps(c')) == 0 { ChoiceLoopFirstPart(c, c'); }
      LoopWhole(c, p, n, ChoiceLoop(c), d + 1);
    }
  }

  lemma LoopWhole(c: Code, p: Pat, n: nat, loop: Code, d: nat)
    requires Solid(c, d) && Implements(c, p) && c != []
    requires Solid(loop, d) && Implements(loop, Rep(p, 0)) && loop != []
    requires forall c' :: SameJumps(loop, c') ==> FirstPart(OptimizeJumps(c')) == 0
    ensures Whole(OptimizeJumps(OptimizeCaptures(Copies(c, n) + loop)))
  {
    var c0 := Copies(c, n) + loop;
    CopiesImplements(c, p, n, loop);
    CopiesSolid(c, n, loop, d);
    OptimizeCapturesKeeps(c0, Rep(p, n), d);
    RepeatedFirst(c, n, loop, OptimizeCaptures(c0));
  }

  lemma OptWhole(c: Code, n: Pos)
    ensures Whole(OptCode(c, n))
  {
    if IsHeadFail(c) {
      HeadFailOptionalsNoFail(c, n);
      HeadFailOptionalsLength(c, n);
      assert HeadFailOptionals(c, n)[0] == Check2Test(c[0], n * |c|);
    } else {
      ChoiceOptFirst(c, n);
    }
  }

  lemma CaptWhole(c: Code, p: Pat, kind: CapKind, idx: int, d: nat)
    requires Solid(c, d) && Implements(c, p)
    ensures Whole(CaptCode(kind, idx, c))
  {
    var (k, n) := SkipChecks(c, 0, 0, 0);
    SkipChecksProps(c, 0, 0, 0);
    if k != |c| {
      var f := OpenClose(kind, idx, c);
      OpenCloseImplements(c, p, kind, idx);
      OpenCloseSolid(c, kind, idx, d);
      OptimizeCapturesKeeps(f, Capt(kind, idx, p), d);
      FirstPartSame(f, OptimizeCaptures(f));
    }
  }

  lemma AndWhole(c: Code)
    ensures Whole(AndCode(c))
  {
  }

  // ----- whole patterns ---------------------------------------------------------------

  lemma LeafWhole(p: Pat)
    requires p.Lit? || p.Any? || p.NotAny? || p.Bool? || p.Chars? || p.Ranges? || p.Empties?
    ensures Compile(p).Ok? && Whole(Compile(p).value)
  {
    match p {
      case Any(n) => if n > 0 { AnyStraight(n); }
      case NotAny(n) => if n > UCHAR_MAX { NotAnyLongParts(n); }
      case _ =>
    }
  }

  // Every pattern but a sequence and an ordered choice.
  lemma SimpleWhole(p: Pat)
    requires Compile(p).Ok? && Safe(p) && !p.Cat? && !p.Or?
    ensures Whole(Compile(p).value)
  {
    hide Good, Implements, Whole, DiffCode, RepCode, OptCode, CaptCode, AndCode;
    match p
    case Diff(a, b) => DiffWhole(Compile(a).value, Compile(b).value);
    case Neg(a) => DiffWhole([], Compile(a).value);
    case And(a) => AndWhole(Compile(a).value);
    case Rep(a, n) =>
      CompileGood(a);
      GoodBasics(Compile(a).value, a, Depth(a));
      RepWhole(Compile(a).value, a, n, Depth(a));
    case Opt(a, n) => OptWhole(Compile(a).value, n);
    case Capt(kind, idx, a) =>
      CompileGood(a);
      GoodBasics(Compile(a).value, a, Depth(a));
      CaptWhole(Compile(a).value, a, kind, idx, Depth(a));
    case _ => LeafWhole(p);
  }

  lemma SimpleSteady(p: Pat)
    requires Safe(p) && !p.Cat? && !p.Or?
    ensures Compile(p).Ok? ==> Steady(Compile(p).value)
  {
    hide Whole, Steady, Compile, Safe;
    if Compile(p).Ok? {
      SimpleWhole(p);
      WholeSteady(Compile(p).value);
    }
  }

  // A pattern without such a choice compiles to code that means it.
  lemma {:induction false} GuardedSafe(p: Pat)
    requires Guarded(p)
    ensures Safe(p) && (Compile(p).Ok? ==> Steady(Compile(p).value))
  {
    hide Good, Implements, Steady, StartsNowhere, UnionSafe, ConcatCode, UnionCode;
    match p
    case Cat(a, b) =>
      GuardedSafe(a);
      GuardedSafe(b);
      if Compile(p).Ok? {
        var d := Max(Depth(a), Depth(b));
        CompileGoodAt(a, d);
        CompileGoodAt(b, d);
        CatSteady(Compile(a).value, a, Compile(b).value, b, d);
      }
    case Or(a, b) =>
      GuardedSafe(a);
      GuardedSafe(b);
      if Compile(p).Ok? { UnionSteady(Compile(a).value, Compile(b).value); }
    case Diff(a, b) => GuardedSafe(a); GuardedSafe(b); SimpleSteady(p);
    case Neg(a) => GuardedSafe(a); SimpleSteady(p);
    case And(a) => GuardedSafe(a); SimpleSteady(p);
    case Rep(a, _) => GuardedSafe(a); SimpleSteady(p);
    case Opt(a, _) => GuardedSafe(a); SimpleSteady(p);
    case Capt(_, _, a) => GuardedSafe(a); SimpleSteady(p);
    case _ => SimpleSteady(p);
  }
}

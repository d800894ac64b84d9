// Every builder emits well-formed, well-bracketed code.

module LpegSolid {
  import opened LpegCode
  import opened LpegBuild
  import opened LpegTyping
  import opened LpegHeads
  import opened LpegMeaning
  import opened LpegLoops

  // Well-formed, with at most `d` choices open at once.
  ghost predicate Solid(c: Code, d: int) { WF(c) && Typed(c, d) }

  lemma SolidMore(c: Code, d: int, d': int)
    requires Solid(c, d) && d <= d'
    ensures Solid(c, d')
  {
    var ty :| TypedBy(c, ty, d);
    assert TypedBy(c, ty, d');
  }

  lemma CarriesWrap(pre: seq<Ctx>, t: seq<Ctx>, outer: Ctx, post: seq<Ctx>)
    ensures Carries(pre + Wrap(t, outer) + post, |pre|, t, outer)
  {
    var big := pre + Wrap(t, outer) + post;
    forall i {:trigger t[i]} | 0 <= i < |t| ensures big[|pre| + i] == Within(t[i], outer) {
      assert big[|pre| + i] == Wrap(t, outer)[i];
    }
  }

  lemma WrapBase(t: seq<Ctx>)
    ensures Wrap(t, Base) == t
  {
    forall i | 0 <= i < |t| ensures Wrap(t, Base)[i] == t[i] { WithinBase(t[i]); }
  }

  lemma CarriesSelf(pre: seq<Ctx>, t: seq<Ctx>, post: seq<Ctx>)
    ensures Carries(pre + t + post, |pre|, t, Base)
  {
    WrapBase(t);
    CarriesWrap(pre, t, Base, post);
  }

  // Everything the code must satisfy at one instruction.
  ghost predicate Fine(c: Code, ty: seq<Ctx>, d: int, j: int) {
    && 0 <= j < |c| && |ty| == |c| + 1
    && WFAt(c, j) && TypedAt(c, ty, j) && Choices(ty[j]) <= d
  }

  lemma Assemble(c: Code, ty: seq<Ctx>, d: nat)
    requires FirstOk(c) && |ty| == |c| + 1 && ty[0] == Base && ty[|c|] == Base
    requires forall j :: 0 <= j < |c| ==> Fine(c, ty, d, j)
    ensures Solid(c, d)
  {
    hide WFAt, TypedAt, FirstOk;
    forall j | 0 <= j < |c| ensures WFAt(c, j) { assert Fine(c, ty, d, j); }
    WFJumpsInside(c);
    forall j | 0 <= j < |c| ensures TypedAt(c, ty, j) && Choices(ty[j]) <= d { assert Fine(c, ty, d, j); }
    assert TypedBy(c, ty, d);
  }

  lemma PieceFine(c: Code, ty: seq<Ctx>, dc: int, big: Code, bigTy: seq<Ctx>, b: int, outer: Ctx, d: int)
    requires WF(c) && TypedBy(c, ty, dc) && At(big, b, c) && |bigTy| == |big| + 1 && Carries(bigTy, b, ty, outer)
    requires dc + Choices(outer) <= d
    ensures forall j :: b <= j < b + |c| ==> Fine(big, bigTy, d, j)
  {
    TypedEmbed(c, ty, dc, big, bigTy, b, outer);
    WFEmbed(c, big, b);
  }

  lemma TailFine(c: Code, ty: seq<Ctx>, dc: int, big: Code, bigTy: seq<Ctx>, b: int, outer: Ctx, d: int)
    requires WF(c) && TypedBy(c, ty, dc) && c != [] && IsCheck(c[0])
    requires 0 <= b && At(big, b + 1, c[1..]) && |bigTy| == |big| + 1 && Carries(bigTy, b + 1, ty[1..], outer)
    requires dc + Choices(outer) <= d
    ensures forall j :: b < j < b + |c| ==> Fine(big, bigTy, d, j)
  {
    TypedEmbedTail(c, ty, dc, big, bigTy, b, outer);
    WFEmbedTail(c, big, b);
  }

  // The type after a leading check is the type before it.
  lemma SecondTy(c: Code, ty: seq<Ctx>, d: int)
    requires TypedBy(c, ty, d) && c != [] && IsCheck(c[0])
    ensures ty[1] == Base
  {
    assert TypedAt(c, ty, 0);
  }

  lemma CheckOk(c: Code)
    requires WF(c) && c != [] && IsCheck(c[0])
    ensures InstrOk(c[0]) && forall n :: InstrOk(Check2Test(c[0], n))
  {
    assert WFAt(c, 0);
  }

  // ----- straight code --------------------------------------------------------------

  ghost predicate Straight(i: Instr) {
    InstrOk(i) && !IsJmp(i) && !i.op.IFailTwice? && !i.op.IOpenCapture? && !i.op.ICloseCapture?
    && (i.op.IFail? ==> i.aux == 0)
  }

  lemma StraightSolid(c: Code, d: nat)
    requires forall j :: 0 <= j < |c| ==> Straight(c[j])
    ensures Solid(c, d)
  {
    var ty := seq(|c| + 1, i requires 0 <= i <= |c| => Base);
    assert TypedBy(c, ty, d);
  }

  lemma LitSolid(bytes: seq<Byte>, d: nat)
    ensures Solid(LitCode(bytes), d)
  {
    StraightSolid(LitCode(bytes), d);
  }

  lemma {:induction false} AnyStraight(n: nat)
    requires n > 0
    ensures forall j :: 0 <= j < |AnyInstrs(n)| ==> Straight(AnyInstrs(n)[j]) && IsCheck(AnyInstrs(n)[j])
    decreases n
  {
    if n > UCHAR_MAX { AnyStraight(n - UCHAR_MAX); }
  }

  lemma AnySolid(n: nat, d: nat)
    ensures Solid(AnyCode(n), d)
  {
    if n > 0 { AnyStraight(n); }
    StraightSolid(AnyCode(n), d);
  }

  lemma SetSolid(cs: Charset, d: nat)
    ensures Solid([SetInstr(cs)], d)
  {
    StraightSolid([SetInstr(cs)], d);
  }

  lemma SpanSolid(cs: Charset, d: nat)
    ensures Solid([SpanInstr(cs)], d)
  {
    StraightSolid([SpanInstr(cs)], d);
  }

  lemma EmptiesSolid(entries: seq<(CapKind, int)>, d: nat)
    ensures Solid(EmptiesCode(entries), d)
  {
    StraightSolid(EmptiesCode(entries), d);
  }

  lemma NotAnyShortSolid(n: Pos, d: Pos)
    requires n <= UCHAR_MAX
    ensures Solid(NotAnyCode(n), d)
  {
    var c := NotAnyCode(n);
    assert TypedBy(c, [Base, Base, Base], d);
    forall j | 0 <= j < |c| ensures WFAt(c, j) {}
  }

  lemma LongInnerFine(c: Code, ty: seq<Ctx>, d: Pos, j: nat)
    requires 1 < j < |c| - 1 && |ty| == |c| + 1 && ty[j] == InChoice(Base) && ty[j + 1] == InChoice(Base)
    requires Straight(c[j]) && IsCheck(c[j])
    ensures Fine(c, ty, d, j)
  {
  }

  lemma LongEndsFine(c: Code, ty: seq<Ctx>, d: Pos, n: Pos)
    requires n > UCHAR_MAX && c == NotAnyCode(n) && |c| >= 4 && |ty| == |c| + 1
    requires forall i :: 0 <= i <= |c| ==> ty[i] == if i < 2 || i == |c| then Base else InChoice(Base)
    ensures Fine(c, ty, d, 0) && Fine(c, ty, d, 1) && Fine(c, ty, d, |c| - 1) && FirstOk(c)
  {
    NotAnyLongParts(n);
  }

  lemma NotAnySolid(n: Pos, d: Pos)
    ensures Solid(NotAnyCode(n), d)
  {
    hide Fine, Solid, FirstOk, NotAnyCode, Straight, IsCheck;
    if n <= UCHAR_MAX {
      NotAnyShortSolid(n, d);
    } else {
      var c, rest := NotAnyCode(n), AnyInstrs(n - UCHAR_MAX);
      NotAnyLongParts(n);
      AnyStraight(n - UCHAR_MAX);
      var ty := seq(|c| + 1, i requires 0 <= i <= |c| => if i < 2 || i == |c| then Base else InChoice(Base));
      LongEndsFine(c, ty, d, n);
      forall j | 0 <= j < |c| ensures Fine(c, ty, d, j) {
        if 1 < j < |c| - 1 {
          assert c[2..2 + |rest|][j - 2] == rest[j - 2];
          LongInnerFine(c, ty, d, j);
        }
      }
      Assemble(c, ty, d);
    }
  }

  // ----- sequences ------------------------------------------------------------------

  lemma CatSolid(c1: Code, c2: Code, d: nat)
    requires Solid(c1, d) && Solid(c2, d)
    ensures Solid(c1 + c2, d)
  {
    hide WF, WFAt, TypedAt, Carries, TypedBy;
    WFCat(c1, c2);
    var c := c1 + c2;
    var ty1 :| TypedBy(c1, ty1, d);
    var ty2 :| TypedBy(c2, ty2, d);
    var ty := JoinTy(c1, ty1, c2, ty2, d);
    PieceFine(c1, ty1, d, c, ty, 0, Base, d);
    PieceFine(c2, ty2, d, c, ty, |c1|, Base, d);
    assert FirstOk(c) by { WFFirst(c); }
    Assemble(c, ty, d);
  }

  lemma WFFirst(c: Code)
    requires WF(c)
    ensures FirstOk(c)
  {
  }

  // Brackets of a sequence: those of its parts, sharing the point between them.
  lemma JoinTy(c1: Code, ty1: seq<Ctx>, c2: Code, ty2: seq<Ctx>, d: int) returns (ty: seq<Ctx>)
    requires TypedBy(c1, ty1, d) && TypedBy(c2, ty2, d)
    ensures |ty| == |c1| + |c2| + 1 && ty[0] == Base && ty[|c1| + |c2|] == Base
    ensures Carries(ty, 0, ty1, Base) && Carries(ty, |c1|, ty2, Base)
    ensures c1 != [] ==> Carries(ty, 1, ty1[1..], Base)
  {
    ty := ty1[..|c1|] + ty2;
    forall i {:trigger ty1[i]} | 0 <= i < |ty1| ensures ty[i] == Within(ty1[i], Base) { WithinBase(ty1[i]); }
    forall i {:trigger ty2[i]} | 0 <= i < |ty2| ensures ty[|c1| + i] == Within(ty2[i], Base) { WithinBase(ty2[i]); }
    if c1 != [] {
      var tail := ty1[1..];
      forall i {:trigger tail[i]} | 0 <= i < |tail| ensures ty[1 + i] == Within(tail[i], Base) {
        assert tail[i] == ty1[i + 1];
        WithinBase(ty1[i + 1]);
      }
    }
  }

  lemma {:induction false} CopiesSolid(c: Code, n: nat, loop: Code, d: nat)
    requires Solid(c, d) && Solid(loop, d)
    ensures Solid(Copies(c, n) + loop, d)
    decreases n
  {
    hide Solid;
    if n == 0 {
      assert Copies(c, 0) + loop == loop;
    } else {
      CopiesSolid(c, n - 1, loop, d);
      CatSolid(c, Copies(c, n - 1) + loop, d);
      assert c + (Copies(c, n - 1) + loop) == Copies(c, n) + loop;
    }
  }

  // ----- a choice around code, then more code -----------------------------------------

  // Brackets of `choice; c1; close; rest`.
  lemma BracketTy(c1: Code, ty1: seq<Ctx>, d1: int, rest: seq<Ctx>) returns (ty: seq<Ctx>)
    requires TypedBy(c1, ty1, d1) && rest != [] && rest[|rest| - 1] == Base
    ensures |ty| == |c1| + 2 + |rest| && ty[0] == Base && ty[|ty| - 1] == Base
    ensures Carries(ty, 1, ty1, InChoice(Base)) && ty[1] == InChoice(Base) && ty[|c1| + 1] == InChoice(Base)
    ensures Carries(ty, |c1| + 2, rest, Base) && ty[|c1| + 2] == rest[0]
  {
    var t := InChoice(Base);
    ty := [Base] + Wrap(ty1, t) + rest;
    CarriesWrap([Base], ty1, t, rest);
    CarriesSelf([Base] + Wrap(ty1, t), rest, []);
    assert [Base] + Wrap(ty1, t) + rest + [] == ty;
    assert ty[1] == Wrap(ty1, t)[0] == Within(ty1[0], t) && ty[|c1| + 1] == Wrap(ty1, t)[|c1|] == Within(ty1[|c1|], t);
  }

  lemma CloseFine(c: Code, ty: seq<Ctx>, d: int, j: nat)
    requires 0 < j < |c| && |ty| == |c| + 1 && ty[j] == InChoice(Base) && ty[j + 1] == Base && 1 <= d && ty[|c|] == Base
    requires c[j] == Set(IFailTwice, 0) || c[j] == Set(ICommit, |c| - j)
             || (c[j] == Set(IBackCommit, 2) && j + 2 == |c|)
    ensures Fine(c, ty, d, j)
  {
  }

  lemma OpenFine(c: Code, ty: seq<Ctx>, d: nat, n: nat)
    requires 0 < n <= |c| && |ty| == |c| + 1 && ty[0] == Base && ty[1] == InChoice(Base) && ty[n] == Base
    requires c[0] == Set(IChoice, n)
    ensures Fine(c, ty, d, 0)
  {
  }

  // `choice; c1; close; c2`, where the closing instruction fits the brackets.
  lemma BracketSolid(c: Code, c1: Code, c2: Code, d: Pos)
    requires Solid(c1, d - 1) && Solid(c2, d)
    requires |c| == |c1| + |c2| + 2 && c[0] == Set(IChoice, |c1| + 2) && At(c, 1, c1) && At(c, |c1| + 2, c2)
    requires c[|c1| + 1] == Set(IFailTwice, 0) || c[|c1| + 1] == Set(ICommit, 1 + |c2|)
    ensures Solid(c, d)
  {
    var l := |c1|;
    var ty1 :| TypedBy(c1, ty1, d - 1);
    var ty2 :| TypedBy(c2, ty2, d);
    var ty := BracketTy(c1, ty1, d - 1, ty2);
    hide WF, WFAt, TypedAt, Carries, TypedBy, At;
    PieceFine(c1, ty1, d - 1, c, ty, 1, InChoice(Base), d);
    PieceFine(c2, ty2, d, c, ty, l + 2, Base, d);
    TypedEnds(c2, ty2, d);
    CloseFine(c, ty, d, l + 1);
    OpenFine(c, ty, d, l + 2);
    Assemble(c, ty, d);
  }

  lemma TypedEnds(c: Code, ty: seq<Ctx>, d: int)
    requires TypedBy(c, ty, d)
    ensures |ty| == |c| + 1 && ty[0] == Base && ty[|c|] == Base
  {
  }

  lemma ChoiceUnionSolid(c1: Code, c2: Code, d: Pos)
    requires Solid(c1, d - 1) && Solid(c2, d)
    ensures Solid(ChoiceUnion(c1, c2), d)
  {
    BracketSolid(ChoiceUnion(c1, c2), c1, c2, d);
  }

  lemma NotThenSolid(c1: Code, c2: Code, d: Pos)
    requires Solid(c2, d - 1) && Solid(c1, d)
    ensures Solid(NotThen(c2, c1), d)
  {
    NotThenParts(c1, c2);
    BracketSolid(NotThen(c2, c1), c2, c1, d);
  }

  lemma AndSolid(c1: Code, d: Pos)
    requires Solid(c1, d - 1)
    ensures Solid(AndCode(c1), d)
  {
    var c, l := AndCode(c1), |c1|;
    var ty1 :| TypedBy(c1, ty1, d - 1);
    var ty := BracketTy(c1, ty1, d - 1, [Base, Base]);
    assert At(c, 1, c1) && c[0] == Set(IChoice, l + 2) && c[l + 1] == Set(IBackCommit, 2)
           && c[l + 2] == SetAux(IFail, 0, 1);
    assert ty[l + 3] == Base;
    assert Fine(c, ty, d, l + 2);
    hide WF, WFAt, TypedAt, Carries, TypedBy, At, AndCode, Fine;
    PieceFine(c1, ty1, d - 1, c, ty, 1, InChoice(Base), d);
    CloseFine(c, ty, d, l + 1);
    OpenFine(c, ty, d, l + 2);
    Assemble(c, ty, d);
  }

  // ----- a test in place of the leading check -------------------------------------------

  lemma TestFine(c: Code, ty: seq<Ctx>, d: nat, n: nat, i: Instr)
    requires 0 < n <= |c| && |ty| == |c| + 1 && ty[0] == Base && ty[1] == Base && ty[n] == Base
    requires IsCheck(i) && InstrOk(Check2Test(i, n)) && c != [] && c[0] == Check2Test(i, n)
    ensures Fine(c, ty, d, 0) && FirstOk(c)
  {
  }

  // `test; body; close; c2`: the close is a jump over `c2`, or a failure.
  lemma TestHeadSolid(c: Code, c1: Code, c2: Code, d: nat)
    requires Solid(c1, d) && Solid(c2, d) && c1 != [] && IsCheck(c1[0])
    requires |c| == |c1| + |c2| + 1 && c[0] == Check2Test(c1[0], |c1| + 1) && At(c, 1, c1[1..]) && At(c, |c1| + 1, c2)
    requires c[|c1|] == Set(IFail, 0) || c[|c1|] == Set(IJmp, |c2| + 1)
    ensures Solid(c, d)
  {
    hide WF, WFAt, TypedAt, Carries, At, Fine, TypedBy;
    var l := |c1|;
    var ty1 :| TypedBy(c1, ty1, d);
    var ty2 :| TypedBy(c2, ty2, d);
    CheckOk(c1);
    var ty := PairTy(c1, ty1, c2, ty2, d);
    SecondTy(c1, ty1, d);
    TailFine(c1, ty1, d, c, ty, 0, Base, d);
    PieceFine(c2, ty2, d, c, ty, l + 1, Base, d);
    SkipFine(c, ty, d, l);
    TestFine(c, ty, d, l + 1, c1[0]);
    Assemble(c, ty, d);
  }

  lemma SkipFine(c: Code, ty: seq<Ctx>, d: nat, j: nat)
    requires 0 < j < |c| && |ty| == |c| + 1 && ty[j] == Base && ty[|c|] == Base
    requires c[j] == Set(IFail, 0) || c[j] == Set(IJmp, |c| - j)
    ensures Fine(c, ty, d, j)
  {
  }

  // Brackets of two parts with one instruction between them.
  lemma PairTy(c1: Code, ty1: seq<Ctx>, c2: Code, ty2: seq<Ctx>, d: int) returns (ty: seq<Ctx>)
    requires TypedBy(c1, ty1, d) && TypedBy(c2, ty2, d) && c1 != []
    ensures |ty| == |c1| + |c2| + 2 && ty[0] == Base && ty[|c1| + |c2| + 1] == Base
    ensures ty[|c1|] == Base && ty[|c1| + 1] == Base && ty[1] == ty1[1]
    ensures Carries(ty, 1, ty1[1..], Base) && Carries(ty, |c1| + 1, ty2, Base)
  {
    ty := ty1 + ty2;
    CarriesSelf(ty1[..1], ty1[1..], ty2);
    CarriesSelf(ty1, ty2, []);
    assert ty1[..1] + ty1[1..] + ty2 == ty && ty1 + ty2 + [] == ty;
  }

  lemma TestUnionSolid(c1: Code, c2: Code, d: nat)
    requires Solid(c1, d) && Solid(c2, d) && c1 != [] && IsCheck(c1[0])
    ensures Solid(TestUnion(c1, c2), d)
  {
    TestUnionParts(c1, c2);
    TestHeadSolid(TestUnion(c1, c2), c1, c2, d);
  }

  lemma NotHeadSolid(c1: Code, c2: Code, d: nat)
    requires Solid(c1, d) && Solid(c2, d) && c2 != [] && IsCheck(c2[0])
    ensures Solid(NotHead(c2, c1), d)
  {
    NotHeadParts(c2, c1);
    TestHeadSolid(NotHead(c2, c1), c2, c1, d);
  }

  // The jump back of a loop whose first instruction is not a jump.
  lemma BackFine(c: Code, ty: seq<Ctx>, d: int, l: int)
    requires 0 < l && |c| == l + 1 && |ty| == |c| + 1 && ty[0] == Base && ty[l] == Base
    requires c[l] == Set(IJmp, -l) && IsTest(c[0]) && d >= 0
    ensures Fine(c, ty, d, l)
  {
  }

  lemma HeadFailLoopSolid(c1: Code, d: nat)
    requires Solid(c1, d) && c1 != [] && IsCheck(c1[0])
    ensures Solid(HeadFailLoop(c1), d)
  {
    hide WF, WFAt, TypedAt, Carries, At, Fine, TypedBy, HeadFailLoop, FirstOk;
    HeadFailLoopParts(c1);
    var c, l := HeadFailLoop(c1), |c1|;
    var ty1 :| TypedBy(c1, ty1, d);
    var ty := TestedTy(c1, ty1, d);
    CheckOk(c1);
    TailFine(c1, ty1, d, c, ty, 0, Base, d);
    TestFine(c, ty, d, l + 1, c1[0]);
    BackFine(c, ty, d, l);
    Assemble(c, ty, d);
  }

  lemma TestedTy(c1: Code, ty1: seq<Ctx>, d: int) returns (ty: seq<Ctx>)
    requires TypedBy(c1, ty1, d) && c1 != [] && IsCheck(c1[0])
    ensures |ty| == |c1| + 2 && ty[0] == Base && ty[1] == Base && ty[|c1|] == Base && ty[|c1| + 1] == Base
    ensures Carries(ty, 1, ty1[1..], Base)
  {
    SecondTy(c1, ty1, d);
    ty := ty1 + [Base];
    CarriesSelf(ty1[..1], ty1[1..], [Base]);
    assert ty1[..1] + ty1[1..] + [Base] == ty;
  }

  // The end of the body of a loop inside its choice.
  lemma AgainFine(c: Code, ty: seq<Ctx>, d: int, l: int)
    requires 0 < l && |c| == l + 2 && |ty| == |c| + 1 && ty[1] == InChoice(Base) && ty[l + 1] == InChoice(Base)
             && ty[l + 2] == Base
    requires c[l + 1] == Set(IPartialCommit, -l) && c[0].op.IChoice? && !c[1].op.IJmp? && d >= 1
    ensures Fine(c, ty, d, l + 1)
  {
  }

  lemma ChoiceLoopParts(c: Code)
    requires c != []
    ensures var l := ChoiceLoop(c);
            |l| == |c| + 2 && l[0] == Set(IChoice, |c| + 2) && At(l, 1, c) && l[|c| + 1] == Set(IPartialCommit, -|c|)
              && l[1] == c[0]
  {
  }

  lemma ChoiceLoopFirst(c: Code, ty: seq<Ctx>, d: int)
    requires WF(c) && TypedBy(c, ty, d - 1) && c != []
    ensures d >= 1 && !c[0].op.IJmp? && FirstOk(ChoiceLoop(c))
  {
    assert TypedAt(c, ty, 0);
  }

  lemma ChoiceLoopSolid(c1: Code, d: int)
    requires Solid(c1, d - 1) && c1 != [] && d >= 0
    ensures Solid(ChoiceLoop(c1), d)
  {
    hide WF, WFAt, TypedAt, Carries, At, Fine, TypedBy, ChoiceLoop, FirstOk;
    ChoiceLoopParts(c1);
    var c, l := ChoiceLoop(c1), |c1|;
    var ty1 :| TypedBy(c1, ty1, d - 1);
    var ty := BracketTy(c1, ty1, d - 1, [Base]);
    ChoiceLoopFirst(c1, ty1, d);
    PieceFine(c1, ty1, d - 1, c, ty, 1, InChoice(Base), d);
    AgainFine(c, ty, d, l);
    OpenFine(c, ty, d, l + 2);
    Assemble(c, ty, d);
  }

  // ----- bounded repetition -------------------------------------------------------------

  // The bodies of a bounded repetition, inside its choice.
  ghost predicate BodiesBy(c: Code, ty: seq<Ctx>, d: int) {
    && c != [] && !c[0].op.IJmp? && |ty| == |c| + 1 && ty[0] == InChoice(Base) && ty[|c|] == Base
    && forall j :: 0 <= j < |c| ==> Fine(c, ty, d, j)
  }

  lemma OptionalBodiesFront(c: Code, n: Pos)
    ensures var b := OptionalBodies(c, n);
            && |b| > |c| && At(b, 0, c) && (c == [] ==> b[0] == b[|c|]) && (c != [] ==> b[0] == c[0])
            && (n == 1 ==> b[|c|] == Set(ICommit, 1) && |b| == |c| + 1)
            && (n > 1 ==> b[|c|] == Set(IPartialCommit, 1) && At(b, |c| + 1, OptionalBodies(c, n - 1))
                          && |b| == |c| + 1 + |OptionalBodies(c, n - 1)|)
  {
    OptionalBodiesParts(c, n, OptionalBodies(c, n), 0);
  }

  lemma CommitFine(c: Code, ty: seq<Ctx>, d: int, j: nat)
    requires j < |c| && |ty| == |c| + 1 && ty[j] == InChoice(Base) && 1 <= d
    requires (c[j] == Set(ICommit, 1) && ty[j + 1] == Base)
             || (c[j] == Set(IPartialCommit, 1) && ty[j + 1] == InChoice(Base) && j + 1 < |c| && !c[j + 1].op.IJmp?)
    ensures Fine(c, ty, d, j)
  {
  }

  lemma BodiesTy(c: Code, ty1: seq<Ctx>, d: int, rest: seq<Ctx>) returns (ty: seq<Ctx>)
    requires TypedBy(c, ty1, d) && rest != [] && rest[|rest| - 1] == Base
    ensures |ty| == |c| + 1 + |rest| && ty[0] == InChoice(Base) && ty[|c|] == InChoice(Base) && ty[|c| + 1] == rest[0]
    ensures ty[|ty| - 1] == Base && ty[|c| + 1..] == rest && Carries(ty, 0, ty1, InChoice(Base))
  {
    var t := InChoice(Base);
    ty := Wrap(ty1, t) + rest;
    CarriesWrap([], ty1, t, rest);
    assert [] + Wrap(ty1, t) + rest == ty;
    assert ty[0] == Within(ty1[0], t) && ty[|c|] == Within(ty1[|c|], t);
  }

  lemma {:induction false} OptionalBodiesSolid(c: Code, n: Pos, d: Pos) returns (ty: seq<Ctx>)
    requires Solid(c, d - 1)
    ensures BodiesBy(OptionalBodies(c, n), ty, d)
    decreases n
  {
    hide OptionalBodies, WF, WFAt, TypedAt, TypedBy, Carries, Fine, At;
    var b, l, t := OptionalBodies(c, n), |c|, InChoice(Base);
    WFFirst(c);
    var ty1 :| TypedBy(c, ty1, d - 1);
    OptionalBodiesFront(c, n);
    var rest := [Base];
    if n > 1 {
      rest := OptionalBodiesSolid(c, n - 1, d);
      var b1 := OptionalBodies(c, n - 1);
      FrontAt(b, l + 1, b1);
      ty := BodiesTy(c, ty1, d - 1, rest);
      BodiesEmbed(b1, rest, d, b, ty, l + 1);
    } else {
      ty := BodiesTy(c, ty1, d - 1, rest);
    }
    PieceFine(c, ty1, d - 1, b, ty, 0, t, d);
    CommitFine(b, ty, d, l);
  }

  // Bodies keep their shape at the end of larger code.
  lemma BodiesEmbed(b: Code, tb: seq<Ctx>, d: int, c: Code, ty: seq<Ctx>, start: nat)
    requires BodiesBy(b, tb, d) && At(c, start, b) && start + |b| == |c| && |ty| == |c| + 1 && ty[start..] == tb
    ensures forall j :: start <= j < |c| ==> Fine(c, ty, d, j)
  {
    assert forall k :: 0 <= k < |b| ==> c[start + k] == c[start..start + |b|][k] == b[k];
    assert forall k :: 0 <= k <= |b| ==> ty[start + k] == ty[start..][k] == tb[k];
    forall j | start <= j < |c| ensures Fine(c, ty, d, j) {
      BodiesEmbedAt(b, tb, d, c, ty, start, j - start);
    }
  }

  lemma BodiesEmbedAt(b: Code, tb: seq<Ctx>, d: int, c: Code, ty: seq<Ctx>, start: nat, i: nat)
    requires Fine(b, tb, d, i) && start + |b| == |c| && |ty| == |c| + 1
    requires forall k :: 0 <= k < |b| ==> c[start + k] == b[k]
    requires forall k :: 0 <= k <= |b| ==> ty[start + k] == tb[k]
    ensures Fine(c, ty, d, start + i)
  {
    assert c[start + i] == b[i] && ty[start + i] == tb[i] && ty[start + (i + 1)] == tb[i + 1];
    if IsJmp(b[i]) {
      var x := Dest(b, i);
      assert ty[start + x] == tb[x];
      if x < |b| { assert c[start + x] == b[x]; }
      if x >= 1 { assert c[start + (x - 1)] == b[x - 1]; }
    }
  }

  lemma OptionalsSolid(c: Code, n: Pos, d: Pos)
    requires Solid(c, d - 1)
    ensures Solid(Optionals(c, n), d)
  {
    var l, b := Optionals(c, n), OptionalBodies(c, n);
    OptionalBodiesLength(c, n);
    var tb := OptionalBodiesSolid(c, n, d);
    var ty := [Base] + tb;
    assert At(l, 1, b) && l[0] == Set(IChoice, |l|) && ty[1..] == tb;
    hide Optionals, OptionalBodies;
    BodiesEmbed(b, tb, d, l, ty, 1);
    OpenFine(l, ty, d, |l|);
    Assemble(l, ty, d);
  }

  lemma {:induction false} HeadFailOptionalsSolid(c: Code, n: nat, d: nat)
    requires Solid(c, d) && c != [] && IsCheck(c[0])
    ensures Solid(HeadFailOptionals(c, n), d)
    decreases n
  {
    if n == 0 {
      assert TypedBy([], [Base], d);
    } else {
      var all, rest := HeadFailOptionals(c, n), HeadFailOptionals(c, n - 1);
      HeadFailOptionalsLength(c, n);
      HeadFailOptionalsLength(c, n - 1);
      HeadFailOptionalsSolid(c, n - 1, d);
      TestFrontSolid(all, c, rest, d);
    }
  }

  // `test; body; rest` where the test jumps to the very end.
  lemma TestFrontSolid(c: Code, c1: Code, rest: Code, d: nat)
    requires Solid(c1, d) && Solid(rest, d) && c1 != [] && IsCheck(c1[0])
    requires c == TestHead(c1, |c1| + |rest|) + rest
    ensures Solid(c, d)
  {
    var l := |c1|;
    var ty1 :| TypedBy(c1, ty1, d);
    var ty2 :| TypedBy(rest, ty2, d);
    var ty := JoinTy(c1, ty1, rest, ty2, d);
    assert At(c, 1, c1[1..]) && At(c, l, rest) && c[0] == Check2Test(c1[0], |c|);
    SecondTy(c1, ty1, d);
    assert ty[1] == Within(ty1[1], Base);
    CheckOk(c1);
    hide WF, WFAt, TypedAt, Carries, TypedBy, At, Fine, TestHead;
    TailFine(c1, ty1, d, c, ty, 0, Base, d);
    PieceFine(rest, ty2, d, c, ty, l, Base, d);
    TestFine(c, ty, d, |c|, c1[0]);
    Assemble(c, ty, d);
  }

  // ----- entering a choice behind its check ------------------------------------------------

  lemma OptimizeChoiceFine(c: Code, c': Code, ty: seq<Ctx>, d: int, j: nat)
    requires WF(c) && TypedBy(c, ty, d) && |c| > 1 && c[0].op.IChoice? && IsCheck(c[1]) && NoJumpTo(c, 1)
    requires |c'| == |c| && 2 <= j < |c| && forall i :: 2 <= i < |c| ==> c'[i] == c[i]
    ensures Fine(c', ty[1 := Base], d, j)
  {
    assert WFAt(c, j) && TypedAt(c, ty, j);
    if IsJmp(c[j]) { assert 1 < Dest(c, j); }
  }

  lemma OptimizeChoiceFront(c: Code, c': Code, ty: seq<Ctx>, d: int)
    requires WF(c) && TypedBy(c, ty, d) && |c| > 1 && c[0].op.IChoice? && IsCheck(c[1]) && NoJumpTo(c, 1)
    requires |c'| == |c| && c'[0] == Check2Test(c[1], c[0].offset)
    requires c'[1] == c[0].(aux := StepLen(c[1]), offset := c[0].offset - 1)
    ensures Fine(c', ty[1 := Base], d, 0) && Fine(c', ty[1 := Base], d, 1) && FirstOk(c')
  {
    assert WFAt(c, 0) && TypedAt(c, ty, 0) && WFAt(c, 1) && TypedAt(c, ty, 1);
    assert 1 < Dest(c, 0);
  }

  lemma OptimizeChoiceSolid(c: Code, d: nat)
    requires Solid(c, d) && c != [] && c[0].op.IChoice?
    requires |c| > 1 && IsCheck(c[1]) ==> NoJumpTo(c, 1)
    ensures Solid(OptimizeChoice(c), d)
  {
    if |c| > 1 && IsCheck(c[1]) {
      var c' := OptimizeChoice(c);
      var ty :| TypedBy(c, ty, d);
      var ty' := ty[1 := Base];
      SameSuffix(c);
      assert forall i :: 2 <= i < |c| ==> c'[i] == c'[2..][i - 2] == c[2..][i - 2] == c[i];
      hide OptimizeChoice, Fine;
      OptimizeChoiceFront(c, c', ty, d);
      forall j | 0 <= j < |c| ensures Fine(c', ty', d, j) {
        if j >= 2 { OptimizeChoiceFine(c, c', ty, d, j); }
      }
      Assemble(c', ty', d);
    }
  }

  lemma NoJumpToBracket(c: Code, c1: Code, c2: Code)
    requires WF(c1) && c1 != [] && IsCheck(c1[0]) && WF(c2)
    requires |c| == |c1| + |c2| + 2 && c[0] == Set(IChoice, |c1| + 2) && At(c, 1, c1) && At(c, |c1| + 2, c2)
    requires IsJmp(c[|c1| + 1]) ==> 1 < Dest(c, |c1| + 1)
    ensures NoJumpTo(c, 1)
  {
    forall j | 0 <= j < |c| && IsJmp(c[j]) ensures 1 < Dest(c, j) {
      if 1 <= j <= |c1| {
        assert c[1..1 + |c1|][j - 1] == c1[j - 1];
        NoJumpToHead(c1, j - 1);
      } else if j > |c1| + 1 {
        assert c[|c1| + 2..|c1| + 2 + |c2|][j - |c1| - 2] == c2[j - |c1| - 2];
        assert WFAt(c2, j - |c1| - 2);
      }
    }
  }
}

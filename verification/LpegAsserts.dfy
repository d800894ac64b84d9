// The assertion of `interfere`: where it has to look at the bytes an alternative starts
// with, the alternative is tested by a byte, by a set without the zero byte, or by a
// number of bytes.  A test of a set with the zero byte is overlooked.  This module says
// for which patterns that matters; code without assertions takes the safe branch there.

module LpegAsserts {
  import opened LpegCode
  import opened LpegPeg
  import opened LpegBuild
  import opened LpegMeaning
  import opened LpegHeads
  import opened LpegUnion
  import opened LpegSeparate
  import opened LpegCorrect
  import opened LpegGuard
  import opened LpegRestore

  // The assertion holds whenever it is reached while `p` is being built.
  ghost predicate Asserts(p: Pat) {
    match p
    case Cat(a, b) => Asserts(a) && Asserts(b)
    case Or(a, b) =>
      Asserts(a) && Asserts(b) && (Compile(a).Ok? && Compile(b).Ok? ==>
                                   UnionAsserts(Compile(a).value, Compile(b).value))
    case Diff(a, b) => Asserts(a) && Asserts(b)
    case Neg(a) => Asserts(a)
    case And(a) => Asserts(a)
    case Rep(a, _) => Asserts(a)
    case Opt(a, _) => Asserts(a)
    case Capt(_, _, a) => Asserts(a)
    case _ => true
  }

  // ----- the alternatives it fails for --------------------------------------------------

  // An alternative behind a test of a set with the zero byte that can fail past its test.
  predicate ZeroTested(first: Code)
    requires first != []
  {
    first[0].op.ITestZSet? && !first[|first| - 1].op.ICommit? && !NoFail(first)
  }

  predicate ZeroOpen(c: Code)
    decreases |c|
  {
    var sp := FirstPart(c);
    sp != 0 && (ZeroTested(c[..sp]) || ZeroOpen(c[sp..]))
  }

  // Joining fails the assertion exactly for such an alternative in front of code that
  // starts with a check.
  lemma {:induction false} AssertionExact(c1: Code, t2: CharsetTag)
    ensures AssertionHolds(c1, t2) <==> t2.NoInfo? || !ZeroOpen(c1)
    decreases |c1|
  {
    var sp := FirstPart(c1);
    if sp != 0 {
      FirstPartShape(c1);
      AssertionExact(c1[sp..], t2);
    }
  }

  // ----- where they come from -----------------------------------------------------------

  // The last alternative.
  function Last(c: Code): Code
    decreases |c|
  {
    var sp := FirstPart(c);
    if sp == 0 then c else Last(c[sp..])
  }

  // Joined, `c` becomes such an alternative: it starts with a set that holds the zero
  // byte, can fail later, and never starts as `c2` does.
  predicate BecomesZeroTested(c: Code, c2: Code) {
    Exclusive(ToCharset(c), ToCharset(c2)) && c[0].op.IZSet? && !NoFail(c[1..])
  }

  lemma TestUnionOpen(c1: Code, c2: Code)
    requires c1 != [] && IsCheck(c1[0])
    ensures ZeroOpen(TestUnion(c1, c2)) <==> (c1[0].op.IZSet? && !NoFail(c1[1..])) || ZeroOpen(c2)
  {
    var c, sp := TestUnion(c1, c2), |c1| + 1;
    assert c[sp..] == c2 && c[sp - 1] == Set(IJmp, |c2| + 1) && c[0] == Check2Test(c1[0], sp);
    assert FirstPart(c) == sp;
    var first := c[..sp];
    assert first == [c[0]] + c1[1..] + [c[sp - 1]];
    if NoFail(c1[1..]) {
      forall j | 0 <= j < sp ensures IsNoFail(first[j]) { if 0 < j < sp - 1 { assert first[j] == c1[1..][j - 1]; } }
    } else {
      var j :| 0 <= j < |c1[1..]| && !IsNoFail(c1[1..][j]);
      assert first[j + 1] == c1[1..][j];
    }
  }

  lemma ChoiceUnionOpen(c1: Code, c2: Code)
    ensures ZeroOpen(OptimizeChoice(ChoiceUnion(c1, c2))) <==> ZeroOpen(c2)
  {
    var c0, sp := ChoiceUnion(c1, c2), |c1| + 2;
    var c := OptimizeChoice(c0);
    ChoiceUnionParts(c1, c2);
    if IsCheck(c0[1]) { SameSuffix(c0); } else { OptimizeChoiceNot(c0); }
    assert c[2..] == c0[2..] && c[sp..] == c[2..][sp - 2..] == c0[2..][sp - 2..] == c0[sp..] == c2;
    assert sp > 2 ==> c[sp - 1] == c[2..][sp - 3] == c0[2..][sp - 3];
    assert FirstPart(c) == sp;
  }

  lemma BasicUnionOpen(c1: Code, c2: Code)
    ensures ZeroOpen(BasicUnion(c1, c2)) <==> BecomesZeroTested(c1, c2) || ZeroOpen(c2)
  {
    hide TestUnion, ChoiceUnion, OptimizeChoice;
    var (t1, t2) := (ToCharset(c1), ToCharset(c2));
    if t1.IsCharset? && t2.IsCharset? {
      assert FirstPart(c2) == 0 && FirstPart([SetInstr(t1.cs + t2.cs)]) == 0;
    } else if Exclusive(t1, t2) || IsHeadFail(c1) {
      TestUnionOpen(c1, c2);
    } else {
      ChoiceUnionOpen(c1, c2);
    }
  }

  // An alternative that is kept is not such a one.
  lemma KeepOpen(first: Code, rest: Code)
    requires |first| >= 2 && (IsTest(first[0]) || first[0].op.IChoice?) && first[0].offset == |first|
    requires first[|first| - 1].op.ICommit? || (IsTest(first[0]) && first[|first| - 1].op.IJmp?)
    requires !ZeroTested(first)
    ensures ZeroOpen(KeepFirst(first, rest)) <==> ZeroOpen(rest)
  {
    var c, sp := KeepFirst(first, rest), |first|;
    FirstPartOfKeep(first, rest);
    KeepFirstParts(first, rest);
    if NoFail(first) {
      forall j | 0 <= j < sp ensures IsNoFail(c[..sp][j]) { assert c[j].op == first[j].op; }
    }
  }

  lemma RestoreOpen(first: Code, rest: Code)
    requires |first| >= 2 && IsTest(first[0]) && first[0].offset == |first|
    ensures ZeroOpen(RestoreChoice(first, rest)) <==> ZeroOpen(rest)
  {
    RestoreIsKeep(first, rest);
    var f := Restored(first);
    assert f[0].offset == |f| && f[|f| - 1].op.ICommit?;
    KeepOpen(f, rest);
  }

  // All such alternatives of the first operand get their choice back; one may arise from
  // its last alternative.
  lemma {:induction false} SeparateOpen(c1: Code, c2: Code)
    ensures ZeroOpen(Separate(c1, c2)) <==> BecomesZeroTested(Last(c1), c2) || ZeroOpen(c2)
    decreases |c1|
  {
    hide KeepFirst, RestoreChoice, FirstPart, BecomesZeroTested, ZeroOpen, Interfere, BasicUnion;
    var sp := FirstPart(c1);
    if sp == 0 {
      BasicUnionOpen(c1, c2);
    } else {
      FirstPartShape(c1);
      SeparateOpen(c1[sp..], c2);
      FirstOpen(c1[..sp], Separate(c1[sp..], c2), ToCharset(c2));
    }
  }

  lemma FirstOpen(first: Code, rest: Code, t2: CharsetTag)
    requires |first| >= 2 && (IsTest(first[0]) || first[0].op.IChoice?) && first[0].offset == |first|
    requires first[|first| - 1].op.ICommit? || (IsTest(first[0]) && first[|first| - 1].op.IJmp?)
    ensures var keep := first[|first| - 1].op.ICommit? || !Interfere(first, t2);
            ZeroOpen(if keep then KeepFirst(first, rest) else RestoreChoice(first, rest)) <==> ZeroOpen(rest)
  {
    hide ZeroOpen, KeepFirst, RestoreChoice, NoFail;
    if first[|first| - 1].op.ICommit? || !Interfere(first, t2) {
      KeepOpen(first, rest);
    } else {
      RestoreOpen(first, rest);
    }
  }

  // ----- patterns -------------------------------------------------------------------------

  // The code of `p` has such an alternative: only an ordered choice has any, or a
  // sequence of one and something empty.
  ghost predicate ZeroStarts(p: Pat)
    requires Compile(p).Ok?
  {
    match p
    case Cat(a, b) => if Compile(a).value == [] then ZeroStarts(b) else Compile(b).value == [] && ZeroStarts(a)
    case Or(a, b) =>
      var c1, c2 := Compile(a).value, Compile(b).value;
      if FailsAtOnce(c1) then ZeroStarts(b)
      else if FailsAtOnce(c2) then ZeroStarts(a)
      else BecomesZeroTested(Last(c1), c2) || ZeroStarts(b)
    case _ => false
  }

  // No ordered choice whose second operand starts with a check has such a first operand.
  ghost predicate ZeroGuarded(p: Pat) {
    match p
    case Cat(a, b) => ZeroGuarded(a) && ZeroGuarded(b)
    case Or(a, b) =>
      && ZeroGuarded(a) && ZeroGuarded(b)
      && (Compile(a).Ok? && Compile(b).Ok? ==>
            var c1, c2 := Compile(a).value, Compile(b).value;
            FailsAtOnce(c1) || FailsAtOnce(c2) || ToCharset(c2).NoInfo? || !ZeroStarts(a))
    case Diff(a, b) => ZeroGuarded(a) && ZeroGuarded(b)
    case Neg(a) => ZeroGuarded(a)
    case And(a) => ZeroGuarded(a)
    case Rep(a, _) => ZeroGuarded(a)
    case Opt(a, _) => ZeroGuarded(a)
    case Capt(_, _, a) => ZeroGuarded(a)
    case _ => true
  }

  lemma WholeOpen(c: Code)
    requires Whole(c)
    ensures !ZeroOpen(c)
  {
    if FirstPart(c) != 0 {
      assert c[..|c|] == c && c[|c|..] == [];
      assert FirstPart([]) == 0;
    }
  }

  lemma CatOpen(a: Pat, b: Pat)
    requires Compile(Cat(a, b)).Ok? && Safe(Cat(a, b))
    ensures Compile(a).Ok? && Compile(b).Ok?
    ensures var c, c1, c2 := Compile(Cat(a, b)).value, Compile(a).value, Compile(b).value;
            ZeroOpen(c) <==> if c1 == [] then ZeroOpen(c2) else c2 == [] && ZeroOpen(c1)
  {
    hide Compile, Safe, Good, ConcatCode, FirstPart;
    LpegCorrect.CatParts(a, b);
    var d := Max(Depth(a), Depth(b));
    CompileGoodAt(a, d);
    CompileGoodAt(b, d);
    CatAlternatives(Compile(a).value, a, Compile(b).value, b, d);
    NoneOpen([]);
  }

  lemma NoneOpen(c: Code)
    ensures FirstPart(c) == 0 ==> !ZeroOpen(c)
    ensures FirstPart([]) == 0
  {
  }

  lemma {:induction false} StartsExact(p: Pat)
    requires Compile(p).Ok? && Safe(p)
    ensures ZeroStarts(p) <==> ZeroOpen(Compile(p).value)
  {
    hide ZeroOpen, Whole, ConcatCode, UnionCode, UnionSafe, BecomesZeroTested;
    match p
    case Cat(a, b) =>
      CatOpen(a, b);
      StartsExact(a);
      StartsExact(b);
    case Or(a, b) =>
      OrParts(a, b);
      StartsExact(a);
      StartsExact(b);
      UnionOpen(Compile(a).value, Compile(b).value);
    case _ =>
      SimpleWhole(p);
      WholeOpen(Compile(p).value);
  }

  lemma UnionOpen(c1: Code, c2: Code)
    ensures var c := UnionCode(c1, c2);
            ZeroOpen(c) <==>
              if FailsAtOnce(c1) then ZeroOpen(c2) else if FailsAtOnce(c2) then ZeroOpen(c1)
              else BecomesZeroTested(Last(c1), c2) || ZeroOpen(c2)
  {
    hide ZeroOpen, Separate, BecomesZeroTested;
    SeparateOpen(c1, c2);
  }

  // The assertion holds while a pattern is built exactly when the pattern has no such choice.
  lemma {:induction false} AssertsExact(p: Pat)
    requires Safe(p)
    ensures Asserts(p) <==> ZeroGuarded(p)
  {
    hide Compile, ZeroOpen, ZeroStarts, AssertionHolds, UnionSafe, ToCharset;
    match p
    case Cat(a, b) => AssertsExact(a); AssertsExact(b);
    case Or(a, b) =>
      AssertsExact(a);
      AssertsExact(b);
      if Compile(a).Ok? && Compile(b).Ok? {
        AssertionExact(Compile(a).value, ToCharset(Compile(b).value));
        StartsExact(a);
      }
    case Diff(a, b) => AssertsExact(a); AssertsExact(b);
    case Neg(a) => AssertsExact(a);
    case And(a) => AssertsExact(a);
    case Rep(a, _) => AssertsExact(a);
    case Opt(a, _) => AssertsExact(a);
    case Capt(_, _, a) => AssertsExact(a);
    case _ =>
  }

  // ----- a pattern that violates it ----------------------------------------------------------

  const ZERO_X := Cat(Chars([0, 1]), Lit([X]))
  const ZERO_INNER := Or(ZERO_X, Lit([A]))
  const ZERO_FIRST := Or(ZERO_INNER, Lit([C]))

  const ZERO_X_CODE: Code := [Instr(IZSet, 0, 0, {0, 1}), Instr(IChar, X, 0, {})]
  const ZERO_INNER_CODE: Code :=
    [Instr(ITestZSet, 0, 3, {0, 1}), Instr(IChar, X, 0, {}), Instr(IJmp, 0, 2, {}), Instr(IChar, A, 0, {})]

  lemma ZeroXCode()
    ensures Compile(ZERO_X) == Ok(ZERO_X_CODE)
  {
    assert CharsSet([0, 1]) == {0, 1};
    assert Compile(Chars([0, 1])) == Ok([Instr(IZSet, 0, 0, {0, 1})]);
    assert LitCode([X]) == [Instr(IChar, X, 0, {})];
    assert [Instr(IZSet, 0, 0, {0, 1})] + [Instr(IChar, X, 0, {})] == ZERO_X_CODE;
    NoCaptures(ZERO_X_CODE, 0);
  }

  lemma ZeroInnerCode()
    ensures UnionCode(ZERO_X_CODE, LitCode([A])) == ZERO_INNER_CODE
  {
    var c1, c2 := ZERO_X_CODE, LitCode([A]);
    assert c2 == [Instr(IChar, A, 0, {})] && FirstPart(c1) == 0;
    assert ToCharset(c1) == ValidStarts({0, 1}) && ToCharset(c2).IsCharset? && 0 !in ToCharset(c2).cs
           && 1 !in ToCharset(c2).cs;
    assert Separate(c1, c2) == BasicUnion(c1, c2) == TestUnion(c1, c2) == ZERO_INNER_CODE;
  }

  lemma ZeroInnerOpen()
    ensures Compile(ZERO_INNER) == Ok(ZERO_INNER_CODE) && ZeroOpen(ZERO_INNER_CODE)
  {
    hide UnionCode;
    ZeroXCode();
    ZeroInnerCode();
    assert Compile(Lit([A])) == Ok(LitCode([A]));
    var c := ZERO_INNER_CODE;
    assert FirstPart(c) == 3 && !IsNoFail(c[..3][1]);
  }

  lemma OneByteGuarded(b: Byte)
    ensures Guarded(Lit([b])) && Compile(Lit([b])).Ok? && !StartsNowhere(Compile(Lit([b])).value)
    ensures ToCharset(Compile(Lit([b])).value).IsCharset? && !FailsAtOnce(Compile(Lit([b])).value)
  {
    var c := LitCode([b]);
    assert c == [Instr(IChar, b, 0, {})] && b in FillCharset(c[0]);
  }

  // `(S"\0\1" * "x" + "a") + "c"` reaches the assertion with a test it does not list.  It
  // is a pattern whose code is right all the same.
  lemma AssertionFails()
    ensures !Asserts(ZERO_FIRST) && Guarded(ZERO_FIRST)
  {
    hide Compile, ToCharset, AssertionHolds, StartsNowhere;
    ZeroInnerOpen();
    OneByteGuarded(X);
    OneByteGuarded(A);
    OneByteGuarded(C);
    AssertionExact(ZERO_INNER_CODE, ToCharset(Compile(Lit([C])).value));
    assert Guarded(ZERO_X) && Guarded(ZERO_INNER);
  }
}

// Flattening an ordered choice can put a choice back behind a test.  The choice it
// puts back always steps one byte back, whatever the test consumed; this module says
// exactly when that is right, and shows a pattern that it spoils.

module LpegRestore {
  import opened LpegCode
  import opened LpegPeg
  import opened LpegMachine
  import opened LpegBuild
  import opened LpegMeaning
  import opened LpegHeads
  import opened LpegSolid
  import opened LpegUnion
  import opened LpegSeparate
  import opened LpegCorrect

  // What a restored choice of `pf`, tested by `i`, and `q` really does.
  ghost function RestoredMeaning(env: Env, i: Instr, pf: Pat, q: Pat, s: int, caps: seq<Capture>): Res
    requires EnvOk(env) && 0 <= s <= |env.subj| && IsCheck(i) && InstrOk(i)
  {
    var rf := Peg(env, pf, s, caps);
    if rf.Got? then rf
    else if Passes(env, i, s) then PassedInside(env, i, s); Peg(env, q, s + StepLen(i) - 1, caps)
    else Peg(env, q, s, caps)
  }

  lemma PassedInside(env: Env, i: Instr, s: int)
    requires EnvOk(env) && 0 <= s <= |env.subj| && IsCheck(i) && InstrOk(i) && Passes(env, i, s)
    ensures 0 <= s + StepLen(i) - 1 <= |env.subj|
  {
  }

  lemma HeadOk(i: Instr, body: Code, pf: Pat)
    requires HeadBody(i, body, pf)
    ensures IsCheck(i) && InstrOk(i)
  {
  }

  lemma RestoredMeans(first: Code, head: Code, pf: Pat, d: nat, rest: Code, q: Pat, env: Env, s: int,
                      caps: seq<Capture>)
    requires Tested(first, head, pf, d) && Implements(rest, q) && EnvOk(env) && 0 <= s <= |env.subj|
    ensures |first| >= 2 && IsCheck(head[0]) && InstrOk(head[0])
    ensures var c := RestoreChoice(first, rest);
            Reaches(env, c, Run(0, s, [], caps), Outcomes(RestoredMeaning(env, head[0], pf, q, s, caps), |c|, []))
  {
    hide Restored, RestoreChoice, KeepFirst, Peg, Reaches, Implements, Solid, HeadBody, Alone, At, FirstSolid,
         Check2Test;
    var i, body := head[0], head[1..];
    HeadOk(i, body, pf);
    RestoredParts(first, head, pf, d);
    RestoredSolid(first, head, pf, d);
    RestoreIsKeep(first, rest);
    var r := Restored(first);
    RestoredAlone(first, head, pf, d);
    KeepFirstParts(r, rest);
    var c, l, rf := RestoreChoice(first, rest), |r|, Peg(env, pf, s, caps);
    if rf.Got? {
      ExitsLast(first, head, pf, d, env, s, caps);
      FirstLift(r, rest, d + 1, env, s, caps, l + 1, rf.s, rf.caps);
    } else {
      var s' := if Passes(env, i, s) then s + StepLen(i) - 1 else s;
      if Passes(env, i, s) { PassedInside(env, i, s); }
      ExitsLast(first, head, pf, d, env, s, caps);
      FirstLift(r, rest, d + 1, env, s, caps, l, s', caps);
      UseAt(rest, q, c, l, env, s', [], caps);
      ReachesTrans(env, c, Run(0, s, [], caps), Run(l, s', [], caps), Outcomes(Peg(env, q, s', caps), |c|, []));
    }
  }

  lemma RestoredAlone(first: Code, head: Code, pf: Pat, d: int)
    requires Tested(first, head, pf, d)
    ensures |first| >= 2 && |Restored(first)| == |head| + 2
  {
    RestoredParts(first, head, pf, d);
  }

  // The restored alternative on its own.
  lemma ExitsLast(first: Code, head: Code, pf: Pat, d: int, env: Env, s: int, caps: seq<Capture>)
    requires Tested(first, head, pf, d) && EnvOk(env) && 0 <= s <= |env.subj|
    ensures |first| >= 2
    ensures var r, i, rf := Restored(first), head[0], Peg(env, pf, s, caps);
            match rf
            case Got(s', caps') => Reaches(env, Alone(r), Run(0, s, [], caps), Run(|r| + 1, s', [], caps'))
            case Nope => Reaches(env, Alone(r), Run(0, s, [], caps),
                                 Run(|r|, if Passes(env, i, s) then s + StepLen(i) - 1 else s, [], caps))
  {
    hide Restored, Peg, Reaches, Solid, Alone;
    RestoredParts(first, head, pf, d);
    var r, i := Restored(first), head[0];
    AloneLength(r);
    if Passes(env, i, s) {
      PastTest(Alone(r), i, head[1..], pf, env, s, caps);
    } else {
      BeforeTest(Alone(r), i, head[1..], pf, env, s, caps);
    }
  }

  lemma AloneLength(r: Code)
    requires r != []
    ensures |Alone(r)| == |r|
  {
  }

  // Past the test and a failure of `pf`, it does not matter to `q` that it starts
  // further on.
  ghost predicate SameFurtherOn(i: Instr, pf: Pat, q: Pat)
    requires IsCheck(i) && InstrOk(i)
  {
    forall env, s, caps {:trigger Peg(env, pf, s, caps)} ::
      EnvOk(env) && 0 <= s <= |env.subj| && Passes(env, i, s) && Peg(env, pf, s, caps).Nope? ==>
        0 <= s + StepLen(i) - 1 <= |env.subj| && Peg(env, q, s + StepLen(i) - 1, caps) == Peg(env, q, s, caps)
  }

  ghost predicate DoesAt(c: Code, i: Instr, pf: Pat, q: Pat, env: Env, s: int, caps: seq<Capture>)
    requires IsCheck(i) && InstrOk(i)
  {
    EnvOk(env) && 0 <= s <= |env.subj| ==>
      Reaches(env, c, Run(0, s, [], caps), Outcomes(RestoredMeaning(env, i, pf, q, s, caps), |c|, []))
  }

  // A choice put back behind a test means the ordered choice exactly when the test is of
  // one byte, or the second alternative cannot tell where it starts.
  lemma RestoredExact(first: Code, head: Code, pf: Pat, d: nat, rest: Code, q: Pat)
    requires Tested(first, head, pf, d) && Implements(rest, q)
    ensures |first| >= 2 && IsCheck(head[0]) && InstrOk(head[0])
    ensures Implements(RestoreChoice(first, rest), Or(pf, q)) <==>
            (StepLen(head[0]) == 1 || SameFurtherOn(head[0], pf, q))
  {
    hide RestoreChoice, Peg, Reaches, Implements, RestoredMeaning, Solid, At, HeadBody, SameFurtherOn;
    HeadOk(head[0], head[1..], pf);
    RestoredAlone(first, head, pf, d);
    var c, i := RestoreChoice(first, rest), head[0];
    forall env, s, caps ensures DoesAt(c, i, pf, q, env, s, caps) {
      if EnvOk(env) && 0 <= s <= |env.subj| { RestoredMeans(first, head, pf, d, rest, q, env, s, caps); }
    }
    if Implements(c, Or(pf, q)) { MeansSame(c, i, pf, q); }
    if StepLen(i) == 1 || SameFurtherOn(i, pf, q) { SameImplements(c, i, pf, q); }
  }

  // What the code does, and what it should do, agree where the choice has its meaning.
  lemma MeansSame(c: Code, i: Instr, pf: Pat, q: Pat)
    requires Implements(c, Or(pf, q)) && IsCheck(i) && InstrOk(i)
    requires forall env, s, caps :: DoesAt(c, i, pf, q, env, s, caps)
    ensures SameFurtherOn(i, pf, q)
  {
    hide Peg, Reaches, Passes;
    forall env, s, caps {:trigger Peg(env, pf, s, caps)}
      | EnvOk(env) && 0 <= s <= |env.subj| && Passes(env, i, s) && Peg(env, pf, s, caps).Nope?
      ensures 0 <= s + StepLen(i) - 1 <= |env.subj| && Peg(env, q, s + StepLen(i) - 1, caps) == Peg(env, q, s, caps)
    {
      PassedInside(env, i, s);
      PegOr(env, pf, q, s, caps);
      assert DoesAt(c, i, pf, q, env, s, caps);
      var a, b := Peg(env, q, s + StepLen(i) - 1, caps), Peg(env, Or(pf, q), s, caps);
      assert RestoredMeaning(env, i, pf, q, s, caps) == a;
      HaltUnique(env, c, Run(0, s, [], caps), Outcomes(a, |c|, []), Outcomes(b, |c|, []));
    }
  }

  lemma SameImplements(c: Code, i: Instr, pf: Pat, q: Pat)
    requires IsCheck(i) && InstrOk(i) && (StepLen(i) == 1 || SameFurtherOn(i, pf, q))
    requires forall env, s, caps :: DoesAt(c, i, pf, q, env, s, caps)
    ensures Implements(c, Or(pf, q))
  {
    hide Peg, Reaches, Passes;
    forall env, s, caps {:trigger Peg(env, Or(pf, q), s, caps)} | EnvOk(env) && 0 <= s <= |env.subj|
      ensures Reaches(env, c, Run(0, s, [], caps), Outcomes(Peg(env, Or(pf, q), s, caps), |c|, []))
    {
      PegOr(env, pf, q, s, caps);
      assert DoesAt(c, i, pf, q, env, s, caps) && (Peg(env, pf, s, caps).Got? || Peg(env, pf, s, caps).Nope?);
      if Passes(env, i, s) { PassedInside(env, i, s); }
      assert RestoredMeaning(env, i, pf, q, s, caps) == Peg(env, Or(pf, q), s, caps);
    }
  }

  // ----- a pattern that is spoilt --------------------------------------------------

  const X: Byte := 120
  const A: Byte := 97
  const B: Byte := 98
  const C: Byte := 99

  const TWO_X := Cat(Any(2), Lit([X]))
  const INNER := Or(TWO_X, Chars([]))
  const SPOILT := Or(INNER, Lit([A, B, C]))

  // Two bytes and an `x`, else a byte of the empty set, else `abc`.
  function SpoiltCode(): Code {
    [ Instr(ITestAny, 2, 4, {}), Instr(IChoice, 1, 3, {}), Instr(IChar, X, 0, {}), Instr(ICommit, 0, 6, {}),
      Instr(ITestSet, 0, 2, {}), Instr(IJmp, 0, 4, {}),
      Instr(IChar, A, 0, {}), Instr(IChar, B, 0, {}), Instr(IChar, C, 0, {}) ]
  }

  const TWO_X_CODE: Code := [Instr(IAny, 2, 0, {}), Instr(IChar, X, 0, {})]
  const NO_BYTE: Code := [Instr(ISet, 0, 0, {})]
  const INNER_CODE: Code := [Instr(ITestAny, 2, 3, {}), Instr(IChar, X, 0, {}), Instr(IJmp, 0, 2, {}),
                             Instr(ISet, 0, 0, {})]

  lemma TwoXCode()
    ensures Compile(TWO_X) == Ok(TWO_X_CODE)
  {
    assert Compile(Any(2)) == Ok([Instr(IAny, 2, 0, {})]);
    assert LitCode([X]) == [Instr(IChar, X, 0, {})];
    assert [Instr(IAny, 2, 0, {})] + [Instr(IChar, X, 0, {})] == TWO_X_CODE;
    NoCaptures(TWO_X_CODE, 0);
  }

  lemma InnerUnion()
    ensures UnionCode(TWO_X_CODE, NO_BYTE) == INNER_CODE
  {
    assert FirstPart(TWO_X_CODE) == 0;
    assert ToCharset(NO_BYTE) == IsCharset({}) && ToCharset(TWO_X_CODE) == ValidStarts(FULL_SET);
    assert Separate(TWO_X_CODE, NO_BYTE) == BasicUnion(TWO_X_CODE, NO_BYTE) == TestUnion(TWO_X_CODE, NO_BYTE);
    assert TestUnion(TWO_X_CODE, NO_BYTE) == INNER_CODE;
  }

  lemma InnerCode()
    ensures Compile(INNER) == Ok(INNER_CODE)
  {
    hide UnionCode;
    TwoXCode();
    InnerUnion();
    assert CharsSet([]) == {};
    assert Compile(Chars([])) == Ok(NO_BYTE);
  }

  lemma {:induction false} NoCaptures(c: Code, i: nat)
    requires i <= |c| && forall j :: 0 <= j < |c| ==> IsCheck(c[j])
    ensures OptimizeCapturesFrom(c, i, 0) == c
    decreases |c| - i
  {
    if i < |c| { NoCaptures(c, i + 1); }
  }

  lemma SpoiltCompiles()
    ensures Compile(SPOILT) == Ok(SpoiltCode())
  {
    hide UnionCode;
    InnerCode();
    OuterUnion();
    assert Compile(Lit([A, B, C])) == Ok(LitCode([A, B, C]));
  }

  lemma OuterUnion()
    ensures UnionCode(INNER_CODE, LitCode([A, B, C])) == SpoiltCode()
  {
    var c1, c2, r1 := INNER_CODE, LitCode([A, B, C]), NO_BYTE;
    assert c1[3..] == r1;
    assert FirstPart(c1) == 3 && FirstPart(r1) == 0;
    var first := c1[..3];
    assert first == [c1[0], c1[1], c1[2]] && !IsNoFail(first[1]);
    assert Interfere(first, ToCharset(c2));
    var rest := TestUnion(r1, c2);
    assert Separate(r1, c2) == BasicUnion(r1, c2) == rest;
    assert Separate(c1, c2) == RestoreChoice(first, rest);
    assert RestoreChoice(first, rest) == SpoiltCode();
  }

  // On `abc` the pattern matches and its code fails.
  lemma SpoiltFails()
    ensures Compile(SPOILT).Ok? && !Safe(SPOILT)
    ensures var env := Env([A, B, C], false);
            && Peg(env, SPOILT, 0, []) == Got(3, [])
            && Reaches(env, Compile(SPOILT).value, Run(0, 0, [], []), Fail([]))
    ensures !Implements(Compile(SPOILT).value, SPOILT)
  {
    SpoiltCompiles();
    var env, c := Env([A, B, C], false), SpoiltCode();
    SpoiltMeaning(env);
    SpoiltRun(env, c);
    if Implements(c, SPOILT) {
      assert Reaches(env, c, Run(0, 0, [], []), Outcomes(Peg(env, SPOILT, 0, []), |c|, []));
      HaltUnique(env, c, Run(0, 0, [], []), Fail([]), Run(|c|, 3, [], []));
    }
    if Safe(SPOILT) { CompileGood(SPOILT); }
  }

  lemma SpoiltMeaning(env: Env)
    requires env == Env([A, B, C], false)
    ensures Peg(env, SPOILT, 0, []) == Got(3, [])
  {
    assert Peg(env, Any(2), 0, []) == Got(2, []);
    assert env.subj[2..3] == [C];
    assert Peg(env, Lit([X]), 2, []) == Nope;
    assert Peg(env, TWO_X, 0, []) == Nope;
    assert Peg(env, Chars([]), 0, []) == Nope;
    assert Peg(env, INNER, 0, []) == Nope;
    assert env.subj[0..3] == [A, B, C];
    assert Peg(env, Lit([A, B, C]), 0, []) == Got(3, []);
  }

  lemma SpoiltRun(env: Env, c: Code)
    requires env == Env([A, B, C], false) && c == SpoiltCode()
    ensures Reaches(env, c, Run(0, 0, [], []), Fail([]))
  {
    hide Step, Exec, Reaches;
    var fr := Frame(4, 1, []);
    assert [] + [fr] == [fr];
    StepFlow(env, c, 0, 0, [], []);
    StepChoice(env, c, 1, 2, [], []);
    StepFlow(env, c, 2, 2, [fr], []);
    StepFail(env, c, [], fr);
    StepFlow(env, c, 4, 1, [], []);
    StepFlow(env, c, 6, 1, [], []);
    ReachesSelf(env, c, Fail([]));
    ReachesStep(env, c, Run(6, 1, [], []), Fail([]));
    ReachesStep(env, c, Run(4, 1, [], []), Fail([]));
    ReachesStep(env, c, Fail([fr]), Fail([]));
    ReachesStep(env, c, Run(2, 2, [fr], []), Fail([]));
    ReachesStep(env, c, Run(1, 2, [], []), Fail([]));
    ReachesStep(env, c, Run(0, 0, [], []), Fail([]));
  }
}

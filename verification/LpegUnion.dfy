// Ordered choice on code that is itself an ordered choice: the alternatives are
// flattened into one chain.

module LpegUnion {
  import opened LpegCode
  import opened LpegPeg
  import opened LpegMachine
  import opened LpegBuild
  import opened LpegTyping
  import opened LpegMeaning
  import opened LpegHeads
  import opened LpegSolid

  // A pattern that matches everywhere and consumes and captures nothing.
  ghost predicate Trivial(p: Pat) {
    forall env, s, caps {:trigger Peg(env, p, s, caps)} ::
      EnvOk(env) && 0 <= s <= |env.subj| ==> Peg(env, p, s, caps) == Got(s, caps)
  }

  // A first alternative on its own: its closing jump leaves one past its end, which
  // tells it apart from arriving at the next alternative.
  function Alone(first: Code): Code
    requires first != []
  {
    first[..|first| - 1] + [first[|first| - 1].(offset := 2)]
  }

  ghost predicate ExitsAt(first: Code, pf: Pat, pr: Pat, env: Env, s: int, caps: seq<Capture>)
    requires first != [] && 0 <= s <= |env.subj|
  {
    match Peg(env, pf, s, caps)
    case Got(s', caps') =>
      || Reaches(env, Alone(first), Run(0, s, [], caps), Run(|first| + 1, s', [], caps'))
      || (Trivial(pr) && Reaches(env, Alone(first), Run(0, s, [], caps), Run(|first|, s', [], caps')))
    case Nope =>
      Reaches(env, Alone(first), Run(0, s, [], caps), Run(|first|, s, [], caps))
  }

  // The first alternative leaves through its closing jump when `pf` matches and
  // otherwise arrives at the next alternative in the state it started from.
  ghost predicate Exits(first: Code, pf: Pat, pr: Pat)
    requires first != []
  {
    forall env, s, caps :: EnvOk(env) && 0 <= s <= |env.subj| ==> ExitsAt(first, pf, pr, env, s, caps)
  }

  // A first alternative behind a test, `head` being the code that was tested.
  ghost predicate Tested(first: Code, head: Code, pf: Pat, d: int) {
    && head != [] && Solid(head, d) && IsCheck(head[0]) && HeadBody(head[0], head[1..], pf)
    && |first| == |head| + 1 && first[0] == Check2Test(head[0], |first|) && At(first, 1, head[1..])
    && first[|head|].op.IJmp?
  }

  ghost predicate FirstFine(first: Code, ty: seq<Ctx>, d: int) {
    && first != [] && FirstOk(first) && |ty| == |first| + 1 && ty[0] == Base && ty[|first|] == Base
    && Choices(ty[|first| - 1]) <= d
    && ((first[|first| - 1].op.ICommit? && ty[|first| - 1] == InChoice(Base))
        || (first[|first| - 1].op.IJmp? && ty[|first| - 1] == Base))
    && forall j :: 0 <= j < |first| - 1 ==> Fine(first, ty, d, j)
  }

  ghost predicate FirstSolid(first: Code, d: int) {
    exists ty :: FirstFine(first, ty, d)
  }

  datatype Split = Split(first: Pat, rest: Pat, head: Code)

  ghost predicate FirstBy(first: Code, sl: Split, d: int) {
    && FirstSolid(first, d)
    && (if first[|first| - 1].op.ICommit? || NoFail(first) then Exits(first, sl.first, sl.rest)
        else Tested(first, sl.head, sl.first, d))
  }

  ghost predicate SplitBy(c: Code, p: Pat, d: int, sp: nat, sl: Split)
    requires 0 < sp <= |c|
    decreases |c|, 0
  {
    && Good(c[sp..], sl.rest, d)
    && SameMeaning(p, Or(sl.first, sl.rest))
    && FirstBy(c[..sp], sl, d)
  }

  // What every compiled pattern satisfies.
  ghost predicate Good(c: Code, p: Pat, d: int)
    decreases |c|, 1
  {
    && Solid(c, d) && Implements(c, p)
    && (FirstPart(c) != 0 ==> exists sl :: SplitBy(c, p, d, FirstPart(c), sl))
  }

  // ----- changing the pattern or the bound ---------------------------------------------

  lemma GoodSame(c: Code, p: Pat, q: Pat, d: int)
    requires Good(c, p, d) && SameMeaning(q, p)
    ensures Good(c, q, d)
  {
    ImplementsSame(c, p, q);
    if FirstPart(c) != 0 {
      var sl :| SplitBy(c, p, d, FirstPart(c), sl);
      SameMeaningTrans(q, p, Or(sl.first, sl.rest));
      assert SplitBy(c, q, d, FirstPart(c), sl);
    }
  }

  lemma SameMeaningTrans(p: Pat, q: Pat, r: Pat)
    requires SameMeaning(p, q) && SameMeaning(q, r)
    ensures SameMeaning(p, r)
  {
    forall env, s, caps {:trigger Peg(env, p, s, caps)} | EnvOk(env) && 0 <= s <= |env.subj|
      ensures Peg(env, p, s, caps) == Peg(env, r, s, caps)
    {
      assert Peg(env, p, s, caps) == Peg(env, q, s, caps);
    }
  }

  lemma {:induction false} GoodMore(c: Code, p: Pat, d: int, d': int)
    requires Good(c, p, d) && d <= d'
    ensures Good(c, p, d')
    decreases |c|
  {
    SolidMore(c, d, d');
    if FirstPart(c) != 0 {
      var sp := FirstPart(c);
      var sl :| SplitBy(c, p, d, sp, sl);
      GoodMore(c[sp..], sl.rest, d, d');
      FirstByMore(c[..sp], sl, d, d');
      assert SplitBy(c, p, d', sp, sl);
    }
  }

  lemma FirstByMore(first: Code, sl: Split, d: int, d': int)
    requires FirstBy(first, sl, d) && d <= d'
    ensures FirstBy(first, sl, d')
  {
    var ty :| FirstFine(first, ty, d);
    assert FirstFine(first, ty, d') by {
      forall j | 0 <= j < |first| - 1 ensures Fine(first, ty, d', j) { assert Fine(first, ty, d, j); }
    }
    if !(first[|first| - 1].op.ICommit? || NoFail(first)) { SolidMore(sl.head, d, d'); }
  }

  // ----- first alternative, then the rest -----------------------------------------------

  lemma KeepFirstParts(first: Code, rest: Code)
    requires first != []
    ensures var c := KeepFirst(first, rest);
            && |c| == |first| + |rest| && At(c, |first|, rest) && c[|first|..] == rest
            && (forall j :: 0 <= j < |first| - 1 ==> c[j] == first[j])
            && c[|first| - 1] == first[|first| - 1].(offset := 1 + |rest|)
  {
  }

  lemma KeepFirstFine(first: Code, ty: seq<Ctx>, rest: Code, tr: seq<Ctx>, d: int, j: nat)
    requires FirstFine(first, ty, d) && TypedBy(rest, tr, d) && j < |first|
    ensures Fine(KeepFirst(first, rest), ty[..|first|] + tr, d, j)
  {
    hide KeepFirst;
    var c, ty', l := KeepFirst(first, rest), ty[..|first|] + tr, |first|;
    KeepFirstParts(first, rest);
    assert forall i :: 0 <= i <= l ==> ty'[i] == ty[i];
    if j == l - 1 {
      CloseFirstFine(c, ty', d, j);
    } else {
      assert Fine(first, ty, d, j);
      FineInPrefix(first, ty, c, ty', d, j);
    }
  }

  lemma CloseFirstFine(c: Code, ty: seq<Ctx>, d: int, j: nat)
    requires j < |c| && |ty| == |c| + 1 && ty[|c|] == Base && Choices(ty[j]) <= d && Dest(c, j) == |c|
    requires (c[j].op.ICommit? && ty[j] == InChoice(Base)) || (c[j].op.IJmp? && ty[j] == Base)
    ensures Fine(c, ty, d, j)
  {
  }

  lemma FineInPrefix(first: Code, ty: seq<Ctx>, c: Code, ty': seq<Ctx>, d: int, j: nat)
    requires Fine(first, ty, d, j) && j < |first| - 1
    requires |first| <= |c| && |ty'| == |c| + 1
    requires forall i :: 0 <= i <= |first| ==> ty'[i] == ty[i]
    requires forall i :: 0 <= i < |first| - 1 ==> c[i] == first[i]
    requires c[|first| - 1].op == first[|first| - 1].op
    requires first[|first| - 1].op.IJmp? || first[|first| - 1].op.ICommit?
    ensures Fine(c, ty', d, j)
  {
    if first[j].op.IPartialCommit? {
      assert Dest(first, j) < |first|;
    }
  }

  lemma KeepFirstSolid(first: Code, rest: Code, d: nat)
    requires FirstSolid(first, d) && Solid(rest, d)
    ensures Solid(KeepFirst(first, rest), d)
  {
    hide KeepFirst, Fine, WF, TypedBy;
    var c, l := KeepFirst(first, rest), |first|;
    var ty :| FirstFine(first, ty, d);
    var tr :| TypedBy(rest, tr, d);
    KeepFirstParts(first, rest);
    var ty' := ty[..l] + tr;
    CarriesSelf(ty[..l], tr, []);
    assert ty[..l] + tr + [] == ty';
    TypedEnds(rest, tr, d);
    PieceFine(rest, tr, d, c, ty', l, Base, d);
    forall j | 0 <= j < |c| ensures Fine(c, ty', d, j) {
      if j < l { KeepFirstFine(first, ty, rest, tr, d, j); }
    }
    assert FirstOk(c);
    Assemble(c, ty', d);
  }

  lemma AloneAtX(first: Code, rest: Code, ty: seq<Ctx>, d: int)
    requires FirstFine(first, ty, d)
    ensures AtX(KeepFirst(first, rest), 0, Alone(first), |first| + |rest|)
  {
    hide KeepFirst;
    var c, f, x := KeepFirst(first, rest), Alone(first), |first| + |rest|;
    KeepFirstParts(first, rest);
    forall i {:trigger Relocated(f, 0, x, i)} | 0 <= i < |f| ensures c[0 + i] == Relocated(f, 0, x, i) {
      if i < |f| - 1 { assert Fine(first, ty, d, i) && f[i] == first[i]; }
    }
  }

  // The first alternative alone, lifted in front of the rest.
  lemma FirstLift(first: Code, rest: Code, d: int, env: Env, s: int, caps: seq<Capture>, pc: int, s': int,
                  caps': seq<Capture>)
    requires FirstSolid(first, d) && (pc == |first| || pc == |first| + 1)
    requires Reaches(env, Alone(first), Run(0, s, [], caps), Run(pc, s', [], caps'))
    ensures Reaches(env, KeepFirst(first, rest), Run(0, s, [], caps),
                    Run(if pc == |first| then |first| else |first| + |rest|, s', [], caps'))
  {
    var ty :| FirstFine(first, ty, d);
    AloneAtX(first, rest, ty, d);
    EmbedReachesX(env, Alone(first), KeepFirst(first, rest), 0, |first| + |rest|, [],
                  Run(0, s, [], caps), Run(pc, s', [], caps'));
  }

  lemma PegOr(env: Env, p: Pat, q: Pat, s: int, caps: seq<Capture>)
    requires 0 <= s <= |env.subj|
    ensures Peg(env, Or(p, q), s, caps) == if Peg(env, p, s, caps).Got? then Peg(env, p, s, caps)
                                           else Peg(env, q, s, caps)
  {
  }

  lemma KeepFirstRun(first: Code, pf: Pat, pr: Pat, rest: Code, q: Pat, d: int, env: Env, s: int, caps: seq<Capture>)
    requires FirstSolid(first, d) && Implements(rest, q) && EnvOk(env) && 0 <= s <= |env.subj|
    requires ExitsAt(first, pf, pr, env, s, caps)
    requires Trivial(pr) ==> Trivial(q)
    ensures Reaches(env, KeepFirst(first, rest), Run(0, s, [], caps),
                    Outcomes(Peg(env, Or(pf, q), s, caps), |first| + |rest|, []))
  {
    hide KeepFirst, Peg, Steps, Step, Implements;
    var c, l := KeepFirst(first, rest), |first|;
    KeepFirstParts(first, rest);
    PegOr(env, pf, q, s, caps);
    var r, rf := Peg(env, Or(pf, q), s, caps), Peg(env, pf, s, caps);
    if rf.Nope? {
      FirstLift(first, rest, d, env, s, caps, l, s, caps);
      UseAt(rest, q, c, l, env, s, [], caps);
      ReachesTrans(env, c, Run(0, s, [], caps), Run(l, s, [], caps), Outcomes(r, |c|, []));
    } else if Reaches(env, Alone(first), Run(0, s, [], caps), Run(l + 1, rf.s, [], rf.caps)) {
      FirstLift(first, rest, d, env, s, caps, l + 1, rf.s, rf.caps);
    } else {
      FirstLift(first, rest, d, env, s, caps, l, rf.s, rf.caps);
      UseAt(rest, q, c, l, env, rf.s, [], rf.caps);
      assert Peg(env, q, rf.s, rf.caps) == Got(rf.s, rf.caps);
      ReachesTrans(env, c, Run(0, s, [], caps), Run(l, rf.s, [], rf.caps), Outcomes(r, |c|, []));
    }
  }

  lemma TrivialOr(p: Pat, q: Pat)
    requires Trivial(p)
    ensures Trivial(Or(p, q))
  {
    forall env, s, caps {:trigger Peg(env, Or(p, q), s, caps)} | EnvOk(env) && 0 <= s <= |env.subj|
      ensures Peg(env, Or(p, q), s, caps) == Got(s, caps)
    {
      assert Peg(env, p, s, caps) == Got(s, caps);
    }
  }

  lemma KeepExitsImplements(first: Code, pf: Pat, pr: Pat, rest: Code, q: Pat, d: int)
    requires FirstSolid(first, d) && Exits(first, pf, pr) && Implements(rest, q) && (Trivial(pr) ==> Trivial(q))
    ensures Implements(KeepFirst(first, rest), Or(pf, q))
  {
    KeepFirstParts(first, rest);
    forall env, s, caps {:trigger Peg(env, Or(pf, q), s, caps)} | EnvOk(env) && 0 <= s <= |env.subj|
      ensures Reaches(env, KeepFirst(first, rest), Run(0, s, [], caps),
                      Outcomes(Peg(env, Or(pf, q), s, caps), |KeepFirst(first, rest)|, []))
    {
      assert ExitsAt(first, pf, pr, env, s, caps);
      KeepFirstRun(first, pf, pr, rest, q, d, env, s, caps);
    }
  }

  // ----- a tested alternative that may fail ---------------------------------------------

  // Past the test, a failure of the first alternative leaves nothing to the rest.
  ghost predicate Settles(i: Instr, pf: Pat, q: Pat) {
    forall env, s, caps {:trigger Peg(env, pf, s, caps)} ::
      EnvOk(env) && 0 <= s <= |env.subj| && Passes(env, i, s) && Peg(env, pf, s, caps).Nope? ==>
        Peg(env, q, s, caps).Nope?
  }

  lemma TestedParts(first: Code, head: Code, pf: Pat, d: int, rest: Code)
    requires Tested(first, head, pf, d)
    ensures var c, body := KeepFirst(first, rest), head[1..];
            && |c| == |body| + 2 + |rest| && c[0] == Check2Test(head[0], |body| + 2) && At(c, 1, body)
            && c[|body| + 1].op.IJmp? && c[|body| + 1].offset == |rest| + 1 && At(c, |body| + 2, rest)
  {
    KeepFirstParts(first, rest);
    var c, body := KeepFirst(first, rest), head[1..];
    assert c[1..1 + |body|] == first[1..1 + |body|];
  }

  lemma TestedRun(i: Instr, body: Code, pf: Pat, c: Code, rest: Code, q: Pat, env: Env, s: int, caps: seq<Capture>)
    requires HeadBody(i, body, pf) && Implements(rest, q) && EnvOk(env) && 0 <= s <= |env.subj|
    requires |c| == |body| + 2 + |rest| && c[0] == Check2Test(i, |body| + 2) && At(c, 1, body)
    requires c[|body| + 1].op.IJmp? && c[|body| + 1].offset == |rest| + 1 && At(c, |body| + 2, rest)
    ensures Passes(env, i, s) ==>
              Reaches(env, c, Run(0, s, [], caps), Outcomes(Peg(env, pf, s, caps), |c|, []))
    ensures !Passes(env, i, s) ==>
              Peg(env, pf, s, caps).Nope?
                && Reaches(env, c, Run(0, s, [], caps), Outcomes(Peg(env, q, s, caps), |c|, []))
  {
    hide Step, Steps, Peg;
    UseHead(i, body, pf, c, 0, env, s, [], caps);
    var l, rf := |body| + 1, Peg(env, pf, s, caps);
    if Passes(env, i, s) {
      if rf.Got? {
        StepFlow(env, c, l, rf.s, [], rf.caps);
        ReachesSelf(env, c, Run(|c|, rf.s, [], rf.caps));
        ReachesStep(env, c, Run(l, rf.s, [], rf.caps), Run(|c|, rf.s, [], rf.caps));
        ReachesTrans(env, c, Run(0, s, [], caps), Run(l, rf.s, [], rf.caps), Run(|c|, rf.s, [], rf.caps));
      }
    } else {
      UseAt(rest, q, c, l + 1, env, s, [], caps);
      ReachesTrans(env, c, Run(0, s, [], caps), Run(l + 1, s, [], caps), Outcomes(Peg(env, q, s, caps), |c|, []));
    }
  }

  lemma KeepTestedImplements(first: Code, head: Code, pf: Pat, d: int, rest: Code, q: Pat)
    requires Tested(first, head, pf, d) && Implements(rest, q) && Settles(head[0], pf, q)
    ensures Implements(KeepFirst(first, rest), Or(pf, q))
  {
    hide KeepFirst;
    TestedParts(first, head, pf, d, rest);
    var c := KeepFirst(first, rest);
    forall env, s, caps {:trigger Peg(env, Or(pf, q), s, caps)} | EnvOk(env) && 0 <= s <= |env.subj|
      ensures Reaches(env, c, Run(0, s, [], caps), Outcomes(Peg(env, Or(pf, q), s, caps), |c|, []))
    {
      PegOr(env, pf, q, s, caps);
      TestedRun(head[0], head[1..], pf, c, rest, q, env, s, caps);
    }
  }

  // What an existing flattened choice tells about its own rest.
  lemma SettledRest(c: Code, p: Pat, d: int, sp: nat, sl: Split)
    requires 0 < sp <= |c| && Implements(c, p) && SplitBy(c, p, d, sp, sl) && Dest(c, sp - 1) == |c|
    requires Tested(c[..sp], sl.head, sl.first, d)
    ensures Settles(sl.head[0], sl.first, sl.rest)
  {
    var first, rest := c[..sp], c[sp..];
    assert KeepFirst(first, rest) == c;
    TestedParts(first, sl.head, sl.first, d, rest);
    forall env, s, caps {:trigger Peg(env, sl.first, s, caps)}
      | EnvOk(env) && 0 <= s <= |env.subj| && Passes(env, sl.head[0], s) && Peg(env, sl.first, s, caps).Nope?
      ensures Peg(env, sl.rest, s, caps).Nope?
    {
      TestedRun(sl.head[0], sl.head[1..], sl.first, c, rest, sl.rest, env, s, caps);
      PegOr(env, sl.first, sl.rest, s, caps);
      assert Peg(env, p, s, caps) == Peg(env, Or(sl.first, sl.rest), s, caps);
      HaltUnique(env, c, Run(0, s, [], caps), Fail([]), Outcomes(Peg(env, p, s, caps), |c|, []));
    }
  }

  // When the leading test and the second pattern's starts exclude each other.
  lemma SettledSecond(first: Code, head: Code, pf: Pat, d: int, c2: Code, p2: Pat)
    requires Tested(first, head, pf, d) && WF(c2) && Implements(c2, p2)
    requires !NoFail(first) && !Interfere(first, ToCharset(c2))
    ensures Settles(head[0], pf, p2)
  {
    HeadSplit(c2, p2);
    var i := head[0];
    forall env, s, caps {:trigger Peg(env, pf, s, caps)}
      | EnvOk(env) && 0 <= s <= |env.subj| && Passes(env, i, s) && Peg(env, pf, s, caps).Nope?
      ensures Peg(env, p2, s, caps).Nope?
    {
      PassesFill(env, i, s);
      assert env.subj[s] !in FillCharset(c2[0]);
      NopeOutside(c2[0], c2[1..], p2, env, s, caps);
    }
  }

  lemma SettlesOr(i: Instr, pf: Pat, p: Pat, q: Pat)
    requires Settles(i, pf, p) && Settles(i, pf, q)
    ensures Settles(i, pf, Or(p, q))
  {
    forall env, s, caps {:trigger Peg(env, pf, s, caps)}
      | EnvOk(env) && 0 <= s <= |env.subj| && Passes(env, i, s) && Peg(env, pf, s, caps).Nope?
      ensures Peg(env, Or(p, q), s, caps).Nope?
    {
      PegOr(env, p, q, s, caps);
    }
  }
}

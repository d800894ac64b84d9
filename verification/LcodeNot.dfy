// Negation: the value is inverted, the two lists change places and lose their values.

module LcodeNot {
  import opened LcodeVm
  import opened LcodeGiven
  import opened LcodeGen
  import opened LcodeResolve
  import opened LcodePatch
  import opened LcodeMeaning
  import opened LcodeCond

  // The code inverts the value that arrives but still leaves through the old lists.
  ghost predicate InvertsAt(cmp: Answers, fs: FS, at: Entry, e: Exp, g: Given, k: Shape, fr: int, r: Regs,
                            ev: seq<Event>)
  {
    var o := Enter(cmp, fs.code, Limit(fs, e), Opens(fs, e), at, r, ev);
    && !o.Stuck? && Same(r, o.r, fr, NO_JUMP)
    && if AtEnd(o, fs.jpc) then
         var a := Arrived(cmp, fs, e, o.r);
         && g.way.ToEnd? && a.v == Bool(IsFalse(g.v)) && o.events + a.events == ev + g.events
         && EndBrings(fs.code, o) == if k.AConstant? then g.way.b else Nothing
       else
         o.events == ev + g.events && if o.j in e.t then g.way.ToTrue? else o.j in e.f && g.way.ToFalse?
  }

  ghost predicate InvertsFor(cmp: Answers, fs0: FS, fs: FS, e: Exp, x: Expr, fr: int, at: Entry, r: Regs,
                             ev: seq<Event>)
  {
    InvertsAt(cmp, fs, at, e, Give(cmp, x, EntryBrings(fs0.code, at, r), r), ShapeOf(x), fr, r, ev)
  }

  ghost predicate Inverts(cmp: Answers, fs0: FS, fs: FS, e: Exp, x: Expr) {
    && Placed(fs0, fs, e) && fs.freereg == fs0.freereg && KindIs(e.k, ShapeOf(Not(x)))
    && forall at, r, ev :: EntryFor(fs0, at) ==> InvertsFor(cmp, fs0, fs, e, x, fs0.freereg, at, r, ev)
  }

  // ----- the value that arrives -------------------------------------------------------

  // `codenot` without its lists.
  function Inverted(fs: FS, e: Exp): (FS, Kind) {
    var e1 := DischargeVars(e);
    if e1.k.VConst? then (fs, VConst(Negation(e1.k.c)))
    else if e1.k.VJmp? then (fs.(code := InvertJump(fs.code, e1.k.pc)), e1.k)
    else
      var (fs1, e2) := Discharge2AnyReg(fs, e1);
      var fs2 := FreeExp(fs1, e2);
      (Emit(fs2, OpNot(0, if e2.k.VNonReloc? then e2.k.reg else 0)), VReloc(|fs2.code|))
  }

  lemma InvertReg(cmp: Answers, fs0: FS, fs: FS, e: Exp, x: Expr)
    requires GenOk(cmp, fs0, fs, e, x) && e.k.VNonReloc?
    ensures var (fs', k) := Inverted(fs, e); Inverts(cmp, fs0, fs', Exp(k, e.t, e.f), x)
  {
    hide Run, Enter, Discharged, Same, Arrived, InvertsAt, DenotesAt, Settles;
    var i, n, keep := OpNot(0, e.k.reg), |fs.code|, AsSet(e.t) + AsSet(e.f);
    var (fs', k) := Inverted(fs, e);
    var e' := Exp(k, e.t, e.f);
    assert fs'.code == Discharged(fs) + [i] && fs'.jpc == [];
    OneMore(fs, i);
    ListStays(fs, [i], e.t);
    ListStays(fs, [i], e.f);
    EmitSettles(fs, [i], keep, {}, n);
    assert keep + {} == Opens(fs', e');
    ExtOk(fs0, fs, n, Opens(fs, e));
    ExtMore(fs0, fs, n, Opens(fs, e), fs', n, Opens(fs', e'), n);
    forall at, r, ev | EntryFor(fs0, at) ensures InvertsFor(cmp, fs0, fs', e', x, fs0.freereg, at, r, ev) {
      assert DenotesFor(cmp, fs0, fs, e, x, fs0.freereg, NO_JUMP, at, r, ev);
      EntriesOk(fs0, fs, n, Opens(fs, e), at);
      RegAt(cmp, fs, at, e, Give(cmp, x, EntryBrings(fs0.code, at, r), r), ShapeOf(x), fs0.freereg, fs', e', r, ev);
    }
  }

  lemma RegAt(cmp: Answers, fs: FS, at: Entry, e: Exp, g: Given, k: Shape, fr: int, fs': FS, e': Exp, r: Regs,
              ev: seq<Event>)
    requires Ok(fs) && ExpOk(fs, e) && e.k.VNonReloc? && EntryOk(fs.code, |fs.code|, at) && !k.AConstant?
    requires e' == e.(k := VReloc(|fs.code|)) && fs'.jpc == [] && fs'.code == Discharged(fs) + [OpNot(0, e.k.reg)]
    requires DenotesAt(cmp, fs, at, e, g, fr, NO_JUMP, r, ev)
    ensures InvertsAt(cmp, fs', at, e', g, k, fr, r, ev)
  {
    hide Enter, Discharged, KindOk, Brings, Carried, HasTestSet;
    var keep, i, n := AsSet(e.t) + AsSet(e.f), OpNot(0, e.k.reg), |fs.code|;
    EmitEnter(cmp, fs, [i], keep, {}, n, at, r, ev);
    assert keep + {} == Opens(fs', e') && Limit(fs', e') == n;
    assert fs'.code[n] == i;
    var o := Enter(cmp, fs.code, n, keep + AsSet(fs.jpc), at, r, ev);
    if AtEnd(o, fs.jpc) { FallsAtEnd(cmp, fs'.code, n, keep, Fall(o.r, o.events)); }
  }

  // The negation of a negation that has no register yet goes through a temporary one.
  lemma InvertReloc(cmp: Answers, fs0: FS, fs: FS, e: Exp, x: Expr)
    requires GenOk(cmp, fs0, fs, e, x) && e.k.VReloc?
    ensures var (fs', k) := Inverted(fs, e); Inverts(cmp, fs0, fs', Exp(k, e.t, e.f), x)
  {
    hide Run, Enter, InvertsAt, DenotesAt, Settles;
    var m := |fs.code| - 1;
    var tmp, b := fs.freereg, fs.code[m].b;
    var (fs', k) := Inverted(fs, e);
    var e' := Exp(k, e.t, e.f);
    InvertedReloc(fs, e);
    LimitFree(fs, e);
    RelocShape(fs0, fs, e, fs', e');
    forall at, r, ev | EntryFor(fs0, at) ensures InvertsFor(cmp, fs0, fs', e', x, fs0.freereg, at, r, ev) {
      assert DenotesFor(cmp, fs0, fs, e, x, fs0.freereg, NO_JUMP, at, r, ev);
      EntriesOk(fs0, fs, m, Opens(fs, e), at);
      RelocAt(cmp, fs, at, e, Give(cmp, x, EntryBrings(fs0.code, at, r), r), ShapeOf(x), fs0.freereg, fs', e', r, ev);
    }
  }

  lemma InvertedReloc(fs: FS, e: Exp)
    requires Ok(fs) && ExpOk(fs, e) && e.k.VReloc?
    ensures var m, tmp := |fs.code| - 1, fs.freereg;
            var (fs', k) := Inverted(fs, e);
            && fs'.code == fs.code[m := OpNot(tmp, fs.code[m].b)] + [OpNot(0, tmp)] && fs'.jpc == []
            && fs'.nactvar == fs.nactvar && fs'.freereg == fs.freereg && k == VReloc(|fs.code|)
  {
    var m := |fs.code| - 1;
    var tmp, b := fs.freereg, fs.code[m].b;
    var fs2 := Reserve(fs).(code := fs.code[m := OpNot(tmp, b)]);
    assert Discharge2AnyReg(fs, e) == (fs2, e.(k := VNonReloc(tmp)));
  }

  lemma RelocShape(fs0: FS, fs: FS, e: Exp, fs': FS, e': Exp)
    requires Placed(fs0, fs, e) && e.k.VReloc? && e' == e.(k := VReloc(|fs.code|))
    requires |fs'.code| == |fs.code| + 1 && fs'.jpc == [] && fs'.nactvar == fs.nactvar && fs'.freereg == fs.freereg
    requires forall i :: 0 <= i < |fs.code| - 1 ==> fs'.code[i] == fs.code[i]
    requires fs'.code[|fs.code| - 1].OpNot? && fs'.code[|fs.code|].OpNot?
    ensures Placed(fs0, fs', e')
  {
    hide Settles;
    var m := |fs.code| - 1;
    LimitFree(fs, e);
    forall i | 0 <= i < |fs'.code| ensures PairAt(fs'.code, i) {
      if i < |fs.code| { assert PairAt(fs.code, i); }
    }
    ExtOk(fs0, fs, m, Opens(fs, e));
    PrefixSettles(fs.code, m, Opens(fs, e), fs'.code, m + 1, Opens(fs', e'), m);
    ExtMore(fs0, fs, m, Opens(fs, e), fs', m + 1, Opens(fs', e'), m);
  }

  lemma RelocAt(cmp: Answers, fs: FS, at: Entry, e: Exp, g: Given, k: Shape, fr: int, fs': FS, e': Exp, r: Regs,
                ev: seq<Event>)
    requires Ok(fs) && ExpOk(fs, e) && e.k.VReloc? && EntryOk(fs.code, Limit(fs, e), at) && !k.AConstant?
    requires e' == e.(k := VReloc(|fs.code|)) && fs'.jpc == [] && fr <= fs.freereg
    requires fs'.code == fs.code[|fs.code| - 1 := OpNot(fs.freereg, fs.code[|fs.code| - 1].b)] + [OpNot(0, fs.freereg)]
    requires DenotesAt(cmp, fs, at, e, g, fr, NO_JUMP, r, ev)
    ensures InvertsAt(cmp, fs', at, e', g, k, fr, r, ev)
  {
    hide Run, Enter, Brings, Carried, HasTestSet;
    var m := |fs.code| - 1;
    var open := Opens(fs, e);
    LimitFree(fs, e);
    PrefixEnter(cmp, fs.code, m, open, fs'.code, m + 1, open, at, r, ev);
    assert Opens(fs', e') == open && Limit(fs', e') == m + 1;
    var o := Enter(cmp, fs.code, m, open, at, r, ev);
    if o.Fall? {
      NotStep(cmp, fs'.code, m, open, o.r, o.events);
      assert o.events + [] == o.events;
    }
  }

  lemma NotStep(cmp: Answers, c: Code, m: nat, open: set<int>, r: Regs, ev: seq<Event>)
    requires m < |c| && c[m].OpNot? && m !in open
    ensures Run(cmp, c, m + 1, open, m, r, ev) == Fall(Put(r, c[m].a, Bool(IsFalse(r(c[m].b)))), ev)
  {
  }

  lemma InvertJmp(cmp: Answers, fs0: FS, fs: FS, e: Exp, x: Expr)
    requires GenOk(cmp, fs0, fs, e, x) && e.k.VJmp?
    ensures var (fs', k) := Inverted(fs, e); Inverts(cmp, fs0, fs', Exp(k, e.t, e.f), x)
  {
    hide Inverted, KindOk, Ok, InvertsAt, DenotesAt, Ext, Limit, Opens;
    var (fs', k) := Inverted(fs, e);
    FlippedPlaced(fs0, fs, e);
    assert KindIs(k, ShapeOf(Not(x))) by { FlippedKind(fs, e); }
    PlacedOk(fs0, fs, e);
    forall at, r, ev | EntryFor(fs0, at)
      ensures InvertsFor(cmp, fs0, fs', Exp(k, e.t, e.f), x, fs0.freereg, at, r, ev) {
      assert DenotesFor(cmp, fs0, fs, e, x, fs0.freereg, NO_JUMP, at, r, ev);
      EntriesOk(fs0, fs, Limit(fs, e), Opens(fs, e), at);
      FlippedAt(cmp, fs, at, e, Give(cmp, x, EntryBrings(fs0.code, at, r), r), ShapeOf(x), fs0.freereg, r, ev);
    }
  }

  lemma PlacedOk(fs0: FS, fs: FS, e: Exp)
    requires Placed(fs0, fs, e)
    ensures Ok(fs) && ExpOk(fs, e)
  {
    ExtOk(fs0, fs, Limit(fs, e), Opens(fs, e));
  }

  lemma FlippedKind(fs: FS, e: Exp)
    requires e.k.VJmp?
    ensures Inverted(fs, e).1.VJmp?
  {
  }

  lemma FlippedPlaced(fs0: FS, fs: FS, e: Exp)
    requires Placed(fs0, fs, e) && e.k.VJmp?
    ensures var (fs', k) := Inverted(fs, e); Placed(fs0, fs', Exp(k, e.t, e.f)) && fs'.freereg == fs.freereg
  {
    hide Settles;
    var (fs', k) := Inverted(fs, e);
    var m, e' := |fs.code| - 2, Exp(k, e.t, e.f);
    assert fs'.code == fs.code[m := fs.code[m].(cond := !fs.code[m].cond)];
    LimitFree(fs, e);
    forall i | 0 <= i < |fs'.code| ensures PairAt(fs'.code, i) { assert PairAt(fs.code, i); }
    ExtOk(fs0, fs, m, Opens(fs, e));
    PrefixSettles(fs.code, m, Opens(fs, e), fs'.code, m, Opens(fs', e'), m);
    ExtMore(fs0, fs, m, Opens(fs, e), fs', m, Opens(fs', e'), m);
  }

  lemma FlippedAt(cmp: Answers, fs: FS, at: Entry, e: Exp, g: Given, k: Shape, fr: int, r: Regs, ev: seq<Event>)
    requires Ok(fs) && ExpOk(fs, e) && e.k.VJmp? && EntryOk(fs.code, Limit(fs, e), at) && !k.AConstant?
    requires DenotesAt(cmp, fs, at, e, g, fr, NO_JUMP, r, ev)
    ensures var (fs', k') := Inverted(fs, e); InvertsAt(cmp, fs', at, Exp(k', e.t, e.f), g, k, fr, r, ev)
  {
    hide Run, Enter, Brings, Carried, HasTestSet;
    var m := |fs.code| - 2;
    var (fs', k') := Inverted(fs, e);
    var open := Opens(fs, e);
    assert fs'.code == fs.code[m := fs.code[m].(cond := !fs.code[m].cond)];
    assert Opens(fs', Exp(k', e.t, e.f)) == open;
    LimitFree(fs, e);
    PrefixEnter(cmp, fs.code, m, open, fs'.code, m, open, at, r, ev);
    FallsAtEnd(cmp, fs'.code, m, open, Enter(cmp, fs.code, m, open, at, r, ev));
  }

  lemma FallsAtEnd(cmp: Answers, c: Code, m: nat, open: set<int>, o: Outcome)
    requires m <= |c|
    ensures o.Fall? ==> Run(cmp, c, m, open, m, o.r, o.events) == o
  {
  }

  lemma InvertConst(cmp: Answers, fs0: FS, fs: FS, e: Exp, x: Expr)
    requires GenOk(cmp, fs0, fs, e, x) && e.k.VConst?
    ensures var (fs', k) := Inverted(fs, e); Inverts(cmp, fs0, fs', Exp(k, e.t, e.f), x)
  {
    hide Enter, Settles, Brings;
    var (fs', k) := Inverted(fs, e);
    var e' := Exp(k, e.t, e.f);
    assert Opens(fs', e') == Opens(fs, e) && Limit(fs', e') == Limit(fs, e);
    forall at, r, ev | EntryFor(fs0, at) ensures InvertsFor(cmp, fs0, fs', e', x, fs0.freereg, at, r, ev) {
      assert DenotesFor(cmp, fs0, fs, e, x, fs0.freereg, NO_JUMP, at, r, ev);
    }
  }

  lemma InvertedOk(cmp: Answers, fs0: FS, fs: FS, e: Exp, x: Expr)
    requires GenOk(cmp, fs0, fs, e, x)
    ensures var (fs', k) := Inverted(fs, e); Inverts(cmp, fs0, fs', Exp(k, e.t, e.f), x)
  {
    var e1 := DischargeVars(e);
    VarsDenote(cmp, fs0, fs, e, x);
    assert Inverted(fs, e) == Inverted(fs, e1) && !e1.k.VLocal?;
    hide GenOk, Inverted, Inverts;
    if e1.k.VConst? { InvertConst(cmp, fs0, fs, e1, x); }
    else if e1.k.VNonReloc? { InvertReg(cmp, fs0, fs, e1, x); }
    else if e1.k.VReloc? {
      InvertReloc(cmp, fs0, fs, e1, x);
    } else {
      InvertJmp(cmp, fs0, fs, e1, x);
    }
  }

  // ----- the lists -----------------------------------------------------------------------

  function NoValues(c: Code, e: Exp): (r: Code)
    ensures |r| == |c|
  {
    RemoveValues(RemoveValues(c, e.t), e.f)
  }

  lemma NoValuesAt(fs: FS, e: Exp, i: nat)
    requires Ok(fs) && ExpOk(fs, e) && i < |fs.code|
    ensures NoValues(fs.code, e)[i] == if (i + 1 in e.t || i + 1 in e.f) && fs.code[i].OpTestSet?
                                       then OpTest(fs.code[i].b, fs.code[i].c) else fs.code[i]
  {
    var c := RemoveValues(fs.code, e.t);
    RemoveValuesAt(fs.code, e.t, i);
    forall j | j in e.f ensures 0 <= j < |c| && c[j].OpJmp? { RemoveValuesAt(fs.code, e.t, j); }
    RemoveValuesAt(c, e.f, i);
  }

  lemma NoValuesPlaced(fs0: FS, fs: FS, e: Exp)
    requires Placed(fs0, fs, e) && !e.k.VLocal? && !e.k.VNonReloc?
    ensures Placed(fs0, fs.(code := NoValues(fs.code, e)), Exp(e.k, e.f, e.t))
  {
    hide Settles, NoValues;
    var fs', e', n := fs.(code := NoValues(fs.code, e)), Exp(e.k, e.f, e.t), Limit(fs, e);
    forall i | 0 <= i < |fs.code|
      ensures fs'.code[i] == fs.code[i] || (fs'.code[i].OpTest? && fs.code[i].OpTestSet?)
    {
      NoValuesAt(fs, e, i);
    }
    SamePairs(fs.code, fs'.code);
    assert Opens(fs', e') == Opens(fs, e);
    ExtOk(fs0, fs, n, Opens(fs, e));
    NoValuesResolves(fs, e);
    ResolvesSettles(fs.code, n, Opens(fs, e), fs'.code, n, Opens(fs, e), map[], n);
    ExtMore(fs0, fs, n, Opens(fs, e), fs', n, Opens(fs, e), n);
  }

  lemma NoValuesResolves(fs: FS, e: Exp)
    requires Ok(fs) && ExpOk(fs, e)
    ensures Resolves(fs.code, Limit(fs, e), Opens(fs, e), NoValues(fs.code, e), Limit(fs, e), Opens(fs, e), map[])
  {
    var m, c', open := Limit(fs, e), NoValues(fs.code, e), Opens(fs, e);
    LimitFree(fs, e);
    forall i | 0 <= i < m ensures ResolvedAt(fs.code, m, open, c', m, open, map[], i) { NoValuesAt(fs, e, i); }
  }

  lemma NoValuesEnter(cmp: Answers, fs: FS, e: Exp, at: Entry, r: Regs, ev: seq<Event>)
    requires Ok(fs) && ExpOk(fs, e) && EntryOk(fs.code, Limit(fs, e), at)
    requires !Enter(cmp, fs.code, Limit(fs, e), Opens(fs, e), at, r, ev).Stuck?
    ensures Enter(cmp, NoValues(fs.code, e), Limit(fs, e), Opens(fs, e), at, r, ev) ==
            Enter(cmp, fs.code, Limit(fs, e), Opens(fs, e), at, r, ev)
  {
    hide Enter, Run, NoValues;
    var m, open := Limit(fs, e), Opens(fs, e);
    NoValuesResolves(fs, e);
    ResolveEnter(cmp, fs.code, m, open, NoValues(fs.code, e), m, open, map[], at, r, ev);
    FallsAtEnd(cmp, NoValues(fs.code, e), m, open, Enter(cmp, fs.code, m, open, at, r, ev));
  }

  lemma NoValuesCarried(fs: FS, e: Exp, j: int, r: Regs, b: bool)
    requires Ok(fs) && ExpOk(fs, e) && (j in e.t || j in e.f)
    ensures !HasTestSet(NoValues(fs.code, e), j) && Carried(NoValues(fs.code, e), j, r, b) == Bool(b)
  {
    NoValuesAt(fs, e, j);
    if j >= 1 { NoValuesAt(fs, e, j - 1); }
  }

  lemma NoValuesControl(fs: FS, e: Exp, j: int)
    requires Ok(fs) && ExpOk(fs, e) && j in fs.jpc
    ensures SameControl(fs.code, NoValues(fs.code, e), j)
  {
    NoValuesAt(fs, e, j);
    if j >= 1 { NoValuesAt(fs, e, j - 1); }
  }

  lemma ArrivedStays(cmp: Answers, fs: FS, e: Exp, r: Regs)
    requires Ok(fs) && ExpOk(fs, e) && !e.k.VLocal? && !e.k.VNonReloc?
    ensures Arrived(cmp, fs.(code := NoValues(fs.code, e)), Exp(e.k, e.f, e.t), r) == Arrived(cmp, fs, e, r)
  {
    if !e.k.VConst? { NoValuesAt(fs, e, Limit(fs, e)); }
  }

  lemma SwapAt(cmp: Answers, fs: FS, at: Entry, e: Exp, g: Given, k: Shape, fr: int, r: Regs, ev: seq<Event>)
    requires Ok(fs) && ExpOk(fs, e) && !e.k.VLocal? && !e.k.VNonReloc? && EntryOk(fs.code, Limit(fs, e), at)
    requires InvertsAt(cmp, fs, at, e, g, k, fr, r, ev)
    ensures DenotesAt(cmp, fs.(code := NoValues(fs.code, e)), at, Exp(e.k, e.f, e.t), Negated(g, k), fr, NO_JUMP, r, ev)
  {
    hide Run, Enter, NoValues, Arrived, Carried, Brings, HasTestSet, KindOk;
    var fs', e' := fs.(code := NoValues(fs.code, e)), Exp(e.k, e.f, e.t);
    assert Opens(fs', e') == Opens(fs, e) && Limit(fs', e') == Limit(fs, e);
    NoValuesEnter(cmp, fs, e, at, r, ev);
    var o := Enter(cmp, fs.code, Limit(fs, e), Opens(fs, e), at, r, ev);
    if AtEnd(o, fs.jpc) {
      ArrivedStays(cmp, fs, e, o.r);
      if o.Exit? {
        NoValuesControl(fs, e, o.j);
        SameBrings(fs.code, fs'.code, o.j, o.r, true);
      }
    } else {
      NoValuesCarried(fs, e, o.j, o.r, true);
      NoValuesCarried(fs, e, o.j, o.r, false);
    }
  }

  lemma CodeNotIs(fs: FS, e: Exp)
    ensures var (fs1, k) := Inverted(fs, e);
            CodeNot(fs, e) == (fs1.(code := NoValues(fs1.code, Exp(k, e.t, e.f))), Exp(k, e.f, e.t))
  {
  }

  // Negation gives what is given, negated.
  lemma CodeNotOk(cmp: Answers, fs0: FS, fs: FS, e: Exp, x: Expr)
    requires GenOk(cmp, fs0, fs, e, x)
    ensures GenOk(cmp, fs0, CodeNot(fs, e).0, CodeNot(fs, e).1, Not(x))
  {
    hide Inverted, InvertsAt, DenotesAt, NoValues, Ext, Limit, Opens, KindOk;
    var (fs1, k) := Inverted(fs, e);
    var e1 := Exp(k, e.t, e.f);
    InvertedOk(cmp, fs0, fs, e, x);
    CodeNotIs(fs, e);
    NoValuesPlaced(fs0, fs1, e1);
    PlacedOk(fs0, fs1, e1);
    var fs', e' := fs1.(code := NoValues(fs1.code, e1)), Exp(k, e.f, e.t);
    assert CodeNot(fs, e) == (fs', e');
    assert Placed(fs0, fs', e') && KindIs(e'.k, ShapeOf(Not(x))) && fs'.freereg == fs0.freereg;
    forall at, r, ev | EntryFor(fs0, at)
      ensures DenotesFor(cmp, fs0, fs', e', Not(x), fs0.freereg, NO_JUMP, at, r, ev) {
      assert InvertsFor(cmp, fs0, fs1, e1, x, fs0.freereg, at, r, ev);
      EntriesOk(fs0, fs1, Limit(fs1, e1), Opens(fs1, e1), at);
      SwapAt(cmp, fs1, at, e1, Give(cmp, x, EntryBrings(fs0.code, at, r), r), ShapeOf(x), fs0.freereg, r, ev);
    }
  }
}

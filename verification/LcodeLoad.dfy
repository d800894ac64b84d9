// Putting the value of an expression in a register.

module LcodeLoad {
  import opened LcodeVm
  import opened LcodeGiven
  import opened LcodeGen
  import opened LcodeResolve
  import opened LcodePatch
  import opened LcodeMeaning
  import opened LcodeCond
  import opened LcodeNot

  // ----- the value that arrives -------------------------------------------------------

  // The code gets to its end with `v` where `e` says, or leaves with it, and carries out `es`.
  ghost predicate HoldsAt(cmp: Answers, fs: FS, at: Entry, e: Exp, v: Value, es: seq<Event>, fr: int, ex: int, r: Regs,
                          ev: seq<Event>)
  {
    var o := Enter(cmp, fs.code, Limit(fs, e), Opens(fs, e), at, r, ev);
    && !o.Stuck? && Same(r, o.r, fr, ex)
    && if AtEnd(o, fs.jpc) then var a := Arrived(cmp, fs, e, o.r); a.v == v && o.events + a.events == ev + es
       else
         && o.events == ev + es
         && if o.j in e.t then v == Carried(fs.code, o.j, o.r, true)
            else o.j in e.f && v == Carried(fs.code, o.j, o.r, false)
  }

  ghost predicate HoldsFor(cmp: Answers, fs0: FS, fs: FS, e: Exp, x: Expr, fr: int, ex: int, at: Entry, r: Regs,
                           ev: seq<Event>)
  {
    var g := Give(cmp, x, EntryBrings(fs0.code, at, r), r);
    HoldsAt(cmp, fs, at, e, g.v, g.events, fr, ex, r, ev)
  }

  // Like `Placed`, once the value has its register.
  ghost predicate Held(fs0: FS, fs: FS, e: Exp) {
    && Ext(fs0, fs, Limit(fs, e), Opens(fs, e)) && (e.k.VNonReloc? || (e.k.VJmp? && KindOk(fs, e)))
    && OpenList(fs.code, e.t) && OpenList(fs.code, e.f)
    && Disjoint(e.t, e.f) && Disjoint(e.t, fs.jpc) && Disjoint(e.f, fs.jpc)
  }

  ghost predicate HeldOk(cmp: Answers, fs0: FS, fs: FS, e: Exp, x: Expr, fr: int, reg: int) {
    && Held(fs0, fs, e) && (e.k.VNonReloc? ==> e.k.reg == reg)
    && forall at, r, ev :: EntryFor(fs0, at) ==> HoldsFor(cmp, fs0, fs, e, x, fr, reg, at, r, ev)
  }

  lemma DenotesHolds(cmp: Answers, fs: FS, at: Entry, e: Exp, g: Given, fr: int, ex: int, reg: int, r: Regs,
                     ev: seq<Event>)
    requires DenotesAt(cmp, fs, at, e, g, fr, ex, r, ev) && (ex == NO_JUMP || ex == reg)
    ensures HoldsAt(cmp, fs, at, e, g.v, g.events, fr, reg, r, ev)
  {
    hide Enter, Opens, Limit, Arrived, Carried;
  }

  lemma StayOk(cmp: Answers, fs0: FS, fs: FS, e: Exp, x: Expr, fr: int, reg: int)
    requires Placed(fs0, fs, e) && Denotes(cmp, fs0, fs, e, x, fr, NO_JUMP) && (e.k == VNonReloc(reg) || e.k.VJmp?)
    ensures HeldOk(cmp, fs0, fs, e, x, fr, reg)
  {
    hide DenotesAt, HoldsAt, Settles;
    forall at, r, ev | EntryFor(fs0, at) ensures HoldsFor(cmp, fs0, fs, e, x, fr, reg, at, r, ev) {
      assert DenotesFor(cmp, fs0, fs, e, x, fr, NO_JUMP, at, r, ev);
      DenotesHolds(cmp, fs, at, e, Give(cmp, x, EntryBrings(fs0.code, at, r), r), fr, NO_JUMP, reg, r, ev);
    }
  }

  lemma MoveOk(cmp: Answers, fs0: FS, fs: FS, e: Exp, x: Expr, fr: int, reg: int)
    requires Placed(fs0, fs, e) && Denotes(cmp, fs0, fs, e, x, fr, NO_JUMP) && e.k.VNonReloc? && 0 <= reg != e.k.reg
    ensures var (fs', e') := Discharge2Reg(fs, e, reg);
            HeldOk(cmp, fs0, fs', e', x, fr, reg) && fs'.freereg == fs.freereg && fs'.maxstack == fs.maxstack
  {
    hide DenotesAt, HoldsAt, Settles, Discharged;
    var i, n, keep := OpMove(reg, e.k.reg), |fs.code|, AsSet(e.t) + AsSet(e.f);
    var (fs', e') := Discharge2Reg(fs, e, reg);
    assert fs'.code == Discharged(fs) + [i] && fs'.jpc == [];
    OneMore(fs, i);
    ListStays(fs, [i], e.t);
    ListStays(fs, [i], e.f);
    EmitSettles(fs, [i], keep, {}, n + 1);
    assert keep + {} == Opens(fs', e');
    ExtOk(fs0, fs, n, Opens(fs, e));
    ExtMore(fs0, fs, n, Opens(fs, e), fs', n + 1, Opens(fs', e'), n);
    forall at, r, ev | EntryFor(fs0, at) ensures HoldsFor(cmp, fs0, fs', e', x, fr, reg, at, r, ev) {
      assert DenotesFor(cmp, fs0, fs, e, x, fr, NO_JUMP, at, r, ev);
      EntriesOk(fs0, fs, n, Opens(fs, e), at);
      MoveAt(cmp, fs, at, e, Give(cmp, x, EntryBrings(fs0.code, at, r), r), fr, fs', reg, r, ev);
    }
  }

  lemma MoveAt(cmp: Answers, fs: FS, at: Entry, e: Exp, g: Given, fr: int, fs': FS, reg: int, r: Regs, ev: seq<Event>)
    requires Ok(fs) && ExpOk(fs, e) && e.k.VNonReloc? && EntryOk(fs.code, |fs.code|, at)
    requires fs'.code == Discharged(fs) + [OpMove(reg, e.k.reg)] && fs'.jpc == [] && reg >= 0
    requires DenotesAt(cmp, fs, at, e, g, fr, NO_JUMP, r, ev)
    ensures HoldsAt(cmp, fs', at, e.(k := VNonReloc(reg)), g.v, g.events, fr, reg, r, ev)
  {
    hide Run, Enter, Discharged, Carried, HasTestSet;
    var n, more := |fs.code|, [OpMove(reg, e.k.reg)];
    var keep := AsSet(e.t) + AsSet(e.f);
    assert |fs'.code| == n + 1 && fs'.code[n] == more[0];
    EmitEnter(cmp, fs, more, keep, {}, n + 1, at, r, ev);
    assert keep + {} == keep && keep + AsSet(fs'.jpc) == keep;
    var o := Enter(cmp, fs.code, n, keep + AsSet(fs.jpc), at, r, ev);
    if AtEnd(o, fs.jpc) {
      MoveStep(cmp, fs'.code, n, keep, o.r, o.events);
    } else {
      ControlStays(fs, more, o.j);
      SameBrings(fs.code, fs'.code, o.j, o.r, true);
      SameBrings(fs.code, fs'.code, o.j, o.r, false);
    }
  }

  lemma MoveStep(cmp: Answers, c: Code, m: nat, open: set<int>, r: Regs, ev: seq<Event>)
    requires m < |c| && c[m].OpMove? && m !in open
    ensures Run(cmp, c, m + 1, open, m, r, ev) == Fall(Put(r, c[m].a, r(c[m].b)), ev)
  {
  }

  lemma PlaceOk(cmp: Answers, fs0: FS, fs: FS, e: Exp, x: Expr, fr: int, reg: int)
    requires Placed(fs0, fs, e) && Denotes(cmp, fs0, fs, e, x, fr, NO_JUMP) && e.k.VReloc? && reg >= 0
    ensures var (fs', e') := Discharge2Reg(fs, e, reg);
            HeldOk(cmp, fs0, fs', e', x, fr, reg) && fs'.freereg == fs.freereg && fs'.maxstack == fs.maxstack
  {
    hide DenotesAt, HoldsAt, Settles;
    var m := |fs.code| - 1;
    var (fs', e') := Discharge2Reg(fs, e, reg);
    assert fs'.code == fs.code[m := OpNot(reg, fs.code[m].b)];
    LimitFree(fs, e);
    forall i | 0 <= i < |fs'.code| ensures PairAt(fs'.code, i) { assert PairAt(fs.code, i); }
    assert Opens(fs', e') == Opens(fs, e);
    ExtOk(fs0, fs, m, Opens(fs, e));
    PrefixSettles(fs.code, m, Opens(fs, e), fs'.code, m + 1, Opens(fs', e'), m);
    ExtMore(fs0, fs, m, Opens(fs, e), fs', m + 1, Opens(fs', e'), m);
    forall at, r, ev | EntryFor(fs0, at) ensures HoldsFor(cmp, fs0, fs', e', x, fr, reg, at, r, ev) {
      assert DenotesFor(cmp, fs0, fs, e, x, fr, NO_JUMP, at, r, ev);
      EntriesOk(fs0, fs, m, Opens(fs, e), at);
      PlaceAt(cmp, fs, at, e, Give(cmp, x, EntryBrings(fs0.code, at, r), r), fr, fs', reg, r, ev);
    }
  }

  lemma PlaceAt(cmp: Answers, fs: FS, at: Entry, e: Exp, g: Given, fr: int, fs': FS, reg: int, r: Regs, ev: seq<Event>)
    requires Ok(fs) && ExpOk(fs, e) && e.k.VReloc? && EntryOk(fs.code, Limit(fs, e), at)
    requires fs'.code == fs.code[|fs.code| - 1 := OpNot(reg, fs.code[|fs.code| - 1].b)] && fs'.jpc == [] && reg >= 0
    requires DenotesAt(cmp, fs, at, e, g, fr, NO_JUMP, r, ev)
    ensures HoldsAt(cmp, fs', at, e.(k := VNonReloc(reg)), g.v, g.events, fr, reg, r, ev)
  {
    hide Run, Enter, Brings;
    var m := |fs.code| - 1;
    var open := Opens(fs, e);
    LimitFree(fs, e);
    PrefixEnter(cmp, fs.code, m, open, fs'.code, m + 1, open, at, r, ev);
    assert Opens(fs', e.(k := VNonReloc(reg))) == open;
    var o := Enter(cmp, fs.code, m, open, at, r, ev);
    if o.Fall? { NotStep(cmp, fs'.code, m, open, o.r, o.events); }
    assert o.events + [] == o.events;
  }

  lemma ConstOk(cmp: Answers, fs0: FS, fs: FS, e: Exp, x: Expr, fr: int, reg: int)
    requires Placed(fs0, fs, e) && Denotes(cmp, fs0, fs, e, x, fr, NO_JUMP) && e.k.VConst? && reg >= 0
    ensures var (fs', e') := Discharge2Reg(fs, e, reg);
            HeldOk(cmp, fs0, fs', e', x, fr, reg) && fs'.freereg == fs.freereg && fs'.maxstack == fs.maxstack
  {
    hide Denotes, DenotesAt, HoldsAt, Discharged, Settles;
    var (fs', e') := Discharge2Reg(fs, e, reg);
    ExtOk(fs0, fs, |fs.code|, Opens(fs, e));
    LoadedOk(cmp, fs0, fs, e, x, fr, reg, fs');
    forall at, r, ev | EntryFor(fs0, at) ensures HoldsFor(cmp, fs0, fs', e', x, fr, reg, at, r, ev) {
      assert LoadedFor(cmp, fs0, fs', e', x, fr, reg, at, r, ev);
      DenotesHolds(cmp, fs', at, e', Loaded(Give(cmp, x, EntryBrings(fs0.code, at, r), r)), fr, reg, reg, r, ev);
    }
  }

  lemma DischargeOk(cmp: Answers, fs0: FS, fs: FS, e: Exp, x: Expr, fr: int, reg: int)
    requires Placed(fs0, fs, e) && Denotes(cmp, fs0, fs, e, x, fr, NO_JUMP) && reg >= 0
    ensures var (fs', e') := Discharge2Reg(fs, e, reg);
            HeldOk(cmp, fs0, fs', e', x, fr, reg) && fs'.freereg == fs.freereg && fs'.maxstack == fs.maxstack
  {
    var e1 := DischargeVars(e);
    PlacedVars(cmp, fs0, fs, e, x, fr);
    assert Discharge2Reg(fs, e, reg) == Discharge2Reg(fs, e1, reg) && !e1.k.VLocal?;
    hide Placed, Denotes, HeldOk, Emit;
    if e1.k.VConst? {
      ConstOk(cmp, fs0, fs, e1, x, fr, reg);
    } else if e1.k.VNonReloc? && e1.k.reg != reg {
      MoveOk(cmp, fs0, fs, e1, x, fr, reg);
    } else if e1.k.VReloc? {
      PlaceOk(cmp, fs0, fs, e1, x, fr, reg);
    } else {
      StayOk(cmp, fs0, fs, e1, x, fr, reg);
    }
  }

  lemma PlacedVars(cmp: Answers, fs0: FS, fs: FS, e: Exp, x: Expr, fr: int)
    requires Placed(fs0, fs, e) && Denotes(cmp, fs0, fs, e, x, fr, NO_JUMP)
    ensures Placed(fs0, fs, DischargeVars(e)) && Denotes(cmp, fs0, fs, DischargeVars(e), x, fr, NO_JUMP)
  {
    hide Enter, Settles;
    var e1 := DischargeVars(e);
    assert Opens(fs, e1) == Opens(fs, e) && Limit(fs, e1) == Limit(fs, e);
    forall at, r, ev | EntryFor(fs0, at) ensures DenotesFor(cmp, fs0, fs, e1, x, fr, NO_JUMP, at, r, ev) {
      assert DenotesFor(cmp, fs0, fs, e, x, fr, NO_JUMP, at, r, ev);
    }
  }

  // ----- the jumps that leave ------------------------------------------------------------

  // All jumps that leave, and where the value is at the end: in `reg`, or, for a comparison,
  // nowhere, and then it is false.
  ghost predicate LeavesAt(cmp: Answers, fs: FS, at: Entry, t: seq<int>, f: seq<int>, held: bool, v: Value,
                           es: seq<Event>, fr: int, reg: int, r: Regs, ev: seq<Event>)
  {
    var o := Enter(cmp, fs.code, |fs.code|, AsSet(t) + AsSet(f) + AsSet(fs.jpc), at, r, ev);
    && !o.Stuck? && Same(r, o.r, fr, reg) && o.events == ev + es
    && if AtEnd(o, fs.jpc) then v == if held then o.r(reg) else Bool(false)
       else if o.j in t then v == Carried(fs.code, o.j, o.r, true)
       else o.j in f && v == Carried(fs.code, o.j, o.r, false)
  }

  ghost predicate LeavesFor(cmp: Answers, fs0: FS, fs: FS, t: seq<int>, f: seq<int>, held: bool, x: Expr, fr: int,
                            reg: int, at: Entry, r: Regs, ev: seq<Event>)
  {
    var g := Give(cmp, x, EntryBrings(fs0.code, at, r), r);
    LeavesAt(cmp, fs, at, t, f, held, g.v, g.events, fr, reg, r, ev)
  }

  ghost predicate Ready(fs0: FS, fs: FS, t: seq<int>, f: seq<int>, held: bool) {
    && Ext(fs0, fs, |fs.code|, AsSet(t) + AsSet(f) + AsSet(fs.jpc)) && OpenList(fs.code, t) && OpenList(fs.code, f)
    && Disjoint(t, f) && Disjoint(t, fs.jpc) && Disjoint(f, fs.jpc)
    && (!held ==> fs.jpc == [] && |fs.code| >= 1 && fs.code[|fs.code| - 1].OpJmp? && NeedValue(fs.code, t))
  }

  ghost predicate Leaves(cmp: Answers, fs0: FS, fs: FS, t: seq<int>, f: seq<int>, held: bool, x: Expr, fr: int,
                         reg: int) {
    && Ready(fs0, fs, t, f, held)
    && forall at, r, ev :: EntryFor(fs0, at) ==> LeavesFor(cmp, fs0, fs, t, f, held, x, fr, reg, at, r, ev)
  }

  lemma HeldLeaves(cmp: Answers, fs0: FS, fs: FS, e: Exp, x: Expr, fr: int, reg: int)
    requires HeldOk(cmp, fs0, fs, e, x, fr, reg) && e.k.VNonReloc?
    ensures Leaves(cmp, fs0, fs, e.t, e.f, true, x, fr, reg)
  {
    hide Enter, Settles, Carried;
    forall at, r, ev | EntryFor(fs0, at) ensures LeavesFor(cmp, fs0, fs, e.t, e.f, true, x, fr, reg, at, r, ev) {
      assert HoldsFor(cmp, fs0, fs, e, x, fr, reg, at, r, ev);
      var o := Enter(cmp, fs.code, |fs.code|, Opens(fs, e), at, r, ev);
      if !o.Stuck? { assert o.events + [] == o.events; }
    }
  }

  lemma JmpLeaves(cmp: Answers, fs0: FS, fs: FS, e: Exp, x: Expr, fr: int, reg: int)
    requires HeldOk(cmp, fs0, fs, e, x, fr, reg) && e.k.VJmp?
    ensures Leaves(cmp, fs0, fs, e.t + [e.k.pc], e.f, false, x, fr, reg)
  {
    hide HoldsAt, LeavesAt, Settles;
    var m, t := |fs.code| - 2, e.t + [e.k.pc];
    var open' := AsSet(t) + AsSet(e.f) + AsSet(fs.jpc);
    LimitBelow(fs0, fs, e);
    SnocList(fs.code, e.t, m + 1);
    ExtOk(fs0, fs, m, Opens(fs, e));
    PrefixSettles(fs.code, m, Opens(fs, e), fs.code, m + 2, open', m);
    ExtMore(fs0, fs, m, Opens(fs, e), fs, m + 2, open', m);
    assert m + 1 in t && !HasTestSet(fs.code, m + 1);
    forall at, r, ev | EntryFor(fs0, at) ensures LeavesFor(cmp, fs0, fs, t, e.f, false, x, fr, reg, at, r, ev) {
      assert HoldsFor(cmp, fs0, fs, e, x, fr, reg, at, r, ev);
      EntriesOk(fs0, fs, m, Opens(fs, e), at);
      var g := Give(cmp, x, EntryBrings(fs0.code, at, r), r);
      JmpLeavesAt(cmp, fs0, fs, at, e, g.v, g.events, fr, reg, r, ev);
    }
  }

  lemma LimitBelow(fs0: FS, fs: FS, e: Exp)
    requires Held(fs0, fs, e)
    ensures !Guarded(fs.code, Limit(fs, e)) && forall j :: j in e.t || j in e.f ==> j < Limit(fs, e)
  {
    StartFree(fs.code, |fs.code|);
    if e.k.VJmp? && e.k.pc > 1 { assert PairAt(fs.code, e.k.pc - 2); }
  }

  lemma JmpLeavesAt(cmp: Answers, fs0: FS, fs: FS, at: Entry, e: Exp, v: Value, es: seq<Event>, fr: int, reg: int,
                    r: Regs, ev: seq<Event>)
    requires Held(fs0, fs, e) && e.k.VJmp? && EntryOk(fs.code, Limit(fs, e), at)
    requires HoldsAt(cmp, fs, at, e, v, es, fr, reg, r, ev)
    ensures LeavesAt(cmp, fs, at, e.t + [e.k.pc], e.f, false, v, es, fr, reg, r, ev)
  {
    hide Run, Enter, Settles;
    var m := |fs.code| - 2;
    var open' := AsSet(e.t + [e.k.pc]) + AsSet(e.f) + AsSet(fs.jpc);
    assert open' == Opens(fs, e) + {m + 1};
    LimitBelow(fs0, fs, e);
    PrefixEnter(cmp, fs.code, m, Opens(fs, e), fs.code, m + 2, open', at, r, ev);
    var o := Enter(cmp, fs.code, m, Opens(fs, e), at, r, ev);
    if o.Fall? { TestStep(cmp, fs.code, m, open', o.r, o.events); }
  }

  // ----- the loads of false and true -----------------------------------------------------------

  // What is appended: nothing, the two loads, or the two loads and a jump around them.
  predicate LoadsFor(more: Code, reg: int) {
    var two := [OpLoadBool(reg, false, true), OpLoadBool(reg, true, false)];
    more == [] || more == two || more == [OpJmp(NO_JUMP)] + two
  }

  function Both(c: Code, t: seq<int>, f: seq<int>, end: int, reg: int, pf: int): (r: Code)
    ensures |r| == |c|
  {
    PatchList(PatchList(c, f, end, reg, pf), t, end, reg, if pf == NO_JUMP then NO_JUMP else pf + 1)
  }

  function Goal(c: Code, t: seq<int>, j: int, end: int, pf: int): int {
    if HasTestSet(c, j) then end else if j in t then (if pf == NO_JUMP then NO_JUMP else pf + 1) else pf
  }

  lemma BothAt(c: Code, t: seq<int>, f: seq<int>, end: int, reg: int, pf: int, i: nat)
    requires OpenList(c, t) && OpenList(c, f) && Disjoint(t, f) && i < |c|
    ensures Both(c, t, f, end, reg, pf)[i]
              == if i in t || i in f then OpJmp(Goal(c, t, i, end, pf))
                 else if (i + 1 in t || i + 1 in f) && c[i].OpTestSet? then TestFor(c[i], reg)
                 else c[i]
  {
    hide PatchList, HasTestSet;
    var c1 := PatchList(c, f, end, reg, pf);
    var pt := if pf == NO_JUMP then NO_JUMP else pf + 1;
    FirstStays(c, t, f, end, reg, pf);
    PatchListAt(c, f, end, reg, pf, i);
    PatchListAt(c1, t, end, reg, pt, i);
  }

  // Patching one list leaves the other as it was.
  lemma FirstStays(c: Code, t: seq<int>, f: seq<int>, end: int, reg: int, pf: int)
    requires OpenList(c, t) && OpenList(c, f) && Disjoint(t, f)
    ensures var c1 := PatchList(c, f, end, reg, pf);
            OpenList(c1, t) && forall k :: k in t ==> HasTestSet(c1, k) == HasTestSet(c, k)
  {
    var c1 := PatchList(c, f, end, reg, pf);
    forall k | k in t ensures 0 <= k < |c1| && c1[k].OpJmp? && HasTestSet(c1, k) == HasTestSet(c, k) {
      PatchListAt(c, f, end, reg, pf, k);
      if k >= 1 { PatchListAt(c, f, end, reg, pf, k - 1); }
    }
  }

  ghost predicate Patched(fs: FS, t: seq<int>, f: seq<int>, held: bool, reg: int, more: Code, fs': FS) {
    var n, c2 := |fs.code|, fs.code + more;
    var pf := if more == [] then NO_JUMP else |c2| - 2;
    && LoadsFor(more, reg) && (|more| == 2 <==> !held)
    && (more == [] ==> !NeedValue(fs.code, t) && !NeedValue(fs.code, f))
    && fs'.code == Both(c2, t, f, |c2|, reg, pf)
    && fs'.jpc == (if |more| == 3 then [n] else []) + fs.jpc
    && fs'.nactvar == fs.nactvar && fs'.freereg == fs.freereg && fs'.maxstack == fs.maxstack
  }

  lemma LoadsPairs(fs: FS, more: Code, reg: int)
    requires PairsOk(fs.code) && LoadsFor(more, reg)
    ensures PairsOk(fs.code + more)
  {
    forall i | 0 <= i < |more| ensures PairAt(more, i) {}
    AppendPairs(fs.code, more);
  }

  // The instruction at `i` once everything is patched.
  function PatchedInstr(c: Code, t: seq<int>, f: seq<int>, reg: int, more: Code, i: nat): Instr
    requires i < |c| + |more|
  {
    if i >= |c| then more[i - |c|]
    else if i in t || i in f then OpJmp(Goal(c, t, i, |c| + |more|, if more == [] then NO_JUMP else |c| + |more| - 2))
    else if (i + 1 in t || i + 1 in f) && c[i].OpTestSet? then TestFor(c[i], reg)
    else c[i]
  }

  lemma PatchedIs(fs0: FS, fs: FS, t: seq<int>, f: seq<int>, held: bool, reg: int, more: Code, fs': FS, i: nat)
    requires Ready(fs0, fs, t, f, held) && Patched(fs, t, f, held, reg, more, fs') && i < |fs'.code|
    ensures |fs'.code| == |fs.code| + |more| && fs'.code[i] == PatchedInstr(fs.code, t, f, reg, more, i)
  {
    hide Both, OpenList, Ext, NeedValue, LoadsFor;
    var c2 := fs.code + more;
    ListGrows(fs.code, more, t);
    ListGrows(fs.code, more, f);
    BothAt(c2, t, f, |c2|, reg, if more == [] then NO_JUMP else |c2| - 2, i);
  }

  lemma ListGrows(c: Code, more: Code, s: seq<int>)
    requires OpenList(c, s)
    ensures OpenList(c + more, s) && forall j :: j in s ==>
              0 <= j < |c| && HasTestSet(c + more, j) == HasTestSet(c, j)
  {
  }

  lemma PatchedKind(c: Code, t: seq<int>, f: seq<int>, reg: int, more: Code, i: nat)
    requires OpenList(c, t) && OpenList(c, f) && i < |c| + |more|
    ensures var k, k' := (c + more)[i], PatchedInstr(c, t, f, reg, more, i);
            TestMode(k') == TestMode(k) && k'.OpJmp? == k.OpJmp? && (k.OpLoadBool? || k'.OpLoadBool? ==> k' == k)
  {
    hide Goal, LoadsFor, DistinctSeq;
  }

  lemma PatchedPairs(fs0: FS, fs: FS, t: seq<int>, f: seq<int>, held: bool, reg: int, more: Code, fs': FS)
    requires Ready(fs0, fs, t, f, held) && Patched(fs, t, f, held, reg, more, fs')
    ensures |fs'.code| == |fs.code| + |more| && PairsOk(fs'.code)
    ensures forall i :: 0 <= i < |fs.code| ==>
              TestMode(fs'.code[i]) == TestMode(fs.code[i]) && fs'.code[i].OpJmp? == fs.code[i].OpJmp?
  {
    hide PatchedInstr, TestMode, PairsOk, Both, OpenList, Guarded;
    LoadsPairs(fs, more, reg);
    var c2 := fs.code + more;
    assert |fs'.code| == |c2|;
    forall i | 0 <= i < |c2|
      ensures TestMode(fs'.code[i]) == TestMode(c2[i]) && fs'.code[i].OpJmp? == c2[i].OpJmp?
      ensures c2[i].OpLoadBool? || fs'.code[i].OpLoadBool? ==> fs'.code[i] == c2[i]
    {
      PatchedIs(fs0, fs, t, f, held, reg, more, fs', i);
      PatchedKind(fs.code, t, f, reg, more, i);
    }
    SamePairs(c2, fs'.code);
  }

  lemma PatchedJpc(fs0: FS, fs: FS, t: seq<int>, f: seq<int>, held: bool, reg: int, more: Code, fs': FS)
    requires Ready(fs0, fs, t, f, held) && Patched(fs, t, f, held, reg, more, fs')
    ensures OpenList(fs'.code, fs'.jpc)
  {
    hide Both, PairsOk;
    PatchedPairs(fs0, fs, t, f, held, reg, more, fs');
    var n := |fs.code|;
    if |more| == 3 {
      PatchedIs(fs0, fs, t, f, held, reg, more, fs', n);
      assert fs'.code[n].OpJmp?;
    }
    forall j | j in fs'.jpc ensures 0 <= j < |fs'.code| && fs'.code[j].OpJmp? {}
    if |more| == 3 { ConsDistinct(n, fs.jpc); } else { assert fs'.jpc == fs.jpc; }
  }

  lemma PatchedNact(fs: FS, t: seq<int>, f: seq<int>, held: bool, reg: int, more: Code, fs': FS)
    requires Patched(fs, t, f, held, reg, more, fs')
    ensures fs'.nactvar == fs.nactvar && fs'.freereg == fs.freereg
            && fs'.jpc == (if |more| == 3 then [|fs.code|] else []) + fs.jpc
  {
  }

  // Where the jumps that leave go.
  function GoalsOf(c: Code, t: seq<int>, f: seq<int>, end: int, pf: int): Targets {
    map j | j in AsSet(t) + AsSet(f) :: Goal(c, t, j, end, pf)
  }

  lemma PatchedFree(fs0: FS, fs: FS, t: seq<int>, f: seq<int>, held: bool, reg: int, more: Code, fs': FS)
    requires Ready(fs0, fs, t, f, held) && Patched(fs, t, f, held, reg, more, fs')
    ensures var end := |fs'.code|;
            !Guarded(fs'.code, end) && (more != [] ==> !Guarded(fs'.code, end - 1) && !Guarded(fs'.code, end - 2))
  {
    hide Both, PairsOk;
    var end := |fs'.code|;
    PatchedPairs(fs0, fs, t, f, held, reg, more, fs');
    StartFree(fs'.code, end);
    StartFree(fs.code, |fs.code|);
    if more != [] {
      PatchedIs(fs0, fs, t, f, held, reg, more, fs', end - 2);
      if end >= 3 { PatchedIs(fs0, fs, t, f, held, reg, more, fs', end - 3); }
    }
  }

  lemma PatchedResolvesAt(fs0: FS, fs: FS, t: seq<int>, f: seq<int>, held: bool, reg: int, more: Code, fs': FS, i: nat)
    requires Ready(fs0, fs, t, f, held) && Patched(fs, t, f, held, reg, more, fs') && i < |fs.code|
    ensures |fs'.code| == |fs.code| + |more|
    ensures var n, end := |fs.code|, |fs'.code|;
            ResolvedAt(fs.code, n, AsSet(t) + AsSet(f) + AsSet(fs.jpc), fs'.code, end, AsSet(fs'.jpc),
                       GoalsOf(fs.code, t, f, end, if more == [] then NO_JUMP else end - 2), i)
  {
    hide Both, PairsOk, HasTestSet, Guarded, DistinctSeq, Settles;
    PatchedIs(fs0, fs, t, f, held, reg, more, fs', i);
    PatchedFree(fs0, fs, t, f, held, reg, more, fs');
    if more == [] && (i in t || i in f) { assert HasTestSet(fs.code, i); }
  }

  lemma PatchedResolves(fs0: FS, fs: FS, t: seq<int>, f: seq<int>, held: bool, reg: int, more: Code, fs': FS)
    requires Ready(fs0, fs, t, f, held) && Patched(fs, t, f, held, reg, more, fs')
    ensures |fs'.code| == |fs.code| + |more|
    ensures var n, end := |fs.code|, |fs'.code|;
            Resolves(fs.code, n, AsSet(t) + AsSet(f) + AsSet(fs.jpc), fs'.code, end, AsSet(fs'.jpc),
                     GoalsOf(fs.code, t, f, end, if more == [] then NO_JUMP else end - 2))
  {
    hide ResolvedAt, GoalsOf, Guarded, PairAt, LoadsFor, Both, HasTestSet, DistinctSeq, Settles;
    var n, end := |fs.code|, |fs'.code|;
    StartFree(fs.code, n);
    var open := AsSet(t) + AsSet(f) + AsSet(fs.jpc);
    var tau := GoalsOf(fs.code, t, f, end, if more == [] then NO_JUMP else end - 2);
    forall i | 0 <= i < n ensures ResolvedAt(fs.code, n, open, fs'.code, end, AsSet(fs'.jpc), tau, i) {
      PatchedResolvesAt(fs0, fs, t, f, held, reg, more, fs', i);
    }
  }

  lemma PatchedExt(fs0: FS, fs: FS, t: seq<int>, f: seq<int>, held: bool, reg: int, more: Code, fs': FS)
    requires Ready(fs0, fs, t, f, held) && Patched(fs, t, f, held, reg, more, fs')
    ensures Ext(fs0, fs', |fs'.code|, AsSet(fs'.jpc))
  {
    hide Both, PairsOk, LoadsFor, NeedValue, Guarded, Resolves, Settles;
    var n, end, open := |fs.code|, |fs'.code|, AsSet(t) + AsSet(f) + AsSet(fs.jpc);
    ReadyOk(fs0, fs, t, f, held);
    PatchedPairs(fs0, fs, t, f, held, reg, more, fs');
    PatchedJpc(fs0, fs, t, f, held, reg, more, fs');
    PatchedResolves(fs0, fs, t, f, held, reg, more, fs');
    var tau := GoalsOf(fs.code, t, f, end, if more == [] then NO_JUMP else end - 2);
    forall j | j in open && j in tau && j !in AsSet(fs'.jpc) ensures n <= tau[j] {
      LeaveGoal(fs0, fs, t, f, held, reg, more, fs', j);
    }
    ResolvesSettles(fs.code, n, open, fs'.code, end, AsSet(fs'.jpc), tau, n);
    ExtMore(fs0, fs, n, open, fs', end, AsSet(fs'.jpc), n);
  }

  lemma ReadyOk(fs0: FS, fs: FS, t: seq<int>, f: seq<int>, held: bool)
    requires Ready(fs0, fs, t, f, held)
    ensures Ok(fs) && |fs0.code| <= |fs.code|
  {
    ExtOk(fs0, fs, |fs.code|, AsSet(t) + AsSet(f) + AsSet(fs.jpc));
  }

  // Behind the old code: with a value, around the loads; without one, through one of them.
  lemma LoadsRun(cmp: Answers, fs0: FS, fs: FS, t: seq<int>, f: seq<int>, held: bool, reg: int, more: Code, fs': FS,
                 r: Regs, ev: seq<Event>)
    requires Ready(fs0, fs, t, f, held) && Patched(fs, t, f, held, reg, more, fs')
    ensures |fs'.code| == |fs.code| + |more|
    ensures var n, end, open := |fs.code|, |fs'.code|, AsSet(fs'.jpc);
            && (more != [] ==> Run(cmp, fs'.code, end, open, end - 2, r, ev) == Fall(Put(r, reg, Bool(false)), ev)
                               && Run(cmp, fs'.code, end, open, end - 1, r, ev) == Fall(Put(r, reg, Bool(true)), ev))
            && (held ==> var o := Run(cmp, fs'.code, end, open, n, r, ev);
                AtEnd(o, fs'.jpc) && o.r == r && o.events == ev)
            && Run(cmp, fs'.code, end, open, end, r, ev) == Fall(r, ev)
  {
    hide Both, PairsOk, Disjoint, Settles;
    var n, end, open := |fs.code|, |fs'.code|, AsSet(fs'.jpc);
    PatchedJpc(fs0, fs, t, f, held, reg, more, fs');
    assert |fs'.code| == |fs.code| + |more|;
    if more != [] {
      PatchedIs(fs0, fs, t, f, held, reg, more, fs', end - 2);
      PatchedIs(fs0, fs, t, f, held, reg, more, fs', end - 1);
      assert end - 2 !in open && end - 1 !in open;
    }
  }

  lemma ArriveCarried(fs0: FS, fs: FS, t: seq<int>, f: seq<int>, held: bool, reg: int, more: Code, fs': FS, j: int,
                      r: Regs, b: bool)
    requires Ready(fs0, fs, t, f, held) && Patched(fs, t, f, held, reg, more, fs') && reg != NO_REG
             && (j in t || j in f)
    ensures var a := Arrive(fs'.code, j, r);
            if HasTestSet(fs.code, j) then a(reg) == Carried(fs.code, j, r, b) && forall i :: i != reg ==> a(i) == r(i)
            else a == r && Carried(fs.code, j, r, b) == Bool(b)
  {
    hide Ready, Patched, Ext;
    ListsOpen(fs0, fs, t, f, held);
    PatchedSize(fs0, fs, t, f, held, reg, more, fs');
    if j >= 1 { PatchedIs(fs0, fs, t, f, held, reg, more, fs', j - 1); }
  }

  lemma ListsOpen(fs0: FS, fs: FS, t: seq<int>, f: seq<int>, held: bool)
    requires Ready(fs0, fs, t, f, held)
    ensures Ok(fs) && forall j :: j in t || j in f ==> 0 <= j < |fs.code| && fs.code[j].OpJmp?
  {
    hide Settles;
  }

  lemma PatchedSize(fs0: FS, fs: FS, t: seq<int>, f: seq<int>, held: bool, reg: int, more: Code, fs': FS)
    requires Ready(fs0, fs, t, f, held) && Patched(fs, t, f, held, reg, more, fs')
    ensures |fs'.code| == |fs.code| + |more|
  {
    hide Ready, Ext;
  }

  lemma PatchedOnward(cmp: Answers, fs0: FS, fs: FS, t: seq<int>, f: seq<int>, held: bool, reg: int, more: Code,
                      fs': FS, at: Entry, r: Regs, ev: seq<Event>)
    requires Ready(fs0, fs, t, f, held) && Patched(fs, t, f, held, reg, more, fs') && EntryOk(fs.code, |fs.code|, at)
    requires !Enter(cmp, fs.code, |fs.code|, AsSet(t) + AsSet(f) + AsSet(fs.jpc), at, r, ev).Stuck?
    ensures var n, end := |fs.code|, |fs'.code|;
            var o := Enter(cmp, fs.code, n, AsSet(t) + AsSet(f) + AsSet(fs.jpc), at, r, ev);
            Enter(cmp, fs'.code, end, AsSet(fs'.jpc), at, r, ev)
              == Onward(cmp, n, fs'.code, end, AsSet(fs'.jpc),
                        GoalsOf(fs.code, t, f, end, if more == [] then NO_JUMP else end - 2), o)
  {
    hide Resolves, Onward, Run, Enter, GoalsOf, Patched, Ready, Ext;
    var end := |fs'.code|;
    PatchedResolves(fs0, fs, t, f, held, reg, more, fs');
    ResolveEnter(cmp, fs.code, |fs.code|, AsSet(t) + AsSet(f) + AsSet(fs.jpc), fs'.code, end, AsSet(fs'.jpc),
                 GoalsOf(fs.code, t, f, end, if more == [] then NO_JUMP else end - 2), at, r, ev);
  }

  lemma LeaveGoal(fs0: FS, fs: FS, t: seq<int>, f: seq<int>, held: bool, reg: int, more: Code, fs': FS, j: int)
    requires Ready(fs0, fs, t, f, held) && Patched(fs, t, f, held, reg, more, fs') && (j in t || j in f)
    ensures |fs'.code| == |fs.code| + |more| && j !in AsSet(fs'.jpc)
    ensures more == [] ==> HasTestSet(fs.code, j)
    ensures more != [] ==> |more| >= 2
  {
    hide Both, Guarded, HasTestSet, Ext;
  }

  // The run ends with `v` in `reg` and nothing else changed.
  ghost predicate Delivered(o: Outcome, r: Regs, ev: seq<Event>, reg: int, v: Value) {
    o.Fall? && o.events == ev && o.r(reg) == v && forall i :: i != reg ==> o.r(i) == r(i)
  }

  // Where a jump that leaves goes and what it finds there.
  lemma PatchedExitAt(cmp: Answers, fs0: FS, fs: FS, t: seq<int>, f: seq<int>, held: bool, reg: int, more: Code,
                      fs': FS, j: int, r: Regs, ev: seq<Event>)
    requires Ready(fs0, fs, t, f, held) && Patched(fs, t, f, held, reg, more, fs') && reg != NO_REG
             && (j in t || j in f)
    ensures var n, end := |fs.code|, |fs'.code|;
            var tau := GoalsOf(fs.code, t, f, end, if more == [] then NO_JUMP else end - 2);
            Delivered(Onward(cmp, n, fs'.code, end, AsSet(fs'.jpc), tau, Exit(j, r, ev)), r, ev, reg,
                      Carried(fs.code, j, r, j in t))
  {
    hide Run, Guarded, HasTestSet, Carried, Arrive, Ready, Patched, AtEnd;
    var a := Arrive(fs'.code, j, r);
    ArriveCarried(fs0, fs, t, f, held, reg, more, fs', j, r, j in t);
    LoadsRun(cmp, fs0, fs, t, f, held, reg, more, fs', a, ev);
    LeaveGoal(fs0, fs, t, f, held, reg, more, fs', j);
  }

  lemma PatchedRunAt(cmp: Answers, fs0: FS, fs: FS, t: seq<int>, f: seq<int>, held: bool, reg: int, more: Code, fs': FS,
                     at: Entry, v: Value, es: seq<Event>, fr: int, r: Regs, ev: seq<Event>)
    requires Ready(fs0, fs, t, f, held) && Patched(fs, t, f, held, reg, more, fs') && reg != NO_REG
    requires EntryOk(fs.code, |fs.code|, at) && LeavesAt(cmp, fs, at, t, f, held, v, es, fr, reg, r, ev)
    ensures HoldsAt(cmp, fs', at, Exp(VNonReloc(reg), [], []), v, es, fr, reg, r, ev)
  {
    hide Run, Enter, Both, LoadsFor, Ready, NeedValue, Carried;
    var n, end := |fs.code|, |fs'.code|;
    var o := Enter(cmp, fs.code, n, AsSet(t) + AsSet(f) + AsSet(fs.jpc), at, r, ev);
    PatchedOnward(cmp, fs0, fs, t, f, held, reg, more, fs', at, r, ev);
    assert Opens(fs', Exp(VNonReloc(reg), [], [])) == AsSet(fs'.jpc);
    assert o.events + [] == o.events;
    if o.Fall? {
      FallsOn(cmp, fs0, fs, t, f, held, reg, more, fs', o.r, o.events);
    } else if o.j in fs.jpc {
      assert held by { JpcHeld(fs0, fs, t, f, held); }
      assert o.j in AsSet(fs'.jpc);
    } else {
      PatchedExitAt(cmp, fs0, fs, t, f, held, reg, more, fs', o.j, o.r, o.events);
    }
  }

  lemma JpcHeld(fs0: FS, fs: FS, t: seq<int>, f: seq<int>, held: bool)
    requires Ready(fs0, fs, t, f, held)
    ensures held || fs.jpc == []
  {
  }

  // Past the old code: around the loads, or for a comparison through the load of false.
  lemma FallsOn(cmp: Answers, fs0: FS, fs: FS, t: seq<int>, f: seq<int>, held: bool, reg: int, more: Code, fs': FS,
                r: Regs, ev: seq<Event>)
    requires Ready(fs0, fs, t, f, held) && Patched(fs, t, f, held, reg, more, fs')
    ensures var o := Run(cmp, fs'.code, |fs'.code|, AsSet(fs'.jpc), |fs.code|, r, ev);
            AtEnd(o, fs'.jpc) && o.events == ev && if held then o.r == r else o.r == Put(r, reg, Bool(false))
  {
    hide Run, Both, Ready, LoadsFor;
    LoadsRun(cmp, fs0, fs, t, f, held, reg, more, fs', r, ev);
  }

  // ----- the whole operation -----------------------------------------------------------------

  // What it means that the value `x` gives is in `reg` behind `fs0`.
  ghost predicate InReg(cmp: Answers, fs0: FS, fs: FS, x: Expr, fr: int, reg: int) {
    && Ext(fs0, fs, |fs.code|, AsSet(fs.jpc))
    && forall at, r, ev ::
         EntryFor(fs0, at) ==> HoldsFor(cmp, fs0, fs, Exp(VNonReloc(reg), [], []), x, fr, reg, at, r, ev)
  }

  lemma FinishOk(cmp: Answers, fs0: FS, fs: FS, t: seq<int>, f: seq<int>, held: bool, x: Expr, fr: int, reg: int,
                 more: Code, fs': FS)
    requires Leaves(cmp, fs0, fs, t, f, held, x, fr, reg) && Patched(fs, t, f, held, reg, more, fs') && reg != NO_REG
    ensures InReg(cmp, fs0, fs', x, fr, reg)
  {
    hide Ext, LeavesAt, HoldsAt, Patched;
    var open := AsSet(t) + AsSet(f) + AsSet(fs.jpc);
    PatchedExt(fs0, fs, t, f, held, reg, more, fs');
    forall at, r, ev | EntryFor(fs0, at)
      ensures HoldsFor(cmp, fs0, fs', Exp(VNonReloc(reg), [], []), x, fr, reg, at, r, ev)
    {
      assert LeavesFor(cmp, fs0, fs, t, f, held, x, fr, reg, at, r, ev);
      EntriesOk(fs0, fs, |fs.code|, open, at);
      var g := Give(cmp, x, EntryBrings(fs0.code, at, r), r);
      PatchedRunAt(cmp, fs0, fs, t, f, held, reg, more, fs', at, g.v, g.events, fr, r, ev);
    }
  }

  // What `exp2reg` does with the jumps of an expression whose value is in place.
  function Finish(fs: FS, t: seq<int>, f: seq<int>, reg: int, around: bool): FS {
    if t == f then fs
    else
      var (fs2, pf) := if NeedValue(fs.code, t) || NeedValue(fs.code, f) then Loads(fs, reg, around) else (fs, NO_JUMP);
      var end := |fs2.code|;
      fs2.(code := PatchList(PatchList(fs2.code, f, end, reg, pf), t, end, reg,
                             if pf == NO_JUMP then NO_JUMP else pf + 1))
  }

  lemma FinishedIs(fs: FS, e: Exp, reg: int)
    ensures var (fs1, e1) := Discharge2Reg(fs, e, reg);
            Exp2Reg(fs, e, reg)
              == (Finish(fs1, if e1.k.VJmp? then e1.t + [e1.k.pc] else e1.t, e1.f, reg, !e1.k.VJmp?),
                  Exp(VNonReloc(reg), [], []))
  {
    hide Loads, PatchList, Discharge2Reg, NeedValue;
  }

  lemma LoadsAre(fs: FS, reg: int, around: bool)
    requires !around ==> fs.jpc == []
    ensures var (fs2, pf) := Loads(fs, reg, around);
            var more := (if around then [OpJmp(NO_JUMP)] else [])
                + [OpLoadBool(reg, false, true), OpLoadBool(reg, true, false)];
            && fs2 == fs.(code := fs.code + more, jpc := (if around then [|fs.code|] else []) + fs.jpc)
            && pf == |fs2.code| - 2
  {
    var (fs2, pf) := Loads(fs, reg, around);
    var more := (if around then [OpJmp(NO_JUMP)] else [])
        + [OpLoadBool(reg, false, true), OpLoadBool(reg, true, false)];
    assert fs2.code == fs.code + more;
    assert fs2.jpc == (if around then [|fs.code|] else []) + fs.jpc;
  }

  lemma FinishIs(fs0: FS, fs: FS, t: seq<int>, f: seq<int>, held: bool, reg: int)
    requires Ready(fs0, fs, t, f, held) && t != f
    ensures exists more :: Patched(fs, t, f, held, reg, more, Finish(fs, t, f, reg, held))
  {
    hide Ext, PatchList, HasTestSet, OpenList, Loads, Disjoint, NeedValue;
    if NeedValue(fs.code, t) || NeedValue(fs.code, f) {
      LoadsAre(fs, reg, held);
      var more := (if held then [OpJmp(NO_JUMP)] else [])
          + [OpLoadBool(reg, false, true), OpLoadBool(reg, true, false)];
      assert LoadsFor(more, reg);
      assert Patched(fs, t, f, held, reg, more, Finish(fs, t, f, reg, held));
    } else {
      assert fs.code + [] == fs.code;
      assert [] + fs.jpc == fs.jpc;
      assert Patched(fs, t, f, held, reg, [], Finish(fs, t, f, reg, held));
    }
  }

  // `exp2reg` puts what is given into the register.
  lemma Exp2RegOk(cmp: Answers, fs0: FS, fs: FS, e: Exp, x: Expr, fr: int, reg: int)
    requires Placed(fs0, fs, e) && Denotes(cmp, fs0, fs, e, x, fr, NO_JUMP) && 0 <= reg != NO_REG
    ensures var (fs', e') := Exp2Reg(fs, e, reg);
            && InReg(cmp, fs0, fs', x, fr, reg) && e' == Exp(VNonReloc(reg), [], [])
            && fs'.freereg == fs.freereg && fs'.maxstack == fs.maxstack
  {
    hide Finish, Exp2Reg, Discharge2Reg, Denotes, HoldsFor, Ext, OpenList, KindOk, Leaves, Patched, Placed, Ok;
    var (fs1, e1) := Discharge2Reg(fs, e, reg);
    DischargeOk(cmp, fs0, fs, e, x, fr, reg);
    FinishedIs(fs, e, reg);
    var held := !e1.k.VJmp?;
    var t := if held then e1.t else e1.t + [e1.k.pc];
    if held { HeldLeaves(cmp, fs0, fs1, e1, x, fr, reg); } else { JmpLeaves(cmp, fs0, fs1, e1, x, fr, reg); }
    SettleOk(cmp, fs0, fs1, t, e1.f, held, x, fr, reg);
    FinishMax(fs1, t, e1.f, reg, held);
  }

  // The registers in use and the most ever used do not change.
  lemma FinishMax(fs: FS, t: seq<int>, f: seq<int>, reg: int, around: bool)
    ensures var fs' := Finish(fs, t, f, reg, around); fs'.freereg == fs.freereg && fs'.maxstack == fs.maxstack
  {
    hide PatchList, NeedValue;
  }

  // With its value in place an expression is settled by patching its jumps.
  lemma SettleOk(cmp: Answers, fs0: FS, fs: FS, t: seq<int>, f: seq<int>, held: bool, x: Expr, fr: int, reg: int)
    requires Leaves(cmp, fs0, fs, t, f, held, x, fr, reg) && reg != NO_REG
    ensures InReg(cmp, fs0, Finish(fs, t, f, reg, held), x, fr, reg)
  {
    hide Ext, LeavesAt, HoldsAt, Patched;
    if t == f {
      AllEmpty(fs0, fs, t, f, held);
      assert AsSet(t) + AsSet(f) + AsSet(fs.jpc) == AsSet(fs.jpc);
      forall at, r, ev | EntryFor(fs0, at)
        ensures HoldsFor(cmp, fs0, fs, Exp(VNonReloc(reg), [], []), x, fr, reg, at, r, ev)
      {
        assert LeavesFor(cmp, fs0, fs, t, f, held, x, fr, reg, at, r, ev);
        var g := Give(cmp, x, EntryBrings(fs0.code, at, r), r);
        EmptyAt(cmp, fs, at, g.v, g.events, fr, reg, r, ev);
      }
    } else {
      FinishIs(fs0, fs, t, f, held, reg);
      var more :| Patched(fs, t, f, held, reg, more, Finish(fs, t, f, reg, held));
      FinishOk(cmp, fs0, fs, t, f, held, x, fr, reg, more, Finish(fs, t, f, reg, held));
    }
  }

  lemma AllEmpty(fs0: FS, fs: FS, t: seq<int>, f: seq<int>, held: bool)
    requires Ready(fs0, fs, t, f, held) && t == f
    ensures t == [] && held
  {
    hide Ext;
    if t != [] { NotSame(t, f); }
  }

  lemma EmptyAt(cmp: Answers, fs: FS, at: Entry, v: Value, es: seq<Event>, fr: int, reg: int, r: Regs, ev: seq<Event>)
    requires LeavesAt(cmp, fs, at, [], [], true, v, es, fr, reg, r, ev)
    ensures HoldsAt(cmp, fs, at, Exp(VNonReloc(reg), [], []), v, es, fr, reg, r, ev)
  {
    hide Run, Enter;
    var o := Enter(cmp, fs.code, |fs.code|, AsSet([]) + AsSet([]) + AsSet(fs.jpc), at, r, ev);
    assert o.events + [] == o.events;
  }

  // ----- the jumps that wait behind it -------------------------------------------------------

  // No jump that waits at the end brings a value.
  predicate NoneBrings(fs: FS) { forall j :: j in fs.jpc ==> !HasTestSet(fs.code, j) }

  lemma SettlePlain(fs0: FS, fs: FS, t: seq<int>, f: seq<int>, held: bool, reg: int)
    requires Ready(fs0, fs, t, f, held) && fs.jpc == []
    ensures NoneBrings(Finish(fs, t, f, reg, held))
  {
    hide Ext, Patched, HasTestSet;
    if t != f {
      var fs' := Finish(fs, t, f, reg, held);
      FinishIs(fs0, fs, t, f, held, reg);
      var more :| Patched(fs, t, f, held, reg, more, fs');
      PatchedNact(fs, t, f, held, reg, more, fs');
      if |more| == 3 { AroundPlain(fs0, fs, t, f, held, reg, more, fs'); }
    }
  }

  lemma AroundPlain(fs0: FS, fs: FS, t: seq<int>, f: seq<int>, held: bool, reg: int, more: Code, fs': FS)
    requires Ready(fs0, fs, t, f, held) && Patched(fs, t, f, held, reg, more, fs') && |more| == 3
    ensures !HasTestSet(fs'.code, |fs.code|)
  {
    hide Settles, Both, PairsOk;
    var n := |fs.code|;
    ReadyOk(fs0, fs, t, f, held);
    PatchedPairs(fs0, fs, t, f, held, reg, more, fs');
    StartFree(fs.code, n);
    PatchedIs(fs0, fs, t, f, held, reg, more, fs', n);
  }

  // A value that was not in its register from the start is put there by an instruction.
  lemma Exp2RegPlain(cmp: Answers, fs0: FS, fs: FS, e: Exp, x: Expr, fr: int, reg: int)
    requires Placed(fs0, fs, e) && Denotes(cmp, fs0, fs, e, x, fr, NO_JUMP) && reg >= 0
    requires e.k.VNonReloc? || e.k.VLocal? ==> e.k.reg != reg
    ensures NoneBrings(Exp2Reg(fs, e, reg).0)
  {
    hide Finish, Exp2Reg, Discharge2Reg, Denotes, HoldsFor, Ext, OpenList, KindOk, Placed, Ok;
    var (fs1, e1) := Discharge2Reg(fs, e, reg);
    DischargeOk(cmp, fs0, fs, e, x, fr, reg);
    NothingWaits(fs0, fs, e, reg);
    FinishedIs(fs, e, reg);
    var held := !e1.k.VJmp?;
    if held { HeldLeaves(cmp, fs0, fs1, e1, x, fr, reg); } else { JmpLeaves(cmp, fs0, fs1, e1, x, fr, reg); }
    SettlePlain(fs0, fs1, if held then e1.t else e1.t + [e1.k.pc], e1.f, held, reg);
  }

  lemma NothingWaits(fs0: FS, fs: FS, e: Exp, reg: int)
    requires Placed(fs0, fs, e) && (e.k.VNonReloc? || e.k.VLocal? ==> e.k.reg != reg)
    ensures Discharge2Reg(fs, e, reg).0.jpc == []
  {
  }
}

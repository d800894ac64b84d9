// What generated code means while it is being generated.

module LcodeMeaning {
  import opened LcodeVm
  import opened LcodeGiven
  import opened LcodeGen
  import opened LcodeResolve
  import opened LcodePatch

  predicate Ok(fs: FS) {
    PairsOk(fs.code) && OpenList(fs.code, fs.jpc) && 0 <= fs.nactvar <= fs.freereg && fs.nactvar <= MAXVARS
  }

  // How much of the code runs before the value of `e` is looked at.
  function Limit(fs: FS, e: Exp): (n: nat)
    ensures n <= |fs.code|
  {
    match e.k
    case VReloc(_) => if |fs.code| >= 1 then |fs.code| - 1 else 0
    case VJmp(_) => if |fs.code| >= 2 then |fs.code| - 2 else 0
    case _ => |fs.code|
  }

  predicate KindOk(fs: FS, e: Exp) {
    match e.k
    case VLocal(reg) => 0 <= reg < fs.nactvar
    case VConst(_) => true
    case VNonReloc(reg) => 0 <= reg < fs.freereg && (reg >= fs.nactvar ==> reg == fs.freereg - 1)
    case VReloc(pc) => 0 <= pc == |fs.code| - 1 && fs.code[pc].OpNot? && fs.jpc == []
    case VJmp(pc) =>
      1 <= pc == |fs.code| - 1 && fs.code[pc].OpJmp? && fs.code[pc - 1].OpComp? && pc !in e.t && pc !in e.f
        && fs.jpc == []
  }

  predicate ExpOk(fs: FS, e: Exp) {
    && KindOk(fs, e) && OpenList(fs.code, e.t) && OpenList(fs.code, e.f)
    && Disjoint(e.t, e.f) && Disjoint(e.t, fs.jpc) && Disjoint(e.f, fs.jpc)
  }

  // All jumps that are open: those that leave and those that wait.
  function Opens(fs: FS, e: Exp): set<int> { AsSet(e.t) + AsSet(e.f) + AsSet(fs.jpc) }

  // What the jump at `j` brings along: the value its test keeps, if it keeps one.
  function Brings(c: Code, j: int, r: Regs): Brought {
    if HasTestSet(c, j) then Something(r(c[Control(c, j)].b)) else Nothing
  }

  function EntryBrings(c: Code, at: Entry, r: Regs): Brought { if at.By? then Brings(c, at.j, r) else Nothing }

  // The value a jump that leaves stands for: what it brings, or the truth value `b`.
  function Carried(c: Code, j: int, r: Regs, b: bool): Value {
    if HasTestSet(c, j) then r(c[Control(c, j)].b) else Bool(b)
  }

  // The value of `e` when the code before it has run to its end.
  function Arrived(cmp: Answers, fs: FS, e: Exp, r: Regs): Result {
    match e.k
    case VLocal(reg) => Result(r(reg), [])
    case VNonReloc(reg) => Result(r(reg), [])
    case VConst(c) => Result(ConstValue(c), [])
    case VReloc(pc) => if 0 <= pc < |fs.code| && fs.code[pc].OpNot? then Result(Bool(IsFalse(r(fs.code[pc].b))), [])
                       else Result(Nil, [])
    case VJmp(pc) =>
      if 1 <= pc <= |fs.code| && fs.code[pc - 1].OpComp? then
        var i := fs.code[pc - 1];
        Result(Bool(cmp(i.op, Rk(r, i.x), Rk(r, i.y)) == i.cond), [Event(i.op, Rk(r, i.x), Rk(r, i.y))])
      else Result(Nil, [])
  }

  // Registers below `fr` other than `ex` are as they were.
  ghost predicate Same(r: Regs, r': Regs, fr: int, ex: int) {
    forall i :: 0 <= i < fr && i != ex ==> r'(i) == r(i)
  }

  // The run has got to the end, or to a jump to the end.
  predicate AtEnd(o: Outcome, jpc: seq<int>) { o.Fall? || (o.Exit? && o.j in jpc) }

  // How control goes on from there.
  function Onwards(n: int, o: Outcome): Entry { if o.Exit? then By(o.j) else Here(n) }

  function EndBrings(c: Code, o: Outcome): Brought { if o.Exit? then Brings(c, o.j, o.r) else Nothing }

  ghost predicate DenotesAt(cmp: Answers, fs: FS, at: Entry, e: Exp, g: Given, fr: int, ex: int, r: Regs,
                            ev: seq<Event>)
  {
    var o := Enter(cmp, fs.code, Limit(fs, e), Opens(fs, e), at, r, ev);
    && !o.Stuck? && Same(r, o.r, fr, ex)
    && if AtEnd(o, fs.jpc) then
         var a := Arrived(cmp, fs, e, o.r);
         g.way == ToEnd(EndBrings(fs.code, o)) && a.v == g.v && o.events + a.events == ev + g.events
       else
         && o.events == ev + g.events
         && if o.j in e.t then g.way == ToTrue(HasTestSet(fs.code, o.j)) && g.v == Carried(fs.code, o.j, o.r, true)
            else o.j in e.f && g.way == ToFalse(HasTestSet(fs.code, o.j)) && g.v == Carried(fs.code, o.j, o.r, false)
  }

  // Control comes to what is put behind `fs0` at its end, or by a jump that waits there.
  predicate EntryFor(fs0: FS, at: Entry) { at == Here(|fs0.code|) || (at.By? && at.j in fs0.jpc) }

  ghost predicate DenotesFor(cmp: Answers, fs0: FS, fs: FS, e: Exp, x: Expr, fr: int, ex: int, at: Entry, r: Regs,
                             ev: seq<Event>)
  {
    DenotesAt(cmp, fs, at, e, Give(cmp, x, EntryBrings(fs0.code, at, r), r), fr, ex, r, ev)
  }

  // However control comes to it, and with any registers, the code gives what `x` gives: it
  // gets to its end with the value where `e` says, or leaves through `t` or `f`.
  ghost predicate Denotes(cmp: Answers, fs0: FS, fs: FS, e: Exp, x: Expr, fr: int, ex: int) {
    forall at, r, ev :: EntryFor(fs0, at) ==> DenotesFor(cmp, fs0, fs, e, x, fr, ex, at, r, ev)
  }

  ghost predicate CondAt(cmp: Answers, fs: FS, at: Entry, list: seq<int>, t: Tested, fr: int, sense: bool, r: Regs,
                         ev: seq<Event>)
  {
    var o := Enter(cmp, fs.code, |fs.code|, AsSet(list) + AsSet(fs.jpc), at, r, ev);
    && !o.Stuck? && Same(r, o.r, fr, NO_JUMP) && o.events == ev + t.events
    && if AtEnd(o, fs.jpc) then t.next == On(EndBrings(fs.code, o))
       else o.j in list && t.next == Off(HasTestSet(fs.code, o.j)) && t.v == Carried(fs.code, o.j, o.r, !sense)
  }

  ghost predicate CondFor(cmp: Answers, fs0: FS, fs: FS, list: seq<int>, x: Expr, fr: int, sense: bool, at: Entry,
                          r: Regs, ev: seq<Event>)
  {
    var g := Give(cmp, x, EntryBrings(fs0.code, at, r), r);
    CondAt(cmp, fs, at, list, Test(g, ShapeOf(x), sense), fr, sense, r, ev)
  }

  // The code goes on to its end or leaves through `list` as testing what `x` gives does.
  ghost predicate Cond(cmp: Answers, fs0: FS, fs: FS, list: seq<int>, x: Expr, fr: int, sense: bool) {
    forall at, r, ev :: EntryFor(fs0, at) ==> CondFor(cmp, fs0, fs, list, x, fr, sense, at, r, ev)
  }

  // ----- emitting code ---------------------------------------------------------------

  function ToHere(jpc: seq<int>, n: int): Targets { map j | j in jpc :: n }

  lemma DischargedAt(fs: FS, i: nat)
    requires Ok(fs) && i < |fs.code|
    ensures PatchedAt(fs.code, fs.jpc, |fs.code|, NO_REG, |fs.code|, Discharged(fs), i)
  {
    PatchListAt(fs.code, fs.jpc, |fs.code|, NO_REG, |fs.code|, i);
  }

  // Appending `more` resolves the jumps to here, other jumps stay open.
  lemma EmitResolves(fs: FS, more: Code, keep: set<int>, newer: set<int>, n': nat)
    requires Ok(fs) && |fs.code| <= n' <= |fs.code| + |more|
    requires forall j :: j in keep ==> 0 <= j < |fs.code| && fs.code[j].OpJmp? && j !in fs.jpc
    requires forall j :: j in newer ==> |fs.code| <= j
    ensures Resolves(fs.code, |fs.code|, keep + AsSet(fs.jpc), Discharged(fs) + more, n', keep + newer,
                     ToHere(fs.jpc, |fs.code|))
  {
    var n, c' := |fs.code|, Discharged(fs) + more;
    assert !Guarded(fs.code, n) && !Guarded(c', n) by {
      if n > 0 {
        DischargedAt(fs, n - 1);
        assert PairAt(fs.code, n - 1);
      }
    }
    forall i | 0 <= i < n ensures ResolvedAt(fs.code, n, keep + AsSet(fs.jpc), c', n', keep + newer, ToHere(fs.jpc, n),
                                             i) {
      DischargedAt(fs, i);
    }
  }

  lemma DischargedNoSet(fs: FS, j: int)
    requires Ok(fs) && j in fs.jpc
    ensures forall more :: !HasSetBefore(Discharged(fs) + more, j)
  {
    if j >= 1 { DischargedAt(fs, j - 1); }
  }

  predicate HasSetBefore(c: Code, j: int) { 1 <= j <= |c| && c[j - 1].OpTestSet? }

  lemma EmitEnter(cmp: Answers, fs: FS, more: Code, keep: set<int>, newer: set<int>, n': nat, at: Entry, r: Regs,
                  ev: seq<Event>)
    requires Ok(fs) && |fs.code| <= n' <= |fs.code| + |more| && EntryOk(fs.code, |fs.code|, at)
    requires forall j :: j in keep ==> 0 <= j < |fs.code| && fs.code[j].OpJmp? && j !in fs.jpc
    requires forall j :: j in newer ==> |fs.code| <= j
    requires !Enter(cmp, fs.code, |fs.code|, keep + AsSet(fs.jpc), at, r, ev).Stuck?
    ensures var o := Enter(cmp, fs.code, |fs.code|, keep + AsSet(fs.jpc), at, r, ev);
            var c' := Discharged(fs) + more;
            Enter(cmp, c', n', keep + newer, at, r, ev)
              == if AtEnd(o, fs.jpc) then Run(cmp, c', n', keep + newer, |fs.code|, o.r, o.events) else o
  {
    hide Enter;
    var n, c' := |fs.code|, Discharged(fs) + more;
    var o := Enter(cmp, fs.code, n, keep + AsSet(fs.jpc), at, r, ev);
    EmitResolves(fs, more, keep, newer, n');
    ResolveEnter(cmp, fs.code, n, keep + AsSet(fs.jpc), c', n', keep + newer, ToHere(fs.jpc, n), at, r, ev);
    if o.Exit? && o.j in fs.jpc {
      DischargedNoSet(fs, o.j);
      assert !HasSetBefore(c', o.j);
      assert o.j !in keep + newer;
    }
  }

  lemma EmitSettles(fs: FS, more: Code, keep: set<int>, newer: set<int>, n': nat)
    requires Ok(fs) && |fs.code| <= n' <= |fs.code| + |more|
    requires forall j :: j in keep ==> 0 <= j < |fs.code| && fs.code[j].OpJmp? && j !in fs.jpc
    requires forall j :: j in newer ==> |fs.code| <= j
    ensures Settles(fs.code, |fs.code|, keep + AsSet(fs.jpc), Discharged(fs) + more, n', keep + newer, |fs.code|)
  {
    EmitResolves(fs, more, keep, newer, n');
    ResolvesSettles(fs.code, |fs.code|, keep + AsSet(fs.jpc), Discharged(fs) + more, n', keep + newer,
                    ToHere(fs.jpc, |fs.code|), |fs.code|);
  }

  // A prefix of the code run on its own: no jump is resolved by what follows it.
  lemma PrefixResolves(c: Code, m: nat, open: set<int>, c': Code, n': nat, open': set<int>)
    requires PairsOk(c) && m <= |c| && m <= n' <= |c'| && !Guarded(c, m)
    requires forall i :: 0 <= i < m ==> c'[i] == c[i] && (i in open <==> i in open') && (i in open ==> c[i].OpJmp?)
    ensures Resolves(c, m, open, c', n', open', map[])
  {
    forall i | 0 <= i < m ensures ResolvedAt(c, m, open, c', n', open', map[], i) {}
  }

  lemma PrefixSettles(c: Code, m: nat, open: set<int>, c': Code, n': nat, open': set<int>, low: int)
    requires PairsOk(c) && m <= |c| && m <= n' <= |c'| && !Guarded(c, m)
    requires forall i :: 0 <= i < m ==> c'[i] == c[i] && (i in open <==> i in open') && (i in open ==> c[i].OpJmp?)
    ensures Settles(c, m, open, c', n', open', low)
  {
    PrefixResolves(c, m, open, c', n', open');
    ResolvesSettles(c, m, open, c', n', open', map[], low);
  }

  lemma PrefixEnter(cmp: Answers, c: Code, m: nat, open: set<int>, c': Code, n': nat, open': set<int>, at: Entry,
                    r: Regs, ev: seq<Event>)
    requires PairsOk(c) && m <= |c| && m <= n' <= |c'| && !Guarded(c, m) && EntryOk(c, m, at)
    requires forall i :: 0 <= i < m ==> c'[i] == c[i] && (i in open <==> i in open') && (i in open ==> c[i].OpJmp?)
    requires !Enter(cmp, c, m, open, at, r, ev).Stuck?
    ensures var o := Enter(cmp, c, m, open, at, r, ev);
            Enter(cmp, c', n', open', at, r, ev) == if o.Fall? then Run(cmp, c', n', open', m, o.r, o.events) else o
  {
    hide Enter;
    PrefixResolves(c, m, open, c', n', open');
    ResolveEnter(cmp, c, m, open, c', n', open', map[], at, r, ev);
  }
}

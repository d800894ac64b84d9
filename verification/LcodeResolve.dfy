// Patching open jumps and appending code continues the runs that were cut off there,
// and changes no others.

module LcodeResolve {
  import opened LcodeVm

  // A test is followed by its jump, a load that skips by the load it skips.
  predicate PairsOk(c: Code) {
    forall i :: 0 <= i < |c| ==> PairAt(c, i)
  }

  predicate PairAt(c: Code, i: nat)
    requires i < |c|
  {
    && (TestMode(c[i]) ==> i + 1 < |c| && c[i + 1].OpJmp?)
    && (c[i].OpLoadBool? && c[i].skip ==> i + 1 < |c| && c[i + 1].OpLoadBool?)
  }

  // Where each resolved jump goes.
  type Targets = map<int, int>

  predicate ResolvedAt(c: Code, n: nat, open: set<int>, c': Code, n': nat, open': set<int>, tau: Targets, i: nat)
    requires i < n <= |c| && n <= n' <= |c'|
  {
    if i in open then
      && c[i].OpJmp? && c'[i].OpJmp?
      && (i in open' || (i in tau && c'[i].dest == tau[i] && i < tau[i] <= n' && !Guarded(c', tau[i])))
    else
      && i !in open'
      && (c'[i] == c[i]
          || (i + 1 in open && c[i].OpTestSet?
              && (c'[i] == OpTest(c[i].b, c[i].c) || (c'[i].OpTestSet? && c'[i].b == c[i].b && c'[i].c == c[i].c))))
  }

  ghost predicate Resolves(c: Code, n: nat, open: set<int>, c': Code, n': nat, open': set<int>, tau: Targets) {
    && n <= |c| && n <= n' <= |c'| && PairsOk(c) && !Guarded(c, n)
    && forall i :: 0 <= i < n ==> ResolvedAt(c, n, open, c', n', open', tau, i)
  }

  // The registers with which a resolved jump arrives.
  function Arrive(c: Code, j: int, r: Regs): Regs {
    if 1 <= j <= |c| && c[j - 1].OpTestSet? then Put(r, c[j - 1].a, r(c[j - 1].b)) else r
  }

  // What becomes of a run that ended before.
  function Onward(cmp: Answers, n: nat, c': Code, n': nat, open': set<int>, tau: Targets, o: Outcome): Outcome
    requires n' <= |c'|
  {
    match o
    case Stuck => Stuck
    case Fall(r, ev) => Run(cmp, c', n', open', n, r, ev)
    case Exit(j, r, ev) =>
      if j in open' || j !in tau then Exit(j, r, ev)
      else Run(cmp, c', n', open', tau[j], Arrive(c', j, r), ev)
  }

  lemma SameGuard(c: Code, n: nat, open: set<int>, c': Code, n': nat, open': set<int>, tau: Targets, d: int)
    requires Resolves(c, n, open, c', n', open', tau) && 0 <= d <= n
    ensures Guarded(c', d) == Guarded(c, d)
  {
    if d >= 1 { assert ResolvedAt(c, n, open, c', n', open', tau, d - 1); }
  }

  lemma {:induction false} ResolveRun(cmp: Answers, c: Code, n: nat, open: set<int>, c': Code, n': nat, open': set<int>,
                                      tau: Targets, pc: int, r: Regs, ev: seq<Event>)
    requires Resolves(c, n, open, c', n', open', tau) && 0 <= pc <= n && !Guarded(c, pc)
    requires !Run(cmp, c, n, open, pc, r, ev).Stuck?
    ensures Run(cmp, c', n', open', pc, r, ev) == Onward(cmp, n, c', n', open', tau, Run(cmp, c, n, open, pc, r, ev))
    decreases n - pc, 1
  {
    if pc < n {
      assert ResolvedAt(c, n, open, c', n', open', tau, pc) && PairAt(c, pc);
      if pc in open {
        SameGuard(c, n, open, c', n', open', tau, pc);
        assert Arrive(c', pc, r) == r;
      } else {
        match c[pc]
        case OpMove(a, b) => ResolveRun(cmp, c, n, open, c', n', open', tau, pc + 1, Put(r, a, r(b)), ev);
        case OpNot(a, b) => ResolveRun(cmp, c, n, open, c', n', open', tau, pc + 1, Put(r, a, Bool(IsFalse(r(b)))), ev);
        case OpLoadK(a, id) => ResolveRun(cmp, c, n, open, c', n', open', tau, pc + 1, Put(r, a, Other(id)), ev);
        case OpLoadBool(a, val, skip) =>
          ResolveRun(cmp, c, n, open, c', n', open', tau, if skip then pc + 2 else pc + 1, Put(r, a, Bool(val)), ev);
        case OpJmp(_) => ResolveTake(cmp, c, n, open, c', n', open', tau, pc, r, r, ev);
        case OpTest(a, k) =>
          if pc + 1 < n && IsFalse(r(a)) != k {
            ResolveTake(cmp, c, n, open, c', n', open', tau, pc + 1, r, r, ev);
          } else {
            ResolveRun(cmp, c, n, open, c', n', open', tau, pc + 2, r, ev);
          }
        case OpTestSet(a, b, k) => ResolveTestSet(cmp, c, n, open, c', n', open', tau, pc, r, ev);
        case OpComp(op, cond, b, k) =>
          var ev' := ev + [Event(op, Rk(r, b), Rk(r, k))];
          if pc + 1 < n && cmp(op, Rk(r, b), Rk(r, k)) == cond {
            ResolveTake(cmp, c, n, open, c', n', open', tau, pc + 1, r, r, ev');
          } else {
            ResolveRun(cmp, c, n, open, c', n', open', tau, pc + 2, r, ev');
          }
      }
    }
  }

  lemma {:induction false} ResolveTestSet(cmp: Answers, c: Code, n: nat, open: set<int>, c': Code, n': nat,
                                          open': set<int>, tau: Targets, pc: int, r: Regs, ev: seq<Event>)
    requires Resolves(c, n, open, c', n', open', tau) && 0 <= pc < n && c[pc].OpTestSet? && pc !in open
    requires !Run(cmp, c, n, open, pc, r, ev).Stuck?
    ensures Run(cmp, c', n', open', pc, r, ev) == Onward(cmp, n, c', n', open', tau, Run(cmp, c, n, open, pc, r, ev))
    decreases n - pc, 0
  {
    assert ResolvedAt(c, n, open, c', n', open', tau, pc) && PairAt(c, pc);
    var OpTestSet(a, b, k) := c[pc];
    if pc + 1 < n && IsFalse(r(b)) != k {
      assert ResolvedAt(c, n, open, c', n', open', tau, pc + 1);
      var r1 := if pc + 1 in open then r else Put(r, a, r(b));
      var r1' := if pc + 1 in open' then r else Arrive(c', pc + 1, r);
      ResolveTake(cmp, c, n, open, c', n', open', tau, pc + 1, r1, r1', ev);
    } else {
      ResolveRun(cmp, c, n, open, c', n', open', tau, pc + 2, r, ev);
    }
  }

  // The jump at `j`, taken with `r`; resolved, it arrives with `r'`.
  lemma {:induction false} ResolveTake(cmp: Answers, c: Code, n: nat, open: set<int>, c': Code, n': nat,
                                       open': set<int>, tau: Targets, j: int, r: Regs, r': Regs, ev: seq<Event>)
    requires Resolves(c, n, open, c', n', open', tau) && 0 <= j < n && !Take(cmp, c, n, open, j, r, ev).Stuck?
    requires if j in open && j !in open' then r' == Arrive(c', j, r) else r' == r
    ensures Take(cmp, c', n', open', j, r', ev) == Onward(cmp, n, c', n', open', tau, Take(cmp, c, n, open, j, r, ev))
    decreases n - j, 0
  {
    assert ResolvedAt(c, n, open, c', n', open', tau, j);
    if j !in open {
      assert c'[j] == c[j];
      SameGuard(c, n, open, c', n', open', tau, c[j].dest);
      ResolveRun(cmp, c, n, open, c', n', open', tau, c[j].dest, r, ev);
    }
  }

  // ----- where control comes in ----------------------------------------------------------

  // At an instruction, or by a jump that has been waiting for its target.
  datatype Entry = Here(pc: int) | By(j: int)

  function Enter(cmp: Answers, c: Code, n: nat, open: set<int>, at: Entry, r: Regs, ev: seq<Event>): Outcome
    requires n <= |c|
  {
    match at
    case Here(pc) => Run(cmp, c, n, open, pc, r, ev)
    case By(j) =>
      if !(0 <= j < n) then Stuck
      else if j in open then Exit(j, r, ev)
      else Take(cmp, c, n, open, j, Arrive(c, j, r), ev)
  }

  predicate EntryOk(c: Code, n: nat, at: Entry)
    requires n <= |c|
  {
    match at
    case Here(pc) => 0 <= pc <= n && !Guarded(c, pc)
    case By(j) => 0 <= j < n && c[j].OpJmp?
  }

  lemma ResolveEnter(cmp: Answers, c: Code, n: nat, open: set<int>, c': Code, n': nat, open': set<int>, tau: Targets,
                     at: Entry, r: Regs, ev: seq<Event>)
    requires Resolves(c, n, open, c', n', open', tau) && EntryOk(c, n, at)
    requires !Enter(cmp, c, n, open, at, r, ev).Stuck?
    ensures EntryOk(c', n', at)
    ensures Enter(cmp, c', n', open', at, r, ev)
              == Onward(cmp, n, c', n', open', tau, Enter(cmp, c, n, open, at, r, ev))
  {
    match at
    case Here(pc) =>
      SameGuard(c, n, open, c', n', open', tau, pc);
      ResolveRun(cmp, c, n, open, c', n', open', tau, pc, r, ev);
    case By(j) =>
      assert ResolvedAt(c, n, open, c', n', open', tau, j);
      if j !in open {
        if j >= 1 { assert ResolvedAt(c, n, open, c', n', open', tau, j - 1); }
        ResolveTake(cmp, c, n, open, c', n', open', tau, j, Arrive(c, j, r), Arrive(c, j, r), ev);
      }
  }

  // ----- code that settles the open jumps of other code ------------------------------------

  // Where the jumps of `open` lead in `c'`.
  function Dests(c': Code, open: set<int>): Targets {
    map j | j in open && 0 <= j < |c'| && c'[j].OpJmp? :: c'[j].dest
  }

  // The first `n` instructions of `c` are still there in `c'`; their open jumps are open or
  // lead to `low` or behind it.
  ghost predicate Settles(c: Code, n: nat, open: set<int>, c': Code, n': nat, open': set<int>, low: int) {
    && Resolves(c, n, open, c', n', open', Dests(c', open))
    && forall j :: j in open && j !in open' && 0 <= j < n ==> c'[j].OpJmp? && low <= c'[j].dest
  }

  lemma ResolvesSettles(c: Code, n: nat, open: set<int>, c': Code, n': nat, open': set<int>, tau: Targets, low: int)
    requires Resolves(c, n, open, c', n', open', tau)
             && forall j :: j in open && j in tau && j !in open' ==> low <= tau[j]
    ensures Settles(c, n, open, c', n', open', low)
  {
    forall i | 0 <= i < n ensures ResolvedAt(c, n, open, c', n', open', Dests(c', open), i) {
      assert ResolvedAt(c, n, open, c', n', open', tau, i);
    }
    forall j | j in open && j !in open' && 0 <= j < n ensures c'[j].OpJmp? && low <= c'[j].dest {
      assert ResolvedAt(c, n, open, c', n', open', tau, j);
    }
  }

  lemma SettlesAt(c: Code, n: nat, open: set<int>, c1: Code, n1: nat, open1: set<int>, c2: Code, n2: nat,
                  open2: set<int>, i: nat)
    requires Resolves(c, n, open, c1, n1, open1, Dests(c1, open))
             && Resolves(c1, n1, open1, c2, n2, open2, Dests(c2, open1))
    requires i < n
    ensures ResolvedAt(c, n, open, c2, n2, open2, Dests(c2, open), i)
  {
    assert ResolvedAt(c, n, open, c1, n1, open1, Dests(c1, open), i);
    assert ResolvedAt(c1, n1, open1, c2, n2, open2, Dests(c2, open1), i);
    if i in open && i !in open1 {
      SameGuard(c1, n1, open1, c2, n2, open2, Dests(c2, open1), c1[i].dest);
    }
    if i !in open && i + 1 < n { assert ResolvedAt(c, n, open, c1, n1, open1, Dests(c1, open), i + 1); }
  }

  lemma SettlesTrans(c: Code, n: nat, open: set<int>, c1: Code, n1: nat, open1: set<int>, c2: Code, n2: nat,
                     open2: set<int>, low: int, low1: int)
    requires Settles(c, n, open, c1, n1, open1, low) && Settles(c1, n1, open1, c2, n2, open2, low1) && low <= low1
    ensures Settles(c, n, open, c2, n2, open2, low)
  {
    forall i | 0 <= i < n
      ensures ResolvedAt(c, n, open, c2, n2, open2, Dests(c2, open), i)
      ensures i in open && i !in open2 ==> c2[i].OpJmp? && low <= c2[i].dest
    {
      SettlesAt(c, n, open, c1, n1, open1, c2, n2, open2, i);
      assert ResolvedAt(c, n, open, c1, n1, open1, Dests(c1, open), i);
      assert ResolvedAt(c1, n1, open1, c2, n2, open2, Dests(c2, open1), i);
    }
  }
}

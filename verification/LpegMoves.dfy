// Moving capture instructions behind the checks that follow them.

module LpegMoves {
  import opened LpegCode
  import opened LpegPeg
  import opened LpegMachine
  import opened LpegBuild
  import opened LpegTyping
  import opened LpegMeaning

  function CheckLen(checks: Code): nat {
    if checks == [] then 0 else StepLen(checks[0]) + CheckLen(checks[1..])
  }

  predicate AllPass(env: Env, checks: Code, s: int) {
    checks == [] || (Passes(env, checks[0], s) && AllPass(env, checks[1..], s + StepLen(checks[0])))
  }

  function CapsAfter(insts: Code, s: int, caps: seq<Capture>): seq<Capture> {
    if insts == [] then caps else CapsAfter(insts[1..], s, CapStep(insts[0], s, caps))
  }

  // Captures c[start..mid], checks c[mid..end] consuming n bytes, entered only at
  // the front; offsets stay within their four bits.
  ghost predicate Border(c: Code, start: nat, mid: nat, end: nat, n: nat) {
    && start < mid < end <= |c|
    && (forall j :: start <= j < mid ==> IsMovable(c[j]) && c[j].aux < 256 && GetOff(c[j]) + n <= MAXOFF)
    && (forall j :: mid <= j < end ==> IsCheck(c[j]))
    && CheckLen(c[mid..end]) == n
    && (forall j :: 0 <= j < |c| && IsJmp(c[j]) ==> Dest(c, j) <= start || end <= Dest(c, j))
  }

  // ----- straight runs -----------------------------------------------------------

  lemma {:induction false} RunCaps(env: Env, big: Code, b: nat, insts: Code, s: int, k: seq<Frame>, caps: seq<Capture>)
    requires At(big, b, insts) && forall j :: 0 <= j < |insts| ==> IsCapture(insts[j])
    ensures Steps(env, big, Run(b, s, k, caps), |insts|) == Run(b + |insts|, s, k, CapsAfter(insts, s, caps))
    decreases |insts|
  {
    if insts != [] {
      FrontAt(big, b, insts);
      hide Step, Exec, At, CapStep;
      StepFlow(env, big, b, s, k, caps);
      StepsFirst(env, big, Run(b, s, k, caps), |insts|);
      RunCaps(env, big, b + 1, insts[1..], s, k, CapStep(insts[0], s, caps));
    }
  }

  lemma {:induction false} RunChecks(env: Env, big: Code, b: nat, insts: Code, s: int, k: seq<Frame>,
                                     caps: seq<Capture>) returns (m: nat)
    requires At(big, b, insts) && forall j :: 0 <= j < |insts| ==> IsCheck(insts[j])
    ensures insts != [] ==> m > 0
    ensures Steps(env, big, Run(b, s, k, caps), m)
         == if AllPass(env, insts, s) then Run(b + |insts|, s + CheckLen(insts), k, caps) else Fail(k)
    decreases |insts|
  {
    m := 0;
    if insts != [] {
      FrontAt(big, b, insts);
      hide Step, Exec, At, Passes, StepLen;
      var i, rest := insts[0], insts[1..];
      StepFlow(env, big, b, s, k, caps);
      if Passes(env, i, s) {
        m := RunChecks(env, big, b + 1, rest, s + StepLen(i), k, caps);
      }
      m := m + 1;
      StepsFirst(env, big, Run(b, s, k, caps), m);
    }
  }

  lemma {:induction false} ShiftedCaps(insts: Code, n: nat, s: int, caps: seq<Capture>)
    requires forall j :: 0 <= j < |insts| ==>
               IsMovable(insts[j]) && insts[j].aux < 256 && GetOff(insts[j]) + n <= MAXOFF
    ensures CapsAfter(Shifted(insts, n), s + n, caps) == CapsAfter(insts, s, caps)
    decreases |insts|
  {
    if insts != [] {
      var i := insts[0];
      GetOffOfSum(i, n);
      assert Shifted(insts, n)[0] == i.(aux := i.aux + 16 * n);
      assert Shifted(insts, n)[1..] == Shifted(insts[1..], n);
      assert CapStep(i.(aux := i.aux + 16 * n), s + n, caps) == CapStep(i, s, caps);
      ShiftedCaps(insts[1..], n, s, CapStep(i, s, caps));
    }
  }

  // What one pass over the border does, in either order.
  function BorderEnd(env: Env, c: Code, start: nat, mid: nat, end: nat, n: nat, s: int, k: seq<Frame>,
                     caps: seq<Capture>): State
    requires start <= mid <= end <= |c|
  {
    if AllPass(env, c[mid..end], s) then Run(end, s + n, k, CapsAfter(c[start..mid], s, caps)) else Fail(k)
  }

  lemma BorderRun(env: Env, c: Code, start: nat, mid: nat, end: nat, n: nat, s: int, k: seq<Frame>, caps: seq<Capture>)
    returns (m: nat)
    requires Border(c, start, mid, end, n)
    ensures m > 0 && Steps(env, c, Run(start, s, k, caps), m) == BorderEnd(env, c, start, mid, end, n, s, k, caps)
  {
    hide Step, Steps;
    var insts, checks := c[start..mid], c[mid..end];
    var caps' := CapsAfter(insts, s, caps);
    RunCaps(env, c, start, insts, s, k, caps);
    var m2 := RunChecks(env, c, mid, checks, s, k, caps');
    StepsAdd(env, c, Run(start, s, k, caps), |insts|, m2);
    m := |insts| + m2;
  }

  lemma RotatedParts(c: Code, start: nat, mid: nat, end: nat, n: nat)
    requires start <= mid <= end <= |c|
    ensures var c' := Rotated(c, start, mid, end, n); var mid' := start + (end - mid);
            && At(c', start, c[mid..end]) && At(c', mid', Shifted(c[start..mid], n))
            && (forall j :: 0 <= j < start || end <= j < |c| ==> c'[j] == c[j])
            && (forall j :: start <= j < mid' ==> c'[j] == c[j + (mid - start)])
            && (forall j :: mid' <= j < end ==> c'[j] == c[j - (end - mid)].(aux := c[j - (end - mid)].aux + 16 * n))
  {
  }

  lemma RotatedBorderRun(env: Env, c: Code, start: nat, mid: nat, end: nat, n: nat, s: int, k: seq<Frame>,
                         caps: seq<Capture>)
    requires Border(c, start, mid, end, n)
    ensures Reaches(env, Rotated(c, start, mid, end, n), Run(start, s, k, caps),
                    BorderEnd(env, c, start, mid, end, n, s, k, caps))
  {
    hide Step, Steps, Rotated, Shifted, AllPass, CapsAfter, GetOff;
    var c' := Rotated(c, start, mid, end, n);
    var insts, checks := c[start..mid], c[mid..end];
    RotatedParts(c, start, mid, end, n);
    var mid' := start + (end - mid);
    var m := RunChecks(env, c', start, checks, s, k, caps);
    if AllPass(env, checks, s) {
      ShiftedCaps(insts, n, s, caps);
      RunCaps(env, c', mid', Shifted(insts, n), s + n, k, caps);
      StepsAdd(env, c', Run(start, s, k, caps), m, |insts|);
    }
  }

  // ----- the whole run ---------------------------------------------------------------

  ghost predicate Outside(st: State, start: int, end: int) {
    && (st.Run? ==> st.pc <= start || end <= st.pc)
    && forall i :: 0 <= i < |st.stack| ==> st.stack[i].pc <= start || end <= st.stack[i].pc
  }

  lemma StepOutside(env: Env, c: Code, c': Code, start: nat, end: nat, st: State)
    requires start <= end <= |c| == |c'| && forall j :: 0 <= j < start || end <= j < |c| ==> c'[j] == c[j]
    requires forall j :: 0 <= j < |c| && IsJmp(c[j]) ==> Dest(c, j) <= start || end <= Dest(c, j)
    requires Outside(st, start, end) && (st.Run? ==> st.pc != start)
    ensures Step(env, c', st) == Step(env, c, st) && Outside(Step(env, c, st), start, end)
  {
    hide Step;
    StepsAlike(env, c, c', st);
    StepSkips(env, c, start, end, st);
  }

  lemma StepsAlike(env: Env, c: Code, c': Code, st: State)
    requires |c| == |c'| && (st.Run? && 0 <= st.pc < |c| ==> c'[st.pc] == c[st.pc])
    ensures Step(env, c', st) == Step(env, c, st)
  {
  }

  lemma StepSkips(env: Env, c: Code, start: nat, end: nat, st: State)
    requires start <= end <= |c| && Outside(st, start, end) && (st.Run? ==> st.pc != start)
    requires forall j :: 0 <= j < |c| && IsJmp(c[j]) ==> Dest(c, j) <= start || end <= Dest(c, j)
    ensures Outside(Step(env, c, st), start, end)
  {
    if st.Run? && 0 <= st.pc < |c| && IsJmp(c[st.pc]) { assert Dest(c, st.pc) <= start || end <= Dest(c, st.pc); }
  }

  lemma {:induction false} RotatedSimulates(env: Env, c: Code, start: nat, mid: nat, end: nat, n: nat, st: State,
                                            steps: nat, d: State)
    requires Border(c, start, mid, end, n) && Outside(st, start, end)
    requires Steps(env, c, st, steps) == d && Halted(c, d)
    ensures Reaches(env, Rotated(c, start, mid, end, n), st, d)
    decreases steps
  {
    hide Step;
    var c' := Rotated(c, start, mid, end, n);
    RotatedParts(c, start, mid, end, n);
    if st == d {
      ReachesSelf(env, c', d);
    } else if st.Run? && st.pc == start {
      var st2 := BorderEnd(env, c, start, mid, end, n, st.s, st.stack, st.caps);
      var m := BorderRun(env, c, start, mid, end, n, st.s, st.stack, st.caps);
      RotatedBorderRun(env, c, start, mid, end, n, st.s, st.stack, st.caps);
      if m <= steps {
        StepsAdd(env, c, st, m, steps - m);
        RotatedSimulates(env, c, start, mid, end, n, st2, steps - m, d);
        ReachesTrans(env, c', st, st2, d);
      } else {
        StepsAdd(env, c, st, steps, m - steps);
        HaltedStays(env, c, d, m - steps);
      }
    } else {
      StepOutside(env, c, c', start, end, st);
      RotatedSimulates(env, c, start, mid, end, n, Step(env, c, st), steps - 1, d);
      ReachesStep(env, c', st, d);
    }
  }

  lemma RotatedImplements(c: Code, start: nat, mid: nat, end: nat, n: nat, p: Pat)
    requires Border(c, start, mid, end, n) && Implements(c, p)
    ensures Implements(Rotated(c, start, mid, end, n), p)
  {
    forall env, s, caps {:trigger Peg(env, p, s, caps)} | EnvOk(env) && 0 <= s <= |env.subj|
      ensures Reaches(env, Rotated(c, start, mid, end, n), Run(0, s, [], caps), Outcomes(Peg(env, p, s, caps), |c|, []))
    {
      var d := Outcomes(Peg(env, p, s, caps), |c|, []);
      var steps: nat :| Steps(env, c, Run(0, s, [], caps), steps) == d;
      RotatedSimulates(env, c, start, mid, end, n, Run(0, s, [], caps), steps, d);
    }
  }

  // ----- well-formedness and brackets -------------------------------------------------

  lemma RotatedInstr(c: Code, start: nat, mid: nat, end: nat, n: nat, j: nat)
    requires Border(c, start, mid, end, n) && WF(c) && start <= j < end
    ensures var i := Rotated(c, start, mid, end, n)[j]; InstrOk(i) && (IsCheck(i) || IsMovable(i))
  {
    RotatedParts(c, start, mid, end, n);
    var mid' := start + (end - mid);
    if j < mid' {
      assert WFAt(c, j + (mid - start));
    } else {
      var q := j - (end - mid);
      assert WFAt(c, q);
      GetOffOfSum(c[q], n);
    }
  }

  lemma RotatedWFAt(c: Code, start: nat, mid: nat, end: nat, n: nat, j: nat)
    requires Border(c, start, mid, end, n) && WF(c) && j < |c|
    ensures WFAt(Rotated(c, start, mid, end, n), j)
  {
    var c' := Rotated(c, start, mid, end, n);
    RotatedParts(c, start, mid, end, n);
    if start <= j < end {
      RotatedInstr(c, start, mid, end, n, j);
    } else {
      RotatedInstr(c, start, mid, end, n, start);
      OutsideWFAt(c, c', start, end, j);
    }
  }

  lemma OutsideWFAt(c: Code, c': Code, start: nat, end: nat, j: nat)
    requires start < end <= |c| == |c'| && j < |c| && (j < start || end <= j) && WFAt(c, j)
    requires forall i :: 0 <= i < start || end <= i < |c| ==> c'[i] == c[i]
    requires IsJmp(c[j]) ==> Dest(c, j) <= start || end <= Dest(c, j)
    requires IsCheck(c[end - 1]) && IsMovable(c[start]) && (IsCheck(c'[start]) || IsMovable(c'[start]))
    ensures WFAt(c', j)
  {
  }

  lemma RotatedWF(c: Code, start: nat, mid: nat, end: nat, n: nat)
    requires Border(c, start, mid, end, n) && WF(c)
    ensures WF(Rotated(c, start, mid, end, n))
  {
    forall j | 0 <= j < |c| ensures WFAt(Rotated(c, start, mid, end, n), j) { RotatedWFAt(c, start, mid, end, n, j); }
    RotatedInstr(c, start, mid, end, n, start);
    RotatedParts(c, start, mid, end, n);
    if start > 0 { assert Rotated(c, start, mid, end, n)[0] == c[0]; }
  }

  function RotatedTy(ty: seq<Ctx>, start: nat, mid: nat, end: nat): (r: seq<Ctx>)
    requires start <= mid <= end < |ty|
    ensures |r| == |ty|
    ensures forall j :: 0 <= j < |ty| ==>
              r[j] == if start <= j < start + (end - mid) then ty[start]
                      else if start + (end - mid) <= j < end then ty[j - (end - mid)] else ty[j]
  {
    seq(|ty|, j requires 0 <= j < |ty| =>
      if start <= j < start + (end - mid) then ty[start]
      else if start + (end - mid) <= j < end then ty[j - (end - mid)] else ty[j])
  }

  lemma {:induction false} ChecksKeepBrackets(c: Code, ty: seq<Ctx>, d: int, mid: nat, end: nat)
    requires TypedBy(c, ty, d) && mid <= end <= |c| && forall j :: mid <= j < end ==> IsCheck(c[j])
    ensures ty[end] == ty[mid]
    decreases end
  {
    if mid < end {
      ChecksKeepBrackets(c, ty, d, mid, end - 1);
      assert TypedAt(c, ty, end - 1);
    }
  }

  lemma RotatedTypedAt(c: Code, ty: seq<Ctx>, d: int, start: nat, mid: nat, end: nat, n: nat, j: nat)
    requires Border(c, start, mid, end, n) && TypedBy(c, ty, d) && j < |c|
    ensures var c' := Rotated(c, start, mid, end, n);
            (IsJmp(c'[j]) ==> 0 <= Dest(c', j) <= |c'|) && TypedAt(c', RotatedTy(ty, start, mid, end), j)
  {
    hide Rotated, GetOff, CheckLen, TypedAt, Choices, At, Shifted, IsJmp;
    RotatedParts(c, start, mid, end, n);
    ChecksKeepBrackets(c, ty, d, mid, end);
    var c', ty' := Rotated(c, start, mid, end, n), RotatedTy(ty, start, mid, end);
    var mid' := start + (end - mid);
    if j < start || end <= j {
      OutsideTypedAt(c, c', ty, ty', d, start, end, j);
    } else if j < mid' {
      CheckTypedAt(c', ty', j);
    } else {
      MovedTypedAt(c, c', ty, ty', d, end - mid, n, j);
    }
  }

  lemma CheckTypedAt(c: Code, ty: seq<Ctx>, j: nat)
    requires j < |c| && |ty| == |c| + 1 && IsCheck(c[j]) && ty[j] == ty[j + 1]
    ensures !IsJmp(c[j]) && TypedAt(c, ty, j)
  {
  }

  lemma OutsideTypedAt(c: Code, c': Code, ty: seq<Ctx>, ty': seq<Ctx>, d: int, start: nat, end: nat, j: nat)
    requires TypedBy(c, ty, d) && |c'| == |c| && |ty'| == |ty| && start <= end <= |c|
    requires forall i :: 0 <= i <= start || end <= i <= |c| ==> ty'[i] == ty[i]
    requires j < |c| && (j < start || end <= j) && c'[j] == c[j]
    requires IsJmp(c[j]) ==> Dest(c, j) <= start || end <= Dest(c, j)
    ensures (IsJmp(c'[j]) ==> 0 <= Dest(c', j) <= |c'|) && TypedAt(c', ty', j)
  {
    assert TypedAt(c, ty, j);
  }

  lemma MovedTypedAt(c: Code, c': Code, ty: seq<Ctx>, ty': seq<Ctx>, d: int, back: nat, n: nat, j: nat)
    requires TypedBy(c, ty, d) && |c'| == |c| && |ty'| == |ty| && back <= j < |c|
    requires IsMovable(c[j - back]) && c'[j] == c[j - back].(aux := c[j - back].aux + 16 * n)
    requires ty'[j] == ty[j - back] && ty'[j + 1] == ty[j - back + 1]
    ensures !IsJmp(c'[j]) && TypedAt(c', ty', j)
  {
    assert TypedAt(c, ty, j - back);
  }

  lemma RotatedTyped(c: Code, start: nat, mid: nat, end: nat, n: nat, d: int)
    requires Border(c, start, mid, end, n) && Typed(c, d)
    ensures Typed(Rotated(c, start, mid, end, n), d)
  {
    var ty :| TypedBy(c, ty, d);
    var c', ty' := Rotated(c, start, mid, end, n), RotatedTy(ty, start, mid, end);
    forall j | 0 <= j < |c'| ensures (IsJmp(c'[j]) ==> 0 <= Dest(c', j) <= |c'|) && TypedAt(c', ty', j) {
      RotatedTypedAt(c, ty, d, start, mid, end, n, j);
    }
    ChecksKeepBrackets(c, ty, d, mid, end);
    assert TypedBy(c', ty', d);
  }

  // ----- the pass over the code ----------------------------------------------------------

  lemma {:induction false} SkipChecksProps(c: Code, i: nat, up: nat, n: nat)
    requires i <= |c| && up + n <= MAXOFF
    ensures var (k, m) := SkipChecks(c, i, up, n);
            && (forall j :: i <= j < i + k ==> IsCheck(c[j]))
            && m == n + CheckLen(c[i..i + k]) && up + m <= MAXOFF
    decreases |c| - i
  {
    if i < |c| && IsCheck(c[i]) && n + StepLen(c[i]) <= MAXOFF - up {
      SkipChecksProps(c, i + 1, up, n + StepLen(c[i]));
      var (k, m) := SkipChecks(c, i, up, n);
      var (k1, m1) := SkipChecks(c, i + 1, up, n + StepLen(c[i]));
      assert k == k1 + 1 && m == m1;
      var whole := c[i..i + k];
      assert whole[0] == c[i] && whole[1..] == c[i + 1..i + 1 + k1];
      forall j | i <= j < i + k ensures IsCheck(c[j]) {
        if j != i { assert i + 1 <= j < i + 1 + k1; }
      }
    } else {
      assert c[i..i] == [];
    }
  }

  lemma {:induction false} GroupStartProps(c: Code, limit: nat, start: nat, maxoff: nat)
    requires start < |c| && IsMovableCap(c[start]) && GetOff(c[start]) <= maxoff < MAXOFF
    ensures var (first, most) := GroupStart(c, limit, start, maxoff);
            && maxoff <= most < MAXOFF
            && forall j :: first <= j <= start ==> IsMovableCap(c[j]) && GetOff(c[j]) <= most
    decreases start
  {
    if start > limit && IsMovableCap(c[start - 1]) {
      GroupStartProps(c, limit, start - 1, if GetOff(c[start - 1]) > maxoff then GetOff(c[start - 1]) else maxoff);
    }
  }

  // Every jump already passed lands below `limit`.
  ghost predicate Passed(c: Code, i: nat, limit: nat) {
    forall j :: 0 <= j < i && j < |c| && IsJmp(c[j]) ==> Dest(c, j) < limit
  }

  // No jump lands strictly inside the captures and checks around `i`.
  lemma BorderNotEntered(c: Code, i: nat, limit: nat, start: nat, end: nat)
    requires WF(c) && Passed(c, i, limit) && limit <= start <= i < end <= |c|
    requires forall j :: start <= j < end ==> IsMovable(c[j]) || IsCheck(c[j])
    ensures forall j :: 0 <= j < |c| && IsJmp(c[j]) ==> Dest(c, j) <= start || end <= Dest(c, j)
  {
    forall j | 0 <= j < |c| && IsJmp(c[j]) ensures Dest(c, j) <= start || end <= Dest(c, j) {
      assert WFAt(c, j);
    }
  }

  lemma GroupOffsets(c: Code, i: nat, limit: nat, n: nat)
    requires i < |c| && IsMovableCap(c[i]) && GroupStart(c, limit, i, GetOff(c[i])).1 + n <= MAXOFF
    requires forall j :: 0 <= j < |c| ==> InstrOk(c[j])
    ensures var start := GroupStart(c, limit, i, GetOff(c[i])).0;
            forall j :: start <= j < i + 1 ==> IsMovable(c[j]) && c[j].aux < 256 && GetOff(c[j]) + n <= MAXOFF
  {
    hide GetOff;
    GroupStartProps(c, limit, i, GetOff(c[i]));
    forall j | GroupStart(c, limit, i, GetOff(c[i])).0 <= j < i + 1
      ensures IsMovable(c[j]) && c[j].aux < 256 && GetOff(c[j]) + n <= MAXOFF
    {
      assert InstrOk(c[j]) && IsMovableCap(c[j]);
    }
  }

  lemma BorderFound(c: Code, i: nat, limit: nat)
    requires WF(c) && Passed(c, i, limit) && limit <= i && i + 1 < |c| && IsMovableCap(c[i]) && IsCheck(c[i + 1])
    ensures var (start, maxoff) := GroupStart(c, limit, i, GetOff(c[i]));
            var (k, n) := SkipChecks(c, i + 1, maxoff, 0);
            limit <= start <= i && (n != 0 ==> Border(c, start, i + 1, i + 1 + k, n))
  {
    forall j | 0 <= j < |c| ensures InstrOk(c[j]) { assert WFAt(c, j); }
    GroupStartProps(c, limit, i, GetOff(c[i]));
    var (start, maxoff) := GroupStart(c, limit, i, GetOff(c[i]));
    SkipChecksProps(c, i + 1, maxoff, 0);
    hide GetOff, GroupStart, SkipChecks, WF, InstrOk, IsMovableCap;
    var (k, n) := SkipChecks(c, i + 1, maxoff, 0);
    if n != 0 {
      assert k > 0;
      GroupOffsets(c, i, limit, n);
      BorderNotEntered(c, i, limit, start, i + 1 + k);
    }
  }

  // The instructions that jump stay what and where they are.
  ghost predicate SameJumps(c: Code, c': Code) {
    && |c'| == |c|
    && forall j :: 0 <= j < |c| ==> IsJmp(c[j]) == IsJmp(c'[j]) && (IsJmp(c[j]) ==> c'[j] == c[j])
  }

  lemma RotatedJumps(c: Code, start: nat, mid: nat, end: nat, n: nat)
    requires Border(c, start, mid, end, n) && WF(c)
    ensures SameJumps(c, Rotated(c, start, mid, end, n))
  {
    hide Rotated, WF, Shifted;
    RotatedParts(c, start, mid, end, n);
    var c' := Rotated(c, start, mid, end, n);
    forall j | 0 <= j < |c|
      ensures IsJmp(c[j]) == IsJmp(c'[j]) && (IsJmp(c[j]) ==> c'[j] == c[j])
    {
      if start <= j < end {
        RotatedInstr(c, start, mid, end, n, j);
        assert IsMovable(c[j]) || IsCheck(c[j]);
      }
    }
  }

  lemma BorderKeeps(c: Code, start: nat, mid: nat, end: nat, n: nat, p: Pat, d: int, limit: nat)
    requires Border(c, start, mid, end, n) && WF(c) && Implements(c, p) && Typed(c, d) && Passed(c, mid, limit)
    ensures var c1 := Rotated(c, start, mid, end, n);
            WF(c1) && Implements(c1, p) && Typed(c1, d) && SameJumps(c, c1) && Passed(c1, end, limit)
  {
    RotatedImplements(c, start, mid, end, n, p);
    RotatedWF(c, start, mid, end, n);
    RotatedTyped(c, start, mid, end, n, d);
    RotatedJumps(c, start, mid, end, n);
  }

  lemma {:induction false} SameJumpsTrans(c: Code, c1: Code, c2: Code)
    requires SameJumps(c, c1) && SameJumps(c1, c2)
    ensures SameJumps(c, c2)
  {
  }

  lemma MoveGroupKeeps(c: Code, i: nat, limit: nat, p: Pat, d: int)
    requires WF(c) && Implements(c, p) && Typed(c, d) && Passed(c, i, limit)
    requires limit <= i && i + 1 < |c| && IsMovableCap(c[i]) && IsCheck(c[i + 1])
    ensures var (c1, j) := MoveGroup(c, i, limit);
            WF(c1) && Implements(c1, p) && Typed(c1, d) && SameJumps(c, c1) && Passed(c1, j, limit)
  {
    hide Implements, Typed, WF, Rotated, GroupStart, SkipChecks, Border, GetOff;
    var (start, maxoff) := GroupStart(c, limit, i, GetOff(c[i]));
    var (k, n) := SkipChecks(c, i + 1, maxoff, 0);
    BorderFound(c, i, limit);
    if n != 0 { BorderKeeps(c, start, i + 1, i + 1 + k, n, p, d, limit); }
  }

  // The pass keeps what the code means, its brackets and its jumps.
  lemma {:induction false} OptimizeCapturesFromKeeps(c: Code, i: nat, limit: nat, p: Pat, d: int)
    requires i <= |c| && WF(c) && Implements(c, p) && Typed(c, d) && Passed(c, i, limit)
    ensures var c' := OptimizeCapturesFrom(c, i, limit);
            WF(c') && Implements(c', p) && Typed(c', d) && SameJumps(c, c')
    decreases |c| - i
  {
    hide Implements, Typed, WF, MoveGroup, IsMovableCap;
    if i == |c| {
    } else if IsJmp(c[i]) && Dest(c, i) >= limit {
      WFJumpsInside(c);
      OptimizeCapturesFromKeeps(c, i + 1, Dest(c, i) + 1, p, d);
    } else if i >= limit && IsMovableCap(c[i]) && i + 1 < |c| && IsCheck(c[i + 1]) {
      var r := MoveGroup(c, i, limit);
      MoveGroupKeeps(c, i, limit, p, d);
      OptimizeCapturesFromKeeps(r.0, r.1, limit, p, d);
      SameJumpsTrans(c, r.0, OptimizeCapturesFrom(r.0, r.1, limit));
    } else {
      OptimizeCapturesFromKeeps(c, i + 1, limit, p, d);
    }
  }

  lemma OptimizeCapturesKeeps(c: Code, p: Pat, d: int)
    requires WF(c) && Implements(c, p) && Typed(c, d)
    ensures var c' := OptimizeCaptures(c);
            WF(c') && Implements(c', p) && Typed(c', d) && SameJumps(c, c')
  {
    OptimizeCapturesFromKeeps(c, 0, 0, p, d);
  }

  // Nothing moves inside code that jumps over itself as a whole.
  lemma {:induction false} NothingMoves(c: Code, i: nat, limit: nat, e: nat)
    requires i <= |c| && e < |c| && IsJmp(c[e]) && Dest(c, e) == |c|
    requires if i <= e then e < limit else |c| < limit
    ensures OptimizeCapturesFrom(c, i, limit) == c
    decreases |c| - i
  {
    if i < |c| {
      var limit' := if IsJmp(c[i]) && Dest(c, i) >= limit then Dest(c, i) + 1 else limit;
      NothingMoves(c, i + 1, limit', e);
    }
  }

  lemma FirstPartStays(c: Code)
    requires FirstPart(c) != 0
    ensures OptimizeCaptures(c) == c
  {
    NothingMoves(c, 1, c[0].offset + 1, FirstPart(c) - 1);
  }

  lemma FirstPartSame(c: Code, c': Code)
    requires SameJumps(c, c')
    ensures FirstPart(c') == FirstPart(c)
  {
  }
}

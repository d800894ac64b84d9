// The optimisers, working on the instruction array in place.

module LpegRotate {
  import opened LpegCode
  import opened LpegBuild
  import opened LpegTyping
  import opened LpegJumps
  import opened LpegMoves

  // The array holds the code `c` and its final IEnd.
  ghost predicate Holds(p: array<Instr>, c: Code)
    reads p
  {
    p[..] == c + [END]
  }

  function Inverted(s: Code): (r: Code)
    ensures |r| == |s|
    ensures forall k :: 0 <= k < |s| ==> r[k] == s[|s| - 1 - k]
  {
    seq(|s|, k requires 0 <= k < |s| => s[|s| - 1 - k])
  }

  // `t` is `s` with the outer `i` elements on either side of the slice from `lo` to `hi` exchanged.
  ghost predicate OuterInverted(s: Code, t: Code, lo: nat, hi: int, i: nat) {
    && |t| == |s| && hi < |s| && lo + i <= hi + 1
    && forall k {:trigger t[k]} :: 0 <= k < |s| ==>
         t[k] == if lo <= k < lo + i || hi - i < k <= hi then s[lo + hi - k] else s[k]
  }

  lemma ExchangeInverts(s: Code, t: Code, t': Code, lo: nat, hi: int, i: nat)
    requires lo + i < hi - i && OuterInverted(s, t, lo, hi, i)
    requires t' == t[lo + i := t[hi - i]][hi - i := t[lo + i]]
    ensures OuterInverted(s, t', lo, hi, i + 1)
  {
    var a, b := lo + i, hi - i;
    assert t[a] == s[a] && t[b] == s[b];
    forall k | 0 <= k < |s| ensures t'[k] == if lo <= k <= a || b <= k <= hi then s[lo + hi - k] else s[k] {
      assert t'[k] == if k == a then t[b] else if k == b then t[a] else t[k];
    }
  }

  lemma NoneInverted(s: Code, lo: nat, hi: int)
    requires hi < |s| && lo <= hi + 1
    ensures OuterInverted(s, s, lo, hi, 0)
  {
  }

  lemma AllInverted(s: Code, t: Code, lo: nat, front: Code, mid: Code, back: Code, i: nat)
    requires s == front + mid + back && |front| == lo && OuterInverted(s, t, lo, lo + |mid| - 1, i)
    requires |mid| - 1 <= 2 * i <= |mid|
    ensures t == front + Inverted(mid) + back
  {
    forall k | 0 <= k < |s| ensures t[k] == (front + Inverted(mid) + back)[k] {
      assert t[k] == if lo <= k < lo + |mid| then s[lo + lo + |mid| - 1 - k] else s[k];
    }
  }

  // Inverts the slice of `e + 1` elements from `lo` on, `mid` between `front` and `back`.
  method Invert(p: array<Instr>, lo: nat, e: int, ghost front: Code, ghost mid: Code, ghost back: Code)
    requires p[..] == front + mid + back && |front| == lo && |mid| == e + 1
    modifies p
    ensures p[..] == front + Inverted(mid) + back
  {
    hide OuterInverted;
    ghost var s := p[..];
    var i, j := 0, e;
    NoneInverted(s, lo, lo + e);
    while i < j
      invariant 0 <= i <= j + 1 && i + j == e && p.Length == |s|
      invariant OuterInverted(s, p[..], lo, lo + e, i)
    {
      ghost var t := p[..];
      p[lo + i], p[lo + j] := p[lo + j], p[lo + i];
      ExchangeInverts(s, t, p[..], lo, lo + e, i);
      i, j := i + 1, j - 1;
    }
    AllInverted(s, p[..], lo, front, mid, back, i);
  }

  // Inverting both parts, then the whole, exchanges the parts.
  lemma InvertedTwice(a: Code, b: Code)
    ensures Inverted(Inverted(a) + Inverted(b)) == b + a
  {
  }

  // Rotates the slice of `e + 1` elements from `lo` on, `a` and `b`, by `n` steps to the left.
  method Rotate(p: array<Instr>, lo: nat, e: nat, n: nat, ghost front: Code, ghost a: Code, ghost b: Code,
                ghost back: Code)
    requires p[..] == front + a + b + back && |front| == lo && |a| == n && |a| + |b| == e + 1
    modifies p
    ensures p[..] == front + b + a + back
  {
    hide Inverted;
    Regroup(front, a, b, back);
    Invert(p, lo, n - 1, front, a, b + back);
    Regroup(front, Inverted(a), b, back);
    Invert(p, lo + n, e - n, front + Inverted(a), b, back);
    Regroup(front, Inverted(a), Inverted(b), back);
    Invert(p, lo, e, front, Inverted(a) + Inverted(b), back);
    InvertedTwice(a, b);
    Regroup(front, b, a, back);
  }

  lemma Regroup(front: Code, a: Code, b: Code, back: Code)
    ensures front + a + b + back == front + a + (b + back) == (front + a) + b + back == front + (a + b) + back
  {
  }

  // Counts the checks from `i` on that captures with offset `up` may cross.
  method CountChecks(p: array<Instr>, i: nat, up: nat, ghost c: Code) returns (k: nat, n: nat)
    requires Holds(p, c) && i <= |c|
    ensures (k, n) == SkipChecks(c, i, up, 0)
  {
    k, n := 0, 0;
    while IsCheck(p[i + k]) && n + StepLen(p[i + k]) <= MAXOFF - up
      invariant i + k <= |c|
      invariant var r := SkipChecks(c, i + k, up, n); (k + r.0, r.1) == SkipChecks(c, i, up, 0)
      decreases |c| - (i + k)
    {
      n := n + StepLen(p[i + k]);
      k := k + 1;
    }
  }

  // First capture of the group ending at `i`, and the group's largest offset.
  method FindGroup(p: array<Instr>, limit: nat, i: nat, ghost c: Code) returns (start: nat, maxoff: nat)
    requires Holds(p, c) && i < |c|
    ensures (start, maxoff) == GroupStart(c, limit, i, GetOff(c[i]))
  {
    start, maxoff := i, GetOff(p[i]);
    while start > limit && IsMovableCap(p[start - 1])
      invariant start <= i && GroupStart(c, limit, start, maxoff) == GroupStart(c, limit, i, GetOff(c[i]))
      decreases start
    {
      start := start - 1;
      if GetOff(p[start]) > maxoff { maxoff := GetOff(p[start]); }
    }
  }

  // Moves captures c[start..i] behind the checks that end at `end`.
  method MoveCaptures(p: array<Instr>, start: nat, i: nat, end: nat, n: nat, ghost c: Code)
    requires Holds(p, c) && start <= i < end < |c|
    modifies p
    ensures Holds(p, Rotated(c, start, i + 1, end + 1, n))
  {
    hide Rotated;
    var j := start;
    while j <= i
      invariant start <= j <= i + 1 && p.Length == |c| + 1
      invariant forall k :: start <= k < j ==> p[k] == c[k].(aux := c[k].aux + 16 * n)
      invariant forall k :: 0 <= k <= |c| && (k < start || j <= k) ==> p[k] == (c + [END])[k]
    {
      p[j] := p[j].(aux := p[j].aux + 16 * n);  // corrects the offset
      j := j + 1;
    }
    ShiftedParts(p[..], c, start, i + 1, end + 1, n);
    Rotate(p, start, end - start, i - start + 1, c[..start], Shifted(c[start..i + 1], n), c[i + 1..end + 1],
           c[end + 1..] + [END]);
    RotatedWhole(c, start, i + 1, end + 1, n);
  }

  lemma ShiftedParts(t: Code, c: Code, start: nat, mid: nat, end: nat, n: nat)
    requires start <= mid <= end <= |c| && |t| == |c| + 1
    requires forall k :: start <= k < mid ==> t[k] == c[k].(aux := c[k].aux + 16 * n)
    requires forall k :: 0 <= k <= |c| && (k < start || mid <= k) ==> t[k] == (c + [END])[k]
    ensures t == c[..start] + Shifted(c[start..mid], n) + c[mid..end] + (c[end..] + [END])
  {
  }

  lemma RotatedWhole(c: Code, start: nat, mid: nat, end: nat, n: nat)
    requires start <= mid <= end <= |c|
    ensures Rotated(c, start, mid, end, n) + [END] ==
            c[..start] + c[mid..end] + Shifted(c[start..mid], n) + (c[end..] + [END])
  {
  }

  ghost predicate NoEnd(c: Code) {
    forall j :: 0 <= j < |c| ==> !c[j].op.IEnd?
  }

  lemma MovedStill(c: Code, i: nat, limit: nat)
    requires i + 1 < |c| && NoEnd(c)
    ensures NoEnd(MoveGroup(c, i, limit).0)
  {
    var (start, maxoff) := GroupStart(c, limit, i, GetOff(c[i]));
    var (k, n) := SkipChecks(c, i + 1, maxoff, 0);
    RotatedParts(c, start, i + 1, i + 1 + k, n);
  }

  method OptimizeCapturesInPlace(p: array<Instr>, ghost c: Code)
    requires Holds(p, c) && NoEnd(c)
    modifies p
    ensures Holds(p, OptimizeCaptures(c))
  {
    hide GroupStart, SkipChecks, Rotated, GetOff, IsMovableCap;
    var i: nat, limit: int := 0, 0;
    ghost var now := c;
    while !p[i].op.IEnd?
      invariant i <= |now| == |c| && Holds(p, now) && NoEnd(now) && 0 <= limit
      invariant OptimizeCapturesFrom(now, i, limit) == OptimizeCaptures(c)
      decreases |c| - i
    {
      if IsJmp(p[i]) && i + p[i].offset >= limit {
        limit := i + p[i].offset + 1;  // jump targets stay where they are
        i := i + 1;
      } else if i >= limit && IsMovableCap(p[i]) && IsCheck(p[i + 1]) {
        MovedStill(now, i, limit);
        var start, maxoff := FindGroup(p, limit, i, now);
        var k, n := CountChecks(p, i + 1, maxoff, now);
        if n != 0 {
          MovesSomething(now, i, limit);
          MoveCaptures(p, start, i, i + k, n, now);
          now := MoveGroup(now, i, limit).0;
          i := i + k;
        }
        i := i + 1;
      } else {
        i := i + 1;
      }
    }
  }

  lemma MovesSomething(c: Code, i: nat, limit: nat)
    requires i + 1 < |c|
    ensures var (start, maxoff) := GroupStart(c, limit, i, GetOff(c[i]));
            var (k, n) := SkipChecks(c, i + 1, maxoff, 0);
            n != 0 ==> k > 0
  {
  }

  // ----- plain jumps ----------------------------------------------------------

  ghost predicate JumpsFinite(c: Code) {
    && JumpsInside(c)
    && forall j :: 0 <= j < |c| && c[j].op.IJmp? && c[j].offset <= 0 ==> !PlainJumpAt(c, Dest(c, j))
  }

  // Follows plain jumps from `i`.
  method FindTarget(p: array<Instr>, i: nat, ghost c: Code) returns (t: int)
    requires Holds(p, c) && i <= |c| && JumpsFinite(c)
    ensures t == Target(c, i)
  {
    t := i;
    while p[t].op.IJmp?
      invariant 0 <= t <= |c| && Target(c, t) == Target(c, i)
      decreases if PlainJumpAt(c, t) then 1 else 0, |c| - t
    {
      assert p[t] == c[t];
      t := t + p[t].offset;
    }
  }

  // The code while the pass has corrected the jumps below `i`.
  function Corrected(c: Code, i: nat): (r: Code)
    requires i <= |c|
    ensures |r| == |c|
  {
    OptimizeJumps(c)[..i] + c[i..]
  }

  lemma CorrectedAt(c: Code, i: nat, j: nat)
    requires i <= |c| && j < |c|
    ensures Corrected(c, i)[j] == if j < i && IsJmp(c[j]) then c[j].(offset := Target(c, Dest(c, j)) - j) else c[j]
  {
    OptimizeJumpsAt(c, j);
  }

  lemma CorrectedFinite(c: Code, i: nat)
    requires WF(c) && i <= |c|
    ensures JumpsFinite(Corrected(c, i))
  {
    hide Corrected, Target, WFAt;
    var m := Corrected(c, i);
    forall j | 0 <= j < |m|
      ensures IsJmp(m[j]) ==> 0 <= Dest(m, j) <= |m|
      ensures m[j].op.IJmp? && m[j].offset <= 0 ==> !PlainJumpAt(m, Dest(m, j))
    {
      CorrectedJump(c, i, j);
    }
  }

  lemma CorrectedJump(c: Code, i: nat, j: nat)
    requires WF(c) && i <= |c| && j < |c|
    ensures var m := Corrected(c, i);
            && (IsJmp(m[j]) ==> 0 <= Dest(m, j) <= |m|)
            && (m[j].op.IJmp? && m[j].offset <= 0 ==> !PlainJumpAt(m, Dest(m, j)))
  {
    var m := Corrected(c, i);
    CorrectedAt(c, i, j);
    assert WFAt(c, j);
    if IsJmp(c[j]) {
      TargetEnds(c, Dest(c, j));
      var t := Dest(m, j);
      if t < |c| { CorrectedAt(c, i, t); }
    }
  }

  // Jumps that are already corrected do not change where a chain ends.
  lemma {:induction false} TargetCorrected(c: Code, i: nat, t: nat)
    requires WF(c) && i <= |c| && t <= |c|
    ensures Target(Corrected(c, i), t) == Target(c, t)
    decreases |c| - t
  {
    if PlainJumpAt(c, t) {
      var m := Corrected(c, i);
      CorrectedAt(c, i, t);
      assert WFAt(c, t);
      TargetEnds(c, Dest(c, t));
      var e := Target(c, Dest(c, t));
      if t < i {
        if e < |c| { CorrectedAt(c, i, e); }
        if c[t].offset <= 0 { TargetOfTarget(c, t); }
      } else if c[t].offset > 0 {
        TargetCorrected(c, i, Dest(c, t));
      }
    } else if t < |c| {
      CorrectedAt(c, i, t);
    }
  }

  // Sends every jump straight to the end of its chain.
  method OptimizeJumpsInPlace(p: array<Instr>, ghost c: Code)
    requires Holds(p, c) && WF(c)
    modifies p
    ensures Holds(p, OptimizeJumps(c))
  {
    hide WF, Corrected, Target, OptimizeJumps, JumpsFinite;
    var i := 0;
    CorrectedEnds(c);
    while !p[i].op.IEnd?
      invariant 0 <= i <= |c| && Holds(p, Corrected(c, i))
      decreases |c| - i
    {
      assert i < |c| && p[i] == Corrected(c, i)[i];
      CorrectedAt(c, i, i);
      NextCorrected(c, i);
      if IsJmp(p[i]) {
        CorrectedFinite(c, i);
        CorrectedJump(c, i, i);
        var t := FindTarget(p, i + p[i].offset, Corrected(c, i));
        TargetCorrected(c, i, i + p[i].offset);
        p[i] := p[i].(offset := t - i);
        assert p[..] == (Corrected(c, i) + [END])[i := p[i]];
      }
      i := i + 1;
    }
    if i < |c| { CorrectedAt(c, i, i); EndsNot(c, i); }
  }

  lemma CorrectedEnds(c: Code)
    ensures Corrected(c, 0) == c && Corrected(c, |c|) == OptimizeJumps(c)
  {
  }

  lemma EndsNot(c: Code, i: nat)
    requires WF(c) && i < |c|
    ensures !c[i].op.IEnd?
  {
    assert WFAt(c, i);
  }

  lemma NextCorrected(c: Code, i: nat)
    requires i < |c|
    ensures Corrected(c, i + 1) == Corrected(c, i)[i := OptimizeJumps(c)[i]]
    ensures OptimizeJumps(c)[i] == if IsJmp(c[i]) then c[i].(offset := Target(c, Dest(c, i)) - i) else c[i]
  {
    OptimizeJumpsAt(c, i);
  }

  // ----- choices and head failures ------------------------------------------------

  lemma NotOptimized(c: Code)
    requires c != [] && c[0].op.IChoice? && !(|c| > 1 && IsCheck(c[1]))
    ensures OptimizeChoice(c) == c
  {
  }

  lemma OptimizedChoice(t: Code, t': Code, front: Code, c: Code)
    requires |c| > 1 && c[0].op.IChoice? && IsCheck(c[1])
    requires t == front + [c[1]] + [c[0]] + (c[2..] + [END]) && |t'| == |t|
    requires var at := |front|;
             && t'[at] == Check2Test(t[at], t[at + 1].offset)
             && t'[at + 1] == t[at + 1].(aux := StepLen(t[at]), offset := t[at + 1].offset - 1)
             && forall k :: 0 <= k < |t| && k != at && k != at + 1 ==> t'[k] == t[k]
    ensures t' == front + OptimizeChoice(c) + [END]
  {
  }

  // Enters a choice only once the check behind it has succeeded.  `front` holds the
  // instructions before it.
  method OptimizeChoiceInPlace(p: array<Instr>, at: nat, ghost front: Code, ghost c: Code)
    requires |front| == at && p[..] == front + c + [END] && c != [] && c[0].op.IChoice?
    modifies p
    ensures p[..] == front + OptimizeChoice(c) + [END]
  {
    hide OptimizeChoice;
    assert p[at] == c[0] && p[at + 1] == (c + [END])[1];
    if IsCheck(p[at + 1]) {
      ghost var rest := c[2..] + [END];
      assert p[..] == front + [c[0]] + [c[1]] + rest;
      Rotate(p, at, 1, 1, front, [c[0]], [c[1]], rest);
      ghost var t := p[..];
      p[at + 1] := p[at + 1].(aux := StepLen(p[at]));
      p[at] := Check2Test(p[at], p[at + 1].offset);
      p[at + 1] := p[at + 1].(offset := p[at + 1].offset - 1);
      OptimizedChoice(t, p[..], front, c);
    } else {
      NotOptimized(c);
    }
  }

  // Can the code from `at` on fail only in its first instruction, a check?
  method HeadFails(p: array<Instr>, at: nat, ghost c: Code) returns (r: bool)
    requires at + |c| + 1 == p.Length && p[at..] == c + [END] && NoEnd(c)
    ensures r == IsHeadFail(c)
  {
    assert forall k :: 0 <= k <= |c| ==> p[at + k] == p[at..][k];
    if !IsCheck(p[at]) { return false; }
    var i := 1;
    while !p[at + i].op.IEnd?
      invariant 1 <= i <= |c| && forall k :: 1 <= k < i ==> IsNoFail(c[k])
      decreases |c| - i
    {
      if !IsNoFail(p[at + i]) { return false; }
      i := i + 1;
    }
    r := true;
  }
}

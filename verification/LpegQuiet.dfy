// Patterns whose sets are never read as instructions: while such a pattern is built, all
// searches find in slots what they find in instructions.

module LpegQuiet {
  import opened LpegCode
  import opened LpegPeg
  import opened LpegBuild
  import opened LpegUnion
  import opened LpegSeparate
  import opened LpegCorrect
  import opened LpegGuard
  import opened LpegSlots

  predicate QuietCode(c: Code, beyond: nat -> bool) {
    forall i :: i in c && HasCharset(i) ==> Quiet(i.cs, beyond)
  }

  // A single check or test of one byte as a set, when it is one.
  predicate QuietTag(t: CharsetTag, beyond: nat -> bool) { t.IsCharset? ==> Quiet(t.cs, beyond) }

  // The sets a pattern is written with, and those its operations make from them, are quiet.
  ghost predicate QuietPattern(p: Pat, beyond: nat -> bool) {
    match p
    case Chars(bytes) => |bytes| == 1 || Quiet(CharsSet(bytes), beyond)
    case Ranges(pairs) => Quiet(RangesSet(pairs), beyond)
    case Cat(a, b) => QuietPattern(a, beyond) && QuietPattern(b, beyond)
    case Or(a, b) =>
      && QuietPattern(a, beyond) && QuietPattern(b, beyond)
      && (Compile(a).Ok? && Compile(b).Ok? ==> QuietUnions(Compile(a).value, ToCharset(Compile(b).value), beyond))
    case Diff(a, b) =>
      && QuietPattern(a, beyond) && QuietPattern(b, beyond)
      && (Compile(a).Ok? && Compile(b).Ok? ==>
            var t1, t2 := ToCharset(Compile(a).value), ToCharset(Compile(b).value);
            t1.IsCharset? && t2.IsCharset? ==> Quiet(t1.cs - t2.cs, beyond))
    case Neg(a) => QuietPattern(a, beyond)
    case And(a) => QuietPattern(a, beyond)
    case Rep(a, _) => QuietPattern(a, beyond) && (Compile(a).Ok? ==> QuietTag(ToCharset(Compile(a).value), beyond))
    case Opt(a, _) => QuietPattern(a, beyond)
    case Capt(_, _, a) => QuietPattern(a, beyond)
    case _ => true
  }

  // The last alternative of `c1` may be a set that is united with the second operand.
  predicate QuietUnions(c1: Code, t2: CharsetTag, beyond: nat -> bool)
    decreases |c1|
  {
    var sp := FirstPart(c1);
    if sp != 0 then QuietUnions(c1[sp..], t2, beyond)
    else ToCharset(c1).IsCharset? && t2.IsCharset? ==> Quiet(ToCharset(c1).cs + t2.cs, beyond)
  }

  // ----- the sets of compiled code ---------------------------------------------------------

  lemma QuietSum(c1: Code, c2: Code, beyond: nat -> bool)
    ensures QuietCode(c1 + c2, beyond) <==> QuietCode(c1, beyond) && QuietCode(c2, beyond)
  {
    hide Quiet, HasCharset;
    if QuietCode(c1 + c2, beyond) {
      forall i | i in c1 && HasCharset(i) ensures Quiet(i.cs, beyond) { assert i in c1 + c2; }
      forall i | i in c2 && HasCharset(i) ensures Quiet(i.cs, beyond) { assert i in c1 + c2; }
    }
  }

  lemma QuietSlice(c: Code, lo: nat, hi: nat, beyond: nat -> bool)
    requires lo <= hi <= |c| && QuietCode(c, beyond)
    ensures QuietCode(c[lo..hi], beyond)
  {
    hide Quiet, HasCharset;
    forall i | i in c[lo..hi] && HasCharset(i) ensures Quiet(i.cs, beyond) { assert i in c; }
  }

  // Codes that differ in offsets, counts and between checks and tests.
  predicate SameSets(i: Instr, i': Instr) { i'.cs == i.cs && (HasCharset(i') ==> HasCharset(i)) }

  lemma QuietLike(c: Code, c': Code, beyond: nat -> bool)
    requires |c'| == |c| && (forall j :: 0 <= j < |c| ==> SameSets(c[j], c'[j])) && QuietCode(c, beyond)
    ensures QuietCode(c', beyond)
  {
    hide Quiet;
    forall i' | i' in c' && HasCharset(i') ensures Quiet(i'.cs, beyond) {
      var j :| 0 <= j < |c'| && c'[j] == i';
      assert SameSets(c[j], c'[j]) && c[j] in c;
    }
  }

  lemma QuietOne(i: Instr, beyond: nat -> bool)
    requires HasCharset(i) ==> Quiet(i.cs, beyond)
    ensures QuietCode([i], beyond)
  {
  }

  lemma QuietTestHead(c: Code, off: int, beyond: nat -> bool)
    requires c != [] && QuietCode(c, beyond)
    ensures QuietCode(TestHead(c, off), beyond)
  {
    QuietLike(c, TestHead(c, off), beyond);
  }

  lemma QuietChoice(c: Code, beyond: nat -> bool)
    requires c != [] && c[0].op.IChoice? && QuietCode(c, beyond)
    ensures QuietCode(OptimizeChoice(c), beyond)
  {
    hide Quiet;
    if |c| > 1 && IsCheck(c[1]) {
      var c' := OptimizeChoice(c);
      var swapped := [c[1], c[0]] + c[2..];
      forall i | i in swapped && HasCharset(i) ensures Quiet(i.cs, beyond) { assert i in c; }
      QuietLike(swapped, c', beyond);
    }
  }

  lemma QuietRotated(c: Code, start: nat, mid: nat, end: nat, n: nat, beyond: nat -> bool)
    requires start <= mid <= end <= |c| && QuietCode(c, beyond)
    ensures QuietCode(Rotated(c, start, mid, end, n), beyond)
  {
    hide QuietCode;
    var moved := c[start..mid];
    QuietSlice(c, 0, start, beyond);
    QuietSlice(c, mid, end, beyond);
    QuietSlice(c, start, mid, beyond);
    QuietSlice(c, end, |c|, beyond);
    assert c[0..start] == c[..start] && c[end..|c|] == c[end..];
    QuietLike(moved, Shifted(moved, n), beyond);
    QuietSum(c[..start], c[mid..end], beyond);
    QuietSum(c[..start] + c[mid..end], Shifted(moved, n), beyond);
    QuietSum(c[..start] + c[mid..end] + Shifted(moved, n), c[end..], beyond);
  }

  lemma QuietMoved(c: Code, i: nat, limit: nat, beyond: nat -> bool)
    requires i + 1 < |c| && QuietCode(c, beyond)
    ensures QuietCode(MoveGroup(c, i, limit).0, beyond)
  {
    hide QuietCode, Rotated, GroupStart, SkipChecks;
    var (start, maxoff) := GroupStart(c, limit, i, GetOff(c[i]));
    var (k, n) := SkipChecks(c, i + 1, maxoff, 0);
    QuietRotated(c, start, i + 1, i + 1 + k, n, beyond);
  }

  lemma {:induction false} QuietCaptures(c: Code, i: nat, limit: nat, beyond: nat -> bool)
    requires i <= |c| && QuietCode(c, beyond)
    ensures QuietCode(OptimizeCapturesFrom(c, i, limit), beyond)
    decreases |c| - i
  {
    hide QuietCode, MoveGroup;
    if i < |c| {
      if IsJmp(c[i]) && Dest(c, i) >= limit {
        QuietCaptures(c, i + 1, Dest(c, i) + 1, beyond);
      } else if i >= limit && IsMovableCap(c[i]) && i + 1 < |c| && IsCheck(c[i + 1]) {
        QuietMoved(c, i, limit, beyond);
        var r := MoveGroup(c, i, limit);
        QuietCaptures(r.0, r.1, limit, beyond);
      } else {
        QuietCaptures(c, i + 1, limit, beyond);
      }
    }
  }

  lemma QuietJumps(c: Code, beyond: nat -> bool)
    requires QuietCode(c, beyond)
    ensures QuietCode(OptimizeJumps(c), beyond)
  {
    QuietLike(c, OptimizeJumps(c), beyond);
  }

  lemma {:induction false} QuietCopies(c: Code, n: nat, beyond: nat -> bool)
    requires QuietCode(c, beyond)
    ensures QuietCode(Copies(c, n), beyond)
  {
    hide QuietCode;
    if n == 0 {
      NoSets([], beyond);
    } else {
      QuietCopies(c, n - 1, beyond);
      QuietSum(c, Copies(c, n - 1), beyond);
    }
  }

  lemma NoSets(c: Code, beyond: nat -> bool)
    requires forall i :: i in c ==> !HasCharset(i)
    ensures QuietCode(c, beyond)
  {
  }

  // ----- the operations -----------------------------------------------------------------------

  lemma QuietBetween(front: Code, c: Code, back: Code, beyond: nat -> bool)
    requires QuietCode(c, beyond) && forall i :: i in front || i in back ==> !HasCharset(i)
    ensures QuietCode(front + c + back, beyond)
  {
    hide QuietCode, HasCharset;
    NoSets(front, beyond);
    NoSets(back, beyond);
    QuietSum(front, c, beyond);
    QuietSum(front + c, back, beyond);
  }

  lemma QuietCat(c1: Code, c2: Code, beyond: nat -> bool)
    requires QuietCode(c1, beyond) && QuietCode(c2, beyond)
    ensures QuietCode(ConcatCode(c1, c2), beyond)
  {
    hide QuietCode, OptimizeCapturesFrom;
    if IsAnyCode(c1) && IsAnyCode(c2) && c1[0].aux + c2[0].aux > 0 {
      AnySets(c1[0].aux + c2[0].aux, beyond);
    } else {
      QuietSum(c1, c2, beyond);
      QuietCaptures(c1 + c2, 0, 0, beyond);
    }
  }

  lemma {:induction false} AnySets(n: nat, beyond: nat -> bool)
    requires n > 0
    ensures QuietCode(AnyInstrs(n), beyond)
    decreases n
  {
    if n > UCHAR_MAX {
      AnySets(n - UCHAR_MAX, beyond);
      QuietSum([SetAux(IAny, 0, UCHAR_MAX)], AnyInstrs(n - UCHAR_MAX), beyond);
    }
  }

  lemma QuietDiff(c1: Code, c2: Code, beyond: nat -> bool)
    requires QuietCode(c1, beyond) && QuietCode(c2, beyond)
    requires var t1, t2 := ToCharset(c1), ToCharset(c2); t1.IsCharset? && t2.IsCharset? ==> Quiet(t1.cs - t2.cs, beyond)
    ensures QuietCode(DiffCode(c1, c2), beyond)
  {
    hide QuietCode, Quiet, TestHead, OptimizeChoice, ToCharset;
    var (t1, t2) := (ToCharset(c1), ToCharset(c2));
    if t1.IsCharset? && t2.IsCharset? {
      QuietOne(SetInstr(t1.cs - t2.cs), beyond);
    } else if IsHeadFail(c2) {
      QuietTestHead(c2, |c2| + 1, beyond);
      QuietBetween([], TestHead(c2, |c2| + 1), [Set(IFail, 0)], beyond);
      assert [] + TestHead(c2, |c2| + 1) + [Set(IFail, 0)] == TestHead(c2, |c2| + 1) + [Set(IFail, 0)];
      QuietSum(TestHead(c2, |c2| + 1) + [Set(IFail, 0)], c1, beyond);
    } else {
      QuietBetween([Set(IChoice, 1 + |c2| + 1)], c2, [Set(IFailTwice, 0)], beyond);
      QuietSum([Set(IChoice, 1 + |c2| + 1)] + c2 + [Set(IFailTwice, 0)], c1, beyond);
      QuietChoice(NotThen(c2, c1), beyond);
    }
  }

  lemma QuietBasicUnion(c1: Code, c2: Code, beyond: nat -> bool)
    requires QuietCode(c1, beyond) && QuietCode(c2, beyond)
    requires var t1, t2 := ToCharset(c1), ToCharset(c2); t1.IsCharset? && t2.IsCharset? ==> Quiet(t1.cs + t2.cs, beyond)
    ensures QuietCode(BasicUnion(c1, c2), beyond)
  {
    hide QuietCode, Quiet, TestHead, OptimizeChoice, ToCharset;
    var (t1, t2) := (ToCharset(c1), ToCharset(c2));
    if t1.IsCharset? && t2.IsCharset? {
      QuietOne(SetInstr(t1.cs + t2.cs), beyond);
    } else if Exclusive(t1, t2) || IsHeadFail(c1) {
      CheckFirst(c1, c2);
      QuietTestHead(c1, |c1| + 1, beyond);
      var jump := [Set(IJmp, |c2| + 1)];
      QuietBetween([], TestHead(c1, |c1| + 1), jump, beyond);
      assert [] + TestHead(c1, |c1| + 1) + jump == TestHead(c1, |c1| + 1) + jump;
      QuietSum(TestHead(c1, |c1| + 1) + jump, c2, beyond);
    } else {
      var choice, commit := [Set(IChoice, 1 + |c1| + 1)], [Set(ICommit, 1 + |c2|)];
      QuietBetween(choice, c1, commit, beyond);
      QuietSum(choice + c1 + commit, c2, beyond);
      QuietChoice(ChoiceUnion(c1, c2), beyond);
    }
  }

  lemma CheckFirst(c1: Code, c2: Code)
    requires Exclusive(ToCharset(c1), ToCharset(c2)) || IsHeadFail(c1)
    ensures c1 != []
  {
  }

  lemma QuietFirst(first: Code, rest: Code, beyond: nat -> bool)
    requires |first| >= 2 && QuietCode(first, beyond) && QuietCode(rest, beyond)
    ensures QuietCode(KeepFirst(first, rest), beyond) && QuietCode(RestoreChoice(first, rest), beyond)
  {
    hide QuietCode, Quiet;
    var l := |first|;
    var kept := first[..l - 1] + [first[l - 1].(offset := 1 + |rest|)];
    QuietLike(first, kept, beyond);
    QuietSum(kept, rest, beyond);
    var head, body := [first[0].(offset := first[0].offset + 1)], first[1..l - 1];
    QuietSlice(first, 0, 1, beyond);
    QuietLike(first[0..1], head, beyond);
    QuietSlice(first, 1, l - 1, beyond);
    var choice, commit := [SetAux(IChoice, l, 1)], [Set(ICommit, 1 + |rest|)];
    QuietBetween(choice, body, commit, beyond);
    QuietSum(head, choice + body + commit, beyond);
    QuietSum(head + (choice + body + commit), rest, beyond);
    assert RestoreChoice(first, rest) == head + (choice + body + commit) + rest;
  }

  lemma {:induction false} QuietSeparate(c1: Code, c2: Code, beyond: nat -> bool)
    requires QuietCode(c1, beyond) && QuietCode(c2, beyond) && QuietUnions(c1, ToCharset(c2), beyond)
    ensures QuietCode(Separate(c1, c2), beyond)
    decreases |c1|
  {
    hide QuietCode, Quiet, KeepFirst, RestoreChoice, BasicUnion, FirstPart, Interfere, ToCharset;
    var sp := FirstPart(c1);
    if sp == 0 {
      QuietBasicUnion(c1, c2, beyond);
    } else {
      FirstPartShape(c1);
      QuietSlice(c1, 0, sp, beyond);
      QuietSlice(c1, sp, |c1|, beyond);
      assert c1[0..sp] == c1[..sp] && c1[sp..|c1|] == c1[sp..];
      QuietSeparate(c1[sp..], c2, beyond);
      QuietFirst(c1[..sp], Separate(c1[sp..], c2), beyond);
    }
  }

  lemma QuietUnion(c1: Code, c2: Code, beyond: nat -> bool)
    requires QuietCode(c1, beyond) && QuietCode(c2, beyond) && QuietUnions(c1, ToCharset(c2), beyond)
    ensures QuietCode(UnionCode(c1, c2), beyond)
  {
    hide QuietCode, Separate, QuietUnions;
    QuietSeparate(c1, c2, beyond);
  }

  lemma QuietAnd(c: Code, beyond: nat -> bool)
    requires QuietCode(c, beyond)
    ensures QuietCode(AndCode(c), beyond)
  {
    hide QuietCode;
    QuietBetween([Set(IChoice, 1 + |c| + 1)], c, [Set(IBackCommit, 2), SetAux(IFail, 0, 1)], beyond);
  }

  // The loop that is optimised, where there is one.
  function LoopOf(c: Code): Code
    requires c != []
  {
    if IsHeadFail(c) then HeadFailLoop(c) else ChoiceLoop(c)
  }

  lemma QuietLoop(c: Code, beyond: nat -> bool)
    requires QuietCode(c, beyond) && c != []
    ensures QuietCode(LoopOf(c), beyond)
  {
    hide QuietCode, TestHead;
    if IsHeadFail(c) {
      var t := TestHead(c, |c| + 1);
      QuietTestHead(c, |c| + 1, beyond);
      QuietBetween([], t, [Set(IJmp, -|c|)], beyond);
      assert [] + t + [Set(IJmp, -|c|)] == t + [Set(IJmp, -|c|)];
    } else {
      QuietBetween([Set(IChoice, 1 + |c| + 1)], c, [Set(IPartialCommit, -|c|)], beyond);
    }
  }

  lemma QuietRep(c: Code, n: nat, beyond: nat -> bool)
    requires QuietCode(c, beyond) && QuietTag(ToCharset(c), beyond) && RepCode(c, n).Ok? && c != []
    ensures QuietCode(RepCode(c, n).value, beyond)
  {
    hide QuietCode, Quiet, ToCharset, OptimizeCapturesFrom, OptimizeJumps, HeadFailLoop, ChoiceLoop;
    QuietCopies(c, n, beyond);
    if ToCharset(c).IsCharset? {
      QuietOne(SpanInstr(ToCharset(c).cs), beyond);
      QuietSum(Copies(c, n), [SpanInstr(ToCharset(c).cs)], beyond);
    } else {
      QuietLoop(c, beyond);
      QuietSum(Copies(c, n), LoopOf(c), beyond);
      QuietCaptures(Copies(c, n) + LoopOf(c), 0, 0, beyond);
      QuietJumps(OptimizeCaptures(Copies(c, n) + LoopOf(c)), beyond);
    }
  }

  lemma {:induction false} QuietTests(c: Code, n: nat, beyond: nat -> bool)
    requires QuietCode(c, beyond) && c != []
    ensures QuietCode(HeadFailOptionals(c, n), beyond)
  {
    hide QuietCode, TestHead;
    if n == 0 {
      NoSets([], beyond);
    } else {
      QuietTestHead(c, n * |c|, beyond);
      QuietTests(c, n - 1, beyond);
      QuietSum(TestHead(c, n * |c|), HeadFailOptionals(c, n - 1), beyond);
    }
  }

  lemma {:induction false} QuietBodies(c: Code, n: Pos, beyond: nat -> bool)
    requires QuietCode(c, beyond)
    ensures QuietCode(OptionalBodies(c, n), beyond)
  {
    hide QuietCode;
    if n == 1 {
      QuietBetween([], c, [Set(ICommit, 1)], beyond);
      assert [] + c + [Set(ICommit, 1)] == c + [Set(ICommit, 1)];
    } else {
      QuietBetween([], c, [Set(IPartialCommit, 1)], beyond);
      assert [] + c + [Set(IPartialCommit, 1)] == c + [Set(IPartialCommit, 1)];
      QuietBodies(c, n - 1, beyond);
      QuietSum(c + [Set(IPartialCommit, 1)], OptionalBodies(c, n - 1), beyond);
    }
  }

  lemma QuietOpt(c: Code, n: Pos, beyond: nat -> bool)
    requires QuietCode(c, beyond)
    ensures QuietCode(OptCode(c, n), beyond)
  {
    hide QuietCode, OptimizeChoice, OptionalBodies, HeadFailOptionals;
    if IsHeadFail(c) {
      QuietTests(c, n, beyond);
    } else {
      var choice := [Set(IChoice, 1 + n * (|c| + 1))];
      QuietBodies(c, n, beyond);
      NoSets(choice, beyond);
      QuietSum(choice, OptionalBodies(c, n), beyond);
      QuietChoice(choice + OptionalBodies(c, n), beyond);
    }
  }

  lemma QuietCapt(kind: CapKind, idx: int, c: Code, beyond: nat -> bool)
    requires QuietCode(c, beyond)
    ensures QuietCode(OpenClose(kind, idx, c), beyond) && QuietCode(CaptCode(kind, idx, c), beyond)
  {
    hide QuietCode, OptimizeCapturesFrom, SkipChecks;
    var (k, n) := SkipChecks(c, 0, 0, 0);
    QuietBetween([SetCap(IOpenCapture, idx, kind, 0)], c, [SetCap(ICloseCapture, 0, CCLOSE, 0)], beyond);
    QuietBetween([], c, [SetCap(IFullCapture, idx, kind, n)], beyond);
    assert [] + c + [SetCap(IFullCapture, idx, kind, n)] == c + [SetCap(IFullCapture, idx, kind, n)];
    QuietCaptures(OpenClose(kind, idx, c), 0, 0, beyond);
  }

  lemma QuietLeaf(p: Pat, beyond: nat -> bool)
    requires QuietPattern(p, beyond) && IsLeaf(p)
    ensures Compile(p).Ok? && QuietCode(Compile(p).value, beyond)
  {
    hide Quiet, ByteOf, AnyInstrs;
    match p
    case Any(n) => if n > 0 { AnySets(n, beyond); }
    case NotAny(n) =>
      if n > UCHAR_MAX {
        AnySets(n - UCHAR_MAX, beyond);
        var rest := AnyInstrs(n - UCHAR_MAX);
        QuietBetween([SetAux(ITestAny, |rest| + 3, UCHAR_MAX), SetAux(IChoice, |rest| + 2, UCHAR_MAX)], rest,
                     [Set(IFailTwice, 0)], beyond);
      }
    case _ =>
  }

  lemma {:induction false} QuietCompiled(p: Pat, beyond: nat -> bool)
    requires QuietPattern(p, beyond) && Compile(p).Ok?
    ensures QuietCode(Compile(p).value, beyond)
  {
    hide QuietCode, Quiet, ConcatCode, UnionCode, DiffCode, AndCode, RepCode, OptCode, CaptCode, QuietUnions, ToCharset;
    match p
    case Cat(a, b) =>
      QuietCompiled(a, beyond);
      QuietCompiled(b, beyond);
      QuietCat(Compile(a).value, Compile(b).value, beyond);
    case Or(a, b) =>
      QuietCompiled(a, beyond);
      QuietCompiled(b, beyond);
      QuietUnion(Compile(a).value, Compile(b).value, beyond);
    case Diff(a, b) =>
      QuietCompiled(a, beyond);
      QuietCompiled(b, beyond);
      QuietDiff(Compile(a).value, Compile(b).value, beyond);
    case Neg(a) =>
      QuietCompiled(a, beyond);
      NothingQuiet(beyond);
      QuietDiff([], Compile(a).value, beyond);
    case And(a) => QuietCompiled(a, beyond); QuietAnd(Compile(a).value, beyond);
    case Rep(a, n) =>
      QuietCompiled(a, beyond);
      RepSome(Compile(a).value, n);
      QuietRep(Compile(a).value, n, beyond);
    case Opt(a, n) => QuietCompiled(a, beyond); QuietOpt(Compile(a).value, n, beyond);
    case Capt(kind, idx, a) => QuietCompiled(a, beyond); QuietCapt(kind, idx, Compile(a).value, beyond);
    case _ => QuietLeaf(p, beyond);
  }

  lemma NothingQuiet(beyond: nat -> bool)
    ensures QuietCode([], beyond) && ToCharset([]).NoInfo?
  {
  }

  lemma RepSome(c: Code, n: nat)
    requires RepCode(c, n).Ok?
    ensures c != []
  {
    if !ToCharset(c).IsCharset? && !IsHeadFail(c) { AcceptsSomething(c); }
  }

  // ----- what the searches read ---------------------------------------------------------------

  // All searches for a first alternative made while something is joined to `c`.
  predicate SeparateReads(c: Code)
    decreases |c|
  {
    var sp := FirstPart(c);
    FirstPartAt(Slots(c), Place(c, |c|)) == Place(c, sp) && (sp != 0 ==> SeparateReads(c[sp..]))
  }

  // All searches for a group of captures made by the pass from `i` on.
  predicate CapturesRead(c: Code, i: nat, limit: nat, beyond: nat -> bool)
    requires i <= |c|
    decreases |c| - i
  {
    if i == |c| then true
    else if IsJmp(c[i]) && Dest(c, i) >= limit then CapturesRead(c, i + 1, Dest(c, i) + 1, beyond)
    else if i >= limit && IsMovableCap(c[i]) && i + 1 < |c| && IsCheck(c[i + 1]) then
      && GroupFound(c, limit, i, GetOff(c[i]), beyond)
      && var r := MoveGroup(c, i, limit); CapturesRead(r.0, r.1, limit, beyond)
    else CapturesRead(c, i + 1, limit, beyond)
  }

  // All searches made while a pattern is built find in slots what they find in instructions.
  ghost predicate PatternReads(p: Pat, beyond: nat -> bool)
    requires Compile(p).Ok?
  {
    match p
    case Cat(a, b) =>
      var c1, c2 := Compile(a).value, Compile(b).value;
      && PatternReads(a, beyond) && PatternReads(b, beyond)
      && ((IsAnyCode(c1) && IsAnyCode(c2)) || CapturesRead(c1 + c2, 0, 0, beyond))
    case Or(a, b) =>
      var c1, c2 := Compile(a).value, Compile(b).value;
      && PatternReads(a, beyond) && PatternReads(b, beyond)
      && ((c1 != [] && c1[0].op.IFail?) || (c2 != [] && c2[0].op.IFail?) || SeparateReads(c1))
    case Diff(a, b) => PatternReads(a, beyond) && PatternReads(b, beyond)
    case Neg(a) => PatternReads(a, beyond)
    case And(a) => PatternReads(a, beyond)
    case Rep(a, n) =>
      var c := Compile(a).value;
      && PatternReads(a, beyond)
      && (ToCharset(c).IsCharset? || c == [] || CapturesRead(Copies(c, n) + LoopOf(c), 0, 0, beyond))
    case Opt(a, _) => PatternReads(a, beyond)
    case Capt(kind, idx, a) => PatternReads(a, beyond)
      && CapturesRead(OpenClose(kind, idx, Compile(a).value), 0, 0, beyond)
    case _ => true
  }

  lemma QuietGroup(c: Code, limit: nat, start: nat, maxoff: nat, beyond: nat -> bool)
    requires limit <= start < |c| && QuietCode(c, beyond)
    ensures GroupFound(c, limit, start, maxoff, beyond)
  {
    hide ByteOf, GroupFound;
    GroupRead(c, limit, start, maxoff, beyond);
    var first := GroupStart(c, limit, start, maxoff).0;
    if first > 0 { assert c[first - 1] in c; }
  }

  lemma {:induction false} QuietCapturesRead(c: Code, i: nat, limit: nat, beyond: nat -> bool)
    requires i <= |c| && QuietCode(c, beyond)
    ensures CapturesRead(c, i, limit, beyond)
    decreases |c| - i
  {
    hide QuietCode, MoveGroup, GroupFound;
    if i < |c| {
      if IsJmp(c[i]) && Dest(c, i) >= limit {
        QuietCapturesRead(c, i + 1, Dest(c, i) + 1, beyond);
      } else if i >= limit && IsMovableCap(c[i]) && i + 1 < |c| && IsCheck(c[i + 1]) {
        QuietGroup(c, limit, i, GetOff(c[i]), beyond);
        QuietMoved(c, i, limit, beyond);
        var r := MoveGroup(c, i, limit);
        QuietCapturesRead(r.0, r.1, limit, beyond);
      } else {
        QuietCapturesRead(c, i + 1, limit, beyond);
      }
    }
  }

  lemma {:induction false} QuietSeparateReads(c: Code, p: Pat, d: int, beyond: nat -> bool)
    requires Good(c, p, d) && QuietCode(c, beyond)
    ensures SeparateReads(c)
    decreases |c|
  {
    hide Good, QuietCode, FirstPart, FirstPartAt, Slots, Place, SplitBy, WF;
    GoodBasics(c, p, d);
    QuietFirstRead(c, beyond);
    var sp := FirstPart(c);
    if sp != 0 {
      FirstPartShape(c);
      var sl := GoodRest(c, p, d);
      QuietSlice(c, sp, |c|, beyond);
      assert c[sp..|c|] == c[sp..];
      QuietSeparateReads(c[sp..], sl.rest, d, beyond);
    }
  }

  lemma QuietFirstRead(c: Code, beyond: nat -> bool)
    requires WF(c) && QuietCode(c, beyond)
    ensures FirstPartAt(Slots(c), Place(c, |c|)) == Place(c, FirstPart(c))
  {
    hide Slots, Place, FirstPartAt, FirstPart, WF, Quiet;
    forall j | 0 <= j < |c| && HasCharset(c[j]) ensures Quiet(c[j].cs, beyond) { assert c[j] in c; }
    QuietReads(c, beyond);
  }

  // Building a quiet pattern never reads a set as an instruction, so its code is the one
  // of the model; and that code means the pattern.
  lemma {:induction false} QuietPatternReads(p: Pat, beyond: nat -> bool)
    requires QuietPattern(p, beyond) && Safe(p) && Compile(p).Ok?
    ensures PatternReads(p, beyond)
  {
    hide QuietCode, Quiet, ConcatCode, UnionCode, DiffCode, AndCode, RepCode, OptCode, CaptCode, QuietUnions, ToCharset;
    hide SeparateReads, CapturesRead, Good, UnionSafe, LoopOf, OpenClose;
    match p
    case Cat(a, b) =>
      QuietPatternReads(a, beyond);
      QuietPatternReads(b, beyond);
      QuietCompiled(a, beyond);
      QuietCompiled(b, beyond);
      QuietSum(Compile(a).value, Compile(b).value, beyond);
      QuietCapturesRead(Compile(a).value + Compile(b).value, 0, 0, beyond);
    case Or(a, b) =>
      QuietPatternReads(a, beyond);
      QuietPatternReads(b, beyond);
      QuietCompiled(a, beyond);
      CompileGood(a);
      QuietSeparateReads(Compile(a).value, a, Depth(a), beyond);
    case Diff(a, b) =>
      QuietPatternReads(a, beyond);
      QuietPatternReads(b, beyond);
    case Neg(a) => QuietPatternReads(a, beyond);
    case And(a) => QuietPatternReads(a, beyond);
    case Rep(a, n) =>
      var c := Compile(a).value;
      QuietPatternReads(a, beyond);
      QuietCompiled(a, beyond);
      if c != [] {
        QuietLoop(c, beyond);
        QuietCopies(c, n, beyond);
        QuietSum(Copies(c, n), LoopOf(c), beyond);
        QuietCapturesRead(Copies(c, n) + LoopOf(c), 0, 0, beyond);
      }
    case Opt(a, _) => QuietPatternReads(a, beyond);
    case Capt(kind, idx, a) =>
      QuietPatternReads(a, beyond);
      QuietCompiled(a, beyond);
      QuietCapt(kind, idx, Compile(a).value, beyond);
      QuietCapturesRead(OpenClose(kind, idx, Compile(a).value), 0, 0, beyond);
    case _ =>
  }
}

// The pattern builders, writing their code into freshly allocated arrays.

module LpegEmit {
  import opened LpegCode
  import opened LpegPeg
  import opened LpegBuild
  import opened LpegMeaning
  import opened LpegLoops
  import opened LpegMoves
  import opened LpegRotate
  import opened LpegSolid
  import opened LpegCorrect
  import opened LpegVerify
  import opened LpegErrors

  // ----- writing code ----------------------------------------------------------

  // The first instructions of `p` are `done`; its last one is the final IEnd.
  ghost predicate Begun(p: array<Instr>, done: Code)
    reads p
  {
    |done| < p.Length && p[..|done|] == done && p[p.Length - 1] == END
  }

  method NewPatt(n: nat) returns (p: array<Instr>)
    ensures fresh(p) && p.Length == n + 1 && Begun(p, [])
  {
    p := new Instr[n + 1](_ => END);
  }

  method SetInst(p: array<Instr>, at: nat, i: Instr, ghost done: Code)
    requires Begun(p, done) && |done| == at && at + 1 < p.Length
    modifies p
    ensures Begun(p, done + [i])
  {
    p[at] := i;
    assert p[..at] == done;
  }

  // Copies `n` instructions.
  method CopyPatt(p: array<Instr>, at: nat, p1: array<Instr>, lo: nat, n: nat, ghost done: Code)
    requires p != p1 && Begun(p, done) && |done| == at && at + n < p.Length && lo + n <= p1.Length
    modifies p
    ensures Begun(p, done + p1[lo..lo + n])
  {
    var k := 0;
    while k < n
      invariant 0 <= k <= n && Begun(p, done + p1[lo..lo + k])
    {
      p[at + k] := p1[lo + k];
      k := k + 1;
      assert p1[lo..lo + k] == p1[lo..lo + k - 1] + [p1[lo + k - 1]];
      assert p[..at + k] == p[..at + k - 1] + [p[at + k - 1]];
      assert done + p1[lo..lo + k] == done + p1[lo..lo + k - 1] + [p1[lo + k - 1]];
    }
  }

  // Copies a whole pattern and its IEnd; returns where the next instruction goes.
  method AddPatt(p: array<Instr>, at: nat, p1: array<Instr>, ghost done: Code, ghost c: Code) returns (next: nat)
    requires p != p1 && Begun(p, done) && |done| == at && Holds(p1, c) && at + |c| < p.Length
    modifies p
    ensures Begun(p, done + c) && next == at + |c|
  {
    var sz := p1.Length - 1;
    assert p1[0..sz] == p1[..][0..sz] == c;
    CopyPatt(p, at, p1, 0, sz, done);
    ghost var front := p[..at + sz];
    p[at + sz] := p1[sz];
    assert p1[sz] == p1[..][sz] == END;
    assert p[..at + sz] == front;
    next := at + sz;
  }

  lemma Finished(p: array<Instr>, c: Code)
    requires Begun(p, c) && p.Length == |c| + 1
    ensures Holds(p, c)
  {
    assert p[..] == p[..|c|] + [p[|c|]];
  }

  method AddCopies(p: array<Instr>, at: nat, p1: array<Instr>, n: nat, ghost c: Code) returns (next: nat)
    requires p != p1 && at == 0 && Begun(p, []) && Holds(p1, c) && n * |c| < p.Length
    modifies p
    ensures Begun(p, Copies(c, n)) && next == |Copies(c, n)| == n * |c|
  {
    next := 0;
    var i := 0;
    assert Copies(c, 0) == [];
    while i < n
      invariant 0 <= i <= n && Begun(p, Copies(c, i)) && next == |Copies(c, i)| == i * |c|
    {
      CopiesMore(c, i);
      assert (i + 1) * |c| <= n * |c| by { MulMono(i + 1, n, |c|); }
      next := AddPatt(p, next, p1, Copies(c, i), c);
      i := i + 1;
    }
  }

  lemma MulMono(a: nat, b: nat, x: nat)
    requires a <= b
    ensures a * x <= b * x
  {
  }

  lemma {:induction false} CopiesMore(c: Code, n: nat)
    ensures Copies(c, n + 1) == Copies(c, n) + c && |Copies(c, n)| == n * |c|
  {
    if n > 0 {
      CopiesMore(c, n - 1);
      assert Copies(c, n + 1) == c + (Copies(c, n - 1) + c) == (c + Copies(c, n - 1)) + c;
    } else {
      assert Copies(c, 1) == c + [] == [] + c;
    }
  }

  // ----- leaves ----------------------------------------------------------------

  method FillAny(p: array<Instr>, at: nat, n: Pos, ghost done: Code) returns (next: nat)
    requires Begun(p, done) && |done| == at && at + |AnyInstrs(n)| < p.Length
    modifies p
    ensures Begun(p, done + AnyInstrs(n)) && next == at + |AnyInstrs(n)|
  {
    next := at;
    ghost var now := done;
    var left: Pos := n;
    while left > UCHAR_MAX
      invariant Begun(p, now) && |now| == next && now + AnyInstrs(left) == done + AnyInstrs(n)
    {
      assert AnyInstrs(left) == [SetAux(IAny, 0, UCHAR_MAX)] + AnyInstrs(left - UCHAR_MAX);
      assert |AnyInstrs(left - UCHAR_MAX)| > 0;
      SetInst(p, next, SetAux(IAny, 0, UCHAR_MAX), now);
      now := now + [SetAux(IAny, 0, UCHAR_MAX)];
      left, next := left - UCHAR_MAX, next + 1;
    }
    SetInst(p, next, SetAux(IAny, 0, left), now);
    next := next + 1;
  }

  lemma {:induction false} AnyLength(n: Pos)
    ensures |AnyInstrs(n)| == (n - 1) / UCHAR_MAX + 1
    decreases n
  {
    if n > UCHAR_MAX { AnyLength(n - UCHAR_MAX); }
  }

  method AnyPatt(n: Pos) returns (p: array<Instr>)
    ensures fresh(p) && Holds(p, AnyInstrs(n))
  {
    AnyLength(n);
    p := NewPatt((n - 1) / UCHAR_MAX + 1);
    var _ := FillAny(p, 0, n, []);
    assert [] + AnyInstrs(n) == AnyInstrs(n);
    Finished(p, AnyInstrs(n));
  }

  // A number: that many bytes, or fewer than that many when it is negative.
  method NumberPatt(n: int) returns (p: array<Instr>)
    ensures fresh(p) && Holds(p, if n >= 0 then AnyCode(n) else NotAnyCode(-n))
  {
    if n == 0 {
      p := NewPatt(0);
      Finished(p, []);
    } else if n > 0 {
      p := AnyPatt(n);
    } else if -n <= UCHAR_MAX {
      p := NewPatt(2);
      SetInst(p, 0, SetAux(ITestAny, 2, -n), []);
      SetInst(p, 1, Set(IFail, 0), [SetAux(ITestAny, 2, -n)]);
      Finished(p, NotAnyCode(-n));
    } else {
      p := FewerThan(-n);
    }
  }

  lemma FilledIn(t: Code, t': Code, hole: Instr, a: Instr, b: Instr, rest: Code)
    requires t == [hole, hole] + rest && |t'| == |t| && t'[0] == a && t'[1] == b
    requires forall k :: 2 <= k < |t| ==> t'[k] == t[k]
    ensures t' == [a, b] + rest
  {
  }

  method FewerThan(n: Pos) returns (p: array<Instr>)
    requires n > UCHAR_MAX
    ensures fresh(p) && Holds(p, NotAnyCode(n))
  {
    hide AnyInstrs;
    ghost var rest := AnyInstrs(n - UCHAR_MAX);
    AnyLength(n - UCHAR_MAX);
    p := NewPatt((n - UCHAR_MAX - 1) / UCHAR_MAX + 1 + 3);
    var hole := Set(IFail, 0);
    SetInst(p, 0, hole, []);
    SetInst(p, 1, hole, [hole]);
    var offset := FillAny(p, 2, n - UCHAR_MAX, [hole, hole]);
    ghost var t := p[..offset];
    p[0] := SetAux(ITestAny, offset + 1, UCHAR_MAX);
    p[1] := SetAux(IChoice, offset, UCHAR_MAX);
    ghost var now := [SetAux(ITestAny, offset + 1, UCHAR_MAX), SetAux(IChoice, offset, UCHAR_MAX)] + rest;
    FilledIn(t, p[..offset], hole, now[0], now[1], rest);
    SetInst(p, offset, Set(IFailTwice, 0), now);
    Finished(p, NotAnyCode(n));
  }

  method StringPatt(bytes: seq<Byte>) returns (p: array<Instr>)
    ensures fresh(p) && Holds(p, LitCode(bytes))
  {
    p := NewPatt(|bytes|);
    var i := 0;
    while i < |bytes|
      invariant 0 <= i <= |bytes| && Begun(p, LitCode(bytes)[..i])
    {
      SetInst(p, i, SetAux(IChar, 0, bytes[i]), LitCode(bytes)[..i]);
      i := i + 1;
      assert LitCode(bytes)[..i] == LitCode(bytes)[..i - 1] + [SetAux(IChar, 0, bytes[i - 1])];
    }
    Finished(p, LitCode(bytes));
  }

  method BooleanPatt(truth: bool) returns (p: array<Instr>)
    ensures fresh(p) && Holds(p, if truth then [] else [Set(IFail, 0)])
  {
    if truth {
      p := NewPatt(0);
      Finished(p, []);
    } else {
      p := SinglePatt(Set(IFail, 0));
    }
  }

  method SinglePatt(i: Instr) returns (p: array<Instr>)
    ensures fresh(p) && Holds(p, [i])
  {
    p := NewPatt(1);
    SetInst(p, 0, i, []);
    Finished(p, [i]);
  }

  method SetPatt(bytes: seq<Byte>) returns (p: array<Instr>)
    ensures fresh(p) && Holds(p, CharsCode(bytes))
  {
    if |bytes| == 1 {
      p := StringPatt(bytes);
    } else {
      var cs: Charset := {};
      var i := 0;
      while i < |bytes|
        invariant 0 <= i <= |bytes| && cs == CharsSet(bytes[..i])
      {
        cs := cs + {bytes[i]};
        i := i + 1;
        assert bytes[..i] == bytes[..i - 1] + [bytes[i - 1]];
      }
      assert bytes[..i] == bytes;
      p := SinglePatt(SetInstr(cs));
    }
  }

  method RangePatt(pairs: seq<(Byte, Byte)>) returns (p: array<Instr>)
    ensures fresh(p) && Holds(p, [SetInstr(RangesSet(pairs))])
  {
    var cs: Charset := {};
    var arg := 0;
    while arg < |pairs|
      invariant 0 <= arg <= |pairs| && cs + RangesSet(pairs[arg..]) == RangesSet(pairs)
    {
      var lo: int, hi: int := pairs[arg].0, pairs[arg].1;
      ghost var before := cs;
      var c: int := lo;
      while c <= hi
        invariant lo <= c <= 256 && (c <= hi + 1 || c == lo)
        invariant cs == before + (set b | b in FULL_SET && lo <= b < c)
        decreases 256 - c
      {
        cs := cs + {c};
        c := c + 1;
      }
      assert (set b | b in FULL_SET && lo <= b < c) == (set b | b in FULL_SET && lo <= b <= hi);
      assert pairs[arg..][0] == pairs[arg] && pairs[arg..][1..] == pairs[arg + 1..];
      arg := arg + 1;
    }
    assert RangesSet(pairs[arg..]) == {};
    p := SinglePatt(SetInstr(cs));
  }

  method EmptyCaptures(entries: seq<(CapKind, int)>) returns (p: array<Instr>)
    ensures fresh(p) && Holds(p, EmptiesCode(entries))
  {
    p := NewPatt(|entries|);
    var i := 0;
    while i < |entries|
      invariant 0 <= i <= |entries| && Begun(p, EmptiesCode(entries)[..i])
    {
      SetInst(p, i, SetCap(IEmptyCapture, entries[i].1, entries[i].0, 0), EmptiesCode(entries)[..i]);
      i := i + 1;
      assert EmptiesCode(entries)[..i] == EmptiesCode(entries)[..i - 1] + [EmptiesCode(entries)[i - 1]];
    }
    Finished(p, EmptiesCode(entries));
  }

  // ----- sequences and predicates -------------------------------------------------

  // What the first instruction from `at` on says about the bytes a pattern starts with.
  method TagAt(p: array<Instr>, at: nat, ghost c: Code) returns (t: CharsetTag)
    requires at + |c| + 1 == p.Length && p[at..] == c + [END] && NoEnd(c)
    ensures t == ToCharset(c)
  {
    assert forall k :: 0 <= k <= |c| ==> p[at + k] == p[at..][k];
    if IsCheck(p[at]) {
      if p[at + 1].op.IEnd? && StepLen(p[at]) == 1 {
        t := IsCharset(FillCharset(p[at]));
      } else {
        t := ValidStarts(FillCharset(p[at]));
      }
    } else {
      t := NoInfo;
    }
  }

  method ConcatL(p1: array<Instr>, p2: array<Instr>, ghost c1: Code, ghost c2: Code) returns (p: array<Instr>)
    requires Holds(p1, c1) && Holds(p2, c2) && NoEnd(c1) && NoEnd(c2)
    ensures fresh(p) && Holds(p, ConcatCode(c1, c2))
  {
    hide OptimizeCaptures;
    var l1, l2 := p1.Length - 1, p2.Length - 1;
    assert l1 == |c1| && l2 == |c2|;
    if p1[0].op.IAny? && p1[1].op.IEnd? && p2[0].op.IAny? && p2[1].op.IEnd? && p1[0].aux + p2[0].aux > 0 {
      p := AnyPatt(p1[0].aux + p2[0].aux);
    } else {
      assert !(IsAnyCode(c1) && IsAnyCode(c2) && c1[0].aux + c2[0].aux > 0);
      p := NewPatt(l1 + l2);
      var next := AddPatt(p, 0, p1, [], c1);
      next := AddPatt(p, next, p2, [] + c1, c2);
      assert [] + c1 + c2 == c1 + c2;
      Finished(p, c1 + c2);
      OptimizeCapturesInPlace(p, c1 + c2);
    }
  }

  method DiffL(p1: array<Instr>, p2: array<Instr>, ghost c1: Code, ghost c2: Code) returns (p: array<Instr>)
    requires Holds(p1, c1) && Holds(p2, c2) && NoEnd(c1) && NoEnd(c2)
    ensures fresh(p) && Holds(p, DiffCode(c1, c2))
  {
    var l1, l2 := p1.Length - 1, p2.Length - 1;
    assert l1 == |c1| && l2 == |c2| && p1[0..] == p1[..] && p2[0..] == p2[..];
    hide Holds, IsHeadFail, ToCharset;
    var st1 := TagAt(p1, 0, c1);
    var st2 := TagAt(p2, 0, c2);
    if st1.IsCharset? && st2.IsCharset? {
      p := SinglePatt(SetInstr(st1.cs - st2.cs));
    } else {
      var headfail := HeadFails(p2, 0, c2);
      if headfail {
        HeadFailNonEmpty(c2);
        p := NotHeadPatt(p1, p2, c1, c2);
      } else {
        p := NotThenPatt(p1, p2, c1, c2);
        OptimizeWhole(p, NotThen(c2, c1));
      }
    }
  }

  method NotHeadPatt(p1: array<Instr>, p2: array<Instr>, ghost c1: Code, ghost c2: Code) returns (p: array<Instr>)
    requires Holds(p1, c1) && Holds(p2, c2) && c2 != [] && IsCheck(c2[0])
    ensures fresh(p) && Holds(p, TestHead(c2, |c2| + 1) + [Set(IFail, 0)] + c1)
  {
    var l1, l2 := p1.Length - 1, p2.Length - 1;
    assert l1 == |c1| && l2 == |c2|;
    ghost var now := TestHead(c2, l2 + 1);
    hide TestHead;
    assert [] + c2 == c2 && |now| == l2 && [] + now == now;
    p := NewPatt(l2 + 1 + l1);
    var next := AddPatt(p, 0, p2, [], c2);
    TestFront(p, 0, l2 + 1, [], c2);
    SetInst(p, next, Set(IFail, 0), now);
    next := AddPatt(p, next + 1, p1, now + [Set(IFail, 0)], c1);
    Finished(p, now + [Set(IFail, 0)] + c1);
  }

  method NotThenPatt(p1: array<Instr>, p2: array<Instr>, ghost c1: Code, ghost c2: Code) returns (p: array<Instr>)
    requires Holds(p1, c1) && Holds(p2, c2)
    ensures fresh(p) && Holds(p, NotThen(c2, c1))
  {
    var l1, l2 := p1.Length - 1, p2.Length - 1;
    assert l1 == |c1| && l2 == |c2|;
    p := NewPatt(1 + l2 + 1 + l1);
    ghost var now := [Set(IChoice, 1 + l2 + 1)];
    SetInst(p, 0, Set(IChoice, 1 + l2 + 1), []);
    assert [] + now == now;
    var next := AddPatt(p, 1, p2, now, c2);
    SetInst(p, next, Set(IFailTwice, 0), now + c2);
    next := AddPatt(p, next + 1, p1, now + c2 + [Set(IFailTwice, 0)], c1);
    Finished(p, NotThen(c2, c1));
  }

  lemma HeadFailNonEmpty(c: Code)
    requires IsHeadFail(c)
    ensures c != [] && IsCheck(c[0])
  {
  }

  // Turns the first of the instructions `c` just copied into a test.
  method TestFront(p: array<Instr>, at: nat, off: int, ghost done: Code, ghost c: Code)
    requires Begun(p, done + c) && |done| == at && c != [] && IsCheck(c[0])
    modifies p
    ensures Begun(p, done + TestHead(c, off))
  {
    assert p[at] == (done + c)[at] == c[0];
    p[at] := Check2Test(p[at], off);
    assert p[..at + |c|] == (done + c)[at := p[at]] == done + TestHead(c, off);
  }

  method OptimizeWhole(p: array<Instr>, ghost c: Code)
    requires Holds(p, c) && c != [] && c[0].op.IChoice?
    modifies p
    ensures Holds(p, OptimizeChoice(c))
  {
    assert [] + c + [END] == c + [END];
    OptimizeChoiceInPlace(p, 0, [], c);
    assert [] + OptimizeChoice(c) + [END] == OptimizeChoice(c) + [END];
  }

  method UnmL(p1: array<Instr>, ghost c1: Code) returns (p: array<Instr>)
    requires Holds(p1, c1) && NoEnd(c1)
    ensures fresh(p) && Holds(p, DiffCode([], c1))
  {
    var empty := StringPatt([]);
    assert LitCode([]) == [];
    p := DiffL(empty, p1, [], c1);
  }

  method PattAndL(p1: array<Instr>, ghost c: Code) returns (p: array<Instr>)
    requires Holds(p1, c)
    ensures fresh(p) && Holds(p, AndCode(c))
  {
    var l1 := p1.Length - 1;
    assert l1 == |c|;
    p := NewPatt(1 + l1 + 2);
    ghost var now := [Set(IChoice, 1 + l1 + 1)];
    SetInst(p, 0, Set(IChoice, 1 + l1 + 1), []);
    assert [] + now == now;
    var next := AddPatt(p, 1, p1, now, c);
    SetInst(p, next, Set(IBackCommit, 2), now + c);
    SetInst(p, next + 1, SetAux(IFail, 0, 1), now + c + [Set(IBackCommit, 2)]);
    assert AndCode(c) == now + c + [Set(IBackCommit, 2)] + [SetAux(IFail, 0, 1)];
    Finished(p, AndCode(c));
  }

  // ----- repetition -----------------------------------------------------------------

  method RepeatCharset(p1: array<Instr>, cs: Charset, n: nat, ghost c: Code) returns (p: array<Instr>)
    requires Holds(p1, c)
    ensures fresh(p) && Holds(p, Copies(c, n) + [SpanInstr(cs)])
  {
    var l1 := p1.Length - 1;
    assert l1 == |c|;
    MulMono(0, n, l1);
    p := NewPatt(n * l1 + 1);
    var next := AddCopies(p, 0, p1, n, c);
    SetInst(p, next, SpanInstr(cs), Copies(c, n));
    Finished(p, Copies(c, n) + [SpanInstr(cs)]);
  }

  method RepeatHeadFail(p1: array<Instr>, n: nat, ghost c: Code) returns (p: array<Instr>)
    requires Holds(p1, c) && IsHeadFail(c)
    ensures fresh(p) && Holds(p, Copies(c, n) + HeadFailLoop(c))
  {
    hide IsHeadFail;
    var l1 := p1.Length - 1;
    assert l1 == |c|;
    MulMono(0, n, l1);
    assert (n + 1) * l1 == n * l1 + l1;
    HeadFailNonEmpty(c);
    p := NewPatt((n + 1) * l1 + 1);
    var next := AddCopies(p, 0, p1, n, c);
    var again := AddPatt(p, next, p1, Copies(c, n), c);
    TestFront(p, next, l1 + 1, Copies(c, n), c);
    SetInst(p, again, Set(IJmp, -l1), Copies(c, n) + TestHead(c, l1 + 1));
    assert Copies(c, n) + TestHead(c, l1 + 1) + [Set(IJmp, -l1)] == Copies(c, n) + HeadFailLoop(c);
    Finished(p, Copies(c, n) + HeadFailLoop(c));
  }

  method Repeats(p1: array<Instr>, n: nat, ghost c: Code) returns (p: array<Instr>)
    requires Holds(p1, c)
    ensures fresh(p) && Holds(p, Copies(c, n) + ChoiceLoop(c))
  {
    var l1 := p1.Length - 1;
    assert l1 == |c|;
    MulMono(0, n, l1);
    assert (n + 1) * l1 == n * l1 + l1;
    p := NewPatt((n + 1) * l1 + 2);
    var next := AddCopies(p, 0, p1, n, c);
    ghost var now := Copies(c, n) + [Set(IChoice, 1 + l1 + 1)];
    SetInst(p, next, Set(IChoice, 1 + l1 + 1), Copies(c, n));
    next := AddPatt(p, next + 1, p1, now, c);
    SetInst(p, next, Set(IPartialCommit, -l1), now + c);
    assert now + c + [Set(IPartialCommit, -l1)] == Copies(c, n) + ChoiceLoop(c);
    Finished(p, Copies(c, n) + ChoiceLoop(c));
  }

  method OptionalHeadFail(p1: array<Instr>, n: Pos, ghost c: Code) returns (p: array<Instr>)
    requires Holds(p1, c) && c != [] && IsCheck(c[0])
    ensures fresh(p) && Holds(p, HeadFailOptionals(c, n))
  {
    hide HeadFailOptionals, TestHead;
    var l1 := p1.Length - 1;
    assert l1 == |c|;
    MulMono(0, n, l1);
    p := NewPatt(n * l1);
    var next, i := 0, 0;
    ghost var now: Code := [];
    assert [] + HeadFailOptionals(c, n) == HeadFailOptionals(c, n);
    while i < n
      invariant 0 <= i <= n && Begun(p, now) && |now| == next == i * l1
      invariant now + HeadFailOptionals(c, n - i) == HeadFailOptionals(c, n)
    {
      OptionalsFront(c, n, i, now);
      MulMono(i + 1, n, l1);
      var at := next;
      next := AddPatt(p, at, p1, now, c);
      TestFront(p, at, (n - i) * l1, now, c);
      now := now + TestHead(c, (n - i) * l1);
      i := i + 1;
    }
    OptionalsEmpty(c, now);
    Finished(p, now);
  }

  lemma OptionalsEmpty(c: Code, now: Code)
    requires c != []
    ensures now + HeadFailOptionals(c, 0) == now
  {
  }

  lemma OptionalsFront(c: Code, n: nat, i: nat, now: Code)
    requires i < n && c != []
    ensures var t := TestHead(c, (n - i) * |c|);
            && now + HeadFailOptionals(c, n - i) == now + t + HeadFailOptionals(c, n - i - 1)
            && |now + t| == |now| + |c| && (i + 1) * |c| == i * |c| + |c|
  {
    OneOptional(c, n - i);
    OneMoreTimes(i, |c|);
    assert |TestHead(c, (n - i) * |c|)| == |c|;
  }

  lemma OneOptional(c: Code, n: nat)
    requires n > 0 && c != []
    ensures HeadFailOptionals(c, n) == TestHead(c, n * |c|) + HeadFailOptionals(c, n - 1)
  {
  }

  lemma OneMoreTimes(i: nat, m: nat)
    ensures (i + 1) * m == i * m + m
  {
  }

  lemma {:induction false} OptionalBodiesFrom(c: Code, n: Pos)
    ensures OptionalBodies(c, n) == Copies(c + [Set(IPartialCommit, 1)], n - 1) + c + [Set(ICommit, 1)]
  {
    var x := c + [Set(IPartialCommit, 1)];
    if n == 1 {
      assert Copies(x, 0) + c == c;
    } else {
      OptionalBodiesFrom(c, n - 1);
      assert x + (Copies(x, n - 2) + c + [Set(ICommit, 1)]) == (x + Copies(x, n - 2)) + c + [Set(ICommit, 1)];
    }
  }

  // The last partial commit becomes a commit.
  lemma LastCommit(t: Code, t': Code, head: Code, c: Code, n: Pos)
    requires t == head + Copies(c + [Set(IPartialCommit, 1)], n) + [END] && 2 <= |t| == |t'|
    requires t'[|t| - 2] == Set(ICommit, 1) && forall k :: 0 <= k < |t| && k != |t| - 2 ==> t'[k] == t[k]
    ensures t' == head + OptionalBodies(c, n) + [END]
  {
    hide Copies, OptionalBodies;
    var x := c + [Set(IPartialCommit, 1)];
    CopiesMore(x, n - 1);
    OptionalBodiesFrom(c, n);
    var front := head + Copies(x, n - 1) + c;
    assert t == front + [Set(IPartialCommit, 1), END];
    assert head + OptionalBodies(c, n) + [END] == front + [Set(ICommit, 1), END];
  }

  lemma CopiesNone(c: Code)
    ensures Copies(c, 0) == []
  {
  }

  lemma CopiesRoom(c: Code, i: nat, n: nat)
    requires i < n
    ensures Copies(c, i + 1) == Copies(c, i) + c && |Copies(c, i)| + |c| <= |Copies(c, n)|
  {
    CopiesMore(c, i);
    CopiesMore(c, i + 1);
    CopiesMore(c, n);
    MulMono(i + 1, n, |c|);
  }

  method Optionals(p1: array<Instr>, n: Pos, ghost c: Code) returns (p: array<Instr>)
    requires Holds(p1, c)
    ensures fresh(p) && Holds(p, OptimizeChoice([Set(IChoice, 1 + n * (|c| + 1))] + OptionalBodies(c, n)))
  {
    hide Copies, OptionalBodies, OptimizeChoice;
    var l1 := p1.Length - 1;
    ghost var head, x := [Set(IChoice, 1 + n * (l1 + 1))], c + [Set(IPartialCommit, 1)];
    var size := n * (l1 + 1);
    CopiesMore(x, n);
    MulMono(0, n, l1 + 1);
    p := NewPatt(size + 1);
    SetInst(p, 0, Set(IChoice, 1 + size), []);
    CopiesNone(x);
    assert [] + head == head == head + Copies(x, 0);
    var next, i := 1, 0;
    while i < n
      invariant 0 <= i <= n && Begun(p, head + Copies(x, i)) && next == |head + Copies(x, i)|
                && p.Length == 2 + |Copies(x, n)|
    {
      CopiesRoom(x, i, n);
      next := AddPatt(p, next, p1, head + Copies(x, i), c);
      SetInst(p, next, Set(IPartialCommit, 1), head + Copies(x, i) + c);
      assert head + Copies(x, i) + c + [Set(IPartialCommit, 1)] == head + Copies(x, i + 1);
      next, i := next + 1, i + 1;
    }
    Finished(p, head + Copies(x, n));
    ghost var t := p[..];
    p[next - 1] := Set(ICommit, 1);  // corrects the last commit
    LastCommit(t, p[..], head, c, n);
    OptimizeWhole(p, head + OptionalBodies(c, n));
  }

  // `p1` repeated: at least `n` times, or at most `-n` times when `n` is negative.
  // The body is a compiled pattern.
  method StarL(p1: array<Instr>, n: int, ghost c: Code, ghost pat: Pat, ghost d: nat) returns (r: Outcome<array<Instr>>)
    requires Holds(p1, c) && Solid(c, d) && Implements(c, pat)
    ensures r.Ok? ==> fresh(r.value)
    ensures n < 0 ==> r.Ok? && Holds(r.value, OptCode(c, -n))
    ensures n >= 0 ==> (r.Ok? <==> RepCode(c, n).Ok?)
    ensures n >= 0 && r.Ok? ==> Holds(r.value, RepCode(c, n).value)
    ensures n >= 0 && r.Err? ==> RepCode(c, n) == Err(r.error)
    ensures n >= 0 ==> (r.Err? <==> Overflows(c) || MayBeEmpty(pat))
    ensures n >= 0 && r.Err? ==> r.error == if Overflows(c) then TooManyPending else EmptyLoopBody
  {
    if n >= 0 { RepFails(c, n, pat); }
    hide IsHeadFail, ToCharset, Solid, Implements, Overflows, Accepts, OptimizeChoice, OptionalBodies;
    assert p1[0..] == p1[..];
    SolidNoEnd(c, d);
    var headfail := HeadFails(p1, 0, c);
    if headfail { HeadFailNonEmpty(c); }
    if n >= 0 {
      var st := TagAt(p1, 0, c);
      if st.IsCharset? {
        var p := RepeatCharset(p1, st.cs, n, c);
        r := Ok(p);
      } else if headfail {
        var p := RepeatHeadFail(p1, n, c);
        HeadFailRepSolid(c, pat, n, d);
        Tidy(p, Copies(c, n) + HeadFailLoop(c), Rep(pat, n), d);
        r := Ok(p);
      } else {
        SolidWF(c, d);
        var verdict := Verify(p1, c, pat);
        match verdict
        case TooDeep => r := Err(TooManyPending);
        case AcceptsEmpty => r := Err(EmptyLoopBody);
        case NeverEmpty =>
          var p := Repeats(p1, n, c);
          ChoiceRepSolid(c, pat, n, d);
          Tidy(p, Copies(c, n) + ChoiceLoop(c), Rep(pat, n), d + 1);
          r := Ok(p);
      }
    } else if headfail {
      var p := OptionalHeadFail(p1, -n, c);
      r := Ok(p);
    } else {
      var p := Optionals(p1, -n, c);
      r := Ok(p);
    }
  }

  // The two passes over a finished loop.
  method Tidy(p: array<Instr>, ghost c: Code, ghost pat: Pat, ghost d: nat)
    requires Holds(p, c) && Solid(c, d) && Implements(c, pat)
    modifies p
    ensures Holds(p, OptimizeJumps(OptimizeCaptures(c)))
  {
    SolidNoEnd(c, d);
    OptimizeCapturesKeeps(c, pat, d);
    hide Solid, Implements, OptimizeCaptures, OptimizeJumps;
    OptimizeCapturesInPlace(p, c);
    OptimizeJumpsInPlace(p, OptimizeCaptures(c));
  }

  lemma SolidWF(c: Code, d: nat)
    requires Solid(c, d)
    ensures WF(c)
  {
  }

  lemma SolidNoEnd(c: Code, d: nat)
    requires Solid(c, d)
    ensures NoEnd(c)
  {
    forall j | 0 <= j < |c| ensures !c[j].op.IEnd? { assert WFAt(c, j); }
  }

  lemma HeadFailRepSolid(c: Code, pat: Pat, n: nat, d: nat)
    requires Solid(c, d) && Implements(c, pat) && IsHeadFail(c)
    ensures Solid(Copies(c, n) + HeadFailLoop(c), d) && Implements(Copies(c, n) + HeadFailLoop(c), Rep(pat, n))
  {
    HeadFailLoopImplements(c, pat);
    HeadFailLoopSolid(c, d);
    CopiesImplements(c, pat, n, HeadFailLoop(c));
    CopiesSolid(c, n, HeadFailLoop(c), d);
  }

  lemma ChoiceRepSolid(c: Code, pat: Pat, n: nat, d: nat)
    requires Solid(c, d) && Implements(c, pat) && Accepts(c)
    ensures Solid(Copies(c, n) + ChoiceLoop(c), d + 1) && Implements(Copies(c, n) + ChoiceLoop(c), Rep(pat, n))
  {
    AcceptedAdvances(c, pat);
    AcceptsSomething(c);
    SolidMore(c, d, d + 1);
    ChoiceLoopImplements(c, pat);
    ChoiceLoopSolid(c, d + 1);
    CopiesImplements(c, pat, n, ChoiceLoop(c));
    CopiesSolid(c, n, ChoiceLoop(c), d + 1);
  }

  // ----- captures --------------------------------------------------------------------

  method CaptureAux(p1: array<Instr>, kind: CapKind, idx: int, ghost c: Code) returns (p: array<Instr>)
    requires Holds(p1, c) && NoEnd(c)
    ensures fresh(p) && Holds(p, CaptCode(kind, idx, c))
  {
    hide SkipChecks;
    var l1 := p1.Length - 1;
    assert l1 == |c|;
    var lc, n := CountChecks(p1, 0, 0, c);
    if lc == l1 {
      p := NewPatt(l1 + 1);
      var next := AddPatt(p, 0, p1, [], c);
      assert [] + c == c;
      SetInst(p, next, SetCap(IFullCapture, idx, kind, n), c);
      Finished(p, c + [SetCap(IFullCapture, idx, kind, n)]);
    } else {
      p := NewPatt(1 + l1 + 1);
      ghost var now := [SetCap(IOpenCapture, idx, kind, 0)];
      SetInst(p, 0, SetCap(IOpenCapture, idx, kind, 0), []);
      assert [] + now == now;
      var next := AddPatt(p, 1, p1, now, c);
      SetInst(p, next, SetCap(ICloseCapture, 0, CCLOSE, 0), now + c);
      Finished(p, now + c + [SetCap(ICloseCapture, 0, CCLOSE, 0)]);
      OptimizeCapturesInPlace(p, now + c + [SetCap(ICloseCapture, 0, CCLOSE, 0)]);
    }
  }
}

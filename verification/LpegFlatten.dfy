// Ordered choice on instruction arrays: the alternatives of the first operand are
// copied one by one in front of a union with the second.

module LpegFlatten {
  import opened LpegCode
  import opened LpegPeg
  import opened LpegBuild
  import opened LpegMeaning
  import opened LpegRotate
  import opened LpegUnion
  import opened LpegSeparate
  import opened LpegEmit

  // From `at` to the end the array holds `c` and the final IEnd.
  ghost predicate HoldsFrom(p: array<Instr>, at: nat, c: Code)
    reads p
  {
    at + |c| + 1 == p.Length && p[at..] == c + [END]
  }

  lemma ReadsFrom(p: array<Instr>, at: nat, c: Code)
    requires HoldsFrom(p, at, c)
    ensures forall k :: 0 <= k < |c| ==> p[at + k] == c[k]
    ensures p[at + |c|] == END
  {
    assert forall k :: 0 <= k <= |c| ==> p[at + k] == p[at..][k];
  }

  // Length of the first alternative of the `l` instructions from `at` on, or 0.
  method FirstPartAt(p: array<Instr>, at: nat, l: nat, ghost c: Code) returns (sp: nat)
    requires HoldsFrom(p, at, c) && l == |c| && WF(c)
    ensures sp == FirstPart(c)
  {
    ReadsFrom(p, at, c);
    if c != [] { assert WFAt(c, 0); }
    if IsTest(p[at]) {
      var e := p[at].offset - 1;
      if (p[at + e].op.IJmp? || p[at + e].op.ICommit?) && e + p[at + e].offset == l { return e + 1; }
    } else if p[at].op.IChoice? {
      var e := p[at].offset - 1;
      if p[at + e].op.ICommit? && e + p[at + e].offset == l { return e + 1; }
    }
    return 0;
  }

  method NoFailAt(p: array<Instr>, at: nat, l: nat, ghost first: Code) returns (r: bool)
    requires at + l <= p.Length && p[at..at + l] == first
    ensures r == NoFail(first)
  {
    assert forall k :: 0 <= k < l ==> p[at + k] == first[k];
    var i := 0;
    while i < l
      invariant 0 <= i <= l && forall k :: 0 <= k < i ==> IsNoFail(first[k])
    {
      if !IsNoFail(p[at + i]) { return false; }
      i := i + 1;
    }
    r := true;
  }

  // `asserted` is whether the assertion holds, if it is reached.
  method InterfereAt(p: array<Instr>, at: nat, l: nat, st2: CharsetTag, ghost first: Code)
    returns (r: bool, asserted: bool)
    requires at + l <= p.Length && p[at..at + l] == first && first != []
    ensures r == Interfere(first, st2) && asserted == AssertedAt(first, st2)
  {
    assert p[at] == first[0];
    asserted := true;
    var nofail := NoFailAt(p, at, l, first);
    if nofail { return false, true; }
    if st2.NoInfo? { return true, true; }
    match p[at].op {
      case ITestChar => r := p[at].aux in st2.cs;
      case ITestSet => r := !(st2.cs !! p[at].cs);
      case _ =>
        asserted := p[at].op.ITestAny?;
        r := true;
    }
  }

  // ----- the last alternative -----------------------------------------------------

  lemma FinishedFrom(p: array<Instr>, at: nat, done: Code, c: Code)
    requires Begun(p, done + c) && |done| == at && p.Length == at + |c| + 1
    ensures HoldsFrom(p, at, c)
  {
    assert p[at..] == p[..at + |c|][at..] + [p[at + |c|]];
  }

  method TestUnionAt(p1: array<Instr>, at: nat, p2: array<Instr>, size: nat, ghost c1: Code, ghost c2: Code)
    returns (op: array<Instr>, size': nat)
    requires HoldsFrom(p1, at, c1) && Holds(p2, c2) && c1 != [] && IsCheck(c1[0])
    ensures fresh(op) && size' == size + |TestUnion(c1, c2)| && HoldsFrom(op, size, TestUnion(c1, c2))
  {
    var l1, l2 := p1.Length - 1 - at, p2.Length - 1;
    assert l1 == |c1| && l2 == |c2| && p1[at..at + l1] == p1[at..][..l1] == c1;
    op, size' := AuxNew(size, l1 + 1 + l2);
    ghost var done, now := op[..size], TestHead(c1, l1 + 1);
    assert |now| == l1;
    CopyPatt(op, size, p1, at, l1, done);
    TestFront(op, size, l1 + 1, done, c1);
    hide TestHead;
    SetInst(op, size + l1, Set(IJmp, l2 + 1), done + now);
    var next := AddPatt(op, size + l1 + 1, p2, done + now + [Set(IJmp, l2 + 1)], c2);
    assert done + now + [Set(IJmp, l2 + 1)] + c2 == done + TestUnion(c1, c2);
    FinishedFrom(op, size, done, TestUnion(c1, c2));
  }

  // Room for `extra` instructions behind the `size` already planned.
  method AuxNew(size: nat, extra: nat) returns (op: array<Instr>, size': nat)
    ensures fresh(op) && size' == size + extra && op.Length == size' + 1 && Begun(op, op[..size])
  {
    size' := size + extra;
    op := NewPatt(size');
  }

  method ChoiceUnionAt(p1: array<Instr>, at: nat, p2: array<Instr>, size: nat, ghost c1: Code, ghost c2: Code)
    returns (op: array<Instr>, size': nat)
    requires HoldsFrom(p1, at, c1) && Holds(p2, c2)
    ensures fresh(op) && size' == size + |OptimizeChoice(ChoiceUnion(c1, c2))|
    ensures HoldsFrom(op, size, OptimizeChoice(ChoiceUnion(c1, c2)))
  {
    hide OptimizeChoice;
    op, size' := PlainChoiceAt(p1, at, p2, size, c1, c2);
    assert op[..] == op[..size] + op[size..] == op[..size] + ChoiceUnion(c1, c2) + [END];
    OptimizeChoiceInPlace(op, size, op[..size], ChoiceUnion(c1, c2));
    ghost var c := OptimizeChoice(ChoiceUnion(c1, c2));
    assert op[..] == op[..size] + c + [END];
    assert op[size..] == c + [END];
  }

  // The choice before it is optimised.
  method PlainChoiceAt(p1: array<Instr>, at: nat, p2: array<Instr>, size: nat, ghost c1: Code, ghost c2: Code)
    returns (op: array<Instr>, size': nat)
    requires HoldsFrom(p1, at, c1) && Holds(p2, c2)
    ensures fresh(op) && size' == size + |ChoiceUnion(c1, c2)| && HoldsFrom(op, size, ChoiceUnion(c1, c2))
  {
    var l1, l2 := p1.Length - 1 - at, p2.Length - 1;
    assert l1 == |c1| && l2 == |c2| && p1[at..at + l1] == p1[at..][..l1] == c1;
    op, size' := AuxNew(size, 1 + l1 + 1 + l2);
    ghost var done, now := op[..size], [Set(IChoice, 1 + l1 + 1)];
    SetInst(op, size, Set(IChoice, 1 + l1 + 1), done);
    CopyPatt(op, size + 1, p1, at, l1, done + now);
    SetInst(op, size + 1 + l1, Set(ICommit, 1 + l2), done + now + c1);
    var next := AddPatt(op, size + 1 + l1 + 1, p2, done + now + c1 + [Set(ICommit, 1 + l2)], c2);
    assert done + now + c1 + [Set(ICommit, 1 + l2)] + c2 == done + ChoiceUnion(c1, c2);
    FinishedFrom(op, size, done, ChoiceUnion(c1, c2));
  }

  method BasicUnionAt(p1: array<Instr>, at: nat, p2: array<Instr>, size: nat, st2: CharsetTag, ghost c1: Code,
                      ghost c2: Code)
    returns (op: array<Instr>, size': nat)
    requires HoldsFrom(p1, at, c1) && Holds(p2, c2) && NoEnd(c1) && st2 == ToCharset(c2)
    ensures fresh(op) && size' == size + |BasicUnion(c1, c2)| && HoldsFrom(op, size, BasicUnion(c1, c2))
  {
    var st1 := TagAt(p1, at, c1);
    var headfail := HeadFails(p1, at, c1);
    if headfail { HeadFailNonEmpty(c1); }
    if st1.IsCharset? && st2.IsCharset? {
      op, size' := AuxNew(size, 1);
      ghost var done := op[..size];
      SetInst(op, size, SetInstr(st1.cs + st2.cs), done);
      FinishedFrom(op, size, done, [SetInstr(st1.cs + st2.cs)]);
    } else if Exclusive(st1, st2) || headfail {
      op, size' := TestUnionAt(p1, at, p2, size, c1, c2);
    } else {
      op, size' := ChoiceUnionAt(p1, at, p2, size, c1, c2);
    }
  }

  // ----- the alternatives before it --------------------------------------------------

  // Copies into the middle of an array.
  method CopyInto(p: array<Instr>, at: nat, p1: array<Instr>, lo: nat, n: nat)
    requires p != p1 && at + n <= p.Length && lo + n <= p1.Length
    modifies p
    ensures p[at..at + n] == p1[lo..lo + n] && p[..at] == old(p[..at]) && p[at + n..] == old(p[at + n..])
  {
    var k := 0;
    while k < n
      invariant 0 <= k <= n
      invariant forall j :: at <= j < at + k ==> p[j] == p1[lo + j - at]
      invariant forall j :: 0 <= j < at || at + k <= j < p.Length ==> p[j] == old(p[j])
    {
      p[at + k] := p1[lo + k];
      k := k + 1;
    }
  }

  // Puts the first alternative in front of the rest, its last jump redirected.
  method PutFirst(p: array<Instr>, init: nat, p1: array<Instr>, at: nat, sp: nat, ghost first: Code, ghost rest: Code)
    requires p != p1 && HoldsFrom(p, init + sp, rest) && at + sp <= p1.Length && p1[at..at + sp] == first && first != []
    modifies p
    ensures HoldsFrom(p, init, KeepFirst(first, rest))
  {
    CopyInto(p, init, p1, at, sp);
    ghost var back := p[init + sp..];
    var end := init + sp;
    assert p[end - 1] == p[init..init + sp][sp - 1] == first[sp - 1];
    p[end - 1] := p[end - 1].(offset := p.Length - 1 - (end - 1));
    assert p[init..end - 1] == first[..sp - 1];
    assert p[end..] == back;
    assert p[init..] == p[init..end - 1] + [p[end - 1]] + p[end..];
  }

  // The same with a real choice put back behind the test.
  method PutRestored(p: array<Instr>, init: nat, p1: array<Instr>, at: nat, sp: nat, ghost first: Code,
                     ghost rest: Code)
    requires p != p1 && HoldsFrom(p, init + sp + 1, rest) && at + sp <= p1.Length && p1[at..at + sp] == first && sp >= 2
    modifies p
    ensures HoldsFrom(p, init, RestoreChoice(first, rest))
  {
    var end := init + sp + 1;
    assert p1[at] == p1[at..at + sp][0] == first[0];
    p[init] := p1[at].(offset := p1[at].offset + 1);  // one more instruction to jump over
    p[init + 1] := SetAux(IChoice, sp, 1);
    ghost var front := p[init..init + 2];
    CopyInto(p, init + 2, p1, at + 1, sp - 2);
    p[end - 1] := Set(ICommit, p.Length - 1 - (end - 1));
    RestoredSlices(p[..], init, sp, first, rest, p1[at..at + sp]);
  }

  lemma RestoredSlices(s: Code, init: nat, sp: nat, first: Code, rest: Code, source: Code)
    requires sp >= 2 && |s| == init + sp + 1 + |rest| + 1 && source == first && |first| == sp
    requires s[init] == first[0].(offset := first[0].offset + 1) && s[init + 1] == SetAux(IChoice, sp, 1)
    requires s[init + 2..init + sp] == first[1..sp - 1]
    requires s[init + sp] == Set(ICommit, 1 + |rest|) && s[init + sp + 1..] == rest + [END]
    ensures s[init..] == RestoreChoice(first, rest) + [END]
  {
    assert s[init..] == [s[init], s[init + 1]] + s[init + 2..init + sp] + [s[init + sp]] + s[init + sp + 1..];
  }

  method SeparateParts(p1: array<Instr>, at: nat, l1: nat, p2: array<Instr>, size: nat, st2: CharsetTag,
                       ghost c1: Code, ghost c2: Code, ghost pat1: Pat, ghost d: int)
    returns (p: array<Instr>, size': nat, asserted: bool)
    requires HoldsFrom(p1, at, c1) && l1 == |c1| && Holds(p2, c2) && st2 == ToCharset(c2) && Good(c1, pat1, d)
    ensures asserted <==> AssertionHolds(c1, st2)
    ensures fresh(p) && size' == size + |Separate(c1, c2)| && HoldsFrom(p, size, Separate(c1, c2))
    decreases |c1|
  {
    hide Separate, Good, KeepFirst, RestoreChoice, Interfere, AssertedAt, AssertionHolds, FirstPart, BasicUnion, WF,
         Implements, ToCharset, SplitBy, NoFail;
    GoodBasics(c1, pat1, d);
    var sp := FirstPartAt(p1, at, l1, c1);
    if sp == 0 {
      SeparateWhole(c1, c2);
      WFNoEnd(c1);
      p, size' := BasicUnionAt(p1, at, p2, size, st2, c1, c2);
      asserted := true;
      return;
    }
    ghost var sl := GoodRest(c1, pat1, d);
    ghost var first, later := c1[..sp], c1[sp..];
    ReadsFrom(p1, at, c1);
    assert HoldsFrom(p1, at + sp, later) && p1[at..at + sp] == first;
    var interferes, holds := InterfereAt(p1, at, sp, st2, first);
    ghost var rest := Separate(later, c2);
    SeparateCases(c1, c2);
    AssertionCases(c1, st2);
    if p1[at + sp - 1].op.ICommit? || !interferes {
      p, size', asserted := SeparateParts(p1, at + sp, l1 - sp, p2, size + sp, st2, later, c2, sl.rest, d);
      PutFirst(p, size, p1, at, sp, first, rest);
    } else {
      InterferesFails(first, ToCharset(c2));
      RestoredLong(c1, pat1, d, sl);
      p, size', asserted := SeparateParts(p1, at + sp, l1 - sp, p2, size + sp + 1, st2, later, c2, sl.rest, d);
      PutRestored(p, size, p1, at, sp, first, rest);
    }
    asserted := asserted && (p1[at + sp - 1].op.ICommit? || holds);
  }

  lemma WFNoEnd(c: Code)
    requires WF(c)
    ensures NoEnd(c)
  {
    forall j | 0 <= j < |c| ensures !c[j].op.IEnd? { assert WFAt(c, j); }
  }

  lemma SeparateWhole(c1: Code, c2: Code)
    requires FirstPart(c1) == 0
    ensures Separate(c1, c2) == BasicUnion(c1, c2) && AssertionHolds(c1, ToCharset(c2))
  {
  }

  lemma InterferesFails(first: Code, st: CharsetTag)
    requires first != [] && Interfere(first, st)
    ensures !NoFail(first)
  {
  }

  lemma AssertionCases(c1: Code, t2: CharsetTag)
    requires FirstPart(c1) != 0
    ensures var sp := FirstPart(c1);
            && sp <= |c1|
            && (AssertionHolds(c1, t2) <==>
                (c1[sp - 1].op.ICommit? || AssertedAt(c1[..sp], t2)) && AssertionHolds(c1[sp..], t2))
  {
  }

  lemma SeparateCases(c1: Code, c2: Code)
    requires FirstPart(c1) != 0
    ensures var sp := FirstPart(c1);
            && sp <= |c1|
            && (c1[sp - 1].op.ICommit? || !Interfere(c1[..sp], ToCharset(c2)) ==>
                  && Separate(c1, c2) == KeepFirst(c1[..sp], Separate(c1[sp..], c2))
                  && |Separate(c1, c2)| == sp + |Separate(c1[sp..], c2)|)
            && (!c1[sp - 1].op.ICommit? && Interfere(c1[..sp], ToCharset(c2)) && sp >= 2 ==>
                  && Separate(c1, c2) == RestoreChoice(c1[..sp], Separate(c1[sp..], c2))
                  && |Separate(c1, c2)| == sp + 1 + |Separate(c1[sp..], c2)|)
  {
  }

  lemma RestoredLong(c: Code, pat: Pat, d: int, sl: Split)
    requires FirstPart(c) != 0 && SplitBy(c, pat, d, FirstPart(c), sl)
    requires !c[FirstPart(c) - 1].op.ICommit? && !NoFail(c[..FirstPart(c)])
    ensures FirstPart(c) >= 2
  {
  }

  method UnionL(p1: array<Instr>, p2: array<Instr>, ghost c1: Code, ghost c2: Code, ghost pat1: Pat, ghost d: int)
    returns (p: array<Instr>, asserted: bool)
    requires Holds(p1, c1) && Holds(p2, c2) && NoEnd(c2) && Good(c1, pat1, d)
    ensures Holds(p, UnionCode(c1, c2)) && (p == p1 || p == p2 || fresh(p))
    ensures asserted <==> UnionAsserts(c1, c2)
  {
    hide Good, Separate, ToCharset, AssertionHolds;
    asserted := true;
    if p1[0].op.IFail? {  // an operand that always fails adds nothing
      p := p2;
    } else if p2[0].op.IFail? {
      p := p1;
    } else {
      assert p2[0..] == p2[..] && p1[0..] == p1[..];
      var st2 := TagAt(p2, 0, c2);
      var size;
      p, size, asserted := SeparateParts(p1, 0, p1.Length - 1, p2, 0, st2, c1, c2, pat1, d);
      assert p[0..] == p[..];
    }
  }
}

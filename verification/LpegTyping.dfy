// Static bracketing of code: which choices and captures are open before each
// instruction.  The backtrack stack and the capture list follow it at run time.

module LpegTyping {
  import opened LpegCode

  // The brackets open at a point of the code, innermost first.
  datatype Ctx = Base | InChoice(below: Ctx) | InCapture(below: Ctx)

  function Choices(t: Ctx): nat {
    match t
    case Base => 0
    case InChoice(b) => 1 + Choices(b)
    case InCapture(b) => Choices(b)
  }

  // `t` inside the brackets `outer`.
  function Within(t: Ctx, outer: Ctx): Ctx {
    match t
    case Base => outer
    case InChoice(b) => InChoice(Within(b, outer))
    case InCapture(b) => InCapture(Within(b, outer))
  }

  lemma WithinBase(t: Ctx)
    ensures Within(t, Base) == t
  {
  }

  lemma ChoicesWithin(t: Ctx, outer: Ctx)
    ensures Choices(Within(t, outer)) == Choices(t) + Choices(outer)
  {
  }

  predicate TypedAt(c: Code, ty: seq<Ctx>, j: int)
    requires |ty| == |c| + 1 && 0 <= j < |c|
    requires IsJmp(c[j]) ==> 0 <= Dest(c, j) <= |c|
  {
    var i, t := c[j], ty[j];
    if IsTest(i) then ty[j + 1] == t && ty[Dest(c, j)] == t
    else match i.op
      case IJmp => ty[Dest(c, j)] == t
      case IChoice => ty[j + 1] == InChoice(t) && ty[Dest(c, j)] == t
      case ICommit => t.InChoice? && ty[Dest(c, j)] == t.below
      case IBackCommit => t.InChoice? && ty[Dest(c, j)] == t.below
      case IPartialCommit => t.InChoice? && ty[Dest(c, j)] == t && (i.offset <= 0 ==> ty[j + 1] == t.below)
      case IFailTwice => t.InChoice?
      case IFail => i.aux != 0 ==> ty[j + 1] == t
      case IOpenCapture => ty[j + 1] == InCapture(t)
      case ICloseCapture => t.InCapture? && ty[j + 1] == t.below
      case _ => ty[j + 1] == t
  }

  ghost predicate JumpsInside(c: Code) {
    forall j :: 0 <= j < |c| && IsJmp(c[j]) ==> 0 <= Dest(c, j) <= |c|
  }

  // `ty` brackets `c` with at most `d` choices open at once.
  ghost predicate TypedBy(c: Code, ty: seq<Ctx>, d: int) {
    && JumpsInside(c)
    && |ty| == |c| + 1
    && ty[0] == Base && ty[|c|] == Base
    && (forall i :: 0 <= i <= |c| ==> Choices(ty[i]) <= d)
    && (forall j :: 0 <= j < |c| ==> TypedAt(c, ty, j))
  }

  ghost predicate Typed(c: Code, d: int) {
    exists ty :: TypedBy(c, ty, d)
  }

  lemma WFJumpsInside(c: Code)
    requires WF(c)
    ensures JumpsInside(c)
  {
    forall j | 0 <= j < |c| && IsJmp(c[j]) ensures 0 <= Dest(c, j) <= |c| {
      assert WFAt(c, j);
    }
  }

  function Wrap(ty: seq<Ctx>, outer: Ctx): (r: seq<Ctx>)
    ensures |r| == |ty|
    ensures forall i :: 0 <= i < |r| ==> r[i] == Within(ty[i], outer)
  {
    seq(|ty|, i requires 0 <= i < |ty| => Within(ty[i], outer))
  }

  // `big` carries the brackets of `ty`, inside `outer`, from position `b` on.
  ghost predicate Carries(big: seq<Ctx>, b: int, ty: seq<Ctx>, outer: Ctx) {
    && 0 <= b && b + |ty| <= |big|
    && forall i {:trigger ty[i]} :: 0 <= i < |ty| ==> big[b + i] == Within(ty[i], outer)
  }

  lemma TypedInstr(c: Code, ty: seq<Ctx>, i: int, big: Code, bigTy: seq<Ctx>, b: int, outer: Ctx)
    requires |ty| == |c| + 1 && 0 <= i < |c| && 0 <= b && b + |c| <= |big| && |bigTy| == |big| + 1
    requires big[b + i] == c[i]
    requires IsJmp(c[i]) ==> 0 <= Dest(c, i) <= |c| && bigTy[b + Dest(c, i)] == Within(ty[Dest(c, i)], outer)
    requires TypedAt(c, ty, i)
    requires bigTy[b + i] == Within(ty[i], outer) && bigTy[b + i + 1] == Within(ty[i + 1], outer)
    ensures IsJmp(c[i]) ==> 0 <= Dest(big, b + i) <= |big|
    ensures TypedAt(big, bigTy, b + i)
  {
    assert IsJmp(c[i]) ==> Dest(big, b + i) == b + Dest(c, i);
  }

  // `c` keeps its bracketing at position `b` of larger code.
  lemma TypedEmbed(c: Code, ty: seq<Ctx>, d: int, big: Code, bigTy: seq<Ctx>, b: int, outer: Ctx)
    requires TypedBy(c, ty, d) && At(big, b, c) && |bigTy| == |big| + 1
    requires Carries(bigTy, b, ty, outer)
    ensures forall j :: b <= j < b + |c| && IsJmp(big[j]) ==> 0 <= Dest(big, j) <= |big|
    ensures forall j :: b <= j < b + |c| ==> TypedAt(big, bigTy, j)
    ensures forall i :: b <= i <= b + |c| ==> Choices(bigTy[i]) <= d + Choices(outer)
  {
    forall j | b <= j < b + |c|
      ensures IsJmp(big[j]) ==> 0 <= Dest(big, j) <= |big|
      ensures TypedAt(big, bigTy, j)
    {
      var i := j - b;
      assert big[b..b + |c|][i] == c[i];
      assert TypedAt(c, ty, i);
      assert bigTy[b + i] == Within(ty[i], outer);
      assert bigTy[b + (i + 1)] == Within(ty[i + 1], outer);
      assert IsJmp(c[i]) ==> bigTy[b + Dest(c, i)] == Within(ty[Dest(c, i)], outer);
      TypedInstr(c, ty, i, big, bigTy, b, outer);
    }
    ChoicesCarried(ty, d, bigTy, b, outer);
  }

  lemma ChoicesCarried(ty: seq<Ctx>, d: int, big: seq<Ctx>, b: int, outer: Ctx)
    requires Carries(big, b, ty, outer)
    requires forall i :: 0 <= i < |ty| ==> Choices(ty[i]) <= d
    ensures forall i :: b <= i < b + |ty| ==> Choices(big[i]) <= d + Choices(outer)
  {
    forall i | b <= i < b + |ty| ensures Choices(big[i]) <= d + Choices(outer) {
      assert big[b + (i - b)] == Within(ty[i - b], outer);
      ChoicesWithin(ty[i - b], outer);
    }
  }

  // The same for code whose leading check has become something else.
  lemma TypedEmbedTail(c: Code, ty: seq<Ctx>, d: int, big: Code, bigTy: seq<Ctx>, b: int, outer: Ctx)
    requires TypedBy(c, ty, d) && WF(c) && c != [] && IsCheck(c[0])
    requires 0 <= b && At(big, b + 1, c[1..]) && |bigTy| == |big| + 1
    requires Carries(bigTy, b + 1, ty[1..], outer)
    ensures forall j :: b < j < b + |c| && IsJmp(big[j]) ==> 0 <= Dest(big, j) <= |big|
    ensures forall j :: b < j < b + |c| ==> TypedAt(big, bigTy, j)
    ensures forall i :: b < i <= b + |c| ==> Choices(bigTy[i]) <= d + Choices(outer)
  {
    forall j | b < j < b + |c|
      ensures IsJmp(big[j]) ==> 0 <= Dest(big, j) <= |big|
      ensures TypedAt(big, bigTy, j)
    {
      var i := j - b;
      assert big[b + 1..b + |c|][i - 1] == c[1..][i - 1] == c[i];
      assert TypedAt(c, ty, i);
      assert bigTy[b + 1 + (i - 1)] == Within(ty[1..][i - 1], outer);
      assert bigTy[b + 1 + i] == Within(ty[1..][i], outer);
      if IsJmp(c[i]) {
        NoJumpToHead(c, i);
        var x := Dest(c, i);
        assert bigTy[b + 1 + (x - 1)] == Within(ty[1..][x - 1], outer);
      }
      TypedInstr(c, ty, i, big, bigTy, b, outer);
    }
    ChoicesCarried(ty[1..], d, bigTy, b + 1, outer);
  }

  // Nothing jumps to a leading instruction that is not a test.
  lemma NoJumpToHead(c: Code, j: int)
    requires WF(c) && c != [] && !IsTest(c[0]) && 0 <= j < |c| && IsJmp(c[j])
    ensures 1 <= Dest(c, j) <= |c|
  {
    assert WFAt(c, j);
  }

  // The first element of the code after `b` keeps its well-formedness when the
  // leading check is replaced by a test.
  lemma WFEmbedTail(c: Code, big: Code, b: int)
    requires WF(c) && c != [] && IsCheck(c[0]) && 0 <= b && At(big, b + 1, c[1..])
    ensures forall j :: b < j < b + |c| ==> WFAt(big, j)
  {
    forall j | b < j < b + |c| ensures WFAt(big, j) {
      var i := j - b;
      assert forall k :: 0 <= k < |c| - 1 ==> big[b + 1 + k] == c[1..][k] == c[1 + k];
      assert big[b + i] == c[i];
      assert WFAt(c, i);
      if IsJmp(c[i]) {
        NoJumpToHead(c, i);
        var d := Dest(c, i);
        if d <= i {
          assert LoopHead(c, i, d);
          assert big[b + d] == c[d];
          if d >= 2 { assert big[b + d - 1] == c[d - 1]; }
        }
        if c[i].op.IPartialCommit? { assert big[b + d] == c[d]; }
      }
    }
  }
}

// The instruction set of the LPeg virtual machine, its opcode properties, and
// the well-formedness conditions every pattern builder keeps.

module LpegCode {

  const UCHAR_MAX := 255
  const MAXOFF := 15     // largest offset stored beside a capture kind
  const MAXBACK := 400   // slots of the backtrack stack

  type Pos = n: int | 1 <= n witness 1

  type CapKind = k: int | 0 <= k < 16

  type Byte = b: int | 0 <= b < 256

  type Charset = set<Byte>

  const FULL_SET: Charset := set b: Byte | 0 <= b < 256 :: b

  datatype Opcode =
    | IAny | IChar | ISet | IZSet
    | ITestAny | ITestChar | ITestSet | ITestZSet
    | ISpan | ISpanZ
    | IEnd
    | IChoice | IJmp
    | ICommit | IPartialCommit | IBackCommit | IFailTwice | IFail
    | IFullCapture | IEmptyCapture | IOpenCapture | ICloseCapture

  // One element of a pattern.  An instruction and the character set stored behind it
  // are a single element, so the size of every instruction is one.  Two searches that
  // look one slot back then never read a set as an instruction; LpegSlots states
  // exactly when they do not where sets take four slots of their own.
  datatype Instr = Instr(op: Opcode, aux: nat, offset: int, cs: Charset)

  // A pattern without its final IEnd.
  type Code = seq<Instr>

  const END := Instr(IEnd, 0, 0, {})

  // ----- opcode properties ---------------------------------------------------

  predicate IsCheck(i: Instr) {
    i.op.IAny? || i.op.IChar? || i.op.ISet? || i.op.IZSet?
  }

  predicate IsTest(i: Instr) {
    i.op.ITestAny? || i.op.ITestChar? || i.op.ITestSet? || i.op.ITestZSet?
  }

  predicate IsJmp(i: Instr) {
    IsTest(i) || i.op.IChoice? || i.op.IJmp? || i.op.ICommit? || i.op.IPartialCommit? || i.op.IBackCommit?
  }

  predicate IsMovable(i: Instr) {
    i.op.IEmptyCapture? || i.op.IOpenCapture? || i.op.ICloseCapture?
  }

  predicate IsCapture(i: Instr) {
    IsMovable(i) || i.op.IFullCapture?
  }

  predicate IsSpan(i: Instr) {
    i.op.ISpan? || i.op.ISpanZ?
  }

  predicate IsNoFail(i: Instr) {
    IsTest(i) || IsSpan(i) || i.op.IJmp? || IsCapture(i)
  }

  predicate HasCharset(i: Instr) {
    i.op.ISet? || i.op.IZSet? || i.op.ITestSet? || i.op.ITestZSet? || IsSpan(i)
  }

  function GetKind(i: Instr): int { i.aux % 16 }

  function GetOff(i: Instr): nat { i.aux / 16 % 16 }

  predicate IsMovableCap(i: Instr) {
    IsMovable(i) && GetOff(i) < MAXOFF
  }

  // How many bytes a check or a test consumes when it succeeds.
  function StepLen(i: Instr): nat {
    if i.op.IAny? || i.op.ITestAny? then i.aux else 1
  }

  function Dest(c: Code, i: int): int
    requires 0 <= i < |c|
  {
    i + c[i].offset
  }

  function TestOp(op: Opcode): Opcode {
    match op
    case IAny => ITestAny
    case IChar => ITestChar
    case ISet => ITestSet
    case IZSet => ITestZSet
    case _ => op
  }

  // The test that succeeds exactly when the check `i` does and otherwise jumps.
  function Check2Test(i: Instr, n: int): Instr {
    i.(op := TestOp(i.op), offset := n)
  }

  function Set(op: Opcode, offset: int): Instr { Instr(op, 0, offset, {}) }

  function SetAux(op: Opcode, offset: int, aux: nat): Instr { Instr(op, aux, offset, {}) }

  function SetCap(op: Opcode, idx: int, kind: nat, n: nat): Instr { Instr(op, kind + 16 * n, idx, {}) }

  // ----- well-formed code ----------------------------------------------------

  // The builders correct a set that holds the sentinel byte to its Z form.
  predicate InstrOk(i: Instr) {
    && !i.op.IEnd?
    && (i.op.IAny? || i.op.ITestAny? ==> 1 <= i.aux)
    && (i.op.ISet? || i.op.ITestSet? || i.op.ISpan? ==> 0 !in i.cs)
    && (IsCapture(i) ==> i.aux < 256)
  }

  // A backward jump lands on a test, or right behind a choice; a plain jump only
  // on a test.  So no chain of plain jumps can cycle, and no loop body starts
  // inside a straight run of captures and checks.
  predicate LoopHead(c: Code, j: int, d: int)
    requires 0 <= d <= j < |c|
  {
    || IsTest(c[d])
    || (!c[j].op.IJmp? && d >= 1 && c[d - 1].op.IChoice? && !c[d].op.IJmp?)
  }

  predicate WFAt(c: Code, j: int)
    requires 0 <= j < |c|
  {
    && InstrOk(c[j])
    && (IsJmp(c[j]) ==>
          && 0 <= Dest(c, j) <= |c|
          && (Dest(c, j) <= j ==> LoopHead(c, j, Dest(c, j)))
          && (c[j].op.IPartialCommit? ==> Dest(c, j) < |c| && !c[Dest(c, j)].op.IJmp?))
  }

  predicate FirstOk(c: Code) {
    c != [] ==>
      && !c[0].op.IJmp?
      && (IsJmp(c[0]) ==> 1 <= c[0].offset)
      && (c[0].op.IFail? ==> c[0].aux == 0)
  }

  ghost predicate WF(c: Code) {
    && FirstOk(c)
    && forall j :: 0 <= j < |c| ==> WFAt(c, j)
  }

  // `c` occurs in `big` at position `b`.
  predicate At(big: Code, b: int, c: Code) {
    0 <= b && b + |c| <= |big| && big[b..b + |c|] == c
  }

  lemma SubAt(big: Code, b: int, c: Code, i: nat, j: nat)
    requires At(big, b, c) && i <= j <= |c|
    ensures big[b + i..b + j] == c[i..j]
  {
    forall k | 0 <= k < j - i ensures big[b + i..b + j][k] == c[i..j][k] {
      assert big[b..b + |c|][i + k] == c[i + k];
    }
  }

  lemma FrontAt(big: Code, b: int, c: Code)
    requires At(big, b, c) && c != []
    ensures b < |big| && big[b] == c[0] && At(big, b + 1, c[1..])
  {
    SubAt(big, b, c, 1, |c|);
    assert big[b] == big[b..b + |c|][0];
  }

  lemma WFEmbed(c: Code, big: Code, b: int)
    requires At(big, b, c) && WF(c)
    ensures forall j :: b <= j < b + |c| ==> WFAt(big, j)
  {
    forall j | b <= j < b + |c| ensures WFAt(big, j) {
      var i := j - b;
      assert forall k :: 0 <= k < |c| ==> big[b + k] == c[k];
      assert WFAt(c, i);
      if IsJmp(big[j]) && Dest(big, j) <= j {
        var d := Dest(c, i);
        assert LoopHead(c, i, d);
        assert big[b + d] == c[d];
        if d >= 1 { assert big[b + d - 1] == c[d - 1]; }
      }
      if IsJmp(big[j]) && big[j].op.IPartialCommit? { assert big[b + Dest(c, i)] == c[Dest(c, i)]; }
    }
  }

  lemma WFCat(a: Code, b: Code)
    requires WF(a) && WF(b)
    ensures WF(a + b)
  {
    WFEmbed(a, a + b, 0);
    WFEmbed(b, a + b, |a|);
    if a == [] { assert a + b == b; } else { assert (a + b)[0] == a[0]; }
  }

  lemma GetOffOfSum(i: Instr, n: nat)
    requires i.aux < 256 && GetOff(i) + n <= MAXOFF
    ensures GetOff(i.(aux := i.aux + 16 * n)) == GetOff(i) + n
    ensures GetKind(i.(aux := i.aux + 16 * n)) == GetKind(i)
    ensures i.aux + 16 * n < 256
  {
  }
}

// How a pattern lies in memory: an instruction with a character set takes five slots of
// eight bytes, the last four of which hold the set.  Two searches look one slot back and
// read whatever is there as an instruction.  This module says exactly when what they read
// there does not matter, and gives two patterns for which it does.

module LpegSlots {
  import opened LpegCode
  import opened LpegPeg
  import opened LpegBuild

  const CELLS := 5

  datatype Slot =
    | Start(i: Instr, off: int)      // an instruction, its offset counted in slots
    | Bits(cs: Charset, k: nat)      // bytes 8k to 8k + 7 of a set

  function Size(i: Instr): (n: nat)
    ensures n >= 1
  {
    if HasCharset(i) then CELLS else 1
  }

  // Where the `n`th instruction starts.
  function Place(c: Code, n: nat): (at: nat)
    requires n <= |c|
    ensures at >= n
    decreases n
  {
    if n == 0 then 0 else Place(c, n - 1) + Size(c[n - 1])
  }

  function SlotOffset(c: Code, j: nat): int
    requires j < |c|
  {
    if IsJmp(c[j]) && 0 <= Dest(c, j) <= |c| then Place(c, Dest(c, j)) - Place(c, j) else c[j].offset
  }

  function Cells(i: Instr, off: int): (s: seq<Slot>)
    ensures |s| == Size(i)
  {
    if HasCharset(i) then [Start(i, off), Bits(i.cs, 0), Bits(i.cs, 1), Bits(i.cs, 2), Bits(i.cs, 3)]
    else [Start(i, off)]
  }

  function Layout(c: Code, n: nat): (s: seq<Slot>)
    requires n <= |c|
    ensures |s| == Place(c, n)
    decreases n
  {
    if n == 0 then [] else Layout(c, n - 1) + Cells(c[n - 1], SlotOffset(c, n - 1))
  }

  function Slots(c: Code): seq<Slot> { Layout(c, |c|) + [Start(END, 0)] }

  // ----- reading a slot as an instruction ------------------------------------------------

  function Bit(cs: Charset, b: int, v: nat): nat { if 0 <= b < 256 && b in cs then v else 0 }

  // Byte `b` of a set.
  function ByteOf(cs: Charset, b: nat): nat {
    Bit(cs, 8 * b, 1) + Bit(cs, 8 * b + 1, 2) + Bit(cs, 8 * b + 2, 4) + Bit(cs, 8 * b + 3, 8)
    + Bit(cs, 8 * b + 4, 16) + Bit(cs, 8 * b + 5, 32) + Bit(cs, 8 * b + 6, 64) + Bit(cs, 8 * b + 7, 128)
  }

  const CHOICE := 12
  const JMP := 13
  const COMMIT := 16
  const FIRST_MOVABLE := 25
  const OPCODES := 28

  function Number(op: Opcode): nat {
    match op
    case IAny => 0 case IChar => 1 case ISet => 2 case IZSet => 3
    case ITestAny => 4 case ITestChar => 5 case ITestSet => 6 case ITestZSet => 7
    case ISpan => 8 case ISpanZ => 9 case IEnd => 11
    case IChoice => CHOICE case IJmp => JMP case ICommit => COMMIT
    case IPartialCommit => 17 case IBackCommit => 18 case IFailTwice => 19 case IFail => 20
    case IFullCapture => 24 case IEmptyCapture => FIRST_MOVABLE case IOpenCapture => 26 case ICloseCapture => 27
  }

  function CodeOf(s: Slot): nat {
    match s
    case Start(i, _) => Number(i.op)
    case Bits(cs, k) => ByteOf(cs, 8 * k)
  }

  function AuxOf(s: Slot): nat {
    match s
    case Start(i, _) => i.aux
    case Bits(cs, k) => ByteOf(cs, 8 * k + 1)
  }

  // A signed 16-bit number, low byte first.
  function Short(lo: nat, hi: nat): int { if hi < 128 then lo + 256 * hi else lo + 256 * hi - 65536 }

  function OffsetOf(s: Slot): int {
    match s
    case Start(_, off) => off
    case Bits(cs, k) => Short(ByteOf(cs, 8 * k + 2), ByteOf(cs, 8 * k + 3))
  }

  // `beyond` is what the table of properties answers for numbers past its end.
  predicate MovableCode(n: nat, beyond: nat -> bool) { if n < OPCODES then n >= FIRST_MOVABLE else beyond(n) }

  predicate MovableSlot(s: Slot, beyond: nat -> bool) { MovableCode(CodeOf(s), beyond) && AuxOf(s) / 16 % 16 < MAXOFF }

  // ----- the two searches, slot by slot ------------------------------------------------------

  function FirstPartAt(p: seq<Slot>, l: nat): int
    requires p != []
  {
    var n, e := CodeOf(p[0]), OffsetOf(p[0]) - 1;
    if !(4 <= n <= 7 || n == CHOICE) || !(0 <= e < |p|) then 0
    else if (CodeOf(p[e]) == COMMIT || (n != CHOICE && CodeOf(p[e]) == JMP)) && e + OffsetOf(p[e]) == l then e + 1
    else 0
  }

  function GroupAt(p: seq<Slot>, limit: nat, start: nat, maxoff: nat, beyond: nat -> bool): (r: (nat, nat))
    requires start <= |p|
    ensures r.0 <= start
    decreases start
  {
    if start > limit && MovableSlot(p[start - 1], beyond) then
      var off := AuxOf(p[start - 1]) / 16 % 16;
      GroupAt(p, limit, start - 1, if off > maxoff then off else maxoff, beyond)
    else (start, maxoff)
  }

  // A limit counted in instructions, counted in slots.
  function SlotLimit(c: Code, limit: nat): nat
    requires limit <= |c|
  {
    if limit == 0 then 0 else Place(c, limit - 1) + 1
  }

  // ----- what lies where ------------------------------------------------------------------------

  lemma {:induction false} PlaceGrows(c: Code, i: nat, j: nat)
    requires i < j <= |c|
    ensures Place(c, i) + Size(c[i]) <= Place(c, j)
    decreases j
  {
    if i < j - 1 { PlaceGrows(c, i, j - 1); }
  }

  // What an instruction's last slot holds.
  function LastSlot(c: Code, j: nat): Slot
    requires j < |c|
  {
    if HasCharset(c[j]) then Bits(c[j].cs, 3) else Start(c[j], SlotOffset(c, j))
  }

  lemma {:induction false} LayoutAt(c: Code, j: nat, n: nat)
    requires j < n <= |c|
    ensures Place(c, j) < Place(c, j + 1) <= Place(c, n)
    ensures Layout(c, n)[Place(c, j)] == Start(c[j], SlotOffset(c, j))
    ensures Layout(c, n)[Place(c, j + 1) - 1] == LastSlot(c, j)
    decreases n
  {
    hide SlotOffset;
    if j < n - 1 { LayoutAt(c, j, n - 1); }
  }

  // The slot in front of the `n`th instruction, or of the end.
  lemma BeforeSlot(c: Code, n: nat)
    requires 0 < n <= |c|
    ensures Place(c, n) == Place(c, n - 1) + Size(c[n - 1]) && |Slots(c)| == Place(c, |c|) + 1
            && Place(c, n) <= Place(c, |c|)
    ensures Slots(c)[Place(c, n) - 1] == LastSlot(c, n - 1)
  {
    hide SlotOffset, LastSlot;
    LayoutAt(c, n - 1, |c|);
  }

  lemma FirstSlot(c: Code)
    requires c != []
    ensures Slots(c)[0] == Start(c[0], SlotOffset(c, 0))
  {
    hide SlotOffset;
    LayoutAt(c, 0, |c|);
  }

  // ----- the first alternative ---------------------------------------------------------------

  // The set before the target of the first instruction reads as a jump to the end.
  predicate EndMisread(c: Code) {
    && c != [] && (IsTest(c[0]) || c[0].op.IChoice?) && 1 <= c[0].offset <= |c|
    && var prev := c[c[0].offset - 1];
       var s := Bits(prev.cs, 3);
       && HasCharset(prev)
       && (CodeOf(s) == COMMIT || (IsTest(c[0]) && CodeOf(s) == JMP))
       && Place(c, c[0].offset) - 1 + OffsetOf(s) == Place(c, |c|)
  }

  // The search finds the first alternative exactly when it does not misread a set.
  lemma FirstPartRead(c: Code)
    requires WF(c)
    ensures FirstPartAt(Slots(c), Place(c, |c|)) == Place(c, FirstPart(c)) <==> !EndMisread(c)
  {
    hide Slots, Layout, Place, ByteOf, WF;
    assert Place(c, 0) == 0 by { PlaceZero(c); }
    if c == [] {
      NothingRead(c);
    } else {
      FirstSlot(c);
      FirstDest(c);
      if IsTest(c[0]) || c[0].op.IChoice? {
        var t := c[0].offset;
        BeforeSlot(c, t);
        if !HasCharset(c[t - 1]) { DestPlace(c, t - 1); }
      }
    }
  }

  lemma PlaceZero(c: Code)
    ensures Place(c, 0) == 0
  {
  }

  lemma NothingRead(c: Code)
    requires c == []
    ensures FirstPartAt(Slots(c), Place(c, |c|)) == 0
  {
  }

  lemma FirstDest(c: Code)
    requires WF(c) && c != []
    ensures IsTest(c[0]) || c[0].op.IChoice? ==> 1 <= c[0].offset <= |c| && SlotOffset(c, 0) == Place(c, c[0].offset)
  {
    assert WFAt(c, 0);
  }

  // A jump leads to the end in slots exactly when it does in instructions.
  lemma DestPlace(c: Code, j: nat)
    requires j < |c| && WF(c)
    ensures IsJmp(c[j]) ==> (Place(c, j) + SlotOffset(c, j) == Place(c, |c|) <==> Dest(c, j) == |c|)
  {
    assert WFAt(c, j);
    if IsJmp(c[j]) && Dest(c, j) < |c| { PlaceGrows(c, Dest(c, j), |c|); }
  }

  // ----- the group of captures --------------------------------------------------------------------

  // The set before the group that ends at `start` reads as one more capture.
  predicate GroupMisread(c: Code, limit: nat, start: nat, maxoff: nat, beyond: nat -> bool)
    requires start < |c|
  {
    var first := GroupStart(c, limit, start, maxoff).0;
    first > 0 && HasCharset(c[first - 1]) && MovableSlot(Bits(c[first - 1].cs, 3), beyond)
  }

  lemma MovableIs(i: Instr, off: int, beyond: nat -> bool)
    ensures MovableSlot(Start(i, off), beyond) <==> IsMovableCap(i)
  {
  }

  // The search, slot by slot, finds what the search by instructions does.
  predicate GroupFound(c: Code, limit: nat, start: nat, maxoff: nat, beyond: nat -> bool)
    requires limit <= start < |c|
  {
    && Place(c, start) <= |Slots(c)|
    && GroupAt(Slots(c), SlotLimit(c, limit), Place(c, start), maxoff, beyond)
         == (Place(c, GroupStart(c, limit, start, maxoff).0), GroupStart(c, limit, start, maxoff).1)
  }

  // It does exactly when it does not misread a set.
  lemma {:induction false} GroupRead(c: Code, limit: nat, start: nat, maxoff: nat, beyond: nat -> bool)
    requires limit <= start < |c|
    ensures GroupFound(c, limit, start, maxoff, beyond) <==> !GroupMisread(c, limit, start, maxoff, beyond)
    decreases start
  {
    hide Slots, Layout, Place, ByteOf, SlotLimit, SlotOffset, IsMovableCap, MovableCode, CodeOf;
    if start == 0 {
      PlaceZero(c);
    } else {
      BeforeSlot(c, start);
      MovableIs(c[start - 1], SlotOffset(c, start - 1), beyond);
      LimitPlace(c, limit, start);
      if start > limit && IsMovableCap(c[start - 1]) {
        MovableOne(c[start - 1]);
        GroupRead(c, limit, start - 1, if GetOff(c[start - 1]) > maxoff then GetOff(c[start - 1]) else maxoff, beyond);
      }
    }
  }

  lemma MovableOne(i: Instr)
    requires IsMovableCap(i)
    ensures !HasCharset(i)
  {
  }

  lemma LimitPlace(c: Code, limit: nat, start: nat)
    requires limit <= start < |c| && start > 0
    ensures SlotLimit(c, limit) < Place(c, start) <==> start > limit || HasCharset(c[start - 1])
  {
    if 0 < limit < start {
      PlaceGrows(c, limit - 1, start);
      PlaceGrows(c, limit, start);
      PlaceGrows(c, limit - 1, limit);
    }
  }

  // ----- sets that read as nothing of the kind -----------------------------------------------

  predicate Quiet(cs: Charset, beyond: nat -> bool) {
    var n := ByteOf(cs, 24);
    n != JMP && n != COMMIT && !MovableCode(n, beyond)
  }

  // Where every set is quiet both searches find what they should.
  lemma QuietReads(c: Code, beyond: nat -> bool)
    requires WF(c) && forall j :: 0 <= j < |c| && HasCharset(c[j]) ==> Quiet(c[j].cs, beyond)
    ensures FirstPartAt(Slots(c), Place(c, |c|)) == Place(c, FirstPart(c))
    ensures forall limit: nat, start: nat, maxoff: nat :: limit <= start < |c| ==>
              GroupFound(c, limit, start, maxoff, beyond)
  {
    hide Slots, Layout, Place, ByteOf, FirstPartAt, GroupFound, WF;
    FirstPartRead(c);
    forall limit: nat, start: nat, maxoff: nat | limit <= start < |c|
      ensures GroupFound(c, limit, start, maxoff, beyond) {
      GroupRead(c, limit, start, maxoff, beyond);
    }
  }

  // ----- two patterns that are misread -----------------------------------------------------------

  const POSITION: CapKind := 1

  // A set of three bytes, a position capture and an `a`.
  function CaptureInput(): Code {
    [Instr(ISet, 0, 0, {192, 195, 196}), SetCap(IEmptyCapture, 0, POSITION, 0), Instr(IChar, 97, 0, {})]
  }

  // At most one of two bytes, the first operand of a choice.
  function ChoiceInput(): Code { [Instr(ITestSet, 0, 1, {196, 208})] }

  lemma SetCode(bytes: seq<Byte>, cs: Charset)
    requires |bytes| >= 2 && CharsSet(bytes) == cs && 0 !in cs
    ensures Compile(Chars(bytes)) == Ok([Instr(ISet, 0, 0, cs)])
  {
  }

  lemma OptionalSet(cs: Charset)
    ensures OptCode([Instr(ISet, 0, 0, cs)], 1) == [Instr(ITestSet, 0, 1, cs)]
  {
    var c: Code := [Instr(ISet, 0, 0, cs)];
    assert IsHeadFail(c);
    assert TestHead(c, 1) == [Instr(ITestSet, 0, 1, cs)];
    assert HeadFailOptionals(c, 1) == TestHead(c, 1) + [];
  }

  lemma CaptureBytes()
    ensures ByteOf({192, 195, 196}, 24) == 25 && ByteOf({192, 195, 196}, 25) == 0
  {
  }

  lemma ChoiceBytes()
    ensures ByteOf({196, 208}, 24) == 16 && ByteOf({196, 208}, 26) == 1 && ByteOf({196, 208}, 27) == 0
  {
  }

  // `S("\192\195\196") * Cp() * "a"`: the group of the capture seems to start in the set.
  lemma CaptureMisread(beyond: nat -> bool)
    ensures Compile(Chars([192, 195, 196])) == Ok(CaptureInput()[..1])
    ensures EmptiesCode([(POSITION, 0)]) == CaptureInput()[1..2] && LitCode([97]) == CaptureInput()[2..]
    ensures GroupStart(CaptureInput(), 0, 1, 0) == (1, 0) && !GroupFound(CaptureInput(), 0, 1, 0, beyond)
  {
    hide ByteOf, GroupFound, GroupMisread, CharsCode;
    SetCode([192, 195, 196], {192, 195, 196});
    assert CaptureInput()[..1] == [Instr(ISet, 0, 0, {192, 195, 196})];
    InputMisread(beyond);
    GroupRead(CaptureInput(), 0, 1, 0, beyond);
  }

  lemma InputMisread(beyond: nat -> bool)
    ensures GroupMisread(CaptureInput(), 0, 1, 0, beyond)
  {
    hide ByteOf;
    CaptureBytes();
    assert GroupStart(CaptureInput(), 0, 1, 0) == (1, 0);
  }

  // `S("\196\208")^-1 + "b"`: the first operand seems to be an ordered choice itself.
  lemma ChoiceMisread()
    ensures Compile(Opt(Chars([196, 208]), 1)) == Ok(ChoiceInput())
    ensures FirstPart(ChoiceInput()) == 0 && FirstPartAt(Slots(ChoiceInput()), 5) == 5
  {
    hide ByteOf, OptCode;
    SetCode([196, 208], {196, 208});
    OptionalSet({196, 208});
    ChoiceReads();
  }

  lemma ChoiceReads()
    ensures FirstPart(ChoiceInput()) == 0 && FirstPartAt(Slots(ChoiceInput()), 5) == 5
  {
    hide ByteOf;
    ChoiceBytes();
    var c := ChoiceInput();
    assert Place(c, 0) == 0 && Place(c, 1) == 5;
    FirstSlot(c);
    BeforeSlot(c, 1);
  }
}

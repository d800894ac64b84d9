// The code each pattern builder emits, as functions on code.

module LpegBuild {
  import opened LpegCode
  import opened LpegPeg
  import opened LpegMachine

  datatype Outcome<+T> = Ok(value: T) | Err(error: BuildError) {
    predicate IsFailure() { Err? }

    function PropagateFailure<U>(): Outcome<U>
      requires Err?
    {
      Err(error)
    }

    function Extract(): T
      requires Ok?
    {
      value
    }
  }

  datatype BuildError = EmptyLoopBody | TooManyPending

  // ----- character sets ------------------------------------------------------

  datatype CharsetTag = NoInfo | IsCharset(cs: Charset) | ValidStarts(cs: Charset)

  // The bytes on which a check or a test can succeed at all.
  function FillCharset(i: Instr): Charset {
    match i.op
    case ISet => i.cs
    case IZSet => i.cs
    case ITestSet => i.cs
    case ITestZSet => i.cs
    case IChar => set b | b in FULL_SET && b == i.aux
    case ITestChar => set b | b in FULL_SET && b == i.aux
    case _ => FULL_SET
  }

  function ToCharset(c: Code): CharsetTag {
    if c == [] || !IsCheck(c[0]) then NoInfo
    else if |c| == 1 && StepLen(c[0]) == 1 then IsCharset(FillCharset(c[0]))
    else ValidStarts(FillCharset(c[0]))
  }

  predicate Exclusive(t1: CharsetTag, t2: CharsetTag) {
    !t1.NoInfo? && !t2.NoInfo? && t1.cs !! t2.cs
  }

  function SetInstr(cs: Charset): Instr {
    Instr(if 0 in cs then IZSet else ISet, 0, 0, cs)
  }

  function SpanInstr(cs: Charset): Instr {
    Instr(if 0 in cs then ISpanZ else ISpan, 0, 0, cs)
  }

  // ----- leaves --------------------------------------------------------------

  function LitCode(bytes: seq<Byte>): (c: Code)
    ensures |c| == |bytes|
  {
    seq(|bytes|, i requires 0 <= i < |bytes| => SetAux(IChar, 0, bytes[i]))
  }

  function AnyInstrs(n: nat): Code
    requires n > 0
  {
    if n > UCHAR_MAX then [SetAux(IAny, 0, UCHAR_MAX)] + AnyInstrs(n - UCHAR_MAX)
    else [SetAux(IAny, 0, n)]
  }

  function AnyCode(n: nat): Code {
    if n == 0 then [] else AnyInstrs(n)
  }

  function NotAnyCode(n: Pos): Code {
    if n <= UCHAR_MAX then [SetAux(ITestAny, 2, n), Set(IFail, 0)]
    else
      var rest := AnyInstrs(n - UCHAR_MAX);
      [SetAux(ITestAny, |rest| + 3, UCHAR_MAX), SetAux(IChoice, |rest| + 2, UCHAR_MAX)] + rest + [Set(IFailTwice, 0)]
  }

  function EmptiesCode(entries: seq<(CapKind, int)>): (c: Code)
    ensures |c| == |entries|
  {
    seq(|entries|, i requires 0 <= i < |entries| => SetCap(IEmptyCapture, entries[i].1, entries[i].0, 0))
  }

  // ----- moving captures past checks -----------------------------------------

  // Number of checks from `i` on that a capture may cross, and the bytes they consume.
  function SkipChecks(c: Code, i: nat, up: nat, n: nat): (r: (nat, nat))
    requires i <= |c|
    ensures i + r.0 <= |c|
    decreases |c| - i
  {
    if i < |c| && IsCheck(c[i]) && n + StepLen(c[i]) <= MAXOFF - up then
      var r := SkipChecks(c, i + 1, up, n + StepLen(c[i]));
      (r.0 + 1, r.1)
    else (0, n)
  }

  // First capture of the group that ends at `start`, and the group's largest offset.
  function GroupStart(c: Code, limit: nat, start: nat, maxoff: nat): (r: (nat, nat))
    requires start < |c|
    ensures r.0 <= start && (limit <= start ==> limit <= r.0)
    decreases start
  {
    if start > limit && IsMovableCap(c[start - 1]) then
      GroupStart(c, limit, start - 1, if GetOff(c[start - 1]) > maxoff then GetOff(c[start - 1]) else maxoff)
    else (start, maxoff)
  }

  function Shifted(caps: Code, n: nat): (r: Code)
    ensures |r| == |caps|
  {
    seq(|caps|, i requires 0 <= i < |caps| => caps[i].(aux := caps[i].aux + 16 * n))
  }

  // Captures c[start..mid] rotated behind the checks c[mid..end], which consume n bytes.
  function Rotated(c: Code, start: nat, mid: nat, end: nat, n: nat): (r: Code)
    requires start <= mid <= end <= |c|
    ensures |r| == |c|
  {
    c[..start] + c[mid..end] + Shifted(c[start..mid], n) + c[end..]
  }

  // The group of captures that ends at `i` moved behind the checks after it, and
  // where the pass goes on.
  function MoveGroup(c: Code, i: nat, limit: nat): (r: (Code, nat))
    requires i + 1 < |c|
    ensures |r.0| == |c| && i < r.1 <= |c|
  {
    var (start, maxoff) := GroupStart(c, limit, i, GetOff(c[i]));
    var (k, n) := SkipChecks(c, i + 1, maxoff, 0);
    if n == 0 then (c, i + 1)  // nothing can be moved across the first check
    else (Rotated(c, start, i + 1, i + 1 + k, n), i + 1 + k)
  }

  // The pass from `i` on; captures at or before a jump target, below `limit`, stay.
  function OptimizeCapturesFrom(c: Code, i: nat, limit: nat): (r: Code)
    requires i <= |c|
    ensures |r| == |c|
    decreases |c| - i
  {
    if i == |c| then c
    else if IsJmp(c[i]) && Dest(c, i) >= limit then
      OptimizeCapturesFrom(c, i + 1, Dest(c, i) + 1)
    else if i >= limit && IsMovableCap(c[i]) && i + 1 < |c| && IsCheck(c[i + 1]) then
      var r := MoveGroup(c, i, limit);
      OptimizeCapturesFrom(r.0, r.1, limit)
    else OptimizeCapturesFrom(c, i + 1, limit)
  }

  function OptimizeCaptures(c: Code): Code { OptimizeCapturesFrom(c, 0, 0) }

  // ----- following plain jumps -----------------------------------------------

  // Where a chain of plain jumps ends.  A backward jump is the chain's last one.
  function Target(c: Code, i: int): int
    decreases |c| - i
  {
    if 0 <= i < |c| && c[i].op.IJmp? then
      if c[i].offset > 0 then Target(c, Dest(c, i)) else Dest(c, i)
    else i
  }

  function OptimizeJumps(c: Code): (r: Code)
    ensures |r| == |c|
  {
    seq(|c|, i requires 0 <= i < |c| =>
      if IsJmp(c[i]) then c[i].(offset := Target(c, Dest(c, i)) - i) else c[i])
  }

  // ----- predicates and sequences --------------------------------------------

  // `choice; check; rest` becomes `test; choice; rest`, which enters the choice
  // only when the check has succeeded.
  function OptimizeChoice(c: Code): Code
    requires c != [] && c[0].op.IChoice?
  {
    if |c| > 1 && IsCheck(c[1]) then
      [Check2Test(c[1], c[0].offset), c[0].(aux := StepLen(c[1]), offset := c[0].offset - 1)] + c[2..]
    else c
  }

  predicate IsHeadFail(c: Code) {
    c != [] && IsCheck(c[0]) && forall i :: 1 <= i < |c| ==> IsNoFail(c[i])
  }

  function TestHead(c: Code, off: int): Code
    requires c != []
  {
    [Check2Test(c[0], off)] + c[1..]
  }

  predicate IsAnyCode(c: Code) {
    |c| == 1 && c[0].op.IAny?
  }

  function ConcatCode(c1: Code, c2: Code): Code {
    if IsAnyCode(c1) && IsAnyCode(c2) && c1[0].aux + c2[0].aux > 0 then AnyInstrs(c1[0].aux + c2[0].aux)
    else OptimizeCaptures(c1 + c2)
  }

  function NotThen(c2: Code, c1: Code): Code {
    [Set(IChoice, 1 + |c2| + 1)] + c2 + [Set(IFailTwice, 0)] + c1
  }

  function DiffCode(c1: Code, c2: Code): Code {
    var (t1, t2) := (ToCharset(c1), ToCharset(c2));
    if t1.IsCharset? && t2.IsCharset? then [SetInstr(t1.cs - t2.cs)]
    else if IsHeadFail(c2) then TestHead(c2, |c2| + 1) + [Set(IFail, 0)] + c1
    else OptimizeChoice(NotThen(c2, c1))
  }

  function AndCode(c: Code): Code {
    [Set(IChoice, 1 + |c| + 1)] + c + [Set(IBackCommit, 2), SetAux(IFail, 0, 1)]
  }

  // ----- ordered choice ------------------------------------------------------

  // Length of the first alternative of code that is itself an ordered choice, or 0.
  function FirstPart(c: Code): (sp: nat)
    ensures sp <= |c|
  {
    if c == [] || !(IsTest(c[0]) || c[0].op.IChoice?) || !(1 <= c[0].offset <= |c|) then 0
    else
      var e := c[0].offset - 1;
      if (c[e].op.ICommit? || (IsTest(c[0]) && c[e].op.IJmp?)) && Dest(c, e) == |c| then e + 1 else 0
  }

  predicate NoFail(c: Code) {
    forall i :: 0 <= i < |c| ==> IsNoFail(c[i])
  }

  // May the second pattern match where the first part, already past its test, fails?
  // Any other test is taken to be of any bytes; LpegAsserts says when it is not.
  predicate Interfere(first: Code, t2: CharsetTag)
    requires first != []
  {
    if NoFail(first) then false
    else if t2.NoInfo? then true
    else match first[0].op
      case ITestChar => first[0].aux in t2.cs
      case ITestSet => !(t2.cs !! first[0].cs)
      case _ => true
  }

  // What is asserted of the part where its test has to be looked at.
  predicate AssertedAt(first: Code, t2: CharsetTag)
    requires first != []
  {
    !NoFail(first) && !t2.NoInfo? ==> first[0].op.ITestChar? || first[0].op.ITestSet? || first[0].op.ITestAny?
  }

  function TestUnion(c1: Code, c2: Code): Code
    requires c1 != []
  {
    TestHead(c1, |c1| + 1) + [Set(IJmp, |c2| + 1)] + c2
  }

  function ChoiceUnion(c1: Code, c2: Code): Code {
    [Set(IChoice, 1 + |c1| + 1)] + c1 + [Set(ICommit, 1 + |c2|)] + c2
  }

  function BasicUnion(c1: Code, c2: Code): Code {
    var (t1, t2) := (ToCharset(c1), ToCharset(c2));
    if t1.IsCharset? && t2.IsCharset? then [SetInstr(t1.cs + t2.cs)]
    else if Exclusive(t1, t2) || IsHeadFail(c1) then TestUnion(c1, c2)
    else OptimizeChoice(ChoiceUnion(c1, c2))
  }

  // The first alternative kept as it is, its closing jump redirected past `rest`.
  function KeepFirst(first: Code, rest: Code): Code
    requires first != []
  {
    first[..|first| - 1] + [first[|first| - 1].(offset := 1 + |rest|)] + rest
  }

  // The first alternative changed back to a real choice behind its test.
  function RestoreChoice(first: Code, rest: Code): Code
    requires |first| >= 2
  {
    [first[0].(offset := first[0].offset + 1), SetAux(IChoice, |first|, 1)]
    + first[1..|first| - 1] + [Set(ICommit, 1 + |rest|)] + rest
  }

  function Separate(c1: Code, c2: Code): Code
    decreases |c1|
  {
    var sp := FirstPart(c1);
    if sp == 0 then BasicUnion(c1, c2)
    else
      var rest := Separate(c1[sp..], c2);
      if c1[sp - 1].op.ICommit? || !Interfere(c1[..sp], ToCharset(c2)) then KeepFirst(c1[..sp], rest)
      else RestoreChoice(c1[..sp], rest)
  }

  function UnionCode(c1: Code, c2: Code): Code {
    if c1 != [] && c1[0].op.IFail? then c2
    else if c2 != [] && c2[0].op.IFail? then c1
    else Separate(c1, c2)
  }

  // Every choice that flattening restores stands behind a test of one byte, which
  // is the distance the restored choice steps back.
  predicate RestoresOneByte(c1: Code, c2: Code)
    decreases |c1|
  {
    var sp := FirstPart(c1);
    sp != 0 ==>
      && (c1[sp - 1].op.ICommit? || !Interfere(c1[..sp], ToCharset(c2)) || StepLen(c1[0]) == 1)
      && RestoresOneByte(c1[sp..], c2)
  }

  predicate UnionSafe(c1: Code, c2: Code) {
    (c1 != [] && c1[0].op.IFail?) || (c2 != [] && c2[0].op.IFail?) || RestoresOneByte(c1, c2)
  }

  // The assertion holds whenever it is reached while code that starts as `t2` says is
  // joined to `c1`.
  predicate AssertionHolds(c1: Code, t2: CharsetTag)
    decreases |c1|
  {
    var sp := FirstPart(c1);
    sp != 0 ==>
      && (!c1[sp - 1].op.ICommit? ==> AssertedAt(c1[..sp], t2))
      && AssertionHolds(c1[sp..], t2)
  }

  predicate FailsAtOnce(c: Code) { c != [] && c[0].op.IFail? }

  predicate UnionAsserts(c1: Code, c2: Code) {
    FailsAtOnce(c1) || FailsAtOnce(c2) || AssertionHolds(c1, ToCharset(c2))
  }

  // ----- repetition ----------------------------------------------------------

  function Copies(c: Code, n: nat): Code {
    if n == 0 then [] else c + Copies(c, n - 1)
  }

  function HeadFailLoop(c: Code): Code
    requires c != []
  {
    TestHead(c, |c| + 1) + [Set(IJmp, -|c|)]
  }

  function ChoiceLoop(c: Code): Code {
    [Set(IChoice, 1 + |c| + 1)] + c + [Set(IPartialCommit, -|c|)]
  }

  // The verifier explores the body on an empty subject; it accepts the body when
  // every way through it fails.
  ghost predicate Accepts(c: Code) {
    Reaches(LENIENT, c, Run(0, 0, [], []), Fail([]))
  }

  ghost predicate Overflows(c: Code) {
    exists n: nat ::
      var st := Steps(LENIENT, c, Run(0, 0, [], []), n);
      st.Run? && 0 <= st.pc < |c| && c[st.pc].op.IChoice? && |st.stack| >= MAXBACK
  }

  ghost function RepCode(c: Code, n: nat): Outcome<Code> {
    if ToCharset(c).IsCharset? then Ok(Copies(c, n) + [SpanInstr(ToCharset(c).cs)])
    else if IsHeadFail(c) then Ok(OptimizeJumps(OptimizeCaptures(Copies(c, n) + HeadFailLoop(c))))
    else if Overflows(c) then Err(TooManyPending)
    else if Accepts(c) then Ok(OptimizeJumps(OptimizeCaptures(Copies(c, n) + ChoiceLoop(c))))
    else Err(EmptyLoopBody)
  }

  function HeadFailOptionals(c: Code, n: nat): Code
    requires c != []
  {
    if n == 0 then [] else TestHead(c, n * |c|) + HeadFailOptionals(c, n - 1)
  }

  function OptionalBodies(c: Code, n: Pos): Code {
    if n == 1 then c + [Set(ICommit, 1)]
    else c + [Set(IPartialCommit, 1)] + OptionalBodies(c, n - 1)
  }

  function OptCode(c: Code, n: Pos): Code {
    if IsHeadFail(c) then HeadFailOptionals(c, n)
    else OptimizeChoice([Set(IChoice, 1 + n * (|c| + 1))] + OptionalBodies(c, n))
  }

  // ----- captures ------------------------------------------------------------

  function CaptCode(kind: CapKind, idx: int, c: Code): Code {
    var (k, n) := SkipChecks(c, 0, 0, 0);
    if k == |c| then c + [SetCap(IFullCapture, idx, kind, n)]
    else OptimizeCaptures([SetCap(IOpenCapture, idx, kind, 0)] + c + [SetCap(ICloseCapture, 0, CCLOSE, 0)])
  }

  // ----- whole patterns ------------------------------------------------------

  function CharsCode(bytes: seq<Byte>): Code {
    if |bytes| == 1 then LitCode(bytes) else [SetInstr(CharsSet(bytes))]
  }

  ghost function Compile(p: Pat): Outcome<Code> {
    match p
    case Lit(bytes) => Ok(LitCode(bytes))
    case Any(n) => Ok(AnyCode(n))
    case NotAny(n) => Ok(NotAnyCode(n))
    case Bool(b) => Ok(if b then [] else [Set(IFail, 0)])
    case Chars(bytes) => Ok(CharsCode(bytes))
    case Ranges(pairs) => Ok([SetInstr(RangesSet(pairs))])
    case Cat(a, b) => var x :- Compile(a); var y :- Compile(b); Ok(ConcatCode(x, y))
    case Or(a, b) => var x :- Compile(a); var y :- Compile(b); Ok(UnionCode(x, y))
    case Diff(a, b) => var x :- Compile(a); var y :- Compile(b); Ok(DiffCode(x, y))
    case Neg(a) => var x :- Compile(a); Ok(DiffCode([], x))
    case And(a) => var x :- Compile(a); Ok(AndCode(x))
    case Rep(a, n) => var x :- Compile(a); RepCode(x, n)
    case Opt(a, n) => var x :- Compile(a); Ok(OptCode(x, n))
    case Capt(kind, idx, a) => var x :- Compile(a); Ok(CaptCode(kind, idx, x))
    case Empties(entries) => Ok(EmptiesCode(entries))
  }

  // No union inside `p` restores a choice behind a test of several bytes.
  ghost predicate Safe(p: Pat) {
    match p
    case Cat(a, b) => Safe(a) && Safe(b)
    case Or(a, b) =>
      Safe(a) && Safe(b) && (Compile(a).Ok? && Compile(b).Ok? ==> UnionSafe(Compile(a).value, Compile(b).value))
    case Diff(a, b) => Safe(a) && Safe(b)
    case Neg(a) => Safe(a)
    case And(a) => Safe(a)
    case Rep(a, n) => Safe(a)
    case Opt(a, n) => Safe(a)
    case Capt(_, _, a) => Safe(a)
    case _ => true
  }
}

// Building a pattern and matching it against a subject.

module LpegPattern {
  import opened LpegCode
  import opened LpegPeg
  import opened LpegBuild
  import opened LpegMeaning
  import opened LpegRotate
  import opened LpegSolid
  import opened LpegUnion
  import opened LpegSeparate
  import opened LpegCorrect
  import opened LpegEmit
  import opened LpegFlatten
  import opened LpegMatch
  import opened LpegGuard
  import opened LpegQuiet
  import opened LpegErrors

  lemma CompiledGood(p: Pat, c: Code)
    requires Compile(p) == Ok(c) && Safe(p)
    ensures Good(c, p, Depth(p)) && Solid(c, Depth(p)) && Implements(c, p) && NoEnd(c)
  {
    CompileGood(p);
    GoodBasics(c, p, Depth(p));
    SolidNoEnd(c, Depth(p));
  }

  // The instruction array of a pattern, or the error its construction raises.
  method Build(p: Pat) returns (r: Outcome<array<Instr>>)
    requires Safe(p)
    ensures r.Ok? <==> Compile(p).Ok?
    ensures r.Ok? ==> Holds(r.value, Compile(p).value)
    ensures r.Err? ==> Compile(p) == Err(r.error)
    decreases p
  {
    hide Good, Solid, Implements, NoEnd, ConcatCode, UnionCode, DiffCode, AndCode, RepCode, OptCode, CaptCode;
    match p {
      case Lit(bytes) => var a := StringPatt(bytes); r := Ok(a);
      case Any(n) => var a := NumberPatt(n); r := Ok(a);
      case NotAny(lack) =>
        var n: int := lack;
        var a := NumberPatt(-n); r := Ok(a);
      case Bool(b) => var a := BooleanPatt(b); r := Ok(a);
      case Chars(bytes) => var a := SetPatt(bytes); r := Ok(a);
      case Ranges(pairs) => var a := RangePatt(pairs); r := Ok(a);
      case Empties(entries) => var a := EmptyCaptures(entries); r := Ok(a);
      case Cat(a, b) =>
        var x, y := BuildBoth(a, b, p);
        if x.Err? { return x; }
        if y.Err? { return y; }
        var q := ConcatL(x.value, y.value, Compile(a).value, Compile(b).value);
        r := Ok(q);
      case Or(a, b) =>
        var x, y := BuildBoth(a, b, p);
        if x.Err? { return x; }
        if y.Err? { return y; }
        var q, _ := UnionL(x.value, y.value, Compile(a).value, Compile(b).value, a, Depth(a));
        r := Ok(q);
      case Diff(a, b) =>
        var x, y := BuildBoth(a, b, p);
        if x.Err? { return x; }
        if y.Err? { return y; }
        var q := DiffL(x.value, y.value, Compile(a).value, Compile(b).value);
        r := Ok(q);
      case Neg(a) =>
        var x := BuildOne(a, p);
        if x.Err? { return x; }
        var q := UnmL(x.value, Compile(a).value);
        r := Ok(q);
      case And(a) =>
        var x := BuildOne(a, p);
        if x.Err? { return x; }
        var q := PattAndL(x.value, Compile(a).value);
        r := Ok(q);
      case Rep(a, n) =>
        var x := BuildOne(a, p);
        if x.Err? { return x; }
        r := StarL(x.value, n, Compile(a).value, a, Depth(a));
      case Opt(a, upto) =>
        var n: int := upto;
        var x := BuildOne(a, p);
        if x.Err? { return x; }
        r := StarL(x.value, -n, Compile(a).value, a, Depth(a));
      case Capt(kind, idx, a) =>
        var x := BuildOne(a, p);
        if x.Err? { return x; }
        var q := CaptureAux(x.value, kind, idx, Compile(a).value);
        r := Ok(q);
    }
  }

  method BuildOne(a: Pat, ghost whole: Pat) returns (x: Outcome<array<Instr>>)
    requires Safe(a) && a < whole
    ensures x.Ok? <==> Compile(a).Ok?
    ensures x.Err? ==> Compile(a) == Err(x.error)
    ensures x.Ok? ==> Holds(x.value, Compile(a).value) && NoEnd(Compile(a).value)
                      && Good(Compile(a).value, a, Depth(a)) && Solid(Compile(a).value, Depth(a))
                      && Implements(Compile(a).value, a)
    decreases whole, 0
  {
    hide Good, Solid, Implements, NoEnd, Compile, Safe;
    x := Build(a);
    if x.Ok? { CompiledGood(a, Compile(a).value); }
  }

  method BuildBoth(a: Pat, b: Pat, ghost whole: Pat) returns (x: Outcome<array<Instr>>, y: Outcome<array<Instr>>)
    requires Safe(a) && Safe(b) && a < whole && b < whole
    ensures x.Ok? <==> Compile(a).Ok?
    ensures x.Err? ==> Compile(a) == Err(x.error)
    ensures x.Ok? ==> Holds(x.value, Compile(a).value) && NoEnd(Compile(a).value) && Good(Compile(a).value, a, Depth(a))
    ensures y.Ok? <==> Compile(b).Ok?
    ensures y.Err? ==> Compile(b) == Err(y.error)
    ensures y.Ok? ==> Holds(y.value, Compile(b).value) && NoEnd(Compile(b).value)
    decreases whole, 1
  {
    hide Good, Solid, Implements, NoEnd, Compile, Safe;
    x := BuildOne(a, whole);
    y := BuildOne(b, whole);
  }

  // Position `s` is the `i`th of a subject of `l` bytes, counted from 1, or from the end
  // when `i` is not positive; what lies beyond either end is that end.
  predicate StartsAt(i: int, l: int, s: int) {
    && (1 <= i <= l + 1 ==> s + 1 == i)
    && (-l <= i <= 0 ==> s == l + i)
    && (i > l + 1 ==> s == l)
    && (i < -l ==> s == 0)
  }

  // The position a match starts from.
  function StartAt(i: int, l: nat): (s: nat)
    ensures s <= l && StartsAt(i, l, s)
  {
    if i > 0 then if i <= l then i - 1 else l
    else if l + i >= 0 then l + i else 0
  }

  // Matching `p` from the `i`th position on succeeds where the meaning of `p` says, with the
  // captures it says, and fails otherwise, unless the run exhausts the stack: exactly
  // when it comes to a choice with MAXBACK - 1 others pending, for which the pattern must
  // be that deep.  `Guarded` is what a caller can see on the pattern, `Safe` what it takes:
  // no choice put back behind a longer test.  Where the sets of the pattern are quiet, no
  // search made while building it mistakes one for an instruction.  A pattern that cannot be
  // built has an unbounded repetition whose body may match nothing, or, where more than
  // MAXBACK choices are nested, pends too many of them.
  method MatchL(p: Pat, subj: Subject, i: int) returns (r: Outcome<MatchResult>)
    requires Guarded(p) || Safe(p)
    ensures r.Ok? <==> Compile(p).Ok?
    ensures match r
            case Ok(_) => Fails(p) == Fine
            case Err(e) => Fails(p) == Raises(e)
    ensures Depth(p) <= MAXBACK ==>
              (r.Err? <==> HasEmptyLoop(p)) && (r.Err? ==> r.error == EmptyLoopBody)
    ensures r.Ok? ==> forall s: nat :: s <= |subj| && StartsAt(i, |subj|, s) ==>
              && (r.value.TooMany? <==> Exhausts(Compile(p).value, subj, s))
              && (!r.value.TooMany? ==> r.value == Verdict(Peg(Env(subj, false), p, s, [])))
    ensures r.Ok? && r.value.TooMany? ==> Depth(p) >= MAXBACK
    ensures r.Ok? ==> forall beyond :: QuietPattern(p, beyond) ==> PatternReads(p, beyond)
  {
    hide Compile, Safe, Good, Guarded, QuietPattern, PatternReads, Exhausts, Fails, HasEmptyLoop, Depth, Peg;
    if Guarded(p) { GuardedSafe(p); }
    BuildFails(p);
    if Depth(p) <= MAXBACK { ShallowFails(p); }
    var op := Build(p);
    if op.Err? { return Err(op.error); }
    CompiledGood(p, Compile(p).value);
    var m := Match(op.value, subj, StartAt(i, |subj|), Compile(p).value, p, Depth(p));
    forall beyond | QuietPattern(p, beyond) ensures PatternReads(p, beyond) { QuietPatternReads(p, beyond); }
    r := Ok(m);
  }
}

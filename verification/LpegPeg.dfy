// Patterns as a user writes them, and what they match: parsing expression
// grammars with captures, without rules.

module LpegPeg {
  import opened LpegCode

  type Subject = seq<Byte>

  // `lenient` selects the reading used by the loop verifier: the subject is
  // empty and every predicate is taken to succeed.
  datatype Env = Env(subj: Subject, lenient: bool)

  ghost predicate EnvOk(env: Env) { env.lenient ==> env.subj == [] }

  const LENIENT := Env([], true)

  // An entry of the capture list: `siz` is 0 while the capture is open, and one
  // more than its length once it is closed.
  datatype Capture = Capture(s: int, idx: int, kind: int, siz: int)

  const CCLOSE := 0

  datatype Res = Nope | Got(s: int, caps: seq<Capture>)

  datatype Pat =
    | Lit(bytes: seq<Byte>)
    | Any(n: nat)
    | NotAny(lack: Pos)
    | Bool(truth: bool)
    | Chars(bytes: seq<Byte>)
    | Ranges(pairs: seq<(Byte, Byte)>)
    | Cat(a: Pat, b: Pat)
    | Or(a: Pat, b: Pat)
    | Diff(a: Pat, b: Pat)
    | Neg(a: Pat)
    | And(a: Pat)
    | Rep(a: Pat, n: nat)
    | Opt(a: Pat, upto: Pos)
    | Capt(kind: CapKind, idx: int, a: Pat)
    | Empties(entries: seq<(CapKind, int)>)

  // The byte under position `s`; the subject is followed by a 0 sentinel.
  function CharAt(subj: Subject, s: int): Byte {
    if 0 <= s < |subj| then subj[s] else 0
  }

  function CharsSet(bytes: seq<Byte>): Charset { set b | b in bytes }

  function RangesSet(pairs: seq<(Byte, Byte)>): Charset {
    if pairs == [] then {}
    else (set b | b in FULL_SET && pairs[0].0 <= b <= pairs[0].1) + RangesSet(pairs[1..])
  }

  // It has the bytes of all the ranges.
  lemma {:induction false} InRanges(pairs: seq<(Byte, Byte)>, b: Byte)
    ensures b in RangesSet(pairs) <==> exists k :: 0 <= k < |pairs| && pairs[k].0 <= b <= pairs[k].1
  {
    if pairs != [] {
      InRanges(pairs[1..], b);
      assert b in FULL_SET;
      if k :| 0 <= k < |pairs| && pairs[k].0 <= b <= pairs[k].1 {
        if k > 0 { assert pairs[1..][k - 1] == pairs[k]; }
      }
      if k :| 0 <= k < |pairs[1..]| && pairs[1..][k].0 <= b <= pairs[1..][k].1 { assert pairs[k + 1] == pairs[1..][k]; }
    }
  }

  // Closing the latest capture: an entry still open is completed in place when
  // its length fits, otherwise a closing entry is appended.
  function CloseCap(caps: seq<Capture>, s: int, idx: int, kind: int): seq<Capture> {
    if caps != [] && caps[|caps| - 1].siz == 0 && s - caps[|caps| - 1].s < UCHAR_MAX then
      caps[|caps| - 1 := caps[|caps| - 1].(siz := s - caps[|caps| - 1].s + 1)]
    else
      caps + [Capture(s, idx, kind, 1)]
  }

  function AddEmpties(caps: seq<Capture>, s: int, entries: seq<(CapKind, int)>): seq<Capture>
    decreases |entries|
  {
    if entries == [] then caps
    else AddEmpties(caps + [Capture(s, entries[0].1, entries[0].0, 1)], s, entries[1..])
  }

  function SetMatch(subj: Subject, s: int, cs: Charset, caps: seq<Capture>): Res {
    if 0 <= s < |subj| && subj[s] in cs then Got(s + 1, caps) else Nope
  }

  ghost function Peg(env: Env, p: Pat, s: int, caps: seq<Capture>): (r: Res)
    requires 0 <= s <= |env.subj|
    ensures r.Got? ==> s <= r.s <= |env.subj|
    decreases p, 0, 0
  {
    match p
    case Lit(bytes) =>
      if s + |bytes| <= |env.subj| && env.subj[s..s + |bytes|] == bytes then Got(s + |bytes|, caps) else Nope
    case Any(n) => if s + n <= |env.subj| then Got(s + n, caps) else Nope
    case NotAny(n) => if s + n <= |env.subj| then Nope else Got(s, caps)
    case Bool(b) => if b then Got(s, caps) else Nope
    case Chars(bytes) => SetMatch(env.subj, s, CharsSet(bytes), caps)
    case Ranges(pairs) => SetMatch(env.subj, s, RangesSet(pairs), caps)
    case Cat(a, b) =>
      var r := Peg(env, a, s, caps);
      if r.Got? then Peg(env, b, r.s, r.caps) else Nope
    case Or(a, b) =>
      var r := Peg(env, a, s, caps);
      if r.Got? then r else Peg(env, b, s, caps)
    case Diff(a, b) =>
      if !env.lenient && Peg(env, b, s, caps).Got? then Nope else Peg(env, a, s, caps)
    case Neg(a) =>
      if !env.lenient && Peg(env, a, s, caps).Got? then Nope else Got(s, caps)
    case And(a) =>
      if env.lenient || Peg(env, a, s, caps).Got? then Got(s, caps) else Nope
    case Rep(a, n) => PegRep(env, a, n, s, caps)
    case Opt(a, n) => PegOpt(env, a, n, s, caps)
    case Capt(kind, idx, a) =>
      var r := Peg(env, a, s, caps + [Capture(s, idx, kind, 0)]);
      if r.Got? then Got(r.s, CloseCap(r.caps, r.s, 0, CCLOSE)) else Nope
    case Empties(entries) => Got(s, AddEmpties(caps, s, entries))
  }

  // At least `n` matches of `a`, as many as possible.
  ghost function PegRep(env: Env, a: Pat, n: nat, s: int, caps: seq<Capture>): (r: Res)
    requires 0 <= s <= |env.subj|
    ensures r.Got? ==> s <= r.s <= |env.subj|
    decreases a, n + 1, |env.subj| - s
  {
    var r := Peg(env, a, s, caps);
    if n > 0 then
      if r.Got? then PegRep(env, a, n - 1, r.s, r.caps) else Nope
    else if r.Got? && r.s > s then PegRep(env, a, 0, r.s, r.caps)
    else Got(s, caps)
  }

  // At most `n` matches of `a`, as many as possible.
  ghost function PegOpt(env: Env, a: Pat, n: nat, s: int, caps: seq<Capture>): (r: Res)
    requires 0 <= s <= |env.subj|
    ensures r.Got? && s <= r.s <= |env.subj|
    decreases a, n + 1, 0
  {
    var r := Peg(env, a, s, caps);
    if n > 0 && r.Got? then PegOpt(env, a, n - 1, r.s, r.caps) else Got(s, caps)
  }

  // ----- what the loop verifier relies on ------------------------------------

  // Captures never influence where a pattern matches.
  lemma {:induction false} CapsIrrelevant(env: Env, p: Pat, s: int, caps: seq<Capture>, caps': seq<Capture>)
    requires 0 <= s <= |env.subj|
    ensures Peg(env, p, s, caps).Got? == Peg(env, p, s, caps').Got?
    ensures Peg(env, p, s, caps).Got? ==> Peg(env, p, s, caps).s == Peg(env, p, s, caps').s
    decreases p, 0, 0
  {
    match p
    case Lit(_) =>
    case Any(_) =>
    case NotAny(_) =>
    case Bool(_) =>
    case Chars(_) =>
    case Ranges(_) =>
    case Cat(a, b) =>
      CapsIrrelevant(env, a, s, caps, caps');
      var r, r' := Peg(env, a, s, caps), Peg(env, a, s, caps');
      if r.Got? { CapsIrrelevant(env, b, r.s, r.caps, r'.caps); }
    case Or(a, b) =>
      CapsIrrelevant(env, a, s, caps, caps');
      CapsIrrelevant(env, b, s, caps, caps');
    case Diff(a, b) =>
      CapsIrrelevant(env, a, s, caps, caps');
      CapsIrrelevant(env, b, s, caps, caps');
    case Neg(a) => CapsIrrelevant(env, a, s, caps, caps');
    case And(a) => CapsIrrelevant(env, a, s, caps, caps');
    case Rep(a, n) => CapsIrrelevantRep(env, a, n, s, caps, caps');
    case Opt(a, n) => CapsIrrelevantOpt(env, a, n, s, caps, caps');
    case Capt(kind, idx, a) =>
      CapsIrrelevant(env, a, s, caps + [Capture(s, idx, kind, 0)], caps' + [Capture(s, idx, kind, 0)]);
    case Empties(_) =>
  }

  lemma {:induction false} CapsIrrelevantRep(env: Env, a: Pat, n: nat, s: int, caps: seq<Capture>, caps': seq<Capture>)
    requires 0 <= s <= |env.subj|
    ensures PegRep(env, a, n, s, caps).Got? == PegRep(env, a, n, s, caps').Got?
    ensures PegRep(env, a, n, s, caps).Got? ==> PegRep(env, a, n, s, caps).s == PegRep(env, a, n, s, caps').s
    decreases a, n + 1, |env.subj| - s
  {
    CapsIrrelevant(env, a, s, caps, caps');
    var r, r' := Peg(env, a, s, caps), Peg(env, a, s, caps');
    if n > 0 && r.Got? {
      CapsIrrelevantRep(env, a, n - 1, r.s, r.caps, r'.caps);
    } else if n == 0 && r.Got? && r.s > s {
      CapsIrrelevantRep(env, a, 0, r.s, r.caps, r'.caps);
    }
  }

  lemma {:induction false} CapsIrrelevantOpt(env: Env, a: Pat, n: nat, s: int, caps: seq<Capture>, caps': seq<Capture>)
    requires 0 <= s <= |env.subj|
    ensures PegOpt(env, a, n, s, caps).s == PegOpt(env, a, n, s, caps').s
    decreases a, n + 1, 0
  {
    CapsIrrelevant(env, a, s, caps, caps');
    var r, r' := Peg(env, a, s, caps), Peg(env, a, s, caps');
    if n > 0 && r.Got? {
      CapsIrrelevantOpt(env, a, n - 1, r.s, r.caps, r'.caps);
    }
  }

  // A pattern that the lenient reading rejects on the empty subject consumes at
  // least one byte whenever it matches, on every subject.
  lemma {:induction false} RejectedConsumes(p: Pat, env: Env, s: int, caps: seq<Capture>)
    requires !env.lenient && 0 <= s <= |env.subj|
    requires Peg(LENIENT, p, 0, []).Nope?
    ensures Peg(env, p, s, caps).Got? ==> Peg(env, p, s, caps).s > s
    decreases p, 0
  {
    match p
    case Lit(_) =>
    case Any(_) =>
    case NotAny(_) =>
    case Bool(_) =>
    case Chars(_) =>
    case Ranges(_) =>
    case Cat(a, b) =>
      var l := Peg(LENIENT, a, 0, []);
      var r := Peg(env, a, s, caps);
      if l.Nope? {
        RejectedConsumes(a, env, s, caps);
      } else if r.Got? {
        CapsIrrelevant(LENIENT, b, 0, l.caps, []);
        RejectedConsumes(b, env, r.s, r.caps);
      }
    case Or(a, b) =>
      RejectedConsumes(a, env, s, caps);
      RejectedConsumes(b, env, s, caps);
    case Diff(a, b) => RejectedConsumes(a, env, s, caps);
    case Neg(_) =>
    case And(_) =>
    case Rep(a, n) => RejectedConsumesRep(a, n, env, s, caps, []);
    case Opt(_, _) =>
    case Capt(kind, idx, a) =>
      CapsIrrelevant(LENIENT, a, 0, [Capture(0, idx, kind, 0)], []);
      assert [] + [Capture(0, idx, kind, 0)] == [Capture(0, idx, kind, 0)];
      RejectedConsumes(a, env, s, caps + [Capture(s, idx, kind, 0)]);
    case Empties(_) =>
  }

  lemma {:induction false} RejectedConsumesRep(a: Pat, n: nat, env: Env, s: int, caps: seq<Capture>,
                                               lcaps: seq<Capture>)
    requires !env.lenient && 0 <= s <= |env.subj|
    requires PegRep(LENIENT, a, n, 0, lcaps).Nope?
    ensures PegRep(env, a, n, s, caps).Got? ==> PegRep(env, a, n, s, caps).s > s
    decreases a, n + 1
  {
    var l := Peg(LENIENT, a, 0, lcaps);
    CapsIrrelevant(LENIENT, a, 0, lcaps, []);
    if l.Nope? {
      RejectedConsumes(a, env, s, caps);
    } else {
      var r := Peg(env, a, s, caps);
      if r.Got? { RejectedConsumesRep(a, n - 1, env, r.s, r.caps, l.caps); }
    }
  }
}

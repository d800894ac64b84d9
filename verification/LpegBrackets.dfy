// The capture list read as it is read when captures are turned into values: an entry with
// a size stands for itself, one without is followed by what it encloses and a closing entry.

module LpegBrackets {
  import opened LpegCode
  import opened LpegPeg

  predicate IsClose(x: Capture) { x.kind == CCLOSE }

  // Behind the closing entry that ends the `n + 1` captures open before entry `i`.
  function Skip(cs: seq<Capture>, i: nat, n: nat): nat
    decreases |cs| - i
  {
    if i >= |cs| then i
    else if IsClose(cs[i]) then (if n == 0 then i + 1 else Skip(cs, i + 1, n - 1))
    else if cs[i].siz == 0 then Skip(cs, i + 1, n + 1)
    else Skip(cs, i + 1, n)
  }

  // The entry behind the capture that begins at entry `i`.
  function NextCap(cs: seq<Capture>, i: nat): nat
    requires i < |cs|
  {
    if cs[i].siz != 0 then i + 1 else Skip(cs, i + 1, 0)
  }

  function CloseAddr(x: Capture): int { x.s + x.siz - 1 }

  // No capture of a pattern has the kind of closing entries.
  predicate Named(p: Pat) {
    match p
    case Cat(a, b) => Named(a) && Named(b)
    case Or(a, b) => Named(a) && Named(b)
    case Diff(a, b) => Named(a) && Named(b)
    case Neg(a) => Named(a)
    case And(a) => Named(a)
    case Rep(a, _) => Named(a)
    case Opt(a, _) => Named(a)
    case Capt(kind, _, a) => kind != CCLOSE && Named(a)
    case Empties(entries) => forall i :: 0 <= i < |entries| ==> entries[i].0 != CCLOSE
    case _ => true
  }

  // ----- balanced lists --------------------------------------------------------------------

  function After(x: Capture, n: int): int {
    if IsClose(x) then (if x.siz == 0 then -1 else n - 1) else if x.siz == 0 then n + 1 else n
  }

  // How many captures are open behind `xs` when `n` are in front of it; -1 when it closes
  // more than there are.
  function Level(xs: seq<Capture>, n: int): (m: int)
    ensures m >= -1
  {
    if n < 0 then -1
    else if xs == [] then n
    else Level(xs[1..], After(xs[0], n))
  }

  predicate Balanced(xs: seq<Capture>) { Level(xs, 0) == 0 }

  lemma {:induction false} LevelMore(xs: seq<Capture>, n: int, k: nat)
    requires Level(xs, n) >= 0
    ensures Level(xs, n + k) == Level(xs, n) + k
    decreases |xs|
  {
    if xs != [] {
      LevelMore(xs[1..], After(xs[0], n), k);
    }
  }

  lemma {:induction false} LevelJoin(xs: seq<Capture>, ys: seq<Capture>, n: int)
    ensures Level(xs + ys, n) == Level(ys, Level(xs, n))
    decreases |xs|
  {
    if xs == [] {
      assert xs + ys == ys;
    } else if n >= 0 {
      assert (xs + ys)[1..] == xs[1..] + ys;
      LevelJoin(xs[1..], ys, After(xs[0], n));
    }
  }

  lemma BalancedJoin(xs: seq<Capture>, ys: seq<Capture>)
    requires Balanced(xs) && Balanced(ys)
    ensures Balanced(xs + ys)
  {
    LevelJoin(xs, ys, 0);
  }

  // Nothing is left open at the end of a balanced list.
  lemma LastShut(xs: seq<Capture>)
    requires Balanced(xs) && xs != []
    ensures xs[|xs| - 1].siz != 0
  {
    var front, last := xs[..|xs| - 1], xs[|xs| - 1];
    assert xs == front + [last];
    LevelJoin(front, [last], 0);
    assert [last][1..] == [];
  }

  // Reading on over `xs`.
  lemma {:induction false} SkipOver(cs: seq<Capture>, i: nat, xs: seq<Capture>, n: nat)
    requires i + |xs| <= |cs| && cs[i..i + |xs|] == xs && Level(xs, n) >= 0
    ensures Skip(cs, i, n) == Skip(cs, i + |xs|, Level(xs, n))
    decreases |xs|
  {
    if xs != [] {
      assert xs[0] == cs[i] && cs[i + 1..i + |xs|] == xs[1..];
      SkipOver(cs, i + 1, xs[1..], After(xs[0], n));
    }
  }

  // ----- what a match adds ------------------------------------------------------------------

  // `caps'` is `caps` with whole captures behind it.
  predicate Adds(caps: seq<Capture>, caps': seq<Capture>) {
    |caps| <= |caps'| && caps'[..|caps|] == caps && Balanced(caps'[|caps|..])
  }

  lemma AddsMore(caps: seq<Capture>, caps1: seq<Capture>, caps2: seq<Capture>)
    requires Adds(caps, caps1) && Adds(caps1, caps2)
    ensures Adds(caps, caps2)
  {
    assert caps2[|caps|..] == caps1[|caps|..] + caps2[|caps1|..];
    BalancedJoin(caps1[|caps|..], caps2[|caps1|..]);
  }

  lemma AddsNone(caps: seq<Capture>)
    ensures Adds(caps, caps)
  {
    assert caps[|caps|..] == [];
  }

  lemma {:induction false} EmptiesAdd(caps: seq<Capture>, s: int, entries: seq<(CapKind, int)>)
    requires forall i :: 0 <= i < |entries| ==> entries[i].0 != CCLOSE
    ensures Adds(caps, AddEmpties(caps, s, entries))
    decreases |entries|
  {
    if entries == [] {
      AddsNone(caps);
    } else {
      var x := Capture(s, entries[0].1, entries[0].0, 1);
      assert (caps + [x])[|caps|..] == [x] && [x][1..] == [];
      EmptiesAdd(caps + [x], s, entries[1..]);
      AddsMore(caps, caps + [x], AddEmpties(caps, s, entries));
    }
  }

  // A capture that is closed: with its size, or by a closing entry behind what it encloses.
  lemma Closing(caps: seq<Capture>, open: Capture, caps1: seq<Capture>, e: int)
    requires open.siz == 0 && !IsClose(open) && open.s <= e && Adds(caps + [open], caps1)
    ensures var cs, i := CloseCap(caps1, e, 0, CCLOSE), |caps|;
            && Adds(caps, cs) && i < |cs| && cs[i].s == open.s && cs[i].idx == open.idx && cs[i].kind == open.kind
            && NextCap(cs, i) == |cs| && CloseAddr(cs[|cs| - 1]) == e
            && (cs[i].siz != 0 <==> |caps1| == i + 1 && e - open.s < UCHAR_MAX) && 0 <= cs[i].siz <= UCHAR_MAX
  {
    var cs, i := CloseCap(caps1, e, 0, CCLOSE), |caps|;
    var inner := caps1[i + 1..];
    assert caps1 == caps + [open] + inner && caps1[i] == open;
    if inner != [] { LastShut(inner); }
    if inner == [] && e - open.s < UCHAR_MAX {
      assert cs[i..] == [cs[i]] && [cs[i]][1..] == [];
    } else {
      var close := Capture(e, 0, CCLOSE, 1);
      assert cs == caps1 + [close] by {
        if inner != [] { assert caps1[|caps1| - 1] == inner[|inner| - 1]; }
      }
      assert cs[i..] == [open] + inner + [close] && cs[i + 1..i + 1 + |inner|] == inner;
      LevelMore(inner, 0, 1);
      LevelJoin([open], inner, 0);
      LevelJoin([open] + inner, [close], 0);
      assert [open][1..] == [] && [close][1..] == [];
      SkipOver(cs, i + 1, inner, 0);
    }
  }

  lemma {:induction false} PegAdds(env: Env, p: Pat, s: int, caps: seq<Capture>)
    requires Named(p) && 0 <= s <= |env.subj|
    ensures var r := Peg(env, p, s, caps); r.Got? ==> Adds(caps, r.caps)
    decreases p, 0, 0
  {
    hide Adds, CloseCap, AddEmpties;
    AddsNone(caps);
    match p
    case Cat(a, b) =>
      PegAdds(env, a, s, caps);
      var r := Peg(env, a, s, caps);
      if r.Got? {
        PegAdds(env, b, r.s, r.caps);
        if Peg(env, b, r.s, r.caps).Got? { AddsMore(caps, r.caps, Peg(env, b, r.s, r.caps).caps); }
      }
    case Or(a, b) => PegAdds(env, a, s, caps); PegAdds(env, b, s, caps);
    case Diff(a, _) => PegAdds(env, a, s, caps);
    case Rep(a, n) => RepAdds(env, a, n, s, caps);
    case Opt(a, n) => OptAdds(env, a, n, s, caps);
    case Capt(kind, idx, a) =>
      var open := Capture(s, idx, kind, 0);
      PegAdds(env, a, s, caps + [open]);
      var r := Peg(env, a, s, caps + [open]);
      if r.Got? { Closing(caps, open, r.caps, r.s); }
    case Empties(entries) => EmptiesAdd(caps, s, entries);
    case _ =>
  }

  lemma {:induction false} RepAdds(env: Env, a: Pat, n: nat, s: int, caps: seq<Capture>)
    requires Named(a) && 0 <= s <= |env.subj|
    ensures var r := PegRep(env, a, n, s, caps); r.Got? ==> Adds(caps, r.caps)
    decreases a, n + 1, |env.subj| - s
  {
    hide Adds;
    AddsNone(caps);
    PegAdds(env, a, s, caps);
    var r := Peg(env, a, s, caps);
    if r.Got? && (n > 0 || r.s > s) {
      var m: nat := if n > 0 then n - 1 else 0;
      RepAdds(env, a, m, r.s, r.caps);
      if PegRep(env, a, m, r.s, r.caps).Got? { AddsMore(caps, r.caps, PegRep(env, a, m, r.s, r.caps).caps); }
    }
  }

  lemma {:induction false} OptAdds(env: Env, a: Pat, n: nat, s: int, caps: seq<Capture>)
    requires Named(a) && 0 <= s <= |env.subj|
    ensures Adds(caps, PegOpt(env, a, n, s, caps).caps)
    decreases a, n + 1, 0
  {
    hide Adds;
    AddsNone(caps);
    PegAdds(env, a, s, caps);
    var r := Peg(env, a, s, caps);
    if n > 0 && r.Got? {
      OptAdds(env, a, n - 1, r.s, r.caps);
      AddsMore(caps, r.caps, PegOpt(env, a, n - 1, r.s, r.caps).caps);
    }
  }

  // A capture adds one whole entry of its kind.  Read, it begins where its body began and
  // ends where its body ended, and it takes up all that was added.
  lemma CaptureDelimits(env: Env, kind: CapKind, idx: int, a: Pat, s: int, caps: seq<Capture>)
    requires Named(Capt(kind, idx, a)) && 0 <= s <= |env.subj|
    ensures match Peg(env, Capt(kind, idx, a), s, caps)
            case Nope => true
            case Got(e, cs) =>
              var i := |caps|;
              && i < |cs| && cs[..i] == caps && cs[i].s == s && cs[i].kind == kind && cs[i].idx == idx
              && NextCap(cs, i) == |cs| && CloseAddr(cs[|cs| - 1]) == e && 0 <= cs[i].siz <= UCHAR_MAX
  {
    hide CloseCap, NextCap;
    var open := Capture(s, idx, kind, 0);
    PegAdds(env, a, s, caps + [open]);
    var r := Peg(env, a, s, caps + [open]);
    if r.Got? { Closing(caps, open, r.caps, r.s); }
  }

  // The captures of a successful match are whole ones, and those taken before stay.
  lemma MatchBalanced(env: Env, p: Pat, s: int)
    requires Named(p) && 0 <= s <= |env.subj| && Peg(env, p, s, []).Got?
    ensures Balanced(Peg(env, p, s, []).caps)
  {
    PegAdds(env, p, s, []);
    assert Peg(env, p, s, []).caps[0..] == Peg(env, p, s, []).caps;
  }
}

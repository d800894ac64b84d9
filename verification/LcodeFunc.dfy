// The code generator as it works: one array of instructions, expression descriptors that are
// updated in place, and lists of open jumps that live in the jumps themselves.  Every method
// is proved to do what the function of the same name on sequences does.

module LcodeFunc {
  import opened LcodeVm
  import opened LcodeGen
  import opened LcodePatch
  import opened LcodeThread
  import Spec = LcodeGen
  import Neg = LcodeNot
  import opened LcodeAssign
  import opened LcodeGiven
  import M = LcodeMeaning
  import C = LcodeCond
  import L = LcodeLoad
  import N = LcodeNeed

  lemma DischargedOk(fs0: FS, fs: FS, fs': FS)
    requires C.Ext(fs0, fs, |fs.code|, AsSet(fs.jpc)) && fs' == fs.(code := Discharged(fs), jpc := [])
    ensures M.Ok(fs')
  {
    C.DischargedPairs(fs);
  }

  lemma OperandStays(fs: FS, e: Exp)
    requires (e.k.VNonReloc? || e.k.VConst?) && e.t == [] && e.f == []
    ensures Exp2RK(fs, e) == (fs, e)
  {
  }

  lemma AnyRegKind(fs: FS, e: Exp)
    requires !e.k.VLocal? && !e.k.VJmp?
    ensures Discharge2AnyReg(fs, e).1.k.VNonReloc?
  {
  }

  class ExpDesc {
    var k: Kind
    var t: int
    var f: int
    ghost var ts: seq<int>
    ghost var fls: seq<int>

    constructor ()
    {
      k, t, f := VNonReloc(0), NO_JUMP, NO_JUMP;
      ts, fls := [], [];
    }

    ghost function Abs(): Exp
      reads this
    {
      Exp(k, ts, fls)
    }
  }

  class FuncState {
    var code: seq<Word>
    var jpc: int
    var freereg: int
    var nactvar: int
    var maxstack: int
    ghost var c: Code
    ghost var jpcs: seq<int>

    ghost function Abs(): FS
      reads this
    {
      FS(c, jpcs, freereg, nactvar, maxstack)
    }

    ghost predicate Valid()
      reads this
    {
      Stored(c, code) && Threaded(c, code, jpc, jpcs) && DistinctSeq(jpcs)
    }

    ghost predicate Has(e: ExpDesc)
      reads this, e
    {
      Holds(c, code, jpcs, e.Abs(), e.t, e.f)
    }

    constructor (nact: nat)
      ensures Valid() && Abs() == FS([], [], nact, nact, nact)
    {
      code, jpc, freereg, nactvar, maxstack := [], NO_JUMP, nact, nact, nact;
      c, jpcs := [], [];
    }

    // ----- lists -----------------------------------------------------------------------

    method GetJumpControl(pc: int) returns (i: int)
      requires Stored(c, code)
      ensures i == Control(c, pc)
    {
      StoredControl(c, code, pc);
      i := if 1 <= pc <= |code| && IsTest(code[pc - 1]) then pc - 1 else pc;
    }

    // Whether a jump of the list brings no value.
    method NeedValue(head: int, ghost s: seq<int>) returns (b: bool)
      requires Stored(c, code) && Threaded(c, code, head, s)
      ensures b == Spec.NeedValue(c, s)
    {
      var list := head;
      ghost var n := 0;
      while list != NO_JUMP
        invariant 0 <= n <= |s| && Threaded(c, code, list, s[n..])
        invariant forall j :: j in s[..n] ==> HasTestSet(c, j)
        decreases |s| - n
      {
        var i := GetJumpControl(list);
        assert OpenAt(c, code, list) && list == s[n] && s[n..][1..] == s[n + 1..];
        assert StoredAt(c, code, i);
        if !(code[i].Op? && code[i].i.OpTestSet?) {
          assert list in s && !HasTestSet(c, list);
          return true;
        }
        assert s[..n + 1] == s[..n] + [list];
        list := NextJump(code, list);
        n := n + 1;
      }
      assert s[..n] == s;
      return false;
    }

    method PatchTestReg(node: int, reg: int) returns (r: bool)
      requires Stored(c, code) && 0 <= node < |code| && code[node].Jump?
      modifies this`code, this`c
      ensures c == Spec.PatchTestReg(old(c), node, reg) && r == HasTestSet(old(c), node)
      ensures Stored(c, code) && Kept(old(c), old(code), c, code, {}) && |code| == |old(code)|
    {
      var i := GetJumpControl(node);
      assert StoredAt(c, code, i) && StoredAt(c, code, node);
      if !(code[i].Op? && code[i].i.OpTestSet?) { return false; }
      var b, k := code[i].i.b, code[i].i.c;
      c := Spec.PatchTestReg(c, node, reg);
      code := code[i := Op(if reg != NO_REG && reg != b then OpTestSet(reg, b, k) else OpTest(b, k))];
      forall x | 0 <= x < |code| ensures StoredAt(c, code, x) { assert StoredAt(old(c), old(code), x); }
      return true;
    }

    method RemoveValues(head: int, ghost s: seq<int>)
      requires Stored(c, code) && Threaded(c, code, head, s)
      modifies this`code, this`c
      ensures c == Spec.RemoveValues(old(c), s) && SameButSets(old(c), c)
      ensures Stored(c, code) && Kept(old(c), old(code), c, code, {}) && |code| == |old(code)|
    {
      var list := head;
      ghost var n := 0;
      while list != NO_JUMP
        invariant 0 <= n <= |s| && Stored(c, code) && Threaded(c, code, list, s[n..]) && |code| == |old(code)|
        invariant Kept(old(c), old(code), c, code, {})
        invariant SameButSets(old(c), c)
        invariant Spec.RemoveValues(c, s[n..]) == Spec.RemoveValues(old(c), s)
        decreases |s| - n
      {
        assert list == s[n] && OpenAt(c, code, list) && s[n..][1..] == s[n + 1..];
        ghost var c0, code0 := c, code;
        var _ := PatchTestReg(list, NO_REG);
        ThreadedKept(c0, code0, c, code, {}, list, s[n..]);
        KeptTrans(old(c), old(code), {}, c0, code0, {}, c, code);
        list := NextJump(code, list);
        n := n + 1;
      }
    }

    method FixJump(pc: int, dest: int)
      requires 0 <= pc < |code| && dest != NO_JUMP
      modifies this`code
      ensures code == old(code)[pc := Jump(dest - (pc + 1))]
    {
      code := code[pc := Jump(dest - (pc + 1))];
    }

    // One jump of a list that goes on with `rest`.
    method PatchJump(pc: int, vtarget: int, reg: int, dtarget: int, ghost rest: seq<int>)
      requires Stored(c, code) && rest != [] && pc == rest[0] && Threaded(c, code, pc, rest) && DistinctSeq(rest)
      requires vtarget != NO_JUMP && (dtarget != NO_JUMP || !Spec.NeedValue(c, rest))
      modifies this`code, this`c
      ensures c == Spec.PatchOne(old(c), pc, vtarget, reg, dtarget)
      ensures Stored(c, code) && Kept(old(c), old(code), c, code, {pc}) && |code| == |old(code)|
      ensures Threaded(c, code, NextJump(old(code), pc), rest[1..])
      ensures dtarget != NO_JUMP || !Spec.NeedValue(c, rest[1..])
    {
      assert OpenAt(c, code, pc) && pc in rest;
      ThreadedList(c, code, pc, rest);
      if dtarget == NO_JUMP { NeedValueStays(c, rest, vtarget, reg, dtarget); }
      var valued := PatchTestReg(pc, reg);
      ghost var c1, code1 := c, code;
      if valued {
        FixJump(pc, vtarget);
      } else {
        FixJump(pc, dtarget);
      }
      c := c[pc := OpJmp(if valued then vtarget else dtarget)];
      NodePatched(old(c), old(code), rest, c1, code1, if valued then vtarget else dtarget);
    }

    // Patches a list: jumps that bring a value lead to `vtarget`, the others to `dtarget`.
    method PatchListAux(head: int, vtarget: int, reg: int, dtarget: int, ghost s: seq<int>)
      requires Stored(c, code) && Threaded(c, code, head, s) && DistinctSeq(s)
      requires vtarget != NO_JUMP && (dtarget != NO_JUMP || !Spec.NeedValue(c, s))
      modifies this`code, this`c
      ensures c == Spec.PatchList(old(c), s, vtarget, reg, dtarget)
      ensures Stored(c, code) && Kept(old(c), old(code), c, code, AsSet(s)) && |code| == |old(code)|
    {
      var list := head;
      ghost var n := 0;
      while list != NO_JUMP
        invariant 0 <= n <= |s| && Stored(c, code) && Threaded(c, code, list, s[n..]) && |code| == |old(code)|
        invariant Kept(old(c), old(code), c, code, AsSet(s))
        invariant dtarget != NO_JUMP || !Spec.NeedValue(c, s[n..])
        invariant Spec.PatchList(c, s[n..], vtarget, reg, dtarget) == Spec.PatchList(old(c), s, vtarget, reg, dtarget)
        decreases |s| - n
      {
        ghost var c0, code0 := c, code;
        assert s[n..][1..] == s[n + 1..] && list == s[n] && list in s;
        var next := NextJump(code, list);
        PatchJump(list, vtarget, reg, dtarget, s[n..]);
        KeptTrans(old(c), old(code), AsSet(s), c0, code0, {list}, c, code);
        list := next;
        n := n + 1;
      }
    }
  
    // Appends the list `u` to the list `s`.
    method Concat(l1: int, l2: int, ghost s: seq<int>, ghost u: seq<int>) returns (l: int)
      requires Stored(c, code) && Threaded(c, code, l1, s) && Threaded(c, code, l2, u) && DistinctSeq(s)
               && Disjoint(s, u)
      modifies this`code
      ensures Threaded(c, code, l, s + u)
      ensures Stored(c, code) && Kept(c, old(code), c, code, AsSet(s)) && |code| == |old(code)|
    {
      ThreadedOpen(c, code, l1, s);
      ThreadedOpen(c, code, l2, u);
      if l2 == NO_JUMP {
        assert s + u == s;
        return l1;
      }
      if l1 == NO_JUMP {
        assert s + u == u;
        return l2;
      }
      var list := l1;
      ghost var n := 0;
      while NextJump(code, list) != NO_JUMP
        invariant 0 <= n < |s| && list == s[n] && Threaded(c, code, list, s[n..]) && code == old(code)
        decreases |s| - n
      {
        assert s[n..][1..] == s[n + 1..];
        list := NextJump(code, list);
        n := n + 1;
      }
      assert s[n..][1..] == s[n + 1..];
      assert n == |s| - 1;
      assert list in s && OpenAt(c, code, list);
      FixJump(list, l2);
      forall i | 0 <= i < |code| ensures StoredAt(c, code, i) { assert StoredAt(c, old(code), i); }
      ThreadedConcat(c, old(code), l1, s, l2, u, code);
      return l1;
    }

    // The jumps to here are patched: they lead to what comes next.
    method DischargeJpc()
      requires Valid()
      modifies this`code, this`c, this`jpc, this`jpcs
      ensures Valid() && c == Discharged(old(Abs())) && jpcs == []
      ensures Kept(old(c), old(code), c, code, AsSet(old(jpcs))) && |code| == |old(code)|
    {
      PatchListAux(jpc, |code|, NO_REG, |code|, jpcs);
      jpc, jpcs := NO_JUMP, [];
    }

    method Code(w: Word, ghost i: Instr) returns (pc: int)
      requires Valid() && if i == OpJmp(NO_JUMP) then w == Jump(NO_JUMP) else w == Op(i) && !i.OpJmp?
      modifies this`code, this`c, this`jpc, this`jpcs
      ensures Valid() && Abs() == Emit(old(Abs()), i) && pc == |old(code)|
      ensures Kept(old(c), old(code), c, code, AsSet(old(jpcs))) && |code| == |old(code)| + 1 && code[pc] == w
    {
      DischargeJpc();
      pc := |code|;
      ghost var c0, code0 := c, code;
      code := code + [w];
      c := c + [i];
      forall x | 0 <= x < |code| ensures StoredAt(c, code, x) { if x < |code0| { assert StoredAt(c0, code0, x); } }
    }

    // An open jump; the jumps to here are put on hold in its list.
    method JumpHere() returns (j: int)
      requires Valid()
      modifies this`code, this`c, this`jpc, this`jpcs
      ensures Valid() && Abs() == Spec.Jump(old(Abs())).0 && jpcs == [] && j == |old(code)|
      ensures Threaded(c, code, j, [j] + old(jpcs)) && DistinctSeq([j] + old(jpcs))
      ensures Kept(old(c), old(code), c, code, {}) && |code| == |old(code)| + 1
    {
      var held := jpc;
      ghost var s := jpcs;
      ThreadedOpen(c, code, held, s);
      jpc, jpcs := NO_JUMP, [];
      j := Code(Word.Jump(NO_JUMP), OpJmp(NO_JUMP));
      assert c[j] == OpJmp(NO_JUMP) && Threaded(c, code, j, [j]);
      ThreadedKept(old(c), old(code), c, code, {}, held, s);
      ghost var code0 := code;
      var l := Concat(j, held, [j], s);
      ConsDistinct(j, s);
      assert l == j;
    }

    method CondJump(i: Instr) returns (j: int)
      requires Valid() && TestMode(i)
      modifies this`code, this`c, this`jpc, this`jpcs
      ensures Valid() && (Abs(), [j]) == Spec.CondJump(old(Abs()), i) && jpcs == [] && j == |old(code)| + 1
      ensures Threaded(c, code, j, [j])
      ensures Kept(old(c), old(code), c, code, AsSet(old(jpcs))) && |code| == |old(code)| + 2
      ensures |c| == |code| && c[j - 1] == i
    {
      ghost var c0, code0 := c, code;
      var _ := Code(Op(i), i);
      assert jpcs == [];
      ghost var c1, code1 := c, code;
      j := JumpHere();
      assert [j] + [] == [j];
      KeptTrans(c0, code0, AsSet(old(jpcs)), c1, code1, {}, c, code);
    }

    // The jumps of the list lead to here.
    method PatchToHere(list: int, ghost s: seq<int>)
      requires Valid() && Threaded(c, code, list, s) && DistinctSeq(s) && Disjoint(jpcs, s)
      modifies this`code, this`jpc, this`jpcs
      ensures Valid() && Abs() == Spec.PatchToHere(old(Abs()), s)
      ensures Kept(c, old(code), c, code, AsSet(old(jpcs))) && |code| == |old(code)|
    {
      jpc := Concat(jpc, list, jpcs, s);
      DistinctAppend(jpcs, s);
      jpcs := jpcs + s;
    }

    // ----- registers -----------------------------------------------------------------------

    method ReserveReg()
      modifies this`freereg, this`maxstack
      ensures Abs() == Reserve(old(Abs()))
    {
      var newstack := freereg + 1;
      if newstack > maxstack { maxstack := newstack; }
      freereg := freereg + 1;
    }

    method FreeReg(reg: int)
      modifies this`freereg
      ensures Abs() == Spec.FreeReg(old(Abs()), reg)
    {
      if reg >= nactvar { freereg := freereg - 1; }
    }

    method FreeExp(e: ExpDesc)
      modifies this`freereg
      ensures Abs() == Spec.FreeExp(old(Abs()), e.Abs())
    {
      if e.k.VNonReloc? { FreeReg(e.k.reg); }
    }

    method DischargeVars(e: ExpDesc)
      requires Has(e)
      modifies e`k
      ensures Has(e) && e.Abs() == Spec.DischargeVars(old(e.Abs()))
    {
      if e.k.VLocal? { e.k := VNonReloc(e.k.reg); }
    }
  
    // ----- values in registers -------------------------------------------------------------

    // Only the jumps of `e` and those to here were changed, and only they or new ones are
    // now held.
    twostate predicate Did(e: ExpDesc)
      reads this, e
    {
      && Valid() && Has(e)
      && Kept(old(c), old(code), c, code, old(Mine(jpcs, e.Abs())))
      && FreshFrom(Mine(jpcs, e.Abs()), old(Mine(jpcs, e.Abs())), old(|code|))
      && old(|code|) <= |code|
    }

    // Sets the target register of a negation.
    method SetTarget(pc: int, reg: int)
      requires Valid() && 0 <= pc < |c| && c[pc].OpNot?
      modifies this`code, this`c
      ensures c == old(c)[pc := OpNot(reg, old(c)[pc].b)]
      ensures Valid() && Kept(old(c), old(code), c, code, {}) && |code| == |old(code)|
    {
      assert StoredAt(c, code, pc);
      var i := OpNot(reg, code[pc].i.b);
      code := code[pc := Op(i)];
      c := c[pc := i];
      forall x | 0 <= x < |code| ensures StoredAt(c, code, x) { assert StoredAt(old(c), old(code), x); }
      ThreadedKept(old(c), old(code), c, code, {}, jpc, jpcs);
    }

    method Discharge2Reg(e: ExpDesc, reg: int)
      requires Valid() && Has(e)
      modifies this`code, this`c, this`jpc, this`jpcs, e`k
      ensures (Abs(), e.Abs()) == Spec.Discharge2Reg(old(Abs()), old(e.Abs()), reg)
      ensures Did(e) && Kept(old(c), old(code), c, code, AsSet(old(jpcs)))
    {
      hide Stored, Threaded, DistinctSeq, PatchList, Discharged;
      StoredSize(c, code);
      DischargeVars(e);
      ghost var e1 := e.Abs();
      if e.k.VReloc? {
        SetTarget(e.k.pc, reg);
        e.k := VNonReloc(reg);
        HoldsKept(old(c), old(code), old(jpcs), e1, e.t, e.f, c, code, {}, jpcs, e.k);
      } else if e.k.VConst? {
        var _ := Code(Op(LoadOf(reg, e.k.c)), LoadOf(reg, e.k.c));
        e.k := VNonReloc(reg);
        HoldsKept(old(c), old(code), old(jpcs), e1, e.t, e.f, c, code, AsSet(old(jpcs)), jpcs, e.k);
      } else if e.k.VNonReloc? {
        if reg != e.k.reg {
          var _ := Code(Op(OpMove(reg, e.k.reg)), OpMove(reg, e.k.reg));
        }
        e.k := VNonReloc(reg);
        HoldsKept(old(c), old(code), old(jpcs), e1, e.t, e.f, c, code, AsSet(old(jpcs)), jpcs, e.k);
      } else {
        KeptSame(c, code, AsSet(jpcs));
      }
    }

    method Discharge2AnyReg(e: ExpDesc)
      requires Valid() && Has(e)
      modifies this`code, this`c, this`jpc, this`jpcs, this`freereg, this`maxstack, e`k
      ensures (Abs(), e.Abs()) == Spec.Discharge2AnyReg(old(Abs()), old(e.Abs()))
      ensures Did(e) && Kept(old(c), old(code), c, code, AsSet(old(jpcs)))
    {
      if !e.k.VNonReloc? {
        ReserveReg();
        Discharge2Reg(e, freereg - 1);
      }
    }
  
    method LoadValues(reg: int, around: bool) returns (pf: int)
      requires Valid()
      modifies this`code, this`c, this`jpc, this`jpcs
      ensures Valid() && (Abs(), pf) == Loads(old(Abs()), reg, around) && pf >= 0 && |code| >= |old(code)|
      ensures Kept(old(c), old(code), c, code, AsSet(old(jpcs)))
      ensures forall j :: j in jpcs ==> j in old(jpcs) || j >= |old(code)|
    {
      ghost var c0, code0, j0 := c, code, jpcs;
      var fj := NO_JUMP;
      ghost var held: seq<int> := [];
      if around {
        fj := JumpHere();
        held := [fj] + j0;
      }
      ghost var c1, code1 := c, code;
      pf := Code(Op(OpLoadBool(reg, false, true)), OpLoadBool(reg, false, true));
      ghost var c2, code2 := c, code;
      var _ := Code(Op(OpLoadBool(reg, true, false)), OpLoadBool(reg, true, false));
      KeptTrans(c1, code1, AsSet(if around then [] else j0), c2, code2, {}, c, code);
      ThreadedKept(c1, code1, c, code, AsSet(if around then [] else j0), fj, held);
      KeptTrans(c0, code0, AsSet(j0), c1, code1, AsSet(if around then [] else j0), c, code);
      ghost var c3, code3 := c, code;
      PatchToHere(fj, held);
      KeptTrans(c0, code0, AsSet(j0), c3, code3, {}, c, code);
    }
  
    // The loads, when some jump brings no value.
    method MaybeLoad(reg: int, around: bool, t: int, ghost ts: seq<int>, f: int, ghost fls: seq<int>) returns (pf: int)
      requires Valid() && Exits(c, code, jpcs, t, ts, f, fls)
      modifies this`code, this`c, this`jpc, this`jpcs
      ensures Valid() && Exits(c, code, jpcs, t, ts, f, fls) && |code| >= |old(code)| && pf >= NO_JUMP
      ensures (Abs(), pf) == if Spec.NeedValue(old(c), ts) || Spec.NeedValue(old(c), fls)
                             then Loads(old(Abs()), reg, around) else (old(Abs()), NO_JUMP)
      ensures pf == NO_JUMP ==> !Spec.NeedValue(c, ts) && !Spec.NeedValue(c, fls)
      ensures Kept(old(c), old(code), c, code, AsSet(old(jpcs)))
      ensures forall j :: j in jpcs ==> j in old(jpcs) || j >= |old(code)|
    {
      pf := NO_JUMP;
      var needed := NeedValue(t, ts);
      if !needed { needed := NeedValue(f, fls); }
      ExitsBelow(c, code, jpcs, t, ts, f, fls);
      if needed {
        pf := LoadValues(reg, around);
        ExitsKept(old(c), old(code), old(jpcs), t, ts, f, fls, c, code, AsSet(old(jpcs)), jpcs);
      }
    }

    method PatchBoth(reg: int, pf: int, t: int, ghost ts: seq<int>, f: int, ghost fls: seq<int>)
      requires Valid() && Exits(c, code, jpcs, t, ts, f, fls) && pf >= NO_JUMP
      requires pf == NO_JUMP ==> !Spec.NeedValue(c, ts) && !Spec.NeedValue(c, fls)
      modifies this`code, this`c
      ensures c == PatchList(PatchList(old(c), fls, |old(code)|, reg, pf), ts, |old(code)|, reg,
                             if pf == NO_JUMP then NO_JUMP else pf + 1)
      ensures Valid() && Kept(old(c), old(code), c, code, AsSet(ts) + AsSet(fls)) && |code| == |old(code)|
    {
      var final := |code|;
      ghost var both := AsSet(ts) + AsSet(fls);
      ExitsBelow(c, code, jpcs, t, ts, f, fls);
      if pf == NO_JUMP { OtherNeeds(c, fls, ts, final, reg, pf); }
      PatchListAux(f, final, reg, pf, fls);
      ghost var c1, code1 := c, code;
      ThreadedKept(old(c), old(code), c, code, AsSet(fls), t, ts);
      PatchListAux(t, final, reg, if pf == NO_JUMP then NO_JUMP else pf + 1, ts);
      KeptTrans(old(c), old(code), both, c1, code1, AsSet(ts), c, code);
      ThreadedKept(old(c), old(code), c, code, both, jpc, jpcs);
    }

    method PatchExits(reg: int, around: bool, t: int, ghost ts: seq<int>, f: int, ghost fls: seq<int>)
      requires Valid() && Exits(c, code, jpcs, t, ts, f, fls)
      modifies this`code, this`c, this`jpc, this`jpcs
      ensures Valid() && Abs() == L.Finish(old(Abs()), ts, fls, reg, around) && |code| >= |old(code)|
      ensures Kept(old(c), old(code), c, code, AsSet(old(jpcs)) + AsSet(ts) + AsSet(fls))
      ensures forall j :: j in jpcs ==> j in old(jpcs) || j >= |old(code)|
    {
      hide PatchList, Stored, Threaded, Spec.NeedValue, Loads, Exits, DistinctSeq, Kept;
      ghost var but := AsSet(old(jpcs)) + AsSet(ts) + AsSet(fls);
      ExitsBelow(c, code, jpcs, t, ts, f, fls);
      StoredSize(c, code);
      if t != f {
        var pf := MaybeLoad(reg, around, t, ts, f, fls);
        ghost var c1, code1 := c, code;
        PatchBoth(reg, pf, t, ts, f, fls);
        KeptTrans(old(c), old(code), but, c1, code1, AsSet(ts) + AsSet(fls), c, code);
      } else {
        KeptSame(c, code, but);
      }
    }

    // A comparison's own jump joins those that leave when it is true.
    method TakeJump(e: ExpDesc)
      requires Valid() && Has(e)
      modifies this`code, e`t, e`ts
      ensures Valid() && Exits(c, code, jpcs, e.t, e.ts, e.f, e.fls)
      ensures e.ts == if e.k.VJmp? then old(e.ts) + [e.k.pc] else old(e.ts)
      ensures Kept(c, old(code), c, code, AsSet(old(e.ts))) && |code| == |old(code)|
    {
      if e.k.VJmp? {
        ghost var u := [e.k.pc];
        assert e.k.pc in u;
        e.t := Concat(e.t, e.k.pc, e.ts, u);
        DistinctAppend(e.ts, u);
        ThreadedKept(c, old(code), c, code, AsSet(old(e.ts)), e.f, e.fls);
        ThreadedKept(c, old(code), c, code, AsSet(old(e.ts)), jpc, jpcs);
        e.ts := e.ts + u;
      }
    }

    // Puts the value of `e` in `reg`.
    method Exp2Reg(e: ExpDesc, reg: int)
      requires Valid() && Has(e)
      modifies this`code, this`c, this`jpc, this`jpcs, e
      ensures (Abs(), e.Abs()) == Spec.Exp2Reg(old(Abs()), old(e.Abs()), reg)
      ensures Did(e) && e.k == VNonReloc(reg) && e.ts == [] && e.fls == []
    {
      hide L.Finish, Spec.Exp2Reg, Spec.Discharge2Reg, Stored, Threaded, DistinctSeq, Kept, Disjoint, Exits, Holds;
      ghost var mine := Mine(jpcs, e.Abs());
      L.FinishedIs(Abs(), e.Abs(), reg);
      StoredSize(c, code);
      Discharge2Reg(e, reg);
      ghost var fs1, c1, code1, e1, j1 := Abs(), c, code, e.Abs(), jpcs;
      TakeJump(e);
      ghost var c2, code2 := c, code;
      PatchExits(reg, !e.k.VJmp?, e.t, e.ts, e.f, e.fls);
      KeptTrans(old(c), old(code), mine, c1, code1, AsSet(e1.t), c2, code2);
      KeptTrans(old(c), old(code), mine, c2, code2, AsSet(j1) + AsSet(e.ts) + AsSet(e.fls), c, code);
      e.t, e.f, e.ts, e.fls := NO_JUMP, NO_JUMP, [], [];
      e.k := VNonReloc(reg);
      NothingHeld(c, code, jpcs, e.k);
    }
  
    method Exp2NextReg(e: ExpDesc)
      requires Valid() && Has(e)
      modifies this`code, this`c, this`jpc, this`jpcs, this`freereg, this`maxstack, e
      ensures (Abs(), e.Abs()) == Spec.Exp2NextReg(old(Abs()), old(e.Abs()))
      ensures Did(e) && e.k.VNonReloc? && e.ts == [] && e.fls == []
    {
      hide Spec.Exp2Reg, Threaded, Stored, Kept, DistinctSeq, Disjoint;
      DischargeVars(e);
      FreeExp(e);
      ReserveReg();
      Exp2Reg(e, freereg - 1);
    }

    method Exp2AnyReg(e: ExpDesc) returns (reg: int)
      requires Valid() && Has(e)
      modifies this`code, this`c, this`jpc, this`jpcs, this`freereg, this`maxstack, e
      ensures (Abs(), e.Abs()) == Spec.Exp2AnyReg(old(Abs()), old(e.Abs()))
      ensures Did(e) && e.k.VNonReloc? && reg == e.k.reg && e.ts == [] && e.fls == []
    {
      hide Spec.Exp2Reg, Spec.Exp2NextReg, Threaded, Stored, DistinctSeq, Disjoint;
      StoredSize(c, code);
      DischargeVars(e);
      HoldsHeads(c, code, jpcs, e.Abs(), e.t, e.f);
      if e.k.VNonReloc? {
        if e.t == e.f {
          HoldsNone(c, code, jpcs, e.Abs(), e.t, e.f);
          return e.k.reg;
        }
        if e.k.reg >= nactvar {
          Exp2Reg(e, e.k.reg);
          return e.k.reg;
        }
      }
      Exp2NextReg(e);
      return e.k.reg;
    }

    method Exp2Val(e: ExpDesc)
      requires Valid() && Has(e)
      modifies this`code, this`c, this`jpc, this`jpcs, this`freereg, this`maxstack, e
      ensures (Abs(), e.Abs()) == Spec.Exp2Val(old(Abs()), old(e.Abs()))
      ensures Did(e) && (e.k.VConst? ==> e.ts == [] && e.fls == [])
    {
      hide Spec.Exp2AnyReg, Threaded, Stored, DistinctSeq, Disjoint;
      StoredSize(c, code);
      HoldsHeads(c, code, jpcs, e.Abs(), e.t, e.f);
      if e.t != e.f {
        var _ := Exp2AnyReg(e);
      } else {
        HoldsNone(c, code, jpcs, e.Abs(), e.t, e.f);
        DischargeVars(e);
      }
    }

    // An operand: a constant, or its register.
    method Exp2RK(e: ExpDesc) returns (o: int)
      requires Valid() && Has(e)
      modifies this`code, this`c, this`jpc, this`jpcs, this`freereg, this`maxstack, e
      ensures (Abs(), e.Abs()) == Spec.Exp2RK(old(Abs()), old(e.Abs()))
      ensures Did(e) && (e.k.VNonReloc? || e.k.VConst?) && o == RegOf(e.Abs()) && e.ts == [] && e.fls == []
    {
      hide Spec.Exp2AnyReg, Spec.Exp2Val, Threaded, Stored, DistinctSeq, Disjoint, Holds, Kept;
      ghost var mine := Mine(jpcs, e.Abs());
      Exp2Val(e);
      if e.k.VConst? { return RkAsK(e.k.c); }
      ghost var c1, code1, mine1 := c, code, Mine(jpcs, e.Abs());
      o := Exp2AnyReg(e);
      KeptTrans(old(c), old(code), mine, c1, code1, mine1, c, code);
    }
  
    // ----- conditions ----------------------------------------------------------------------

    // The comparison before the jump gets the opposite condition.
    method InvertJump(e: ExpDesc)
      requires Valid() && Has(e) && e.k.VJmp?
      modifies this`code, this`c
      ensures c == Spec.InvertJump(old(c), e.k.pc)
      ensures Valid() && Has(e) && Kept(old(c), old(code), c, code, {}) && |code| == |old(code)|
    {
      var i := GetJumpControl(e.k.pc);
      assert OpenAt(c, code, e.k.pc) && StoredAt(c, code, i) && i == e.k.pc - 1;
      code := code[i := Op(code[i].i.(cond := !code[i].i.cond))];
      c := c[i := c[i].(cond := !c[i].cond)];
      forall x | 0 <= x < |code| ensures StoredAt(c, code, x) { assert StoredAt(old(c), old(code), x); }
      ThreadedKept(old(c), old(code), c, code, {}, jpc, jpcs);
      ThreadedKept(old(c), old(code), c, code, {}, e.k.pc, [e.k.pc]);
      ListsKept(old(c), old(code), c, code, {}, e.t, e.ts, e.f, e.fls);
    }

    // Takes the last instruction, a negation, back.
    method Unemit()
      requires Valid() && |c| > 0 && c[|c| - 1].OpNot?
      modifies this`code, this`c
      ensures c == old(c)[..|old(c)| - 1] && Valid() && Kept(old(c), old(code), c, code, {})
              && |code| == |old(code)| - 1
    {
      var n := |code| - 1;
      assert StoredAt(c, code, n);
      code := code[..n];
      c := c[..n];
      forall x | 0 <= x < |code| ensures StoredAt(c, code, x) { assert StoredAt(old(c), old(code), x); }
      ThreadedKept(old(c), old(code), c, code, {}, jpc, jpcs);
    }

    // A jump that is taken when the truth of `e` is `cond`.
    method JumpOnCond(e: ExpDesc, cond: bool) returns (j: int)
      requires Valid() && Has(e) && (e.k.VNonReloc? || e.k.VReloc? || e.k.VConst?)
      modifies this`code, this`c, this`jpc, this`jpcs, this`freereg, this`maxstack, e`k
      ensures (Abs(), [j]) == Spec.JumpOnCond(old(Abs()), old(e.Abs()), cond)
      ensures e.k == if old(e.k).VConst? then VNonReloc(old(freereg)) else old(e.k)
      ensures Valid() && Exits(c, code, jpcs, e.t, e.ts, e.f, e.fls) && Threaded(c, code, j, [j])
      ensures Kept(old(c), old(code), c, code, AsSet(old(jpcs))) && jpcs == [] && |old(code)| <= j < |code|
      ensures j !in e.ts && j !in e.fls
    {
      hide Threaded, Stored, DistinctSeq, PatchList, Discharged, Spec.CondJump;
      StoredSize(c, code);
      ghost var c0, code0, j0 := c, code, jpcs;
      HoldsHeads(c, code, jpcs, e.Abs(), e.t, e.f);
      ExitsBelow(c, code, jpcs, e.t, e.ts, e.f, e.fls);
      if e.k.VReloc? {
        var b := SourceOf(e.k.pc);
        Unemit();
        ghost var c1, code1 := c, code;
        j := CondJump(OpTest(b, !cond));
        KeptTrans(c0, code0, AsSet(j0), c1, code1, AsSet(j0), c, code);
      } else {
        Discharge2AnyReg(e);
        FreeExp(e);
        j := CondJump(OpTestSet(NO_REG, e.k.reg, cond));
      }
      ExitsKept(c0, code0, j0, e.t, e.ts, e.f, e.fls, c, code, AsSet(j0), jpcs);
    }

    // The operand of the negation at `pc`.
    method SourceOf(pc: int) returns (b: int)
      requires Stored(c, code) && 0 <= pc < |c| && c[pc].OpNot?
      ensures b == c[pc].b
    {
      assert StoredAt(c, code, pc);
      b := code[pc].i.b;
    }

    // What stays of an expression that was tested: its lists.
    twostate predicate Tested(e: ExpDesc)
      reads this, e
    {
      && Valid() && Exits(c, code, jpcs, e.t, e.ts, e.f, e.fls)
      && Kept(old(c), old(code), c, code, old(Mine(jpcs, e.Abs())))
      && FreshFrom(AsSet(jpcs) + AsSet(e.ts) + AsSet(e.fls), old(Mine(jpcs, e.Abs())), old(|code|))
      && old(|code|) <= |code|
    }

    // The jumps of the list `pc` leave with the list `l`; those of the list `here` lead to here.
    method LeaveWith(l: int, ghost s: seq<int>, pc: int, ghost ws: seq<int>, here: int, ghost u: seq<int>)
      returns (l': int)
      requires Valid() && Exits(c, code, jpcs, l, s, here, u) && Threaded(c, code, pc, ws) && Apart(ws, jpcs, s, u)
      modifies this`code, this`jpc, this`jpcs
      ensures Valid() && Abs() == Spec.PatchToHere(old(Abs()), u) && Exits(c, code, jpcs, l', s + ws, NO_JUMP, [])
      ensures Kept(c, old(code), c, code, AsSet(old(jpcs)) + AsSet(s)) && |code| == |old(code)|
    {
      ExitsSwap(c, code, jpcs, l, s, here, u);
      l' := Concat(l, pc, s, ws);
      ExitsLonger(c, old(code), jpc, jpcs, here, u, l, s, ws, code, l');
      ghost var code1 := code;
      PatchToHere(here, u);
      KeptTrans(c, old(code), AsSet(old(jpcs)) + AsSet(s), c, code1, AsSet(old(jpcs)), c, code);
      ThreadedKept(c, code1, c, code, AsSet(old(jpcs)), l', s + ws);
    }

    // A jump that is always taken, when `always`, or none.
    method FixedJump(e: ExpDesc, always: bool) returns (pc: int, ghost ws: seq<int>)
      requires Valid() && Has(e)
      modifies this`code, this`c, this`jpc, this`jpcs
      ensures (Abs(), ws) == if always then Spec.Jump(old(Abs())) else (old(Abs()), [])
      ensures Valid() && Exits(c, code, jpcs, e.t, e.ts, e.f, e.fls) && Threaded(c, code, pc, ws)
              && Apart(ws, jpcs, e.ts, e.fls)
      ensures Kept(old(c), old(code), c, code, {}) && old(|code|) <= |code|
      ensures FreshFrom(AsSet(ws) + AsSet(jpcs), AsSet(old(jpcs)), old(|code|))
    {
      hide Threaded, Stored;
      StoredSize(c, code);
      ghost var c0, code0, j0 := c, code, jpcs;
      HoldsHeads(c, code, jpcs, e.Abs(), e.t, e.f);
      ExitsBelow(c, code, jpcs, e.t, e.ts, e.f, e.fls);
      if always {
        pc := JumpHere();
        ws := [pc] + j0;
        ExitsKept(c0, code0, j0, e.t, e.ts, e.f, e.fls, c, code, {}, jpcs);
      } else {
        pc, ws := NO_JUMP, [];
        KeptSame(c, code, {});
        NoList(c, code);
      }
    }

    // The jumps `ws` are about to leave with a list of `e`.
    twostate predicate Left(e: ExpDesc, pc: int, ws: seq<int>)
      reads this, e
    {
      && Valid() && Exits(c, code, jpcs, e.t, e.ts, e.f, e.fls) && Threaded(c, code, pc, ws)
      && Apart(ws, jpcs, e.ts, e.fls)
      && Kept(old(c), old(code), c, code, old(Mine(jpcs, e.Abs())))
      && FreshFrom(AsSet(ws) + AsSet(jpcs), old(Mine(jpcs, e.Abs())), old(|code|))
      && old(|code|) <= |code|
    }

    method JumpIfFalse(e: ExpDesc) returns (pc: int, ghost ws: seq<int>)
      requires Valid() && Has(e) && !e.k.VLocal?
      modifies this`code, this`c, this`jpc, this`jpcs, this`freereg, this`maxstack, e`k
      ensures (Abs(), ws) == Spec.JumpIfFalse(old(Abs()), old(e.Abs()))
      ensures e.k == old(e.k)
      ensures Left(e, pc, ws)
    {
      hide Threaded, Stored, DistinctSeq, Spec.JumpOnCond, Spec.InvertJump, Spec.Jump, Disjoint, Holds, Exits, Kept,
           Apart;
      StoredSize(c, code);
      ghost var mine := Mine(jpcs, e.Abs());
      if e.k.VConst? {
        pc, ws := FixedJump(e, !Truth(e.k.c));
        KeptWider(old(c), old(code), {}, c, code, mine);
      } else if e.k.VJmp? {
        InvertJump(e);
        KeptWider(old(c), old(code), {}, c, code, mine);
        pc, ws := e.k.pc, [e.k.pc];
        HoldsHeads(c, code, jpcs, e.Abs(), e.t, e.f);
        HoldsJump(c, code, jpcs, e.Abs(), e.t, e.f);
        OneApart(pc, jpcs, e.ts, e.fls);
      } else {
        pc := JumpOnCond(e, false);
        ws := [pc];
        OneApart(pc, jpcs, e.ts, e.fls);
        KeptWider(old(c), old(code), AsSet(old(jpcs)), c, code, mine);
      }
    }

    method JumpIfTrue(e: ExpDesc) returns (pc: int, ghost ws: seq<int>)
      requires Valid() && Has(e) && !e.k.VLocal?
      modifies this`code, this`c, this`jpc, this`jpcs, this`freereg, this`maxstack, e`k
      ensures (Abs(), ws) == Spec.JumpIfTrue(old(Abs()), old(e.Abs()))
      ensures e.k == KindTested(old(Abs()), old(e.k))
      ensures Left(e, pc, ws)
    {
      hide Threaded, Stored, DistinctSeq, Spec.JumpOnCond, Spec.InvertJump, Spec.Jump, Disjoint, Holds, Exits, Kept,
           Apart;
      StoredSize(c, code);
      ghost var mine := Mine(jpcs, e.Abs());
      if e.k.VConst? && !e.k.c.KOther? {
        pc, ws := FixedJump(e, Truth(e.k.c));
        KeptWider(old(c), old(code), {}, c, code, mine);
      } else if e.k.VJmp? {
        KeptSame(c, code, mine);
        pc, ws := e.k.pc, [e.k.pc];
        HoldsHeads(c, code, jpcs, e.Abs(), e.t, e.f);
        HoldsJump(c, code, jpcs, e.Abs(), e.t, e.f);
        OneApart(pc, jpcs, e.ts, e.fls);
      } else {
        pc := JumpOnCond(e, true);
        ws := [pc];
        OneApart(pc, jpcs, e.ts, e.fls);
        KeptWider(old(c), old(code), AsSet(old(jpcs)), c, code, mine);
      }
    }

    method GoIfTrue(e: ExpDesc)
      requires Valid() && Has(e)
      modifies this`code, this`c, this`jpc, this`jpcs, this`freereg, this`maxstack, e
      ensures (Abs(), e.Abs()) == Spec.GoIfTrue(old(Abs()), old(e.Abs()))
      ensures Tested(e)
    {
      hide Threaded, Stored, DistinctSeq, Spec.JumpIfFalse, Disjoint, Holds, Exits, Kept, Apart;
      ghost var mine := Mine(jpcs, e.Abs());
      DischargeVars(e);
      var pc;
      ghost var ws;
      pc, ws := JumpIfFalse(e);
      ghost var c1, code1, j1 := c, code, jpcs;
      ExitsSwap(c, code, jpcs, e.t, e.ts, e.f, e.fls);
      ApartSwap(ws, jpcs, e.ts, e.fls);
      e.f := LeaveWith(e.f, e.fls, pc, ws, e.t, e.ts);
      KeptTrans(old(c), old(code), mine, c1, code1, AsSet(j1) + AsSet(e.fls), c, code);
      e.t, e.ts, e.fls := NO_JUMP, [], e.fls + ws;
      ExitsSwap(c, code, jpcs, e.f, e.fls, e.t, e.ts);
    }

    method GoIfFalse(e: ExpDesc)
      requires Valid() && Has(e)
      modifies this`code, this`c, this`jpc, this`jpcs, this`freereg, this`maxstack, e
      ensures (Abs(), e.Abs()) == Spec.GoIfFalse(old(Abs()), old(e.Abs()))
      ensures Tested(e)
    {
      hide Threaded, Stored, DistinctSeq, Spec.JumpIfTrue, Disjoint, Holds, Exits, Kept, Apart;
      ghost var mine := Mine(jpcs, e.Abs());
      DischargeVars(e);
      var pc;
      ghost var ws;
      pc, ws := JumpIfTrue(e);
      ghost var c1, code1, j1 := c, code, jpcs;
      e.t := LeaveWith(e.t, e.ts, pc, ws, e.f, e.fls);
      KeptTrans(old(c), old(code), mine, c1, code1, AsSet(j1) + AsSet(e.ts), c, code);
      e.f, e.fls, e.ts := NO_JUMP, [], e.ts + ws;
    }

    // Inverts the value of `e`.
    method Negate(e: ExpDesc)
      requires Valid() && Has(e)
      modifies this`code, this`c, this`jpc, this`jpcs, this`freereg, this`maxstack, e`k
      ensures (Abs(), e.k) == Neg.Inverted(old(Abs()), old(e.Abs()))
      ensures Did(e)
    {
      hide Threaded, Stored, DistinctSeq, Spec.InvertJump, Spec.Discharge2AnyReg, Disjoint, Discharged;
      StoredSize(c, code);
      ghost var mine := Mine(jpcs, e.Abs());
      DischargeVars(e);
      if e.k.VConst? {
        e.k := VConst(Negation(e.k.c));
        KeptSame(c, code, mine);
      } else if e.k.VJmp? {
        InvertJump(e);
      } else {
        Discharge2AnyReg(e);
        FreeExp(e);
        ghost var c1, code1, j1, e1 := c, code, jpcs, e.Abs();
        HoldsHeads(c, code, jpcs, e1, e.t, e.f);
        ExitsBelow(c, code, jpcs, e.t, e.ts, e.f, e.fls);
        AnyRegKind(old(Abs()), Spec.DischargeVars(old(e.Abs())));
        var pc := Code(Op(OpNot(0, e.k.reg)), OpNot(0, e.k.reg));
        KeptTrans(old(c), old(code), mine, c1, code1, AsSet(j1), c, code);
        e.k := VReloc(pc);
        HoldsKept(c1, code1, j1, e1, e.t, e.f, c, code, AsSet(j1), jpcs, e.k);
      }
    }

    // The value is inverted, the lists change places and bring no values any more.
    method CodeNot(e: ExpDesc)
      requires Valid() && Has(e)
      modifies this`code, this`c, this`jpc, this`jpcs, this`freereg, this`maxstack, e
      ensures (Abs(), e.Abs()) == Spec.CodeNot(old(Abs()), old(e.Abs()))
      ensures Did(e)
    {
      hide Threaded, Stored, DistinctSeq, Disjoint, Spec.CodeNot, Neg.Inverted, Holds, Spec.RemoveValues;
      Neg.CodeNotIs(Abs(), e.Abs());
      ghost var mine := Mine(jpcs, e.Abs());
      Negate(e);
      ghost var c1, code1, e1, t1, f1 := c, code, e.Abs(), e.t, e.f;
      HoldsSwap(c, code, jpcs, e1, t1, f1);
      HoldsHeads(c, code, jpcs, e1, t1, f1);
      e.t, e.f, e.ts, e.fls := e.f, e.t, e.fls, e.ts;
      RemoveValues(e.f, e.fls);
      ghost var c2, code2 := c, code;
      ThreadedKept(c1, code1, c, code, {}, e.t, e.ts);
      RemoveValues(e.t, e.ts);
      KeptTrans(c1, code1, {}, c2, code2, {}, c, code);
      KeptTrans(old(c), old(code), mine, c1, code1, {}, c, code);
      HoldsRemoved(c1, code1, jpcs, e.Abs(), e.t, e.f, c, code);
      ThreadedKept(c1, code1, c, code, {}, jpc, jpcs);
    }
  
    // Compares two operands, the first of which is already in a register.
    method CodeComp(rel: RelOp, e1: ExpDesc, e2: ExpDesc)
      requires Valid() && Has(e1) && Has(e2) && e1 != e2
      requires (e1.k.VNonReloc? || e1.k.VConst?) && e1.ts == [] && e1.fls == []
      modifies this`code, this`c, this`jpc, this`jpcs, this`freereg, this`maxstack, e1, e2
      ensures (Abs(), e1.Abs()) == Spec.CodeComp(old(Abs()), rel, old(e1.Abs()), old(e2.Abs()))
      ensures Valid() && Has(e1) && Kept(old(c), old(code), c, code, old(Mine(jpcs, e2.Abs())))
      ensures jpcs == [] && e1.k.VJmp? && e1.k.pc > |old(code)| && |old(code)| <= |code| && e1.ts == [] && e1.fls == []
    {
      hide Stored, Threaded, DistinctSeq, Disjoint, Spec.Exp2RK, Discharged, Kept, Holds;
      OperandStays(Abs(), e1.Abs());
      ghost var mine := Mine(jpcs, e2.Abs());
      var o1 := Exp2RK(e1);
      assert Mine(old(jpcs), old(e1.Abs())) == AsSet(old(jpcs));
      HoldsEmpty(c, code, jpcs, e1.Abs(), e1.t, e1.f);
      HoldsOther(old(c), old(code), jpcs, e2.Abs(), e2.t, e2.f, code);
      ghost var c1, code1 := c, code;
      KeptWider(old(c), old(code), AsSet(old(jpcs)), c, code, mine);
      var o2 := Exp2RK(e2);
      ghost var c2, code2, mine2 := c, code, Mine(jpcs, e2.Abs());
      KeptTrans(old(c), old(code), mine, c1, code1, mine, c2, code2);
      FreeExp(e2);
      FreeExp(e1);
      var pc := CondJump(CompInstr(rel, o1, o2));
      KeptTrans(old(c), old(code), mine, c2, code2, mine2, c, code);
      e1.k := VJmp(pc);
      ComparisonHolds(c, code, pc);
    }
  
    // ----- whole expressions -----------------------------------------------------------------

    // `e` was generated: only the jumps to here were touched, and new ones are held.
    twostate predicate Made(e: ExpDesc)
      reads this, e
    {
      && Valid() && Has(e)
      && Kept(old(c), old(code), c, code, AsSet(old(jpcs)))
      && FreshFrom(Mine(jpcs, e.Abs()), AsSet(old(jpcs)), old(|code|))
      && old(|code|) <= |code|
    }

    // The list of the first operand of `and` goes on with that of the second one.
    method PosfixAnd(e1: ExpDesc, e2: ExpDesc)
      requires Valid() && Has(e2) && e1 != e2 && Threaded(c, code, e1.f, e1.fls) && DistinctSeq(e1.fls)
      requires forall j :: j in e1.fls ==> j !in Mine(jpcs, e2.Abs())
      modifies this`code, e1, e2
      ensures Valid() && Has(e1) && e1.Abs() == Spec.DischargeVars(old(e2.Abs())).(f := old(e2.fls) + old(e1.fls))
      ensures Kept(c, old(code), c, code, AsSet(old(e2.fls))) && |code| == |old(code)|
    {
      hide Stored, Threaded, DistinctSeq;
      DischargeVars(e2);
      e2.f := Concat(e2.f, e1.f, e2.fls, e1.fls);
      HoldsJoined(c, old(code), jpc, jpcs, e2.Abs(), e2.t, old(e2.f), e1.fls, code, e2.f);
      e2.fls := e2.fls + e1.fls;
      e1.k, e1.t, e1.f, e1.ts, e1.fls := e2.k, e2.t, e2.f, e2.ts, e2.fls;
    }

    method PosfixOr(e1: ExpDesc, e2: ExpDesc)
      requires Valid() && Has(e2) && e1 != e2 && Threaded(c, code, e1.t, e1.ts) && DistinctSeq(e1.ts)
      requires forall j :: j in e1.ts ==> j !in Mine(jpcs, e2.Abs())
      modifies this`code, e1, e2
      ensures Valid() && Has(e1) && e1.Abs() == Spec.DischargeVars(old(e2.Abs())).(t := old(e2.ts) + old(e1.ts))
      ensures Kept(c, old(code), c, code, AsSet(old(e2.ts))) && |code| == |old(code)|
    {
      hide Stored, Threaded, DistinctSeq;
      DischargeVars(e2);
      HoldsSwap(c, code, jpcs, e2.Abs(), e2.t, e2.f);
      e2.t := Concat(e2.t, e1.t, e2.ts, e1.ts);
      HoldsJoined(c, old(code), jpc, jpcs, Exp(e2.k, e2.fls, e2.ts), e2.f, old(e2.t), e1.ts, code, e2.t);
      HoldsSwap(c, code, jpcs, Exp(e2.k, e2.fls, e2.ts + e1.ts), e2.f, e2.t);
      e2.ts := e2.ts + e1.ts;
      e1.k, e1.t, e1.f, e1.ts, e1.fls := e2.k, e2.t, e2.f, e2.ts, e2.fls;
    }
  
    // Generates the first operand of a binary operator, up to the operator.
    method Infix(x: Expr, e: ExpDesc)
      requires Valid() && (x.And? || x.Or? || x.Compare?)
      modifies this`code, this`c, this`jpc, this`jpcs, this`freereg, this`maxstack, e
      ensures x.And? ==> (Abs(), e.Abs()) == (var (g, d) := Gen(old(Abs()), x.a); Spec.GoIfTrue(g, d))
      ensures x.Or? ==> (Abs(), e.Abs()) == (var (g, d) := Gen(old(Abs()), x.a); Spec.GoIfFalse(g, d))
      ensures x.Compare? ==> (Abs(), e.Abs()) == (var (g, d) := Gen(old(Abs()), x.a); Spec.Exp2RK(g, d))
      ensures x.Compare? ==> Has(e) && (e.k.VNonReloc? || e.k.VConst?) && e.ts == [] && e.fls == []
      ensures Valid() && Exits(c, code, jpcs, e.t, e.ts, e.f, e.fls) && old(|code|) <= |code|
      ensures Kept(old(c), old(code), c, code, AsSet(old(jpcs)))
      ensures FreshFrom(AsSet(jpcs) + AsSet(e.ts) + AsSet(e.fls), AsSet(old(jpcs)), old(|code|))
      decreases x, 0
    {
      hide Stored, Threaded, DistinctSeq, Disjoint, Gen, Spec.GoIfTrue, Spec.GoIfFalse, Spec.Exp2RK, Kept, Exits, Holds;
      Generate(x.a, e);
      ghost var c1, code1, mine1 := c, code, Mine(jpcs, e.Abs());
      if x.And? {
        GoIfTrue(e);
      } else if x.Or? {
        GoIfFalse(e);
      } else {
        var _ := Exp2RK(e);
        HoldsHeads(c, code, jpcs, e.Abs(), e.t, e.f);
      }
      KeptTrans(old(c), old(code), AsSet(old(jpcs)), c1, code1, mine1, c, code);
      FreshTrans(AsSet(jpcs) + AsSet(e.ts) + AsSet(e.fls), mine1, |code1|, AsSet(old(jpcs)), |old(code)|);
    }

    method Generate(x: Expr, e: ExpDesc)
      requires Valid()
      modifies this`code, this`c, this`jpc, this`jpcs, this`freereg, this`maxstack, e
      ensures (Abs(), e.Abs()) == Gen(old(Abs()), x)
      ensures Made(e)
      decreases x, 2
    {
      hide Stored, Threaded, DistinctSeq, Disjoint, Spec.CodeNot, Spec.GoIfTrue, Spec.GoIfFalse, Spec.Exp2RK,
           Spec.CodeComp, Kept, Exits, Holds;
      if x.Local? || x.Constant? {
        e.k, e.t, e.f, e.ts, e.fls := if x.Local? then VLocal(x.reg) else VConst(x.c), NO_JUMP, NO_JUMP, [], [];
        NothingHeld(c, code, jpcs, e.k);
        StoredSize(c, code);
        KeptSame(c, code, AsSet(jpcs));
      } else if x.Not? {
        Generate(x.a, e);
        ghost var c1, code1, mine1 := c, code, Mine(jpcs, e.Abs());
        CodeNot(e);
        KeptTrans(old(c), old(code), AsSet(old(jpcs)), c1, code1, mine1, c, code);
        FreshTrans(Mine(jpcs, e.Abs()), mine1, |code1|, AsSet(old(jpcs)), |old(code)|);
      } else {
        GenerateBinary(x, e);
      }
    }

    method GenerateBinary(x: Expr, e: ExpDesc)
      requires Valid() && (x.And? || x.Or? || x.Compare?)
      modifies this`code, this`c, this`jpc, this`jpcs, this`freereg, this`maxstack, e
      ensures (Abs(), e.Abs()) == Gen(old(Abs()), x)
      ensures Made(e)
      decreases x, 1
    {
      hide Stored, Threaded, DistinctSeq, Disjoint, Spec.GoIfTrue, Spec.GoIfFalse, Spec.Exp2RK, Spec.CodeComp, Kept,
           Exits, Holds;
      ghost var j0, n0 := AsSet(jpcs), |code|;
      Infix(x, e);
      ghost var c1, code1, j1, n1 := c, code, jpcs, |code|;
      ExitsBelow(c, code, jpcs, e.t, e.ts, e.f, e.fls);
      if x.Compare? { HoldsEmpty(c, code, jpcs, e.Abs(), e.t, e.f); }
      var e2 := new ExpDesc();
      Generate(x.b, e2);
      ghost var c2, code2, mine2 := c, code, Mine(jpcs, e2.Abs());
      KeptTrans(old(c), old(code), j0, c1, code1, AsSet(j1), c2, code2);
      FreshTrans(mine2, AsSet(j1), n1, j0, n0);
      OlderApart(mine2, j1, n1, e.ts);
      OlderApart(mine2, j1, n1, e.fls);
      assert AsSet(jpcs) <= mine2;
      assert forall j :: j in jpcs ==> j in AsSet(jpcs);
      ExitsKept(c1, code1, j1, e.t, e.ts, e.f, e.fls, c, code, AsSet(j1), jpcs);
      ExitsParts(c, code, jpcs, e.t, e.ts, e.f, e.fls);
      if x.And? {
        ghost var list, l2 := e.fls, e2.fls;
        PosfixAnd(e, e2);
        KeptTrans(old(c), old(code), j0, c2, code2, AsSet(l2), c, code);
      } else if x.Or? {
        ghost var list, l2 := e.ts, e2.ts;
        PosfixOr(e, e2);
        KeptTrans(old(c), old(code), j0, c2, code2, AsSet(l2), c, code);
      } else {
        NothingHeld(c, code, jpcs, e.k);
        CodeComp(x.rel, e, e2);
        KeptTrans(old(c), old(code), j0, c2, code2, mine2, c, code);
      }
    }
  
    // `local = x`.
    method AssignLocal(x: Expr, reg: int)
      requires Valid()
      modifies this`code, this`c, this`jpc, this`jpcs, this`freereg, this`maxstack
      ensures Valid() && Abs() == Assign(old(Abs()), x, reg) && |code| >= |old(code)|
    {
      hide Stored, Threaded, DistinctSeq, Gen, Spec.Exp2Reg, Kept;
      var e := new ExpDesc();
      Generate(x, e);
      FreeExp(e);
      Exp2Reg(e, reg);
    }

    // `local = x` as a whole, up to the next instruction.  However control comes to it, what is
    // stored puts in the variable what `x` gives; it computes `x` exactly when that is the
    // value of `x`, and it is when no jump without a test takes over a jump that may bring a
    // value.  All this unless the registers that `x` needs are not there.
    method Assignment(x: Expr, reg: nat)
      requires Valid() && M.Ok(Abs()) && LocalsBelow(x, nactvar) && reg < nactvar && freereg <= maxstack
      modifies this`code, this`c, this`jpc, this`jpcs, this`freereg, this`maxstack
      ensures maxstack < MAXSTACK <==> N.Max(old(maxstack), old(freereg) + N.Need(x)) < MAXSTACK
      ensures maxstack < MAXSTACK ==>
                && M.Ok(Abs()) && freereg == old(freereg) && Valid()
                && forall cmp: Answers :: WordsDeliver(cmp, old(Abs()), code, x, reg)
      ensures maxstack < MAXSTACK ==> forall cmp: Answers ::
                WordsCompute(cmp, old(Abs()), code, x, reg) <==> GivesBehind(cmp, old(Abs()), x)
      ensures maxstack < MAXSTACK && NothingTaken(x, !L.NoneBrings(old(Abs()))) ==>
                forall cmp: Answers :: WordsCompute(cmp, old(Abs()), code, x, reg)
    {
      hide Threaded, DistinctSeq, Assign, Computes, Delivers, GivesBehind, WordsCompute, WordsDeliver, M.Ok, Discharged,
           NothingTaken, L.NoneBrings, N.Need;
      AssignLocal(x, reg);
      ghost var fs0, fs' := old(Abs()), Abs();
      AssignFits(fs0, x, reg);
      DischargeJpc();
      if maxstack < MAXSTACK {
        forall cmp: Answers
          ensures WordsDeliver(cmp, fs0, code, x, reg)
          ensures WordsCompute(cmp, fs0, code, x, reg) <==> GivesBehind(cmp, fs0, x)
          ensures NothingTaken(x, !L.NoneBrings(fs0)) ==> WordsCompute(cmp, fs0, code, x, reg)
        {
          AssignComputes(cmp, fs0, x, reg);
          StoredComputes(cmp, fs0, fs', code, x, reg);
        }
        AssignComputes((op, a, b) => false, fs0, x, reg);
        DischargedOk(fs0, fs', Abs());
      }
    }
  }
}

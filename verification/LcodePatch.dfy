// What patching a list of open jumps does to the code.

module LcodePatch {
  import opened LcodeVm
  import opened LcodeGen
  import opened LcodeResolve

  predicate DistinctSeq(s: seq<int>) { forall i, j :: 0 <= i < j < |s| ==> s[i] != s[j] }

  // A list of open jumps.
  predicate OpenList(c: Code, s: seq<int>) {
    DistinctSeq(s) && forall j :: j in s ==> 0 <= j < |c| && c[j].OpJmp?
  }

  predicate Disjoint(s: seq<int>, t: seq<int>) { forall j :: j in s ==> j !in t }

  function TestFor(i: Instr, reg: int): Instr
    requires i.OpTestSet?
  {
    if reg != NO_REG && reg != i.b then OpTestSet(reg, i.b, i.c) else OpTest(i.b, i.c)
  }

  // The code at `i` once the jumps of `s` are patched.
  predicate PatchedAt(c: Code, s: seq<int>, vtarget: int, reg: int, dtarget: int, c': Code, i: nat)
    requires i < |c| == |c'|
  {
    if i in s then c'[i] == OpJmp(if HasTestSet(c, i) then vtarget else dtarget)
    else if i + 1 in s && c[i].OpTestSet? then c'[i] == TestFor(c[i], reg)
    else c'[i] == c[i]
  }

  lemma PatchOneAt(c: Code, j: int, vtarget: int, reg: int, dtarget: int, i: nat)
    requires 0 <= j < |c| && c[j].OpJmp? && i < |c|
    ensures PatchedAt(c, [j], vtarget, reg, dtarget, PatchOne(c, j, vtarget, reg, dtarget), i)
  {
  }

  lemma TestSetStays(c: Code, j: int, k: int, vtarget: int, reg: int, dtarget: int)
    requires 0 <= j < |c| && c[j].OpJmp? && 0 <= k < |c| && c[k].OpJmp? && j != k
    ensures var c' := PatchOne(c, j, vtarget, reg, dtarget); HasTestSet(c', k) == HasTestSet(c, k) && c'[k] == c[k]
  {
  }

  lemma {:induction false} PatchListAt(c: Code, s: seq<int>, vtarget: int, reg: int, dtarget: int, i: nat)
    requires OpenList(c, s) && i < |c|
    ensures PatchedAt(c, s, vtarget, reg, dtarget, PatchList(c, s, vtarget, reg, dtarget), i)
    decreases |s|
  {
    if s != [] {
      var j, rest := s[0], s[1..];
      var c1 := PatchOne(c, j, vtarget, reg, dtarget);
      assert j in s;
      PatchOneAt(c, j, vtarget, reg, dtarget, i);
      assert forall k :: k in s <==> k == j || k in rest;
      assert j !in rest;
      assert OpenList(c1, rest) by {
        forall k | k in rest ensures 0 <= k < |c1| && c1[k].OpJmp? { TestSetStays(c, j, k, vtarget, reg, dtarget); }
      }
      PatchListAt(c1, rest, vtarget, reg, dtarget, i);
      if i in rest { TestSetStays(c, j, i, vtarget, reg, dtarget); }
    }
  }

  predicate RemovedAt(c: Code, s: seq<int>, c': Code, i: nat)
    requires i < |c| == |c'|
  {
    c'[i] == if i + 1 in s && c[i].OpTestSet? then OpTest(c[i].b, c[i].c) else c[i]
  }

  lemma {:induction false} RemoveValuesAt(c: Code, s: seq<int>, i: nat)
    requires (forall j :: j in s ==> 0 <= j < |c| && c[j].OpJmp?) && i < |c|
    ensures RemovedAt(c, s, RemoveValues(c, s), i)
    decreases |s|
  {
    if s != [] {
      var c1 := PatchTestReg(c, s[0], NO_REG);
      assert forall k :: k in s <==> k == s[0] || k in s[1..];
      RemoveValuesAt(c1, s[1..], i);
    }
  }

  // Patching and removing values turn value-setting tests into tests, and no other
  // instruction into one or from one.
  lemma PatchListPairs(c: Code, s: seq<int>, vtarget: int, reg: int, dtarget: int)
    requires OpenList(c, s) && PairsOk(c)
    ensures var c' := PatchList(c, s, vtarget, reg, dtarget);
            PairsOk(c') && forall i :: 0 <= i < |c| ==> TestMode(c'[i]) == TestMode(c[i]) && c'[i].OpJmp? == c[i].OpJmp?
  {
    var c' := PatchList(c, s, vtarget, reg, dtarget);
    forall i | 0 <= i < |c| ensures TestMode(c'[i]) == TestMode(c[i]) && c'[i].OpJmp? == c[i].OpJmp?
      && (c[i].OpLoadBool? || c'[i].OpLoadBool? ==> c'[i] == c[i]) {
      PatchListAt(c, s, vtarget, reg, dtarget, i);
    }
    SamePairs(c, c');
  }

  lemma SamePairs(c: Code, c': Code)
    requires PairsOk(c) && |c'| == |c|
    requires forall i :: 0 <= i < |c| ==> TestMode(c'[i]) == TestMode(c[i]) && c'[i].OpJmp? == c[i].OpJmp?
    requires forall i :: 0 <= i < |c| && (c[i].OpLoadBool? || c'[i].OpLoadBool?) ==> c'[i] == c[i]
    ensures PairsOk(c')
  {
    forall i | 0 <= i < |c'| ensures PairAt(c', i) { assert PairAt(c, i); }
  }

  lemma AppendPairs(c: Code, more: Code)
    requires PairsOk(c) && PairsOk(more)
    ensures PairsOk(c + more)
  {
    forall i | 0 <= i < |c + more| ensures PairAt(c + more, i) {
      if i < |c| { assert PairAt(c, i); } else { assert PairAt(more, i - |c|); }
    }
  }

  lemma NotSame(t: seq<int>, f: seq<int>)
    requires Disjoint(t, f) && t != []
    ensures t != f
  {
    var j := t[0];
    assert j in t;
    assert j !in f;
  }

  lemma ConsDistinct(j: int, s: seq<int>)
    requires DistinctSeq(s) && j !in s
    ensures DistinctSeq([j] + s)
  {
    var s' := [j] + s;
    forall a, b | 0 <= a < b < |s'| ensures s'[a] != s'[b] { assert s[b - 1] in s; }
  }
}

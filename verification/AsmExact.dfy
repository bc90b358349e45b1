/** What each assembly pass (asm_optimizer.cpp) takes out of an instruction list and what it puts there, said by the first
    place at which it does something. */
module AsmExact {
  import opened Wrappers
  import opened Asm
  import opened AsmPeephole
  import AsmStack
  import AsmJump

  predicate IsMoveOf(i: Instr) { i.mnemonic == Mov || i.mnemonic == Movq || i.mnemonic == Movl || i.mnemonic == Movb }

  // ---- AsmStackOptimizer ----

  /** Two negative offsets within one slot of eight bytes. */
  predicate OneSlot(a: int, b: int) { a < 0 && b < 0 && (-a) / 8 == (-b) / 8 }

  /** Instruction `k` of block `b` reads the slot at `offset`. */
  predicate ReadAt(f: seq<Code>, b: nat, k: nat, offset: int) {
    b < |f| && k < |f[b].instrs| && f[b].instrs[k].op0.Ind? && OneSlot(f[b].instrs[k].op0.offset, offset)
  }

  /** A move into a slot that no instruction of the function reads. */
  ghost predicate Unread(f: seq<Code>, i: Instr) {
    IsMoveOf(i) && i.op1.Ind? && i.op1.offset < 0 && forall b: nat, k: nat :: !ReadAt(f, b, k, i.op1.offset)
  }

  /** The instructions of `c` without those that are dropped, in order. */
  ghost function Without(c: seq<Instr>, drop: Instr -> bool): seq<Instr> {
    if c == [] then [] else Without(c[..|c|-1], drop) + if drop(c[|c|-1]) then [] else [c[|c|-1]]
  }

  lemma {:induction false} UsedInExactly(c: seq<Instr>, offset: int)
    requires offset < 0
    ensures AsmStack.Slot(offset) in AsmStack.UsedIn(c) <==> exists k: nat :: k < |c| && c[k].op0.Ind? && OneSlot(c[k].op0.offset, offset)
    decreases |c|
  {
    if c != [] {
      UsedInExactly(c[1..], offset);
      if k: nat :| k < |c[1..]| && c[1..][k].op0.Ind? && OneSlot(c[1..][k].op0.offset, offset) { assert c[k+1] == c[1..][k]; }
      if k: nat :| k < |c| && c[k].op0.Ind? && OneSlot(c[k].op0.offset, offset) {
        if k > 0 { assert c[1..][k-1] == c[k]; }
      }
    }
  }

  lemma {:induction false} UsedExactly(fs: seq<seq<Instr>>, offset: int)
    requires offset < 0
    ensures AsmStack.Slot(offset) in AsmStack.Used(fs) <==> exists b: nat :: b < |fs| && AsmStack.Slot(offset) in AsmStack.UsedIn(fs[b])
    decreases |fs|
  {
    if fs != [] {
      UsedExactly(fs[1..], offset);
      if b: nat :| b < |fs[1..]| && AsmStack.Slot(offset) in AsmStack.UsedIn(fs[1..][b]) { assert fs[b+1] == fs[1..][b]; }
      if b: nat :| b < |fs| && AsmStack.Slot(offset) in AsmStack.UsedIn(fs[b]) {
        if b > 0 { assert fs[1..][b-1] == fs[b]; }
      }
    }
  }

  lemma BlockReads(f: seq<Code>, b: nat, offset: int)
    requires b < |f| && offset < 0
    ensures AsmStack.Slot(offset) in AsmStack.UsedIn(f[b].instrs) <==> exists k: nat :: ReadAt(f, b, k, offset)
  {
    UsedInExactly(f[b].instrs, offset);
    if k: nat :| k < |f[b].instrs| && f[b].instrs[k].op0.Ind? && OneSlot(f[b].instrs[k].op0.offset, offset) { assert ReadAt(f, b, k, offset); }
  }

  lemma ReadExactly(f: seq<Code>, offset: int)
    requires offset < 0
    ensures AsmStack.Slot(offset) in AsmStack.Used(AsmStack.Listings(f)) <==> exists b: nat, k: nat :: ReadAt(f, b, k, offset)
  {
    var fs := AsmStack.Listings(f);
    UsedExactly(fs, offset);
    if b: nat :| b < |fs| && AsmStack.Slot(offset) in AsmStack.UsedIn(fs[b]) {
      BlockReads(f, b, offset);
      var k: nat :| ReadAt(f, b, k, offset);
    }
    if b: nat, k: nat :| ReadAt(f, b, k, offset) {
      BlockReads(f, b, offset);
      assert AsmStack.Slot(offset) in AsmStack.UsedIn(fs[b]);
    }
  }

  lemma {:induction false} KeptAppend(used: set<int>, a: seq<Instr>, i: Instr)
    ensures AsmStack.Kept(used, a + [i]) == AsmStack.Kept(used, a) + if AsmStack.Dead(used, i) then [] else [i]
    decreases |a|
  {
    if a == [] {
      assert a + [i] == [i] && [i][1..] == [];
    } else {
      KeptAppend(used, a[1..], i);
      assert (a + [i])[1..] == a[1..] + [i] && (a + [i])[0] == a[0];
    }
  }

  lemma {:induction false} KeptIsWithout(used: set<int>, c: seq<Instr>, drop: Instr -> bool)
    requires forall i :: drop(i) <==> AsmStack.Dead(used, i)
    ensures AsmStack.Kept(used, c) == Without(c, drop)
    decreases |c|
  {
    if c != [] {
      KeptIsWithout(used, c[..|c|-1], drop);
      KeptAppend(used, c[..|c|-1], c[|c|-1]);
      assert c == c[..|c|-1] + [c[|c|-1]];
    }
  }

  /** Main result: of every block exactly the moves into slots that nothing in the function reads are gone. */
  lemma CleanedExactly(f: seq<Code>, b: nat)
    requires b < |f|
    ensures |AsmStack.Cleaned(f)| == |f| && AsmStack.Cleaned(f)[b] == Code(f[b].name, Without(f[b].instrs, i => Unread(f, i)))
  {
    var used := AsmStack.Used(AsmStack.Listings(f));
    forall i ensures Unread(f, i) <==> AsmStack.Dead(used, i) {
      if i.op1.Ind? && i.op1.offset < 0 { ReadExactly(f, i.op1.offset); }
    }
    KeptIsWithout(used, f[b].instrs, i => Unread(f, i));
  }

  // ---- AsmSimpleOptimizer ----

  predicate IsAddZero(i: Instr) { i.mnemonic == Add && i.op0 == Imm(0) }

  predicate IsAddOne(i: Instr) { i.mnemonic == Add && i.op0 == Imm(1) }

  predicate IsSubOne(i: Instr) { i.mnemonic == Sub && i.op0 == Imm(1) }

  predicate IsClear(i: Instr) { IsMoveOf(i) && i.op0 == Imm(0) && !i.op1.Ind? }

  predicate Improvable(i: Instr) { IsAddZero(i) || IsAddOne(i) || IsSubOne(i) || IsClear(i) }

  lemma HeadOff(c: seq<Instr>, k: nat)
    requires 0 < k <= |c|
    ensures |c[1..]| == |c| - 1 && c[..k] == [c[0]] + c[1..][..k-1] && c[1..][k-1..] == c[k..]
    ensures forall j :: 0 <= j < k - 1 ==> c[1..][j] == c[j+1]
  {
  }

  function Improved(i: Instr): Instr {
    if IsAddOne(i) then Instr(Inc, i.op1, NoOp) else if IsSubOne(i) then Instr(Dec, i.op1, NoOp) else Instr(Xor, i.op1, i.op1)
  }

  lemma CheaperIs(i: Instr)
    ensures AddsZero(i) <==> IsAddZero(i)
    ensures !IsAddZero(i) ==> Cheaper(i) == if Improvable(i) then Improved(i) else i
  {
  }

  lemma SimpleUnfolds(c: seq<Instr>)
    requires c != []
    ensures Simple(c) == if AddsZero(c[0]) then if |c| == 1 then [] else [c[1]] + Simple(c[2..]) else [Cheaper(c[0])] + Simple(c[1..])
  {
  }

  lemma SimpleHead(c: seq<Instr>)
    requires c != []
    ensures IsAddZero(c[0]) ==> Simple(c) == if |c| == 1 then [] else [c[1]] + Simple(c[2..])
    ensures Improvable(c[0]) && !IsAddZero(c[0]) ==> Simple(c) == [Improved(c[0])] + Simple(c[1..])
    ensures !Improvable(c[0]) ==> Simple(c) == [c[0]] + Simple(c[1..])
  {
    CheaperIs(c[0]);
    SimpleUnfolds(c);
  }

  /** The first instruction that can be improved is removed, or replaced by a cheaper one; behind a removed one the next
      instruction stays as it is. */
  lemma {:induction false} SimpleFirst(c: seq<Instr>, k: nat)
    requires k < |c| && Improvable(c[k]) && forall j :: 0 <= j < k ==> !Improvable(c[j])
    ensures Simple(c) == c[..k] +
      if IsAddZero(c[k]) then if k + 1 == |c| then [] else [c[k+1]] + Simple(c[k+2..]) else [Improved(c[k])] + Simple(c[k+1..])
    decreases k
  {
    SimpleHead(c);
    if k == 0 {
      assert c[..0] == [];
    } else {
      HeadOff(c, k);
      assert !Improvable(c[0]) && c[1..][k-1] == c[k];
      SimpleFirst(c[1..], k - 1);
      assert c[1..][k..] == c[k+1..] && (k + 1 < |c| ==> c[1..][k] == c[k+1] && c[1..][k+1..] == c[k+2..]);
    }
  }

  lemma {:induction false} SimpleNone(c: seq<Instr>)
    requires forall j :: 0 <= j < |c| ==> !Improvable(c[j])
    ensures Simple(c) == c
    decreases |c|
  {
    if c != [] {
      assert !Improvable(c[0]);
      SimpleHead(c);
      SimpleNone(c[1..]);
      assert c == [c[0]] + c[1..];
    }
  }

  // ---- AsmArithOptimizer ----

  /** An addition and a subtraction of constants on one register. */
  predicate AddThenSub(a: Instr, b: Instr) {
    a.mnemonic == Add && b.mnemonic == Sub && a.op0.Imm? && b.op0.Imm? && a.op1.RegOp? && b.op1 == a.op1
  }

  lemma SmallTail(c: seq<Instr>, n: nat)
    requires SmallImms(c) && n <= |c|
    ensures SmallImms(c[n..]) && (n < |c| ==> Small(c[n]))
  {
  }

  lemma ArithPasses(c: seq<Instr>)
    requires SmallImms(c) && |c| >= 2 && !AddThenSub(c[0], c[1])
    ensures SmallImms(c[1..]) && Arith(c) == [c[0]] + Arith(c[1..])
  {
    SmallTail(c, 1);
  }

  /** What becomes of the list from a pair at position `k` on: a pair that cancels is removed and the instruction behind it
      stays as it is, any other becomes one addition or subtraction of the difference. */
  ghost function PairMerged(c: seq<Instr>, k: nat): seq<Instr>
    requires SmallImms(c) && k + 1 < |c| && AddThenSub(c[k], c[k+1])
  {
    SmallTail(c, k);
    SmallTail(c, k + 1);
    SmallTail(c, k + 2);
    var (x, y) := (c[k].op0.value as int, c[k+1].op0.value as int);
    if x == y then if k + 2 == |c| then [] else SmallTail(c, k + 3); [c[k+2]] + Arith(c[k+3..])
    else [if x > y then Instr(Add, Imm(x - y), c[k].op1) else Instr(Sub, Imm(y - x), c[k].op1)] + Arith(c[k+2..])
  }

  lemma PairAtHead(c: seq<Instr>)
    requires SmallImms(c) && 1 < |c| && AddThenSub(c[0], c[1])
    ensures Arith(c) == PairMerged(c, 0)
  {
  }

  lemma PairShifts(c: seq<Instr>, k: nat)
    requires SmallImms(c) && 0 < k && k + 1 < |c| && SmallImms(c[1..]) && AddThenSub(c[k], c[k+1])
    ensures c[1..][k-1] == c[k] && c[1..][k] == c[k+1] && PairMerged(c[1..], k - 1) == PairMerged(c, k)
  {
    assert c[1..][k+1..] == c[k+2..] && (k + 2 < |c| ==> c[1..][k+1] == c[k+2] && c[1..][k+2..] == c[k+3..]);
  }

  /** What the pass does at the first such pair. */
  lemma {:induction false} ArithFirst(c: seq<Instr>, k: nat)
    requires SmallImms(c) && k + 1 < |c| && AddThenSub(c[k], c[k+1]) && forall j :: 0 <= j < k ==> !AddThenSub(c[j], c[j+1])
    ensures Arith(c) == c[..k] + PairMerged(c, k)
    decreases k
  {
    if k == 0 {
      PairAtHead(c);
      assert c[..0] + PairMerged(c, 0) == PairMerged(c, 0);
    } else {
      assert !AddThenSub(c[0], c[0+1]);
      ArithPasses(c);
      PairShifts(c, k);
      forall j | 0 <= j < k - 1 ensures !AddThenSub(c[1..][j], c[1..][j+1]) { assert !AddThenSub(c[j+1], c[j+1+1]); }
      ArithFirst(c[1..], k - 1);
      HeadOff(c, k);
      Splice([c[0]], c[1..][..k-1], PairMerged(c, k));
    }
  }

  lemma {:induction false} ArithNone(c: seq<Instr>)
    requires SmallImms(c) && forall j :: 0 <= j < |c| - 1 ==> !AddThenSub(c[j], c[j+1])
    ensures Arith(c) == c
    decreases |c|
  {
    if |c| >= 2 {
      assert !AddThenSub(c[0], c[0+1]);
      assert SmallImms(c[1..]);
      forall j | 0 <= j < |c[1..]| - 1 ensures !AddThenSub(c[1..][j], c[1..][j+1]) { assert !AddThenSub(c[j+1], c[j+1+1]); }
      ArithNone(c[1..]);
      assert c == [c[0]] + c[1..];
    }
  }

  // ---- AsmMovOptimizer, first two loops ----

  /** A register is stored and the same place loaded right after. */
  predicate Reload(a: Instr, b: Instr) {
    IsMoveOf(a) && IsMoveOf(b) && a.op0.RegOp? && a.op1.Ind? && b.op0 == a.op1 && b.op1.RegOp?
  }

  predicate ReloadSame(a: Instr, b: Instr) { Reload(a, b) && b.op1 == a.op0 }

  predicate ReloadOther(a: Instr, b: Instr) { Reload(a, b) && b.op1 != a.op0 }

  lemma PairsHead(c: seq<Instr>)
    requires |c| >= 2
    ensures MovPairs(c) == [c[0]] + MovPairs(if ReloadSame(c[0], c[1]) then c[2..] else c[1..])
  {
  }

  /** The first load into the register just stored is removed. */
  lemma {:induction false} PairsFirst(c: seq<Instr>, k: nat)
    requires k + 1 < |c| && ReloadSame(c[k], c[k+1]) && forall j :: 0 <= j < k ==> !ReloadSame(c[j], c[j+1])
    ensures MovPairs(c) == c[..k+1] + MovPairs(c[k+2..])
    decreases k
  {
    PairsHead(c);
    if k == 0 {
      assert c[..1] == [c[0]];
    } else {
      HeadOff(c, k + 1);
      assert !ReloadSame(c[0], c[0+1]) && c[1..][k-1] == c[k] && c[1..][k] == c[k+1];
      forall j | 0 <= j < k - 1 ensures !ReloadSame(c[1..][j], c[1..][j+1]) { assert !ReloadSame(c[j+1], c[j+1+1]); }
      PairsFirst(c[1..], k - 1);
      Splice([c[0]], c[1..][..k], MovPairs(c[k+2..]));
      assert c[1..][k+1..] == c[k+2..];
    }
  }

  lemma {:induction false} PairsNone(c: seq<Instr>)
    requires forall j :: 0 <= j < |c| - 1 ==> !ReloadSame(c[j], c[j+1])
    ensures MovPairs(c) == c
    decreases |c|
  {
    if |c| >= 2 {
      PairsHead(c);
      assert !ReloadSame(c[0], c[0+1]);
      forall j | 0 <= j < |c[1..]| - 1 ensures !ReloadSame(c[1..][j], c[1..][j+1]) { assert !ReloadSame(c[j+1], c[j+1+1]); }
      PairsNone(c[1..]);
      assert c == [c[0]] + c[1..];
    }
  }

  /** Second loop: what stands at each place. */
  lemma {:induction false} ForwardsAt(c: seq<Instr>, k: nat)
    requires k < |c|
    ensures |MovForwards(c)| == |c|
    ensures MovForwards(c)[k] == if k > 0 && ReloadOther(c[k-1], c[k]) then Instr(Movq, c[k-1].op0, c[k].op1) else c[k]
    decreases |c|, k
  {
    if |c| >= 2 {
      if ReloadOther(c[0], c[1]) {
        var d := [Direct(c[0], c[1])] + c[2..];
        ForwardsAt(d, if k == 0 then 0 else k - 1);
        assert k >= 2 ==> d[k-1] == c[k] && d[k-2] == if k == 2 then Direct(c[0], c[1]) else c[k-1];
      } else {
        ForwardsAt(c[1..], if k == 0 then 0 else k - 1);
        assert k >= 1 ==> c[1..][k-1] == c[k];
        assert k >= 2 ==> c[1..][k-2] == c[k-1];
      }
    }
  }

  // ---- AsmJumpOptimizer ----

  /** A jump to the next block at the end is removed; one before the last jump likewise. */
  lemma ElidedExactly(pre: seq<Instr>, i: Instr, j: Instr, next: string)
    requires j.op0.Str? && (i.op0.Str? || next != "")
    ensures j.op0.name == next ==> AsmJump.Elide(pre + [j], next) == pre
    ensures j.op0.name != next && IsJmp(i.mnemonic) && i.op0 == Str(next) ==> AsmJump.Elide(pre + [i, j], next) == pre + [j]
    ensures j.op0.name != next && !(IsJmp(i.mnemonic) && i.op0 == Str(next)) ==> AsmJump.Elide(pre + [i, j], next) == pre + [i, j]
    ensures j.op0.name != next ==> AsmJump.Elide([j], next) == [j]
  {
    assert (pre + [j])[..|pre|] == pre && (pre + [i, j])[..|pre|] == pre;
    assert (pre + [i, j])[|pre|] == i && (pre + [i, j])[|pre|+1] == j;
  }
}

/** Removing moves into frame slots that are never read (AsmStackOptimizer in asm_optimizer.cpp). */
module AsmStack {
  import opened Asm

  function Slot(offset: int): int { (-offset) / 8 }

  /** The slots an instruction list reads: those that occur as first operand. */
  function UsedIn(instrs: seq<Instr>): set<int> {
    if instrs == [] then {}
    else
      var op := instrs[0].op0;
      (if op.Ind? && op.offset < 0 then {Slot(op.offset)} else {}) + UsedIn(instrs[1..])
  }

  function Used(f: seq<seq<Instr>>): set<int> {
    if f == [] then {} else UsedIn(f[0]) + Used(f[1..])
  }

  /** A move into a slot that is not used. */
  predicate Dead(used: set<int>, i: Instr) {
    IsMov(i.mnemonic) && i.op1.Ind? && i.op1.offset < 0 && Slot(i.op1.offset) !in used
  }

  function Kept(used: set<int>, instrs: seq<Instr>): seq<Instr> {
    if instrs == [] then []
    else
      var rest := Kept(used, instrs[1..]);
      if Dead(used, instrs[0]) then rest else [instrs[0]] + rest
  }

  /** A block is emptied exactly if it consists of such moves. */
  lemma {:induction false} KeptNothing(used: set<int>, instrs: seq<Instr>)
    ensures Kept(used, instrs) == [] <==> forall k :: 0 <= k < |instrs| ==> Dead(used, instrs[k])
  {
    if instrs != [] {
      KeptNothing(used, instrs[1..]);
      assert (forall k :: 0 <= k < |instrs| ==> Dead(used, instrs[k])) <==>
        Dead(used, instrs[0]) && forall k :: 0 <= k < |instrs[1..]| ==> Dead(used, instrs[1..][k]) by {
        assert forall k :: 0 < k < |instrs| ==> instrs[k] == instrs[1..][k-1];
      }
    }
  }

  /** What the code generator emits: negative offsets are relative to the frame pointer, and only moves have a memory
      operand as their second one. */
  predicate Emitted(i: Instr) {
    && (i.op0.Ind? && i.op0.offset < 0 ==> i.op0.base == BP)
    && (i.op1.Ind? ==> (ClassOf(i.mnemonic) == Moves) && (i.op1.offset < 0 ==> i.op1.base == BP))
  }

  predicate AllEmitted(instrs: seq<Instr>) { forall i :: 0 <= i < |instrs| ==> Emitted(instrs[i]) }

  function SlotValue(s: State, offset: int): Word { if offset in s.frame then s.frame[offset] else 0 }

  /** Equal but for slots that are never read. */
  ghost predicate SameButDead(used: set<int>, s: State, t: State) {
    && s.regs == t.regs && s.heap == t.heap && s.flags == t.flags
    && forall off: int {:trigger SlotValue(s, off)} {:trigger SlotValue(t, off)} ::
         off < 0 && Slot(off) in used ==> SlotValue(s, off) == SlotValue(t, off)
  }

  predicate Reads(used: set<int>, i: Instr) { i.op0.Ind? && i.op0.offset < 0 ==> Slot(i.op0.offset) in used }

  lemma LoadsSame(used: set<int>, i: Instr, s: State, t: State)
    requires Emitted(i) && Reads(used, i) && SameButDead(used, s, t)
    ensures Load(s, i.op0) == Load(t, i.op0)
    ensures !i.op1.Ind? ==> Load(s, i.op1) == Load(t, i.op1)
  {
    if i.op0.Ind? && IsSlot(i.op0) {
      assert SlotValue(s, i.op0.offset) == SlotValue(t, i.op0.offset);
    }
  }

  lemma StoreSame(used: set<int>, op: Op, v: Word, s: State, t: State)
    requires SameButDead(used, s, t)
    ensures SameButDead(used, Store(s, op, v), Store(t, op, v))
  {
    var s', t' := Store(s, op, v), Store(t, op, v);
    forall off: int | off < 0 && Slot(off) in used ensures SlotValue(s', off) == SlotValue(t', off) {
      assert SlotValue(s, off) == SlotValue(t, off);
    }
  }

  /** An instruction that stays keeps the states alike. */
  lemma KeptAgrees(p: Cpu, used: set<int>, i: Instr, s: State, t: State)
    requires Emitted(i) && Reads(used, i) && SameButDead(used, s, t)
    ensures SameButDead(used, ExecInstr(p, i, s), ExecInstr(p, i, t))
  {
    LoadsSame(used, i, s, t);
    var k := ClassOf(i.mnemonic);
    if k == Moves {
      StoreSame(used, i.op1, Load(s, i.op0), s, t);
    } else if k == Unary {
      var r := p.alu(i.mnemonic, Load(s, i.op0), 0);
      StoreSame(used, i.op0, r.0, s, t);
      FlagsSame(used, Store(s, i.op0, r.0), Store(t, i.op0, r.0), r.1);
    } else if k == Binary {
      var r := p.alu(i.mnemonic, Load(s, i.op1), Load(s, i.op0));
      StoreSame(used, i.op1, r.0, s, t);
      FlagsSame(used, Store(s, i.op1, r.0), Store(t, i.op1, r.0), r.1);
    } else {
      OthersSame(p, used, i, s, t);
    }
  }

  lemma FlagsSame(used: set<int>, s: State, t: State, f: Flags)
    requires SameButDead(used, s, t)
    ensures SameButDead(used, s.(flags := f), t.(flags := f))
  {
    forall off: int | off < 0 && Slot(off) in used ensures SlotValue(s.(flags := f), off) == SlotValue(t.(flags := f), off) {
      assert SlotValue(s, off) == SlotValue(t, off);
    }
  }

  lemma OthersSame(p: Cpu, used: set<int>, i: Instr, s: State, t: State)
    requires SameButDead(used, s, t) && Load(s, i.op0) == Load(t, i.op0) && Load(s, i.op1) == Load(t, i.op1)
    requires ClassOf(i.mnemonic) != Moves && ClassOf(i.mnemonic) != Unary && ClassOf(i.mnemonic) != Binary
    ensures SameButDead(used, ExecInstr(p, i, s), ExecInstr(p, i, t))
  {
    var s', t' := ExecInstr(p, i, s), ExecInstr(p, i, t);
    forall off: int | off < 0 && Slot(off) in used ensures SlotValue(s', off) == SlotValue(t', off) {
      assert SlotValue(s, off) == SlotValue(t, off);
    }
  }

  /** An instruction that goes makes no difference. */
  lemma DeadSkipped(p: Cpu, used: set<int>, i: Instr, s: State, t: State)
    requires Emitted(i) && Dead(used, i) && SameButDead(used, s, t)
    ensures SameButDead(used, ExecInstr(p, i, s), t)
  {
    var s' := ExecInstr(p, i, s);
    forall off: int | off < 0 && Slot(off) in used ensures SlotValue(s', off) == SlotValue(t, off) {
      assert SlotValue(s, off) == SlotValue(t, off);
    }
  }

  lemma {:induction false} BlockAgrees(p: Cpu, used: set<int>, instrs: seq<Instr>, s: State, t: State)
    requires AllEmitted(instrs) && UsedIn(instrs) <= used && SameButDead(used, s, t)
    ensures var (s', e) := ExecBlock(p, instrs, s); var (t', e') := ExecBlock(p, Kept(used, instrs), t);
      e == e' && SameButDead(used, s', t')
    decreases |instrs|
  {
    if instrs != [] {
      var i := instrs[0];
      var rest := Kept(used, instrs[1..]);
      assert AllEmitted(instrs[1..]) by {
        forall k | 0 <= k < |instrs[1..]| ensures Emitted(instrs[1..][k]) { assert instrs[1..][k] == instrs[k+1]; }
      }
      assert Emitted(i) && Reads(used, i);
      if IsJmp(i.mnemonic) {
        assert Kept(used, instrs) == [i] + rest && ([i] + rest)[1..] == rest;
        if !Taken(i.mnemonic, s.flags) { BlockAgrees(p, used, instrs[1..], s, t); }
      } else if Dead(used, i) {
        DeadSkipped(p, used, i, s, t);
        BlockAgrees(p, used, instrs[1..], ExecInstr(p, i, s), t);
      } else {
        assert Kept(used, instrs) == [i] + rest && ([i] + rest)[1..] == rest;
        KeptAgrees(p, used, i, s, t);
        BlockAgrees(p, used, instrs[1..], ExecInstr(p, i, s), ExecInstr(p, i, t));
      }
    }
  }

  // ---- whole functions ----

  function Listings(f: seq<Code>): seq<seq<Instr>> { seq(|f|, i requires 0 <= i < |f| => f[i].instrs) }

  lemma {:induction false} UsedCovers(fs: seq<seq<Instr>>, k: nat)
    requires k < |fs|
    ensures UsedIn(fs[k]) <= Used(fs)
  {
    if k > 0 {
      UsedCovers(fs[1..], k - 1);
    }
  }

  /** The function after the pass. */
  function Cleaned(f: seq<Code>): seq<Code> {
    seq(|f|, i requires 0 <= i < |f| => Code(f[i].name, Kept(Used(Listings(f)), f[i].instrs)))
  }

  /** Main result: every run of the cleaned function visits the same blocks, with the same registers, flags, memory
      and slots that are read. */
  lemma DeadStoresAreDead(p: Cpu, f: seq<Code>, s: State, start: nat, n: nat)
    requires forall k :: 0 <= k < |f| ==> AllEmitted(f[k].instrs)
    ensures var used := Used(Listings(f));
      Alike((a, b) => SameButDead(used, a, b), Run(Machine(p), f, At(start, s), n), Run(Machine(p), Cleaned(f), At(start, s), n))
  {
    var used, g, x := Used(Listings(f)), Cleaned(f), Machine(p);
    var r := (a, b) => SameButDead(used, a, b);
    forall k | 0 <= k < |f| ensures BlocksAgree(x, r, f[k].instrs, g[k].instrs) {
      UsedCovers(Listings(f), k);
      forall a, b | r(a, b) ensures x(f[k].instrs, a).1 == x(g[k].instrs, b).1 && r(x(f[k].instrs, a).0, x(g[k].instrs, b).0) {
        BlockAgrees(p, used, f[k].instrs, a, b);
      }
    }
    RunsAgree(x, r, f, g, At(start, s), At(start, s), n);
  }

  // ---- the pass ----

  function ListingsOf(blocks: seq<BasicBlock>): seq<seq<Instr>>
    reads blocks
  {
    seq(|blocks|, i requires 0 <= i < |blocks| reads blocks => blocks[i].flattenedInstrs)
  }

  /** Every slot that occurs lies within the activation record. */
  predicate InRecord(instrs: seq<Instr>, slots: nat) {
    forall i :: 0 <= i < |instrs| ==>
      && (instrs[i].op0.Ind? && instrs[i].op0.offset < 0 ==> Slot(instrs[i].op0.offset) < slots)
      && (instrs[i].op1.Ind? && instrs[i].op1.offset < 0 ==> Slot(instrs[i].op1.offset) < slots)
  }

  class AsmStackOptimizer {
    var optimizations: nat

    constructor ()
      ensures optimizations == 0
    {
      optimizations := 0;
    }

    /** First loop, one block: mark the slots read from position 0 on. */
    method MarkBlock(instrs: seq<Instr>, usedSlots: array<bool>)
      requires InRecord(instrs, usedSlots.Length)
      modifies usedSlots
      ensures forall k :: 0 <= k < usedSlots.Length ==> usedSlots[k] == (old(usedSlots[k]) || k in UsedIn(instrs))
    {
      var x := 0;
      while x < |instrs|
        invariant x <= |instrs|
        invariant forall k :: 0 <= k < usedSlots.Length ==>
          ((usedSlots[k] || k in UsedIn(instrs[x..])) <==> (old(usedSlots[k]) || k in UsedIn(instrs)))
      {
        assert instrs[x..][1..] == instrs[x+1..] && instrs[x..][0] == instrs[x];
        var op := instrs[x].op0;
        if op.Ind? && op.offset < 0 {
          usedSlots[(-op.offset) / 8] := true;
        }
        x := x + 1;
      }
    }

    /** Second loop, one block: erase dead moves in place. */
    method CleanBlock(b: BasicBlock, usedSlots: array<bool>, ghost used: set<int>)
      requires InRecord(b.flattenedInstrs, usedSlots.Length)
      requires forall k :: 0 <= k < usedSlots.Length ==> usedSlots[k] == (k in used)
      modifies this, b`flattenedInstrs
      ensures b.flattenedInstrs == Kept(used, old(b.flattenedInstrs))
      ensures optimizations + |b.flattenedInstrs| == old(optimizations) + |old(b.flattenedInstrs)|
    {
      var x := 0;
      while x < |b.flattenedInstrs|
        invariant x <= |b.flattenedInstrs| && InRecord(b.flattenedInstrs, usedSlots.Length)
        invariant b.flattenedInstrs[..x] + Kept(used, b.flattenedInstrs[x..]) == Kept(used, old(b.flattenedInstrs))
        invariant optimizations + |b.flattenedInstrs| == old(optimizations) + |old(b.flattenedInstrs)|
        decreases |b.flattenedInstrs| - x
      {
        var f := b.flattenedInstrs;
        var instr := f[x];
        assert f[x..][1..] == f[x+1..] && f[x..][0] == instr;
        if IsMov(instr.mnemonic) && instr.op1.Ind? && instr.op1.offset < 0 && !usedSlots[(-instr.op1.offset) / 8] {
          b.flattenedInstrs := f[..x] + f[x+1..];
          assert b.flattenedInstrs[x..] == f[x+1..] && b.flattenedInstrs[..x] == f[..x];
          optimizations := optimizations + 1;
        } else {
          assert f[..x+1] + Kept(used, f[x+1..]) == f[..x] + Kept(used, f[x..]);
          x := x + 1;
        }
      }
      assert b.flattenedInstrs[..x] == b.flattenedInstrs && b.flattenedInstrs[x..] == [];
    }

    method MarkAll(blocks: seq<BasicBlock>, usedSlots: array<bool>)
      requires forall i :: 0 <= i < |blocks| ==> InRecord(blocks[i].flattenedInstrs, usedSlots.Length)
      requires forall k :: 0 <= k < usedSlots.Length ==> !usedSlots[k]
      modifies usedSlots
      ensures forall k :: 0 <= k < usedSlots.Length ==> usedSlots[k] == (k in Used(ListingsOf(blocks)))
    {
      ghost var fs := ListingsOf(blocks);
      var i := 0;
      while i < |blocks|
        invariant i <= |blocks| && fs == ListingsOf(blocks)
        invariant forall k :: 0 <= k < usedSlots.Length ==> ((usedSlots[k] || k in Used(fs[i..])) <==> k in Used(fs))
      {
        assert fs[i..][1..] == fs[i+1..] && fs[i..][0] == blocks[i].flattenedInstrs;
        MarkBlock(blocks[i].flattenedInstrs, usedSlots);
        i := i + 1;
      }
    }

    method OptimizeFunction(blocks: seq<BasicBlock>, slots: nat)
      requires forall i, j :: 0 <= i < j < |blocks| ==> blocks[i] != blocks[j]
      requires forall i :: 0 <= i < |blocks| ==> InRecord(blocks[i].flattenedInstrs, slots)
      modifies this, blocks`flattenedInstrs
      ensures forall i :: 0 <= i < |blocks| ==>
        blocks[i].flattenedInstrs == Kept(Used(old(ListingsOf(blocks))), old(blocks[i].flattenedInstrs))
    {
      ghost var used := Used(ListingsOf(blocks));
      var usedSlots := new bool[slots](_ => false);
      assert ListingsOf(blocks) == old(ListingsOf(blocks));
      MarkAll(blocks, usedSlots);
      var i := 0;
      while i < |blocks|
        invariant i <= |blocks|
        invariant forall k :: 0 <= k < slots ==> usedSlots[k] == (k in used)
        invariant forall j :: 0 <= j < i ==> blocks[j].flattenedInstrs == Kept(used, old(blocks[j].flattenedInstrs))
        invariant forall j :: i <= j < |blocks| ==> blocks[j].flattenedInstrs == old(blocks[j].flattenedInstrs)
      {
        CleanBlock(blocks[i], usedSlots, used);
        i := i + 1;
      }
    }
  }
}

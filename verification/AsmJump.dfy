/** Conditional jump pairs (asm_pass.cpp) and leaving out jumps to the next block (AsmJumpOptimizer in
    asm_optimizer.cpp). */
module AsmJump {
  import opened Asm

  // ---- jump pairs ----

  datatype Relation = Equal | LessGreater | Less | LessEqual | Greater | GreaterEqual | True

  function InverseRelation(r: Relation): Relation
    requires r != True
  {
    match r
    case Equal => LessGreater
    case LessGreater => Equal
    case Greater => LessEqual
    case Less => GreaterEqual
    case LessEqual => Greater
    case GreaterEqual => Less
  }

  function JumpFor(r: Relation): Mnemonic {
    match r
    case True => Jmp
    case Equal => Je
    case LessGreater => Jne
    case Less => Jl
    case LessEqual => Jle
    case Greater => Jg
    case GreaterEqual => Jge
  }

  function MakeJump(target: string, r: Relation): Instr { Instr(JumpFor(r), Str(target), NoOp) }

  /** The two jumps of a condition are complementary, and inverting twice changes nothing. */
  lemma InverseComplements(r: Relation, f: Flags)
    requires r != True
    ensures Taken(JumpFor(InverseRelation(r)), f) <==> !Taken(JumpFor(r), f)
    ensures InverseRelation(r) != True && InverseRelation(InverseRelation(r)) == r
  {
  }

  /** The jumps visitCond appends. */
  function CondJumps(r: Relation, trueBlock: string, falseBlock: string): seq<Instr>
    requires r != True
  {
    if trueBlock == falseBlock then [MakeJump(trueBlock, True)]
    else [MakeJump(trueBlock, r), MakeJump(falseBlock, InverseRelation(r))]
  }

  /** They always leave the block, for the block the comparison decides on. */
  lemma CondJumpsDecide(p: Cpu, r: Relation, trueBlock: string, falseBlock: string, s: State)
    requires r != True
    ensures ExecBlock(p, CondJumps(r, trueBlock, falseBlock), s) ==
      (s, Jumps(if Taken(JumpFor(r), s.flags) then trueBlock else falseBlock))
  {
    InverseComplements(r, s.flags);
    var js := CondJumps(r, trueBlock, falseBlock);
    if trueBlock != falseBlock { assert js[1..] == [MakeJump(falseBlock, InverseRelation(r))]; }
  }

  // ---- elision ----

  /** jumpInstrs after the pass, `next` being the following block. */
  function Elide(jumps: seq<Instr>, next: string): seq<Instr> {
    var n := |jumps|;
    if n > 0 && Name(jumps[n-1].op0) == next then jumps[..n-1]
    else if n >= 2 && IsJmp(jumps[n-2].mnemonic) && Name(jumps[n-2].op0) == next then jumps[..n-2] + [jumps[n-1]]
    else jumps
  }

  /** No comparison lets both jumps be taken. */
  predicate Exclusive(a: Mnemonic, b: Mnemonic) {
    forall z, l :: !(Taken(a, Flags(z, l)) && Taken(b, Flags(z, l)))
  }

  /** What the pass takes for granted: jumps end the list, and of two of them at most one is taken. */
  predicate Paired(jumps: seq<Instr>) {
    var n := |jumps|;
    && (n > 0 ==> IsJmp(jumps[n-1].mnemonic) && jumps[n-1].op0.Str?)
    && (n >= 2 && IsJmp(jumps[n-2].mnemonic) ==> Exclusive(jumps[n-2].mnemonic, jumps[n-1].mnemonic))
  }

  /** The jumps of a condition are what the pass takes for granted, whatever comes before them. */
  lemma CondJumpsPaired(pre: seq<Instr>, r: Relation, trueBlock: string, falseBlock: string)
    requires r != True && forall i :: 0 <= i < |pre| ==> !IsJmp(pre[i].mnemonic)
    ensures Paired(pre + CondJumps(r, trueBlock, falseBlock))
  {
    forall z, l ensures !(Taken(JumpFor(r), Flags(z, l)) && Taken(JumpFor(InverseRelation(r)), Flags(z, l))) {
      InverseComplements(r, Flags(z, l));
    }
  }

  /** The same state, and the same exit but that falling through replaces a jump to the next block. */
  predicate SameExit(a: (State, Exit), b: (State, Exit), next: string) {
    a.0 == b.0 && (a.1 == b.1 || (a.1 == Jumps(next) && b.1 == Falls))
  }

  lemma ElideAgrees(p: Cpu, jumps: seq<Instr>, next: string, s: State)
    requires Paired(jumps)
    ensures SameExit(ExecBlock(p, jumps, s), ExecBlock(p, Elide(jumps, next), s), next)
  {
    var n := |jumps|;
    if n > 0 && Name(jumps[n-1].op0) == next {
      assert jumps == jumps[..n-1] + [jumps[n-1]];
      ExecAppend(p, jumps[..n-1], [jumps[n-1]], s);
    } else if n >= 2 && IsJmp(jumps[n-2].mnemonic) && Name(jumps[n-2].op0) == next {
      var a, b := jumps[n-2], jumps[n-1];
      assert jumps == jumps[..n-2] + [a, b];
      ExecAppend(p, jumps[..n-2], [a, b], s);
      ExecAppend(p, jumps[..n-2], [b], s);
      assert [a, b][1..] == [b];
      var t := ExecBlock(p, jumps[..n-2], s).0;
      assert t.flags == Flags(t.flags.zero, t.flags.less);
    }
  }

  /** If two jumps could both be taken, removing the first would send such a comparison elsewhere. */
  lemma ElisionNeedsExclusive(p: Cpu, a: Instr, b: Instr, s: State)
    requires IsJmp(a.mnemonic) && IsJmp(b.mnemonic) && a.op0.Str? && b.op0.Str? && a.op0.name != b.op0.name
    ensures Elide([a, b], a.op0.name) == [b]
    ensures Exclusive(a.mnemonic, b.mnemonic) <==>
      forall z, l :: SameExit(ExecBlock(p, [a, b], s.(flags := Flags(z, l))), ExecBlock(p, [b], s.(flags := Flags(z, l))), a.op0.name)
  {
    assert [a, b][..0] + [b] == [b] && [a, b][1..] == [b] && [b][1..] == [];
    forall z, l ensures SameExit(ExecBlock(p, [a, b], s.(flags := Flags(z, l))), ExecBlock(p, [b], s.(flags := Flags(z, l))), a.op0.name)
      <==> !(Taken(a.mnemonic, Flags(z, l)) && Taken(b.mnemonic, Flags(z, l))) {
    }
  }

  // ---- whole functions ----

  /** A block with its jumps kept apart. */
  datatype Parts = Parts(name: string, body: seq<Instr>, jumps: seq<Instr>)

  function Flat(f: seq<Parts>): seq<Code> {
    seq(|f|, i requires 0 <= i < |f| => Code(f[i].name, f[i].body + f[i].jumps))
  }

  function ElideAll(f: seq<Parts>): seq<Parts> {
    seq(|f|, i requires 0 <= i < |f| => if i + 1 < |f| then f[i].(jumps := Elide(f[i].jumps, f[i+1].name)) else f[i])
  }

  predicate NamesUnique(f: seq<Parts>) { forall i, j :: 0 <= i < j < |f| ==> f[i].name != f[j].name }

  lemma {:induction false} FindsBlock(f: seq<Code>, k: nat)
    requires k < |f| && forall i :: 0 <= i < k ==> f[i].name != f[k].name
    ensures Find(f, f[k].name) == k
  {
    if k > 0 { FindsBlock(f[1..], k - 1); }
  }

  lemma {:induction false} StepSame(p: Cpu, f: seq<Parts>, c: Config)
    requires NamesUnique(f) && forall i :: 0 <= i < |f| ==> Paired(f[i].jumps)
    ensures Step(Machine(p), Flat(ElideAll(f)), c) == Step(Machine(p), Flat(f), c)
  {
    var g := ElideAll(f);
    if c.At? && c.index < |f| {
      var k, s := c.index, c.state;
      ExecAppend(p, f[k].body, f[k].jumps, s);
      ExecAppend(p, g[k].body, g[k].jumps, s);
      var e := ExecBlock(p, Flat(f)[k].instrs, s).1;
      if e.Jumps? { FindSame(Flat(f), Flat(g), e.target); }
      if k + 1 < |f| {
        ElideAgrees(p, f[k].jumps, f[k+1].name, ExecBlock(p, f[k].body, s).0);
        FindsBlock(Flat(f), k + 1);
      }
    }
  }

  /** Main result: without the redundant jumps every run goes through exactly the same configurations. */
  lemma ElisionKeepsRuns(p: Cpu, f: seq<Parts>, c: Config, n: nat)
    requires NamesUnique(f) && forall i :: 0 <= i < |f| ==> Paired(f[i].jumps)
    ensures Run(Machine(p), Flat(ElideAll(f)), c, n) == Run(Machine(p), Flat(f), c, n)
  {
    var q := (a: Config, b: Config) => a == b;
    forall a, b | q(a, b) ensures q(Step(Machine(p), Flat(ElideAll(f)), a), Step(Machine(p), Flat(f), b)) {
      StepSame(p, f, a);
    }
    IterationsAgree(a => Step(Machine(p), Flat(ElideAll(f)), a), a => Step(Machine(p), Flat(f), a), q, c, c, n);
  }

  // ---- the pass ----

  class AsmJumpOptimizer {
    var optimizations: nat

    constructor ()
      ensures optimizations == 0
    {
      optimizations := 0;
    }

    method OptimizePair(bb: BasicBlock, next: string)
      modifies this, bb`jumpInstrs
      ensures bb.jumpInstrs == Elide(old(bb.jumpInstrs), next)
    {
      var n := |bb.jumpInstrs|;
      if n > 0 {
        if Name(bb.jumpInstrs[n-1].op0) == next {
          bb.jumpInstrs := bb.jumpInstrs[..n-1];
          optimizations := optimizations + 1;
        } else if n >= 2 {
          var secondToLastJmp := bb.jumpInstrs[n-2];
          if IsJmp(secondToLastJmp.mnemonic) && Name(secondToLastJmp.op0) == next {
            bb.jumpInstrs := bb.jumpInstrs[..n-2] + [bb.jumpInstrs[n-1]];
            optimizations := optimizations + 1;
          }
        }
      }
    }

    method OptimizeFunction(blocks: seq<BasicBlock>)
      requires |blocks| > 0
      requires forall i, j :: 0 <= i < j < |blocks| ==> blocks[i] != blocks[j]
      modifies this, blocks`jumpInstrs
      ensures forall i :: 0 <= i < |blocks| - 1 ==> blocks[i].jumpInstrs == Elide(old(blocks[i].jumpInstrs), blocks[i+1].name)
      ensures blocks[|blocks|-1].jumpInstrs == old(blocks[|blocks|-1].jumpInstrs)
    {
      var i := 0;
      while i < |blocks| - 1
        invariant 0 <= i <= |blocks| - 1
        invariant forall j :: 0 <= j < i ==> blocks[j].jumpInstrs == Elide(old(blocks[j].jumpInstrs), blocks[j+1].name)
        invariant forall j :: i <= j < |blocks| ==> blocks[j].jumpInstrs == old(blocks[j].jumpInstrs)
      {
        OptimizePair(blocks[i], blocks[i+1].name);
        i := i + 1;
      }
    }
  }
}

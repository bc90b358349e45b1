/** The sound peephole passes (AsmSimpleOptimizer, AsmArithOptimizer and the first two loops of AsmMovOptimizer in
    asm_optimizer.cpp). They change the flags, so they rely on every conditional jump having its own comparison. */
module AsmPeephole {
  import opened Asm

  // ---- flags ----

  predicate WritesFlags(m: Mnemonic) { var k := ClassOf(m); k == Unary || k == Binary || k == Compares || k == External }

  /** The flags the code starts with can decide a jump. */
  predicate FlagsLive(c: seq<Instr>) {
    c != [] &&
    var m := c[0].mnemonic;
    IsCondJmp(m) || (m != Jmp && !WritesFlags(m) && FlagsLive(c[1..]))
  }

  /** No jump is decided by an addition or a subtraction. */
  predicate Calm(c: seq<Instr>) {
    forall k :: 0 <= k < |c| && (c[k].mnemonic == Add || c[k].mnemonic == Sub) ==> !FlagsLive(c[k+1..])
  }

  predicate NoJumps(c: seq<Instr>) { forall k :: 0 <= k < |c| ==> !IsJmp(c[k].mnemonic) }

  /** Arithmetic is done in registers. */
  predicate RegisterArith(c: seq<Instr>) {
    forall k :: 0 <= k < |c| && ClassOf(c[k].mnemonic) == Binary ==> c[k].op1.RegOp?
  }

  predicate SameButFlags(s: State, t: State) { s.regs == t.regs && s.frame == t.frame && s.heap == t.heap }

  /** Equal, or equal but for flags nobody will look at. */
  predicate SameFor(c: seq<Instr>, s: State, t: State) { SameButFlags(s, t) && (FlagsLive(c) ==> s.flags == t.flags) }

  predicate SameResult(a: (State, Exit), b: (State, Exit)) { a.1 == b.1 && SameButFlags(a.0, b.0) }

  lemma LoadBlind(s: State, t: State, op: Op)
    requires SameButFlags(s, t)
    ensures Load(s, op) == Load(t, op)
  {
  }

  lemma StoreBlind(s: State, t: State, op: Op, v: Word)
    requires SameButFlags(s, t)
    ensures SameButFlags(Store(s, op, v), Store(t, op, v)) && Store(s, op, v).flags == s.flags && Store(t, op, v).flags == t.flags
  {
  }

  /** One instruction that both sides have in common. */
  lemma HeadAgrees(p: Cpu, i: Instr, s: State, t: State)
    requires SameButFlags(s, t) && !IsJmp(i.mnemonic)
    ensures SameButFlags(ExecInstr(p, i, s), ExecInstr(p, i, t))
    ensures WritesFlags(i.mnemonic) || s.flags == t.flags ==> ExecInstr(p, i, s).flags == ExecInstr(p, i, t).flags
  {
    LoadBlind(s, t, i.op0);
    LoadBlind(s, t, i.op1);
    var k := ClassOf(i.mnemonic);
    if k == Moves {
      StoreBlind(s, t, i.op1, Load(s, i.op0));
    } else if k == Unary {
      StoreBlind(s, t, i.op0, p.alu(i.mnemonic, Load(s, i.op0), 0).0);
    } else if k == Binary {
      StoreBlind(s, t, i.op1, p.alu(i.mnemonic, Load(s, i.op1), Load(s, i.op0)).0);
    }
  }

  /** Code that does not look at the flags it starts with. */
  lemma {:induction false} SameCodeAgrees(p: Cpu, c: seq<Instr>, s: State, t: State)
    requires SameFor(c, s, t)
    ensures SameResult(ExecBlock(p, c, s), ExecBlock(p, c, t))
    decreases |c|
  {
    if c != [] {
      if IsJmp(c[0].mnemonic) {
        if !Taken(c[0].mnemonic, s.flags) { SameCodeAgrees(p, c[1..], s, t); }
      } else {
        HeadAgrees(p, c[0], s, t);
        SameCodeAgrees(p, c[1..], ExecInstr(p, c[0], s), ExecInstr(p, c[0], t));
      }
    }
  }

  // ---- add 0, add 1, sub 1, mov 0 ----

  predicate IsImm(op: Op, v: int) { op.Imm? && op.value == v }

  predicate AddsZero(i: Instr) { i.mnemonic == Add && IsImm(i.op0, 0) }

  /** The cheaper form of an instruction that is not removed. */
  function Cheaper(i: Instr): Instr {
    if i.mnemonic == Add && IsImm(i.op0, 1) then Instr(Inc, i.op1, NoOp)
    else if i.mnemonic == Sub && IsImm(i.op0, 1) then Instr(Dec, i.op1, NoOp)
    else if IsMov(i.mnemonic) && IsImm(i.op0, 0) && !i.op1.Ind? then Instr(Xor, i.op1, i.op1)
    else i
  }

  /** AsmSimpleOptimizer; the instruction after a removed one is not looked at. */
  function Simple(c: seq<Instr>): seq<Instr>
    decreases |c|
  {
    if c == [] then []
    else if AddsZero(c[0]) then if |c| == 1 then [] else [c[1]] + Simple(c[2..])
    else [Cheaper(c[0])] + Simple(c[1..])
  }

  lemma WrapWord(n: Word)
    ensures Wrap(n) == n
  {
  }

  lemma AluAddZero(p: Cpu, a: Word)
    requires IsX86(p)
    ensures p.alu(Add, a, 0).0 == a
  {
    assert p.alu(Add, a, 0) == (var r := Raw(Add, a, 0); (Wrap(r), Flags(Wrap(r) == 0, r < 0)));
    WrapWord(a);
  }

  lemma AluCheaper(p: Cpu, a: Word)
    requires IsX86(p)
    ensures p.alu(Inc, a, 0) == p.alu(Add, a, 1) && p.alu(Dec, a, 0) == p.alu(Sub, a, 1) && p.alu(Xor, a, a).0 == 0
  {
    assert p.alu(Inc, a, 0) == (var r := Raw(Inc, a, 0); (Wrap(r), Flags(Wrap(r) == 0, r < 0)));
    assert p.alu(Add, a, 1) == (var r := Raw(Add, a, 1); (Wrap(r), Flags(Wrap(r) == 0, r < 0)));
    assert p.alu(Dec, a, 0) == (var r := Raw(Dec, a, 0); (Wrap(r), Flags(Wrap(r) == 0, r < 0)));
    assert p.alu(Sub, a, 1) == (var r := Raw(Sub, a, 1); (Wrap(r), Flags(Wrap(r) == 0, r < 0)));
    assert p.alu(Xor, a, a) == (var r := Raw(Xor, a, a); (Wrap(r), Flags(Wrap(r) == 0, r < 0)));
  }

  lemma ExecTwo(p: Cpu, i: Instr, s: State)
    requires ClassOf(i.mnemonic) == Binary
    ensures ExecInstr(p, i, s) == (var r := p.alu(i.mnemonic, Load(s, i.op1), Load(s, i.op0)); Store(s, i.op1, r.0).(flags := r.1))
  {
  }

  lemma ExecOne(p: Cpu, i: Instr, s: State)
    requires ClassOf(i.mnemonic) == Unary
    ensures ExecInstr(p, i, s) == (var r := p.alu(i.mnemonic, Load(s, i.op0), 0); Store(s, i.op0, r.0).(flags := r.1))
  {
  }

  lemma StoreOwn(s: State, op: Op)
    requires op.RegOp?
    ensures Store(s, op, Load(s, op)) == s
  {
    assert s.regs[op.reg := s.regs[op.reg]] == s.regs;
  }

  lemma AddZeroIdle(p: Cpu, i: Instr, s: State)
    requires IsX86(p) && AddsZero(i) && i.op1.RegOp?
    ensures SameButFlags(ExecInstr(p, i, s), s)
  {
    ExecTwo(p, i, s);
    AluAddZero(p, Load(s, i.op1));
    StoreOwn(s, i.op1);
  }

  lemma IncAgrees(p: Cpu, i: Instr, s: State)
    requires IsX86(p) && i.mnemonic == Add && IsImm(i.op0, 1)
    ensures SameButFlags(ExecInstr(p, i, s), ExecInstr(p, Instr(Inc, i.op1, NoOp), s))
  {
    AluCheaper(p, Load(s, i.op1));
    ExecTwo(p, i, s);
    ExecOne(p, Instr(Inc, i.op1, NoOp), s);
  }

  lemma DecAgrees(p: Cpu, i: Instr, s: State)
    requires IsX86(p) && i.mnemonic == Sub && IsImm(i.op0, 1)
    ensures SameButFlags(ExecInstr(p, i, s), ExecInstr(p, Instr(Dec, i.op1, NoOp), s))
  {
    AluCheaper(p, Load(s, i.op1));
    ExecTwo(p, i, s);
    ExecOne(p, Instr(Dec, i.op1, NoOp), s);
  }

  lemma XorAgrees(p: Cpu, i: Instr, s: State)
    requires IsX86(p) && IsMov(i.mnemonic) && IsImm(i.op0, 0)
    ensures SameButFlags(ExecInstr(p, i, s), ExecInstr(p, Instr(Xor, i.op1, i.op1), s))
  {
    AluCheaper(p, Load(s, i.op1));
    ExecTwo(p, Instr(Xor, i.op1, i.op1), s);
  }

  lemma CheaperAgrees(p: Cpu, i: Instr, s: State)
    requires IsX86(p) && !IsJmp(i.mnemonic)
    ensures SameButFlags(ExecInstr(p, i, s), ExecInstr(p, Cheaper(i), s)) && !IsJmp(Cheaper(i).mnemonic)
  {
    if i.mnemonic == Add && IsImm(i.op0, 1) {
      IncAgrees(p, i, s);
    } else if i.mnemonic == Sub && IsImm(i.op0, 1) {
      DecAgrees(p, i, s);
    } else if Cheaper(i) != i {
      XorAgrees(p, i, s);
    }
  }

  lemma BlindHead(p: Cpu, i: Instr, z: seq<Instr>, s: State)
    requires !IsJmp(i.mnemonic)
    ensures ExecBlock(p, [i] + z, s) == ExecBlock(p, z, ExecInstr(p, i, s))
  {
    assert ([i] + z)[1..] == z;
  }

  lemma StraightTail(c: seq<Instr>, n: nat)
    requires NoJumps(c) && RegisterArith(c) && n <= |c|
    ensures NoJumps(c[n..]) && RegisterArith(c[n..])
  {
    assert forall k :: 0 <= k < |c[n..]| ==> c[n..][k] == c[n+k];
  }

  lemma RemovedHere(p: Cpu, c: seq<Instr>, z: seq<Instr>, s: State, t: State)
    requires |c| >= 2 && AddsZero(c[0]) && !IsJmp(c[1].mnemonic)
    ensures ExecBlock(p, c + z, s) == ExecBlock(p, c[2..] + z, ExecInstr(p, c[1], ExecInstr(p, c[0], s)))
    ensures ExecBlock(p, Simple(c) + z, t) == ExecBlock(p, Simple(c[2..]) + z, ExecInstr(p, c[1], t))
  {
    assert c + z == [c[0]] + (c[1..] + z) && c[1..] + z == [c[1]] + (c[2..] + z);
    assert Simple(c) + z == [c[1]] + (Simple(c[2..]) + z);
    BlindHead(p, c[0], c[1..] + z, s);
    BlindHead(p, c[1], c[2..] + z, ExecInstr(p, c[0], s));
    BlindHead(p, c[1], Simple(c[2..]) + z, t);
  }

  lemma CheaperHere(p: Cpu, c: seq<Instr>, z: seq<Instr>, s: State, t: State)
    requires |c| >= 1 && !AddsZero(c[0]) && !IsJmp(c[0].mnemonic) && !IsJmp(Cheaper(c[0]).mnemonic)
    ensures ExecBlock(p, c + z, s) == ExecBlock(p, c[1..] + z, ExecInstr(p, c[0], s))
    ensures ExecBlock(p, Simple(c) + z, t) == ExecBlock(p, Simple(c[1..]) + z, ExecInstr(p, Cheaper(c[0]), t))
  {
    assert c + z == [c[0]] + (c[1..] + z) && Simple(c) + z == [Cheaper(c[0])] + (Simple(c[1..]) + z);
    BlindHead(p, c[0], c[1..] + z, s);
    BlindHead(p, Cheaper(c[0]), Simple(c[1..]) + z, t);
  }

  /** The straight part of a block, followed by code that does not need its flags. */
  lemma {:induction false} SimpleAgrees(p: Cpu, c: seq<Instr>, z: seq<Instr>, s: State, t: State)
    requires IsX86(p) && NoJumps(c) && RegisterArith(c) && !FlagsLive(z) && SameButFlags(s, t)
    ensures SameResult(ExecBlock(p, c + z, s), ExecBlock(p, Simple(c) + z, t))
    decreases |c|
  {
    if c == [] {
      assert c + z == z && Simple(c) + z == z;
      SameCodeAgrees(p, z, s, t);
    } else if AddsZero(c[0]) && |c| == 1 {
      assert c + z == [c[0]] + z && Simple(c) + z == z;
      BlindHead(p, c[0], z, s);
      AddZeroIdle(p, c[0], s);
      SameCodeAgrees(p, z, ExecInstr(p, c[0], s), t);
    } else if AddsZero(c[0]) {
      AddZeroIdle(p, c[0], s);
      HeadAgrees(p, c[1], ExecInstr(p, c[0], s), t);
      StraightTail(c, 2);
      RemovedHere(p, c, z, s, t);
      SimpleAgrees(p, c[2..], z, ExecInstr(p, c[1], ExecInstr(p, c[0], s)), ExecInstr(p, c[1], t));
    } else {
      CheaperAgrees(p, c[0], t);
      HeadAgrees(p, c[0], s, t);
      StraightTail(c, 1);
      CheaperHere(p, c, z, s, t);
      SimpleAgrees(p, c[1..], z, ExecInstr(p, c[0], s), ExecInstr(p, Cheaper(c[0]), t));
    }
  }

  // ---- add c1 then sub c2 ----

  predicate IsPair(a: Instr, b: Instr) {
    && a.mnemonic == Add && b.mnemonic == Sub && a.op0.Imm? && b.op0.Imm? && a.op1.RegOp? && b.op1.RegOp?
    && a.op1.reg == b.op1.reg
  }

  /** The difference of two such constants fits as well. */
  predicate Small(i: Instr) { i.op0.Imm? ==> -0x4000_0000_0000_0000 < i.op0.value < 0x4000_0000_0000_0000 }

  predicate SmallImms(c: seq<Instr>) { forall k :: 0 <= k < |c| ==> Small(c[k]) }

  function Merged(a: Instr, b: Instr): Instr
    requires IsPair(a, b) && Small(a) && Small(b)
  {
    var diff := a.op0.value - b.op0.value;
    if diff < 0 then Instr(Sub, Imm(-diff), a.op1) else Instr(Add, Imm(diff), a.op1)
  }

  /** AsmArithOptimizer; after a removed pair the next instruction is not looked at. */
  function Arith(c: seq<Instr>): seq<Instr>
    requires SmallImms(c)
    decreases |c|
  {
    assert forall n: nat :: n <= |c| ==> SmallImms(c[n..]);
    if |c| < 2 then c
    else if IsPair(c[0], c[1]) then
      if c[0].op0.value == c[1].op0.value then if |c| == 2 then [] else [c[2]] + Arith(c[3..])
      else [Merged(c[0], c[1])] + Arith(c[2..])
    else [c[0]] + Arith(c[1..])
  }

  lemma WrapTwice(r: int, a: int, b: int)
    ensures Wrap(Wrap(r + a) - b) == Wrap(r + (a - b)) && Wrap(Wrap(r + a) - b) == Wrap(r - (b - a))
  {
  }

  lemma AluPair(p: Cpu, r: Word, a: Word, b: Word)
    requires IsX86(p)
    ensures p.alu(Sub, p.alu(Add, r, a).0, b).0 == Wrap(r + (a - b))
  {
    var x := p.alu(Add, r, a);
    assert x == (var q := Raw(Add, r, a); (Wrap(q), Flags(Wrap(q) == 0, q < 0)));
    assert p.alu(Sub, x.0, b) == (var q := Raw(Sub, x.0, b); (Wrap(q), Flags(Wrap(q) == 0, q < 0)));
    WrapTwice(r, a, b);
  }

  lemma AluOne(p: Cpu, r: Word, a: Word)
    requires IsX86(p)
    ensures p.alu(Add, r, a).0 == Wrap(r + a) && p.alu(Sub, r, a).0 == Wrap(r - a)
  {
    assert p.alu(Add, r, a) == (var q := Raw(Add, r, a); (Wrap(q), Flags(Wrap(q) == 0, q < 0)));
    assert p.alu(Sub, r, a) == (var q := Raw(Sub, r, a); (Wrap(q), Flags(Wrap(q) == 0, q < 0)));
  }

  lemma RegisterStep(p: Cpu, i: Instr, s: State)
    requires ClassOf(i.mnemonic) == Binary && i.op0.Imm? && i.op1.RegOp?
    ensures var r := p.alu(i.mnemonic, RegOf(s, i.op1.reg), i.op0.value);
      ExecInstr(p, i, s) == s.(regs := s.regs[i.op1.reg := r.0], flags := r.1)
  {
    ExecTwo(p, i, s);
  }

  lemma PairEffect(p: Cpu, a: Instr, b: Instr, s: State)
    requires IsX86(p) && IsPair(a, b)
    ensures SameButFlags(ExecInstr(p, b, ExecInstr(p, a, s)), Store(s, a.op1, Wrap(RegOf(s, a.op1.reg) + (a.op0.value - b.op0.value))))
  {
    var r := a.op1.reg;
    var t := ExecInstr(p, a, s);
    RegisterStep(p, a, s);
    RegisterStep(p, b, t);
    AluPair(p, RegOf(s, r), a.op0.value, b.op0.value);
    assert RegOf(t, r) == p.alu(Add, RegOf(s, r), a.op0.value).0;
    var x, y := RegOf(t, r), p.alu(Sub, RegOf(t, r), b.op0.value).0;
    assert s.regs[r := x][r := y] == s.regs[r := y];
  }

  lemma EqualPairIdle(p: Cpu, a: Instr, b: Instr, s: State)
    requires IsX86(p) && IsPair(a, b) && a.op0.value == b.op0.value
    ensures SameButFlags(ExecInstr(p, b, ExecInstr(p, a, s)), s)
  {
    PairEffect(p, a, b, s);
    WrapWord(RegOf(s, a.op1.reg));
    StoreOwn(s, a.op1);
  }

  lemma MergedEffect(p: Cpu, a: Instr, b: Instr, s: State)
    requires IsX86(p) && IsPair(a, b) && Small(a) && Small(b)
    ensures SameButFlags(ExecInstr(p, b, ExecInstr(p, a, s)), ExecInstr(p, Merged(a, b), s))
  {
    var r, diff := RegOf(s, a.op1.reg), a.op0.value - b.op0.value;
    PairEffect(p, a, b, s);
    ExecTwo(p, Merged(a, b), s);
    AluOne(p, r, if diff < 0 then -diff else diff);
  }

  lemma CalmTail(c: seq<Instr>, n: nat)
    requires n <= |c|
    ensures Calm(c) ==> Calm(c[n..])
    ensures SmallImms(c) ==> SmallImms(c[n..])
  {
    forall k | 0 <= k < |c[n..]| ensures c[n..][k] == c[n+k] && c[n..][k+1..] == c[n+k+1..] {}
  }

  lemma ArithHere(p: Cpu, c: seq<Instr>, s: State)
    requires |c| >= 2 && IsPair(c[0], c[1])
    ensures ExecBlock(p, c, s) == ExecBlock(p, c[2..], ExecInstr(p, c[1], ExecInstr(p, c[0], s)))
  {
    assert c == [c[0]] + c[1..] && c[1..] == [c[1]] + c[2..];
    BlindHead(p, c[0], c[1..], s);
    BlindHead(p, c[1], c[2..], ExecInstr(p, c[0], s));
  }

  lemma {:induction false} ArithAgrees(p: Cpu, c: seq<Instr>, s: State, t: State)
    requires IsX86(p) && Calm(c) && SmallImms(c) && SameFor(c, s, t)
    ensures SameResult(ExecBlock(p, c, s), ExecBlock(p, Arith(c), t))
    decreases |c|, 0
  {
    if |c| < 2 {
      SameCodeAgrees(p, c, s, t);
    } else if IsPair(c[0], c[1]) {
      ArithHere(p, c, s);
      CalmTail(c, 2);
      assert !FlagsLive(c[2..]) by { assert c[1].mnemonic == Sub && c[1+1..] == c[2..]; }
      HeadAgrees(p, c[0], s, t);
      HeadAgrees(p, c[1], ExecInstr(p, c[0], s), ExecInstr(p, c[0], t));
      var s2 := ExecInstr(p, c[1], ExecInstr(p, c[0], s));
      if c[0].op0.value == c[1].op0.value {
        EqualPairIdle(p, c[0], c[1], t);
        if |c| > 2 {
          ArithRest(p, c[2], c[3..], c[2..], s2, t);
        } else {
          assert c[2..] == [];
        }
      } else {
        MergedEffect(p, c[0], c[1], t);
        var m := Merged(c[0], c[1]);
        BlindHead(p, m, Arith(c[2..]), t);
        ArithAgrees(p, c[2..], s2, ExecInstr(p, m, t));
      }
    } else {
      CalmTail(c, 1);
      ArithRest(p, c[0], c[1..], c, s, t);
    }
  }

  /** An instruction that stays, then the rest. */
  lemma {:induction false} ArithRest(p: Cpu, i: Instr, rest: seq<Instr>, c: seq<Instr>, s: State, t: State)
    requires c == [i] + rest
    requires IsX86(p) && Calm(c) && SmallImms(c) && SmallImms(rest) && SameFor(c, s, t)
    ensures SameResult(ExecBlock(p, c, s), ExecBlock(p, [i] + Arith(rest), t))
    decreases |rest|, 1
  {
    CalmTail(c, 1);
    assert c[1..] == rest && ([i] + Arith(rest))[1..] == Arith(rest);
    if IsJmp(i.mnemonic) {
      if !Taken(i.mnemonic, s.flags) { ArithAgrees(p, rest, s, t); }
    } else {
      HeadAgrees(p, i, s, t);
      ArithAgrees(p, rest, ExecInstr(p, i, s), ExecInstr(p, i, t));
    }
  }

  // ---- mov reg, slot then mov slot, reg ----

  /** A store followed by a load of the same place. */
  predicate StoreThenLoad(a: Instr, b: Instr) {
    && IsMov(a.mnemonic) && IsMov(b.mnemonic) && a.op0.RegOp? && a.op1.Ind? && b.op0.Ind? && b.op1.RegOp?
    && a.op1.base == b.op0.base && a.op1.offset == b.op0.offset
  }

  /** First loop of AsmMovOptimizer: the load is removed if it yields the register just stored. */
  function MovPairs(c: seq<Instr>): seq<Instr>
    decreases |c|
  {
    if |c| < 2 then c
    else if StoreThenLoad(c[0], c[1]) && c[0].op0.reg == c[1].op1.reg then [c[0]] + MovPairs(c[2..])
    else [c[0]] + MovPairs(c[1..])
  }

  function Direct(a: Instr, b: Instr): Instr { Instr(Movq, a.op0, b.op1) }

  /** Second loop: otherwise it is replaced by a move between the registers. */
  function MovForwards(c: seq<Instr>): seq<Instr>
    decreases |c|
  {
    if |c| < 2 then c
    else if StoreThenLoad(c[0], c[1]) && c[0].op0.reg != c[1].op1.reg then [c[0]] + MovForwards([Direct(c[0], c[1])] + c[2..])
    else [c[0]] + MovForwards(c[1..])
  }

  lemma ExecMove(p: Cpu, i: Instr, s: State)
    requires IsMov(i.mnemonic)
    ensures ExecInstr(p, i, s) == Store(s, i.op1, Load(s, i.op0)) && !IsJmp(i.mnemonic)
  {
  }

  lemma StoredThere(s: State, op: Op, v: Word, r: Reg)
    requires op.Ind?
    ensures Load(Store(s, op, v), op) == v && RegOf(Store(s, op, v), r) == RegOf(s, r)
  {
  }

  /** A load after a store of the same place is a move between registers. */
  lemma LoadForwards(p: Cpu, a: Instr, b: Instr, s: State)
    requires StoreThenLoad(a, b)
    ensures var t := ExecInstr(p, a, s);
      && ExecInstr(p, b, t) == ExecInstr(p, Direct(a, b), t)
      && (a.op0.reg == b.op1.reg ==> ExecInstr(p, b, t) == t)
  {
    var t := ExecInstr(p, a, s);
    ExecMove(p, a, s);
    ExecMove(p, b, t);
    ExecMove(p, Direct(a, b), t);
    assert a.op1 == b.op0;
    StoredThere(s, a.op1, Load(s, a.op0), a.op0.reg);
    if a.op0.reg == b.op1.reg { StoreOwn(t, b.op1); }
  }

  lemma PairRuns(p: Cpu, a: Instr, b: Instr, rest: seq<Instr>, s: State)
    requires !IsJmp(a.mnemonic) && !IsJmp(b.mnemonic)
    ensures ExecBlock(p, [a] + ([b] + rest), s) == ExecBlock(p, rest, ExecInstr(p, b, ExecInstr(p, a, s)))
  {
    BlindHead(p, a, [b] + rest, s);
    BlindHead(p, b, rest, ExecInstr(p, a, s));
  }

  lemma {:induction false} MovPairsSame(p: Cpu, c: seq<Instr>, s: State)
    ensures ExecBlock(p, MovPairs(c), s) == ExecBlock(p, c, s)
    decreases |c|
  {
    if |c| >= 2 {
      if StoreThenLoad(c[0], c[1]) && c[0].op0.reg == c[1].op1.reg {
        assert c == [c[0]] + ([c[1]] + c[2..]);
        PairRuns(p, c[0], c[1], c[2..], s);
        BlindHead(p, c[0], MovPairs(c[2..]), s);
        LoadForwards(p, c[0], c[1], s);
        MovPairsSame(p, c[2..], ExecInstr(p, c[0], s));
      } else {
        assert ([c[0]] + MovPairs(c[1..]))[1..] == MovPairs(c[1..]);
        MovPairsSame(p, c[1..], if IsJmp(c[0].mnemonic) then s else ExecInstr(p, c[0], s));
      }
    }
  }

  lemma {:induction false} MovForwardsSame(p: Cpu, c: seq<Instr>, s: State)
    ensures ExecBlock(p, MovForwards(c), s) == ExecBlock(p, c, s)
    decreases |c|
  {
    if |c| >= 2 {
      if StoreThenLoad(c[0], c[1]) && c[0].op0.reg != c[1].op1.reg {
        var d := [Direct(c[0], c[1])] + c[2..];
        assert c == [c[0]] + ([c[1]] + c[2..]);
        PairRuns(p, c[0], c[1], c[2..], s);
        LoadForwards(p, c[0], c[1], s);
        BlindHead(p, c[0], MovForwards(d), s);
        MovForwardsSame(p, d, ExecInstr(p, c[0], s));
        BlindHead(p, Direct(c[0], c[1]), c[2..], ExecInstr(p, c[0], s));
      } else {
        assert ([c[0]] + MovForwards(c[1..]))[1..] == MovForwards(c[1..]);
        MovForwardsSame(p, c[1..], if IsJmp(c[0].mnemonic) then s else ExecInstr(p, c[0], s));
      }
    }
  }
}

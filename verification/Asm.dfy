/** Instructions and basic blocks (asm.hpp), and a machine that runs them. All operands are 64 bits wide; the slots
    below the frame pointer form a frame of their own, apart from all other memory. */
module Asm {
  datatype Reg = AX | BX | CX | DX | BP | SP | SI | DI | R8 | R9 | R10 | R11 | R12 | R13 | R14 | R15

  datatype Mnemonic =
    | Add | Sub | IMul | Div | Call | Cmp | Neg | Je | Jne | Jmp | Jg | Jge | Jl | Jle
    | Inc | Dec | Xor | Mov | Movq | Movl | Movb | Movslq | Cqto | Label

  /** 64-bit two's complement. */
  type Word = n: int | -0x8000_0000_0000_0000 <= n < 0x8000_0000_0000_0000

  datatype Op = Imm(value: Word) | RegOp(reg: Reg) | Ind(base: Reg, offset: int) | Str(name: string) | NoOp

  /** op0 and op1 are NoOp beyond the operands an instruction has. */
  datatype Instr = Instr(mnemonic: Mnemonic, op0: Op, op1: Op)

  predicate IsJmp(m: Mnemonic) { ClassOf(m) == Jumping }

  predicate IsMov(m: Mnemonic) { m == Mov || m == Movq || m == Movl || m == Movb }

  predicate IsCondJmp(m: Mnemonic) { IsJmp(m) && m != Jmp }

  // ---- the machine ----

  /** The outcome of the last comparison or arithmetic instruction: was it zero, was it negative. */
  datatype Flags = Flags(zero: bool, less: bool)

  type Regs = m: map<Reg, Word> | forall r: Reg :: r in m witness map r: Reg | true :: 0

  datatype State = State(regs: Regs, frame: map<int, Word>, heap: map<int, Word>, flags: Flags)

  /** What calls, divisions and sign extension do to registers, memory outside the frame and flags. */
  type Oracle = (Mnemonic, string, Word, Regs, map<int, Word>) -> (Regs, map<int, Word>, Flags)

  /** Arithmetic on destination and source, and everything else. */
  datatype Cpu = Cpu(alu: (Mnemonic, Word, Word) -> (Word, Flags), other: Oracle)

  function Wrap(n: int): Word { (n + 0x8000_0000_0000_0000) % 0x1_0000_0000_0000_0000 - 0x8000_0000_0000_0000 }

  /** A slot of the frame: below the frame pointer. Arguments lie above it. */
  predicate IsSlot(op: Op) { op.Ind? && op.base == BP && op.offset < 0 }

  function RegOf(s: State, r: Reg): Word { s.regs[r] }

  function Load(s: State, op: Op): Word {
    match op
    case Imm(v) => v
    case RegOp(r) => RegOf(s, r)
    case Ind(b, off) =>
      if IsSlot(op) then if off in s.frame then s.frame[off] else 0
      else var a := RegOf(s, b) + off; if a in s.heap then s.heap[a] else 0
    case _ => 0
  }

  function Store(s: State, op: Op, v: Word): State {
    match op
    case RegOp(r) => s.(regs := s.regs[r := v])
    case Ind(b, off) =>
      if IsSlot(op) then s.(frame := s.frame[off := v]) else s.(heap := s.heap[RegOf(s, b) + off := v])
    case _ => s
  }

  /** An arithmetic result before it is cut to 64 bits; `xor` is only ever applied to a register and itself. */
  function Raw(m: Mnemonic, dst: Word, src: Word): int {
    match m
    case Add => dst + src
    case Sub => dst - src
    case Cmp => dst - src
    case IMul => dst * src
    case Inc => dst + 1
    case Dec => dst - 1
    case Neg => 0 - dst
    case _ => 0
  }

  /** The processor the generated code is for; flags are those of the result before it is cut. */
  ghost predicate IsX86(p: Cpu) {
    forall m, a: Word, b: Word :: p.alu(m, a, b) == (var r := Raw(m, a, b); (Wrap(r), Flags(Wrap(r) == 0, r < 0)))
  }

  /** How an instruction works. */
  datatype Class = Moves | Unary | Binary | Compares | Nothing | External | Jumping

  function ClassOf(m: Mnemonic): Class {
    match m
    case Mov => Moves
    case Movq => Moves
    case Movl => Moves
    case Movb => Moves
    case Movslq => Moves
    case Inc => Unary
    case Dec => Unary
    case Neg => Unary
    case Add => Binary
    case Sub => Binary
    case IMul => Binary
    case Xor => Binary
    case Cmp => Compares
    case Label => Nothing
    case Div => External
    case Call => External
    case Cqto => External
    case _ => Jumping
  }

  function Name(op: Op): string { if op.Str? then op.name else "" }

  /** Any instruction but a jump. */
  function ExecInstr(p: Cpu, i: Instr, s: State): State {
    match ClassOf(i.mnemonic)
    case Moves => Store(s, i.op1, Load(s, i.op0))
    case Unary => var r := p.alu(i.mnemonic, Load(s, i.op0), 0); Store(s, i.op0, r.0).(flags := r.1)
    case Binary => var r := p.alu(i.mnemonic, Load(s, i.op1), Load(s, i.op0)); Store(s, i.op1, r.0).(flags := r.1)
    case Compares => s.(flags := p.alu(i.mnemonic, Load(s, i.op1), Load(s, i.op0)).1)
    case External =>
      var r := p.other(i.mnemonic, Name(i.op0), Load(s, i.op0), s.regs, s.heap);
      s.(regs := r.0, heap := r.1, flags := r.2)
    case Nothing => s
    case Jumping => s
  }

  predicate Taken(m: Mnemonic, f: Flags) {
    match m
    case Jmp => true
    case Je => f.zero
    case Jne => !f.zero
    case Jl => f.less
    case Jle => f.less || f.zero
    case Jg => !f.less && !f.zero
    case Jge => !f.less
    case _ => false
  }

  datatype Exit = Falls | Jumps(target: string)

  /** The instructions of a block, up to the first jump taken. */
  function ExecBlock(p: Cpu, instrs: seq<Instr>, s: State): (State, Exit)
    decreases |instrs|
  {
    if instrs == [] then (s, Falls)
    else if IsJmp(instrs[0].mnemonic) then
      if Taken(instrs[0].mnemonic, s.flags) then (s, Jumps(Name(instrs[0].op0))) else ExecBlock(p, instrs[1..], s)
    else ExecBlock(p, instrs[1..], ExecInstr(p, instrs[0], s))
  }

  /** The code of a function: labelled blocks in the order they are written. */
  datatype Code = Code(name: string, instrs: seq<Instr>)

  /** At the start of a block, or out of the function through a label that is not one of its blocks. */
  datatype Config = At(index: nat, state: State) | Out(target: string, state: State)

  function Find(f: seq<Code>, l: string): nat
    decreases |f|
  {
    if f == [] then 0 else if f[0].name == l then 0 else 1 + Find(f[1..], l)
  }

  /** What executing the instructions of a block does. */
  type Semantics = (seq<Instr>, State) -> (State, Exit)

  function Machine(p: Cpu): Semantics { (instrs, s) => ExecBlock(p, instrs, s) }

  function Step(x: Semantics, f: seq<Code>, c: Config): Config {
    if c.Out? then c
    else if c.index >= |f| then Out("", c.state)
    else
      var (s, e) := x(f[c.index].instrs, c.state);
      match e
      case Falls => At(c.index + 1, s)
      case Jumps(l) => var k := Find(f, l); if k < |f| then At(k, s) else Out(l, s)
  }

  function Iterate(step: Config -> Config, c: Config, n: nat): Config
    decreases n
  {
    if n == 0 then c else Iterate(step, step(c), n - 1)
  }

  /** The configuration after `n` blocks. */
  function Run(x: Semantics, f: seq<Code>, c: Config, n: nat): Config {
    Iterate(d => Step(x, f, d), c, n)
  }

  lemma {:induction false} IterationsAgree(s: Config -> Config, t: Config -> Config, r: (Config, Config) -> bool, c: Config, d: Config, n: nat)
    requires r(c, d) && forall a, b :: r(a, b) ==> r(s(a), t(b))
    ensures r(Iterate(s, c, n), Iterate(t, d, n))
    decreases n
  {
    if n > 0 { IterationsAgree(s, t, r, s(c), t(d), n - 1); }
  }

  // ---- blocks that correspond ----

  /** The same place, with related states. */
  predicate Alike(r: (State, State) -> bool, c: Config, d: Config) {
    r(c.state, d.state) && if c.At? then d.At? && c.index == d.index else d.Out? && c.target == d.target
  }

  /** From related states both blocks take the same exit, in related states. */
  ghost predicate BlocksAgree(x: Semantics, r: (State, State) -> bool, a: seq<Instr>, b: seq<Instr>) {
    forall s, t :: r(s, t) ==> x(a, s).1 == x(b, t).1 && r(x(a, s).0, x(b, t).0)
  }

  lemma {:induction false} FindSame(f: seq<Code>, g: seq<Code>, l: string)
    requires |f| == |g| && forall i :: 0 <= i < |f| ==> f[i].name == g[i].name
    ensures Find(f, l) == Find(g, l)
    decreases |f|
  {
    if f != [] { FindSame(f[1..], g[1..], l); }
  }

  ghost predicate CodeAgrees(x: Semantics, r: (State, State) -> bool, f: seq<Code>, g: seq<Code>) {
    |f| == |g| && forall i :: 0 <= i < |f| ==> f[i].name == g[i].name && BlocksAgree(x, r, f[i].instrs, g[i].instrs)
  }

  lemma StepAgrees(x: Semantics, r: (State, State) -> bool, f: seq<Code>, g: seq<Code>, c: Config, d: Config)
    requires CodeAgrees(x, r, f, g) && Alike(r, c, d)
    ensures Alike(r, Step(x, f, c), Step(x, g, d))
  {
    if c.At? && c.index < |f| {
      assert BlocksAgree(x, r, f[c.index].instrs, g[c.index].instrs);
      var e := x(f[c.index].instrs, c.state).1;
      if e.Jumps? { FindSame(f, g, e.target); }
    }
  }

  /** Two functions whose blocks agree visit the same blocks in every run. */
  lemma RunsAgree(x: Semantics, r: (State, State) -> bool, f: seq<Code>, g: seq<Code>, c: Config, d: Config, n: nat)
    requires CodeAgrees(x, r, f, g) && Alike(r, c, d)
    ensures Alike(r, Run(x, f, c, n), Run(x, g, d, n))
  {
    var q := (a, b) => Alike(r, a, b);
    forall a, b | q(a, b) ensures q(Step(x, f, a), Step(x, g, b)) {
      StepAgrees(x, r, f, g, a, b);
    }
    IterationsAgree(a => Step(x, f, a), a => Step(x, g, a), q, c, d, n);
  }

  /** Running the first part of a block. */
  lemma {:induction false} ExecAppend(p: Cpu, a: seq<Instr>, b: seq<Instr>, s: State)
    ensures var (t, e) := ExecBlock(p, a, s); ExecBlock(p, a + b, s) == if e.Falls? then ExecBlock(p, b, t) else (t, e)
    decreases |a|
  {
    if a == [] {
      assert a + b == b;
    } else {
      assert (a + b)[1..] == a[1..] + b && (a + b)[0] == a[0];
      if !IsJmp(a[0].mnemonic) {
        ExecAppend(p, a[1..], b, ExecInstr(p, a[0], s));
      } else if !Taken(a[0].mnemonic, s.flags) {
        ExecAppend(p, a[1..], b, s);
      }
    }
  }

  // ---- blocks as the passes see them ----

  /** The instruction lists are kept apart until they are flattened. */
  class BasicBlock {
    const name: string
    var startPhiInstrs: seq<Instr>
    var phiInstrs: seq<Instr>
    var instrs: seq<Instr>
    var jumpInstrs: seq<Instr>
    var flattenedInstrs: seq<Instr>

    constructor (name: string)
      ensures this.name == name
      ensures startPhiInstrs == phiInstrs == instrs == jumpInstrs == flattenedInstrs == []
    {
      this.name := name;
      startPhiInstrs, phiInstrs, instrs, jumpInstrs, flattenedInstrs := [], [], [], [], [];
    }

    /** What flattening yields. */
    function Listing(): seq<Instr>
      reads this
    {
      startPhiInstrs + instrs + phiInstrs + jumpInstrs
    }

    method Append(list: seq<Instr>)
      modifies this`flattenedInstrs
      ensures flattenedInstrs == old(flattenedInstrs) + list
    {
      var i := 0;
      while i < |list|
        invariant i <= |list| && flattenedInstrs == old(flattenedInstrs) + list[..i]
      {
        flattenedInstrs := flattenedInstrs + [list[i]];
        i := i + 1;
      }
    }

    method FlattenInstrs()
      requires flattenedInstrs == []
      modifies this`flattenedInstrs
      ensures flattenedInstrs == Listing()
    {
      Append(startPhiInstrs);
      assert flattenedInstrs == startPhiInstrs;
      Append(instrs);
      Append(phiInstrs);
      Append(jumpInstrs);
    }
  }
}

/** The peephole passes on whole functions, and the loops that perform them. */
module AsmPeepholePasses {
  import opened Wrappers
  import opened Asm
  import opened AsmPeephole
  import AsmStack

  // ---- AsmSimpleOptimizer ----

  /** A block before flattening: phi copies, body, and the copies and jumps at its end. */
  datatype Listed = Listed(name: string, start: seq<Instr>, body: seq<Instr>, rest: seq<Instr>)

  function Flat(b: Listed): Code { Code(b.name, b.start + (b.body + b.rest)) }

  function FlatAll(f: seq<Listed>): seq<Code> { seq(|f|, i requires 0 <= i < |f| => Flat(f[i])) }

  function SimpleAll(f: seq<Listed>): seq<Listed> { seq(|f|, i requires 0 <= i < |f| => f[i].(body := Simple(f[i].body))) }

  /** What the generator emits: jumps only at the end, after a comparison of their own. */
  predicate Generated(b: Listed) {
    NoJumps(b.start) && NoJumps(b.body) && RegisterArith(b.body) && !FlagsLive(b.rest)
  }

  lemma {:induction false} StraightAgrees(p: Cpu, c: seq<Instr>, s: State, t: State)
    requires NoJumps(c) && SameButFlags(s, t)
    ensures SameResult(ExecBlock(p, c, s), ExecBlock(p, c, t)) && ExecBlock(p, c, s).1 == Falls
    decreases |c|
  {
    if c != [] {
      assert forall k :: 0 <= k < |c[1..]| ==> c[1..][k] == c[1+k];
      HeadAgrees(p, c[0], s, t);
      StraightAgrees(p, c[1..], ExecInstr(p, c[0], s), ExecInstr(p, c[0], t));
    }
  }

  lemma SimpleBlockAgrees(p: Cpu, b: Listed, s: State, t: State)
    requires IsX86(p) && Generated(b) && SameButFlags(s, t)
    ensures SameResult(ExecBlock(p, Flat(b).instrs, s), ExecBlock(p, Flat(b.(body := Simple(b.body))).instrs, t))
  {
    StraightAgrees(p, b.start, s, t);
    ExecAppend(p, b.start, b.body + b.rest, s);
    ExecAppend(p, b.start, Simple(b.body) + b.rest, t);
    SimpleAgrees(p, b.body, b.rest, ExecBlock(p, b.start, s).0, ExecBlock(p, b.start, t).0);
  }

  /** Cheaper instructions: every run visits the same blocks and agrees on everything but flags. */
  lemma SimpleKeepsRuns(p: Cpu, f: seq<Listed>, start: nat, s: State, n: nat)
    requires IsX86(p) && forall k :: 0 <= k < |f| ==> Generated(f[k])
    ensures Alike((a, b) => SameButFlags(a, b), Run(Machine(p), FlatAll(f), At(start, s), n), Run(Machine(p), FlatAll(SimpleAll(f)), At(start, s), n))
  {
    var x, g, h := Machine(p), FlatAll(f), FlatAll(SimpleAll(f));
    var r := (a, b) => SameButFlags(a, b);
    forall k | 0 <= k < |f| ensures g[k].name == h[k].name && BlocksAgree(x, r, g[k].instrs, h[k].instrs) {
      forall a, b | r(a, b) ensures x(g[k].instrs, a).1 == x(h[k].instrs, b).1 && r(x(g[k].instrs, a).0, x(h[k].instrs, b).0) {
        SimpleBlockAgrees(p, f[k], a, b);
      }
    }
    RunsAgree(x, r, g, h, At(start, s), At(start, s), n);
  }

  class AsmSimpleOptimizer {
    var optimizations: nat

    constructor ()
      ensures optimizations == 0
    {
      optimizations := 0;
    }

    /** One instruction: removed, replaced or kept. */
    method OptimizeAt(b: BasicBlock, i: nat)
      requires i < |b.instrs|
      modifies this, b`instrs
      ensures b.instrs == SimpleNext(old(b.instrs), i)
    {
      var c := b.instrs;
      var instr := c[i];
      if instr.mnemonic == Add && IsImm(instr.op0, 0) {
        b.instrs := c[..i] + c[i+1..];
      } else if instr.mnemonic == Add && IsImm(instr.op0, 1) {
        b.instrs := c[i := Instr(Inc, instr.op1, NoOp)];
      } else if instr.mnemonic == Sub && IsImm(instr.op0, 1) {
        b.instrs := c[i := Instr(Dec, instr.op1, NoOp)];
      } else if IsMov(instr.mnemonic) && IsImm(instr.op0, 0) && !instr.op1.Ind? {
        b.instrs := c[i := Instr(Xor, instr.op1, instr.op1)];
      } else {
        assert c[i := c[i]] == c;
      }
      if b.instrs != c { optimizations := optimizations + 1; }
    }

    method OptimizeBlock(b: BasicBlock)
      requires b.flattenedInstrs == []
      modifies this, b`instrs
      ensures b.instrs == Simple(old(b.instrs))
    {
      var i := 0;
      ghost var leads := SimpleLeads(b.instrs);
      while i < |b.instrs|
        invariant leads(b.instrs, i)
        decreases |b.instrs| + 1 - i
      {
        SimpleShorter(b.instrs, i);
        OptimizeAt(b, i);
        i := i + 1;
      }
    }
  }

  /** One round of the loop at position `i`. */
  function SimpleNext(c: seq<Instr>, i: nat): seq<Instr>
    requires i < |c|
  {
    if AddsZero(c[i]) then c[..i] + c[i+1..] else c[i := Cheaper(c[i])]
  }

  lemma SimpleShorter(c: seq<Instr>, i: nat)
    requires i < |c|
    ensures |SimpleNext(c, i)| <= |c|
  {
  }

  /** Lists and positions from which the loop leads to the specified list; a position behind the end is reached when the
      last instruction was removed. */
  lemma SimpleLeads(start: seq<Instr>) returns (leads: (seq<Instr>, nat) -> bool)
    ensures leads(start, 0)
    ensures forall c, i: nat :: i < |c| && leads(c, i) ==> leads(SimpleNext(c, i), i + 1)
    ensures forall c, i: nat :: i >= |c| && leads(c, i) ==> c == Simple(start)
  {
    leads := (c: seq<Instr>, i: nat) => if i > |c| then c == Simple(start) else c[..i] + Simple(c[i..]) == Simple(start);
    assert start[0..] == start;
    forall c, i: nat | i < |c| && leads(c, i) ensures leads(SimpleNext(c, i), i + 1) {
      if AddsZero(c[i]) { SkipNext(c, i); } else { ReplaceHere(c, i); }
    }
    forall c, i: nat | i >= |c| && leads(c, i) ensures c == Simple(start) {
      if i == |c| { assert c[..i] == c && c[i..] == []; }
    }
  }

  lemma SkipNext(c: seq<Instr>, i: nat)
    requires i < |c| && AddsZero(c[i])
    ensures var d := c[..i] + c[i+1..];
      if i == |d| then d == c[..i] + Simple(c[i..])
      else i + 1 <= |d| && d[..i+1] + Simple(d[i+1..]) == c[..i] + Simple(c[i..])
  {
    var d, rest := c[..i] + c[i+1..], c[i..];
    assert rest[0] == c[i] && |rest| == |c| - i;
    if i < |d| {
      assert rest[1] == c[i+1] && rest[2..] == c[i+2..] && d[i] == c[i+1] && d[i+1..] == c[i+2..];
      assert d[..i+1] == c[..i] + [c[i+1]];
    }
  }

  lemma ReplaceHere(c: seq<Instr>, i: nat)
    requires i < |c| && !AddsZero(c[i])
    ensures var d := c[i := Cheaper(c[i])]; d[..i+1] + Simple(d[i+1..]) == c[..i] + Simple(c[i..])
  {
    var d, rest := c[i := Cheaper(c[i])], c[i..];
    assert rest[0] == c[i] && rest[1..] == c[i+1..] && d[i+1..] == c[i+1..];
    assert d[..i+1] == c[..i] + [Cheaper(c[i])];
  }

  // ---- AsmArithOptimizer ----

  predicate ArithReady(c: seq<Instr>) { Calm(c) && SmallImms(c) && !FlagsLive(c) }

  /** The blocks that the pass reaches, those with instructions of their own, are rewritten. */
  function ArithAll(f: seq<Code>, reached: set<nat>): seq<Code>
    requires forall k :: 0 <= k < |f| ==> SmallImms(f[k].instrs)
  {
    seq(|f|, i requires 0 <= i < |f| => if i in reached then f[i].(instrs := Arith(f[i].instrs)) else f[i])
  }

  /** Merged additions and subtractions: every run visits the same blocks and agrees on everything but flags. */
  lemma ArithKeepsRuns(p: Cpu, f: seq<Code>, reached: set<nat>, start: nat, s: State, n: nat)
    requires forall k :: 0 <= k < |f| ==> SmallImms(f[k].instrs)
    requires IsX86(p) && forall k :: 0 <= k < |f| ==> ArithReady(f[k].instrs)
    ensures Alike((a, b) => SameButFlags(a, b), Run(Machine(p), f, At(start, s), n), Run(Machine(p), ArithAll(f, reached), At(start, s), n))
  {
    var x, g := Machine(p), ArithAll(f, reached);
    var r := (a, b) => SameButFlags(a, b);
    forall k | 0 <= k < |f| ensures f[k].name == g[k].name && BlocksAgree(x, r, f[k].instrs, g[k].instrs) {
      forall a, b | r(a, b) ensures x(f[k].instrs, a).1 == x(g[k].instrs, b).1 && r(x(f[k].instrs, a).0, x(g[k].instrs, b).0) {
        if k in reached { ArithAgrees(p, f[k].instrs, a, b); } else { SameCodeAgrees(p, f[k].instrs, a, b); }
      }
    }
    RunsAgree(x, r, f, g, At(start, s), At(start, s), n);
  }

  /** The only instructions of the block are an addition and a subtraction that cancel. */
  predicate OnlyCancels(c: seq<Instr>) {
    |c| == 2 && IsPair(c[0], c[1]) && c[0].op0.value == c[1].op0.value
  }

  /** The loop bound `size() - 1` is unsigned: a block whose flattened list is or becomes empty makes the pass read past
      the end, which vector::at answers with an exception. It becomes empty exactly if all it has are two instructions
      that cancel. */
  lemma EmptyExactly(c: seq<Instr>)
    requires SmallImms(c)
    ensures Arith(c) == [] <==> c == [] || OnlyCancels(c)
  {
  }

  /** What the loop fails on. */
  predicate ArithFails(c: seq<Instr>) { c == [] || OnlyCancels(c) }

  class AsmArithOptimizer {
    var optimizations: nat

    constructor ()
      ensures optimizations == 0
    {
      optimizations := 0;
    }

    method OptimizeAt(b: BasicBlock, i: nat)
      requires i + 1 < |b.flattenedInstrs| && SmallImms(b.flattenedInstrs[i..])
      modifies this, b`flattenedInstrs
      ensures b.flattenedInstrs == ArithNext(old(b.flattenedInstrs), i)
    {
      var c := b.flattenedInstrs;
      SmallHere(c, i);
      if IsPair(c[i], c[i+1]) {
        if c[i].op0.value == c[i+1].op0.value {
          b.flattenedInstrs := c[..i] + c[i+2..];
          optimizations := optimizations + 2;
        } else {
          b.flattenedInstrs := c[..i] + [Merged(c[i], c[i+1])] + c[i+2..];
          optimizations := optimizations + 1;
        }
      }
    }

    /** `ok` is false if the original throws. */
    method OptimizeBlock(b: BasicBlock) returns (ok: bool)
      requires SmallImms(b.flattenedInstrs)
      modifies this, b`flattenedInstrs
      ensures b.flattenedInstrs == Arith(old(b.flattenedInstrs))
      ensures ok <==> !ArithFails(old(b.flattenedInstrs))
    {
      var i := 0;
      ghost var want := Arith(b.flattenedInstrs);
      EmptyExactly(b.flattenedInstrs);
      ghost var done := InProgress(want);
      ArithBegins(b.flattenedInstrs);
      while b.flattenedInstrs == [] || i < |b.flattenedInstrs| - 1
        invariant done(b.flattenedInstrs, i) && i <= |b.flattenedInstrs| + 1
        decreases |b.flattenedInstrs| + 1 - i
      {
        if b.flattenedInstrs == [] {
          ArithEnds(b.flattenedInstrs, i, want);
          return false;
        }
        ArithContinues(b.flattenedInstrs, i, want);
        OptimizeAt(b, i);
        i := i + 1;
      }
      ArithEnds(b.flattenedInstrs, i, want);
      ok := true;
    }

    /** Blocks without instructions of their own are passed over. */
    method Run(blocks: seq<BasicBlock>) returns (ok: bool)
      requires forall i, j :: 0 <= i < j < |blocks| ==> blocks[i] != blocks[j]
      requires forall i :: 0 <= i < |blocks| ==> SmallImms(blocks[i].flattenedInstrs)
      modifies this, blocks`flattenedInstrs
      ensures ok <==> forall i :: 0 <= i < |blocks| && blocks[i].instrs != [] ==> !ArithFails(old(blocks[i].flattenedInstrs))
      ensures ok ==> forall i :: 0 <= i < |blocks| ==>
        blocks[i].flattenedInstrs == (var c := old(blocks[i].flattenedInstrs); if blocks[i].instrs == [] then c else Arith(c))
    {
      var i := 0;
      while i < |blocks|
        invariant i <= |blocks|
        invariant forall j :: 0 <= j < i && blocks[j].instrs != [] ==> !ArithFails(old(blocks[j].flattenedInstrs))
        invariant forall j :: 0 <= j < i ==>
          blocks[j].flattenedInstrs == (var c := old(blocks[j].flattenedInstrs); if blocks[j].instrs == [] then c else Arith(c))
        invariant forall j :: i <= j < |blocks| ==> blocks[j].flattenedInstrs == old(blocks[j].flattenedInstrs)
      {
        if |blocks[i].instrs| > 0 {
          ok := OptimizeBlock(blocks[i]);
          if !ok { return; }
        }
        i := i + 1;
      }
      ok := true;
    }
  }

  /** Position `i` of the loop with `c` as the list so far. */
  ghost function InProgress(want: seq<Instr>): (seq<Instr>, nat) -> bool {
    (c: seq<Instr>, i: nat) => if i > |c| then c == want else SmallImms(c[i..]) && c[..i] + Arith(c[i..]) == want
  }

  lemma ArithBegins(c: seq<Instr>)
    requires SmallImms(c)
    ensures InProgress(Arith(c))(c, 0)
  {
    assert c[0..] == c;
  }

  lemma ArithContinues(c: seq<Instr>, i: nat, want: seq<Instr>)
    requires InProgress(want)(c, i) && i + 1 < |c|
    ensures SmallImms(c[i..]) && InProgress(want)(ArithNext(c, i), i + 1)
    ensures i <= |ArithNext(c, i)| <= |c|
  {
    ArithStep(c, i);
  }

  lemma ArithEnds(c: seq<Instr>, i: nat, want: seq<Instr>)
    requires InProgress(want)(c, i) && |c| - 1 <= i
    ensures c == want
  {
    if i <= |c| { LastOnes(c, i); }
  }

  lemma LastOnes(c: seq<Instr>, i: nat)
    requires |c| - 1 <= i <= |c| && SmallImms(c[i..])
    ensures c[..i] + Arith(c[i..]) == c
  {
    assert Arith(c[i..]) == c[i..];
  }

  lemma SmallHere(c: seq<Instr>, i: nat)
    requires i + 1 < |c| && SmallImms(c[i..])
    ensures Small(c[i]) && Small(c[i+1]) && SmallImms(c[i+1..]) && SmallImms(c[i+2..]) && (i + 2 < |c| ==> SmallImms(c[i+3..]))
  {
    var d := c[i..];
    assert d[0] == c[i] && d[1] == c[i+1];
    assert forall n: nat :: n <= |d| ==> SmallImms(d[n..]);
    assert d[1..] == c[i+1..] && d[2..] == c[i+2..] && (i + 2 < |c| ==> d[3..] == c[i+3..]);
  }

  /** One round of the loop at position `i`. */
  function ArithNext(c: seq<Instr>, i: nat): seq<Instr>
    requires i + 1 < |c| && SmallImms(c[i..])
  {
    SmallHere(c, i);
    if !IsPair(c[i], c[i+1]) then c
    else if c[i].op0.value == c[i+1].op0.value then c[..i] + c[i+2..]
    else c[..i] + [Merged(c[i], c[i+1])] + c[i+2..]
  }

  lemma ArithStep(c: seq<Instr>, i: nat)
    requires i + 1 < |c| && SmallImms(c[i..])
    ensures var d := ArithNext(c, i);
      && i <= |d|
      && if i == |d| then d == c[..i] + Arith(c[i..]) else SmallImms(d[i+1..]) && d[..i+1] + Arith(d[i+1..]) == c[..i] + Arith(c[i..])
  {
    SmallHere(c, i);
    if !IsPair(c[i], c[i+1]) {
      assert c[i..][0] == c[i] && c[i..][1] == c[i+1] && c[i..][1..] == c[i+1..];
      assert c[..i+1] == c[..i] + [c[i]];
    } else if c[i].op0.value == c[i+1].op0.value {
      PairGone(c, i);
    } else {
      PairMerged(c, i);
    }
  }

  lemma PairGone(c: seq<Instr>, i: nat)
    requires i + 1 < |c| && SmallImms(c[i..]) && IsPair(c[i], c[i+1]) && c[i].op0.value == c[i+1].op0.value
    ensures var d := c[..i] + c[i+2..];
      if i == |d| then d == c[..i] + Arith(c[i..]) else SmallImms(d[i+1..]) && d[..i+1] + Arith(d[i+1..]) == c[..i] + Arith(c[i..])
  {
    var d, rest := c[..i] + c[i+2..], c[i..];
    SmallHere(c, i);
    assert rest[0] == c[i] && rest[1] == c[i+1] && |rest| == |c| - i;
    if i < |d| {
      assert rest[2] == c[i+2] && rest[3..] == c[i+3..] && d[i+1..] == c[i+3..];
      assert d[..i+1] == c[..i] + [c[i+2]];
    }
  }

  lemma PairMerged(c: seq<Instr>, i: nat)
    requires i + 1 < |c| && SmallImms(c[i..]) && IsPair(c[i], c[i+1]) && c[i].op0.value != c[i+1].op0.value
    ensures Small(c[i]) && Small(c[i+1])
    ensures var d := c[..i] + [Merged(c[i], c[i+1])] + c[i+2..];
      SmallImms(c[i+2..]) && d[i+1..] == c[i+2..] && d[..i+1] + Arith(c[i+2..]) == c[..i] + Arith(c[i..])
  {
    SmallHere(c, i);
    MergedHead(c, i);
    Middle(c[..i], Merged(c[i], c[i+1]), c[i+2..]);
    Splice(c[..i], [Merged(c[i], c[i+1])], Arith(c[i+2..]));
  }

  lemma MergedHead(c: seq<Instr>, i: nat)
    requires i + 1 < |c| && SmallImms(c[i..]) && IsPair(c[i], c[i+1]) && c[i].op0.value != c[i+1].op0.value
    ensures Small(c[i]) && Small(c[i+1]) && SmallImms(c[i+2..]) && Arith(c[i..]) == [Merged(c[i], c[i+1])] + Arith(c[i+2..])
  {
    SmallHere(c, i);
    var rest := c[i..];
    assert rest[0] == c[i] && rest[1] == c[i+1] && rest[2..] == c[i+2..];
  }

  lemma Middle<T>(a: seq<T>, x: T, b: seq<T>)
    ensures var d := a + [x] + b; d[..|a|+1] == a + [x] && d[|a|+1..] == b
  {
  }

  // ---- AsmMovOptimizer, first two loops ----

  function MovAll(f: seq<Code>, reached: set<nat>): seq<Code> {
    seq(|f|, i requires 0 <= i < |f| => if i in reached then f[i].(instrs := MovForwards(MovPairs(f[i].instrs))) else f[i])
  }

  /** Forwarding stored registers: every run goes through exactly the same configurations. */
  lemma MovKeepsRuns(p: Cpu, f: seq<Code>, reached: set<nat>, c: Config, n: nat)
    ensures Run(Machine(p), MovAll(f, reached), c, n) == Run(Machine(p), f, c, n)
  {
    var x, g := Machine(p), MovAll(f, reached);
    var r := (a: State, b: State) => a == b;
    forall k | 0 <= k < |f| ensures f[k].name == g[k].name && BlocksAgree(x, r, g[k].instrs, f[k].instrs) {
      forall a, b | r(a, b) ensures x(g[k].instrs, a).1 == x(f[k].instrs, b).1 && r(x(g[k].instrs, a).0, x(f[k].instrs, b).0) {
        MovPairsSame(p, f[k].instrs, a);
        MovForwardsSame(p, MovPairs(f[k].instrs), a);
      }
    }
    RunsAgree(x, r, g, f, c, c, n);
  }

  class AsmMovOptimizer {
    var optimizations: nat

    constructor ()
      ensures optimizations == 0
    {
      optimizations := 0;
    }

    /** `ok` is false if the original throws. */
    method RemoveReloads(b: BasicBlock) returns (ok: bool)
      modifies this, b`flattenedInstrs
      ensures b.flattenedInstrs == MovPairs(old(b.flattenedInstrs))
      ensures ok <==> old(b.flattenedInstrs) != []
      ensures ok ==> b.flattenedInstrs != []
    {
      var i := 0;
      while b.flattenedInstrs == [] || i < |b.flattenedInstrs| - 1
        invariant 0 <= i <= |b.flattenedInstrs| && (b.flattenedInstrs == [] <==> old(b.flattenedInstrs) == [])
        invariant b.flattenedInstrs[..i] + MovPairs(b.flattenedInstrs[i..]) == MovPairs(old(b.flattenedInstrs))
        decreases |b.flattenedInstrs| - i
      {
        if b.flattenedInstrs == [] { return false; }
        var c := b.flattenedInstrs;
        if StoreThenLoad(c[i], c[i+1]) && c[i].op0.reg == c[i+1].op1.reg {
          b.flattenedInstrs := c[..i+1] + c[i+2..];
          optimizations := optimizations + 1;
        }
        ReloadHere(c, i);
        i := i + 1;
      }
      assert b.flattenedInstrs[..i] + b.flattenedInstrs[i..] == b.flattenedInstrs;
      ok := true;
    }

    method ForwardStores(b: BasicBlock) returns (ok: bool)
      modifies this, b`flattenedInstrs
      ensures b.flattenedInstrs == MovForwards(old(b.flattenedInstrs))
      ensures ok <==> old(b.flattenedInstrs) != []
    {
      var i := 0;
      while b.flattenedInstrs == [] || i < |b.flattenedInstrs| - 1
        invariant 0 <= i <= |b.flattenedInstrs| && |b.flattenedInstrs| == |old(b.flattenedInstrs)|
        invariant b.flattenedInstrs != [] ==> i < |b.flattenedInstrs|
        invariant b.flattenedInstrs[..i] + MovForwards(b.flattenedInstrs[i..]) == MovForwards(old(b.flattenedInstrs))
        decreases |b.flattenedInstrs| - i
      {
        if b.flattenedInstrs == [] { return false; }
        var c := b.flattenedInstrs;
        if StoreThenLoad(c[i], c[i+1]) && c[i].op0.reg != c[i+1].op1.reg {
          b.flattenedInstrs := c[i+1 := Direct(c[i], c[i+1])];
          optimizations := optimizations + 1;
        }
        ForwardHere(c, i);
        i := i + 1;
      }
      assert b.flattenedInstrs[..i] + b.flattenedInstrs[i..] == b.flattenedInstrs;
      ok := true;
    }

    method OptimizeBlock(b: BasicBlock) returns (ok: bool)
      modifies this, b`flattenedInstrs
      ensures ok <==> old(b.flattenedInstrs) != []
      ensures ok ==> b.flattenedInstrs == MovForwards(MovPairs(old(b.flattenedInstrs)))
    {
      ok := RemoveReloads(b);
      if ok { ok := ForwardStores(b); }
    }

    /** Blocks without instructions of their own are passed over. */
    method Run(blocks: seq<BasicBlock>) returns (ok: bool)
      requires forall i, j :: 0 <= i < j < |blocks| ==> blocks[i] != blocks[j]
      modifies this, blocks`flattenedInstrs
      ensures ok <==> forall i :: 0 <= i < |blocks| && blocks[i].instrs != [] ==> old(blocks[i].flattenedInstrs) != []
      ensures ok ==> forall i :: 0 <= i < |blocks| ==>
        blocks[i].flattenedInstrs ==
          (var c := old(blocks[i].flattenedInstrs); if blocks[i].instrs == [] then c else MovForwards(MovPairs(c)))
    {
      var i := 0;
      while i < |blocks|
        invariant i <= |blocks|
        invariant forall j :: 0 <= j < i && blocks[j].instrs != [] ==> old(blocks[j].flattenedInstrs) != []
        invariant forall j :: 0 <= j < i ==>
          blocks[j].flattenedInstrs ==
            (var c := old(blocks[j].flattenedInstrs); if blocks[j].instrs == [] then c else MovForwards(MovPairs(c)))
        invariant forall j :: i <= j < |blocks| ==> blocks[j].flattenedInstrs == old(blocks[j].flattenedInstrs)
      {
        if |blocks[i].instrs| > 0 {
          ok := OptimizeBlock(blocks[i]);
          if !ok { return; }
        }
        i := i + 1;
      }
      ok := true;
    }
  }

  function DeadMove(): seq<Instr> { [Instr(Movq, RegOp(AX), Ind(BP, -8))] }

  lemma DeadMoveGoes()
    ensures AsmStack.Kept(AsmStack.Used([DeadMove()]), DeadMove()) == [] && AsmStack.InRecord(DeadMove(), 2)
  {
    var c, blocks := DeadMove(), [DeadMove()];
    assert c[1..] == [] && blocks[1..] == [];
    assert AsmStack.Used(blocks) == AsmStack.UsedIn(c) + AsmStack.Used(blocks[1..]);
    AsmStack.KeptNothing(AsmStack.Used(blocks), c);
  }

  /** A block that stores a register nobody reads again, its jump to the next block elided: cleaning empties it, and the
      next run of the move pass, which reaches it because it has instructions of its own, fails. */
  method DeadMovesFail() returns (ok: bool)
    ensures !ok
  {
    var b := new BasicBlock("block");
    b.instrs := DeadMove();
    b.FlattenInstrs();
    assert b.flattenedInstrs == DeadMove();
    var stack := new AsmStack.AsmStackOptimizer();
    var mov := new AsmMovOptimizer();
    var blocks := [b];
    assert AsmStack.ListingsOf(blocks) == [DeadMove()];
    DeadMoveGoes();
    stack.OptimizeFunction(blocks, 2);
    assert blocks[0].flattenedInstrs == [] && blocks[0].instrs != [];
    ok := mov.Run(blocks);
  }

  lemma ReloadHere(c: seq<Instr>, i: nat)
    requires i + 1 < |c|
    ensures var d := if StoreThenLoad(c[i], c[i+1]) && c[i].op0.reg == c[i+1].op1.reg then c[..i+1] + c[i+2..] else c;
      d[..i+1] + MovPairs(d[i+1..]) == c[..i] + MovPairs(c[i..])
  {
    ReloadHead(c, i);
    assert c[..i+1] == c[..i] + [c[i]];
    Middle(c[..i], c[i], c[i+2..]);
    Splice(c[..i], [c[i]], MovPairs(c[i+1..]));
    Splice(c[..i], [c[i]], MovPairs(c[i+2..]));
  }

  lemma ReloadHead(c: seq<Instr>, i: nat)
    requires i + 1 < |c|
    ensures MovPairs(c[i..]) ==
      [c[i]] + MovPairs(if StoreThenLoad(c[i], c[i+1]) && c[i].op0.reg == c[i+1].op1.reg then c[i+2..] else c[i+1..])
  {
    var rest := c[i..];
    assert rest[0] == c[i] && rest[1] == c[i+1] && rest[1..] == c[i+1..] && rest[2..] == c[i+2..];
  }

  lemma ForwardHere(c: seq<Instr>, i: nat)
    requires i + 1 < |c|
    ensures var d := if StoreThenLoad(c[i], c[i+1]) && c[i].op0.reg != c[i+1].op1.reg then c[i+1 := Direct(c[i], c[i+1])] else c;
      d[..i+1] + MovForwards(d[i+1..]) == c[..i] + MovForwards(c[i..])
  {
    var rest := c[i..];
    assert rest[0] == c[i] && rest[1] == c[i+1] && rest[1..] == c[i+1..] && rest[2..] == c[i+2..];
    assert c[..i+1] == c[..i] + [c[i]];
    var d := c[i+1 := Direct(c[i], c[i+1])];
    assert d[..i+1] == c[..i+1] && d[i+1..] == [Direct(c[i], c[i+1])] + c[i+2..];
  }
}

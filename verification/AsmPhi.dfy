/** Frame slots (StackSlotManager in asm_pass.hpp) and phi copies (generateNormalPhi in asm_pass.cpp). */
module AsmPhi {
  import opened Wrappers
  import opened Asm

  type Node = nat

  /** A constant, another phi, or any other node. */
  datatype Operand = ConstOp(value: Word) | PhiOp(phi: Node) | NodeOp(node: Node)

  datatype PhiNode = PhiNode(node: Node, ops: seq<Operand>)

  // ---- slots ----

  /** The eight bytes at `a` and the eight bytes at `b` do not overlap. */
  predicate Disjoint(a: int, b: int) { a + 8 <= b || b + 8 <= a }

  /** A temporary slot overlaps neither another one nor any other slot. */
  ghost predicate Unshared(tmp: map<Node, int>, offsets: map<Node, int>) {
    && (forall n, m :: n in tmp && m in tmp && n != m ==> Disjoint(tmp[n], tmp[m]))
    && (forall n, m :: n in tmp && m in offsets ==> Disjoint(tmp[n], offsets[m]))
  }

  /** All slots end above the eight bytes at `bound`. */
  ghost predicate Above(slots: map<Node, int>, bound: int) { forall n :: n in slots ==> bound + 8 <= slots[n] }

  ghost predicate Extends<V>(a: map<Node, V>, b: map<Node, V>) { forall n :: n in a ==> n in b && b[n] == a[n] }

  /** A slot at `offset` overlaps none of these. */
  ghost predicate Fresh(slots: map<Node, int>, offset: int) { forall n :: n in slots ==> Disjoint(slots[n], offset) }

  /** Whose slot a node uses: a conversion that of its operand, every other node its own; and the parameters. */
  datatype Owners = Owners(root: map<Node, Node>, params: set<Node>)

  /** Below the frame pointer a slot overlaps only those of nodes with the same root, whose slot it is; above it lie
      parameters. */
  ghost predicate Owned(o: Owners, offsets: map<Node, int>) {
    && o.root.Keys == offsets.Keys
    && (forall n, m :: n in offsets && m in offsets && offsets[n] < 0 && o.root[n] != o.root[m] ==> Disjoint(offsets[n], offsets[m]))
    && (forall n :: n in offsets && offsets[n] >= 0 ==> o.root[n] in o.params)
    && (forall n :: n in offsets && offsets[n] < 0 ==> offsets[n] + 8 <= 0)
    && Rooted(o.root, offsets)
  }

  /** A node shares the slot of its root. */
  ghost predicate RootShares(root: map<Node, Node>, offsets: map<Node, int>, n: Node) {
    n in offsets && n in root && root[n] in offsets && offsets[n] == offsets[root[n]]
  }

  ghost predicate Rooted(root: map<Node, Node>, offsets: map<Node, int>) {
    forall n {:trigger RootShares(root, offsets, n)} :: n in offsets ==> RootShares(root, offsets, n)
  }

  /** A new node, which is its own root or has that of a node whose slot it shares. */
  lemma RootsStay(root: map<Node, Node>, offsets: map<Node, int>, node: Node, slot: int, r: Node)
    requires Rooted(root, offsets) && node !in offsets && (r == node || (r in offsets && offsets[r] == slot))
    ensures Rooted(root[node := r], offsets[node := slot])
  {
    var b, q := offsets[node := slot], root[node := r];
    forall n | n in b ensures RootShares(q, b, n) {
      if n != node { assert RootShares(root, offsets, n); }
    }
  }

  /** No temporary slot overlaps anything, no other slot anything but its copies, and none reaches into the free part. */
  ghost predicate Laid(offset: int, offsets: map<Node, int>, tmp: map<Node, int>, o: Owners) {
    && offset >= 8 && Unshared(tmp, offsets) && Above(offsets, -offset) && Above(tmp, -offset)
    && (forall n :: n in tmp ==> tmp[n] + 8 <= 0)
    && Owned(o, offsets)
  }

  lemma NewSlotLaid(offset: int, offsets: map<Node, int>, tmp: map<Node, int>, o: Owners, node: Node)
    requires Laid(offset, offsets, tmp, o) && node !in offsets
    ensures Laid(offset + 8, offsets[node := -offset], tmp, o.(root := o.root[node := node]))
    ensures Fresh(offsets, -offset) && Fresh(tmp, -offset)
  {
    RootsStay(o.root, offsets, node, -offset, node);
  }

  lemma SharedLaid(offset: int, offsets: map<Node, int>, tmp: map<Node, int>, o: Owners, source: Node, to: Node)
    requires Laid(offset, offsets, tmp, o) && source in offsets && to !in offsets
    ensures Laid(offset, offsets[to := offsets[source]], tmp, o.(root := o.root[to := o.root[source]]))
  {
    var b, r := offsets[to := offsets[source]], o.root[to := o.root[source]];
    forall n, m | n in b && m in b && b[n] < 0 && r[n] != r[m] ensures Disjoint(b[n], b[m]) {
      var n', m' := if n == to then source else n, if m == to then source else m;
      assert Disjoint(offsets[n'], offsets[m']);
    }
    assert RootShares(o.root, offsets, source);
    RootsStay(o.root, offsets, to, offsets[source], o.root[source]);
  }

  lemma ParamLaid(offset: int, offsets: map<Node, int>, tmp: map<Node, int>, o: Owners, node: Node, slot: int)
    requires Laid(offset, offsets, tmp, o) && node !in offsets && slot > 0
    ensures Laid(offset, offsets[node := slot], tmp, Owners(o.root[node := node], o.params + {node}))
  {
    RootsStay(o.root, offsets, node, slot, node);
  }

  lemma NewTmpLaid(offset: int, offsets: map<Node, int>, tmp: map<Node, int>, o: Owners, node: Node)
    requires Laid(offset, offsets, tmp, o) && node !in tmp
    ensures Laid(offset + 8, offsets, tmp[node := -offset], o)
    ensures Fresh(offsets, -offset) && Fresh(tmp, -offset)
  {
  }

  class StackSlotManager {
    var currentOffset: int
    var offsets: map<Node, int>
    var tmpSlots: map<Node, int>
    ghost var owners: Owners

    ghost predicate Valid()
      reads this
    {
      Laid(currentOffset, offsets, tmpSlots, owners)
    }

    /** Slots that were handed out stay what they are, and whose they are. */
    twostate predicate Kept()
      reads this
    {
      && Extends(old(offsets), offsets) && Extends(old(tmpSlots), tmpSlots)
      && Extends(old(owners.root), owners.root) && old(owners.params) <= owners.params
    }

    constructor ()
      ensures Valid() && offsets == map[] && tmpSlots == map[] && owners == Owners(map[], {})
    {
      currentOffset, offsets, tmpSlots, owners := 8, map[], map[], Owners(map[], {});
    }

    /** The next free slot. */
    method TakeSlot(node: Node)
      requires Valid() && node !in offsets
      modifies this
      ensures Valid() && Kept() && node in offsets && offsets[node] + 8 <= 0
      ensures Fresh(old(offsets), offsets[node]) && Fresh(old(tmpSlots), offsets[node])
      ensures tmpSlots == old(tmpSlots) && offsets == old(offsets)[node := offsets[node]]
      ensures owners == old(owners).(root := old(owners.root)[node := node])
    {
      NewSlotLaid(currentOffset, offsets, tmpSlots, owners, node);
      owners := owners.(root := owners.root[node := node]);
      offsets := offsets[node := -currentOffset];
      currentOffset := currentOffset + 8;
    }

    /** A node without a slot gets one that overlaps none handed out before. */
    method GetStackSlot(node: Node) returns (offset: int)
      requires Valid()
      modifies this
      ensures Valid() && Kept() && node in offsets && offset == offsets[node]
      ensures tmpSlots == old(tmpSlots) && offsets == old(offsets)[node := offset]
      ensures node !in old(offsets) ==> offset + 8 <= 0 && Fresh(old(offsets), offset) && Fresh(old(tmpSlots), offset)
      ensures owners == if node in old(offsets) then old(owners) else old(owners).(root := old(owners.root)[node := node])
    {
      if node !in offsets { TakeSlot(node); }
      offset := offsets[node];
    }

    /** `to` shares the slot of `source`. */
    method CopySlot(source: Node, to: Node)
      requires Valid() && to !in offsets && to != source
      modifies this
      ensures Valid() && Kept() && source in offsets && to in offsets && offsets[to] == offsets[source]
      ensures tmpSlots == old(tmpSlots)
      ensures owners.params == old(owners.params) && owners.root[to] == owners.root[source]
    {
      var offset := GetStackSlot(source);
      AddTo(source, to);
    }

    /** The alias itself, once the source has a slot. */
    method AddTo(source: Node, to: Node)
      requires Valid() && to !in offsets && source in offsets
      modifies this`offsets, this`owners
      ensures Valid() && Kept() && offsets == old(offsets)[to := old(offsets)[source]]
      ensures owners == old(owners).(root := old(owners.root)[to := old(owners.root)[source]])
    {
      SharedLaid(currentOffset, offsets, tmpSlots, owners, source, to);
      owners := owners.(root := owners.root[to := owners.root[source]]);
      offsets := offsets[to := offsets[source]];
    }

    /** Parameters lie above the frame pointer. */
    method SetSlot(node: Node, offset: int)
      requires Valid() && node !in offsets && offset > 0
      modifies this
      ensures Valid() && Kept() && offsets == old(offsets)[node := offset] && tmpSlots == old(tmpSlots)
      ensures owners == Owners(old(owners.root)[node := node], old(owners.params) + {node})
    {
      ParamLaid(currentOffset, offsets, tmpSlots, owners, node, offset);
      owners := Owners(owners.root[node := node], owners.params + {node});
      offsets := offsets[node := offset];
    }

    /** The same for temporary slots. */
    method GetTmpSlot(node: Node) returns (offset: int)
      requires Valid()
      modifies this
      ensures Valid() && Kept() && node in tmpSlots && offset == tmpSlots[node]
      ensures offsets == old(offsets) && tmpSlots == old(tmpSlots)[node := offset] && owners == old(owners)
      ensures node !in old(tmpSlots) ==> offset + 8 <= 0 && Fresh(old(offsets), offset) && Fresh(old(tmpSlots), offset)
    {
      if node !in tmpSlots {
        NewTmpLaid(currentOffset, offsets, tmpSlots, owners, node);
        tmpSlots := tmpSlots[node := -currentOffset];
        currentOffset := currentOffset + 8;
      }
      offset := tmpSlots[node];
    }
  }

  // ---- copies ----

  /** The slots of a finished method. */
  datatype Slots = Slots(stack: map<Node, int>, tmp: map<Node, int>)

  function InSlot(offset: int): Op { Ind(BP, offset) }

  function StackOp(m: Slots, n: Node): Op { InSlot(if n in m.stack then m.stack[n] else 0) }

  function TmpOp(m: Slots, n: Node): Op { InSlot(if n in m.tmp then m.tmp[n] else 0) }

  /** Where a copy reads its operand: phis are read from their temporary slots. */
  function Source(m: Slots, op: Operand): Op {
    match op
    case ConstOp(v) => Imm(v)
    case PhiOp(n) => TmpOp(m, n)
    case NodeOp(n) => StackOp(m, n)
  }

  /** The copy of operand `i` of a phi, at the end of the `i`-th predecessor. */
  function EndCopy(m: Slots, phi: PhiNode, i: nat): seq<Instr>
    requires i < |phi.ops|
  {
    var src := Source(m, phi.ops[i]);
    if src.Imm? then [Instr(Movq, src, StackOp(m, phi.node))]
    else [Instr(Movq, src, RegOp(R15)), Instr(Movq, RegOp(R15), StackOp(m, phi.node))]
  }

  function EndCopies(m: Slots, phis: seq<PhiNode>, i: nat): seq<Instr>
    requires forall k :: 0 <= k < |phis| ==> i < |phis[k].ops|
  {
    if phis == [] then [] else EndCopy(m, phis[0], i) + EndCopies(m, phis[1..], i)
  }

  /** Saving a phi in its temporary slot at the start of its block. */
  function StartCopy(m: Slots, n: Node): seq<Instr> {
    [Instr(Movq, StackOp(m, n), RegOp(BX)), Instr(Movq, RegOp(BX), TmpOp(m, n))]
  }

  function StartCopies(m: Slots, saved: seq<Node>): seq<Instr> {
    if saved == [] then [] else StartCopy(m, saved[0]) + StartCopies(m, saved[1..])
  }

  // ---- what they do ----

  /** Straight code. */
  function Exec(p: Cpu, c: seq<Instr>, s: State): State { ExecBlock(p, c, s).0 }

  predicate Straight(c: seq<Instr>) { forall k :: 0 <= k < |c| ==> !IsJmp(c[k].mnemonic) }

  lemma {:induction false} StraightFalls(p: Cpu, c: seq<Instr>, s: State)
    requires Straight(c)
    ensures ExecBlock(p, c, s).1 == Falls
    decreases |c|
  {
    if c != [] {
      assert forall k :: 0 <= k < |c[1..]| ==> c[1..][k] == c[1+k];
      StraightFalls(p, c[1..], ExecInstr(p, c[0], s));
    }
  }

  lemma ExecSeq(p: Cpu, a: seq<Instr>, b: seq<Instr>, s: State)
    requires Straight(a)
    ensures Exec(p, a + b, s) == Exec(p, b, Exec(p, a, s))
  {
    StraightFalls(p, a, s);
    ExecAppend(p, a, b, s);
  }


  /** The value of an operand: that of a phi is in its own slot. */
  function ValueOf(m: Slots, s: State, op: Operand): Word {
    match op
    case ConstOp(v) => v
    case PhiOp(n) => Load(s, StackOp(m, n))
    case NodeOp(n) => Load(s, StackOp(m, n))
  }

  /** The words at two places of the frame do not overlap. */
  predicate Separate(a: Op, b: Op) { a.Ind? && b.Ind? && a.base == BP && b.base == BP ==> Disjoint(a.offset, b.offset) }

  /** Every phi has a frame slot of its own. */
  ghost predicate OwnPlaces(m: Slots, phis: seq<PhiNode>, i: nat) {
    && (forall k :: 0 <= k < |phis| ==> i < |phis[k].ops| && phis[k].node in m.stack && m.stack[phis[k].node] < 0)
    && (forall j, k :: 0 <= j < k < |phis| ==> Disjoint(m.stack[phis[j].node], m.stack[phis[k].node]))
  }

  /** The operand of phi `k` is not read from the slot of an earlier phi, nor from a part of it. */
  ghost predicate ReadsOld(m: Slots, phis: seq<PhiNode>, i: nat, k: nat)
    requires OwnPlaces(m, phis, i) && k < |phis|
  {
    forall j :: 0 <= j < k ==> Separate(Source(m, phis[k].ops[i]), StackOp(m, phis[j].node))
  }

  ghost predicate Apart(m: Slots, phis: seq<PhiNode>, i: nat) {
    OwnPlaces(m, phis, i) && forall k :: 0 <= k < |phis| ==> ReadsOld(m, phis, i, k)
  }

  /** Temporary slots that are up to date. */
  ghost predicate Saved(m: Slots, phis: seq<PhiNode>, i: nat, s: State) {
    forall k :: 0 <= k < |phis| && i < |phis[k].ops| && phis[k].ops[i].PhiOp? ==>
      Load(s, TmpOp(m, phis[k].ops[i].phi)) == Load(s, StackOp(m, phis[k].ops[i].phi))
  }

  /** Equal except for one slot and one scratch register. */
  ghost predicate ChangedOnly(s: State, t: State, r: Reg, offset: int) {
    && t.heap == s.heap && t.flags == s.flags
    && t.regs == s.regs[r := t.regs[r]]
    && forall off: int :: off != offset ==> (off in t.frame <==> off in s.frame) && (off in s.frame ==> t.frame[off] == s.frame[off])
  }

  lemma MoveStep(p: Cpu, src: Op, dst: Op, s: State)
    ensures ExecInstr(p, Instr(Movq, src, dst), s) == Store(s, dst, Load(s, src))
  {
  }

  lemma SingleMove(p: Cpu, i: Instr, s: State)
    requires i.mnemonic == Movq
    ensures Exec(p, [i], s) == ExecInstr(p, i, s) && Straight([i])
  {
    assert [i][1..] == [];
    assert ExecBlock(p, [], ExecInstr(p, i, s)) == (ExecInstr(p, i, s), Falls);
  }

  lemma OneCopy(p: Cpu, src: Op, dst: Op, r: Reg, s: State)
    requires r != BP && IsSlot(dst)
    ensures var t := Exec(p, [Instr(Movq, src, RegOp(r)), Instr(Movq, RegOp(r), dst)], s);
      ChangedOnly(s, t, r, dst.offset) && Load(t, dst) == Load(s, src)
  {
    var a, b := Instr(Movq, src, RegOp(r)), Instr(Movq, RegOp(r), dst);
    MoveStep(p, src, RegOp(r), s);
    MoveStep(p, RegOp(r), dst, ExecInstr(p, a, s));
    assert [a, b] == [a] + [b];
    SingleMove(p, b, ExecInstr(p, a, s));
    ExecSeq(p, [a], [b], s);
    SingleMove(p, a, s);
  }

  lemma EndCopyEffect(p: Cpu, m: Slots, phi: PhiNode, i: nat, s: State)
    requires i < |phi.ops| && IsSlot(StackOp(m, phi.node))
    ensures var t := Exec(p, EndCopy(m, phi, i), s);
      ChangedOnly(s, t, R15, StackOp(m, phi.node).offset) && Load(t, StackOp(m, phi.node)) == Load(s, Source(m, phi.ops[i]))
  {
    var src, dst := Source(m, phi.ops[i]), StackOp(m, phi.node);
    if src.Imm? {
      var a := Instr(Movq, src, dst);
      SingleMove(p, a, s);
      MoveStep(p, src, dst, s);
      assert s.regs[R15 := s.regs[R15]] == s.regs;
    } else {
      OneCopy(p, src, dst, R15, s);
    }
  }

  /** A place other than the one written. */
  lemma OtherPlace(s: State, t: State, r: Reg, offset: int, op: Op)
    requires ChangedOnly(s, t, r, offset) && r != BP && offset < 0
    requires op.Imm? || (op.Ind? && op.base == BP && op.offset != offset)
    ensures Load(t, op) == Load(s, op)
  {
  }

  /** The first phi's copy, then the others. */
  lemma CopiesSplit(p: Cpu, m: Slots, phis: seq<PhiNode>, i: nat, s: State)
    requires phis != [] && forall k :: 0 <= k < |phis| ==> i < |phis[k].ops|
    ensures Exec(p, EndCopies(m, phis, i), s) == Exec(p, EndCopies(m, phis[1..], i), Exec(p, EndCopy(m, phis[0], i), s))
  {
    var a, b := EndCopy(m, phis[0], i), EndCopies(m, phis[1..], i);
    assert EndCopies(m, phis, i) == a + b;
    CopyStraight(m, phis[0], i);
    ExecSeq(p, a, b, s);
  }

  lemma CopyStraight(m: Slots, phi: PhiNode, i: nat)
    requires i < |phi.ops|
    ensures Straight(EndCopy(m, phi, i))
  {
  }

  /** What the first copy leaves alone. */
  lemma FirstCopyLeaves(p: Cpu, m: Slots, phis: seq<PhiNode>, i: nat, s: State, op: Op)
    requires OwnPlaces(m, phis, i) && phis != [] && op != StackOp(m, phis[0].node) && (op.Imm? || (op.Ind? && op.base == BP))
    ensures Load(Exec(p, EndCopy(m, phis[0], i), s), op) == Load(s, op)
  {
    EndCopyEffect(p, m, phis[0], i, s);
    OtherPlace(s, Exec(p, EndCopy(m, phis[0], i), s), R15, m.stack[phis[0].node], op);
  }

  lemma {:induction false} EndCopiesLeave(p: Cpu, m: Slots, phis: seq<PhiNode>, i: nat, s: State, op: Op)
    requires OwnPlaces(m, phis, i) && op.Ind? && op.base == BP
    requires forall k :: 0 <= k < |phis| ==> op != StackOp(m, phis[k].node)
    ensures Load(Exec(p, EndCopies(m, phis, i), s), op) == Load(s, op)
    decreases |phis|
  {
    if phis != [] {
      FirstCopyLeaves(p, m, phis, i, s, op);
      CopiesSplit(p, m, phis, i, s);
      PlacesTail(m, phis, i);
      EndCopiesLeave(p, m, phis[1..], i, Exec(p, EndCopy(m, phis[0], i), s), op);
    } else {
      assert Exec(p, EndCopies(m, phis, i), s) == s;
    }
  }

  lemma PlacesTail(m: Slots, phis: seq<PhiNode>, i: nat)
    requires OwnPlaces(m, phis, i) && phis != []
    ensures OwnPlaces(m, phis[1..], i)
  {
    assert forall k :: 0 <= k < |phis| - 1 ==> phis[1..][k] == phis[k+1];
  }

  lemma ReadsOldTail(m: Slots, phis: seq<PhiNode>, i: nat, k: nat)
    requires OwnPlaces(m, phis, i) && 0 < k < |phis| && ReadsOld(m, phis, i, k)
    ensures OwnPlaces(m, phis[1..], i) && ReadsOld(m, phis[1..], i, k - 1)
  {
    PlacesTail(m, phis, i);
    forall j | 0 <= j < k - 1 ensures Separate(Source(m, phis[1..][k-1].ops[i]), StackOp(m, phis[1..][j].node)) {
      assert phis[1..][j] == phis[j+1] && phis[1..][k-1] == phis[k];
    }
  }

  lemma FirstCopySpares(p: Cpu, m: Slots, phis: seq<PhiNode>, i: nat, s: State, k: nat)
    requires OwnPlaces(m, phis, i) && 0 < k < |phis| && ReadsOld(m, phis, i, k)
    ensures Load(Exec(p, EndCopy(m, phis[0], i), s), Source(m, phis[k].ops[i])) == Load(s, Source(m, phis[k].ops[i]))
  {
    FirstCopyLeaves(p, m, phis, i, s, Source(m, phis[k].ops[i]));
  }

  lemma FirstAssigned(p: Cpu, m: Slots, phis: seq<PhiNode>, i: nat, s: State)
    requires phis != [] && OwnPlaces(m, phis, i) && OwnPlaces(m, phis[1..], i)
    ensures var t := Exec(p, EndCopy(m, phis[0], i), s);
      Load(Exec(p, EndCopies(m, phis[1..], i), t), StackOp(m, phis[0].node)) == Load(s, Source(m, phis[0].ops[i]))
  {
    var t := Exec(p, EndCopy(m, phis[0], i), s);
    EndCopyEffect(p, m, phis[0], i, s);
    EndCopiesLeave(p, m, phis[1..], i, t, StackOp(m, phis[0].node));
  }

  /** Sequential copies read what was there before any of them. */
  lemma {:induction false} CopiesAreSimultaneous(p: Cpu, m: Slots, phis: seq<PhiNode>, i: nat, s: State, k: nat)
    requires OwnPlaces(m, phis, i) && k < |phis| && ReadsOld(m, phis, i, k)
    ensures Load(Exec(p, EndCopies(m, phis, i), s), StackOp(m, phis[k].node)) == Load(s, Source(m, phis[k].ops[i]))
    decreases |phis|
  {
    var t := Exec(p, EndCopy(m, phis[0], i), s);
    CopiesSplit(p, m, phis, i, s);
    PlacesTail(m, phis, i);
    if k == 0 {
      FirstAssigned(p, m, phis, i, s);
    } else {
      ReadsOldTail(m, phis, i, k);
      CopiesAreSimultaneous(p, m, phis[1..], i, t, k - 1);
      FirstCopySpares(p, m, phis, i, s, k);
    }
  }

  /** A phi whose operand is read from the slot of an earlier one ends with the new value of that one. */
  lemma {:induction false} CopyReadsNew(p: Cpu, m: Slots, phis: seq<PhiNode>, i: nat, s: State, j: nat, k: nat)
    requires OwnPlaces(m, phis, i) && j < k < |phis| && Source(m, phis[k].ops[i]) == StackOp(m, phis[j].node)
    ensures var t := Exec(p, EndCopies(m, phis, i), s);
      Load(t, StackOp(m, phis[k].node)) == Load(t, StackOp(m, phis[j].node))
    decreases |phis|
  {
    var t := Exec(p, EndCopy(m, phis[0], i), s);
    CopiesSplit(p, m, phis, i, s);
    PlacesTail(m, phis, i);
    if j > 0 {
      CopyReadsNew(p, m, phis[1..], i, t, j - 1, k - 1);
    } else {
      ReadsFirst(p, m, phis, i, t, k);
    }
  }

  /** After the first copy. */
  lemma ReadsFirst(p: Cpu, m: Slots, phis: seq<PhiNode>, i: nat, t: State, k: nat)
    requires 0 < k < |phis| && OwnPlaces(m, phis, i) && OwnPlaces(m, phis[1..], i)
    requires Source(m, phis[k].ops[i]) == StackOp(m, phis[0].node)
    ensures var u := Exec(p, EndCopies(m, phis[1..], i), t);
      Load(u, StackOp(m, phis[k].node)) == Load(u, StackOp(m, phis[0].node))
  {
    EndCopiesLeave(p, m, phis[1..], i, t, StackOp(m, phis[0].node));
    CopiesAreSimultaneous(p, m, phis[1..], i, t, k - 1);
  }

  /** Main result: after the copies of a predecessor every phi holds the value its operand had before all of them,
      whatever chains or cycles the phis form, provided the temporary slots are up to date. */
  lemma PhisAssignInParallel(p: Cpu, m: Slots, phis: seq<PhiNode>, i: nat, s: State, k: nat)
    requires Apart(m, phis, i) && Saved(m, phis, i, s) && k < |phis|
    ensures Load(Exec(p, EndCopies(m, phis, i), s), StackOp(m, phis[k].node)) == ValueOf(m, s, phis[k].ops[i])
  {
    CopiesAreSimultaneous(p, m, phis, i, s, k);
  }

  // ---- temporary slots stay up to date ----

  /** The place an instruction writes, besides registers and memory outside the frame. */
  function Written(i: Instr): Op {
    match ClassOf(i.mnemonic)
    case Moves => i.op1
    case Binary => i.op1
    case Unary => i.op0
    case _ => NoOp
  }

  /** Nothing written overlaps the slot. */
  predicate Spares(c: seq<Instr>, op: Op) { Straight(c) && forall k :: 0 <= k < |c| ==> Separate(Written(c[k]), op) }

  lemma StepSpares(p: Cpu, i: Instr, s: State, op: Op)
    requires IsSlot(op) && Separate(Written(i), op)
    ensures Load(ExecInstr(p, i, s), op) == Load(s, op)
  {
  }

  lemma {:induction false} SparedStays(p: Cpu, c: seq<Instr>, s: State, op: Op)
    requires IsSlot(op) && Spares(c, op)
    ensures Load(Exec(p, c, s), op) == Load(s, op)
    decreases |c|
  {
    if c == [] {
      assert Exec(p, c, s) == s;
    } else {
      StepSpares(p, c[0], s, op);
      assert forall k :: 0 <= k < |c[1..]| ==> c[1..][k] == c[1+k];
      SparedStays(p, c[1..], ExecInstr(p, c[0], s), op);
      assert Exec(p, c, s) == Exec(p, c[1..], ExecInstr(p, c[0], s));
    }
  }

  /** Slots of the phis saved at the start of a block. */
  ghost predicate SavedApart(m: Slots, saved: seq<Node>) {
    && (forall k :: 0 <= k < |saved| ==> IsSlot(StackOp(m, saved[k])) && IsSlot(TmpOp(m, saved[k])))
    && (forall j, k :: 0 <= j < k < |saved| ==> Separate(TmpOp(m, saved[j]), TmpOp(m, saved[k])))
    && (forall j, k :: 0 <= j < |saved| && 0 <= k < |saved| ==> Separate(TmpOp(m, saved[j]), StackOp(m, saved[k])))
  }

  lemma StartSplit(p: Cpu, m: Slots, saved: seq<Node>, s: State)
    requires saved != []
    ensures Exec(p, StartCopies(m, saved), s) == Exec(p, StartCopies(m, saved[1..]), Exec(p, StartCopy(m, saved[0]), s))
  {
    SaveStraight(m, saved[0]);
    ExecSeq(p, StartCopy(m, saved[0]), StartCopies(m, saved[1..]), s);
  }

  lemma SaveStraight(m: Slots, n: Node)
    ensures Straight(StartCopy(m, n))
  {
  }

  /** At the start of a block the copies leave every other place alone ... */
  lemma {:induction false} StartCopiesLeave(p: Cpu, m: Slots, saved: seq<Node>, s: State, op: Op)
    requires SavedApart(m, saved) && IsSlot(op) && forall k :: 0 <= k < |saved| ==> Separate(TmpOp(m, saved[k]), op)
    ensures Load(Exec(p, StartCopies(m, saved), s), op) == Load(s, op)
    decreases |saved|
  {
    if saved == [] {
      assert Exec(p, StartCopies(m, saved), s) == s;
    } else {
      assert Spares(StartCopy(m, saved[0]), op);
      SparedStays(p, StartCopy(m, saved[0]), s, op);
      StartSplit(p, m, saved, s);
      assert forall k :: 0 <= k < |saved| - 1 ==> saved[1..][k] == saved[k+1];
      StartCopiesLeave(p, m, saved[1..], Exec(p, StartCopy(m, saved[0]), s), op);
    }
  }

  /** ... and bring every temporary slot up to date. */
  lemma {:induction false} StartCopiesSave(p: Cpu, m: Slots, saved: seq<Node>, s: State, k: nat)
    requires SavedApart(m, saved) && k < |saved|
    ensures var t := Exec(p, StartCopies(m, saved), s); Load(t, TmpOp(m, saved[k])) == Load(t, StackOp(m, saved[k]))
    decreases |saved|
  {
    var n, t := saved[0], Exec(p, StartCopy(m, saved[0]), s);
    StartSplit(p, m, saved, s);
    SavedTail(m, saved);
    if k == 0 {
      StartCopySaves(p, m, n, s);
      StartCopiesLeave(p, m, saved[1..], t, TmpOp(m, n));
      StartCopiesLeave(p, m, saved[1..], t, StackOp(m, n));
    } else {
      StartCopiesSave(p, m, saved[1..], t, k - 1);
    }
  }

  lemma StartCopySaves(p: Cpu, m: Slots, n: Node, s: State)
    requires IsSlot(StackOp(m, n)) && IsSlot(TmpOp(m, n)) && TmpOp(m, n) != StackOp(m, n)
    ensures var t := Exec(p, StartCopy(m, n), s); Load(t, TmpOp(m, n)) == Load(t, StackOp(m, n))
  {
    OneCopy(p, StackOp(m, n), TmpOp(m, n), BX, s);
    OtherPlace(s, Exec(p, StartCopy(m, n), s), BX, TmpOp(m, n).offset, StackOp(m, n));
  }

  lemma SavedTail(m: Slots, saved: seq<Node>)
    requires SavedApart(m, saved) && saved != []
    ensures var n, rest := saved[0], saved[1..];
      && SavedApart(m, rest) && IsSlot(StackOp(m, n)) && IsSlot(TmpOp(m, n)) && TmpOp(m, n) != StackOp(m, n)
      && (forall k :: 0 <= k < |rest| ==> Separate(TmpOp(m, rest[k]), TmpOp(m, n)) && Separate(TmpOp(m, rest[k]), StackOp(m, n)))
      && forall k :: 0 <= k < |rest| ==> rest[k] == saved[k+1]
  {
    assert forall j :: 0 <= j < |saved| - 1 ==> saved[1..][j] == saved[j+1];
  }

  /** A temporary slot that was filled at the start of some block and left alone since, like the slot it was filled
      from, is up to date. */
  ghost predicate FilledOn(m: Slots, path: seq<Instr>, n: Node, pre: seq<Instr>, saved: seq<Node>, post: seq<Instr>) {
    && path == pre + StartCopies(m, saved) + post && Straight(pre) && n in saved && SavedApart(m, saved)
    && Spares(post, StackOp(m, n)) && Spares(post, TmpOp(m, n))
  }

  lemma FilledStays(p: Cpu, m: Slots, path: seq<Instr>, n: Node, pre: seq<Instr>, saved: seq<Node>, post: seq<Instr>, s: State)
    requires FilledOn(m, path, n, pre, saved, post)
    ensures var t := Exec(p, path, s); Load(t, TmpOp(m, n)) == Load(t, StackOp(m, n))
  {
    var s0 := Exec(p, pre, s);
    var s1 := Exec(p, StartCopies(m, saved), s0);
    StartStraight(m, saved);
    assert path == pre + (StartCopies(m, saved) + post);
    ExecSeq(p, pre, StartCopies(m, saved) + post, s);
    ExecSeq(p, StartCopies(m, saved), post, s0);
    var q: nat :| q < |saved| && saved[q] == n;
    StartCopiesSave(p, m, saved, s0, q);
    SparedStays(p, post, s1, StackOp(m, n));
    SparedStays(p, post, s1, TmpOp(m, n));
  }

  lemma {:induction false} StartStraight(m: Slots, saved: seq<Node>)
    ensures Straight(StartCopies(m, saved))
    decreases |saved|
  {
    if saved != [] { StartStraight(m, saved[1..]); }
  }

  /** The operand phis have been saved on the way, each at the start of whatever block it belongs to. */
  ghost predicate AllFilled(m: Slots, path: seq<Instr>, phis: seq<PhiNode>, i: nat) {
    forall k :: 0 <= k < |phis| && i < |phis[k].ops| && phis[k].ops[i].PhiOp? ==>
      exists pre, saved, post :: FilledOn(m, path, phis[k].ops[i].phi, pre, saved, post)
  }

  /** From the starts of the blocks that save the operand phis, each by its own block, over any code that leaves their
      slots alone, to the end of a predecessor: every phi gets the value its operand had there. */
  lemma PhisAssignAfterPath(p: Cpu, m: Slots, path: seq<Instr>, phis: seq<PhiNode>, i: nat, s: State, k: nat)
    requires AllFilled(m, path, phis, i) && Apart(m, phis, i) && k < |phis|
    ensures var t := Exec(p, path, s);
      Load(Exec(p, EndCopies(m, phis, i), t), StackOp(m, phis[k].node)) == ValueOf(m, t, phis[k].ops[i])
  {
    var t := Exec(p, path, s);
    forall j | 0 <= j < |phis| && i < |phis[j].ops| && phis[j].ops[i].PhiOp?
      ensures Load(t, TmpOp(m, phis[j].ops[i].phi)) == Load(t, StackOp(m, phis[j].ops[i].phi))
    {
      var pre, saved, post :| FilledOn(m, path, phis[j].ops[i].phi, pre, saved, post);
      FilledStays(p, m, path, phis[j].ops[i].phi, pre, saved, post, s);
    }
    PhisAssignInParallel(p, m, phis, i, t, k);
  }

  // ---- slots that the manager handed out ----

  /** The slots of the manager at the end, in which a phi and its operands have their places. */
  ghost predicate Managed(m: Slots, o: Owners) {
    Unshared(m.tmp, m.stack) && Owned(o, m.stack) && forall n :: n in m.tmp ==> m.tmp[n] + 8 <= 0
  }

  ghost predicate HasPlace(m: Slots, op: Operand) {
    (op.PhiOp? ==> op.phi in m.tmp) && (op.NodeOp? ==> op.node in m.stack)
  }

  ghost predicate HasPlaces(m: Slots, phi: PhiNode) {
    phi.node in m.stack && forall i :: 0 <= i < |phi.ops| ==> HasPlace(m, phi.ops[i])
  }

  /** A phi is neither a parameter nor a conversion. */
  ghost predicate OwnsSlot(o: Owners, n: Node) { n in o.root && o.root[n] == n && n !in o.params }

  /** No operand converts an earlier phi of the block. */
  ghost predicate NoneConverted(o: Owners, phis: seq<PhiNode>, i: nat) {
    forall j, k :: 0 <= j < k < |phis| && i < |phis[k].ops| && phis[k].ops[i].NodeOp? && phis[k].ops[i].node in o.root ==>
      o.root[phis[k].ops[i].node] != phis[j].node
  }

  predicate Distinct(phis: seq<PhiNode>) { forall j, k :: 0 <= j < k < |phis| ==> phis[j].node != phis[k].node }

  lemma OwnSlot(m: Slots, o: Owners, n: Node, n': Node)
    requires Managed(m, o) && OwnsSlot(o, n)
    ensures n in m.stack && m.stack[n] < 0
    ensures n' in m.stack && o.root[n'] != n ==> Disjoint(m.stack[n], m.stack[n'])
  {
  }

  lemma ManagedOwnPlaces(m: Slots, o: Owners, phis: seq<PhiNode>, i: nat)
    requires Managed(m, o) && Distinct(phis)
    requires forall k :: 0 <= k < |phis| ==> i < |phis[k].ops| && OwnsSlot(o, phis[k].node) && HasPlaces(m, phis[k])
    ensures OwnPlaces(m, phis, i)
  {
    forall k | 0 <= k < |phis| ensures m.stack[phis[k].node] < 0 { OwnSlot(m, o, phis[k].node, phis[k].node); }
    forall j, k | 0 <= j < k < |phis| ensures Disjoint(m.stack[phis[j].node], m.stack[phis[k].node]) {
      OwnSlot(m, o, phis[j].node, phis[k].node);
    }
  }

  /** Slots handed out by the manager meet the conditions above: only copySlot makes nodes share a slot, and no two other
      slots share a byte. */
  lemma ManagedSlotsApart(m: Slots, o: Owners, phis: seq<PhiNode>, i: nat)
    requires Managed(m, o) && Distinct(phis) && NoneConverted(o, phis, i)
    requires forall k :: 0 <= k < |phis| ==> i < |phis[k].ops| && OwnsSlot(o, phis[k].node) && HasPlaces(m, phis[k])
    ensures Apart(m, phis, i)
  {
    ManagedOwnPlaces(m, o, phis, i);
    forall k | 0 <= k < |phis| ensures ReadsOld(m, phis, i, k) {
      forall j | 0 <= j < k ensures Separate(Source(m, phis[k].ops[i]), StackOp(m, phis[j].node)) {
        SourceElsewhere(m, o, phis, i, j, k);
      }
    }
  }

  lemma SourceElsewhere(m: Slots, o: Owners, phis: seq<PhiNode>, i: nat, j: nat, k: nat)
    requires Managed(m, o) && NoneConverted(o, phis, i) && j < k < |phis| && i < |phis[k].ops|
    requires OwnsSlot(o, phis[j].node) && HasPlaces(m, phis[j]) && HasPlaces(m, phis[k])
    ensures Separate(Source(m, phis[k].ops[i]), StackOp(m, phis[j].node))
  {
    OwnSlot(m, o, phis[j].node, phis[j].node);
    assert HasPlace(m, phis[k].ops[i]);
    if phis[k].ops[i].NodeOp? { OwnSlot(m, o, phis[j].node, phis[k].ops[i].node); }
  }

  /** The converse: a phi whose operand converts an earlier phi of the block ends with the new value of that phi. */
  lemma ConvertedReadsNew(p: Cpu, m: Slots, o: Owners, phis: seq<PhiNode>, i: nat, s: State, j: nat, k: nat)
    requires Managed(m, o) && Distinct(phis) && j < k < |phis|
    requires forall k :: 0 <= k < |phis| ==> i < |phis[k].ops| && OwnsSlot(o, phis[k].node) && HasPlaces(m, phis[k])
    requires phis[k].ops[i].NodeOp? && phis[k].ops[i].node in o.root && o.root[phis[k].ops[i].node] == phis[j].node
    ensures var t := Exec(p, EndCopies(m, phis, i), s);
      && Load(t, StackOp(m, phis[k].node)) == Load(t, StackOp(m, phis[j].node))
      && (j == 0 ==> Load(t, StackOp(m, phis[k].node)) == Load(s, Source(m, phis[0].ops[i])))
  {
    ManagedOwnPlaces(m, o, phis, i);
    if j == 0 { CopiesAreSimultaneous(p, m, phis, i, s, 0); }
    assert HasPlace(m, phis[k].ops[i]) && RootShares(o.root, m.stack, phis[k].ops[i].node);
    CopyReadsNew(p, m, phis, i, s, j, k);
  }

  /** Node 2 converts phi 0; it is the operand of phi 1, that of phi 0 is 1. */
  function ConvertedSlots(): Slots { Slots(map[0 := -8, 1 := -16, 2 := -8], map[]) }

  function ConvertedOwners(): Owners { Owners(map[0 := 0, 1 := 1, 2 := 0], {}) }

  function ConvertedPhis(): seq<PhiNode> { [PhiNode(0, [ConstOp(1)]), PhiNode(1, [NodeOp(2)])] }

  lemma ConvertedMaps()
    ensures ConvertedSlots().stack == map[][0 := -8][1 := -16][2 := -8] && ConvertedOwners().root == map[][0 := 0][1 := 1][2 := 0]
  {
  }

  lemma TwoAndCopy()
    ensures Laid(24, map[][0 := -8][1 := -16][2 := -8], map[], Owners(map[][0 := 0][1 := 1][2 := 0], {}))
  {
    NewSlotLaid(8, map[], map[], Owners(map[], {}), 0);
    NewSlotLaid(16, map[][0 := -8], map[], Owners(map[][0 := 0], {}), 1);
    SharedLaid(24, map[][0 := -8][1 := -16], map[], Owners(map[][0 := 0][1 := 1], {}), 0, 2);
  }

  /** The manager hands out these slots for two new nodes and a copy. */
  lemma ConvertedManaged()
    ensures Managed(ConvertedSlots(), ConvertedOwners()) && Distinct(ConvertedPhis())
  {
    ConvertedMaps();
    TwoAndCopy();
  }

  lemma ConvertedPlaces()
    ensures forall k :: 0 <= k < 2 ==> OwnsSlot(ConvertedOwners(), ConvertedPhis()[k].node) && HasPlaces(ConvertedSlots(), ConvertedPhis()[k])
  {
    var phis := ConvertedPhis();
    assert HasPlace(ConvertedSlots(), phis[0].ops[0]) && HasPlace(ConvertedSlots(), phis[1].ops[0]);
  }

  /** Phi 1 becomes 1 like phi 0 instead of the old value of phi 0. */
  lemma ConvertedDiffers(p: Cpu, s: State)
    requires Load(s, InSlot(-8)) != 1
    ensures var m, o, phis := ConvertedSlots(), ConvertedOwners(), ConvertedPhis();
      && Managed(m, o) && Distinct(phis) && !NoneConverted(o, phis, 0)
      && Load(Exec(p, EndCopies(m, phis, 0), s), StackOp(m, 1)) == 1 != ValueOf(m, s, phis[1].ops[0])
  {
    var m, o, phis := ConvertedSlots(), ConvertedOwners(), ConvertedPhis();
    ConvertedManaged();
    ConvertedPlaces();
    assert o.root[phis[1].ops[0].node] == phis[0].node;
    ConvertedReadsNew(p, m, o, phis, 0, s, 0, 1);
  }

  lemma ManagedSavedApart(m: Slots, o: Owners, saved: seq<Node>)
    requires Managed(m, o) && forall k :: 0 <= k < |saved| ==> OwnsSlot(o, saved[k]) && saved[k] in m.tmp
    requires forall j, k :: 0 <= j < k < |saved| ==> saved[j] != saved[k]
    ensures SavedApart(m, saved)
  {
    forall k | 0 <= k < |saved| ensures saved[k] in m.stack && m.stack[saved[k]] < 0 { OwnSlot(m, o, saved[k], saved[k]); }
  }

  lemma StartCopySame(m: Slots, m': Slots, n: Node)
    requires Later(m, m') && n in m.stack && n in m.tmp
    ensures StartCopy(m', n) == StartCopy(m, n)
  {
  }

  lemma SourceSame(m: Slots, m': Slots, op: Operand)
    requires Later(m, m') && HasPlace(m, op)
    ensures Source(m', op) == Source(m, op) && HasPlace(m', op)
  {
  }

  /** Slots handed out later do not change a copy. */
  lemma EndCopySame(m: Slots, m': Slots, phi: PhiNode, i: nat)
    requires Later(m, m') && i < |phi.ops| && phi.node in m.stack
    requires HasPlace(m, phi.ops[i])
    ensures EndCopy(m', phi, i) == EndCopy(m, phi, i)
  {
  }

  // ---- all phis of a method ----

  /** A phi with its block and the two predecessors of the block. */
  datatype PhiPlace = PhiPlace(phi: PhiNode, bb: BasicBlock, pred0: BasicBlock, pred1: BasicBlock)

  /** Some user of the node is a phi. */
  predicate PhiUsed(all: seq<PhiPlace>, n: Node) {
    exists k :: 0 <= k < |all| && PhiOp(n) in all[k].phi.ops
  }

  /** Two phis of a block that refer to each other, or one that refers to itself. */
  predicate IsSwap(all: seq<PhiPlace>, x: PhiPlace) {
    exists k :: 0 <= k < |all| && all[k].bb == x.bb && PhiOp(x.phi.node) in all[k].phi.ops && PhiOp(all[k].phi.node) in x.phi.ops
  }

  /** The phis of block `bb` that are saved at its start. */
  function SavedIn(all: seq<PhiPlace>, users: seq<PhiPlace>, bb: BasicBlock): seq<Node> {
    if all == [] then []
    else
      var z := all[|all|-1];
      SavedIn(all[..|all|-1], users, bb) + if z.bb == bb && PhiUsed(users, z.phi.node) then [z.phi.node] else []
  }

  predicate TwoEach(all: seq<PhiPlace>) { forall k :: 0 <= k < |all| ==> |all[k].phi.ops| == 2 }

  /** The copies that one phi contributes to the end of block `bb`. */
  function EndsOf(m: Slots, x: PhiPlace, bb: BasicBlock): seq<Instr>
    requires |x.phi.ops| == 2
  {
    if x.pred0 == bb then EndCopy(m, x.phi, 0) else if x.pred1 == bb then EndCopy(m, x.phi, 1) else []
  }

  /** All copies at the end of block `bb`. */
  function EndsIn(m: Slots, all: seq<PhiPlace>, bb: BasicBlock): seq<Instr>
    requires TwoEach(all)
  {
    if all == [] then [] else EndsIn(m, all[..|all|-1], bb) + EndsOf(m, all[|all|-1], bb)
  }

  /** The phis of block `bb`. */
  function PhisOf(all: seq<PhiPlace>, bb: BasicBlock): seq<PhiNode> {
    if all == [] then [] else PhisOf(all[..|all|-1], bb) + if all[|all|-1].bb == bb then [all[|all|-1].phi] else []
  }

  lemma BothPlaces(m: Slots, m': Slots, phi: PhiNode)
    requires Later(m, m') && |phi.ops| == 2 && phi.node in m.stack && HasPlace(m, phi.ops[0]) && HasPlace(m', phi.ops[1])
    ensures HasPlaces(m', phi)
  {
  }

  ghost predicate Later(m: Slots, m': Slots) { Extends(m.stack, m'.stack) && Extends(m.tmp, m'.tmp) }

  /** The slots of phi `x` and its operands are there, and a temporary one if another phi will read it. */
  ghost predicate Done(m: Slots, users: seq<PhiPlace>, x: PhiPlace) {
    |x.phi.ops| == 2 && HasPlaces(m, x.phi) && (PhiUsed(users, x.phi.node) ==> x.phi.node in m.tmp)
  }

  ghost predicate AllDone(m: Slots, users: seq<PhiPlace>, all: seq<PhiPlace>) {
    forall k :: 0 <= k < |all| ==> Done(m, users, all[k])
  }

  lemma {:induction false} EndsSame(m: Slots, m': Slots, users: seq<PhiPlace>, all: seq<PhiPlace>, bb: BasicBlock)
    requires Later(m, m') && AllDone(m, users, all)
    ensures EndsIn(m', all, bb) == EndsIn(m, all, bb)
    decreases |all|
  {
    if all != [] {
      var z := all[|all|-1];
      EndsSame(m, m', users, all[..|all|-1], bb);
      assert Done(m, users, z);
      EndCopySame(m, m', z.phi, 0);
      EndCopySame(m, m', z.phi, 1);
    }
  }

  lemma {:induction false} StartAppend(m: Slots, a: seq<Node>, n: Node)
    ensures StartCopies(m, a + [n]) == StartCopies(m, a) + StartCopy(m, n)
    decreases |a|
  {
    if a == [] {
      assert [n][1..] == [] && a + [n] == [n];
    } else {
      StartAppend(m, a[1..], n);
      assert (a + [n])[1..] == a[1..] + [n];
      assert StartCopy(m, a[0]) + (StartCopies(m, a[1..]) + StartCopy(m, n)) == StartCopy(m, a[0]) + StartCopies(m, a[1..]) + StartCopy(m, n);
    }
  }

  lemma {:induction false} StartsSame(m: Slots, m': Slots, users: seq<PhiPlace>, all: seq<PhiPlace>, bb: BasicBlock)
    requires Later(m, m') && AllDone(m, users, all)
    ensures StartCopies(m', SavedIn(all, users, bb)) == StartCopies(m, SavedIn(all, users, bb))
    decreases |all|
  {
    if all != [] {
      var z := all[|all|-1];
      StartsSame(m, m', users, all[..|all|-1], bb);
      assert SavedIn(all[..|all|-1], users, bb) + [] == SavedIn(all[..|all|-1], users, bb);
      if z.bb == bb && PhiUsed(users, z.phi.node) {
        assert Done(m, users, z);
        StartAppend(m, SavedIn(all[..|all|-1], users, bb), z.phi.node);
        StartAppend(m', SavedIn(all[..|all|-1], users, bb), z.phi.node);
        StartCopySame(m, m', z.phi.node);
      }
    }
  }

  /** The copies at the start of block `bb` that one phi contributes. */
  function StartOf(m: Slots, users: seq<PhiPlace>, x: PhiPlace, bb: BasicBlock): seq<Instr> {
    if x.bb == bb && PhiUsed(users, x.phi.node) then StartCopy(m, x.phi.node) else []
  }

  /** The lists of block `bb`, once `start0` and `end0`, after the phis `all`. */
  ghost predicate Filled(m: Slots, all: seq<PhiPlace>, users: seq<PhiPlace>, bb: BasicBlock,
      start0: seq<Instr>, end0: seq<Instr>, start: seq<Instr>, end: seq<Instr>) {
    && TwoEach(all) && start == start0 + StartCopies(m, SavedIn(all, users, bb))
    && end == end0 + EndsIn(m, all, bb)
  }

  lemma FilledNone(m: Slots, users: seq<PhiPlace>)
    ensures forall bb: BasicBlock, start, end :: Filled(m, users[..0], users, bb, start, end, start, end)
  {
  }

  lemma OneMoreEnd(m: Slots, m': Slots, all: seq<PhiPlace>, k: nat, bb: BasicBlock, end0: seq<Instr>)
    requires k < |all| && |all[k].phi.ops| == 2 && Later(m, m') && AllDone(m, all, all[..k]) && TwoEach(all[..k+1])
    ensures TwoEach(all[..k]) && end0 + EndsIn(m, all[..k], bb) + EndsOf(m', all[k], bb) == end0 + EndsIn(m', all[..k+1], bb)
  {
    var a := all[..k];
    assert all[..k+1][..k] == a && all[..k+1][k] == all[k];
    EndsSame(m, m', all, a, bb);
    Splice(end0, EndsIn(m', a, bb), EndsOf(m', all[k], bb));
  }

  lemma OneMoreStart(m: Slots, m': Slots, all: seq<PhiPlace>, k: nat, bb: BasicBlock, start0: seq<Instr>)
    requires k < |all| && Later(m, m') && AllDone(m, all, all[..k])
    ensures start0 + StartCopies(m, SavedIn(all[..k], all, bb)) + StartOf(m', all, all[k], bb)
      == start0 + StartCopies(m', SavedIn(all[..k+1], all, bb))
  {
    var a, n := all[..k], all[k].phi.node;
    assert all[..k+1][..k] == a && all[..k+1][k] == all[k];
    StartsSame(m, m', all, a, bb);
    assert SavedIn(a, all, bb) + [] == SavedIn(a, all, bb);
    StartAppend(m', SavedIn(a, all, bb), n);
    Splice(start0, StartCopies(m', SavedIn(a, all, bb)), StartOf(m', all, all[k], bb));
  }

  /** The lists after one more phi. */
  lemma OneMore(m: Slots, m': Slots, all: seq<PhiPlace>, k: nat, bb: BasicBlock,
      start0: seq<Instr>, end0: seq<Instr>, start: seq<Instr>, end: seq<Instr>)
    requires k < |all| && |all[k].phi.ops| == 2 && Later(m, m') && AllDone(m, all, all[..k])
    requires Filled(m, all[..k], all, bb, start0, end0, start, end)
    ensures Filled(m', all[..k+1], all, bb, start0, end0, start + StartOf(m', all, all[k], bb), end + EndsOf(m', all[k], bb))
  {
    assert all[..k+1] == all[..k] + [all[k]];
    OneMoreEnd(m, m', all, k, bb, end0);
    OneMoreStart(m, m', all, k, bb, start0);
  }

  lemma DoneLater(m: Slots, m': Slots, users: seq<PhiPlace>, all: seq<PhiPlace>, k: nat)
    requires Later(m, m') && k < |all| && AllDone(m, users, all[..k]) && Done(m', users, all[k])
    ensures AllDone(m', users, all[..k+1])
  {
    forall j | 0 <= j < k + 1 ensures Done(m', users, all[j]) {
      if j < k { assert Done(m, users, all[..k][j]); }
    }
  }

  /** Neither generateSwapPhi nor generateBoolPhi is chosen. */
  predicate Normal(all: seq<PhiPlace>, x: PhiPlace) {
    |x.phi.ops| == 2 && !IsSwap(all, x) && x.pred0 != x.pred1 && x.pred0 != x.bb && x.pred1 != x.bb
  }

  // ---- what the copies of a method do ----

  predicate DistinctPhis(all: seq<PhiPlace>) { forall j, k :: 0 <= j < k < |all| ==> all[j].phi.node != all[k].phi.node }

  /** Block `pred` has one successor with phis, which is `bb`, and it is the i-th predecessor of that; splitting critical
      edges sees to it. */
  predicate LeadsTo(all: seq<PhiPlace>, pred: BasicBlock, bb: BasicBlock, i: nat) {
    forall k :: 0 <= k < |all| ==>
      if all[k].bb == bb then if i == 0 then all[k].pred0 == pred else all[k].pred0 != pred && all[k].pred1 == pred
      else all[k].pred0 != pred && all[k].pred1 != pred
  }

  lemma {:induction false} EndAppend(m: Slots, a: seq<PhiNode>, x: PhiNode, i: nat)
    requires i < |x.ops| && forall k :: 0 <= k < |a| ==> i < |a[k].ops|
    ensures EndCopies(m, a + [x], i) == EndCopies(m, a, i) + EndCopy(m, x, i)
    decreases |a|
  {
    if a == [] {
      assert [x][1..] == [] && a + [x] == [x];
    } else {
      EndAppend(m, a[1..], x, i);
      assert (a + [x])[1..] == a[1..] + [x];
      Splice(EndCopy(m, a[0], i), EndCopies(m, a[1..], i), EndCopy(m, x, i));
    }
  }

  lemma {:induction false} PhisAreThere(all: seq<PhiPlace>, bb: BasicBlock, k: nat) returns (q: nat)
    requires k < |PhisOf(all, bb)|
    ensures q < |all| && all[q].bb == bb && all[q].phi == PhisOf(all, bb)[k]
    decreases |all|
  {
    var a := all[..|all|-1];
    if k < |PhisOf(a, bb)| {
      q := PhisAreThere(a, bb, k);
    } else {
      q := |all| - 1;
    }
  }

  lemma {:induction false} PhisDistinct(all: seq<PhiPlace>, bb: BasicBlock)
    requires DistinctPhis(all)
    ensures Distinct(PhisOf(all, bb))
    decreases |all|
  {
    if all != [] {
      var a := all[..|all|-1];
      PhisDistinct(a, bb);
      forall j | 0 <= j < |PhisOf(a, bb)| ensures PhisOf(a, bb)[j].node != all[|all|-1].phi.node {
        var q := PhisAreThere(a, bb, j);
        assert all[q] == a[q];
      }
    }
  }

  /** At the end of a predecessor are the copies of the phis of its successor and no others. */
  lemma {:induction false} EndsAreCopies(m: Slots, all: seq<PhiPlace>, bb: BasicBlock, pred: BasicBlock, i: nat)
    requires TwoEach(all) && LeadsTo(all, pred, bb, i) && i < 2
    ensures (forall k :: 0 <= k < |PhisOf(all, bb)| ==> |PhisOf(all, bb)[k].ops| == 2)
    ensures EndsIn(m, all, pred) == EndCopies(m, PhisOf(all, bb), i)
    decreases |all|
  {
    if all != [] {
      var a, z := all[..|all|-1], all[|all|-1];
      EndsAreCopies(m, a, bb, pred, i);
      assert EndsIn(m, all, pred) == EndsIn(m, a, pred) + EndsOf(m, z, pred);
      if z.bb == bb {
        EndAppend(m, PhisOf(a, bb), z.phi, i);
        assert PhisOf(all, bb) == PhisOf(a, bb) + [z.phi];
      } else {
        assert PhisOf(all, bb) == PhisOf(a, bb) + [];
        assert PhisOf(a, bb) + [] == PhisOf(a, bb) && EndsIn(m, a, pred) + [] == EndsIn(m, a, pred);
      }
    }
  }

  /** Exactly the phis that other phis read are saved, each at the start of its own block. */
  lemma {:induction false} SavedExactly(all: seq<PhiPlace>, users: seq<PhiPlace>, bb: BasicBlock, n: Node)
    ensures n in SavedIn(all, users, bb) <==> PhiUsed(users, n) && HasPhi(all, bb, n)
    decreases |all|
  {
    if all != [] {
      var a, z := all[..|all|-1], all[|all|-1];
      SavedExactly(a, users, bb, n);
      AnyLast(all, bb, n);
      var saved := SavedIn(a, users, bb);
      if z.bb == bb && PhiUsed(users, z.phi.node) {
        assert n in saved + [z.phi.node] <==> n in saved || n == z.phi.node;
        assert SavedIn(all, users, bb) == saved + [z.phi.node];
      } else {
        assert SavedIn(all, users, bb) == saved + [];
        assert n in SavedIn(all, users, bb) <==> n in saved;
        assert IsPhiOf(z, bb, n) ==> !PhiUsed(users, n);
      }
    }
  }

  lemma AnyLast(all: seq<PhiPlace>, bb: BasicBlock, n: Node)
    requires all != []
    ensures var a := all[..|all|-1];
      HasPhi(all, bb, n) <==> HasPhi(a, bb, n) || IsPhiOf(all[|all|-1], bb, n)
  {
    var a := all[..|all|-1];
    if q :| 0 <= q < |all| && IsPhiOf(all[q], bb, n) {
      assert q < |a| ==> IsPhiOf(a[q], bb, n);
    }
    if q :| 0 <= q < |a| && IsPhiOf(a[q], bb, n) {
      assert IsPhiOf(all[q], bb, n);
    }
  }

  predicate HasPhi(all: seq<PhiPlace>, bb: BasicBlock, n: Node) { exists q :: 0 <= q < |all| && IsPhiOf(all[q], bb, n) }

  predicate IsPhiOf(x: PhiPlace, bb: BasicBlock, n: Node) { x.bb == bb && x.phi.node == n }

  lemma {:induction false} SavedDistinct(all: seq<PhiPlace>, users: seq<PhiPlace>, bb: BasicBlock)
    requires DistinctPhis(all)
    ensures forall j, k :: 0 <= j < k < |SavedIn(all, users, bb)| ==> SavedIn(all, users, bb)[j] != SavedIn(all, users, bb)[k]
    decreases |all|
  {
    if all != [] {
      var a, z := all[..|all|-1], all[|all|-1];
      SavedDistinct(a, users, bb);
      SavedExactly(a, users, bb, z.phi.node);
      assert forall q :: 0 <= q < |a| ==> a[q] == all[q];
    }
  }

  /** The phis of a finished method: places for all, and none a parameter or a conversion. */
  ghost predicate Finished(m: Slots, o: Owners, all: seq<PhiPlace>) {
    && Managed(m, o) && AllDone(m, all, all) && DistinctPhis(all)
    && forall k :: 0 <= k < |all| ==> OwnsSlot(o, all[k].phi.node)
  }

  lemma SavedInApart(m: Slots, o: Owners, all: seq<PhiPlace>, bb: BasicBlock)
    requires Finished(m, o, all)
    ensures SavedApart(m, SavedIn(all, all, bb))
  {
    var saved := SavedIn(all, all, bb);
    SavedDistinct(all, all, bb);
    forall k | 0 <= k < |saved| ensures OwnsSlot(o, saved[k]) && saved[k] in m.tmp {
      SavedExactly(all, all, bb, saved[k]);
      var q :| 0 <= q < |all| && IsPhiOf(all[q], bb, saved[k]);
      assert Done(m, all, all[q]);
    }
    ManagedSavedApart(m, o, saved);
  }

  lemma PhisOfApart(m: Slots, o: Owners, all: seq<PhiPlace>, bb: BasicBlock, i: nat)
    requires Finished(m, o, all) && i < 2 && NoneConverted(o, PhisOf(all, bb), i)
    ensures Apart(m, PhisOf(all, bb), i)
  {
    var phis := PhisOf(all, bb);
    PhisDistinct(all, bb);
    forall k | 0 <= k < |phis| ensures i < |phis[k].ops| && OwnsSlot(o, phis[k].node) && HasPlaces(m, phis[k]) {
      var q := PhisAreThere(all, bb, k);
      assert Done(m, all, all[q]);
    }
    ManagedSlotsApart(m, o, phis, i);
  }

  /** The instructions executed so far lead through the start of the block of phi `n`, and none since wrote its slots. */
  ghost predicate PassesStart(m: Slots, all: seq<PhiPlace>, path: seq<Instr>, n: Node) {
    exists q: nat, pre, post :: PassesAt(m, all, path, n, q, pre, post)
  }

  ghost predicate PassesAt(m: Slots, all: seq<PhiPlace>, path: seq<Instr>, n: Node, q: nat, pre: seq<Instr>, post: seq<Instr>) {
    && q < |all| && all[q].phi.node == n && path == pre + StartCopies(m, SavedIn(all, all, all[q].bb)) + post
    && Straight(pre) && Spares(post, StackOp(m, n)) && Spares(post, TmpOp(m, n))
  }

  lemma PassedFilled(m: Slots, o: Owners, all: seq<PhiPlace>, path: seq<Instr>, n: Node)
    requires Finished(m, o, all) && PhiUsed(all, n) && PassesStart(m, all, path, n)
    ensures exists pre, saved, post :: FilledOn(m, path, n, pre, saved, post)
  {
    var q: nat, pre, post :| PassesAt(m, all, path, n, q, pre, post);
    SavedInApart(m, o, all, all[q].bb);
    SavedExactly(all, all, all[q].bb, n);
    assert FilledOn(m, path, n, pre, SavedIn(all, all, all[q].bb), post);
  }

  ghost predicate OperandsSaved(m: Slots, all: seq<PhiPlace>, path: seq<Instr>, phis: seq<PhiNode>, i: nat) {
    forall j :: 0 <= j < |phis| && i < |phis[j].ops| && phis[j].ops[i].PhiOp? ==> PassesStart(m, all, path, phis[j].ops[i].phi)
  }

  /** Main result: with the copies that visiting all phis generates, each phi of a block has, at the end of a predecessor,
      the value its operand had before the first copy. */
  lemma GeneratedPhisAssign(p: Cpu, m: Slots, o: Owners, all: seq<PhiPlace>, bb: BasicBlock, pred: BasicBlock, i: nat,
      path: seq<Instr>, s: State, k: nat)
    requires Finished(m, o, all) && i < 2 && LeadsTo(all, pred, bb, i) && NoneConverted(o, PhisOf(all, bb), i)
    requires k < |PhisOf(all, bb)| && OperandsSaved(m, all, path, PhisOf(all, bb), i)
    ensures var t, phi := Exec(p, path, s), PhisOf(all, bb)[k];
      && TwoEach(all) && |phi.ops| == 2
      && Load(Exec(p, EndsIn(m, all, pred), t), StackOp(m, phi.node)) == ValueOf(m, t, phi.ops[i])
  {
    var phis := PhisOf(all, bb);
    assert forall j :: 0 <= j < |all| ==> Done(m, all, all[j]);
    EndsAreCopies(m, all, bb, pred, i);
    PhisOfApart(m, o, all, bb, i);
    forall j | 0 <= j < |phis| && i < |phis[j].ops| && phis[j].ops[i].PhiOp?
      ensures exists pre, saved, post :: FilledOn(m, path, phis[j].ops[i].phi, pre, saved, post)
    {
      var q := PhisAreThere(all, bb, j);
      assert PhiOp(phis[j].ops[i].phi) in all[q].phi.ops;
      PassedFilled(m, o, all, path, phis[j].ops[i].phi);
    }
    PhisAssignAfterPath(p, m, path, phis, i, s, k);
  }

  // ---- generating the copies ----

  class PhiGenerator {
    const ssm: StackSlotManager

    constructor (ssm: StackSlotManager)
      ensures this.ssm == ssm
    {
      this.ssm := ssm;
    }

    ghost function Now(): Slots
      reads this, ssm
    {
      Slots(ssm.offsets, ssm.tmpSlots)
    }

    /** Where the operand of a phi is read. */
    method SourceOp(op: Operand) returns (srcOp: Op)
      requires ssm.Valid()
      modifies ssm
      ensures ssm.Valid() && ssm.Kept() && HasPlace(Now(), op) && srcOp == Source(Now(), op)
    {
      match op {
        case PhiOp(n) =>
          var tmp := ssm.GetTmpSlot(n);
          srcOp := Ind(BP, tmp);
        case NodeOp(n) =>
          var slot := ssm.GetStackSlot(n);
          srcOp := Ind(BP, slot);
        case ConstOp(v) =>
          srcOp := Imm(v);
      }
    }

    /** One copy at the end of predecessor `i`. */
    method GenerateEndCopy(phi: PhiNode, i: nat, predBB: BasicBlock)
      requires ssm.Valid() && i < |phi.ops|
      modifies ssm, predBB`phiInstrs
      ensures ssm.Valid() && ssm.Kept() && phi.node in ssm.offsets
      ensures predBB.phiInstrs == old(predBB.phiInstrs) + EndCopy(Now(), phi, i)
      ensures HasPlace(Now(), phi.ops[i])
    {
      var srcOp := SourceOp(phi.ops[i]);
      ghost var m, before := Now(), predBB.phiInstrs;
      var list := predBB.phiInstrs;
      var read := srcOp;
      if !srcOp.Imm? {
        list := list + [Instr(Movq, srcOp, RegOp(R15))];
        read := RegOp(R15);
      }
      var slot := ssm.GetStackSlot(phi.node);
      list := list + [Instr(Movq, read, Ind(BP, slot))];
      SourceSame(m, Now(), phi.ops[i]);
      assert list == before + EndCopy(Now(), phi, i);
      predBB.phiInstrs := list;
    }

    method GenerateStartCopy(phi: PhiNode, bb: BasicBlock)
      requires ssm.Valid()
      modifies ssm, bb`startPhiInstrs
      ensures ssm.Valid() && ssm.Kept() && phi.node in ssm.offsets && phi.node in ssm.tmpSlots
      ensures bb.startPhiInstrs == old(bb.startPhiInstrs) + StartCopy(Now(), phi.node)
    {
      var slot := ssm.GetStackSlot(phi.node);
      var tmp := ssm.GetTmpSlot(phi.node);
      bb.startPhiInstrs := bb.startPhiInstrs + [Instr(Movq, Ind(BP, slot), RegOp(BX)), Instr(Movq, RegOp(BX), Ind(BP, tmp))];
    }

    method GenerateNormalPhi(phi: PhiNode, writeInTmpSlot: bool, bb: BasicBlock, pred0: BasicBlock, pred1: BasicBlock)
      requires ssm.Valid() && |phi.ops| == 2 && pred0 != pred1 && pred0 != bb && pred1 != bb
      modifies ssm, bb`startPhiInstrs, pred0`phiInstrs, pred1`phiInstrs
      ensures ssm.Valid() && ssm.Kept() && HasPlaces(Now(), phi) && (writeInTmpSlot ==> phi.node in ssm.tmpSlots)
      ensures bb.startPhiInstrs == old(bb.startPhiInstrs) + if writeInTmpSlot then StartCopy(Now(), phi.node) else []
      ensures pred0.phiInstrs == old(pred0.phiInstrs) + EndCopy(Now(), phi, 0)
      ensures pred1.phiInstrs == old(pred1.phiInstrs) + EndCopy(Now(), phi, 1)
    {
      if writeInTmpSlot {
        GenerateStartCopy(phi, bb);
      }
      ghost var m0 := Now();
      GenerateEndCopy(phi, 0, pred0);
      ghost var m1 := Now();
      GenerateEndCopy(phi, 1, pred1);
      if writeInTmpSlot { StartCopySame(m0, Now(), phi.node); }
      EndCopySame(m1, Now(), phi, 0);
      BothPlaces(m1, Now(), phi);
    }

    /** Is some user of the node a phi? */
    method UsedByPhi(all: seq<PhiPlace>, n: Node) returns (used: bool)
      ensures used <==> PhiUsed(all, n)
    {
      var k := 0;
      while k < |all|
        invariant 0 <= k <= |all| && forall j :: 0 <= j < k ==> PhiOp(n) !in all[j].phi.ops
      {
        if PhiOp(n) in all[k].phi.ops {
          return true;
        }
        k := k + 1;
      }
      used := false;
    }

    /** visitPhi, where it comes to generateNormalPhi. */
    method VisitPhi(all: seq<PhiPlace>, x: PhiPlace, ghost blocks: set<BasicBlock>)
      requires ssm.Valid() && Normal(all, x) && {x.bb, x.pred0, x.pred1} <= blocks
      modifies ssm, blocks`startPhiInstrs, blocks`phiInstrs
      ensures ssm.Valid() && ssm.Kept() && Done(Now(), all, x)
      ensures forall bb :: bb in blocks ==> bb.startPhiInstrs == old(bb.startPhiInstrs) + StartOf(Now(), all, x, bb)
      ensures forall bb :: bb in blocks ==> bb.phiInstrs == old(bb.phiInstrs) + EndsOf(Now(), x, bb)
    {
      var writeInTmpSlot := UsedByPhi(all, x.phi.node);
      GenerateNormalPhi(x.phi, writeInTmpSlot, x.bb, x.pred0, x.pred1);
    }

    /** All phis of a method, one after the other: the start of every block saves the phis that other phis read, and
        the end of every block holds the copies of the phis behind it. */
    method VisitPhis(all: seq<PhiPlace>, ghost blocks: set<BasicBlock>)
      requires ssm.Valid() && forall k :: 0 <= k < |all| ==> Normal(all, all[k]) && {all[k].bb, all[k].pred0, all[k].pred1} <= blocks
      modifies ssm, blocks`startPhiInstrs, blocks`phiInstrs
      ensures ssm.Valid() && ssm.Kept() && AllDone(Now(), all, all)
      ensures forall bb :: bb in blocks ==> Filled(Now(), all, all, bb, old(bb.startPhiInstrs), old(bb.phiInstrs), bb.startPhiInstrs, bb.phiInstrs)
    {
      var k := 0;
      FilledNone(Now(), all);
      while k < |all|
        invariant 0 <= k <= |all| && ssm.Valid() && ssm.Kept() && AllDone(Now(), all, all[..k])
        invariant forall bb :: bb in blocks ==>
          Filled(Now(), all[..k], all, bb, old(bb.startPhiInstrs), old(bb.phiInstrs), bb.startPhiInstrs, bb.phiInstrs)
      {
        ghost var m := Now();
        label Before:
        VisitPhi(all, all[k], blocks);
        DoneLater(m, Now(), all, all, k);
        forall bb | bb in blocks
          ensures Filled(Now(), all[..k+1], all, bb, old(bb.startPhiInstrs), old(bb.phiInstrs), bb.startPhiInstrs, bb.phiInstrs)
        {
          OneMore(m, Now(), all, k, bb, old(bb.startPhiInstrs), old(bb.phiInstrs), old@Before(bb.startPhiInstrs), old@Before(bb.phiInstrs));
        }
        k := k + 1;
      }
      assert all[..k] == all;
    }
  }
}

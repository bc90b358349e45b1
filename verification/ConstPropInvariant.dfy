/** What every visit of the constant propagation keeps: a node that is not waiting on the worklist is consistent
    with its operands and with the marked edges. */
module ConstPropInvariant {
  import opened FirmGraph
  import opened ConstProp

  /** Label `a` allows every value that label `b` allows. */
  predicate Covers(a: Label, b: Label) { a == BadLabel || a == b || b == Unknown }

  predicate LabelsOf(g: Graph, link: seq<Label>) { |link| == |g.nodes| }

  /** `val` is a possible label of value node `n`, given the labels of its operands and the edges into its block. */
  ghost predicate Settles(g: Graph, link: seq<Label>, marks: map<Id, bool>, n: Id, val: Label)
    requires WellFormed(g) && LabelsOf(g, link) && n < |g.nodes|
  {
    var k := g.nodes[n].kind;
    assert WellFormedNode(g, n);
    match k
    case Const(v) => val == Known(v)
    case Arith(op, l, r, _) => assert l in Operands(k) && r in Operands(k); Covers(val, Transfer(op, link[l], link[r]))
    case Unary(op, x) => assert x in Operands(k); Covers(val, TransferUnary(op, link[x]))
    case Cmp(rel, l, r) => assert l in Operands(k) && r in Operands(k); Covers(val, TransferCmp(rel, link[l], link[r]))
    case Phi(ops) =>
      forall j :: 0 <= j < |ops| && !MarkedFalse(marks, Preds(g, g.nodes[n].block)[j]) ==>
        ops[j] < |link| && Covers(val, link[ops[j]])
    case ProjRes(p) => assert p in Operands(k); Covers(val, link[p])
    case _ => val == BadLabel
  }

  ghost predicate Settled(g: Graph, s: State, n: Id)
    requires WellFormed(g) && LabelsOf(g, s.link) && n < |g.nodes|
  {
    Settles(g, s.link, s.marks, n, s.link[n])
  }

  /** The block can be reached over an edge already marked as taken. */
  ghost predicate Live(g: Graph, marks: map<Id, bool>, b: Id) {
    b == g.startBlock || AnyTaken(marks, Preds(g, b))
  }

  ghost predicate EdgeSettled(g: Graph, s: State, c: Id)
    requires LabelsOf(g, s.link) && c < |g.nodes|
  {
    MayTake(g, s.link, c) && Live(g, s.marks, g.nodes[c].block) ==> MarkedTrue(s.marks, c)
  }

  /** The edge will be looked at again, directly or when its condition is visited. */
  predicate EdgeWaits(g: Graph, queue: seq<Id>, c: Id)
    requires c < |g.nodes|
  {
    c in queue || (g.nodes[c].kind.ProjX? && g.nodes[c].kind.cond in queue)
  }

  predicate ValueWaits(g: Graph, queue: seq<Id>, n: Id)
    requires n < |g.nodes|
  {
    n in queue && !Inert(g.nodes[n].kind)
  }

  ghost predicate ValuesKept(g: Graph, s: State)
    requires WellFormed(g) && LabelsOf(g, s.link)
  {
    forall n: Id :: n < |g.nodes| && IsValue(g.nodes[n].kind) ==> ValueWaits(g, s.queue, n) || Settled(g, s, n)
  }

  ghost predicate EdgesKept(g: Graph, s: State)
    requires LabelsOf(g, s.link)
  {
    forall c: Id :: c < |g.nodes| && IsControl(g.nodes[c].kind) ==> EdgeWaits(g, s.queue, c) || EdgeSettled(g, s, c)
  }

  /** Before the first control node is visited: no edge is marked, every control node waits, and the jump out of
      the start block is the first of them in the queue. */
  ghost predicate Untouched(g: Graph, s: State) {
    && s.marks == map[]
    && (forall c: Id :: c < |g.nodes| && IsControl(g.nodes[c].kind) ==> c in s.queue)
    && exists k: nat :: StartJmpFirst(g, s.queue, k)
  }

  ghost predicate StartJmpFirst(g: Graph, queue: seq<Id>, k: nat) {
    k < |queue| && queue[k] == g.startJmp
    && forall i :: 0 <= i < k ==> queue[i] < |g.nodes| && !IsControl(g.nodes[queue[i]].kind)
  }

  /** Only values get labels. */
  ghost predicate Quiet(g: Graph, link: seq<Label>)
    requires LabelsOf(g, link)
  {
    forall n: Id :: n < |g.nodes| && !IsValue(g.nodes[n].kind) ==> link[n] == BadLabel
  }

  ghost predicate Invariant(g: Graph, s: State) {
    && Fits(g, s) && Quiet(g, s.link)
    && ValuesKept(g, s)
    && EdgesKept(g, s)
    && (MarkedTrue(s.marks, g.startJmp) || Untouched(g, s))
  }

  /** The state right after `n` has been taken off the worklist. */
  ghost predicate Popped(g: Graph, s: State, n: Id) {
    && Fits(g, s) && n < |g.nodes|
    && (forall m: Id :: m < |g.nodes| && IsValue(g.nodes[m].kind) && (m != n || Inert(g.nodes[m].kind)) ==>
          ValueWaits(g, s.queue, m) || Settled(g, s, m))
    && (forall c: Id :: c < |g.nodes| && IsControl(g.nodes[c].kind) && c != n && !WaitsFor(g, c, n) ==>
          EdgeWaits(g, s.queue, c) || EdgeSettled(g, s, c))
  }

  predicate WaitsFor(g: Graph, c: Id, n: Id)
    requires c < |g.nodes|
  {
    g.nodes[c].kind.ProjX? && g.nodes[c].kind.cond == n
  }

  // ---- labels ----

  /** The loop of visitPhi covers every operand it does not skip. */
  lemma {:induction false} JoinCovers(link: seq<Label>, marks: map<Id, bool>, ops: seq<Id>, preds: seq<Id>, i: nat, val: Label)
    requires i <= |ops| == |preds| && forall q :: q in ops ==> q < |link|
    ensures var r := JoinFrom(link, marks, ops, preds, i, val);
      Covers(r, val) && forall j :: i <= j < |ops| && !MarkedFalse(marks, preds[j]) ==> ops[j] < |link| && Covers(r, link[ops[j]])
    decreases |ops| - i
  {
    forall j | i <= j < |ops| ensures ops[j] < |link| { assert ops[j] in ops; }
    if i < |ops| {
      if MarkedFalse(marks, preds[i]) {
        JoinCovers(link, marks, ops, preds, i + 1, val);
      } else {
        var p := link[ops[i]];
        if val == BadLabel || p == BadLabel {
        } else if val == Unknown {
          JoinCovers(link, marks, ops, preds, i + 1, p);
        } else if p == Unknown || val == p {
          JoinCovers(link, marks, ops, preds, i + 1, val);
        }
      }
    }
  }

  /** Only operands and edge marks matter, and fewer edges to respect are easier to respect. */
  lemma SettlesFrame(g: Graph, link: seq<Label>, marks: map<Id, bool>, link': seq<Label>, marks': map<Id, bool>, n: Id, val: Label)
    requires WellFormed(g) && LabelsOf(g, link) && LabelsOf(g, link') && n < |g.nodes|
    requires forall q: Id :: Uses(g, n, q) && q < |link| ==> link[q] == link'[q]
    requires g.nodes[n].kind.Phi? ==>
      forall p :: p in Preds(g, g.nodes[n].block) && MarkedFalse(marks, p) ==> MarkedFalse(marks', p)
    requires Settles(g, link, marks, n, val)
    ensures Settles(g, link', marks', n, val)
  {
    assert WellFormedNode(g, n);
    var k := g.nodes[n].kind;
    if k.Phi? {
      var preds := Preds(g, g.nodes[n].block);
      forall j | 0 <= j < |k.ops| && !MarkedFalse(marks', preds[j]) ensures k.ops[j] < |link'| && Covers(val, link'[k.ops[j]]) {
        assert preds[j] in preds && k.ops[j] in Operands(k);
        assert Uses(g, n, k.ops[j]);
      }
    } else if k.Arith? {
      assert Uses(g, n, k.left) && Uses(g, n, k.right);
    } else if k.Unary? {
      assert Uses(g, n, k.operand);
    } else if k.Cmp? {
      assert Uses(g, n, k.cleft) && Uses(g, n, k.cright);
    } else if k.ProjRes? {
      assert Uses(g, n, k.pred);
    }
  }

  /** Relabelling a node and queueing its users keeps the invariant. */
  lemma SetLinkKeeps(g: Graph, s: State, n: Id, val: Label)
    requires Popped(g, s, n)
    requires IsValue(g.nodes[n].kind) ==> Settles(g, s.link, s.marks, n, val)
    requires forall c: Id :: c < |g.nodes| && IsControl(g.nodes[c].kind) && (c == n || WaitsFor(g, c, n)) ==>
               EdgeWaits(g, s.queue, c) || EdgeSettled(g, s, c)
    ensures var t := SetLink(g, s, n, val); Fits(g, t) && ValuesKept(g, t) && EdgesKept(g, t)
  {
    var t := SetLink(g, s, n, val);
    forall m: Id | m < |g.nodes| && IsValue(g.nodes[m].kind) ensures ValueWaits(g, t.queue, m) || Settled(g, t, m) {
      if m !in t.queue {
        if Uses(g, m, n) {
          assert t == s;
        } else {
          SettlesFrame(g, s.link, s.marks, t.link, t.marks, m, t.link[m]);
        }
      }
    }
    forall c: Id | c < |g.nodes| && IsControl(g.nodes[c].kind) ensures EdgeWaits(g, t.queue, c) || EdgeSettled(g, t, c) {
      if !EdgeWaits(g, t.queue, c) && t != s {
        SelectorWatched(g, s, c, n, val);
      }
    }
  }

  /** An edge whose condition hangs on `n` is reached through the users of `n`. */
  lemma SelectorWatched(g: Graph, s: State, c: Id, n: Id, val: Label)
    requires Fits(g, s) && n < |g.nodes| && c < |g.nodes| && IsControl(g.nodes[c].kind)
    requires g.nodes[c].kind.ProjX? ==> g.nodes[c].kind.cond !in g.outs[n]
    ensures MayTake(g, s.link[n := val], c) == MayTake(g, s.link, c)
  {
    assert WellFormedNode(g, c);
    if g.nodes[c].kind.ProjX? {
      var cond := g.nodes[c].kind.cond;
      assert WellFormedNode(g, cond);
      assert Uses(g, cond, g.nodes[cond].kind.selector);
    }
  }

  // ---- the single visits ----

  lemma NewLabelSettles(g: Graph, s: State, n: Id)
    requires Fits(g, s) && n < |g.nodes| && IsValue(g.nodes[n].kind) && !Inert(g.nodes[n].kind)
    ensures Settles(g, s.link, s.marks, n, NewLabel(g, s, n))
  {
    assert WellFormedNode(g, n);
    var k := g.nodes[n].kind;
    if k.Phi? {
      JoinCovers(s.link, s.marks, k.ops, Preds(g, g.nodes[n].block), 0, Unknown);
    }
  }

  lemma ValueVisitKeeps(g: Graph, s: State, n: Id)
    requires Popped(g, s, n) && IsValue(g.nodes[n].kind) && !Inert(g.nodes[n].kind)
    ensures var t := VisitNode(g, s, n); Fits(g, t) && ValuesKept(g, t) && EdgesKept(g, t)
    ensures var t := VisitNode(g, s, n); t.marks == s.marks && s.queue <= t.queue
  {
    forall c: Id | c < |g.nodes| && IsControl(g.nodes[c].kind) ensures !WaitsFor(g, c, n) {
      assert WellFormedNode(g, c);
    }
    NewLabelSettles(g, s, n);
    SetLinkKeeps(g, s, n, NewLabel(g, s, n));
  }

  lemma {:induction false} WokenHas(g: Graph, members: seq<Id>, m: Id)
    requires m in members && m < |g.nodes| && (IsModeX(g.nodes[m].kind) || g.nodes[m].kind.Phi?)
    ensures m in Woken(g, members)
  {
    if members[0] != m {
      WokenHas(g, members[1..], m);
    }
  }

  lemma {:induction false} WokenInHas(g: Graph, targets: seq<Id>, b: Id, m: Id)
    requires b in targets && b < |g.outs| && m in g.outs[b] && m < |g.nodes|
    requires IsModeX(g.nodes[m].kind) || g.nodes[m].kind.Phi?
    ensures m in WokenIn(g, targets)
  {
    WokenHas(g, g.outs[b], m);
    if targets[0] != b {
      WokenInHas(g, targets[1..], b, m);
    }
  }

  lemma {:induction false} WokenFits(g: Graph, members: seq<Id>)
    ensures forall n :: n in Woken(g, members) ==> n < |g.nodes|
  {
    if members != [] {
      WokenFits(g, members[1..]);
    }
  }

  lemma {:induction false} WokenInFits(g: Graph, targets: seq<Id>)
    ensures forall n :: n in WokenIn(g, targets) ==> n < |g.nodes|
  {
    if targets != [] {
      if targets[0] < |g.outs| {
        WokenFits(g, g.outs[targets[0]]);
      }
      WokenInFits(g, targets[1..]);
    }
  }

  /** A phi or control node of a block entered over `c` is woken. */
  lemma TargetsWoken(g: Graph, c: Id, m: Id)
    requires WellFormed(g) && c < |g.nodes| && m < |g.nodes|
    requires c in Preds(g, g.nodes[m].block) && (IsControl(g.nodes[m].kind) || g.nodes[m].kind.Phi?)
    ensures m in WokenIn(g, g.outs[c])
  {
    var b := g.nodes[m].block;
    assert WellFormedNode(g, m);
    assert Uses(g, b, c);
    WokenInHas(g, g.outs[c], b, m);
  }

  /** No edge is marked before the jump out of the start block. */
  ghost predicate InOrder(g: Graph, s: State, c: Id) {
    MarkedTrue(s.marks, g.startJmp) || (c == g.startJmp && s.marks == map[] &&
      forall d: Id :: d < |g.nodes| && IsControl(g.nodes[d].kind) && d != c ==> d in s.queue)
  }

  /** What marking changes: only the mark of `c`, and the worklist only grows. */
  lemma MarkShape(g: Graph, s: State, c: Id, taken: bool)
    requires Fits(g, s) && c < |g.nodes| && IsControl(g.nodes[c].kind) && InOrder(g, s, c)
    requires c == g.startJmp ==> taken
    ensures var t := Mark(g, s, c, taken);
      && t.link == s.link && s.queue <= t.queue && MarkedTrue(t.marks, g.startJmp)
      && forall d: Id :: d != c ==> (d in t.marks <==> d in s.marks) && (d in s.marks ==> t.marks[d] == s.marks[d])
  {
    assert WellFormedNode(g, c);
    assert WellFormedNode(g, g.startJmp);
  }

  /** A new edge into a block wakes its phis and control nodes. */
  lemma MarkWakes(g: Graph, s: State, c: Id, taken: bool)
    requires Fits(g, s) && c < |g.nodes| && IsControl(g.nodes[c].kind) && (taken ==> !g.nodes[c].kind.Bad?)
    ensures var t := Mark(g, s, c, taken);
      && Fits(g, t)
      && (MarkedTrue(t.marks, c) && !MarkedTrue(s.marks, c) && c != g.startJmp ==>
            forall m :: m in WokenIn(g, g.outs[c]) ==> m in t.queue)
  {
    WokenInFits(g, g.outs[c]);
    assert WellFormedNode(g, c);
  }

  /** An edge that may be taken is marked, looked at again, or leaves a block that is not live. */
  lemma MarkSettles(g: Graph, s: State, c: Id)
    requires Fits(g, s) && c < |g.nodes| && IsControl(g.nodes[c].kind) && InOrder(g, s, c)
    ensures var t := Mark(g, s, c, true); MarkedTrue(t.marks, c) || c in t.queue || !Live(g, t.marks, g.nodes[c].block)
  {
    var b := g.nodes[c].block;
    var t := Mark(g, s, c, true);
    if AnyTaken(t.marks, Preds(g, b)) {
      var p :| p in Preds(g, b) && MarkedTrue(t.marks, p);
      assert p == c || MarkedTrue(s.marks, p);
    }
  }

  lemma {:induction false} MarkKeepsValues(g: Graph, s: State, c: Id, taken: bool)
    requires Popped(g, s, c) && IsControl(g.nodes[c].kind) && InOrder(g, s, c) && (c == g.startJmp ==> taken)
    requires taken ==> !g.nodes[c].kind.Bad?
    ensures var t := Mark(g, s, c, taken); Fits(g, t) && ValuesKept(g, t)
  {
    var t := Mark(g, s, c, taken);
    MarkShape(g, s, c, taken);
    MarkWakes(g, s, c, taken);
    forall m: Id | m < |g.nodes| && IsValue(g.nodes[m].kind) ensures ValueWaits(g, t.queue, m) || Settled(g, t, m) {
      if !ValueWaits(g, t.queue, m) {
        if g.nodes[m].kind.Phi? && MarkedFalse(s.marks, c) && MarkedTrue(t.marks, c) && c in Preds(g, g.nodes[m].block) {
          TargetsWoken(g, c, m);
        } else {
          SettlesFrame(g, s.link, s.marks, t.link, t.marks, m, t.link[m]);
        }
      }
    }
  }

  lemma {:induction false} MarkKeepsEdges(g: Graph, s: State, c: Id, taken: bool)
    requires Popped(g, s, c) && IsControl(g.nodes[c].kind) && InOrder(g, s, c) && taken == MayTake(g, s.link, c)
    ensures var t := Mark(g, s, c, taken); Fits(g, t) && EdgesKept(g, t)
  {
    var t := Mark(g, s, c, taken);
    assert WellFormedNode(g, g.startJmp);
    MarkShape(g, s, c, taken);
    MarkWakes(g, s, c, taken);
    if taken { MarkSettles(g, s, c); }
    forall d: Id | d < |g.nodes| && IsControl(g.nodes[d].kind) ensures EdgeWaits(g, t.queue, d) || EdgeSettled(g, t, d) {
      assert WellFormedNode(g, d);
      if d != c && !EdgeWaits(g, t.queue, d) {
        EdgeOtherwise(g, s, c, taken, d);
      }
    }
  }

  lemma EdgeOtherwise(g: Graph, s: State, c: Id, taken: bool, d: Id)
    requires Popped(g, s, c) && IsControl(g.nodes[c].kind) && InOrder(g, s, c) && taken == MayTake(g, s.link, c)
    requires d < |g.nodes| && IsControl(g.nodes[d].kind) && d != c
    requires c == g.startJmp ==> taken
    ensures var t := Mark(g, s, c, taken); EdgeWaits(g, t.queue, d) || EdgeSettled(g, t, d)
  {
    var t := Mark(g, s, c, taken);
    var b := g.nodes[d].block;
    MarkShape(g, s, c, taken);
    MarkWakes(g, s, c, taken);
    assert WellFormedNode(g, d);
    assert !WaitsFor(g, d, c);
    if MarkedTrue(t.marks, c) && !MarkedTrue(s.marks, c) {
      if c == g.startJmp {
        assert d in s.queue;
      } else if c in Preds(g, b) {
        TargetsWoken(g, c, d);
      } else {
        if Live(g, t.marks, b) { LiveFrame(g, s.marks, t.marks, c, b); }
      }
    } else if Live(g, t.marks, b) {
      LiveFrame(g, s.marks, t.marks, c, b);
    }
  }

  lemma LiveFrame(g: Graph, marks: map<Id, bool>, marks': map<Id, bool>, c: Id, b: Id)
    requires forall d: Id :: d != c ==> (d in marks' <==> d in marks) && (d in marks ==> marks'[d] == marks[d])
    requires c !in Preds(g, b) || !MarkedTrue(marks', c) || MarkedTrue(marks, c)
    requires Live(g, marks', b)
    ensures Live(g, marks, b)
  {
    if b != g.startBlock {
      var p :| p in Preds(g, b) && MarkedTrue(marks', p);
      assert MarkedTrue(marks, p);
    }
  }

  lemma CondVisitKeeps(g: Graph, s: State, n: Id)
    requires Popped(g, s, n) && g.nodes[n].kind.Cond?
    ensures var t := VisitNode(g, s, n); Fits(g, t) && ValuesKept(g, t) && EdgesKept(g, t)
    ensures var t := VisitNode(g, s, n); t.marks == s.marks && s.queue <= t.queue
  {
    var t := VisitNode(g, s, n);
    forall c: Id | c < |g.nodes| && IsControl(g.nodes[c].kind) ensures EdgeWaits(g, t.queue, c) || EdgeSettled(g, t, c) {
      if WaitsFor(g, c, n) {
        assert Uses(g, c, n);
      }
    }
    forall m: Id | m < |g.nodes| && IsValue(g.nodes[m].kind) ensures ValueWaits(g, t.queue, m) || Settled(g, t, m) {
    }
  }

  lemma {:induction false} ControlVisitKeeps(g: Graph, s: State, n: Id)
    requires Popped(g, s, n) && IsControl(g.nodes[n].kind)
    requires InOrder(g, s, n)
    ensures var t := VisitNode(g, s, n); Fits(g, t) && ValuesKept(g, t) && EdgesKept(g, t) && MarkedTrue(t.marks, g.startJmp)
  {
    var k := g.nodes[n].kind;
    var taken := MayTake(g, s.link, n);
    assert WellFormedNode(g, g.startJmp);
    MarkShape(g, s, n, taken);
    MarkKeepsValues(g, s, n, taken);
    MarkKeepsEdges(g, s, n, taken);
    if k.ProjX? {
      assert WellFormedNode(g, n);
      SetLinkKeeps(g, Mark(g, s, n, MayTake(g, s.link, n)), n, s.link[k.cond]);
    }
  }

  // ---- one round of the driver ----

  /** Taking the front node off the worklist and visiting it (the loop of FunctionPass::run). */
  ghost function Round(g: Graph, s: State): State
    requires Fits(g, s) && s.queue != []
  {
    RestFits(g, s);
    VisitNode(g, s.(queue := s.queue[1..]), s.queue[0])
  }

  lemma RestFits(g: Graph, s: State)
    requires Fits(g, s) && s.queue != []
    ensures s.queue[0] < |g.nodes| && Fits(g, s.(queue := s.queue[1..]))
  {
    assert s.queue[0] in s.queue;
    forall n | n in s.queue[1..] ensures n < |g.nodes| { assert n in s.queue; }
  }

  lemma PopFront(g: Graph, s: State)
    requires Invariant(g, s) && s.queue != []
    ensures Popped(g, s.(queue := s.queue[1..]), s.queue[0])
  {
    var t := s.(queue := s.queue[1..]);
    RestFits(g, s);
    assert s.queue == [s.queue[0]] + t.queue;
    forall m: Id | m < |g.nodes| && IsValue(g.nodes[m].kind) && (m != s.queue[0] || Inert(g.nodes[m].kind)) ensures ValueWaits(g, t.queue, m) || Settled(g, t, m) {
    }
  }

  lemma UntouchedRound(g: Graph, s: State, t: State)
    requires Fits(g, s) && Untouched(g, s) && s.queue != [] && s.queue[0] < |g.nodes|
    requires !IsControl(g.nodes[s.queue[0]].kind) && t.marks == s.marks && s.queue[1..] <= t.queue
    ensures Untouched(g, t)
  {
    var k: nat :| StartJmpFirst(g, s.queue, k);
    assert s.queue == [s.queue[0]] + s.queue[1..];
    assert k > 0;
    forall i | 0 <= i < k - 1 ensures t.queue[i] == s.queue[i + 1] {
      assert t.queue[i] == s.queue[1..][i];
    }
    assert t.queue[k - 1] == s.queue[1..][k - 1] == s.queue[k];
    assert StartJmpFirst(g, t.queue, k - 1);
    forall c: Id | c < |g.nodes| && IsControl(g.nodes[c].kind) ensures c in t.queue {
      assert c in s.queue && c in s.queue[1..];
    }
  }

  lemma NewLabelQuiet(g: Graph, s: State, n: Id)
    requires Fits(g, s) && Quiet(g, s.link) && n < |g.nodes| && !IsValue(g.nodes[n].kind)
    ensures NewLabel(g, s, n) == BadLabel
  {
    assert WellFormedNode(g, n);
  }

  lemma VisitLinks(g: Graph, s: State, n: Id)
    requires Fits(g, s) && n < |g.nodes|
    ensures VisitNode(g, s, n).link == s.link || VisitNode(g, s, n).link == s.link[n := NewLabel(g, s, n)]
  {
  }

  lemma VisitQuiet(g: Graph, s: State, n: Id)
    requires Fits(g, s) && Quiet(g, s.link) && n < |g.nodes|
    ensures var t := VisitNode(g, s, n); |t.link| == |s.link| && Quiet(g, t.link)
  {
    if !IsValue(g.nodes[n].kind) { NewLabelQuiet(g, s, n); }
    VisitLinks(g, s, n);
  }

  /** Every round keeps the invariant. */
  lemma {:induction false} RoundKeeps(g: Graph, s: State)
    requires Invariant(g, s) && s.queue != []
    ensures Invariant(g, Round(g, s))
  {
    var n := s.queue[0];
    var p := s.(queue := s.queue[1..]);
    var t := Round(g, s);
    PopFront(g, s);
    VisitQuiet(g, p, n);
    var k := g.nodes[n].kind;
    assert WellFormedNode(g, n);
    if IsControl(k) {
      if !MarkedTrue(s.marks, g.startJmp) {
        var i: nat :| StartJmpFirst(g, s.queue, i);
        assert s.queue == [n] + p.queue;
      }
      ControlVisitKeeps(g, p, n);
    } else {
      if k.Cond? {
        CondVisitKeeps(g, p, n);
      } else if IsValue(k) && !Inert(k) {
        ValueVisitKeeps(g, p, n);
      } else {
        IdleVisitKeeps(g, s, n);
      }
      if !MarkedTrue(s.marks, g.startJmp) {
        UntouchedRound(g, s, t);
      }
    }
  }

  /** Nodes whose visit does nothing were consistent all along. */
  lemma IdleVisitKeeps(g: Graph, s: State, n: Id)
    requires Invariant(g, s) && s.queue != [] && n == s.queue[0] && n < |g.nodes|
    requires var k := g.nodes[n].kind;
      !IsControl(k) && !k.Cond? && (IsValue(k) ==> Inert(k))
    ensures var t := Round(g, s); Fits(g, t) && ValuesKept(g, t) && EdgesKept(g, t) && t.marks == s.marks && t.queue == s.queue[1..]
  {
    PopFront(g, s);
    forall c: Id | c < |g.nodes| && IsControl(g.nodes[c].kind) ensures !WaitsFor(g, c, n) {
      assert WellFormedNode(g, c);
    }
  }

  // ---- memory ----

  /** Memory is never a constant. */
  ghost predicate MemoryQuiet(g: Graph, link: seq<Label>) {
    forall n: Id :: n in g.memory && n < |link| ==> !link[n].Known?
  }

  lemma {:induction false} JoinQuiet(link: seq<Label>, marks: map<Id, bool>, ops: seq<Id>, preds: seq<Id>, i: nat, val: Label)
    requires i <= |ops| == |preds| && !val.Known? && forall q :: q in ops ==> q < |link| && !link[q].Known?
    ensures !JoinFrom(link, marks, ops, preds, i, val).Known?
    decreases |ops| - i
  {
    if i < |ops| {
      assert ops[i] in ops;
      JoinQuiet(link, marks, ops, preds, i + 1, val);
      JoinQuiet(link, marks, ops, preds, i + 1, link[ops[i]]);
    }
  }

  lemma MemoryLabel(g: Graph, s: State, n: Id)
    requires Fits(g, s) && MemoryTyped(g) && MemoryQuiet(g, s.link) && n < |g.nodes| && n in g.memory
    ensures !NewLabel(g, s, n).Known?
  {
    assert WellFormedNode(g, n);
    var k := g.nodes[n].kind;
    if k.Phi? {
      assert forall q :: q in k.ops ==> q in Operands(k);
      JoinQuiet(s.link, s.marks, k.ops, Preds(g, g.nodes[n].block), 0, Unknown);
    }
  }

  lemma RoundKeepsMemory(g: Graph, s: State)
    requires Fits(g, s) && s.queue != [] && MemoryTyped(g) && MemoryQuiet(g, s.link)
    ensures MemoryQuiet(g, Round(g, s).link)
  {
    RestFits(g, s);
    var p := s.(queue := s.queue[1..]);
    VisitLinks(g, p, s.queue[0]);
    if s.queue[0] in g.memory { MemoryLabel(g, p, s.queue[0]); }
  }
}

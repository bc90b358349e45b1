/** The substitution that constant propagation ends with (const_prop_pass.hpp) leaves exactly the same runs. */
module ConstPropSubst {
  import opened FirmGraph
  import opened ConstProp
  import opened ConstPropInvariant
  import opened ConstPropSound

  /** The label that decides a conditional edge; BadLabel for every other node. */
  function Decision(g: Graph, link: seq<Label>, c: Id): Label
    requires c < |g.nodes| && LabelsOf(g, link)
  {
    var k := g.nodes[c].kind;
    if k.ProjX? && k.cond < |g.nodes| && g.nodes[k.cond].kind.Cond? && g.nodes[k.cond].kind.selector < |g.nodes|
    then link[g.nodes[k.cond].kind.selector] else BadLabel
  }

  predicate Folded(g: Graph, link: seq<Label>, done: set<Id>, n: Id)
    requires LabelsOf(g, link)
  {
    n in done && n < |g.nodes| && !g.nodes[n].kind.Const? && link[n].Known?
  }

  /** What node `n` has become once the nodes of `done` have been through substituteNode. */
  function SubstKind(g: Graph, link: seq<Label>, done: set<Id>, n: Id): Kind
    requires n < |g.nodes| && LabelsOf(g, link)
  {
    var k := g.nodes[n].kind;
    if Folded(g, link, done, n) then Const(link[n].value)
    else if k.ProjMem? && Folded(g, link, done, k.pred) && IsMemop(g.nodes[k.pred].kind) then Copy(g.nodes[k.pred].kind.mem)
    else if n in done && Decision(g, link, n).Known? then
      if (Decision(g, link, n).value == Bool(true)) == k.onTrue then Jmp else Bad
    else k
  }

  function Substituted(g: Graph, link: seq<Label>, done: set<Id>): (h: Graph)
    requires LabelsOf(g, link)
    ensures |h.nodes| == |g.nodes|
    ensures forall n: Id :: n < |g.nodes| ==> h.nodes[n] == Node(SubstKind(g, link, done, n), g.nodes[n].block)
  {
    g.(nodes := seq(|g.nodes|, i requires 0 <= i < |g.nodes| => Node(SubstKind(g, link, done, i), g.nodes[i].block)))
  }

  // ---- every operand is computed on every path to its user ----

  ghost predicate IsPath(g: Graph, bs: seq<Id>, cs: seq<Id>) {
    && |bs| == |cs| + 1 && bs[0] == g.startBlock
    && forall k :: 0 <= k < |cs| ==> cs[k] < |g.nodes| && g.nodes[cs[k]].block == bs[k] && cs[k] in Preds(g, bs[k+1])
  }

  ghost predicate Dominates(g: Graph, d: Id, b: Id) {
    forall bs: seq<Id>, cs: seq<Id> :: IsPath(g, bs, cs) && bs[|cs|] == b ==> d in bs
  }

  ghost predicate NeedsAt(g: Graph, q: Id, n: Id) {
    q < |g.nodes| && n < |g.nodes| ==> Dominates(g, g.nodes[q].block, g.nodes[n].block)
  }

  /** The defining property of SSA form: the operands of a node dominate it, those of a phi the matching edge. */
  ghost predicate Dominated(g: Graph, n: Id)
    requires n < |g.nodes|
  {
    var k := g.nodes[n].kind;
    var b := g.nodes[n].block;
    if k.Phi? then
      forall j: nat :: j < |k.ops| && j < |Preds(g, b)| ==> NeedsAt(g, k.ops[j], Preds(g, b)[j])
    else if k.ProjX? then
      k.cond < |g.nodes| && g.nodes[k.cond].kind.Cond? ==> NeedsAt(g, g.nodes[k.cond].kind.selector, n)
    else
      IsValue(k) ==> forall q: Id :: q in Operands(k) ==> NeedsAt(g, q, n)
  }

  ghost predicate IsSsa(g: Graph) { forall n: Id :: n < |g.nodes| ==> Dominated(g, n) }

  // ---- original runs are runs of the new graph ----

  lemma InsideSame(g: Graph, s: State, done: set<Id>, n: Id, b: Id)
    requires Finished(g, s)
    ensures Inside(Substituted(g, s.link, done), n, b) == Inside(g, n, b)
  {
  }

  lemma NodeForward(g: Graph, s: State, done: set<Id>, before: Env, i: nat, n: Id, after: Env)
    requires Finished(g, s) && n < |g.nodes| && n in after && IsValue(g.nodes[n].kind)
    requires NodeExecutes(g, before, i, n, after) && Allows(s.link[n], after[n])
    ensures NodeExecutes(Substituted(g, s.link, done), before, i, n, after)
  {
    var h := Substituted(g, s.link, done);
    assert WellFormedNode(g, n);
  }

  /** What a decided edge has become. */
  lemma DecidedKind(g: Graph, s: State, done: set<Id>, c: Id)
    requires Finished(g, s) && c < |g.nodes| && g.nodes[c].kind.ProjX?
    ensures var k := g.nodes[c].kind; var l := Decision(g, s.link, c);
      && k.cond < |g.nodes| && g.nodes[k.cond].kind.Cond? && g.nodes[k.cond].kind.selector < |g.nodes|
      && l == s.link[g.nodes[k.cond].kind.selector]
      && SubstKind(g, s.link, done, k.cond) == g.nodes[k.cond].kind
      && SubstKind(g, s.link, done, c) ==
           if c in done && l.Known? then if (l.value == Bool(true)) == k.onTrue then Jmp else Bad else k
  {
    assert WellFormedNode(g, c);
    assert WellFormedNode(g, g.nodes[c].kind.cond);
  }

  lemma LeavesForward(g: Graph, s: State, done: set<Id>, env: Env, b: Id, c: Id)
    requires Finished(g, s) && EnvSound(s.link, env) && Leaves(g, env, b, c)
    ensures Leaves(Substituted(g, s.link, done), env, b, c)
  {
    if g.nodes[c].kind.ProjX? {
      DecidedKind(g, s, done, c);
    }
  }

  lemma ExecutesForward(g: Graph, s: State, done: set<Id>, before: Env, b: Id, i: nat, after: Env)
    requires Finished(g, s) && Executes(g, before, b, i, after) && EnvSound(s.link, after)
    ensures Executes(Substituted(g, s.link, done), before, b, i, after)
  {
    var h := Substituted(g, s.link, done);
    forall n: Id ensures Inside(h, n, b) == Inside(g, n, b) { InsideSame(g, s, done, n, b); }
    forall n: Id | Inside(h, n, b) ensures n in after && NodeExecutes(h, before, i, n, after) {
      assert Inside(g, n, b);
      NodeForward(g, s, done, before, i, n, after);
    }
  }

  lemma StepForward(g: Graph, s: State, done: set<Id>, v: Visit, c: Id, w: Visit)
    requires Finished(g, s) && VisitSound(g, s, v) && VisitSound(g, s, w) && StepsTo(g, v, c, w)
    ensures StepsTo(Substituted(g, s.link, done), v, c, w)
  {
    LeavesForward(g, s, done, v.env, v.block, c);
    EntersSame(g, s, done, c, w.block, w.entry);
    ExecutesForward(g, s, done, v.env, w.block, w.entry, w.env);
  }

  lemma StartForward(g: Graph, s: State, done: set<Id>, v: Visit)
    requires Finished(g, s) && VisitSound(g, s, v) && v.block == g.startBlock && Executes(g, map[], v.block, v.entry, v.env)
    ensures Executes(Substituted(g, s.link, done), map[], v.block, v.entry, v.env)
  {
    ExecutesForward(g, s, done, map[], v.block, v.entry, v.env);
  }

  lemma ForwardAt(g: Graph, s: State, done: set<Id>, vs: seq<Visit>, cs: seq<Id>, k: nat)
    requires Finished(g, s) && IsRun(g, vs, cs) && k < |cs|
    ensures StepsTo(Substituted(g, s.link, done), vs[k], cs[k], vs[k+1])
  {
    RunStep(g, vs, cs, k + 1);
    RunSound(g, s, vs, cs, k);
    RunSound(g, s, vs, cs, k + 1);
    StepForward(g, s, done, vs[k], cs[k], vs[k+1]);
  }

  lemma RunsForward(g: Graph, s: State, done: set<Id>, vs: seq<Visit>, cs: seq<Id>)
    requires Finished(g, s) && IsRun(g, vs, cs)
    ensures IsRun(Substituted(g, s.link, done), vs, cs)
  {
    var h := Substituted(g, s.link, done);
    RunStart(g, vs, cs);
    RunSound(g, s, vs, cs, 0);
    StartForward(g, s, done, vs[0]);
    forall k: nat | k < |cs| ensures StepsTo(h, vs[k], cs[k], vs[k+1]) {
      ForwardAt(g, s, done, vs, cs, k);
    }
  }

  lemma EntersSame(g: Graph, s: State, done: set<Id>, c: Id, b: Id, i: nat)
    requires Finished(g, s)
    ensures Enters(Substituted(g, s.link, done), c, b, i) == Enters(g, c, b, i)
  {
  }

  // ---- runs of the new graph are original runs ----

  /** Everything the nodes of block `b` need has been computed. */
  ghost predicate Ready(g: Graph, before: Env, b: Id, i: nat, after: Env) {
    forall n: Id :: Inside(g, n, b) ==> NodeReady(g.nodes[n].kind, before, i, after)
  }

  ghost predicate NodeReady(k: Kind, before: Env, i: nat, after: Env) {
    if k.Phi? then i < |k.ops| && k.ops[i] in before else forall q :: q in Operands(k) ==> q in after
  }

  /** A node that was folded had operands that compute its label. */
  lemma FoldedComputes(g: Graph, s: State, n: Id, env: Env)
    requires Finished(g, s) && n < |g.nodes| && IsValue(g.nodes[n].kind) && !g.nodes[n].kind.Phi? && s.link[n].Known?
    requires forall q :: q in Operands(g.nodes[n].kind) ==> q in env && q < |s.link| && Allows(s.link[q], env[q])
    ensures Computes(g.nodes[n].kind, env, s.link[n].value) && !g.nodes[n].kind.ProjMem?
    ensures var k := g.nodes[n].kind; k.ProjRes? ==> k.pred < |g.nodes| && ResultPasses(g, k, env, s.link[n].value)
  {
    assert WellFormedNode(g, n);
    AtRest(g, s);
    assert Settled(g, s, n);
    var k := g.nodes[n].kind;
    if k.Arith? {
      assert k.left in Operands(k) && k.right in Operands(k);
    } else if k.Unary? {
      assert k.operand in Operands(k);
    } else if k.Cmp? {
      assert k.cleft in Operands(k) && k.cright in Operands(k);
      CmpIsComparison(k.rel, env[k.cleft], env[k.cright]);
    } else if k.ProjRes? {
      assert k.pred in Operands(k);
    }
  }

  lemma FoldedPhi(g: Graph, s: State, n: Id, i: nat, before: Env)
    requires Finished(g, s) && n < |g.nodes| && g.nodes[n].kind.Phi? && s.link[n].Known?
    requires EnteredMarked(g, s, g.nodes[n].block, i) && EnvSound(s.link, before)
    requires i < |g.nodes[n].kind.ops| && g.nodes[n].kind.ops[i] in before
    ensures before[g.nodes[n].kind.ops[i]] == s.link[n].value
  {
    AtRest(g, s);
    assert Settled(g, s, n);
    PhiSound(g, s, n, i, before);
  }

  lemma PhiBackward(g: Graph, s: State, done: set<Id>, before: Env, i: nat, after: Env, n: Id)
    requires Finished(g, s) && EnvSound(s.link, before) && n < |g.nodes| && n in after && g.nodes[n].kind.Phi?
    requires EnteredMarked(g, s, g.nodes[n].block, i) && NodeReady(g.nodes[n].kind, before, i, after)
    requires NodeExecutes(Substituted(g, s.link, done), before, i, n, after)
    ensures NodeExecutes(g, before, i, n, after) && Allows(s.link[n], after[n])
  {
    AtRest(g, s);
    PhiSound(g, s, n, i, before);
    if s.link[n].Known? { FoldedPhi(g, s, n, i, before); }
  }

  lemma {:induction false} NodeBackward(g: Graph, s: State, done: set<Id>, before: Env, b: Id, i: nat, after: Env, n: Id)
    requires Finished(g, s) && EnvSound(s.link, before) && EnteredMarked(g, s, b, i) && Inside(g, n, b)
    requires Executes(Substituted(g, s.link, done), before, b, i, after) && Ready(g, before, b, i, after)
    ensures n in after && NodeExecutes(g, before, i, n, after) && Allows(s.link[n], after[n])
    decreases if n < |g.rank| then g.rank[n] else 0
  {
    var h := Substituted(g, s.link, done);
    var k := g.nodes[n].kind;
    InsideSame(g, s, done, n, b);
    assert NodeExecutes(h, before, i, n, after);
    assert WellFormedNode(g, n);
    assert NodeReady(k, before, i, after);
    if k.Phi? {
      PhiBackward(g, s, done, before, i, after, n);
    } else {
      forall q | q in Operands(k) ensures q < |s.link| && Allows(s.link[q], after[q]) {
        assert Uses(g, n, q);
        InsideSame(g, s, done, q, b);
        if Inside(g, q, b) {
          NodeBackward(g, s, done, before, b, i, after, q);
        }
      }
      NodeBackwardStep(g, s, done, before, i, after, n);
    }
  }

  /** How a value node runs in the new graph. */
  lemma ExecutedAsConst(g: Graph, s: State, done: set<Id>, before: Env, i: nat, after: Env, n: Id)
    requires LabelsOf(g, s.link) && n < |g.nodes| && n in after && Folded(g, s.link, done, n)
    requires NodeExecutes(Substituted(g, s.link, done), before, i, n, after)
    ensures after[n] == s.link[n].value
  {
  }

  lemma SameKindSameStep(g: Graph, h: Graph, before: Env, i: nat, after: Env, n: Id)
    requires n < |g.nodes| && n < |h.nodes| && n in after && NodeExecutes(h, before, i, n, after)
    requires g.nodes[n].kind == h.nodes[n].kind && !g.nodes[n].kind.ProjMem? && !g.nodes[n].kind.ProjRes?
    ensures NodeExecutes(g, before, i, n, after)
  {
  }

  lemma ProjectedAsBefore(g: Graph, s: State, done: set<Id>, before: Env, i: nat, after: Env, n: Id)
    requires Finished(g, s) && n < |g.nodes| && n in after && !Folded(g, s.link, done, n)
    requires (g.nodes[n].kind.ProjMem? || g.nodes[n].kind.ProjRes?) && g.nodes[n].kind.pred < |g.nodes|
    requires NodeExecutes(Substituted(g, s.link, done), before, i, n, after)
    ensures NodeExecutes(g, before, i, n, after)
  {
  }

  lemma ExecutedAsBefore(g: Graph, s: State, done: set<Id>, before: Env, i: nat, after: Env, n: Id)
    requires Finished(g, s) && n < |g.nodes| && n in after && IsValue(g.nodes[n].kind) && !Folded(g, s.link, done, n)
    requires NodeExecutes(Substituted(g, s.link, done), before, i, n, after)
    ensures NodeExecutes(g, before, i, n, after)
  {
    assert WellFormedNode(g, n);
    if g.nodes[n].kind.ProjMem? || g.nodes[n].kind.ProjRes? {
      ProjectedAsBefore(g, s, done, before, i, after, n);
    } else {
      SameKindSameStep(g, Substituted(g, s.link, done), before, i, after, n);
    }
  }

  lemma NodeBackwardStep(g: Graph, s: State, done: set<Id>, before: Env, i: nat, after: Env, n: Id)
    requires Finished(g, s) && n < |g.nodes| && n in after && IsValue(g.nodes[n].kind) && !g.nodes[n].kind.Phi?
    requires NodeExecutes(Substituted(g, s.link, done), before, i, n, after)
    requires forall q :: q in Operands(g.nodes[n].kind) ==> q in after && q < |s.link| && Allows(s.link[q], after[q])
    ensures NodeExecutes(g, before, i, n, after) && Allows(s.link[n], after[n])
  {
    if Folded(g, s.link, done, n) {
      ExecutedAsConst(g, s, done, before, i, after, n);
      FoldedComputes(g, s, n, after);
    } else {
      ExecutedAsBefore(g, s, done, before, i, after, n);
      AtRest(g, s);
      assert Settled(g, s, n);
      ComputedSound(g, s, n, after);
    }
  }

  ghost predicate CmpsAreBool(g: Graph, env: Env) {
    forall n: Id :: n in env && n < |g.nodes| && g.nodes[n].kind.Cmp? ==> env[n].Bool?
  }

  lemma ExecutesBackward(g: Graph, s: State, done: set<Id>, before: Env, b: Id, i: nat, after: Env)
    requires Finished(g, s) && EnvSound(s.link, before) && EnteredMarked(g, s, b, i)
    requires Executes(Substituted(g, s.link, done), before, b, i, after) && Ready(g, before, b, i, after)
    ensures Executes(g, before, b, i, after)
  {
    var h := Substituted(g, s.link, done);
    forall n: Id ensures Inside(h, n, b) == Inside(g, n, b) { InsideSame(g, s, done, n, b); }
    forall n: Id | Inside(g, n, b) ensures n in after && NodeExecutes(g, before, i, n, after) {
      NodeBackward(g, s, done, before, b, i, after, n);
    }
  }

  lemma CmpsStayBool(g: Graph, before: Env, b: Id, i: nat, after: Env)
    requires Executes(g, before, b, i, after) && CmpsAreBool(g, before)
    ensures CmpsAreBool(g, after)
  {
    forall n: Id | n in after && n < |g.nodes| && g.nodes[n].kind.Cmp? ensures after[n].Bool? {
      if Inside(g, n, b) {
        assert NodeExecutes(g, before, i, n, after);
      }
    }
  }

  lemma JumpStays(g: Graph, s: State, done: set<Id>, c: Id)
    requires Finished(g, s) && c < |g.nodes| && !g.nodes[c].kind.ProjX?
    ensures var k := SubstKind(g, s.link, done, c); (k.Jmp? ==> g.nodes[c].kind.Jmp?) && !k.ProjX?
  {
  }

  lemma LeavesBackward(g: Graph, s: State, done: set<Id>, env: Env, b: Id, c: Id)
    requires Finished(g, s) && EnvSound(s.link, env) && CmpsAreBool(g, env)
    requires Leaves(Substituted(g, s.link, done), env, b, c)
    requires Decision(g, s.link, c).Known? ==> g.nodes[g.nodes[c].kind.cond].kind.selector in env
    ensures Leaves(g, env, b, c)
  {
    if g.nodes[c].kind.ProjX? {
      DecidedKind(g, s, done, c);
      SelectorIsCmp(g, c);
    } else {
      JumpStays(g, s, done, c);
    }
  }

  lemma SelectorIsCmp(g: Graph, c: Id)
    requires WellFormed(g) && c < |g.nodes| && g.nodes[c].kind.ProjX?
    ensures var k := g.nodes[c].kind;
      && k.cond < |g.nodes| && g.nodes[k.cond].kind.Cond? && g.nodes[k.cond].kind.selector < |g.nodes|
      && g.nodes[g.nodes[k.cond].kind.selector].kind.Cmp?
  {
    assert WellFormedNode(g, c);
    assert WellFormedNode(g, g.nodes[c].kind.cond);
  }

  // ---- what a path has computed ----

  /** A visit together with the blocks entered and the edges crossed so far; every value of those blocks is known. */
  datatype Traced = Traced(visit: Visit, blocks: seq<Id>, edges: seq<Id>)

  ghost predicate TraceKept(g: Graph, t: Traced) {
    && IsPath(g, t.blocks, t.edges) && t.blocks[|t.edges|] == t.visit.block
    && forall n: Id, b: Id :: b in t.blocks && Inside(g, n, b) ==> n in t.visit.env
  }

  lemma TraceStep(g: Graph, t: Traced, c: Id, w: Visit)
    requires TraceKept(g, t) && c < |g.nodes| && g.nodes[c].block == t.visit.block && Enters(g, c, w.block, w.entry)
    requires forall n: Id :: n in w.env <==> n in t.visit.env || Inside(g, n, w.block)
    ensures TraceKept(g, Traced(w, t.blocks + [w.block], t.edges + [c]))
  {
    var bs, cs := t.blocks + [w.block], t.edges + [c];
    assert c in Preds(g, w.block);
    forall k | 0 <= k < |cs| ensures cs[k] < |g.nodes| && g.nodes[cs[k]].block == bs[k] && cs[k] in Preds(g, bs[k+1]) {
      if k == |t.edges| {
        assert bs[k] == t.blocks[k];
      } else {
        assert cs[k] == t.edges[k] && bs[k] == t.blocks[k] && bs[k+1] == t.blocks[k+1];
      }
    }
  }

  /** What must have been computed before `n` has been. */
  lemma NeedMet(g: Graph, t: Traced, q: Id, n: Id)
    requires TraceKept(g, t) && NeedsAt(g, q, n)
    requires q < |g.nodes| && n < |g.nodes| && g.nodes[n].block == t.visit.block && IsValue(g.nodes[q].kind)
    ensures q in t.visit.env
  {
    assert Dominates(g, g.nodes[q].block, t.visit.block);
    assert Inside(g, q, g.nodes[q].block);
  }

  lemma StepReady(g: Graph, t: Traced, c: Id, w: Visit)
    requires WellFormed(g) && IsSsa(g) && TraceKept(g, t)
    requires c < |g.nodes| && g.nodes[c].block == t.visit.block && Enters(g, c, w.block, w.entry)
    requires TraceKept(g, Traced(w, t.blocks + [w.block], t.edges + [c]))
    ensures Ready(g, t.visit.env, w.block, w.entry, w.env)
  {
    forall n: Id | Inside(g, n, w.block) ensures NodeReady(g.nodes[n].kind, t.visit.env, w.entry, w.env) {
      assert WellFormedNode(g, n) && Dominated(g, n);
      var k := g.nodes[n].kind;
      if k.Phi? {
        assert k.ops[w.entry] in Operands(k);
        NeedMet(g, t, k.ops[w.entry], c);
      } else {
        forall q: Id | q in Operands(k) ensures q in w.env {
          NeedMet(g, Traced(w, t.blocks + [w.block], t.edges + [c]), q, n);
        }
      }
    }
  }

  lemma StartReady(g: Graph, w: Visit)
    requires WellFormed(g) && IsSsa(g) && TraceKept(g, Traced(w, [g.startBlock], [])) && w.block == g.startBlock
    ensures Ready(g, map[], w.block, w.entry, w.env)
  {
    forall n: Id | Inside(g, n, w.block) ensures NodeReady(g.nodes[n].kind, map[], w.entry, w.env) {
      assert WellFormedNode(g, n) && Dominated(g, n);
      forall q: Id | q in Operands(g.nodes[n].kind) ensures q in w.env {
        NeedMet(g, Traced(w, [g.startBlock], []), q, n);
      }
    }
  }

  // ---- whole runs ----

  ghost predicate BackKept(g: Graph, s: State, t: Traced) {
    TraceKept(g, t) && VisitSound(g, s, t.visit) && CmpsAreBool(g, t.visit.env)
  }

  lemma SubstitutedInside(g: Graph, s: State, done: set<Id>, before: Env, b: Id, i: nat, after: Env)
    requires Finished(g, s) && Executes(Substituted(g, s.link, done), before, b, i, after)
    ensures forall n: Id :: n in after <==> n in before || Inside(g, n, b)
  {
    forall n: Id ensures Inside(Substituted(g, s.link, done), n, b) == Inside(g, n, b) { InsideSame(g, s, done, n, b); }
  }

  lemma StepBackward(g: Graph, s: State, done: set<Id>, t: Traced, c: Id, w: Visit)
    requires Finished(g, s) && IsSsa(g) && BackKept(g, s, t) && StepsTo(Substituted(g, s.link, done), t.visit, c, w)
    ensures StepsTo(g, t.visit, c, w) && BackKept(g, s, Traced(w, t.blocks + [w.block], t.edges + [c]))
  {
    var v := t.visit;
    EntersSame(g, s, done, c, w.block, w.entry);
    SubstitutedInside(g, s, done, v.env, w.block, w.entry, w.env);
    TraceStep(g, t, c, w);
    StepReady(g, t, c, w);
    SelectorReady(g, s, t, c);
    LeavesBackward(g, s, done, v.env, v.block, c);
    EdgeSound(g, s, v.env, v.block, c);
    ExecutesBackward(g, s, done, v.env, w.block, w.entry, w.env);
    CmpsStayBool(g, v.env, w.block, w.entry, w.env);
    StepSound(g, s, v, c, w);
  }

  lemma SelectorReady(g: Graph, s: State, t: Traced, c: Id)
    requires Finished(g, s) && IsSsa(g) && TraceKept(g, t) && c < |g.nodes| && g.nodes[c].block == t.visit.block
    ensures Decision(g, s.link, c).Known? ==> g.nodes[g.nodes[c].kind.cond].kind.selector in t.visit.env
  {
    if Decision(g, s.link, c).Known? {
      var cond := g.nodes[c].kind.cond;
      assert WellFormedNode(g, cond) && Dominated(g, c);
      NeedMet(g, t, g.nodes[cond].kind.selector, c);
    }
  }

  lemma StartBackward(g: Graph, s: State, done: set<Id>, w: Visit)
    requires Finished(g, s) && IsSsa(g) && w.block == g.startBlock
    requires Executes(Substituted(g, s.link, done), map[], w.block, w.entry, w.env)
    ensures Executes(g, map[], w.block, w.entry, w.env) && BackKept(g, s, Traced(w, [g.startBlock], []))
  {
    SubstitutedInside(g, s, done, map[], w.block, w.entry, w.env);
    StartReady(g, w);
    ExecutesBackward(g, s, done, map[], w.block, w.entry, w.env);
    CmpsStayBool(g, map[], w.block, w.entry, w.env);
    StartSound(g, s, w);
  }

  /** Some way to a visit keeps what is needed to go on. */
  ghost predicate Retraced(g: Graph, s: State, v: Visit) { exists bs, es :: BackKept(g, s, Traced(v, bs, es)) }

  lemma RetracedStep(g: Graph, s: State, done: set<Id>, v: Visit, c: Id, w: Visit)
    requires Finished(g, s) && IsSsa(g) && Retraced(g, s, v) && StepsTo(Substituted(g, s.link, done), v, c, w)
    ensures StepsTo(g, v, c, w) && Retraced(g, s, w)
  {
    var bs, es :| BackKept(g, s, Traced(v, bs, es));
    StepBackward(g, s, done, Traced(v, bs, es), c, w);
  }

  lemma RetracedRun(g: Graph, s: State, done: set<Id>, vs: seq<Visit>, cs: seq<Id>, k: nat)
    requires Finished(g, s) && IsSsa(g) && IsRun(Substituted(g, s.link, done), vs, cs) && k < |vs|
    ensures Retraced(g, s, vs[k])
    ensures Executes(g, map[], vs[0].block, vs[0].entry, vs[0].env) && vs[0].block == g.startBlock
  {
    var h := Substituted(g, s.link, done);
    RunStart(h, vs, cs);
    StartBackward(g, s, done, vs[0]);
    assert BackKept(g, s, Traced(vs[0], [g.startBlock], []));
    var p := v => Retraced(g, s, v);
    forall v, c: Id, w | p(v) && StepsTo(h, v, c, w) ensures p(w) {
      RetracedStep(g, s, done, v, c, w);
    }
    RunInduction(h, vs, cs, p, k);
  }

  lemma BackwardAt(g: Graph, s: State, done: set<Id>, vs: seq<Visit>, cs: seq<Id>, k: nat)
    requires Finished(g, s) && IsSsa(g) && IsRun(Substituted(g, s.link, done), vs, cs) && k < |cs|
    ensures StepsTo(g, vs[k], cs[k], vs[k+1])
  {
    RetracedRun(g, s, done, vs, cs, k);
    RunStep(Substituted(g, s.link, done), vs, cs, k + 1);
    RetracedStep(g, s, done, vs[k], cs[k], vs[k+1]);
  }

  lemma RunsBackward(g: Graph, s: State, done: set<Id>, vs: seq<Visit>, cs: seq<Id>)
    requires Finished(g, s) && IsSsa(g) && IsRun(Substituted(g, s.link, done), vs, cs)
    ensures IsRun(g, vs, cs)
  {
    RetracedRun(g, s, done, vs, cs, 0);
    forall k: nat | k < |cs| ensures StepsTo(g, vs[k], cs[k], vs[k+1]) {
      BackwardAt(g, s, done, vs, cs, k);
    }
  }

  /** Main result: whichever nodes have been through substituteNode, the graph has exactly the runs it had, with the
      same value for every node. */
  lemma SubstitutionKeepsRuns(g: Graph, s: State, done: set<Id>, vs: seq<Visit>, cs: seq<Id>)
    requires Finished(g, s) && IsSsa(g)
    ensures IsRun(Substituted(g, s.link, done), vs, cs) <==> IsRun(g, vs, cs)
  {
    if IsRun(g, vs, cs) {
      RunsForward(g, s, done, vs, cs);
    }
    if IsRun(Substituted(g, s.link, done), vs, cs) {
      RunsBackward(g, s, done, vs, cs);
    }
  }
}

/** What the labels and marks mean once the worklist is empty: soundness in every run, and the substitution of
    const_prop_pass.hpp leaving exactly the same runs. */
module ConstPropSound {
  import opened FirmGraph
  import opened ConstProp
  import opened ConstPropInvariant

  /** A label allows a value; tarval_unknown allows none. */
  predicate Allows(l: Label, v: Value) { l == BadLabel || l == Known(v) }

  /** The analysis has come to rest. */
  ghost predicate Finished(g: Graph, s: State) { Invariant(g, s) && s.queue == [] }

  ghost predicate EnvSound(link: seq<Label>, env: Env) {
    forall n: Id :: n in env ==> n < |link| && Allows(link[n], env[n])
  }

  lemma AtRest(g: Graph, s: State)
    requires Finished(g, s)
    ensures MarkedTrue(s.marks, g.startJmp)
    ensures forall n: Id :: n < |g.nodes| && IsValue(g.nodes[n].kind) ==> Settled(g, s, n)
    ensures forall c: Id :: c < |g.nodes| && IsControl(g.nodes[c].kind) ==> EdgeSettled(g, s, c)
  {
    assert forall n: Id :: n < |g.nodes| && IsValue(g.nodes[n].kind) ==> !ValueWaits(g, s.queue, n);
    assert forall c: Id :: c < |g.nodes| && IsControl(g.nodes[c].kind) ==> !EdgeWaits(g, s.queue, c);
  }

  // ---- soundness ----

  /** The edge over which a block is entered; the start block has none. */
  ghost predicate EnteredMarked(g: Graph, s: State, b: Id, i: nat) {
    b < |g.nodes| && g.nodes[b].kind.Block? &&
    (b == g.startBlock || (i < |g.nodes[b].kind.preds| && MarkedTrue(s.marks, g.nodes[b].kind.preds[i])))
  }

  /** Executing a node whose operands are labelled soundly. */
  lemma ComputedSound(g: Graph, s: State, n: Id, env: Env)
    requires Fits(g, s) && n < |g.nodes| && n in env && Settled(g, s, n)
    requires IsValue(g.nodes[n].kind) && !g.nodes[n].kind.Phi? && Computes(g.nodes[n].kind, env, env[n])
    requires var k := g.nodes[n].kind; k.ProjRes? ==> k.pred < |g.nodes| && ResultPasses(g, k, env, env[n]) && Settled(g, s, k.pred)
    requires forall q :: q in Operands(g.nodes[n].kind) && q in env ==> q < |s.link| && Allows(s.link[q], env[q])
    ensures Allows(s.link[n], env[n])
  {
    assert WellFormedNode(g, n);
    var k := g.nodes[n].kind;
    if k.Arith? {
      assert k.left in Operands(k) && k.right in Operands(k);
    } else if k.Unary? {
      assert k.operand in Operands(k);
    } else if k.Cmp? {
      assert k.cleft in Operands(k) && k.cright in Operands(k);
      CmpIsComparison(k.rel, env[k.cleft], env[k.cright]);
    } else if k.ProjRes? {
      assert k.pred in Operands(k);
    }
  }

  lemma PhiSound(g: Graph, s: State, n: Id, i: nat, before: Env)
    requires Fits(g, s) && n < |g.nodes| && Settled(g, s, n) && g.nodes[n].kind.Phi?
    requires EnteredMarked(g, s, g.nodes[n].block, i) && EnvSound(s.link, before)
    requires i < |g.nodes[n].kind.ops| && g.nodes[n].kind.ops[i] in before
    ensures Allows(s.link[n], before[g.nodes[n].kind.ops[i]])
  {
    assert WellFormedNode(g, n);
    assert !MarkedFalse(s.marks, Preds(g, g.nodes[n].block)[i]);
  }

  lemma {:induction false} NodeSound(g: Graph, s: State, before: Env, b: Id, i: nat, after: Env, n: Id)
    requires Finished(g, s) && EnvSound(s.link, before) && EnteredMarked(g, s, b, i)
    requires Executes(g, before, b, i, after) && n in after
    ensures n < |g.nodes| && Allows(s.link[n], after[n])
    decreases if n < |g.rank| then g.rank[n] else 0
  {
    if Inside(g, n, b) {
      AtRest(g, s);
      assert NodeExecutes(g, before, i, n, after);
      assert WellFormedNode(g, n);
      if g.nodes[n].kind.Phi? {
        PhiSound(g, s, n, i, before);
      } else {
        forall q | q in Operands(g.nodes[n].kind) && q in after ensures Allows(s.link[q], after[q]) {
          assert Uses(g, n, q);
          NodeSound(g, s, before, b, i, after, q);
        }
        ComputedSound(g, s, n, after);
      }
    }
  }

  /** A control edge that a run takes out of a live block is marked as taken. */
  lemma EdgeSound(g: Graph, s: State, env: Env, b: Id, c: Id)
    requires Finished(g, s) && EnvSound(s.link, env) && Live(g, s.marks, b) && Leaves(g, env, b, c)
    ensures MarkedTrue(s.marks, c)
  {
    AtRest(g, s);
    assert EdgeSettled(g, s, c);
  }

  ghost predicate VisitSound(g: Graph, s: State, v: Visit) {
    EnvSound(s.link, v.env) && Live(g, s.marks, v.block)
  }

  lemma StepSound(g: Graph, s: State, v: Visit, c: Id, w: Visit)
    requires Finished(g, s) && VisitSound(g, s, v) && StepsTo(g, v, c, w)
    ensures MarkedTrue(s.marks, c) && VisitSound(g, s, w)
  {
    EdgeSound(g, s, v.env, v.block, c);
    assert c in Preds(g, w.block);
    forall n: Id | n in w.env ensures n < |s.link| && Allows(s.link[n], w.env[n]) {
      NodeSound(g, s, v.env, w.block, w.entry, w.env, n);
    }
  }

  lemma StartSound(g: Graph, s: State, v: Visit)
    requires Finished(g, s) && v.block == g.startBlock && Executes(g, map[], v.block, v.entry, v.env)
    ensures VisitSound(g, s, v)
  {
    forall n: Id | n in v.env ensures n < |s.link| && Allows(s.link[n], v.env[n]) {
      NodeSound(g, s, map[], v.block, v.entry, v.env, n);
    }
  }

  lemma RunSound(g: Graph, s: State, vs: seq<Visit>, cs: seq<Id>, k: nat)
    requires Finished(g, s) && IsRun(g, vs, cs) && k < |vs|
    ensures VisitSound(g, s, vs[k])
  {
    RunStart(g, vs, cs);
    StartSound(g, s, vs[0]);
    var p := v => VisitSound(g, s, v);
    forall v, c: Id, w | p(v) && StepsTo(g, v, c, w) ensures p(w) {
      StepSound(g, s, v, c, w);
    }
    RunInduction(g, vs, cs, p, k);
  }

  /** Main result of the analysis: at every point of every run, executed nodes have the values their labels promise
      and no executed node is labelled unknown. */
  lemma ConstantsAreSound(g: Graph, s: State, vs: seq<Visit>, cs: seq<Id>, k: nat, n: Id)
    requires Finished(g, s) && IsRun(g, vs, cs) && k < |vs| && n in vs[k].env
    ensures n < |s.link| && s.link[n] != Unknown && (s.link[n].Known? ==> vs[k].env[n] == s.link[n].value)
  {
    RunSound(g, s, vs, cs, k);
  }

  /** Its second half: no run crosses a control edge marked as not taken, nor an unmarked one. */
  lemma OnlyMarkedEdges(g: Graph, s: State, vs: seq<Visit>, cs: seq<Id>, k: nat)
    requires Finished(g, s) && IsRun(g, vs, cs) && k < |cs|
    ensures MarkedTrue(s.marks, cs[k])
  {
    RunSound(g, s, vs, cs, k);
    RunStep(g, vs, cs, k + 1);
    StepSound(g, s, vs[k], cs[k], vs[k+1]);
  }
}

/** When the worklist of constant propagation (const_prop_pass.hpp) runs empty. */
module ConstPropRest {
  import opened FirmGraph
  import opened ConstProp
  import opened ConstPropInvariant

  /** The state after one more round, if there is one. */
  ghost function Next(g: Graph, s: State): State { if Fits(g, s) && s.queue != [] then Round(g, s) else s }

  /** The state after `n` rounds, or earlier if the worklist is empty by then. */
  ghost function Rounds(g: Graph, s: State, n: nat): State
    decreases n
  {
    if n == 0 then s else Rounds(g, Next(g, s), n - 1)
  }

  lemma {:induction false} RoundsAdd(g: Graph, s: State, m: nat, n: nat)
    ensures Rounds(g, s, m + n) == Rounds(g, Rounds(g, s, m), n)
    decreases m
  {
    if m > 0 { RoundsAdd(g, Next(g, s), m - 1, n); }
  }

  lemma {:induction false} LastRound(g: Graph, s: State, m: nat)
    ensures Rounds(g, s, m + 1) == Next(g, Rounds(g, s, m))
    decreases m
  {
    if m == 0 {
      assert Rounds(g, s, 1) == Rounds(g, Next(g, s), 0);
    } else {
      LastRound(g, Next(g, s), m - 1);
    }
  }

  /** What one round keeps holds after any number of them. */
  lemma {:induction false} RoundsInduction(g: Graph, s: State, n: nat, p: State -> bool)
    requires p(s) && forall t :: p(t) ==> p(Next(g, t))
    ensures p(Rounds(g, s, n))
    decreases n
  {
    if n > 0 { RoundsInduction(g, Next(g, s), n - 1, p); }
  }

  // ---- what one round changes ----

  /** Visiting `n` marks at most `n`, relabels at most `n`, and then wakes the users of `n`. */
  ghost predicate VisitFrame(g: Graph, s: State, n: Id, t: State) {
    && |t.link| == |s.link| && s.queue <= t.queue
    && (forall m: Id :: m < |s.link| && m != n ==> t.link[m] == s.link[m])
    && (n < |s.link| && n < |g.outs| && t.link[n] != s.link[n] ==> forall u :: u in g.outs[n] ==> u in t.queue)
    && (forall d: Id :: d in s.marks ==> d in t.marks)
    && (forall d: Id :: d != n ==> (d in t.marks <==> d in s.marks) && (d in s.marks ==> t.marks[d] == s.marks[d]))
  }

  lemma MarkFrame(g: Graph, s: State, n: Id, taken: bool)
    requires Fits(g, s) && n < |g.nodes|
    ensures VisitFrame(g, s, n, Mark(g, s, n, taken)) && Mark(g, s, n, taken).link == s.link
  {
  }

  lemma SetLinkFrame(g: Graph, s: State, n: Id, val: Label)
    requires n < |s.link| && n < |g.outs|
    ensures VisitFrame(g, s, n, SetLink(g, s, n, val)) && SetLink(g, s, n, val).marks == s.marks
  {
  }

  lemma VisitStays(g: Graph, s: State, n: Id)
    requires Fits(g, s) && n < |g.nodes|
    ensures VisitFrame(g, s, n, VisitNode(g, s, n))
  {
    var k := g.nodes[n].kind;
    if k.ProjX? {
      var m := Mark(g, s, n, MayTake(g, s.link, n));
      MarkFrame(g, s, n, MayTake(g, s.link, n));
      SetLinkFrame(g, m, n, NewLabel(g, s, n));
    } else if k.Jmp? || k.Bad? {
      MarkFrame(g, s, n, k.Jmp?);
    } else if IsValue(k) && !Inert(k) {
      SetLinkFrame(g, s, n, NewLabel(g, s, n));
    }
  }

  /** Only control nodes are marked. */
  lemma OnlyControlMarked(g: Graph, s: State, n: Id)
    requires Fits(g, s) && n < |g.nodes| && !IsControl(g.nodes[n].kind)
    ensures VisitNode(g, s, n).marks == s.marks
  {
  }

  // ---- edges that wait or are dealt with ----

  /** The guard under which maybeMarkControlFlow puts the edge back on the worklist: it may be taken, and no edge into
      its block has been marked one way or the other. */
  ghost predicate Spins(g: Graph, s: State, c: Id)
    requires LabelsOf(g, s.link) && c < |g.nodes|
  {
    && IsControl(g.nodes[c].kind) && MayTake(g, s.link, c) && !MarkedTrue(s.marks, c)
    && g.nodes[c].block != g.startBlock && !AnyMarked(s.marks, Preds(g, g.nodes[c].block))
  }

  ghost predicate Dealt(g: Graph, s: State, c: Id)
    requires LabelsOf(g, s.link) && c < |g.nodes|
  {
    c in s.marks && !Spins(g, s, c)
  }

  /** Every control node is dealt with or waits. */
  ghost predicate Tracked(g: Graph, s: State)
    requires LabelsOf(g, s.link)
  {
    forall c: Id :: c < |g.nodes| && IsControl(g.nodes[c].kind) ==> EdgeWaits(g, s.queue, c) || Dealt(g, s, c)
  }

  lemma VisitedIsDealt(g: Graph, s: State, c: Id)
    requires Fits(g, s) && c < |g.nodes| && IsControl(g.nodes[c].kind)
    ensures var t := VisitNode(g, s, c); LabelsOf(g, t.link) && (c in t.queue || Dealt(g, t, c))
  {
    var taken := MayTake(g, s.link, c);
    var m := Mark(g, s, c, taken);
    MarkFrame(g, s, c, taken);
    MarkDeals(g, s, c);
    if g.nodes[c].kind.ProjX? {
      var t := SetLink(g, m, c, NewLabel(g, s, c));
      SetLinkFrame(g, m, c, NewLabel(g, s, c));
      SelectorElsewhere(g, c);
    }
  }

  lemma SelectorElsewhere(g: Graph, c: Id)
    requires WellFormed(g) && c < |g.nodes| && g.nodes[c].kind.ProjX?
    ensures var cond := g.nodes[c].kind.cond;
      && cond < |g.nodes| && g.nodes[cond].kind.Cond? && g.nodes[cond].kind.selector < |g.nodes|
      && g.nodes[g.nodes[cond].kind.selector].kind.Cmp? && cond in Operands(g.nodes[c].kind)
      && g.nodes[cond].kind.selector in Operands(g.nodes[cond].kind)
  {
    assert WellFormedNode(g, c);
    assert WellFormedNode(g, g.nodes[c].kind.cond);
  }

  lemma MarkDeals(g: Graph, s: State, c: Id)
    requires Fits(g, s) && c < |g.nodes| && IsControl(g.nodes[c].kind)
    ensures var t := Mark(g, s, c, MayTake(g, s.link, c)); LabelsOf(g, t.link) && (c in t.queue || Dealt(g, t, c))
  {
    var t := Mark(g, s, c, MayTake(g, s.link, c));
    if AnyMarked(s.marks, Preds(g, g.nodes[c].block)) {
      AnyMarkedStays(g, s.marks, t.marks, g.nodes[c].block);
    }
  }

  lemma AnyMarkedStays(g: Graph, marks: map<Id, bool>, marks': map<Id, bool>, b: Id)
    requires AnyMarked(marks, Preds(g, b)) && forall d: Id :: d in marks ==> d in marks'
    ensures AnyMarked(marks', Preds(g, b))
  {
    var p :| p in Preds(g, b) && p in marks;
    assert p in marks';
  }

  /** An edge that was dealt with stays so unless its comparison is relabelled, which wakes it. */
  lemma OtherStaysDealt(g: Graph, s: State, n: Id, t: State, d: Id)
    requires Fits(g, s) && VisitFrame(g, s, n, t) && n < |g.nodes| && d < |g.nodes| && d != n
    requires IsControl(g.nodes[d].kind) && Dealt(g, s, d)
    ensures EdgeWaits(g, t.queue, d) || Dealt(g, t, d)
  {
    if AnyMarked(s.marks, Preds(g, g.nodes[d].block)) { AnyMarkedStays(g, s.marks, t.marks, g.nodes[d].block); }
    if g.nodes[d].kind.ProjX? {
      SelectorElsewhere(g, d);
      var cond := g.nodes[d].kind.cond;
      assert Uses(g, cond, g.nodes[cond].kind.selector);
      if t.link[g.nodes[cond].kind.selector] != s.link[g.nodes[cond].kind.selector] { assert cond in t.queue; }
    }
  }

  lemma {:induction false} RoundFits(g: Graph, s: State)
    requires Fits(g, s) && s.queue != []
    ensures Fits(g, Round(g, s))
  {
    RestFits(g, s);
    var n, p := s.queue[0], s.(queue := s.queue[1..]);
    if g.nodes[n].kind.ProjX? {
      MarkFits(g, p, n, MayTake(g, p.link, n));
      SetLinkFits(g, Mark(g, p, n, MayTake(g, p.link, n)), n, NewLabel(g, p, n));
    } else {
      MarkFits(g, p, n, g.nodes[n].kind.Jmp?);
      SetLinkFits(g, p, n, NewLabel(g, p, n));
      OutsFit(g, n);
    }
  }

  lemma OutsFit(g: Graph, n: Id)
    requires WellFormed(g) && n < |g.nodes|
    ensures forall u: Id :: u in g.outs[n] ==> u < |g.nodes|
  {
    forall u: Id | u in g.outs[n] ensures u < |g.nodes| { assert Uses(g, u, n) || Member(g, u, n); }
  }

  lemma SetLinkFits(g: Graph, s: State, n: Id, val: Label)
    requires Fits(g, s) && n < |g.nodes|
    ensures Fits(g, SetLink(g, s, n, val))
  {
    OutsFit(g, n);
  }

  lemma MarkFits(g: Graph, s: State, n: Id, taken: bool)
    requires Fits(g, s) && n < |g.nodes|
    ensures Fits(g, Mark(g, s, n, taken))
  {
    WokenInFits(g, g.outs[n]);
  }

  lemma RoundTracks(g: Graph, s: State)
    requires Fits(g, s) && s.queue != [] && Tracked(g, s)
    ensures Fits(g, s) && LabelsOf(g, Round(g, s).link) && Tracked(g, Round(g, s))
  {
    RestFits(g, s);
    var n, p := s.queue[0], s.(queue := s.queue[1..]);
    var t := VisitNode(g, p, n);
    VisitStays(g, p, n);
    assert s.queue == [n] + p.queue;
    forall d: Id | d < |g.nodes| && IsControl(g.nodes[d].kind) ensures EdgeWaits(g, t.queue, d) || Dealt(g, t, d) {
      if d == n {
        VisitedIsDealt(g, p, n);
      } else if EdgeWaits(g, s.queue, d) {
        WaiterStays(g, s, d);
      } else {
        assert Dealt(g, p, d);
        OtherStaysDealt(g, p, n, t, d);
      }
    }
  }

  /** A waiting edge goes on waiting, directly once its condition has been visited. */
  lemma WaiterStays(g: Graph, s: State, d: Id)
    requires Fits(g, s) && s.queue != [] && d < |g.nodes| && EdgeWaits(g, s.queue, d) && s.queue[0] != d
    ensures EdgeWaits(g, Round(g, s).queue, d)
  {
    RestFits(g, s);
    var n, p := s.queue[0], s.(queue := s.queue[1..]);
    VisitStays(g, p, n);
    assert s.queue == [n] + p.queue;
    if g.nodes[d].kind.ProjX? && g.nodes[d].kind.cond == n {
      SelectorIsCond(g, d);
      assert Uses(g, d, n);
    }
  }

  lemma SelectorIsCond(g: Graph, d: Id)
    requires WellFormed(g) && d < |g.nodes| && g.nodes[d].kind.ProjX?
    ensures g.nodes[d].kind.cond < |g.nodes| && g.nodes[g.nodes[d].kind.cond].kind.Cond? && g.nodes[d].kind.cond in Operands(g.nodes[d].kind)
  {
    assert WellFormedNode(g, d);
  }

  ghost predicate Workable(g: Graph, s: State) { Fits(g, s) && Tracked(g, s) }

  lemma NextTracks(g: Graph, s: State)
    requires Workable(g, s)
    ensures Workable(g, Next(g, s))
  {
    if s.queue != [] {
      RoundTracks(g, s);
      RoundFits(g, s);
    }
  }

  lemma RoundsTrack(g: Graph, s: State, n: nat)
    requires Workable(g, s)
    ensures Workable(g, Rounds(g, s, n))
  {
    var p := t => Workable(g, t);
    forall t | p(t) ensures p(Next(g, t)) { NextTracks(g, t); }
    RoundsInduction(g, s, n, p);
  }

  // ---- exactly when the pass comes to rest ----

  ghost predicate ComesToRest(g: Graph, s: State) { exists n: nat :: Rounds(g, s, n).queue == [] }

  ghost predicate SameAfter(g: Graph, s: State, n: nat) {
    Rounds(g, s, n).link == s.link && Rounds(g, s, n).marks == s.marks
  }

  /** Labels and marks do not change any more. */
  ghost predicate Still(g: Graph, s: State) { forall n: nat :: SameAfter(g, s, n) }

  ghost predicate NoneSpins(g: Graph, s: State)
    requires LabelsOf(g, s.link)
  {
    forall c: Id :: c < |g.nodes| ==> !Spins(g, s, c)
  }

  /** A condition is worth itself and the projections its visit enqueues, every other node one visit. */
  ghost function Weight(g: Graph, n: Id): nat {
    if n < |g.nodes| && n < |g.outs| && g.nodes[n].kind.Cond? then 1 + |g.outs[n]| else 1
  }

  ghost function TotalWeight(g: Graph, queue: seq<Id>): nat {
    if queue == [] then 0 else Weight(g, queue[0]) + TotalWeight(g, queue[1..])
  }

  lemma {:induction false} TotalJoined(g: Graph, a: seq<Id>, b: seq<Id>)
    ensures TotalWeight(g, a + b) == TotalWeight(g, a) + TotalWeight(g, b)
    decreases |a|
  {
    if a == [] {
      assert a + b == b;
    } else {
      assert (a + b)[1..] == a[1..] + b;
      TotalJoined(g, a[1..], b);
    }
  }

  lemma {:induction false} TotalOfOthers(g: Graph, a: seq<Id>)
    requires forall u :: u in a ==> Weight(g, u) == 1
    ensures TotalWeight(g, a) == |a|
    decreases |a|
  {
    if a != [] {
      assert a[0] in a;
      TotalOfOthers(g, a[1..]);
    }
  }

  /** No condition uses a condition. */
  lemma CondUsersWeigh(g: Graph, n: Id, u: Id)
    requires WellFormed(g) && n < |g.nodes| && g.nodes[n].kind.Cond? && u in g.outs[n]
    ensures Weight(g, u) == 1
  {
    assert Uses(g, u, n) || Member(g, u, n);
    assert WellFormedNode(g, u);
  }

  /** A visit that changes neither labels nor marks enqueues nothing, except for conditions and for edges that spin. */
  lemma QuietVisit(g: Graph, s: State, n: Id)
    requires Fits(g, s) && n < |g.nodes| && !Spins(g, s, n)
    requires VisitNode(g, s, n).link == s.link && VisitNode(g, s, n).marks == s.marks
    ensures VisitNode(g, s, n).queue == s.queue + if g.nodes[n].kind.Cond? then g.outs[n] else []
  {
    var k := g.nodes[n].kind;
    assert s.queue + [] == s.queue;
    if IsControl(k) {
      var m := Mark(g, s, n, MayTake(g, s.link, n));
      MarkFrame(g, s, n, MayTake(g, s.link, n));
      QuietMark(g, s, n);
    }
  }

  lemma QuietMark(g: Graph, s: State, n: Id)
    requires Fits(g, s) && n < |g.nodes| && IsControl(g.nodes[n].kind) && !Spins(g, s, n)
    requires Mark(g, s, n, MayTake(g, s.link, n)).marks == s.marks
    ensures Mark(g, s, n, MayTake(g, s.link, n)) == s
  {
    if n in s.marks { assert s.marks[n := s.marks[n]] == s.marks; }
  }

  lemma QuietRound(g: Graph, s: State)
    requires Fits(g, s) && s.queue != [] && NoneSpins(g, s)
    requires Round(g, s).link == s.link && Round(g, s).marks == s.marks
    ensures TotalWeight(g, Round(g, s).queue) < TotalWeight(g, s.queue)
  {
    RestFits(g, s);
    var n, p := s.queue[0], s.(queue := s.queue[1..]);
    assert Spins(g, p, n) == Spins(g, s, n);
    QuietVisit(g, p, n);
    if g.nodes[n].kind.Cond? {
      forall u | u in g.outs[n] ensures Weight(g, u) == 1 { CondUsersWeigh(g, n, u); }
      TotalOfOthers(g, g.outs[n]);
      TotalJoined(g, p.queue, g.outs[n]);
    } else {
      assert p.queue + [] == p.queue;
    }
  }

  lemma StillStep(g: Graph, s: State)
    requires Still(g, s)
    ensures Still(g, Next(g, s)) && Next(g, s).link == s.link && Next(g, s).marks == s.marks
  {
    var t := Next(g, s);
    assert SameAfter(g, s, 1) && Rounds(g, s, 1) == Rounds(g, t, 0);
    forall n: nat ensures SameAfter(g, t, n) {
      assert SameAfter(g, s, n + 1);
    }
  }

  /** Once labels and marks stand still and no edge spins, the rest of the worklist is used up. */
  lemma {:induction false} StillDrains(g: Graph, s: State)
    requires Workable(g, s) && Still(g, s) && NoneSpins(g, s)
    ensures ComesToRest(g, s)
    decreases TotalWeight(g, s.queue)
  {
    if s.queue == [] {
      assert Rounds(g, s, 0).queue == [];
    } else {
      StillStep(g, s);
      var t := Next(g, s);
      QuietRound(g, s);
      NextTracks(g, s);
      forall c: Id | c < |g.nodes| ensures !Spins(g, t, c) { assert !Spins(g, s, c); }
      StillDrains(g, t);
      var n: nat :| Rounds(g, t, n).queue == [];
      assert Rounds(g, s, n + 1).queue == [];
    }
  }

  /** At rest no edge spins, and nothing changes any more. */
  lemma RestIsStill(g: Graph, s: State)
    requires Workable(g, s) && s.queue == []
    ensures Still(g, s) && NoneSpins(g, s)
  {
    forall n: nat ensures SameAfter(g, s, n) { RoundsOver(g, s, n); }
    forall c: Id | c < |g.nodes| ensures !Spins(g, s, c) {
      if IsControl(g.nodes[c].kind) { assert Dealt(g, s, c); }
    }
  }

  lemma {:induction false} RoundsOver(g: Graph, s: State, n: nat)
    requires s.queue == []
    ensures Rounds(g, s, n) == s
    decreases n
  {
    if n > 0 { RoundsOver(g, s, n - 1); }
  }

  /** Main result: the pass comes to rest if and only if at some point labels and marks stand still while no edge is
      in the situation in which maybeMarkControlFlow puts it back. */
  lemma RestsExactly(g: Graph, s: State)
    requires Workable(g, s)
    ensures ComesToRest(g, s) <==> exists m: nat :: StandsStill(g, Rounds(g, s, m))
  {
    if ComesToRest(g, s) {
      var n: nat :| Rounds(g, s, n).queue == [];
      RoundsTrack(g, s, n);
      RestIsStill(g, Rounds(g, s, n));
    }
    if m: nat :| StandsStill(g, Rounds(g, s, m)) {
      RoundsTrack(g, s, m);
      StillDrains(g, Rounds(g, s, m));
      var n: nat :| Rounds(g, Rounds(g, s, m), n).queue == [];
      RoundsAdd(g, s, m, n);
    }
  }

  ghost predicate StandsStill(g: Graph, s: State) { LabelsOf(g, s.link) && Still(g, s) && NoneSpins(g, s) }
}

/** How constant propagation (const_prop_pass.hpp) works through a loop that is left after one turn: labels, marks and
    worklist return to what they were. */
module ConstPropTurns {
  import opened Wrappers
  import opened FirmGraph
  import opened ConstProp
  import opened ConstPropInvariant
  import opened ConstPropRest

  // ---- states that come back ----

  predicate OneStep(at: nat -> State, step: State -> State, k: nat) { at(k + 1) == step(at(k)) }

  /** `at` lists the states that `step` leads through; it leads nowhere once the worklist is empty. */
  ghost predicate Steps(at: nat -> State, step: State -> State) {
    (forall k: nat :: OneStep(at, step, k)) && forall t: State :: t.queue == [] ==> step(t) == t
  }

  /** Two such lists that meet go on together. */
  lemma {:induction false} StepsAgree(at: nat -> State, a: nat, bt: nat -> State, b: nat, step: State -> State, n: nat)
    requires Steps(at, step) && Steps(bt, step) && at(a) == bt(b)
    ensures at(a + n) == bt(b + n)
    decreases n
  {
    if n > 0 {
      StepsAgree(at, a, bt, b, step, n - 1);
      assert OneStep(at, step, a + n - 1) && OneStep(bt, step, b + n - 1);
    }
  }

  lemma {:induction false} ComesBack(at: nat -> State, step: State -> State, a: nat, p: nat, i: nat)
    requires Steps(at, step) && at(a + p) == at(a)
    ensures at(a + i * p) == at(a)
    decreases i
  {
    if i > 0 {
      ComesBack(at, step, a, p, i - 1);
      StepsAgree(at, a + (i - 1) * p, at, a, step, p);
      assert a + (i - 1) * p + p == a + i * p;
    }
  }

  lemma {:induction false} StaysEmpty(at: nat -> State, step: State -> State, n: nat, d: nat)
    requires Steps(at, step) && at(n).queue == []
    ensures at(n + d).queue == []
    decreases d
  {
    if d > 0 {
      StaysEmpty(at, step, n, d - 1);
      assert OneStep(at, step, n + d - 1);
    }
  }

  /** A state that comes back with work left keeps the worklist from ever being empty. */
  lemma NeverEmpty(at: nat -> State, step: State -> State, a: nat, p: nat, n: nat)
    requires Steps(at, step) && p > 0 && at(a + p) == at(a) && at(a).queue != []
    ensures at(n).queue != []
  {
    if at(n).queue == [] {
      ComesBack(at, step, a, p, n);
      assert n <= n * p by { TurnsSuffice(n, p); }
      StaysEmpty(at, step, n, a + n * p - n);
    }
  }

  lemma TurnsSuffice(n: nat, p: nat)
    requires p > 0
    ensures n <= n * p
  {
  }

  ghost predicate IsNext(g: Graph, step: State -> State) { forall t: State {:trigger Next(g, t)} :: step(t) == Next(g, t) }

  /** `at(n)` is the state after `n` rounds. */
  ghost predicate IsTrace(g: Graph, s: State, at: nat -> State) {
    forall n: nat {:trigger Rounds(g, s, n)} :: at(n) == Rounds(g, s, n)
  }

  lemma Traced(g: Graph, s: State) returns (at: nat -> State, step: State -> State)
    ensures Steps(at, step) && IsNext(g, step) && IsTrace(g, s, at)
  {
    step := (t: State) => Next(g, t);
    at := (n: nat) => Rounds(g, s, n);
    forall k: nat ensures OneStep(at, step, k) { LastRound(g, s, k); }
  }

  lemma TraceNeverEmpty(g: Graph, s: State, at: nat -> State)
    requires IsTrace(g, s, at) && forall n: nat :: at(n).queue != []
    ensures !ComesToRest(g, s)
  {
    forall n: nat ensures Rounds(g, s, n).queue != [] { assert at(n) == Rounds(g, s, n); }
  }

  /** A run of the pass that returns to a state with work left never ends. */
  lemma RecurrenceNeverRests(g: Graph, s: State, at: nat -> State, step: State -> State, a: nat, p: nat)
    requires Steps(at, step) && IsTrace(g, s, at) && p > 0 && at(a + p) == at(a) && at(a).queue != []
    ensures !ComesToRest(g, s)
  {
    forall n: nat ensures at(n).queue != [] { NeverEmpty(at, step, a, p, n); }
    TraceNeverEmpty(g, s, at);
  }

  // ---- x = first; do x = x + first while (bound < x) ----

  /** The loop is left after one turn, with another value than it was entered with. */
  predicate LeftAtOnce(first: int, bound: int) {
    var twice := Wrap(Is, first + first);
    twice != first && twice <= bound
  }

  // ---- the rounds, on stages instead of labels ----

  /** Phi, sum and comparison have no label yet, the label of the first turn, or none that is constant. */
  datatype Stage = NotYet | Fixed | Varies

  datatype List = Nil | Cons(head: Id, tail: List)

  function Append(a: List, b: List): List {
    match a
    case Nil => b
    case Cons(h, t) => Cons(h, Append(t, b))
  }

  /** Stages of phi, sum and comparison, marks of the edges back and out, and the worklist. */
  datatype Turn = Turn(phi: Stage, sum: Stage, cmp: Stage, back: Option<bool>, out: Option<bool>, queue: List)

  function JoinStage(back: Option<bool>, sum: Stage): Stage { if back == Some(false) || sum.NotYet? then Fixed else Varies }

  function Wake(changed: bool, rest: List, users: List): List { if changed then Append(rest, users) else rest }

  function Turned(t: Turn): Turn {
    match t
    case Turn(phi, sum, cmp, back, out, Nil) => t
    case Turn(phi, sum, cmp, back, out, Cons(n, rest)) =>
      if n == 7 then
        Turn(JoinStage(back, sum), sum, cmp, back, out, Wake(phi != JoinStage(back, sum), rest, Cons(8, Cons(13, Nil))))
      else if n == 8 then Turn(phi, phi, cmp, back, out, Wake(sum != phi, rest, Cons(7, Cons(9, Nil))))
      else if n == 9 then Turn(phi, sum, sum, back, out, Wake(cmp != sum, rest, Cons(10, Nil)))
      else if n == 10 then Turn(phi, sum, cmp, back, out, Append(rest, Cons(11, Cons(12, Nil))))
      else if n == 11 then
        Turn(phi, sum, cmp, Some(cmp != Fixed), out,
             Wake(cmp != Fixed && back != Some(true), rest, Cons(7, Cons(11, Cons(12, Nil)))))
      else if n == 12 then Turn(phi, sum, cmp, back, Some(true), Wake(out != Some(true), rest, Cons(13, Nil)))
      else Turn(phi, sum, cmp, back, out, rest)
  }

  function Turns(t: Turn, n: nat): Turn
    decreases n
  {
    if n == 0 then t else Turns(Turned(t), n - 1)
  }

  /** Some of the turns, from the one that follows the visit of the start block's jump. The comparison becomes false
      in turn 12, which comes back after turn 17. */
  function Milestone(i: nat): Turn {
    if i == 0 then
      Turn(NotYet, NotYet, Varies, None, None,
           Cons(8, Cons(7, Cons(9, Cons(10, Cons(11, Cons(2, Cons(12, Cons(3,
           Cons(13, Cons(4, Cons(14, Nil))))))))))))
    else if i == 1 then
      Turn(NotYet, NotYet, Varies, None, None,
           Cons(7, Cons(9, Cons(10, Cons(11, Cons(2, Cons(12, Cons(3, Cons(13, Cons(4, Cons(14, Nil)))))))))))
    else if i == 2 then
      Turn(Fixed, NotYet, Varies, None, None,
           Cons(9, Cons(10, Cons(11, Cons(2, Cons(12, Cons(3, Cons(13, Cons(4,
           Cons(14, Cons(8, Cons(13, Nil))))))))))))
    else if i == 3 then
      Turn(Fixed, NotYet, NotYet, None, None,
           Cons(10, Cons(11, Cons(2, Cons(12, Cons(3, Cons(13, Cons(4, Cons(14,
           Cons(8, Cons(13, Cons(10, Nil))))))))))))
    else if i == 4 then
      Turn(Fixed, NotYet, NotYet, None, None,
           Cons(11, Cons(2, Cons(12, Cons(3, Cons(13, Cons(4, Cons(14, Cons(8,
           Cons(13, Cons(10, Cons(11, Cons(12, Nil)))))))))))))
    else if i == 5 then
      Turn(Fixed, NotYet, NotYet, Some(true), None,
           Cons(2, Cons(12, Cons(3, Cons(13, Cons(4, Cons(14, Cons(8, Cons(13,
           Cons(10, Cons(11, Cons(12, Cons(7, Cons(11, Cons(12, Nil)))))))))))))))
    else if i == 6 then
      Turn(Fixed, NotYet, NotYet, Some(true), None,
           Cons(12, Cons(3, Cons(13, Cons(4, Cons(14, Cons(8, Cons(13, Cons(10,
           Cons(11, Cons(12, Cons(7, Cons(11, Cons(12, Nil))))))))))))))
    else if i == 7 then
      Turn(Fixed, NotYet, NotYet, Some(true), Some(true),
           Cons(3, Cons(13, Cons(4, Cons(14, Cons(8, Cons(13, Cons(10, Cons(11,
           Cons(12, Cons(7, Cons(11, Cons(12, Cons(13, Nil))))))))))))))
    else if i == 8 then
      Turn(Fixed, NotYet, NotYet, Some(true), Some(true),
           Cons(14, Cons(8, Cons(13, Cons(10, Cons(11, Cons(12, Cons(7, Cons(11, Cons(12, Cons(13, Nil)))))))))))
    else if i == 9 then
      Turn(Fixed, Fixed, NotYet, Some(true), Some(true),
           Cons(10, Cons(11, Cons(12, Cons(7, Cons(11, Cons(12, Cons(13, Cons(7, Cons(9, Nil))))))))))
    else if i == 10 then
      Turn(Fixed, Fixed, NotYet, Some(true), Some(true),
           Cons(7, Cons(11, Cons(12, Cons(13, Cons(7, Cons(9, Cons(11, Cons(12, Nil)))))))))
    else if i == 11 then
      Turn(Varies, Fixed, NotYet, Some(true), Some(true),
           Cons(13, Cons(7, Cons(9, Cons(11, Cons(12, Cons(8, Cons(13, Nil))))))))
    else if i == 12 then
      Turn(Varies, Fixed, Fixed, Some(true), Some(true),
           Cons(11, Cons(12, Cons(8, Cons(13, Cons(10, Nil))))))
    else if i == 13 then
      Turn(Varies, Varies, Fixed, Some(false), Some(true),
           Cons(13, Cons(10, Cons(7, Cons(9, Nil)))))
    else if i == 14 then
      Turn(Fixed, Varies, Fixed, Some(false), Some(true),
           Cons(9, Cons(11, Cons(12, Cons(8, Cons(13, Nil))))))
    else if i == 15 then
      Turn(Fixed, Varies, Varies, Some(true), Some(true),
           Cons(8, Cons(13, Cons(10, Cons(7, Cons(11, Cons(12, Nil)))))))
    else if i == 16 then
      Turn(Fixed, Fixed, Varies, Some(true), Some(true),
           Cons(7, Cons(11, Cons(12, Cons(7, Cons(9, Cons(11, Cons(12, Nil))))))))
    else
      Turn(Varies, Fixed, Varies, Some(true), Some(true),
           Cons(7, Cons(9, Cons(11, Cons(12, Cons(8, Cons(13, Nil)))))))
  }

  lemma Stretch0()
    ensures Turns(Milestone(0), 1) == Milestone(1)
  {
    assert Turns(Turn(NotYet, NotYet, Varies, None, None,
                 Cons(8, Cons(7, Cons(9, Cons(10, Cons(11, Cons(2, Cons(12, Cons(3,
                 Cons(13, Cons(4, Cons(14, Nil)))))))))))), 1)
        == Turn(NotYet, NotYet, Varies, None, None,
                Cons(7, Cons(9, Cons(10, Cons(11, Cons(2, Cons(12, Cons(3, Cons(13, Cons(4, Cons(14, Nil)))))))))));
  }

  lemma Stretch1()
    ensures Turns(Milestone(1), 1) == Milestone(2)
  {
    assert Append(Cons(12, Cons(3, Cons(13, Cons(4, Cons(14, Nil))))), Cons(8, Cons(13, Nil)))
        == Cons(12, Cons(3, Cons(13, Cons(4, Cons(14, Cons(8, Cons(13, Nil)))))));
    assert Turns(Turn(NotYet, NotYet, Varies, None, None,
                 Cons(7, Cons(9, Cons(10, Cons(11, Cons(2, Cons(12, Cons(3, Cons(13,
                 Cons(4, Cons(14, Nil))))))))))), 1)
        == Turn(Fixed, NotYet, Varies, None, None,
                Cons(9, Cons(10, Cons(11, Cons(2, Cons(12, Cons(3, Cons(13, Cons(4,
                Cons(14, Cons(8, Cons(13, Nil))))))))))));
  }

  lemma Stretch2()
    ensures Turns(Milestone(2), 1) == Milestone(3)
  {
    assert Append(Cons(13, Cons(4, Cons(14, Cons(8, Cons(13, Nil))))), Cons(10, Nil))
        == Cons(13, Cons(4, Cons(14, Cons(8, Cons(13, Cons(10, Nil))))));
    assert Turns(Turn(Fixed, NotYet, Varies, None, None,
                 Cons(9, Cons(10, Cons(11, Cons(2, Cons(12, Cons(3, Cons(13, Cons(4,
                 Cons(14, Cons(8, Cons(13, Nil)))))))))))), 1)
        == Turn(Fixed, NotYet, NotYet, None, None,
                Cons(10, Cons(11, Cons(2, Cons(12, Cons(3, Cons(13, Cons(4, Cons(14,
                Cons(8, Cons(13, Cons(10, Nil))))))))))));
  }

  lemma Stretch3()
    ensures Turns(Milestone(3), 1) == Milestone(4)
  {
    assert Append(Cons(4, Cons(14, Cons(8, Cons(13, Cons(10, Nil))))), Cons(11, Cons(12, Nil)))
        == Cons(4, Cons(14, Cons(8, Cons(13, Cons(10, Cons(11, Cons(12, Nil)))))));
    assert Turns(Turn(Fixed, NotYet, NotYet, None, None,
                 Cons(10, Cons(11, Cons(2, Cons(12, Cons(3, Cons(13, Cons(4, Cons(14,
                 Cons(8, Cons(13, Cons(10, Nil)))))))))))), 1)
        == Turn(Fixed, NotYet, NotYet, None, None,
                Cons(11, Cons(2, Cons(12, Cons(3, Cons(13, Cons(4, Cons(14, Cons(8,
                Cons(13, Cons(10, Cons(11, Cons(12, Nil)))))))))))));
  }

  lemma Stretch4()
    ensures Turns(Milestone(4), 1) == Milestone(5)
  {
    assert Append(Cons(8, Cons(13, Cons(10, Cons(11, Cons(12, Nil))))), Cons(7, Cons(11, Cons(12, Nil))))
        == Cons(8, Cons(13, Cons(10, Cons(11, Cons(12, Cons(7, Cons(11, Cons(12, Nil))))))));
    assert Turns(Turn(Fixed, NotYet, NotYet, None, None,
                 Cons(11, Cons(2, Cons(12, Cons(3, Cons(13, Cons(4, Cons(14, Cons(8,
                 Cons(13, Cons(10, Cons(11, Cons(12, Nil))))))))))))), 1)
        == Turn(Fixed, NotYet, NotYet, Some(true), None,
                Cons(2, Cons(12, Cons(3, Cons(13, Cons(4, Cons(14, Cons(8, Cons(13,
                Cons(10, Cons(11, Cons(12, Cons(7, Cons(11, Cons(12, Nil)))))))))))))));
  }

  lemma Stretch5()
    ensures Turns(Milestone(5), 1) == Milestone(6)
  {
    assert Turns(Turn(Fixed, NotYet, NotYet, Some(true), None,
                 Cons(2, Cons(12, Cons(3, Cons(13, Cons(4, Cons(14, Cons(8, Cons(13,
                 Cons(10, Cons(11, Cons(12, Cons(7, Cons(11, Cons(12, Nil))))))))))))))), 1)
        == Turn(Fixed, NotYet, NotYet, Some(true), None,
                Cons(12, Cons(3, Cons(13, Cons(4, Cons(14, Cons(8, Cons(13, Cons(10,
                Cons(11, Cons(12, Cons(7, Cons(11, Cons(12, Nil))))))))))))));
  }

  lemma Stretch6()
    ensures Turns(Milestone(6), 1) == Milestone(7)
  {
    assert Append(Cons(11, Cons(12, Cons(7, Cons(11, Cons(12, Nil))))), Cons(13, Nil))
        == Cons(11, Cons(12, Cons(7, Cons(11, Cons(12, Cons(13, Nil))))));
    assert Turns(Turn(Fixed, NotYet, NotYet, Some(true), None,
                 Cons(12, Cons(3, Cons(13, Cons(4, Cons(14, Cons(8, Cons(13, Cons(10,
                 Cons(11, Cons(12, Cons(7, Cons(11, Cons(12, Nil)))))))))))))), 1)
        == Turn(Fixed, NotYet, NotYet, Some(true), Some(true),
                Cons(3, Cons(13, Cons(4, Cons(14, Cons(8, Cons(13, Cons(10, Cons(11,
                Cons(12, Cons(7, Cons(11, Cons(12, Cons(13, Nil))))))))))))));
  }

  lemma Stretch7()
    ensures Turns(Milestone(7), 3) == Milestone(8)
  {
    assert Turns(Turn(Fixed, NotYet, NotYet, Some(true), Some(true),
                 Cons(3, Cons(13, Cons(4, Cons(14, Cons(8, Cons(13, Cons(10, Cons(11,
                 Cons(12, Cons(7, Cons(11, Cons(12, Cons(13, Nil)))))))))))))), 3)
        == Turn(Fixed, NotYet, NotYet, Some(true), Some(true),
                Cons(14, Cons(8, Cons(13, Cons(10, Cons(11, Cons(12, Cons(7, Cons(11,
                Cons(12, Cons(13, Nil)))))))))));
  }

  lemma Stretch8()
    ensures Turns(Milestone(8), 3) == Milestone(9)
  {
    assert Turns(Turn(Fixed, NotYet, NotYet, Some(true), Some(true),
                 Cons(14, Cons(8, Cons(13, Cons(10, Cons(11, Cons(12, Cons(7, Cons(11,
                 Cons(12, Cons(13, Nil))))))))))), 3)
        == Turn(Fixed, Fixed, NotYet, Some(true), Some(true),
                Cons(10, Cons(11, Cons(12, Cons(7, Cons(11, Cons(12, Cons(13, Cons(7, Cons(9, Nil))))))))));
  }

  lemma Stretch9()
    ensures Turns(Milestone(9), 3) == Milestone(10)
  {
    assert Turns(Turn(Fixed, Fixed, NotYet, Some(true), Some(true),
                 Cons(10, Cons(11, Cons(12, Cons(7, Cons(11, Cons(12, Cons(13, Cons(7, Cons(9, Nil)))))))))), 3)
        == Turn(Fixed, Fixed, NotYet, Some(true), Some(true),
                Cons(7, Cons(11, Cons(12, Cons(13, Cons(7, Cons(9, Cons(11, Cons(12, Nil)))))))));
  }

  lemma Stretch10()
    ensures Turns(Milestone(10), 3) == Milestone(11)
  {
    assert Turns(Turn(Fixed, Fixed, NotYet, Some(true), Some(true),
                 Cons(7, Cons(11, Cons(12, Cons(13, Cons(7, Cons(9, Cons(11, Cons(12, Nil))))))))), 3)
        == Turn(Varies, Fixed, NotYet, Some(true), Some(true),
                Cons(13, Cons(7, Cons(9, Cons(11, Cons(12, Cons(8, Cons(13, Nil))))))));
  }

  lemma Stretch11()
    ensures Turns(Milestone(11), 3) == Milestone(12)
  {
    assert Turns(Turn(Varies, Fixed, NotYet, Some(true), Some(true),
                 Cons(13, Cons(7, Cons(9, Cons(11, Cons(12, Cons(8, Cons(13, Nil)))))))), 3)
        == Turn(Varies, Fixed, Fixed, Some(true), Some(true),
                Cons(11, Cons(12, Cons(8, Cons(13, Cons(10, Nil))))));
  }

  lemma Stretch12()
    ensures Turns(Milestone(12), 3) == Milestone(13)
  {
    assert Turns(Turn(Varies, Fixed, Fixed, Some(true), Some(true),
                 Cons(11, Cons(12, Cons(8, Cons(13, Cons(10, Nil)))))), 3)
        == Turn(Varies, Varies, Fixed, Some(false), Some(true),
                Cons(13, Cons(10, Cons(7, Cons(9, Nil)))));
  }

  lemma Stretch13()
    ensures Turns(Milestone(13), 3) == Milestone(14)
  {
    assert Turns(Turn(Varies, Varies, Fixed, Some(false), Some(true),
                 Cons(13, Cons(10, Cons(7, Cons(9, Nil))))), 3)
        == Turn(Fixed, Varies, Fixed, Some(false), Some(true),
                Cons(9, Cons(11, Cons(12, Cons(8, Cons(13, Nil))))));
  }

  lemma Stretch14()
    ensures Turns(Milestone(14), 3) == Milestone(15)
  {
    assert Turns(Turn(Fixed, Varies, Fixed, Some(false), Some(true),
                 Cons(9, Cons(11, Cons(12, Cons(8, Cons(13, Nil)))))), 3)
        == Turn(Fixed, Varies, Varies, Some(true), Some(true),
                Cons(8, Cons(13, Cons(10, Cons(7, Cons(11, Cons(12, Nil)))))));
  }

  lemma Stretch15()
    ensures Turns(Milestone(15), 3) == Milestone(16)
  {
    assert Turns(Turn(Fixed, Varies, Varies, Some(true), Some(true),
                 Cons(8, Cons(13, Cons(10, Cons(7, Cons(11, Cons(12, Nil))))))), 3)
        == Turn(Fixed, Fixed, Varies, Some(true), Some(true),
                Cons(7, Cons(11, Cons(12, Cons(7, Cons(9, Cons(11, Cons(12, Nil))))))));
  }

  lemma Stretch16()
    ensures Turns(Milestone(16), 3) == Milestone(17)
  {
    assert Turns(Turn(Fixed, Fixed, Varies, Some(true), Some(true),
                 Cons(7, Cons(11, Cons(12, Cons(7, Cons(9, Cons(11, Cons(12, Nil)))))))), 3)
        == Turn(Varies, Fixed, Varies, Some(true), Some(true),
                Cons(7, Cons(9, Cons(11, Cons(12, Cons(8, Cons(13, Nil)))))));
  }

  lemma Stretch17()
    ensures Turns(Milestone(17), 2) == Milestone(12)
  {
    assert Turns(Turn(Varies, Fixed, Varies, Some(true), Some(true),
                 Cons(7, Cons(9, Cons(11, Cons(12, Cons(8, Cons(13, Nil))))))), 2)
        == Turn(Varies, Fixed, Fixed, Some(true), Some(true),
                Cons(11, Cons(12, Cons(8, Cons(13, Cons(10, Nil))))));
  }

  lemma {:induction false} TurnsAdd(t: Turn, m: nat, n: nat)
    ensures Turns(t, m + n) == Turns(Turns(t, m), n)
    decreases m
  {
    if m > 0 { TurnsAdd(Turned(t), m - 1, n); }
  }

  lemma ToFirstOut()
    ensures Turns(Milestone(0), 7) == Milestone(7)
  {
    Stretch0();
    Stretch1();
    Stretch2();
    Stretch3();
    Stretch4();
    Stretch5();
    Stretch6();
    TurnsAdd(Milestone(0), 1, 1);
    TurnsAdd(Milestone(0), 2, 1);
    TurnsAdd(Milestone(0), 3, 1);
    TurnsAdd(Milestone(0), 4, 1);
    TurnsAdd(Milestone(0), 5, 1);
    TurnsAdd(Milestone(0), 6, 1);
  }

  lemma ToLeaving()
    ensures Turns(Milestone(7), 15) == Milestone(12)
  {
    Stretch7();
    Stretch8();
    Stretch9();
    Stretch10();
    Stretch11();
    TurnsAdd(Milestone(7), 3, 3);
    TurnsAdd(Milestone(7), 6, 3);
    TurnsAdd(Milestone(7), 9, 3);
    TurnsAdd(Milestone(7), 12, 3);
  }

  /** The state in which the comparison has become false comes back. */
  lemma Around()
    ensures Turns(Milestone(12), 17) == Milestone(12)
  {
    Stretch12();
    Stretch13();
    Stretch14();
    Stretch15();
    Stretch16();
    Stretch17();
    TurnsAdd(Milestone(12), 3, 3);
    TurnsAdd(Milestone(12), 6, 3);
    TurnsAdd(Milestone(12), 9, 3);
    TurnsAdd(Milestone(12), 12, 3);
    TurnsAdd(Milestone(12), 15, 2);
  }

  // ---- stages stand for labels ----

  function PhiLabel(first: int, stage: Stage): Label {
    if stage.NotYet? then Unknown else if stage.Fixed? then Known(Num(Is, first)) else BadLabel
  }

  function SumLabel(first: int, stage: Stage): Label {
    if stage.NotYet? then Unknown else if stage.Fixed? then Known(Num(Is, Wrap(Is, first + first))) else BadLabel
  }

  function CmpLabel(stage: Stage): Label {
    if stage.NotYet? then Unknown else if stage.Fixed? then Known(Bool(false)) else BadLabel
  }

  function LoopLinks(first: int, bound: int, phi: Stage, sum: Stage, cmp: Stage): seq<Label> {
    [BadLabel, BadLabel, BadLabel, BadLabel, BadLabel, Known(Num(Is, first)), Known(Num(Is, bound)), PhiLabel(first, phi),
     SumLabel(first, sum), CmpLabel(cmp), BadLabel, BadLabel, BadLabel, BadLabel, BadLabel]
  }

  function LoopMarks(back: Option<bool>, out: Option<bool>): map<Id, bool> {
    var m := map[1 := true];
    var m := if back.Some? then m[11 := back.value] else m;
    if out.Some? then m[12 := out.value] else m
  }

  function Listing(q: List): seq<Id> {
    match q
    case Nil => []
    case Cons(n, rest) => [n] + Listing(rest)
  }

  function LoopState(first: int, bound: int, t: Turn): State {
    State(LoopLinks(first, bound, t.phi, t.sum, t.cmp), LoopMarks(t.back, t.out), Listing(t.queue))
  }

  lemma {:induction false} ListingJoined(a: List, b: List)
    ensures Listing(Append(a, b)) == Listing(a) + Listing(b)
  {
    if a.Cons? {
      ListingJoined(a.tail, b);
      assert [a.head] + Listing(a.tail) + Listing(b) == [a.head] + (Listing(a.tail) + Listing(b));
    }
  }

  predicate AllBelow(q: List) { q.Nil? || (q.head < 15 && AllBelow(q.tail)) }

  lemma {:induction false} BelowListed(q: List)
    requires AllBelow(q)
    ensures forall n :: n in Listing(q) ==> n < 15
  {
    if q.Cons? { BelowListed(q.tail); }
  }

  lemma {:induction false} BelowJoined(a: List, b: List)
    requires AllBelow(a) && AllBelow(b)
    ensures AllBelow(Append(a, b))
  {
    if a.Cons? { BelowJoined(a.tail, b); }
  }

  lemma TurnedBelow(t: Turn)
    requires AllBelow(t.queue) && t.out != Some(false)
    ensures AllBelow(Turned(t).queue) && Turned(t).out != Some(false)
  {
    if t.queue.Cons? {
      var rest := t.queue.tail;
      BelowJoined(rest, Cons(8, Cons(13, Nil)));
      BelowJoined(rest, Cons(7, Cons(9, Nil)));
      BelowJoined(rest, Cons(10, Nil));
      BelowJoined(rest, Cons(11, Cons(12, Nil)));
      BelowJoined(rest, Cons(7, Cons(11, Cons(12, Nil))));
      BelowJoined(rest, Cons(13, Nil));
    }
  }

  /** What the rounds need to know about the graph. */
  ghost predicate LoopParts(g: Graph) {
    && WellFormed(g) && |g.nodes| == 15 && g.startBlock == 0 && g.nodes[2].kind == Block([1, 11])
    && g.nodes[7] == Node(Phi([5, 8]), 2) && g.nodes[8].kind == Arith(Add, 7, 5, 0) && g.nodes[9].kind == Cmp(Less, 6, 8)
    && g.nodes[10].kind == Cond(9) && g.nodes[11] == Node(ProjX(10, true), 2) && g.nodes[12] == Node(ProjX(10, false), 2)
    && g.outs[7] == [8, 13] && g.outs[8] == [7, 9] && g.outs[9] == [10] && g.outs[10] == [11, 12]
    && WokenIn(g, g.outs[11]) == [7, 11, 12] && WokenIn(g, g.outs[12]) == [13]
    && forall n: Id :: n < 7 || 12 < n < 15 ==> IdleKind(g.nodes[n].kind) && (g.nodes[n].kind.Jmp? ==> n == 1)
  }

  predicate IdleKind(k: Kind) { k.Block? || k.Const? || k.Return? || k.End? || k.Jmp? }

  /** What is left of a state once the first node has been taken off the worklist. */
  function Rest(s: State): State
    requires s.queue != []
  {
    s.(queue := s.queue[1..])
  }

  function Relabel(s: State, n: Id, val: Label, users: seq<Id>): State
    requires n < |s.link|
  {
    if s.link[n] == val then s else s.(link := s.link[n := val], queue := s.queue + users)
  }

  function Remark(s: State, c: Id, taken: bool, woken: seq<Id>): State {
    if c in s.marks && s.marks[c] == taken then s
    else s.(marks := s.marks[c := taken], queue := s.queue + if taken then woken else [])
  }

  /** The label of a phi with operands labelled `a`, over an edge not excluded, and `b`. */
  function Joined(a: Label, b: Label, excluded: bool): Label {
    if excluded then a
    else if a == Unknown then b
    else if a != BadLabel && (b == Unknown || b == a) then a
    else BadLabel
  }

  /** What a label of the comparison says about the edge back. */
  predicate GoesBack(l: Label) { l.Known? ==> l.value == Bool(true) }

  predicate GoesOut(l: Label) { l.Known? ==> l.value != Bool(true) }

  /** A round without the graph. */
  function LoopNext(s: State): State
    requires |s.link| == 15 && s.queue != []
  {
    var n, p := s.queue[0], Rest(s);
    if n == 7 then Relabel(p, 7, Joined(p.link[5], p.link[8], MarkedFalse(p.marks, 11)), [8, 13])
    else if n == 8 then Relabel(p, 8, Transfer(Add, p.link[7], p.link[5]), [7, 9])
    else if n == 9 then Relabel(p, 9, TransferCmp(Less, p.link[6], p.link[8]), [10])
    else if n == 10 then p.(queue := p.queue + [11, 12])
    else if n == 11 then Remark(p, 11, GoesBack(p.link[9]), [7, 11, 12])
    else if n == 12 then Remark(p, 12, GoesOut(p.link[9]), [13])
    else p
  }

  lemma NextVisits(g: Graph, s: State)
    requires Fits(g, s) && s.queue != []
    ensures Fits(g, Rest(s)) && s.queue[0] < |g.nodes| && Next(g, s) == VisitNode(g, Rest(s), s.queue[0])
  {
    RestFits(g, s);
  }

  lemma ValueVisit(g: Graph, s: State, n: Id)
    requires Fits(g, s) && n < |g.nodes| && IsValue(g.nodes[n].kind) && !Inert(g.nodes[n].kind)
    ensures VisitNode(g, s, n) == SetLink(g, s, n, NewLabel(g, s, n))
  {
  }

  lemma PhiLabelJoins(g: Graph, s: State, n: Id, ops: seq<Id>, preds: seq<Id>)
    requires Fits(g, s) && n < |g.nodes| && g.nodes[n].kind == Phi(ops) && Preds(g, g.nodes[n].block) == preds && |ops| == |preds|
    ensures (forall q :: q in ops ==> q < |s.link|) && NewLabel(g, s, n) == JoinFrom(s.link, s.marks, ops, preds, 0, Unknown)
  {
    assert WellFormedNode(g, n) && Operands(g.nodes[n].kind) == ops;
  }

  lemma SumLabelAdds(g: Graph, s: State, n: Id, l: Id, r: Id)
    requires Fits(g, s) && n < |g.nodes| && g.nodes[n].kind == Arith(Add, l, r, 0) && l < |s.link| && r < |s.link|
    ensures NewLabel(g, s, n) == Transfer(Add, s.link[l], s.link[r])
  {
  }

  lemma CmpLabelCompares(g: Graph, s: State, n: Id, l: Id, r: Id)
    requires Fits(g, s) && n < |g.nodes| && g.nodes[n].kind == Cmp(Less, l, r) && l < |s.link| && r < |s.link|
    ensures NewLabel(g, s, n) == TransferCmp(Less, s.link[l], s.link[r])
  {
  }

  lemma EdgeLabelIs(g: Graph, s: State, c: Id, cond: Id)
    requires Fits(g, s) && c < |g.nodes| && g.nodes[c].kind.ProjX? && g.nodes[c].kind.cond == cond && cond < |s.link|
    ensures NewLabel(g, s, c) == s.link[cond]
  {
  }

  lemma EdgeDecision(g: Graph, link: seq<Label>, c: Id, cond: Id, way: bool, sel: Id)
    requires |link| == |g.nodes| && c < |g.nodes| && g.nodes[c].kind == ProjX(cond, way)
    requires cond < |g.nodes| && g.nodes[cond].kind == Cond(sel) && sel < |link|
    ensures MayTake(g, link, c) == (link[sel].Known? ==> (link[sel].value == Bool(true)) == way)
  {
  }

  lemma IdleVisit(g: Graph, s: State, n: Id)
    requires Fits(g, s) && n < |g.nodes|
    requires IdleKind(g.nodes[n].kind) && (g.nodes[n].kind.Jmp? ==> MarkedTrue(s.marks, n))
    ensures VisitNode(g, s, n) == s
  {
  }

  /** An edge of a block that is known to be reached, its label being that of its condition. */
  lemma EdgeVisit(g: Graph, s: State, c: Id, taken: bool)
    requires Fits(g, s) && c < |g.nodes| && g.nodes[c].kind.ProjX? && taken == MayTake(g, s.link, c)
    requires g.nodes[c].block != g.startBlock && AnyTaken(s.marks, Preds(g, g.nodes[c].block)) && s.link[c] == NewLabel(g, s, c)
    ensures VisitNode(g, s, c) == Remark(s, c, taken, WokenIn(g, g.outs[c]))
  {
    var p :| p in Preds(g, g.nodes[c].block) && MarkedTrue(s.marks, p);
    assert AnyMarked(s.marks, Preds(g, g.nodes[c].block));
    assert s.queue + [] == s.queue;
  }

  /** A phi with two operands, the edge of the first not excluded. */
  lemma JoinTwo(link: seq<Label>, marks: map<Id, bool>, a: Id, b: Id, p: Id, q: Id)
    requires a < |link| && b < |link| && MarkedTrue(marks, p)
    ensures JoinFrom(link, marks, [a, b], [p, q], 0, Unknown) == Joined(link[a], link[b], MarkedFalse(marks, q))
  {
    var ops, preds := [a, b], [p, q];
    assert forall val :: JoinFrom(link, marks, ops, preds, 2, val) == val;
    assert JoinFrom(link, marks, ops, preds, 0, Unknown) == JoinFrom(link, marks, ops, preds, 1, link[a])
      || link[a] == BadLabel;
  }

  /** States in which the loop has been entered, and edge and condition labels are what they were. */
  ghost predicate Entered(g: Graph, s: State) {
    && LoopParts(g) && Fits(g, s) && s.queue != [] && MarkedTrue(s.marks, 1)
    && s.link[11] == s.link[10] && s.link[12] == s.link[10]
  }

  lemma NextPhi(g: Graph, s: State)
    requires Entered(g, s) && s.queue[0] == 7
    ensures Next(g, s) == LoopNext(s)
  {
    NextVisits(g, s);
    ValueVisit(g, Rest(s), 7);
    PhiLabelJoins(g, Rest(s), 7, [5, 8], [1, 11]);
    JoinTwo(s.link, s.marks, 5, 8, 1, 11);
  }

  lemma NextSum(g: Graph, s: State)
    requires Entered(g, s) && s.queue[0] == 8
    ensures Next(g, s) == LoopNext(s)
  {
    NextVisits(g, s);
    ValueVisit(g, Rest(s), 8);
    SumLabelAdds(g, Rest(s), 8, 7, 5);
  }

  lemma NextCmp(g: Graph, s: State)
    requires Entered(g, s) && s.queue[0] == 9
    ensures Next(g, s) == LoopNext(s)
  {
    NextVisits(g, s);
    ValueVisit(g, Rest(s), 9);
    CmpLabelCompares(g, Rest(s), 9, 6, 8);
  }

  /** A round that visits an edge of a block known to be reached. */
  lemma NextEdge(g: Graph, s: State, c: Id, cond: Id, way: bool, sel: Id, taken: bool)
    requires Fits(g, s) && s.queue != [] && s.queue[0] == c < |g.nodes| && g.nodes[c].kind == ProjX(cond, way)
    requires cond < |g.nodes| && g.nodes[cond].kind == Cond(sel) && sel < |g.nodes| && s.link[c] == s.link[cond]
    requires g.nodes[c].block != g.startBlock && AnyTaken(s.marks, Preds(g, g.nodes[c].block))
    requires taken == (s.link[sel].Known? ==> (s.link[sel].value == Bool(true)) == way)
    ensures Next(g, s) == Remark(Rest(s), c, taken, WokenIn(g, g.outs[c]))
  {
    NextVisits(g, s);
    EdgeDecision(g, s.link, c, cond, way, sel);
    EdgeLabelIs(g, Rest(s), c, cond);
    EdgeVisit(g, Rest(s), c, taken);
  }

  /** The block of the loop has been entered. */
  ghost predicate LoopEntered(g: Graph, s: State) {
    && Fits(g, s) && |g.nodes| == 15 && g.startBlock == 0 && g.nodes[2].kind == Block([1, 11]) && g.nodes[10].kind == Cond(9)
    && s.queue != [] && MarkedTrue(s.marks, 1)
  }

  lemma EntryTaken(g: Graph, s: State)
    requires LoopEntered(g, s)
    ensures AnyTaken(s.marks, Preds(g, 2))
  {
    assert 1 in Preds(g, 2);
  }

  lemma NextBack(g: Graph, s: State)
    requires LoopEntered(g, s) && g.nodes[11] == Node(ProjX(10, true), 2) && s.link[11] == s.link[10] && s.queue[0] == 11
    ensures Next(g, s) == Remark(Rest(s), 11, GoesBack(s.link[9]), WokenIn(g, g.outs[11]))
  {
    EntryTaken(g, s);
    NextEdge(g, s, 11, 10, true, 9, GoesBack(s.link[9]));
  }

  lemma NextOut(g: Graph, s: State)
    requires LoopEntered(g, s) && g.nodes[12] == Node(ProjX(10, false), 2) && s.link[12] == s.link[10] && s.queue[0] == 12
    ensures Next(g, s) == Remark(Rest(s), 12, GoesOut(s.link[9]), WokenIn(g, g.outs[12]))
  {
    EntryTaken(g, s);
    NextEdge(g, s, 12, 10, false, 9, GoesOut(s.link[9]));
  }

  lemma NextIsLoopNext(g: Graph, s: State)
    requires Entered(g, s)
    ensures Next(g, s) == LoopNext(s)
  {
    var n := s.queue[0];
    if n == 7 {
      NextPhi(g, s);
    } else if n == 8 {
      NextSum(g, s);
    } else if n == 9 {
      NextCmp(g, s);
    } else if n == 11 {
      NextBack(g, s);
    } else if n == 12 {
      NextOut(g, s);
    } else {
      NextVisits(g, s);
      if n != 10 { IdleVisit(g, Rest(s), n); }
    }
  }

  // ---- the rounds are turns of the stages ----

  lemma Relabels(first: int, bound: int, t: Turn, u: Turn, n: Id, val: Label, users: List)
    requires t.queue.Cons? && 7 <= n <= 9 && u.back == t.back && u.out == t.out
    requires u.queue == Wake(LoopState(first, bound, t).link[n] != val, t.queue.tail, users)
    requires LoopState(first, bound, u).link == LoopState(first, bound, t).link[n := val]
    ensures Relabel(Rest(LoopState(first, bound, t)), n, val, Listing(users)) == LoopState(first, bound, u)
  {
    ListingJoined(t.queue.tail, users);
    assert Listing(t.queue)[1..] == Listing(t.queue.tail);
    if LoopState(first, bound, t).link[n] == val {
      assert LoopState(first, bound, t).link[n := val] == LoopState(first, bound, t).link;
    }
  }

  lemma TurnPhi(first: int, bound: int, t: Turn)
    requires LeftAtOnce(first, bound) && t.queue.Cons? && t.queue.head == 7
    ensures LoopNext(LoopState(first, bound, t)) == LoopState(first, bound, Turned(t))
  {
    var val := PhiLabel(first, JoinStage(t.back, t.sum));
    assert Listing(Cons(8, Cons(13, Nil))) == [8, 13];
    assert LoopLinks(first, bound, JoinStage(t.back, t.sum), t.sum, t.cmp) == LoopState(first, bound, t).link[7 := val];
    Relabels(first, bound, t, Turned(t), 7, val, Cons(8, Cons(13, Nil)));
  }

  lemma TurnSum(first: int, bound: int, t: Turn)
    requires t.queue.Cons? && t.queue.head == 8
    ensures LoopNext(LoopState(first, bound, t)) == LoopState(first, bound, Turned(t))
  {
    assert Listing(Cons(7, Cons(9, Nil))) == [7, 9];
    assert LoopLinks(first, bound, t.phi, t.phi, t.cmp) == LoopState(first, bound, t).link[8 := SumLabel(first, t.phi)];
    Relabels(first, bound, t, Turned(t), 8, SumLabel(first, t.phi), Cons(7, Cons(9, Nil)));
  }

  lemma TurnCmp(first: int, bound: int, t: Turn)
    requires LeftAtOnce(first, bound) && t.queue.Cons? && t.queue.head == 9
    ensures LoopNext(LoopState(first, bound, t)) == LoopState(first, bound, Turned(t))
  {
    assert Listing(Cons(10, Nil)) == [10];
    assert LoopLinks(first, bound, t.phi, t.sum, t.sum) == LoopState(first, bound, t).link[9 := CmpLabel(t.sum)];
    Relabels(first, bound, t, Turned(t), 9, CmpLabel(t.sum), Cons(10, Nil));
  }

  lemma TurnCond(first: int, bound: int, t: Turn)
    requires t.queue.Cons? && t.queue.head == 10
    ensures LoopNext(LoopState(first, bound, t)) == LoopState(first, bound, Turned(t))
  {
    assert Listing(t.queue)[1..] == Listing(t.queue.tail);
    ListingJoined(t.queue.tail, Cons(11, Cons(12, Nil)));
    assert Listing(Cons(11, Cons(12, Nil))) == [11, 12];
  }

  lemma TurnBack(first: int, bound: int, t: Turn)
    requires t.queue.Cons? && t.queue.head == 11
    ensures LoopNext(LoopState(first, bound, t)) == LoopState(first, bound, Turned(t))
  {
    assert Listing(t.queue)[1..] == Listing(t.queue.tail);
    ListingJoined(t.queue.tail, Cons(7, Cons(11, Cons(12, Nil))));
    assert Listing(Cons(7, Cons(11, Cons(12, Nil)))) == [7, 11, 12];
    assert Listing(t.queue.tail) + [] == Listing(t.queue.tail);
    MarksBack(t.back, t.out, t.cmp != Fixed);
  }

  lemma MarksBack(back: Option<bool>, out: Option<bool>, taken: bool)
    ensures LoopMarks(Some(taken), out) == LoopMarks(back, out)[11 := taken]
  {
  }

  lemma TurnOut(first: int, bound: int, t: Turn)
    requires t.queue.Cons? && t.queue.head == 12 && t.out != Some(false)
    ensures LoopNext(LoopState(first, bound, t)) == LoopState(first, bound, Turned(t))
  {
    assert Listing(t.queue)[1..] == Listing(t.queue.tail);
    ListingJoined(t.queue.tail, Cons(13, Nil));
    assert Listing(Cons(13, Nil)) == [13];
  }

  /** A round of the pass is a turn of the stages. */
  lemma TurnIsRound(first: int, bound: int, t: Turn)
    requires LeftAtOnce(first, bound) && t.queue.Cons? && t.out != Some(false)
    ensures LoopNext(LoopState(first, bound, t)) == LoopState(first, bound, Turned(t))
  {
    if t.queue.head == 7 {
      TurnPhi(first, bound, t);
    } else if t.queue.head == 8 {
      TurnSum(first, bound, t);
    } else if t.queue.head == 9 {
      TurnCmp(first, bound, t);
    } else if t.queue.head == 10 {
      TurnCond(first, bound, t);
    } else if t.queue.head == 11 {
      TurnBack(first, bound, t);
    } else if t.queue.head == 12 {
      TurnOut(first, bound, t);
    } else {
      assert Listing(t.queue)[1..] == Listing(t.queue.tail);
    }
  }

  lemma StateEntered(g: Graph, first: int, bound: int, t: Turn)
    requires LoopParts(g) && AllBelow(t.queue) && t.queue.Cons?
    ensures Entered(g, LoopState(first, bound, t))
  {
    BelowListed(t.queue);
  }

  lemma NextTurns(g: Graph, first: int, bound: int, t: Turn)
    requires LoopParts(g) && LeftAtOnce(first, bound) && AllBelow(t.queue) && t.out != Some(false)
    ensures Next(g, LoopState(first, bound, t)) == LoopState(first, bound, Turned(t))
  {
    if t.queue.Cons? {
      StateEntered(g, first, bound, t);
      NextIsLoopNext(g, LoopState(first, bound, t));
      TurnIsRound(first, bound, t);
    }
  }

  ghost predicate Turning(g: Graph, first: int, bound: int, t: Turn) {
    LoopParts(g) && LeftAtOnce(first, bound) && AllBelow(t.queue) && t.out != Some(false)
  }

  lemma {:induction false} TurnsLast(t: Turn, n: nat)
    requires AllBelow(t.queue) && t.out != Some(false)
    ensures Turns(t, n + 1) == Turned(Turns(t, n)) && AllBelow(Turns(t, n).queue) && Turns(t, n).out != Some(false)
    decreases n
  {
    TurnedBelow(t);
    if n > 0 { TurnsLast(Turned(t), n - 1); }
  }

  lemma TurnsStep(g: Graph, first: int, bound: int, t: Turn, step: State -> State, k: nat)
    requires Turning(g, first, bound, t) && IsNext(g, step)
    ensures step(LoopState(first, bound, Turns(t, k))) == LoopState(first, bound, Turns(t, k + 1))
  {
    TurnsLast(t, k);
    NextTurns(g, first, bound, Turns(t, k));
  }

  lemma TurnsTraced(g: Graph, first: int, bound: int, t: Turn, step: State -> State) returns (bt: nat -> State)
    requires Turning(g, first, bound, t) && IsNext(g, step)
    ensures (forall k: nat :: OneStep(bt, step, k)) && forall k: nat :: bt(k) == LoopState(first, bound, Turns(t, k))
  {
    bt := (k: nat) => LoopState(first, bound, Turns(t, k));
    forall k: nat ensures OneStep(bt, step, k) { TurnsStep(g, first, bound, t, step, k); }
  }

  lemma MilestonesTurn(g: Graph, first: int, bound: int)
    requires LoopParts(g) && LeftAtOnce(first, bound)
    ensures Turning(g, first, bound, Milestone(0))
  {
    var q := Milestone(0).queue;
    assert AllBelow(q.tail.tail.tail.tail.tail.tail.tail.tail);
    assert AllBelow(q.tail.tail.tail.tail);
  }

  /** The turn in which the comparison becomes false is reached, and reached again. */
  lemma MilestoneReached() returns (b: nat, p: nat)
    ensures p > 0 && Turns(Milestone(0), b + p) == Turns(Milestone(0), b) && Turns(Milestone(0), b).queue.Cons?
  {
    ToFirstOut();
    ToLeaving();
    Around();
    TurnsAdd(Milestone(0), 7, 15);
    TurnsAdd(Milestone(0), 22, 17);
    b, p := 22, 17;
  }

  lemma MilestoneTrace(g: Graph, first: int, bound: int, step: State -> State) returns (bt: nat -> State, b: nat, p: nat)
    requires LoopParts(g) && LeftAtOnce(first, bound) && IsNext(g, step)
    ensures (forall k: nat :: OneStep(bt, step, k)) && bt(0) == LoopState(first, bound, Milestone(0))
    ensures p > 0 && bt(b + p) == bt(b) && bt(b).queue != []
  {
    MilestonesTurn(g, first, bound);
    bt := TurnsTraced(g, first, bound, Milestone(0), step);
    b, p := MilestoneReached();
  }

  lemma MeetsRecurrence(g: Graph, s: State, a: nat, at: nat -> State, bt: nat -> State, step: State -> State, b: nat, p: nat)
    requires Steps(at, step) && IsTrace(g, s, at) && (forall k: nat :: OneStep(bt, step, k)) && at(a) == bt(0)
    requires p > 0 && bt(b + p) == bt(b) && bt(b).queue != []
    ensures !ComesToRest(g, s)
  {
    StepsAgree(at, a, bt, 0, step, b);
    StepsAgree(at, a, bt, 0, step, b + p);
    RecurrenceNeverRests(g, s, at, step, a + b, p);
  }

  /** Once the pass has got to the first milestone it goes round for ever. */
  lemma MilestonesRecur(g: Graph, first: int, bound: int, s: State, a: nat)
    requires LoopParts(g) && LeftAtOnce(first, bound) && Rounds(g, s, a) == LoopState(first, bound, Milestone(0))
    ensures !ComesToRest(g, s)
  {
    var at, step := Traced(g, s);
    var bt, b, p := MilestoneTrace(g, first, bound, step);
    MeetsRecurrence(g, s, a, at, bt, step, b, p);
  }
}

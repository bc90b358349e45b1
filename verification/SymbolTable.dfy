/** The symbol table (symboltable.hpp, symboltable.cpp): each symbol knows its innermost binding, and a log of changes
    restores the outer ones when a scope is left. */
module SymbolTables {
  import opened Wrappers

  datatype Definition = Definition(id: nat)

  /** What a symbol knows: its definition and the scope of that definition. Scopes are numbered by depth, None being the
      null pointer outside all scopes. */
  datatype Entry = Entry(def: Option<Definition>, scope: Option<nat>)

  datatype Change = Change(name: string, prev: Entry)

  /** A symbol nobody has bound yet. */
  const Unbound := Entry(None, None)

  function EntryOf(symbols: map<string, Entry>, name: string): Entry {
    if name in symbols then symbols[name] else Unbound
  }

  // ---- a stack of maps ----

  /** What the innermost frame with a binding says. */
  function Expected(frames: seq<map<string, Definition>>, name: string): Entry {
    if frames == [] then Unbound
    else
      var top := |frames| - 1;
      if name in frames[top] then Entry(Some(frames[top][name]), if top == 0 then None else Some(top))
      else Expected(frames[..top], name)
  }

  ghost predicate Shows(symbols: map<string, Entry>, frames: seq<map<string, Definition>>) {
    forall name :: EntryOf(symbols, name) == Expected(frames, name)
  }

  // ---- undoing ----

  /** The symbols after the changes from `k` on have been undone, the latest first. */
  function Undone(symbols: map<string, Entry>, changes: seq<Change>, k: nat): map<string, Entry>
    decreases |changes|
  {
    if |changes| <= k then symbols
    else
      var last := changes[|changes|-1];
      Undone(symbols[last.name := last.prev], changes[..|changes|-1], k)
  }

  ghost predicate SameEntries(a: map<string, Entry>, b: map<string, Entry>) {
    forall name :: EntryOf(a, name) == EntryOf(b, name)
  }

  lemma {:induction false} UndoneSame(a: map<string, Entry>, b: map<string, Entry>, changes: seq<Change>, k: nat)
    requires SameEntries(a, b)
    ensures SameEntries(Undone(a, changes, k), Undone(b, changes, k))
    decreases |changes|
  {
    if |changes| > k {
      var last := changes[|changes|-1];
      var a', b' := a[last.name := last.prev], b[last.name := last.prev];
      forall name ensures EntryOf(a', name) == EntryOf(b', name) { assert EntryOf(a, name) == EntryOf(b, name); }
      UndoneSame(a', b', changes[..|changes|-1], k);
    }
  }

  /** An insertion is undone completely. */
  lemma InsertUndone(symbols: map<string, Entry>, changes: seq<Change>, name: string, entry: Entry, k: nat)
    requires k <= |changes|
    ensures SameEntries(Undone(symbols[name := entry], changes + [Change(name, EntryOf(symbols, name))], k), Undone(symbols, changes, k))
  {
    var log := changes + [Change(name, EntryOf(symbols, name))];
    assert log[..|log|-1] == changes;
    UndoneSame(symbols[name := entry][name := EntryOf(symbols, name)], symbols, changes, k);
  }

  /** A scope opened when the log had `size` entries, with the frames below it. */
  ghost predicate Restores(symbols: map<string, Entry>, changes: seq<Change>, size: nat, below: seq<map<string, Definition>>) {
    size <= |changes| && Shows(Undone(symbols, changes, size), below)
  }

  // ---- the table as a value ----

  /** The symbols, the log and the size the log had when each open scope was entered, the innermost last. */
  datatype Table = Table(symbols: map<string, Entry>, changes: seq<Change>, scopes: seq<nat>)

  function Entered(t: Table): Table { t.(scopes := t.scopes + [|t.changes|]) }

  function Inserted(t: Table, name: string, def: Definition): Table {
    var entry := Entry(Some(def), if t.scopes == [] then None else Some(|t.scopes|));
    t.(symbols := t.symbols[name := entry], changes := t.changes + [Change(name, EntryOf(t.symbols, name))])
  }

  /** Outside all scopes there is nothing to leave. */
  function Left(t: Table): Table {
    if t.scopes == [] then t
    else
      var size := t.scopes[|t.scopes|-1];
      Table(Undone(t.symbols, t.changes, size), if size <= |t.changes| then t.changes[..size] else t.changes, t.scopes[..|t.scopes|-1])
  }

  class SymbolTable {
    var symbols: map<string, Entry>
    var changes: seq<Change>
    var scopes: seq<nat>               // oldSize of each open scope, the innermost last
    ghost var frames: seq<map<string, Definition>>

    ghost function View(): Table
      reads this
    {
      Table(symbols, changes, scopes)
    }

    ghost predicate Valid()
      reads this
    {
      && |frames| == |scopes| + 1 && Shows(symbols, frames)
      && (forall d, e :: 0 <= d <= e < |scopes| ==> scopes[d] <= scopes[e])
      && forall d :: 0 <= d < |scopes| ==> Restores(symbols, changes, scopes[d], frames[..d+1])
    }

    constructor ()
      ensures Valid() && frames == [map[]]
    {
      symbols, changes, scopes, frames := map[], [], [], [map[]];
    }

    /** The pointer to the current scope. */
    function CurrentScope(): Option<nat>
      reads this
    {
      if scopes == [] then None else Some(|scopes|)
    }

    method EnterScope()
      requires Valid()
      modifies this
      ensures Valid() && frames == old(frames) + [map[]] && View() == Entered(old(View()))
    {
      scopes := scopes + [|changes|];
      frames := frames + [map[]];
      assert frames[..|frames|-1] == old(frames);
      forall d | 0 <= d < |scopes| ensures Restores(symbols, changes, scopes[d], frames[..d+1]) {
        assert frames[..d+1] == old(frames)[..d+1];
        if d == |scopes| - 1 { assert frames[..d+1] == old(frames); }
      }
    }

    /** A Change: the symbol's old state goes to the log. */
    method Insert(name: string, def: Definition)
      requires Valid()
      modifies this
      ensures Valid() && frames == old(frames[|frames|-1 := frames[|frames|-1][name := def]])
      ensures View() == Inserted(old(View()), name, def)
    {
      ghost var top := |frames| - 1;
      changes := changes + [Change(name, EntryOf(symbols, name))];
      symbols := symbols[name := Entry(Some(def), CurrentScope())];
      frames := frames[top := frames[top][name := def]];
      assert frames[..top] == old(frames)[..top];
      forall n ensures EntryOf(symbols, n) == Expected(frames, n) {
        assert EntryOf(old(symbols), n) == Expected(old(frames), n);
      }
      forall d | 0 <= d < |scopes| ensures Restores(symbols, changes, scopes[d], frames[..d+1]) {
        assert frames[..d+1] == old(frames)[..d+1];
        assert Restores(old(symbols), old(changes), scopes[d], old(frames)[..d+1]);
        InsertUndone(old(symbols), old(changes), name, Entry(Some(def), CurrentScope()), scopes[d]);
      }
    }

    /** Pops the log down to the size it had when the scope was entered. */
    method LeaveScope()
      requires Valid() && scopes != []
      modifies this
      ensures Valid() && frames == old(frames[..|frames|-1]) && View() == Left(old(View()))
    {
      var depth := |scopes| - 1;
      ghost var outer := frames[..depth+1];
      assert Restores(symbols, changes, scopes[depth], outer);
      while |changes| > scopes[depth]
        invariant scopes == old(scopes) && |changes| >= scopes[depth] && |changes| <= |old(changes)| && frames == old(frames)
        invariant Shows(Undone(symbols, changes, scopes[depth]), outer)
        invariant changes == old(changes)[..|changes|]
        invariant forall k :: 0 <= k <= |changes| ==> Undone(symbols, changes, k) == Undone(old(symbols), old(changes), k)
      {
        var last := changes[|changes|-1];
        ghost var before, log := symbols, changes;
        symbols := symbols[last.name := last.prev];
        changes := changes[..|changes|-1];
        forall k | 0 <= k <= |changes| ensures Undone(symbols, changes, k) == Undone(old(symbols), old(changes), k) {
          assert Undone(before, log, k) == Undone(symbols, changes, k);
        }
      }
      assert symbols == Undone(old(symbols), old(changes), scopes[depth]);
      scopes := scopes[..depth];
      frames := outer;
      forall d | 0 <= d < |scopes| ensures Restores(symbols, changes, scopes[d], frames[..d+1]) {
        assert Restores(old(symbols), old(changes), old(scopes)[d], old(frames)[..d+1]);
        assert frames[..d+1] == old(frames)[..d+1];
      }
    }

    /** The innermost binding. */
    method Lookup(name: string) returns (def: Option<Definition>)
      requires Valid()
      ensures def == Expected(frames, name).def
    {
      def := EntryOf(symbols, name).def;
    }

    /** Inside a scope: bound in that very scope. Outside all scopes the answer is always yes. */
    method IsDefinedInCurrentScope(name: string) returns (b: bool)
      requires Valid()
      ensures scopes != [] ==> (b <==> name in frames[|frames|-1])
      ensures scopes == [] ==> b
    {
      b := EntryOf(symbols, name).scope == CurrentScope();
      ScopeOfExpected(frames, name);
      assert EntryOf(symbols, name) == Expected(frames, name);
    }
  }

  lemma {:induction false} ScopeOfExpected(frames: seq<map<string, Definition>>, name: string)
    ensures var s := Expected(frames, name).scope; s.Some? ==> 0 < s.value < |frames| && name in frames[s.value]
    ensures |frames| > 1 ==> (Expected(frames, name).scope == Some(|frames| - 1) <==> name in frames[|frames|-1])
    decreases |frames|
  {
    if frames != [] { ScopeOfExpected(frames[..|frames|-1], name); }
  }

  // ---- whole sequences of operations ----

  datatype Op = Enter | Insert(name: string, def: Definition) | Leave

  function Apply(t: Table, ops: seq<Op>): Table
    decreases |ops|
  {
    if ops == [] then t
    else
      match ops[0]
      case Enter => Apply(Entered(t), ops[1..])
      case Insert(n, d) => Apply(Inserted(t, n, d), ops[1..])
      case Leave => Apply(Left(t), ops[1..])
  }

  /** How far above its start a sequence of operations ends, if it never goes below it. */
  function Height(ops: seq<Op>, h: nat): Option<nat>
    decreases |ops|
  {
    if ops == [] then Some(h)
    else
      match ops[0]
      case Enter => Height(ops[1..], h + 1)
      case Insert(_, _) => Height(ops[1..], h)
      case Leave => if h == 0 then None else Height(ops[1..], h - 1)
  }

  /** Undoing in two steps. */
  lemma {:induction false} UndoneTwice(symbols: map<string, Entry>, changes: seq<Change>, size: nat, k: nat)
    requires k <= size <= |changes|
    ensures Undone(Undone(symbols, changes, size), changes[..size], k) == Undone(symbols, changes, k)
    decreases |changes|
  {
    if size < |changes| {
      var last, rest := changes[|changes|-1], changes[..|changes|-1];
      assert rest[..size] == changes[..size];
      UndoneTwice(symbols[last.name := last.prev], rest, size, k);
    } else {
      assert changes[..size] == changes;
    }
  }

  predicate Ascending(sizes: seq<nat>) { forall i, j :: 0 <= i <= j < |sizes| ==> sizes[i] <= sizes[j] }

  /** Table `u` lies in the scope that was entered on table `t`, below the scopes `more`: undoing down to the log of `t`
      gives back every entry. */
  ghost predicate Within(t: Table, u: Table, more: seq<nat>) {
    && u.scopes == t.scopes + [|t.changes|] + more && t.changes <= u.changes
    && Ascending([|t.changes|] + more + [|u.changes|])
    && SameEntries(Undone(u.symbols, u.changes, |t.changes|), t.symbols)
  }

  lemma EnterWithin(t: Table, u: Table, more: seq<nat>)
    requires Within(t, u, more)
    ensures Within(t, Entered(u), more + [|u.changes|])
  {
    var was, now := [|t.changes|] + more + [|u.changes|], [|t.changes|] + (more + [|u.changes|]) + [|u.changes|];
    assert forall i :: 0 <= i < |now| ==> now[i] == if i < |was| then was[i] else was[|was|-1];
  }

  lemma InsertWithin(t: Table, u: Table, more: seq<nat>, name: string, def: Definition)
    requires Within(t, u, more)
    ensures Within(t, Inserted(u, name, def), more)
  {
    var v := Inserted(u, name, def);
    InsertUndone(u.symbols, u.changes, name, v.symbols[name], |t.changes|);
    var was, now := [|t.changes|] + more + [|u.changes|], [|t.changes|] + more + [|v.changes|];
    assert forall i :: 0 <= i < |now| - 1 ==> now[i] == was[i];
    assert was[|was|-1] <= now[|now|-1];
  }

  lemma LeaveWithin(t: Table, u: Table, more: seq<nat>)
    requires Within(t, u, more) && more != []
    ensures Within(t, Left(u), more[..|more|-1])
  {
    var v, less, size := Left(u), more[..|more|-1], more[|more|-1];
    var was, now := [|t.changes|] + more + [|u.changes|], [|t.changes|] + less + [size];
    assert u.scopes[|u.scopes|-1] == size && u.scopes[..|u.scopes|-1] == t.scopes + [|t.changes|] + less;
    assert forall i :: 0 <= i < |now| ==> now[i] == was[i];
    assert was[0] == |t.changes| && was[|was|-2] == size && was[|was|-1] == |u.changes|;
    UndoneTwice(u.symbols, u.changes, size, |t.changes|);
    assert v.changes == u.changes[..size];
  }

  lemma LeaveLast(t: Table, u: Table)
    requires Within(t, u, [])
    ensures var r := Left(u); SameEntries(r.symbols, t.symbols) && r.changes == t.changes && r.scopes == t.scopes
  {
    assert u.scopes == t.scopes + [|t.changes|] && u.scopes[..|u.scopes|-1] == t.scopes;
  }

  lemma {:induction false} LeavesWithin(t: Table, u: Table, more: seq<nat>, ops: seq<Op>)
    requires Within(t, u, more) && Height(ops, |more|) == Some(0)
    ensures Within(t, Apply(u, ops), [])
    decreases |ops|
  {
    if ops != [] {
      match ops[0] {
        case Enter =>
          EnterWithin(t, u, more);
          LeavesWithin(t, Entered(u), more + [|u.changes|], ops[1..]);
        case Insert(n, d) =>
          InsertWithin(t, u, more, n, d);
          LeavesWithin(t, Inserted(u, n, d), more, ops[1..]);
        case Leave =>
          LeaveWithin(t, u, more);
          LeavesWithin(t, Left(u), more[..|more|-1], ops[1..]);
      }
    }
  }

  /** Main result: entering a scope, any operations that leave the scopes they enter, and leaving the scope restore
      every symbol, the log and the open scopes. */
  lemma LeavingRestores(t: Table, ops: seq<Op>)
    requires Height(ops, 0) == Some(0)
    ensures var r := Left(Apply(Entered(t), ops));
      SameEntries(r.symbols, t.symbols) && r.changes == t.changes && r.scopes == t.scopes
  {
    var u := Entered(t);
    assert u.scopes == t.scopes + [|t.changes|] + [];
    LeavesWithin(t, u, [], ops);
    LeaveLast(t, Apply(u, ops));
  }
}

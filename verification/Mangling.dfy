/** Mangled method names (ast.hpp) decode uniquely. */
module Mangling {
  import opened Syntax

  datatype MethodName = MethodName(className: string, name: string, params: seq<Type>)

  predicate IsDigitChar(c: char) { '0' <= c <= '9' }

  /** A legal identifier. */
  predicate IsIdentifier(s: string) { s != "" && !IsDigitChar(s[0]) }

  /** What the parser can produce; parameters of type void are only ruled out later. */
  predicate Legal(m: MethodName) { IsIdentifier(m.className) && IsIdentifier(m.name) && LegalTypes(m.params) }

  predicate LegalTypes(ts: seq<Type>) { forall k :: 0 <= k < |ts| ==> LegalType(ts[k]) }

  predicate LegalType(t: Type) { t.basic.ClassType? ==> IsIdentifier(t.basic.name) }

  /** One parameter of type void. */
  predicate IsVoid(ts: seq<Type>) { ts == [Type(VoidType, 0)] }

  function Counted(s: string): string { Decimal(|s|) + s }

  function MangleBasic(t: BasicType): string {
    match t
    case BooleanType => "b"
    case IntType => "i"
    case VoidType => "v"
    case ClassType(n) => Counted(n)
  }

  function Repeat(c: char, n: nat): string { if n == 0 then "" else [c] + Repeat(c, n - 1) }

  function MangleType(t: Type): string { Repeat('P', t.dimension) + MangleBasic(t.basic) }

  function MangleTypes(ts: seq<Type>): string {
    if ts == [] then "" else MangleType(ts[0]) + MangleTypes(ts[1..])
  }

  function MangleParams(ts: seq<Type>): string { if ts == [] then "v" else MangleTypes(ts) }

  /** createMangledName. */
  function Mangle(m: MethodName): string {
    "_ZN" + (Counted(m.className) + (Counted(m.name) + ("E" + MangleParams(m.params))))
  }

  lemma OneDigit(n: nat)
    requires n < 10
    ensures Decimal(n) == ['0' + n as char]
  {
  }

  lemma NestedType()
    ensures MangleType(Type(BooleanType, 2)) == "PPb" && MangleType(Type(IntType, 0)) == "i"
  {
    assert Repeat('P', 1) == "P" && Repeat('P', 2) == "PP" && Repeat('P', 0) == "";
  }

  lemma ClassName()
    ensures Counted("Counter") == "7Counter" && Counted("add") == "3add" && MangleType(Type(ClassType("Counter"), 0)) == "7Counter"
  {
    OneDigit(7);
    OneDigit(3);
    assert Repeat('P', 0) == "";
  }

  lemma ExampleTypes()
    ensures MangleTypes([Type(IntType, 0), Type(BooleanType, 2), Type(ClassType("Counter"), 0)]) == "i" + ("PPb" + ("7Counter" + ""))
  {
    NestedType();
    ClassName();
    var (t, u, v) := (Type(IntType, 0), Type(BooleanType, 2), Type(ClassType("Counter"), 0));
    assert [t, u, v][1..] == [u, v] && [u, v][1..] == [v] && [v][1..] == [];
    assert MangleTypes([v]) == MangleType(v) + MangleTypes([]);
    assert MangleTypes([u, v]) == MangleType(u) + MangleTypes([v]);
    assert MangleTypes([t, u, v]) == MangleType(t) + MangleTypes([u, v]);
  }

  /** Counter.add(int, boolean[][], Counter). */
  lemma MangledExample()
    ensures Mangle(MethodName("Counter", "add", [Type(IntType, 0), Type(BooleanType, 2), Type(ClassType("Counter"), 0)]))
      == "_ZN" + ("7Counter" + ("3add" + ("E" + ("i" + ("PPb" + ("7Counter" + ""))))))
  {
    ExampleTypes();
    ClassName();
  }

  // ---- decoding ----

  predicate StartsWithDigit(s: string) { s != "" && IsDigitChar(s[0]) }

  lemma DecimalNotEmpty(n: nat)
    ensures Decimal(n) != "" && StartsWithDigit(Decimal(n))
  {
    assert IsDigitChar(Decimal(n)[0]);
  }

  lemma DigitsNotShorter(a: string, x: string, b: string, y: string)
    requires IsDigits(a) && IsDigits(b) && a + x == b + y && !StartsWithDigit(x)
    ensures |b| <= |a|
  {
    var w := a + x;
    assert forall k :: 0 <= k < |b| ==> w[k] == b[k];
    assert x != "" ==> w[|a|] == x[0];
    assert |a| < |b| ==> IsDigitChar(b[|a|]);
  }

  /** Digits followed by something else can be read back. */
  lemma DigitsSplit(a: string, x: string, b: string, y: string)
    requires IsDigits(a) && IsDigits(b) && a + x == b + y && !StartsWithDigit(x) && !StartsWithDigit(y)
    ensures a == b && x == y
  {
    DigitsNotShorter(a, x, b, y);
    DigitsNotShorter(b, y, a, x);
    assert a == (a + x)[..|a|] && b == (b + y)[..|b|];
    assert x == (a + x)[|a|..] && y == (b + y)[|b|..];
  }

  lemma CountedSplit(s: string, x: string, r: string, y: string)
    requires IsIdentifier(s) && IsIdentifier(r) && Counted(s) + x == Counted(r) + y
    ensures s == r && x == y
  {
    assert Counted(s) + x == Decimal(|s|) + (s + x) && Counted(r) + y == Decimal(|r|) + (r + y);
    assert (s + x)[0] == s[0] && (r + y)[0] == r[0];
    DigitsSplit(Decimal(|s|), s + x, Decimal(|r|), r + y);
    DecimalValue(|s|);
    DecimalValue(|r|);
    assert |s| == |r|;
    assert s == (s + x)[..|s|] && r == (r + y)[..|r|];
    assert x == (s + x)[|s|..] && y == (r + y)[|r|..];
  }

  lemma BasicSplit(t: BasicType, x: string, u: BasicType, y: string)
    requires (t.ClassType? ==> IsIdentifier(t.name)) && (u.ClassType? ==> IsIdentifier(u.name))
    requires MangleBasic(t) + x == MangleBasic(u) + y
    ensures t == u && x == y
  {
    assert (MangleBasic(t) + x)[0] == MangleBasic(t)[0] && (MangleBasic(u) + y)[0] == MangleBasic(u)[0];
    if t.ClassType? { DecimalNotEmpty(|t.name|); }
    if u.ClassType? { DecimalNotEmpty(|u.name|); }
    if t.ClassType? && u.ClassType? {
      CountedSplit(t.name, x, u.name, y);
    } else {
      assert x == (MangleBasic(t) + x)[1..] && y == (MangleBasic(u) + y)[1..];
    }
  }

  lemma HeadOf(a: string, x: string)
    requires a != ""
    ensures a + x != "" && (a + x)[0] == a[0]
  {
  }

  lemma TypeHead(t: Type)
    requires LegalType(t)
    ensures MangleType(t) != "" && (MangleType(t)[0] == 'P' <==> t.dimension > 0)
  {
    BasicStart(t.basic);
    if t.dimension == 0 { assert MangleType(t) == MangleBasic(t.basic); }
  }

  lemma {:induction false} TypeSplit(t: Type, x: string, u: Type, y: string)
    requires LegalType(t) && LegalType(u) && MangleType(t) + x == MangleType(u) + y
    ensures t == u && x == y
    decreases t.dimension
  {
    TypeHead(t);
    TypeHead(u);
    HeadOf(MangleType(t), x);
    HeadOf(MangleType(u), y);
    if t.dimension == 0 {
      assert MangleType(t) == MangleBasic(t.basic) && MangleType(u) == MangleBasic(u.basic);
      BasicSplit(t.basic, x, u.basic, y);
    } else {
      var t', u' := t.(dimension := t.dimension - 1), u.(dimension := u.dimension - 1);
      assert MangleType(t) + x == ['P'] + (MangleType(t') + x) && MangleType(u) + y == ['P'] + (MangleType(u') + y);
      assert (['P'] + (MangleType(t') + x))[1..] == MangleType(t') + x && (['P'] + (MangleType(u') + y))[1..] == MangleType(u') + y;
      TypeSplit(t', x, u', y);
    }
  }

  lemma BasicStart(t: BasicType)
    ensures MangleBasic(t) != "" && MangleBasic(t)[0] != 'P' && (MangleBasic(t)[0] == 'v' ==> t == VoidType)
  {
    if t.ClassType? { DecimalNotEmpty(|t.name|); }
  }

  lemma NoTypes(ts: seq<Type>)
    requires LegalTypes(ts) && MangleTypes(ts) == ""
    ensures ts == []
  {
    if ts != [] {
      TypeHead(ts[0]);
      HeadOf(MangleType(ts[0]), MangleTypes(ts[1..]));
    }
  }

  lemma {:induction false} TypesSplit(ts: seq<Type>, us: seq<Type>)
    requires LegalTypes(ts) && LegalTypes(us) && MangleTypes(ts) == MangleTypes(us)
    ensures ts == us
    decreases |ts|
  {
    if ts == [] {
      NoTypes(us);
    } else if us == [] {
      NoTypes(ts);
    } else {
      TypeSplit(ts[0], MangleTypes(ts[1..]), us[0], MangleTypes(us[1..]));
      TypesSplit(ts[1..], us[1..]);
      assert ts == [ts[0]] + ts[1..] && us == [us[0]] + us[1..];
    }
  }

  /** No parameters look like one parameter of type void. */
  lemma VoidTypes(ts: seq<Type>)
    requires LegalTypes(ts) && ts != []
    ensures MangleTypes(ts) == "v" <==> IsVoid(ts)
  {
    var v := Type(VoidType, 0);
    assert MangleType(v) == "" + "v" && MangleTypes([v]) == MangleType(v) + MangleTypes([v][1..]) && "v" + "" == "v";
    if MangleTypes(ts) == "v" {
      TypeSplit(v, "", ts[0], MangleTypes(ts[1..]));
      NoTypes(ts[1..]);
      assert ts == [ts[0]] + ts[1..];
    }
  }

  /** Parameter lists that mangling does not tell apart. */
  predicate Alike(ts: seq<Type>, us: seq<Type>) {
    ts == us || (ts == [] && IsVoid(us)) || (us == [] && IsVoid(ts))
  }

  lemma ParamsSplit(ts: seq<Type>, us: seq<Type>)
    requires LegalTypes(ts) && LegalTypes(us)
    ensures MangleParams(ts) == MangleParams(us) <==> Alike(ts, us)
  {
    if ts != [] { VoidTypes(ts); }
    if us != [] { VoidTypes(us); }
    if ts != [] && us != [] && MangleTypes(ts) == MangleTypes(us) { TypesSplit(ts, us); }
  }

  /** Main result: methods have equal mangled names exactly if they are equal or differ only in that one has no
      parameter where the other has one of type void, and none has the name of the main function. */
  lemma MangledNamesAreUnique(m: MethodName, n: MethodName)
    requires Legal(m) && Legal(n)
    ensures Mangle(m) == Mangle(n) <==> m.className == n.className && m.name == n.name && Alike(m.params, n.params)
    ensures Mangle(m) != "main"
  {
    var x, y := Counted(m.name) + ("E" + MangleParams(m.params)), Counted(n.name) + ("E" + MangleParams(n.params));
    assert Mangle(m)[0] == '_';
    ParamsSplit(m.params, n.params);
    if Mangle(m) == Mangle(n) {
      assert Mangle(m)[3..] == Counted(m.className) + x && Mangle(n)[3..] == Counted(n.className) + y;
      CountedSplit(m.className, x, n.className, y);
      CountedSplit(m.name, "E" + MangleParams(m.params), n.name, "E" + MangleParams(n.params));
      assert ("E" + MangleParams(m.params))[1..] == MangleParams(m.params) && ("E" + MangleParams(n.params))[1..] == MangleParams(n.params);
    }
  }

  /** The semantic pass refuses void parameters: then different methods have different names. */
  predicate NoVoidParameter(m: MethodName) { Type(VoidType, 0) !in m.params }

  lemma CheckedNamesAreUnique(m: MethodName, n: MethodName)
    requires Legal(m) && Legal(n) && NoVoidParameter(m) && NoVoidParameter(n)
    ensures Mangle(m) == Mangle(n) <==> m == n
  {
    MangledNamesAreUnique(m, n);
  }
}

/**
 * Concrete types run through the rule: the threshold's boundary, the members
 * that count (the static constructor, accessors, operators) and those that do not.
 */
module Scenarios {

  import opened Wrappers
  import opened Enumerable
  import opened Symbols
  import opened Diagnostics
  import opened StaticClassInitializer

  const StaticCtor: Member := Member(Method, true, StaticConstructor)
  const InstanceCtor: Member := Member(Method, false, Constructor)
  const StaticOrdinary: Member := Member(Method, true, Ordinary)
  const InstanceOrdinary: Member := Member(Method, false, Ordinary)
  const StaticGetter: Member := Member(Method, true, PropertyGet)
  const StaticOperator: Member := Member(Method, true, UserDefinedOperator)
  const StaticField: Member := Member(Field, true, Ordinary)
  const StaticProperty: Member := Member(Property, true, Ordinary)

  /** A type whose first member is a static constructor has a static initializer. */
  lemma {:induction false} LeadingStaticCtor(t: NamedTypeSymbol)
    requires |t.members| > 0 && t.members[0] == StaticCtor
    ensures HasStaticInitializer(t)
  {
    HasStaticInitializerIff(t);
    assert IsConstructor(t.members[0]) && t.members[0].isStatic;
  }

  /** The count over three runs of repeated members. */
  lemma {:induction false} CountRuns(x: Member, n: nat, y: Member, k: nat, z: Member, l: nat)
    ensures Count(Repeat(x, n) + Repeat(y, k) + Repeat(z, l), IsStaticMethod)
      == (if IsStaticMethod(x) then n else 0) + (if IsStaticMethod(y) then k else 0) + (if IsStaticMethod(z) then l else 0)
  {
    CountAppend(Repeat(x, n) + Repeat(y, k), Repeat(z, l), IsStaticMethod);
    CountAppend(Repeat(x, n), Repeat(y, k), IsStaticMethod);
    CountRepeat(x, n, IsStaticMethod);
    CountRepeat(y, k, IsStaticMethod);
    CountRepeat(z, l, IsStaticMethod);
  }

  /** A static constructor followed by n, k and l copies of three members. */
  function Runs(name: string, x: Member, n: nat, y: Member, k: nat, z: Member, l: nat): (t: NamedTypeSymbol)
    ensures HasStaticInitializer(t)
    ensures StaticMethodCount(t)
      == 1 + (if IsStaticMethod(x) then n else 0) + (if IsStaticMethod(y) then k else 0) + (if IsStaticMethod(z) then l else 0)
  {
    var t := NamedTypeSymbol(name, [], [StaticCtor] + (Repeat(x, n) + Repeat(y, k) + Repeat(z, l)));
    LeadingStaticCtor(t);
    CountRuns(x, n, y, k, z, l);
    CountAppend([StaticCtor], Repeat(x, n) + Repeat(y, k) + Repeat(z, l), IsStaticMethod);
    t
  }

  /** A static constructor and 51 static methods: reported, with the display name in the message and no location. */
  lemma {:induction false} StaticCtorAndFiftyOneMethodsReported(name: string)
    ensures Evaluate(TypeSymbol(Runs(name, StaticOrdinary, 51, InstanceOrdinary, 0, StaticField, 0))) == Some(Finding(
      "UNOM0003", Warning, "Performance", name + MessageSuffix, None))
  {
    var t := Runs(name, StaticOrdinary, 51, InstanceOrdinary, 0, StaticField, 0);
    assert Evaluate(TypeSymbol(t)).Some?;
    FindingContents(t);
  }

  /** The static constructor is counted too, so a static constructor and 49 static methods make 50: not reported. */
  lemma {:induction false} StaticCtorAndFortyNineMethodsNotReported()
    ensures Evaluate(TypeSymbol(Runs("Bar", StaticOrdinary, 49, InstanceOrdinary, 0, StaticField, 0))) == None
  {
  }

  /** A static constructor and 50 static methods make 51: reported. */
  lemma {:induction false} StaticCtorAndFiftyMethodsReported()
    ensures Evaluate(TypeSymbol(Runs("Bar", StaticOrdinary, 50, InstanceOrdinary, 0, StaticField, 0))).Some?
  {
  }

  /** No constructor at all, a thousand static methods: not reported. */
  lemma {:induction false} NoConstructorNotReported()
    ensures Evaluate(TypeSymbol(NamedTypeSymbol("Baz", [], [InstanceCtor] + Repeat(StaticOrdinary, 1000)))) == None
  {
    var t := NamedTypeSymbol("Baz", [], [InstanceCtor] + Repeat(StaticOrdinary, 1000));
    forall i | 0 <= i < |t.members|
      ensures IsConstructor(t.members[i]) ==> !t.members[i].isStatic
    {
      if i > 0 { assert t.members[i] == StaticOrdinary; }
    }
    NoStaticConstructorNoFinding(t);
  }

  /**
   * Instance methods are never counted: a static constructor, 49 static and 10
   * instance methods count 50 (60 if instance methods counted) and are not reported.
   */
  lemma {:induction false} InstanceMethodsNotCounted()
    ensures Evaluate(TypeSymbol(Runs("Qux", StaticOrdinary, 49, InstanceOrdinary, 10, StaticField, 0))) == None
  {
  }

  /** Static fields and property symbols are never counted, however many there are. */
  lemma {:induction false} FieldsAndPropertiesNotCounted()
    ensures Evaluate(TypeSymbol(Runs("Qux", StaticOrdinary, 49, StaticField, 100, StaticProperty, 100))) == None
  {
  }

  /** Static accessors and operators are methods, so they count: 25 getters and 25 operators are reported. */
  lemma {:induction false} AccessorsAndOperatorsCounted()
    ensures Evaluate(TypeSymbol(Runs("Quux", StaticGetter, 25, StaticOperator, 25, StaticField, 0))).Some?
  {
  }
}

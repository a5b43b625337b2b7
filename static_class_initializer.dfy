/**
 * Rule UNOM0003: a named type that declares a static constructor and has more
 * than fifty static methods is reported, once, as a performance warning.
 */
module StaticClassInitializer {

  import opened Wrappers
  import opened Enumerable
  import opened Symbols
  import opened Diagnostics

  const RuleId: string := "UNOM0003"
  /** The message template, written phrase by phrase; {0} stands for the type's display name. */
  const MessageFormat: string :=
    "{0}" + " has a static type" + " initializer and" + " contains too many"
    + " static methods." + " Refactor to use" + " instance methods"
    + " or remove the" + " static type" + " initializer."
  const Category: string := "Performance"

  /** The number of static methods a type may have before it is reported (the test is strict). */
  const StaticMethodLimit: nat := 50

  const Rule: DiagnosticDescriptor := DiagnosticDescriptor(RuleId, MessageFormat, Category, Warning, true)

  /** The analyzer supports exactly one descriptor. */
  const SupportedDiagnostics: seq<DiagnosticDescriptor> := [Rule]

  /** What follows the display name in every message of this rule. */
  const MessageSuffix: string := MessageFormat[3..]

  /** Constructors.Any(c => c.IsStatic). */
  function HasStaticInitializer(t: NamedTypeSymbol): (r: bool)
  {
    Any(Constructors(t), IsStatic)
  }

  /** GetMembers().Count(m => m.Kind == SymbolKind.Method && m.IsStatic). */
  function StaticMethodCount(t: NamedTypeSymbol): (r: nat)
    ensures r <= |t.members|
  {
    Count(t.members, IsStaticMethod)
  }

  /** Container.OnSymbolAction: the diagnostic reported for one symbol, if any. */
  function Evaluate(symbol: Symbol): (r: Option<Finding>)
    ensures r.Some? ==> symbol.TypeSymbol?
    ensures r.Some? ==> r.value.id == "UNOM0003" && r.value.severity == Warning && r.value.category == "Performance"
  {
    match symbol
    case TypeSymbol(t) =>
      var hasStaticInitializer := HasStaticInitializer(t);
      var staticMethodsCount := StaticMethodCount(t);
      if hasStaticInitializer && staticMethodsCount > StaticMethodLimit then
        Some(CreateDiagnostic(SupportedDiagnostics[0], FirstOrDefault(t.locations), t.displayName))
      else
        None
    case OtherSymbol(_) => None
  }

  // ---------------------------------------------------------------------------
  // The two attributes, against their independent readings

  lemma {:induction false} HasStaticInitializerIff(t: NamedTypeSymbol)
    ensures HasStaticInitializer(t) <==> DeclaresStaticConstructor(t)
  {
    AnyWhere(t.members, IsConstructor, IsStatic);
  }

  lemma {:induction false} StaticMethodCountIsCardinality(t: NamedTypeSymbol)
    ensures StaticMethodCount(t) == |StaticMethodPositions(t)|
  {
    CountIsCardinality(t.members, IsStaticMethod);
    assert Positions(t.members, IsStaticMethod) == StaticMethodPositions(t);
  }

  /** For a type the compiler built, the static initializer is a member of kind StaticConstructor. */
  lemma {:induction false} HasStaticInitializerWellFormed(t: NamedTypeSymbol)
    requires WellFormed(t)
    ensures HasStaticInitializer(t) <==>
      exists i :: 0 <= i < |t.members| && t.members[i].kind == Method && t.members[i].methodKind == StaticConstructor
  {
    HasStaticInitializerIff(t);
    if exists i :: 0 <= i < |t.members| && t.members[i].kind == Method && t.members[i].methodKind == StaticConstructor {
      var i :| 0 <= i < |t.members| && t.members[i].kind == Method && t.members[i].methodKind == StaticConstructor;
      assert IsConstructor(t.members[i]);
    }
  }

  /** The static constructor is itself a static method, so it is part of the count. */
  lemma {:induction false} StaticInitializerIsCounted(t: NamedTypeSymbol)
    requires HasStaticInitializer(t)
    ensures StaticMethodCount(t) >= 1
  {
    HasStaticInitializerIff(t);
    var i :| 0 <= i < |t.members| && IsConstructor(t.members[i]) && t.members[i].isStatic;
    assert IsStaticMethod(t.members[i]);
  }

  // ---------------------------------------------------------------------------
  // The decision

  /** A finding is produced exactly for a named type with a static constructor and more than fifty static methods. */
  lemma {:induction false} EvaluateIff(symbol: Symbol)
    ensures Evaluate(symbol).Some? <==>
      symbol.TypeSymbol? && DeclaresStaticConstructor(symbol.namedType) && |StaticMethodPositions(symbol.namedType)| > 50
  {
    if symbol.TypeSymbol? {
      HasStaticInitializerIff(symbol.namedType);
      StaticMethodCountIsCardinality(symbol.namedType);
    }
  }

  /** Without a static constructor nothing is reported, however many static methods there are. */
  lemma {:induction false} NoStaticConstructorNoFinding(t: NamedTypeSymbol)
    requires forall i :: 0 <= i < |t.members| && IsConstructor(t.members[i]) ==> !t.members[i].isStatic
    ensures Evaluate(TypeSymbol(t)) == None
  {
    HasStaticInitializerIff(t);
  }

  /** Fifty static methods are not too many. */
  lemma {:induction false} FiftyStaticMethodsNoFinding(t: NamedTypeSymbol)
    requires |StaticMethodPositions(t)| == 50
    ensures Evaluate(TypeSymbol(t)) == None
  {
    EvaluateIff(TypeSymbol(t));
  }

  /** Fifty-one static methods beside a static constructor are. */
  lemma {:induction false} FiftyOneStaticMethodsFinding(t: NamedTypeSymbol)
    requires DeclaresStaticConstructor(t) && |StaticMethodPositions(t)| == 51
    ensures Evaluate(TypeSymbol(t)).Some?
  {
    EvaluateIff(TypeSymbol(t));
  }

  /** The suffix, phrase by phrase, contains no placeholder. */
  lemma {:induction false} MessageSuffixPhrases()
    ensures MessageSuffix == " has a static type" + " initializer and" + " contains too many"
      + " static methods." + " Refactor to use" + " instance methods"
      + " or remove the" + " static type" + " initializer."
    ensures BraceFree(MessageSuffix)
  {
    var p0, p1, p2 := " has a static type", " initializer and", " contains too many";
    var p3, p4, p5 := " static methods.", " Refactor to use", " instance methods";
    var p6, p7, p8 := " or remove the", " static type", " initializer.";
    assert MessageFormat == "{0}" + (p0 + p1 + p2 + p3 + p4 + p5 + p6 + p7 + p8);
    assert BraceFree(p0);
    assert BraceFree(p1);
    assert BraceFree(p2);
    assert BraceFree(p3);
    assert BraceFree(p4);
    assert BraceFree(p5);
    assert BraceFree(p6);
    assert BraceFree(p7);
    assert BraceFree(p8);
    BraceFreeAppend(p0, p1);
    BraceFreeAppend(p0 + p1, p2);
    BraceFreeAppend(p0 + p1 + p2, p3);
    BraceFreeAppend(p0 + p1 + p2 + p3, p4);
    BraceFreeAppend(p0 + p1 + p2 + p3 + p4, p5);
    BraceFreeAppend(p0 + p1 + p2 + p3 + p4 + p5, p6);
    BraceFreeAppend(p0 + p1 + p2 + p3 + p4 + p5 + p6, p7);
    BraceFreeAppend(p0 + p1 + p2 + p3 + p4 + p5 + p6 + p7, p8);
  }

  /** The message is the template with the display name in place of {0}. */
  lemma {:induction false} FormattedMessage(name: string)
    ensures Format(MessageFormat, name) == name + MessageSuffix
  {
    MessageSuffixPhrases();
    assert StartsWithPlaceholder(MessageFormat);
  }

  /** The finding's identity, message and location. */
  lemma {:induction false} FindingContents(t: NamedTypeSymbol)
    requires Evaluate(TypeSymbol(t)).Some?
    ensures Evaluate(TypeSymbol(t)) == Some(Finding(
      "UNOM0003", Warning, "Performance",
      t.displayName + MessageSuffix,
      if |t.locations| > 0 then Some(t.locations[0]) else None))
  {
    MessageSuffixPhrases();
    assert StartsWithPlaceholder(MessageFormat);
  }

  /** The message starts with the display name and ends with the fixed suffix. */
  lemma {:induction false} MessageShape(t: NamedTypeSymbol)
    requires Evaluate(TypeSymbol(t)).Some?
    ensures var m := Evaluate(TypeSymbol(t)).value.message;
      |m| == |t.displayName| + |MessageSuffix| &&
      m[..|t.displayName|] == t.displayName && m[|t.displayName|..] == MessageSuffix
  {
    FindingContents(t);
  }

  /** Locations play no part in the decision: a type with none is still reported. */
  lemma {:induction false} LocationsDoNotDecide(t: NamedTypeSymbol, locations: seq<Location>)
    ensures Evaluate(TypeSymbol(t.(locations := locations))).Some? == Evaluate(TypeSymbol(t)).Some?
    ensures Evaluate(TypeSymbol(t)).Some? && locations == [] ==>
      Evaluate(TypeSymbol(t.(locations := locations))).value.location == None
  {
  }

  // ---------------------------------------------------------------------------
  // Changing the member list

  /** The members obtained by inserting m before position i. */
  function InsertMember(t: NamedTypeSymbol, i: nat, m: Member): (r: NamedTypeSymbol)
    requires i <= |t.members|
    ensures |r.members| == |t.members| + 1 && r.members[i] == m
    ensures r.displayName == t.displayName && r.locations == t.locations
    ensures r.members[..i] == t.members[..i] && r.members[i + 1..] == t.members[i..]
  {
    t.(members := t.members[..i] + [m] + t.members[i..])
  }

  /** A member that is not static, or not a method, is neither counted nor a static constructor. */
  predicate Irrelevant(m: Member)
  {
    m.kind != Method || !m.isStatic
  }

  lemma {:induction false} StaticMethodCountInsert(t: NamedTypeSymbol, i: nat, m: Member)
    requires i <= |t.members|
    ensures StaticMethodCount(InsertMember(t, i, m)) == StaticMethodCount(t) + (if IsStaticMethod(m) then 1 else 0)
  {
    CountInsert(t.members, i, m, IsStaticMethod);
  }

  lemma {:induction false} HasStaticInitializerInsert(t: NamedTypeSymbol, i: nat, m: Member)
    requires i <= |t.members|
    ensures HasStaticInitializer(InsertMember(t, i, m)) <==> (IsConstructor(m) && m.isStatic) || HasStaticInitializer(t)
  {
    HasStaticInitializerIff(t);
    HasStaticInitializerIff(InsertMember(t, i, m));
    AnyInsert(t.members, i, m, (c: Member) => IsConstructor(c) && c.isStatic);
  }

  lemma {:induction false} InsertIrrelevantMember(t: NamedTypeSymbol, i: nat, m: Member)
    requires i <= |t.members| && Irrelevant(m)
    ensures Evaluate(TypeSymbol(InsertMember(t, i, m))) == Evaluate(TypeSymbol(t))
  {
    StaticMethodCountInsert(t, i, m);
    HasStaticInitializerInsert(t, i, m);
  }

  lemma {:induction false} RemoveIrrelevantMember(t: NamedTypeSymbol, i: nat)
    requires i < |t.members| && Irrelevant(t.members[i])
    ensures Evaluate(TypeSymbol(t.(members := t.members[..i] + t.members[i + 1..]))) == Evaluate(TypeSymbol(t))
  {
    var rest := t.members[..i] + t.members[i + 1..];
    var s := t.(members := rest);
    assert rest[..i] == t.members[..i] && rest[i..] == t.members[i + 1..];
    assert rest[..i] + [t.members[i]] + rest[i..] == t.members;
    assert InsertMember(s, i, t.members[i]) == t;
    InsertIrrelevantMember(s, i, t.members[i]);
  }

  /** A reported type stays reported when another static method is added. */
  lemma {:induction false} InsertStaticMethodKeepsFinding(t: NamedTypeSymbol, i: nat, m: Member)
    requires i <= |t.members| && IsStaticMethod(m)
    requires Evaluate(TypeSymbol(t)).Some?
    ensures Evaluate(TypeSymbol(InsertMember(t, i, m))).Some?
  {
    StaticMethodCountInsert(t, i, m);
    HasStaticInitializerInsert(t, i, m);
  }
}

/**
 * The part of a compiler's symbol table the rule reads: a symbol handed to the
 * per-symbol callback, and for a named type its display name, its source
 * locations and its directly declared members.
 */
module Symbols {

  import opened Enumerable

  /** The kind of a symbol (a subset of the compiler's SymbolKind enumeration). */
  datatype SymbolKind =
    | Alias | ArrayType | Assembly | ErrorType | Event | Field | Label | Local
    | Method | NamedType | Namespace | Parameter | Property | TypeParameter

  /** The kind of a method symbol (a subset of the compiler's MethodKind enumeration). */
  datatype MethodKind =
    | Ordinary | Constructor | StaticConstructor | Destructor
    | PropertyGet | PropertySet | EventAdd | EventRemove | EventRaise
    | UserDefinedOperator | Conversion | ExplicitInterfaceImplementation

  /** An opaque source position owned by the host. */
  datatype Location = Location(path: string, start: nat, length: nat)

  /**
   * One member returned by GetMembers(). The method kind is only meaningful
   * when the kind is Method.
   */
  datatype Member = Member(kind: SymbolKind, isStatic: bool, methodKind: MethodKind)

  /** A named type symbol: ToDisplayString(), Locations and GetMembers(). */
  datatype NamedTypeSymbol = NamedTypeSymbol(displayName: string, locations: seq<Location>, members: seq<Member>)

  /**
   * The symbol given to the callback: a named type, or a symbol of some other
   * kind. Every named type is a TypeSymbol, so an OtherSymbol's kind is never
   * NamedType (ValidSymbol).
   */
  datatype Symbol = TypeSymbol(namedType: NamedTypeSymbol) | OtherSymbol(kind: SymbolKind)

  predicate ValidSymbol(s: Symbol)
  {
    s.OtherSymbol? ==> s.kind != NamedType
  }

  /** A member that is an instance or a static constructor. */
  predicate IsConstructor(m: Member)
  {
    m.kind == Method && (m.methodKind == Constructor || m.methodKind == StaticConstructor)
  }

  predicate IsStatic(m: Member)
  {
    m.isStatic
  }

  /** The test applied to each member when counting static methods. */
  predicate IsStaticMethod(m: Member)
  {
    m.kind == Method && m.isStatic
  }

  /** INamedTypeSymbol.Constructors: the constructors among the members. */
  function Constructors(t: NamedTypeSymbol): (r: seq<Member>)
    ensures forall c :: c in r ==> c in t.members && IsConstructor(c)
    ensures forall i :: 0 <= i < |t.members| && IsConstructor(t.members[i]) ==> t.members[i] in r
  {
    Where(t.members, IsConstructor)
  }

  /** The members a compiler can produce: only a static constructor is static among constructors. */
  ghost predicate WellFormed(t: NamedTypeSymbol)
  {
    forall i :: 0 <= i < |t.members| && IsConstructor(t.members[i]) ==>
      (t.members[i].isStatic <==> t.members[i].methodKind == StaticConstructor)
  }

  /** Some member is a constructor marked static. */
  ghost predicate DeclaresStaticConstructor(t: NamedTypeSymbol)
  {
    exists i :: 0 <= i < |t.members| && IsConstructor(t.members[i]) && t.members[i].isStatic
  }

  /** The positions of the static Method-kind members. */
  ghost function StaticMethodPositions(t: NamedTypeSymbol): set<int>
  {
    set i | 0 <= i < |t.members| && t.members[i].kind == Method && t.members[i].isStatic
  }
}

# UNOM0003: static type initializer with too many static methods

A model of the Roslyn diagnostic analyzer `StaticClassInitializerAnalyzer` of
Uno.MonoAnalyzers. For each named type symbol the compiler hands it, the
analyzer:

1. decides whether the type has a static initializer: some member of
   `Constructors` is static;
2. counts the members returned by `GetMembers()` whose kind is `Method` and
   which are static;
3. reports one diagnostic when the type has a static initializer and the count
   is strictly greater than 50.

The diagnostic carries the rule's fixed identity: id `UNOM0003`, severity
`Warning`, category `Performance`. Its message is the rule's template with the
type's display name in place of `{0}`. Its location is the type's first source
location, or none when the type has no locations.

The model is pure, as the analyzer is. The LINQ calls the analyzer makes
(`Any`, `Count`, `FirstOrDefault`) and the `Constructors` view they work on become
functions over sequences. The per-symbol callback becomes
`StaticClassInitializer.Evaluate`, a function from a symbol to an optional
finding.

Modules, one file each:

- `Wrappers` (`wrappers.dfy`): `Option`.
- `Enumerable` (`enumerable.dfy`): `Any`, `Count`, `Where`, `FirstOrDefault`,
  `SelectMany`, each with a characterisation by positions in the sequence. It
  also holds the lemmas about appending and inserting elements and about
  reordering.
- `Symbols` (`symbols.dfy`): the symbol table as data. A `NamedTypeSymbol` has a
  display name, a sequence of locations and a sequence of members. A member has
  a symbol kind, an `isStatic` flag and a method-kind tag. `Constructors` is
  derived from the members whose kind is `Method` and whose method kind is
  `Constructor` or `StaticConstructor`, as the compiler's own `Constructors`
  property is.
- `Diagnostics` (`diagnostics.dfy`): descriptor, severity, the reported
  `Finding`, composite formatting of the `{0}` placeholder, and
  `Diagnostic.Create`.
- `StaticClassInitializer` (`static_class_initializer.dfy`): the rule's constants
  and descriptor, the two attributes, `Evaluate`, and the properties proved about
  it.
- `Host` (`host.dfy`): one pass of the host over many symbols, one callback per
  symbol.
- `Scenarios` (`scenarios.dfy`): concrete types at and around the threshold.

## What the code counts

- Line 65 has no filter on the method kind: every member of kind `Method` that
  is static counts. So the static constructor itself, static operators and
  conversions, and static property and event accessors are all counted
  (`Scenarios.AccessorsAndOperatorsCounted`,
  `StaticClassInitializer.StaticInitializerIsCounted`).
- Because the static constructor counts, a type with a static constructor and
  50 other static methods counts 51 and is reported
  (`Scenarios.StaticCtorAndFiftyMethodsReported`).
- Line 67 compares with the literal `50`; there is no configuration, so the
  model has none (`StaticClassInitializer.StaticMethodLimit`).

## Model

| member | source | states |
|---|---|---|
| `Enumerable.Any` | src/Uno.MonoAnalyzers/StaticClassInitializerAnalyzer.cs:62 | `Any` holds exactly when some position of the sequence holds an element satisfying the predicate |
| `Enumerable.Count` | src/Uno.MonoAnalyzers/StaticClassInitializerAnalyzer.cs:63-65 | the count is at most the length, and it is zero exactly when no element matches |
| `Enumerable.CountIsCardinality` | src/Uno.MonoAnalyzers/StaticClassInitializerAnalyzer.cs:63-65 | `Count` equals the number of positions whose element satisfies the predicate |
| `Enumerable.Where` | src/Uno.MonoAnalyzers/StaticClassInitializerAnalyzer.cs:62 | every kept element comes from the source and matches, and every matching source element is kept |
| `Enumerable.AnyWhere` | src/Uno.MonoAnalyzers/StaticClassInitializerAnalyzer.cs:62 | `Any` over a filtered sequence holds exactly when some source element passes both tests |
| `Enumerable.FirstOrDefault` | src/Uno.MonoAnalyzers/StaticClassInitializerAnalyzer.cs:71 | the result is none exactly for an empty sequence, and otherwise the first element |
| `Symbols.Constructors` | src/Uno.MonoAnalyzers/StaticClassInitializerAnalyzer.cs:62 | the constructors are exactly the members that are instance or static constructors |
| `Diagnostics.Format` | src/Uno.MonoAnalyzers/StaticClassInitializerAnalyzer.cs:19 | a template with no placeholder is left unchanged by formatting |
| `Diagnostics.CreateDiagnostic` | src/Uno.MonoAnalyzers/StaticClassInitializerAnalyzer.cs:69-73 | the diagnostic takes the descriptor's id, default severity and category, and the given location; for a template that starts with `{0}` and has no other placeholder, the message is the argument followed by the rest of the template |
| `StaticClassInitializer.HasStaticInitializerIff` | src/Uno.MonoAnalyzers/StaticClassInitializerAnalyzer.cs:62 | the type has a static initializer exactly when some member is a constructor marked static |
| `StaticClassInitializer.HasStaticInitializerWellFormed` | src/Uno.MonoAnalyzers/StaticClassInitializerAnalyzer.cs:62 | for a type whose only static constructor kind is `StaticConstructor`, the test is true exactly when a `StaticConstructor` member exists |
| `StaticClassInitializer.StaticMethodCountIsCardinality` | src/Uno.MonoAnalyzers/StaticClassInitializerAnalyzer.cs:63-65 | the count is the number of member positions holding a static `Method`-kind member |
| `StaticClassInitializer.StaticInitializerIsCounted` | src/Uno.MonoAnalyzers/StaticClassInitializerAnalyzer.cs:62-65 | a type with a static initializer has a count of at least one, because the static constructor counts |
| `StaticClassInitializer.Evaluate` | src/Uno.MonoAnalyzers/StaticClassInitializerAnalyzer.cs:58-77 | a finding exists only for a named type symbol, and it has id `UNOM0003`, severity `Warning` and category `Performance` |
| `StaticClassInitializer.EvaluateIff` | src/Uno.MonoAnalyzers/StaticClassInitializerAnalyzer.cs:60-67 | a finding exists exactly when the symbol is a named type, some constructor is static, and more than 50 member positions hold static methods |
| `StaticClassInitializer.NoStaticConstructorNoFinding` | src/Uno.MonoAnalyzers/StaticClassInitializerAnalyzer.cs:62-67 | without a static constructor nothing is reported, whatever the number of static methods |
| `StaticClassInitializer.FiftyStaticMethodsNoFinding` | src/Uno.MonoAnalyzers/StaticClassInitializerAnalyzer.cs:67 | exactly 50 static methods are never reported: the comparison is strict |
| `StaticClassInitializer.FiftyOneStaticMethodsFinding` | src/Uno.MonoAnalyzers/StaticClassInitializerAnalyzer.cs:67 | a static constructor and exactly 51 static methods are reported |
| `StaticClassInitializer.MessageSuffixPhrases` | src/Uno.MonoAnalyzers/StaticClassInitializerAnalyzer.cs:19 | the text after `{0}` in the template is the fixed sentence, and it holds no further placeholder |
| `StaticClassInitializer.FormattedMessage` | src/Uno.MonoAnalyzers/StaticClassInitializerAnalyzer.cs:19 | formatting the template with a name yields the name followed by the fixed suffix |
| `StaticClassInitializer.FindingContents` | src/Uno.MonoAnalyzers/StaticClassInitializerAnalyzer.cs:69-74 | the one finding is id, severity, category, the display name plus suffix, and the first location or none |
| `StaticClassInitializer.MessageShape` | src/Uno.MonoAnalyzers/StaticClassInitializerAnalyzer.cs:72 | the message starts with the display name and ends with the fixed suffix |
| `StaticClassInitializer.LocationsDoNotDecide` | src/Uno.MonoAnalyzers/StaticClassInitializerAnalyzer.cs:71 | the locations do not affect whether a finding is produced, and a type without locations yields a finding with no location |
| `StaticClassInitializer.StaticMethodCountInsert` | src/Uno.MonoAnalyzers/StaticClassInitializerAnalyzer.cs:63-65 | inserting a member anywhere raises the count by one exactly when it is a static method |
| `StaticClassInitializer.HasStaticInitializerInsert` | src/Uno.MonoAnalyzers/StaticClassInitializerAnalyzer.cs:62 | after inserting a member, the type has a static initializer exactly when the new member is a static constructor or it had one before |
| `StaticClassInitializer.InsertIrrelevantMember` | src/Uno.MonoAnalyzers/StaticClassInitializerAnalyzer.cs:62-65 | inserting a non-static member or one that is not a method, anywhere, leaves the outcome unchanged |
| `StaticClassInitializer.RemoveIrrelevantMember` | src/Uno.MonoAnalyzers/StaticClassInitializerAnalyzer.cs:62-65 | removing such a member leaves the outcome unchanged |
| `StaticClassInitializer.InsertStaticMethodKeepsFinding` | src/Uno.MonoAnalyzers/StaticClassInitializerAnalyzer.cs:63-67 | a reported type stays reported when another static method is inserted anywhere |
| `Host.Reported` | src/Uno.MonoAnalyzers/StaticClassInitializerAnalyzer.cs:67-75 | one callback reports at most one diagnostic, exactly when the rule triggers, and it is the rule's finding |
| `Host.FindingsCount` | src/Uno.MonoAnalyzers/StaticClassInitializerAnalyzer.cs:44 | a pass reports one diagnostic per triggering symbol, so never more diagnostics than symbols |
| `Host.FindingsSound` | src/Uno.MonoAnalyzers/StaticClassInitializerAnalyzer.cs:74 | every diagnostic of a pass is the finding of one of the symbols visited |
| `Host.FindingsComplete` | src/Uno.MonoAnalyzers/StaticClassInitializerAnalyzer.cs:74 | the finding of every triggering symbol visited is among the diagnostics of the pass |
| `Host.FindingsAppend` | src/Uno.MonoAnalyzers/StaticClassInitializerAnalyzer.cs:44 | the diagnostics of two runs of symbols are those of each run, in order |
| `Host.FindingsOrderIndependent` | src/Uno.MonoAnalyzers/StaticClassInitializerAnalyzer.cs:37 | visiting the same symbols in any order yields the same diagnostics as a multiset |
| `Scenarios.Runs` | src/Uno.MonoAnalyzers/StaticClassInitializerAnalyzer.cs:62-65 | a type built as a static constructor followed by runs of members has a static initializer and a count of one plus its static-method runs |
| `Scenarios.StaticCtorAndFiftyOneMethodsReported` | src/Uno.MonoAnalyzers/StaticClassInitializerAnalyzer.cs:67-73 | a static constructor with 51 static methods yields exactly the finding with the name in the message and no location |
| `Scenarios.StaticCtorAndFortyNineMethodsNotReported` | src/Uno.MonoAnalyzers/StaticClassInitializerAnalyzer.cs:63-67 | a static constructor with 49 static methods counts 50 and is not reported |
| `Scenarios.StaticCtorAndFiftyMethodsReported` | src/Uno.MonoAnalyzers/StaticClassInitializerAnalyzer.cs:63-67 | a static constructor with 50 static methods counts 51 and is reported |
| `Scenarios.NoConstructorNotReported` | src/Uno.MonoAnalyzers/StaticClassInitializerAnalyzer.cs:62 | an instance constructor and a thousand static methods are not reported |
| `Scenarios.InstanceMethodsNotCounted` | src/Uno.MonoAnalyzers/StaticClassInitializerAnalyzer.cs:65 | a static constructor, 49 static and 10 instance methods count 50 and are not reported |
| `Scenarios.FieldsAndPropertiesNotCounted` | src/Uno.MonoAnalyzers/StaticClassInitializerAnalyzer.cs:65 | static fields and property symbols are not counted, however many there are |
| `Scenarios.AccessorsAndOperatorsCounted` | src/Uno.MonoAnalyzers/StaticClassInitializerAnalyzer.cs:65 | static property getters and user-defined operators are counted as static methods |

## Left out

- Registration with the host (`Initialize`, `RegisterCompilationStartAction`,
  `RegisterSymbolAction`, `ConfigureGeneratedCodeAnalysis`): host callbacks with no
  logic of their own. The host's pass over the symbols is modelled only as a list
  of symbols visited one at a time (`Host`).
- Concurrent execution: each callback is a pure function of its own symbol, and
  `Host.FindingsOrderIndependent` states that the order of the calls does not
  change what is reported. Thread interleavings are not modelled.
- `DiagnosticDescriptor` and `Diagnostic` as library objects: they are plain
  records holding the fields that reach the reported diagnostic. The title and
  description strings and the unused `Compilation` parameter of `Container` play
  no part in the decision and are left out.
- `ToDisplayString()`: the display name is an opaque input string.
- `Diagnostics.Format`: models only the `{0}` placeholder. It does not model
  brace escapes, alignment or format strings, since the rule's template has none.
- Source locations are opaque values. Their contents and how the host renders
  them are not modelled.
- `Enumerable.Count`: the count is an unbounded integer. The 32-bit bound of the
  C# `int` result is not modelled, since a type cannot have that many members.
- Idempotence of an evaluation is not stated as a lemma. `Evaluate` is a
  function, so evaluating the same symbol twice gives equal results by
  definition.

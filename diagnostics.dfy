/**
 * Diagnostic descriptors and diagnostics as plain values, and the composite
 * formatting that substitutes the first argument for the placeholder {0}.
 */
module Diagnostics {

  import opened Wrappers
  import opened Symbols

  datatype DiagnosticSeverity = Hidden | Info | Warning | Error

  /** The parts of a DiagnosticDescriptor that reach a reported diagnostic. */
  datatype DiagnosticDescriptor = DiagnosticDescriptor(
    id: string,
    messageFormat: string,
    category: string,
    defaultSeverity: DiagnosticSeverity,
    isEnabledByDefault: bool)

  /** A reported diagnostic. */
  datatype Finding = Finding(
    id: string,
    severity: DiagnosticSeverity,
    category: string,
    message: string,
    location: Option<Location>)

  predicate StartsWithPlaceholder(s: string)
  {
    |s| >= 3 && s[0] == '{' && s[1] == '0' && s[2] == '}'
  }

  /** A string in which no placeholder can start. */
  predicate BraceFree(s: string)
  {
    forall i :: 0 <= i < |s| ==> s[i] != '{'
  }

  lemma BraceFreeAppend(a: string, b: string)
    requires BraceFree(a) && BraceFree(b)
    ensures BraceFree(a + b)
  {
    forall i | 0 <= i < |a + b| ensures (a + b)[i] != '{' {
      if i >= |a| { assert (a + b)[i] == b[i - |a|]; }
    }
  }

  /**
   * Composite formatting with one argument: every {0} in the template is
   * replaced by the argument; every other character is kept.
   */
  function Format(template: string, arg: string): (r: string)
    ensures BraceFree(template) ==> r == template
    decreases |template|
  {
    if |template| == 0 then ""
    else if StartsWithPlaceholder(template) then arg + Format(template[3..], arg)
    else [template[0]] + Format(template[1..], arg)
  }

  /** Diagnostic.Create(descriptor, location, arg): a diagnostic with the descriptor's identity and the formatted message. */
  function CreateDiagnostic(d: DiagnosticDescriptor, location: Option<Location>, arg: string): (f: Finding)
    ensures f.id == d.id && f.severity == d.defaultSeverity && f.category == d.category
    ensures f.location == location
    ensures StartsWithPlaceholder(d.messageFormat) && BraceFree(d.messageFormat[3..]) ==>
      f.message == arg + d.messageFormat[3..]
  {
    Finding(d.id, d.defaultSeverity, d.category, Format(d.messageFormat, arg), location)
  }
}

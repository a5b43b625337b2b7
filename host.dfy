/**
 * The host calls the rule once per symbol, possibly concurrently. Each call
 * depends on its own symbol only, so the diagnostics of a whole pass are the
 * diagnostics of the single calls, and the order of the calls does not matter.
 */
module Host {

  import opened Wrappers
  import opened Enumerable
  import opened Symbols
  import opened Diagnostics
  import opened StaticClassInitializer

  /** What one callback reports: no diagnostic or one. */
  function Reported(symbol: Symbol): (r: seq<Finding>)
    ensures |r| <= 1
    ensures |r| == 1 <==> Evaluate(symbol).Some?
    ensures forall f :: f in r ==> Evaluate(symbol) == Some(f)
  {
    match Evaluate(symbol)
    case Some(f) => [f]
    case None => []
  }

  /** Triggers(s): s is a symbol the rule reports. */
  predicate Triggers(symbol: Symbol)
  {
    Evaluate(symbol).Some?
  }

  /** The diagnostics of one pass over the symbols, in the order the callbacks ran. */
  function Findings(symbols: seq<Symbol>): (r: seq<Finding>)
  {
    SelectMany(symbols, Reported)
  }

  /** One diagnostic per reported symbol: no more, no fewer. */
  lemma {:induction false} FindingsCount(symbols: seq<Symbol>)
    ensures |Findings(symbols)| == Count(symbols, Triggers)
    ensures |Findings(symbols)| <= |symbols|
  {
    SelectManyLength(symbols, Reported, Triggers);
  }

  /** Every diagnostic of a pass is the one its symbol's callback reports. */
  lemma {:induction false} FindingsSound(symbols: seq<Symbol>, f: Finding)
    requires f in Findings(symbols)
    ensures exists s :: s in symbols && Evaluate(s) == Some(f)
  {
    SelectManyMember(symbols, Reported, f);
  }

  /** Every reported symbol's finding is among the diagnostics of a pass that visits it. */
  lemma {:induction false} FindingsComplete(symbols: seq<Symbol>, s: Symbol)
    requires s in symbols && Evaluate(s).Some?
    ensures Evaluate(s).value in Findings(symbols)
  {
    var j :| 0 <= j < |symbols| && symbols[j] == s;
    MultisetRemove(symbols, j);
    SelectManyAppend(symbols[..j] + [s], symbols[j + 1..], Reported);
    SelectManyAppend(symbols[..j], [s], Reported);
    assert SelectMany([s], Reported) == Reported(s) by { assert [s][1..] == []; }
  }

  /** The diagnostics of a pass over a + b are those of a followed by those of b. */
  lemma {:induction false} FindingsAppend(a: seq<Symbol>, b: seq<Symbol>)
    ensures Findings(a + b) == Findings(a) + Findings(b)
  {
    SelectManyAppend(a, b, Reported);
  }

  /** Running the callbacks in any order yields the same diagnostics, as a multiset. */
  lemma {:induction false} FindingsOrderIndependent(a: seq<Symbol>, b: seq<Symbol>)
    requires multiset(a) == multiset(b)
    ensures multiset(Findings(a)) == multiset(Findings(b))
  {
    SelectManyPermutation(a, b, Reported);
  }
}

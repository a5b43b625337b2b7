/**
 * The LINQ operators the analyzer uses (Any, Count, FirstOrDefault), the Where
 * filter that gives the Constructors view, and SelectMany for a pass over many
 * symbols, as functions over sequences with a total predicate.
 */
module Enumerable {

  import opened Wrappers

  /** Enumerable.Any(source, predicate): some element satisfies the predicate. */
  function Any<T>(s: seq<T>, p: T -> bool): (r: bool)
    ensures r <==> exists i :: 0 <= i < |s| && p(s[i])
  {
    if |s| == 0 then false else p(s[0]) || Any(s[1..], p)
  }

  /** Enumerable.Count(source, predicate): how many elements satisfy the predicate. */
  function Count<T>(s: seq<T>, p: T -> bool): (r: nat)
    ensures r <= |s|
    ensures r == 0 <==> !Any(s, p)
  {
    if |s| == 0 then 0 else (if p(s[0]) then 1 else 0) + Count(s[1..], p)
  }

  /** Enumerable.Where(source, predicate): the elements that satisfy the predicate, in order. */
  function Where<T>(s: seq<T>, p: T -> bool): (r: seq<T>)
    ensures forall x :: x in r ==> x in s && p(x)
    ensures forall i :: 0 <= i < |s| && p(s[i]) ==> s[i] in r
  {
    if |s| == 0 then [] else (if p(s[0]) then [s[0]] else []) + Where(s[1..], p)
  }

  /** Enumerable.FirstOrDefault(source) on a sequence of references: the first element, or none. */
  function FirstOrDefault<T>(s: seq<T>): (r: Option<T>)
    ensures r.None? <==> |s| == 0
    ensures r.Some? ==> r.value in s && r.value == s[0]
  {
    if |s| == 0 then None else Some(s[0])
  }

  /** The positions of the elements that satisfy the predicate: an independent reading of Count. */
  ghost function Positions<T>(s: seq<T>, p: T -> bool): set<int>
  {
    set i | 0 <= i < |s| && p(s[i])
  }

  lemma {:induction false} CountAppend<T>(a: seq<T>, b: seq<T>, p: T -> bool)
    ensures Count(a + b, p) == Count(a, p) + Count(b, p)
  {
    if |a| == 0 {
      assert a + b == b;
    } else {
      assert (a + b)[1..] == a[1..] + b;
      CountAppend(a[1..], b, p);
    }
  }

  /** Inserting one element at any position changes the count by one exactly when it matches. */
  lemma {:induction false} CountInsert<T>(s: seq<T>, i: nat, x: T, p: T -> bool)
    requires i <= |s|
    ensures Count(s[..i] + [x] + s[i..], p) == Count(s, p) + (if p(x) then 1 else 0)
  {
    var a, b := s[..i], s[i..];
    CountAppend(a + [x], b, p);
    CountAppend(a, [x], p);
    CountAppend(a, b, p);
    assert Count([x], p) == if p(x) then 1 else 0;
    assert a + b == s;
  }

  /** Any over an insertion: the new element or an old one satisfies the predicate. */
  lemma {:induction false} AnyInsert<T>(s: seq<T>, i: nat, x: T, p: T -> bool)
    requires i <= |s|
    ensures Any(s[..i] + [x] + s[i..], p) <==> p(x) || Any(s, p)
  {
    var a, b := s[..i], s[i..];
    var t := a + [x] + b;
    assert t[i] == x;
    if Any(s, p) {
      var j :| 0 <= j < |s| && p(s[j]);
      if j < i {
        assert t[j] == s[j];
      } else {
        assert t[j + 1] == s[j];
      }
    }
    if Any(t, p) && !p(x) {
      var j :| 0 <= j < |t| && p(t[j]);
      if j < i {
        assert t[j] == s[j];
      } else {
        assert j != i;
        assert t[j] == s[j - 1];
      }
    }
  }

  lemma {:induction false} CountSnoc<T>(s: seq<T>, p: T -> bool)
    requires |s| > 0
    ensures Count(s, p) == Count(s[..|s| - 1], p) + (if p(s[|s| - 1]) then 1 else 0)
  {
    var n := |s| - 1;
    assert s[..n] + [s[n]] == s;
    CountAppend(s[..n], [s[n]], p);
  }

  lemma {:induction false} PositionsSnoc<T>(s: seq<T>, p: T -> bool)
    requires |s| > 0
    ensures Positions(s, p) == Positions(s[..|s| - 1], p) + (if p(s[|s| - 1]) then {|s| - 1} else {})
    ensures |s| - 1 !in Positions(s[..|s| - 1], p)
  {
    var n := |s| - 1;
    forall i | 0 <= i < n
      ensures s[..n][i] == s[i]
    {
    }
  }

  /** Count is the number of positions holding a matching element. */
  lemma {:induction false} CountIsCardinality<T>(s: seq<T>, p: T -> bool)
    ensures Count(s, p) == |Positions(s, p)|
  {
    if |s| == 0 {
      assert Positions(s, p) == {};
    } else {
      var n := |s| - 1;
      CountIsCardinality(s[..n], p);
      CountSnoc(s, p);
      PositionsSnoc(s, p);
    }
  }

  /** Any over the result of Where: some element satisfies both predicates. */
  lemma {:induction false} AnyWhere<T>(s: seq<T>, q: T -> bool, p: T -> bool)
    ensures Any(Where(s, q), p) <==> exists i :: 0 <= i < |s| && q(s[i]) && p(s[i])
  {
    var w := Where(s, q);
    if Any(w, p) {
      var j :| 0 <= j < |w| && p(w[j]);
      assert w[j] in w;
      var i :| 0 <= i < |s| && s[i] == w[j];
      assert q(s[i]) && p(s[i]);
    }
    if exists i :: 0 <= i < |s| && q(s[i]) && p(s[i]) {
      var i :| 0 <= i < |s| && q(s[i]) && p(s[i]);
      assert s[i] in w;
      var j :| 0 <= j < |w| && w[j] == s[i];
      assert p(w[j]);
    }
  }

  /** A sequence of n copies of one element. */
  function Repeat<T>(x: T, n: nat): (r: seq<T>)
    ensures |r| == n
    ensures forall i :: 0 <= i < n ==> r[i] == x
  {
    if n == 0 then [] else [x] + Repeat(x, n - 1)
  }

  lemma {:induction false} CountRepeat<T>(x: T, n: nat, p: T -> bool)
    ensures Count(Repeat(x, n), p) == if p(x) then n else 0
  {
    if n > 0 {
      assert Repeat(x, n)[1..] == Repeat(x, n - 1);
      CountRepeat(x, n - 1, p);
    }
  }

  /** Enumerable.SelectMany(source, selector): the selected sequences, concatenated in order. */
  function SelectMany<T, U>(s: seq<T>, f: T -> seq<U>): (r: seq<U>)
  {
    if |s| == 0 then [] else f(s[0]) + SelectMany(s[1..], f)
  }

  lemma {:induction false} SelectManyAppend<T, U>(a: seq<T>, b: seq<T>, f: T -> seq<U>)
    ensures SelectMany(a + b, f) == SelectMany(a, f) + SelectMany(b, f)
  {
    if |a| == 0 {
      assert a + b == b;
    } else {
      assert (a + b)[1..] == a[1..] + b;
      SelectManyAppend(a[1..], b, f);
    }
  }

  /** When each element selects one item or none, the result has one item per selecting element. */
  lemma {:induction false} SelectManyLength<T, U>(s: seq<T>, f: T -> seq<U>, p: T -> bool)
    requires forall x :: |f(x)| == if p(x) then 1 else 0
    ensures |SelectMany(s, f)| == Count(s, p)
  {
    if |s| > 0 {
      SelectManyLength(s[1..], f, p);
    }
  }

  lemma {:induction false} SelectManyMember<T, U>(s: seq<T>, f: T -> seq<U>, y: U)
    requires y in SelectMany(s, f)
    ensures exists x :: x in s && y in f(x)
  {
    if y !in f(s[0]) {
      SelectManyMember(s[1..], f, y);
      var x :| x in s[1..] && y in f(x);
      assert x in s;
    }
  }

  lemma {:induction false} MultisetRemove<T>(b: seq<T>, j: nat)
    requires j < |b|
    ensures b == b[..j] + [b[j]] + b[j + 1..]
    ensures multiset(b[..j] + b[j + 1..]) == multiset(b) - multiset{b[j]}
  {
    assert b == b[..j] + [b[j]] + b[j + 1..];
  }

  lemma {:induction false} SelectManyRemove<T, U>(b: seq<T>, j: nat, f: T -> seq<U>)
    requires j < |b|
    ensures multiset(SelectMany(b, f)) == multiset(SelectMany(b[..j] + b[j + 1..], f)) + multiset(f(b[j]))
  {
    var left, x, right := b[..j], b[j], b[j + 1..];
    MultisetRemove(b, j);
    assert SelectMany([x], f) == f(x) by { assert [x][1..] == []; }
    calc {
      SelectMany(b, f);
      { SelectManyAppend(left + [x], right, f); }
      SelectMany(left + [x], f) + SelectMany(right, f);
      { SelectManyAppend(left, [x], f); }
      SelectMany(left, f) + f(x) + SelectMany(right, f);
    }
    SelectManyAppend(left, right, f);
    assert multiset(SelectMany(left, f) + f(x) + SelectMany(right, f))
      == multiset(SelectMany(left, f) + SelectMany(right, f)) + multiset(f(x));
  }

  /** Reordering the source reorders the result and nothing else. */
  lemma {:induction false} SelectManyPermutation<T, U>(a: seq<T>, b: seq<T>, f: T -> seq<U>)
    requires multiset(a) == multiset(b)
    ensures multiset(SelectMany(a, f)) == multiset(SelectMany(b, f))
    decreases |a|
  {
    if |a| == 0 {
      assert b == [] by { assert |multiset(b)| == 0; }
    } else {
      var x := a[0];
      assert x in multiset(b);
      var j :| 0 <= j < |b| && b[j] == x;
      MultisetRemove(b, j);
      MultisetRemove(a, 0);
      assert a[..0] + a[1..] == a[1..];
      SelectManyPermutation(a[1..], b[..j] + b[j + 1..], f);
      SelectManyRemove(b, j, f);
      SelectManyRemove(a, 0, f);
    }
  }
}

/** Facts about finite sequences that several components share. */
module Sequences {

  datatype Option<+T> = None | Some(value: T)

  /** The elements of `s` that satisfy `p`, in their order in `s`. */
  function Filter<T>(s: seq<T>, p: T -> bool): (r: seq<T>)
    ensures |r| <= |s|
    ensures forall x | x in r :: x in s && p(x)
    ensures forall x | x in s && p(x) :: x in r
  {
    if s == [] then [] else (if p(s[0]) then [s[0]] else []) + Filter(s[1..], p)
  }

  lemma {:induction false} FilterAppend<T>(s: seq<T>, t: seq<T>, p: T -> bool)
    ensures Filter(s + t, p) == Filter(s, p) + Filter(t, p)
  {
    if s == [] {
      assert s + t == t;
    } else {
      assert (s + t)[1..] == s[1..] + t;
      FilterAppend(s[1..], t, p);
    }
  }

  lemma FilterCons<T>(x: T, s: seq<T>, p: T -> bool)
    ensures Filter([x] + s, p) == if p(x) then [x] + Filter(s, p) else Filter(s, p)
  {
    assert ([x] + s)[1..] == s;
  }

  lemma FilterSnoc<T>(s: seq<T>, x: T, p: T -> bool)
    ensures Filter(s + [x], p) == Filter(s, p) + if p(x) then [x] else []
  {
    FilterAppend(s, [x], p);
    assert [x][1..] == [];
    assert Filter([x], p) == if p(x) then [x] else [];
  }

  lemma {:induction false} FilterSame<T>(s: seq<T>, p: T -> bool, q: T -> bool)
    requires forall x | x in s :: p(x) == q(x)
    ensures Filter(s, p) == Filter(s, q)
  {
    if s != [] {
      FilterSame(s[1..], p, q);
    }
  }

  function Both<T>(p: T -> bool, q: T -> bool): T -> bool {
    x => p(x) && q(x)
  }

  lemma {:induction false} FilterTwice<T>(s: seq<T>, p: T -> bool, q: T -> bool)
    ensures Filter(Filter(s, p), q) == Filter(s, Both(p, q))
  {
    if s != [] {
      FilterTwice(s[1..], p, q);
      FilterAppend(if p(s[0]) then [s[0]] else [], Filter(s[1..], p), q);
    }
  }

  lemma {:induction false} FilterAll<T>(s: seq<T>, p: T -> bool)
    requires forall x | x in s :: p(x)
    ensures Filter(s, p) == s
  {
    if s != [] {
      FilterAll(s[1..], p);
    }
  }

  /** A stronger condition keeps no more elements, and fewer when it drops one. */
  lemma {:induction false} FilterFewer<T>(s: seq<T>, p: T -> bool, q: T -> bool)
    requires forall x | x in s && p(x) :: q(x)
    ensures |Filter(s, p)| <= |Filter(s, q)|
    ensures (exists x :: x in s && q(x) && !p(x)) ==> |Filter(s, p)| < |Filter(s, q)|
  {
    if s != [] {
      FilterFewer(s[1..], p, q);
      assert forall x | x in s :: x == s[0] || x in s[1..];
    }
  }

  lemma NonemptyHasMember<T>(s: seq<T>)
    ensures s != [] ==> exists x :: x in s
  {
    if s != [] {
      assert s[0] in s;
    }
  }

  lemma {:induction false} FilterNone<T>(s: seq<T>, p: T -> bool)
    requires forall x | x in s :: !p(x)
    ensures Filter(s, p) == []
  {
    if s != [] {
      FilterNone(s[1..], p);
    }
  }

  /** How often `x` occurs in `s`. */
  function Occurrences<T(==)>(s: seq<T>, x: T): nat
  {
    if s == [] then 0 else (if s[0] == x then 1 else 0) + Occurrences(s[1..], x)
  }

  lemma {:induction false} OccurrencesAppend<T>(s: seq<T>, t: seq<T>, x: T)
    ensures Occurrences(s + t, x) == Occurrences(s, x) + Occurrences(t, x)
  {
    if s == [] {
      assert s + t == t;
    } else {
      assert (s + t)[1..] == s[1..] + t;
      OccurrencesAppend(s[1..], t, x);
    }
  }

  ghost predicate Distinct<T>(s: seq<T>) {
    forall i, j | 0 <= i < j < |s| :: s[i] != s[j]
  }

  lemma {:induction false} DistinctOccursOnce<T>(s: seq<T>, x: T)
    requires Distinct(s)
    ensures Occurrences(s, x) == if x in s then 1 else 0
  {
    if s != [] {
      DistinctOccursOnce(s[1..], x);
    }
  }

  lemma {:induction false} FilterDistinct<T>(s: seq<T>, p: T -> bool)
    requires Distinct(s)
    ensures Distinct(Filter(s, p))
  {
    if s != [] {
      var rest := Filter(s[1..], p);
      FilterDistinct(s[1..], p);
      assert s[0] !in s[1..];
      assert Filter(s, p) == (if p(s[0]) then [s[0]] else []) + rest;
    }
  }

  lemma FirstTwoDiffer<T>(s: seq<T>)
    requires Distinct(s)
    ensures |s| > 1 ==> s[0] != s[1]
  {
  }

  lemma OnlyOne<T>(s: seq<T>, p: T -> bool, x: T)
    requires Distinct(s) && x in s && p(x) && forall y | y in s && p(y) :: y == x
    ensures |Filter(s, p)| == 1
  {
    var found := Filter(s, p);
    FilterDistinct(s, p);
    FirstTwoDiffer(found);
    assert x in found;
    forall i | 0 <= i < |found| ensures found[i] == x {
      assert found[i] in found;
    }
  }

  lemma NoOther<T>(s: seq<T>, p: T -> bool)
    requires |Filter(s, p)| == 1
    ensures forall y | y in s && p(y) :: y == Filter(s, p)[0]
  {
    var found := Filter(s, p);
    forall y | y in s && p(y) ensures y == found[0] {
      assert y in found;
    }
  }

  ghost predicate ForNone<T>(s: seq<T>, p: T -> bool) { forall x | x in s :: !p(x) }

  ghost predicate ForOne<T>(s: seq<T>, p: T -> bool) {
    exists x :: x in s && p(x) && forall y | y in s && p(y) :: y == x
  }

  lemma FilterOne<T>(s: seq<T>, p: T -> bool)
    requires Distinct(s)
    ensures |Filter(s, p)| == 1 <==> ForOne(s, p)
  {
    if |Filter(s, p)| == 1 {
      NoOther(s, p);
      assert Filter(s, p)[0] in Filter(s, p);
    }
    if x :| x in s && p(x) && forall y | y in s && p(y) :: y == x {
      OnlyOne(s, p, x);
    }
  }

  lemma FilterEmpty<T>(s: seq<T>, p: T -> bool)
    ensures |Filter(s, p)| == 0 <==> ForNone(s, p)
  {
    if ForNone(s, p) {
      FilterNone(s, p);
    } else {
      var x :| x in s && p(x);
      assert x in Filter(s, p);
    }
  }

  function Map<A, B>(f: A -> B, s: seq<A>): (r: seq<B>)
    ensures |r| == |s|
    ensures forall i | 0 <= i < |s| :: r[i] == f(s[i])
  {
    if s == [] then [] else [f(s[0])] + Map(f, s[1..])
  }

  lemma {:induction false} MapAppend<A, B>(f: A -> B, s: seq<A>, t: seq<A>)
    ensures Map(f, s + t) == Map(f, s) + Map(f, t)
  {
    if s == [] {
      assert s + t == t;
    } else {
      assert (s + t)[1..] == s[1..] + t;
      MapAppend(f, s[1..], t);
    }
  }
}

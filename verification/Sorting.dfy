/** The sort of JavaScript arrays, on a total order. */
module Sorting {
  import opened Sequences

  function InsertBy<T>(before: (T, T) -> bool, e: T, s: seq<T>): (r: seq<T>)
    ensures forall x | x in r :: x == e || x in s
    ensures e in r && forall x | x in s :: x in r
    ensures multiset(r) == multiset(s) + multiset{e}
  {
    if s == [] || !before(s[0], e) then [e] + s
    else
      assert s == [s[0]] + s[1..];
      [s[0]] + InsertBy(before, e, s[1..])
  }

  function SortBy<T>(before: (T, T) -> bool, s: seq<T>): (r: seq<T>)
    ensures forall x | x in r :: x in s
    ensures forall x | x in s :: x in r
    ensures multiset(r) == multiset(s)
  {
    if s == [] then []
    else
      assert s == [s[0]] + s[1..];
      InsertBy(before, s[0], SortBy(before, s[1..]))
  }

  ghost predicate SortedBy<T>(before: (T, T) -> bool, s: seq<T>) {
    forall i, j | 0 <= i < j < |s| :: before(s[i], s[j])
  }

  /** Different elements compare one way, and comparisons chain. */
  ghost predicate OrderOn<T>(before: (T, T) -> bool, s: seq<T>) {
    (forall a, b | a in s && b in s && a != b :: before(a, b) || before(b, a)) &&
    (forall a, b, c | a in s && b in s && c in s && before(a, b) && before(b, c) :: before(a, c))
  }

  lemma {:induction false} InsertSorts<T>(before: (T, T) -> bool, e: T, s: seq<T>)
    requires SortedBy(before, s) && e !in s && OrderOn(before, [e] + s)
    ensures SortedBy(before, InsertBy(before, e, s))
  {
    assert e in [e] + s && forall x | x in s :: x in [e] + s;
    if s == [] {
    } else if before(s[0], e) {
      assert forall x | x in [e] + s[1..] :: x in [e] + s;
      InsertSorts(before, e, s[1..]);
      var rest := InsertBy(before, e, s[1..]);
      forall k | 0 <= k < |rest| ensures before(s[0], rest[k]) {
        assert rest[k] in rest;
      }
    } else {
      forall k | 0 <= k < |s| ensures before(e, s[k]) {
        assert before(e, s[0]);
        assert k > 0 ==> before(s[0], s[k]);
      }
    }
  }

  lemma {:induction false} SortSorts<T>(before: (T, T) -> bool, s: seq<T>)
    requires Distinct(s) && OrderOn(before, s)
    ensures SortedBy(before, SortBy(before, s))
  {
    if s != [] {
      assert forall x | x in s[1..] :: x in s;
      SortSorts(before, s[1..]);
      assert forall x | x in [s[0]] + SortBy(before, s[1..]) :: x in s;
      InsertSorts(before, s[0], SortBy(before, s[1..]));
    }
  }

  lemma CountsTwice<T>(s: seq<T>, i: nat, j: nat)
    requires i < j < |s| && s[i] == s[j]
    ensures multiset(s)[s[i]] >= 2
  {
    assert s == s[..j] + [s[j]] + s[j + 1..] && s[i] in s[..j];
  }

  lemma {:induction false} CountsOnce<T>(s: seq<T>, x: T)
    requires Distinct(s)
    ensures multiset(s)[x] <= 1
  {
    if s != [] {
      CountsOnce(s[1..], x);
      assert s == [s[0]] + s[1..];
      assert s[0] !in s[1..];
    }
  }

  /** Rearranging keeps elements distinct. */
  lemma DistinctEitherWay<T>(a: seq<T>, b: seq<T>)
    requires multiset(a) == multiset(b) && Distinct(a)
    ensures Distinct(b)
  {
    forall i, j | 0 <= i < j < |b| ensures b[i] != b[j] {
      CountsOnce(a, b[i]);
      if b[i] == b[j] {
        CountsTwice(b, i, j);
      }
    }
  }

  /** A sorted sequence is determined by its elements. */
  lemma {:induction false} SortedIsUnique<T>(before: (T, T) -> bool, a: seq<T>, b: seq<T>)
    requires SortedBy(before, a) && SortedBy(before, b)
    requires forall x, y | x in a && y in a :: !(before(x, y) && before(y, x))
    requires forall x | x in a :: x in b
    requires forall x | x in b :: x in a
    ensures a == b
  {
    if a == [] {
      NonemptyHasMember(b);
    } else {
      assert a[0] in b;
      assert b[0] in a;
      assert a[0] == b[0];
      assert b == [b[0]] + b[1..] && a == [a[0]] + a[1..];
      forall x | x in a[1..] ensures x in b[1..] {
        assert before(a[0], x) && !before(x, x);
      }
      forall x | x in b[1..] ensures x in a[1..] {
        assert before(b[0], x) && !before(x, x);
      }
      SortedIsUnique(before, a[1..], b[1..]);
    }
  }

  // Orders with ties ------------------------------------------------------------------------------------

  /** Comparing by a key: elements with one key stand together and compare neither way. */
  ghost predicate RanksAll<T(!new)>(before: (T, T) -> bool) {
    (forall a, b | before(a, b) :: !before(b, a)) &&
    (forall a, b, c | !before(b, a) && !before(c, b) :: !before(c, a))
  }

  ghost predicate Ranked<T>(before: (T, T) -> bool, s: seq<T>) {
    forall i, j | 0 <= i < j < |s| :: !before(s[j], s[i])
  }

  lemma {:induction false} InsertRanks<T(!new)>(before: (T, T) -> bool, e: T, s: seq<T>)
    requires RanksAll(before) && Ranked(before, s)
    ensures Ranked(before, InsertBy(before, e, s))
  {
    if s == [] {
    } else if before(s[0], e) {
      InsertRanks(before, e, s[1..]);
      var rest := InsertBy(before, e, s[1..]);
      forall k | 0 <= k < |rest| ensures !before(rest[k], s[0]) {
        assert rest[k] in rest;
        assert rest[k] == e || rest[k] in s[1..];
      }
    } else {
      forall k | 0 <= k < |s| ensures !before(s[k], e) {
        assert k > 0 ==> !before(s[k], s[0]);
      }
    }
  }

  lemma {:induction false} SortRanks<T(!new)>(before: (T, T) -> bool, s: seq<T>)
    requires RanksAll(before)
    ensures Ranked(before, SortBy(before, s))
  {
    if s != [] {
      hide RanksAll, Ranked;
      RankedEmpty(before);
      SortRanks(before, s[1..]);
      InsertRanks(before, s[0], SortBy(before, s[1..]));
    } else {
      RankedEmpty(before);
    }
  }

  lemma RankedEmpty<T>(before: (T, T) -> bool)
    ensures Ranked(before, [])
  {
  }

  /** Elements that compare neither way. */
  ghost predicate Ties<T(!new)>(before: (T, T) -> bool, p: T -> bool) {
    forall a, b | p(a) && p(b) :: !before(a, b)
  }

  lemma FilterPast<T>(x: T, e: T, s: seq<T>, rest: seq<T>, p: T -> bool)
    requires !(p(x) && p(e)) && Filter(rest, p) == (if p(e) then [e] else []) + Filter(s, p)
    ensures Filter([x] + rest, p) == (if p(e) then [e] else []) + Filter([x] + s, p)
  {
    hide Filter;
    FilterCons(x, rest, p);
    FilterCons(x, s, p);
  }

  lemma {:induction false} InsertIsStable<T(!new)>(before: (T, T) -> bool, e: T, s: seq<T>, p: T -> bool)
    requires Ties(before, p)
    ensures Filter(InsertBy(before, e, s), p) == (if p(e) then [e] else []) + Filter(s, p)
  {
    hide Filter;
    if s != [] && before(s[0], e) {
      InsertIsStable(before, e, s[1..], p);
      FilterPast(s[0], e, s[1..], InsertBy(before, e, s[1..]), p);
      assert s == [s[0]] + s[1..];
    } else {
      FilterCons(e, s, p);
    }
  }

  /** Sorting keeps the order among elements that compare neither way. */
  lemma {:induction false} SortIsStable<T(!new)>(before: (T, T) -> bool, s: seq<T>, p: T -> bool)
    requires Ties(before, p)
    ensures Filter(SortBy(before, s), p) == Filter(s, p)
  {
    if s != [] {
      hide Ties;
      SortIsStable(before, s[1..], p);
      InsertIsStable(before, s[0], SortBy(before, s[1..]), p);
    }
  }
}

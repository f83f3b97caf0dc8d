/** The merged candidate page of the content phase is a true prefix of the union of the
    affected and the restored units. */
module CandidatePages {
  import opened Sequences
  import opened Sorting
  import opened KeysetPages
  import opened ConsumerChanges

  lemma SameMembers(a: seq<nat>, b: seq<nat>)
    requires multiset(a) == multiset(b)
    ensures |a| == |b| && forall x :: x in a <==> x in b
  {
    assert forall x :: x in multiset(a) <==> x in a;
    assert forall x :: x in multiset(b) <==> x in b;
    assert |multiset(a)| == |a| && |multiset(b)| == |b|;
  }

  ghost predicate Increasing(s: seq<nat>) {
    forall i, j | 0 <= i < j < |s| :: s[i] < s[j]
  }

  lemma IncreasingIsAscending(s: seq<nat>)
    ensures Increasing(s) <==> Ascending(s, IdKey)
  {
    if Ascending(s, IdKey) {
      forall i, j | 0 <= i < j < |s| ensures s[i] < s[j] {
        assert Before(IdKey(s[i]), IdKey(s[j]));
      }
    }
  }

  lemma ConsIncreasing(x: nat, s: seq<nat>)
    requires Increasing(s) && forall y | y in s :: x < y
    ensures Increasing([x] + s)
  {
    assert forall k | 0 <= k < |s| :: s[k] in s;
  }

  lemma SortIncreasing(s: seq<nat>)
    requires Distinct(s)
    ensures Increasing(Sort(s))
    ensures |Sort(s)| == |s| && forall x :: x in Sort(s) <==> x in s
  {
    SortSorts(Below(), s);
    SameMembers(Sort(s), s);
  }

  /** Two increasing lists interleaved, equal heads taken once. */
  function Merge(a: seq<nat>, b: seq<nat>): (r: seq<nat>)
    ensures |a| <= |r| && |b| <= |r|
    decreases |a| + |b|
  {
    if a == [] then b
    else if b == [] then a
    else if a[0] < b[0] then [a[0]] + Merge(a[1..], b)
    else if b[0] < a[0] then [b[0]] + Merge(a, b[1..])
    else [a[0]] + Merge(a[1..], b[1..])
  }

  lemma {:induction false} MergeMembers(a: seq<nat>, b: seq<nat>)
    ensures forall x :: x in Merge(a, b) <==> x in a || x in b
    decreases |a| + |b|
  {
    if a != [] && b != [] {
      assert a == [a[0]] + a[1..] && b == [b[0]] + b[1..];
      if a[0] < b[0] {
        MergeMembers(a[1..], b);
      } else if b[0] < a[0] {
        MergeMembers(a, b[1..]);
      } else {
        MergeMembers(a[1..], b[1..]);
      }
    }
  }

  lemma {:induction false} MergeIncreasing(a: seq<nat>, b: seq<nat>)
    requires Increasing(a) && Increasing(b)
    ensures Increasing(Merge(a, b))
    decreases |a| + |b|
  {
    if a != [] && b != [] {
      var rest :=
        if a[0] < b[0] then (a[1..], b) else if b[0] < a[0] then (a, b[1..]) else (a[1..], b[1..]);
      MergeIncreasing(rest.0, rest.1);
      MergeMembers(rest.0, rest.1);
      ConsIncreasing(if b[0] < a[0] then b[0] else a[0], Merge(rest.0, rest.1));
    }
  }

  lemma UnionIsMerge(a: seq<nat>, b: seq<nat>)
    requires Ascending(a, IdKey) && Ascending(b, IdKey)
    ensures SortedUnion(a, b) == Merge(a, b) && Ascending(Merge(a, b), IdKey)
  {
    hide Filter;
    var extra := Filter(b, Outside(a));
    FilterAscending(b, IdKey, Outside(a));
    AscendingIsDistinct(a, IdKey);
    AscendingIsDistinct(extra, IdKey);
    SortIncreasing(a + extra) by {
      assert forall i, j | 0 <= i < |a| <= j < |a + extra| :: (a + extra)[j] in extra && (a + extra)[i] in a;
    }
    IncreasingIsAscending(a);
    IncreasingIsAscending(b);
    MergeIncreasing(a, b);
    MergeMembers(a, b);
    IncreasingIsAscending(Merge(a, b));
    IncreasingIsAscending(Sort(a + extra));
    AscendingUnique(SortedUnion(a, b), Merge(a, b), IdKey);
  }

  /** The first `n` of a merge need no more than the first `n` of each list. */
  lemma {:induction false} MergePrefix(a: seq<nat>, b: seq<nat>, n: nat, m: nat, k: nat)
    requires n <= m && n <= k
    ensures FirstPage(Merge(FirstPage(a, m), FirstPage(b, k)), n) == FirstPage(Merge(a, b), n)
    decreases |a| + |b|
  {
    hide *;
    if n == 0 || a == [] || b == [] {
      MergeNothing(a, b, n, m, k);
    } else {
      var x, y := FirstPage(a, m), FirstPage(b, k);
      ConsFirstPage(a, m);
      ConsFirstPage(b, k);
      MergeStep(a, b);
      MergeStep(x, y);
      ConsFirstPage(Merge(a, b), n);
      ConsFirstPage(Merge(x, y), n);
      if a[0] < b[0] {
        MergePrefix(a[1..], b, n - 1, m - 1, k);
      } else if b[0] < a[0] {
        MergePrefix(a, b[1..], n - 1, m, k - 1);
      } else {
        MergePrefix(a[1..], b[1..], n - 1, m - 1, k - 1);
      }
      SameHeadAndTail(FirstPage(Merge(x, y), n), FirstPage(Merge(a, b), n));
    }
  }

  lemma MergeNothing(a: seq<nat>, b: seq<nat>, n: nat, m: nat, k: nat)
    requires n <= m && n <= k && (n == 0 || a == [] || b == [])
    ensures FirstPage(Merge(FirstPage(a, m), FirstPage(b, k)), n) == FirstPage(Merge(a, b), n)
  {
    if n > 0 {
      PageOfPage(a, m, n);
      PageOfPage(b, k, n);
    }
  }

  lemma PageOfPage(s: seq<nat>, n: nat, m: nat)
    requires m <= n
    ensures FirstPage(FirstPage(s, n), m) == FirstPage(s, m)
  {
  }

  lemma SameHeadAndTail(s: seq<nat>, t: seq<nat>)
    requires s != [] && t != [] && s[0] == t[0] && s[1..] == t[1..]
    ensures s == t
  {
    assert s == [s[0]] + s[1..] && t == [t[0]] + t[1..];
  }

  lemma MergeStep(a: seq<nat>, b: seq<nat>)
    requires a != [] && b != []
    ensures var merged := Merge(a, b);
            merged != [] &&
            if a[0] < b[0] then merged[0] == a[0] && merged[1..] == Merge(a[1..], b)
            else if b[0] < a[0] then merged[0] == b[0] && merged[1..] == Merge(a, b[1..])
            else merged[0] == a[0] && merged[1..] == Merge(a[1..], b[1..])
  {
  }

  lemma ConsFirstPage(s: seq<nat>, n: nat)
    requires s != [] && 0 < n
    ensures FirstPage(s, n) != [] && FirstPage(s, n)[0] == s[0] && FirstPage(s, n)[1..] == FirstPage(s[1..], n - 1)
  {
  }

  lemma AboveMerge(a: seq<nat>, b: seq<nat>, after: nat)
    requires Ascending(a, IdKey) && Ascending(b, IdKey)
    ensures Above(Merge(a, b), IdKey, IdKey(after)) ==
            Merge(Above(a, IdKey, IdKey(after)), Above(b, IdKey, IdKey(after)))
  {
    var p := Beyond(IdKey, IdKey(after));
    FilterAscending(a, IdKey, p);
    FilterAscending(b, IdKey, p);
    UnionIsMerge(a, b);
    UnionIsMerge(Filter(a, p), Filter(b, p));
    MergeMembers(a, b);
    MergeMembers(Filter(a, p), Filter(b, p));
    FilterAscending(Merge(a, b), IdKey, p);
    AscendingUnique(Filter(Merge(a, b), p), Merge(Filter(a, p), Filter(b, p)), IdKey);
  }

  /** The unit identifiers a phase ranges over, in order. */
  function Listed(db: Database, bootstrap: bool): seq<nat> {
    if bootstrap then db.bootstrap else SortedUnion(db.affected, db.restored)
  }

  function PhaseCandidates(db: Database, bootstrap: bool, after: nat): Candidates {
    if bootstrap then BootstrapCandidates(db, after) else ContentCandidates(db, after)
  }

  /** Cutting the affected units after 32 and the restored units after 33 loses nothing among
      the first 32 of their union, and still tells whether the union goes on. */
  lemma MergedPage(affected: seq<nat>, restored: seq<nat>)
    ensures var all := Merge(affected, restored);
            var ids := Merge(FirstPage(affected, CONTENT_PAGE), FirstPage(restored, RESTORED_PAGE));
            FirstPage(ids, CONTENT_PAGE) == FirstPage(all, CONTENT_PAGE) &&
            (|all| > CONTENT_PAGE <==> |affected| > CONTENT_PAGE || |ids| > CONTENT_PAGE)
  {
    MergePrefix(affected, restored, CONTENT_PAGE, CONTENT_PAGE, RESTORED_PAGE);
    var ids := Merge(FirstPage(affected, CONTENT_PAGE), FirstPage(restored, RESTORED_PAGE));
    assert |Merge(affected, restored)| >= |affected|;
    assert |ids| >= |FirstPage(restored, RESTORED_PAGE)|;
    assert |FirstPage(ids, CONTENT_PAGE)| == |FirstPage(Merge(affected, restored), CONTENT_PAGE)|;
  }

  lemma ContentPagePrefix(db: Database, after: nat)
    requires Valid(db)
    ensures Ascending(SortedUnion(db.affected, db.restored), IdKey)
    ensures var affected, restored := Above(db.affected, IdKey, IdKey(after)), Above(db.restored, IdKey, IdKey(after));
            Above(SortedUnion(db.affected, db.restored), IdKey, IdKey(after)) == Merge(affected, restored) &&
            SortedUnion(FirstPage(affected, CONTENT_PAGE), FirstPage(restored, RESTORED_PAGE)) ==
              Merge(FirstPage(affected, CONTENT_PAGE), FirstPage(restored, RESTORED_PAGE))
  {
    var affected, restored := Above(db.affected, IdKey, IdKey(after)), Above(db.restored, IdKey, IdKey(after));
    hide Filter, Sort;
    FilterAscending(db.affected, IdKey, Beyond(IdKey, IdKey(after)));
    FilterAscending(db.restored, IdKey, Beyond(IdKey, IdKey(after)));
    UnionIsMerge(db.affected, db.restored);
    AboveMerge(db.affected, db.restored, after);
    FirstPageAscending(affected, CONTENT_PAGE);
    FirstPageAscending(restored, RESTORED_PAGE);
    hide SortedUnion, Merge, Above, Ascending;
    UnionIsMerge(FirstPage(affected, CONTENT_PAGE), FirstPage(restored, RESTORED_PAGE));
  }

  lemma FirstPageAscending(s: seq<nat>, n: nat)
    requires Ascending(s, IdKey)
    ensures Ascending(FirstPage(s, n), IdKey)
  {
  }

  /** A candidate page is the true prefix of all units the phase has still to visit, empty
      only at the end, and it announces more exactly when it leaves some out. */
  lemma CandidatePagePrefix(db: Database, bootstrap: bool, after: nat)
    requires Valid(db)
    ensures Ascending(Listed(db, bootstrap), IdKey)
    ensures var pending := Above(Listed(db, bootstrap), IdKey, IdKey(after));
            var page := PhaseCandidates(db, bootstrap, after);
            page.ids <= pending && (page.ids == [] ==> pending == []) && (page.hasMore <==> page.ids != pending)
  {
    hide *;
    if bootstrap {
      BootstrapPageIs(db, after);
    } else {
      ContentPagePrefix(db, after);
      MergedPage(Above(db.affected, IdKey, IdKey(after)), Above(db.restored, IdKey, IdKey(after)));
      ContentPageIs(db, after);
    }
  }

  lemma BootstrapPageIs(db: Database, after: nat)
    requires Valid(db)
    ensures Ascending(Listed(db, true), IdKey)
    ensures var pending := Above(Listed(db, true), IdKey, IdKey(after));
            var page := PhaseCandidates(db, true, after);
            page.ids <= pending && (page.ids == [] ==> pending == []) && (page.hasMore <==> page.ids != pending)
  {
    hide Above, Ascending;
  }

  lemma ContentPageIs(db: Database, after: nat)
    ensures Listed(db, false) == SortedUnion(db.affected, db.restored)
    ensures var affected, restored := Above(db.affected, IdKey, IdKey(after)), Above(db.restored, IdKey, IdKey(after));
            var ids := SortedUnion(FirstPage(affected, CONTENT_PAGE), FirstPage(restored, RESTORED_PAGE));
            PhaseCandidates(db, false, after).ids == FirstPage(ids, CONTENT_PAGE) &&
            (PhaseCandidates(db, false, after).hasMore <==> |affected| > CONTENT_PAGE || |ids| > CONTENT_PAGE)
    ensures forall s: seq<nat> ::
              FirstPage(s, CONTENT_PAGE) <= s &&
              (|s| > CONTENT_PAGE <==> FirstPage(s, CONTENT_PAGE) != s) &&
              (FirstPage(s, CONTENT_PAGE) == [] ==> s == [])
  {
    hide Above, SortedUnion;
  }
}

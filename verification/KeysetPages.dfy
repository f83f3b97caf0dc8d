/** Keyset pagination: the rows of a query in key order, cut into pages by "the first `limit`
    rows above the last key". Keys stand for their rank in the one total order that the
    database and the reader share; rank zero is the empty string that starts every scan. */
module KeysetPages {
  import opened Sequences

  datatype Position = Position(post: nat, at: nat, id: nat)

  const START := Position(0, 0, 0)

  predicate Before(a: Position, b: Position) {
    a.post < b.post || (a.post == b.post && (a.at < b.at || (a.at == b.at && a.id < b.id)))
  }

  ghost predicate Ascending<T>(rows: seq<T>, key: T -> Position) {
    forall i, j | 0 <= i < j < |rows| :: Before(key(rows[i]), key(rows[j]))
  }

  function Beyond<T>(key: T -> Position, after: Position): T -> bool {
    x => Before(after, key(x))
  }

  /** `SELECT ... WHERE key > after ORDER BY key`. */
  function Above<T>(rows: seq<T>, key: T -> Position, after: Position): seq<T> {
    Filter(rows, Beyond(key, after))
  }

  lemma {:induction false} FilterAscending<T>(rows: seq<T>, key: T -> Position, p: T -> bool)
    requires Ascending(rows, key)
    ensures Ascending(Filter(rows, p), key)
  {
    if rows != [] {
      FilterAscending(rows[1..], key, p);
      assert forall x | x in rows[1..] :: Before(key(rows[0]), key(x));
    }
  }

  lemma {:induction false} AboveOwnKey<T>(rows: seq<T>, key: T -> Position, n: nat)
    requires Ascending(rows, key) && 0 < n <= |rows|
    ensures Above(rows, key, key(rows[n - 1])) == rows[n..]
  {
    if n == 1 {
      assert forall x | x in rows[1..] :: Before(key(rows[0]), key(x));
      FilterAll(rows[1..], Beyond(key, key(rows[0])));
    } else {
      AboveOwnKey(rows[1..], key, n - 1);
      assert rows[1..][n - 2] == rows[n - 1];
      assert rows[1..][n - 1..] == rows[n..];
    }
  }

  /** Continuing after the last row of a page yields exactly the rows the page left out. */
  lemma {:induction false} NextPage<T>(rows: seq<T>, key: T -> Position, after: Position, n: nat)
    requires Ascending(rows, key) && 0 < n <= |Above(rows, key, after)|
    ensures var found := Above(rows, key, after);
            Above(rows, key, key(found[n - 1])) == found[n..]
  {
    var found := Above(rows, key, after);
    if Before(after, key(rows[0])) {
      assert forall x | x in rows :: x == rows[0] || x in rows[1..];
      assert forall x | x in rows[1..] :: Before(key(rows[0]), key(x));
      FilterAll(rows, Beyond(key, after));
      AboveOwnKey(rows, key, n);
    } else {
      NextPage(rows[1..], key, after, n);
      assert found[n - 1] in rows[1..];
      assert Before(key(rows[0]), key(found[n - 1]));
    }
  }

  function Between<T>(key: T -> Position, from: Position, to: Position): T -> bool {
    x => Before(from, key(x)) && !Before(to, key(x))
  }

  /** A later starting key splits what lies above an earlier one. */
  lemma {:induction false} SplitAt<T>(rows: seq<T>, key: T -> Position, from: Position, to: Position)
    requires Ascending(rows, key) && !Before(to, from)
    ensures Above(rows, key, from) ==
            Filter(rows, Between(key, from, to)) + Above(rows, key, to)
  {
    if rows == [] {
    } else if Before(to, key(rows[0])) {
      forall x | x in rows ensures Before(to, key(x)) {
        assert x == rows[0] || Before(key(rows[0]), key(x));
      }
      FilterAll(rows, Beyond(key, from));
      FilterAll(rows, Beyond(key, to));
      FilterNone(rows, Between(key, from, to));
    } else {
      SplitAt(rows[1..], key, from, to);
    }
  }

  lemma AscendingIsDistinct<T>(rows: seq<T>, key: T -> Position)
    requires Ascending(rows, key)
    ensures Distinct(rows)
  {
    forall i, j | 0 <= i < j < |rows| ensures rows[i] != rows[j] {
      assert Before(key(rows[i]), key(rows[j]));
    }
  }

  /** Rows in key order are determined by which rows they are. */
  lemma {:induction false} AscendingUnique<T>(a: seq<T>, b: seq<T>, key: T -> Position)
    requires Ascending(a, key) && Ascending(b, key)
    requires forall x | x in a :: x in b
    requires forall x | x in b :: x in a
    ensures a == b
  {
    if a == [] {
      NonemptyHasMember(b);
    } else {
      assert a[0] in b;
      assert b[0] in a;
      assert a[0] == b[0];
      assert b == [b[0]] + b[1..] && a == [a[0]] + a[1..];
      forall x | x in a[1..] ensures x in b[1..] {
        assert Before(key(a[0]), key(x)) && x in [b[0]] + b[1..];
      }
      forall x | x in b[1..] ensures x in a[1..] {
        assert Before(key(b[0]), key(x)) && x in [a[0]] + a[1..];
      }
      AscendingUnique(a[1..], b[1..], key);
    }
  }
}

/** Reading a newly visible unit's retained observations through windows of one hundred posts
    hands out every one of them, once and in key order. */
module ConsumerActivation {
  import opened Sequences
  import opened KeysetPages
  import opened ConsumerPage
  import opened ConsumerChanges
  import opened CandidatePages
  import opened ConsumerStream

  lemma ConsDistinct(id: nat, ids: seq<nat>)
    requires Distinct(ids) && id !in ids
    ensures Distinct([id] + ids)
  {
  }

  lemma {:induction false} PostIdsDistinct(posts: seq<Post>, p: Post -> bool)
    requires DistinctPosts(posts)
    ensures Distinct(Map(PostId, Filter(posts, p)))
    ensures forall id | id in Map(PostId, Filter(posts, p)) :: exists post :: post in posts && post.id == id
  {
    if posts != [] {
      var rest := Map(PostId, Filter(posts[1..], p));
      PostIdsDistinct(posts[1..], p);
      assert posts == [posts[0]] + posts[1..];
      assert posts[0].id !in rest;
      hide Distinct;
      if p(posts[0]) {
        assert Filter(posts, p)[1..] == Filter(posts[1..], p);
        ConsDistinct(posts[0].id, rest);
        assert Map(PostId, Filter(posts, p)) == [posts[0].id] + rest;
      }
    }
  }

  lemma VisibleIncreasing(db: Database, unit: nat)
    requires Valid(db) && UnitAfter(db, unit).Some?
    ensures Increasing(Visible(db, unit))
  {
    var before, after := UnitBefore(db, unit), UnitAfter(db, unit).value;
    var known := match before case None => {} case Some(held) => set post | post in held.posts :: post.id;
    PostIdsDistinct(after.posts, OriginalOutside(known));
    SortIncreasing(Map(PostId, Filter(after.posts, OriginalOutside(known))));
  }

  lemma {:induction false} FilterIncreasing(s: seq<nat>, p: nat -> bool)
    requires Increasing(s)
    ensures Increasing(Filter(s, p))
  {
    if s != [] {
      FilterIncreasing(s[1..], p);
      assert forall x | x in s[1..] :: s[0] < x;
      if p(s[0]) {
        ConsIncreasing(s[0], Filter(s[1..], p));
      }
    }
  }

  /** The posts a window still has to cover, and the window itself. */
  function Remaining(db: Database, unit: nat, from: Position): seq<nat>
    requires UnitAfter(db, unit).Some?
  {
    Filter(Visible(db, unit), AtLeast(from.post))
  }

  function WindowEnd(db: Database, posts: seq<nat>): Position
    requires posts != []
  {
    Position(posts[|posts| - 1], db.until, LAST_ID)
  }

  lemma FirstOfPage(ids: seq<nat>, posts: seq<nat>)
    requires ids != [] && Increasing(ids) && posts == FirstPage(ids, ACTIVATION_POSTS)
    ensures var last := posts[|posts| - 1];
            posts != [] && (forall id :: id in posts <==> id in ids && id <= last) &&
            (|ids| > |posts| ==> |posts| == ACTIVATION_POSTS && ids[0] < last) &&
            (|ids| <= |posts| ==> forall id | id in ids :: id <= last)
  {
    var last := posts[|posts| - 1];
    assert posts == ids[..|posts|] && last == ids[|posts| - 1];
    forall id ensures id in posts <==> id in ids && id <= last {
      if id in posts {
        var i :| 0 <= i < |posts| && posts[i] == id;
        assert ids[i] == id;
      }
      if id in ids && id <= last {
        var i :| 0 <= i < |ids| && ids[i] == id;
        assert i < |posts|;
        assert posts[i] == id;
      }
    }
    forall id | |ids| <= |posts| && id in ids ensures id <= last {
      var i :| 0 <= i < |ids| && ids[i] == id;
    }
  }

  lemma RemainingAre(db: Database, unit: nat, from: Position)
    requires Valid(db) && UnitAfter(db, unit).Some?
    ensures Increasing(Remaining(db, unit, from))
    ensures forall id :: id in Remaining(db, unit, from) <==> id in Visible(db, unit) && from.post <= id
  {
    VisibleIncreasing(db, unit);
    hide Visible, Valid, UnitAfter;
    FilterIncreasing(Visible(db, unit), AtLeast(from.post));
    assert forall id :: AtLeast(from.post)(id) <==> from.post <= id;
  }

  lemma WindowPosts(db: Database, unit: nat, from: Position)
    requires Valid(db) && UnitAfter(db, unit).Some?
    requires Remaining(db, unit, from) != []
    ensures var ids := Remaining(db, unit, from);
            var posts := FirstPage(ids, ACTIVATION_POSTS);
            var last := posts[|posts| - 1];
            posts != [] && from.post <= last &&
            (forall id :: id in posts <==> id in Visible(db, unit) && from.post <= id <= last) &&
            (|ids| > |posts| ==>
              |posts| == ACTIVATION_POSTS && from.post <= ids[0] < last && ids[0] in Visible(db, unit)) &&
            (|ids| <= |posts| ==> forall id | id in Visible(db, unit) :: id <= last)
  {
    RemainingAre(db, unit, from);
    var ids := Remaining(db, unit, from);
    hide *;
    FirstOfPage(ids, FirstPage(ids, ACTIVATION_POSTS));
    assert ids[0] in ids;
  }

  /** A window is exactly the stretch of the unit's rows up to its sentinel. */
  lemma WindowRows(db: Database, unit: nat, from: Position)
    requires Valid(db) && UnitAfter(db, unit).Some? && Sound(db, Activation(unit, from))
    requires Remaining(db, unit, from) != []
    ensures var posts := FirstPage(Remaining(db, unit, from), ACTIVATION_POSTS);
            Above(ActivationRows(db, unit), ObservationKey, from) ==
            Above(HistoryRows(db, posts), ObservationKey, from) +
            Above(ActivationRows(db, unit), ObservationKey, WindowEnd(db, posts))
  {
    hide Filter, Remaining, Visible, FirstPage;
    WindowPosts(db, unit, from);
    var posts := FirstPage(Remaining(db, unit, from), ACTIVATION_POSTS);
    var end := WindowEnd(db, posts);
    var whole, window := InHistory(db, Visible(db, unit)), InHistory(db, posts);
    TableScan(db, whole);
    SplitAt(Filter(db.rows, whole), ObservationKey, from, end);
    FilterTwice(db.rows, whole, Between(ObservationKey, from, end));
    FilterTwice(db.rows, window, Beyond(ObservationKey, from));
    forall o | o in db.rows
      ensures Both(whole, Between(ObservationKey, from, end))(o) == Both(window, Beyond(ObservationKey, from))(o)
    {
      assert Before(from, ObservationKey(o)) ==> from.post <= o.post;
      assert Retained(db, o) ==> (Before(end, ObservationKey(o)) <==> end.post < o.post);
    }
    FilterSame(db.rows, Both(whole, Between(ObservationKey, from, end)), Both(window, Beyond(ObservationKey, from)));
  }

  /** When no post is left to cover, no row is left either. */
  lemma NoPostsNoRows(db: Database, unit: nat, from: Position)
    requires Valid(db) && UnitAfter(db, unit).Some? && Remaining(db, unit, from) == []
    ensures Above(ActivationRows(db, unit), ObservationKey, from) == []
  {
    forall o | o in ActivationRows(db, unit) ensures !Beyond(ObservationKey, from)(o) {
      assert o.post in Visible(db, unit) && o.post !in Remaining(db, unit, from);
    }
    FilterNone(ActivationRows(db, unit), Beyond(ObservationKey, from));
  }

  /** Past a window that holds all remaining posts there is nothing. */
  lemma LastWindow(db: Database, unit: nat, from: Position)
    requires Valid(db) && UnitAfter(db, unit).Some? && Remaining(db, unit, from) != []
    requires |Remaining(db, unit, from)| <= ACTIVATION_POSTS
    ensures var posts := FirstPage(Remaining(db, unit, from), ACTIVATION_POSTS);
            Above(ActivationRows(db, unit), ObservationKey, WindowEnd(db, posts)) == []
  {
    WindowPosts(db, unit, from);
    var end := WindowEnd(db, FirstPage(Remaining(db, unit, from), ACTIVATION_POSTS));
    forall o | o in ActivationRows(db, unit) ensures !Beyond(ObservationKey, end)(o) {
      assert o.post in Visible(db, unit) && o.at < db.until;
    }
    FilterNone(ActivationRows(db, unit), Beyond(ObservationKey, end));
  }

  /** Moving the key forward leaves no more posts to cover, and fewer if one is passed. */
  lemma FewerPosts(db: Database, unit: nat, from: Position, to: Position)
    requires UnitAfter(db, unit).Some? && from.post <= to.post
    ensures |Remaining(db, unit, to)| <= |Remaining(db, unit, from)|
    ensures (exists id :: id in Visible(db, unit) && from.post <= id < to.post) ==>
              |Remaining(db, unit, to)| < |Remaining(db, unit, from)|
  {
    FilterFewer(Visible(db, unit), AtLeast(to.post), AtLeast(from.post));
    if id :| id in Visible(db, unit) && from.post <= id < to.post {
      assert AtLeast(from.post)(id) && !AtLeast(to.post)(id);
    }
  }

  /** The keys a page of a window can end on. */
  lemma PageKey(db: Database, unit: nat, from: Position, n: nat)
    requires Valid(db) && UnitAfter(db, unit).Some?
    requires 0 < n <= |Above(ActivationRows(db, unit), ObservationKey, from)|
    ensures var rows := ActivationRows(db, unit);
            var found := Above(rows, ObservationKey, from);
            var key := ObservationKey(found[n - 1]);
            Above(rows, ObservationKey, key) == found[n..] && from.post <= key.post && key.at < db.until
  {
    var rows := ActivationRows(db, unit);
    TableScan(db, InHistory(db, Visible(db, unit)));
    NextPage(rows, ObservationKey, from, n);
    var found := Above(rows, ObservationKey, from);
    assert found[n - 1] in found && found[n - 1] in rows;
    assert Beyond(ObservationKey, from)(found[n - 1]);
  }

  lemma CutRows(rows: seq<Observation>, found: seq<Observation>, limit: nat)
    requires limit <= |found| <= |rows| && rows[..|found|] == found
    ensures Samples(rows) == Samples(found[..limit]) + Samples(rows[limit..])
  {
    assert rows == found[..limit] + rows[limit..];
    MapAppend(ToSample, found[..limit], rows[limit..]);
  }

  function Left(db: Database, unit: nat, from: Position): seq<Observation>
    requires UnitAfter(db, unit).Some?
  {
    Above(ActivationRows(db, unit), ObservationKey, from)
  }

  lemma ActivationReference(db: Database, unit: nat, from: Position)
    requires UnitAfter(db, unit).Some?
    ensures Reference(db, Activation(unit, from)) == Samples(Left(db, unit, from)) + Reference(db, Content(unit))
  {
    hide UnitAfter, Above, ActivationRows, UnitsFrom;
  }

  /** Moving on within a unit gets closer to the end as rows or posts are passed. */
  lemma MovesOn(db: Database, unit: nat, from: Position, to: Position)
    requires UnitAfter(db, unit).Some?
    requires |Left(db, unit, to)| + |Remaining(db, unit, to)| < |Left(db, unit, from)| + |Remaining(db, unit, from)|
    ensures Smaller(db, Activation(unit, to), Activation(unit, from))
    ensures Smaller(db, Content(unit), Activation(unit, from))
  {
    hide Above, ActivationRows, Filter, PendingUnits, Visible;
  }

  lemma LeavesUnit(db: Database, unit: nat, from: Position)
    ensures Smaller(db, Content(unit), Activation(unit, from)) && Sound(db, Content(unit))
  {
    hide PendingUnits, Minor;
  }

  lemma StepRefines(db: Database, unit: nat, from: Position, to: Position, changes: seq<Change>)
    requires UnitAfter(db, unit).Some? && !Before(Position(to.post, db.until, LAST_ID), to)
    requires Samples(Left(db, unit, from)) == changes + Samples(Left(db, unit, to))
    requires |Left(db, unit, to)| + |Remaining(db, unit, to)| < |Left(db, unit, from)| + |Remaining(db, unit, from)|
    ensures Refines(db, Activation(unit, from), Step(changes, Activation(unit, to)))
  {
    hide UnitAfter, Left, Remaining, Samples, Reference, Smaller;
    ActivationReference(db, unit, from);
    ActivationReference(db, unit, to);
    MovesOn(db, unit, from, to);
  }

  lemma LastStepRefines(db: Database, unit: nat, from: Position, changes: seq<Change>)
    requires UnitAfter(db, unit).Some? && Samples(Left(db, unit, from)) == changes
    ensures Refines(db, Activation(unit, from), Step(changes, Content(unit)))
  {
    hide UnitAfter, Left, Samples, Reference, Smaller;
    ActivationReference(db, unit, from);
    LeavesUnit(db, unit, from);
  }

  /** A full page ends on the key of its last row. */
  lemma FullPageRefines(db: Database, unit: nat, from: Position, found: seq<Observation>, limit: nat)
    requires Valid(db) && UnitAfter(db, unit).Some? && 0 < limit < |found| <= |Left(db, unit, from)|
    requires Left(db, unit, from)[..|found|] == found
    ensures Refines(db, Activation(unit, from),
                    Step(Samples(found[..limit]), Activation(unit, ObservationKey(found[limit - 1]))))
  {
    hide UnitAfter, Remaining, Samples, Valid, ActivationRows, Above, Refines, Filter, Visible;
    var rows, to := Left(db, unit, from), ObservationKey(found[limit - 1]);
    PageKey(db, unit, from, limit);
    assert rows[limit - 1] == found[limit - 1];
    FewerPosts(db, unit, from, to);
    CutRows(rows, found, limit);
    StepRefines(db, unit, from, to, Samples(found[..limit]));
  }

  /** A finished window ends on its sentinel, or is the last one. */
  lemma WindowRefines(db: Database, unit: nat, from: Position)
    requires Valid(db) && UnitAfter(db, unit).Some? && Sound(db, Activation(unit, from)) &&
             Remaining(db, unit, from) != []
    ensures var posts := FirstPage(Remaining(db, unit, from), ACTIVATION_POSTS);
            var changes := Samples(Above(HistoryRows(db, posts), ObservationKey, from));
            if |Remaining(db, unit, from)| > |posts| then
              Refines(db, Activation(unit, from), Step(changes, Activation(unit, WindowEnd(db, posts))))
            else Refines(db, Activation(unit, from), Step(changes, Content(unit)))
  {
    hide UnitAfter, Remaining, Valid, ActivationRows, Above, Refines, Filter, Visible, FirstPage, HistoryRows, Map;
    WindowPosts(db, unit, from);
    WindowRows(db, unit, from);
    var posts := FirstPage(Remaining(db, unit, from), ACTIVATION_POSTS);
    var found, end := Above(HistoryRows(db, posts), ObservationKey, from), WindowEnd(db, posts);
    MapAppend(ToSample, found, Left(db, unit, end));
    if |Remaining(db, unit, from)| > |posts| {
      FewerPosts(db, unit, from, end);
      StepRefines(db, unit, from, end, Samples(found));
    } else {
      LastWindow(db, unit, from);
      LastStepRefines(db, unit, from, Samples(found));
    }
  }

  lemma ActivationStepRefines(db: Database, unit: nat, from: Position, limit: nat, step: Step)
    requires Valid(db) && 0 < limit && Sound(db, Activation(unit, from))
    requires ActivationStep(db, unit, from, limit) == Ok(step)
    ensures Refines(db, Activation(unit, from), step)
  {
    if UnitAfter(db, unit).None? {
      hide PendingUnits, UnitsFrom, ReadableCount;
    } else {
      hide Refines, ReadableCount, Valid, UnitAfter, Filter, HistoryRows, Above, NewlyVisible, UnitBefore, FirstPage,
        Map, ActivationRows, Sound;
      var ids := Remaining(db, unit, from);
      if ids == [] {
        NoPostsNoRows(db, unit, from);
        LastStepRefines(db, unit, from, []);
      } else {
        var posts := FirstPage(ids, ACTIVATION_POSTS);
        WindowPosts(db, unit, from);
        WindowRows(db, unit, from);
        WindowRefines(db, unit, from);
        var found := Above(HistoryRows(db, posts), ObservationKey, from);
        if |found| > limit {
          FullPageRefines(db, unit, from, found, limit);
        }
      }
    }
  }
}

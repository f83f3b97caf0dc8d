/** What the change stream takes a unit to be before and after, and which posts become visible,
    in terms of the two views. */
module ConsumerUnits {
  import opened Sequences
  import opened KeysetPages
  import opened ConsumerPage
  import opened ConsumerChanges
  import opened CandidatePages
  import opened ConsumerStream

  /** The base unit, if no privacy removal touches one of its posts. */
  ghost predicate HeldUnit(db: Database, id: nat, unit: Unit) {
    && db.base.Some? && id in db.base.value.view && unit == db.base.value.view[id]
    && forall post | post in unit.posts :: post.id !in db.withdrawn
  }

  ghost predicate PublishedUnit(db: Database, id: nat, unit: Unit) {
    id in db.targetView && unit == db.targetView[id] && db.publishable(unit)
  }

  /** What a client that followed the base holds, without the privacy-removed units. */
  function HeldView(db: Database): map<nat, Unit> {
    if db.base.None? then map[]
    else
      var view := db.base.value.view;
      map id | id in view && forall post | post in view[id].posts :: post.id !in db.withdrawn :: view[id]
  }

  function PublishedView(db: Database): map<nat, Unit> {
    map id | id in db.targetView && db.publishable(db.targetView[id]) :: db.targetView[id]
  }

  lemma UnitsExactly(db: Database, id: nat, unit: Unit)
    ensures UnitBefore(db, id) == Some(unit) <==> HeldUnit(db, id, unit)
    ensures UnitAfter(db, id) == Some(unit) <==> PublishedUnit(db, id, unit)
  {
  }

  /** A post of the published unit that is no retweet, and that the held unit does not have. */
  ghost predicate NewOriginal(db: Database, id: nat, post: nat) {
    && id in db.targetView && db.publishable(db.targetView[id])
    && (exists p :: p in db.targetView[id].posts && p.id == post && !p.isRetweet)
    && forall unit, p | HeldUnit(db, id, unit) && p in unit.posts :: p.id != post
  }

  /** The newly visible posts are the original ones of the later version that the earlier lacks. */
  lemma NewlyVisibleExactly(before: Option<Unit>, after: Unit, id: nat)
    ensures id in NewlyVisible(before, after) <==>
            (exists p :: p in after.posts && p.id == id && !p.isRetweet) &&
            (before.Some? ==> forall p | p in before.value.posts :: p.id != id)
  {
    var known := match before case None => {} case Some(unit) => set post | post in unit.posts :: post.id;
    var shown := Filter(after.posts, OriginalOutside(known));
    SameMembers(Sort(Map(PostId, shown)), Map(PostId, shown));
    hide Filter, Map, Sort;
    if id in Map(PostId, shown) {
      var i :| 0 <= i < |shown| && Map(PostId, shown)[i] == id;
      assert shown[i] in shown;
    }
    if p :| p in after.posts && p.id == id && !p.isRetweet && id !in known {
      assert p in shown;
      var i :| 0 <= i < |shown| && shown[i] == p;
      assert Map(PostId, shown)[i] == id;
    }
  }

  lemma VisibleExactly(db: Database, id: nat, post: nat)
    requires UnitAfter(db, id).Some?
    ensures post in Visible(db, id) <==> NewOriginal(db, id, post)
  {
    var before, after := UnitBefore(db, id), UnitAfter(db, id).value;
    NewlyVisibleExactly(before, after, post);
    UnitsExactly(db, id, after);
    if before.Some? {
      UnitsExactly(db, id, before.value);
    }
    forall unit | HeldUnit(db, id, unit) ensures before == Some(unit) {
      UnitsExactly(db, id, unit);
    }
    hide NewlyVisible, UnitBefore, UnitAfter;
  }

  /** A unit whose original posts were all held already activates nothing. */
  lemma NothingNewActivatesNothing(db: Database, bootstrap: bool, id: nat)
    ensures Activates(db, bootstrap, id) <==> !bootstrap && exists post :: NewOriginal(db, id, post)
  {
    if UnitAfter(db, id).Some? {
      forall post ensures post in Visible(db, id) <==> NewOriginal(db, id, post) {
        VisibleExactly(db, id, post);
      }
      NonemptyHasMember(Visible(db, id));
      hide NewlyVisible, UnitBefore, UnitAfter;
    }
  }

  /** A public sample inside the window, carried by a target segment, of a permitted post. */
  ghost predicate Eligible(db: Database, o: Observation) {
    && o in db.rows && o.isPublic && db.since <= o.at && o.at < db.until && o.post in db.permitted
    && exists key :: key in o.segments && key in db.targetSegments
  }

  /** Activation rows come in key order, each once: exactly the retained samples of the unit's
      new original posts. */
  lemma ActivationRowsOnce(db: Database, id: nat)
    requires Valid(db) && UnitAfter(db, id).Some?
    ensures Ascending(ActivationRows(db, id), ObservationKey) && Distinct(ActivationRows(db, id))
    ensures forall o :: o in ActivationRows(db, id) <==> Eligible(db, o) && NewOriginal(db, id, o.post)
  {
    TableScan(db, InHistory(db, Visible(db, id)));
    AscendingIsDistinct(ActivationRows(db, id), ObservationKey);
    forall o ensures o in ActivationRows(db, id) <==> Eligible(db, o) && NewOriginal(db, id, o.post) {
      VisibleExactly(db, id, o.post);
      assert InHistory(db, Visible(db, id))(o) == (Retained(db, o) && o.post in Visible(db, id));
    }
  }
}

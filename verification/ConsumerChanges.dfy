/** One bounded read step of the consumer change stream, over a fixed database. */
module ConsumerChanges {
  import opened Sequences
  import opened Sorting
  import opened KeysetPages
  import opened ConsumerPage

  const BOOTSTRAP_PAGE := 200
  const CONTENT_PAGE := 32
  const RESTORED_PAGE := 33
  const ACTIVATION_POSTS := 100
  const SEGMENT_BATCH := 4
  const SAMPLE_PAGE := 100
  /** Stands for sixty-four times the letter f, the last part of a window's sentinel key. The
      sentinel's time is the end of the window, so its rank among identifiers decides nothing. */
  const LAST_ID: nat := 0xffff_ffff_ffff_ffff

  datatype Base = Base(segments: seq<nat>, view: map<nat, Unit>)

  /** Everything the step reads. The views are what the historical reader returns at a
      boundary; `affected`, `restored` and `bootstrap` are the unit identifiers the candidate
      queries range over; `rows` is the observation table in key order. */
  datatype Database = Database(
    targetSegments: seq<nat>,
    targetView: map<nat, Unit>,
    base: Option<Base>,
    publishable: Unit -> bool,
    withdrawn: set<nat>,
    affected: seq<nat>,
    restored: seq<nat>,
    bootstrap: seq<nat>,
    tooLarge: seq<nat> -> bool,
    size: Change -> nat,
    rows: seq<Observation>,
    permitted: set<nat>,
    since: nat,
    until: nat
  )

  function IdKey(id: nat): Position { Position(id, 0, 0) }

  function ObservationKey(o: Observation): Position { Position(o.post, o.at, o.id) }

  /** Tables are keyed, identifiers are not empty, and a unit lists each post once. */
  ghost predicate Valid(db: Database) {
    && Ascending(db.affected, IdKey)
    && Ascending(db.restored, IdKey)
    && Ascending(db.bootstrap, IdKey)
    && Ascending(db.rows, ObservationKey)
    && (forall id | id in db.affected || id in db.restored || id in db.bootstrap :: 0 < id)
    && (forall o | o in db.rows :: 0 < o.post)
    && Distinct(db.targetSegments)
    && (db.base.Some? ==> forall key | key in db.base.value.segments :: key in db.targetSegments)
    && (forall id | id in db.targetView :: db.targetView[id].id == id && DistinctPosts(db.targetView[id].posts))
  }

  ghost predicate DistinctPosts(posts: seq<Post>) {
    forall i, j | 0 <= i < j < |posts| :: posts[i].id != posts[j].id
  }

  /** The position part of a cursor. An absent `after` is key zero. */
  datatype Phase =
    | Idle
    | Bootstrap(after: nat)
    | Content(after: nat)
    | Activation(unit: nat, from: Position)
    | Observations(offset: nat, from: Position)

  datatype Step = Step(changes: seq<Change>, next: Phase)

  // Candidate units ---------------------------------------------------------------------------

  function Below(): (nat, nat) -> bool { (a: nat, b: nat) => a < b }

  function Sort(s: seq<nat>): (r: seq<nat>)
    ensures multiset(r) == multiset(s)
  {
    SortBy(Below(), s)
  }

  /** `[...new Set([...a, ...b])].sort()` for lists without duplicates of their own. */
  function SortedUnion(a: seq<nat>, b: seq<nat>): seq<nat> {
    Sort(a + Filter(b, Outside(a)))
  }

  datatype Candidates = Candidates(ids: seq<nat>, hasMore: bool)

  function FirstPage<T>(found: seq<T>, limit: nat): (page: seq<T>)
    ensures |page| <= limit && |page| <= |found|
  {
    if |found| <= limit then found else found[..limit]
  }

  function BootstrapCandidates(db: Database, after: nat): Candidates {
    var found := Above(db.bootstrap, IdKey, IdKey(after));
    Candidates(FirstPage(found, BOOTSTRAP_PAGE), |found| > BOOTSTRAP_PAGE)
  }

  /** The page of 32 merged from the first 32 affected and the first 33 restored units. */
  function ContentCandidates(db: Database, after: nat): Candidates {
    var affected := Above(db.affected, IdKey, IdKey(after));
    var restored := Above(db.restored, IdKey, IdKey(after));
    var ids := SortedUnion(FirstPage(affected, CONTENT_PAGE), FirstPage(restored, RESTORED_PAGE));
    Candidates(FirstPage(ids, CONTENT_PAGE), |affected| > CONTENT_PAGE || |ids| > CONTENT_PAGE)
  }

  // Reading and comparing one unit --------------------------------------------------------------

  /** How many of `ids` one bounded read covers: halve until the reader accepts. */
  function ReadableCount(db: Database, ids: seq<nat>): (r: Outcome<nat>)
    ensures r.Ok? ==> r.value <= |ids| && (ids != [] ==> 0 < r.value)
  {
    if ids == [] then Ok(0)
    else if !db.tooLarge(ids) then Ok(|ids|)
    else if |ids| <= 1 then Throws(ReadLimit)
    else ReadableCount(db, ids[..|ids| / 2])
  }

  method ReadPairs(db: Database, ids: seq<nat>) returns (selected: Outcome<seq<nat>>)
    ensures match ReadableCount(db, ids)
            case Ok(n) => selected == Ok(ids[..n])
            case Throws(error) => selected == Throws(error)
  {
    if ids == [] {
      return Ok([]);
    }
    var chosen := ids;
    while db.tooLarge(chosen)
      invariant 0 < |chosen| <= |ids| && chosen == ids[..|chosen|]
      invariant ReadableCount(db, ids) == ReadableCount(db, chosen)
      decreases |chosen|
    {
      if |chosen| <= 1 {
        return Throws(ReadLimit);
      }
      chosen := chosen[..|chosen| / 2];
    }
    return Ok(chosen);
  }

  predicate Withdrawn(db: Database, unit: Unit) {
    exists post | post in unit.posts :: post.id in db.withdrawn
  }

  /** The unit as the consumer is taken to hold it: the base version unless a privacy removal
      took it away. */
  function UnitBefore(db: Database, id: nat): Option<Unit> {
    if db.base.Some? && id in db.base.value.view && !Withdrawn(db, db.base.value.view[id])
    then Some(db.base.value.view[id]) else None
  }

  /** The publishable unit at the target. */
  function UnitAfter(db: Database, id: nat): Option<Unit> {
    if id in db.targetView && db.publishable(db.targetView[id]) then Some(db.targetView[id]) else None
  }

  function Replacement(id: nat, before: Option<Unit>, after: Option<Unit>): Option<Change> {
    match after
    case None => if before.None? then None else Some(UnitRemove(id))
    case Some(unit) =>
      if before.Some? && before.value.hash == unit.hash then None else Some(UnitUpsert(unit))
  }

  function PostId(post: Post): nat { post.id }

  function OriginalOutside(known: set<nat>): Post -> bool {
    (post: Post) => post.id !in known && !post.isRetweet
  }

  function NewlyVisible(before: Option<Unit>, after: Unit): seq<nat> {
    var known := match before case None => {} case Some(unit) => set post | post in unit.posts :: post.id;
    Sort(Map(PostId, Filter(after.posts, OriginalOutside(known))))
  }

  function AtLeast(post: nat): nat -> bool { id => id >= post }

  /** Whether the content phase turns to this unit's retained observations. */
  predicate Activates(db: Database, bootstrap: bool, id: nat) {
    && !bootstrap
    && UnitAfter(db, id).Some?
    && NewlyVisible(UnitBefore(db, id), UnitAfter(db, id).value) != []
  }

  function UnitPhase(db: Database, bootstrap: bool, id: nat): Phase {
    if Activates(db, bootstrap, id) then Activation(id, START)
    else if bootstrap then Bootstrap(id)
    else Content(id)
  }

  // The content and bootstrap phases -------------------------------------------------------------

  datatype Filled = Filled(page: Page, next: Phase, complete: bool)

  /** Walk `ids`, adding changes until the page refuses one or a unit needs activation. */
  function Fill(db: Database, bootstrap: bool, ids: seq<nat>, page: Page, next: Phase, limit: nat): Outcome<Filled> {
    if ids == [] then Ok(Filled(page, next, true))
    else
      var change := Replacement(ids[0], UnitBefore(db, ids[0]), UnitAfter(db, ids[0]));
      var added := if change.None? then Accepted(page) else Add(page, change.value, db.size(change.value), limit);
      match added
      case Oversized => Throws(OversizedSource)
      case Refused => Ok(Filled(page, next, false))
      case Accepted(grown) =>
        var advanced := UnitPhase(db, bootstrap, ids[0]);
        if advanced.Activation? then Ok(Filled(grown, advanced, false))
        else Fill(db, bootstrap, ids[1..], grown, advanced, limit)
  }

  function Outside(segments: seq<nat>): nat -> bool { key => key !in segments }

  function ChangedSegments(db: Database): seq<nat> {
    match db.base
    case None => db.targetSegments
    case Some(base) => Filter(db.targetSegments, Outside(base.segments))
  }

  function AfterUnits(db: Database, bootstrap: bool): Phase {
    if bootstrap || ChangedSegments(db) == [] then Idle else Observations(0, START)
  }

  function ContentStep(db: Database, phase: Phase, limit: nat): Outcome<Step>
    requires phase.Bootstrap? || phase.Content?
  {
    if phase.Content? && db.base.None? then Throws(InvalidCursor)
    else
      var candidates := if phase.Bootstrap? then BootstrapCandidates(db, phase.after)
        else ContentCandidates(db, phase.after);
      match ReadableCount(db, candidates.ids)
      case Throws(error) => Throws(error)
      case Ok(count) =>
        match Fill(db, phase.Bootstrap?, candidates.ids[..count], EMPTY_PAGE, phase, limit)
        case Throws(error) => Throws(error)
        case Ok(filled) =>
          var more := candidates.hasMore || count < |candidates.ids|;
          Ok(Step(filled.page.changes,
                  if filled.complete && !more then AfterUnits(db, phase.Bootstrap?) else filled.next))
  }

  /** The page loop over a mutable builder. */
  method ContentPage(db: Database, phase: Phase, limit: nat) returns (step: Outcome<Step>)
    requires phase.Bootstrap? || phase.Content?
    ensures step == ContentStep(db, phase, limit)
  {
    if phase.Content? && db.base.None? {
      return Throws(InvalidCursor);
    }
    var bootstrap := phase.Bootstrap?;
    var candidates := if bootstrap then BootstrapCandidates(db, phase.after) else ContentCandidates(db, phase.after);
    var batch := ReadPairs(db, candidates.ids);
    if batch.Throws? {
      return Throws(batch.error);
    }
    var ids := batch.value;
    var page := new ConsumerPageBuilder(limit);
    var next := phase;
    for i := 0 to |ids|
      invariant page.limit == limit
      invariant Fill(db, bootstrap, ids, EMPTY_PAGE, phase, limit) ==
                Fill(db, bootstrap, ids[i..], page.Contents(), next, limit)
    {
      var id := ids[i];
      var change := Replacement(id, UnitBefore(db, id), UnitAfter(db, id));
      if change.Some? {
        var added := page.Append(change.value, db.size(change.value));
        if added.Throws? {
          return Throws(added.error);
        }
        if !added.value {
          return Ok(Step(page.changes, next));
        }
      }
      next := UnitPhase(db, bootstrap, id);
      if next.Activation? {
        return Ok(Step(page.changes, next));
      }
    }
    if !candidates.hasMore && |ids| == |candidates.ids| {
      next := AfterUnits(db, bootstrap);
    }
    return Ok(Step(page.changes, next));
  }

  // The activation phase ---------------------------------------------------------------------------

  predicate InSegments(o: Observation, segments: seq<nat>) {
    exists key | key in o.segments :: key in segments
  }

  /** A sample the history query can return at all. */
  predicate Retained(db: Database, o: Observation) {
    o.isPublic && db.since <= o.at < db.until && InSegments(o, db.targetSegments) && o.post in db.permitted
  }

  function InHistory(db: Database, posts: seq<nat>): Observation -> bool {
    (o: Observation) => Retained(db, o) && o.post in posts
  }

  function HistoryRows(db: Database, posts: seq<nat>): seq<Observation> {
    Filter(db.rows, InHistory(db, posts))
  }

  function ToSample(o: Observation): Change { Sample(o) }

  function Samples(rows: seq<Observation>): seq<Change> {
    Map(ToSample, rows)
  }

  function ActivationStep(db: Database, unit: nat, from: Position, limit: nat): Outcome<Step>
    requires 0 < limit
  {
    if ReadableCount(db, [unit]).Throws? then Throws(ReadLimit)
    else if UnitAfter(db, unit).None? then Ok(Step([UnitRemove(unit)], Content(unit)))
    else
      var ids := Filter(NewlyVisible(UnitBefore(db, unit), UnitAfter(db, unit).value), AtLeast(from.post));
      var posts := FirstPage(ids, ACTIVATION_POSTS);
      if posts == [] then Ok(Step([], Content(unit)))
      else
        var found := Above(HistoryRows(db, posts), ObservationKey, from);
        if |found| > limit then
          Ok(Step(Samples(found[..limit]), Activation(unit, ObservationKey(found[limit - 1]))))
        else if |ids| > |posts| then
          Ok(Step(Samples(found), Activation(unit, Position(posts[|posts| - 1], db.until, LAST_ID))))
        else
          Ok(Step(Samples(found), Content(unit)))
  }

  // The observation phase ------------------------------------------------------------------------------

  function SegmentBatch(db: Database, offset: nat): seq<nat> {
    var changed := ChangedSegments(db);
    if offset >= |changed| then [] else FirstPage(changed[offset..], SEGMENT_BATCH)
  }

  /** New in this batch: a source in the batch, none in the base or in an earlier batch. */
  predicate NewInBatch(db: Database, offset: nat, o: Observation)
    requires db.base.Some?
  {
    var changed := ChangedSegments(db);
    && InSegments(o, SegmentBatch(db, offset))
    && !InSegments(o, db.base.value.segments)
    && !InSegments(o, FirstPage(changed, offset))
  }

  function InBatch(db: Database, offset: nat): Observation -> bool
    requires db.base.Some?
  {
    (o: Observation) => NewInBatch(db, offset, o) && InSegments(o, db.targetSegments) && o.isPublic && db.since <= o.at
  }

  function BatchRows(db: Database, offset: nat): seq<Observation>
    requires db.base.Some?
  {
    Filter(db.rows, InBatch(db, offset))
  }

  function IsPermitted(db: Database): Observation -> bool { (o: Observation) => o.post in db.permitted }

  function Permitted(db: Database, rows: seq<Observation>): seq<Observation> {
    Filter(rows, IsPermitted(db))
  }

  function PageLimit(limit: nat): nat { if limit < SAMPLE_PAGE then limit else SAMPLE_PAGE }

  /** The rows one page reads, permitted or not. */
  function ScannedPage(db: Database, offset: nat, from: Position, limit: nat): seq<Observation>
    requires db.base.Some?
  {
    FirstPage(Above(BatchRows(db, offset), ObservationKey, from), PageLimit(limit))
  }

  function SamplesStep(db: Database, offset: nat, from: Position, limit: nat): Outcome<Step>
    requires 0 < limit
  {
    if db.base.None? then Throws(InvalidCursor)
    else
      var keys := SegmentBatch(db, offset);
      if keys == [] then Ok(Step([], Idle))
      else
        var found := Above(BatchRows(db, offset), ObservationKey, from);
        var scanned := ScannedPage(db, offset, from, limit);
        var next :=
          if |found| > PageLimit(limit) then Observations(offset, ObservationKey(scanned[|scanned| - 1]))
          else if offset + |keys| < |ChangedSegments(db)| then Observations(offset + |keys|, START)
          else Idle;
        Ok(Step(Samples(Permitted(db, scanned)), next))
  }

  /** One request. An idle cursor has no step of its own. */
  function Advance(db: Database, phase: Phase, limit: nat): Outcome<Step>
    requires 0 < limit
  {
    match phase
    case Idle => Throws(InvalidCursor)
    case Bootstrap(_) => ContentStep(db, phase, limit)
    case Content(_) => ContentStep(db, phase, limit)
    case Activation(unit, from) => ActivationStep(db, unit, from, limit)
    case Observations(offset, from) => SamplesStep(db, offset, from, limit)
  }
}

/** The export buffer of the extension: deduplication, overflow, and the flush loop. */
module CaptureBuffer {
  import opened Sequences

  const MAX_SEEN_IDS := 50_000
  const MAX_BUFFER_SIZE := 2000
  const MAX_TWEETS_PER_POST := 200

  /** A captured post; the empty identifier stands for none. */
  datatype Post = Post(id: string, article: bool, photo: bool, text: string)

  datatype Key = PostKey(id: string) | ArticleKey(id: string)

  /** A buffered object: its serial is its object identity. */
  datatype Item = Item(serial: nat, post: Post, backfill: bool)

  /** The sets list their members in insertion order. */
  datatype Memory = Memory(seen: seq<Key>, checked: seq<string>, buffer: seq<Item>, next: nat)

  function AddOnce<T(==)>(s: seq<T>, x: T): seq<T> { if x in s then s else s + [x] }

  function LastOf<T>(s: seq<T>, n: nat): (r: seq<T>)
    ensures |r| == (if |s| <= n then |s| else n) && r == s[|s| - |r|..]
  {
    if |s| <= n then s else s[|s| - n..]
  }

  // Deduplication ---------------------------------------------------------------------------------------------

  predicate IsDuplicate(post: Post, seen: seq<Key>) { post.id != "" && PostKey(post.id) in seen }

  predicate WantsBackfill(post: Post, checked: seq<string>, backfill: bool) {
    backfill && post.id != "" && post.id !in checked && post.photo
  }

  predicate Enters(post: Post, m: Memory, backfill: bool) {
    !(IsDuplicate(post, m.seen) &&
      (!post.article || ArticleKey(post.id) in m.seen) &&
      !WantsBackfill(post, m.checked, backfill))
  }

  function SeenAfter(post: Post, seen: seq<Key>): seq<Key> {
    if post.id == "" then seen
    else if post.article then AddOnce(AddOnce(seen, PostKey(post.id)), ArticleKey(post.id))
    else AddOnce(seen, PostKey(post.id))
  }

  function EnqueueOne(m: Memory, post: Post, backfill: bool): Memory {
    if !Enters(post, m, backfill) then m
    else
      Memory(SeenAfter(post, m.seen),
             if WantsBackfill(post, m.checked, backfill) then AddOnce(m.checked, post.id) else m.checked,
             m.buffer + [Item(m.next, post, IsDuplicate(post, m.seen) && !post.article)],
             m.next + 1)
  }

  function EnqueueAll(m: Memory, posts: seq<Post>, backfill: bool): Memory
    decreases posts
  {
    if posts == [] then m
    else EnqueueOne(EnqueueAll(m, posts[..|posts| - 1], backfill), posts[|posts| - 1], backfill)
  }

  function Trim(m: Memory): Memory {
    m.(seen := LastOf(m.seen, MAX_SEEN_IDS), checked := LastOf(m.checked, MAX_SEEN_IDS))
  }

  // Overflow --------------------------------------------------------------------------------------------------

  function FirstBackfill(buffer: seq<Item>): (i: nat)
    ensures i <= |buffer| && (i < |buffer| ==> buffer[i].backfill)
    ensures forall j | 0 <= j < i :: !buffer[j].backfill
  {
    if buffer == [] || buffer[0].backfill then 0 else 1 + FirstBackfill(buffer[1..])
  }

  function OtherThan(id: string): string -> bool { x => x != id }

  /** Drop the first image backfill, or else the oldest post. */
  function DropOne(m: Memory): (Memory, Item)
    requires m.buffer != []
  {
    var i := FirstBackfill(m.buffer);
    if i < |m.buffer| then
      (m.(buffer := m.buffer[..i] + m.buffer[i + 1..],
          checked := if m.buffer[i].post.id != "" then Filter(m.checked, OtherThan(m.buffer[i].post.id))
                     else m.checked),
       m.buffer[i])
    else (m.(buffer := m.buffer[1..]), m.buffer[0])
  }

  datatype Overflowed = Overflowed(memory: Memory, dropped: seq<Item>)

  function DropExcess(m: Memory, dropped: seq<Item>): Overflowed
    decreases |m.buffer|
  {
    if |m.buffer| <= MAX_BUFFER_SIZE then Overflowed(m, dropped)
    else var (next, item) := DropOne(m); DropExcess(next, dropped + [item])
  }

  /** Everything after the pool took the posts, in one uninterrupted step. */
  function Enqueue(m: Memory, posts: seq<Post>, backfill: bool): Overflowed {
    DropExcess(Trim(EnqueueAll(m, posts, backfill)), [])
  }

  // Delivery --------------------------------------------------------------------------------------------------

  datatype Answer = Accepted | TooLarge | Refused

  function NotIn(batch: seq<Item>): Item -> bool { item => item !in batch }

  function RemoveDelivered(buffer: seq<Item>, batch: seq<Item>): seq<Item> { Filter(buffer, NotIn(batch)) }

  function Front(buffer: seq<Item>, cap: nat): seq<Item> { if |buffer| <= cap then buffer else buffer[..cap] }

  /** How many posts the next request takes, and how many of a split batch are left. */
  datatype Pace = Pace(cap: nat, split: nat)

  const FULL := Pace(MAX_TWEETS_PER_POST, 0)

  function Halved(batch: seq<Item>): Pace {
    Pace(if |batch| / 2 > 1 then |batch| / 2 else 1, |batch|)
  }

  function AfterDelivery(pace: Pace, batch: seq<Item>): Pace {
    if pace.split == 0 then pace
    else if pace.split <= |batch| then FULL
    else pace.(split := pace.split - |batch|)
  }

  function NextPace(pace: Pace, batch: seq<Item>, answer: Answer): (next: Pace)
    ensures 0 < pace.cap && 0 < |batch| <= MAX_TWEETS_PER_POST ==> 0 < next.cap
    ensures pace.cap <= MAX_TWEETS_PER_POST && |batch| <= MAX_TWEETS_PER_POST ==> next.cap <= MAX_TWEETS_PER_POST
  {
    if answer.Accepted? then AfterDelivery(pace, batch)
    else if |batch| > 1 then Halved(batch)
    else FULL
  }

  lemma FrontAndRest(buffer: seq<Item>, n: nat)
    requires Distinct(buffer) && n <= |buffer|
    ensures forall x | x in buffer[n..] :: x !in buffer[..n]
  {
    forall x | x in buffer[n..] ensures x !in buffer[..n] {
      var j :| n <= j < |buffer| && buffer[j] == x;
      assert forall i | 0 <= i < n :: buffer[i] != buffer[j];
    }
  }

  lemma RemoveFront(buffer: seq<Item>, n: nat)
    requires Distinct(buffer) && n <= |buffer|
    ensures RemoveDelivered(buffer, buffer[..n]) == buffer[n..]
  {
    var batch, rest := buffer[..n], buffer[n..];
    FrontAndRest(buffer, n);
    hide Distinct, Filter;
    assert buffer == batch + rest;
    FilterAppend(batch, rest, NotIn(batch));
    FilterNone(batch, NotIn(batch));
    FilterAll(rest, NotIn(batch));
  }

  /** One request to the host and its answer. */
  datatype Exchange = Exchange(batch: seq<Item>, answer: Answer)

  /** The exchange is a reason to let the post go. */
  predicate Settles(e: Exchange, item: Item) {
    (e.answer.Accepted? && item in e.batch) || (e.answer.TooLarge? && e.batch == [item])
  }

  ghost predicate Settled(log: seq<Exchange>, item: Item) {
    exists i :: 0 <= i < |log| && Settles(log[i], item)
  }

  lemma SettledGrows(log: seq<Exchange>, e: Exchange, items: seq<Item>)
    requires forall item | item in items :: Settled(log, item)
    ensures forall item | item in items :: Settled(log + [e], item)
  {
    forall item | item in items ensures Settled(log + [e], item) {
      var i :| 0 <= i < |log| && Settles(log[i], item);
      assert (log + [e])[i] == log[i];
    }
  }

  lemma BatchSettles(log: seq<Exchange>, e: Exchange)
    requires e.answer.Accepted? || (e.answer.TooLarge? && |e.batch| == 1)
    ensures forall item | item in e.batch :: Settled(log + [e], item)
  {
    forall item | item in e.batch ensures Settled(log + [e], item) {
      assert (log + [e])[|log|] == e && Settles(e, item);
    }
  }

  ghost predicate AllSettled(log: seq<Exchange>, items: seq<Item>) {
    forall item | item in items :: Settled(log, item)
  }

  /** One exchange of the flush: the posts that went are still a front part, all settled. */
  lemma FrontSettles(whole: seq<Item>, n: nat, log: seq<Exchange>, e: Exchange, cap: nat)
    requires Distinct(whole) && n <= |whole| && AllSettled(log, whole[..n])
    requires e.batch == Front(whole[n..], cap)
    ensures AllSettled(log + [e], whole[..n])
    ensures e.answer.Accepted? || (e.answer.TooLarge? && |e.batch| == 1) ==>
              RemoveDelivered(whole[n..], e.batch) == whole[n + |e.batch|..] &&
              AllSettled(log + [e], whole[..n + |e.batch|])
  {
    hide Settled, RemoveDelivered;
    SettledGrows(log, e, whole[..n]);
    if e.answer.Accepted? || (e.answer.TooLarge? && |e.batch| == 1) {
      BatchSettles(log, e);
      var m := n + |e.batch|;
      assert e.batch == whole[n..][..|e.batch|] == whole[n..m];
      RemoveFront(whole[n..], |e.batch|);
      assert whole[n..][|e.batch|..] == whole[m..] && whole[..m] == whole[..n] + e.batch;
    }
  }

  /** The service worker's variables. */
  class Worker {
    var seenIds: seq<Key>
    var imageCheckedIds: seq<string>
    var buffer: seq<Item>
    var next: nat

    function State(): Memory
      reads this
    {
      Memory(seenIds, imageCheckedIds, buffer, next)
    }

    constructor (m: Memory)
      ensures State() == m
    {
      seenIds, imageCheckedIds, buffer, next := m.seen, m.checked, m.buffer, m.next;
    }

    /** `dedupTweet`: whether the post is to be buffered, recording it if so. */
    method Dedup(post: Post, backfill: bool) returns (enters: bool)
      modifies this`seenIds, this`imageCheckedIds
      ensures enters == Enters(post, old(State()), backfill)
      ensures seenIds == if enters then SeenAfter(post, old(seenIds)) else old(seenIds)
      ensures imageCheckedIds == if enters && WantsBackfill(post, old(imageCheckedIds), backfill)
                                 then AddOnce(old(imageCheckedIds), post.id) else old(imageCheckedIds)
    {
      var wants := WantsBackfill(post, imageCheckedIds, backfill);
      if IsDuplicate(post, seenIds) && (!post.article || ArticleKey(post.id) in seenIds) && !wants {
        return false;
      }
      if post.id != "" {
        seenIds := AddOnce(seenIds, PostKey(post.id));
        if post.article {
          seenIds := AddOnce(seenIds, ArticleKey(post.id));
        }
      }
      if wants {
        imageCheckedIds := AddOnce(imageCheckedIds, post.id);
      }
      return true;
    }

    method EnqueueTweets(posts: seq<Post>, backfill: bool) returns (dropped: seq<Item>)
      modifies this
      ensures Overflowed(State(), dropped) == Enqueue(old(State()), posts, backfill)
    {
      hide Enters, SeenAfter, IsDuplicate, WantsBackfill, DropExcess;
      ghost var before := State();
      for i := 0 to |posts|
        invariant State() == EnqueueAll(before, posts[..i], backfill)
      {
        assert posts[..i + 1][..i] == posts[..i];
        var wasSeen := IsDuplicate(posts[i], seenIds);
        var enters := Dedup(posts[i], backfill);
        if enters {
          buffer := buffer + [Item(next, posts[i], wasSeen && !posts[i].article)];
          next := next + 1;
        }
      }
      assert posts[..|posts|] == posts;
      seenIds, imageCheckedIds := LastOf(seenIds, MAX_SEEN_IDS), LastOf(imageCheckedIds, MAX_SEEN_IDS);
      dropped := Shrink();
    }

    method Shrink() returns (dropped: seq<Item>)
      modifies this
      ensures Overflowed(State(), dropped) == DropExcess(old(State()), [])
    {
      dropped := [];
      ghost var before := State();
      while |buffer| > MAX_BUFFER_SIZE
        invariant DropExcess(before, []) == DropExcess(State(), dropped)
      {
        var i := FirstBackfill(buffer);
        if i < |buffer| {
          dropped := dropped + [buffer[i]];
          if buffer[i].post.id != "" {
            imageCheckedIds := Filter(imageCheckedIds, OtherThan(buffer[i].post.id));
          }
          buffer := buffer[..i] + buffer[i + 1..];
        } else {
          dropped := dropped + [buffer[0]];
          buffer := buffer[1..];
        }
      }
    }

    /** The flush loop without other work in between, against any answers of the host. It ends;
        what left the buffer is a front part of it, every post of which was acknowledged or was
        refused as too large on its own; and something stays only if the host refused. */
    method Flush(answers: nat -> Answer) returns (log: seq<Exchange>)
      requires Distinct(buffer)
      modifies this`buffer
      ensures forall i | 0 <= i < |log| :: log[i].answer == answers(i) && 0 < |log[i].batch| <= MAX_TWEETS_PER_POST
      ensures exists n :: 0 <= n <= |old(buffer)| && buffer == old(buffer)[n..] &&
                          AllSettled(log, old(buffer)[..n])
      ensures buffer == [] || (log != [] && log[|log| - 1].answer.Refused?)
      ensures Halves(log)
    {
      log := [];
      var pace := FULL;
      ghost var whole := buffer;
      ghost var n := 0;
      assert whole[0..] == whole && whole[..0] == [];
      hide AllSettled, RemoveDelivered, AfterDelivery, Distinct, Halves, HalvesNext, Front, NextPace;
      NothingHalved(pace, buffer);
      NothingSettles(whole[..0]);
      while buffer != []
        invariant 0 <= n <= |whole| && buffer == whole[n..] && 0 < pace.cap <= MAX_TWEETS_PER_POST
        invariant forall i | 0 <= i < |log| :: log[i].answer == answers(i) && 0 < |log[i].batch| <= MAX_TWEETS_PER_POST
        invariant AllSettled(log, whole[..n])
        invariant Halves(log) && HalvesNext(log, pace, buffer)
        decreases |buffer|, pace.cap
      {
        var batch := Front(buffer, pace.cap);
        var answer := answers(|log|);
        FrontSettles(whole, n, log, Exchange(batch, answer), pace.cap);
        ghost var earlier, atPace, had := log, pace, buffer;
        FrontIs(buffer, pace.cap);
        log := log + [Exchange(batch, answer)];
        HalvesGrows(earlier, atPace, had, Exchange(batch, answer));
        if answer.Refused? {
          break;
        }
        if answer.Accepted? || |batch| == 1 {
          buffer := RemoveDelivered(buffer, batch);
          n := n + |batch|;
        }
        if !(answer.Accepted? || |batch| == 1) {
          PaceShrinks(pace, batch, answer);
        }
        pace := NextPace(pace, batch, answer);
        HalvesOn(earlier, atPace, had, Exchange(batch, answer), pace, buffer);
      }
    }
  }

  /** After a request of several posts that was too large comes one of half as many. */
  ghost predicate Halves(log: seq<Exchange>) {
    forall i | 0 <= i < |log| - 1 && log[i].answer.TooLarge? && |log[i].batch| > 1 ::
      |log[i + 1].batch| == |log[i].batch| / 2
  }

  ghost predicate HalvesNext(log: seq<Exchange>, pace: Pace, buffer: seq<Item>) {
    log != [] && log[|log| - 1].answer.TooLarge? && |log[|log| - 1].batch| > 1 ==>
      pace.cap == |log[|log| - 1].batch| / 2 <= |buffer|
  }

  lemma NothingHalved(pace: Pace, buffer: seq<Item>)
    ensures Halves([]) && HalvesNext([], pace, buffer)
  {
  }

  lemma HalvesGrows(log: seq<Exchange>, pace: Pace, buffer: seq<Item>, e: Exchange)
    requires Halves(log) && HalvesNext(log, pace, buffer) && e.batch == Front(buffer, pace.cap)
    ensures Halves(log + [e])
  {
  }

  lemma FrontIs(buffer: seq<Item>, cap: nat)
    requires 0 < cap <= MAX_TWEETS_PER_POST && buffer != []
    ensures 0 < |Front(buffer, cap)| <= MAX_TWEETS_PER_POST && |Front(buffer, cap)| <= cap
    ensures |Front(buffer, cap)| <= |buffer|
  {
  }

  lemma PaceShrinks(pace: Pace, batch: seq<Item>, answer: Answer)
    requires 0 < |batch| <= pace.cap && !(answer.Accepted? || |batch| == 1)
    ensures NextPace(pace, batch, answer).cap < pace.cap
  {
  }

  lemma HalvesOn(log: seq<Exchange>, pace: Pace, buffer: seq<Item>, e: Exchange, next: Pace, left: seq<Item>)
    requires e.batch == Front(buffer, pace.cap) && next == NextPace(pace, e.batch, e.answer)
    requires e.answer.TooLarge? && |e.batch| > 1 ==> left == buffer
    ensures HalvesNext(log + [e], next, left)
  {
  }

  lemma NothingSettles(items: seq<Item>)
    ensures items == [] ==> AllSettled([], items)
  {
  }
}

/** What the seen set and the buffer cover between them. */
module CaptureCover {
  import opened Sequences
  import opened CaptureBuffer

  /** What a post leaves in the seen set: its identifier and, for an article, the article mark. */
  function KeysOf(post: Post): set<Key> {
    if post.article then {PostKey(post.id), ArticleKey(post.id)} else {PostKey(post.id)}
  }

  function KeysOfPosts(posts: seq<Post>): set<Key> { set post, key | post in posts && key in KeysOf(post) :: key }

  function KeysIn(items: seq<Item>): set<Key> { set item, key | item in items && key in KeysOf(item.post) :: key }

  function KeysAmong(items: set<Item>): set<Key> { set item, key | item in items && key in KeysOf(item.post) :: key }

  function PostIds(posts: seq<Post>): set<string> { set post | post in posts :: post.id }

  function Members(items: seq<Item>): set<Item> { set item | item in items }

  /** Every seen key was processed, and for every processed key an object that carries it is
      buffered or has gone. */
  ghost predicate Covered(seen: seq<Key>, buffer: seq<Item>, processed: set<Key>, gone: set<Item>) {
    (forall key | key in seen :: key in processed) && processed <= KeysIn(buffer) + KeysAmong(gone)
  }

  /** Serials increase, so objects are told apart. */
  ghost predicate Ordered(buffer: seq<Item>, next: nat) {
    (forall i, j | 0 <= i < j < |buffer| :: buffer[i].serial < buffer[j].serial) &&
    forall item | item in buffer :: item.serial < next
  }

  lemma OrderedIsDistinct(buffer: seq<Item>, next: nat)
    requires Ordered(buffer, next)
    ensures Distinct(buffer)
  {
    forall i, j | 0 <= i < j < |buffer| ensures buffer[i] != buffer[j] {
      assert buffer[i].serial < buffer[j].serial;
    }
  }

  lemma {:induction false} FilterOrdered(buffer: seq<Item>, next: nat, p: Item -> bool)
    requires Ordered(buffer, next)
    ensures Ordered(Filter(buffer, p), next)
  {
    if buffer != [] {
      FilterOrdered(buffer[1..], next, p);
      var rest := Filter(buffer[1..], p);
      assert forall x | x in rest :: x in buffer[1..];
      forall x | x in buffer[1..] ensures buffer[0].serial < x.serial {
        var j :| 0 <= j < |buffer[1..]| && buffer[1..][j] == x;
        assert buffer[j + 1] == x;
      }
      var kept := Filter(buffer, p);
      assert kept == (if p(buffer[0]) then [buffer[0]] else []) + rest;
    }
  }

  // Enqueueing ------------------------------------------------------------------------------------------------

  lemma SeenAfterHas(post: Post, seen: seq<Key>, key: Key)
    requires key in SeenAfter(post, seen)
    ensures key in seen || key in KeysOf(post)
  {
  }

  lemma SkippedIsSeen(m: Memory, post: Post, backfill: bool)
    requires !Enters(post, m, backfill)
    ensures forall key | key in KeysOf(post) :: key in m.seen
  {
  }

  lemma EnqueueOneCovers(m: Memory, post: Post, backfill: bool, processed: set<Key>, gone: set<Item>)
    requires Covered(m.seen, m.buffer, processed, gone) && post.id != ""
    ensures var next := EnqueueOne(m, post, backfill); Covered(next.seen, next.buffer, processed + KeysOf(post), gone)
  {
    hide SeenAfter, WantsBackfill, KeysOf, Enters;
    var next := EnqueueOne(m, post, backfill);
    if Enters(post, m, backfill) {
      var item := Item(m.next, post, IsDuplicate(post, m.seen) && !post.article);
      assert item in next.buffer && forall x | x in m.buffer :: x in next.buffer;
      forall key | key in next.seen ensures key in processed + KeysOf(post) {
        SeenAfterHas(post, m.seen, key);
      }
    } else {
      SkippedIsSeen(m, post, backfill);
    }
  }

  lemma EnqueueOneOrdered(m: Memory, post: Post, backfill: bool)
    requires Ordered(m.buffer, m.next)
    ensures var next := EnqueueOne(m, post, backfill);
            Ordered(next.buffer, next.next) && next.next >= m.next && m.buffer <= next.buffer
  {
  }

  lemma {:induction false} EnqueueAllCovers(
      m: Memory, posts: seq<Post>, backfill: bool, processed: set<Key>, gone: set<Item>)
    requires Covered(m.seen, m.buffer, processed, gone) && Ordered(m.buffer, m.next)
    requires forall post | post in posts :: post.id != ""
    ensures var next := EnqueueAll(m, posts, backfill);
            Covered(next.seen, next.buffer, processed + KeysOfPosts(posts), gone) && Ordered(next.buffer, next.next) &&
            next.next >= m.next && m.buffer <= next.buffer
    decreases |posts|
  {
    hide Covered, Ordered, EnqueueOne;
    if posts == [] {
      assert processed + KeysOfPosts(posts) == processed;
    } else {
      var front, last := posts[..|posts| - 1], posts[|posts| - 1];
      EnqueueAllCovers(m, front, backfill, processed, gone);
      EnqueueOneCovers(EnqueueAll(m, front, backfill), last, backfill, processed + KeysOfPosts(front), gone);
      EnqueueOneOrdered(EnqueueAll(m, front, backfill), last, backfill);
      assert posts == front + [last];
      assert processed + KeysOfPosts(posts) == processed + KeysOfPosts(front) + KeysOf(last);
    }
  }

  lemma TrimCovers(m: Memory, processed: set<Key>, gone: set<Item>)
    requires Covered(m.seen, m.buffer, processed, gone)
    ensures Covered(Trim(m).seen, Trim(m).buffer, processed, gone)
  {
  }

  lemma RemoveAt(buffer: seq<Item>, at: nat, next: nat)
    requires at < |buffer| && Ordered(buffer, next)
    ensures Ordered(buffer[..at] + buffer[at + 1..], next)
    ensures forall x | x in buffer :: x in buffer[..at] + buffer[at + 1..] || x == buffer[at]
  {
    var left := buffer[..at] + buffer[at + 1..];
    assert forall i | 0 <= i < |left| :: left[i] == buffer[if i < at then i else i + 1];
    forall x | x in buffer && x != buffer[at] ensures x in left {
      var i :| 0 <= i < |buffer| && buffer[i] == x;
      assert left[if i < at then i else i - 1] == x;
    }
  }

  lemma CoveredWithout(
      seen: seq<Key>, buffer: seq<Item>, left: seq<Item>, processed: set<Key>, gone: set<Item>, item: Item)
    requires Covered(seen, buffer, processed, gone) && forall x | x in buffer :: x in left || x == item
    ensures Covered(seen, left, processed, gone + {item})
  {
  }

  lemma DropOneCovers(m: Memory, processed: set<Key>, gone: set<Item>)
    requires m.buffer != [] && Covered(m.seen, m.buffer, processed, gone) && Ordered(m.buffer, m.next)
    ensures var (next, item) := DropOne(m);
            Covered(next.seen, next.buffer, processed, gone + {item}) && Ordered(next.buffer, next.next) &&
            next.next == m.next &&
            forall x | x in m.buffer :: x in next.buffer || x == item
  {
    hide Covered, Ordered;
    var (next, item) := DropOne(m);
    var i := FirstBackfill(m.buffer);
    var at := if i < |m.buffer| then i else 0;
    assert next.buffer == m.buffer[..at] + m.buffer[at + 1..];
    RemoveAt(m.buffer, at, m.next);
    CoveredWithout(m.seen, m.buffer, next.buffer, processed, gone, item);
  }

  lemma {:induction false} DropExcessCovers(m: Memory, dropped: seq<Item>, processed: set<Key>, gone: set<Item>)
    requires Covered(m.seen, m.buffer, processed, gone + Members(dropped)) && Ordered(m.buffer, m.next)
    ensures var r := DropExcess(m, dropped);
            Covered(r.memory.seen, r.memory.buffer, processed, gone + Members(r.dropped)) &&
            Ordered(r.memory.buffer, r.memory.next) && r.memory.next == m.next &&
            |r.memory.buffer| <= MAX_BUFFER_SIZE &&
            Members(dropped) <= Members(r.dropped) &&
            forall x | x in m.buffer :: x in r.memory.buffer || x in r.dropped
    decreases |m.buffer|
  {
    hide Covered, Ordered, DropOne;
    if |m.buffer| > MAX_BUFFER_SIZE {
      var (next, item) := DropOne(m);
      DropOneCovers(m, processed, gone + Members(dropped));
      assert gone + Members(dropped + [item]) == gone + Members(dropped) + {item};
      assert |next.buffer| < |m.buffer| by { Shrinks(m); }
      DropExcessCovers(next, dropped + [item], processed, gone);
      assert item in dropped + [item] && Members(dropped) <= Members(dropped + [item]);
      assert item in Members(DropExcess(m, dropped).dropped);
    }
  }

  lemma Shrinks(m: Memory)
    requires m.buffer != []
    ensures |DropOne(m).0.buffer| < |m.buffer|
  {
  }

  /** Enqueueing keeps the cover: the posts are processed now, and what overflowed has gone. */
  lemma EnqueueCovers(m: Memory, posts: seq<Post>, backfill: bool, processed: set<Key>, gone: set<Item>)
    requires Covered(m.seen, m.buffer, processed, gone) && Ordered(m.buffer, m.next)
    requires forall post | post in posts :: post.id != ""
    ensures var r := Enqueue(m, posts, backfill);
            Covered(r.memory.seen, r.memory.buffer, processed + KeysOfPosts(posts), gone + Members(r.dropped)) &&
            Ordered(r.memory.buffer, r.memory.next) && r.memory.next >= m.next &&
            forall x | x in m.buffer :: x in r.memory.buffer || x in r.dropped
  {
    hide Covered, Ordered, EnqueueAll, DropExcess;
    EnqueueAllCovers(m, posts, backfill, processed, gone);
    var all := EnqueueAll(m, posts, backfill);
    TrimCovers(all, processed + KeysOfPosts(posts), gone);
    assert gone + Members([]) == gone;
    DropExcessCovers(Trim(all), [], processed + KeysOfPosts(posts), gone);
  }

  /** Delivery keeps the cover: what left has gone. */
  lemma DeliveryCovers(
      seen: seq<Key>, buffer: seq<Item>, next: nat, processed: set<Key>, gone: set<Item>, batch: seq<Item>)
    requires Covered(seen, buffer, processed, gone) && Ordered(buffer, next)
    ensures var left := RemoveDelivered(buffer, batch);
            Covered(seen, left, processed, gone + Members(batch)) && Ordered(left, next) &&
            forall x | x in buffer :: x in left || x in batch
  {
    FilterOrdered(buffer, next, NotIn(batch));
    assert forall x | x in buffer && x !in batch :: NotIn(batch)(x);
    hide Ordered, Filter;
  }

  // What enters and what overflows -----------------------------------------------------------------------------

  function Sharing(id: string): Item -> bool { (item: Item) => item.post.id == id }

  /** How many buffered objects are of a post. */
  function Copies(buffer: seq<Item>, id: string): nat { |Filter(buffer, Sharing(id))| }

  lemma EnqueueOneCopies(m: Memory, post: Post, id: string)
    requires post.id == id ==> !post.article
    requires id != ""
    ensures var next := EnqueueOne(m, post, false);
            Copies(next.buffer, id) ==
              Copies(m.buffer, id) + (if post.id == id && PostKey(id) !in m.seen then 1 else 0) &&
            (PostKey(id) in next.seen <==> PostKey(id) in m.seen || post.id == id)
  {
    hide Filter;
    if Enters(post, m, false) {
      FilterSnoc(m.buffer, Item(m.next, post, IsDuplicate(post, m.seen) && !post.article), Sharing(id));
    }
  }

  /** Without image backfill, a post that is no article is buffered once if it was not seen
      before, however often it is captured, and else not at all. */
  lemma {:induction false} EntersOnce(m: Memory, posts: seq<Post>, id: string)
    requires id != "" && forall post | post in posts && post.id == id :: !post.article
    ensures var next := EnqueueAll(m, posts, false);
            Copies(next.buffer, id) ==
              Copies(m.buffer, id) + (if id in PostIds(posts) && PostKey(id) !in m.seen then 1 else 0) &&
            (PostKey(id) in next.seen <==> PostKey(id) in m.seen || id in PostIds(posts))
    decreases |posts|
  {
    hide Copies, EnqueueOne;
    if posts != [] {
      var front, last := posts[..|posts| - 1], posts[|posts| - 1];
      assert posts == front + [last];
      EntersOnce(m, front, id);
      EnqueueOneCopies(EnqueueAll(m, front, false), last, id);
      assert PostIds(posts) == PostIds(front) + {last.id};
    }
  }

  ghost predicate NoBackfill(buffer: seq<Item>) { forall item | item in buffer :: !item.backfill }

  /** Overflow drops a captured post only when no image backfill is left to drop. */
  lemma {:induction false} OverflowSparesPosts(m: Memory, dropped: seq<Item>)
    requires (forall item | item in dropped :: item.backfill) || NoBackfill(m.buffer)
    ensures var r := DropExcess(m, dropped);
            (forall item | item in r.dropped :: item.backfill) || NoBackfill(r.memory.buffer)
    decreases |m.buffer|
  {
    if |m.buffer| > MAX_BUFFER_SIZE {
      var (next, item) := DropOne(m);
      var i := FirstBackfill(m.buffer);
      assert i < |m.buffer| ==> m.buffer[i] in m.buffer && item.backfill;
      assert i == |m.buffer| ==> NoBackfill(m.buffer) && NoBackfill(next.buffer);
      hide DropOne;
      OverflowSparesPosts(next, dropped + [item]);
    }
  }
}

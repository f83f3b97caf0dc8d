/** What one captured post does to the seen set, the image checks and the buffer. */
module CaptureAdmission {
  import opened Sequences
  import opened CaptureBuffer
  import opened CaptureCover

  /** The post is new, or an article seen only as a post, or has photos still to be fetched. */
  ghost predicate Wanted(post: Post, seen: seq<Key>, checked: seq<string>, backfill: bool) {
    || post.id == ""
    || PostKey(post.id) !in seen
    || (post.article && ArticleKey(post.id) !in seen)
    || (backfill && post.photo && post.id !in checked)
  }

  /** A wanted post is buffered and recorded; any other changes nothing. It counts as image backfill
      exactly if it was seen and is no article. */
  lemma EnqueueOneExactly(m: Memory, post: Post, backfill: bool)
    ensures var next := EnqueueOne(m, post, backfill);
            if Wanted(post, m.seen, m.checked, backfill) then
              next.buffer ==
                m.buffer + [Item(m.next, post, post.id != "" && PostKey(post.id) in m.seen && !post.article)] &&
              next.next == m.next + 1 &&
              (forall key :: key in next.seen <==> key in m.seen || (post.id != "" && key in KeysOf(post))) &&
              (forall id :: id in next.checked <==>
                 id in m.checked || (id == post.id && id != "" && backfill && post.photo))
            else next == m
  {
  }

  /** Recording keeps both sets without repetition. */
  lemma EnqueueOneDistinct(m: Memory, post: Post, backfill: bool)
    requires Distinct(m.seen) && Distinct(m.checked)
    ensures Distinct(EnqueueOne(m, post, backfill).seen) && Distinct(EnqueueOne(m, post, backfill).checked)
  {
  }

  /** Once enqueued, the same post changes nothing, with or without image backfill. */
  lemma EnqueuedOnce(m: Memory, post: Post, backfill: bool)
    requires post.id != ""
    ensures var next := EnqueueOne(m, post, backfill); EnqueueOne(next, post, backfill) == next
  {
  }

  /** A photo of a seen post is let through once, with image backfill only. */
  lemma BackfillEnters(m: Memory, post: Post)
    requires post.id != "" && PostKey(post.id) in m.seen && !post.article
    ensures EnqueueOne(m, post, false) == m
    ensures EnqueueOne(m, post, true) != m <==> post.photo && post.id !in m.checked
    ensures EnqueueOne(m, post, true) != m ==> EnqueueOne(m, post, true).seen == m.seen
  {
  }

  /** Trimming keeps the latest entries of both sets. */
  lemma TrimKeepsLatest(m: Memory)
    ensures |Trim(m).seen| == (if |m.seen| <= 50_000 then |m.seen| else 50_000)
    ensures Trim(m).seen == m.seen[|m.seen| - |Trim(m).seen|..]
    ensures |Trim(m).checked| == (if |m.checked| <= 50_000 then |m.checked| else 50_000)
    ensures Trim(m).checked == m.checked[|m.checked| - |Trim(m).checked|..]
    ensures Trim(m).buffer == m.buffer && Trim(m).next == m.next
  {
  }

  /** The object at `i` went: the first image backfill, whose post may then be fetched again, or,
      without one, the oldest post. */
  ghost predicate DroppedAt(m: Memory, left: Memory, item: Item, i: nat) {
    && i < |m.buffer| && item == m.buffer[i]
    && left == m.(buffer := m.buffer[..i] + m.buffer[i + 1..], checked := left.checked)
    && (if item.backfill then forall j | 0 <= j < i :: !m.buffer[j].backfill
        else i == 0 && forall j | 0 <= j < |m.buffer| :: !m.buffer[j].backfill)
    && forall id :: id in left.checked <==> id in m.checked && !(item.backfill && id != "" && id == item.post.id)
  }

  lemma OthersLeft(checked: seq<string>, id: string)
    ensures forall x :: x in Filter(checked, OtherThan(id)) <==> x in checked && x != id
  {
    forall x | x in checked && x != id ensures x in Filter(checked, OtherThan(id)) {
      assert OtherThan(id)(x);
    }
  }

  lemma BackfillGoes(m: Memory, i: nat)
    requires i < |m.buffer| && m.buffer[i].backfill && forall j | 0 <= j < i :: !m.buffer[j].backfill
    ensures var id := m.buffer[i].post.id;
            var checked := if id != "" then Filter(m.checked, OtherThan(id)) else m.checked;
            DroppedAt(m, m.(buffer := m.buffer[..i] + m.buffer[i + 1..], checked := checked), m.buffer[i], i)
  {
    OthersLeft(m.checked, m.buffer[i].post.id);
    hide Filter;
  }

  lemma OldestGoes(m: Memory)
    requires m.buffer != [] && forall j | 0 <= j < |m.buffer| :: !m.buffer[j].backfill
    ensures DroppedAt(m, m.(buffer := m.buffer[1..]), m.buffer[0], 0)
  {
    assert m.buffer[..0] + m.buffer[1..] == m.buffer[1..];
  }

  lemma DropOneExactly(m: Memory)
    requires m.buffer != []
    ensures exists i :: DroppedAt(m, DropOne(m).0, DropOne(m).1, i)
  {
    hide DroppedAt, Filter, FirstBackfill;
    var i := FirstBackfill(m.buffer);
    if i < |m.buffer| {
      BackfillGoes(m, i);
      var id := m.buffer[i].post.id;
      assert DropOne(m) ==
             (m.(buffer := m.buffer[..i] + m.buffer[i + 1..],
                 checked := if id != "" then Filter(m.checked, OtherThan(id)) else m.checked), m.buffer[i]);
    } else {
      OldestGoes(m);
      assert DropOne(m) == (m.(buffer := m.buffer[1..]), m.buffer[0]);
    }
  }

  // Requests that were too large ------------------------------------------------------------------------------

  function PostsIn(batches: seq<seq<Item>>): nat {
    if batches == [] then 0 else PostsIn(batches[..|batches| - 1]) + |batches[|batches| - 1]|
  }

  /** The pace after batches that were all accepted. */
  function Accepting(pace: Pace, batches: seq<seq<Item>>): Pace {
    if batches == [] then pace
    else NextPace(Accepting(pace, batches[..|batches| - 1]), batches[|batches| - 1], Accepted)
  }

  /** A request of several posts that was too large halves the next ones until as many posts have
      gone; then requests are full again. */
  lemma {:induction false} SplitUntilGone(batch: seq<Item>, pace: Pace, batches: seq<seq<Item>>)
    requires |batch| > 1
    ensures var halved := NextPace(pace, batch, TooLarge);
            halved.cap == |batch| / 2 &&
            (PostsIn(batches) < |batch| ==> Accepting(halved, batches) == Pace(|batch| / 2, |batch| - PostsIn(batches)))
    ensures batches != [] && PostsIn(batches[..|batches| - 1]) < |batch| <= PostsIn(batches) ==>
              Accepting(NextPace(pace, batch, TooLarge), batches) == Pace(200, 0)
    ensures NextPace(Pace(200, 0), batch, Accepted) == Pace(200, 0)
  {
    if batches != [] {
      SplitUntilGone(batch, pace, batches[..|batches| - 1]);
    }
  }

  /** A single post that was too large leaves, and requests are full again. */
  lemma SingleIsLetGo(pace: Pace, item: Item)
    ensures NextPace(pace, [item], TooLarge) == Pace(200, 0)
  {
  }
}

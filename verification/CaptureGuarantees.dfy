/** What holds of captured posts after any run of the extension. */
module CaptureGuarantees {
  import opened Sequences
  import opened CaptureBuffer
  import opened CaptureCover
  import opened CaptureLog

  /** An object of this post, and for an article an object that is an article, is among them. */
  predicate Holds(items: set<Item>, post: Post) {
    && (exists item :: item in items && item.post.id == post.id)
    && (post.article ==> exists item :: item in items && item.post.id == post.id && item.post.article)
  }

  /** The objects in the saved buffer, acknowledged, dropped for overflow, or refused alone. */
  function Accounted(w: World): set<Item> {
    Members(w.disk.buffer) + w.acknowledged + w.dropped + w.refused
  }

  lemma KeyIsHeld(w: World, post: Post)
    requires KeysOf(post) <= KeysIn(w.disk.buffer) + KeysAmong(Gone(w))
    ensures Holds(Accounted(w), post)
  {
    KeyHeld(w, post.id, PostKey(post.id));
    if post.article {
      KeyHeld(w, post.id, ArticleKey(post.id));
    }
  }

  lemma KeyHeld(w: World, id: string, key: Key)
    requires key in KeysIn(w.disk.buffer) + KeysAmong(Gone(w)) && key.id == id
    ensures exists item :: item in Accounted(w) && item.post.id == id && (key.ArticleKey? ==> item.post.article)
  {
    if key in KeysIn(w.disk.buffer) {
      var item :| item in w.disk.buffer && key in KeysOf(item.post);
      assert item in Accounted(w);
    } else {
      var item :| item in Gone(w) && key in KeysOf(item.post);
      assert item in Accounted(w);
    }
  }

  /** At every point, a captured response is still staged, or the pool admitted it and of each of
      its posts, an article as an article, an object is in the saved buffer, was acknowledged, or
      was reported as dropped. */
  lemma CapturedPostsAreKept(events: seq<Event>, key: nat, post: Post)
    requires key in Run(INSTALLED, events).captured && post in Run(INSTALLED, events).captured[key]
    ensures var w := Run(INSTALLED, events);
            (key in w.staged && w.staged[key] == w.captured[key]) || (key in w.admitted && Holds(Accounted(w), post))
  {
    InstalledHolds();
    RunKeeps(INSTALLED, events);
    var w := Run(INSTALLED, events);
    hide Run, MemoryCovers, SavingCovers, HandlersHold, Gone, KeysIn, KeysAmong, KeysOf, Holds, Accounted;
    assert Logged(w, key);
    if !(key in w.staged && w.staged[key] == w.captured[key]) {
      forall k | k in KeysOf(post) ensures k in KeysIn(w.disk.buffer) + KeysAmong(Gone(w)) {
        assert k in KeysOfPosts(w.captured[key]);
      }
      KeyIsHeld(w, post);
    }
  }

  /** Every key in the saved seen set is of a post, an article mark of an article, that is in the
      saved buffer, was acknowledged, or was dropped for overflow or as too large on its own. */
  lemma SavedSeenIsCovered(events: seq<Event>, key: Key)
    requires key in Run(INSTALLED, events).disk.seen
    ensures exists item ::
              item in Accounted(Run(INSTALLED, events)) && item.post.id == key.id &&
              (key.ArticleKey? ==> item.post.article)
  {
    InstalledHolds();
    RunKeeps(INSTALLED, events);
    var w := Run(INSTALLED, events);
    hide Run, MemoryCovers, SavingCovers, HandlersHold, AllLogged, Ordered, KeysIn, KeysAmong, Accounted;
    KeyHeld(w, key.id, key);
  }

  /** Whatever is interleaved with a flush, an object buffered since the last start is still
      buffered, or was acknowledged, dropped for overflow, or refused on its own. */
  lemma NothingLeavesUnsettled(events: seq<Event>)
    ensures var w := Run(INSTALLED, events);
            w.memory.Some? ==>
              forall item | item in w.buffered ::
                item in w.memory.value.buffer || item in w.acknowledged || item in w.dropped || item in w.refused
    ensures var w := Run(INSTALLED, events); w.memory.Some? ==> Distinct(w.memory.value.buffer)
  {
    InstalledHolds();
    RunKeeps(INSTALLED, events);
    var w := Run(INSTALLED, events);
    hide Run, SavingCovers, HandlersHold, AllLogged, Covered, Ordered;
    if w.memory.Some? {
      OrderedIsDistinct(w.memory.value.buffer, w.memory.value.next);
    }
  }

  /** What one answer lets go: exactly the posts of an acknowledged request, or the single
      post of a request refused as too large. */
  lemma AnswersLetGo(w: World, answer: Answer)
    requires w.memory.Some? && w.flush.Posting?
    ensures var v := RespondNext(w, answer);
            forall item | item in w.memory.value.buffer && v.memory.Some? && item !in v.memory.value.buffer ::
              item in w.flush.batch &&
              ((answer.Accepted? && item in v.acknowledged) ||
               (answer.TooLarge? && w.flush.batch == [item] && item in v.refused))
  {
    var v := RespondNext(w, answer);
    hide NextPace;
    forall item | item in w.memory.value.buffer && item !in v.memory.value.buffer ensures item in w.flush.batch {
      LeftWasSent(w.memory.value.buffer, w.flush.batch, item);
    }
  }

  lemma LeftWasSent(buffer: seq<Item>, batch: seq<Item>, item: Item)
    requires item in buffer && item !in RemoveDelivered(buffer, batch)
    ensures item in batch
  {
    assert NotIn(batch)(item) == (item !in batch);
  }
}

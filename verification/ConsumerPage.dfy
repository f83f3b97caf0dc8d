/** The change records of one consumer page, and the builder that bounds a page by item count
    and by bytes without ever splitting or skipping an item. */
module ConsumerPage {

  datatype Post = Post(id: nat, isRetweet: bool)

  /** One enriched unit. `hash` is the digest of its published content. */
  datatype Unit = Unit(id: nat, posts: seq<Post>, hash: nat)

  /** One engagement sample, with every source segment that carries a copy of it. */
  datatype Observation = Observation(post: nat, at: nat, id: nat, segments: set<nat>, isPublic: bool)

  datatype Change =
    | UnitUpsert(unit: Unit)
    | UnitRemove(unitId: nat)
    | Sample(observation: Observation)

  datatype Error = ReadLimit | OversizedSource | InvalidCursor

  datatype Outcome<+T> = Ok(value: T) | Throws(error: Error)

  const ENVELOPE_BYTES := 8192
  const HARD_PAGE_BYTES := 8 * 1_048_576
  const TARGET_PAGE_BYTES := 2 * 1_048_576

  datatype Page = Page(changes: seq<Change>, bytes: nat)

  const EMPTY_PAGE := Page([], ENVELOPE_BYTES)

  datatype Added = Accepted(page: Page) | Refused | Oversized

  /** What adding a change of `size` encoded bytes does to a page. */
  function Add(page: Page, change: Change, size: nat, limit: nat): Added {
    var bytes := size + 1;
    if bytes + ENVELOPE_BYTES > HARD_PAGE_BYTES then
      Oversized
    else if |page.changes| >= limit || (|page.changes| > 0 && page.bytes + bytes > TARGET_PAGE_BYTES) then
      Refused
    else
      Accepted(Page(page.changes + [change], page.bytes + bytes))
  }

  /** An empty page refuses nothing, so every page makes progress; and a page that took every
      item through `Add` stays within both bounds. */
  lemma PageBounds(page: Page, change: Change, size: nat, limit: nat)
    requires 0 < limit
    ensures page.changes == [] ==> Add(page, change, size, limit) != Refused
    ensures Add(page, change, size, limit).Accepted? &&
            |page.changes| <= limit && page.bytes <= HARD_PAGE_BYTES &&
            (page.changes == [] ==> page.bytes == ENVELOPE_BYTES) ==>
              var next := Add(page, change, size, limit).page;
              next.changes == page.changes + [change] && |next.changes| <= limit && next.bytes <= HARD_PAGE_BYTES
  {
  }

  /** The builder the page loop fills. */
  class ConsumerPageBuilder {
    var changes: seq<Change>
    var bytes: nat
    const limit: nat

    function Contents(): Page
      reads this
    {
      Page(changes, bytes)
    }

    constructor (limit: nat)
      ensures this.limit == limit && Contents() == EMPTY_PAGE
    {
      this.limit := limit;
      changes, bytes := [], ENVELOPE_BYTES;
    }

    method Append(change: Change, size: nat) returns (added: Outcome<bool>)
      modifies this`changes, this`bytes
      ensures match Add(old(Contents()), change, size, limit)
              case Accepted(page) => added == Ok(true) && Contents() == page
              case Refused => added == Ok(false) && Contents() == old(Contents())
              case Oversized => added == Throws(OversizedSource) && Contents() == old(Contents())
    {
      var itemBytes := size + 1;
      if itemBytes + ENVELOPE_BYTES > HARD_PAGE_BYTES {
        return Throws(OversizedSource);
      }
      if |changes| >= limit || (|changes| > 0 && bytes + itemBytes > TARGET_PAGE_BYTES) {
        return Ok(false);
      }
      changes := changes + [change];
      bytes := bytes + itemBytes;
      return Ok(true);
    }
  }
}

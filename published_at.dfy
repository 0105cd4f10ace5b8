/**
 * The `beforeChange` hook of the `publishedAt` date field, identical in the
 * Projects and Network collections.
 */
module PublishedAt {
  import opened Js

  predicate IsPublished(siblingData: Record) {
    Get(siblingData, "_status") == Str("published")
  }

  /**
   * Fills in the publication date when a document is saved as published
   * without one; `now` is the clock reading `new Date()` takes.
   */
  function FillPublishedAt(siblingData: Record, value: Value, now: int): (r: Value)
    ensures IsPublished(siblingData) && !Truthy(value) ==> r == Date(now)
    ensures Truthy(value) || !IsPublished(siblingData) ==> r == value
    ensures IsPublished(siblingData) ==> Truthy(r)
  {
    if IsPublished(siblingData) && !Truthy(value) then Date(now) else value
  }

  /** The hook never clears or replaces a date that is already set. */
  lemma NeverClears(siblingData: Record, value: Value, now: int)
    ensures Truthy(value) ==> FillPublishedAt(siblingData, value, now) == value
    ensures !IsPublished(siblingData) && !Truthy(value) ==> !Truthy(FillPublishedAt(siblingData, value, now))
  {
  }

  /** Running the hook again changes nothing, whatever the clock reads the second time. */
  lemma FillIdempotent(siblingData: Record, value: Value, now: int, later: int)
    ensures FillPublishedAt(siblingData, FillPublishedAt(siblingData, value, now), later)
      == FillPublishedAt(siblingData, value, now)
  {
  }
}

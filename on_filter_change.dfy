/**
 * The filter updater the explore page hands to its filter panel
 * (frontend/lib/onFilterChange.ts): the new filters are the old ones
 * overwritten by the keys the panel changed, with the page put back to 1.
 */
module FilterChange {
  import opened Wrappers
  import opened ExplorePage

  /**
   * A `Partial<FiltersState>`. Each field is `None` when the key is absent
   * from the update and `Some(v)` when it is present; `v` may itself be
   * `None`, a key explicitly set to `undefined`.
   */
  datatype FilterUpdate = FilterUpdate(
    keyword: Option<Option<string>>,
    startDate: Option<Option<string>>,
    endDate: Option<Option<string>>,
    answered: Option<Option<bool>>,
    status: Option<Option<string>>,
    userId: Option<Option<string>>,
    minVotes: Option<Option<int>>,
    maxVotes: Option<Option<int>>,
    sortBy: Option<Option<string>>,
    page: Option<Option<int>>)

  /** The update with no keys. */
  const NoChange := FilterUpdate(None, None, None, None, None, None, None, None, None, None)

  /** One key of `{...prev, ...update}`. */
  function Spread<T>(prev: Option<T>, change: Option<Option<T>>): Option<T> {
    match change
    case None => prev
    case Some(v) => v
  }

  /** A key present in the update takes the update's value; an absent key keeps its old one. */
  predicate Merged<T(==)>(before: Option<T>, change: Option<Option<T>>, after: Option<T>) {
    (change.Some? ==> after == change.value) && (change.None? ==> after == before)
  }

  /** `onFilterChange`: the filters after the panel reports `update`. */
  function OnFilterChange(prev: Filters, update: FilterUpdate): (r: Filters)
    ensures r.page == Some(1)
    ensures Merged(prev.keyword, update.keyword, r.keyword)
    ensures Merged(prev.startDate, update.startDate, r.startDate)
    ensures Merged(prev.endDate, update.endDate, r.endDate)
    ensures Merged(prev.answered, update.answered, r.answered)
    ensures Merged(prev.status, update.status, r.status)
    ensures Merged(prev.userId, update.userId, r.userId)
    ensures Merged(prev.minVotes, update.minVotes, r.minVotes)
    ensures Merged(prev.maxVotes, update.maxVotes, r.maxVotes)
    ensures Merged(prev.sortBy, update.sortBy, r.sortBy)
  {
    Filters(
      keyword := Spread(prev.keyword, update.keyword),
      startDate := Spread(prev.startDate, update.startDate),
      endDate := Spread(prev.endDate, update.endDate),
      answered := Spread(prev.answered, update.answered),
      status := Spread(prev.status, update.status),
      userId := Spread(prev.userId, update.userId),
      minVotes := Spread(prev.minVotes, update.minVotes),
      maxVotes := Spread(prev.maxVotes, update.maxVotes),
      sortBy := Spread(prev.sortBy, update.sortBy),
      page := Some(1))
  }

  /** Reporting the same change twice is the same as reporting it once. */
  lemma OnFilterChangeIdempotent(prev: Filters, update: FilterUpdate)
    ensures OnFilterChange(OnFilterChange(prev, update), update) == OnFilterChange(prev, update)
  {
  }

  /** An update with no keys only sends the list back to page 1. */
  lemma NoChangeResetsPage(prev: Filters)
    ensures OnFilterChange(prev, NoChange) == prev.(page := Some(1))
  {
  }

  /** `{...u, ...v}`: the keys of both updates, `v` winning where both have one. */
  function Then(u: FilterUpdate, v: FilterUpdate): FilterUpdate {
    FilterUpdate(
      keyword := if v.keyword.Some? then v.keyword else u.keyword,
      startDate := if v.startDate.Some? then v.startDate else u.startDate,
      endDate := if v.endDate.Some? then v.endDate else u.endDate,
      answered := if v.answered.Some? then v.answered else u.answered,
      status := if v.status.Some? then v.status else u.status,
      userId := if v.userId.Some? then v.userId else u.userId,
      minVotes := if v.minVotes.Some? then v.minVotes else u.minVotes,
      maxVotes := if v.maxVotes.Some? then v.maxVotes else u.maxVotes,
      sortBy := if v.sortBy.Some? then v.sortBy else u.sortBy,
      page := if v.page.Some? then v.page else u.page)
  }

  /** Two changes in a row are one change holding the keys of both, the later winning. */
  lemma OnFilterChangeThen(prev: Filters, u: FilterUpdate, v: FilterUpdate)
    ensures OnFilterChange(OnFilterChange(prev, u), v) == OnFilterChange(prev, Then(u, v))
  {
  }

  /**
   * A filter change discards the page chosen with the pagination controls,
   * and choosing a page after it keeps the new filters.
   */
  lemma FilterChangeAndPaging(prev: Filters, update: FilterUpdate, page: int)
    ensures OnFilterChange(SetPage(prev, page), update) == OnFilterChange(prev, update)
    ensures SetPage(OnFilterChange(prev, update), page).(page := Some(1)) == OnFilterChange(prev, update)
  {
  }
}

/**
 * The question-list page (frontend/app/explore/page.tsx): the filter record,
 * its initial value, the sort-key table, the query string built from the
 * filters, and the updater the pagination controls use.
 */
module ExplorePage {
  import opened Wrappers
  import opened JsText

  /** `FiltersState`: every field is optional (`None` is `undefined`). */
  datatype Filters = Filters(
    keyword: Option<string>,
    startDate: Option<string>,
    endDate: Option<string>,
    answered: Option<bool>,
    status: Option<string>,
    userId: Option<string>,
    minVotes: Option<int>,
    maxVotes: Option<int>,
    sortBy: Option<string>,
    page: Option<int>)

  /** `sortMap`: the client's sort names to the server's. */
  const SortMap: map<string, string> :=
    map["newest" := "newest", "mostVoted" := "votes", "mostAnswered" := "answers",
        "trending" := "trending", "oldest" := "oldest"]

  /** The filters the page starts with. */
  function InitialFilters(): (r: Filters)
    ensures r.page == Some(1) && !Truthy(r.keyword)
    ensures r.sortBy.Some? && r.sortBy.value in SortMap
  {
    Filters(Some(""), None, None, None, None, None, None, None, Some("newest"), Some(1))
  }

  /** `sortMap[sortBy] || "newest"`. */
  function SortParam(sortBy: string): (r: string)
    ensures r in SortMap.Values && r != ""
  {
    assert SortMap["newest"] == "newest";
    if sortBy in SortMap && SortMap[sortBy] != "" then SortMap[sortBy] else "newest"
  }

  /** The names the page puts in its query string. */
  datatype Name = Page | Keyword | SortBy | Status | MinVotes | MaxVotes | User | StartDate | EndDate

  /** A query string: the value held under each name, if any; `params.set` replaces one field. */
  datatype Params = Params(
    page: Option<string>, keyword: Option<string>, sortBy: Option<string>, status: Option<string>,
    minVotes: Option<string>, maxVotes: Option<string>, user: Option<string>,
    startDate: Option<string>, endDate: Option<string>)

  /** The empty query string. */
  const NoParams := Params(None, None, None, None, None, None, None, None, None)

  /** `params.get(name)`. */
  function Get(params: Params, key: Name): Option<string> {
    match key
    case Page => params.page
    case Keyword => params.keyword
    case SortBy => params.sortBy
    case Status => params.status
    case MinVotes => params.minVotes
    case MaxVotes => params.maxVotes
    case User => params.user
    case StartDate => params.startDate
    case EndDate => params.endDate
  }

  /** The query string `queryParams` builds from the filters (lines 50-60). */
  function QueryFor(f: Filters): (r: Params)
    ensures r.page.Some?
    ensures r.sortBy.Some? <==> Truthy(f.sortBy)
    ensures r.sortBy.Some? ==> r.sortBy.value in SortMap.Values
    ensures r.user.Some? <==> Truthy(f.userId)
  {
    Params(
      page := Some(IntToString(f.page.GetOr(1))),
      keyword := if Truthy(f.keyword) then f.keyword else None,
      sortBy := if Truthy(f.sortBy) then Some(SortParam(f.sortBy.value)) else None,
      status := if Truthy(f.status) then f.status else None,
      minVotes := if TruthyInt(f.minVotes) then Some(IntToString(f.minVotes.value)) else None,
      maxVotes := if TruthyInt(f.maxVotes) then Some(IntToString(f.maxVotes.value)) else None,
      user := if Truthy(f.userId) then f.userId else None,
      startDate := if Truthy(f.startDate) then f.startDate else None,
      endDate := if Truthy(f.endDate) then f.endDate else None)
  }

  /** `queryParams`: the query string sent with the question-list request. */
  method QueryParams(filters: Filters) returns (params: Params)
    ensures params == QueryFor(filters)
  {
    params := NoParams;
    params := params.(page := Some(IntToString(filters.page.GetOr(1))));
    if Truthy(filters.keyword) {
      params := params.(keyword := Some(filters.keyword.value));
    }
    if Truthy(filters.sortBy) {
      params := params.(sortBy := Some(SortParam(filters.sortBy.value)));
    }
    if Truthy(filters.status) {
      params := params.(status := Some(filters.status.value));
    }
    if TruthyInt(filters.minVotes) {
      params := params.(minVotes := Some(IntToString(filters.minVotes.value)));
    }
    if TruthyInt(filters.maxVotes) {
      params := params.(maxVotes := Some(IntToString(filters.maxVotes.value)));
    }
    if Truthy(filters.userId) {
      params := params.(user := Some(filters.userId.value));
    }
    if Truthy(filters.startDate) {
      params := params.(startDate := Some(filters.startDate.value));
    }
    if Truthy(filters.endDate) {
      params := params.(endDate := Some(filters.endDate.value));
    }
  }

  /**
   * The query always names a page, and the page number reads back from it:
   * the filter's page, or 1 when none is set.
   */
  lemma QueryPageRoundTrip(f: Filters)
    ensures Get(QueryFor(f), Page).Some?
    ensures ParseInteger(Get(QueryFor(f), Page).GetOr("")) == Some(f.page.GetOr(1))
  {
    IntToStringRoundTrip(f.page.GetOr(1));
  }

  /**
   * A vote bound is sent exactly when it is set and non-zero, and the bound
   * reads back from the query unchanged.
   */
  lemma QueryVoteBounds(f: Filters)
    ensures Get(QueryFor(f), MinVotes).Some? <==> f.minVotes.Some? && f.minVotes.value != 0
    ensures Get(QueryFor(f), MaxVotes).Some? <==> f.maxVotes.Some? && f.maxVotes.value != 0
    ensures Get(QueryFor(f), MinVotes).Some? ==> ParseInteger(Get(QueryFor(f), MinVotes).value) == f.minVotes
    ensures Get(QueryFor(f), MaxVotes).Some? ==> ParseInteger(Get(QueryFor(f), MaxVotes).value) == f.maxVotes
  {
    if TruthyInt(f.minVotes) {
      IntToStringRoundTrip(f.minVotes.value);
    }
    if TruthyInt(f.maxVotes) {
      IntToStringRoundTrip(f.maxVotes.value);
    }
  }

  /**
   * A text filter is sent, unchanged, exactly when it is set to a non-empty
   * string; the user filter travels under "user".
   */
  lemma QueryTextFilters(f: Filters)
    ensures Get(QueryFor(f), Keyword) == (if f.keyword == Some("") then None else f.keyword)
    ensures Get(QueryFor(f), Status) == (if f.status == Some("") then None else f.status)
    ensures Get(QueryFor(f), User) == (if f.userId == Some("") then None else f.userId)
    ensures Get(QueryFor(f), StartDate) == (if f.startDate == Some("") then None else f.startDate)
    ensures Get(QueryFor(f), EndDate) == (if f.endDate == Some("") then None else f.endDate)
  {
  }

  /** The `answered` filter never reaches the query string. */
  lemma QueryIgnoresAnswered(f: Filters, answered: Option<bool>)
    ensures QueryFor(f.(answered := answered)) == QueryFor(f)
  {
  }

  /** No name is sent with an empty value. */
  lemma QueryValuesNonEmpty(f: Filters, k: Name)
    ensures Get(QueryFor(f), k) != Some("")
  {
    match k
    case Page => IntToStringSign(f.page.GetOr(1));
    case SortBy => SortParamTable(f.sortBy.GetOr(""));
    case MinVotes => IntToStringSign(f.minVotes.GetOr(0));
    case MaxVotes => IntToStringSign(f.maxVotes.GetOr(0));
    case _ =>
  }

  /** The sort parameter is never empty: a name the table does not know is sent as "newest". */
  lemma SortParamTable(sortBy: string)
    ensures SortParam(sortBy) != ""
    ensures sortBy in SortMap ==> SortParam(sortBy) == SortMap[sortBy]
    ensures sortBy !in SortMap ==> SortParam(sortBy) == "newest"
  {
  }

  /** The sort names the filter offers map as the table says; "mostVoted" becomes "votes". */
  lemma SortNames()
    ensures SortParam("mostVoted") == "votes" && SortParam("mostAnswered") == "answers"
    ensures SortParam("newest") == "newest" && SortParam("trending") == "trending"
    ensures SortParam("oldest") == "oldest"
    ensures SortParam("popular") == "newest"
  {
    assert "popular" !in SortMap;
  }

  /** The first request the page makes asks for page 1, newest first, and nothing else. */
  lemma InitialQuery()
    ensures QueryFor(InitialFilters()) ==
      NoParams.(page := Some("1"), sortBy := Some("newest"))
  {
    assert NatToString(1) == "1";
    assert "newest" in SortMap;
  }

  /** The page setter handed to the pagination controls (lines 88-90): only `page` changes. */
  function SetPage(prev: Filters, newPage: int): (r: Filters)
    ensures r.page == Some(newPage)
    ensures r.(page := prev.page) == prev
  {
    prev.(page := Some(newPage))
  }
}

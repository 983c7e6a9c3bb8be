/**
 * The previous/next page controls under the question list
 * (frontend/components/Questions/Pagination.tsx). The current page and the
 * page count come from the parent; `setPage` is the parent's callback, so
 * each click is modelled by the argument it passes to `setPage`, if any.
 */
module Pagination {
  import opened Wrappers

  /** The controls are shown only when there is more than one page. */
  predicate Renders(totalPages: int) {
    !(totalPages <= 1)
  }

  /** The page shown after "previous", once the parent has applied `setPage`. */
  function StepBack(page: int): (r: int)
    ensures r == page - 1 || r == page
    ensures r < page <==> page > 1
    ensures page >= 1 ==> r >= 1
  {
    if page > 1 then page - 1 else page
  }

  /** The page shown after "next", once the parent has applied `setPage`. */
  function StepForward(page: int, totalPages: int): (r: int)
    ensures r == page + 1 || r == page
    ensures r > page <==> page < totalPages
    ensures page <= totalPages ==> r <= totalPages
  {
    if page < totalPages then page + 1 else page
  }

  /** `goToPreviousPage`: asks for the page before, and only when there is one. */
  method GoToPreviousPage(page: int) returns (request: Option<int>)
    ensures request.Some? <==> page > 1
    ensures request.Some? ==> request.value == page - 1
    ensures request.GetOr(page) == StepBack(page)
  {
    request := None;
    if page > 1 {
      request := Some(page - 1);
    }
  }

  /** `goToNextPage`: asks for the page after, and only when there is one. */
  method GoToNextPage(page: int, totalPages: int) returns (request: Option<int>)
    ensures request.Some? <==> page < totalPages
    ensures request.Some? ==> request.value == page + 1
    ensures request.GetOr(page) == StepForward(page, totalPages)
  {
    request := None;
    if page < totalPages {
      request := Some(page + 1);
    }
  }

  /** Neither control leaves the range of existing pages. */
  lemma StepsStayInRange(page: int, totalPages: int)
    requires 1 <= page <= totalPages
    ensures 1 <= StepBack(page) <= totalPages
    ensures 1 <= StepForward(page, totalPages) <= totalPages
  {
  }

  /** Whenever the controls are shown on an existing page, at least one of them moves. */
  lemma RenderedControlsMove(page: int, totalPages: int)
    requires Renders(totalPages) && 1 <= page <= totalPages
    ensures StepBack(page) != page || StepForward(page, totalPages) != page
  {
  }

  /** "next" then "previous" comes back to the page, unless it was the last one. */
  lemma ForwardThenBack(page: int, totalPages: int)
    requires 1 <= page < totalPages
    ensures StepBack(StepForward(page, totalPages)) == page
  {
  }

  /** "previous" then "next" comes back to the page, unless it was the first one. */
  lemma BackThenForward(page: int, totalPages: int)
    requires 1 < page <= totalPages
    ensures StepForward(StepBack(page), totalPages) == page
  {
  }
}

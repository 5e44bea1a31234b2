/**
  The paginated fetch controller of `src/features/hooks/useInfiniteIssues.ts`:
  eight state cells, the refs `isLoadingRef` and `currentPageRef`, the reset
  effect, `loadMore` and `reset`. Every started `loadData` is recorded with its
  own `cancelled` flag; a request's completion is an explicit event carrying
  the fetch outcome, so any interleaving of completions can be replayed.
*/
module InfiniteIssues {
  import opened Wrappers
  import opened Types
  import opened RequestBuilder

  /** The response the hook reads: `content`, `last`, `totalElements`. */
  datatype Response = Response(content: seq<Issue>, last: bool, totalElements: int)

  /** What a failed fetch throws: an `Error` instance, or any other value. */
  datatype Thrown = ErrorInstance(message: string) | OtherValue

  /** How a fetch settles. */
  datatype FetchOutcome = Fetched(response: Response) | Threw(thrown: Thrown)

  /** `err instanceof Error ? err : new Error('Unknown error')`, by message. */
  function ErrorOf(t: Thrown): (m: string)
    ensures t.ErrorInstance? ==> m == t.message
    ensures t.OtherValue? ==> m == "Unknown error"
  {
    match t
    case ErrorInstance(message) => message
    case OtherValue => "Unknown error"
  }

  /** `{ ...baseRequestRef.current, page }` */
  datatype PagedRequest = PagedRequest(base: BaseRequest, page: int)

  datatype LoadKind = ResetLoad | MoreLoad

  /** One started `loadData`: what it asked for, its `cancelled` flag, and whether it settled. */
  datatype Pending = Pending(kind: LoadKind, request: PagedRequest, cancelled: bool, settled: bool)

  /** The hook's returned state. */
  datatype View = View(
    issues: seq<Issue>,
    currentPage: int,
    loading: bool,
    loadingMore: bool,
    error: Option<string>,
    hasMore: bool,
    totalElements: int,
    lastResponse: Option<Response>)

  /** The requests after setting the `cancelled` flag of request `i`, if any. */
  function CancelAt(s: seq<Pending>, i: Option<nat>): (r: seq<Pending>)
    ensures |r| == |s|
    ensures forall k :: 0 <= k < |s| && Some(k) != i ==> r[k] == s[k]
    ensures i.Some? && i.value < |s| ==> r[i.value] == s[i.value].(cancelled := true)
  {
    if i.Some? && i.value < |s| then s[i.value := s[i.value].(cancelled := true)] else s
  }

  /** The keys the reset effect lists: `filter?.language`, `order?.field` and
      `order?.type`. A base request has none of these properties, so each reads
      `undefined` whatever the request is. */
  datatype ResetKey = Undefined

  function ResetKeys(base: BaseRequest): (ResetKey, ResetKey, ResetKey)
  {
    (Undefined, Undefined, Undefined)
  }

  /** As written the keys cannot tell a filtered request from an unfiltered one,
      so the reset effect runs at mount only. */
  lemma ResetKeysMissFilterChange()
    ensures var a := BaseRequest(PageSize, None, None);
            var b := BaseRequest(PageSize, Some(IssuesFilter(Some(ValuesFilter(["Go"], In)), None, None, None)), None);
            a != b && ResetKeys(a) == ResetKeys(b)
  {
  }

  /** What the reset keys evidently meant: the request's filter and orders. */
  function FetchIdentity(base: BaseRequest): (Option<IssuesFilter>, Option<seq<Order>>)
  {
    (base.filter, base.orders)
  }

  /** With the corrected keys, the identity changes exactly when the fetched
      payload changes (the builder's limit is fixed). */
  lemma FetchIdentityTracksPayload(a: BaseRequest, b: BaseRequest, page: int)
    requires a.limit == b.limit
    ensures FetchIdentity(a) == FetchIdentity(b) <==> PagedRequest(a, page) == PagedRequest(b, page)
  {
  }

  class Controller {
    var issues: seq<Issue>
    var currentPage: int
    var loading: bool
    var loadingMore: bool
    var error: Option<string>
    var hasMore: bool
    var totalElements: int
    var lastResponse: Option<Response>
    var baseRequestRef: BaseRequest
    var isLoadingRef: bool
    var currentPageRef: int
    /** Every `loadData` started so far, by number. */
    var requests: seq<Pending>
    /** The request of the reset effect now mounted, if it is mounted. */
    var resetRequest: Option<nat>

    function State(): View
      reads this
    {
      View(issues, currentPage, loading, loadingMore, error, hasMore, totalElements, lastResponse)
    }

    /** Only the mounted reset effect's request may still change state: every
        other reset request has been cancelled by its cleanup. */
    predicate Valid()
      reads this
    {
      && (resetRequest.Some? ==>
            (resetRequest.value < |requests|
             && requests[resetRequest.value].kind == ResetLoad
             && !requests[resetRequest.value].cancelled))
      && (forall k :: 0 <= k < |requests| && requests[k].kind == ResetLoad && Some(k) != resetRequest
                      ==> requests[k].cancelled)
    }

    /** First render: the `useState` and `useRef` initial values. */
    constructor (base: BaseRequest)
      ensures Valid()
      ensures State() == View([], 0, true, false, None, true, 0, None)
      ensures baseRequestRef == base && !isLoadingRef && currentPageRef == 0
      ensures requests == [] && resetRequest.None?
    {
      issues := [];
      currentPage := 0;
      loading := true;
      loadingMore := false;
      error := None;
      hasMore := true;
      totalElements := 0;
      lastResponse := None;
      baseRequestRef := base;
      isLoadingRef := false;
      currentPageRef := 0;
      requests := [];
      resetRequest := None;
    }

    /** The reset effect's cleanup (before it re-runs, and at unmount). */
    method CleanupReset()
      requires Valid()
      modifies this
      ensures Valid() && resetRequest.None?
      ensures requests == CancelAt(old(requests), old(resetRequest))
      ensures old(resetRequest).Some? ==> !isLoadingRef
      ensures old(resetRequest).None? ==> isLoadingRef == old(isLoadingRef)
      ensures State() == old(State()) && baseRequestRef == old(baseRequestRef) && currentPageRef == old(currentPageRef)
    {
      if resetRequest.Some? {
        requests := CancelAt(requests, resetRequest);
        isLoadingRef := false;
        resetRequest := None;
      }
    }

    /** The reset effect: clean up the previous run, clear the list and start
        loading page 0 of the current base request. Returns the request's number. */
    method RunResetEffect() returns (id: nat)
      requires Valid()
      modifies this
      ensures Valid() && resetRequest == Some(id) && id == |old(requests)|
      ensures requests == CancelAt(old(requests), old(resetRequest)) + [Pending(ResetLoad, PagedRequest(baseRequestRef, 0), false, false)]
      ensures State() == View([], 0, true, false, None, true, old(totalElements), None)
      ensures isLoadingRef
      ensures baseRequestRef == old(baseRequestRef) && currentPageRef == old(currentPageRef)
    {
      CleanupReset();
      isLoadingRef := true;
      currentPage := 0;
      issues := [];
      hasMore := true;
      error := None;
      lastResponse := None;
      loading := true;
      loadingMore := false;
      id := |requests|;
      requests := requests + [Pending(ResetLoad, PagedRequest(baseRequestRef, 0), false, false)];
      resetRequest := Some(id);
    }

    /** The reset effect's `loadData` settles with `outcome`. */
    method CompleteReset(id: nat, outcome: FetchOutcome)
      requires Valid() && id < |requests| && requests[id].kind == ResetLoad && !requests[id].settled
      modifies this
      ensures Valid() && resetRequest == old(resetRequest)
      ensures requests == old(requests)[id := old(requests)[id].(settled := true)]
      ensures old(requests)[id].cancelled ==> State() == old(State()) && isLoadingRef == old(isLoadingRef)
      ensures Some(id) != old(resetRequest) ==> State() == old(State()) && isLoadingRef == old(isLoadingRef)
      ensures !old(requests)[id].cancelled && outcome.Fetched? ==>
        State() == old(State()).(issues := outcome.response.content, totalElements := outcome.response.totalElements,
                                 hasMore := !outcome.response.last, lastResponse := Some(outcome.response),
                                 currentPage := 0, loading := false)
      ensures !old(requests)[id].cancelled && outcome.Threw? ==>
        State() == old(State()).(error := Some(ErrorOf(outcome.thrown)), loading := false)
      ensures !old(requests)[id].cancelled ==> !isLoadingRef
      ensures baseRequestRef == old(baseRequestRef) && currentPageRef == old(currentPageRef)
    {
      var cancelled := requests[id].cancelled;
      if !cancelled {
        match outcome
        case Fetched(response) =>
          issues := response.content;
          totalElements := response.totalElements;
          hasMore := !response.last;
          lastResponse := Some(response);
          currentPage := 0;
        case Threw(thrown) =>
          error := Some(ErrorOf(thrown));
      }
      if !cancelled {
        loading := false;
        isLoadingRef := false;
      }
      requests := requests[id := requests[id].(settled := true)];
    }

    /** `loadMore`: refused while a load is in progress or the last page was
        seen; otherwise starts loading page `currentPageRef + 1`. */
    method LoadMore() returns (started: Option<nat>)
      requires Valid()
      modifies this
      ensures Valid() && resetRequest == old(resetRequest)
      ensures old(loadingMore || !hasMore || isLoadingRef) ==>
        started.None? && State() == old(State()) && isLoadingRef == old(isLoadingRef) && requests == old(requests)
      ensures !old(loadingMore || !hasMore || isLoadingRef) ==>
        && started == Some(|old(requests)|)
        && requests == old(requests) + [Pending(MoreLoad, PagedRequest(baseRequestRef, currentPageRef + 1), false, false)]
        && State() == old(State()).(loadingMore := true, error := None)
        && isLoadingRef
      ensures baseRequestRef == old(baseRequestRef) && currentPageRef == old(currentPageRef)
    {
      if loadingMore || !hasMore || isLoadingRef {
        return None;
      }
      isLoadingRef := true;
      loadingMore := true;
      error := None;
      var nextPage := currentPageRef + 1;
      started := Some(|requests|);
      requests := requests + [Pending(MoreLoad, PagedRequest(baseRequestRef, nextPage), false, false)];
    }

    /** A `loadMore` request settles with `outcome`. */
    method CompleteMore(id: nat, outcome: FetchOutcome)
      requires Valid() && id < |requests| && requests[id].kind == MoreLoad && !requests[id].settled
      modifies this
      ensures Valid() && resetRequest == old(resetRequest)
      ensures requests == old(requests)[id := old(requests)[id].(settled := true)]
      ensures old(requests)[id].cancelled ==> State() == old(State()) && isLoadingRef == old(isLoadingRef)
      ensures !old(requests)[id].cancelled && outcome.Fetched? ==>
        State() == old(State()).(issues := old(issues) + outcome.response.content,
                                 totalElements := outcome.response.totalElements,
                                 hasMore := !outcome.response.last, lastResponse := Some(outcome.response),
                                 currentPage := old(requests)[id].request.page, loadingMore := false)
      ensures !old(requests)[id].cancelled && outcome.Threw? ==>
        State() == old(State()).(error := Some(ErrorOf(outcome.thrown)), loadingMore := false)
      ensures !old(requests)[id].cancelled ==> !isLoadingRef
      ensures baseRequestRef == old(baseRequestRef) && currentPageRef == old(currentPageRef)
    {
      var cancelled := requests[id].cancelled;
      var nextPage := requests[id].request.page;
      if !cancelled {
        match outcome
        case Fetched(response) =>
          issues := issues + response.content;
          totalElements := response.totalElements;
          hasMore := !response.last;
          lastResponse := Some(response);
          currentPage := nextPage;
        case Threw(thrown) =>
          error := Some(ErrorOf(thrown));
      }
      if !cancelled {
        loadingMore := false;
        isLoadingRef := false;
      }
      requests := requests[id := requests[id].(settled := true)];
    }

    /** The cleanup function `loadMore` returns, if a caller runs it. */
    method CancelMore(id: nat)
      requires Valid() && id < |requests| && requests[id].kind == MoreLoad
      modifies this
      ensures Valid() && resetRequest == old(resetRequest)
      ensures requests == CancelAt(old(requests), Some(id)) && !isLoadingRef
      ensures State() == old(State()) && baseRequestRef == old(baseRequestRef) && currentPageRef == old(currentPageRef)
    {
      requests := CancelAt(requests, Some(id));
      isLoadingRef := false;
    }

    /** `reset()`: empties the list and page, clears the error and `isLoading`;
        `loading`, `loadingMore` and `totalElements` stay. */
    method Reset()
      requires Valid()
      modifies this
      ensures Valid()
      ensures State() == old(State()).(currentPage := 0, issues := [], hasMore := true, error := None, lastResponse := None)
      ensures !isLoadingRef && requests == old(requests) && resetRequest == old(resetRequest)
      ensures baseRequestRef == old(baseRequestRef) && currentPageRef == old(currentPageRef)
    {
      currentPage := 0;
      issues := [];
      hasMore := true;
      error := None;
      lastResponse := None;
      isLoadingRef := false;
    }

    /** A re-render with `base`, followed by its effects: the base ref takes the
        new request and the page ref the committed page. The reset effect's keys
        (`ResetKeys`) are the same on every render, so it does not re-run. */
    method Render(base: BaseRequest)
      requires Valid()
      modifies this
      ensures Valid()
      ensures baseRequestRef == base && currentPageRef == currentPage
      ensures State() == old(State()) && isLoadingRef == old(isLoadingRef)
      ensures requests == old(requests) && resetRequest == old(resetRequest)
    {
      baseRequestRef := base;
      currentPageRef := currentPage;
    }

    /** The same re-render with the reset effect keyed on `FetchIdentity`: a
        changed filter or order list restarts the list from page 0 of the new request. */
    method RenderCorrected(base: BaseRequest)
      requires Valid()
      modifies this
      ensures Valid() && baseRequestRef == base && currentPageRef == currentPage
      ensures FetchIdentity(base) != FetchIdentity(old(baseRequestRef)) ==>
        && State() == View([], 0, true, false, None, true, old(totalElements), None)
        && resetRequest == Some(|old(requests)|)
        && requests == CancelAt(old(requests), old(resetRequest)) + [Pending(ResetLoad, PagedRequest(base, 0), false, false)]
        && isLoadingRef
      ensures FetchIdentity(base) == FetchIdentity(old(baseRequestRef)) ==>
        State() == old(State()) && requests == old(requests) && resetRequest == old(resetRequest)
        && isLoadingRef == old(isLoadingRef)
    {
      var identityChanged := FetchIdentity(base) != FetchIdentity(baseRequestRef);
      baseRequestRef := base;
      if identityChanged {
        var _ := RunResetEffect();
      }
      currentPageRef := currentPage;
    }
  }

  /** Mount and a failing first load: the list stays empty and the error is shown. */
  method FailedFirstLoad(base: BaseRequest, message: string) returns (c: Controller)
    ensures c.Valid()
    ensures c.State() == View([], 0, false, false, Some(message), true, 0, None) && !c.isLoadingRef
  {
    c := new Controller(base);
    var id := c.RunResetEffect();
    c.CompleteReset(id, Threw(ErrorInstance(message)));
  }

  /** A first page, then a second page that arrives after the first: the pages
      are concatenated in order and the page number advances to 1. */
  method TwoPages(base: BaseRequest, first: Response, second: Response) returns (c: Controller)
    requires !first.last
    ensures c.Valid()
    ensures c.issues == first.content + second.content && c.currentPage == 1
    ensures c.hasMore == !second.last && !c.loading && !c.loadingMore && !c.isLoadingRef
    ensures |c.requests| == 2 && c.requests[1].request == PagedRequest(base, 1)
  {
    c := new Controller(base);
    var id := c.RunResetEffect();
    c.CompleteReset(id, Fetched(first));
    c.Render(base);
    var more := c.LoadMore();
    c.CompleteMore(more.value, Fetched(second));
  }
}

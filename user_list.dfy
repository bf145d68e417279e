/** The state of the user list component: the response on screen, the error
    banner's text, the loading flag and the current query, and the fetch that
    runs whenever the query is replaced. The two requests go to an external
    service; they appear here as functions from the query to their outcome. */
module UserList {

  import opened Queries
  import opened Pagination
  import opened Events

  datatype Option<T> = None | Some(value: T)

  datatype User = User(id: int, name: string, age: int)

  /** One page of matching users and how many match in all. */
  datatype Response = Response(data: seq<User>, total: nat)

  /** Outcome of the primary request. */
  datatype Fetched = Resolved(page: Response) | Rejected

  /** Outcome of the diagnostic request, which is expected to reject with a
      message; a value it resolves with is ignored. */
  datatype Diagnosed = DiagnosticResolved(ignored: Response) | DiagnosticRejected(message: string)

  /** The error banner text the diagnostic outcome leaves behind. */
  function DiagnosticError(d: Diagnosed): (r: Option<string>)
    ensures r.Some? <==> d.DiagnosticRejected?
    ensures r.Some? ==> r.value == d.message
  {
    match d
    case DiagnosticResolved(_) => None
    case DiagnosticRejected(message) => Some(message)
  }

  class UserListState {
    var response: Response
    var error: Option<string>
    var isLoading: bool
    var query: Query

    /** The component as first rendered: an empty response, no error, not loading. */
    constructor ()
      ensures response == Response([], 0) && error == None && !isLoading
      ensures query == BaseQuery
      ensures Valid()
    {
      response := Response([], 0);
      error := None;
      isLoading := false;
      query := BaseQuery;
    }

    /** The query on screen is one the view can reach. */
    ghost predicate Valid()
      reads this
    {
      Queries.Valid(query)
    }

    /** The pagination under the list. */
    function Info(): (r: PageInfo)
      reads this
      requires Valid()
      ensures r.page >= 1
      ensures r.hasPrev <==> query.offset > 0
      ensures r.hasNext <==> query.offset + query.limit < response.total
    {
      PageOrder(query);
      HasPrevIff(query, response.total);
      HasNextIff(query, response.total);
      Derive(query, response.total)
    }

    /** Entering a fetch: the loader shows and the old error goes away. */
    method BeginFetch()
      modifies this
      ensures isLoading && error == None
      ensures response == old(response) && query == old(query)
    {
      isLoading := true;
      error := None;
    }

    /** Settling a fetch whose primary request returned a page: the page
        replaces the response, and the loader goes away. */
    method FinishWithPage(page: Response)
      requires isLoading && error == None
      modifies this
      ensures !isLoading && query == old(query)
      ensures response == page && error == None
    {
      response := page;
      isLoading := false;
    }

    /** Settling a fetch whose primary request failed, once the diagnostic
        request has answered: the response stays, a rejection message becomes
        the error, and the loader goes away. */
    method FinishWithDiagnostic(diagnostic: Diagnosed)
      requires isLoading && error == None
      modifies this
      ensures !isLoading && query == old(query)
      ensures response == old(response) && error == DiagnosticError(diagnostic)
    {
      match diagnostic {
        case DiagnosticResolved(_) =>
        case DiagnosticRejected(message) =>
          error := Some(message);
      }
      isLoading := false;
    }

    /** One fetch for the given query. Whatever the outcome the loader is gone
        afterwards. On success the response is the page returned and there is
        no error; on failure the previous response stays and the banner shows
        the diagnostic request's message, if it rejected with one. */
    method FetchUsers(params: Query, requestUsers: Query -> Fetched, requestUsersWithError: Query -> Diagnosed)
      modifies this
      ensures !isLoading && query == old(query)
      ensures requestUsers(params).Resolved? ==>
        response == requestUsers(params).page && error == None
      ensures requestUsers(params).Rejected? ==>
        response == old(response) && error == DiagnosticError(requestUsersWithError(params))
    {
      BeginFetch();
      var primary := requestUsers(params);
      match primary {
        case Resolved(page) =>
          FinishWithPage(page);
        case Rejected =>
          var diagnostic := requestUsersWithError(params);
          FinishWithDiagnostic(diagnostic);
      }
    }

    /** A UI event the view allows: the query is replaced by the event's
        update, which triggers one fetch for the new query. The query stays
        reachable. */
    method Dispatch(e: Event, requestUsers: Query -> Fetched, requestUsersWithError: Query -> Diagnosed)
      requires Valid() && Enabled(query, response.total, e)
      modifies this
      ensures Valid()
      ensures query == Step(old(query), e)
      ensures !isLoading
      ensures requestUsers(query).Resolved? ==>
        response == requestUsers(query).page && error == None
      ensures requestUsers(query).Rejected? ==>
        response == old(response) && error == DiagnosticError(requestUsersWithError(query))
    {
      StepKeepsValid(query, response.total, e);
      query := Step(query, e);
      FetchUsers(query, requestUsers, requestUsersWithError);
    }
  }

  /** A client of the class: a first fetch that returns 5 of 12 users, then
      "next" while the primary request fails and the diagnostic one rejects
      with "rate limited". */
  method ScenarioNextThenFailure(users: seq<User>)
    requires |users| == 5
  {
    var list := new UserListState();
    var firstPage := Response(users, 12);
    var ok := (q: Query) => Resolved(firstPage);
    var down := (q: Query) => Rejected;
    var diagnostic := (q: Query) => DiagnosticRejected("rate limited");
    list.FetchUsers(list.query, ok, diagnostic);
    assert list.response == firstPage && list.error == None && !list.isLoading;
    assert list.Info() == PageInfo(1, false, true);
    list.Dispatch(NextClicked, down, diagnostic);
    assert list.query == BaseQuery.(offset := 5);
    assert list.error == Some("rate limited") && !list.isLoading;
    assert list.response == firstPage;
    assert list.Info() == PageInfo(2, true, true);
  }
}

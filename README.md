# User list: query, pagination and fetch state

A Dafny model of the logic of the `UserList` component of a small React app. The app lists users from a remote service, filtered by name and age and paged by offset. The model has four parts:

- **Query updates** (`query.dfy`, module `Queries`). A `Query` value `{name, age, limit, offset}` starts at `BaseQuery`: no filters, 5 per page, offset 0. Changing the name, the age or the page size copies the query with that field set and the offset back at 0. "Next" adds the page size to the offset and "prev" subtracts it. `Valid` is the invariant every reachable query keeps: the page size is positive and the offset is a non-negative multiple of it.
- **Pagination** (`pagination.dfy`, module `Pagination`). `Derive` computes the page number, `hasPrev` and `hasNext` from the query and the response's total. `TotalPages` is the ceiling of total over limit, and `Page` is offset over limit plus one.
- **UI events** (`events.dfy`, module `Events`). This module is a reducer from a UI event to the new query. It has the guards the view puts on each event: prev and next are disabled unless `hasPrev` or `hasNext` holds, and the page-size selector offers only 4, 8 and 16. It also proves that any run of enabled events from `BaseQuery` keeps the query valid.
- **Fetch state** (`user_list.dfy`, module `UserList`). The class `UserListState` holds the component's state cells `response`, `error`, `isLoading` and `query`. `FetchUsers` follows the code's try/catch/finally order:
  - it sets loading and clears the error;
  - on primary success it stores the page;
  - on primary failure it asks the diagnostic request and shows that request's rejection message;
  - it always clears loading at the end.

  `Dispatch` is one UI event: the query is replaced, which triggers one fetch.
- `arith.dfy` (module `Arith`) holds two multiplication and division facts the proofs use.

The two requests (`requestUsers`, `requestUsersWithError` in `./api`) are external and not shown. Here they are function parameters from the query to an outcome, so both see the same query. The `./api` module is not part of this model. The `User` record's field types are therefore assumed.

Two behaviours of the code worth knowing:
- "prev" does not clamp the offset at 0 (a defensive version might). The view only stops it from going negative by disabling the button.
- A diagnostic request that resolves instead of rejecting leaves no error and the old response on screen.

## Model

| member | source | states |
|---|---|---|
| Queries.WithName | src/UserList.tsx:73-79 | the name is the new one, the offset is 0, age and limit are unchanged |
| Queries.WithAge | src/UserList.tsx:80-86 | the age is the new one, the offset is 0, name and limit are unchanged |
| Queries.WithLimit | src/UserList.tsx:41-47 | the limit is the new one, the offset is 0, name and age are unchanged |
| Queries.NextPage | src/UserList.tsx:59-64 | the offset grows by exactly one page size; name, age and limit are unchanged |
| Queries.PrevPage | src/UserList.tsx:66-71 | the offset shrinks by exactly one page size, with no clamp; name, age and limit are unchanged |
| Queries.PrevUndoesNext | src/UserList.tsx:59-71 | prev after next gives back the original query |
| Queries.NextUndoesPrev | src/UserList.tsx:59-71 | next after prev gives back the original query, for every query and so on every interior page |
| Queries.FiltersIdempotentAndCommute | src/UserList.tsx:41-86 | applying a filter or page-size change twice equals applying it once; name and age changes commute |
| Queries.ResetKeepsValid | src/UserList.tsx:41-86 | after a filter change, or a change to a positive page size, the query is on a page boundary with a non-negative offset |
| Queries.NextKeepsValid | src/UserList.tsx:59-64 | next keeps a valid query valid |
| Queries.PrevKeepsValid | src/UserList.tsx:66-71 | prev from a positive offset keeps a valid query valid, so the offset never goes negative |
| Pagination.CeilDiv | src/UserList.tsx:50 | the result is the least number of pages holding all records: r*d >= n and (r-1)*d < n |
| Pagination.TotalPages | src/UserList.tsx:50 | the page count is 0 exactly when there are no matching users |
| Pagination.Page | src/UserList.tsx:51 | the 1-based page number locates the offset: (page-1)*limit == offset |
| Pagination.Derive | src/UserList.tsx:49-57 | page = offset/limit + 1 (as characterised by Page), hasPrev = page > 1, hasNext = page < totalPages; the properties are in HasPrevIff, HasNextIff, PageInRange and NoNextWhenEmpty |
| Pagination.PageOrder | src/UserList.tsx:51-54 | page 1 iff offset 0; page > 1 iff offset > 0; page >= 1 iff offset >= 0 |
| Pagination.HasPrevIff | src/UserList.tsx:49-57 | hasPrev holds exactly when the offset is positive |
| Pagination.HasNextIff | src/UserList.tsx:49-57 | for an aligned query, hasNext holds exactly when offset + limit < total |
| Pagination.NoNextWhenEmpty | src/UserList.tsx:50-55 | with total 0 there is no next page, for every positive limit |
| Pagination.PageInRange | src/UserList.tsx:50-51 | on a valid query whose window starts before the total, 1 <= page <= totalPages |
| Pagination.BaseQueryFirstPage | src/UserList.tsx:4-9 | the initial query is on page 1 with no previous page, whatever the total |
| Pagination.ResetShowsFirstPage | src/UserList.tsx:73-86 | after a name, age or page-size change the page is 1 and hasPrev is false |
| Pagination.NextWhenEnabled | src/UserList.tsx:59-64 | next when hasNext holds: still valid, page + 1, the new window starts before total, and now hasPrev holds |
| Pagination.PrevWhenEnabled | src/UserList.tsx:66-71 | prev when hasPrev holds: still valid, page - 1, and that page is at least 1 |
| Pagination.FirstOfThreePages | src/UserList.tsx:49-57 | limit 5, total 12, offset 0: 3 pages, page 1, no prev, has next |
| Pagination.LastOfThreePages | src/UserList.tsx:49-57 | limit 5, total 12, offset 10: page 3, has prev, no next |
| Events.Step | src/UserList.tsx:41-86 | each event sets the name only if it is a name change, the age only if it is an age change, and the limit only if it is a page-size change; filter and size changes reset the offset; next and prev move it by one page |
| Events.Enabled | src/UserList.tsx:116-126 | filter changes are always allowed; next only when offset + limit < total (hasNext), prev only when offset > 0 (hasPrev), on an aligned query; page sizes only 4, 8 and 16, all positive |
| Events.StepKeepsValid | src/UserList.tsx:116-126 | an event the view enables keeps a valid query valid |
| Events.ReplayKeepsValid | src/UserList.tsx:116-126 | any run of enabled events keeps a valid query valid |
| Events.ReachableFromBase | src/UserList.tsx:21 | every query reachable from the initial one is valid and shows a page number of at least 1 |
| UserList.DiagnosticError | src/UserList.tsx:31 | the error cell holds a message exactly when the diagnostic request rejected, and then it is that request's message |
| UserList.UserListState.constructor | src/UserList.tsx:12-21 | the initial state: empty response with total 0, no error, not loading, the initial query |
| UserList.UserListState.Info | src/UserList.tsx:49-57 | the page is at least 1; prev iff offset > 0; next iff offset + limit < response total |
| UserList.UserListState.BeginFetch | src/UserList.tsx:25-26 | loading is set and the error cleared; response and query are untouched |
| UserList.UserListState.FinishWithPage | src/UserList.tsx:28-34 | after a primary success: the response is the returned page, there is no error, loading is cleared |
| UserList.UserListState.FinishWithDiagnostic | src/UserList.tsx:30-34 | after a primary failure: the response is unchanged, the error is the diagnostic request's rejection message (none if it resolved), loading is cleared |
| UserList.UserListState.FetchUsers | src/UserList.tsx:24-35 | after a run loading is false whatever the outcome. Success: response is the page and error is none. Failure: response is the one from before the run and error is the diagnostic message |
| UserList.UserListState.Dispatch | src/UserList.tsx:37-39 | an enabled event replaces the query by its update, keeps it valid, and runs one fetch for the new query, with the fetch's outcomes as above |

## Left out

- Pagination.Page: requires the offset to be a multiple of a positive limit. The code divides floats, so an unaligned offset would give a fractional page. No reachable query has one (Events.ReachableFromBase).
- Pagination.Derive: requires an aligned query, for the same reason. A positive limit is assumed already parsed: `Number(e.target.value)` is not modelled, and the selector's options are taken as the integers 4, 8 and 16.
- UserList.UserListState.FetchUsers: a sequential step. It does not model asynchrony. Two things need a model of the event loop and are left out:
  - a stale response from an earlier, overlapping fetch can overwrite a newer one;
  - the diagnostic request's `.catch(setError)` fires after `finally` has already cleared loading.
- The `./api` requests are abstract function parameters. Their network behaviour and implementation are not part of this model. A diagnostic request that throws, as opposed to rejecting with a value, is not modelled separately.
- JSX rendering (markup, CSS classes, the empty-state row, the `selected` flags on the page-size options) is presentation. None of the options 4, 8 and 16 matches the initial limit 5. Only the guards the view puts on events (disabled buttons, the offered sizes) are modelled, in `Events.Enabled`.
- `src/App.tsx` only makes console calls and composes components, so it is left out.
- The fetch the effect runs once on mount is not part of the constructor. A client models the mount by calling `FetchUsers(query, …)` right after construction, as `ScenarioNextThenFailure` does.
- React's hook machinery (`useState`, `useEffect`, `useCallback`, `useMemo`) is reduced to a class with fields. `Dispatch` stands for "set the query, then the effect fetches".

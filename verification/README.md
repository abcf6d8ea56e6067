# Stuff Manager pagination, modelled in Dafny

Stuff Manager is a paginated list service. An ASP.NET Core controller serves
`GET /stuff?page=n`, returning pages of ten `Stuff` records (id, name,
description) from a table. A React/Redux client keeps the page it shows in a
`stuff` slice: the records, the current page, a loading flag and an error
message. The `fetchStuff` thunk turns what `fetch` produced into a fulfilled
or a rejected action.

This project models both ends of that contract as pure functions over
immutable datatypes:

- `StuffData` (stuff_data.dfy): the `Stuff` record, the table's column
  bounds and key, and C#'s 32-bit `int` with its unchecked wrap-around.
- `StuffController` (stuff_controller.dfy): `GetStuff`. It covers page
  validation, the skip computation and LINQ's `Skip`/`Take`, modelled element
  by element and proved equal to sequence slices. The store is a
  `seq<Stuff>` in the order the database yields rows. The query has no
  ordering clause, so the model assumes no sort by id.
- `StuffSlice` (stuff_slice.dfy): the slice state, `initialState`, the
  reducer for `pending`/`fulfilled`/`rejected`/`setCurrentPage`/`clearError`,
  and the thunk's outcome-to-action mapping over an abstract `FetchOutcome`.
  `FetchOutcome` is either a transport failure or a response with its `ok`
  bit and its parsed body (`None` when the body is not JSON).
- `StuffList` (stuff_list.dfy): the Previous/Next enablement rules. The
  component is not part of this model, so these rules come from its tests.
  The module also joins the two ends (what the endpoint sends is what the
  client's fetch sees) and holds the concrete scenarios of the test suites.
- `Wrappers` (wrappers.dfy): `Option`.

Four facts about the code that the model keeps:
- Rows are not ordered by id: the query has no `OrderBy`.
- A rejected fetch keeps the records already shown.
- A response for a page the user has left is committed anyway.
- "Failed to fetch stuff items" is used only for transport and parse
  failures. A rejection payload without a non-empty `message` shows
  "Failed to fetch stuff".

## Model

| member | source | states |
|---|---|---|
| `StuffData.Wrap32` | src/StuffManager.Api/Controllers/StuffController.cs:30 | C# unchecked `int` arithmetic: the result is congruent to the exact value modulo 2^32, and equal to it when the value fits in 32 bits |
| `StuffController.Skip` | src/StuffManager.Api/Controllers/StuffController.cs:33 | skipping `n` records one at a time leaves the store unchanged for `n <= 0`, leaves the suffix from `n` when `n` is in range, and leaves nothing past the end |
| `StuffController.Take` | src/StuffManager.Api/Controllers/StuffController.cs:34 | taking `n` records one at a time yields nothing for `n <= 0`, the prefix of length `n` when in range, and the whole input when it is shorter |
| `StuffController.Page` | src/StuffManager.Api/Controllers/StuffController.cs:23-35 | `Skip((page-1)*10).Take(10)` is the contiguous slice of the store from offset `(page-1)*10`, clipped to the store and kept in store order; it has `max(0, min(10, N - (page-1)*10))` records and is empty exactly when the offset is at or past the end |
| `StuffController.GetStuff` | src/StuffManager.Api/Controllers/StuffController.cs:21-38 | the answer is BadRequest exactly when page < 1, always with "Page number must be greater than 0"; otherwise it is Ok with the clipped slice of at most 10 records, and Ok([]) exactly when the page starts at or past the end |
| `StuffController.GetStuffQuery` | src/StuffManager.Api/Controllers/StuffController.cs:21 | the routed endpoint: an omitted `page` is answered as page 1, a given one as itself |
| `StuffController.OmittedPageIsFirstPage` | src/StuffManager.Api/Controllers/StuffController.cs:21 | an omitted `page` behaves exactly like page 1, which is the first `min(10, N)` records |
| `StuffController.InvalidPageIgnoresStore` | src/StuffManager.Api/Controllers/StuffController.cs:25-28 | a page below 1 gets the same BadRequest whatever the store holds: the store is not read |
| `StuffController.PastEndIsEmpty` | src/StuffManager.Api/Controllers/StuffController.cs:32-37 | a valid page past the end of the store is an empty success, never an error |
| `StuffController.PagesArePrefix` | src/StuffManager.Api/Controllers/StuffController.cs:30-35 | concatenating pages 1..k gives exactly the store prefix of length `min(10k, N)`: no record is skipped, repeated or reordered |
| `StuffController.PagesDisjoint` | src/StuffManager.Api/Controllers/StuffController.cs:30-35 | the store stretches of two distinct pages do not overlap, so with ids as a key no record id appears on both pages |
| `StuffController.EveryRecordOnOnePage` | src/StuffManager.Api/Controllers/StuffController.cs:30-35 | the record at offset i is entry i mod 10 of page i/10 + 1, and that is the only page whose stretch contains offset i |
| `StuffController.PageOfValidStoreIsValid` | src/StuffManager.Api/Data/StuffDbContext.cs:17-20 | if every row respects the column bounds (name ≤ 200, description ≤ 1000 characters), so does every record on every page |
| `StuffController.SkipAsWritten` | src/StuffManager.Api/Controllers/StuffController.cs:30 | the 32-bit skip count equals the intended offset `(page-1)*10` up to page 214748365, and differs from it for every larger page |
| `StuffController.GetStuffAsWritten` | src/StuffManager.Api/Controllers/StuffController.cs:21-38 | the endpoint with the 32-bit skip count: BadRequest exactly when page < 1; at most 10 records; a wrapped negative skip returns the first records, a non-negative one the slice from the wrapped offset |
| `StuffController.AsWrittenAgreesUpToMaxSafePage` | src/StuffManager.Api/Controllers/StuffController.cs:25-37 | up to page 214748365, the endpoint with the 32-bit skip count answers exactly as the model does |
| `StuffController.OverflowReturnsRecordsPastEnd` | src/StuffManager.Api/Controllers/StuffController.cs:30-35 | for any page above 214748365 whose wrapped skip count lands inside the store, the endpoint as written returns records, where the intended answer is an empty page |
| `StuffController.OverflowRevisitsStore` | src/StuffManager.Api/Controllers/StuffController.cs:30-35 | with 12 records, page 214748366 as written returns records 1–10 and page 429496731 returns records 5–12, where the intended answer to both is an empty page |
| `StuffSlice.RequestedPage` | src/stuffmanager.client/src/store/slices/stuffSlice.ts:11-13 | the thunk requests page 1 when called without a page, and the given page otherwise |
| `StuffSlice.RejectMessage` | src/stuffmanager.client/src/store/slices/stuffSlice.ts:68 | the error shown for a rejection is the payload's `message` when it is present and non-empty, and "Failed to fetch stuff" otherwise; it is never empty |
| `StuffSlice.Reduce` | src/stuffmanager.client/src/store/slices/stuffSlice.ts:45-71 | field by field: `items` changes only on Fulfilled, `currentPage` only on SetCurrentPage, `loading` is raised by Pending and lowered by Fulfilled and Rejected, and `error` is cleared by Pending and ClearError and set only by Rejected |
| `StuffSlice.SetCurrentPageIdempotent` | src/stuffmanager.client/src/store/slices/stuffSlice.ts:49-51 | SetCurrentPage changes only the page and applying it twice equals applying it once |
| `StuffSlice.ClearErrorIdempotent` | src/stuffmanager.client/src/store/slices/stuffSlice.ts:52-54 | ClearError changes only the error, to none, and is idempotent |
| `StuffSlice.PendingThenFulfilledClearsError` | src/stuffmanager.client/src/store/slices/stuffSlice.ts:58-65 | a fetch that starts and then succeeds leaves the new records, loading off and no error, whatever the error was before |
| `StuffSlice.RejectedKeepsItems` | src/stuffmanager.client/src/store/slices/stuffSlice.ts:66-69 | a rejection lowers loading and sets the error, keeps the records shown and the page |
| `StuffSlice.ReduceAllKeepsErrorsNonEmpty` | src/stuffmanager.client/src/store/slices/stuffSlice.ts:38-69 | over any sequence of dispatched actions, an error being shown is never the empty string |
| `StuffSlice.ReduceAllFrame` | src/stuffmanager.client/src/store/slices/stuffSlice.ts:49-69 | after any dispatch sequence the records are those of the last Fulfilled (no stale-response guard) and the page is the one last set; no other action moves either |
| `StuffSlice.OutcomeToAction` | src/stuffmanager.client/src/store/slices/stuffSlice.ts:11-28 | the thunk fulfils exactly on an ok response whose body parsed, with that body; a transport failure or an unparsable body on either branch rejects with the NETWORK_ERROR payload; a not-ok response with a parsed body rejects with that body |
| `StuffSlice.Fetch` | src/stuffmanager.client/src/store/slices/stuffSlice.ts:12-69 | a whole fetch always ends with loading off and the page unchanged; it shows no error exactly when it succeeded; the records are replaced exactly on success; a transport or parse failure shows "Failed to fetch stuff items" |
| `StuffSlice.InitialNetworkFailure` | src/stuffmanager.client/src/store/slices/stuffSlice.ts:22-43 | from the initial state (no records, page 1, not loading, no error), a failed request ends with loading off and the error "Failed to fetch stuff items" |
| `StuffList.PreviousEnabled` | src/stuffmanager.client/src/test/StuffList.test.tsx:193-216 | Previous is disabled on page 1 |
| `StuffList.NextEnabled` | src/stuffmanager.client/src/test/StuffList.test.tsx:168-191 | Next is disabled when fewer than 10 records are shown |
| `StuffList.ControlsFollowActions` | tests/stuff-list.spec.ts:60-76 | a fetch never changes Previous; Next follows the size of a successful fetch and stays as it was after a failed one; moving to page n enables Previous exactly when n is not 1 |
| `StuffList.Deliver` | src/StuffManager.Api/Controllers/StuffController.cs:25-37 | the endpoint's 200 reaches the client as an ok response whose body parses to an array of the same records; the 400 reaches it as a not-ok response whose plain-text body does not parse as JSON |
| `StuffList.FetchShowsServerPage` | src/stuffmanager.client/src/store/slices/stuffSlice.ts:11-20 | client and endpoint both default to page 1; fetching a valid page from the corrected endpoint shows exactly that page's slice of the store with no error; fetching an invalid page keeps the shown records and reports "Failed to fetch stuff items" |
| `StuffList.NextEnabledAfterServerPage` | src/stuffmanager.client/src/test/StuffList.test.tsx:168-191 | after page p is fetched from the corrected endpoint, Next is enabled exactly when the store reaches the end of page p, which includes a store that ends exactly there |
| `StuffList.TwelveRecordScenario` | src/StuffManager.Api.Tests/UnitTest1.cs:17-80 | with twelve records seeded in id order, page 1 holds ids 1–10, page 2 ids 11–12, page 3 nothing, and page 0 is refused |
| `StuffList.LoadingThenFirstPage` | src/stuffmanager.client/src/test/StuffList.test.tsx:45-71 | mounting raises loading first; the first page of ten then lowers it with no error |
| `StuffList.EmptyFirstPage` | src/stuffmanager.client/src/test/StuffList.test.tsx:231-242 | an empty first page is a success with no records and no error |
| `StuffList.NavigationScenario` | tests/stuff-list.spec.ts:60-169 | a first page of ten enables Next but not Previous; moving to page 2 and receiving two records disables Next and enables Previous; a short first page disables Next |
| `StuffList.NavigationAgainstEndpoint` | tests/stuff-list.spec.ts:119-170 | the same walk against the modelled endpoint over twelve seeded records shows ids 1–10 and then ids 11 and 12, with the same control states |

## Left out

- Hosting, dependency injection and the Redux store wiring (the API's and
  the app host's `Program.cs`, `store/index.ts`, `App.tsx`) are plumbing.
  The database context is a parameter: the store sequence.
- EF Core, SQLite and Npgsql are not modelled. Only the column bounds and
  the primary key survive, as the `ValidStore` and `UniqueIds` predicates.
- Parsing the query string is framework behaviour and is not modelled. A
  non-integer or out-of-range `page` is refused by ASP.NET model binding
  before `GetStuff` runs.
- The logger, `async`/`await`, Promises, real `fetch`, JSON parsing and HTTP
  status codes beyond the `ok` bit are not modelled.
- Async ordering of actions is not modelled beyond the dispatch order of
  `ReduceAll`. There is no stale-response guard because the code has none.
- `StuffList.Deliver` assumes the 400's string body is sent as plain text,
  which `response.json()` rejects. That is ASP.NET's default formatting for
  a string result; it is not visible in the source.
- `StuffSlice.OutcomeToAction` requires an ok response's parsed body to
  be an array of records. That is the thunk's
  declared result type `Stuff[]`. The code does not check it at run time,
  and a non-array body would be stored as the items. Likewise a JSON
  object's `message` is modelled as a string or absent. A non-string
  `message` such as `{"message": 42}` would be stored as the error, and
  `StuffSlice.ReduceAllKeepsErrorsNonEmpty` relies on this typing.
- `StuffSlice.Fetch` inherits `OutcomeToAction`'s `WellTyped` requirement:
  an ok response with a parsed non-array body is outside its contract.
- The Previous/Next rules are taken from the component's tests, because the
  `StuffList` component is not part of this model. The tests pin down only
  when the buttons are disabled. Any further condition in the component
  (for example, disabling while loading) is not modelled.
- Rendering (spinner, alert, empty state, table), ARIA roles and the
  Vitest/Playwright harnesses are not modelled. The tests serve only as
  sources of concrete scenarios.
- `PaginatedResponse`/`totalCount` is never produced by the API and is not
  modelled.
- Record names in the server tests are not checked. The fixture seeds
  "Test Item i" while the test asserts "Stuff Item i", so only ids and
  lengths are stated.
- `StuffController.PagesArePrefix`, `StuffController.PagesDisjoint` and
  `StuffController.EveryRecordOnOnePage` assume one fixed row order for
  every request and no writes between requests. The query has no
  `OrderBy`, and PostgreSQL, the configured provider, promises no row order
  without one. Two page requests may therefore see different orders.
- `StuffController.GetStuffAsWritten` handles a negative skip count the way
  LINQ's `Skip` and SQLite do: it skips nothing. Npgsql, the configured
  provider, fails such a query instead, because PostgreSQL rejects a
  negative OFFSET. The request then ends in a server error, which is not
  modelled.
- `StuffList.FetchShowsServerPage` describes the client against the
  corrected endpoint `StuffController.GetStuff`. Up to page 214748365 that
  is the program as written (`StuffController.AsWrittenAgreesUpToMaxSafePage`).
  Above it, the program returns records from the wrapped offset, or a
  server error on PostgreSQL.
- `StuffList.NextEnabledAfterServerPage` describes the client against the
  corrected endpoint as well. As written, page 214748366 over 12 records
  returns records 1–10 under LINQ/SQLite, and Next is then enabled.
- `StuffController.GetStuff` uses the exact skip count `(page-1)*10`, which
  is the corrected definition from the finding below. The code as written
  is `StuffController.GetStuffAsWritten`.

## Findings

| source | as written | input that shows it | evidently intended | confidence | as-written member | corrected member |
|---|---|---|---|---|---|---|
| src/StuffManager.Api/Controllers/StuffController.cs:30 | `var skip = (page - 1) * pageSize;` in unchecked 32-bit `int` wraps for page > 214748365 | 12 records, `GET /stuff?page=429496731`: skip wraps to 4 and records 5–12 come back on any provider; `page=214748366` wraps to skip -2147483646, which LINQ and SQLite treat as 0 (records 1–10) and PostgreSQL rejects | every page past the end is an empty success | not executed; the wrap is certain under the default unchecked arithmetic; the page-214748366 outcome depends on the provider | `StuffController.GetStuffAsWritten`, `StuffController.OverflowReturnsRecordsPastEnd`, `StuffController.OverflowRevisitsStore` | `StuffController.GetStuff` |

/** The client's `stuff` slice: the state, the reducer for its five actions,
    and the mapping the `fetchStuff` thunk performs from what `fetch` produced
    to the fulfilled or rejected action it dispatches. */
module StuffSlice {
  import opened Wrappers
  import opened StuffData

  /** A parsed JSON body, reduced to what the thunk and reducer look at: an
      array of records, or an object whose `code` and `message` fields may be
      present, or any other value. */
  datatype Json =
    | JArray(records: seq<Stuff>)
    | JObject(code: Option<string>, message: Option<string>)
    | JOther

  /** What `fetch('/stuff?page=n')` produced: a transport failure, or a
      response with its `ok` bit and its body, `None` when the body is not
      valid JSON. */
  datatype FetchOutcome = NetworkFail | Resp(ok: bool, body: Option<Json>)

  datatype StuffState = StuffState(items: seq<Stuff>, currentPage: int, loading: bool, error: Option<string>)

  /** The three lifecycle actions of `fetchStuff` and the two plain reducers. */
  datatype Action =
    | Pending
    | Fulfilled(records: seq<Stuff>)
    | Rejected(payload: Option<Json>)
    | SetCurrentPage(page: int)
    | ClearError

  const InitialState := StuffState([], 1, false, None)

  const NetworkErrorCode := "NETWORK_ERROR"
  const NetworkErrorMessage := "Failed to fetch stuff items"
  /** The message shown when a rejection carries no usable message. */
  const FallbackErrorMessage := "Failed to fetch stuff"

  /** The payload the thunk rejects with when `fetch` or `json()` throws. */
  const NetworkError := JObject(Some(NetworkErrorCode), Some(NetworkErrorMessage))

  /** The page the thunk requests: its `page` argument defaults to 1. */
  function RequestedPage(page: Option<int>): (r: int)
    ensures page.None? ==> r == 1
    ensures page.Some? ==> r == page.value
  {
    page.GetOr(1)
  }

  /** A rejection payload whose `message` is present and truthy (non-empty). */
  predicate CarriesMessage(payload: Option<Json>)
  {
    payload.Some? && payload.value.JObject? && payload.value.message.Some? && payload.value.message.value != ""
  }

  /** `action.payload?.message || 'Failed to fetch stuff'`. */
  function RejectMessage(payload: Option<Json>): (m: string)
    ensures m != ""
    ensures CarriesMessage(payload) ==> m == payload.value.message.value
    ensures !CarriesMessage(payload) ==> m == FallbackErrorMessage
  {
    match payload
    case Some(JObject(_, Some(msg))) => if msg != "" then msg else FallbackErrorMessage
    case _ => FallbackErrorMessage
  }

  /** The slice reducer, described field by field: `items` changes only on
      `Fulfilled`, `currentPage` only on `SetCurrentPage`, `loading` is raised
      by `Pending` and lowered by `Fulfilled` and `Rejected`, and `error` is
      cleared by `Pending` and `ClearError` and set only by `Rejected`. */
  function Reduce(s: StuffState, a: Action): (r: StuffState)
    ensures r.items == (if a.Fulfilled? then a.records else s.items)
    ensures r.currentPage == (if a.SetCurrentPage? then a.page else s.currentPage)
    ensures r.loading == (if a.Pending? then true else if a.Fulfilled? || a.Rejected? then false else s.loading)
    ensures r.error == (if a.Pending? || a.ClearError? then None
                        else if a.Rejected? then Some(RejectMessage(a.payload))
                        else s.error)
  {
    match a
    case SetCurrentPage(n) => s.(currentPage := n)
    case ClearError => s.(error := None)
    case Pending => s.(loading := true, error := None)
    case Fulfilled(xs) => s.(loading := false, items := xs)
    case Rejected(p) => s.(loading := false, error := Some(RejectMessage(p)))
  }

  /** The actions applied in dispatch order. */
  function ReduceAll(s: StuffState, acts: seq<Action>): StuffState
  {
    if acts == [] then s else Reduce(ReduceAll(s, acts[..|acts| - 1]), acts[|acts| - 1])
  }

  lemma SetCurrentPageIdempotent(s: StuffState, n: int)
    ensures Reduce(Reduce(s, SetCurrentPage(n)), SetCurrentPage(n)) == Reduce(s, SetCurrentPage(n))
    ensures Reduce(s, SetCurrentPage(n)) == s.(currentPage := n)
  {
  }

  lemma ClearErrorIdempotent(s: StuffState)
    ensures Reduce(Reduce(s, ClearError), ClearError) == Reduce(s, ClearError)
    ensures Reduce(s, ClearError) == s.(error := None)
  {
  }

  /** A fetch that starts and then succeeds leaves no error behind, whatever the error was before. */
  lemma PendingThenFulfilledClearsError(s: StuffState, xs: seq<Stuff>)
    ensures Reduce(Reduce(s, Pending), Fulfilled(xs)) == s.(items := xs, loading := false, error := None)
  {
  }

  /** A rejection keeps the previously shown records and the page. */
  lemma RejectedKeepsItems(s: StuffState, p: Option<Json>)
    ensures Reduce(s, Rejected(p)) == s.(loading := false, error := Some(RejectMessage(p)))
  {
  }

  /** An error, once shown, is never the empty string. */
  predicate ErrorsAreNonEmpty(s: StuffState)
  {
    s.error.Some? ==> s.error.value != ""
  }

  /** Every dispatch sequence keeps errors non-empty, starting from the initial state in particular. */
  lemma {:induction false} ReduceAllKeepsErrorsNonEmpty(s: StuffState, acts: seq<Action>)
    requires ErrorsAreNonEmpty(s)
    ensures ErrorsAreNonEmpty(ReduceAll(s, acts))
  {
    if acts != [] {
      ReduceAllKeepsErrorsNonEmpty(s, acts[..|acts| - 1]);
    }
  }

  /** The records of the last `Fulfilled` in `acts`, or `shown` when there is none. */
  function LastFulfilled(acts: seq<Action>, shown: seq<Stuff>): seq<Stuff>
  {
    if acts == [] then shown
    else if acts[|acts| - 1].Fulfilled? then acts[|acts| - 1].records
    else LastFulfilled(acts[..|acts| - 1], shown)
  }

  /** The page of the last `SetCurrentPage` in `acts`, or `current` when there is none. */
  function LastPageSet(acts: seq<Action>, current: int): int
  {
    if acts == [] then current
    else if acts[|acts| - 1].SetCurrentPage? then acts[|acts| - 1].page
    else LastPageSet(acts[..|acts| - 1], current)
  }

  /** After any dispatch sequence the list shows the records of the last
      fulfilled fetch (there is no guard against a stale response), and the
      page is the one last set: no other action moves either. */
  lemma {:induction false} ReduceAllFrame(s: StuffState, acts: seq<Action>)
    ensures ReduceAll(s, acts).items == LastFulfilled(acts, s.items)
    ensures ReduceAll(s, acts).currentPage == LastPageSet(acts, s.currentPage)
  {
    if acts != [] {
      ReduceAllFrame(s, acts[..|acts| - 1]);
    }
  }

  /** Responses the thunk's declared result type `Stuff[]` admits: an ok
      response whose body parsed is an array of records. */
  predicate WellTyped(o: FetchOutcome)
  {
    o.Resp? && o.ok && o.body.Some? ==> o.body.value.JArray?
  }

  /** The fetch succeeded: an ok response whose body parsed. */
  predicate Succeeded(o: FetchOutcome)
  {
    o.Resp? && o.ok && o.body.Some?
  }

  /** `fetch` threw, or `response.json()` threw on either branch. */
  predicate TransportFailed(o: FetchOutcome)
  {
    o.NetworkFail? || o.body.None?
  }

  /** The action `fetchStuff` dispatches after its `pending`, for each outcome of the request. */
  function OutcomeToAction(o: FetchOutcome): (a: Action)
    requires WellTyped(o)
    ensures a.Fulfilled? <==> Succeeded(o)
    ensures Succeeded(o) ==> a == Fulfilled(o.body.value.records)
    ensures TransportFailed(o) ==> a == Rejected(Some(NetworkError))
    ensures o.Resp? && !o.ok && o.body.Some? ==> a == Rejected(o.body)
  {
    match o
    case NetworkFail => Rejected(Some(NetworkError))
    case Resp(ok, body) =>
      if body.None? then Rejected(Some(NetworkError))
      else if !ok then Rejected(body)
      else Fulfilled(body.value.records)
  }

  /** One whole fetch: `pending` and then the action for its outcome. The
      fetch always ends with loading off and the page untouched; there is an
      error exactly when it did not succeed; the records are replaced only on
      success. */
  function Fetch(s: StuffState, o: FetchOutcome): (r: StuffState)
    requires WellTyped(o)
    ensures !r.loading
    ensures r.currentPage == s.currentPage
    ensures r.error.None? <==> Succeeded(o)
    ensures Succeeded(o) ==> r.items == o.body.value.records
    ensures !Succeeded(o) ==> r.items == s.items
    ensures TransportFailed(o) ==> r.error == Some(NetworkErrorMessage)
    ensures o.Resp? && !o.ok && o.body.Some? ==> r.error == Some(RejectMessage(o.body))
  {
    Reduce(Reduce(s, Pending), OutcomeToAction(o))
  }

  /** From the initial state a failed request shows the network error message and no records. */
  lemma InitialNetworkFailure()
    ensures Fetch(InitialState, NetworkFail) == StuffState([], 1, false, Some(NetworkErrorMessage))
  {
  }
}

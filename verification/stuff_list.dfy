/** The list view's pagination controls, as far as the component's tests pin
    them down, and the client and the endpoint put together: the response the
    endpoint sends is the outcome the client's fetch sees. */
module StuffList {
  import opened Wrappers
  import opened StuffData
  import opened StuffController
  import opened StuffSlice

  /** "Previous" is disabled on the first page and enabled on any other. */
  predicate PreviousEnabled(s: StuffState): (r: bool)
    ensures s.currentPage == 1 ==> !r
  {
    s.currentPage != 1
  }

  /** "Next" is disabled when the last page received was short: the only
      sign of the last page, since no total count is ever sent. */
  predicate NextEnabled(s: StuffState): (r: bool)
    ensures |s.items| < PageSize ==> !r
  {
    |s.items| >= PageSize
  }

  /** How the controls follow the slice: a fetch never changes Previous, and
      Next follows the size of a successful fetch and stays as it was after a
      failed one; moving to page `n` enables Previous exactly when `n` is
      not 1. */
  lemma ControlsFollowActions(s: StuffState, o: FetchOutcome, n: int)
    requires WellTyped(o)
    ensures PreviousEnabled(Fetch(s, o)) == PreviousEnabled(s)
    ensures Succeeded(o) ==> (NextEnabled(Fetch(s, o)) <==> |o.body.value.records| >= PageSize)
    ensures !Succeeded(o) ==> NextEnabled(Fetch(s, o)) == NextEnabled(s)
    ensures PreviousEnabled(Reduce(s, SetCurrentPage(n))) <==> n != 1
    ensures NextEnabled(Reduce(s, SetCurrentPage(n))) == NextEnabled(s)
  {
  }

  /** The endpoint's answer as the client's `fetch` sees it: a 200 carries the
      records as a JSON array; the 400 carries its message as plain text,
      which `response.json()` cannot parse. */
  function Deliver(r: Response): (o: FetchOutcome)
    ensures WellTyped(o)
    ensures Succeeded(o) <==> r.Ok?
    ensures r.Ok? ==> o == Resp(true, Some(JArray(r.items)))
    ensures r.BadRequest? ==> o == Resp(false, None)
  {
    match r
    case Ok(xs) => Resp(true, Some(JArray(xs)))
    case BadRequest(_) => Resp(false, None)
  }

  /** The client's default page and the endpoint's default page agree, and a
      fetch of a valid page from the corrected endpoint (`GetStuff`, exact
      skip count) shows exactly that page's slice of the store with no error; a fetch of an invalid page keeps the records already shown
      and reports the network error message. */
  lemma FetchShowsServerPage(s: StuffState, store: seq<Stuff>, page: Option<Int32>)
    ensures RequestedPage(if page.Some? then Some(page.value as int) else None) == page.GetOr(1) as int
    ensures var p := page.GetOr(1);
      p >= 1 ==> Fetch(s, Deliver(GetStuffQuery(store, page)))
                 == s.(items := store[PageLo(store, p as int)..PageHi(store, p as int)], loading := false, error := None)
    ensures page.GetOr(1) < 1 ==>
      Fetch(s, Deliver(GetStuffQuery(store, page))) == s.(loading := false, error := Some(NetworkErrorMessage))
  {
  }

  /** After fetching page `p` from the corrected endpoint, "Next" is enabled exactly
      when the store reaches to the end of page `p`, which includes a store
      that ends exactly there, whose next page is then empty. */
  lemma NextEnabledAfterServerPage(s: StuffState, store: seq<Stuff>, p: Int32)
    requires p >= 1
    ensures NextEnabled(Fetch(s, Deliver(GetStuff(store, p)))) <==> |store| >= PageStart(p as int) + PageSize
  {
  }

  /** The ids of a store seeded with records 1, 2, 3, ... in order. */
  predicate SeededIds(store: seq<Stuff>)
  {
    forall i :: 0 <= i < |store| ==> store[i].id == i + 1
  }

  /** Twelve seeded records: page 1 holds ids 1 to 10 in order, page 2 ids 11
      and 12, page 3 nothing, and page 0 is refused. */
  lemma TwelveRecordScenario(store: seq<Stuff>)
    requires |store| == 12 && SeededIds(store)
    ensures GetStuff(store, 1).Ok? && |GetStuff(store, 1).items| == 10
    ensures forall i :: 0 <= i < 10 ==> GetStuff(store, 1).items[i].id == i + 1
    ensures GetStuff(store, 2).Ok? && |GetStuff(store, 2).items| == 2
    ensures GetStuff(store, 2).items[0].id == 11 && GetStuff(store, 2).items[1].id == 12
    ensures GetStuff(store, 3) == Ok([])
    ensures GetStuff(store, 0) == BadRequest(InvalidPageMessage)
  {
  }

  /** Mounting starts a fetch, so the spinner shows first; the first page of
      ten then replaces it with no error. */
  lemma LoadingThenFirstPage(first: seq<Stuff>)
    requires |first| == 10
    ensures Reduce(InitialState, Pending).loading
    ensures Fetch(InitialState, Resp(true, Some(JArray(first)))) == StuffState(first, 1, false, None)
  {
  }

  /** An empty first page is a success with nothing to show, not an error. */
  lemma EmptyFirstPage()
    ensures Fetch(InitialState, Resp(true, Some(JArray([])))) == StuffState([], 1, false, None)
  {
  }

  /** A first page of ten enables Next and not Previous; moving to page 2 and
      receiving two records disables Next and enables Previous. A first page
      that is short disables Next straight away. */
  lemma NavigationScenario(first: seq<Stuff>, second: seq<Stuff>)
    requires |first| == 10 && |second| == 2
    ensures var s1 := Fetch(InitialState, Resp(true, Some(JArray(first))));
      NextEnabled(s1) && !PreviousEnabled(s1)
    ensures var s1 := Fetch(InitialState, Resp(true, Some(JArray(first))));
      var s2 := Fetch(Reduce(s1, SetCurrentPage(2)), Resp(true, Some(JArray(second))));
      s2.currentPage == 2 && s2.items == second && !NextEnabled(s2) && PreviousEnabled(s2)
    ensures !NextEnabled(Fetch(InitialState, Resp(true, Some(JArray(second)))))
  {
  }

  /** The same walk against the endpoint itself, over twelve seeded records. */
  lemma NavigationAgainstEndpoint(store: seq<Stuff>)
    requires |store| == 12 && SeededIds(store)
    ensures var s1 := Fetch(InitialState, Deliver(GetStuff(store, 1)));
      s1.items == store[..10] && NextEnabled(s1) && !PreviousEnabled(s1)
    ensures var s1 := Fetch(InitialState, Deliver(GetStuff(store, 1)));
      forall i :: 0 <= i < 10 ==> s1.items[i].id == i + 1
    ensures var s1 := Fetch(InitialState, Deliver(GetStuff(store, 1)));
      var s2 := Fetch(Reduce(s1, SetCurrentPage(2)), Deliver(GetStuff(store, 2)));
      s2.items == store[10..] && !NextEnabled(s2) && PreviousEnabled(s2)
    ensures var s1 := Fetch(InitialState, Deliver(GetStuff(store, 1)));
      var s2 := Fetch(Reduce(s1, SetCurrentPage(2)), Deliver(GetStuff(store, 2)));
      |s2.items| == 2 && s2.items[0].id == 11 && s2.items[1].id == 12
  {
  }
}

/** The `GET /stuff?page=n` endpoint: validation of the 1-based page number,
    the skip computation and the Skip/Take slice of the store. The store is
    the table's rows in the order the database yields them (the query has no
    ordering clause), given as a sequence. */
module StuffController {
  import opened Wrappers
  import opened StuffData

  /** The endpoint's fixed page size. */
  const PageSize: int := 10

  const InvalidPageMessage := "Page number must be greater than 0"

  /** The largest page whose skip count `(page - 1) * PageSize` fits in a C# `int`. */
  const MaxSafePage: int := 214748365

  /** The endpoint's two outcomes: 400 with a message, or 200 with the records. */
  datatype Response = BadRequest(message: string) | Ok(items: seq<Stuff>)

  function Min(a: int, b: int): int { if a <= b then a else b }

  function Max(a: int, b: int): int { if a >= b then a else b }

  /** LINQ's `Skip`: passes over the first `n` elements one at a time; a
      count of zero or less passes over nothing. */
  function Skip<T>(xs: seq<T>, n: int): (r: seq<T>)
    ensures n <= 0 ==> r == xs
    ensures 0 <= n <= |xs| ==> r == xs[n..]
    ensures n >= |xs| ==> r == []
    decreases |xs|
  {
    if n <= 0 || xs == [] then xs else Skip(xs[1..], n - 1)
  }

  /** LINQ's `Take`: yields elements one at a time until `n` have been
      yielded or the input ends; a count of zero or less yields nothing. */
  function Take<T>(xs: seq<T>, n: int): (r: seq<T>)
    ensures n <= 0 ==> r == []
    ensures 0 <= n <= |xs| ==> r == xs[..n]
    ensures n >= |xs| ==> r == xs
    decreases |xs|
  {
    if n <= 0 || xs == [] then [] else [xs[0]] + Take(xs[1..], n - 1)
  }

  /** The 0-based store offset of the first record of a 1-based page. */
  function PageStart(page: int): int
  {
    (page - 1) * PageSize
  }

  /** Where the page's records begin and end in the store, clipped to the store. */
  function PageLo(store: seq<Stuff>, page: int): nat
    requires page >= 1
  {
    Min(PageStart(page), |store|)
  }

  function PageHi(store: seq<Stuff>, page: int): nat
    requires page >= 1
  {
    Min(PageStart(page) + PageSize, |store|)
  }

  /** The records of a valid page: `Skip(skip).Take(pageSize)` over the store. */
  function Page(store: seq<Stuff>, page: int): (r: seq<Stuff>)
    requires page >= 1
    ensures r == store[PageLo(store, page)..PageHi(store, page)]
    ensures |r| == Max(0, Min(PageSize, |store| - PageStart(page)))
    ensures r == [] <==> PageStart(page) >= |store|
  {
    Take(Skip(store, PageStart(page)), PageSize)
  }

  /** The endpoint with an explicit page number. A page below 1 is refused
      without touching the store; any other page is a (possibly empty) slice
      of the store, in the store's order, of at most `PageSize` records. */
  function GetStuff(store: seq<Stuff>, page: Int32): (r: Response)
    ensures r.BadRequest? <==> page < 1
    ensures r.BadRequest? ==> r.message == InvalidPageMessage
    ensures r.Ok? ==> r.items == store[PageLo(store, page as int)..PageHi(store, page as int)]
    ensures r.Ok? ==> |r.items| == Max(0, Min(PageSize, |store| - PageStart(page as int)))
    ensures r.Ok? ==> |r.items| <= PageSize
    ensures r.Ok? ==> (r.items == [] <==> PageStart(page as int) >= |store|)
  {
    if page < 1 then BadRequest(InvalidPageMessage)
    else Ok(Page(store, page as int))
  }

  /** The endpoint as routed: the `page` query parameter is optional and defaults to 1. */
  function GetStuffQuery(store: seq<Stuff>, page: Option<Int32>): (r: Response)
    ensures page.None? ==> r == GetStuff(store, 1)
    ensures page.Some? ==> r == GetStuff(store, page.value)
  {
    GetStuff(store, page.GetOr(1))
  }

  /** Leaving out `page` asks for the first page: the first ten records, or the whole store when shorter. */
  lemma OmittedPageIsFirstPage(store: seq<Stuff>)
    ensures GetStuffQuery(store, None) == GetStuffQuery(store, Some(1))
    ensures GetStuffQuery(store, None) == Ok(store[..Min(PageSize, |store|)])
  {
  }

  /** An invalid page is answered from the page number alone: two stores give the same answer. */
  lemma InvalidPageIgnoresStore(a: seq<Stuff>, b: seq<Stuff>, page: Int32)
    requires page < 1
    ensures GetStuff(a, page) == GetStuff(b, page) == BadRequest(InvalidPageMessage)
  {
  }

  /** A valid page past the end of the store is an empty success, never an error. */
  lemma PastEndIsEmpty(store: seq<Stuff>, page: Int32)
    requires page >= 1
    requires PageStart(page as int) >= |store|
    ensures GetStuff(store, page) == Ok([])
  {
  }

  /** The records of pages 1 to `k`, in page order. */
  function Pages(store: seq<Stuff>, k: nat): seq<Stuff>
  {
    if k == 0 then [] else Pages(store, k - 1) + Page(store, k)
  }

  /** Reading pages 1 to `k` in turn yields exactly the store's first `10 * k`
      records (all of them once the store is shorter): nothing is skipped,
      repeated or reordered. */
  lemma {:induction false} PagesArePrefix(store: seq<Stuff>, k: nat)
    ensures Pages(store, k) == store[..Min(k * PageSize, |store|)]
  {
    if k > 0 {
      PagesArePrefix(store, k - 1);
      var lo := Min((k - 1) * PageSize, |store|);
      var hi := Min(k * PageSize, |store|);
      assert Page(store, k) == store[lo..hi];
      assert store[..lo] + store[lo..hi] == store[..hi];
    }
  }

  /** Distinct pages cover disjoint stretches of the store, and so (ids being
      a key) never return the same record twice. */
  lemma PagesDisjoint(store: seq<Stuff>, j: int, k: int)
    requires 1 <= j < k
    ensures PageHi(store, j) <= PageLo(store, k)
    ensures UniqueIds(store) ==>
      forall x, y :: x in Page(store, j) && y in Page(store, k) ==> x.id != y.id
  {
  }

  /** Every record of the store sits on exactly one page: the record at
      offset `i` is entry `i % 10` of page `i / 10 + 1`, and no other page's
      stretch contains offset `i`. */
  lemma EveryRecordOnOnePage(store: seq<Stuff>, i: int)
    requires 0 <= i < |store|
    ensures Page(store, i / PageSize + 1)[i % PageSize] == store[i]
    ensures forall p :: p >= 1 ==> (PageLo(store, p) <= i < PageHi(store, p) <==> p == i / PageSize + 1)
  {
    var p := i / PageSize + 1;
    assert PageLo(store, p) == (p - 1) * PageSize <= i;
  }

  /** A page of a valid store holds only valid rows. */
  lemma PageOfValidStoreIsValid(store: seq<Stuff>, page: int)
    requires page >= 1
    requires ValidStore(store)
    ensures ValidStore(Page(store, page))
  {
  }

  /** The skip count exactly as the endpoint computes it: `(page - 1) * pageSize`
      in unchecked 32-bit arithmetic. It is the intended offset up to
      `MaxSafePage` and a wrapped, wrong one beyond it. */
  function SkipAsWritten(page: Int32): (r: Int32)
    requires page >= 1
    ensures page as int <= MaxSafePage ==> r as int == PageStart(page as int)
    ensures page as int > MaxSafePage ==> r as int != PageStart(page as int)
  {
    Wrap32((page as int - 1) * PageSize)
  }

  /** The endpoint with the skip count as written. It validates like the
      model and still returns at most `PageSize` records, but a wrapped
      negative skip count skips nothing and a wrapped non-negative one starts
      the slice at the wrong offset. */
  function GetStuffAsWritten(store: seq<Stuff>, page: Int32): (r: Response)
    ensures r.BadRequest? <==> page < 1
    ensures r.BadRequest? ==> r.message == InvalidPageMessage
    ensures r.Ok? ==> |r.items| <= PageSize
    ensures r.Ok? && SkipAsWritten(page) < 0 ==> r.items == store[..Min(PageSize, |store|)]
    ensures r.Ok? && SkipAsWritten(page) >= 0 ==>
      r.items == store[Min(SkipAsWritten(page) as int, |store|)..Min(SkipAsWritten(page) as int + PageSize, |store|)]
  {
    if page < 1 then BadRequest(InvalidPageMessage)
    else Ok(Take(Skip(store, SkipAsWritten(page) as int), PageSize))
  }

  /** Up to `MaxSafePage` the endpoint as written and the model agree. */
  lemma AsWrittenAgreesUpToMaxSafePage(store: seq<Stuff>, page: Int32)
    requires page as int <= MaxSafePage
    ensures GetStuffAsWritten(store, page) == GetStuff(store, page)
  {
  }

  /** Whenever the wrapped skip count of a page past `MaxSafePage` lands
      inside the store, the endpoint as written returns records where the
      intended answer is an empty page. */
  lemma OverflowReturnsRecordsPastEnd(store: seq<Stuff>, page: Int32)
    requires page as int > MaxSafePage
    requires 0 <= SkipAsWritten(page) as int < |store| <= Int32Max
    ensures GetStuffAsWritten(store, page).Ok? && GetStuffAsWritten(store, page).items != []
    ensures GetStuff(store, page) == Ok([])
  {
    assert PageStart(page as int) >= |store|;
  }

  /** Past `MaxSafePage` the wrapped skip count sends pages far beyond the end
      of a 12-record store back into it: page 214748366 skips a negative count
      and returns the first page; page 429496731 skips 4 records. The intended
      answer to both is an empty page. */
  lemma OverflowRevisitsStore(store: seq<Stuff>)
    requires |store| == 12
    ensures GetStuffAsWritten(store, 214748366) == Ok(store[..10])
    ensures GetStuffAsWritten(store, 429496731) == Ok(store[4..12])
    ensures GetStuff(store, 214748366) == Ok([])
    ensures GetStuff(store, 429496731) == Ok([])
  {
    assert SkipAsWritten(214748366) as int == -2147483646;
    assert SkipAsWritten(429496731) as int == 4;
  }
}

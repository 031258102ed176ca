/** The pagination state of the store list (components/store-list-wrapper.tsx):
    the current page and page size, when a refetch happens, and the page
    count shown. */
module StoreListWrapper {

  import opened Wrappers
  import opened Seqs
  import opened Stores

  datatype Props = Props(initialStores: seq<StoreView>, totalStores: nat, itemsPerPage: int)

  /** The component's state. `loadedPage` and `loadedLimit` are the page
      and size the shown stores were served for: the server's page 1 at
      first, then the pagination block of the last fetched page. The
      component as written does not consult them. */
  datatype State = State(stores: seq<StoreView>, currentPage: int, limit: int, total: nat,
                         loadedPage: int, loadedLimit: int)

  function Init(p: Props): (s: State)
    ensures s.currentPage == 1 && s.limit == p.itemsPerPage
    ensures s.stores == p.initialStores && s.total == p.totalStores
    ensures s.loadedPage == 1 && s.loadedLimit == p.itemsPerPage
  {
    State(p.initialStores, 1, p.itemsPerPage, p.totalStores, 1, p.itemsPerPage)
  }

  /** `handlePageChange` */
  function PageChange(s: State, page: int): (r: State)
    ensures r.currentPage == page
    ensures r.(currentPage := s.currentPage) == s
  {
    s.(currentPage := page)
  }

  /** `handleItemsPerPageChange` */
  function ItemsPerPageChange(s: State, newLimit: int): (r: State)
    ensures r.limit == newLimit && r.currentPage == 1
    ensures r.(limit := s.limit, currentPage := s.currentPage) == s
  {
    s.(limit := newLimit, currentPage := 1)
  }

  /** The effect's condition for fetching a page. */
  predicate ShouldRefetch(s: State, p: Props) {
    s.currentPage != 1 || s.limit != p.itemsPerPage
  }

  /** The first render fetches nothing; the server-provided stores are
      shown as they are. */
  lemma InitialStateDoesNotRefetch(p: Props)
    ensures !ShouldRefetch(Init(p), p)
  {
  }

  /** Changing the page size refetches exactly when the new size differs
      from the prop, since the page is reset to 1. */
  lemma ResizeRefetchesIffSizeChanges(s: State, p: Props, newLimit: int)
    ensures ShouldRefetch(ItemsPerPageChange(s, newLimit), p) <==> newLimit != p.itemsPerPage
  {
  }

  /** `totalPages: Math.ceil(total / limit)` */
  function TotalPages(s: State): (n: nat)
    requires s.limit > 0
    ensures s.total <= n * s.limit
    ensures n == 0 || (n - 1) * s.limit < s.total
  {
    CeilDiv(s.total, s.limit)
  }

  /** A fetched page: a failed request leaves the state as it was, a
      successful one replaces the stores and the total. */
  function ApplyFetch(s: State, response: Option<StoresPage>): (r: State)
    ensures response.None? ==> r == s
    ensures response.Some? ==>
              && r.stores == response.value.stores && r.total == response.value.pagination.total
              && r.loadedPage == response.value.pagination.page
              && r.loadedLimit == response.value.pagination.limit
    ensures r.currentPage == s.currentPage && r.limit == s.limit
  {
    if response.None? then s
    else s.(stores := response.value.stores, total := response.value.pagination.total,
            loadedPage := response.value.pagination.page,
            loadedLimit := response.value.pagination.limit)
  }

  /** After the fetch of the current page, the page count shown equals the
      one the stores route computed, and the stores shown are that page. */
  lemma FetchAgreesWithRoute(s: State, all: seq<StoreRecord>)
    requires s.currentPage >= 1 && s.limit >= 1
    ensures var page := GetStores(all, Some(s.currentPage), Some(s.limit));
            var r := ApplyFetch(s, Some(page));
            && TotalPages(r) == page.pagination.totalPages
            && r.stores == page.stores
  {
  }

  /** A user action on the pagination control. */
  datatype Event = GoToPage(page: int) | Resize(limit: int)

  predicate ValidEvent(e: Event) {
    match e
    case GoToPage(page) => page >= 1
    case Resize(limit) => limit >= 1
  }

  function Handle(s: State, e: Event): (r: State)
    ensures ValidEvent(e) && s.currentPage >= 1 && s.limit >= 1 ==> r.currentPage >= 1 && r.limit >= 1
  {
    match e
    case GoToPage(page) => PageChange(s, page)
    case Resize(limit) => ItemsPerPageChange(s, limit)
  }

  /** The page and size the route would serve for the state, fetched. */
  function Fetched(all: seq<StoreRecord>, s: State): (r: State)
    requires s.currentPage >= 1 && s.limit >= 1
    ensures r.stores == GetStores(all, Some(s.currentPage), Some(s.limit)).stores
    ensures r.loadedPage == s.currentPage && r.loadedLimit == s.limit
    ensures r.currentPage == s.currentPage && r.limit == s.limit
  {
    ApplyFetch(s, Some(GetStores(all, Some(s.currentPage), Some(s.limit))))
  }

  /** The shown stores are the route's page for the current page and size. */
  predicate ShowsCurrentPage(all: seq<StoreRecord>, s: State)
    requires s.currentPage >= 1 && s.limit >= 1
  {
    s.stores == GetStores(all, Some(s.currentPage), Some(s.limit)).stores
  }

  predicate ServerRendered(all: seq<StoreRecord>, p: Props) {
    p.itemsPerPage >= 1 && p.initialStores == GetStores(all, Some(1), Some(p.itemsPerPage)).stores
  }

  /** The component as written: each event, then the effect, which fetches
      (always successfully here) when `ShouldRefetch` holds. */
  function RunAsWritten(all: seq<StoreRecord>, p: Props, s: State, events: seq<Event>): (r: State)
    requires s.currentPage >= 1 && s.limit >= 1
    requires forall i :: 0 <= i < |events| ==> ValidEvent(events[i])
    ensures r.currentPage >= 1 && r.limit >= 1
    decreases |events|
  {
    if |events| == 0 then s
    else
      var next := Handle(s, events[0]);
      var after := if ShouldRefetch(next, p) then Fetched(all, next) else next;
      RunAsWritten(all, p, after, events[1..])
  }

  /** As written, going to page 2 and back to page 1 leaves page 2's stores
      on screen: back on page 1 with the initial size, the effect's
      condition is false and nothing is fetched. The defect is latent: the
      store list the wrapper renders never calls its page handler, and no
      page renders the wrapper. With more stores than one
      page holds but fewer than two pages' worth, the two pages differ in
      length, so what is shown is not page 1. */
  lemma BackToFirstPageShowsSecond(all: seq<StoreRecord>, p: Props)
    requires ServerRendered(all, p)
    ensures var s := RunAsWritten(all, p, Init(p), [GoToPage(2), GoToPage(1)]);
            && s.currentPage == 1
            && s.stores == GetStores(all, Some(2), Some(p.itemsPerPage)).stores
            && (p.itemsPerPage < |all| < 2 * p.itemsPerPage ==> !ShowsCurrentPage(all, s))
  {
    var events := [GoToPage(2), GoToPage(1)];
    var s1 := Fetched(all, PageChange(Init(p), 2));
    assert RunAsWritten(all, p, Init(p), events) == RunAsWritten(all, p, s1, events[1..]);
    var s2 := PageChange(s1, 1);
    assert !ShouldRefetch(s2, p);
    assert RunAsWritten(all, p, s1, events[1..]) == RunAsWritten(all, p, s2, []);
    var limit := p.itemsPerPage;
    if limit < |all| < 2 * limit {
      assert Skip(2, limit) == limit;
      assert |GetStores(all, Some(2), Some(limit)).stores| == |all| - limit;
      assert |GetStores(all, Some(1), Some(limit)).stores| == limit;
    }
  }

  /** The refetch condition the component evidently intends: the current
      page or size differs from the one the shown stores were served for. */
  predicate NeedsFetch(s: State) {
    s.currentPage != s.loadedPage || s.limit != s.loadedLimit
  }

  /** The component with `NeedsFetch` as the effect's condition. */
  function Run(all: seq<StoreRecord>, s: State, events: seq<Event>): (r: State)
    requires s.currentPage >= 1 && s.limit >= 1
    requires forall i :: 0 <= i < |events| ==> ValidEvent(events[i])
    ensures r.currentPage >= 1 && r.limit >= 1
    decreases |events|
  {
    if |events| == 0 then s
    else
      var next := Handle(s, events[0]);
      var after := if NeedsFetch(next) then Fetched(all, next) else next;
      Run(all, after, events[1..])
  }

  /** With the intended condition, after any run of page and size changes
      the stores on screen are the route's page for the current page and
      size, and the first render still fetches nothing. */
  lemma {:induction false} RunShowsCurrentPage(all: seq<StoreRecord>, s: State, events: seq<Event>)
    requires s.currentPage >= 1 && s.limit >= 1
    requires s.loadedPage == s.currentPage && s.loadedLimit == s.limit
    requires ShowsCurrentPage(all, s)
    requires forall i :: 0 <= i < |events| ==> ValidEvent(events[i])
    ensures ShowsCurrentPage(all, Run(all, s, events))
    decreases |events|
  {
    if |events| > 0 {
      var next := Handle(s, events[0]);
      var after := if NeedsFetch(next) then Fetched(all, next) else next;
      assert after.loadedPage == after.currentPage && after.loadedLimit == after.limit;
      assert ShowsCurrentPage(all, after);
      RunShowsCurrentPage(all, after, events[1..]);
    }
  }

  lemma FromFirstRenderShowsCurrentPage(all: seq<StoreRecord>, p: Props, events: seq<Event>)
    requires ServerRendered(all, p)
    requires forall i :: 0 <= i < |events| ==> ValidEvent(events[i])
    ensures !NeedsFetch(Init(p))
    ensures ShowsCurrentPage(all, Run(all, Init(p), events))
  {
    RunShowsCurrentPage(all, Init(p), events);
  }
}

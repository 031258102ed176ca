/** The stores route (app/api/stores/route.ts): one page of stores in id
    order, each zone projected with an occupancy label computed from its
    bookings, and the pagination arithmetic. */
module Stores {

  import opened Wrappers
  import opened Seqs
  import opened Bookings

  /** The two labels the route emits. They are not the `'OCCUPIED' |
      'VACANT'` values the client type declares. */
  const FREE: string := "Свободен"
  const TAKEN: string := "Занят"

  const DEFAULT_PAGE: int := 1
  const DEFAULT_LIMIT: int := 15

  /** A zone row as the database returns it with its bookings included.
      `bookings` is `None` for the `null` the handler guards against. */
  datatype ZoneRecord = ZoneRecord(
    id: int,
    uniqueId: string,
    zoneId: string,
    equipment: string,
    dmpProductNeighboring: string,
    purpose: string,
    subPurpose: string,
    category: string,
    supplier: string,
    brand: string,
    productCategory: string,
    storeId: int,
    comment: Option<string>,
    price: int,
    createdAt: int,
    updatedAt: int,
    bookings: Option<seq<Booking>>)

  /** A zone as the route sends it: the same fields without the bookings,
      plus the derived `status` label. The client components receive this
      record as their `DMP`. */
  datatype ZoneView = ZoneView(
    id: int,
    uniqueId: string,
    zoneId: string,
    equipment: string,
    dmpProductNeighboring: string,
    purpose: string,
    subPurpose: string,
    category: string,
    supplier: string,
    brand: string,
    productCategory: string,
    storeId: int,
    comment: Option<string>,
    price: int,
    createdAt: int,
    updatedAt: int,
    status: string)

  datatype StoreRecord = StoreRecord(
    id: int,
    externalId: string,
    name: string,
    region: string,
    city: string,
    newFormat: string,
    equipmentFormat: string,
    dmpZones: seq<ZoneRecord>)

  datatype StoreView = StoreView(
    id: int,
    externalId: string,
    name: string,
    region: string,
    city: string,
    newFormat: string,
    equipmentFormat: string,
    dmpZones: seq<ZoneView>)

  datatype Pagination = Pagination(total: nat, page: int, limit: int, totalPages: nat)

  datatype StoresPage = StoresPage(stores: seq<StoreView>, pagination: Pagination)

  /** `determineZoneStatus`: free exactly when there is no booking at all. */
  function DetermineZoneStatus(bookings: Option<seq<Booking>>): (s: string)
    ensures s == FREE <==> bookings.None? || |bookings.value| == 0
    ensures s == FREE || s == TAKEN
  {
    if bookings.None? || |bookings.value| == 0 then FREE else TAKEN
  }

  /** The label ignores the bookings' statuses: a zone whose only bookings
      were rejected is still taken, as is one with a single pending
      request. */
  lemma StatusIgnoresBookingStatus(bs: seq<Booking>, other: seq<Booking>)
    requires |bs| > 0 && |other| > 0
    ensures DetermineZoneStatus(Some(bs)) == DetermineZoneStatus(Some(other)) == TAKEN
  {
  }

  lemma RejectedBookingStillOccupies(b: Booking)
    requires b.status == REJECTED
    ensures DetermineZoneStatus(Some([b])) == TAKEN
  {
  }

  /** The per-zone field copy. */
  function ProjectZone(z: ZoneRecord): (v: ZoneView)
    ensures v.status == DetermineZoneStatus(z.bookings)
    ensures Unproject(v, z.bookings) == z
  {
    ZoneView(z.id, z.uniqueId, z.zoneId, z.equipment, z.dmpProductNeighboring, z.purpose,
             z.subPurpose, z.category, z.supplier, z.brand, z.productCategory, z.storeId,
             z.comment, z.price, z.createdAt, z.updatedAt, DetermineZoneStatus(z.bookings))
  }

  /** The inverse of the projection, given the dropped bookings back: the
      projection loses nothing but the bookings, and adds only `status`. */
  function Unproject(v: ZoneView, bookings: Option<seq<Booking>>): ZoneRecord {
    ZoneRecord(v.id, v.uniqueId, v.zoneId, v.equipment, v.dmpProductNeighboring, v.purpose,
               v.subPurpose, v.category, v.supplier, v.brand, v.productCategory, v.storeId,
               v.comment, v.price, v.createdAt, v.updatedAt, bookings)
  }

  function ProjectZones(zs: seq<ZoneRecord>): (vs: seq<ZoneView>)
    ensures |vs| == |zs|
    ensures forall i :: 0 <= i < |zs| ==> vs[i] == ProjectZone(zs[i])
  {
    seq(|zs|, i requires 0 <= i < |zs| => ProjectZone(zs[i]))
  }

  /** `{ ...store, dmpZones: … }`: every store field kept, each zone
      projected in order. */
  function ProjectStore(s: StoreRecord): (v: StoreView)
    ensures v.id == s.id
    ensures v.dmpZones == ProjectZones(s.dmpZones)
    ensures v.(dmpZones := []) == StoreView(s.id, s.externalId, s.name, s.region, s.city,
                                            s.newFormat, s.equipmentFormat, [])
  {
    StoreView(s.id, s.externalId, s.name, s.region, s.city, s.newFormat, s.equipmentFormat,
              ProjectZones(s.dmpZones))
  }

  /** The page parameters after `parseInt(param || default)`; `None` is an
      absent or empty parameter. */
  function ParamOrDefault(param: Option<int>, default: int): int {
    if param.Some? then param.value else default
  }

  function Skip(page: int, limit: int): (skip: int)
    ensures page >= 1 && limit >= 0 ==> skip >= 0
  {
    assert page >= 1 && limit >= 0 ==> (page - 1) * limit >= 0 by {
      if page >= 1 && limit >= 0 {
        MulMonotone(0, page - 1, limit);
      }
    }
    (page - 1) * limit
  }

  lemma DefaultsStartAtZero()
    ensures ParamOrDefault(None, DEFAULT_PAGE) == 1
    ensures ParamOrDefault(None, DEFAULT_LIMIT) == 15
    ensures Skip(ParamOrDefault(None, DEFAULT_PAGE), ParamOrDefault(None, DEFAULT_LIMIT)) == 0
  {
  }

  /** `totalPages: Math.ceil(total / limit)`: the fewest pages of `limit`
      stores that hold `total` stores. */
  lemma TotalPagesIsCeiling(total: nat, limit: nat)
    requires limit > 0
    ensures total == 0 ==> CeilDiv(total, limit) == 0
    ensures total > 0 ==> (CeilDiv(total, limit) - 1) * limit < total <= CeilDiv(total, limit) * limit
  {
  }

  /** Stores in ascending id order: `orderBy: { id: 'asc' }`. */
  function OrderById(all: seq<StoreRecord>): (r: seq<StoreRecord>)
    ensures multiset(r) == multiset(all)
    ensures |r| == |all|
    ensures forall i, j :: 0 <= i < j < |r| ==> r[i].id <= r[j].id
  {
    SortBy((s: StoreRecord) => s.id, all)
  }

  /** GET /api/stores?page=…&limit=… */
  function GetStores(all: seq<StoreRecord>, pageParam: Option<int>, limitParam: Option<int>): (r: StoresPage)
    requires ParamOrDefault(pageParam, DEFAULT_PAGE) >= 1
    requires ParamOrDefault(limitParam, DEFAULT_LIMIT) >= 1
    ensures var page := ParamOrDefault(pageParam, DEFAULT_PAGE);
            var limit := ParamOrDefault(limitParam, DEFAULT_LIMIT);
            var skip := Skip(page, limit);
            && r.pagination == Pagination(|all|, page, limit, CeilDiv(|all|, limit))
            && |r.stores| <= limit
            && (skip < |all| ==> |r.stores| == Min(limit, |all| - skip))
            && (skip >= |all| ==> |r.stores| == 0)
            && (forall i :: 0 <= i < |r.stores| ==>
                  skip + i < |all| && r.stores[i] == ProjectStore(OrderById(all)[skip + i]))
  {
    var page := ParamOrDefault(pageParam, DEFAULT_PAGE);
    var limit := ParamOrDefault(limitParam, DEFAULT_LIMIT);
    var skip := Skip(page, limit);
    var window := Slice(OrderById(all), skip, skip + limit);
    var stores := seq(|window|, i requires 0 <= i < |window| => ProjectStore(window[i]));
    StoresPage(stores, Pagination(|all|, page, limit, CeilDiv(|all|, limit)))
  }

  /** The stores of one page come in ascending id order. */
  lemma PageInIdOrder(all: seq<StoreRecord>, pageParam: Option<int>, limitParam: Option<int>)
    requires ParamOrDefault(pageParam, DEFAULT_PAGE) >= 1
    requires ParamOrDefault(limitParam, DEFAULT_LIMIT) >= 1
    ensures var st := GetStores(all, pageParam, limitParam).stores;
            forall i, j :: 0 <= i < j < |st| ==> st[i].id <= st[j].id
  {
    var r := GetStores(all, pageParam, limitParam);
    var skip := Skip(ParamOrDefault(pageParam, DEFAULT_PAGE), ParamOrDefault(limitParam, DEFAULT_LIMIT));
    ProjectedRunSorted(OrderById(all), r.stores, skip);
  }

  /** Projections of a run of an id-sorted sequence are id-sorted. */
  lemma ProjectedRunSorted(sorted: seq<StoreRecord>, st: seq<StoreView>, skip: int)
    requires forall i, j :: 0 <= i < j < |sorted| ==> sorted[i].id <= sorted[j].id
    requires skip >= 0
    requires forall i :: 0 <= i < |st| ==> skip + i < |sorted| && st[i] == ProjectStore(sorted[skip + i])
    ensures forall i, j :: 0 <= i < j < |st| ==> st[i].id <= st[j].id
  {
    forall i, j | 0 <= i < j < |st| ensures st[i].id <= st[j].id {
      assert st[i].id == sorted[skip + i].id;
      assert st[j].id == sorted[skip + j].id;
    }
  }

  /** Every store is served by exactly the page its position says: the
      store at position `k` of the id order is item `k % limit` of page
      `k / limit + 1`, and that page is within `totalPages`. */
  lemma {:induction false} EveryStoreOnItsPage(all: seq<StoreRecord>, limit: int, k: nat)
    requires limit >= 1 && k < |all|
    ensures var page := k / limit + 1;
            var r := GetStores(all, Some(page), Some(limit));
            && page <= r.pagination.totalPages
            && k % limit < |r.stores|
            && r.stores[k % limit] == ProjectStore(OrderById(all)[k])
  {
    var q := k / limit;
    var m := k % limit;
    var page := q + 1;
    DivMod(k, limit);
    var skip := Skip(page, limit);
    assert skip == q * limit;
    PageWithinTotal(|all|, limit, q, k);
    var r := GetStores(all, Some(page), Some(limit));
    assert skip + m == k < |all|;
    assert |r.stores| == Min(limit, |all| - skip);
  }

  lemma DivMod(k: nat, d: int)
    requires d >= 1
    ensures k == (k / d) * d + k % d && 0 <= k % d < d
  {
  }

  /** A page that starts before the end of the list is within the page
      count. */
  lemma PageWithinTotal(total: nat, limit: int, q: nat, k: nat)
    requires limit >= 1 && q * limit <= k < total
    ensures q + 1 <= CeilDiv(total, limit)
  {
    var tp := CeilDiv(total, limit);
    if tp <= q {
      MulMonotone(tp, q, limit);
    }
  }

  lemma MulMonotone(a: int, b: int, c: int)
    requires a <= b && c >= 0
    ensures a * c <= b * c
  {
  }

  /** A page past the last one is empty. */
  lemma PageBeyondLastIsEmpty(all: seq<StoreRecord>, page: int, limit: int)
    requires limit >= 1 && page > CeilDiv(|all|, limit)
    ensures GetStores(all, Some(page), Some(limit)).stores == []
  {
    var tp := CeilDiv(|all|, limit);
    assert tp * limit <= (page - 1) * limit by {
      MulMonotone(tp, page - 1, limit);
    }
  }
}

/** The store card (components/store-card.tsx): the count of free zones on
    its badge. */
module StoreCard {

  import opened Seqs
  import opened Stores

  predicate LabelledFree(z: ZoneView) {
    z.status == FREE
  }

  /** `store.dmpZones.filter(dmp => dmp.status === 'Свободен').length` */
  function AvailableCount(zones: seq<ZoneView>): (n: nat)
    ensures n <= |zones|
    ensures n == |zones| <==> forall i :: 0 <= i < |zones| ==> zones[i].status == FREE
    ensures n == 0 <==> forall i :: 0 <= i < |zones| ==> zones[i].status != FREE
    ensures n == CountFree(zones)
  {
    FilterCountBounds(LabelledFree, zones);
    FilterIsCountFree(zones);
    |Filter(LabelledFree, zones)|
  }

  /** The number of zones labelled 'Свободен', counted one zone at a time. */
  function CountFree(zones: seq<ZoneView>): nat {
    if |zones| == 0 then 0
    else (if zones[0].status == FREE then 1 else 0) + CountFree(zones[1..])
  }

  lemma {:induction false} FilterIsCountFree(zones: seq<ZoneView>)
    ensures |Filter(LabelledFree, zones)| == CountFree(zones)
    decreases |zones|
  {
    if |zones| > 0 {
      FilterIsCountFree(zones[1..]);
    }
  }

  predicate Unbooked(z: ZoneRecord) {
    z.bookings.None? || |z.bookings.value| == 0
  }

  /** Composed with the stores route, the badge counts the zones that have
      no booking at all, of any status. */
  lemma {:induction false} CountsUnbookedZones(zs: seq<ZoneRecord>)
    ensures AvailableCount(ProjectZones(zs)) == |Filter(Unbooked, zs)|
    decreases |zs|
  {
    if |zs| > 0 {
      CountsUnbookedZones(zs[1..]);
      assert ProjectZones(zs)[1..] == ProjectZones(zs[1..]);
    }
  }
}

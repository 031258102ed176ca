# DMP stores: a Dafny model of the booking and store-listing core

dmp_stores is a Next.js application for renting DMP zones, which are
additional merchandising spots inside retail stores. This project models
its core and proves properties about it:

- **Booking routes** (`GET`/`POST /api/bookings`). Modelled are who sees
  which bookings, the order bookings are returned in, and what a created
  booking contains.
- **Admin registration route** (`POST /api/auth/admin`).
- **Stores route** (`GET /api/stores`). It paginates the stores and labels
  every zone free or taken.
- **Client components** that consume these routes:
  - the admin panel;
  - the customer's booking list;
  - the store card;
  - the store filters;
  - the paginated store list;
  - the zone table, with its filter panel and month buttons.

Database queries become filters and sorts over sequences. A session is an
`Option`. Anything the routes read from the environment, the clock, the
password hasher or the database id generator is a parameter.

Modules and what they model:

| file | module | models |
|---|---|---|
| `seqs.dfy` | `Wrappers`, `Seqs` | Shared sequence operations: filter, toggle, de-duplication, JavaScript `slice`, stable sort, ceiling division |
| `bookings.dfy` | `Bookings` | `app/api/bookings/route.ts` |
| `stores.dfy` | `Stores`, `StoreCard` | `app/api/stores/route.ts` and the available-zone count of `components/store-card.tsx` |
| `bookings_page.dfy` | `BookingsPage` | `app/bookings/page.tsx` |
| `admin_page.dfy` | `AdminPage` | `app/admin/page.tsx` |
| `store_filters.dfy` | `StoreFilters` | `components/store-filters.tsx` |
| `spot_filters.dfy` | `SpotFilters` | `components/spot-filters.tsx` |
| `month_button.dfy` | `MonthButton` | `components/month-button.tsx` |
| `dmp_list.dfy` | `DmpList` | `components/dmp-list.tsx` |
| `admin_registration.dfy` | `AdminRegistration` | `app/api/auth/admin/route.ts` |
| `store_list_wrapper.dfy` | `StoreListWrapper` | `components/store-list-wrapper.tsx` |
| `pipeline.dfy` | `Pipeline` | Consequences of connecting the stores route to the card and the zone table |

## The zone-status labels are modelled as written

The stores route labels a zone `'Свободен'` when it has no bookings and
`'Занят'` otherwise. The store card counts `'Свободен'` zones. The zone
table and the month buttons treat a zone as free only if its status is
`'VACANT'`, a value the route never produces. The filter panel's colours
know the Russian labels.

The model keeps all of these exactly as the code has them. `Pipeline`
proves what follows:

- every zone served by the route shows as occupied in the table, with no
  clickable month;
- a zone with no bookings is counted as available on the card.

The client type at `types/store.ts:17` declares a zone status as
`'OCCUPIED' | 'VACANT'`, while the route emits the Russian labels. The
model follows what the route emits.

The POST handler of the bookings route validates neither the date range
nor the price: it stores whatever the body carries.
`Bookings.CreateDoesNotValidate` states this.

## Model

| member | source | states |
|---|---|---|
| Bookings.FindUserByEmail | app/api/bookings/route.ts:21-23 | The lookup finds a user exactly when one with that e-mail exists, and the user found has that e-mail |
| Bookings.ComputeWhere | app/api/bookings/route.ts:29-38 | A booking matches the built where-clause exactly when the visibility rule lets the user see it. An admin with a status parameter sees that status, an admin without one sees everything, a customer sees their own bookings |
| Bookings.OrderNewestFirst | app/api/bookings/route.ts:55-57 | The result is ordered by creation time, newest first, and is a permutation of the input |
| Bookings.ListBookings | app/api/bookings/route.ts:11-60 | No session gives 401. A session whose e-mail has no user gives 404. Otherwise the result holds exactly the visible bookings, each as often as in the table, newest first |
| Bookings.CustomerSeesOnlyOwn | app/api/bookings/route.ts:36-38 | A non-admin gets exactly their own bookings, whatever status parameter they send |
| Bookings.AdminStatusFilter | app/api/bookings/route.ts:32-34 | An admin with a non-empty status parameter gets exactly the bookings in that status |
| Bookings.AdminSeesAll | app/api/bookings/route.ts:29-58 | An admin without a status parameter gets every booking, as a multiset |
| Bookings.CreateBooking | app/api/bookings/route.ts:67-103 | No session gives 401 and an unknown user 404. A created booking is PENDING and owned by the session's user; zone, dates and price are copied from the body |
| Bookings.CreateIgnoresClientStatusAndOwner | app/api/bookings/route.ts:75-93 | A status or user id in the body does not change the created booking |
| Bookings.CreateDoesNotValidate | app/api/bookings/route.ts:74-93 | A body whose end date is before its start date, or whose price is not positive, is still stored, with dates and price unchanged |
| Stores.DetermineZoneStatus | app/api/stores/route.ts:7-14 | The label is 'Свободен' exactly when the zone's bookings are absent or empty, and 'Занят' otherwise |
| Stores.StatusIgnoresBookingStatus | app/api/stores/route.ts:7-14 | Rewriting the statuses of a zone's bookings does not change its label |
| Stores.RejectedBookingStillOccupies | app/api/stores/route.ts:9-13 | A zone whose only booking is REJECTED is still labelled taken |
| Stores.ProjectZone | app/api/stores/route.ts:45-63 | The served zone carries the computed label, and every other field is copied unchanged: removing the label and restoring the bookings gives back the stored zone |
| Stores.ProjectStore | app/api/stores/route.ts:43-64 | A served store keeps its fields and projects each of its zones in order |
| Stores.Skip | app/api/stores/route.ts:21 | For a page of at least 1 and a non-negative limit the offset is never negative |
| Stores.DefaultsStartAtZero | app/api/stores/route.ts:19-21 | With no page and no limit parameter the first 15 stores are served |
| Stores.TotalPagesIsCeiling | app/api/stores/route.ts:72 | totalPages is the least page count that covers every store |
| Stores.OrderById | app/api/stores/route.ts:35-37 | The stores are sorted by ascending id and are a permutation of the table |
| Stores.GetStores | app/api/stores/route.ts:16-74 | The page holds the stores at positions skip to skip+limit of the id order, projected. It is at most limit long, and the pagination block echoes page and limit with the total and the page count |
| Stores.PageInIdOrder | app/api/stores/route.ts:27-40 | The stores on a page are in ascending id order |
| Stores.EveryStoreOnItsPage | app/api/stores/route.ts:19-72 | Every store appears on exactly the page its position determines, and that page is within totalPages |
| Stores.PageBeyondLastIsEmpty | app/api/stores/route.ts:19-72 | A page number past totalPages serves no store |
| StoreCard.AvailableCount | components/store-card.tsx:15 | The count is the number of zones labelled 'Свободен', as counted zone by zone by `StoreCard.CountFree`. It is at most the number of zones, zero exactly when none is so labelled, and equal to the zone count exactly when all are |
| StoreCard.FilterIsCountFree | components/store-card.tsx:15 | The filtered list's length equals the zone-by-zone count of 'Свободен' labels |
| StoreCard.CountsUnbookedZones | components/store-card.tsx:15 | On zones served by the stores route, the count equals the number of zones without bookings |
| BookingsPage.StatusBadge | app/bookings/page.tsx:38-49 | PENDING is yellow, APPROVED green, REJECTED red, and every other status gray |
| BookingsPage.StatusText | app/bookings/page.tsx:51-62 | PENDING reads 'На рассмотрении', APPROVED 'Подтверждено', REJECTED 'Отклонено'; any other status is shown as it is |
| BookingsPage.DefaultBranchesAgree | app/bookings/page.tsx:38-62 | A status is gray exactly when it is shown as its raw value |
| BookingsPage.BookedFallsThrough | app/bookings/page.tsx:38-62 | A BOOKED booking shows as gray with the raw text 'BOOKED' |
| BookingsPage.KnownLabelsDistinct | app/bookings/page.tsx:51-62 | The three known statuses get three different labels |
| BookingsPage.FetchRequest | app/bookings/page.tsx:26-36 | The page requests its list only with a session, and never sends a status parameter |
| BookingsPage.CustomerPageShowsOwn | app/bookings/page.tsx:26-36 | For a customer the route answers the page with exactly their bookings |
| BookingsPage.AdminPageShowsEveryone | app/bookings/page.tsx:26-36 | For an admin the same page lists every booking |
| AdminPage.OfferedActions | app/admin/page.tsx:124-147 | A tab offers an action exactly when the action is a workflow step from the tab's status. PENDING may become APPROVED or REJECTED, and APPROVED may become BOOKED. No action is offered twice |
| AdminPage.NoShortcutToBooked | app/admin/page.tsx:124-147 | The PENDING tab never offers BOOKED, and no tab lists REJECTED or BOOKED bookings |
| AdminPage.FetchRequest | app/admin/page.tsx:33-43 | Only an admin session requests the list, and it asks for the active tab's status |
| AdminPage.FirstRequestIsPending | app/admin/page.tsx:31-36 | The first request of an admin asks for PENDING bookings |
| AdminPage.TabListsItsStatus | app/admin/page.tsx:33-43 | Answered by the listing route, a tab's request yields exactly the bookings in the tab's status |
| AdminPage.AfterAction | app/admin/page.tsx:45-61 | After a successful request every copy of the acted-on booking leaves the list, and every other booking stays, as often as before and in its order. After a failed or thrown request the list is unchanged |
| AdminPage.SuccessRemovesOne | app/admin/page.tsx:55-57 | With distinct ids, success on a listed booking shortens the list by exactly one |
| AdminPage.TabBadge | app/admin/page.tsx:107-113 | A card's badge follows the tab and agrees with the booking page's label and colour for that status |
| AdminPage.Render | app/admin/page.tsx:63-160 | A non-admin sees only the access-denied view. An admin sees one card per booking with the tab's badge and actions, and the empty notice exactly when there are no bookings |
| StoreFilters.FilterStores | components/store-filters.tsx:20-29 | A store is kept exactly when its city and its format are selected or nothing of that kind is, and its lower-cased name contains the lower-cased query. Each kept store appears as often as in the input, in input order |
| StoreFilters.EmptyQueryMatchesEveryName | components/store-filters.tsx:24 | The empty query matches every name |
| StoreFilters.InitialSelectionKeepsAll | components/store-filters.tsx:13-28 | The initial selection shows every store |
| StoreFilters.CitySelectionKeepsItsCities | components/store-filters.tsx:22 | With only cities selected and an empty query, the stores shown are exactly those in a selected city |
| StoreFilters.HandleFilterChange | components/store-filters.tsx:31-45 | A click adds the value if it is not selected and removes it otherwise. The other kind's selection does not change |
| StoreFilters.ClickTwiceRestores | components/store-filters.tsx:31-45 | Two clicks on a value that was not selected restore the selection |
| StoreFilters.Cities | components/store-filters.tsx:17 | The city buttons are the stores' cities, each once, in order of first appearance |
| StoreFilters.Formats | components/store-filters.tsx:18 | The format buttons are the stores' equipment formats, each once, in order of first appearance |
| Seqs.FilterMultiplicity | components/store-filters.tsx:21-26 | `filter` keeps each satisfying element exactly as often as it occurs and drops every other element |
| Seqs.Toggle | components/spot-filters.tsx:39-42 | A toggled value's membership flips and nothing else changes membership. An absent value is appended; removing a present value leaves a strictly shorter subsequence |
| Seqs.ToggleTwiceRestores | components/store-filters.tsx:33-43 | Toggling an absent value twice gives back the original sequence |
| Seqs.Distinct | components/store-filters.tsx:17-18 | `Array.from(new Set(...))` has no duplicates, the same members as its input, and first-occurrence order |
| Seqs.CeilDiv | components/store-list-wrapper.tsx:65 | `Math.ceil(a / b)` is the least count of b-sized pages that covers a |
| SpotFilters.HandleFilterToggle | components/spot-filters.tsx:37-46 | Only the chosen list changes, and it is toggled. The emitted filters are the stored ones |
| SpotFilters.ToggleTwiceRestores | components/spot-filters.tsx:37-46 | Two toggles of a value that was not selected restore the filters |
| SpotFilters.HandleSearchChange | components/spot-filters.tsx:48-55 | Only the search term changes, and the emitted filters are the stored ones |
| SpotFilters.HandlePriceChange | components/spot-filters.tsx:57-65 | An empty input clears the maximum price and any other input sets it. Nothing else changes, and the emitted filters are the stored ones |
| SpotFilters.UniqueStatuses | components/spot-filters.tsx:35 | The status buttons are the zones' statuses, each once, in order of first appearance |
| SpotFilters.StatusStyle | components/spot-filters.tsx:67-91 | 'Свободен' is green, 'Занят' red, 'В ожидании' blue and everything else gray. Selection decides only whether the style is filled |
| SpotFilters.SelectionKeepsTone | components/spot-filters.tsx:67-91 | Selecting a button never changes its colour, and the English VACANT/OCCUPIED labels are gray |
| MonthButton.ButtonStyle | components/month-button.tsx:16-27 | Pending wins over unavailable, which wins over selected, which wins over the default |
| MonthButton.SelectionMattersOnlyWhenActive | components/month-button.tsx:16-27 | Selection affects the style only of an available, non-pending month |
| MonthButton.Render | components/month-button.tsx:11-33 | A button is clickable exactly when it is available, and it shows the style its flags select |
| MonthButton.AbsentFlagsAreFalse | components/month-button.tsx:11 | Omitted pending and selected flags behave as false |
| DmpList.HandleSpotFilterChange | components/dmp-list.tsx:26-35 | A zone is kept exactly when its equipment, category and status each pass (an empty list passes everything). Each kept zone appears as often as in the input, in input order |
| DmpList.SearchAndPriceIgnored | components/dmp-list.tsx:26-35 | The search term and the maximum price have no effect on the zones shown |
| DmpList.UnfilteredAfterSearch | components/dmp-list.tsx:26-35 | A search with nothing else chosen shows every zone |
| DmpList.Step | components/dmp-list.tsx:71-86 | Back decrements and Forward increments the window offset, clamped to [0, 6] |
| DmpList.DisabledArrowIsNoOp | components/dmp-list.tsx:71-86 | A disabled arrow would leave the offset as it is |
| DmpList.ReachableOffsetsInRange | components/dmp-list.tsx:18-86 | Starting from 0, any run of clicks keeps the offset in [0, 6] |
| DmpList.AddMonths | components/dmp-list.tsx:22 | Adding i months to a (year, month) pair yields the pair i months later, with the month normalised to 0..11 |
| DmpList.Months | components/dmp-list.tsx:20-24 | The twelve months start at the current one, and each is the calendar successor of the one before |
| DmpList.VisibleMonths | components/dmp-list.tsx:37 | For an offset in [0, 6], the window is the six months starting at that offset |
| DmpList.WindowIsSixConsecutiveMonths | components/dmp-list.tsx:18-86 | Every reachable window is six consecutive months, starting `offset` months after the current month |
| DmpList.StatusText | components/dmp-list.tsx:104-111 | A row reads 'Свободно' exactly when the status is 'VACANT', and 'Занято' otherwise |
| DmpList.RenderRow | components/dmp-list.tsx:104-125 | There is one month button per visible month, and a button is clickable exactly when the zone's status is 'VACANT' |
| DmpList.RowButtonsUniform | components/dmp-list.tsx:115-125 | All buttons of a row share style and clickability |
| AdminRegistration.Register | app/api/auth/admin/route.ts:7-66 | A missing name, e-mail, password or secret gives 400. Otherwise a secret that is unset or different gives 403, and an e-mail already registered gives 400. Otherwise an admin is created with the hashed password, and the response carries the stored row minus the password |
| AdminRegistration.CheckOrder | app/api/auth/admin/route.ts:11-50 | The status codes follow the check order: 400 for missing fields comes first, 403 comes before the e-mail lookup, and 201 is reached only past all three |
| AdminRegistration.PhoneIsOptional | app/api/auth/admin/route.ts:9-16 | The phone field does not affect the outcome |
| AdminRegistration.UnsetSecretRejectsAll | app/api/auth/admin/route.ts:5-24 | Without a configured secret every request is refused |
| AdminRegistration.ResponseIsStoredMinusPassword | app/api/auth/admin/route.ts:53-61 | The response keeps every stored field but the password |
| StoreListWrapper.Init | components/store-list-wrapper.tsx:18-21 | The state starts on page 1 with the server-provided stores, size and total |
| StoreListWrapper.PageChange | components/store-list-wrapper.tsx:49-51 | Only the page changes |
| StoreListWrapper.ItemsPerPageChange | components/store-list-wrapper.tsx:53-56 | The size changes and the page resets to 1; nothing else changes |
| StoreListWrapper.InitialStateDoesNotRefetch | components/store-list-wrapper.tsx:18-47 | The first render does not refetch |
| StoreListWrapper.ResizeRefetchesIffSizeChanges | components/store-list-wrapper.tsx:43-56 | After a resize, a refetch happens exactly when the new size differs from the prop |
| StoreListWrapper.TotalPages | components/store-list-wrapper.tsx:65 | The page count is the least count that covers the total |
| StoreListWrapper.ApplyFetch | components/store-list-wrapper.tsx:24-41 | A failed fetch leaves the state as it was. A successful one replaces the stores and the total and keeps page and size |
| StoreListWrapper.FetchAgreesWithRoute | components/store-list-wrapper.tsx:24-65 | After fetching the current page, the page count shown equals the route's and the stores shown are the route's page |
| StoreListWrapper.Handle | components/store-list-wrapper.tsx:49-56 | A page or size change keeps page and size at least 1 when both were |
| StoreListWrapper.Fetched | components/store-list-wrapper.tsx:24-41 | A fetch of the current page shows the route's page and records the page and size it was served for |
| StoreListWrapper.RunAsWritten | components/store-list-wrapper.tsx:43-56 | Runs of page and size changes under the effect as written keep page and size at least 1 |
| StoreListWrapper.BackToFirstPageShowsSecond | components/store-list-wrapper.tsx:43-47 | Going to page 2 and back to page 1 fetches nothing the second time, so page 2's stores stay on screen; with between one and two pages of stores this is not page 1 |
| StoreListWrapper.Run | components/store-list-wrapper.tsx:43-56 | The same runs with the corrected refetch condition keep page and size at least 1 |
| StoreListWrapper.RunShowsCurrentPage | components/store-list-wrapper.tsx:24-56 | With the corrected condition, from a state showing its own page, every run of changes ends showing the route's page for the current page and size |
| StoreListWrapper.FromFirstRenderShowsCurrentPage | components/store-list-wrapper.tsx:18-56 | With the corrected condition the first render still fetches nothing, and after any run of changes the stores shown are the current page |
| Pipeline.RouteNeverSaysVacant | app/api/stores/route.ts:7-14 | No served zone has status 'VACANT' or 'OCCUPIED' |
| Pipeline.TableShowsEveryZoneOccupied | components/dmp-list.tsx:104-125 | Every zone from the route is shown as 'Занято' in the table, with no clickable month |
| Pipeline.CardAndTableDisagree | components/store-card.tsx:15 | A zone without bookings counts as available on the card but shows as occupied in the table |
| Pipeline.FilterButtonsKnowRouteLabels | components/spot-filters.tsx:67-91 | A served zone's status button is green exactly when the zone has no bookings, and red otherwise |
| Pipeline.NewBookingOccupiesZone | app/api/bookings/route.ts:85-93 | A booking just created, still PENDING, already makes its zone taken |

## Left out

- The status-change handler `app/api/bookings/[bookingId]/route.ts` is not part of this model. The admin panel sees its answer only as `Ok`, `NotOk` or `Threw`.
- Rendering is not modelled: JSX layout, CSS classes (reduced to tone and style tags), icons, loading spinners and month names from `toLocaleString`. Only what decides content is modelled.
- React scheduling is not modelled: when effects run, and the state that `handleBookingAction` closes over when two actions overlap. `AdminPage.AfterAction` filters the list it is given.
- The 500 answers of every route are not modelled. These come from JSON that fails to parse, database errors and Prisma request errors. They depend on I/O outside the model.
- HTTP status codes appear only as outcome constructors. The one exception is `AdminRegistration.StatusCode`, which maps outcomes to codes.
- The related records that the listing queries include are not modelled: the zone, the store and the user's name and e-mail. They do not affect which bookings are returned or in what order.
- Bookings.OrderNewestFirst: the order among bookings created at the same instant is not specified. The database leaves it open; the model's stable sort is one choice among several.
- Dates are integers, so `Date` objects, ISO strings and the UTC shift of `toISOString` are not modelled. `DmpList.AddMonths` models the month arithmetic of `new Date(year, month + i, 1)` on (year, month) pairs.
- Prices are integers. The source's prices are floating-point numbers.
- Stores.GetStores: requires the resolved page and limit to be at least 1. Other values are not modelled. A non-numeric parameter makes `parseInt` yield `NaN`. A page below 1 with a positive limit gives a negative `skip`. A negative limit gives the database a negative `take`, which counts back from the end of the list, and makes `totalPages` zero or negative. A limit of 0 divides by zero in `totalPages`.
- StoreListWrapper.TotalPages: requires a positive page size. The component divides by whatever size it holds.
- StoreListWrapper.RunAsWritten: fetches always succeed and page and size changes are at least 1. A failed fetch leaves the state as `ApplyFetch` states. A request that overtakes an earlier one is not modelled.
- `toLowerCase` is a per-character parameter of `StoreFilters.FilterStores`. Unicode case mappings that change a string's length are not modelled.
- SpotFilters.INITIAL: the model gives `equipment` an empty list. The source's initial state omits it, so at run time `filters.equipment.length` in the zone table would throw on the first filter change.
- The session comes from next-auth and is an input. Password hashing (bcrypt) is an input, and so are the `ADMIN_SECRET` environment variable, database ids and timestamps.
- Selecting a zone and month in the table only stores that choice for the booking modal. The modal and the remaining pages are outside the core and are not modelled: login, registration, profile, the home page, new booking and layout.

## Findings

| source | as written | input that shows it | evidently intended | confidence | as-written member | corrected member |
|---|---|---|---|---|---|---|
| components/store-list-wrapper.tsx:43-47 | The effect refetches only when the page is not 1 or the size differs from the prop. Returning to page 1 at the initial size therefore fetches nothing | 20 stores, 15 per page: go to page 2, then back to page 1. The list still shows stores 16-20, page 2's five stores. Latent: `components/store-list.tsx:8-12` takes only `stores`, so nothing calls `onPageChange`, and `app/page.tsx:72` renders `StoreList` without the wrapper | Refetch whenever the page or size differs from the one the shown stores were served for, so the list always shows the current page | medium: the effect's logic is as described, but latent until a child calls `onPageChange`; not executed | StoreListWrapper.BackToFirstPageShowsSecond | StoreListWrapper.FromFirstRenderShowsCurrentPage |

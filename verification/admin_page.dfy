/** The admin panel (app/admin/page.tsx): two tabs, the actions each tab
    offers, and what a status change does to the list on screen. The
    request the actions send is answered by a handler outside this model;
    its answer is an input here. */
module AdminPage {

  import opened Wrappers
  import opened Seqs
  import opened Bookings
  import BookingsPage

  datatype Tab = PendingTab | ApprovedTab

  const INITIAL_TAB: Tab := PendingTab

  /** The status a tab lists, sent as the `status` query parameter. */
  function TabStatus(tab: Tab): string {
    match tab
    case PendingTab => PENDING
    case ApprovedTab => APPROVED
  }

  datatype Action = Reject | Approve | Book

  /** The status an action asks for. */
  function Target(a: Action): string {
    match a
    case Reject => REJECTED
    case Approve => APPROVED
    case Book => BOOKED
  }

  /** The booking workflow: PENDING may become APPROVED or REJECTED, and
      APPROVED may become BOOKED. */
  predicate WorkflowStep(from: string, to: string) {
    (from == PENDING && (to == APPROVED || to == REJECTED)) ||
    (from == APPROVED && to == BOOKED)
  }

  /** The buttons each tab renders for a booking, in screen order. */
  function OfferedActions(tab: Tab): (acts: seq<Action>)
    ensures forall a :: a in acts <==> WorkflowStep(TabStatus(tab), Target(a))
    ensures NoDuplicates(acts)
  {
    match tab
    case PendingTab => [Reject, Approve]
    case ApprovedTab => [Book]
  }

  /** No tab offers a jump from PENDING straight to BOOKED, and nothing is
      offered from REJECTED or BOOKED (no tab lists them). */
  lemma NoShortcutToBooked(tab: Tab)
    ensures TabStatus(tab) == PENDING ==> Book !in OfferedActions(tab)
    ensures TabStatus(tab) != REJECTED && TabStatus(tab) != BOOKED
  {
  }

  function IsAdmin(session: Session): bool {
    session.Some? && session.value.role == Some(ADMIN_ROLE)
  }

  /** The listing request of the tab effect: only for an admin session,
      with the active tab's status. */
  function FetchRequest(session: Session, tab: Tab): (req: Option<string>)
    ensures req.Some? <==> IsAdmin(session)
    ensures req.Some? ==> req.value == TabStatus(tab) && Truthy(req)
  {
    if IsAdmin(session) then Some(TabStatus(tab)) else None
  }

  /** The page opens on the PENDING tab, so an admin's first request asks
      for pending bookings; a non-admin session sends none. */
  lemma FirstRequestIsPending(session: Session)
    ensures IsAdmin(session) ==> FetchRequest(session, INITIAL_TAB) == Some(PENDING)
    ensures !IsAdmin(session) ==> FetchRequest(session, INITIAL_TAB).None?
  {
  }

  /** The tab's request, answered by the listing route for a user the
      server knows as an admin, yields exactly the bookings in the tab's
      status. */
  lemma TabListsItsStatus(session: Session, users: seq<User>, tab: Tab, all: seq<Booking>)
    requires IsAdmin(session)
    requires FindUserByEmail(users, session.value.email).Some?
    requires FindUserByEmail(users, session.value.email).value.role == ADMIN_ROLE
    ensures var r := ListBookings(session, users, FetchRequest(session, tab), all);
            && r.Listed?
            && forall b :: b in r.bookings <==> b in all && b.status == TabStatus(tab)
  {
    AdminStatusFilter(session, users, TabStatus(tab), all);
  }

  /** How the status-change request ended. */
  datatype Response = Ok | NotOk | Threw

  /** `handleBookingAction` after the request: on success the booking
      leaves the list; otherwise the list stays as it was. */
  function AfterAction(bookings: seq<Booking>, bookingId: int, response: Response): (r: seq<Booking>)
    ensures response != Ok ==> r == bookings
    ensures response == Ok ==>
              && (forall b :: b in r <==> b in bookings && b.id != bookingId)
              && IsSubsequence(r, bookings)
              && forall b :: multiset(r)[b] == if b.id != bookingId then multiset(bookings)[b] else 0
  {
    var keep := (b: Booking) => b.id != bookingId;
    FilterMultiplicity(keep, bookings);
    if response == Ok then Filter(keep, bookings) else bookings
  }

  predicate UniqueIds(bs: seq<Booking>) {
    forall i, j :: 0 <= i < j < |bs| ==> bs[i].id != bs[j].id
  }

  /** With distinct ids, a successful action on a listed booking shortens
      the list by exactly one. */
  lemma {:induction false} SuccessRemovesOne(bookings: seq<Booking>, bookingId: int)
    requires UniqueIds(bookings)
    requires exists i :: 0 <= i < |bookings| && bookings[i].id == bookingId
    ensures |AfterAction(bookings, bookingId, Ok)| == |bookings| - 1
    decreases |bookings|
  {
    var rest := bookings[1..];
    assert UniqueIds(rest) by {
      forall i, j | 0 <= i < j < |rest| ensures rest[i].id != rest[j].id {
        assert rest[i] == bookings[i + 1] && rest[j] == bookings[j + 1];
      }
    }
    if bookings[0].id == bookingId {
      forall i | 0 <= i < |rest| ensures rest[i].id != bookingId {
        assert rest[i] == bookings[i + 1];
      }
      assert Filter((b: Booking) => b.id != bookingId, rest) == rest;
    } else {
      var i :| 0 <= i < |bookings| && bookings[i].id == bookingId;
      assert rest[i - 1].id == bookingId;
      SuccessRemovesOne(rest, bookingId);
    }
  }

  /** The badge every card of a tab shows: it follows the tab, not the
      booking's own status. */
  datatype Badge = Badge(text: string, tone: BookingsPage.Tone)

  function TabBadge(tab: Tab): (badge: Badge)
    ensures badge.text == BookingsPage.StatusText(TabStatus(tab))
    ensures badge.tone == BookingsPage.StatusBadge(TabStatus(tab))
  {
    match tab
    case PendingTab => Badge("На рассмотрении", BookingsPage.Yellow)
    case ApprovedTab => Badge("Подтверждено", BookingsPage.Green)
  }

  datatype Card = Card(bookingId: int, badge: Badge, actions: seq<Action>)

  datatype View =
    | AccessDenied
    | Panel(tab: Tab, cards: seq<Card>, emptyNotice: bool)

  /** What the page renders. */
  function Render(session: Session, tab: Tab, bookings: seq<Booking>): (v: View)
    ensures v.AccessDenied? <==> !IsAdmin(session)
    ensures v.Panel? ==>
              && v.tab == tab
              && |v.cards| == |bookings|
              && (v.emptyNotice <==> |bookings| == 0)
              && forall i :: 0 <= i < |bookings| ==>
                   && v.cards[i].bookingId == bookings[i].id
                   && v.cards[i].badge == TabBadge(tab)
                   && (forall a :: a in v.cards[i].actions <==> WorkflowStep(TabStatus(tab), Target(a)))
  {
    if !IsAdmin(session) then AccessDenied
    else
      var cards := seq(|bookings|, i requires 0 <= i < |bookings| =>
                         Card(bookings[i].id, TabBadge(tab), OfferedActions(tab)));
      Panel(tab, cards, |bookings| == 0)
  }
}

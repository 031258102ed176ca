/** The customer's booking list (app/bookings/page.tsx): the badge colour
    and the label shown for a booking status. */
module BookingsPage {

  import opened Wrappers
  import opened Bookings

  /** The badge colours; the CSS classes behind them are not modelled. */
  datatype Tone = Yellow | Green | Red | Gray

  const PENDING_TEXT: string := "На рассмотрении"
  const APPROVED_TEXT: string := "Подтверждено"
  const REJECTED_TEXT: string := "Отклонено"

  /** The statuses both switches name; BOOKED is not one of them. */
  predicate KnownStatus(status: string) {
    status == PENDING || status == APPROVED || status == REJECTED
  }

  /** `getStatusBadgeClass` */
  function StatusBadge(status: string): (t: Tone)
    ensures t == Gray <==> !KnownStatus(status)
    ensures status == PENDING ==> t == Yellow
    ensures status == APPROVED ==> t == Green
    ensures status == REJECTED ==> t == Red
  {
    if status == PENDING then Yellow
    else if status == APPROVED then Green
    else if status == REJECTED then Red
    else Gray
  }

  /** `getStatusText` */
  function StatusText(status: string): (text: string)
    ensures status == PENDING ==> text == PENDING_TEXT
    ensures status == APPROVED ==> text == APPROVED_TEXT
    ensures status == REJECTED ==> text == REJECTED_TEXT
    ensures !KnownStatus(status) ==> text == status
  {
    if status == PENDING then PENDING_TEXT
    else if status == APPROVED then APPROVED_TEXT
    else if status == REJECTED then REJECTED_TEXT
    else status
  }

  /** The text is the status itself exactly on the default branch, and the
      badge is gray exactly there too: a BOOKED booking shows the raw word
      "BOOKED" on a gray badge. */
  lemma DefaultBranchesAgree(status: string)
    ensures StatusText(status) == status <==> !KnownStatus(status)
    ensures StatusText(status) == status <==> StatusBadge(status) == Gray
  {
  }

  lemma BookedFallsThrough()
    ensures StatusBadge(BOOKED) == Gray && StatusText(BOOKED) == BOOKED
  {
  }

  /** The three known statuses get three different labels. */
  lemma KnownLabelsDistinct(a: string, b: string)
    requires KnownStatus(a) && KnownStatus(b) && a != b
    ensures StatusText(a) != StatusText(b)
    ensures StatusBadge(a) != StatusBadge(b)
  {
  }

  /** The page requests `/api/bookings`, without a status parameter, only
      when a session user exists. `None` is "no request"; `Some(param)` is
      a request with that status parameter. */
  function FetchRequest(session: Session): (req: Option<Option<string>>)
    ensures req.Some? <==> session.Some?
    ensures req.Some? ==> req.value.None?
  {
    if session.Some? then Some(None) else None
  }

  /** What the page shows for a signed-in customer: exactly their own
      bookings. */
  lemma CustomerPageShowsOwn(session: Session, users: seq<User>, all: seq<Booking>)
    requires session.Some?
    requires FindUserByEmail(users, session.value.email).Some?
    requires FindUserByEmail(users, session.value.email).value.role != ADMIN_ROLE
    ensures var r := ListBookings(session, users, FetchRequest(session).value, all);
            && r.Listed?
            && forall b :: b in r.bookings <==>
                 b in all && b.userId == FindUserByEmail(users, session.value.email).value.id
  {
    CustomerSeesOnlyOwn(session, users, None, None, all);
  }

  /** For an admin the same page, titled "my bookings", lists every
      booking of every user, since it sends no status parameter. */
  lemma AdminPageShowsEveryone(session: Session, users: seq<User>, all: seq<Booking>)
    requires session.Some?
    requires FindUserByEmail(users, session.value.email).Some?
    requires FindUserByEmail(users, session.value.email).value.role == ADMIN_ROLE
    ensures var r := ListBookings(session, users, FetchRequest(session).value, all);
            r.Listed? && multiset(r.bookings) == multiset(all)
  {
    AdminSeesAll(session, users, None, all);
  }
}

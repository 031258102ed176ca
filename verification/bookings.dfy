/** The bookings route (app/api/bookings/route.ts): who sees which bookings
    on GET, and what a POST stores. The database is a sequence of records;
    `findMany` is a filter followed by an ordering, `findUnique` by e-mail
    is a search of the user table. */
module Bookings {

  import opened Wrappers
  import opened Seqs

  const PENDING: string := "PENDING"
  const APPROVED: string := "APPROVED"
  const REJECTED: string := "REJECTED"
  const BOOKED: string := "BOOKED"

  /** The one role string the application tests for; every other role is
      treated as a customer. */
  const ADMIN_ROLE: string := "admin"

  datatype User = User(id: int, email: string, role: string)

  /** A stored booking. The status is kept as a string because the listing
      route filters by whatever status string it is given. Dates and the
      creation time are instants, as integers. */
  datatype Booking = Booking(
    id: int,
    zoneId: int,
    userId: int,
    startDate: int,
    endDate: int,
    totalPrice: int,
    status: string,
    createdAt: int)

  /** The signed-in user as the session carries it: the server reads the
      e-mail, the client pages read the role. */
  datatype SessionUser = SessionUser(email: string, role: Option<string>)

  type Session = Option<SessionUser>

  /** The `where` object of the listing query: an absent field does not
      restrict. */
  datatype WhereClause = WhereClause(status: Option<string>, userId: Option<int>)

  /** `prisma.user.findUnique({ where: { email } })`. */
  function FindUserByEmail(users: seq<User>, email: string): (r: Option<User>)
    ensures r.Some? ==> r.value in users && r.value.email == email
    ensures r.None? <==> forall u :: u in users ==> u.email != email
  {
    if |users| == 0 then None
    else if users[0].email == email then Some(users[0])
    else FindUserByEmail(users[1..], email)
  }

  /** JavaScript truthiness of the `status` query parameter: absent
      (`null`) and empty are both false. */
  predicate Truthy(s: Option<string>) {
    s.Some? && s.value != ""
  }

  /** Which bookings a user may see, written from the role rules alone:
      a customer sees exactly their own bookings whatever the status
      parameter says; an admin sees everything, narrowed to one status
      only when a non-empty status is given. */
  predicate Visible(user: User, status: Option<string>, b: Booking) {
    if user.role == ADMIN_ROLE then !Truthy(status) || b.status == status.value
    else b.userId == user.id
  }

  predicate Matches(w: WhereClause, b: Booking) {
    (w.status.None? || b.status == w.status.value) &&
    (w.userId.None? || b.userId == w.userId.value)
  }

  /** The where-clause computation of GET. */
  function ComputeWhere(user: User, status: Option<string>): (w: WhereClause)
    ensures forall b :: Matches(w, b) <==> Visible(user, status, b)
    ensures user.role != ADMIN_ROLE ==> w.status.None?
    ensures user.role == ADMIN_ROLE ==> w.userId.None?
  {
    if user.role == ADMIN_ROLE && Truthy(status) then WhereClause(Some(status.value), None)
    else if user.role != ADMIN_ROLE then WhereClause(None, Some(user.id))
    else WhereClause(None, None)
  }

  /** Newest first: `orderBy: { createdAt: 'desc' }`. */
  predicate NewestFirst(bs: seq<Booking>) {
    forall i, j :: 0 <= i < j < |bs| ==> bs[i].createdAt >= bs[j].createdAt
  }

  function OrderNewestFirst(bs: seq<Booking>): (r: seq<Booking>)
    ensures NewestFirst(r)
    ensures multiset(r) == multiset(bs)
  {
    var r := SortBy((b: Booking) => -b.createdAt, bs);
    assert forall i, j :: 0 <= i < j < |r| ==> -r[i].createdAt <= -r[j].createdAt;
    r
  }

  datatype ListResult =
    | ListUnauthorized                   // 401, no session
    | ListUserNotFound                   // 404, the session's e-mail has no user
    | Listed(bookings: seq<Booking>)

  /** GET /api/bookings?status=… */
  function ListBookings(session: Session, users: seq<User>, status: Option<string>,
                        all: seq<Booking>): (r: ListResult)
    ensures session.None? <==> r.ListUnauthorized?
    ensures r.ListUserNotFound? <==>
              session.Some? && FindUserByEmail(users, session.value.email).None?
    ensures r.Listed? ==>
              var user := FindUserByEmail(users, session.value.email).value;
              && NewestFirst(r.bookings)
              && (forall b :: b in r.bookings <==> b in all && Visible(user, status, b))
              && multiset(r.bookings) == multiset(Filter((b: Booking) => Visible(user, status, b), all))
  {
    if session.None? then ListUnauthorized
    else
      match FindUserByEmail(users, session.value.email)
      case None => ListUserNotFound
      case Some(user) =>
        var w := ComputeWhere(user, status);
        var selected := Filter((b: Booking) => Matches(w, b), all);
        assert selected == Filter((b: Booking) => Visible(user, status, b), all) by {
          FilterCongruent((b: Booking) => Matches(w, b), (b: Booking) => Visible(user, status, b), all);
        }
        var r := OrderNewestFirst(selected);
        assert forall b :: b in r <==> b in multiset(r);
        Listed(r)
  }

  /** A customer receives exactly their own bookings, and the status
      parameter makes no difference. */
  lemma CustomerSeesOnlyOwn(session: Session, users: seq<User>, status: Option<string>,
                            other: Option<string>, all: seq<Booking>)
    requires session.Some?
    requires FindUserByEmail(users, session.value.email).Some?
    requires FindUserByEmail(users, session.value.email).value.role != ADMIN_ROLE
    ensures ListBookings(session, users, status, all).Listed?
    ensures var user := FindUserByEmail(users, session.value.email).value;
            forall b :: b in ListBookings(session, users, status, all).bookings <==>
                          b in all && b.userId == user.id
    ensures ListBookings(session, users, status, all) == ListBookings(session, users, other, all)
  {
  }

  /** An admin with a non-empty status parameter receives every booking in
      that status, of every user, and nothing else. */
  lemma AdminStatusFilter(session: Session, users: seq<User>, status: string, all: seq<Booking>)
    requires session.Some?
    requires FindUserByEmail(users, session.value.email).Some?
    requires FindUserByEmail(users, session.value.email).value.role == ADMIN_ROLE
    requires status != ""
    ensures ListBookings(session, users, Some(status), all).Listed?
    ensures forall b :: b in ListBookings(session, users, Some(status), all).bookings <==>
                          b in all && b.status == status
  {
  }

  /** An admin without a status parameter, or with an empty one, receives
      all bookings: the same multiset, newest first. */
  lemma AdminSeesAll(session: Session, users: seq<User>, status: Option<string>, all: seq<Booking>)
    requires session.Some?
    requires FindUserByEmail(users, session.value.email).Some?
    requires FindUserByEmail(users, session.value.email).value.role == ADMIN_ROLE
    requires !Truthy(status)
    ensures ListBookings(session, users, status, all).Listed?
    ensures multiset(ListBookings(session, users, status, all).bookings) == multiset(all)
  {
    var user := FindUserByEmail(users, session.value.email).value;
    assert Filter((b: Booking) => Visible(user, status, b), all) == all;
  }

  /** The body of POST as the handler receives it. A client may send
      `status` or `userId` as well; the handler never reads them. */
  datatype BookingBody = BookingBody(
    zoneId: int,
    startDate: int,
    endDate: int,
    totalPrice: int,
    status: Option<string>,
    userId: Option<int>)

  datatype CreateResult =
    | CreateUnauthorized                 // 401
    | CreateUserNotFound                 // 404
    | Created(booking: Booking)

  /** POST /api/bookings. The record id and the creation time are assigned
      by the database; here they are the parameters `newId` and `now`. */
  function CreateBooking(session: Session, users: seq<User>, body: BookingBody,
                         newId: int, now: int): (r: CreateResult)
    ensures session.None? <==> r.CreateUnauthorized?
    ensures r.CreateUserNotFound? <==>
              session.Some? && FindUserByEmail(users, session.value.email).None?
    ensures r.Created? ==>
              && r.booking.status == PENDING
              && r.booking.userId == FindUserByEmail(users, session.value.email).value.id
              && r.booking.zoneId == body.zoneId
              && r.booking.startDate == body.startDate
              && r.booking.endDate == body.endDate
              && r.booking.totalPrice == body.totalPrice
              && r.booking.id == newId
              && r.booking.createdAt == now
  {
    if session.None? then CreateUnauthorized
    else
      match FindUserByEmail(users, session.value.email)
      case None => CreateUserNotFound
      case Some(user) =>
        Created(Booking(newId, body.zoneId, user.id, body.startDate, body.endDate,
                        body.totalPrice, PENDING, now))
  }

  /** Whatever status or owner the client puts in the body, the stored
      booking is the same: PENDING and owned by the session user. */
  lemma CreateIgnoresClientStatusAndOwner(session: Session, users: seq<User>, body: BookingBody,
                                          status: Option<string>, userId: Option<int>,
                                          newId: int, now: int)
    ensures CreateBooking(session, users, body, newId, now) ==
            CreateBooking(session, users, body.(status := status, userId := userId), newId, now)
  {
  }

  /** The handler validates neither the date range nor the price: an
      inverted range or a non-positive price is stored like any other. */
  lemma CreateDoesNotValidate(session: Session, users: seq<User>, body: BookingBody,
                              newId: int, now: int)
    requires session.Some? && FindUserByEmail(users, session.value.email).Some?
    requires body.endDate < body.startDate || body.totalPrice <= 0
    ensures var r := CreateBooking(session, users, body, newId, now);
            && r.Created?
            && r.booking.startDate == body.startDate && r.booking.endDate == body.endDate
            && r.booking.totalPrice == body.totalPrice
  {
  }
}

/** What the label mismatch between the stores route and the zone table
    does once the pieces are put together: the route labels zones
    'Свободен' or 'Занят', the store card counts 'Свободен', and the zone
    table (reached from the card) tests for 'VACANT'. */
module Pipeline {

  import opened Wrappers
  import opened Seqs
  import opened Bookings
  import opened Stores
  import StoreCard
  import DmpList
  import MonthButton
  import SpotFilters

  /** No zone the route serves is ever 'VACANT'. */
  lemma RouteNeverSaysVacant(z: ZoneRecord)
    ensures ProjectZone(z).status != DmpList.VACANT
    ensures ProjectZone(z).status != "OCCUPIED"
  {
  }

  /** So the zone table marks every zone it receives from the route
      'Занято' and attaches no click handler to any of its month buttons,
      whether the zone has bookings or not. */
  lemma TableShowsEveryZoneOccupied(z: ZoneRecord, visible: seq<MonthButton.YearMonth>)
    ensures var row := DmpList.RenderRow(ProjectZone(z), visible);
            && row.statusText == DmpList.OCCUPIED_TEXT
            && forall i :: 0 <= i < |visible| ==> !row.buttons[i].clickable
  {
  }

  /** A zone with no bookings is counted as free on the store card and yet
      shown as occupied, with no selectable month, in the table the card
      opens. */
  lemma CardAndTableDisagree(z: ZoneRecord, visible: seq<MonthButton.YearMonth>)
    requires z.bookings.None? || |z.bookings.value| == 0
    ensures StoreCard.AvailableCount([ProjectZone(z)]) == 1
    ensures DmpList.RenderRow(ProjectZone(z), visible).statusText == DmpList.OCCUPIED_TEXT
  {
    assert StoreCard.LabelledFree(ProjectZone(z));
  }

  /** The status filter buttons do know the route's labels: a free zone's
      button is green and a booked zone's is red. */
  lemma FilterButtonsKnowRouteLabels(z: ZoneRecord, isSelected: bool)
    ensures var tone := SpotFilters.StatusStyle(ProjectZone(z).status, isSelected).tone;
            (z.bookings.None? || |z.bookings.value| == 0 <==> tone == SpotFilters.GreenTone) &&
            (tone == SpotFilters.GreenTone || tone == SpotFilters.RedTone)
  {
  }

  /** Creating a booking makes its zone taken at once, while the booking is
      still PENDING. */
  lemma NewBookingOccupiesZone(session: Session, users: seq<User>, body: BookingBody,
                               newId: int, now: int, z: ZoneRecord)
    requires CreateBooking(session, users, body, newId, now).Created?
    ensures var b := CreateBooking(session, users, body, newId, now).booking;
            var existing := if z.bookings.Some? then z.bookings.value else [];
            && b.status == PENDING
            && ProjectZone(z.(bookings := Some(existing + [b]))).status == TAKEN
  {
  }
}

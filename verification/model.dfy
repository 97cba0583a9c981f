/** The two record types stored by the parking application: a parking space and
    a reservation of one space by one driver. Times are milliseconds since the
    epoch; a timestamp the record may lack is an `Option`. */
module Model {

  datatype Option<+T> = None | Some(value: T)

  /** Milliseconds since the epoch. */
  type Millis = int

  const HourMs: int := 60 * 60 * 1000

  /** A reservation lasts two hours from the moment it is granted. */
  const ReservationDurationMs: int := 2 * HourMs

  /** The hourly rate a space gets when none is given. */
  const DefaultHourlyRate: real := 5.0

  /** The lifecycle state of a reservation. The stored field is a string; the
      application only ever writes one of these three names. */
  datatype Status = Active | Expired | Completed

  function StatusName(s: Status): string
  {
    match s
    case Active => "active"
    case Expired => "expired"
    case Completed => "completed"
  }

  /** Reads a stored status string; any other string is no status at all. */
  function ParseStatus(text: string): (s: Option<Status>)
    ensures s.Some? <==> text in {"active", "expired", "completed"}
  {
    if text == "active" then Some(Active)
    else if text == "expired" then Some(Expired)
    else if text == "completed" then Some(Completed)
    else None
  }

  /** The three names are distinct and each reads back as its own status. */
  lemma StatusNameRoundTrip(s: Status, text: string)
    ensures ParseStatus(StatusName(s)) == Some(s)
    ensures ParseStatus(text) == Some(s) <==> text == StatusName(s)
  {
  }

  /** A parking space. `id` is the storage key; `spaceNumber` is the label shown
      to people ("A-01"). */
  datatype ParkingSpace = ParkingSpace(
    id: string,
    spaceNumber: string,
    isOccupied: bool,
    reservedByUid: Option<string>,
    reservationExpiry: Option<Millis>,
    hourlyRate: real)

  /** A space is free exactly when it has neither a holder nor an expiry. */
  predicate WellFormed(s: ParkingSpace)
  {
    s.isOccupied == s.reservedByUid.Some? && s.isOccupied == s.reservationExpiry.Some?
  }

  /** The record built from the data class defaults. */
  function DefaultSpace(): (s: ParkingSpace)
    ensures WellFormed(s) && !s.isOccupied
    ensures s.hourlyRate == DefaultHourlyRate
  {
    ParkingSpace("", "", false, None, None, DefaultHourlyRate)
  }

  /** A reservation: who holds which space, from when until when. It refers to
      its space by `spaceId` and copies the space's label for display. */
  datatype Reservation = Reservation(
    id: string,
    userId: string,
    spaceId: string,
    spaceNumber: string,
    startTime: Option<Millis>,
    endTime: Option<Millis>,
    status: Status)

  /** The record built from the data class defaults. */
  function DefaultReservation(): (r: Reservation)
    ensures r.status == Active
    ensures r.startTime.None? && r.endTime.None?
  {
    Reservation("", "", "", "", None, None, Active)
  }
}

/** The expiry warning: an alarm ten minutes before a reservation ends, kept in
    the operating system's alarm table under the reservation's id. */
module Alarms {
  import opened Model

  /** Ten minutes, in milliseconds. */
  const WarningMsBeforeExpiry: int := 10 * 60 * 1000

  /** When the warning for `r` should fire, seen at time `now`: nothing when the
      reservation has no end time or when that moment is not after `now`. */
  function WarningTrigger(r: Reservation, now: Millis): (t: Option<Millis>)
    ensures t.Some? <==> r.endTime.Some? && r.endTime.value - WarningMsBeforeExpiry > now
    ensures t.Some? ==> now < t.value && t.value + 600000 == r.endTime.value
  {
    match r.endTime
    case None => None
    case Some(reservationExpiryTime) =>
      var triggerAtMillis := reservationExpiryTime - WarningMsBeforeExpiry;
      if triggerAtMillis <= now then None else Some(triggerAtMillis)
  }

  /** A reservation granted at `start` gets its warning at one hour fifty minutes
      after `start`, as long as that moment has not passed. */
  lemma FreshReservationWarning(r: Reservation, start: Millis, now: Millis)
    requires r.startTime == Some(start) && r.endTime == Some(start + ReservationDurationMs)
    ensures now < start + 6600000 ==> WarningTrigger(r, now) == Some(start + 6600000)
    ensures now >= start + 6600000 ==> WarningTrigger(r, now) == None
  {
  }

  /** The alarms the operating system holds for this application, keyed by
      reservation id. */
  class AlarmTable {
    var pending: map<string, Millis>

    constructor ()
      ensures pending == map[]
    {
      pending := map[];
    }

    /** Registers the warning for `r`; an exact alarm when the system allows
        one, an inexact one otherwise, at the same trigger time either way.
        A second registration for the same id replaces the first. */
    method ScheduleReservationWarning(r: Reservation, now: Millis, canScheduleExact: bool)
      modifies this
      ensures WarningTrigger(r, now).None? ==> pending == old(pending)
      ensures WarningTrigger(r, now).Some? ==>
                pending == old(pending)[r.id := WarningTrigger(r, now).value]
    {
      if r.endTime.None? {
        return;
      }
      var triggerAtMillis := r.endTime.value - WarningMsBeforeExpiry;
      if triggerAtMillis <= now {
        return;
      }
      if !canScheduleExact {
        pending := pending[r.id := triggerAtMillis];
        return;
      }
      pending := pending[r.id := triggerAtMillis];
    }

    /** Removes the warning registered for `r`'s id, if any. */
    method CancelReservationWarning(r: Reservation)
      modifies this
      ensures pending == old(pending) - {r.id}
    {
      pending := pending - {r.id};
    }
  }
}

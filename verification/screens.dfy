/** The screens' own state and guards: the driver dashboard's known active
    reservation and the alarm bookkeeping around it, the admin dashboard's dialog
    and tallies, and the registration screen. */
module Screens {
  import opened Model
  import opened Repository
  import opened ViewModels
  import opened Alarms
  import opened Forms
  import opened Reports

  const AlreadyActiveMessage: string := "Você já possui uma reserva ativa."

  class DriverDashboard {
    const viewModel: DriverViewModel
    const alarms: AlarmTable
    var currentUserId: Option<string>
    var loggedOut: bool
    var observing: bool
    /** The reservation the screen last saw for its user. */
    var activeReservation: Option<Reservation>
    var reservationCardVisible: bool
    var spaceListVisible: bool
    var toast: Option<string>

    constructor (viewModel: DriverViewModel, alarms: AlarmTable)
      ensures this.viewModel == viewModel && this.alarms == alarms
      ensures currentUserId == None && activeReservation == None && toast == None
      ensures !loggedOut && !observing
    {
      this.viewModel := viewModel;
      this.alarms := alarms;
      currentUserId := None;
      loggedOut := false;
      observing := false;
      activeReservation := None;
      reservationCardVisible := false;
      spaceListVisible := false;
      toast := None;
    }

    /** With no signed-in user the screen logs out and sets nothing else up. */
    method OnCreate(user: Option<string>)
      modifies this
      ensures currentUserId == user
      ensures loggedOut == (user.None? || old(loggedOut))
      ensures observing == (user.Some? || old(observing))
      ensures activeReservation == old(activeReservation) && toast == old(toast)
      ensures reservationCardVisible == old(reservationCardVisible) && spaceListVisible == old(spaceListVisible)
    {
      currentUserId := user;
      if currentUserId.None? {
        loggedOut := true;
        return;
      }
      observing := true;
    }

    /** The active-reservation observer: a warning is scheduled when a
        reservation appears where there was none, and the old one's warning is
        cancelled when it disappears; the screen then shows the card exactly
        when there is a reservation. */
    method OnActiveReservation(reservation: Option<Reservation>, now: Millis, canScheduleExact: bool)
      modifies this, alarms
      ensures activeReservation == reservation
      ensures reservationCardVisible == reservation.Some? && spaceListVisible == reservation.None?
      ensures reservation.Some? && old(activeReservation).None? ==>
                alarms.pending == match WarningTrigger(reservation.value, now)
                                  case None => old(alarms.pending)
                                  case Some(t) => old(alarms.pending)[reservation.value.id := t]
      ensures reservation.None? && old(activeReservation).Some? ==>
                alarms.pending == old(alarms.pending) - {old(activeReservation).value.id}
      ensures reservation.Some? == old(activeReservation).Some? ==> alarms.pending == old(alarms.pending)
      ensures toast == old(toast) && currentUserId == old(currentUserId)
      ensures loggedOut == old(loggedOut) && observing == old(observing)
    {
      if reservation.Some? && activeReservation.None? {
        alarms.ScheduleReservationWarning(reservation.value, now, canScheduleExact);
      } else if reservation.None? && activeReservation.Some? {
        alarms.CancelReservationWarning(activeReservation.value);
      }
      activeReservation := reservation;
      reservationCardVisible := reservation.Some?;
      spaceListVisible := reservation.None?;
    }

    /** A click on a space: refused while a reservation is known, otherwise
        reserved for the current user once the dialog is confirmed. */
    method HandleReserveSpace(space: ParkingSpace, confirmed: bool, newId: string, now: Millis, online: bool)
      modifies this, viewModel, viewModel.repository
      ensures activeReservation == old(activeReservation) && currentUserId == old(currentUserId)
      ensures loggedOut == old(loggedOut) && observing == old(observing)
      ensures reservationCardVisible == old(reservationCardVisible) && spaceListVisible == old(spaceListVisible)
      ensures old(activeReservation).Some? ==>
                && toast == Some(AlreadyActiveMessage)
                && viewModel.repository.Snapshot() == old(viewModel.repository.Snapshot())
                && viewModel.operationResult == old(viewModel.operationResult)
      ensures old(activeReservation).None? && confirmed && currentUserId.Some? ==>
                var swept := Sweep(old(viewModel.repository.Snapshot()), now, online);
                var reserved := Reserve(swept.db, space, currentUserId.value, newId, now, online);
                && viewModel.repository.Snapshot() == reserved.db
                && viewModel.operationResult == Some(PostedFrom(reserved.result, SpaceReserved(space.spaceNumber)))
      ensures old(activeReservation).None? && !(confirmed && currentUserId.Some?) ==>
                && viewModel.repository.Snapshot() == old(viewModel.repository.Snapshot())
                && viewModel.operationResult == old(viewModel.operationResult)
      ensures old(activeReservation).None? ==> toast == old(toast)
    {
      if activeReservation.Some? {
        toast := Some(AlreadyActiveMessage);
        return;
      }
      if confirmed && currentUserId.Some? {
        viewModel.ReserveSpace(space, currentUserId.value, newId, now, online);
      }
    }

    /** The release button: acts only while a reservation is known, and
        releases that reservation once the dialog is confirmed. */
    method HandleReleaseSpace(confirmed: bool, now: Millis, online: bool)
      modifies viewModel, viewModel.repository
      ensures activeReservation.Some? && confirmed ==>
                var released := Release(old(viewModel.repository.Snapshot()), activeReservation.value, now, online);
                && viewModel.repository.Snapshot() == released.db
                && viewModel.operationResult
                   == Some(PostedFrom(released.result, SpaceReleased(activeReservation.value.spaceNumber)))
      ensures !(activeReservation.Some? && confirmed) ==>
                && viewModel.repository.Snapshot() == old(viewModel.repository.Snapshot())
                && viewModel.operationResult == old(viewModel.operationResult)
    {
      if activeReservation.Some? && confirmed {
        viewModel.ReleaseSpace(activeReservation.value, now, online);
      }
    }
  }

  class AdminDashboard {
    const viewModel: AdminViewModel
    var occupancy: Occupancy
    var emptyListVisible: bool
    var report: Option<Report>
    var toast: Option<string>

    constructor (viewModel: AdminViewModel)
      ensures this.viewModel == viewModel && report == None && toast == None
    {
      this.viewModel := viewModel;
      occupancy := Occupancy(0, 0);
      emptyListVisible := false;
      report := None;
      toast := None;
    }

    /** Opening the screen runs the expiry sweep once. */
    method OnCreate(now: Millis, online: bool)
      modifies viewModel, viewModel.repository
      ensures var swept := Sweep(old(viewModel.repository.Snapshot()), now, online);
              && viewModel.repository.Snapshot() == swept.db
              && viewModel.operationResult ==
                 if swept.result.Ok? then Some(Success(ExpiredReleased(swept.result.value)))
                 else old(viewModel.operationResult)
    {
      viewModel.CheckExpired(now, online);
    }

    /** The space list observer updates the occupancy line. */
    method OnSpaces(spaces: seq<ParkingSpace>)
      modifies this
      ensures occupancy.total == |spaces| && occupancy.occupied == CountOccupied(spaces)
      ensures emptyListVisible == (spaces == [])
      ensures report == old(report) && toast == old(toast)
    {
      emptyListVisible := spaces == [];
      occupancy := OccupancyOf(spaces);
    }

    /** The report button: the counts of the reservations the report query
        delivers. */
    method ShowOccupancyReport(reservations: seq<Reservation>)
      modifies this
      ensures report == Some(OccupancyReport(reservations))
      ensures occupancy == old(occupancy) && toast == old(toast) && emptyListVisible == old(emptyListVisible)
    {
      report := Some(OccupancyReport(reservations));
    }

    /** The add/edit dialog's confirm button. When editing, the number field
        holds the space's own label and cannot be changed. */
    method SubmitSpaceDialog(editing: Option<ParkingSpace>, numberInput: string, rateText: string,
                             parse: string -> Option<real>, newId: string, online: bool)
      modifies this, viewModel, viewModel.repository
      ensures var numberText := if editing.Some? then editing.value.spaceNumber else numberInput;
              var v := ValidateSpaceForm(editing, numberText, rateText, parse);
              match v
              case Rejected(message) =>
                && toast == Some(message)
                && viewModel.repository.Snapshot() == old(viewModel.repository.Snapshot())
                && viewModel.operationResult == old(viewModel.operationResult)
              case Accepted(AddAction(number, rate)) =>
                var added := AddSpace(old(viewModel.repository.Snapshot()), number, rate, newId, online);
                && toast == old(toast)
                && viewModel.repository.Snapshot() == added.db
                && viewModel.operationResult == Some(PostedFrom(added.result, SpaceAdded(number)))
              case Accepted(EditAction(space)) =>
                var updated := UpdateSpace(old(viewModel.repository.Snapshot()), space, online);
                && toast == old(toast)
                && viewModel.repository.Snapshot() == updated.db
                && viewModel.operationResult == Some(PostedFrom(updated.result, SpaceUpdated(space.spaceNumber)))
      ensures occupancy == old(occupancy) && report == old(report) && emptyListVisible == old(emptyListVisible)
    {
      var numberText := if editing.Some? then editing.value.spaceNumber else numberInput;
      var v := ValidateSpaceForm(editing, numberText, rateText, parse);
      match v {
        case Rejected(message) =>
          toast := Some(message);
        case Accepted(AddAction(number, rate)) =>
          viewModel.AddSpace(number, rate, newId, online);
        case Accepted(EditAction(space)) =>
          viewModel.UpdateSpace(space, online);
      }
    }
  }

  class RegisterScreen {
    var toast: Option<string>
    var progressVisible: bool
    var registerEnabled: bool
    /** The registration requests sent to the identity service, oldest first. */
    var requests: seq<Registration>

    constructor ()
      ensures toast == None && !progressVisible && registerEnabled && requests == []
    {
      toast := None;
      progressVisible := false;
      registerEnabled := true;
      requests := [];
    }

    /** The register button: the checks in order, then a busy screen and one
        request to the identity service. */
    method HandleRegister(emailText: string, passwordText: string, confirmText: string, choice: UserTypeChoice)
      modifies this
      ensures var v := ValidateRegistration(emailText, passwordText, confirmText, choice);
              match v
              case Rejected(message) =>
                && toast == Some(message) && requests == old(requests)
                && progressVisible == old(progressVisible) && registerEnabled == old(registerEnabled)
              case Accepted(registration) =>
                && requests == old(requests) + [registration]
                && progressVisible && !registerEnabled && toast == old(toast)
    {
      var v := ValidateRegistration(emailText, passwordText, confirmText, choice);
      match v {
        case Rejected(message) =>
          toast := Some(message);
        case Accepted(registration) =>
          progressVisible := true;
          registerEnabled := false;
          requests := requests + [registration];
      }
    }
  }
}

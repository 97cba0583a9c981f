/** The two view-models: each action calls the repository and posts one result
    (a notice naming the space, or the repository's error) to the screen. */
module ViewModels {
  import opened Model
  import opened Repository

  /** What a successful action reports. */
  datatype Notice =
    | SpaceReserved(spaceNumber: string)
    | SpaceReleased(spaceNumber: string)
    | SpaceAdded(spaceNumber: string)
    | SpaceUpdated(spaceNumber: string)
    | SpaceRemoved(spaceNumber: string)
    | ExpiredReleased(count: nat)

  /** The value posted to the screen after an action. */
  datatype Posted = Success(notice: Notice) | Failure(error: Error)

  /** The message of the exception the admin view-model raises itself. */
  const OccupiedDeleteMessage: string := "Não é possível remover vaga ocupada."

  /** Decimal digits of `n`, most significant first. */
  function Decimal(n: nat): (s: string)
    ensures |s| >= 1 && forall i :: 0 <= i < |s| ==> '0' <= s[i] <= '9'
  {
    var digit := ('0' as int + n % 10) as char;
    if n < 10 then [digit] else Decimal(n / 10) + [digit]
  }

  /** The number a string of decimal digits denotes. */
  function DigitsValue(s: string): int
  {
    if s == [] then 0 else 10 * DigitsValue(s[..|s| - 1]) + (s[|s| - 1] as int - '0' as int)
  }

  /** The count in the expiry notice reads back as the count. */
  lemma {:induction false} DecimalDenotes(n: nat)
    ensures DigitsValue(Decimal(n)) == n
  {
    if n >= 10 {
      DecimalDenotes(n / 10);
      var s := Decimal(n);
      assert s[..|s| - 1] == Decimal(n / 10);
    }
  }

  /** The text shown for a notice. */
  function NoticeText(n: Notice): string
  {
    match n
    case SpaceReserved(number) => "Vaga " + number + " reservada!"
    case SpaceReleased(number) => "Vaga " + number + " liberada!"
    case SpaceAdded(number) => "Vaga " + number + " adicionada."
    case SpaceUpdated(number) => "Vaga " + number + " atualizada."
    case SpaceRemoved(number) => "Vaga " + number + " removida."
    case ExpiredReleased(count) => Decimal(count) + " vagas expiradas foram liberadas."
  }

  /** The result mapping every action shares: success posts the action's notice,
      failure posts the repository's error unchanged. (A failed result always
      carries its exception, so the fallback message the source names for a
      failure without one is never used.) */
  function PostedFrom<T>(result: Outcome<T>, onSuccess: Notice): (p: Posted)
    ensures p.Success? <==> result.Ok?
    ensures p.Success? ==> p.notice == onSuccess
    ensures p.Failure? ==> p.error == result.error
  {
    match result
    case Ok(_) => Success(onSuccess)
    case Err(e) => Failure(e)
  }

  class DriverViewModel {
    const repository: ParkingRepository
    var operationResult: Option<Posted>

    constructor (repository: ParkingRepository)
      ensures this.repository == repository && operationResult == None
    {
      this.repository := repository;
      operationResult := None;
    }

    /** Runs the expiry sweep, ignores how it went, then tries the reservation
        and posts its result. */
    method ReserveSpace(space: ParkingSpace, userId: string, newId: string, now: Millis, online: bool)
      modifies this, repository
      ensures var swept := Sweep(old(repository.Snapshot()), now, online);
              var reserved := Reserve(swept.db, space, userId, newId, now, online);
              && repository.Snapshot() == reserved.db
              && operationResult == Some(PostedFrom(reserved.result, SpaceReserved(space.spaceNumber)))
    {
      var swept := repository.CheckAndReleaseExpiredReservations(now, online);
      var result := repository.ReserveSpace(space, userId, newId, now, online);
      operationResult := Some(PostedFrom(result, SpaceReserved(space.spaceNumber)));
    }

    /** Releases the reservation once and posts the result. */
    method ReleaseSpace(reservation: Reservation, now: Millis, online: bool)
      modifies this, repository
      ensures var released := Release(old(repository.Snapshot()), reservation, now, online);
              && repository.Snapshot() == released.db
              && operationResult == Some(PostedFrom(released.result, SpaceReleased(reservation.spaceNumber)))
    {
      var result := repository.ReleaseSpace(reservation, now, online);
      operationResult := Some(PostedFrom(result, SpaceReleased(reservation.spaceNumber)));
    }
  }

  class AdminViewModel {
    const repository: ParkingRepository
    var operationResult: Option<Posted>

    constructor (repository: ParkingRepository)
      ensures this.repository == repository && operationResult == None
    {
      this.repository := repository;
      operationResult := None;
    }

    method AddSpace(spaceNumber: string, hourlyRate: real, newId: string, online: bool)
      modifies this, repository
      ensures var added := Repository.AddSpace(old(repository.Snapshot()), spaceNumber, hourlyRate, newId, online);
              && repository.Snapshot() == added.db
              && operationResult == Some(PostedFrom(added.result, SpaceAdded(spaceNumber)))
    {
      var result := repository.AddParkingSpace(spaceNumber, hourlyRate, newId, online);
      operationResult := Some(PostedFrom(result, SpaceAdded(spaceNumber)));
    }

    method UpdateSpace(space: ParkingSpace, online: bool)
      modifies this, repository
      ensures var updated := Repository.UpdateSpace(old(repository.Snapshot()), space, online);
              && repository.Snapshot() == updated.db
              && operationResult == Some(PostedFrom(updated.result, SpaceUpdated(space.spaceNumber)))
    {
      var result := repository.UpdateParkingSpace(space, online);
      operationResult := Some(PostedFrom(result, SpaceUpdated(space.spaceNumber)));
    }

    /** Refuses a space the caller's copy shows as occupied, without asking the
        repository; deletes any other by its id. */
    method DeleteSpace(space: ParkingSpace, online: bool)
      modifies this, repository
      ensures space.isOccupied ==>
                && repository.Snapshot() == old(repository.Snapshot())
                && operationResult == Some(Failure(Raised(OccupiedDeleteMessage)))
      ensures !space.isOccupied ==>
                var deleted := Repository.DeleteSpace(old(repository.Snapshot()), space.id, online);
                && repository.Snapshot() == deleted.db
                && operationResult == Some(PostedFrom(deleted.result, SpaceRemoved(space.spaceNumber)))
    {
      if space.isOccupied {
        operationResult := Some(Failure(Raised(OccupiedDeleteMessage)));
        return;
      }
      var result := repository.DeleteParkingSpace(space.id, online);
      operationResult := Some(PostedFrom(result, SpaceRemoved(space.spaceNumber)));
    }

    /** Runs the expiry sweep; posts the number released on success and nothing
        on failure. */
    method CheckExpired(now: Millis, online: bool)
      modifies this, repository
      ensures var swept := Sweep(old(repository.Snapshot()), now, online);
              && repository.Snapshot() == swept.db
              && operationResult == if swept.result.Ok? then Some(Success(ExpiredReleased(swept.result.value)))
                                    else old(operationResult)
    {
      var result := repository.CheckAndReleaseExpiredReservations(now, online);
      if result.Ok? {
        operationResult := Some(Success(ExpiredReleased(result.value)));
      }
    }
  }
}

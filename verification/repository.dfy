/** The backend of the parking application: two tables, parking spaces and
    reservations, each a map from document id to record. Every transaction or
    write batch the repository sends is one atomic step on both tables.

    The pure functions below (Reserve, Release, Sweep, AddSpace, UpdateSpace,
    DeleteSpace) say what one step does to a snapshot of the tables; the class
    ParkingRepository holds the tables and performs the steps in place. */
module Repository {
  import opened Model

  /** Why a repository call failed. */
  datatype Error =
    | Raised(message: string)  // an exception the application throws itself
    | NotFound                 // an update addressed a document that does not exist
    | InvalidPath              // a document id that is empty or contains '/'
    | Unreachable              // the backend could not be reached

  /** The message of the exception a lost or impossible reservation raises. */
  const UnavailableMessage: string := "Vaga não está mais disponível."

  datatype Outcome<+T> = Ok(value: T) | Err(error: Error)

  /** A snapshot of the two tables. */
  datatype Db = Db(spaces: map<string, ParkingSpace>, reservations: map<string, Reservation>)

  /** The tables after one step, and what the step returned. */
  datatype Step<+T> = Step(db: Db, result: Outcome<T>)

  /** A document id names a document only when it is one non-empty path segment. */
  predicate ValidDocId(id: string)
  {
    id != [] && '/' !in id
  }

  /** The occupancy fields cleared, everything else kept. */
  function Freed(s: ParkingSpace): (f: ParkingSpace)
    ensures WellFormed(f) && !f.isOccupied
  {
    s.(isOccupied := false, reservedByUid := None, reservationExpiry := None)
  }

  /** `s` is occupied by `user` until `expiry`. */
  predicate HeldUntil(s: ParkingSpace, user: string, expiry: Millis)
  {
    s.isOccupied && s.reservedByUid == Some(user) && s.reservationExpiry == Some(expiry)
  }

  /** Two versions of a space with the same id, label and rate. */
  predicate SameListing(a: ParkingSpace, b: ParkingSpace)
  {
    a.id == b.id && a.spaceNumber == b.spaceNumber && a.hourlyRate == b.hourlyRate
  }

  /** Two versions of a reservation by the same user, of the same space, begun at the same time. */
  predicate SameClaim(a: Reservation, b: Reservation)
  {
    a.id == b.id && a.userId == b.userId && a.spaceId == b.spaceId
    && a.spaceNumber == b.spaceNumber && a.startTime == b.startTime
  }

  /** `after` has key `k` and agrees with `before` at every other key. */
  ghost predicate SameExcept<V>(before: map<string, V>, after: map<string, V>, k: string)
  {
    after.Keys == before.Keys + {k} && forall j :: j in before && j != k ==> after[j] == before[j]
  }

  // ---------------------------------------------------------------------------
  // reserveSpace: one transaction that re-reads the space and, if it exists and
  // is free, occupies it and writes a new active reservation.

  function Reserve(db: Db, space: ParkingSpace, userId: string, newId: string, now: Millis, online: bool): (st: Step<bool>)
    ensures st.result.Ok? <==> online && ValidDocId(space.id) && space.id in db.spaces && !db.spaces[space.id].isOccupied
    ensures st.result.Ok? ==> st.result.value
    ensures st.result.Err? ==> st.db == db
    ensures online && ValidDocId(space.id) && st.result.Err? ==> st.result.error == Raised(UnavailableMessage)
    ensures st.result.Ok? ==>
              && SameExcept(db.spaces, st.db.spaces, space.id)
              && HeldUntil(st.db.spaces[space.id], userId, now + ReservationDurationMs)
              && SameListing(st.db.spaces[space.id], db.spaces[space.id])
    ensures st.result.Ok? ==>
              && SameExcept(db.reservations, st.db.reservations, newId)
              && var r := st.db.reservations[newId];
              && r.id == newId && r.userId == userId && r.status == Active
              && r.spaceId == space.id && r.spaceNumber == space.spaceNumber
              && r.startTime == Some(now) && r.endTime == Some(now + ReservationDurationMs)
  {
    var expiry := now + ReservationDurationMs;
    if !online then Step(db, Err(Unreachable))
    else if !ValidDocId(space.id) then Step(db, Err(InvalidPath))
    else if space.id in db.spaces && !db.spaces[space.id].isOccupied then
      var current := db.spaces[space.id];
      var held := current.(isOccupied := true, reservedByUid := Some(userId), reservationExpiry := Some(expiry));
      var created := Reservation(newId, userId, space.id, space.spaceNumber, Some(now), Some(expiry), Active);
      Step(Db(db.spaces[space.id := held], db.reservations[newId := created]), Ok(true))
    else Step(db, Err(Raised(UnavailableMessage)))
  }

  // ---------------------------------------------------------------------------
  // releaseSpace: one transaction that frees the reservation's space and marks
  // the reservation completed at the release time. Neither the reservation's
  // current status nor the space's current holder is looked at.

  function Release(db: Db, r: Reservation, now: Millis, online: bool): (st: Step<bool>)
    ensures st.result.Ok? <==>
              online && ValidDocId(r.spaceId) && ValidDocId(r.id)
              && r.spaceId in db.spaces && r.id in db.reservations
    ensures st.result.Ok? ==> st.result.value
    ensures st.result.Err? ==> st.db == db
    ensures st.result.Ok? ==>
              && SameExcept(db.spaces, st.db.spaces, r.spaceId)
              && WellFormed(st.db.spaces[r.spaceId]) && !st.db.spaces[r.spaceId].isOccupied
              && SameListing(st.db.spaces[r.spaceId], db.spaces[r.spaceId])
    ensures st.result.Ok? ==>
              && SameExcept(db.reservations, st.db.reservations, r.id)
              && SameClaim(st.db.reservations[r.id], db.reservations[r.id])
              && st.db.reservations[r.id].status == Completed
              && st.db.reservations[r.id].endTime == Some(now)
  {
    if !online then Step(db, Err(Unreachable))
    else if !ValidDocId(r.spaceId) || !ValidDocId(r.id) then Step(db, Err(InvalidPath))
    else if r.spaceId !in db.spaces || r.id !in db.reservations then Step(db, Err(NotFound))
    else
      var space := db.spaces[r.spaceId];
      var stored := db.reservations[r.id];
      Step(Db(db.spaces[r.spaceId := Freed(space)],
              db.reservations[r.id := stored.(status := Completed, endTime := Some(now))]),
           Ok(true))
  }

  // ---------------------------------------------------------------------------
  // addParkingSpace, updateParkingSpace, deleteParkingSpace: single writes.

  function AddSpace(db: Db, spaceNumber: string, hourlyRate: real, newId: string, online: bool): (st: Step<bool>)
    ensures st.result.Ok? <==> online
    ensures st.result.Ok? ==> st.result.value
    ensures st.result.Err? ==> st.db == db
    ensures st.result.Ok? ==>
              && SameExcept(db.spaces, st.db.spaces, newId)
              && st.db.reservations == db.reservations
              && var s := st.db.spaces[newId];
              && s.id == newId && s.spaceNumber == spaceNumber && s.hourlyRate == hourlyRate
              && WellFormed(s) && !s.isOccupied
  {
    if !online then Step(db, Err(Unreachable))
    else
      var created := ParkingSpace(newId, spaceNumber, false, None, None, hourlyRate);
      Step(db.(spaces := db.spaces[newId := created]), Ok(true))
  }

  function UpdateSpace(db: Db, space: ParkingSpace, online: bool): (st: Step<bool>)
    ensures st.result.Ok? <==> online && ValidDocId(space.id)
    ensures st.result.Ok? ==> st.result.value
    ensures st.result.Err? ==> st.db == db
    ensures st.result.Ok? ==>
              && SameExcept(db.spaces, st.db.spaces, space.id)
              && st.db.spaces[space.id] == space
              && st.db.reservations == db.reservations
  {
    if !online then Step(db, Err(Unreachable))
    else if !ValidDocId(space.id) then Step(db, Err(InvalidPath))
    else Step(db.(spaces := db.spaces[space.id := space]), Ok(true))
  }

  function DeleteSpace(db: Db, spaceId: string, online: bool): (st: Step<bool>)
    ensures st.result.Ok? <==> online && ValidDocId(spaceId)
    ensures st.result.Ok? ==> st.result.value
    ensures st.result.Err? ==> st.db == db
    ensures st.result.Ok? ==>
              && spaceId !in st.db.spaces
              && st.db.spaces.Keys == db.spaces.Keys - {spaceId}
              && (forall k :: k in st.db.spaces ==> st.db.spaces[k] == db.spaces[k])
              && st.db.reservations == db.reservations
  {
    if !online then Step(db, Err(Unreachable))
    else if !ValidDocId(spaceId) then Step(db, Err(InvalidPath))
    else Step(db.(spaces := db.spaces - {spaceId}), Ok(true))
  }

  // ---------------------------------------------------------------------------
  // checkAndReleaseExpiredReservations: a query for the active reservations
  // whose end lies before `now`, then one write batch that frees each one's
  // space and marks it expired.

  /** The query's filter: status active and an end time strictly before `now`. */
  predicate ExpiredAt(r: Reservation, now: Millis)
  {
    r.status == Active && r.endTime.Some? && r.endTime.value < now
  }

  function ExpiredQuery(reservations: map<string, Reservation>, now: Millis): (sel: map<string, Reservation>)
    ensures sel.Keys <= reservations.Keys
    ensures forall id :: id in reservations ==> (id in sel <==> ExpiredAt(reservations[id], now))
    ensures forall id :: id in sel ==> sel[id] == reservations[id]
  {
    map id | id in reservations && ExpiredAt(reservations[id], now) :: reservations[id]
  }

  /** Some expired reservation at `now` refers to space `k`. */
  ghost predicate ClaimedByExpired(db: Db, now: Millis, k: string)
  {
    exists id :: id in db.reservations && ExpiredAt(db.reservations[id], now) && db.reservations[id].spaceId == k
  }

  /** A write batch of the sweep: the spaces it frees, the reservations it expires. */
  datatype Batch = Batch(free: set<string>, expire: set<string>)

  function ExpiryBatch(sel: map<string, Reservation>): Batch
  {
    Batch(set id | id in sel :: sel[id].spaceId, sel.Keys)
  }

  /** The sweep's loop over the query result: one space write and one
      reservation write per document, and a count of the documents handled. */
  method BuildExpiryBatch(docs: map<string, Reservation>) returns (batch: Batch, releasedCount: nat)
    ensures batch.expire == docs.Keys
    ensures batch.free == set id | id in docs :: docs[id].spaceId
    ensures releasedCount == |docs|
  {
    var free: set<string> := {};
    var expire: set<string> := {};
    releasedCount := 0;
    var pending := docs.Keys;
    while pending != {}
      invariant pending <= docs.Keys
      invariant expire == docs.Keys - pending
      invariant free == set id | id in expire :: docs[id].spaceId
      invariant releasedCount == |expire|
      decreases pending
    {
      var id :| id in pending;
      free := free + {docs[id].spaceId};
      expire := expire + {id};
      releasedCount := releasedCount + 1;
      pending := pending - {id};
    }
    batch := Batch(free, expire);
  }

  /** Committing a batch: every update must address an existing document, or
      nothing is written. */
  function Commit(db: Db, b: Batch): (st: Step<()>)
    ensures st.result.Ok? <==>
              (forall k :: k in b.free ==> ValidDocId(k) && k in db.spaces) && b.expire <= db.reservations.Keys
    ensures st.result.Err? ==> st.db == db
    ensures st.result.Ok? ==>
              && st.db.spaces.Keys == db.spaces.Keys
              && st.db.reservations.Keys == db.reservations.Keys
              && (forall k :: k in db.spaces ==>
                    st.db.spaces[k] == if k in b.free then Freed(db.spaces[k]) else db.spaces[k])
              && (forall k :: k in db.reservations ==>
                    st.db.reservations[k] == if k in b.expire then db.reservations[k].(status := Expired)
                                             else db.reservations[k])
  {
    if exists k :: k in b.free && !ValidDocId(k) then Step(db, Err(InvalidPath))
    else if !(b.free <= db.spaces.Keys && b.expire <= db.reservations.Keys) then Step(db, Err(NotFound))
    else
      var spaces := map k | k in db.spaces :: if k in b.free then Freed(db.spaces[k]) else db.spaces[k];
      var reservations := map k | k in db.reservations ::
                            if k in b.expire then db.reservations[k].(status := Expired) else db.reservations[k];
      Step(Db(spaces, reservations), Ok(()))
  }

  function Sweep(db: Db, now: Millis, online: bool): (st: Step<nat>)
    ensures st.result.Ok? <==>
              online && forall id :: id in db.reservations && ExpiredAt(db.reservations[id], now) ==>
                                       ValidDocId(db.reservations[id].spaceId) && db.reservations[id].spaceId in db.spaces
    ensures st.result.Err? ==> st.db == db
    ensures st.result.Ok? ==> st.result.value == |ExpiredQuery(db.reservations, now).Keys|
    ensures st.result.Ok? ==>
              && st.db.reservations.Keys == db.reservations.Keys
              && forall id :: id in db.reservations ==>
                   var before, after := db.reservations[id], st.db.reservations[id];
                   if ExpiredAt(before, now)
                   then SameClaim(after, before) && after.endTime == before.endTime && after.status == Expired
                   else after == before
    ensures st.result.Ok? ==>
              && st.db.spaces.Keys == db.spaces.Keys
              && forall k :: k in db.spaces ==>
                   st.db.spaces[k] == if ClaimedByExpired(db, now, k) then Freed(db.spaces[k]) else db.spaces[k]
  {
    if !online then Step(db, Err(Unreachable))
    else
      var sel := ExpiredQuery(db.reservations, now);
      if |sel| == 0 then
        assert sel.Keys == {};
        Step(db, Ok(0))
      else
        var committed := Commit(db, ExpiryBatch(sel));
        assert forall k :: k in ExpiryBatch(sel).free <==> ClaimedByExpired(db, now, k);
        Step(committed.db, if committed.result.Ok? then Ok(|sel|) else Err(committed.result.error))
  }

  // ---------------------------------------------------------------------------
  // The invariant every guarded step keeps.

  /** Reservation `r` is the one holding its space, until its end time. */
  ghost predicate Holds(db: Db, r: Reservation)
  {
    r.spaceId in db.spaces && r.endTime.Some? && HeldUntil(db.spaces[r.spaceId], r.userId, r.endTime.value)
  }

  /** Spaces are free exactly when they have no holder and no expiry; every
      reservation is stored under its own id; every active reservation holds its
      space; and no space has two active reservations. */
  ghost predicate Coherent(db: Db)
  {
    && (forall k :: k in db.spaces ==> ValidDocId(k) && WellFormed(db.spaces[k]))
    && (forall k :: k in db.reservations ==> ValidDocId(k) && db.reservations[k].id == k)
    && (forall k :: k in db.reservations && db.reservations[k].status == Active ==> Holds(db, db.reservations[k]))
    && (forall a, b ::
          (a in db.reservations && b in db.reservations
           && db.reservations[a].status == Active && db.reservations[b].status == Active
           && db.reservations[a].spaceId == db.reservations[b].spaceId) ==> a == b)
  }

  // ---------------------------------------------------------------------------
  // The tables as the backend holds them, updated in place.

  class ParkingRepository {
    var spaces: map<string, ParkingSpace>
    var reservations: map<string, Reservation>

    function Snapshot(): Db
      reads this
    {
      Db(spaces, reservations)
    }

    constructor ()
      ensures spaces == map[] && reservations == map[]
    {
      spaces := map[];
      reservations := map[];
    }

    method ReserveSpace(space: ParkingSpace, userId: string, newId: string, now: Millis, online: bool)
      returns (result: Outcome<bool>)
      modifies this
      ensures Step(Snapshot(), result) == Reserve(old(Snapshot()), space, userId, newId, now, online)
    {
      var expiryTime := now + ReservationDurationMs;
      if !online {
        return Err(Unreachable);
      }
      if !ValidDocId(space.id) {
        return Err(InvalidPath);
      }
      var currentSpace := if space.id in spaces then Some(spaces[space.id]) else None;
      if currentSpace.Some? && !currentSpace.value.isOccupied {
        spaces := spaces[space.id := currentSpace.value.(isOccupied := true, reservedByUid := Some(userId),
                                                         reservationExpiry := Some(expiryTime))];
        reservations := reservations[newId := Reservation(newId, userId, space.id, space.spaceNumber,
                                                          Some(now), Some(expiryTime), Active)];
        result := Ok(true);
      } else {
        result := Err(Raised(UnavailableMessage));
      }
    }

    method ReleaseSpace(reservation: Reservation, now: Millis, online: bool) returns (result: Outcome<bool>)
      modifies this
      ensures Step(Snapshot(), result) == Release(old(Snapshot()), reservation, now, online)
    {
      if !online {
        return Err(Unreachable);
      }
      if !ValidDocId(reservation.spaceId) || !ValidDocId(reservation.id) {
        return Err(InvalidPath);
      }
      if reservation.spaceId !in spaces || reservation.id !in reservations {
        return Err(NotFound);
      }
      spaces := spaces[reservation.spaceId := Freed(spaces[reservation.spaceId])];
      reservations := reservations[reservation.id :=
                                     reservations[reservation.id].(status := Completed, endTime := Some(now))];
      result := Ok(true);
    }

    method AddParkingSpace(spaceNumber: string, hourlyRate: real, newId: string, online: bool)
      returns (result: Outcome<bool>)
      modifies this
      ensures Step(Snapshot(), result) == AddSpace(old(Snapshot()), spaceNumber, hourlyRate, newId, online)
    {
      if !online {
        return Err(Unreachable);
      }
      spaces := spaces[newId := ParkingSpace(newId, spaceNumber, false, None, None, hourlyRate)];
      result := Ok(true);
    }

    method UpdateParkingSpace(space: ParkingSpace, online: bool) returns (result: Outcome<bool>)
      modifies this
      ensures Step(Snapshot(), result) == UpdateSpace(old(Snapshot()), space, online)
    {
      if !online {
        return Err(Unreachable);
      }
      if !ValidDocId(space.id) {
        return Err(InvalidPath);
      }
      spaces := spaces[space.id := space];
      result := Ok(true);
    }

    method DeleteParkingSpace(spaceId: string, online: bool) returns (result: Outcome<bool>)
      modifies this
      ensures Step(Snapshot(), result) == DeleteSpace(old(Snapshot()), spaceId, online)
    {
      if !online {
        return Err(Unreachable);
      }
      if !ValidDocId(spaceId) {
        return Err(InvalidPath);
      }
      spaces := spaces - {spaceId};
      result := Ok(true);
    }

    method CommitBatch(batch: Batch) returns (result: Outcome<()>)
      modifies this
      ensures Step(Snapshot(), result) == Commit(old(Snapshot()), batch)
    {
      if exists k :: k in batch.free && !ValidDocId(k) {
        return Err(InvalidPath);
      }
      if !(batch.free <= spaces.Keys && batch.expire <= reservations.Keys) {
        return Err(NotFound);
      }
      spaces := map k | k in spaces :: if k in batch.free then Freed(spaces[k]) else spaces[k];
      reservations := map k | k in reservations ::
                        if k in batch.expire then reservations[k].(status := Expired) else reservations[k];
      result := Ok(());
    }

    method CheckAndReleaseExpiredReservations(now: Millis, online: bool) returns (result: Outcome<nat>)
      modifies this
      ensures Step(Snapshot(), result) == Sweep(old(Snapshot()), now, online)
    {
      if !online {
        return Err(Unreachable);
      }
      var expiredReservations := ExpiredQuery(reservations, now);
      if |expiredReservations| == 0 {
        return Ok(0);
      }
      var batch, releasedCount := BuildExpiryBatch(expiredReservations);
      assert batch == ExpiryBatch(expiredReservations);
      var committed := CommitBatch(batch);
      if committed.Err? {
        return Err(committed.error);
      }
      result := Ok(releasedCount);
    }
  }
}

/** The reservation lifecycle across several steps: which steps keep the tables
    coherent, what two competing reservations do, and the states the repository
    lets through because it checks nothing beyond the space's occupied flag. */
module Lifecycle {
  import opened Model
  import opened Repository

  /** Empty tables are coherent. */
  lemma EmptyIsCoherent()
    ensures Coherent(Db(map[], map[]))
  {
  }

  /** A reservation under a fresh id keeps the tables coherent. */
  lemma ReservePreservesCoherence(db: Db, space: ParkingSpace, userId: string, newId: string, now: Millis, online: bool)
    requires Coherent(db)
    requires ValidDocId(newId) && newId !in db.reservations
    ensures Coherent(Reserve(db, space, userId, newId, now, online).db)
  {
    var st := Reserve(db, space, userId, newId, now, online);
    if st.result.Ok? {
      var db' := st.db;
      forall k | k in db'.reservations && db'.reservations[k].status == Active
        ensures Holds(db', db'.reservations[k])
      {
        if k != newId {
          var r := db.reservations[k];
          assert Holds(db, r);
          assert r.spaceId != space.id;
        }
      }
      forall a, b | a in db'.reservations && b in db'.reservations
                    && db'.reservations[a].status == Active && db'.reservations[b].status == Active
                    && db'.reservations[a].spaceId == db'.reservations[b].spaceId
        ensures a == b
      {
        if a != newId { assert Holds(db, db.reservations[a]); }
        if b != newId { assert Holds(db, db.reservations[b]); }
      }
    }
  }

  /** Releasing the stored, still active version of a reservation keeps the
      tables coherent. */
  lemma ReleasePreservesCoherence(db: Db, r: Reservation, now: Millis, online: bool)
    requires Coherent(db)
    requires r.id in db.reservations && db.reservations[r.id].status == Active
    requires db.reservations[r.id].spaceId == r.spaceId
    ensures Coherent(Release(db, r, now, online).db)
  {
    var st := Release(db, r, now, online);
    if st.result.Ok? {
      var db' := st.db;
      forall k | k in db'.reservations && db'.reservations[k].status == Active
        ensures Holds(db', db'.reservations[k])
      {
        assert k != r.id;
        assert Holds(db, db.reservations[k]);
        assert db.reservations[k].spaceId != r.spaceId;
      }
    }
  }

  /** The sweep keeps the tables coherent. */
  lemma SweepPreservesCoherence(db: Db, now: Millis, online: bool)
    requires Coherent(db)
    ensures Coherent(Sweep(db, now, online).db)
  {
    var st := Sweep(db, now, online);
    if st.result.Ok? {
      var db' := st.db;
      forall k | k in db'.reservations && db'.reservations[k].status == Active
        ensures Holds(db', db'.reservations[k])
      {
        var r := db.reservations[k];
        assert !ExpiredAt(r, now) && db'.reservations[k] == r;
        assert Holds(db, r);
      }
      forall a, b | a in db'.reservations && b in db'.reservations
                    && db'.reservations[a].status == Active && db'.reservations[b].status == Active
                    && db'.reservations[a].spaceId == db'.reservations[b].spaceId
        ensures a == b
      {
        assert db'.reservations[a] == db.reservations[a];
        assert db'.reservations[b] == db.reservations[b];
      }
    }
  }

  /** A new space under a fresh id keeps the tables coherent. */
  lemma AddPreservesCoherence(db: Db, spaceNumber: string, hourlyRate: real, newId: string, online: bool)
    requires Coherent(db)
    requires ValidDocId(newId) && newId !in db.spaces
    ensures Coherent(AddSpace(db, spaceNumber, hourlyRate, newId, online).db)
  {
    var st := AddSpace(db, spaceNumber, hourlyRate, newId, online);
    if st.result.Ok? {
      forall k | k in st.db.reservations && st.db.reservations[k].status == Active
        ensures Holds(st.db, st.db.reservations[k])
      {
        assert Holds(db, db.reservations[k]);
      }
    }
  }

  /** The occupancy fields of two versions of a space agree. */
  predicate SameOccupancy(a: ParkingSpace, b: ParkingSpace)
  {
    a.isOccupied == b.isOccupied && a.reservedByUid == b.reservedByUid && a.reservationExpiry == b.reservationExpiry
  }

  /** Overwriting a space with a version whose occupancy agrees with the stored
      one (as the edit dialog does when its copy is current) keeps the tables
      coherent. */
  lemma UpdatePreservesCoherence(db: Db, space: ParkingSpace, online: bool)
    requires Coherent(db)
    requires space.id in db.spaces && SameOccupancy(db.spaces[space.id], space)
    ensures Coherent(UpdateSpace(db, space, online).db)
  {
    var st := UpdateSpace(db, space, online);
    if st.result.Ok? {
      assert WellFormed(db.spaces[space.id]);
      forall k | k in st.db.reservations && st.db.reservations[k].status == Active
        ensures Holds(st.db, st.db.reservations[k])
      {
        assert Holds(db, db.reservations[k]);
      }
    }
  }

  /** Deleting a space the tables hold as free keeps them coherent. */
  lemma DeletePreservesCoherence(db: Db, spaceId: string, online: bool)
    requires Coherent(db)
    requires spaceId in db.spaces ==> !db.spaces[spaceId].isOccupied
    ensures Coherent(DeleteSpace(db, spaceId, online).db)
  {
    var st := DeleteSpace(db, spaceId, online);
    if st.result.Ok? {
      forall k | k in st.db.reservations && st.db.reservations[k].status == Active
        ensures Holds(st.db, st.db.reservations[k])
      {
        assert Holds(db, db.reservations[k]);
      }
    }
  }

  // ---------------------------------------------------------------------------
  // Runs of steps. Concurrent clients interleave whole transactions and batches,
  // so any execution is a sequence of these steps.

  datatype Op =
    | ReserveOp(space: ParkingSpace, userId: string, newId: string, now: Millis, online: bool)
    | ReleaseOp(reservation: Reservation, now: Millis, online: bool)
    | SweepOp(now: Millis, online: bool)
    | AddOp(spaceNumber: string, hourlyRate: real, newId: string, online: bool)
    | UpdateOp(space: ParkingSpace, online: bool)
    | DeleteOp(spaceId: string, online: bool)

  function Apply(db: Db, op: Op): Db
  {
    match op
    case ReserveOp(space, userId, newId, now, online) => Reserve(db, space, userId, newId, now, online).db
    case ReleaseOp(r, now, online) => Release(db, r, now, online).db
    case SweepOp(now, online) => Sweep(db, now, online).db
    case AddOp(spaceNumber, rate, newId, online) => AddSpace(db, spaceNumber, rate, newId, online).db
    case UpdateOp(space, online) => UpdateSpace(db, space, online).db
    case DeleteOp(spaceId, online) => DeleteSpace(db, spaceId, online).db
  }

  function Run(db: Db, ops: seq<Op>): Db
    decreases |ops|
  {
    if ops == [] then db else Run(Apply(db, ops[0]), ops[1..])
  }

  /** What each step needs of the current tables to keep them coherent: fresh
      generated ids, a release of the stored active reservation, an edit that
      keeps the stored occupancy, a delete of a space stored as free. */
  ghost predicate Guarded(db: Db, op: Op)
  {
    match op
    case ReserveOp(_, _, newId, _, _) => ValidDocId(newId) && newId !in db.reservations
    case ReleaseOp(r, _, _) =>
      r.id in db.reservations && db.reservations[r.id].status == Active && db.reservations[r.id].spaceId == r.spaceId
    case SweepOp(_, _) => true
    case AddOp(_, _, newId, _) => ValidDocId(newId) && newId !in db.spaces
    case UpdateOp(space, _) => space.id in db.spaces && SameOccupancy(db.spaces[space.id], space)
    case DeleteOp(spaceId, _) => spaceId in db.spaces ==> !db.spaces[spaceId].isOccupied
  }

  ghost predicate GuardedRun(db: Db, ops: seq<Op>)
    decreases |ops|
  {
    ops == [] || (Guarded(db, ops[0]) && GuardedRun(Apply(db, ops[0]), ops[1..]))
  }

  lemma GuardedStepPreservesCoherence(db: Db, op: Op)
    requires Coherent(db) && Guarded(db, op)
    ensures Coherent(Apply(db, op))
  {
    match op
    case ReserveOp(space, userId, newId, now, online) => ReservePreservesCoherence(db, space, userId, newId, now, online);
    case ReleaseOp(r, now, online) => ReleasePreservesCoherence(db, r, now, online);
    case SweepOp(now, online) => SweepPreservesCoherence(db, now, online);
    case AddOp(spaceNumber, rate, newId, online) => AddPreservesCoherence(db, spaceNumber, rate, newId, online);
    case UpdateOp(space, online) => UpdatePreservesCoherence(db, space, online);
    case DeleteOp(spaceId, online) => DeletePreservesCoherence(db, spaceId, online);
  }

  /** Every interleaving of guarded steps keeps the tables coherent. */
  lemma {:induction false} GuardedRunPreservesCoherence(db: Db, ops: seq<Op>)
    requires Coherent(db) && GuardedRun(db, ops)
    ensures Coherent(Run(db, ops))
    decreases |ops|
  {
    if ops != [] {
      GuardedStepPreservesCoherence(db, ops[0]);
      GuardedRunPreservesCoherence(Apply(db, ops[0]), ops[1..]);
    }
  }

  /** A reservation that is no longer active is never touched again by a
      guarded step: completed and expired are final. */
  lemma GuardedStepKeepsFinished(db: Db, op: Op, k: string)
    requires Guarded(db, op)
    requires k in db.reservations && db.reservations[k].status != Active
    ensures k in Apply(db, op).reservations && Apply(db, op).reservations[k] == db.reservations[k]
  {
  }

  /** Over any guarded run, a finished reservation keeps its final record. */
  lemma {:induction false} GuardedRunKeepsFinished(db: Db, ops: seq<Op>, k: string)
    requires GuardedRun(db, ops)
    requires k in db.reservations && db.reservations[k].status != Active
    ensures k in Run(db, ops).reservations && Run(db, ops).reservations[k] == db.reservations[k]
    decreases |ops|
  {
    if ops != [] {
      GuardedStepKeepsFinished(db, ops[0], k);
      GuardedRunKeepsFinished(Apply(db, ops[0]), ops[1..], k);
    }
  }

  // ---------------------------------------------------------------------------
  // One active reservation per user: what the driver screen's guard stands for.

  /** `userId` has no active reservation. */
  ghost predicate NoActiveFor(db: Db, userId: string)
  {
    forall k :: k in db.reservations && db.reservations[k].userId == userId ==> db.reservations[k].status != Active
  }

  /** No user has two active reservations. */
  ghost predicate OneActivePerUser(db: Db)
  {
    forall a, b ::
      (a in db.reservations && b in db.reservations
       && db.reservations[a].status == Active && db.reservations[b].status == Active
       && db.reservations[a].userId == db.reservations[b].userId) ==> a == b
  }

  /** A guarded step that, when it is a reservation, is made only for a user
      with no active reservation (the driver screen's check on a current copy). */
  ghost predicate Exclusive(db: Db, op: Op)
  {
    Guarded(db, op) && (op.ReserveOp? ==> NoActiveFor(db, op.userId))
  }

  ghost predicate ExclusiveRun(db: Db, ops: seq<Op>)
    decreases |ops|
  {
    ops == [] || (Exclusive(db, ops[0]) && ExclusiveRun(Apply(db, ops[0]), ops[1..]))
  }

  lemma ExclusiveStepKeepsOneActivePerUser(db: Db, op: Op)
    requires OneActivePerUser(db) && Exclusive(db, op)
    ensures OneActivePerUser(Apply(db, op))
  {
    var db' := Apply(db, op);
    forall a, b | a in db'.reservations && b in db'.reservations
                  && db'.reservations[a].status == Active && db'.reservations[b].status == Active
                  && db'.reservations[a].userId == db'.reservations[b].userId
      ensures a == b
    {
      match op {
        case ReserveOp(space, userId, newId, now, online) =>
          if a != newId { assert db'.reservations[a] == db.reservations[a]; }
          if b != newId { assert db'.reservations[b] == db.reservations[b]; }
        case ReleaseOp(r, now, online) =>
          assert db'.reservations[a] == db.reservations[a];
          assert db'.reservations[b] == db.reservations[b];
        case SweepOp(now, online) =>
          assert db'.reservations[a] == db.reservations[a];
          assert db'.reservations[b] == db.reservations[b];
        case AddOp(_, _, _, _) =>
        case UpdateOp(_, _) =>
        case DeleteOp(_, _) =>
      }
    }
  }

  /** Every run of guarded steps whose reservations are made only for users
      without an active one keeps both the coherence invariant and one active
      reservation per user. */
  lemma {:induction false} ExclusiveRunKeepsOneActivePerUser(db: Db, ops: seq<Op>)
    requires Coherent(db) && OneActivePerUser(db) && ExclusiveRun(db, ops)
    ensures Coherent(Run(db, ops)) && OneActivePerUser(Run(db, ops))
    decreases |ops|
  {
    if ops != [] {
      GuardedStepPreservesCoherence(db, ops[0]);
      ExclusiveStepKeepsOneActivePerUser(db, ops[0]);
      ExclusiveRunKeepsOneActivePerUser(Apply(db, ops[0]), ops[1..]);
    }
  }

  // ---------------------------------------------------------------------------
  // Two clients, one space.

  /** Two reservations of the same free space, in either order: the first to
      commit gets it, the second fails with the unavailable message and writes
      nothing, and the space is held by the winner. */
  lemma SameSpaceRace(db: Db, first: ParkingSpace, second: ParkingSpace, u1: string, u2: string,
                      id1: string, id2: string, t1: Millis, t2: Millis)
    requires first.id == second.id && ValidDocId(first.id)
    requires first.id in db.spaces && !db.spaces[first.id].isOccupied
    ensures var s1 := Reserve(db, first, u1, id1, t1, true);
            var s2 := Reserve(s1.db, second, u2, id2, t2, true);
            && s1.result == Ok(true)
            && s2.result == Err(Raised(UnavailableMessage))
            && s2.db == s1.db
            && s2.db.spaces[first.id].reservedByUid == Some(u1)
            && s2.db.reservations[id1].userId == u1
  {
  }

  /** The repository does not limit a user to one active reservation: one user
      can reserve two free spaces in a row. Only the driver screen's guard stops
      this. */
  lemma TwoActiveReservationsForOneUser(db: Db, a: ParkingSpace, b: ParkingSpace, userId: string,
                                         id1: string, id2: string, t1: Millis, t2: Millis)
    requires Coherent(db)
    requires a.id != b.id && a.id in db.spaces && b.id in db.spaces
    requires !db.spaces[a.id].isOccupied && !db.spaces[b.id].isOccupied
    requires id1 != id2
    ensures var s1 := Reserve(db, a, userId, id1, t1, true);
            var s2 := Reserve(s1.db, b, userId, id2, t2, true);
            && s1.result.Ok? && s2.result.Ok?
            && s2.db.reservations[id1].userId == userId && s2.db.reservations[id1].status == Active
            && s2.db.reservations[id2].userId == userId && s2.db.reservations[id2].status == Active
  {
    var s1 := Reserve(db, a, userId, id1, t1, true);
    assert s1.db.spaces[b.id] == db.spaces[b.id];
  }

  // ---------------------------------------------------------------------------
  // What the repository lets through.

  /** Release looks at neither status nor holder: a reservation the sweep has
      already expired is released again and rewritten as completed, and the
      space is freed even though another user's active reservation holds it
      now. The tables are no longer coherent. */
  lemma StaleReleaseFreesAnotherHolder(db: Db, stale: Reservation, holder: Reservation, now: Millis)
    requires Coherent(db)
    requires stale.id in db.reservations && db.reservations[stale.id].status == Expired
    requires holder.id in db.reservations && db.reservations[holder.id] == holder && holder.status == Active
    requires holder.spaceId == stale.spaceId
    ensures var st := Release(db, stale, now, true);
            && st.result == Ok(true)
            && st.db.reservations[stale.id].status == Completed
            && st.db.reservations[holder.id].status == Active
            && !st.db.spaces[stale.spaceId].isOccupied
            && !Coherent(st.db)
  {
    assert Holds(db, holder);
    var st := Release(db, stale, now, true);
    assert holder.id != stale.id;
    assert !Holds(st.db, st.db.reservations[holder.id]);
  }

  /** The same, as a run of whole steps from one free space: u1 reserves, the
      sweep expires u1's reservation, u2 reserves, and u1's screen, still
      showing its old reservation, releases it. */
  lemma StaleReleaseScenario()
    ensures var space := ParkingSpace("s1", "A-01", false, None, None, 5.0);
            var db0 := Db(map["s1" := space], map[]);
            var s1 := Reserve(db0, space, "u1", "r1", 0, true);
            var stale := s1.db.reservations["r1"];
            var s2 := Sweep(s1.db, ReservationDurationMs + 1, true);
            var s3 := Reserve(s2.db, space, "u2", "r2", ReservationDurationMs + 2, true);
            var s4 := Release(s3.db, stale, ReservationDurationMs + 3, true);
            && Coherent(db0) && Coherent(s3.db)
            && s1.result.Ok? && s2.result == Ok(1) && s3.result.Ok? && s4.result.Ok?
            && s4.db.reservations["r2"].status == Active
            && !s4.db.spaces["s1"].isOccupied
            && !Coherent(s4.db)
  {
    var space := ParkingSpace("s1", "A-01", false, None, None, 5.0);
    var db0 := Db(map["s1" := space], map[]);
    assert Coherent(db0);
    var s1 := Reserve(db0, space, "u1", "r1", 0, true);
    ReservePreservesCoherence(db0, space, "u1", "r1", 0, true);
    var now2 := ReservationDurationMs + 1;
    assert ExpiredQuery(s1.db.reservations, now2).Keys == {"r1"};
    var s2 := Sweep(s1.db, now2, true);
    SweepPreservesCoherence(s1.db, now2, true);
    assert s2.db.spaces["s1"] == space;
    var s3 := Reserve(s2.db, space, "u2", "r2", ReservationDurationMs + 2, true);
    ReservePreservesCoherence(s2.db, space, "u2", "r2", ReservationDurationMs + 2, true);
    StaleReleaseFreesAnotherHolder(s3.db, s1.db.reservations["r1"], s3.db.reservations["r2"], ReservationDurationMs + 3);
  }

  /** An admin edit made from a copy of the space read before a driver reserved
      it writes the old occupancy back: the space shows free while the driver's
      reservation stays active. */
  lemma StaleEditUndoesReservation(db: Db, copy: ParkingSpace, userId: string, newId: string, now: Millis, rate: real)
    requires Coherent(db)
    requires copy.id in db.spaces && db.spaces[copy.id] == copy && !copy.isOccupied
    requires ValidDocId(newId) && newId !in db.reservations
    ensures var s1 := Reserve(db, copy, userId, newId, now, true);
            var s2 := UpdateSpace(s1.db, copy.(hourlyRate := rate), true);
            && s1.result.Ok? && s2.result.Ok?
            && s2.db.reservations[newId].status == Active
            && !s2.db.spaces[copy.id].isOccupied
            && !Coherent(s2.db)
  {
    var s1 := Reserve(db, copy, userId, newId, now, true);
    var s2 := UpdateSpace(s1.db, copy.(hourlyRate := rate), true);
    assert !Holds(s2.db, s2.db.reservations[newId]);
  }

  /** An admin delete whose occupied-check ran on a copy read before a driver
      reserved the space removes the held space. From then on the driver's
      reservation can be neither released nor expired: every sweep after its
      end fails as a whole and writes nothing, for every user. */
  lemma StaleDeleteBlocksSweep(db: Db, copy: ParkingSpace, userId: string, newId: string, now: Millis, later: Millis)
    requires Coherent(db)
    requires copy.id in db.spaces && db.spaces[copy.id] == copy && !copy.isOccupied
    requires ValidDocId(newId) && newId !in db.reservations
    requires later > now + ReservationDurationMs
    ensures var s1 := Reserve(db, copy, userId, newId, now, true);
            var s2 := DeleteSpace(s1.db, copy.id, true);
            var sweep := Sweep(s2.db, later, true);
            var release := Release(s2.db, s2.db.reservations[newId], later, true);
            && s1.result.Ok? && s2.result.Ok?
            && s2.db.reservations[newId].status == Active
            && sweep.result == Err(NotFound) && sweep.db == s2.db
            && release.result == Err(NotFound) && release.db == s2.db
  {
    var s1 := Reserve(db, copy, userId, newId, now, true);
    var s2 := DeleteSpace(s1.db, copy.id, true);
    assert ExpiredAt(s2.db.reservations[newId], later);
  }

  /** The sweep's query and its batch are two round trips. If the driver
      releases an expired reservation and another driver takes the space in
      between, the batch still commits: it rewrites the completed reservation
      as expired and frees the space under the new holder's active
      reservation. */
  lemma InterleavedSweepFreesNewHolder(db: Db, r: Reservation, now: Millis, space: ParkingSpace, u2: string,
                                       id2: string, t1: Millis, t2: Millis)
    requires Coherent(db)
    requires r.id in db.reservations && db.reservations[r.id] == r && ExpiredAt(r, now)
    requires space.id == r.spaceId
    requires ValidDocId(id2) && id2 !in db.reservations
    ensures var sel := ExpiredQuery(db.reservations, now);
            var s1 := Release(db, r, t1, true);
            var s2 := Reserve(s1.db, space, u2, id2, t2, true);
            var c := Commit(s2.db, ExpiryBatch(sel));
            && s1.result.Ok? && s2.result.Ok? && c.result.Ok?
            && c.db.reservations[r.id].status == Expired
            && c.db.reservations[id2].status == Active && c.db.reservations[id2].userId == u2
            && !c.db.spaces[space.id].isOccupied
            && !Coherent(c.db)
  {
    var sel := ExpiredQuery(db.reservations, now);
    var s1 := Release(db, r, t1, true);
    assert Holds(db, r);
    var s2 := Reserve(s1.db, space, u2, id2, t2, true);
    var b := ExpiryBatch(sel);
    forall k | k in b.free
      ensures ValidDocId(k) && k in s2.db.spaces
    {
      var id :| id in sel && sel[id].spaceId == k;
      assert Holds(db, db.reservations[id]);
    }
    var c := Commit(s2.db, b);
    assert r.id in b.expire && space.id in b.free;
    assert id2 != r.id;
    assert !Holds(c.db, c.db.reservations[id2]);
  }

  /** Adding a space checks nothing about its label: two adds with the same
      number both succeed, leaving two distinct spaces with that label. */
  lemma DuplicateSpaceNumbers(db: Db, number: string, rate1: real, rate2: real, id1: string, id2: string)
    requires id1 != id2
    ensures var s1 := AddSpace(db, number, rate1, id1, true);
            var s2 := AddSpace(s1.db, number, rate2, id2, true);
            && s1.result.Ok? && s2.result.Ok?
            && s2.db.spaces[id1].spaceNumber == number && s2.db.spaces[id2].spaceNumber == number
  {
  }

  /** The sweep's boundary: an active reservation is expired by a sweep at
      `now` exactly when its end time is strictly before `now`. */
  lemma SweepBoundary(db: Db, id: string, now: Millis)
    requires id in db.reservations && db.reservations[id].status == Active && db.reservations[id].endTime.Some?
    requires Sweep(db, now, true).result.Ok?
    ensures Sweep(db, now, true).db.reservations[id].status == Expired <==> db.reservations[id].endTime.value < now
    ensures Sweep(db, now, true).db.reservations[id].endTime == db.reservations[id].endTime
  {
  }
}

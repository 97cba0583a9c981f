# Parking reservations: a verified model

This project models the parking application's reservation lifecycle in Dafny. The backend holds two tables: parking spaces and reservations. A driver reserves a free space for two hours. The driver then releases it, or an expiry sweep frees it once its end time has passed. An administrator adds, edits and removes spaces and reads an occupancy report.

Each transaction or write batch in the backend is one atomic step on the two tables. The model gives each step twice:
- a pure function on a snapshot `Db` (`Repository.Reserve`, `Repository.Release`, `Repository.Sweep`, ...), whose contract says what the step means;
- a method of the class `Repository.ParkingRepository`, which updates the tables in place and is proved equal to that function.

The view-models, the alarm table and the three screens are classes whose methods are proved against the same functions.

Modules:
- `Model` (model.dfy): the space and reservation records, the three reservation statuses, and the default records.
- `Repository` (repository.dfy): the steps, the sweep's loop, the `Coherent` invariant, and the class holding the tables.
- `Lifecycle` (lifecycle.dfy): which steps keep the tables coherent, including every guarded run of steps. It also holds the races between clients, and the states the repository lets through because it checks only a space's occupied flag:
  - a stale release;
  - a stale edit;
  - a stale delete that blocks every later sweep;
  - a sweep interleaved with a release and a new reservation.
- `Alarms` (alarms.dfy): the expiry warning's trigger time, and the alarm table keyed by reservation id.
- `ViewModels` (viewmodels.dfy): the driver and admin view-models, with their result posting and the occupied-space delete guard.
- `Forms` (forms.dfy): trimming, and the registration and space-dialog validation chains.
- `Reports` (reports.dfy): the occupancy tally and the report's status counts and flat revenue.
- `Screens` (screens.dfy):
  - the driver dashboard: active-reservation observer, reserve and release guards;
  - the admin dashboard: sweep on open, tallies, dialog;
  - the registration screen.

Inputs the model cannot compute are parameters:
- the clock is a `now` argument, read once per operation;
- generated document ids are a `newId` argument;
- whether the backend is reachable is an `online` argument, and `false` fails the step with nothing written;
- the decimal parser of the rate field is a given function `string -> Option<real>`;
- whether exact alarms are allowed is a `canScheduleExact` argument.

Backend rules the model makes explicit:
- An update addressed to a missing document fails the whole transaction or batch with `NotFound`.
- The model takes a document id to be one non-empty path segment; an id that is empty or contains `/` fails with `InvalidPath`. This is a simplification. Generated ids never contain `/`, and the backend's own rules for other paths are not modelled (see "Left out").

## Model

All source paths are under `app/src/main/java/br/edu/fatecpg/appestacionamento/`, written out in full below.

| member | source | states |
|---|---|---|
| Model.ParseStatus | app/src/main/java/br/edu/fatecpg/appestacionamento/model/Reservation.kt:14 | a stored status string is a status exactly when it is "active", "expired" or "completed" |
| Model.StatusNameRoundTrip | app/src/main/java/br/edu/fatecpg/appestacionamento/model/Reservation.kt:14 | each status's name reads back as that status, and only its own name does |
| Model.DefaultSpace | app/src/main/java/br/edu/fatecpg/appestacionamento/model/ParkingSpace.kt:9-14 | a default space is free, has no holder and no expiry, and has rate 5.0 |
| Model.DefaultReservation | app/src/main/java/br/edu/fatecpg/appestacionamento/model/Reservation.kt:7-14 | a default reservation is active and has neither start nor end time |
| Repository.Reserve | app/src/main/java/br/edu/fatecpg/appestacionamento/repository/ParkingRepositoryImpl.kt:43-92 | succeeds exactly when the space exists and is free. On success, only that space changes: it becomes held by the user until now + 2 h, with its id, label and rate kept. Exactly one reservation is added under the new id: active, for that user and space, from now to now + 2 h. Otherwise it fails with "Vaga não está mais disponível." (when online and the id is valid) and writes nothing |
| Repository.Release | app/src/main/java/br/edu/fatecpg/appestacionamento/repository/ParkingRepositoryImpl.kt:94-125 | succeeds exactly when both documents exist, whatever the reservation's status or the space's holder. Then the space is freed, keeping its listing, and the reservation is completed with end time = release time, keeping its claim. Nothing else changes. On failure nothing is written |
| Repository.AddSpace | app/src/main/java/br/edu/fatecpg/appestacionamento/repository/ParkingRepositoryImpl.kt:127-141 | when online, inserts under the new id a free space with the given label and rate, no holder and no expiry. Nothing else changes, and the label is not checked for uniqueness |
| Repository.UpdateSpace | app/src/main/java/br/edu/fatecpg/appestacionamento/repository/ParkingRepositoryImpl.kt:143-150 | overwrites the whole record at the space's id. Nothing else changes |
| Repository.DeleteSpace | app/src/main/java/br/edu/fatecpg/appestacionamento/repository/ParkingRepositoryImpl.kt:152-159 | removes exactly that id and keeps every other space and every reservation. It never looks at occupancy |
| Repository.ExpiredQuery | app/src/main/java/br/edu/fatecpg/appestacionamento/repository/ParkingRepositoryImpl.kt:164-169 | selects exactly the reservations that are active and have an end time strictly before now, unchanged |
| Repository.BuildExpiryBatch | app/src/main/java/br/edu/fatecpg/appestacionamento/repository/ParkingRepositoryImpl.kt:175-195 | the loop expires every document of the query result, frees each one's space, and counts exactly the number of documents |
| Repository.Commit | app/src/main/java/br/edu/fatecpg/appestacionamento/repository/ParkingRepositoryImpl.kt:196 | the batch commits entirely or not at all. It succeeds exactly when every addressed document exists; then it frees exactly the listed spaces, expires exactly the listed reservations, and leaves the rest unchanged |
| Repository.Sweep | app/src/main/java/br/edu/fatecpg/appestacionamento/repository/ParkingRepositoryImpl.kt:162-202 | succeeds exactly when every expired reservation's space exists; an empty selection gives 0 with no writes. On success the count is the number selected. Selected reservations become expired, keeping their claim and end time. A space is freed exactly when a selected reservation refers to it. All else is unchanged, and on failure nothing is written |
| Repository.ParkingRepository.ReserveSpace | app/src/main/java/br/edu/fatecpg/appestacionamento/repository/ParkingRepositoryImpl.kt:43-92 | the in-place transaction leaves the tables and returns the result that Reserve gives |
| Repository.ParkingRepository.ReleaseSpace | app/src/main/java/br/edu/fatecpg/appestacionamento/repository/ParkingRepositoryImpl.kt:94-125 | the in-place transaction matches Release |
| Repository.ParkingRepository.AddParkingSpace | app/src/main/java/br/edu/fatecpg/appestacionamento/repository/ParkingRepositoryImpl.kt:127-141 | the in-place write matches AddSpace |
| Repository.ParkingRepository.UpdateParkingSpace | app/src/main/java/br/edu/fatecpg/appestacionamento/repository/ParkingRepositoryImpl.kt:143-150 | the in-place write matches UpdateSpace |
| Repository.ParkingRepository.DeleteParkingSpace | app/src/main/java/br/edu/fatecpg/appestacionamento/repository/ParkingRepositoryImpl.kt:152-159 | the in-place delete matches DeleteSpace |
| Repository.ParkingRepository.CommitBatch | app/src/main/java/br/edu/fatecpg/appestacionamento/repository/ParkingRepositoryImpl.kt:196 | the in-place commit matches Commit |
| Repository.ParkingRepository.CheckAndReleaseExpiredReservations | app/src/main/java/br/edu/fatecpg/appestacionamento/repository/ParkingRepositoryImpl.kt:162-202 | the query, the loop over its documents and the batch commit together match Sweep |
| Lifecycle.EmptyIsCoherent | app/src/main/java/br/edu/fatecpg/appestacionamento/model/ParkingSpace.kt:11-13 | empty tables satisfy the invariant: a space is free exactly when it has no holder and no expiry, every active reservation holds its space, and at most one active reservation per space |
| Lifecycle.ReservePreservesCoherence | app/src/main/java/br/edu/fatecpg/appestacionamento/repository/ParkingRepositoryImpl.kt:63-85 | a reservation under a fresh id keeps the invariant |
| Lifecycle.ReleasePreservesCoherence | app/src/main/java/br/edu/fatecpg/appestacionamento/repository/ParkingRepositoryImpl.kt:97-119 | releasing the stored, still active reservation keeps the invariant |
| Lifecycle.SweepPreservesCoherence | app/src/main/java/br/edu/fatecpg/appestacionamento/repository/ParkingRepositoryImpl.kt:162-202 | the sweep keeps the invariant |
| Lifecycle.AddPreservesCoherence | app/src/main/java/br/edu/fatecpg/appestacionamento/repository/ParkingRepositoryImpl.kt:127-141 | adding a space under a fresh id keeps the invariant |
| Lifecycle.UpdatePreservesCoherence | app/src/main/java/br/edu/fatecpg/appestacionamento/repository/ParkingRepositoryImpl.kt:143-150 | an overwrite that keeps the stored occupancy fields keeps the invariant |
| Lifecycle.DeletePreservesCoherence | app/src/main/java/br/edu/fatecpg/appestacionamento/repository/ParkingRepositoryImpl.kt:152-159 | deleting a space stored as free keeps the invariant |
| Lifecycle.GuardedStepPreservesCoherence | app/src/main/java/br/edu/fatecpg/appestacionamento/repository/ParkingRepositoryImpl.kt:43-202 | every step taken under its guard keeps the invariant |
| Lifecycle.GuardedRunPreservesCoherence | app/src/main/java/br/edu/fatecpg/appestacionamento/repository/ParkingRepositoryImpl.kt:43-202 | every interleaving of guarded steps from any client keeps the invariant |
| Lifecycle.GuardedStepKeepsFinished | app/src/main/java/br/edu/fatecpg/appestacionamento/repository/ParkingRepositoryImpl.kt:43-202 | a guarded step never changes a reservation that is completed or expired |
| Lifecycle.GuardedRunKeepsFinished | app/src/main/java/br/edu/fatecpg/appestacionamento/repository/ParkingRepositoryImpl.kt:43-202 | over any guarded run, completed and expired are final: such a reservation keeps its record |
| Lifecycle.ExclusiveStepKeepsOneActivePerUser | app/src/main/java/br/edu/fatecpg/appestacionamento/view/activities/DriverDashboardActivity.kt:150-153 | no user has two active reservations after a guarded step whose reservation is made only for a user with no active one, as the driver screen's check intends |
| Lifecycle.ExclusiveRunKeepsOneActivePerUser | app/src/main/java/br/edu/fatecpg/appestacionamento/view/activities/DriverDashboardActivity.kt:150-153 | any run of such steps keeps both coherence and one active reservation per user |
| Lifecycle.SameSpaceRace | app/src/main/java/br/edu/fatecpg/appestacionamento/repository/ParkingRepositoryImpl.kt:63-84 | of two reservations of one free space, the first to commit wins. The second fails with the unavailable message and writes nothing |
| Lifecycle.TwoActiveReservationsForOneUser | app/src/main/java/br/edu/fatecpg/appestacionamento/repository/ParkingRepositoryImpl.kt:43-92 | the repository lets one user hold two active reservations of two spaces |
| Lifecycle.StaleReleaseFreesAnotherHolder | app/src/main/java/br/edu/fatecpg/appestacionamento/repository/ParkingRepositoryImpl.kt:97-118 | releasing an already expired reservation succeeds, rewrites it as completed, and frees the space another user's active reservation now holds, which breaks the invariant |
| Lifecycle.StaleReleaseScenario | app/src/main/java/br/edu/fatecpg/appestacionamento/repository/ParkingRepositoryImpl.kt:43-202 | a concrete run: reserve, sweep, another user's reserve, then a stale release. It goes from coherent tables to incoherent ones |
| Lifecycle.StaleEditUndoesReservation | app/src/main/java/br/edu/fatecpg/appestacionamento/view/activities/AdminDashboardActivity.kt:130-131 | an edit made from a copy read before a reservation writes the old, free occupancy back while the reservation stays active |
| Lifecycle.StaleDeleteBlocksSweep | app/src/main/java/br/edu/fatecpg/appestacionamento/viewmodel/AdminViewModel.kt:50-54 | a delete guarded on a copy read before a reservation removes the held space. After that, every sweep after the reservation's end and its release fail with NotFound and write nothing |
| Lifecycle.InterleavedSweepFreesNewHolder | app/src/main/java/br/edu/fatecpg/appestacionamento/repository/ParkingRepositoryImpl.kt:165-196 | a release and a new reservation between the sweep's query and its commit do not stop the commit. It rewrites the completed reservation as expired and frees the space the new active reservation holds |
| Lifecycle.DuplicateSpaceNumbers | app/src/main/java/br/edu/fatecpg/appestacionamento/repository/ParkingRepositoryImpl.kt:127-141 | two adds with one label both succeed |
| Lifecycle.SweepBoundary | app/src/main/java/br/edu/fatecpg/appestacionamento/repository/ParkingRepositoryImpl.kt:166-167 | a successful sweep expires an active reservation exactly when its end time is strictly before now, and keeps that end time |
| Alarms.WarningTrigger | app/src/main/java/br/edu/fatecpg/appestacionamento/utils/AlarmScheduler.kt:19-41 | a warning exists exactly when there is an end time and end − 600000 ms is after now. It then lies after now and exactly 600000 ms before the end |
| Alarms.FreshReservationWarning | app/src/main/java/br/edu/fatecpg/appestacionamento/utils/AlarmScheduler.kt:34-41 | a reservation granted at `start` warns at start + 1 h 50 min, unless that moment has passed |
| Alarms.AlarmTable.ScheduleReservationWarning | app/src/main/java/br/edu/fatecpg/appestacionamento/utils/AlarmScheduler.kt:24-70 | registers the trigger under the reservation id, replacing any earlier one, with or without exact alarms. Without a trigger it changes nothing |
| Alarms.AlarmTable.CancelReservationWarning | app/src/main/java/br/edu/fatecpg/appestacionamento/utils/AlarmScheduler.kt:75-85 | removes exactly the alarm under the reservation id |
| ViewModels.PostedFrom | app/src/main/java/br/edu/fatecpg/appestacionamento/viewmodel/DriverViewModel.kt:32-36 | success posts the action's notice and failure posts the repository's error unchanged |
| ViewModels.DecimalDenotes | app/src/main/java/br/edu/fatecpg/appestacionamento/viewmodel/AdminViewModel.kt:67 | the released count written in the expiry notice is a string of decimal digits that reads back as the count |
| ViewModels.DriverViewModel.ReserveSpace | app/src/main/java/br/edu/fatecpg/appestacionamento/viewmodel/DriverViewModel.kt:26-38 | runs the sweep, ignores its outcome, reserves on the swept tables, and posts the reserve's result naming the space |
| ViewModels.DriverViewModel.ReleaseSpace | app/src/main/java/br/edu/fatecpg/appestacionamento/viewmodel/DriverViewModel.kt:40-49 | one release, with its result posted naming the space |
| ViewModels.AdminViewModel.AddSpace | app/src/main/java/br/edu/fatecpg/appestacionamento/viewmodel/AdminViewModel.kt:26-35 | one add, with its result posted naming the label |
| ViewModels.AdminViewModel.UpdateSpace | app/src/main/java/br/edu/fatecpg/appestacionamento/viewmodel/AdminViewModel.kt:37-46 | one update, with its result posted naming the label |
| ViewModels.AdminViewModel.DeleteSpace | app/src/main/java/br/edu/fatecpg/appestacionamento/viewmodel/AdminViewModel.kt:48-61 | a space the caller's copy shows as occupied is refused with "Não é possível remover vaga ocupada." and the tables untouched. Any other space is deleted by id and the result posted |
| ViewModels.AdminViewModel.CheckExpired | app/src/main/java/br/edu/fatecpg/appestacionamento/viewmodel/AdminViewModel.kt:63-70 | runs the sweep; posts the released count on success and nothing on failure |
| Forms.LeadingCount | app/src/main/java/br/edu/fatecpg/appestacionamento/view/activities/RegisterActivity.kt:42-44 | the leading run of whitespace is exactly the first n characters |
| Forms.DropTrailing | app/src/main/java/br/edu/fatecpg/appestacionamento/view/activities/RegisterActivity.kt:42-44 | a prefix that drops only trailing whitespace and ends in a non-whitespace character |
| Forms.Trim | app/src/main/java/br/edu/fatecpg/appestacionamento/view/activities/RegisterActivity.kt:42-44 | a slice of the input starting after its leading whitespace, with no whitespace at either end, and everything after it is whitespace. It is empty exactly when the input is all whitespace |
| Forms.TrimIdempotent | app/src/main/java/br/edu/fatecpg/appestacionamento/view/activities/RegisterActivity.kt:42-44 | trimming a trimmed text changes nothing |
| Forms.ValidateRegistration | app/src/main/java/br/edu/fatecpg/appestacionamento/view/activities/RegisterActivity.kt:42-72 | on the trimmed fields, in order: an empty field is refused, then a mismatched confirmation, then a password under 6 characters, then a missing user type, each with its own message ("Preencha todos os campos.", "As senhas não coincidem.", "A senha deve ter no mínimo 6 caracteres.", "Selecione o tipo de usuário."). Accepted exactly when all pass; the trimmed email and password are kept, and the admin choice maps to "Administrador" and any other to "Motorista" |
| Forms.ValidateSpaceForm | app/src/main/java/br/edu/fatecpg/appestacionamento/view/activities/AdminDashboardActivity.kt:110-133 | an empty trimmed field is refused with "Preencha todos os campos.", then an unparsable or non-positive rate with "Tarifa inválida.". Accepted exactly otherwise: an add of the trimmed label, or an edit that changes only the rate |
| Reports.CountOccupied | app/src/main/java/br/edu/fatecpg/appestacionamento/view/activities/AdminDashboardActivity.kt:81 | the number of positions in the list holding an occupied space. Hence at most the list size, zero exactly when no space is occupied, and the list size exactly when all are |
| Reports.OccupancyOf | app/src/main/java/br/edu/fatecpg/appestacionamento/view/activities/AdminDashboardActivity.kt:81-83 | total is the list size, occupied is the number of occupied spaces in the list, and occupied ≤ total |
| Reports.CountStatus | app/src/main/java/br/edu/fatecpg/appestacionamento/view/activities/AdminDashboardActivity.kt:153-155 | the number of positions in the list holding a reservation with that status, so never more than the list size |
| Reports.StatusCountsPartition | app/src/main/java/br/edu/fatecpg/appestacionamento/view/activities/AdminDashboardActivity.kt:152-155 | the completed, expired and active counts add up to the total |
| Reports.RevenueIsFlat | app/src/main/java/br/edu/fatecpg/appestacionamento/view/activities/AdminDashboardActivity.kt:160-163 | the estimated revenue is 5.0 times the completed count, whatever the rates or durations |
| Reports.OccupancyReport | app/src/main/java/br/edu/fatecpg/appestacionamento/view/activities/AdminDashboardActivity.kt:152-163 | the total is the number of reservations, and each count is the number of reservations with that status. The counts partition the total, and the revenue is 5.0 per completed reservation |
| Screens.DriverDashboard.OnCreate | app/src/main/java/br/edu/fatecpg/appestacionamento/view/activities/DriverDashboardActivity.kt:60-64 | with no signed-in user the screen logs out and starts no observer. The known reservation, the toast and the card and list visibility are unchanged |
| Screens.DriverDashboard.OnActiveReservation | app/src/main/java/br/edu/fatecpg/appestacionamento/view/activities/DriverDashboardActivity.kt:104-146 | none→some schedules the new reservation's warning and some→none cancels the old one's. Any other change leaves the alarms alone. The known reservation becomes the observed one, and the card shows (and the list hides) exactly when there is one. The user, the toast and the logged-out and observing flags are unchanged |
| Screens.DriverDashboard.HandleReserveSpace | app/src/main/java/br/edu/fatecpg/appestacionamento/view/activities/DriverDashboardActivity.kt:149-165 | while a reservation is known: "Você já possui uma reserva ativa." and no repository call. Otherwise a confirmed dialog runs the driver view-model's sweep-then-reserve for the current user, and an unconfirmed one changes nothing. The screen's own state other than the toast is unchanged |
| Screens.DriverDashboard.HandleReleaseSpace | app/src/main/java/br/edu/fatecpg/appestacionamento/view/activities/DriverDashboardActivity.kt:167-178 | acts only while a reservation is known and the dialog is confirmed, and then releases exactly that reservation |
| Screens.AdminDashboard.OnCreate | app/src/main/java/br/edu/fatecpg/appestacionamento/view/activities/AdminDashboardActivity.kt:48 | opening the screen runs the sweep once through the admin view-model |
| Screens.AdminDashboard.OnSpaces | app/src/main/java/br/edu/fatecpg/appestacionamento/view/activities/AdminDashboardActivity.kt:75-84 | the occupancy line is the occupied count over the list size, and the empty notice shows exactly for an empty list |
| Screens.AdminDashboard.ShowOccupancyReport | app/src/main/java/br/edu/fatecpg/appestacionamento/view/activities/AdminDashboardActivity.kt:150-163 | the report shown is the tally of the delivered reservations. The occupancy line, the empty notice and the toast are unchanged |
| Screens.AdminDashboard.SubmitSpaceDialog | app/src/main/java/br/edu/fatecpg/appestacionamento/view/activities/AdminDashboardActivity.kt:101-133 | when editing, the label is the space's own. A refused form shows its message and calls nothing; an accepted one adds or updates through the view-model. The occupancy line, the report and the empty notice are unchanged |
| Screens.RegisterScreen.HandleRegister | app/src/main/java/br/edu/fatecpg/appestacionamento/view/activities/RegisterActivity.kt:41-77 | a refused form shows its message and sends nothing. An accepted one shows progress, disables the button and sends exactly one registration request |

## Left out

- Backend SDK mechanics are left out: transactions, batches, live query feeds, object mapping and the naming of the occupied field. Each transaction or batch is one atomic step on two maps, and concurrency is modelled only as orderings of whole steps.
- The live feeds are not modelled as functions: the space list, the user's active reservation and the report's last-30-days query. The screens' observer methods take the delivered values as arguments.
- Repository.Sweep: the query and the batch commit form one step, while in the source they are two round trips. What another client can do between them is shown with the separate `ExpiredQuery` and `Commit` pieces (`Lifecycle.InterleavedSweepFreesNewHolder`), not by Sweep itself.
- Repository.Sweep: the code puts all expired reservations in one batch, so one missing space fails the whole sweep. The model follows the code, not a per-record release.
- Repository.Reserve: the source reads the clock twice, for the start and for the expiry. The model uses one `now` for both.
- Repository.Release: the completed reservation's end time is the server's timestamp in the source. Here it is the caller's `now`.
- ViewModels.PostedFrom: the default messages for a failure without an exception ("Erro ao reservar.", "Erro ao liberar vaga.", and the admin ones) are not modelled. A failed result always carries its exception, so they cannot appear.
- Message texts are not rendered: toasts, dialogs, date formats and currency formats. Notices are kept as data; `ViewModels.NoticeText` gives their wording, without a contract.
- ValidDocId: a document id counts as valid only when it is non-empty and has no `/`. The backend's own path rules are not modelled: how it treats empty segments, and nested paths with an even number of segments. So an update or delete through such an id fails with `InvalidPath` here, where the backend could address some document. Generated ids never contain `/`.
- Rates and revenue are exact `real` numbers, not doubles. The rate field's decimal parser is a given partial function.
- Forms.ValidateRegistration: the minimum password length counts characters. The source counts UTF-16 code units, so the two differ for characters outside the Basic Multilingual Plane.
- Reports.OccupancyReport: the stored status is a string in the source. A status other than the three names would escape all three counts there, while the model's status type has exactly three values.
- Alarm delivery is not modelled. This covers the notification it raises, the pending-intent construction, and the security exception caught when scheduling. The alarm table is a map from reservation id to trigger time.
- Authentication, login, splash navigation, the permission prompt and logout navigation are not modelled. Logout is a flag on the driver dashboard.
- The list adapters, dependency wiring and build configuration are not part of this model.

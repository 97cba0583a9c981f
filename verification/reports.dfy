/** The admin screen's tallies: occupied spaces over all spaces, and the report
    of reservations by status with its flat revenue estimate. */
module Reports {
  import opened Model

  /** The positions of the occupied spaces in the list. */
  ghost function OccupiedPositions(spaces: seq<ParkingSpace>): set<int>
  {
    set i | 0 <= i < |spaces| && spaces[i].isOccupied
  }

  /** The positions in a list are those in the list without its last space,
      plus the last one when that space is occupied. */
  lemma OccupiedPositionsSplit(spaces: seq<ParkingSpace>)
    requires spaces != []
    ensures var last := |spaces| - 1;
            |OccupiedPositions(spaces)|
            == |OccupiedPositions(spaces[..last])| + (if spaces[last].isOccupied then 1 else 0)
  {
    var last := |spaces| - 1;
    var front := OccupiedPositions(spaces[..last]);
    assert OccupiedPositions(spaces) == front + (if spaces[last].isOccupied then {last} else {});
  }

  /** The number of spaces marked occupied. */
  function CountOccupied(spaces: seq<ParkingSpace>): (n: nat)
    ensures n == |OccupiedPositions(spaces)|
    ensures n <= |spaces|
    ensures n == 0 <==> forall i :: 0 <= i < |spaces| ==> !spaces[i].isOccupied
    ensures n == |spaces| <==> forall i :: 0 <= i < |spaces| ==> spaces[i].isOccupied
  {
    if spaces == [] then 0
    else
      var last := |spaces| - 1;
      OccupiedPositionsSplit(spaces);
      CountOccupied(spaces[..last]) + (if spaces[last].isOccupied then 1 else 0)
  }

  /** The "occupied / total" status line. */
  datatype Occupancy = Occupancy(occupied: nat, total: nat)

  function OccupancyOf(spaces: seq<ParkingSpace>): (o: Occupancy)
    ensures o.total == |spaces| && o.occupied <= o.total
    ensures o.occupied == |OccupiedPositions(spaces)|
  {
    Occupancy(CountOccupied(spaces), |spaces|)
  }

  /** The positions of the reservations with status `s`. */
  ghost function StatusPositions(rs: seq<Reservation>, s: Status): set<int>
  {
    set i | 0 <= i < |rs| && rs[i].status == s
  }

  lemma StatusPositionsSplit(rs: seq<Reservation>, s: Status)
    requires rs != []
    ensures var last := |rs| - 1;
            |StatusPositions(rs, s)| == |StatusPositions(rs[..last], s)| + (if rs[last].status == s then 1 else 0)
  {
    var last := |rs| - 1;
    var front := StatusPositions(rs[..last], s);
    assert StatusPositions(rs, s) == front + (if rs[last].status == s then {last} else {});
  }

  /** The number of reservations with status `s`. */
  function CountStatus(rs: seq<Reservation>, s: Status): (n: nat)
    ensures n == |StatusPositions(rs, s)|
    ensures n <= |rs|
  {
    if rs == [] then 0
    else
      var last := |rs| - 1;
      StatusPositionsSplit(rs, s);
      CountStatus(rs[..last], s) + (if rs[last].status == s then 1 else 0)
  }

  /** The estimate counts this much for every completed reservation, whatever
      its space's rate or its length. */
  const RevenuePerCompleted: real := 5.0

  /** The sum over the completed reservations of the flat amount. */
  function EstimatedRevenue(rs: seq<Reservation>): real
  {
    if rs == [] then 0.0
    else
      var last := |rs| - 1;
      EstimatedRevenue(rs[..last]) + (if rs[last].status == Completed then RevenuePerCompleted else 0.0)
  }

  /** Every reservation has exactly one of the three statuses, so the three
      counts add up to the total. */
  lemma {:induction false} StatusCountsPartition(rs: seq<Reservation>)
    ensures CountStatus(rs, Completed) + CountStatus(rs, Expired) + CountStatus(rs, Active) == |rs|
  {
    if rs != [] {
      StatusCountsPartition(rs[..|rs| - 1]);
    }
  }

  /** The revenue estimate is the flat amount times the completed count. */
  lemma {:induction false} RevenueIsFlat(rs: seq<Reservation>)
    ensures EstimatedRevenue(rs) == RevenuePerCompleted * CountStatus(rs, Completed) as real
  {
    if rs != [] {
      RevenueIsFlat(rs[..|rs| - 1]);
    }
  }

  datatype Report = Report(total: nat, completed: nat, expired: nat, active: nat, revenue: real)

  function OccupancyReport(rs: seq<Reservation>): (r: Report)
    ensures r.total == |rs|
    ensures r.completed == |StatusPositions(rs, Completed)| && r.expired == |StatusPositions(rs, Expired)|
    ensures r.active == |StatusPositions(rs, Active)|
    ensures r.completed + r.expired + r.active == r.total
    ensures r.revenue == RevenuePerCompleted * r.completed as real
  {
    StatusCountsPartition(rs);
    RevenueIsFlat(rs);
    Report(|rs|, CountStatus(rs, Completed), CountStatus(rs, Expired), CountStatus(rs, Active), EstimatedRevenue(rs))
  }
}

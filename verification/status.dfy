/**
 * The occupancy report of src/services/ParkingLotService.java: per-floor
 * counters (`FloorStatus`) and the loop of `getStatus` that fills them.
 */
module Status {
  import opened Enums
  import opened Spots

  /** The spots of `spots` on `floor`. */
  ghost function OnFloor(spots: set<ParkingSpot>, floor: int): set<ParkingSpot> {
    set s | s in spots && s.floor == floor
  }

  lemma OnFloorAdd(spots: set<ParkingSpot>, spot: ParkingSpot)
    ensures OnFloor(spots + {spot}, spot.floor) == OnFloor(spots, spot.floor) + {spot}
  {
  }

  lemma OnFloorAddElsewhere(spots: set<ParkingSpot>, spot: ParkingSpot, floor: int)
    requires spot.floor != floor
    ensures OnFloor(spots + {spot}, floor) == OnFloor(spots, floor)
  {
  }

  /** The spots of `spots` whose status is `status`. */
  ghost function InStatus(spots: set<ParkingSpot>, status: SpotStatus): set<ParkingSpot>
    reads spots
  {
    set s | s in spots && s.status == status
  }

  /** Every spot has exactly one status, so a floor's total is the sum of its four status counts. */
  lemma StatusPartition(spots: set<ParkingSpot>)
    ensures |spots| == |InStatus(spots, AVAILABLE)| + |InStatus(spots, OCCUPIED)|
                     + |InStatus(spots, MAINTENANCE)| + |InStatus(spots, RESERVED)|
  {
    var a, o := InStatus(spots, AVAILABLE), InStatus(spots, OCCUPIED);
    var m, r := InStatus(spots, MAINTENANCE), InStatus(spots, RESERVED);
    var ao := a + o;
    assert |ao| == |a| + |o| by { assert a !! o; }
    var aom := ao + m;
    assert |aom| == |ao| + |m| by { assert ao !! m; }
    assert |aom + r| == |aom| + |r| by { assert aom !! r; }
    assert spots == aom + r;
  }

  /** The four counters of a floor; RESERVED spots count only in the total. */
  datatype Counts = Counts(total: nat, available: nat, occupied: nat, maintenance: nat)
  {
    /** The counters after one more spot with status `status`. */
    function Add(status: SpotStatus): Counts {
      Counts(total + 1,
             available + (if status == AVAILABLE then 1 else 0),
             occupied + (if status == OCCUPIED then 1 else 0),
             maintenance + (if status == MAINTENANCE then 1 else 0))
    }
  }

  /** The counters that describe `spots` exactly. */
  ghost function StatusCounts(spots: set<ParkingSpot>): Counts
    reads spots
  {
    Counts(|spots|, |InStatus(spots, AVAILABLE)|, |InStatus(spots, OCCUPIED)|, |InStatus(spots, MAINTENANCE)|)
  }

  /** Per-floor counters (`ParkingLotService.FloorStatus`). */
  class FloorStatus {
    const floor: int
    var totalSpots: nat
    var availableSpots: nat
    var occupiedSpots: nat
    var maintenanceSpots: nat

    constructor (floor: int)
      ensures this.floor == floor
      ensures totalSpots == 0 && availableSpots == 0 && occupiedSpots == 0 && maintenanceSpots == 0
    {
      this.floor := floor;
      totalSpots := 0;
      availableSpots := 0;
      occupiedSpots := 0;
      maintenanceSpots := 0;
    }

    function Counters(): Counts
      reads this
    {
      Counts(totalSpots, availableSpots, occupiedSpots, maintenanceSpots)
    }

    /** The counters describe exactly the spots of `spots`. */
    ghost predicate Tallies(spots: set<ParkingSpot>)
      reads this, spots
    {
      Counters() == StatusCounts(spots)
    }

    /** Counts one more spot: the total always, and the counter of its status if it has one. */
    method AddSpot(spot: ParkingSpot)
      modifies this`totalSpots, this`availableSpots, this`occupiedSpots, this`maintenanceSpots
      ensures totalSpots == old(totalSpots) + 1
      ensures availableSpots == old(availableSpots) + (if spot.status == AVAILABLE then 1 else 0)
      ensures occupiedSpots == old(occupiedSpots) + (if spot.status == OCCUPIED then 1 else 0)
      ensures maintenanceSpots == old(maintenanceSpots) + (if spot.status == MAINTENANCE then 1 else 0)
    {
      totalSpots := totalSpots + 1;
      match spot.status {
        case AVAILABLE => availableSpots := availableSpots + 1;
        case OCCUPIED => occupiedSpots := occupiedSpots + 1;
        case MAINTENANCE => maintenanceSpots := maintenanceSpots + 1;
        case RESERVED =>
      }
    }
  }

  /**
   * Counters that describe a floor leave its RESERVED spots to the total
   * alone: the total exceeds the three status counters by exactly those.
   */
  lemma ReservedOnlyInTotal(fs: FloorStatus, spots: set<ParkingSpot>)
    requires fs.Tallies(spots)
    ensures fs.totalSpots == fs.availableSpots + fs.occupiedSpots + fs.maintenanceSpots + |InStatus(spots, RESERVED)|
  {
    StatusPartition(spots);
  }

  /*
   * The status report is proved against a snapshot `statusOf` of the spots'
   * statuses, so that counting is reasoning about values, not about the heap.
   */

  /** The spots of `spots` whose status in the snapshot `statusOf` is `status`. */
  ghost function Census(spots: set<ParkingSpot>, statusOf: map<ParkingSpot, SpotStatus>, status: SpotStatus): set<ParkingSpot> {
    set s | s in spots && s in statusOf && statusOf[s] == status
  }

  /** The counters that describe `spots` under the snapshot `statusOf`. */
  ghost function SnapshotCounts(spots: set<ParkingSpot>, statusOf: map<ParkingSpot, SpotStatus>): Counts {
    Counts(|spots|, |Census(spots, statusOf, AVAILABLE)|, |Census(spots, statusOf, OCCUPIED)|, |Census(spots, statusOf, MAINTENANCE)|)
  }

  /** A snapshot that agrees with the spots counts what the spots hold. */
  lemma SnapshotAgrees(spots: set<ParkingSpot>, statusOf: map<ParkingSpot, SpotStatus>)
    requires forall s :: s in spots ==> s in statusOf && statusOf[s] == s.status
    ensures SnapshotCounts(spots, statusOf) == StatusCounts(spots)
  {
    assert Census(spots, statusOf, AVAILABLE) == InStatus(spots, AVAILABLE);
    assert Census(spots, statusOf, OCCUPIED) == InStatus(spots, OCCUPIED);
    assert Census(spots, statusOf, MAINTENANCE) == InStatus(spots, MAINTENANCE);
  }

  lemma CensusAdd(spots: set<ParkingSpot>, statusOf: map<ParkingSpot, SpotStatus>, spot: ParkingSpot, status: SpotStatus)
    requires spot !in spots && spot in statusOf
    ensures |Census(spots + {spot}, statusOf, status)| == |Census(spots, statusOf, status)| + (if statusOf[spot] == status then 1 else 0)
  {
    if statusOf[spot] == status {
      assert Census(spots + {spot}, statusOf, status) == Census(spots, statusOf, status) + {spot};
    } else {
      assert Census(spots + {spot}, statusOf, status) == Census(spots, statusOf, status);
    }
  }

  /** Counting one more spot adds it to the counters of its status. */
  lemma SnapshotCountsAdd(spots: set<ParkingSpot>, statusOf: map<ParkingSpot, SpotStatus>, spot: ParkingSpot)
    requires spot !in spots && spot in statusOf
    ensures SnapshotCounts(spots + {spot}, statusOf) == SnapshotCounts(spots, statusOf).Add(statusOf[spot])
  {
    CensusAdd(spots, statusOf, spot, AVAILABLE);
    CensusAdd(spots, statusOf, spot, OCCUPIED);
    CensusAdd(spots, statusOf, spot, MAINTENANCE);
  }

  /** The spots that occur in `visited`. */
  ghost function Elements(visited: seq<ParkingSpot>): set<ParkingSpot> {
    set s | s in visited
  }

  /** The counters of `floor` after counting the spots of `visited` in order, under the snapshot `statusOf`. */
  ghost function FloorCounts(visited: seq<ParkingSpot>, statusOf: map<ParkingSpot, SpotStatus>, floor: int): Counts
    requires forall s :: s in visited ==> s in statusOf
  {
    if visited == [] then Counts(0, 0, 0, 0)
    else
      var last := visited[|visited| - 1];
      var before := FloorCounts(visited[..|visited| - 1], statusOf, floor);
      if last.floor == floor then before.Add(statusOf[last]) else before
  }

  /** Counting one more spot changes only the counters of its floor. */
  lemma FloorCountsStep(visited: seq<ParkingSpot>, statusOf: map<ParkingSpot, SpotStatus>, spot: ParkingSpot, floor: int)
    requires forall s :: s in visited ==> s in statusOf
    requires spot in statusOf
    ensures FloorCounts(visited + [spot], statusOf, floor) ==
              if spot.floor == floor then FloorCounts(visited, statusOf, floor).Add(statusOf[spot]) else FloorCounts(visited, statusOf, floor)
  {
    assert (visited + [spot])[..|visited|] == visited;
  }

  /** A floor with no spot counted has every counter at zero. */
  lemma {:induction false} FloorCountsEmpty(visited: seq<ParkingSpot>, statusOf: map<ParkingSpot, SpotStatus>, floor: int)
    requires forall s :: s in visited ==> s in statusOf
    ensures FloorCounts(visited, statusOf, floor).total == 0 ==> FloorCounts(visited, statusOf, floor) == Counts(0, 0, 0, 0)
    decreases |visited|
  {
    if visited != [] {
      FloorCountsEmpty(visited[..|visited| - 1], statusOf, floor);
    }
  }

  /** Counting a duplicate-free sequence spot by spot gives the counters of its set of spots. */
  lemma {:induction false} FloorCountsOfSet(visited: seq<ParkingSpot>, statusOf: map<ParkingSpot, SpotStatus>, floor: int)
    requires forall s :: s in visited ==> s in statusOf
    requires forall i, j :: 0 <= i < j < |visited| ==> visited[i] != visited[j]
    ensures FloorCounts(visited, statusOf, floor) == SnapshotCounts(OnFloor(Elements(visited), floor), statusOf)
    decreases |visited|
  {
    if visited == [] {
      assert OnFloor(Elements(visited), floor) == {};
    } else {
      var last := visited[|visited| - 1];
      var init := visited[..|visited| - 1];
      FloorCountsOfSet(init, statusOf, floor);
      assert Elements(visited) == Elements(init) + {last};
      assert last !in init;
      if last.floor == floor {
        OnFloorAdd(Elements(init), last);
        SnapshotCountsAdd(OnFloor(Elements(init), floor), statusOf, last);
      } else {
        OnFloorAddElsewhere(Elements(init), last, floor);
      }
    }
  }

  /** The counters `m` holds, floor by floor. */
  ghost function CountersOf(m: map<int, FloorStatus>): map<int, Counts>
    reads m.Values
  {
    map f | f in m :: m[f].Counters()
  }

  /** `counters` holds the counts of `visited`, for exactly the floors seen so far. */
  ghost predicate CountsOfVisited(counters: map<int, Counts>, visited: seq<ParkingSpot>, statusOf: map<ParkingSpot, SpotStatus>)
    requires forall s :: s in visited ==> s in statusOf
  {
    forall f :: (f in counters <==> FloorCounts(visited, statusOf, f).total > 0) &&
                (f in counters ==> counters[f] == FloorCounts(visited, statusOf, f))
  }

  /** Counting one more spot on its floor keeps the counters those of the visited spots. */
  lemma CountsOfVisitedStep(counters: map<int, Counts>, visited: seq<ParkingSpot>, statusOf: map<ParkingSpot, SpotStatus>, spot: ParkingSpot)
    requires forall s :: s in visited ==> s in statusOf
    requires spot in statusOf
    requires CountsOfVisited(counters, visited, statusOf)
    ensures var start := if spot.floor in counters then counters[spot.floor] else Counts(0, 0, 0, 0);
            CountsOfVisited(counters[spot.floor := start.Add(statusOf[spot])], visited + [spot], statusOf)
  {
    var start := if spot.floor in counters then counters[spot.floor] else Counts(0, 0, 0, 0);
    var next := counters[spot.floor := start.Add(statusOf[spot])];
    forall f
      ensures f in next <==> FloorCounts(visited + [spot], statusOf, f).total > 0
      ensures f in next ==> next[f] == FloorCounts(visited + [spot], statusOf, f)
    {
      FloorCountsStep(visited, statusOf, spot, f);
      if f == spot.floor {
        FloorCountsEmpty(visited, statusOf, f);
      }
    }
  }

  /**
   * The counter objects in `m` sit under their own floor and count
   * `visited`: one object per floor seen so far.
   */
  ghost predicate Mirrors(m: map<int, FloorStatus>, visited: seq<ParkingSpot>, statusOf: map<ParkingSpot, SpotStatus>)
    requires forall s :: s in visited ==> s in statusOf
    reads m.Values
  {
    (forall f :: f in m ==> m[f].floor == f) && CountsOfVisited(CountersOf(m), visited, statusOf)
  }

  /**
   * One step of `getStatus`: the floor's counters, made on first sight of
   * the floor, count `spot`; no other floor's counters change. Counting
   * `spot` after `visited` keeps the map a mirror of the counts.
   */
  method CountSpot(floorStatusMap: map<int, FloorStatus>, spot: ParkingSpot,
                   ghost visited: seq<ParkingSpot>, ghost statusOf: map<ParkingSpot, SpotStatus>)
    returns (updated: map<int, FloorStatus>)
    requires forall s :: s in visited ==> s in statusOf
    requires spot in statusOf && statusOf[spot] == spot.status
    requires Mirrors(floorStatusMap, visited, statusOf)
    modifies if spot.floor in floorStatusMap then {floorStatusMap[spot.floor]} else {}
    ensures updated.Keys == floorStatusMap.Keys + {spot.floor}
    ensures forall f :: f in floorStatusMap ==> updated[f] == floorStatusMap[f]
    ensures spot.floor !in floorStatusMap ==> fresh(updated[spot.floor])
    ensures updated[spot.floor].Counters() ==
              (if spot.floor in floorStatusMap then old(floorStatusMap[spot.floor].Counters()) else Counts(0, 0, 0, 0)).Add(spot.status)
    ensures Mirrors(updated, visited + [spot], statusOf)
  {
    ghost var before := CountersOf(floorStatusMap);
    var fs: FloorStatus;
    if spot.floor in floorStatusMap {
      fs := floorStatusMap[spot.floor];
      updated := floorStatusMap;
    } else {
      fs := new FloorStatus(spot.floor);
      updated := floorStatusMap[spot.floor := fs];
    }
    ghost var start := if spot.floor in before then before[spot.floor] else Counts(0, 0, 0, 0);
    assert fs.Counters() == start;
    fs.AddSpot(spot);
    CountsOfVisitedStep(before, visited, statusOf, spot);
    ghost var after, target := CountersOf(updated), before[spot.floor := start.Add(spot.status)];
    assert after.Keys == target.Keys;
    forall f | f in after
      ensures after[f] == target[f]
    {
      if f != spot.floor {
        assert updated[f] == floorStatusMap[f] && updated[f] != fs;
      }
    }
    assert after == target;
  }

  /**
   * The loop of `getStatus`: one counter object per floor that has a spot of
   * `spots`, counting exactly that floor's spots.
   */
  method CountFloors(spots: set<ParkingSpot>) returns (floorStatusMap: map<int, FloorStatus>)
    ensures forall f :: f in floorStatusMap <==> OnFloor(spots, f) != {}
    ensures forall f :: f in floorStatusMap ==>
              fresh(floorStatusMap[f]) && floorStatusMap[f].floor == f && floorStatusMap[f].Tallies(OnFloor(spots, f))
  {
    floorStatusMap := map[];
    var remaining := spots;
    ghost var visited: seq<ParkingSpot> := [];
    ghost var statusOf: map<ParkingSpot, SpotStatus> := map s | s in spots :: s.status;
    while remaining != {}
      invariant remaining <= spots
      invariant forall s :: s in visited <==> s in spots && s !in remaining
      invariant forall i, j :: 0 <= i < j < |visited| ==> visited[i] != visited[j]
      invariant forall s :: s in spots ==> s in statusOf && statusOf[s] == s.status
      invariant Mirrors(floorStatusMap, visited, statusOf)
      invariant forall f :: f in floorStatusMap ==> fresh(floorStatusMap[f])
      decreases remaining
    {
      var spot :| spot in remaining;
      floorStatusMap := CountSpot(floorStatusMap, spot, visited, statusOf);
      visited := visited + [spot];
      remaining := remaining - {spot};
    }
    assert Elements(visited) == spots;
    forall f
      ensures FloorCounts(visited, statusOf, f) == StatusCounts(OnFloor(spots, f))
    {
      FloorCountsOfSet(visited, statusOf, f);
      SnapshotAgrees(OnFloor(spots, f), statusOf);
    }
  }

  /** The report `getStatus` returns. */
  datatype ParkingLotStatus = ParkingLotStatus(name: string, floors: map<int, FloorStatus>, activeVehicles: nat)
}

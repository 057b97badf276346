/**
 * The two allocation strategies (src/strategies/allocation/). Each one keeps
 * the candidate spots that can accommodate the vehicle and returns the first
 * one under a lexicographic sort key:
 *   NearestAvailable:  (|spot floor - gate floor|, spot id)
 *   PreferredSpotType: (preference score, |spot floor - gate floor|, spot id)
 * The source sorts and takes the first element; the model takes the leftmost
 * minimum, which is the same element because the sort is stable.
 */
module Allocation {
  import opened Wrappers
  import opened Enums
  import opened Vehicles
  import opened Gates
  import opened Spots
  import opened StringOrder

  datatype AllocationStrategy = NearestAvailable | PreferredSpotType

  /**
   * `getPreferenceScore`: lower is better. Vehicles that need charging
   * prefer charging spots, trucks prefer large spots, other electric vehicles
   * take a charging spot at 2, and everything else prefers STANDARD.
   */
  function PreferenceScore(v: Vehicle, t: SpotType): int {
    if v.ElectricCar? && v.needsCharging then (if t.HasCharging() then 1 else 5)
    else if v.ElectricBike? && v.needsCharging then (if t.HasCharging() then 1 else 5)
    else if v.Truck? then (if t.IsLarge() then 1 else 10)
    else if v.Category().IsElectric() && t.HasCharging() then 2
    else if t == STANDARD then 1
    else 3
  }

  /**
   * The filter removes every spot that would score 5 or 10: a spot that fits
   * scores 1, 2 or 3, and 1 whenever the vehicle needs charging or is a truck.
   */
  lemma {:induction false} FitSpotsScoreAtMostThree(v: Vehicle, t: SpotType)
    requires v.CanFitInSpot(t)
    ensures 1 <= PreferenceScore(v, t) <= 3
    ensures v.NeedsCharging() || v.Truck? ==> PreferenceScore(v, t) == 1
  {
    FitMatrix(v, t);
  }

  function Abs(x: int): nat {
    if x < 0 then -x else x
  }

  /** Floor distance between a spot and the entry gate. */
  function Distance(s: ParkingSpot, gate: EntryExitGate): nat {
    Abs(s.floor - gate.floor)
  }

  /** A sort key compared lexicographically: score, then distance, then spot id. */
  datatype SortKey = SortKey(score: int, distance: int, id: string)

  predicate KeyLe(a: SortKey, b: SortKey) {
    a.score < b.score ||
    (a.score == b.score &&
      (a.distance < b.distance || (a.distance == b.distance && LexLe(a.id, b.id))))
  }

  /** The comparator chained by each strategy; the nearest strategy has no score, i.e. a constant one. */
  function Key(strategy: AllocationStrategy, v: Vehicle, gate: EntryExitGate, s: ParkingSpot): SortKey {
    match strategy
    case NearestAvailable => SortKey(0, Distance(s, gate), s.spotId)
    case PreferredSpotType => SortKey(PreferenceScore(v, s.spotType), Distance(s, gate), s.spotId)
  }

  lemma KeyLeTotal(a: SortKey, b: SortKey)
    ensures KeyLe(a, b) || KeyLe(b, a)
  {
    LexLeTotal(a.id, b.id);
  }

  lemma KeyLeTransitive(a: SortKey, b: SortKey, c: SortKey)
    requires KeyLe(a, b) && KeyLe(b, c)
    ensures KeyLe(a, c)
  {
    if a.score == b.score == c.score && a.distance == b.distance == c.distance {
      LexLeTransitive(a.id, b.id, c.id);
    }
  }

  lemma KeyLeAntisymmetric(a: SortKey, b: SortKey)
    requires KeyLe(a, b) && KeyLe(b, a)
    ensures a == b
  {
    LexLeAntisymmetric(a.id, b.id);
  }

  /**
   * `findSpot`: the first spot under the strategy's key among the spots that
   * can accommodate the vehicle, or None when none can.
   */
  function FindSpot(strategy: AllocationStrategy, v: Vehicle, spots: seq<ParkingSpot>, gate: EntryExitGate): (r: Option<ParkingSpot>)
    reads spots
    ensures r.Some? ==> r.value in spots && r.value.CanAccommodate(v)
    ensures r.None? <==> forall s :: s in spots ==> !s.CanAccommodate(v)
    decreases |spots|
  {
    if spots == [] then None
    else
      var rest := FindSpot(strategy, v, spots[1..], gate);
      if !spots[0].CanAccommodate(v) then rest
      else if rest.None? || KeyLe(Key(strategy, v, gate, spots[0]), Key(strategy, v, gate, rest.value)) then Some(spots[0])
      else rest
  }

  /** `s` is a candidate that no other candidate of `spots` precedes. */
  ghost predicate IsBestSpot(strategy: AllocationStrategy, v: Vehicle, gate: EntryExitGate, spots: seq<ParkingSpot>, s: ParkingSpot)
    reads spots
  {
    s in spots && s.CanAccommodate(v) &&
    forall t :: t in spots && t.CanAccommodate(v) ==> KeyLe(Key(strategy, v, gate, s), Key(strategy, v, gate, t))
  }

  /** The spot found minimises the strategy's key among all candidates. */
  lemma {:induction false} FindSpotIsBest(strategy: AllocationStrategy, v: Vehicle, spots: seq<ParkingSpot>, gate: EntryExitGate)
    ensures FindSpot(strategy, v, spots, gate).Some? ==>
              IsBestSpot(strategy, v, gate, spots, FindSpot(strategy, v, spots, gate).value)
    decreases |spots|
  {
    if spots != [] {
      var tail := spots[1..];
      FindSpotIsBest(strategy, v, tail, gate);
      var rest := FindSpot(strategy, v, tail, gate);
      var r := FindSpot(strategy, v, spots, gate);
      var h := spots[0];
      if r.Some? {
        var kr := Key(strategy, v, gate, r.value);
        forall t | t in spots && t.CanAccommodate(v)
          ensures KeyLe(kr, Key(strategy, v, gate, t))
        {
          var kt := Key(strategy, v, gate, t);
          if t == h {
            if r.value != h {
              KeyLeTotal(Key(strategy, v, gate, h), kr);
            } else {
              KeyLeTotal(kr, kr);
            }
          } else {
            assert t in tail;
            if r.value == h && rest.Some? {
              KeyLeTransitive(kr, Key(strategy, v, gate, rest.value), kt);
            }
          }
        }
      }
    }
  }

  /** No two distinct spots of the list share an id, as the registry guarantees. */
  ghost predicate DistinctIds(spots: seq<ParkingSpot>) {
    forall a, b :: a in spots && b in spots && a.spotId == b.spotId ==> a == b
  }

  /** With distinct ids the best spot is unique, whichever order the candidates come in. */
  lemma BestSpotIsUnique(strategy: AllocationStrategy, v: Vehicle, gate: EntryExitGate,
                         xs: seq<ParkingSpot>, ys: seq<ParkingSpot>, a: ParkingSpot, b: ParkingSpot)
    requires forall s :: s in xs <==> s in ys
    requires DistinctIds(xs)
    requires IsBestSpot(strategy, v, gate, xs, a) && IsBestSpot(strategy, v, gate, ys, b)
    ensures a == b
  {
    assert b in xs && a in ys;
    KeyLeAntisymmetric(Key(strategy, v, gate, a), Key(strategy, v, gate, b));
  }

  /** The result depends only on the set of candidates, not on their order, when ids are distinct. */
  lemma FindSpotOrderIndependent(strategy: AllocationStrategy, v: Vehicle, xs: seq<ParkingSpot>, ys: seq<ParkingSpot>, gate: EntryExitGate)
    requires forall s :: s in xs <==> s in ys
    requires DistinctIds(xs)
    ensures FindSpot(strategy, v, xs, gate) == FindSpot(strategy, v, ys, gate)
  {
    var rx, ry := FindSpot(strategy, v, xs, gate), FindSpot(strategy, v, ys, gate);
    if rx.Some? && ry.Some? {
      FindSpotIsBest(strategy, v, xs, gate);
      FindSpotIsBest(strategy, v, ys, gate);
      BestSpotIsUnique(strategy, v, gate, xs, ys, rx.value, ry.value);
    }
  }

  /**
   * Either strategy gives a vehicle that needs charging a charging spot and a
   * truck a large spot.
   */
  lemma FindSpotHonoursNeeds(strategy: AllocationStrategy, v: Vehicle, spots: seq<ParkingSpot>, gate: EntryExitGate)
    requires FindSpot(strategy, v, spots, gate).Some?
    ensures v.NeedsCharging() ==> FindSpot(strategy, v, spots, gate).value.spotType.HasCharging()
    ensures v.Truck? ==> FindSpot(strategy, v, spots, gate).value.spotType.IsLarge()
  {
    FitMatrix(v, FindSpot(strategy, v, spots, gate).value.spotType);
  }

  /**
   * The nearest strategy returns a candidate on a floor no farther from the
   * gate than any other candidate, and the smallest id among equally near ones.
   */
  lemma NearestIsNearest(v: Vehicle, spots: seq<ParkingSpot>, gate: EntryExitGate, t: ParkingSpot)
    requires FindSpot(NearestAvailable, v, spots, gate).Some?
    requires t in spots && t.CanAccommodate(v)
    ensures var s := FindSpot(NearestAvailable, v, spots, gate).value;
            Distance(s, gate) <= Distance(t, gate) &&
            (Distance(s, gate) == Distance(t, gate) ==> LexLe(s.spotId, t.spotId))
  {
    FindSpotIsBest(NearestAvailable, v, spots, gate);
  }

  /**
   * The preferred strategy puts a car or a bike on a STANDARD spot whenever a
   * STANDARD candidate exists, whatever its floor, in preference to any
   * charging or large spot.
   */
  lemma PreferredPacksStandard(v: Vehicle, spots: seq<ParkingSpot>, gate: EntryExitGate, t: ParkingSpot)
    requires v.Car? || v.Bike?
    requires t in spots && t.CanAccommodate(v) && t.spotType == STANDARD
    ensures FindSpot(PreferredSpotType, v, spots, gate).Some?
    ensures FindSpot(PreferredSpotType, v, spots, gate).value.spotType == STANDARD
  {
    FindSpotIsBest(PreferredSpotType, v, spots, gate);
  }

  /**
   * Under the preferred strategy, a candidate with a strictly better score
   * always beats a nearer one: distance only breaks ties between scores.
   */
  lemma PreferredScoreFirst(v: Vehicle, spots: seq<ParkingSpot>, gate: EntryExitGate, t: ParkingSpot)
    requires t in spots && t.CanAccommodate(v)
    ensures FindSpot(PreferredSpotType, v, spots, gate).Some?
    ensures var s := FindSpot(PreferredSpotType, v, spots, gate).value;
            PreferenceScore(v, s.spotType) <= PreferenceScore(v, t.spotType) &&
            (PreferenceScore(v, s.spotType) == PreferenceScore(v, t.spotType) ==> Distance(s, gate) <= Distance(t, gate))
  {
    FindSpotIsBest(PreferredSpotType, v, spots, gate);
  }
}

/**
 * A parking spot and its occupancy state machine
 * (src/models/parking/ParkingSpot.java): AVAILABLE becomes OCCUPIED through
 * `Occupy`, which is guarded by `CanAccommodate`; `Free` makes the spot
 * AVAILABLE again unconditionally; `SetStatus` is an administrative override.
 */
module Spots {
  import opened Wrappers
  import opened Enums
  import opened Vehicles

  class ParkingSpot {
    const spotId: string
    const floor: int
    const spotType: SpotType
    /** Stored by the constructor; no pricing rule reads it. */
    const basePrice: real
    var status: SpotStatus
    /** The occupant; None stands for the source's null. */
    var currentVehicle: Option<Vehicle>

    /** The link that `Occupy` and `Free` maintain and `SetStatus` may break. */
    ghost predicate OccupancyConsistent()
      reads this
    {
      currentVehicle.Some? <==> status == OCCUPIED
    }

    /** A new spot is AVAILABLE and empty. */
    constructor (spotId: string, floor: int, spotType: SpotType, basePrice: real)
      ensures this.spotId == spotId && this.floor == floor
      ensures this.spotType == spotType && this.basePrice == basePrice
      ensures status == AVAILABLE && currentVehicle == None
      ensures OccupancyConsistent()
    {
      this.spotId := spotId;
      this.floor := floor;
      this.spotType := spotType;
      this.basePrice := basePrice;
      this.status := AVAILABLE;
      this.currentVehicle := None;
    }

    predicate IsAvailable()
      reads this
    {
      status == AVAILABLE
    }

    predicate CanAccommodate(v: Vehicle)
      reads this
    {
      IsAvailable() && v.CanFitInSpot(spotType)
    }

    /**
     * Parks `v` here. The source throws IllegalStateException when the spot
     * cannot accommodate `v`; that error path is `occupied == false`, with the
     * spot left as it was.
     */
    method Occupy(v: Vehicle) returns (occupied: bool)
      modifies this`status, this`currentVehicle
      ensures occupied == old(CanAccommodate(v))
      ensures occupied ==> status == OCCUPIED && currentVehicle == Some(v) && OccupancyConsistent()
      ensures !occupied ==> status == old(status) && currentVehicle == old(currentVehicle)
    {
      if !CanAccommodate(v) {
        return false;
      }
      currentVehicle := Some(v);
      status := OCCUPIED;
      occupied := true;
    }

    /** Empties the spot, whatever its status, and returns the previous occupant. */
    method Free() returns (prior: Option<Vehicle>)
      modifies this`status, this`currentVehicle
      ensures prior == old(currentVehicle)
      ensures status == AVAILABLE && currentVehicle == None
      ensures OccupancyConsistent()
    {
      prior := currentVehicle;
      currentVehicle := None;
      status := AVAILABLE;
    }

    /** Administrative override of the status alone; the occupant is left as it is. */
    method SetStatus(newStatus: SpotStatus)
      modifies this`status
      ensures status == newStatus
    {
      status := newStatus;
    }
  }

  /** Occupying then freeing a spot returns the vehicle and restores an AVAILABLE, empty spot. */
  method OccupyThenFree(s: ParkingSpot, v: Vehicle) returns (occupied: bool, prior: Option<Vehicle>)
    requires s.CanAccommodate(v)
    modifies s
    ensures occupied && prior == Some(v)
    ensures s.status == AVAILABLE && s.currentVehicle == None
  {
    occupied := s.Occupy(v);
    prior := s.Free();
  }

  /** A second `Occupy` fails because the first one made the spot unavailable, whoever asks. */
  method OccupyTwice(s: ParkingSpot, v: Vehicle, w: Vehicle) returns (first: bool, second: bool)
    requires s.CanAccommodate(v)
    modifies s
    ensures first && !second
    ensures s.status == OCCUPIED && s.currentVehicle == Some(v)
  {
    first := s.Occupy(v);
    second := s.Occupy(w);
  }

  /** Freeing twice leaves the same state; the second call reports no occupant. */
  method FreeTwice(s: ParkingSpot) returns (first: Option<Vehicle>, second: Option<Vehicle>)
    modifies s
    ensures first == old(s.currentVehicle) && second == None
    ensures s.status == AVAILABLE && s.currentVehicle == None
  {
    first := s.Free();
    second := s.Free();
  }

  /** `SetStatus` can leave an occupant on a spot that is no longer OCCUPIED. */
  method SetStatusBreaksOccupancy(v: Vehicle) returns (s: ParkingSpot)
    ensures s.currentVehicle == Some(v) && s.status == MAINTENANCE
    ensures !s.OccupancyConsistent()
  {
    s := new ParkingSpot("F0-L001", 0, LARGE, 2.0);
    FitMatrix(v, LARGE);
    if !v.CanFitInSpot(LARGE) {
      // only a vehicle that needs charging is refused by a LARGE spot
      s := new ParkingSpot("F0-CL01", 0, CHARGING_LARGE, 2.0);
      FitMatrix(v, CHARGING_LARGE);
    }
    var occupied := s.Occupy(v);
    s.SetStatus(MAINTENANCE);
  }
}

/**
 * The three enumerations of the parking lot: spot categories with their price
 * multiplier and capability flags, spot statuses, and vehicle categories with
 * their numeric codes. Display names and descriptions are presentation only.
 */
module Enums {

  /** Category of a parking spot (src/enums/SpotType.java). */
  datatype SpotType = STANDARD | CHARGING | LARGE | CHARGING_LARGE {

    /** The factor applied to the hourly base rate; every category costs at least the base rate. */
    function PriceMultiplier(): (m: real)
      ensures 1.0 <= m <= 2.5
      ensures HasCharging() ==> m >= 2.0
    {
      match this
      case STANDARD => 1.0
      case CHARGING => 2.0
      case LARGE => 1.5
      case CHARGING_LARGE => 2.5
    }

    predicate HasCharging() {
      this == CHARGING || this == CHARGING_LARGE
    }

    predicate IsLarge() {
      this == LARGE || this == CHARGING_LARGE
    }
  }

  /** The four categories are told apart exactly by the two capability flags. */
  lemma CapabilitiesDetermineType(a: SpotType, b: SpotType)
    ensures a == b <==> (a.HasCharging() == b.HasCharging() && a.IsLarge() == b.IsLarge())
    ensures !STANDARD.HasCharging() && !STANDARD.IsLarge()
    ensures CHARGING_LARGE.HasCharging() && CHARGING_LARGE.IsLarge()
  {
  }

  /** Occupancy status of a parking spot (src/enums/SpotStatus.java). */
  datatype SpotStatus = AVAILABLE | OCCUPIED | MAINTENANCE | RESERVED

  /** Category of a vehicle (src/enums/VehicleType.java). */
  datatype VehicleType = CAR | BIKE | ELECTRIC_BIKE | TRUCK | ELECTRIC_CAR {

    /** The numeric code each constant is declared with. */
    function Code(): (c: int)
      ensures 1 <= c <= 5
    {
      match this
      case CAR => 1
      case BIKE => 2
      case ELECTRIC_BIKE => 3
      case TRUCK => 4
      case ELECTRIC_CAR => 5
    }

    predicate IsElectric() {
      this == ELECTRIC_BIKE || this == ELECTRIC_CAR
    }
  }

  /** Codes are pairwise distinct. */
  lemma CodesAreDistinct(a: VehicleType, b: VehicleType)
    ensures a.Code() == b.Code() ==> a == b
  {
  }

  /** Exactly the two electric categories are electric. */
  lemma NonElectricCategories()
    ensures !CAR.IsElectric() && !BIKE.IsElectric() && !TRUCK.IsElectric()
  {
  }
}

/**
 * Vehicles (src/models/vehicles/). The five subclasses of the abstract
 * `Vehicle` become the five constructors of one datatype; the overridden
 * `canFitInSpot` becomes one fit function matched on the constructor.
 */
module Vehicles {
  import opened Enums
  import opened Utf16

  datatype Vehicle =
    | Car(licensePlate: string, ownerName: string)
    | Bike(licensePlate: string, ownerName: string)
    | ElectricBike(licensePlate: string, ownerName: string, needsCharging: bool)
    | Truck(licensePlate: string, ownerName: string)
    | ElectricCar(licensePlate: string, ownerName: string, needsCharging: bool)
  {
    /** The vehicle type each subclass passes to the `Vehicle` constructor. */
    function Category(): VehicleType {
      match this
      case Car(_, _) => CAR
      case Bike(_, _) => BIKE
      case ElectricBike(_, _, _) => ELECTRIC_BIKE
      case Truck(_, _) => TRUCK
      case ElectricCar(_, _, _) => ELECTRIC_CAR
    }

    /** An electric vehicle whose charging flag is set; the other classes have no such flag. */
    predicate NeedsCharging() {
      (ElectricBike? || ElectricCar?) && needsCharging
    }

    /** The per-class `canFitInSpot` overrides. */
    predicate CanFitInSpot(t: SpotType) {
      match this
      case Car(_, _) => t == STANDARD || t == CHARGING || t == LARGE || t == CHARGING_LARGE
      case Bike(_, _) => true
      case ElectricBike(_, _, charging) => if charging then t.HasCharging() else true
      case Truck(_, _) => t == LARGE || t == CHARGING_LARGE
      case ElectricCar(_, _, charging) =>
        if charging then t == CHARGING || t == CHARGING_LARGE
        else t == STANDARD || t == CHARGING || t == LARGE || t == CHARGING_LARGE
    }
  }

  /**
   * The fit matrix as one table: a truck needs a large spot, a vehicle that
   * needs charging needs a charging spot, and nothing else restricts a fit.
   */
  lemma {:induction false} FitMatrix(v: Vehicle, t: SpotType)
    ensures v.CanFitInSpot(t) <==> (v.Truck? ==> t.IsLarge()) && (v.NeedsCharging() ==> t.HasCharging())
  {
    match v
    case Car(_, _) =>
    case Bike(_, _) =>
    case ElectricBike(_, _, _) =>
    case Truck(_, _) =>
    case ElectricCar(_, _, _) =>
  }

  /** Cars and bikes fit every spot type; a car ignores charging capability although it never charges. */
  lemma CarAndBikeFitEverywhere(plate: string, owner: string, t: SpotType)
    ensures Car(plate, owner).CanFitInSpot(t)
    ensures Bike(plate, owner).CanFitInSpot(t)
    ensures !Bike(plate, owner).NeedsCharging()
  {
  }

  /** A truck fits exactly the large types: never STANDARD or CHARGING. */
  lemma TruckFitsLargeOnly(plate: string, owner: string, t: SpotType)
    ensures Truck(plate, owner).CanFitInSpot(t) <==> t.IsLarge()
    ensures !Truck(plate, owner).CanFitInSpot(STANDARD) && !Truck(plate, owner).CanFitInSpot(CHARGING)
  {
  }

  /**
   * An electric vehicle that needs charging fits exactly the charging types;
   * one that does not fits every type.
   */
  lemma ElectricFit(v: Vehicle, t: SpotType)
    requires v.ElectricBike? || v.ElectricCar?
    ensures v.needsCharging ==> (v.CanFitInSpot(t) <==> t.HasCharging())
    ensures !v.needsCharging ==> v.CanFitInSpot(t)
  {
  }

  /** Needing charging only removes spot types: what fits with the flag set also fits without it. */
  lemma ChargingNeedOnlyRestricts(v: Vehicle, t: SpotType)
    requires v.ElectricBike? || v.ElectricCar?
    ensures v.CanFitInSpot(t) ==> v.(needsCharging := false).CanFitInSpot(t)
  {
  }

  /** The category each class declares; only the two electric classes are electric. */
  lemma {:induction false} CategoryOfClass(v: Vehicle)
    ensures v.Car? <==> v.Category() == CAR
    ensures v.Bike? <==> v.Category() == BIKE
    ensures v.Truck? <==> v.Category() == TRUCK
    ensures v.ElectricBike? <==> v.Category() == ELECTRIC_BIKE
    ensures v.ElectricCar? <==> v.Category() == ELECTRIC_CAR
    ensures v.Category().IsElectric() <==> (v.ElectricBike? || v.ElectricCar?)
  {
    match v
    case Car(_, _) =>
    case Bike(_, _) =>
    case ElectricBike(_, _, _) =>
    case Truck(_, _) =>
    case ElectricCar(_, _, _) =>
  }

  /** `Vehicle.equals`: same concrete class and same licence plate (owner and charging flag are ignored). */
  predicate SameVehicle(a: Vehicle, b: Vehicle) {
    a.Category() == b.Category() && a.licensePlate == b.licensePlate
  }

  /** `equals` is an equivalence relation, and a car is never equal to an electric car with the same plate. */
  lemma SameVehicleIsEquivalence(a: Vehicle, b: Vehicle, c: Vehicle)
    ensures SameVehicle(a, a)
    ensures SameVehicle(a, b) ==> SameVehicle(b, a)
    ensures SameVehicle(a, b) && SameVehicle(b, c) ==> SameVehicle(a, c)
    ensures a.Car? && b.ElectricCar? ==> !SameVehicle(a, b)
  {
  }

  const TwoTo31: int := 0x8000_0000
  const TwoTo32: int := 0x1_0000_0000

  /** Two's-complement truncation of an integer to a Java `int`. */
  function WrapInt32(x: int): (r: int)
    ensures -TwoTo31 <= r < TwoTo31
    ensures (r - x) % TwoTo32 == 0
  {
    (x + TwoTo31) % TwoTo32 - TwoTo31
  }

  /** h = 31 * h + u over code units, in 32-bit arithmetic. */
  function UnitsHash(units: seq<int>): (h: int)
    ensures -TwoTo31 <= h < TwoTo31
  {
    if units == [] then 0
    else WrapInt32(31 * UnitsHash(units[..|units| - 1]) + units[|units| - 1])
  }

  /** 31 to the power `k`. */
  function Pow31(k: nat): (p: int)
    ensures p >= 1
  {
    if k == 0 then 1 else 31 * Pow31(k - 1)
  }

  /**
   * The documented form of `String.hashCode` before truncation:
   * u[0] * 31^(n-1) + u[1] * 31^(n-2) + ... + u[n-1].
   */
  function HashPolynomial(units: seq<int>): int
    decreases |units|
  {
    if units == [] then 0 else units[0] * Pow31(|units| - 1) + HashPolynomial(units[1..])
  }

  /** Appending a unit multiplies the polynomial by 31 and adds the unit. */
  lemma {:induction false} HashPolynomialAppend(units: seq<int>, x: int)
    ensures HashPolynomial(units + [x]) == 31 * HashPolynomial(units) + x
    decreases |units|
  {
    if units == [] {
      assert [] + [x] == [x] && [x][1..] == [];
    } else {
      assert (units + [x])[1..] == units[1..] + [x];
      HashPolynomialAppend(units[1..], x);
      assert units[0] * Pow31(|units|) == 31 * (units[0] * Pow31(|units| - 1));
    }
  }

  /** Euclidean division by 2^32 is determined by any quotient and in-range remainder. */
  lemma DivModUnique(x: int, q: int, r: int)
    requires x == q * TwoTo32 + r && 0 <= r < TwoTo32
    ensures x % TwoTo32 == r
  {
    var q', r' := x / TwoTo32, x % TwoTo32;
    assert x == q' * TwoTo32 + r';
    assert (q - q') * TwoTo32 == r' - r;
  }

  /** Truncating the running hash before the next step does not change the truncated result. */
  lemma WrapStep(p: int, x: int)
    ensures WrapInt32(31 * WrapInt32(p) + x) == WrapInt32(31 * p + x)
  {
    var a := 31 * p + x + TwoTo31;
    var q := (p + TwoTo31) / TwoTo32;
    assert WrapInt32(p) == p - q * TwoTo32;
    assert 31 * WrapInt32(p) + x + TwoTo31 == (a / TwoTo32 - 31 * q) * TwoTo32 + a % TwoTo32;
    DivModUnique(31 * WrapInt32(p) + x + TwoTo31, a / TwoTo32 - 31 * q, a % TwoTo32);
  }

  /** The step-by-step 32-bit fold is the documented polynomial, truncated once to 32 bits. */
  lemma {:induction false} UnitsHashIsPolynomial(units: seq<int>)
    ensures UnitsHash(units) == WrapInt32(HashPolynomial(units))
    decreases |units|
  {
    if units != [] {
      var init, x := units[..|units| - 1], units[|units| - 1];
      assert units == init + [x];
      UnitsHashIsPolynomial(init);
      HashPolynomialAppend(init, x);
      WrapStep(HashPolynomial(init), x);
    }
  }

  /** `String.hashCode`: the hash of the string's UTF-16 code units. */
  function StringHash(s: string): (h: int)
    ensures -TwoTo31 <= h < TwoTo31
  {
    UnitsHash(CodeUnits(s))
  }

  /** A character above U+FFFF is hashed as its two surrogates: 31 * 0xD800 + 0xDC00 for U+10000. */
  lemma SupplementaryHash()
    ensures StringHash("\U{10000}") == 1770496
    ensures StringHash("\U{FFFF}") == 0xFFFF
  {
    SurrogatePairExample();
    var pair := [0xD800, 0xDC00];
    assert pair[..1] == [0xD800] && [0xD800][..0] == [];
    assert UnitsHash([0xD800]) == 0xD800;
    assert UnitsHash(pair) == WrapInt32(31 * 0xD800 + 0xDC00);
  }

  /** `Vehicle.hashCode` is the plate's hash. */
  function HashCode(v: Vehicle): int {
    StringHash(v.licensePlate)
  }

  /** Equal vehicles have equal hash codes. */
  lemma EqualVehiclesEqualHash(a: Vehicle, b: Vehicle)
    requires SameVehicle(a, b)
    ensures HashCode(a) == HashCode(b)
  {
  }
}

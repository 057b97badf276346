/**
 * Hourly pricing (src/strategies/pricing/HourlyPricingStrategy.java), in
 * exact real arithmetic: billed hours are the parked minutes rounded up to
 * whole hours, at least one; the fare is the hourly rate times the hours times
 * the spot multiplier, plus a per-hour charging fee for an electric vehicle on
 * a charging spot, and never below the minimum charge.
 */
module Pricing {
  import opened Enums
  import opened Vehicles
  import opened Tickets
  import opened Wrappers

  const BaseHourlyRate: real := 2.0
  const ChargingRatePerHour: real := 1.5
  const MinimumCharge: real := 1.0

  datatype PricingStrategy = Hourly

  /** `max(1, ceil(minutes / 60.0))`: the least positive number of hours that covers `minutes`. */
  function BilledHours(minutes: int): (h: int)
    ensures h >= 1
    ensures minutes <= 60 * h
    ensures h == 1 || 60 * (h - 1) < minutes
  {
    var roundedUp := (minutes + 59) / 60;
    if roundedUp < 1 then 1 else roundedUp
  }

  /** More minutes never bill fewer hours. */
  lemma BilledHoursMonotone(m1: int, m2: int)
    requires m1 <= m2
    ensures BilledHours(m1) <= BilledHours(m2)
  {
  }

  /** The charging fee applies to the vehicle's type, not to whether it asked for charging. */
  function ChargingFee(vt: VehicleType, st: SpotType, hours: real): real {
    if vt.IsElectric() && st.HasCharging() then ChargingRatePerHour * hours else 0.0
  }

  /** `calculatePrice` for a stay of `minutes` by a vehicle of type `vt` on a spot of type `st`. */
  function Fare(minutes: int, vt: VehicleType, st: SpotType): real {
    var hours := BilledHours(minutes) as real;
    var spotPrice := BaseHourlyRate * hours * st.PriceMultiplier();
    var total := spotPrice + ChargingFee(vt, st, hours);
    if total < MinimumCharge then MinimumCharge else total
  }

  /** What one billed hour costs: the rate times the multiplier, plus the charging rate where it applies. */
  function HourlyCost(vt: VehicleType, st: SpotType): (c: real)
    ensures c >= BaseHourlyRate
  {
    BaseHourlyRate * st.PriceMultiplier() + (if vt.IsElectric() && st.HasCharging() then ChargingRatePerHour else 0.0)
  }

  /**
   * The minimum charge never binds: every fare is the billed hours times the
   * hourly cost, hence at least 2.0.
   */
  lemma FareClosedForm(minutes: int, vt: VehicleType, st: SpotType)
    ensures Fare(minutes, vt, st) == BilledHours(minutes) as real * HourlyCost(vt, st)
    ensures Fare(minutes, vt, st) >= 2.0 >= MinimumCharge
  {
    var h := BilledHours(minutes) as real;
    assert h >= 1.0;
    match st
    case STANDARD =>
    case CHARGING =>
    case LARGE =>
    case CHARGING_LARGE =>
  }

  /** For a fixed vehicle type and spot type, a longer stay never costs less. */
  lemma FareMonotone(m1: int, m2: int, vt: VehicleType, st: SpotType)
    requires m1 <= m2
    ensures Fare(m1, vt, st) <= Fare(m2, vt, st)
  {
    FareClosedForm(m1, vt, st);
    FareClosedForm(m2, vt, st);
    BilledHoursMonotone(m1, m2);
    var c := HourlyCost(vt, st);
    var h1, h2 := BilledHours(m1) as real, BilledHours(m2) as real;
    assert h1 * c <= h2 * c by {
      assert (h2 - h1) * c >= 0.0;
    }
  }

  /** Worked values: hours for 0, 45, 60 and 65 minutes, and two fares. */
  lemma PricingExamples()
    ensures BilledHours(0) == 1 && BilledHours(45) == 1 && BilledHours(60) == 1 && BilledHours(65) == 2
    ensures Fare(30, CAR, STANDARD) == 2.0
    ensures Fare(70, ELECTRIC_CAR, CHARGING) == 11.0
  {
  }

  /**
   * The strategy applied to a ticket: its duration so far (or to its exit
   * time) priced by `Fare`. Every ticket, open or closed, and a clock set
   * back before the entry time, is billed whole hours of the hourly cost.
   */
  function CalculatePrice(strategy: PricingStrategy, t: Ticket, now: int): (price: real)
    reads t
    ensures price >= 2.0
    ensures price == BilledHours(t.DurationMinutes(now)) as real * HourlyCost(t.vehicle.Category(), t.assignedSpot.spotType)
    ensures t.exitTime.None? && now >= t.entryTime ==>
              price == BilledHours((now - t.entryTime) / 60) as real * HourlyCost(t.vehicle.Category(), t.assignedSpot.spotType)
    ensures t.exitTime.GetOr(now) < t.entryTime + 60 ==> price == HourlyCost(t.vehicle.Category(), t.assignedSpot.spotType)
  {
    var minutes := t.DurationMinutes(now);
    var vt, st := t.vehicle.Category(), t.assignedSpot.spotType;
    FareClosedForm(minutes, vt, st);
    assert t.exitTime.None? && now >= t.entryTime ==> minutes == (now - t.entryTime) / 60;
    assert t.exitTime.GetOr(now) < t.entryTime + 60 ==> minutes <= 0 && BilledHours(minutes) == 1;
    match strategy
    case Hourly => Fare(minutes, vt, st)
  }

  /** A clock set back before the entry still bills the one-hour minimum: 2.0 * 2.0 + 1.5 for an electric car on a charging spot. */
  lemma ClockSetBackPrice(t: Ticket)
    requires t.exitTime.None? && t.entryTime == 1000
    requires t.vehicle.Category() == ELECTRIC_CAR && t.assignedSpot.spotType == CHARGING
    ensures t.DurationMinutes(400) == -10
    ensures CalculatePrice(Hourly, t, 400) == 5.5
  {
  }
}

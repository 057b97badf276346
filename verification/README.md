# Parking lot coordinator, modelled in Dafny

This project models the core of a multi-floor parking lot written in Java:
- a coordinator (`ParkingLotService`) that keeps registries of spots, gates and active tickets by id;
- parking a vehicle through an entry gate, which chooses a spot with an allocation strategy, occupies it and issues a ticket;
- letting a vehicle out through an exit gate, which prices the ticket, marks it paid, frees the spot and retires the ticket;
- a per-floor occupancy report.

It also models everything those operations decide with:
- the spot state machine and the ticket record;
- the vehicle/spot-type fit matrix;
- the enum attributes and the gate predicates;
- the two allocation strategies and hourly pricing;
- the factory that lays out the spots of a floor.

Each module models one component of the source:

| module | Java source | form |
|---|---|---|
| `Enums` | `src/enums/SpotType.java`, `VehicleType.java`, `SpotStatus.java` | datatypes with member functions |
| `Vehicles` | `src/models/vehicles/*.java` | one datatype, one constructor per subclass; `canFitInSpot` as one function |
| `Gates` | `src/models/gates/EntryExitGate.java` | class (`isOperational` is mutable) |
| `Spots` | `src/models/parking/ParkingSpot.java` | class; `Occupy`/`Free`/`SetStatus` update `status` and `currentVehicle` |
| `Tickets` | `src/models/parking/Ticket.java` | class; `CompleteExit` updates the closing fields |
| `Allocation`, `StringOrder` | `src/strategies/allocation/*.java` | pure functions; `String.compareTo` as `LexLe` |
| `Utf16` | the `String` code units that `compareTo` and `hashCode` read | a string's UTF-16 code units, surrogate pairs above U+FFFF |
| `Pricing` | `src/strategies/pricing/HourlyPricingStrategy.java` | pure functions over exact `real`s |
| `SpotFactory`, `Decimal` | `src/factories/ParkingSpotFactory.java` | four counted loops; `%d` / `%03d` formatting |
| `Status` | `FloorStatus` and the loop of `getStatus` in `src/services/ParkingLotService.java` | class with counters; a loop filling a map of counter objects |
| `ParkingLot` | `src/services/ParkingLotService.java` | class whose methods update the three registries |

The two strategies become tagged datatypes:
- `AllocationStrategy = NearestAvailable | PreferredSpotType`;
- `PricingStrategy = Hourly`.

`FindSpot` keeps the spots that can accommodate the vehicle. It returns the leftmost minimum under the strategy's lexicographic key:
- nearest: distance, then id;
- preferred: score, then distance, then id.

That is the element a stable sort followed by `findFirst` returns. When ids are distinct, `FindSpotOrderIndependent` shows the result does not depend on the list order.

Clock readings are whole seconds passed in as `now`. `Duration.toMinutes` truncation is written out as `WholeMinutes`.

A ticket id is the first eight characters of a caller-supplied 36-character UUID string. As in the source, a colliding id overwrites the older entry. `ParkVehicle` states that the registry grows by one when the id is new.

The central invariant is `ParkingLotService.TicketsHeld`: every active ticket is open and its spot is OCCUPIED by the ticket's vehicle, and no spot is held by two active tickets. `ParkVehicle`, `ExitVehicle`, `AddParkingSpots` and `AddGates` preserve it.

The model follows the code where a reader might expect otherwise:
- **Pricing constants.** The hourly rate 2.0, the charging rate 1.5 and the minimum charge 1.0 are fixed constants, not configuration.
- **Freeing a free spot.** `free` is unconditional, so `Free` has no precondition; `FreeTwice` shows the repeated call.
- **The occupancy invariant.** "Occupant present iff OCCUPIED" is kept by `occupy`/`free` only; `setStatus` can break it (`SetStatusBreaksOccupancy`).
- **Atomicity.** Select-then-occupy in `parkVehicle` is two separate steps; the model is sequential.
- **Strings.** Java strings are UTF-16: ids are ordered and plates hashed by code units, so a character above U+FFFF counts as its two surrogates (`SupplementarySortsBySurrogate`, `SupplementaryHash`).

## Model

| member | source | states |
|---|---|---|
| Enums.SpotType.PriceMultiplier | src/enums/SpotType.java:4-7 | every category's multiplier lies between 1.0 and 2.5, and a charging category costs at least 2.0 |
| Enums.CapabilitiesDetermineType | src/enums/SpotType.java:25-31 | the two flags `hasCharging`/`isLarge` tell the four categories apart; STANDARD has neither, CHARGING_LARGE both |
| Enums.VehicleType.Code | src/enums/VehicleType.java:4-8 | every vehicle-type code lies in 1..5 |
| Enums.CodesAreDistinct | src/enums/VehicleType.java:4-8 | equal codes mean equal vehicle types |
| Enums.NonElectricCategories | src/enums/VehicleType.java:26-28 | CAR, BIKE and TRUCK are not electric |
| Vehicles.FitMatrix | src/models/vehicles/Vehicle.java:28 | a vehicle fits a spot type iff (truck ⇒ large) and (needs charging ⇒ charging), across all five subclasses |
| Vehicles.CarAndBikeFitEverywhere | src/models/vehicles/Car.java:12-16 | a car and a bike fit all four types (a car also fits charging spots), and a bike never needs charging |
| Vehicles.TruckFitsLargeOnly | src/models/vehicles/Truck.java:12-15 | a truck fits a type iff it is large; never STANDARD or CHARGING |
| Vehicles.ElectricFit | src/models/vehicles/ElectricCar.java:18-25 | an electric car or bike that needs charging fits exactly the charging types; one that does not fits every type |
| Vehicles.ChargingNeedOnlyRestricts | src/models/vehicles/ElectricBike.java:18-24 | types that fit with the charging flag set also fit with it cleared |
| Vehicles.CategoryOfClass | src/models/vehicles/Vehicle.java:10-14 | each subclass carries its own vehicle type; exactly the two electric classes are electric |
| Vehicles.SameVehicleIsEquivalence | src/models/vehicles/Vehicle.java:30-38 | `equals` (same class, same plate) is reflexive, symmetric and transitive; a car never equals an electric car with the same plate |
| Vehicles.UnitsHash | src/models/vehicles/Vehicle.java:42 | the `h = 31 * h + u` fold over code units stays a 32-bit `int` |
| Vehicles.HashPolynomialAppend | src/models/vehicles/Vehicle.java:42 | one more code unit multiplies the documented polynomial by 31 and adds the unit |
| Vehicles.UnitsHashIsPolynomial | src/models/vehicles/Vehicle.java:42 | the fold equals the documented `u[0]·31^(n-1) + … + u[n-1]`, truncated to 32 bits once at the end |
| Vehicles.StringHash | src/models/vehicles/Vehicle.java:40-43 | the plate's hash is the 32-bit fold over its UTF-16 code units |
| Vehicles.SupplementaryHash | src/models/vehicles/Vehicle.java:42 | U+10000 hashes as its surrogates, 31·0xD800 + 0xDC00 = 1770496, and U+FFFF as 0xFFFF |
| Vehicles.EqualVehiclesEqualHash | src/models/vehicles/Vehicle.java:40-43 | equal vehicles have equal hash codes |
| Gates.EntryExitGate.constructor | src/models/gates/EntryExitGate.java:10-16 | a new gate has the given id, location, floor and type and is operational |
| Gates.EntryExitGate.SetOperational | src/models/gates/EntryExitGate.java:38-40 | only the operational flag changes, to the given value |
| Gates.GateDirections | src/models/gates/EntryExitGate.java:42-48 | a closed gate processes nothing; ENTRY never exits, EXIT never enters; an operational gate does at least one; both iff operational and BOTH |
| Spots.ParkingSpot.constructor | src/models/parking/ParkingSpot.java:15-21 | a new spot keeps its id, floor, type and price, is AVAILABLE with no occupant, and is occupancy-consistent |
| Spots.ParkingSpot.Occupy | src/models/parking/ParkingSpot.java:31-37 | succeeds iff the spot could accommodate the vehicle; then OCCUPIED by it, otherwise (the exception) unchanged |
| Spots.ParkingSpot.Free | src/models/parking/ParkingSpot.java:39-44 | returns the previous occupant and leaves the spot AVAILABLE and empty, whatever its status |
| Spots.ParkingSpot.SetStatus | src/models/parking/ParkingSpot.java:70-72 | only the status changes, to the given value |
| Spots.OccupyThenFree | src/models/parking/ParkingSpot.java:31-44 | occupying then freeing returns the vehicle and restores an AVAILABLE, empty spot |
| Spots.OccupyTwice | src/models/parking/ParkingSpot.java:27-37 | a second occupy fails, whoever asks, and the first occupant stays |
| Spots.FreeTwice | src/models/parking/ParkingSpot.java:39-44 | a second free reports no occupant and leaves the same state |
| Spots.SetStatusBreaksOccupancy | src/models/parking/ParkingSpot.java:70-72 | an occupied spot set to MAINTENANCE keeps its occupant, breaking "occupant iff OCCUPIED" |
| Tickets.WholeMinutes | src/models/parking/Ticket.java:33-36 | whole minutes of a span, truncated toward zero for either sign |
| Tickets.Ticket.constructor | src/models/parking/Ticket.java:17-25 | the id is the UUID's first eight characters; the vehicle, spot, gate and entry time are recorded; the ticket is unpaid, amount 0.0, no exit time |
| Tickets.Ticket.CompleteExit | src/models/parking/Ticket.java:27-31 | records the exit time, the amount and paid |
| Tickets.Ticket.DurationMinutes | src/models/parking/Ticket.java:33-36 | whole minutes from entry to the exit time if set, else to `now`, truncated toward zero also when the clock reads earlier than the entry |
| Tickets.ClosedDurationIgnoresClock | src/models/parking/Ticket.java:33-36 | once the exit time is set, the duration does not depend on `now` |
| Pricing.BilledHours | src/strategies/pricing/HourlyPricingStrategy.java:13-14 | the least whole number of hours, at least one, that covers the minutes |
| Pricing.BilledHoursMonotone | src/strategies/pricing/HourlyPricingStrategy.java:14 | more minutes never bill fewer hours |
| Pricing.HourlyCost | src/strategies/pricing/HourlyPricingStrategy.java:16-25 | one billed hour costs at least the base rate 2.0 |
| Pricing.FareClosedForm | src/strategies/pricing/HourlyPricingStrategy.java:9-27 | the fare is billed hours times the hourly cost, hence at least 2.0; the 1.0 minimum never binds |
| Pricing.FareMonotone | src/strategies/pricing/HourlyPricingStrategy.java:13-27 | for fixed vehicle and spot types, a longer stay never costs less |
| Pricing.PricingExamples | src/strategies/pricing/HourlyPricingStrategy.java:7-27 | 0/45/60/65 minutes bill 1/1/1/2 hours; 30 min STANDARD car is 2.0; 70 min electric car on CHARGING is 11.0 |
| Pricing.CalculatePrice | src/strategies/pricing/HourlyPricingStrategy.java:11-28 | every ticket, open or closed and whatever the clock, costs its billed hours (of the whole minutes to its exit time or to now) times the hourly cost, at least 2.0; a span under one minute, or a clock set back before entry, costs exactly one hour |
| Pricing.ClockSetBackPrice | src/strategies/pricing/HourlyPricingStrategy.java:11-28 | an electric car on a charging spot with the clock 600 s before entry has −10 minutes and pays the one-hour 5.5 |
| Allocation.FitSpotsScoreAtMostThree | src/strategies/allocation/PreferredSpotTypeStrategy.java:27-47 | a spot that fits scores 1..3, and exactly 1 for a vehicle that needs charging or a truck (5 and 10 never survive the filter) |
| Allocation.KeyLeTotal | src/strategies/allocation/PreferredSpotTypeStrategy.java:20-23 | the chained comparator is total |
| Allocation.KeyLeTransitive | src/strategies/allocation/PreferredSpotTypeStrategy.java:20-23 | the chained comparator is transitive |
| Allocation.KeyLeAntisymmetric | src/strategies/allocation/PreferredSpotTypeStrategy.java:20-23 | the chained comparator is antisymmetric: equal keys only for equal score, distance and id |
| Allocation.FindSpot | src/strategies/allocation/PreferredSpotTypeStrategy.java:17-25 | the result is a listed spot that can accommodate the vehicle; it is empty iff no listed spot can |
| Allocation.FindSpotIsBest | src/strategies/allocation/PreferredSpotTypeStrategy.java:18-24 | the result's key is no greater than any other accommodating spot's key |
| Allocation.BestSpotIsUnique | src/strategies/allocation/NearestAvailableStrategy.java:16-19 | with distinct ids, two lists of the same spots have the same best spot |
| Allocation.FindSpotOrderIndependent | src/strategies/allocation/NearestAvailableStrategy.java:14-19 | with distinct ids, the result does not depend on the order of the list |
| Allocation.FindSpotHonoursNeeds | src/strategies/allocation/PreferredSpotTypeStrategy.java:19-40 | either strategy gives a vehicle that needs charging a charging spot and a truck a large spot |
| Allocation.NearestIsNearest | src/strategies/allocation/NearestAvailableStrategy.java:14-19 | the nearest strategy's spot is no farther from the gate than any candidate, and has the smallest id among equally near ones |
| Allocation.PreferredPacksStandard | src/strategies/allocation/PreferredSpotTypeStrategy.java:42-46 | a car or bike gets a STANDARD spot whenever one is a candidate, on whatever floor |
| Allocation.PreferredScoreFirst | src/strategies/allocation/PreferredSpotTypeStrategy.java:20-23 | the preferred strategy's spot has the lowest score, and among equal scores the least distance |
| Utf16.CharUnits | src/strategies/allocation/NearestAvailableStrategy.java:18 | a character below U+10000 is the single unit equal to it; any other character is a high and a low surrogate that decode back to it; every unit is below 0x10000 |
| Utf16.CharUnitsInjective | src/strategies/allocation/NearestAvailableStrategy.java:18 | a character is recovered from its code units |
| Utf16.CodeUnits | src/strategies/allocation/NearestAvailableStrategy.java:18 | a string has between one and two code units per character |
| Utf16.CodeUnitsInjective | src/strategies/allocation/NearestAvailableStrategy.java:18 | different ids have different code units |
| Utf16.SurrogatePairExample | src/models/vehicles/Vehicle.java:42 | U+10000 is D800 DC00, U+10FFFF is DBFF DFFF, U+FFFF is one unit |
| StringOrder.UnitsLeReflexive | src/strategies/allocation/NearestAvailableStrategy.java:18 | the code-unit order is reflexive |
| StringOrder.UnitsLeAntisymmetric | src/strategies/allocation/NearestAvailableStrategy.java:18 | the code-unit order is antisymmetric |
| StringOrder.UnitsLeTransitive | src/strategies/allocation/NearestAvailableStrategy.java:18 | the code-unit order is transitive |
| StringOrder.UnitsLeTotal | src/strategies/allocation/NearestAvailableStrategy.java:18 | the code-unit order is total |
| StringOrder.SupplementarySortsBySurrogate | src/strategies/allocation/NearestAvailableStrategy.java:18 | an id starting with U+10000 sorts before one starting with U+FFFF, as Java's code-unit order says |
| StringOrder.LexLeReflexive | src/strategies/allocation/NearestAvailableStrategy.java:18 | the id order is reflexive |
| StringOrder.LexLeAntisymmetric | src/strategies/allocation/NearestAvailableStrategy.java:18 | the id order is antisymmetric: only equal ids compare equal both ways |
| StringOrder.LexLeTransitive | src/strategies/allocation/NearestAvailableStrategy.java:18 | the id order is transitive |
| StringOrder.LexLeTotal | src/strategies/allocation/NearestAvailableStrategy.java:18 | the id order is total |
| Decimal.NatToDigits | src/factories/ParkingSpotFactory.java:20 | `%d` writes at least one digit and only digits |
| Decimal.DigitsRoundTrip | src/factories/ParkingSpotFactory.java:20 | reading back the digits `%d` writes gives the number |
| Decimal.LeadingZerosIgnored | src/factories/ParkingSpotFactory.java:20 | zero padding does not change the number a digit string denotes |
| Decimal.ZeroPadded | src/factories/ParkingSpotFactory.java:20 | `%03d` writes exactly the width, or all the digits when there are more, and only digits |
| Decimal.ZeroPaddedShape | src/factories/ParkingSpotFactory.java:20 | the padded text is zeros followed by the number's own digits |
| Decimal.ZeroPaddedRoundTrip | src/factories/ParkingSpotFactory.java:20 | a zero-padded number reads back as the number |
| SpotFactory.TagsDiffer | src/factories/ParkingSpotFactory.java:20-32 | the tags S, C, L, CL followed by digits never produce the same text for different types |
| SpotFactory.SpotIdInjective | src/factories/ParkingSpotFactory.java:20-32 | on one floor, an id determines its spot type and running number |
| SpotFactory.Block | src/factories/ParkingSpotFactory.java:19-21 | one loop plans exactly its count of spots |
| SpotFactory.BlockAt | src/factories/ParkingSpotFactory.java:19-21 | the k-th spot of a loop has running number k+1 and the loop's type |
| SpotFactory.LayoutAt | src/factories/ParkingSpotFactory.java:15-35 | every position of the floor holds the type of its block and the id numbered from the block's start |
| SpotFactory.LayoutIdsDistinct | src/factories/ParkingSpotFactory.java:15-35 | the floor has standard+charging+large+chargingLarge spots (negatives as 0), with pairwise distinct ids |
| SpotFactory.CreateSpot | src/factories/ParkingSpotFactory.java:11-13 | a new spot with the given id, floor and type at base price 2.0, AVAILABLE and empty |
| SpotFactory.AppendBlock | src/factories/ParkingSpotFactory.java:19-21 | one counted loop appends new spots as its block plans, keeping the earlier ones |
| SpotFactory.CreateSpotsForFloor | src/factories/ParkingSpotFactory.java:15-36 | the result is the floor's layout: new spots, on the floor, at 2.0, AVAILABLE, empty, blocks in order STANDARD, CHARGING, LARGE, CHARGING_LARGE |
| Status.OnFloorAdd | src/services/ParkingLotService.java:116-120 | adding a spot adds it to its own floor's set |
| Status.OnFloorAddElsewhere | src/services/ParkingLotService.java:116-120 | adding a spot leaves every other floor's set unchanged |
| Status.StatusPartition | src/services/ParkingLotService.java:191-204 | a set of spots has as many members as its four status classes together |
| Status.ReservedOnlyInTotal | src/services/ParkingLotService.java:191-204 | for counters that describe a floor, the total exceeds available+occupied+maintenance by exactly the RESERVED spots |
| Status.FloorStatus.constructor | src/services/ParkingLotService.java:187-189 | a new floor's counters are all zero |
| Status.FloorStatus.AddSpot | src/services/ParkingLotService.java:191-204 | the total grows by one, and the counter of the spot's status does too; RESERVED adds only to the total |
| Status.SnapshotAgrees | src/services/ParkingLotService.java:116-121 | counting from a status snapshot that matches the spots counts what the spots hold |
| Status.CensusAdd | src/services/ParkingLotService.java:193-203 | one more spot adds one to its own status class only |
| Status.SnapshotCountsAdd | src/services/ParkingLotService.java:191-204 | counting one more spot adds it to the counters of its status |
| Status.FloorCountsStep | src/services/ParkingLotService.java:116-121 | counting one more spot changes only its own floor's counters |
| Status.FloorCountsEmpty | src/services/ParkingLotService.java:118-119 | a floor with no spot counted has all counters at zero, as a fresh `FloorStatus` |
| Status.FloorCountsOfSet | src/services/ParkingLotService.java:116-121 | counting a duplicate-free sequence spot by spot gives the counts of its set of spots, per floor |
| Status.CountsOfVisitedStep | src/services/ParkingLotService.java:116-121 | adding one more spot to its floor's counters keeps them the counts of the spots seen |
| Status.CountSpot | src/services/ParkingLotService.java:117-120 | a floor's counter object is made on first sight and counts the spot; no other floor's object changes |
| Status.CountFloors | src/services/ParkingLotService.java:114-121 | one new counter object per floor that has a spot, and each counts exactly that floor's spots by status |
| ParkingLot.ParkingLotService.constructor | src/services/ParkingLotService.java:22-27 | empty registries with the given name and strategies; the invariants hold |
| ParkingLot.ParkingLotService.SetPricingStrategy | src/services/ParkingLotService.java:51-53 | only the pricing strategy changes, so the registry and ticket invariants are kept |
| ParkingLot.ParkingLotService.SetAllocationStrategy | src/services/ParkingLotService.java:55-57 | only the allocation strategy changes, so the registry and ticket invariants are kept |
| ParkingLot.ParkingLotService.AddParkingSpots | src/services/ParkingLotService.java:43-45 | every spot is filed under its id; the last entry per id wins; untouched ids keep their spot; nothing is removed; the held-tickets invariant is kept |
| ParkingLot.ParkingLotService.AddGates | src/services/ParkingLotService.java:47-49 | every gate is filed under its id; the last entry per id wins; untouched ids keep their gate; nothing is removed |
| ParkingLot.ParkingLotService.GetAvailableSpots | src/services/ParkingLotService.java:101-105 | exactly the registered AVAILABLE spots, each once |
| ParkingLot.ParkingLotService.GetAvailableSpotsForFloor | src/services/ParkingLotService.java:107-111 | exactly the registered AVAILABLE spots on the floor, each once |
| ParkingLot.ParkingLotService.GetOperationalGates | src/services/ParkingLotService.java:134-138 | exactly the registered operational gates, each once |
| ParkingLot.ParkingLotService.FindSpotById | src/services/ParkingLotService.java:126-128 | present iff the id is registered, and then the spot with that id |
| ParkingLot.ParkingLotService.FindActiveTicket | src/services/ParkingLotService.java:130-132 | present iff the ticket id is active, and then the ticket with that id |
| ParkingLot.ParkingLotService.SelectSpot | src/services/ParkingLotService.java:65-70 | empty iff no registered spot can accommodate the vehicle; otherwise a registered spot that the strategy ranks first among all registered candidates |
| ParkingLot.ParkingLotService.ParkVehicle | src/services/ParkingLotService.java:59-79 | fails with no change iff the gate is unknown, cannot process entry, or no spot fits; otherwise the first-ranked spot becomes OCCUPIED by the vehicle, a new open ticket is filed under its id, no other spot changes, and the held-tickets invariant is kept |
| ParkingLot.ParkingLotService.Admit | src/services/ParkingLotService.java:72-78 | the spot becomes OCCUPIED by the vehicle and a new open ticket for it is filed; the held-tickets invariant is kept |
| ParkingLot.ParkingLotService.ExitVehicle | src/services/ParkingLotService.java:81-99 | fails with no change iff the ticket is not active or the gate is unknown or cannot process exit; otherwise the ticket is paid at the price of its open stay, its spot is AVAILABLE and empty, it leaves the registry, and the held-tickets invariant is kept |
| ParkingLot.ParkingLotService.GetStatus | src/services/ParkingLotService.java:113-124 | the name, the number of active tickets, and one counter object per floor with a registered spot that counts exactly that floor's spots by status |
| ParkingLot.ExitTwice | src/services/ParkingLotService.java:81-99 | after a successful exit, a second exit with the same id fails, and the first charge is the price of the ticket as it was |

## Left out

- Singleton access (`getInstance`, `ParkingLotService.java:14,29-41`): the coordinator is an explicitly constructed object.
- Concurrency (`ConcurrentHashMap`, `synchronized`): the registries are sequential maps. The source's select-then-occupy is not atomic either.
- Clock and randomness (`LocalDateTime.now()`, `UUID.randomUUID()`): both are parameters.
  - `now` counts whole seconds, so sub-second clock precision is not modelled.
  - `exitVehicle` reads the clock twice, once while pricing and once in `completeExit`. The model uses one `now` for both.
- `double` arithmetic: prices are exact `real`s. All constants are multiples of 0.5, so no rounding occurs for realistic durations.
  - `ParkingSpot.basePrice` is stored but never read by pricing.
- Pricing.BilledHours: computes `ceil(minutes / 60.0)` in exact integer arithmetic. It does not model the `double` rounding of `minutes / 60.0`, which matters only for durations beyond 2^53 minutes.
- Status.FloorStatus.AddSpot: the counters are unbounded `nat`s. They do not model Java `int` overflow, which needs more than 2^31 spots on one floor.
- ParkingLot.ParkingLotService.GetStatus: `activeVehicles` is the unbounded size of the ticket map. There is no `int` conversion.
- Allocation.Distance: the floor distance `Math.abs(floor - gateFloor)` is computed on unbounded integers. It does not model `int` overflow for floors near ±2^31.
- Null strategies: a null pricing or allocation strategy makes the source throw. Here both strategies are always set, by the constructor and the setters.
- Strings holding an unpaired surrogate: a Java `String` may contain one, and `compareTo`/`hashCode` read it as a single code unit. A Dafny `char` excludes surrogates, so ids and plates in the model are always well-formed Unicode and such strings are not representable.
- SpotFactory.SpotId: ids use the ASCII digits '0'–'9', as `String.format` writes them when the default locale's zero digit is '0'. Under a locale with other digits (Arabic-Indic, say) the source's id text differs, and since those digits sort after the letters, so can the id tie-break between a CHARGING and a CHARGING_LARGE spot of equal score and distance.
- Presentation: all `toString`/`String.format` rendering, display names and descriptions (`getDescription`, `getDisplayName`, `getStrategyName`).
- Thin or interface-only files: `src/factories/GateFactory.java`, `src/factories/VehicleFactory.java`, `src/strategies/allocation/SlotAllocationStrategy.java`, `src/strategies/pricing/PricingStrategy.java` and the demo driver `src/ParkingLotDemo.java`. They hold no decision logic.
- Getters: the model's fields are public, so `getFloor`, `getStatus` and the rest need no separate member. The same goes for the `ParkingLotStatus` accessors.
- Spots.ParkingSpot.Occupy: the source throws `IllegalStateException`; the model returns `false` and leaves the spot unchanged. The coordinator only occupies a spot it has just found accommodating, so that path is never taken from `ParkVehicle`.

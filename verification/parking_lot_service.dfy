/**
 * The parking coordinator (src/services/ParkingLotService.java): registries
 * of spots, gates and active tickets keyed by id, entry through `ParkVehicle`,
 * exit through `ExitVehicle`, and the per-floor status report.
 *
 * The source's process-wide singleton becomes an explicitly constructed
 * object; its concurrent maps become sequential maps. Clock readings (whole
 * seconds) and the random UUID a ticket id is cut from are parameters.
 */
module ParkingLot {
  import opened Wrappers
  import opened Enums
  import opened Vehicles
  import opened Gates
  import opened Spots
  import opened Tickets
  import opened Allocation
  import opened Pricing
  import opened Status

  /** The ticket is open and its spot is OCCUPIED by the ticket's vehicle. */
  ghost predicate Held(t: Ticket)
    reads t, t.assignedSpot
  {
    t.IsOpen() && t.assignedSpot.status == OCCUPIED && t.assignedSpot.currentVehicle == Some(t.vehicle)
  }

  class ParkingLotService {
    const parkingLotName: string
    var allSpots: map<string, ParkingSpot>
    var gates: map<string, EntryExitGate>
    var activeTickets: map<string, Ticket>
    var pricingStrategy: PricingStrategy
    var allocationStrategy: AllocationStrategy

    /** Every registry entry is filed under its own id, so distinct keys hold distinct objects. */
    ghost predicate Valid()
      reads this
    {
      (forall id :: id in allSpots ==> allSpots[id].spotId == id) &&
      (forall id :: id in gates ==> gates[id].gateId == id) &&
      (forall id :: id in activeTickets ==> activeTickets[id].ticketId == id)
    }

    /** The spots that active tickets point to. */
    ghost function TicketSpots(): set<ParkingSpot>
      reads this
    {
      set id | id in activeTickets :: activeTickets[id].assignedSpot
    }

    /**
     * Every active ticket is open and holds its spot, and no spot is held by
     * two active tickets. `ParkVehicle` and `ExitVehicle` keep this; an
     * administrative `SetStatus` on a held spot can break it.
     */
    ghost predicate TicketsHeld()
      reads this, activeTickets.Values, TicketSpots()
    {
      (forall id :: id in activeTickets ==> Held(activeTickets[id])) &&
      (forall i, j :: i in activeTickets && j in activeTickets && i != j ==>
        activeTickets[i].assignedSpot != activeTickets[j].assignedSpot)
    }

    /** Some registered spot can accommodate `v`. */
    ghost predicate HasRoomFor(v: Vehicle)
      reads this, allSpots.Values
    {
      exists id :: id in allSpots && allSpots[id].CanAccommodate(v)
    }

    /** The spot filed under `spotId` is the one the allocation strategy ranks first for `v` at `gate`. */
    ghost predicate RankedFirst(spotId: string, v: Vehicle, gate: EntryExitGate)
      reads this, allSpots.Values
    {
      spotId in allSpots && allSpots[spotId].CanAccommodate(v) &&
      forall id :: id in allSpots && allSpots[id].CanAccommodate(v) ==>
        KeyLe(Key(allocationStrategy, v, gate, allSpots[spotId]), Key(allocationStrategy, v, gate, allSpots[id]))
    }

    /** A coordinator with empty registries and both strategies set. */
    constructor (name: string, pricing: PricingStrategy, allocation: AllocationStrategy)
      ensures parkingLotName == name && pricingStrategy == pricing && allocationStrategy == allocation
      ensures allSpots == map[] && gates == map[] && activeTickets == map[]
      ensures Valid() && TicketsHeld()
    {
      parkingLotName := name;
      allSpots := map[];
      gates := map[];
      activeTickets := map[];
      pricingStrategy := pricing;
      allocationStrategy := allocation;
    }

    method SetPricingStrategy(pricing: PricingStrategy)
      modifies this`pricingStrategy
      ensures pricingStrategy == pricing
      ensures old(Valid()) ==> Valid()
      ensures old(TicketsHeld()) ==> TicketsHeld()
    {
      pricingStrategy := pricing;
    }

    method SetAllocationStrategy(allocation: AllocationStrategy)
      modifies this`allocationStrategy
      ensures allocationStrategy == allocation
      ensures old(Valid()) ==> Valid()
      ensures old(TicketsHeld()) ==> TicketsHeld()
    {
      allocationStrategy := allocation;
    }

    /**
     * Files every spot under its id: later entries overwrite earlier ones
     * with the same id, and no entry is removed.
     */
    method AddParkingSpots(spots: seq<ParkingSpot>)
      requires Valid()
      modifies this`allSpots
      ensures Valid()
      ensures forall id :: id in allSpots <==> id in old(allSpots) || exists k :: 0 <= k < |spots| && spots[k].spotId == id
      ensures forall id :: id in old(allSpots) && (forall k :: 0 <= k < |spots| ==> spots[k].spotId != id) ==>
                allSpots[id] == old(allSpots)[id]
      ensures forall k :: 0 <= k < |spots| && (forall j :: k < j < |spots| ==> spots[j].spotId != spots[k].spotId) ==>
                allSpots[spots[k].spotId] == spots[k]
      ensures old(TicketsHeld()) ==> TicketsHeld()
    {
      var i := 0;
      while i < |spots|
        invariant 0 <= i <= |spots|
        invariant Valid()
        invariant activeTickets == old(activeTickets)
        invariant forall id :: id in allSpots <==> id in old(allSpots) || exists k :: 0 <= k < i && spots[k].spotId == id
        invariant forall id :: id in old(allSpots) && (forall k :: 0 <= k < i ==> spots[k].spotId != id) ==>
                    allSpots[id] == old(allSpots)[id]
        invariant forall k :: 0 <= k < i && (forall j :: k < j < i ==> spots[j].spotId != spots[k].spotId) ==>
                    allSpots[spots[k].spotId] == spots[k]
      {
        allSpots := allSpots[spots[i].spotId := spots[i]];
        i := i + 1;
      }
    }

    /**
     * Files every gate under its id: later entries overwrite earlier ones
     * with the same id, and no entry is removed.
     */
    method AddGates(gateList: seq<EntryExitGate>)
      requires Valid()
      modifies this`gates
      ensures Valid()
      ensures forall id :: id in gates <==> id in old(gates) || exists k :: 0 <= k < |gateList| && gateList[k].gateId == id
      ensures forall id :: id in old(gates) && (forall k :: 0 <= k < |gateList| ==> gateList[k].gateId != id) ==>
                gates[id] == old(gates)[id]
      ensures forall k :: 0 <= k < |gateList| && (forall j :: k < j < |gateList| ==> gateList[j].gateId != gateList[k].gateId) ==>
                gates[gateList[k].gateId] == gateList[k]
      ensures old(TicketsHeld()) ==> TicketsHeld()
    {
      var registry := gates;
      var i := 0;
      while i < |gateList|
        invariant 0 <= i <= |gateList|
        invariant forall id :: id in registry ==> registry[id].gateId == id
        invariant forall id :: id in registry <==> id in gates || exists k :: 0 <= k < i && gateList[k].gateId == id
        invariant forall id :: id in gates && (forall k :: 0 <= k < i ==> gateList[k].gateId != id) ==>
                    registry[id] == gates[id]
        invariant forall k :: 0 <= k < i && (forall j :: k < j < i ==> gateList[j].gateId != gateList[k].gateId) ==>
                    registry[gateList[k].gateId] == gateList[k]
      {
        registry := registry[gateList[i].gateId := gateList[i]];
        i := i + 1;
      }
      gates := registry;
    }

    /** `getAvailableSpots`: each registered AVAILABLE spot once, in no particular order. */
    method GetAvailableSpots() returns (list: seq<ParkingSpot>)
      ensures forall s :: s in list <==> s in allSpots.Values && s.IsAvailable()
      ensures forall i, j :: 0 <= i < j < |list| ==> list[i] != list[j]
    {
      list := [];
      var remaining := allSpots.Values;
      while remaining != {}
        invariant remaining <= allSpots.Values
        invariant forall s :: s in list <==> s in allSpots.Values - remaining && s.IsAvailable()
        invariant forall i, j :: 0 <= i < j < |list| ==> list[i] != list[j]
        decreases remaining
      {
        var s :| s in remaining;
        if s.IsAvailable() {
          list := list + [s];
        }
        remaining := remaining - {s};
      }
    }

    /** `getAvailableSpotsForFloor`: each registered AVAILABLE spot on `floor` once. */
    method GetAvailableSpotsForFloor(floor: int) returns (list: seq<ParkingSpot>)
      ensures forall s :: s in list <==> s in allSpots.Values && s.floor == floor && s.IsAvailable()
      ensures forall i, j :: 0 <= i < j < |list| ==> list[i] != list[j]
    {
      list := [];
      var remaining := allSpots.Values;
      while remaining != {}
        invariant remaining <= allSpots.Values
        invariant forall s :: s in list <==> s in allSpots.Values - remaining && s.floor == floor && s.IsAvailable()
        invariant forall i, j :: 0 <= i < j < |list| ==> list[i] != list[j]
        decreases remaining
      {
        var s :| s in remaining;
        if s.floor == floor && s.IsAvailable() {
          list := list + [s];
        }
        remaining := remaining - {s};
      }
    }

    /** `getOperationalGates`: each registered operational gate once. */
    method GetOperationalGates() returns (list: seq<EntryExitGate>)
      ensures forall g :: g in list <==> g in gates.Values && g.isOperational
      ensures forall i, j :: 0 <= i < j < |list| ==> list[i] != list[j]
    {
      list := [];
      var remaining := gates.Values;
      while remaining != {}
        invariant remaining <= gates.Values
        invariant forall g :: g in list <==> g in gates.Values - remaining && g.isOperational
        invariant forall i, j :: 0 <= i < j < |list| ==> list[i] != list[j]
        decreases remaining
      {
        var g :| g in remaining;
        if g.isOperational {
          list := list + [g];
        }
        remaining := remaining - {g};
      }
    }

    /** `findSpotById`: the spot filed under `spotId`, which carries that id. */
    function FindSpotById(spotId: string): (r: Option<ParkingSpot>)
      reads this
      requires Valid()
      ensures r.Some? <==> spotId in allSpots
      ensures r.Some? ==> r.value in allSpots.Values && r.value.spotId == spotId
    {
      if spotId in allSpots then Some(allSpots[spotId]) else None
    }

    /** `findActiveTicket`: the active ticket filed under `ticketId`, which carries that id. */
    function FindActiveTicket(ticketId: string): (r: Option<Ticket>)
      reads this
      requires Valid()
      ensures r.Some? <==> ticketId in activeTickets
      ensures r.Some? ==> r.value in activeTickets.Values && r.value.ticketId == ticketId
    {
      if ticketId in activeTickets then Some(activeTickets[ticketId]) else None
    }

    /**
     * The allocation step of `parkVehicle`: the strategy's choice among the
     * available spots, which is the first-ranked registered spot that can
     * accommodate `vehicle`, or nothing when there is none.
     */
    method SelectSpot(vehicle: Vehicle, gate: EntryExitGate) returns (r: Option<ParkingSpot>)
      requires Valid()
      ensures r.None? <==> !HasRoomFor(vehicle)
      ensures r.Some? ==> r.value.spotId in allSpots && allSpots[r.value.spotId] == r.value &&
                          RankedFirst(r.value.spotId, vehicle, gate)
    {
      var availableSpots := GetAvailableSpots();
      r := FindSpot(allocationStrategy, vehicle, availableSpots, gate);
      if r.None? {
        forall id | id in allSpots
          ensures !allSpots[id].CanAccommodate(vehicle)
        {
          assert allSpots[id] in allSpots.Values;
        }
        return;
      }
      var spot := r.value;
      FindSpotIsBest(allocationStrategy, vehicle, availableSpots, gate);
      forall id | id in allSpots && allSpots[id].CanAccommodate(vehicle)
        ensures KeyLe(Key(allocationStrategy, vehicle, gate, spot), Key(allocationStrategy, vehicle, gate, allSpots[id]))
      {
        assert allSpots[id] in allSpots.Values;
      }
    }

    /**
     * `parkVehicle`. Fails, changing nothing, when the gate is unknown or
     * cannot process entry, or when no registered spot can accommodate the
     * vehicle. Otherwise the strategy's first-ranked spot becomes OCCUPIED by
     * the vehicle and a new open ticket is filed under the first eight
     * characters of `uuid`; no other spot changes.
     */
    method ParkVehicle(vehicle: Vehicle, entryGateId: string, uuid: string, now: int) returns (ticket: Option<Ticket>)
      requires Valid()
      requires |uuid| == UuidLength
      modifies this`activeTickets, allSpots.Values
      ensures Valid()
      ensures ticket.None? <==>
                entryGateId !in gates || !gates[entryGateId].CanProcessEntry() || !old(HasRoomFor(vehicle))
      ensures ticket.None? ==>
                activeTickets == old(activeTickets) &&
                forall s :: s in allSpots.Values ==> s.status == old(s.status) && s.currentVehicle == old(s.currentVehicle)
      ensures ticket.Some? ==>
                var t := ticket.value;
                var spotId := t.assignedSpot.spotId;
                fresh(t) && t.ticketId == uuid[..TicketIdLength] && t.IsOpen() &&
                t.vehicle == vehicle && t.entryGate == entryGateId && t.entryTime == now &&
                spotId in allSpots && allSpots[spotId] == t.assignedSpot &&
                old(RankedFirst(spotId, vehicle, gates[entryGateId])) &&
                t.assignedSpot.status == OCCUPIED && t.assignedSpot.currentVehicle == Some(vehicle) &&
                activeTickets == old(activeTickets)[t.ticketId := t] &&
                (forall s :: s in allSpots.Values && s != t.assignedSpot ==>
                   s.status == old(s.status) && s.currentVehicle == old(s.currentVehicle))
      ensures ticket.Some? && uuid[..TicketIdLength] !in old(activeTickets) ==> |activeTickets| == old(|activeTickets|) + 1
      ensures old(TicketsHeld()) ==> TicketsHeld()
    {
      if entryGateId !in gates {
        return None;
      }
      var gate := gates[entryGateId];
      if !gate.CanProcessEntry() {
        return None;
      }

      var spotOpt := SelectSpot(vehicle, gate);
      if spotOpt.None? {
        return None;
      }
      var t := Admit(spotOpt.value, vehicle, entryGateId, uuid, now);
      ticket := Some(t);
    }

    /**
     * The admission step of `parkVehicle`: `spot` becomes OCCUPIED by
     * `vehicle` and a new open ticket for it is filed under the first eight
     * characters of `uuid`.
     */
    method Admit(spot: ParkingSpot, vehicle: Vehicle, entryGateId: string, uuid: string, now: int) returns (t: Ticket)
      requires Valid()
      requires |uuid| == UuidLength
      requires spot.CanAccommodate(vehicle)
      modifies this`activeTickets, spot`status, spot`currentVehicle
      ensures Valid()
      ensures fresh(t) && t.ticketId == uuid[..TicketIdLength] && t.IsOpen()
      ensures t.vehicle == vehicle && t.assignedSpot == spot && t.entryGate == entryGateId && t.entryTime == now
      ensures spot.status == OCCUPIED && spot.currentVehicle == Some(vehicle)
      ensures activeTickets == old(activeTickets)[t.ticketId := t]
      ensures old(TicketsHeld()) ==> TicketsHeld()
    {
      ghost var heldBefore := TicketsHeld();
      ghost var oldTickets := activeTickets;
      label BeforeOccupy:

      var occupied := spot.Occupy(vehicle);
      assert occupied;

      t := new Ticket(uuid, vehicle, spot, entryGateId, now);
      activeTickets := activeTickets[t.ticketId := t];

      if heldBefore {
        forall id | id in activeTickets && id != t.ticketId
          ensures activeTickets[id] == oldTickets[id] && Held(oldTickets[id])
          ensures oldTickets[id].assignedSpot != spot
        {
          assert old@BeforeOccupy(Held(oldTickets[id]));
        }
        assert Held(t);
        forall i, j | i in activeTickets && j in activeTickets && i != j
          ensures activeTickets[i].assignedSpot != activeTickets[j].assignedSpot
        {
          if i != t.ticketId && j != t.ticketId {
            assert oldTickets[i].assignedSpot != oldTickets[j].assignedSpot;
          }
        }
      }
    }

    /** The ticket and the spot an exit may change. */
    ghost function ExitFootprint(ticketId: string): set<object>
      reads this
    {
      if ticketId in activeTickets then {activeTickets[ticketId], activeTickets[ticketId].assignedSpot} else {}
    }

    /**
     * `exitVehicle`. Fails, changing nothing, when the ticket is not active
     * or the gate is unknown or cannot process exit. Otherwise the ticket is
     * priced while still open, closed as paid with that amount at `now`, its
     * spot is freed, and the ticket leaves the registry.
     */
    method ExitVehicle(ticketId: string, exitGateId: string, now: int) returns (closed: Option<Ticket>)
      requires Valid()
      modifies this`activeTickets, ExitFootprint(ticketId)
      ensures Valid()
      ensures closed.None? <==>
                ticketId !in old(activeTickets) || exitGateId !in gates || !gates[exitGateId].CanProcessExit()
      ensures closed.None? ==> activeTickets == old(activeTickets)
      ensures closed.None? && ticketId in activeTickets ==>
                unchanged(activeTickets[ticketId]) && unchanged(activeTickets[ticketId].assignedSpot)
      ensures closed.Some? ==>
                var t := closed.value;
                t == old(activeTickets[ticketId]) &&
                activeTickets == old(activeTickets) - {ticketId} &&
                t.isPaid && t.exitTime == Some(now) &&
                t.totalAmount == old(CalculatePrice(pricingStrategy, activeTickets[ticketId], now)) &&
                t.assignedSpot.status == AVAILABLE && t.assignedSpot.currentVehicle == None
      ensures old(TicketsHeld()) ==> TicketsHeld()
    {
      if ticketId !in activeTickets {
        return None;
      }
      var ticket := activeTickets[ticketId];

      if exitGateId !in gates {
        return None;
      }
      var gate := gates[exitGateId];
      if !gate.CanProcessExit() {
        return None;
      }

      ghost var heldBefore := TicketsHeld();
      ghost var oldTickets := activeTickets;
      var amount := CalculatePrice(pricingStrategy, ticket, now);
      ticket.CompleteExit(amount, now);

      var prior := ticket.assignedSpot.Free();
      activeTickets := activeTickets - {ticketId};
      closed := Some(ticket);

      if heldBefore {
        assert forall id :: id in activeTickets ==> id in oldTickets && id != ticketId && activeTickets[id] == oldTickets[id];
      }
    }

    /**
     * `getStatus`: one entry per floor that has a registered spot, counting
     * that floor's spots in total and by status, and the number of active
     * tickets.
     */
    method GetStatus() returns (status: ParkingLotStatus)
      ensures status.name == parkingLotName
      ensures status.activeVehicles == |activeTickets|
      ensures forall f :: f in status.floors <==> OnFloor(allSpots.Values, f) != {}
      ensures forall f :: f in status.floors ==>
                fresh(status.floors[f]) && status.floors[f].floor == f &&
                status.floors[f].Tallies(OnFloor(allSpots.Values, f))
    {
      var floorStatusMap := CountFloors(allSpots.Values);
      status := ParkingLotStatus(parkingLotName, floorStatusMap, |activeTickets|);
    }
  }

  /** A second exit with the same ticket id fails and leaves the first charge as it was. */
  method ExitTwice(lot: ParkingLotService, ticketId: string, gateId: string, now1: int, now2: int)
    returns (first: Option<Ticket>, second: Option<Ticket>)
    requires lot.Valid()
    modifies lot`activeTickets, lot.ExitFootprint(ticketId)
    ensures first.Some? ==> second.None?
    ensures first.Some? ==>
              ticketId in old(lot.activeTickets) &&
              first.value.totalAmount == old(CalculatePrice(lot.pricingStrategy, lot.activeTickets[ticketId], now1))
  {
    first := lot.ExitVehicle(ticketId, gateId, now1);
    second := lot.ExitVehicle(ticketId, gateId, now2);
  }
}

/**
 * A parking session (src/models/parking/Ticket.java). Clock readings are
 * whole seconds passed in by the caller; the ticket id is the first eight
 * characters of a caller-supplied UUID string.
 */
module Tickets {
  import opened Wrappers
  import opened Vehicles
  import opened Spots

  /** Length of the textual form of a UUID. */
  const UuidLength: nat := 36
  /** Length of a ticket id: the prefix kept from the UUID. */
  const TicketIdLength: nat := 8

  /** `Duration.toMinutes`: whole minutes in a span of seconds, truncated toward zero. */
  function WholeMinutes(seconds: int): (m: int)
    ensures seconds >= 0 ==> 0 <= m && 60 * m <= seconds < 60 * m + 60
    ensures seconds < 0 ==> m <= 0 && 60 * m - 60 < seconds <= 60 * m
  {
    if seconds >= 0 then seconds / 60 else -((-seconds) / 60)
  }

  class Ticket {
    const ticketId: string
    const vehicle: Vehicle
    const assignedSpot: ParkingSpot
    const entryGate: string
    const entryTime: int
    var exitTime: Option<int>
    var totalAmount: real
    var isPaid: bool

    /** The session is not closed yet: no exit time, nothing charged, unpaid. */
    ghost predicate IsOpen()
      reads this
    {
      exitTime == None && totalAmount == 0.0 && !isPaid
    }

    /** A new ticket is open, entered at `now`, with an eight-character id. */
    constructor (uuid: string, vehicle: Vehicle, assignedSpot: ParkingSpot, entryGate: string, now: int)
      requires |uuid| == UuidLength
      ensures ticketId == uuid[..TicketIdLength] && |ticketId| == TicketIdLength
      ensures this.vehicle == vehicle && this.assignedSpot == assignedSpot
      ensures this.entryGate == entryGate && entryTime == now
      ensures IsOpen()
    {
      ticketId := uuid[..TicketIdLength];
      this.vehicle := vehicle;
      this.assignedSpot := assignedSpot;
      this.entryGate := entryGate;
      entryTime := now;
      exitTime := None;
      totalAmount := 0.0;
      isPaid := false;
    }

    /** Closes the session at `now`, recording `amount` as paid. */
    method CompleteExit(amount: real, now: int)
      modifies this`exitTime, this`totalAmount, this`isPaid
      ensures exitTime == Some(now) && totalAmount == amount && isPaid
    {
      exitTime := Some(now);
      totalAmount := amount;
      isPaid := true;
    }

    /** Whole minutes from entry to the exit time, or to `now` while the session is open. */
    function DurationMinutes(now: int): (m: int)
      reads this
      ensures var end := exitTime.GetOr(now);
              end >= entryTime ==> 0 <= m && 60 * m <= end - entryTime < 60 * m + 60
      ensures var end := exitTime.GetOr(now);
              end < entryTime ==> m <= 0 && 60 * m - 60 < end - entryTime <= 60 * m
    {
      WholeMinutes(exitTime.GetOr(now) - entryTime)
    }
  }

  /** Once the exit time is recorded, the duration no longer depends on the clock. */
  lemma ClosedDurationIgnoresClock(t: Ticket, now1: int, now2: int)
    requires t.exitTime.Some?
    ensures t.DurationMinutes(now1) == t.DurationMinutes(now2)
  {
  }
}

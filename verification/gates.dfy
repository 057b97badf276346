/** Entry and exit gates (src/models/gates/EntryExitGate.java). */
module Gates {

  /** Directionality of a gate: entry only, exit only, or both. */
  datatype GateType = ENTRY | EXIT | BOTH

  class EntryExitGate {
    const gateId: string
    const location: string
    const floor: int
    const gateType: GateType
    var isOperational: bool

    /** A new gate is operational. */
    constructor (gateId: string, location: string, floor: int, gateType: GateType)
      ensures this.gateId == gateId && this.location == location
      ensures this.floor == floor && this.gateType == gateType
      ensures isOperational
    {
      this.gateId := gateId;
      this.location := location;
      this.floor := floor;
      this.gateType := gateType;
      this.isOperational := true;
    }

    /** Opens or closes the gate; identity, floor and type are constants and cannot change. */
    method SetOperational(operational: bool)
      modifies this`isOperational
      ensures isOperational == operational
    {
      isOperational := operational;
    }

    predicate CanProcessEntry()
      reads this
    {
      isOperational && (gateType == ENTRY || gateType == BOTH)
    }

    predicate CanProcessExit()
      reads this
    {
      isOperational && (gateType == EXIT || gateType == BOTH)
    }
  }

  /**
   * A closed gate processes nothing; an entry-only gate never lets a vehicle
   * out and an exit-only gate never lets one in; an operational gate does at
   * least one of the two, and both exactly when it is bidirectional.
   */
  lemma GateDirections(g: EntryExitGate)
    ensures !g.isOperational ==> !g.CanProcessEntry() && !g.CanProcessExit()
    ensures g.gateType == ENTRY ==> !g.CanProcessExit()
    ensures g.gateType == EXIT ==> !g.CanProcessEntry()
    ensures g.isOperational ==> g.CanProcessEntry() || g.CanProcessExit()
    ensures g.CanProcessEntry() && g.CanProcessExit() <==> g.isOperational && g.gateType == BOTH
  {
  }
}

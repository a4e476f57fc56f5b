/** Endpoints and their data toggles (ext/uspi/lib/usbendpoint.c). */
module UsbEndpoints {
  datatype Pid = Setup | Data0 | Data1

  datatype EndpointType = Control | Bulk | Interrupt

  /** `USBEndpointGetNextPID` */
  function PidFor(next: Pid, statusStage: bool): Pid {
    if statusStage then Data1 else next
  }

  /** `USBEndpointSkipPID` */
  function Skipped(next: Pid, packets: nat, statusStage: bool): Pid {
    if statusStage then Setup
    else match next
      case Setup => Data1
      case Data0 => if packets % 2 == 1 then Data1 else Data0
      case Data1 => if packets % 2 == 1 then Data0 else Data1
  }

  class Endpoint {
    const kind: EndpointType
    const directionIn: bool
    var nextPid: Pid

    /** Endpoint 0. */
    constructor Default()
      ensures kind == Control && nextPid == Setup
    {
      kind, directionIn, nextPid := Control, false, Setup;
    }

    constructor FromDescriptor(kind: EndpointType, directionIn: bool)
      requires !kind.Control?
      ensures this.kind == kind && this.directionIn == directionIn && nextPid == Data0
    {
      this.kind, this.directionIn, nextPid := kind, directionIn, Data0;
    }

    method SkipPid(packets: nat, statusStage: bool)
      requires statusStage ==> kind.Control?
      modifies this
      ensures nextPid == Skipped(old(nextPid), packets, statusStage)
    {
      if !statusStage {
        match nextPid
        case Setup => nextPid := Data1;
        case Data0 =>
          if packets % 2 == 1 {
            nextPid := Data1;
          }
        case Data1 =>
          if packets % 2 == 1 {
            nextPid := Data0;
          }
      } else {
        nextPid := Setup;
      }
    }

    method ResetPid()
      requires kind.Bulk?
      modifies this
      ensures nextPid == Data0
    {
      nextPid := Data0;
    }
  }

  // ----- Bulk and interrupt endpoints ----------------------------------------------------------

  datatype Use = Moved(packets: nat) | Reset

  ghost function After(next: Pid, uses: seq<Use>): Pid
    decreases |uses|
  {
    if uses == [] then next
    else After(if uses[0].Reset? then Data0 else Skipped(next, uses[0].packets, false), uses[1..])
  }

  /** The packets moved since the last reset. */
  ghost function SinceReset(before: nat, uses: seq<Use>): nat
    decreases |uses|
  {
    if uses == [] then before
    else SinceReset(if uses[0].Reset? then 0 else before + uses[0].packets, uses[1..])
  }

  function Parity(packets: nat): Pid {
    if packets % 2 == 1 then Data1 else Data0
  }

  /** The toggle of a bulk or interrupt endpoint is the parity of the packets moved since the last
      reset, however they were grouped into transactions. */
  lemma {:induction false} ToggleIsParity(before: nat, uses: seq<Use>)
    ensures After(Parity(before), uses) == Parity(SinceReset(before, uses))
    decreases |uses|
  {
    if uses != [] {
      if uses[0].Moved? {
        assert Skipped(Parity(before), uses[0].packets, false) == Parity(before + uses[0].packets);
      }
      ToggleIsParity(if uses[0].Reset? then 0 else before + uses[0].packets, uses[1..]);
    }
  }
}

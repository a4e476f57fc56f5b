/** Which transaction translator a device behind hubs uses (ext/uspi/lib/usbstandardhub.c,
    dwhcirootport.c, dwhcixferstagedata.c). */
module HubTree {
  datatype Speed = Low | Full | High

  datatype Device = Device(speed: Speed, address: nat, isSplit: bool, hubAddress: nat, hubPort: nat)

  /** The device on the root port. */
  function RootDevice(speed: Speed, address: nat): Device {
    Device(speed, address, false, 0, 1)
  }

  /** What a hub finds out about a port: whether its power can be switched on, the replies to its requests, the
      status bits, whether the device there can be initialized and configured and which address it gets, and the
      status that is read last. */
  datatype Port = Port(powers: bool, statusRead: bool, powered: bool, connected: bool, wasReset: bool, statusReread: bool, enabled: bool,
                       overCurrent: bool, lowSpeed: bool, highSpeed: bool, initialized: bool, address: nat,
                       configured: bool, lastRead: bool, lastOverCurrent: bool)

  datatype Slot = Empty | Occupied(device: Device)

  function PortSpeed(p: Port): Speed {
    if p.lowSpeed then Low else if p.highSpeed then High else Full
  }

  /** The device created for a port of the hub. */
  function Child(hub: Device, speed: Speed, port: nat, address: nat): Device {
    if !hub.isSplit && hub.speed.High? && !speed.High? then Device(speed, address, true, hub.address, port)
    else Device(speed, address, hub.isSplit, hub.hubAddress, hub.hubPort)
  }

  /** Does enumeration give up at this port? */
  predicate Fatal(p: Port) {
    p.statusRead && p.connected && p.wasReset && (!p.statusReread || (p.enabled && p.overCurrent))
  }

  predicate Usable(p: Port) {
    p.statusRead && p.connected && p.wasReset && p.statusReread && p.enabled && !p.overCurrent && p.initialized
  }

  /** The loop of `EnumeratePorts` that detects and initializes devices. */
  method DetectDevices(hub: Device, ports: seq<Port>) returns (ok: bool, slots: seq<Slot>)
    ensures ok <==> forall i :: 0 <= i < |ports| ==> !Fatal(ports[i])
    ensures |slots| == |ports|
    ensures forall i :: 0 <= i < |ports| && (forall j :: 0 <= j <= i ==> !Fatal(ports[j])) ==>
              slots[i] == (if Usable(ports[i]) then Occupied(Child(hub, PortSpeed(ports[i]), i + 1, ports[i].address)) else Empty)
              && SpeedShown(ports[i], slots[i])
  {
    slots := seq(|ports|, _ => Empty);
    var n := 0;
    while n < |ports|
      invariant n <= |ports| == |slots|
      invariant forall i :: 0 <= i < n ==> !Fatal(ports[i])
      invariant forall i :: 0 <= i < n ==>
                  slots[i] == if Usable(ports[i]) then Occupied(Child(hub, PortSpeed(ports[i]), i + 1, ports[i].address)) else Empty
      invariant forall i :: n <= i < |ports| ==> slots[i].Empty?
    {
      var p := ports[n];
      n := n + 1;
      if !p.statusRead || !p.connected || !p.wasReset {
        continue;
      }
      if !p.statusReread {
        return false, slots;
      }
      if !p.enabled {
        continue;
      }
      if p.overCurrent {
        return false, slots;
      }
      var speed := Full;
      if p.lowSpeed {
        speed := Low;
      } else if p.highSpeed {
        speed := High;
      }
      var isSplit, hubAddress, hubPort := hub.isSplit, hub.hubAddress, hub.hubPort;
      if !isSplit && hub.speed.High? && !speed.High? {
        isSplit, hubAddress, hubPort := true, hub.address, n;
      }
      if p.initialized {
        slots := slots[n - 1 := Occupied(Device(speed, p.address, isSplit, hubAddress, hubPort))];
      }
    }
    ok := true;
  }

  /** Does enumeration succeed? */
  predicate Enumerates(ports: seq<Port>, hubRead: bool, hubOverCurrent: bool) {
    && (forall i :: 0 <= i < |ports| ==> ports[i].powers && !Fatal(ports[i]) && !(ports[i].lastRead && ports[i].lastOverCurrent))
    && hubRead && !hubOverCurrent
  }

  /** The device of a port that shows low speed is a low-speed device, of one that shows high speed only a high-speed one,
      of any other a full-speed one; it has the address it was given. */
  predicate SpeedShown(p: Port, slot: Slot) {
    slot.Occupied? ==>
      && (slot.device.speed.Low? <==> p.lowSpeed) && (slot.device.speed.High? <==> p.highSpeed && !p.lowSpeed)
      && (slot.device.speed.Full? <==> !p.lowSpeed && !p.highSpeed) && slot.device.address == p.address
  }

  /** A port keeps its device if it can be configured. */
  function Kept(hub: Device, p: Port, n: nat): Slot {
    if Usable(p) && p.configured then Occupied(Child(hub, PortSpeed(p), n + 1, p.address)) else Empty
  }

  /** `EnumeratePorts`: powers the ports, detects devices, configures them, and checks for over-current. It fails if a
      port cannot be powered, or detection gives up, or the hub's status cannot be read, or over-current is found in
      the end; once all devices were configured, their ports keep them even so. A port with a status is powered. */
  method EnumeratePorts(hub: Device, ports: seq<Port>, hubRead: bool, hubOverCurrent: bool) returns (ok: bool, slots: seq<Slot>)
    requires ports != [] && forall i :: 0 <= i < |ports| ==> (ports[i].statusRead ==> ports[i].powered)
    ensures ok <==> Enumerates(ports, hubRead, hubOverCurrent)
    ensures |slots| == |ports|
    ensures (forall i :: 0 <= i < |ports| ==> ports[i].powers && !Fatal(ports[i])) ==>
              forall i :: 0 <= i < |ports| ==> slots[i] == Kept(hub, ports[i], i) && SpeedShown(ports[i], slots[i])
  {
    slots := seq(|ports|, _ => Empty);
    var n := 0;
    while n < |ports|
      invariant n <= |ports| && forall i :: 0 <= i < n ==> ports[i].powers
    {
      if !ports[n].powers {
        return false, slots;
      }
      n := n + 1;
    }
    ok, slots := DetectDevices(hub, ports);
    if !ok {
      return;
    }
    slots := ConfigureDevices(hub, ports, slots);
    if !hubRead || hubOverCurrent {
      return false, slots;
    }
    n := 0;
    while n < |ports|
      invariant n <= |ports| && (ok <==> forall i :: 0 <= i < n ==> !(ports[i].lastRead && ports[i].lastOverCurrent))
    {
      if ports[n].lastRead && ports[n].lastOverCurrent {
        ok := false;
      }
      n := n + 1;
    }
  }

  /** Devices that cannot be configured are removed. */
  method ConfigureDevices(hub: Device, ports: seq<Port>, detected: seq<Slot>) returns (slots: seq<Slot>)
    requires |detected| == |ports|
    requires forall i :: 0 <= i < |ports| ==>
               detected[i] == if Usable(ports[i]) then Occupied(Child(hub, PortSpeed(ports[i]), i + 1, ports[i].address)) else Empty
    ensures |slots| == |ports| && forall i :: 0 <= i < |ports| ==> slots[i] == Kept(hub, ports[i], i)
  {
    slots := detected;
    var n := 0;
    while n < |ports|
      invariant n <= |ports| == |slots|
      invariant forall i :: 0 <= i < n ==> slots[i] == Kept(hub, ports[i], i)
      invariant forall i :: n <= i < |ports| ==> slots[i] == detected[i]
    {
      if slots[n].Occupied? && !ports[n].configured {
        slots := slots[n := Empty];
      }
      n := n + 1;
    }
  }

  // ----- Paths in a tree of hubs -----------------------------------------------------------------------------

  /** A step from a hub to the device on one of its ports. */
  datatype Hop = Hop(port: nat, speed: Speed, address: nat)

  /** The device at the end of a path from the device on the root port. */
  function DeviceAt(root: Device, path: seq<Hop>): Device
    decreases |path|
  {
    if path == [] then root
    else
      var n := |path| - 1;
      Child(DeviceAt(root, path[..n]), path[n].speed, path[n].port, path[n].address)
  }

  /** The speed and the address of the hub that hop number `i` starts from. */
  function HubSpeed(root: Device, path: seq<Hop>, i: nat): Speed
    requires i <= |path|
  {
    if i == 0 then root.speed else path[i-1].speed
  }

  function HubAddress(root: Device, path: seq<Hop>, i: nat): nat
    requires i <= |path|
  {
    if i == 0 then root.address else path[i-1].address
  }

  /** Does hop `i` lead from a high-speed hub to a device that is not? */
  predicate SlowsDown(root: Device, path: seq<Hop>, i: nat)
    requires i < |path|
  {
    HubSpeed(root, path, i).High? && !path[i].speed.High?
  }

  lemma {:induction false} OwnData(root: Device, path: seq<Hop>)
    ensures DeviceAt(root, path).speed == HubSpeed(root, path, |path|) && DeviceAt(root, path).address == HubAddress(root, path, |path|)
  {}

  /** In any tree of hubs a device's translator is the hub and the port of the first step on its path at which
      a high-speed hub leads to a slower device; it has none if there is no such step. */
  lemma {:induction false} TranslatorIsFirstSlowdown(speed: Speed, address: nat, path: seq<Hop>, i: nat)
    requires i <= |path| && (forall j :: 0 <= j < i ==> !SlowsDown(RootDevice(speed, address), path, j))
    requires i < |path| ==> SlowsDown(RootDevice(speed, address), path, i)
    ensures var root := RootDevice(speed, address);
            var d := DeviceAt(root, path);
            if i == |path| then !d.isSplit && d.hubAddress == 0 && d.hubPort == 1
            else d.isSplit && d.hubAddress == HubAddress(root, path, i) && d.hubPort == path[i].port
    decreases |path|
  {
    if path != [] {
      var root := RootDevice(speed, address);
      var n := |path| - 1;
      var hub := path[..n];
      assert forall j :: 0 <= j < n ==> SlowsDown(root, hub, j) == SlowsDown(root, path, j);
      OwnData(root, hub);
      assert i == |path| ==> !SlowsDown(root, path, n);
      assert HubSpeed(root, hub, n) == HubSpeed(root, path, n) && HubAddress(root, hub, n) == HubAddress(root, path, n);
      if i < n {
        TranslatorIsFirstSlowdown(speed, address, hub, i);
      } else {
        TranslatorIsFirstSlowdown(speed, address, hub, n);
      }
    }
  }

  /** The split flag and a nonzero hub address, which the transfer stage goes by, agree exactly unless the hub at
      which the path first slows down has address 0. */
  lemma FlagMeansAddressExactly(speed: Speed, address: nat, path: seq<Hop>, i: nat)
    requires i <= |path| && (forall j :: 0 <= j < i ==> !SlowsDown(RootDevice(speed, address), path, j))
    requires i < |path| ==> SlowsDown(RootDevice(speed, address), path, i)
    ensures var d := DeviceAt(RootDevice(speed, address), path);
            (d.isSplit <==> d.hubAddress != 0) <==> (i == |path| || HubAddress(RootDevice(speed, address), path, i) != 0)
  {
    TranslatorIsFirstSlowdown(speed, address, path, i);
  }
}

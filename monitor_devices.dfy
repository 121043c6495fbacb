/** The `monitor_devices` management command: one pass over every device,
    simulating the status of development devices and pinging the others.
    The random draw and the ping's outcome are given per device. */
module MonitorDevices {
  import opened Strings

  datatype Status = Online | Offline | Error

  /** What running `ping -c 1 -W 1 <ip>` gave: its exit code, or an
      exception raised while starting it. */
  datatype PingOutcome = ReturnCode(code: int) | Raised

  /** What the pass observes for one device: the number `random.random()`
      would return for it, and the ping's outcome. Only the one the device's
      branch asks for is used. */
  datatype Probe = Probe(rand: real, ping: PingOutcome)

  const MockPrefix := "192.168.1.1"

  /** Development devices sit at `192.168.1.1` followed by more characters. */
  predicate IsMock(ip: string) { StartsWith(ip, MockPrefix) && |ip| > 11 }

  /** The prefix itself is a real device; anything longer under it is not. */
  lemma MockAddresses(suffix: string)
    ensures !IsMock(MockPrefix)
    ensures suffix != "" ==> IsMock(MockPrefix + suffix)
    ensures !IsMock("10.0.0.1")
  {
    assert (MockPrefix + suffix)[..|MockPrefix|] == MockPrefix;
    assert "10.0.0.1"[..0] == "";
  }

  /** A simulated status: online below 0.8, offline below 0.9, error above. */
  function SimulatedStatus(rand: real): (s: Status)
    ensures s == Online <==> rand < 0.8
    ensures s == Offline <==> 0.8 <= rand < 0.9
    ensures s == Error <==> rand >= 0.9
  {
    if rand < 0.8 then Online else if rand < 0.9 then Offline else Error
  }

  /** A pinged status: online on exit code 0, offline on any other code,
      error when the ping could not be run. */
  function PingedStatus(p: PingOutcome): (s: Status)
    ensures s == Online <==> p == ReturnCode(0)
    ensures s == Offline <==> p.ReturnCode? && p.code != 0
    ensures s == Error <==> p.Raised?
  {
    match p
    case ReturnCode(c) => if c == 0 then Online else Offline
    case Raised => Error
  }

  /** The status one device gets in a pass. */
  function NewStatus(ip: string, probe: Probe): (s: Status)
    ensures IsMock(ip) ==> s == SimulatedStatus(probe.rand)
    ensures !IsMock(ip) ==> s == PingedStatus(probe.ping)
  {
    if IsMock(ip) then SimulatedStatus(probe.rand) else PingedStatus(probe.ping)
  }

  /** A mock device is never pinged, and a real device never draws. */
  lemma BranchesIndependent(ip: string, a: Probe, b: Probe)
    ensures IsMock(ip) && a.rand == b.rand ==> NewStatus(ip, a) == NewStatus(ip, b)
    ensures !IsMock(ip) && a.ping == b.ping ==> NewStatus(ip, a) == NewStatus(ip, b)
  {
  }

  /** A device row: its address, its status and how many times it has been
      saved. */
  class Device {
    var ipAddress: string
    var status: Status
    var saves: nat

    constructor (ipAddress: string, status: Status)
      ensures this.ipAddress == ipAddress && this.status == status && saves == 0
    {
      this.ipAddress := ipAddress;
      this.status := status;
      saves := 0;
    }
  }

  /** `handle`: every device gets exactly one new status, decided by its own
      address and probe, and is saved exactly once; addresses do not change.
      The query set holds each row once. */
  method Handle(devices: seq<Device>, probes: seq<Probe>)
    requires |probes| == |devices|
    requires forall i, j :: 0 <= i < j < |devices| ==> devices[i] != devices[j]
    modifies set d | d in devices
    ensures forall i :: 0 <= i < |devices| ==>
      devices[i].ipAddress == old(devices[i].ipAddress)
      && devices[i].status == NewStatus(old(devices[i].ipAddress), probes[i])
      && devices[i].saves == old(devices[i].saves) + 1
  {
    for i := 0 to |devices|
      invariant forall j :: 0 <= j < |devices| ==> devices[j].ipAddress == old(devices[j].ipAddress)
      invariant forall j :: 0 <= j < i ==>
        devices[j].status == NewStatus(old(devices[j].ipAddress), probes[j])
        && devices[j].saves == old(devices[j].saves) + 1
      invariant forall j :: i <= j < |devices| ==> devices[j].saves == old(devices[j].saves)
    {
      var device := devices[i];
      if IsMock(device.ipAddress) {
        device.status := SimulatedStatus(probes[i].rand);
        device.saves := device.saves + 1;
      } else {
        match probes[i].ping {
          case ReturnCode(c) =>
            if c == 0 {
              device.status := Online;
            } else {
              device.status := Offline;
            }
          case Raised =>
            device.status := Error;
        }
        device.saves := device.saves + 1;
      }
    }
  }
}

/** What building, connecting, disconnecting and demolishing a NIC does to the host and to
    the NIC's saved record when the host commands are carried out (vm/nic.go,
    vmnic/vm_nics.go, switch/switch.go, switch/bridge_if.go, epair/epair.go). */
module NicWiring {
  import opened HostState

  datatype DevType = Tap | Vmnet | Netgraph

  datatype SwitchType = IfBridge | NgBridge

  /** A `switches` row. */
  datatype Switch = Switch(name: string, kind: SwitchType, uplink: string)

  /** A `vm_nics` row, as far as starting and stopping a VM read and write it. `configId`
      is zero for a NIC attached to no VM. */
  datatype Nic = Nic(
    id: string,
    configId: nat,
    netType: string,
    devType: DevType,
    netDev: string,
    switchId: string,
    rateLimit: bool,
    instBridge: string,
    instEpair: string)

  /** Host and record after an operation; `ok` is false where the code returns an error. */
  datatype Wired = Wired(host: Host, nic: Nic, ok: bool)

  predicate IsBridgeName(name: string) {
    "bridge" <= name
  }

  predicate TypeMatches(s: Switch, nic: Nic) {
    match s.kind
    case IfBridge => nic.devType in {Tap, Vmnet}
    case NgBridge => nic.devType == Netgraph
  }

  predicate EpairPossible(h: Host, epair: string) {
    epair != "" && EndsOf(epair) !! h.ifaces
  }

  predicate BridgePossible(h: Host, name: string) {
    IsBridgeName(name) && name !in h.ifaces
  }

  /** SetRateLimit: one pipe per end, stopping at the first that cannot be made. */
  function PipesLaid(h: Host, epair: string): (Host, bool) {
    var a, b := epair + "a" + "_pipe", epair + "b" + "_pipe";
    if a in h.pipes then (h, false)
    else if b in h.pipes then (h.(pipes := h.pipes + {a}), false)
    else (h.(pipes := h.pipes + {a, b}), true)
  }

  /** A dummy bridge with two members, as far as it can be made. */
  function DummyBuilt(h: Host, a: string, b: string): (Host, bool) {
    var bridge := DummyName("bridge", h.bridges.Keys);
    if !BridgePossible(h, bridge) then (h, false)
    else
      var h1 := AddBridge(h, bridge);
      if a !in h1.ifaces then (h1, false)
      else
        var h2 := AddMember(h1, bridge, a);
        if b !in h2.ifaces then (h2, false) else (AddMember(h2, bridge, b), true)
  }

  /** The dummy bridge that joins the near end of the epair to the NIC's device. The record
      learns the bridge only once both members are in. */
  function DummyBridged(h: Host, nic: Nic, epair: string): Wired {
    var (end, ok) := DummyBuilt(h, epair + "a", nic.netDev);
    Wired(end, if ok then nic.(instBridge := DummyName("bridge", h.bridges.Keys)) else nic, ok)
  }

  /** The first half of setupVMNicRateLimit: a recorded epair with its pipes. */
  function EpairRecorded(h: Host, nic: Nic): Wired {
    var epair := DummyName("epair", h.epairs);
    if !EpairPossible(h, epair) then Wired(h, nic, false)
    else
      var (h1, laid) := PipesLaid(AddEpair(h, epair), epair);
      Wired(h1, nic.(instEpair := epair), laid)
  }

  /** setupVMNicRateLimit. */
  function RateLimited(h: Host, nic: Nic): Wired {
    var w := EpairRecorded(h, nic);
    if w.ok then DummyBridged(w.host, w.nic, w.nic.instEpair) else w
  }

  /** switchIfAddMember. */
  function Joined(h: Host, nic: Nic, bridge: string, member: string): Wired {
    if bridge in h.bridges && member in h.ifaces then Wired(AddMember(h, bridge, member), nic, true)
    else Wired(h, nic, false)
  }

  /** ConnectNic. */
  function Connected(h: Host, s: Switch, nic: Nic): Wired {
    if !TypeMatches(s, nic) then Wired(h, nic, false)
    else if s.kind == NgBridge then Wired(h, nic, true)
    else if !nic.rateLimit then Joined(h, nic, s.name, nic.netDev)
    else
      var w := RateLimited(h, nic);
      if w.ok then Joined(w.host, w.nic, s.name, w.nic.instEpair + "b") else w
  }

  /** One turn of the netStart loop: Build, then ConnectNic when there is a switch. */
  function Started(h: Host, switches: map<string, Switch>, nic: Nic): Wired {
    if nic.devType != Netgraph && (nic.netDev in h.ifaces || nic.netDev == "") then Wired(h, nic, false)
    else
      var h1 := if nic.devType == Netgraph then h else AddIface(h, nic.netDev);
      if nic.switchId == "" || nic.switchId !in switches then Wired(h1, nic, nic.switchId == "")
      else Connected(h1, switches[nic.switchId], nic)
  }

  /** destroyIfSwitch without member cleanup. */
  function BridgeDestroyed(h: Host, name: string): Host {
    if IsBridgeName(name) && name in h.ifaces then Without(h, {name}) else h
  }

  /** unsetVMNicRateLimit: failing commands are logged and skipped. */
  function Unlimited(h: Host, nic: Nic): (Host, Nic) {
    var h1 := if nic.instBridge != "" then BridgeDestroyed(h, nic.instBridge) else h;
    var h2 :=
      if nic.instEpair == "" then h1
      else
        var piped := h1.(pipes := h1.pipes - PipesOf(nic.instEpair));
        if nic.instEpair + "a" in piped.ifaces then DropEpair(piped, nic.instEpair) else piped;
    (h2, nic.(instBridge := "", instEpair := ""))
  }

  /** DisconnectNic. */
  function Disconnected(h: Host, s: Switch, nic: Nic): (Host, Nic) {
    if !TypeMatches(s, nic) || s.kind == NgBridge then (h, nic)
    else if nic.rateLimit then
      if nic.instEpair == "" then (h, nic)
      else Unlimited(DropMember(h, s.name, nic.instEpair + "b"), nic)
    else if nic.netDev == "" then (h, nic)
    else Unlimited(DropMember(h, s.name, nic.netDev), nic)
  }

  /** Demolish. */
  function Demolished(h: Host, nic: Nic): Host {
    if nic.devType != Netgraph && nic.netDev in h.ifaces && nic.netDev != ""
    then Without(h, {nic.netDev}) else h
  }

  /** One turn of the NetStop loop. */
  function Stopped(h: Host, switches: map<string, Switch>, nic: Nic): (Host, Nic) {
    var (h1, nic1) :=
      if nic.switchId != "" && nic.switchId in switches then Disconnected(h, switches[nic.switchId], nic)
      else (h, nic);
    (Demolished(h1, nic1), nic1)
  }

  /** netStart: every NIC in turn, errors on one not stopping the next. */
  function StartedAll(h: Host, switches: map<string, Switch>, nics: seq<Nic>): (Host, seq<Nic>)
    decreases |nics|
  {
    if nics == [] then (h, [])
    else
      var w := Started(h, switches, nics[0]);
      var (h1, rest) := StartedAll(w.host, switches, nics[1..]);
      (h1, [w.nic] + rest)
  }

  function StoppedAll(h: Host, switches: map<string, Switch>, nics: seq<Nic>): (Host, seq<Nic>)
    decreases |nics|
  {
    if nics == [] then (h, [])
    else
      var (h1, nic) := Stopped(h, switches, nics[0]);
      var (h2, rest) := StoppedAll(h1, switches, nics[1..]);
      (h2, [nic] + rest)
  }
}

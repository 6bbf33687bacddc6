/** Wiring a VM's NICs, as code over the host, the `vm_nics` table and a NIC object
    (switch/bridge_if.go, vmnic/vm_nics.go, vm/nic.go). */
module NicCode {
  import opened Wrappers
  import opened HostState
  import opened GroupSweep
  import opened Kernel
  import opened NicWiring
  import opened NicRoundTrip
  import opened NicStarts
  import opened NetDevice
  import opened BridgeIf

  /** A NIC as read from the database; Save writes it back. */
  class VmNic {
    const id: string
    const configId: nat
    const netType: string
    const devType: DevType
    const switchId: string
    const rateLimit: bool
    var netDev: string
    var instBridge: string
    var instEpair: string

    constructor (nic: Nic)
      ensures Row() == nic
    {
      id, configId, netType, devType := nic.id, nic.configId, nic.netType, nic.devType;
      switchId, rateLimit := nic.switchId, nic.rateLimit;
      netDev, instBridge, instEpair := nic.netDev, nic.instBridge, nic.instEpair;
    }

    function Row(): Nic
      reads this
    {
      Nic(id, configId, netType, devType, netDev, switchId, rateLimit, instBridge, instEpair)
    }

    /** The table holds this object's record. */
    predicate SavedIn(table: NicTable)
      reads this, table
    {
      id in table.rows && table.rows[id] == Row()
    }

    method Save(table: NicTable)
      modifies table
      ensures table.rows == old(table.rows)[id := Row()] && table.past == old(table.past) + {table.rows}
      ensures old(table.past) <= table.past
    {
      table.Save(Row());
    }
  }

  /** The record claims nothing of the host as it is without the daemon. */
  ghost predicate Harmless(base: Host, nic: Nic) {
    Saved(nic) && DeviceOf(nic) !! base.ifaces && Absent(InstGear(nic), base)
  }

  ghost predicate HarmlessRows(base: Host, rows: Rows) {
    forall id :: id in rows ==> Harmless(base, rows[id])
  }

  /** After every command and every save so far, the host was clean, and the records keyed and harmless. */
  ghost predicate Tidy(k: Machine, table: NicTable)
    reads k, table
  {
    k.Clean() && HarmlessEver(k.base, table.rows, table.past)
  }

  ghost predicate HarmlessEver(base: Host, rows: Rows, past: set<Rows>) {
    rows in past && forall r :: r in past ==> Keyed(r) && HarmlessRows(base, r)
  }

  lemma MemberHarmless(base: Host, nic: Nic)
    requires Harmless(base, nic)
    ensures nic.devType != Netgraph && nic.netDev != "" ==> nic.netDev !in base.ifaces
    ensures nic.instEpair != "" ==> nic.instEpair + "b" !in base.ifaces
  {
  }

  lemma SavedHarmless(base: Host, rows: Rows, past: set<Rows>, nic: Nic)
    requires HarmlessEver(base, rows, past) && Harmless(base, nic)
    ensures HarmlessEver(base, rows[nic.id := nic], past + {rows[nic.id := nic]})
  {
  }

  lemma BlankHarmless(base: Host, nic: Nic)
    requires Harmless(base, nic)
    ensures Harmless(base, nic.(instBridge := "", instEpair := ""))
  {
  }

  /** A new epair is none of the host's own. */
  lemma NewEpairHarmless(base: Host, h: Host, nic: Nic)
    requires CleanHost(base, h) && Harmless(base, nic)
    requires EpairPossible(h, DummyName("epair", h.epairs))
    ensures var e := DummyName("epair", h.epairs);
            IsEpairName(e) && e !in base.epairs && Harmless(base, nic.(instEpair := e))
  {
    var e := DummyName("epair", h.epairs);
    assert WholeEpair(h, e);
    NotInBase(base, h);
  }

  /** Nor is a new bridge. */
  lemma NewBridgeHarmless(base: Host, h: Host, nic: Nic)
    requires CleanHost(base, h) && Harmless(base, nic)
    requires BridgePossible(h, DummyName("bridge", h.bridges.Keys))
    ensures Harmless(base, nic.(instBridge := DummyName("bridge", h.bridges.Keys)))
  {
    NotInBase(base, h);
  }

  /** Every change to the record has been written, and nothing else was. */
  twostate predicate RecordWritten(table: NicTable, nic: VmNic)
    reads table, nic
  {
    nic.SavedIn(table) && table.rows == old(table.rows)[nic.id := nic.Row()]
  }

  /** CreateEpair: create, then bring both ends up. */
  method CreateEpair(k: Machine, name: string) returns (ok: bool)
    requires Sound(k.State())
    modifies k
    ensures Sound(k.State())
    ensures k.State() == old(k.State()) ||
            (EpairPossible(old(k.State()), name) &&
             k.State() in {AddBareEpair(old(k.State()), name), AddEpair(old(k.State()), name)})
    ensures ok ==> EpairPossible(old(k.State()), name) && k.State() == AddEpair(old(k.State()), name)
    ensures k.reliable ==> (ok <==> EpairPossible(old(k.State()), name)) && (!ok ==> k.State() == old(k.State()))
    ensures ok ==>
              && name != "" && name + "a" !in old(k.ifaces) && name + "b" !in old(k.ifaces)
              && k.ifaces == old(k.ifaces) + {name + "a", name + "b"} && k.own == old(k.own) + {name + "a", name + "b"}
              && k.epairs == old(k.epairs) + {name} && k.bridges == old(k.bridges)
    ensures old(k.Clean()) && (name != "" ==> IsEpairName(name)) ==> k.Clean()
    ensures old(k.past) <= k.past
  {
    if name == "" {
      return false;
    }
    ok := k.CreatePair(name);
    if !ok {
      return;
    }
    ghost var bare := k.State();
    ok := k.UpInGroup(name + "a");
    assert bare.own + {name + "a"} == bare.own;
    if !ok {
      return;
    }
    ok := k.UpInGroup(name + "b");
    assert name + "a" in EndsOf(name) && name + "b" in EndsOf(name);
    assert bare.own + {name + "b"} == old(k.own) + EndsOf(name);
  }

  /** SetRateLimit. */
  method SetRateLimit(k: Machine, name: string) returns (ok: bool)
    modifies k
    ensures k.State() == old(k.State()).(pipes := k.pipes)
    ensures k.reliable && EndsOf(name) <= old(k.ifaces) ==> (k.State(), ok) == PipesLaid(old(k.State()), name)
    ensures ok ==> k.pipes == old(k.pipes) + {name + "a" + "_pipe", name + "b" + "_pipe"}
    ensures k.reliable && EndsOf(name) <= old(k.ifaces) ==>
              (ok <==> name + "a" + "_pipe" !in old(k.pipes) && name + "b" + "_pipe" !in old(k.pipes))
    ensures old(k.Clean()) && IsEpairName(name) && name !in k.base.epairs ==> k.Clean()
    ensures old(k.past) <= k.past
  {
    var a, b := name + "a", name + "b";
    assert (a + "_pipe")[|name|] == 'a' && (b + "_pipe")[|name|] == 'b';
    ok := k.LayPipe(a);
    if !ok {
      return;
    }
    ok := k.LayPipe(b);
    assert old(k.pipes) + {a + "_pipe"} + {b + "_pipe"} == old(k.pipes) + {a + "_pipe", b + "_pipe"};
  }

  lemma TwoMembers(h: Host, bridge: string, a: string, b: string)
    requires bridge in h.bridges
    ensures AddMembers(h, bridge, [a, b][..0]) == h
    ensures AddMembers(h, bridge, [a, b][..1]) == AddMember(h, bridge, a)
    ensures AddMembers(h, bridge, [a, b][..2]) == AddMember(AddMember(h, bridge, a), bridge, b)
  {
    assert [a, b][..1][..0] == [] && [a, b][..2][..1] == [a] && [a][..0] == [];
  }

  /** createIfSwitchWithMembers under a dummy name. */
  method MakeDummyBridge(k: Machine, a: string, b: string) returns (bridge: string, ok: bool)
    requires Sound(k.State()) && Unbridged(k.State(), a) && Unbridged(k.State(), b)
    modifies k
    ensures Sound(k.State()) && k.ifaces >= old(k.ifaces)
    ensures forall m :: Unbridged(old(k.State()), m) && m != a && m != b ==> Unbridged(k.State(), m)
    ensures ok ==> bridge == DummyName("bridge", old(k.bridges).Keys) && BridgePossible(old(k.State()), bridge)
    ensures k.reliable ==> (k.State(), ok) == DummyBuilt(old(k.State()), a, b)
    ensures old(k.Clean()) ==> k.Clean()
    ensures old(k.past) <= k.past
  {
    bridge := GetDummyBridgeName(k);
    var members := [a, b];
    var err, created, added := CreateWithMembers(k, bridge, members);
    if created {
      TwoMembers(AddBridge(old(k.State()), bridge), bridge, a, b);
    }
    ok := err.None?;
  }

  /** The second half of setupVMNicRateLimit: the dummy bridge between epair and device. */
  method JoinByDummyBridge(k: Machine, table: NicTable, nic: VmNic, epair: string) returns (ok: bool)
    requires Sound(k.State()) && nic.SavedIn(table)
    requires Unbridged(k.State(), nic.netDev) && Unbridged(k.State(), epair + "a") && Unbridged(k.State(), epair + "b")
    requires nic.netDev != epair + "b"
    modifies k, table, nic
    ensures Sound(k.State()) && RecordWritten(table, nic)
    ensures k.ifaces >= old(k.ifaces) && nic.netDev == old(nic.netDev) && nic.instEpair == old(nic.instEpair)
    ensures Unbridged(k.State(), epair + "b")
    ensures k.reliable ==> Wired(k.State(), nic.Row(), ok) == DummyBridged(old(k.State()), old(nic.Row()), epair)
    ensures old(Tidy(k, table)) ==> Tidy(k, table)
    ensures old(k.past) <= k.past && old(table.past) <= table.past
  {
    assert (epair + "a")[|epair|] != (epair + "b")[|epair|];
    var bridge;
    bridge, ok := MakeDummyBridge(k, epair + "a", nic.netDev);
    if !ok {
      return;
    }
    if old(Tidy(k, table)) {
      NewBridgeHarmless(k.base, old(k.State()), old(nic.Row()));
      SavedHarmless(k.base, table.rows, table.past, nic.Row().(instBridge := bridge));
    }
    nic.instBridge := bridge;
    nic.Save(table);
  }

  /** The first half of setupVMNicRateLimit. A new pair is in no bridge. */
  method MakeEpair(k: Machine, table: NicTable, nic: VmNic) returns (ok: bool)
    requires Sound(k.State()) && nic.SavedIn(table)
    modifies k, table, nic
    ensures Sound(k.State()) && RecordWritten(table, nic)
    ensures k.ifaces >= old(k.ifaces) && k.bridges == old(k.bridges)
    ensures nic.Row() == old(nic.Row()).(instEpair := nic.instEpair)
    ensures ok || nic.instEpair != old(nic.instEpair) ==> nic.instEpair != "" && EndsOf(nic.instEpair) !! old(k.ifaces)
    ensures k.reliable ==> Wired(k.State(), nic.Row(), ok) == EpairRecorded(old(k.State()), old(nic.Row()))
    ensures old(Tidy(k, table)) ==> Tidy(k, table)
    ensures old(k.past) <= k.past && old(table.past) <= table.past
  {
    var epair := GetDummyEpairName(k);
    ok := CreateEpair(k, epair);
    if !ok {
      return;
    }
    if old(Tidy(k, table)) {
      NewEpairHarmless(k.base, old(k.State()), old(nic.Row()));
      SavedHarmless(k.base, table.rows, table.past, nic.Row().(instEpair := epair));
    }
    nic.instEpair := epair;
    nic.Save(table);
    ok := SetRateLimit(k, epair);
  }

  /** setupVMNicRateLimit. The NIC's device must be in no bridge yet. */
  method SetupRateLimit(k: Machine, table: NicTable, nic: VmNic) returns (epair: string, ok: bool)
    requires Sound(k.State()) && nic.SavedIn(table)
    requires nic.netDev in k.ifaces && Unbridged(k.State(), nic.netDev)
    modifies k, table, nic
    ensures Sound(k.State()) && RecordWritten(table, nic)
    ensures k.ifaces >= old(k.ifaces) && nic.netDev == old(nic.netDev)
    ensures ok ==> epair == nic.instEpair && epair != ""
    ensures ok || nic.instEpair != old(nic.instEpair) ==> Unbridged(k.State(), nic.instEpair + "b")
    ensures k.reliable ==> Wired(k.State(), nic.Row(), ok) == RateLimited(old(k.State()), old(nic.Row()))
    ensures old(Tidy(k, table)) ==> Tidy(k, table)
    ensures old(k.past) <= k.past && old(table.past) <= table.past
  {
    ok := MakeEpair(k, table, nic);
    if !ok {
      return "", false;
    }
    epair := nic.instEpair;
    assert epair + "a" in EndsOf(epair) && epair + "b" in EndsOf(epair);
    ok := JoinByDummyBridge(k, table, nic, epair);
  }

  /** unsetVMNicRateLimit. */
  method UnsetRateLimit(k: Machine, table: NicTable, nic: VmNic)
    requires Sound(k.State()) && nic.SavedIn(table)
    modifies k, table, nic
    ensures Sound(k.State()) && RecordWritten(table, nic)
    ensures k.reliable ==> (k.State(), nic.Row()) == Unlimited(old(k.State()), old(nic.Row()))
    ensures nic.Row() == old(nic.Row()).(instBridge := "", instEpair := "")
    ensures old(Tidy(k, table)) ==> Tidy(k, table)
    ensures old(k.past) <= k.past && old(table.past) <= table.past
  {
    if nic.instBridge == "" && nic.instEpair == "" {
      return;
    }
    if nic.instBridge != "" {
      var _ := DestroyIfSwitch(k, nic.instBridge, false);
      nic.instBridge := "";
    }
    if nic.instEpair != "" {
      DestroyInstEpair(k, nic.instEpair);
      nic.instEpair := "";
    }
    if old(Tidy(k, table)) {
      BlankHarmless(k.base, old(nic.Row()));
      SavedHarmless(k.base, table.rows, table.past, nic.Row());
    }
    nic.Save(table);
  }

  /** The pipes and the epair; failing commands are skipped. */
  method DestroyInstEpair(k: Machine, e: string)
    requires Sound(k.State())
    modifies k
    ensures Sound(k.State())
    ensures k.reliable ==>
              var piped := old(k.State()).(pipes := old(k.pipes) - PipesOf(e));
              k.State() == if e + "a" in piped.ifaces then DropEpair(piped, e) else piped
    ensures old(k.Clean()) && IsEpairName(e) && e !in k.base.epairs && PipesOf(e) !! k.base.pipes ==> k.Clean()
    ensures old(k.past) <= k.past
  {
    ghost var before := k.State();
    var _ := k.ShutdownPipe(e + "a");
    var _ := k.ShutdownPipe(e + "b");
    assert k.reliable ==> k.State() == before.(pipes := before.pipes - PipesOf(e)) by {
      assert before.pipes - {e + "a" + "_pipe"} - {e + "b" + "_pipe"} == before.pipes - PipesOf(e);
    }
    RemovalsSound(k.State(), "", "", {}, e);
    var _ := k.DestroyPair(e);
  }

  /** The end of connectIfNic: device or far end of the epair joins the switch. */
  method JoinSwitch(k: Machine, table: NicTable, nic: VmNic, bridge: string, member: string) returns (ok: bool)
    requires Sound(k.State()) && nic.SavedIn(table) && member != "" && OnlyIn(k.State(), bridge, member)
    requires if nic.rateLimit then nic.instEpair != "" && member == nic.instEpair + "b"
             else nic.devType != Netgraph && member == nic.netDev
    modifies k
    ensures Sound(k.State())
    ensures k.reliable ==> Wired(k.State(), nic.Row(), ok) == Joined(old(k.State()), nic.Row(), bridge, member)
    ensures k.reliable ==>
              && (ok <==> bridge in old(k.bridges) && member in old(k.ifaces))
              && k.State() == old(k.State()).(
                   bridges := if ok then old(k.bridges)[bridge := old(k.bridges)[bridge] + {member}]
                              else old(k.bridges))
    ensures old(Tidy(k, table)) ==> Tidy(k, table)
    ensures old(k.past) <= k.past
  {
    if Tidy(k, table) {
      MemberHarmless(k.base, nic.Row());
    }
    var err := IfAddMember(k, bridge, member);
    return err.None?;
  }

  /** connectIfNic behind ConnectNic. The device has just been built. */
  method ConnectNic(k: Machine, table: NicTable, s: Switch, nic: VmNic) returns (ok: bool)
    requires Sound(k.State()) && nic.SavedIn(table)
    requires nic.devType != Netgraph ==> nic.netDev in k.ifaces && Unbridged(k.State(), nic.netDev)
    modifies k, table, nic
    ensures Sound(k.State()) && RecordWritten(table, nic)
    ensures k.reliable ==> Wired(k.State(), nic.Row(), ok) == Connected(old(k.State()), s, old(nic.Row()))
    ensures k.reliable && ok && s.kind == IfBridge ==> OnSwitch(k.State(), s.name, nic.Row())
    ensures k.reliable && s.kind == IfBridge && nic.devType in {Tap, Vmnet} && !nic.rateLimit ==>
              (ok <==> s.name in old(k.bridges))
    ensures old(Tidy(k, table)) ==> Tidy(k, table)
    ensures old(k.past) <= k.past && old(table.past) <= table.past
  {
    if !TypeMatches(s, nic.Row()) {
      return false;
    }
    if s.kind == NgBridge {
      return true;
    }
    if Connected(k.State(), s, nic.Row()).ok {
      ConnectedPlugs(k.State(), s, nic.Row());
    }
    if nic.rateLimit {
      var epair;
      epair, ok := SetupRateLimit(k, table, nic);
      if ok {
        ok := JoinSwitch(k, table, nic, s.name, epair + "b");
      }
      return;
    }
    ok := JoinSwitch(k, table, nic, s.name, nic.netDev);
  }

  /** disconnectIfNic behind DisconnectNic. */
  method DisconnectNic(k: Machine, table: NicTable, s: Switch, nic: VmNic)
    requires Sound(k.State()) && nic.SavedIn(table)
    modifies k, table, nic
    ensures Sound(k.State()) && RecordWritten(table, nic)
    ensures nic.netDev == old(nic.netDev)
    ensures k.reliable ==> (k.State(), nic.Row()) == Disconnected(old(k.State()), s, old(nic.Row()))
    ensures k.reliable && s.kind == IfBridge && nic.devType in {Tap, Vmnet} && !nic.rateLimit && nic.netDev != "" &&
            s.name in k.bridges ==>
              nic.netDev !in k.bridges[s.name]
    ensures old(Tidy(k, table)) ==> Tidy(k, table)
    ensures old(k.past) <= k.past && old(table.past) <= table.past
  {
    if !TypeMatches(s, nic.Row()) || s.kind == NgBridge {
      return;
    }
    var member := nic.netDev;
    if nic.rateLimit {
      if nic.instEpair == "" {
        return;
      }
      member := nic.instEpair + "b";
    } else if nic.netDev == "" {
      return;
    }
    var err := IfDeleteMember(k, s.name, member);
    if err.Some? {
      return;
    }
    UnsetRateLimit(k, table, nic);
  }

  /** Build: on success a TAP or VMNET device is new, so it is in no bridge. */
  method Build(k: Machine, nic: VmNic) returns (ok: bool)
    requires Sound(k.State())
    modifies k
    ensures Sound(k.State())
    ensures !ok ==> k.State() == old(k.State())
    ensures ok && nic.devType != Netgraph ==>
              && nic.netDev != "" && nic.netDev !in old(k.ifaces)
              && k.State() == AddIface(old(k.State()), nic.netDev) && Unbridged(k.State(), nic.netDev)
    ensures ok && nic.devType == Netgraph ==> k.State() == old(k.State())
    ensures k.reliable ==> (ok <==> nic.devType == Netgraph || (nic.netDev != "" && nic.netDev !in old(k.ifaces)))
    ensures old(k.Clean()) && Written(nic.Row()) ==> k.Clean()
    ensures old(k.past) <= k.past
  {
    if nic.devType == Netgraph {
      return true;
    }
    var present := k.AllInterfaces();
    if nic.netDev in present {
      return false;
    }
    if nic.netDev == "" {
      return false;
    }
    ok := k.CreateDevice(nic.netDev);
  }

  method Demolish(k: Machine, nic: VmNic)
    requires Sound(k.State())
    modifies k
    ensures Sound(k.State())
    ensures k.reliable ==> k.State() == Demolished(old(k.State()), nic.Row())
    ensures old(k.Clean()) && Harmless(k.base, nic.Row()) ==> k.Clean()
    ensures old(k.past) <= k.past
  {
    if nic.devType == Netgraph {
      return;
    }
    var present := k.AllInterfaces();
    if nic.netDev !in present {
      return;
    }
    if nic.netDev != "" {
      DeviceMayGo(k.base, nic.Row());
      RemovalsSound(k.State(), "", "", {nic.netDev}, "");
      var _ := k.Destroy(nic.netDev);
    }
  }

  lemma DeviceMayGo(base: Host, nic: Nic)
    requires nic.devType != Netgraph && nic.netDev != ""
    ensures Harmless(base, nic) ==> NotEpairEnd(nic.netDev) && nic.netDev !in base.ifaces
  {
    if Harmless(base, nic) {
      NamesApart(nic, 0);
    }
  }

  /** The body of the netStart loop. */
  method StartOne(k: Machine, table: NicTable, switches: map<string, Switch>, nic: VmNic)
    requires Sound(k.State()) && nic.SavedIn(table)
    modifies k, table, nic
    ensures Sound(k.State()) && RecordWritten(table, nic)
    ensures k.reliable ==>
              var w := Started(old(k.State()), switches, old(nic.Row()));
              k.State() == w.host && nic.Row() == w.nic
    ensures old(Tidy(k, table)) ==> Tidy(k, table)
    ensures old(k.past) <= k.past && old(table.past) <= table.past
  {
    var ok := Build(k, nic);
    if !ok || nic.switchId == "" || nic.switchId !in switches {
      return;
    }
    ok := ConnectNic(k, table, switches[nic.switchId], nic);
  }

  /** The body of the NetStop loop. */
  method StopOne(k: Machine, table: NicTable, switches: map<string, Switch>, nic: VmNic)
    requires Sound(k.State()) && nic.SavedIn(table)
    modifies k, table, nic
    ensures Sound(k.State()) && RecordWritten(table, nic)
    ensures k.reliable ==> (k.State(), nic.Row()) == Stopped(old(k.State()), switches, old(nic.Row()))
    ensures old(Tidy(k, table)) ==> Tidy(k, table)
    ensures old(k.past) <= k.past && old(table.past) <= table.past
  {
    if nic.switchId != "" && nic.switchId in switches {
      DisconnectNic(k, table, switches[nic.switchId], nic);
    }
    Demolish(k, nic);
  }

  /** The records of a list, written back. */
  function SavedAll(rows: Rows, nics: seq<Nic>): Rows
    decreases |nics|
  {
    if nics == [] then rows else SavedAll(rows[nics[0].id := nics[0]], nics[1..])
  }

  /** The NICs from the i-th on are in the table as they were read. */
  predicate RestSaved(rows: Rows, nics: seq<Nic>, i: nat) {
    && (forall j :: i <= j < |nics| ==> nics[j].id in rows && rows[nics[j].id] == nics[j])
    && (forall j, l :: 0 <= j < l < |nics| ==> nics[j].id != nics[l].id)
  }

  /** Where starting a list ends: the host and the rows. */
  function StartEnd(h: Host, rows: Rows, switches: map<string, Switch>, nics: seq<Nic>): (Host, Rows) {
    var (end, records) := StartedAll(h, switches, nics);
    (end, SavedAll(rows, records))
  }

  /** One turn of the netStart loop. */
  method StartNext(k: Machine, table: NicTable, switches: map<string, Switch>, nics: seq<Nic>, i: nat)
    requires Sound(k.State()) && Keyed(table.rows) && i < |nics| && RestSaved(table.rows, nics, i)
    modifies k, table
    ensures Sound(k.State()) && Keyed(table.rows) && RestSaved(table.rows, nics, i + 1)
    ensures k.reliable ==>
              StartEnd(k.State(), table.rows, switches, nics[i + 1..]) ==
              StartEnd(old(k.State()), old(table.rows), switches, nics[i..])
    ensures old(Tidy(k, table)) ==> Tidy(k, table)
    ensures old(k.past) <= k.past && old(table.past) <= table.past
  {
    assert nics[i..][0] == nics[i] && nics[i..][1..] == nics[i + 1..];
    var nic := new VmNic(nics[i]);
    StartOne(k, table, switches, nic);
  }

  lemma {:induction false} SavedAllExactly(rows: Rows, records: seq<Nic>)
    requires Keyed(rows) && forall i, j :: 0 <= i < j < |records| ==> records[i].id != records[j].id
    ensures Keyed(SavedAll(rows, records))
    ensures forall n :: n in records ==> n.id in SavedAll(rows, records) && SavedAll(rows, records)[n.id] == n
    ensures SavedAll(rows, records).Keys == rows.Keys + set n | n in records :: n.id
    ensures forall id :: id in rows && (forall n :: n in records ==> n.id != id) ==>
              SavedAll(rows, records)[id] == rows[id]
    decreases |records|
  {
    if records != [] {
      var first := records[0];
      SavedAllExactly(rows[first.id := first], records[1..]);
      assert forall n :: n in records <==> n == first || n in records[1..];
      assert forall n :: n in records[1..] ==> n.id != first.id;
    }
  }

  lemma ReadInTurn(nics: seq<Nic>, records: seq<Nic>)
    requires |records| == |nics| && forall i :: 0 <= i < |nics| ==> records[i].id == nics[i].id
    requires forall i, j :: 0 <= i < j < |nics| ==> nics[i].id != nics[j].id
    ensures forall i, j :: 0 <= i < j < |records| ==> records[i].id != records[j].id
  {
  }

  lemma StartKeepsId(h: Host, switches: map<string, Switch>, nic: Nic)
    ensures Started(h, switches, nic).nic.id == nic.id
  {
  }

  lemma {:induction false} StartedKeepIds(h: Host, switches: map<string, Switch>, nics: seq<Nic>)
    ensures var records := StartedAll(h, switches, nics).1;
            |records| == |nics| && forall i :: 0 <= i < |nics| ==> records[i].id == nics[i].id
    decreases |nics|
  {
    if nics != [] {
      var w := Started(h, switches, nics[0]);
      StartKeepsId(h, switches, nics[0]);
      StartedKeepIds(w.host, switches, nics[1..]);
      PrependedIds(nics, w.nic, StartedAll(w.host, switches, nics[1..]).1);
    }
  }

  lemma PrependedIds(nics: seq<Nic>, first: Nic, rest: seq<Nic>)
    requires nics != [] && first.id == nics[0].id && |rest| == |nics| - 1
    requires forall i :: 0 <= i < |rest| ==> rest[i].id == nics[1..][i].id
    ensures forall i :: 0 <= i < |nics| ==> ([first] + rest)[i].id == nics[i].id
  {
  }

  /** What the NICs are connected to once they are started and saved. */
  lemma StartedAndSaved(h: Host, rows: Rows, switches: map<string, Switch>, nics: seq<Nic>)
    requires Keyed(rows) && forall i, j :: 0 <= i < j < |nics| ==> nics[i].id != nics[j].id
    ensures var (end, records) := StartedAll(h, switches, nics);
            StartConnects(h, switches, nics, end, SavedAll(rows, records))
  {
    var records := StartedAll(h, switches, nics).1;
    StartedKeepIds(h, switches, nics);
    ReadInTurn(nics, records);
    SavedAllExactly(rows, records);
    StartDoesConnect(h, switches, nics, SavedAll(rows, records));
  }

  /** netStart. `answered` says the query for the VM's NICs went through, `nics` is what it
      returned. */
  method NetStart(k: Machine, table: NicTable, switches: map<string, Switch>, configId: nat, answered: bool)
    returns (err: Option<Error>, nics: seq<Nic>)
    requires Sound(k.State()) && Keyed(table.rows)
    modifies k, table
    ensures Sound(k.State()) && Keyed(table.rows)
    ensures err.None? <==> answered
    ensures !answered ==> k.State() == old(k.State()) && table.rows == old(table.rows)
    ensures answered ==> IsNicsOf(old(table.rows), configId, nics)
    ensures k.reliable && answered ==>
              (k.State(), table.rows) ==
              var (h, records) := StartedAll(old(k.State()), switches, nics);
              (h, SavedAll(old(table.rows), records))
    ensures k.reliable && answered ==>
              StartConnects(old(k.State()), switches, nics, k.State(), table.rows)
    ensures old(Tidy(k, table)) ==> Tidy(k, table)
    ensures old(k.past) <= k.past && old(table.past) <= table.past
  {
    if !answered {
      return Some(CommandFailed), [];
    }
    nics := table.GetNics(configId);
    StartedAndSaved(k.State(), table.rows, switches, nics);
    ghost var end := StartEnd(k.State(), table.rows, switches, nics);
    for i := 0 to |nics|
      invariant old(k.past) <= k.past && old(table.past) <= table.past
      invariant Sound(k.State()) && Keyed(table.rows) && RestSaved(table.rows, nics, i)
      invariant old(Tidy(k, table)) ==> Tidy(k, table)
      invariant k.reliable ==> StartEnd(k.State(), table.rows, switches, nics[i..]) == end
    {
      StartNext(k, table, switches, nics, i);
    }
    return None, nics;
  }

  /** The NICs of a configuration, each once, in the order the query returned them. */
  ghost predicate IsNicsOf(rows: Rows, configId: nat, nics: seq<Nic>) {
    && (forall n :: n in nics <==> exists id :: id in rows && rows[id] == n && n.configId == configId)
    && (forall i, j :: 0 <= i < j < |nics| ==> nics[i].id != nics[j].id)
  }

  /** Where stopping a list ends: the host and the rows. */
  function StopEnd(h: Host, rows: Rows, switches: map<string, Switch>, nics: seq<Nic>): (Host, Rows) {
    var (end, records) := StoppedAll(h, switches, nics);
    (end, SavedAll(rows, records))
  }

  /** One turn of the NetStop loop. */
  method StopNext(k: Machine, table: NicTable, switches: map<string, Switch>, nics: seq<Nic>, i: nat)
    requires Sound(k.State()) && Keyed(table.rows) && i < |nics| && RestSaved(table.rows, nics, i)
    modifies k, table
    ensures Sound(k.State()) && Keyed(table.rows) && RestSaved(table.rows, nics, i + 1)
    ensures k.reliable ==>
              StopEnd(k.State(), table.rows, switches, nics[i + 1..]) ==
              StopEnd(old(k.State()), old(table.rows), switches, nics[i..])
    ensures old(Tidy(k, table)) ==> Tidy(k, table)
    ensures old(k.past) <= k.past && old(table.past) <= table.past
  {
    assert nics[i..][0] == nics[i] && nics[i..][1..] == nics[i + 1..];
    var nic := new VmNic(nics[i]);
    StopOne(k, table, switches, nic);
  }

  /** NetStop. */
  method NetStop(k: Machine, table: NicTable, switches: map<string, Switch>, configId: nat, answered: bool)
    returns (nics: seq<Nic>)
    requires Sound(k.State()) && Keyed(table.rows)
    modifies k, table
    ensures Sound(k.State()) && Keyed(table.rows)
    ensures !answered ==> k.State() == old(k.State()) && table.rows == old(table.rows)
    ensures answered ==> IsNicsOf(old(table.rows), configId, nics)
    ensures k.reliable && answered ==>
              (k.State(), table.rows) ==
              var (h, records) := StoppedAll(old(k.State()), switches, nics);
              (h, SavedAll(old(table.rows), records))
    ensures k.reliable && answered ==> StopTakes(old(k.State()), switches, nics, k.State())
    ensures old(Tidy(k, table)) ==> Tidy(k, table)
    ensures old(k.past) <= k.past && old(table.past) <= table.past
  {
    if !answered {
      return [];
    }
    nics := table.GetNics(configId);
    StopDoesTake(k.State(), switches, nics);
    ghost var end := StopEnd(k.State(), table.rows, switches, nics);
    for i := 0 to |nics|
      invariant old(k.past) <= k.past && old(table.past) <= table.past
      invariant Sound(k.State()) && Keyed(table.rows) && RestSaved(table.rows, nics, i)
      invariant old(Tidy(k, table)) ==> Tidy(k, table)
      invariant k.reliable ==> StopEnd(k.State(), table.rows, switches, nics[i..]) == end
    {
      StopNext(k, table, switches, nics, i);
    }
  }
}

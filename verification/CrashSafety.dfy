/** A daemon that dies at any point, and what naming has to do with it: the clean-up at the
    next start-up gives back the host without the daemon exactly when no NIC was given a name
    of the host's own. */
module CrashSafety {
  import opened Wrappers
  import opened FreeName
  import opened HostState
  import opened GroupSweep
  import opened Kernel
  import opened NicWiring
  import opened NicRoundTrip
  import opened NetDevice
  import opened NetDeviceNames
  import opened NicCode
  import opened VmNetwork
  import opened Switches
  import opened SwitchRuns
  import opened CleanUp
  import Ng = NgBridge

  /** A naming that avoids the host's own interfaces saves nothing that could harm it. */
  lemma NamedHarmless(base: Host, before: NetDevice.Rows, after: NetDevice.Rows, nics: seq<Nic>,
                      avoided: set<string>)
    requires Keyed(before) && HarmlessRows(base, before) && (forall n :: n in nics ==> Harmless(base, n))
    requires NamedRows(before, after, nics, avoided) && base.ifaces <= avoided
    ensures Keyed(after) && HarmlessRows(base, after)
  {
    forall id | id in after && NamedRow(after[id], nics, avoided, id)
      ensures Harmless(base, after[id]) && after[id].id == id
    {
      var nic :| nic in nics && nic.id == id && Found(nic, avoided, after[id].netDev) &&
                 after[id] == nic.(netDev := after[id].netDev);
      assert Harmless(base, nic) && InstGear(after[id]) == InstGear(nic);
    }
  }

  /** A record holds a device that was the host's own. */
  predicate Harmful(base: Host, rows: NetDevice.Rows) {
    exists id :: id in rows && !(DeviceOf(rows[id]) !! base.ifaces)
  }

  /** A name that was found blindly and is the host's own ends up in a record. */
  lemma BlindIsHarmful(base: Host, rows: NetDevice.Rows, vms: map<string, Vm>, ifaces: set<string>, nics: seq<Nic>,
                       answers: Answers, slot: nat)
    requires Fresh(rows, nics) && base.ifaces <= ifaces && "" !in base.ifaces
    requires !(BlindNames(rows, vms, ifaces, nics, answers) !! base.ifaces)
    ensures Harmful(base, Assigned(rows, vms, ifaces, nics, answers, slot, slot).rows)
  {
    var front := nics[..NamedCount(nics, answers)];
    var after := Assigned(rows, vms, ifaces, nics, answers, slot, slot).rows;
    var dev :| dev in BlindNames(rows, vms, ifaces, nics, answers) && dev in base.ifaces;
    NamingStopsAtFirstUnnameable(rows, vms, ifaces, nics, answers, slot, slot);
    BlindNamesOfFront(rows, vms, ifaces, nics, answers);
    assert forall n :: n in front ==> n in nics;
    BlindNamesExactly(rows, vms, ifaces, front, answers, slot, slot, dev);
    AssignedTouchesOnlyDevices(rows, vms, ifaces, front, answers, slot, slot);
    SavedIsHarmful(base, rows, after, front, dev);
  }

  lemma SavedIsHarmful(base: Host, rows: NetDevice.Rows, after: NetDevice.Rows, nics: seq<Nic>, dev: string)
    requires Fresh(rows, nics) && OnlyDevices(rows, after, nics) && HasDevice(after, nics, dev)
    requires dev in base.ifaces && "" !in base.ifaces
    ensures Harmful(base, after)
  {
    var n :| n in nics && n.devType != Netgraph && n.id in after && after[n.id].netDev == dev;
    assert after[n.id].(netDev := "").devType == rows[n.id].(netDev := "").devType;
    assert dev in DeviceOf(after[n.id]);
  }

  /** What a naming makes of records that were harmless. */
  lemma NamingVerdict(base: Host, before: NetDevice.Rows, was: set<NetDevice.Rows>, after: NetDevice.Rows,
                      now: set<NetDevice.Rows>, vms: map<string, Vm>, ifaces: set<string>, nics: seq<Nic>,
                      answers: Answers, slot: nat)
    requires Fresh(before, nics) && base.ifaces <= ifaces && "" !in base.ifaces
    requires Keyed(before) && HarmlessEver(base, before, was)
    requires after == Assigned(before, vms, ifaces, nics, answers, slot, slot).rows
    requires NamedInTurn(before, was, after, now, nics, ifaces - BlindNames(before, vms, ifaces, nics, answers))
    ensures var blind := BlindNames(before, vms, ifaces, nics, answers);
            && after in now && (HarmlessEver(base, after, now) <==> blind !! base.ifaces)
            && (Harmful(base, after) <==> !(blind !! base.ifaces))
  {
    var blind := BlindNames(before, vms, ifaces, nics, answers);
    if blind !! base.ifaces {
      assert base.ifaces <= ifaces - blind;
      forall n | n in nics
        ensures Harmless(base, n)
      {
        assert before[n.id] == n;
      }
      forall r | r in now && r !in was
        ensures Keyed(r) && HarmlessRows(base, r)
      {
        NamedHarmless(base, before, r, nics, ifaces - blind);
      }
      assert HarmlessRows(base, after);
    } else {
      BlindIsHarmful(base, before, vms, ifaces, nics, answers, slot);
      var id :| id in after && !(DeviceOf(after[id]) !! base.ifaces);
      assert !Harmless(base, after[id]);
    }
  }

  /** getNetArgs for the NICs of a configuration. The records stay harmless exactly when no
      name that was found while the host did not list its interfaces is one of its own. */
  method NameNics(k: Machine, nics: NicTable, vms: map<string, Vm>, configId: nat, answers: Answers, slot: nat)
    returns (listed: seq<Nic>)
    requires Keyed(nics.rows)
    modifies nics
    ensures Keyed(nics.rows) && old(nics.past) <= nics.past
    ensures IsNicsOf(old(nics.rows), configId, listed)
    ensures nics.rows == Assigned(old(nics.rows), vms, k.ifaces, listed, answers, slot, slot).rows
    ensures old(Tidy(k, nics)) ==>
              var blind := BlindNames(old(nics.rows), vms, k.ifaces, listed, answers);
              && (Tidy(k, nics) <==> blind !! k.base.ifaces)
              && (Harmful(k.base, nics.rows) <==> !(blind !! k.base.ifaces)) && nics.rows in nics.past
  {
    ghost var before, was := nics.rows, nics.past;
    var named;
    listed, named := NameAll(nics, vms, k.ifaces, configId, answers, slot);
    if old(Tidy(k, nics)) {
      NotInBase(k.base, k.State());
      NamingVerdict(k.base, before, was, nics.rows, nics.past, vms, k.ifaces, listed, answers, slot);
    }
  }

  /** A device in a record of a configuration that is cleaned up does not survive. */
  lemma CleanUpTakes(h: Host, switches: Switches.Rows, rows: NetDevice.Rows, id: string, dev: string)
    requires id in rows && dev in DeviceOf(rows[id])
    ensures dev !in CleanedUp(h, switches, rows, [rows[id].configId]).ifaces
    ensures dev in CleanGear(h, switches, rows, [rows[id].configId]).ifaces
  {
    var configId := rows[id].configId;
    assert dev in ClaimOf(switches, rows[id]).ifaces;
    assert dev in ConfigClaims(switches, rows, configId).ifaces;
    assert dev in AllClaims(switches, rows, [configId]).ifaces;
  }

  /** A new TAP NIC that is named while the host does not list its interfaces. */
  lemma NamedBlindly(nic: Nic, vms: map<string, Vm>, ifaces: set<string>, answers: Answers)
    requires nic == Nic("n1", 1, "VIRTIONET", Tap, "", "", false, "", "")
    requires answers.saves("n1") && !answers.lists("n1")
    ensures Assigned(map["n1" := nic], vms, ifaces, [nic], answers, 0, 0).rows == map["n1" := nic.(netDev := "tap0")]
  {
    var rows := map["n1" := nic];
    var seen := Taken(rows, vms, ifaces, answers, "n1");
    assert Numbered("tap", 0) == "tap0" && seen <= {""};
    LeastFreeIsUnique("tap", seen, 0);
    assert Nameable(nic, answers) && [nic][0] == nic && [nic][1..] == [];
    AssignedFirst(rows, vms, ifaces, [nic], answers, 0, 0);
    assert rows["n1" := nic.(netDev := "tap0")] == map["n1" := nic.(netDev := "tap0")];
  }

  lemma NewNicIsHarmless(base: Host, nic: Nic)
    requires nic.netDev == "" && nic.instBridge == "" && nic.instEpair == ""
    ensures HarmlessRows(base, map[nic.id := nic])
  {
  }

  /** The input: a host with its own `tap0`, and such a NIC. The clean-up destroys that interface. */
  lemma BlindNamingTakesHostsOwn(h: Host, nic: Nic, vms: map<string, Vm>, answers: Answers)
    requires WellFormed(h) && h.own == {} && "tap0" in h.ifaces
    requires nic == Nic("n1", 1, "VIRTIONET", Tap, "", "", false, "", "")
    requires answers.saves("n1") && !answers.lists("n1")
    ensures CleanHost(h, h) && HarmlessRows(h, map["n1" := nic])
    ensures var named := Assigned(map["n1" := nic], vms, h.ifaces, [nic], answers, 0, 0).rows;
            && named == map["n1" := nic.(netDev := "tap0")]
            && "tap0" !in CleanedUp(h, map[], named, [1]).ifaces
  {
    NewNicIsHarmless(h, nic);
    NothingOwn(h);
    NamedBlindly(nic, vms, h.ifaces, answers);
    CleanUpTakes(h, map[], map["n1" := nic.(netDev := "tap0")], "n1", "tap0");
  }

  // Dying anywhere.

  datatype Deed =
    | Do(op: Operation)
    | Name(vms: map<string, Vm>, configId: nat, answers: Answers, slot: nat)
    | TidyUp(configs: seq<nat>)

  /** A naming that was done, on the rows and interfaces as they then were. */
  datatype Naming = Naming(rows: NetDevice.Rows, vms: map<string, Vm>, ifaces: set<string>, nics: seq<Nic>,
                           answers: Answers)

  predicate SparesHost(base: Host, n: Naming) {
    BlindNames(n.rows, n.vms, n.ifaces, n.nics, n.answers) !! base.ifaces
  }

  /** It was done by one of the deeds, in a state the host and the records were in. */
  ghost predicate Happened(n: Naming, deeds: seq<Deed>, hosts: set<Host>, records: set<NetDevice.Rows>) {
    && n.rows in records && (exists h :: h in hosts && h.ifaces == n.ifaces)
    && exists i :: 0 <= i < |deeds| && DoneBy(n, deeds[i])
  }

  ghost predicate DoneBy(n: Naming, deed: Deed) {
    deed.Name? && deed.vms == n.vms && deed.answers == n.answers && IsNicsOf(n.rows, deed.configId, n.nics)
  }

  /** The host lists its interfaces whenever the deed asks. */
  ghost predicate Answered(deed: Deed) {
    deed.Name? ==> forall id :: deed.answers.lists(id)
  }

  /** Any of the hosts with any of the records can be cleaned up, whatever the switches, as
      long as their bridges were not there before the daemon: Create admits no others. */
  ghost predicate Recoverable(base: Host, hosts: set<Host>, records: set<NetDevice.Rows>) {
    forall h, rows, switches, configs ::
      h in hosts && rows in records && SwitchesApart(base, switches) ==>
        CleanedUp(h, switches, rows, configs) == base
  }

  lemma TidyIsRecoverable(base: Host, hosts: set<Host>, records: set<NetDevice.Rows>)
    requires forall h :: h in hosts ==> CleanHost(base, h)
    requires forall rows :: rows in records ==> HarmlessRows(base, rows)
    ensures Recoverable(base, hosts, records)
  {
    forall h, rows, switches, configs | h in hosts && rows in records && SwitchesApart(base, switches)
      ensures CleanedUp(h, switches, rows, configs) == base
    {
      HarmlessCleanUp(base, h, switches, rows, configs);
    }
  }

  lemma HarmfulIsNotRecoverable(base: Host, hosts: set<Host>, records: set<NetDevice.Rows>, h: Host,
                                rows: NetDevice.Rows)
    requires h in hosts && CleanHost(base, h) && rows in records && Harmful(base, rows)
    ensures !Recoverable(base, hosts, records)
  {
    var id :| id in rows && !(DeviceOf(rows[id]) !! base.ifaces);
    var dev :| dev in DeviceOf(rows[id]) && dev in base.ifaces;
    CleanUpTakes(h, map[], rows, id, dev);
    CleanUpRestoresExactly(base, h, map[], rows, [rows[id].configId]);
    assert CleanedUp(h, map[], rows, [rows[id].configId]) != base;
  }

  /** The host listed its interfaces: nothing of its own is among the names. */
  lemma AnsweredSpares(base: Host, n: Naming, deed: Deed)
    requires DoneBy(n, deed) && Answered(deed)
    ensures SparesHost(base, n)
  {
    NothingBlind(n.rows, n.vms, n.ifaces, n.nics, n.answers);
  }

  /** The crash theorem. A daemon does what it does to switches and NICs, namings and
      clean-ups included, commands and queries failing anywhere. Take any state the host was
      in after any command and any the NIC records were in after any save: cleaning up from
      there gives the host without the daemon, as it was before the first deed, if and only
      if no naming found a name of the host's own while that did not list its interfaces.
      It never does when the host always lists them. */
  method DieAnywhere(k: Machine, ng: Ng.Netgraph, table: SwitchTable, nics: NicTable, deeds: seq<Deed>)
    returns (ghost namings: seq<Naming>)
    requires Sound(k.State()) && NgSound(k.State(), ng.others, ng.bridges) && UniqueNames(table.rows) &&
             Keyed(nics.rows)
    requires Tidy(k, nics) && SwitchesApart(k.base, table.rows)
    modifies k, ng, table, nics
    ensures old(k.past) <= k.past && old(nics.past) <= nics.past
    ensures forall n :: n in namings ==> Happened(n, deeds, k.past, nics.past)
    ensures Recoverable(k.base, k.past, nics.past) <==> forall n :: n in namings ==> SparesHost(k.base, n)
    ensures (forall i :: 0 <= i < |deeds| ==> Answered(deeds[i])) ==> Recoverable(k.base, k.past, nics.past)
    ensures Recoverable(k.base, k.past, nics.past) ==>
              Tidy(k, nics) && SwitchesApart(k.base, table.rows) && Sound(k.State())
    ensures old(ProperNames(table.rows)) ==> ProperNames(table.rows)
  {
    namings := [];
    ghost var first, spared := k.State(), true;
    for i := 0 to |deeds|
      invariant Sound(k.State()) && NgSound(k.State(), ng.others, ng.bridges) && UniqueNames(table.rows) &&
                Keyed(nics.rows)
      invariant old(k.past) <= k.past && old(nics.past) <= nics.past
      invariant old(ProperNames(table.rows)) ==> ProperNames(table.rows)
      invariant spared <==> forall n :: n in namings ==> SparesHost(k.base, n)
      invariant forall n :: n in namings ==> Happened(n, deeds, k.past, nics.past)
      invariant if spared then Tidy(k, nics) && SwitchesApart(k.base, table.rows) else HarmDone(k.base, nics.past)
    {
      ghost var hosts, records := k.past, nics.past;
      ghost var naming := DoDeed(k, ng, table, nics, deeds[i], spared);
      forall n | n in namings
        ensures Happened(n, deeds, k.past, nics.past)
      {
        StillHappened(n, deeds, hosts, records, k.past, nics.past);
      }
      if naming.Some? {
        namings := namings + [naming.value];
        spared := SparesHost(k.base, naming.value);
      }
    }
    if spared {
      TidyIsRecoverable(k.base, k.past, nics.past);
    } else {
      ghost var rows :| rows in nics.past && Harmful(k.base, rows);
      HarmfulIsNotRecoverable(k.base, k.past, nics.past, first, rows);
    }
    AllAnsweredSpare(k.base, namings, deeds, k.past, nics.past);
  }

  ghost predicate HarmDone(base: Host, records: set<NetDevice.Rows>) {
    exists rows :: rows in records && Harmful(base, rows)
  }

  lemma StillHappened(n: Naming, deeds: seq<Deed>, hosts: set<Host>, records: set<NetDevice.Rows>,
                      moreHosts: set<Host>, moreRecords: set<NetDevice.Rows>)
    requires Happened(n, deeds, hosts, records) && hosts <= moreHosts && records <= moreRecords
    ensures Happened(n, deeds, moreHosts, moreRecords)
  {
  }

  lemma AllAnsweredSpare(base: Host, namings: seq<Naming>, deeds: seq<Deed>, hosts: set<Host>,
                         records: set<NetDevice.Rows>)
    requires forall n :: n in namings ==> Happened(n, deeds, hosts, records)
    ensures (forall i :: 0 <= i < |deeds| ==> Answered(deeds[i])) ==> forall n :: n in namings ==> SparesHost(base, n)
  {
    if forall i :: 0 <= i < |deeds| ==> Answered(deeds[i]) {
      forall n | n in namings
        ensures SparesHost(base, n)
      {
        var i :| 0 <= i < |deeds| && DoneBy(n, deeds[i]);
        AnsweredSpares(base, n, deeds[i]);
      }
    }
  }

  /** One deed. The naming is on record as long as all before it have spared the host. */
  method DoDeed(k: Machine, ng: Ng.Netgraph, table: SwitchTable, nics: NicTable, deed: Deed, ghost spared: bool)
    returns (ghost naming: Option<Naming>)
    requires Sound(k.State()) && NgSound(k.State(), ng.others, ng.bridges) && UniqueNames(table.rows) &&
             Keyed(nics.rows)
    requires if spared then Tidy(k, nics) && SwitchesApart(k.base, table.rows) else HarmDone(k.base, nics.past)
    modifies k, ng, table, nics
    ensures Sound(k.State()) && NgSound(k.State(), ng.others, ng.bridges) && UniqueNames(table.rows) &&
            Keyed(nics.rows)
    ensures old(k.past) <= k.past && old(nics.past) <= nics.past
    ensures old(ProperNames(table.rows)) ==> ProperNames(table.rows)
    ensures naming.Some? <==> deed.Name? && spared
    ensures naming.Some? ==> Happened(naming.value, [deed], k.past, nics.past)
    ensures if spared && (naming.Some? ==> SparesHost(k.base, naming.value))
            then Tidy(k, nics) && SwitchesApart(k.base, table.rows)
            else HarmDone(k.base, nics.past)
  {
    naming := None;
    match deed {
      case Do(op) => Perform(k, ng, table, nics, op);
      case Name(vms, configId, answers, slot) =>
        ghost var rows := nics.rows;
        var listed := NameNics(k, nics, vms, configId, answers, slot);
        if spared {
          naming := Some(Naming(rows, vms, k.ifaces, listed, answers));
          assert k.State().ifaces == k.ifaces && DoneBy(naming.value, [deed][0]);
        }
      case TidyUp(configs) =>
        if EachOnce(configs) {
          var _ := CleanUpNet(k, ng, table, nics, configs);
        }
    }
  }

  /** And it is CleanUpNet that does so: run on any of these hosts with any of these records,
      by a daemon whose commands work. */
  method Recover(base: Host, h: Host, ng: Ng.Netgraph, table: SwitchTable, records: NetDevice.Rows, configs: seq<nat>)
    returns (k: Machine)
    requires CleanHost(base, h) && Exclusive(h) && Keyed(records) && HarmlessRows(base, records)
    requires SwitchesApart(base, table.rows) && ProperNames(table.rows) && EachOnce(configs)
    requires ng.reliable && NgSound(h, ng.others, ng.bridges)
    modifies ng`bridges, ng`unnamed
    ensures k.State() == base
    ensures OwnDummies(old(ng.unnamed), h.own, ng.others) ==> ng.unnamed == {}
  {
    k := new Machine(h, true);
    var nics := new NicTable(records);
    var err := CleanUpNet(k, ng, table, nics, configs);
    HarmlessCleanUp(base, h, table.rows, records, configs);
  }
}

/** The names one successful getNetArgs call hands out are new to the host, unused by any
    other running VM and pairwise distinct, as long as the queries behind them are answered;
    and what becomes of them when some are not. */
module NetDeviceNames {
  import opened Wrappers
  import opened Decimal
  import opened FreeName
  import opened NicWiring
  import opened NicRoundTrip
  import opened NetDevice

  /** The NICs read for the VM are its current rows, each once. */
  predicate Fresh(rows: Rows, nics: seq<Nic>) {
    && (forall n :: n in nics ==> n.id in rows && rows[n.id] == n)
    && (forall i, j :: 0 <= i < j < |nics| ==> nics[i].id != nics[j].id)
  }

  /** And the VM counts as using its devices: getNetArgs runs after SetStarting. */
  predicate Current(rows: Rows, vms: map<string, Vm>, nics: seq<Nic>) {
    Fresh(rows, nics) && forall n :: n in nics ==> InUse(vms, n)
  }

  /** No read of a VM's NICs fails. */
  ghost predicate AllReadable(answers: Answers) {
    forall id, name, v :: answers.readable(id, name, v)
  }

  /** The host lists its interfaces for each of the NICs. */
  predicate AllListed(answers: Answers, nics: seq<Nic>) {
    forall n :: n in nics ==> answers.lists(n.id)
  }

  /** The NIC's saved device is a searched-for name. It is not on the host if that listed its
      interfaces, and no other NIC of a VM that is not stopped has it if none was missed. */
  ghost predicate OwnDevice(rows: Rows, vms: map<string, Vm>, ifaces: set<string>, answers: Answers, id: string)
    requires id in rows
  {
    && (exists n: nat :: rows[id].netDev == Numbered(DevPrefix(rows[id].devType), n))
    && (answers.lists(id) ==> rows[id].netDev !in ifaces)
    && (AllReadable(answers) ==>
          forall other, v :: other in rows && other != id && v in vms && !vms[v].stopped &&
                             vms[v].configId == rows[other].configId ==>
            rows[other].netDev != rows[id].netDev)
  }

  lemma NoComma(t: DevType, n: nat)
    ensures ',' !in Numbered(DevPrefix(t), n)
  {
    assert forall c :: c in Format(n) ==> IsDigit(c);
    assert forall c :: c in DevPrefix(t) ==> c != ',';
  }

  lemma {:induction false} AssignedTouchesOnlyDevices(rows: Rows, vms: map<string, Vm>, ifaces: set<string>,
                                                      nics: seq<Nic>, answers: Answers, start: nat, slot: nat)
    requires Fresh(rows, nics)
    ensures OnlyDevices(rows, Assigned(rows, vms, ifaces, nics, answers, start, slot).rows, nics)
    decreases |nics|
  {
    if nics != [] && NetTypeKnown(nics[0].netType) {
      var dev := Device(nics[0], Taken(rows, vms, ifaces, answers, nics[0].id), answers);
      if dev.Some? {
        assert nics[0] in nics;
        var saved := rows[nics[0].id := nics[0].(netDev := dev.value)];
        FreshAfterSave(rows, nics, dev.value);
        AssignedTouchesOnlyDevices(saved, vms, ifaces, nics[1..], answers, start, slot + 1);
        OnlyDevicesCons(rows, Assigned(saved, vms, ifaces, nics[1..], answers, start, slot + 1).rows, nics, dev.value);
      }
    }
  }

  lemma OnlyDevicesCons(rows: Rows, after: Rows, nics: seq<Nic>, dev: string)
    requires nics != [] && nics[0].id in rows && rows[nics[0].id] == nics[0]
    requires OnlyDevices(rows[nics[0].id := nics[0].(netDev := dev)], after, nics[1..])
    ensures OnlyDevices(rows, after, nics)
  {
    assert nics[0] in nics && forall n :: n in nics[1..] ==> n in nics;
    forall id | id in rows
      ensures after[id].(netDev := "") == rows[id].(netDev := "")
      ensures (forall n :: n in nics ==> n.id != id) ==> after[id] == rows[id]
    {
    }
  }

  lemma FreshAfterSave(rows: Rows, nics: seq<Nic>, dev: string)
    requires Fresh(rows, nics) && nics != []
    ensures Fresh(rows[nics[0].id := nics[0].(netDev := dev)], nics[1..])
  {
    forall n | n in nics[1..]
      ensures n in nics && n.id != nics[0].id
    {
    }
  }

  lemma CurrentAfterSave(rows: Rows, vms: map<string, Vm>, nics: seq<Nic>, dev: string)
    requires Current(rows, vms, nics) && nics != []
    ensures Current(rows[nics[0].id := nics[0].(netDev := dev)], vms, nics[1..])
  {
    FreshAfterSave(rows, nics, dev);
    assert forall n :: n in nics[1..] ==> n in nics;
  }

  /** Every TAP and VMNET NIC has a device of its own; NETGRAPH names hold a comma. */
  ghost predicate AllOwn(rows: Rows, vms: map<string, Vm>, ifaces: set<string>, answers: Answers, nics: seq<Nic>) {
    forall n | n in nics ::
      && n.id in rows
      && if n.devType != Netgraph then OwnDevice(rows, vms, ifaces, answers, n.id) else ',' in rows[n.id].netDev
  }

  /** `after` is `before` with other devices for (only) the NICs of the list. */
  predicate OnlyDevices(before: Rows, after: Rows, nics: seq<Nic>) {
    && after.Keys == before.Keys
    && (forall id :: id in before ==> after[id].(netDev := "") == before[id].(netDev := ""))
    && (forall id :: id in before && (forall n :: n in nics ==> n.id != id) ==> after[id] == before[id])
  }

  lemma InUseIsSeen(rows: Rows, vms: map<string, Vm>, answers: Answers, id: string, other: string)
    requires AllReadable(answers) && other in rows && InUse(vms, rows[other])
    ensures rows[other].netDev in SeenPorts(rows, vms, answers, id)
  {
    var v :| v in vms && !vms[v].stopped && vms[v].configId == rows[other].configId;
    assert answers.readable(id, rows[other].netDev, v);
  }

  lemma FirstDeviceIsOwn(rows: Rows, saved: Rows, after: Rows, vms: map<string, Vm>, ifaces: set<string>,
                         answers: Answers, nics: seq<Nic>, dev: string)
    requires Current(rows, vms, nics) && nics != [] && nics[0].devType != Netgraph
    requires var prefix := DevPrefix(nics[0].devType);
             dev == Numbered(prefix, LeastFree(prefix, Taken(rows, vms, ifaces, answers, nics[0].id)))
    requires saved == rows[nics[0].id := nics[0].(netDev := dev)]
    requires OnlyDevices(saved, after, nics[1..]) && AllOwn(after, vms, ifaces, answers, nics[1..])
    ensures nics[0].id in after && OwnDevice(after, vms, ifaces, answers, nics[0].id)
  {
    var first := nics[0];
    assert first in nics;
    assert forall n :: n in nics[1..] ==> n in nics && n.id != first.id;
    assert after[first.id] == saved[first.id];
    if AllReadable(answers) {
      forall other | other in after && other != first.id && InUse(vms, after[other])
        ensures after[other].netDev != dev
      {
        NoComma(first.devType, LeastFree(DevPrefix(first.devType), Taken(rows, vms, ifaces, answers, first.id)));
        OtherDeviceDiffers(rows, saved, after, vms, ifaces, answers, nics, dev, other);
      }
    }
  }

  lemma OtherDeviceDiffers(rows: Rows, saved: Rows, after: Rows, vms: map<string, Vm>, ifaces: set<string>,
                           answers: Answers, nics: seq<Nic>, dev: string, other: string)
    requires Current(rows, vms, nics) && nics != [] && AllReadable(answers)
    requires dev !in Taken(rows, vms, ifaces, answers, nics[0].id) && ',' !in dev
    requires saved == rows[nics[0].id := nics[0].(netDev := dev)]
    requires OnlyDevices(saved, after, nics[1..]) && AllOwn(after, vms, ifaces, answers, nics[1..])
    requires other in after && other != nics[0].id && InUse(vms, after[other])
    requires nics[0].id in after && after[nics[0].id] == saved[nics[0].id]
    ensures after[other].netDev != dev
  {
    var first := nics[0];
    assert first in nics;
    if n :| n in nics[1..] && n.id == other {
      assert n.devType != Netgraph ==> OwnDevice(after, vms, ifaces, answers, n.id);
      assert n in nics && first.id != n.id;
      assert InUse(vms, after[first.id]) && after[first.id].netDev == dev;
    } else {
      assert after[other] == rows[other];
      InUseIsSeen(rows, vms, answers, first.id, other);
    }
  }

  lemma {:induction false} AssignedDevicesAreOwn(rows: Rows, vms: map<string, Vm>, ifaces: set<string>, nics: seq<Nic>,
                               answers: Answers, start: nat, slot: nat)
    requires Current(rows, vms, nics)
    requires Assigned(rows, vms, ifaces, nics, answers, start, slot).ok
    ensures AllOwn(Assigned(rows, vms, ifaces, nics, answers, start, slot).rows, vms, ifaces, answers, nics)
    decreases |nics|
  {
    if nics != [] {
      var dev := FirstDevice(rows, vms, ifaces, nics, answers, start, slot);
      var saved := rows[nics[0].id := nics[0].(netDev := dev)];
      CurrentAfterSave(rows, vms, nics, dev);
      AssignedDevicesAreOwn(saved, vms, ifaces, nics[1..], answers, start, slot + 1);
      AssignedTouchesOnlyDevices(saved, vms, ifaces, nics[1..], answers, start, slot + 1);
      OwnCons(rows, saved, Assigned(saved, vms, ifaces, nics[1..], answers, start, slot + 1).rows, vms, ifaces,
              answers, nics, dev);
    }
  }

  /** The first turn of a call that succeeds. */
  lemma FirstDevice(rows: Rows, vms: map<string, Vm>, ifaces: set<string>, nics: seq<Nic>, answers: Answers,
                    start: nat, slot: nat)
    returns (dev: string)
    requires nics != [] && Assigned(rows, vms, ifaces, nics, answers, start, slot).ok
    ensures Nameable(nics[0], answers)
    ensures Device(nics[0], Taken(rows, vms, ifaces, answers, nics[0].id), answers) == Some(dev)
    ensures var rest := Assigned(rows[nics[0].id := nics[0].(netDev := dev)], vms, ifaces, nics[1..], answers, start,
                                 slot + 1);
            rest.ok && Assigned(rows, vms, ifaces, nics, answers, start, slot).rows == rest.rows
  {
    dev := Device(nics[0], Taken(rows, vms, ifaces, answers, nics[0].id), answers).value;
  }

  lemma OwnCons(rows: Rows, saved: Rows, after: Rows, vms: map<string, Vm>, ifaces: set<string>, answers: Answers,
                nics: seq<Nic>, dev: string)
    requires Current(rows, vms, nics) && nics != []
    requires Device(nics[0], Taken(rows, vms, ifaces, answers, nics[0].id), answers) == Some(dev)
    requires saved == rows[nics[0].id := nics[0].(netDev := dev)]
    requires OnlyDevices(saved, after, nics[1..]) && AllOwn(after, vms, ifaces, answers, nics[1..])
    ensures AllOwn(after, vms, ifaces, answers, nics)
  {
    var first := nics[0];
    assert first in nics;
    if first.devType != Netgraph {
      FirstDeviceIsOwn(rows, saved, after, vms, ifaces, answers, nics, dev);
    } else {
      assert forall n :: n in nics[1..] ==> n in nics && n.id != first.id;
      assert after[first.id] == saved[first.id];
    }
    assert forall n :: n in nics ==> n == first || n in nics[1..];
  }

  /** getNetArgs can name this NIC and save the name. */
  predicate Nameable(nic: Nic, answers: Answers) {
    && NetTypeKnown(nic.netType) && answers.saves(nic.id)
    && (nic.devType == Netgraph ==> answers.ngDev(nic.switchId).Some?)
  }

  /** How many NICs are named before the first that cannot be. */
  function NamedCount(nics: seq<Nic>, answers: Answers): (c: nat)
    ensures c <= |nics| && (forall i :: 0 <= i < c ==> Nameable(nics[i], answers))
    ensures c < |nics| ==> !Nameable(nics[c], answers)
  {
    if nics == [] || !Nameable(nics[0], answers) then 0 else 1 + NamedCount(nics[1..], answers)
  }

  /** A call succeeds exactly when every NIC can be named. Otherwise it has named, and
      saved, just the NICs before the first that cannot. */
  lemma {:induction false} NamingStopsAtFirstUnnameable(rows: Rows, vms: map<string, Vm>, ifaces: set<string>,
                                                        nics: seq<Nic>,
                                       answers: Answers, start: nat, slot: nat)
    ensures var all := Assigned(rows, vms, ifaces, nics, answers, start, slot);
            var front := Assigned(rows, vms, ifaces, nics[..NamedCount(nics, answers)], answers, start, slot);
            front.ok && all.rows == front.rows && (all.ok <==> NamedCount(nics, answers) == |nics|)
    decreases |nics|
  {
    if nics != [] {
      if Nameable(nics[0], answers) {
        var front := nics[..NamedCount(nics, answers)];
        var dev := TurnNamed(rows, vms, ifaces, nics, answers, start, slot);
        var _ := TurnNamed(rows, vms, ifaces, front, answers, start, slot);
        var saved := rows[nics[0].id := nics[0].(netDev := dev)];
        assert front[1..] == nics[1..][..NamedCount(nics[1..], answers)] && front[0] == nics[0];
        NamingStopsAtFirstUnnameable(saved, vms, ifaces, nics[1..], answers, start, slot + 1);
      } else {
        UnnameableEndsIt(rows, vms, ifaces, nics, answers, start, slot);
      }
    }
  }

  /** A turn that names its NIC decides nothing but the rows the rest begins with. */
  lemma TurnNamed(rows: Rows, vms: map<string, Vm>, ifaces: set<string>, nics: seq<Nic>, answers: Answers,
                  start: nat, slot: nat)
    returns (dev: string)
    requires nics != [] && Nameable(nics[0], answers)
    ensures Device(nics[0], Taken(rows, vms, ifaces, answers, nics[0].id), answers) == Some(dev)
    ensures var all := Assigned(rows, vms, ifaces, nics, answers, start, slot);
            var rest := Assigned(rows[nics[0].id := nics[0].(netDev := dev)], vms, ifaces, nics[1..], answers, start,
                                 slot + 1);
            (all.ok <==> rest.ok) && all.rows == rest.rows
  {
    AssignedFirst(rows, vms, ifaces, nics, answers, start, slot);
    dev := Device(nics[0], Taken(rows, vms, ifaces, answers, nics[0].id), answers).value;
  }

  /** What a call that fails gives back as its slot: the one it began with when it stops at an
      unknown NIC type, else the one it has reached. */
  lemma {:induction false} FailedCallSlot(rows: Rows, vms: map<string, Vm>, ifaces: set<string>, nics: seq<Nic>,
                                          answers: Answers, start: nat, slot: nat)
    requires NamedCount(nics, answers) < |nics|
    ensures var all := Assigned(rows, vms, ifaces, nics, answers, start, slot);
            var stopped := nics[NamedCount(nics, answers)];
            && !all.ok && all.slots == []
            && all.next == if stopped.netType in {"VIRTIONET", "E1000"} then slot + NamedCount(nics, answers) else start
    decreases |nics|
  {
    if Nameable(nics[0], answers) {
      AssignedFirst(rows, vms, ifaces, nics, answers, start, slot);
      var dev := Device(nics[0], Taken(rows, vms, ifaces, answers, nics[0].id), answers).value;
      FailedCallSlot(rows[nics[0].id := nics[0].(netDev := dev)], vms, ifaces, nics[1..], answers, start, slot + 1);
    }
  }

  /** When one NIC can be named. */
  lemma OneNamedExactly(rows: Rows, vms: map<string, Vm>, ifaces: set<string>, nic: Nic, answers: Answers,
                        start: nat, slot: nat)
    ensures Assigned(rows, vms, ifaces, [nic], answers, start, slot).ok <==>
            && nic.netType in {"VIRTIONET", "E1000"} && answers.saves(nic.id)
            && (nic.devType in {Tap, Vmnet} || answers.ngDev(nic.switchId).Some?)
    ensures Nameable(nic, answers) <==> Assigned(rows, vms, ifaces, [nic], answers, start, slot).ok
  {
    assert [nic][1..] == [];
    if Nameable(nic, answers) {
      AssignedFirst(rows, vms, ifaces, [nic], answers, start, slot);
    } else {
      UnnameableEndsIt(rows, vms, ifaces, [nic], answers, start, slot);
    }
  }

  lemma AllNamedExactly(nics: seq<Nic>, answers: Answers)
    ensures NamedCount(nics, answers) == |nics| <==> forall n :: n in nics ==> Nameable(n, answers)
  {
    assert NamedCount(nics, answers) < |nics| ==> nics[NamedCount(nics, answers)] in nics;
  }

  lemma AssignedFirst(rows: Rows, vms: map<string, Vm>, ifaces: set<string>, nics: seq<Nic>,
                      answers: Answers, start: nat, slot: nat)
    requires nics != [] && Nameable(nics[0], answers)
    ensures Device(nics[0], Taken(rows, vms, ifaces, answers, nics[0].id), answers).Some?
    ensures var dev := Device(nics[0], Taken(rows, vms, ifaces, answers, nics[0].id), answers).value;
            var saved := rows[nics[0].id := nics[0].(netDev := dev)];
            Assigned(rows, vms, ifaces, nics, answers, start, slot) ==
            Prefixed([slot], Assigned(saved, vms, ifaces, nics[1..], answers, start, slot + 1))
  {
  }

  // Unanswered queries.

  /** The blind names are those of the NICs that get named. */
  lemma {:induction false} BlindNamesOfFront(rows: Rows, vms: map<string, Vm>, ifaces: set<string>, nics: seq<Nic>,
                                             answers: Answers)
    ensures BlindNames(rows, vms, ifaces, nics, answers) ==
            BlindNames(rows, vms, ifaces, nics[..NamedCount(nics, answers)], answers)
    decreases |nics|
  {
    if nics != [] && Nameable(nics[0], answers) {
      var front := nics[..NamedCount(nics, answers)];
      assert front[1..] == nics[1..][..NamedCount(nics[1..], answers)] && front[0] == nics[0];
      var dev := BlindNamesFirst(rows, vms, ifaces, nics, answers);
      var _ := BlindNamesFirst(rows, vms, ifaces, front, answers);
      BlindNamesOfFront(rows[nics[0].id := nics[0].(netDev := dev)], vms, ifaces, nics[1..], answers);
    }
  }

  lemma BlindNamesFirst(rows: Rows, vms: map<string, Vm>, ifaces: set<string>, nics: seq<Nic>, answers: Answers)
    returns (dev: string)
    requires nics != [] && Nameable(nics[0], answers)
    ensures Device(nics[0], Taken(rows, vms, ifaces, answers, nics[0].id), answers) == Some(dev)
    ensures BlindNames(rows, vms, ifaces, nics, answers) ==
            BlindName(nics[0], dev, answers) +
            BlindNames(rows[nics[0].id := nics[0].(netDev := dev)], vms, ifaces, nics[1..], answers)
  {
    dev := Device(nics[0], Taken(rows, vms, ifaces, answers, nics[0].id), answers).value;
  }

  /** Some TAP or VMNET NIC of the list has the device. */
  predicate HasDevice(rows: Rows, nics: seq<Nic>, dev: string) {
    exists n :: n in nics && n.devType != Netgraph && n.id in rows && rows[n.id].netDev == dev
  }

  /** The devices a successful call saves that are on the host already are exactly those
      found blindly. */
  lemma {:induction false} BlindNamesExactly(rows: Rows, vms: map<string, Vm>, ifaces: set<string>, nics: seq<Nic>,
                                             answers: Answers, start: nat, slot: nat, dev: string)
    requires Fresh(rows, nics) && Assigned(rows, vms, ifaces, nics, answers, start, slot).ok && dev in ifaces
    ensures HasDevice(Assigned(rows, vms, ifaces, nics, answers, start, slot).rows, nics, dev) <==>
            dev in BlindNames(rows, vms, ifaces, nics, answers)
    decreases |nics|
  {
    if nics != [] {
      var found := FirstDevice(rows, vms, ifaces, nics, answers, start, slot);
      var saved := rows[nics[0].id := nics[0].(netDev := found)];
      FreshAfterSave(rows, nics, found);
      BlindNamesExactly(saved, vms, ifaces, nics[1..], answers, start, slot + 1, dev);
      AssignedTouchesOnlyDevices(saved, vms, ifaces, nics[1..], answers, start, slot + 1);
      DeviceOfFirst(rows, saved, Assigned(saved, vms, ifaces, nics[1..], answers, start, slot + 1).rows, nics,
                    found, dev);
      BlindNamesCons(rows, vms, ifaces, nics, answers, found, dev);
    }
  }

  lemma DeviceOfFirst(rows: Rows, saved: Rows, after: Rows, nics: seq<Nic>, found: string, dev: string)
    requires Fresh(rows, nics) && nics != [] && saved == rows[nics[0].id := nics[0].(netDev := found)]
    requires OnlyDevices(saved, after, nics[1..])
    ensures HasDevice(after, nics, dev) <==>
            (nics[0].devType != Netgraph && found == dev) || HasDevice(after, nics[1..], dev)
  {
    assert nics[0] in nics;
    assert forall n :: n in nics[1..] ==> n in nics && n.id != nics[0].id;
    assert after[nics[0].id] == saved[nics[0].id];
    assert forall n :: n in nics <==> n == nics[0] || n in nics[1..];
  }

  lemma BlindNamesCons(rows: Rows, vms: map<string, Vm>, ifaces: set<string>, nics: seq<Nic>, answers: Answers,
                       found: string, dev: string)
    requires nics != [] && Nameable(nics[0], answers) && dev in ifaces
    requires Device(nics[0], Taken(rows, vms, ifaces, answers, nics[0].id), answers) == Some(found)
    ensures dev in BlindNames(rows, vms, ifaces, nics, answers) <==>
            || (nics[0].devType != Netgraph && found == dev)
            || dev in BlindNames(rows[nics[0].id := nics[0].(netDev := found)], vms, ifaces, nics[1..], answers)
  {
  }

  /** One NIC that is named blindly. */
  lemma BlindNameOfOne(rows: Rows, vms: map<string, Vm>, ifaces: set<string>, nic: Nic, answers: Answers)
    requires Nameable(nic, answers) && nic.devType != Netgraph && !answers.lists(nic.id)
    ensures var prefix := DevPrefix(nic.devType);
            BlindNames(rows, vms, ifaces, [nic], answers) ==
            {Numbered(prefix, LeastFree(prefix, SeenPorts(rows, vms, answers, nic.id)))}
  {
    var dev := Device(nic, Taken(rows, vms, ifaces, answers, nic.id), answers).value;
    assert [nic][1..] == [];
    assert Taken(rows, vms, ifaces, answers, nic.id) == SeenPorts(rows, vms, answers, nic.id);
    assert BlindNames(rows[nic.id := nic.(netDev := dev)], vms, ifaces, [], answers) == {};
  }

  lemma {:induction false} NothingBlind(rows: Rows, vms: map<string, Vm>, ifaces: set<string>, nics: seq<Nic>,
                                        answers: Answers)
    requires AllListed(answers, nics)
    ensures BlindNames(rows, vms, ifaces, nics, answers) == {}
    decreases |nics|
  {
    if nics != [] && Nameable(nics[0], answers) {
      assert nics[0] in nics;
      var dev := Device(nics[0], Taken(rows, vms, ifaces, answers, nics[0].id), answers).value;
      NothingBlind(rows[nics[0].id := nics[0].(netDev := dev)], vms, ifaces, nics[1..], answers);
    }
  }

  /** Queries that fail do no harm to the search for one NIC exactly when it finds what it
      would have found with all of them answered. */
  lemma SearchIsRightExactly(rows: Rows, vms: map<string, Vm>, ifaces: set<string>, nic: Nic, answers: Answers)
    requires Nameable(nic, answers) && nic.devType != Netgraph
    ensures var prefix, all := DevPrefix(nic.devType), ifaces + UsedPorts(rows, vms);
            var dev := Device(nic, Taken(rows, vms, ifaces, answers, nic.id), answers).value;
            dev !in all <==> dev == Numbered(prefix, LeastFree(prefix, all))
  {
    LeastFreeOfMore(DevPrefix(nic.devType), Taken(rows, vms, ifaces, answers, nic.id), ifaces + UsedPorts(rows, vms));
  }

  /** The input: the NICs of a running VM that has `tap0` cannot be read, and another VM is
      given the same device. */
  lemma UnreadVmSharesDevice(rows: Rows, vms: map<string, Vm>, ifaces: set<string>, nic: Nic, other: string,
                             answers: Answers)
    requires other in rows && InUse(vms, rows[other]) && rows[other].netDev == "tap0"
    requires Nameable(nic, answers) && nic.devType == Tap && "tap0" !in ifaces
    requires forall v :: v in vms ==> !answers.readable(nic.id, "tap0", v)
    ensures Device(nic, Taken(rows, vms, ifaces, answers, nic.id), answers) == Some("tap0")
    ensures "tap0" in UsedPorts(rows, vms)
  {
    assert Numbered("tap", 0) == "tap0";
    assert "tap0" !in Taken(rows, vms, ifaces, answers, nic.id);
    LeastFreeIsUnique("tap", Taken(rows, vms, ifaces, answers, nic.id), 0);
  }

  /** A call that began at `start` and has `n` NICs to seat from `slot` on. */
  predicate Seated(r: NetArgs, start: nat, slot: nat, n: nat) {
    if r.ok
    then r.next == slot + n && |r.slots| == n && forall i :: 0 <= i < n ==> r.slots[i] == slot + i
    else r.slots == [] && start <= r.next <= slot + n
  }

  lemma SeatedFirst(rest: NetArgs, start: nat, slot: nat, n: nat)
    requires Seated(rest, start, slot + 1, n)
    ensures Seated(Prefixed([slot], rest), start, slot, n + 1)
  {
  }

  lemma UnnameableEndsIt(rows: Rows, vms: map<string, Vm>, ifaces: set<string>, nics: seq<Nic>,
                         answers: Answers, start: nat, slot: nat)
    requires nics != [] && !Nameable(nics[0], answers)
    ensures var r := Assigned(rows, vms, ifaces, nics, answers, start, slot);
            !r.ok && r.slots == [] && r.next in {start, slot} && r.rows == rows
  {
  }

  /** One slot per NIC, consecutively; a failed call keeps no argument. */
  lemma {:induction false} AssignedSlots(rows: Rows, vms: map<string, Vm>, ifaces: set<string>, nics: seq<Nic>,
                       answers: Answers, start: nat, slot: nat)
    requires start <= slot
    ensures Seated(Assigned(rows, vms, ifaces, nics, answers, start, slot), start, slot, |nics|)
    decreases |nics|
  {
    if nics != [] {
      if Nameable(nics[0], answers) {
        AssignedFirst(rows, vms, ifaces, nics, answers, start, slot);
        var dev := Device(nics[0], Taken(rows, vms, ifaces, answers, nics[0].id), answers).value;
        var saved := rows[nics[0].id := nics[0].(netDev := dev)];
        AssignedSlots(saved, vms, ifaces, nics[1..], answers, start, slot + 1);
        SeatedFirst(Assigned(saved, vms, ifaces, nics[1..], answers, start, slot + 1), start, slot, |nics| - 1);
      } else {
        UnnameableEndsIt(rows, vms, ifaces, nics, answers, start, slot);
      }
    }
  }
}

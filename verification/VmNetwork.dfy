/** The whole life of a VM's network: name the devices, start the NICs, stop them. */
module VmNetwork {
  import opened Wrappers
  import opened HostState
  import opened Kernel
  import opened NicWiring
  import opened NicRoundTrip
  import opened NetDevice
  import opened NetDeviceNames
  import opened NicCode

  /** What the VM's records are after naming, in whatever order they are read next. The
      only saved devices that can already be on the host are those of NICs that were not
      named, left from an earlier start, and those found while it did not list its interfaces. */
  lemma RecordsAfterNaming(h: Host, rows: Rows, vms: map<string, Vm>, configId: nat, nics: seq<Nic>,
                           answers: Answers, slot: nat, reread: seq<Nic>)
    requires Keyed(rows) && IsNicsOf(rows, configId, nics)
    requires forall n :: n in nics ==> Written(n) && InUse(vms, n)
    requires IsNicsOf(Assigned(rows, vms, h.ifaces, nics, answers, slot, slot).rows, configId, reread)
    ensures Keyed(Assigned(rows, vms, h.ifaces, nics, answers, slot, slot).rows)
    ensures forall n :: n in reread ==> Written(n) && SameButDevice(nics, n)
    ensures Devices(reread) * h.ifaces == LostDevices(rows, vms, h.ifaces, nics, answers) * h.ifaces
  {
    var c := NamedCount(nics, answers);
    var front, back := nics[..c], nics[c..];
    var named := Assigned(rows, vms, h.ifaces, front, answers, slot, slot).rows;
    assert nics == front + back;
    NamingStopsAtFirstUnnameable(rows, vms, h.ifaces, nics, answers, slot, slot);
    CurrentFront(rows, vms, configId, nics, c);
    AssignedTouchesOnlyDevices(rows, vms, h.ifaces, front, answers, slot, slot);
    AssignedDevicesAreOwn(rows, vms, h.ifaces, front, answers, slot, slot);
    BlindNamesOfFront(rows, vms, h.ifaces, nics, answers);
    forall d | d in h.ifaces
      ensures HasDevice(named, front, d) <==> d in BlindNames(rows, vms, h.ifaces, nics, answers)
    {
      BlindNamesExactly(rows, vms, h.ifaces, front, answers, slot, slot, d);
    }
    OnlyNamedChange(h, rows, vms, answers, configId, front, back, named, reread,
                    BlindNames(rows, vms, h.ifaces, nics, answers));
  }

  /** The record is one of the list, perhaps with another device. */
  predicate SameButDevice(nics: seq<Nic>, n: Nic) {
    exists m :: m in nics && n.(netDev := m.netDev) == m
  }

  lemma CurrentFront(rows: Rows, vms: map<string, Vm>, configId: nat, nics: seq<Nic>, c: nat)
    requires Keyed(rows) && IsNicsOf(rows, configId, nics) && c <= |nics|
    requires forall n :: n in nics ==> InUse(vms, n)
    ensures Current(rows, vms, nics[..c])
  {
    var front := nics[..c];
    assert forall i :: 0 <= i < c ==> front[i] == nics[i];
    assert forall n :: n in front ==> n in nics;
  }

  lemma OnlyNamedChange(h: Host, rows: Rows, vms: map<string, Vm>, answers: Answers, configId: nat, front: seq<Nic>,
                        back: seq<Nic>, named: Rows, reread: seq<Nic>, blind: set<string>)
    requires Keyed(rows) && IsNicsOf(rows, configId, front + back)
    requires forall m :: m in front + back ==> Written(m)
    requires OnlyDevices(rows, named, front) && AllOwn(named, vms, h.ifaces, answers, front)
    requires forall d :: d in h.ifaces ==> (HasDevice(named, front, d) <==> d in blind)
    requires IsNicsOf(named, configId, reread)
    ensures Keyed(named)
    ensures forall n :: n in reread ==> Written(n) && SameButDevice(front + back, n)
    ensures Devices(reread) * h.ifaces == (Devices(back) + blind) * h.ifaces
  {
    forall id | id in named
      ensures named[id].id == id
    {
      assert named[id].(netDev := "") == rows[id].(netDev := "");
    }
    forall n | n in reread
      ensures Written(n) && SameButDevice(front + back, n)
      ensures n in back || DeviceOf(n) * h.ifaces <= blind
    {
      RecordAfterNaming(h, rows, vms, answers, configId, front, back, named, n, blind);
    }
    forall n | n in back
      ensures n in reread
    {
      BackUntouched(rows, configId, front, back, named, n);
    }
    forall d | d in blind && d in h.ifaces
      ensures exists n :: n in reread && d in DeviceOf(n)
    {
      BlindIsReread(h, rows, vms, answers, configId, front, back, named, reread, d);
    }
    SameOnHost(h, reread, back, blind);
  }

  lemma BlindIsReread(h: Host, rows: Rows, vms: map<string, Vm>, answers: Answers, configId: nat, front: seq<Nic>,
                      back: seq<Nic>, named: Rows, reread: seq<Nic>, d: string)
    requires Keyed(rows) && IsNicsOf(rows, configId, front + back) && IsNicsOf(named, configId, reread)
    requires OnlyDevices(rows, named, front) && AllOwn(named, vms, h.ifaces, answers, front)
    requires HasDevice(named, front, d)
    ensures exists n :: n in reread && d in DeviceOf(n)
  {
    var n :| n in front && n.devType != Netgraph && n.id in named && named[n.id].netDev == d;
    OwnIsNamed(h, vms, answers, front, named, n);
    assert n in front + back;
    assert Fresh(rows, front + back) by {
      ListedIsFresh(rows, configId, front + back);
    }
    NamedIsReread(rows, configId, front + back, named, reread, n);
    assert d in DeviceOf(named[n.id]);
  }

  lemma OwnIsNamed(h: Host, vms: map<string, Vm>, answers: Answers, front: seq<Nic>, named: Rows, n: Nic)
    requires AllOwn(named, vms, h.ifaces, answers, front) && n in front && n.devType != Netgraph
    ensures n.id in named && named[n.id].netDev != ""
  {
    assert OwnDevice(named, vms, h.ifaces, answers, n.id);
  }

  lemma NamedIsReread(rows: Rows, configId: nat, nics: seq<Nic>, named: Rows, reread: seq<Nic>, n: Nic)
    requires Keyed(rows) && IsNicsOf(rows, configId, nics) && IsNicsOf(named, configId, reread) && n in nics
    requires n.id in rows && n.id in named && named[n.id].(netDev := "") == rows[n.id].(netDev := "")
    ensures named[n.id] in reread && named[n.id].devType == n.devType
  {
    assert rows[n.id] == n;
    assert named[n.id].configId == rows[n.id].(netDev := "").configId;
    assert named[n.id].devType == rows[n.id].(netDev := "").devType;
  }

  lemma SameOnHost(h: Host, nics: seq<Nic>, back: seq<Nic>, blind: set<string>)
    requires forall n :: n in back ==> n in nics
    requires forall n :: n in nics ==> n in back || DeviceOf(n) * h.ifaces <= blind
    requires forall d :: d in blind && d in h.ifaces ==> exists n :: n in nics && d in DeviceOf(n)
    ensures Devices(nics) * h.ifaces == (Devices(back) + blind) * h.ifaces
  {
    forall d
      ensures d in Devices(nics) * h.ifaces <==> d in (Devices(back) + blind) * h.ifaces
    {
      DevicesExactly(nics, d);
      DevicesExactly(back, d);
    }
  }

  lemma BackUntouched(rows: Rows, configId: nat, front: seq<Nic>, back: seq<Nic>, named: Rows, n: Nic)
    requires Keyed(rows) && IsNicsOf(rows, configId, front + back) && OnlyDevices(rows, named, front) && n in back
    ensures n.id in named && named[n.id] == n && n.configId == configId
  {
    assert n in front + back;
    var j :| 0 <= j < |back| && back[j] == n;
    assert (front + back)[|front| + j] == n;
    forall f | f in front
      ensures f.id != n.id
    {
      var i :| 0 <= i < |front| && front[i] == f;
      assert (front + back)[i] == f;
    }
  }

  lemma RecordAfterNaming(h: Host, rows: Rows, vms: map<string, Vm>, answers: Answers, configId: nat, front: seq<Nic>,
                          back: seq<Nic>, named: Rows, n: Nic, blind: set<string>)
    requires Keyed(rows) && IsNicsOf(rows, configId, front + back)
    requires forall m :: m in front + back ==> Written(m)
    requires OnlyDevices(rows, named, front) && AllOwn(named, vms, h.ifaces, answers, front)
    requires forall d :: d in h.ifaces ==> (HasDevice(named, front, d) <==> d in blind)
    requires exists id :: id in named && named[id] == n && n.configId == configId
    ensures Written(n) && SameButDevice(front + back, n)
    ensures n in back || DeviceOf(n) * h.ifaces <= blind
  {
    var id :| id in named && named[id] == n && n.configId == configId;
    assert n.(netDev := "") == rows[id].(netDev := "");
    assert n.(netDev := rows[id].netDev) == n.(netDev := "").(netDev := rows[id].netDev) == rows[id];
    assert rows[id] in front + back;
    if rows[id] in front {
      FrontAfterNaming(h, rows, vms, answers, front, named, id, blind);
    } else {
      assert forall m :: m in front ==> m in front + back && (exists j :: j in rows && rows[j] == m);
      assert forall m :: m in front ==> m.id != id;
    }
  }

  lemma FrontAfterNaming(h: Host, rows: Rows, vms: map<string, Vm>, answers: Answers, front: seq<Nic>, named: Rows,
                         id: string, blind: set<string>)
    requires id in rows && id in named && rows[id] in front && rows[id].id == id
    requires named[id].(netDev := "") == rows[id].(netDev := "") && AllOwn(named, vms, h.ifaces, answers, front)
    requires forall d :: d in h.ifaces ==> (HasDevice(named, front, d) <==> d in blind)
    ensures Written(named[id]) && DeviceOf(named[id]) * h.ifaces <= blind
  {
    assert named[id].devType == named[id].(netDev := "").devType == rows[id].devType;
    if rows[id].devType != Netgraph {
      assert OwnDevice(named, vms, h.ifaces, answers, id);
      assert HasDevice(named, front, named[id].netDev);
    }
  }

  lemma StartedIds(rows: Rows, configId: nat, nics: seq<Nic>, started: seq<Nic>)
    requires Keyed(rows) && IsNicsOf(rows, configId, nics)
    requires |started| == |nics| && forall i :: 0 <= i < |nics| ==> SameButInst(nics[i], started[i])
    ensures forall n :: n in started ==> n.configId == configId && n.id in rows && rows[n.id].configId == configId
    ensures forall id :: id in rows && rows[id].configId == configId ==> exists n :: n in started && n.id == id
    ensures forall i, j :: 0 <= i < j < |started| ==> started[i].id != started[j].id
  {
    forall i | 0 <= i < |nics|
      ensures started[i].id == nics[i].id && started[i].configId == configId && started[i].id in rows
      ensures rows[started[i].id].configId == configId
    {
      assert nics[i] in nics;
    }
    forall id | id in rows && rows[id].configId == configId
      ensures exists n :: n in started && n.id == id
    {
      assert rows[id] in nics;
      var i :| 0 <= i < |nics| && nics[i] == rows[id];
      assert started[i] in started;
    }
  }

  /** After a start, the VM's rows are the started records and nothing else. */
  lemma StartedRowsReread(rows: Rows, configId: nat, nics: seq<Nic>, started: seq<Nic>, order: seq<Nic>)
    requires Keyed(rows) && IsNicsOf(rows, configId, nics)
    requires |started| == |nics| && forall i :: 0 <= i < |nics| ==> SameButInst(nics[i], started[i])
    requires IsNicsOf(SavedAll(rows, started), configId, order)
    ensures forall n :: n in order <==> n in started
  {
    StartedIds(rows, configId, nics, started);
    SavedAllExactly(rows, started);
    var saved := SavedAll(rows, started);
    forall n | n in started
      ensures n in order
    {
      assert saved[n.id] == n && n.configId == configId;
    }
    forall n | n in order
      ensures n in started
    {
      var id :| id in saved && saved[id] == n && n.configId == configId;
      if forall m :: m in started ==> m.id != id {
        assert false;
      }
    }
  }

  /** After the stop, every row of the VM is blank again if stopping blanks each of them. */
  lemma StoppedRowsBlank(rows: Rows, switches: map<string, Switch>, configId: nat, order: seq<Nic>)
    requires Keyed(rows) && IsNicsOf(rows, configId, order)
    requires forall n :: n in order ==> Blank(Detached(switches, n))
    ensures var after := SavedAll(rows, DetachedAll(switches, order));
            forall id :: id in after && after[id].configId == configId ==> Blank(after[id])
  {
    var after := DetachedAll(switches, order);
    StartedIds(rows, configId, order, after);
    SavedAllExactly(rows, after);
    forall n | n in after
      ensures Blank(n)
    {
      var i :| 0 <= i < |after| && after[i] == n;
      assert order[i] in order;
    }
  }

  /** What is asked of a VM's records before it starts. */
  ghost predicate AllSaved(nics: seq<Nic>) {
    forall n :: n in nics ==> Saved(n)
  }

  predicate AllBlank(nics: seq<Nic>) {
    forall n :: n in nics ==> Blank(n)
  }

  predicate InstAbsent(h: Host, nics: seq<Nic>) {
    forall n :: n in nics ==> Absent(InstGear(n), h)
  }

  lemma CarriedOver(h: Host, nics: seq<Nic>, ready: seq<Nic>)
    requires AllSaved(nics) && forall n :: n in ready ==> Written(n) && SameButDevice(nics, n)
    ensures AllSaved(ready)
    ensures AllBlank(nics) ==> AllBlank(ready)
    ensures InstAbsent(h, nics) ==> InstAbsent(h, ready)
  {
    forall n | n in ready
      ensures Saved(n) && (AllBlank(nics) ==> Blank(n)) && (InstAbsent(h, nics) ==> Absent(InstGear(n), h))
    {
      var m :| m in nics && n.(netDev := m.netDev) == m;
      assert InstGear(n) == InstGear(m);
    }
  }

  /** The host is as before less what the records claim of it; restored exactly when they
      claim nothing of it. */
  ghost predicate LeavesClaimed(h: Host, end: Host, switches: map<string, Switch>, records: seq<Nic>) {
    && end == Remove(h, Claimed(switches, records))
    && (end == h <==> forall n :: n in records ==> Absent(ClaimOf(switches, n), h))
  }

  /** The host is as before less these devices; restored exactly when none of them was on it. */
  ghost predicate LeavesLost(h: Host, end: Host, lost: set<string>) {
    end == Without(h, lost) && (end == h <==> lost !! h.ifaces)
  }

  /** `ready` are the records netStart reads, `order` those NetStop reads. */
  lemma CycleLeaves(h: Host, rows: Rows, vms: map<string, Vm>, switches: map<string, Switch>, configId: nat,
                    nics: seq<Nic>, answers: Answers, slot: nat, ready: seq<Nic>, order: seq<Nic>)
    requires WellFormed(h) && Keyed(rows) && IsNicsOf(rows, configId, nics)
    requires AllSaved(nics) && forall n :: n in nics ==> InUse(vms, n)
    requires var named := Assigned(rows, vms, h.ifaces, nics, answers, slot, slot).rows;
             && IsNicsOf(named, configId, ready)
             && IsNicsOf(SavedAll(named, StartedAll(h, switches, ready).1), configId, order)
    ensures var named := Assigned(rows, vms, h.ifaces, nics, answers, slot, slot).rows;
            var (wired, records) := StartedAll(h, switches, ready);
            var (end, stopped) := StoppedAll(wired, switches, order);
            var after := SavedAll(SavedAll(named, records), stopped);
            && LeavesClaimed(h, end, switches, records)
            && (InstAbsent(h, nics) ==> LeavesLost(h, end, LostDevices(rows, vms, h.ifaces, nics, answers)))
            && (AllBlank(nics) ==> forall id :: id in after && after[id].configId == configId ==> Blank(after[id]))
  {
    var named := Assigned(rows, vms, h.ifaces, nics, answers, slot, slot).rows;
    RecordsAfterNaming(h, rows, vms, configId, nics, answers, slot, ready);
    CarriedOver(h, nics, ready);
    StartAllAccounted(h, switches, ready);
    var records := StartedAll(h, switches, ready).1;
    StartedRowsReread(named, configId, ready, records, order);
    StartThenStopLeaves(h, switches, ready, order);
    StartThenStopRestoresExactly(h, switches, ready, order);
    if InstAbsent(h, nics) {
      OnlyDevicesMatter(h, switches, ready);
      var lost := LostDevices(rows, vms, h.ifaces, nics, answers);
      RemoveSame(h, Gear(Devices(ready), {}, {}), Gear(lost, {}, {}));
      RemovedExactly(h, Gear(lost, {}, {}));
    }
    if AllBlank(nics) {
      CycleBlanks(h, named, switches, configId, ready, order);
    }
  }

  lemma CycleBlanks(h: Host, named: Rows, switches: map<string, Switch>, configId: nat, ready: seq<Nic>,
                    order: seq<Nic>)
    requires WellFormed(h) && Keyed(named) && IsNicsOf(named, configId, ready) && AllSaved(ready) && AllBlank(ready)
    requires IsNicsOf(SavedAll(named, StartedAll(h, switches, ready).1), configId, order)
    requires forall n :: n in order <==> n in StartedAll(h, switches, ready).1
    ensures var after := SavedAll(SavedAll(named, StartedAll(h, switches, ready).1), DetachedAll(switches, order));
            forall id :: id in after && after[id].configId == configId ==> Blank(after[id])
  {
    StartAllAccounted(h, switches, ready);
    var records := StartedAll(h, switches, ready).1;
    assert forall i :: 0 <= i < |ready| ==> SameButInst(ready[i], records[i]) && records[i].id == ready[i].id;
    SavedAllExactly(named, records);
    forall n | n in order
      ensures Blank(Detached(switches, n))
    {
      BlankAgain(h, switches, ready, n);
    }
    StoppedRowsBlank(SavedAll(named, records), switches, configId, order);
  }

  /** The saved devices of the NICs that getNetArgs does not get to. */
  function StaleDevices(nics: seq<Nic>, answers: Answers): set<string> {
    Devices(nics[NamedCount(nics, answers)..])
  }

  /** The devices in the records that a start and stop can take from the host: those of NICs
      that were not named, and those found while it did not list its interfaces. */
  function LostDevices(rows: Rows, vms: map<string, Vm>, ifaces: set<string>, nics: seq<Nic>, answers: Answers)
    : set<string>
  {
    StaleDevices(nics, answers) + BlindNames(rows, vms, ifaces, nics, answers)
  }

  /** There are none when every NIC can be named and the host lists its interfaces for each. */
  lemma NothingLost(rows: Rows, vms: map<string, Vm>, ifaces: set<string>, nics: seq<Nic>, answers: Answers)
    requires (forall n :: n in nics ==> Nameable(n, answers)) && AllListed(answers, nics)
    ensures LostDevices(rows, vms, ifaces, nics, answers) == {}
  {
    AllNamedExactly(nics, answers);
    NothingBlind(rows, vms, ifaces, nics, answers);
    assert nics[|nics|..] == [];
  }

  lemma ListedIsFresh(rows: Rows, configId: nat, nics: seq<Nic>)
    requires Keyed(rows) && IsNicsOf(rows, configId, nics)
    ensures Fresh(rows, nics)
  {
    forall n | n in nics
      ensures n.id in rows && rows[n.id] == n
    {
      var id :| id in rows && rows[id] == n;
    }
  }

  lemma NamedIsKeyed(before: Rows, after: Rows, nics: seq<Nic>)
    requires Keyed(before) && OnlyDevices(before, after, nics)
    ensures Keyed(after)
  {
    forall id | id in after
      ensures after[id].id == id
    {
      assert after[id].(netDev := "").id == before[id].(netDev := "").id;
    }
  }

  /** getNetArgs with the read it begins with. */
  method NameAll(table: NicTable, vms: map<string, Vm>, ifaces: set<string>, configId: nat, answers: Answers, slot: nat)
    returns (nics: seq<Nic>, named: bool)
    requires Keyed(table.rows)
    modifies table
    ensures Keyed(table.rows) && IsNicsOf(old(table.rows), configId, nics) && Fresh(old(table.rows), nics)
    ensures table.rows == Assigned(old(table.rows), vms, ifaces, nics, answers, slot, slot).rows
    ensures named <==> forall n :: n in nics ==> Nameable(n, answers)
    ensures NamedInTurn(old(table.rows), old(table.past), table.rows, table.past, nics,
                        ifaces - BlindNames(old(table.rows), vms, ifaces, nics, answers))
  {
    ghost var rows := table.rows;
    nics := table.GetNics(configId);
    var slots, next;
    slots, next, named := table.GetNetArgs(nics, vms, ifaces, answers, slot);
    ListedIsFresh(rows, configId, nics);
    NamingStopsAtFirstUnnameable(rows, vms, ifaces, nics, answers, slot, slot);
    AllNamedExactly(nics, answers);
    AssignedTouchesOnlyDevices(rows, vms, ifaces, nics, answers, slot, slot);
    NamedIsKeyed(rows, table.rows, nics);
  }

  /** getNetArgs, netStart and NetStop of one VM on a host that carries commands out; a
      failing getNetArgs does not keep netStart from going on. `nics` is the order in which
      getNetArgs read the records, `ready` that in which netStart did. The host is as
      before less what the records netStart saved claim of it. Where no inst field named
      anything on the host that is the interfaces with a device that was stale or found
      blindly; where all were empty they are empty again. */
  method StartThenStop(k: Machine, table: NicTable, vms: map<string, Vm>, switches: map<string, Switch>,
                       configId: nat, answers: Answers, slot: nat)
    returns (named: bool, nics: seq<Nic>, ready: seq<Nic>)
    requires k.reliable && WellFormed(k.State()) && Exclusive(k.State())
    requires Keyed(table.rows)
    requires exists v :: v in vms && !vms[v].stopped && vms[v].configId == configId
    requires forall id :: id in table.rows && table.rows[id].configId == configId ==> Saved(table.rows[id])
    modifies k, table
    ensures IsNicsOf(old(table.rows), configId, nics)
    ensures named <==> forall n :: n in nics ==> Nameable(n, answers)
    ensures IsNicsOf(Assigned(old(table.rows), vms, old(k.ifaces), nics, answers, slot, slot).rows, configId, ready)
    ensures LeavesClaimed(old(k.State()), k.State(), switches, StartedAll(old(k.State()), switches, ready).1)
    ensures InstAbsent(old(k.State()), nics) ==>
              LeavesLost(old(k.State()), k.State(), LostDevices(old(table.rows), vms, old(k.ifaces), nics, answers))
    ensures AllBlank(nics) ==>
              forall id :: id in table.rows && table.rows[id].configId == configId ==> Blank(table.rows[id])
  {
    ghost var h, rows := k.State(), table.rows;
    nics, named := NameAll(table, vms, k.ifaces, configId, answers, slot);
    var failed;
    failed, ready := NetStart(k, table, switches, configId, true);
    var order := NetStop(k, table, switches, configId, true);
    CycleLeaves(h, rows, vms, switches, configId, nics, answers, slot, ready, order);
  }

  /** The input that shows naming has to succeed or stale devices be gone: a NETGRAPH NIC
      that cannot be named keeps getNetArgs from the TAP NIC behind it, whose old `tap0` by
      now belongs to another VM. Stopping takes that interface away. */
  lemma StaleDeviceIsLost(h: Host, switches: map<string, Switch>, answers: Answers)
    requires "tap0" in h.ifaces && answers.ngDev("") == None
    ensures var first := Nic("n1", 1, "VIRTIONET", Netgraph, "", "", false, "", "");
            var second := Nic("n2", 1, "VIRTIONET", Tap, "tap0", "", false, "", "");
            var (wired, records) := StartedAll(h, switches, [first, second]);
            && StaleDevices([first, second], answers) == {"tap0"}
            && records == [first, second]
            && "tap0" !in StoppedAll(wired, switches, records).0.ifaces
  {
    var first := Nic("n1", 1, "VIRTIONET", Netgraph, "", "", false, "", "");
    var second := Nic("n2", 1, "VIRTIONET", Tap, "tap0", "", false, "", "");
    var nics := [first, second];
    assert nics[1..] == [second] && [second][1..] == [];
    assert nics[0] == first && nics[NamedCount(nics, answers)..] == nics;
    assert Devices(nics) == {"tap0"} by {
      assert Devices([second]) == {"tap0"};
    }
    StartedFirst(h, switches, second, []);
    StartedFirst(h, switches, first, [second]);
    assert nics == [first] + [second] && [second] == [second] + [];
    assert Stopped(h, switches, first) == (h, first);
    assert StoppedAll(h, switches, [second]).0 == Without(h, {"tap0"});
  }

  lemma StartedFirst(h: Host, switches: map<string, Switch>, nic: Nic, rest: seq<Nic>)
    ensures var w := Started(h, switches, nic);
            StartedAll(h, switches, [nic] + rest) ==
            (StartedAll(w.host, switches, rest).0, [w.nic] + StartedAll(w.host, switches, rest).1)
  {
    assert ([nic] + rest)[1..] == rest;
  }
}

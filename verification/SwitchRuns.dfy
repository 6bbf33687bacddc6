/** Every sequence of switch and NIC operations, with commands failing anywhere, keeps each
    host interface in at most one IF bridge and each peer on at most one NG bridge. */
module SwitchRuns {
  import opened Wrappers
  import opened CommaList
  import opened FreeName
  import opened HostState
  import opened GroupSweep
  import opened Kernel
  import opened NicWiring
  import opened NetDevice
  import opened NicCode
  import opened BridgeIf
  import opened Switches
  import opened NgSwitches
  import opened SwitchMembers
  import SwitchName
  import Ng = NgBridge

  /** The pieces of an uplink column that exist on the host and are in no bridge. */
  function FreePieces(h: Host, pieces: seq<string>): set<string> {
    set m | m in pieces && m != "" && m in HostInterfaces(h) && Unbridged(h, m)
  }

  lemma BridgedIsNew(h: Host, name: string, uplinks: string)
    requires name !in h.ifaces
    ensures NewBridge(h, Bridged(h, name, FreePieces(h, Split(uplinks))), name, uplinks)
  {
  }

  /** A new bridge with its members. */
  function Bridged(h: Host, name: string, members: set<string>): Host {
    AddIface(h, name).(bridges := h.bridges[name := members])
  }

  /** buildIfSwitch: members that do not exist or are already bridged are skipped. */
  method BuildIfSwitch(k: Machine, name: string, uplinks: string) returns (err: Option<Error>)
    requires Sound(k.State())
    modifies k
    ensures Sound(k.State()) && k.ether >= old(k.ether)
    ensures err.None? ==> name !in old(k.ifaces)
    ensures err.None? ==> name in k.bridges && forall m :: m in k.bridges[name] ==> m in Split(uplinks) && m != ""
    ensures forall b :: b in old(k.bridges) ==> b in k.bridges && k.bridges[b] == old(k.bridges)[b]
    ensures k.reliable ==> (err.None? <==> BridgePossible(old(k.State()), name))
    ensures k.reliable && err.None? ==>
              k.State() == Bridged(old(k.State()), name, FreePieces(old(k.State()), Split(uplinks)))
    ensures k.reliable ==> (err.None? <==> "bridge" <= name && name !in old(k.ifaces))
    ensures k.reliable && err.None? ==> NewBridge(old(k.State()), k.State(), name, uplinks)
    ensures k.reliable && err.Some? ==> k.State() == old(k.State())
    ensures old(k.Clean()) ==> k.Clean()
    ensures old(k.past) <= k.past
  {
    var members := SiftMembers(k, Split(uplinks));
    assert forall m :: m in members ==> m in HostInterfaces(k.State()) && m in k.ifaces;
    ghost var created, added;
    err, created, added := CreateWithMembers(k, name, members);
    if created {
      AddedIsBridged(old(k.State()), name, members[..added]);
    }
    if err.None? {
      assert members[..added] == members;
      BridgedIsNew(old(k.State()), name, uplinks);
      assert k.reliable ==> (set m | m in members) == FreePieces(old(k.State()), Split(uplinks));
    }
  }

  /** The sanity checks on the members. */
  method SiftMembers(k: Machine, list: seq<string>) returns (members: seq<string>)
    requires Sound(k.State())
    ensures forall j :: 0 <= j < |members| ==> members[j] in FreePieces(k.State(), list)
    ensures k.reliable ==> forall m :: m in FreePieces(k.State(), list) ==> m in members
  {
    members := [];
    for i := 0 to |list|
      invariant forall j :: 0 <= j < |members| ==> members[j] in FreePieces(k.State(), list)
      invariant k.reliable ==> forall j :: 0 <= j < i && list[j] in FreePieces(k.State(), list) ==> list[j] in members
    {
      if list[i] == "" {
        continue;
      }
      var present := k.UplinkCandidates();
      if list[i] !in present {
        continue;
      }
      var used, failed := MemberUsed(k, list[i]);
      if failed.Some? || used {
        continue;
      }
      members := members + [list[i]];
    }
  }

  lemma {:induction false} AddedIsBridged(h: Host, name: string, members: seq<string>)
    requires name !in h.bridges
    ensures AddMembers(AddBridge(h, name), name, members) == Bridged(h, name, set m | m in members)
  {
    if members == [] {
      assert (set m | m in members) == {};
    } else {
      var n := |members| - 1;
      AddedIsBridged(h, name, members[..n]);
      OneMoreMember(h, name, members);
    }
  }

  lemma OneMoreMember(h: Host, name: string, members: seq<string>)
    requires members != []
    ensures var n := |members| - 1;
            AddMember(Bridged(h, name, set m | m in members[..n]), name, members[n]) ==
            Bridged(h, name, set m | m in members)
  {
    var n := |members| - 1;
    assert (set m | m in members) == (set m | m in members[..n]) + {members[n]} by {
      assert members == members[..n] + [members[n]];
    }
    UpdatedTwice(h.bridges, name, set m | m in members[..n], set m | m in members);
  }

  /** The host and the NG bridges with a switch brought up. */
  function BroughtUp(h: Host, row: Switch): Host {
    if row.kind == IfBridge then Bridged(h, row.name, FreePieces(h, Split(row.uplink))) else h
  }

  function BroughtUpNg(h: Host, bridges: Bridges, unnamed: set<string>, row: Switch): Bridges {
    if row.kind == NgBridge then BuiltNg(h, bridges, unnamed, row.name, row.uplink) else bridges
  }

  /** The names an NG switch needs are not those of other nodes. */
  predicate FreeNames(h: Host, others: set<string>, row: Switch) {
    row.kind == NgBridge ==> NamesFree(h, others, row.name)
  }

  /** What bringing a switch up keeps, whatever fails. */
  ghost predicate Undisturbed(h: Host, others: set<string>, bridges: Bridges, end: Host, now: Bridges, row: Switch) {
    && Sound(end) && NgSound(end, others, now)
    && (forall b :: b in h.bridges ==> b in end.bridges && end.bridges[b] == h.bridges[b])
    && OthersKept(bridges, now, row.name)
    && ('.' !in row.uplink && PeersOnce(bridges) ==> PeersOnce(now))
  }

  lemma MoreNodesSound(h: Host, end: Host, others: set<string>, bridges: Bridges)
    requires NgSound(h, others, bridges) && h.ether <= end.ether
    ensures NgSound(end, others, bridges)
  {
    assert NodesOf(h.ether) <= NodesOf(end.ether);
  }

  /** buildIfSwitch or buildNgSwitch. */
  method Build(k: Machine, ng: Ng.Netgraph, row: Switch) returns (err: Option<Error>)
    requires Sound(k.State()) && NgSound(k.State(), ng.others, ng.bridges)
    modifies k, ng`bridges, ng`unnamed
    ensures Undisturbed(old(k.State()), ng.others, old(ng.bridges), k.State(), ng.bridges, row)
    ensures err.None? ==>
              if row.kind == IfBridge then row.name in k.bridges && row.name !in old(k.ifaces)
              else row.name in ng.bridges
    ensures k.reliable && ng.reliable && FreeNames(old(k.State()), ng.others, row) ==>
              && (err.None? <==> if row.kind == IfBridge then BridgePossible(old(k.State()), row.name)
                                 else Creatable(old(k.State()), old(ng.bridges), row.name))
              && ng.unnamed <= old(ng.unnamed)
              && k.State() == (if err.None? then BroughtUp(old(k.State()), row) else old(k.State()))
              && ng.bridges == BroughtUpNg(old(k.State()), old(ng.bridges), old(ng.unnamed), row)
    ensures k.reliable && err.None? && row.kind == IfBridge ==>
              NewBridge(old(k.State()), k.State(), row.name, row.uplink)
    ensures old(k.Clean()) ==> k.Clean()
    ensures UnnamedLeft(old(ng.unnamed), ng.unnamed, k.own)
    ensures old(k.past) <= k.past
  {
    match row.kind {
      case IfBridge =>
        err := BuildIfSwitch(k, row.name, row.uplink);
        MoreNodesSound(old(k.State()), k.State(), ng.others, ng.bridges);
      case NgBridge => err := BuildNgSwitch(k, ng, row.name, row.uplink);
    }
  }

  /** bringUpNewSwitch: for NG switches errors are only logged. */
  method BringUp(k: Machine, ng: Ng.Netgraph, row: Switch) returns (err: Option<Error>)
    requires Sound(k.State()) && NgSound(k.State(), ng.others, ng.bridges)
    modifies k, ng`bridges, ng`unnamed
    ensures Undisturbed(old(k.State()), ng.others, old(ng.bridges), k.State(), ng.bridges, row)
    ensures k.reliable && ng.reliable && FreeNames(old(k.State()), ng.others, row) ==>
              && (err.None? <==> row.kind == IfBridge ==> BridgePossible(old(k.State()), row.name))
              && ng.unnamed <= old(ng.unnamed)
              && k.State() == (if err.None? then BroughtUp(old(k.State()), row) else old(k.State()))
              && ng.bridges == BroughtUpNg(old(k.State()), old(ng.bridges), old(ng.unnamed), row)
    ensures k.reliable && err.None? && row.kind == IfBridge ==>
              NewBridge(old(k.State()), k.State(), row.name, row.uplink)
    ensures old(k.Clean()) ==> k.Clean()
    ensures err.None? && row.kind == IfBridge ==> row.name !in old(k.ifaces)
    ensures UnnamedLeft(old(ng.unnamed), ng.unnamed, k.own)
    ensures old(k.past) <= k.past
  {
    err := Build(k, ng, row);
    if row.kind == NgBridge {
      err := None;
    }
  }

  /** What Create asks for: a new valid name, and an uplink among the host's own interfaces
      that is free. */
  ghost predicate CanCreate(h: Host, bridges: Bridges, rows: Switches.Rows, row: Switch) {
    && (forall id :: id in rows ==> rows[id].name != row.name)
    && SwitchName.NameValid(row.kind, row.name)
    && row.uplink in HostInterfaces(h)
    && match row.kind
       case IfBridge => Unbridged(h, row.uplink) && row.name !in h.ifaces
       case NgBridge => Ng.NotPeer(bridges, row.uplink)
  }

  /** switchCheckUplink. */
  method CheckUplink(k: Machine, ng: Ng.Netgraph, row: Switch) returns (err: Option<Error>)
    requires Sound(k.State())
    ensures err.None? ==>
              && row.uplink in HostInterfaces(k.State())
              && if row.kind == IfBridge then Unbridged(k.State(), row.uplink) else Ng.NotPeer(ng.bridges, row.uplink)
    ensures k.reliable && ng.reliable && row.uplink in HostInterfaces(k.State()) ==>
              (err.None? <==> if row.kind == IfBridge then Unbridged(k.State(), row.uplink)
                              else ng.unnamed == {} && Ng.NotPeer(ng.bridges, row.uplink))
    ensures err.None? ==> Askable(row.kind, ng.unnamed)
    ensures k.reliable && ng.reliable ==>
              (err.None? <==>
               && row.uplink in k.ether && row.uplink !in k.own
               && if row.kind == IfBridge then forall b :: b in k.bridges ==> row.uplink !in k.bridges[b]
                  else ng.unnamed == {} &&
                       forall b, p :: b in ng.bridges && p in ng.bridges[b] ==> p.peerName != row.uplink)
  {
    // the empty name is no interface, so a switch cannot be created without an uplink
    var present := k.UplinkCandidates();
    if row.uplink !in present {
      return Some(NoSuchInterface);
    }
    if row.kind == IfBridge {
      var used, failed := MemberUsed(k, row.uplink);
      if failed.Some? {
        return failed;
      }
      return if used then Some(UplinkInUse) else None;
    }
    var used, known := NgMemberUsed(ng, row.uplink);
    if !known {
      return Some(CommandFailed);
    }
    return if used then Some(UplinkInUse) else None;
  }

  /** Create: validation, INSERT, and the hook that brings the switch up; an error there
      rolls the row back. */
  method CreateSwitch(k: Machine, ng: Ng.Netgraph, table: SwitchTable, newId: string, row: Switch)
    returns (err: Option<Error>)
    requires Sound(k.State()) && NgSound(k.State(), ng.others, ng.bridges)
    requires UniqueNames(table.rows) && newId !in table.rows
    modifies k, ng`bridges, ng`unnamed, table
    ensures UniqueNames(table.rows)
    ensures Undisturbed(old(k.State()), ng.others, old(ng.bridges), k.State(), ng.bridges, row)
    ensures table.rows == if err.None? then old(table.rows)[newId := row] else old(table.rows)
    ensures old(k.Clean() && SwitchesApart(k.base, table.rows)) ==> SwitchesApart(k.base, table.rows)
    ensures err.None? ==>
              && SwitchName.NameValid(row.kind, row.name) && row.uplink in old(HostInterfaces(k.State()))
              && (row.kind == IfBridge ==> Unbridged(old(k.State()), row.uplink))
    ensures k.reliable && ng.reliable && FreeNames(old(k.State()), ng.others, row) ==>
              && (err.None? <==>
                  old(Askable(row.kind, ng.unnamed) && CanCreate(k.State(), ng.bridges, table.rows, row)))
              && ng.unnamed <= old(ng.unnamed)
              && k.State() == (if err.None? then BroughtUp(old(k.State()), row) else old(k.State()))
              && ng.bridges == (if err.None? then BroughtUpNg(old(k.State()), old(ng.bridges), old(ng.unnamed), row)
                                else old(ng.bridges))
    ensures k.reliable && err.None? && row.kind == IfBridge ==>
              NewBridge(old(k.State()), k.State(), row.name, row.uplink) &&
              (',' !in row.uplink ==> row.uplink in k.bridges[row.name])
    ensures old(k.Clean()) ==> k.Clean()
    ensures UnnamedLeft(old(ng.unnamed), ng.unnamed, k.own)
    ensures old(k.past) <= k.past
    ensures old(ProperNames(table.rows)) ==> ProperNames(table.rows)
  {
    err := CheckNew(k, ng, table, row);
    if err.Some? {
      return;
    }
    err := BringUp(k, ng, row);
    if err.None? && row.kind == IfBridge && k.reliable {
      UplinkIsIn(old(k.State()), k.State(), row);
    }
    if old(k.Clean()) {
      NotInBase(k.base, old(k.State()));
    }
    if err.None? {
      RowAdded(table.rows, newId, row);
      table.rows := table.rows[newId := row];
    }
  }

  /** The checks before anything is made. */
  method CheckNew(k: Machine, ng: Ng.Netgraph, table: SwitchTable, row: Switch) returns (err: Option<Error>)
    requires Sound(k.State())
    ensures err.None? ==>
              && (forall id :: id in table.rows ==> table.rows[id].name != row.name)
              && SwitchName.NameValid(row.kind, row.name) && row.uplink in HostInterfaces(k.State())
              && Askable(row.kind, ng.unnamed)
              && if row.kind == IfBridge then Unbridged(k.State(), row.uplink) else Ng.NotPeer(ng.bridges, row.uplink)
    ensures k.reliable && ng.reliable ==>
              (err.None? <==>
               && (forall id :: id in table.rows ==> table.rows[id].name != row.name)
               && SwitchName.NameValid(row.kind, row.name) && row.uplink in HostInterfaces(k.State())
               && Askable(row.kind, ng.unnamed)
               && if row.kind == IfBridge then Unbridged(k.State(), row.uplink)
                  else Ng.NotPeer(ng.bridges, row.uplink))
  {
    if id :| id in table.rows && table.rows[id].name == row.name {
      return Some(AlreadyExists);
    }
    if !SwitchName.NameValid(row.kind, row.name) {
      return Some(InvalidName);
    }
    err := CheckUplink(k, ng, row);
  }

  /** A single uplink becomes a member. */
  lemma UplinkIsIn(h: Host, end: Host, row: Switch)
    requires NewBridge(h, end, row.name, row.uplink)
    requires row.uplink in HostInterfaces(h) && Unbridged(h, row.uplink) && Consistent(h)
    ensures ',' !in row.uplink ==> row.uplink in end.bridges[row.name]
  {
    if ',' !in row.uplink {
      OnePiece(row.uplink);
    }
  }

  lemma {:induction false} OnePiece(text: string)
    requires ',' !in text
    ensures Split(text) == [text]
  {
    if text != "" {
      OnePiece(text[1..]);
      assert text == [text[0]] + text[1..];
    }
  }

  lemma RowAdded(rows: Switches.Rows, newId: string, row: Switch)
    requires UniqueNames(rows) && newId !in rows && SwitchName.NameValid(row.kind, row.name)
    requires forall id :: id in rows ==> rows[id].name != row.name
    ensures UniqueNames(rows[newId := row]) && (ProperNames(rows) ==> ProperNames(rows[newId := row]))
  {
  }

  predicate SwitchInUse(rows: NetDevice.Rows, id: string) {
    exists n :: n in rows && rows[n].switchId == id
  }

  /** These interfaces have gone, out of every bridge, and nothing else. */
  ghost predicate GoneFrom(h: Host, end: Host, gone: set<string>) {
    && (forall x :: x in end.ifaces <==> x in h.ifaces && x !in gone)
    && (forall b :: b in end.bridges <==> b in h.bridges && b !in gone)
    && (forall b, m :: b in end.bridges && b in h.bridges ==>
          (m in end.bridges[b] <==> m in h.bridges[b] && m !in gone))
    && end.epairs == h.epairs && end.pipes == h.pipes
  }

  lemma WithoutIsGone(h: Host, gone: set<string>)
    requires Sound(h)
    ensures GoneFrom(h, Without(h, gone), gone)
    ensures gone !! h.ifaces ==> GoneFrom(h, h, gone)
  {
  }

  /** The NG bridges once interfaces have gone. */
  lemma SweptSound(h: Host, others: set<string>, bridges: Bridges)
    requires Ng.AllDistinct(bridges)
    ensures NgSound(h, others, Ng.Swept(bridges, NodesOf(h.ether) + others))
    ensures PeersOnce(bridges) ==> PeersOnce(Ng.Swept(bridges, NodesOf(h.ether) + others))
  {
    forall b | b in bridges
      ensures Ng.DistinctHooks(Ng.StillThere(bridges[b], NodesOf(h.ether) + others))
    {
      Ng.StillThereDistinct(bridges[b], NodesOf(h.ether) + others);
    }
    if PeersOnce(bridges) {
      FewerPeersOnce(bridges, Ng.Swept(bridges, NodesOf(h.ether) + others));
    }
  }

  /** The kernel drops the hooks that led to interfaces which have gone. */
  method Settle(k: Machine, ng: Ng.Netgraph)
    requires Ng.AllDistinct(ng.bridges)
    modifies ng`bridges, ng`unnamed
    ensures NgSound(k.State(), ng.others, ng.bridges)
    ensures ng.bridges == Ng.Swept(old(ng.bridges), NodesOf(k.ether) + ng.others)
    ensures ng.unnamed == old(ng.unnamed) * (NodesOf(k.ether) + ng.others)
    ensures old(PeersOnce(ng.bridges)) ==> PeersOnce(ng.bridges)
  {
    SweptSound(k.State(), ng.others, ng.bridges);
    ng.Sweep(NodesOf(k.ether) + ng.others);
  }

  /** Delete: refused while a NIC names the switch. */
  method DeleteSwitch(k: Machine, ng: Ng.Netgraph, table: SwitchTable, nics: NicTable, id: string)
    returns (err: Option<Error>)
    requires Sound(k.State()) && NgSound(k.State(), ng.others, ng.bridges) && UniqueNames(table.rows) &&
             id in table.rows
    modifies k, ng`bridges, ng`unnamed, table
    ensures Sound(k.State()) && NgSound(k.State(), ng.others, ng.bridges) && UniqueNames(table.rows)
    ensures old(PeersOnce(ng.bridges)) ==> PeersOnce(ng.bridges)
    ensures table.rows == if SwitchInUse(nics.rows, id) then old(table.rows) else old(table.rows) - {id}
    ensures SwitchInUse(nics.rows, id) ==> err.Some? && k.State() == old(k.State()) && ng.bridges == old(ng.bridges)
    ensures k.reliable && ng.reliable && !SwitchInUse(nics.rows, id) ==>
              var row := old(table.rows)[id];
              if row.kind == IfBridge then
                && k.State() == BridgeDestroyed(old(k.State()), row.name)
                && (err.None? <==> IsBridgeName(row.name))
                && ng.bridges == Ng.Swept(old(ng.bridges), NodesOf(k.ether) + ng.others)
              else
                && k.State() == old(k.State())
                && ng.bridges == (if IsNetName(row.name) then old(ng.bridges) - {row.name} else old(ng.bridges))
                && (err.None? <==> IsNetName(row.name) && row.name in old(ng.bridges))
    ensures (exists n :: n in nics.rows && nics.rows[n].switchId == id) <==> id in table.rows
    ensures id !in table.rows && k.reliable && ng.reliable && old(table.rows)[id].kind == IfBridge &&
            "bridge" <= old(table.rows)[id].name ==>
              GoneFrom(old(k.State()), k.State(), {old(table.rows)[id].name})
    ensures old(k.Clean() && NoneOf(k.base, table.rows[id])) ==> k.Clean()
    ensures old(k.past) <= k.past
    ensures old(ProperNames(table.rows)) ==> ProperNames(table.rows)
  {
    if n :| n in nics.rows && nics.rows[n].switchId == id {
      return Some(SwitchBusy);
    }
    var row := table.rows[id];
    table.rows := table.rows - {id};
    match row.kind {
      case IfBridge =>
        WithoutIsGone(k.State(), {row.name});
        err := DestroyIfSwitch(k, row.name, true);
        Settle(k, ng);
      case NgBridge =>
        err := DestroyNgSwitch(ng, row.name);
        assert row.name !in old(ng.bridges) ==> old(ng.bridges) - {row.name} == old(ng.bridges);
    }
  }

  /** Deleting a new switch gives back the table and the host it was created in, and the NG
      bridges too, except when the switch took its name from an NG bridge that was there:
      its creation succeeds all the same and its deletion destroys that bridge. */
  method CreateThenDelete(k: Machine, ng: Ng.Netgraph, table: SwitchTable, nics: NicTable, newId: string, row: Switch)
    returns (created: bool)
    requires k.reliable && ng.reliable && ng.unnamed == {} && FreeNames(k.State(), ng.others, row)
    requires Sound(k.State()) && NgSound(k.State(), ng.others, ng.bridges)
    requires UniqueNames(table.rows) && newId !in table.rows
    requires !SwitchInUse(nics.rows, newId)
    modifies k, ng`bridges, ng`unnamed, table
    ensures k.State() == old(k.State()) && table.rows == old(table.rows)
    ensures created <==> old(CanCreate(k.State(), ng.bridges, table.rows, row))
    ensures ng.bridges == old(ng.bridges) <==> !(created && row.kind == NgBridge && row.name in old(ng.bridges))
    ensures old(k.past) <= k.past
  {
    ghost var h, bridges := k.State(), ng.bridges;
    var err := CreateSwitch(k, ng, table, newId, row);
    if err.Some? {
      return false;
    }
    err := DeleteSwitch(k, ng, table, nics, newId);
    CreationUndone(h, ng.others, bridges, row);
    InsertedThenRemoved(old(table.rows), newId, row);
    return true;
  }

  lemma InsertedThenRemoved(rows: Switches.Rows, id: string, row: Switch)
    requires id !in rows
    ensures rows[id := row] - {id} == rows
  {
  }

  lemma CreationUndone(h: Host, others: set<string>, bridges: Bridges, row: Switch)
    requires Sound(h) && NgSound(h, others, bridges) && SwitchName.NameValid(row.kind, row.name)
    requires row.kind == IfBridge ==> BridgePossible(h, row.name)
    ensures row.kind == IfBridge ==>
              BridgeDestroyed(BroughtUp(h, row), row.name) == h &&
              Ng.Swept(bridges, NodesOf(h.ether) + others) == bridges
    ensures row.kind == NgBridge ==> IsNetName(row.name)
    ensures row.kind == NgBridge ==>
              (BroughtUpNg(h, bridges, {}, row) - {row.name} == bridges <==> row.name !in bridges)
  {
    if row.kind == IfBridge {
      BridgedThenDestroyed(h, row.name, FreePieces(h, Split(row.uplink)));
      NothingSwept(h, others, bridges);
    } else if row.name !in bridges {
      BuiltThenRemoved(h, bridges, row);
    } else {
      assert row.name !in BroughtUpNg(h, bridges, {}, row) - {row.name};
    }
  }

  lemma BuiltThenRemoved(h: Host, bridges: Bridges, row: Switch)
    requires row.kind == NgBridge && row.name !in bridges
    ensures BroughtUpNg(h, bridges, {}, row) - {row.name} == bridges
  {
  }

  lemma BridgedThenDestroyed(h: Host, name: string, members: set<string>)
    requires Consistent(h) && BridgePossible(h, name)
    ensures BridgeDestroyed(Bridged(h, name, members), name) == h
  {
    var end := BridgeDestroyed(Bridged(h, name, members), name);
    assert end.ifaces == h.ifaces && end.own == h.own && end.ether == h.ether;
    assert forall b :: b in h.bridges ==> h.bridges[b] - {name} == h.bridges[b];
    assert end.bridges == h.bridges;
  }

  predicate DotFreeRows(rows: Switches.Rows) {
    forall id :: id in rows ==> '.' !in rows[id].uplink
  }

  /** CreateSwitches at start-up: the first switch that fails ends it. */
  method CreateSwitches(k: Machine, ng: Ng.Netgraph, table: SwitchTable) returns (err: Option<Error>)
    requires Sound(k.State()) && NgSound(k.State(), ng.others, ng.bridges)
    modifies k, ng`bridges, ng`unnamed
    ensures Sound(k.State()) && NgSound(k.State(), ng.others, ng.bridges)
    ensures DotFreeRows(table.rows) && old(PeersOnce(ng.bridges)) ==> PeersOnce(ng.bridges)
    ensures forall b :: b in old(k.bridges) ==> b in k.bridges && k.bridges[b] == old(k.bridges)[b]
    ensures forall b :: b in old(ng.bridges) ==> b in ng.bridges && ng.bridges[b] == old(ng.bridges)[b]
    ensures err.None? ==> forall id :: id in table.rows ==> IsUp(k.State(), ng.bridges, table.rows[id])
    ensures k.reliable && ng.reliable && old(ng.unnamed) == {} && NoClash(ng.others, table.rows) && err.None? ==>
              && IfUp(old(k.State()), k.State(), table.rows, table.rows.Keys)
              && (DotFreeRows(table.rows) ==>
                    NgUp(old(k.State()), old(ng.bridges), ng.bridges, table.rows, table.rows.Keys))
    ensures old(k.Clean()) ==> k.Clean()
    ensures old(k.past) <= k.past
  {
    ghost var h, bridges := k.State(), ng.bridges;
    ghost var exact := k.reliable && ng.reliable && ng.unnamed == {} && NoClash(ng.others, table.rows);
    var todo := table.rows.Keys;
    ghost var done := {};
    NothingUp(h, bridges, table.rows);
    while todo != {}
      invariant old(k.past) <= k.past
      invariant todo <= table.rows.Keys
      invariant Rising(h, bridges, k.State(), ng.others, ng.bridges, table.rows, done)
      invariant old(k.Clean()) ==> k.Clean()
      invariant done == table.rows.Keys - todo
      invariant exact ==> AllUp(h, bridges, k.State(), ng.bridges, ng.unnamed, table.rows, done)
      decreases todo
    {
      var id :| id in todo;
      err := BuildNext(k, ng, table, id, h, bridges, done, exact);
      todo, done := todo - {id}, done + {id};
      if err.Some? {
        return;
      }
    }
    assert done == table.rows.Keys;
    return None;
  }

  /** One turn of that loop. */
  method BuildNext(k: Machine, ng: Ng.Netgraph, table: SwitchTable, id: string, ghost h: Host, ghost bridges: Bridges,
                   ghost done: set<string>, ghost exact: bool)
    returns (err: Option<Error>)
    requires Rising(h, bridges, k.State(), ng.others, ng.bridges, table.rows, done) && id in table.rows
    requires exact ==> k.reliable && ng.reliable && NoClash(ng.others, table.rows)
    requires exact ==> AllUp(h, bridges, k.State(), ng.bridges, ng.unnamed, table.rows, done)
    modifies k, ng`bridges, ng`unnamed
    ensures Rising(h, bridges, k.State(), ng.others, ng.bridges, table.rows, if err.None? then done + {id} else done)
    ensures exact && err.None? ==>
              AllUp(h, bridges, k.State(), ng.bridges, ng.unnamed, table.rows, done + {id})
    ensures old(k.Clean()) ==> k.Clean()
    ensures old(k.past) <= k.past
  {
    if exact {
      NoClashIsFree(k.State(), ng.others, table.rows, id);
    }
    err := Build(k, ng, table.rows[id]);
    StillRising(h, bridges, old(k.State()), k.State(), ng.others, old(ng.bridges), ng.bridges, table.rows, done, id);
    if exact && err.None? {
      if table.rows[id].kind == IfBridge {
        IfTurn(h, old(k.State()), k.State(), table.rows, done, id);
        NgSame(h, bridges, ng.bridges, table.rows, done, id);
      } else {
        IfSame(h, k.State(), table.rows, done, id);
        if DotFreeRows(table.rows) {
          NgTurn(h, bridges, k.State(), old(ng.bridges), ng.bridges, table.rows, done, id);
        }
      }
    }
  }

  /** Whatever fails: nothing that was there has changed, and the switches `done` are up. */
  ghost predicate Rising(h: Host, bridges: Bridges, end: Host, others: set<string>, now: Bridges,
                         rows: Switches.Rows, done: set<string>)
  {
    && Sound(end) && NgSound(end, others, now)
    && (DotFreeRows(rows) && PeersOnce(bridges) ==> PeersOnce(now))
    && (forall b :: b in h.bridges ==> b in end.bridges && end.bridges[b] == h.bridges[b])
    && (forall b :: b in bridges ==> b in now && now[b] == bridges[b])
    && (forall id :: id in rows && id in done ==> IsUp(end, now, rows[id]))
  }

  lemma StillRising(h: Host, bridges: Bridges, mid: Host, end: Host, others: set<string>, before: Bridges,
                    now: Bridges, rows: Switches.Rows, done: set<string>, id: string)
    requires Rising(h, bridges, mid, others, before, rows, done) && id in rows
    requires Undisturbed(mid, others, before, end, now, rows[id])
    ensures Rising(h, bridges, end, others, now, rows, done)
    ensures IsUp(end, now, rows[id]) ==> Rising(h, bridges, end, others, now, rows, done + {id})
  {
  }

  /** No other node is called like an NG switch or a dummy bridge. */
  ghost predicate NoClash(others: set<string>, rows: Switches.Rows) {
    forall o :: o in others ==> o != "" && !IsDummy(o) && forall id :: id in rows ==> rows[id].name != o
  }

  lemma NoClashIsFree(h: Host, others: set<string>, rows: Switches.Rows, id: string)
    requires NoClash(others, rows) && id in rows
    ensures FreeNames(h, others, rows[id])
  {
    var dummy := DummyName("bridge", h.bridges.Keys);
    if dummy != "" {
      var n: nat :| 1 <= n <= HIGHEST && dummy == Numbered("bridge", n);
      assert IsDummy(dummy);
    }
  }

  /** What has been brought up so far is exactly what was asked for. */
  ghost predicate AllUp(h: Host, bridges: Bridges, end: Host, now: Bridges, unnamed: set<string>,
                        rows: Switches.Rows, done: set<string>)
  {
    && unnamed == {} && IfUp(h, end, rows, done)
    && (DotFreeRows(rows) ==> NgUp(h, bridges, now, rows, done))
  }

  lemma NothingUp(h: Host, bridges: Bridges, rows: Switches.Rows)
    ensures AllUp(h, bridges, h, bridges, {}, rows, {})
  {
  }

  predicate IsUp(h: Host, bridges: Bridges, row: Switch) {
    if row.kind == IfBridge then row.name in h.bridges else row.name in bridges
  }

  function NamesOf(rows: Switches.Rows, kind: SwitchType, ids: set<string>): set<string> {
    set id | id in ids && id in rows && rows[id].kind == kind :: rows[id].name
  }

  /** It is the bridge of a switch. */
  predicate Owned(rows: Switches.Rows, kind: SwitchType, bridge: string) {
    exists id :: id in rows && rows[id].kind == kind && rows[id].name == bridge
  }

  lemma OwnedNames(rows: Switches.Rows, bridges: set<string>)
    ensures NamesOf(rows, IfBridge, rows.Keys) * bridges == set b | b in bridges && Owned(rows, IfBridge, b)
    ensures forall b :: b in NamesOf(rows, NgBridge, rows.Keys) <==> Owned(rows, NgBridge, b)
  {
  }

  /** Create admits no switch by another name. */
  predicate ProperNames(rows: Switches.Rows) {
    UniqueNames(rows) &&
    forall id :: id in rows ==>
      if rows[id].kind == IfBridge then IsBridgeName(rows[id].name) else IsNetName(rows[id].name)
  }

  lemma NothingDestroyed(h: Host, gone: set<string>)
    requires gone == {}
    ensures Without(h, gone) == h
  {
    assert forall b :: b in h.bridges ==> h.bridges[b] - gone == h.bridges[b];
    assert Without(h, gone).bridges == h.bridges;
  }

  lemma OneMoreGone(h: Host, gone: set<string>, name: string)
    requires IsBridgeName(name) && name in h.ifaces
    ensures BridgeDestroyed(Without(h, gone), name) == Without(h, gone + {name})
  {
    var once, twice := Without(h, gone), Without(h, gone + {name});
    assert once.ifaces - {name} == twice.ifaces;
    assert forall b :: b in h.bridges ==> h.bridges[b] - gone - {name} == h.bridges[b] - (gone + {name});
    if name !in once.ifaces {
      assert gone + {name} == gone;
    } else {
      assert once.own - {name} == twice.own && once.ether - {name} == twice.ether;
      assert Without(once, {name}).bridges == twice.bridges;
    }
  }

  /** One more IF switch gone. */
  lemma DestroyedStep(h: Host, rows: Switches.Rows, done: set<string>, id: string, existing: set<string>)
    requires id in rows && id !in done && existing == h.bridges.Keys <= h.ifaces && ProperNames(rows)
    ensures var gone := NamesOf(rows, IfBridge, done) * existing;
            var more := NamesOf(rows, IfBridge, done + {id}) * existing;
            Without(h, more) ==
            if rows[id].kind == IfBridge && rows[id].name in existing
            then BridgeDestroyed(Without(h, gone), rows[id].name)
            else Without(h, gone)
  {
    var gone := NamesOf(rows, IfBridge, done) * existing;
    var more := NamesOf(rows, IfBridge, done + {id}) * existing;
    if rows[id].kind == IfBridge && rows[id].name in existing {
      assert more == gone + {rows[id].name};
      OneMoreGone(h, gone, rows[id].name);
    } else {
      assert more == gone;
    }
  }

  /** One more NG switch gone. */
  lemma ShutDownStep(bridges: Bridges, rows: Switches.Rows, done: set<string>, id: string)
    requires id in rows && id !in done && done <= rows.Keys && ProperNames(rows)
    ensures var now := bridges - NamesOf(rows, NgBridge, done);
            bridges - NamesOf(rows, NgBridge, done + {id}) ==
            (if rows[id].kind == NgBridge && rows[id].name in bridges then now - {rows[id].name} else now)
    ensures rows[id].kind == NgBridge && rows[id].name in bridges ==>
              rows[id].name in bridges - NamesOf(rows, NgBridge, done)
  {
    if rows[id].kind == NgBridge {
      assert NamesOf(rows, NgBridge, done + {id}) == NamesOf(rows, NgBridge, done) + {rows[id].name};
    } else {
      assert NamesOf(rows, NgBridge, done + {id}) == NamesOf(rows, NgBridge, done);
    }
  }

  /** DestroySwitches at shutdown: on a host that obeys, exactly the bridges of the switches
      go, and the hooks that led to the IF bridges among them. */
  method DestroySwitches(k: Machine, ng: Ng.Netgraph, table: SwitchTable) returns (err: Option<Error>)
    requires Sound(k.State()) && NgSound(k.State(), ng.others, ng.bridges)
    modifies k, ng`bridges, ng`unnamed
    ensures Sound(k.State()) && NgSound(k.State(), ng.others, ng.bridges)
    ensures old(PeersOnce(ng.bridges)) ==> PeersOnce(ng.bridges)
    ensures k.reliable && ng.reliable && ProperNames(table.rows) ==>
              && err.None?
              && k.State() ==
                 Without(old(k.State()), NamesOf(table.rows, IfBridge, table.rows.Keys) * old(k.bridges).Keys)
              && ng.bridges ==
                 Ng.Swept(old(ng.bridges) - NamesOf(table.rows, NgBridge, table.rows.Keys),
                          NodesOf(k.ether) + ng.others)
    ensures k.reliable && ng.reliable && ProperNames(table.rows) ==>
              && GoneFrom(old(k.State()), k.State(), set b | b in old(k.bridges) && Owned(table.rows, IfBridge, b))
              && (forall b :: b in ng.bridges <==> b in old(ng.bridges) && !Owned(table.rows, NgBridge, b))
    ensures old(k.Clean()) && SwitchesApart(k.base, table.rows) ==> k.Clean()
    ensures ng.unnamed <= old(ng.unnamed)
    ensures err.None? ==> ng.unnamed <= NodesOf(k.ether) + ng.others
    ensures old(k.past) <= k.past
  {
    var ifs, listed := k.AllBridges();
    if !listed {
      return Some(CommandFailed);
    }
    var ngs, _, ngListed := ng.List();
    if !ngListed {
      return Some(CommandFailed);
    }
    OwnedNames(table.rows, old(k.bridges).Keys);
    WithoutIsGone(k.State(), set b | b in old(k.bridges) && Owned(table.rows, IfBridge, b));
    err := DestroyAll(k, ng, table, ifs, ngs);
    Settle(k, ng);
  }

  /** The loop over the switches. */
  method DestroyAll(k: Machine, ng: Ng.Netgraph, table: SwitchTable, ifs: set<string>, ngs: set<string>)
    returns (err: Option<Error>)
    requires Sound(k.State()) && Ng.AllDistinct(ng.bridges) && ifs == k.bridges.Keys && ngs == ng.bridges.Keys
    modifies k, ng`bridges
    ensures Sound(k.State()) && Ng.AllDistinct(ng.bridges)
    ensures old(PeersOnce(ng.bridges)) ==> PeersOnce(ng.bridges)
    ensures k.reliable && ng.reliable && ProperNames(table.rows) ==>
              && err.None?
              && k.State() == Without(old(k.State()), NamesOf(table.rows, IfBridge, table.rows.Keys) * ifs)
              && ng.bridges == old(ng.bridges) - NamesOf(table.rows, NgBridge, table.rows.Keys)
    ensures old(k.Clean()) && SwitchesApart(k.base, table.rows) ==> k.Clean()
    ensures old(k.past) <= k.past
  {
    ghost var h, bridges := k.State(), ng.bridges;
    ghost var exact := k.reliable && ng.reliable && ProperNames(table.rows);
    var todo := table.rows.Keys;
    ghost var done := {};
    NothingDestroyed(h, NamesOf(table.rows, IfBridge, done) * ifs);
    assert bridges - NamesOf(table.rows, NgBridge, done) == bridges;
    while todo != {}
      invariant old(k.past) <= k.past
      invariant todo <= table.rows.Keys && done == table.rows.Keys - todo
      invariant Sound(k.State()) && Ng.AllDistinct(ng.bridges)
      invariant PeersOnce(bridges) ==> PeersOnce(ng.bridges)
      invariant exact ==> k.State() == Without(h, NamesOf(table.rows, IfBridge, done) * ifs)
      invariant old(k.Clean()) && SwitchesApart(k.base, table.rows) ==> k.Clean()
      invariant exact ==> ng.bridges == bridges - NamesOf(table.rows, NgBridge, done)
      decreases todo
    {
      var id :| id in todo;
      if exact {
        DestroyedStep(h, table.rows, done, id, ifs);
        ShutDownStep(bridges, table.rows, done, id);
      }
      todo, done := todo - {id}, done + {id};
      err := DestroyOne(k, ng, table.rows[id], ifs, ngs);
      if err.Some? {
        return;
      }
    }
    assert done == table.rows.Keys;
    return None;
  }

  method DestroyOne(k: Machine, ng: Ng.Netgraph, row: Switch, ifs: set<string>, ngs: set<string>)
    returns (err: Option<Error>)
    requires Sound(k.State()) && Ng.AllDistinct(ng.bridges)
    modifies k, ng`bridges
    ensures Sound(k.State()) && Ng.AllDistinct(ng.bridges)
    ensures old(PeersOnce(ng.bridges)) ==> PeersOnce(ng.bridges)
    ensures k.reliable ==>
              k.State() == if row.kind == IfBridge && row.name in ifs then BridgeDestroyed(old(k.State()), row.name)
                           else old(k.State())
    ensures ng.reliable &&
            (row.kind == NgBridge && row.name in ngs ==> IsNetName(row.name) && row.name in old(ng.bridges)) ==>
              ng.bridges == if row.kind == NgBridge && row.name in ngs then old(ng.bridges) - {row.name}
                            else old(ng.bridges)
    ensures k.reliable && ng.reliable
            && (row.kind == NgBridge && row.name in ngs ==> IsNetName(row.name) && row.name in old(ng.bridges))
            && (row.kind == IfBridge ==> IsBridgeName(row.name))
            ==> err.None?
    ensures old(k.Clean()) && NoneOf(k.base, row) ==> k.Clean()
    ensures old(k.past) <= k.past
  {
    match row.kind {
      case IfBridge =>
        if row.name in ifs {
          err := DestroyIfSwitch(k, row.name, true);
          return;
        }
      case NgBridge =>
        if row.name in ngs {
          err := DestroyNgSwitch(ng, row.name);
          return;
        }
    }
    return None;
  }

  datatype Operation =
    | Create(newId: string, row: Switch)
    | Delete(id: string)
    | StartUp
    | Shutdown
    | ChangeUplink(id: string, uplink: string)
    | StartNics(configId: nat)
    | StopNics(configId: nat)
    | BridgeVanishes(name: string)   // an NG bridge that was never made persistent
    | VmPlugs(bridge: string, link: string, socket: string)
    | VmUnplugs(socket: string)

  predicate DotFreeOperation(op: Operation) {
    match op
    case Create(_, row) => '.' !in row.uplink
    case ChangeUplink(_, uplink) => '.' !in uplink
    case _ => true
  }

  /** Any sequence of operations, each on a host where any command may fail. */
  method RunAll(k: Machine, ng: Ng.Netgraph, table: SwitchTable, nics: NicTable, operations: seq<Operation>)
    requires Sound(k.State()) && NgSound(k.State(), ng.others, ng.bridges)
    requires UniqueNames(table.rows) && Keyed(nics.rows)
    modifies k, ng, table, nics
    ensures Sound(k.State()) && NgSound(k.State(), ng.others, ng.bridges)
    ensures UniqueNames(table.rows)
    ensures old(DotFreeRows(table.rows) && PeersOnce(ng.bridges)) &&
            (forall i :: 0 <= i < |operations| ==> DotFreeOperation(operations[i])) ==>
              PeersOnce(ng.bridges)
    ensures old(k.past) <= k.past && old(nics.past) <= nics.past
  {
    ghost var clean := DotFreeRows(table.rows) && PeersOnce(ng.bridges) &&
      forall i :: 0 <= i < |operations| ==> DotFreeOperation(operations[i]);
    for i := 0 to |operations|
      invariant old(k.past) <= k.past && old(nics.past) <= nics.past
      invariant Sound(k.State()) && NgSound(k.State(), ng.others, ng.bridges)
      invariant UniqueNames(table.rows) && Keyed(nics.rows)
      invariant clean ==> DotFreeRows(table.rows) && PeersOnce(ng.bridges)
    {
      Perform(k, ng, table, nics, operations[i]);
    }
  }

  method Perform(k: Machine, ng: Ng.Netgraph, table: SwitchTable, nics: NicTable, op: Operation)
    requires Sound(k.State()) && NgSound(k.State(), ng.others, ng.bridges)
    requires UniqueNames(table.rows) && Keyed(nics.rows)
    modifies k, ng, table, nics
    ensures Sound(k.State()) && NgSound(k.State(), ng.others, ng.bridges)
    ensures UniqueNames(table.rows) && Keyed(nics.rows)
    ensures old(DotFreeRows(table.rows) && PeersOnce(ng.bridges)) && DotFreeOperation(op) ==>
              DotFreeRows(table.rows) && PeersOnce(ng.bridges)
    ensures old(Tidy(k, nics) && SwitchesApart(k.base, table.rows)) ==>
              Tidy(k, nics) && SwitchesApart(k.base, table.rows)
    ensures old(k.past) <= k.past && old(nics.past) <= nics.past
    ensures old(ProperNames(table.rows)) ==> ProperNames(table.rows)
  {
    match op {
      case StartNics(configId) => StartAndSettle(k, ng, table, nics, configId);
      case StopNics(configId) => StopAndSettle(k, ng, table, nics, configId);
      case BridgeVanishes(name) =>
        var _ := ng.Shutdown(name);
      case VmPlugs(bridge, link, socket) => PlugVm(k, ng, bridge, link, socket);
      case VmUnplugs(socket) => UnplugVm(k, ng, socket);
      case _ => PerformOnSwitch(k, ng, table, nics, op);
    }
  }

  /** The operations on switches. */
  method PerformOnSwitch(k: Machine, ng: Ng.Netgraph, table: SwitchTable, nics: NicTable, op: Operation)
    requires Sound(k.State()) && NgSound(k.State(), ng.others, ng.bridges) && UniqueNames(table.rows)
    modifies k, ng`bridges, ng`unnamed, table
    ensures Sound(k.State()) && NgSound(k.State(), ng.others, ng.bridges) && UniqueNames(table.rows)
    ensures old(DotFreeRows(table.rows) && PeersOnce(ng.bridges)) && DotFreeOperation(op) ==>
              DotFreeRows(table.rows) && PeersOnce(ng.bridges)
    ensures old(Tidy(k, nics) && SwitchesApart(k.base, table.rows)) ==>
              Tidy(k, nics) && SwitchesApart(k.base, table.rows)
    ensures old(k.past) <= k.past
    ensures old(ProperNames(table.rows)) ==> ProperNames(table.rows)
  {
    match op {
      case Create(newId, row) =>
        if newId !in table.rows {
          var _ := CreateSwitch(k, ng, table, newId, row);
        }
      case Delete(id) =>
        if id in table.rows {
          var _ := DeleteSwitch(k, ng, table, nics, id);
        }
      case StartUp =>
        var _ := CreateSwitches(k, ng, table);
      case Shutdown =>
        var _ := DestroySwitches(k, ng, table);
      case ChangeUplink(id, uplink) =>
        if id in table.rows {
          PerformUplink(k, ng, table, id, uplink);
        }
      case _ =>
    }
  }

  method PerformUplink(k: Machine, ng: Ng.Netgraph, table: SwitchTable, id: string, uplink: string)
    requires Sound(k.State()) && NgSound(k.State(), ng.others, ng.bridges) && UniqueNames(table.rows) &&
             id in table.rows
    modifies k, ng`bridges, table
    ensures Sound(k.State()) && NgSound(k.State(), ng.others, ng.bridges) && UniqueNames(table.rows)
    ensures '.' !in uplink && old(DotFreeRows(table.rows) && PeersOnce(ng.bridges)) ==>
              DotFreeRows(table.rows) && PeersOnce(ng.bridges)
    ensures old(k.Clean() && SwitchesApart(k.base, table.rows)) ==> k.Clean() && SwitchesApart(k.base, table.rows)
    ensures old(k.past) <= k.past
    ensures old(ProperNames(table.rows)) ==> ProperNames(table.rows)
  {
    var sw := new SwitchObject(id, table.rows[id]);
    var _ := SetSwitchUplink(k, ng, table, sw, uplink);
  }

  method StartAndSettle(k: Machine, ng: Ng.Netgraph, table: SwitchTable, nics: NicTable, configId: nat)
    requires Sound(k.State()) && Ng.AllDistinct(ng.bridges) && Keyed(nics.rows)
    modifies k, ng`bridges, ng`unnamed, nics
    ensures Sound(k.State()) && NgSound(k.State(), ng.others, ng.bridges) && Keyed(nics.rows)
    ensures old(PeersOnce(ng.bridges)) ==> PeersOnce(ng.bridges)
    ensures old(Tidy(k, nics)) ==> Tidy(k, nics)
    ensures old(k.past) <= k.past && old(nics.past) <= nics.past
  {
    var answered: bool := *;
    var _, _ := NetStart(k, nics, table.rows, configId, answered);
    Settle(k, ng);
  }

  method StopAndSettle(k: Machine, ng: Ng.Netgraph, table: SwitchTable, nics: NicTable, configId: nat)
    requires Sound(k.State()) && Ng.AllDistinct(ng.bridges) && Keyed(nics.rows)
    modifies k, ng`bridges, ng`unnamed, nics
    ensures Sound(k.State()) && NgSound(k.State(), ng.others, ng.bridges) && Keyed(nics.rows)
    ensures old(PeersOnce(ng.bridges)) ==> PeersOnce(ng.bridges)
    ensures old(Tidy(k, nics)) ==> Tidy(k, nics)
    ensures old(k.past) <= k.past && old(nics.past) <= nics.past
  {
    var answered: bool := *;
    var _ := NetStop(k, nics, table.rows, configId, answered);
    Settle(k, ng);
  }

  /** bhyve connects a NETGRAPH NIC, as far as the kernel lets it. */
  method PlugVm(k: Machine, ng: Ng.Netgraph, bridge: string, link: string, socket: string)
    requires NgSound(k.State(), ng.others, ng.bridges)
    modifies ng
    ensures NgSound(k.State(), ng.others, ng.bridges)
    ensures old(PeersOnce(ng.bridges)) ==> PeersOnce(ng.bridges)
  {
    var free := bridge in ng.bridges && link !in Ng.Hooks(ng.bridges[bridge]);
    if free && Ng.NotPeer(ng.bridges, socket) {
      PluggedSound(k.State(), ng.others, ng.bridges, bridge, Ng.Peer(link, socket, "vmlink"));
      ng.PlugSocket(bridge, link, socket);
    }
  }

  lemma PluggedSound(h: Host, others: set<string>, bridges: Bridges, bridge: string, peer: Ng.Peer)
    requires NgSound(h, others, bridges) && bridge in bridges && peer.localHook !in Ng.Hooks(bridges[bridge])
    requires Ng.NotPeer(bridges, peer.peerName)
    ensures NgSound(h, others + {peer.peerName}, bridges[bridge := bridges[bridge] + [peer]])
    ensures PeersOnce(bridges) ==> PeersOnce(bridges[bridge := bridges[bridge] + [peer]])
  {
    var grown := bridges[bridge] + [peer];
    var after := bridges[bridge := grown];
    assert forall i :: 0 <= i < |bridges[bridge]| ==> bridges[bridge][i].localHook in Ng.Hooks(bridges[bridge]);
    assert Ng.DistinctHooks(grown);
    forall b, p: Ng.Peer | b in after && p in after[b]
      ensures (b in bridges && p in bridges[b] && p.peerName != peer.peerName) || (b == bridge && p == peer)
    {
    }
    if PeersOnce(bridges) {
      PluggedOnce(bridges, after, bridge, peer);
    }
  }

  lemma PluggedOnce(bridges: Bridges, after: Bridges, bridge: string, peer: Ng.Peer)
    requires PeersOnce(bridges)
    requires forall b, p: Ng.Peer :: b in after && p in after[b] ==>
               (b in bridges && p in bridges[b] && p.peerName != peer.peerName) || (b == bridge && p == peer)
    ensures PeersOnce(after)
  {
  }

  method UnplugVm(k: Machine, ng: Ng.Netgraph, socket: string)
    requires NgSound(k.State(), ng.others, ng.bridges)
    modifies ng
    ensures NgSound(k.State(), ng.others, ng.bridges)
    ensures old(PeersOnce(ng.bridges)) ==> PeersOnce(ng.bridges)
  {
    UnpluggedSound(k.State(), ng.others, ng.bridges, socket);
    ng.UnplugSocket(socket);
  }

  lemma UnpluggedSound(h: Host, others: set<string>, bridges: Bridges, socket: string)
    requires NgSound(h, others, bridges)
    ensures var after := map b | b in bridges :: Ng.WithoutPeer(bridges[b], socket);
            NgSound(h, others - {socket}, after) && (PeersOnce(bridges) ==> PeersOnce(after))
  {
    var after: Bridges := map b | b in bridges :: Ng.WithoutPeer(bridges[b], socket);
    forall b | b in bridges
      ensures Ng.DistinctHooks(after[b]) && forall p :: p in after[b] <==> p in bridges[b] && p.peerName != socket
    {
      Ng.WithoutPeerKeeps(bridges[b], socket);
      Ng.WithoutPeerDistinct(bridges[b], socket);
    }
  }
}

/** Switches and their uplinks (switch/switch.go, switch/bridge_if.go, rpc_switch.go), on a
    host where any command may fail; database writes go through. */
module Switches {
  import opened Wrappers
  import opened HostState
  import opened GroupSweep
  import opened Kernel
  import opened NicWiring
  import opened BridgeIf
  import opened Sifting
  import Ng = NgBridge

  type Rows = map<string, Switch>

  /** The unique index on the name column. */
  predicate UniqueNames(rows: Rows) {
    forall a, b :: a in rows && b in rows && rows[a].name == rows[b].name ==> a == b
  }

  /** The uplink of an IF switch is a member of the switch's bridge on the host. */
  predicate Plugged(h: Host, row: Switch) {
    row.kind == IfBridge ==> row.name in h.bridges && row.uplink in h.bridges[row.name]
  }

  predicate Agrees(h: Host, row: Switch) {
    row.uplink != "" ==> Plugged(h, row)
  }

  predicate Agreement(h: Host, rows: Rows) {
    forall id :: id in rows ==> Agrees(h, rows[id])
  }

  /** Another switch of the same type records this uplink. */
  predicate UsedElsewhere(rows: Rows, id: string, kind: SwitchType, uplink: string) {
    exists other :: other in rows && other != id && rows[other].kind == kind && rows[other].uplink == uplink
  }

  /** The netgraph nodes of the Ethernet interfaces, by the names the daemon expects. */
  function NodesOf(ether: set<string>): set<string> {
    set x | x in ether :: Ng.NgName(x)
  }

  /** Hooks are distinct on every NG bridge and lead to nodes that are there. */
  ghost predicate NgSound(h: Host, others: set<string>, bridges: map<string, seq<Ng.Peer>>) {
    && Ng.AllDistinct(bridges)
    && forall b, p :: b in bridges && p in bridges[b] ==> p.peerName in NodesOf(h.ether) + others
  }

  /** No peer hangs on two NG bridges. */
  ghost predicate PeersOnce(bridges: map<string, seq<Ng.Peer>>) {
    forall b, c, p, q :: b in bridges && c in bridges && p in bridges[b] && q in bridges[c] ==>
      p.peerName == q.peerName ==> b == c
  }

  lemma FewerPeersOnce(bridges: map<string, seq<Ng.Peer>>, after: map<string, seq<Ng.Peer>>)
    requires PeersOnce(bridges)
    requires forall b, p :: b in after && p in after[b] ==> b in bridges && p in bridges[b]
    ensures PeersOnce(after)
  {
  }

  /** The check against other bridges is enough for a name without a dot. */
  lemma AddedOnce(bridges: map<string, seq<Ng.Peer>>, name: string, member: string, done: nat)
    requires PeersOnce(bridges) && name in bridges && done <= 2
    requires '.' !in member && forall b :: b in bridges && b != name ==>
              forall p :: p in bridges[b] ==> p.peerName != member
    ensures PeersOnce(bridges[name := Ng.Added(bridges[name], member, done)])
  {
    Ng.NgNameExactlyWithoutDot(member);
    var after := bridges[name := Ng.Added(bridges[name], member, done)];
    AddedPeers(bridges[name], member, done);
    forall b, c, p: Ng.Peer, q: Ng.Peer |
      b in after && c in after && p in after[b] && q in after[c] && p.peerName == q.peerName
      ensures b == c
    {
      assert p in bridges[b] || (b == name && p.peerName == member);
      assert q in bridges[c] || (c == name && q.peerName == member);
    }
  }

  lemma AddedPeers(peers: seq<Ng.Peer>, member: string, done: nat)
    requires done <= 2
    ensures forall p :: p in Ng.Added(peers, member, done) ==> p in peers || p.peerName == Ng.NgName(member)
  {
  }

  /** The bridge of an IF switch is not one the host had before the daemon. */
  predicate NoneOf(base: Host, row: Switch) {
    row.kind == IfBridge ==> NotOf(base, row.name)
  }

  predicate SwitchesApart(base: Host, rows: Rows) {
    forall id :: id in rows ==> NoneOf(base, rows[id])
  }

  class SwitchTable {
    var rows: Rows

    constructor (rows: Rows)
      ensures this.rows == rows
    {
      this.rows := rows;
    }
  }

  /** A switch as read from the database; Save writes it back. */
  class SwitchObject {
    const id: string
    const name: string
    const kind: SwitchType
    var uplink: string

    constructor (id: string, row: Switch)
      ensures this.id == id && Row() == row
    {
      this.id, name, kind, uplink := id, row.name, row.kind, row.uplink;
    }

    function Row(): Switch
      reads this
    {
      Switch(name, kind, uplink)
    }

    predicate SavedIn(table: SwitchTable)
      reads this, table
    {
      id in table.rows && table.rows[id] == Row()
    }

    method Save(table: SwitchTable)
      modifies table
      ensures table.rows == old(table.rows)[id := Row()]
    {
      table.rows := table.rows[id := Row()];
    }

    /** UnsetUplink. An error changes nothing the agreement depends on. */
    method UnsetUplink(k: Machine, ng: Ng.Netgraph, table: SwitchTable) returns (err: Option<Error>)
      requires Sound(k.State()) && NgSound(k.State(), ng.others, ng.bridges) && SavedIn(table)
      modifies this, k, ng`bridges, table
      ensures Sound(k.State()) && NgSound(k.State(), ng.others, ng.bridges) && SavedIn(table)
      ensures table.rows == old(table.rows)[id := Row()]
      ensures err.Some? ==> uplink == old(uplink) && k.State() == old(k.State())
      ensures err.None? ==> uplink == ""
      ensures k.State() == old(k.State()) ||
              (kind == IfBridge && k.State() == DropMember(old(k.State()), name, old(uplink)))
      ensures kind == NgBridge && err.None? ==>
                name in old(ng.bridges) &&
                ng.bridges == old(ng.bridges)[name := Ng.WithoutPeer(old(ng.bridges)[name], old(uplink))]
      ensures kind == IfBridge ==> ng.bridges == old(ng.bridges)
      ensures ng.bridges.Keys == old(ng.bridges).Keys
      ensures kind == IfBridge && k.reliable ==> err.None? && k.State() == DropMember(old(k.State()), name, old(uplink))
      ensures kind == NgBridge && ng.reliable && name in old(ng.bridges) ==> err.None?
      ensures old(PeersOnce(ng.bridges)) ==> PeersOnce(ng.bridges)
      ensures old(k.Clean() && NoneOf(k.base, Row())) ==> k.Clean()
      ensures old(k.past) <= k.past
    {
      match kind {
        case IfBridge =>
          err := IfDeleteMember(k, name, uplink);
          if err.Some? {
            return;
          }
        case NgBridge =>
          ghost var before := ng.bridges;
          var failed := Ng.NgRemoveUplink(ng, name, uplink);
          FewerStaySound(k.State(), ng.others, before, ng.bridges);
          if failed.Some? {
            return Some(CommandFailed);
          }
      }
      uplink := "";
      Save(table);
      return None;
    }

    /** SetUplink: setUplinkIf and setUplinkNG. */
    method SetUplink(k: Machine, ng: Ng.Netgraph, table: SwitchTable, newUplink: string) returns (err: Option<Error>)
      requires Sound(k.State()) && NgSound(k.State(), ng.others, ng.bridges) && SavedIn(table)
      modifies this, k, ng`bridges, table
      ensures Sound(k.State()) && NgSound(k.State(), ng.others, ng.bridges) && SavedIn(table)
      ensures table.rows == old(table.rows)[id := Row()]
      ensures err.Some? ==> uplink == old(uplink) && k.State() == old(k.State())
      ensures err.None? ==> uplink == newUplink
      ensures err.None? && kind == IfBridge ==>
                && Unbridged(old(k.State()), newUplink) && name in old(k.bridges)
                && k.State() == AddMember(old(k.State()), name, newUplink)
      ensures err.None? && kind == NgBridge ==>
                && k.State() == old(k.State()) && name in old(ng.bridges)
                && ng.bridges == old(ng.bridges)[name := Ng.Added(old(ng.bridges)[name], newUplink, 2)]
      ensures kind == IfBridge ==> ng.bridges == old(ng.bridges)
      ensures kind == IfBridge && k.reliable ==>
                (err.None? <==> old(Free(k.State(), ng.bridges, Row(), newUplink)))
      ensures kind == NgBridge && ng.reliable ==>
                (err.None? <==> ng.unnamed == {} && old(Free(k.State(), ng.bridges, Row(), newUplink)))
      ensures '.' !in newUplink && old(PeersOnce(ng.bridges)) ==> PeersOnce(ng.bridges)
      ensures old(k.Clean() && NoneOf(k.base, Row())) ==> k.Clean()
      ensures old(k.past) <= k.past
    {
      match kind {
        case IfBridge => err := PlugIf(k, name, newUplink);
        case NgBridge => err := PlugNg(k, ng, name, newUplink);
      }
      if err.Some? {
        return;
      }
      uplink := newUplink;
      Save(table);
      return None;
    }
  }

  /** setUplinkIf, up to recording the uplink. */
  method PlugIf(k: Machine, bridge: string, uplink: string) returns (err: Option<Error>)
    requires Sound(k.State())
    modifies k
    ensures Sound(k.State())
    ensures err.Some? ==> k.State() == old(k.State())
    ensures err.None? ==>
              && Unbridged(old(k.State()), uplink) && bridge in old(k.bridges) && uplink in old(k.ifaces)
              && k.State() == AddMember(old(k.State()), bridge, uplink)
    ensures k.reliable && bridge in old(k.bridges) && uplink in old(k.ifaces) && Unbridged(old(k.State()), uplink) ==>
              err.None?
    ensures old(k.Clean()) && NotOf(k.base, bridge) ==> k.Clean()
    ensures old(k.past) <= k.past
  {
    var used, failed := MemberUsed(k, uplink);
    if failed.Some? {
      return failed;
    }
    if used {
      return Some(UplinkInUse);
    }
    err := IfAddMember(k, bridge, uplink);
  }

  /** setUplinkNG, up to recording the uplink; a failure can leave one of the two hooks. */
  method PlugNg(k: Machine, ng: Ng.Netgraph, bridge: string, uplink: string) returns (err: Option<Error>)
    requires NgSound(k.State(), ng.others, ng.bridges)
    modifies ng`bridges
    ensures NgSound(k.State(), ng.others, ng.bridges)
    ensures err.None? ==>
              && bridge in old(ng.bridges)
              && ng.bridges == old(ng.bridges)[bridge := Ng.Added(old(ng.bridges)[bridge], uplink, 2)]
    ensures ng.reliable ==>
              (err.None? <==> bridge in old(ng.bridges) && Ng.NotPeer(old(ng.bridges), uplink) && ng.unnamed == {} &&
                              Ng.Doable(old(ng.bridges), NodesOf(k.ether), uplink) == 2)
    ensures ng.unnamed != {} ==> err.Some? && ng.bridges == old(ng.bridges)
    ensures err.None? ==> bridge in ng.bridges && bridge in old(ng.bridges) &&
                          Ng.PluggedTwice(old(ng.bridges)[bridge], ng.bridges[bridge], Ng.NgName(uplink))
    ensures '.' !in uplink && old(PeersOnce(ng.bridges)) ==> PeersOnce(ng.bridges)
  {
    var used, known := NgMemberUsed(ng, uplink);
    if !known {
      return Some(CommandFailed);
    }
    if used {
      return Some(UplinkInUse);
    }
    ghost var before := ng.bridges;
    var failed, done := Ng.NgAddMember(ng, NodesOf(k.ether), bridge, uplink);
    AddedSound(k.State(), ng.others, before, ng.bridges, bridge, uplink, done);
    if '.' !in uplink && PeersOnce(before) && done > 0 {
      AddedOnce(before, bridge, uplink, done);
    }
    return if failed.Some? then Some(CommandFailed) else None;
  }

  /** memberUsedByNgSwitch. The nameless entries of the list can come up at any point, and
      end the search without an answer. */
  method NgMemberUsed(ng: Ng.Netgraph, member: string) returns (used: bool, known: bool)
    ensures known ==> (used <==> !Ng.NotPeer(ng.bridges, member))
    ensures ng.unnamed != {} && Ng.NotPeer(ng.bridges, member) ==> !known
    ensures ng.reliable && ng.unnamed == {} ==> known
  {
    var todo, nameless, listed := ng.List();
    if !listed {
      return false, false;
    }
    while todo != {}
      invariant todo <= ng.bridges.Keys
      invariant forall b, p :: b in ng.bridges && b !in todo && p in ng.bridges[b] ==> p.peerName != member
      decreases todo
    {
      var comesUp := Attempt(nameless, false);
      if comesUp {
        return false, false;
      }
      var b :| b in todo;
      var peers, shown := ng.Show(b);
      if !shown {
        return false, false;
      }
      for i := 0 to |peers|
        invariant forall j :: 0 <= j < i ==> peers[j].peerName != member
      {
        if peers[i].peerName == member {
          assert peers[i] in ng.bridges[b];
          return true, true;
        }
      }
      todo := todo - {b};
    }
    return false, !nameless;
  }

  /** uplinkInUse. */
  method FindUsedElsewhere(table: SwitchTable, sw: SwitchObject, uplink: string) returns (used: bool)
    ensures used <==> exists other :: other in table.rows && other != sw.id &&
                        table.rows[other].kind == sw.kind && table.rows[other].uplink == uplink
  {
    var todo := table.rows.Keys;
    while todo != {}
      invariant todo <= table.rows.Keys
      invariant forall other :: other in table.rows && other !in todo ==>
                  !(other != sw.id && table.rows[other].kind == sw.kind && table.rows[other].uplink == uplink)
      decreases todo
    {
      var other :| other in todo;
      if other != sw.id && table.rows[other].kind == sw.kind && table.rows[other].uplink == uplink {
        return true;
      }
      todo := todo - {other};
    }
    return false;
  }

  lemma FewerStaySound(h: Host, others: set<string>, before: map<string, seq<Ng.Peer>>, after: map<string,
                       seq<Ng.Peer>>)
    requires NgSound(h, others, before) && Ng.AllDistinct(after)
    requires forall b, p :: b in after && p in after[b] ==> b in before && p in before[b]
    ensures NgSound(h, others, after)
    ensures PeersOnce(before) ==> PeersOnce(after)
  {
  }

  lemma AddedSound(h: Host, others: set<string>, before: map<string, seq<Ng.Peer>>, after: map<string, seq<Ng.Peer>>,
                   name: string, member: string, done: nat)
    requires NgSound(h, others, before) && Ng.AllDistinct(after) && done <= 2
    requires done > 0 ==> name in before && Ng.NgName(member) in NodesOf(h.ether)
    requires after == if done > 0 then before[name := Ng.Added(before[name], member, done)] else before
    ensures NgSound(h, others, after)
  {
    if done > 0 {
      AddedPeers(before[name], member, done);
    }
  }

  lemma AgreementAfterDrop(h: Host, rows: Rows, id: string)
    requires UniqueNames(rows) && Agreement(h, rows) && id in rows
    ensures Agreement(DropMember(h, rows[id].name, rows[id].uplink), rows[id := rows[id].(uplink := "")])
    ensures Agreement(h, rows[id := rows[id].(uplink := "")])
  {
  }

  lemma AgreementAfterAdd(h: Host, rows: Rows, id: string, uplink: string)
    requires UniqueNames(rows) && Agreement(h, rows) && id in rows && rows[id].name in h.bridges
    ensures Agreement(AddMember(h, rows[id].name, uplink), rows[id := rows[id].(uplink := uplink)])
  {
  }

  lemma AgreementSameHost(h: Host, rows: Rows, id: string, row: Switch)
    requires Agreement(h, rows) && row.kind == NgBridge
    ensures Agreement(h, rows[id := row])
  {
  }

  method UnsetKeepingAgreement(k: Machine, ng: Ng.Netgraph, table: SwitchTable, sw: SwitchObject)
    returns (err: Option<Error>)
    requires Sound(k.State()) && NgSound(k.State(), ng.others, ng.bridges) && sw.SavedIn(table)
    requires UniqueNames(table.rows)
    modifies sw, k, ng`bridges, table
    ensures Sound(k.State()) && NgSound(k.State(), ng.others, ng.bridges) && sw.SavedIn(table)
    ensures UniqueNames(table.rows)
    ensures old(Agreement(k.State(), table.rows)) ==> Agreement(k.State(), table.rows)
    ensures table.rows == old(table.rows)[sw.id := sw.Row()]
    ensures sw.uplink == if err.None? then "" else old(sw.uplink)
    ensures sw.kind == IfBridge ==> ng.bridges == old(ng.bridges)
    ensures sw.kind == NgBridge ==> k.State() == old(k.State())
    ensures err.None? && sw.kind == NgBridge ==>
              sw.name in old(ng.bridges) &&
              ng.bridges == old(ng.bridges)[sw.name := Ng.WithoutPeer(old(ng.bridges)[sw.name], old(sw.uplink))]
    ensures ng.bridges.Keys == old(ng.bridges).Keys
    ensures sw.kind == IfBridge && k.reliable ==>
              err.None? && k.State() == DropMember(old(k.State()), sw.name, old(sw.uplink))
    ensures sw.kind == NgBridge && ng.reliable && sw.name in old(ng.bridges) ==> err.None?
    ensures old(PeersOnce(ng.bridges)) ==> PeersOnce(ng.bridges)
    ensures old(k.Clean() && NoneOf(k.base, sw.Row())) ==> k.Clean()
    ensures old(k.past) <= k.past
  {
    ghost var h, rows := k.State(), table.rows;
    err := sw.UnsetUplink(k, ng, table);
    if Agreement(h, rows) {
      AgreementAfterDrop(h, rows, sw.id);
    }
    assert err.Some? ==> table.rows == rows;
    assert table.rows[sw.id] == rows[sw.id].(uplink := sw.uplink);
  }

  method SetKeepingAgreement(k: Machine, ng: Ng.Netgraph, table: SwitchTable, sw: SwitchObject, uplink: string)
    returns (err: Option<Error>)
    requires Sound(k.State()) && NgSound(k.State(), ng.others, ng.bridges) && sw.SavedIn(table)
    requires UniqueNames(table.rows)
    modifies sw, k, ng`bridges, table
    ensures Sound(k.State()) && NgSound(k.State(), ng.others, ng.bridges) && sw.SavedIn(table)
    ensures UniqueNames(table.rows)
    ensures old(Agreement(k.State(), table.rows)) ==> Agreement(k.State(), table.rows)
    ensures table.rows == old(table.rows)[sw.id := sw.Row()]
    ensures sw.uplink == if err.None? then uplink else old(sw.uplink)
    ensures err.None? ==> Plugged(k.State(), sw.Row())
    ensures sw.kind == IfBridge && k.reliable ==>
              (err.None? <==> old(Free(k.State(), ng.bridges, sw.Row(), uplink)))
    ensures sw.kind == NgBridge && ng.reliable ==>
              (err.None? <==> ng.unnamed == {} && old(Free(k.State(), ng.bridges, sw.Row(), uplink)))
    ensures err.None? && sw.kind == IfBridge ==>
              && sw.name in old(k.bridges) && ng.bridges == old(ng.bridges)
              && k.State() == AddMember(old(k.State()), sw.name, uplink)
    ensures err.None? && sw.kind == NgBridge ==>
              && k.State() == old(k.State()) && sw.name in old(ng.bridges)
              && ng.bridges == old(ng.bridges)[sw.name := Ng.Added(old(ng.bridges)[sw.name], uplink, 2)]
    ensures err.Some? && sw.kind == IfBridge ==> k.State() == old(k.State()) && ng.bridges == old(ng.bridges)
    ensures '.' !in uplink && old(PeersOnce(ng.bridges)) ==> PeersOnce(ng.bridges)
    ensures old(k.Clean() && NoneOf(k.base, sw.Row())) ==> k.Clean()
    ensures old(k.past) <= k.past
  {
    ghost var h, rows := k.State(), table.rows;
    err := sw.SetUplink(k, ng, table, uplink);
    if err.None? && Agreement(h, rows) {
      if sw.kind == IfBridge {
        AgreementAfterAdd(h, rows, sw.id, uplink);
      } else {
        AgreementSameHost(h, rows, sw.id, sw.Row());
      }
    }
    assert err.Some? ==> table.rows == rows;
    assert table.rows[sw.id] == rows[sw.id].(uplink := sw.uplink);
  }

  /** Bridges can be asked for their members: a netgraph bridge without a name gets in the way. */
  predicate Askable(kind: SwitchType, unnamed: set<string>) {
    kind == NgBridge ==> unnamed == {}
  }

  /** Switch and uplink are there, and the uplink is free. */
  ghost predicate Free(h: Host, ngBridges: map<string, seq<Ng.Peer>>, row: Switch, uplink: string) {
    match row.kind
    case IfBridge => row.name in h.bridges && uplink in h.ifaces && Unbridged(h, uplink)
    case NgBridge =>
      row.name in ngBridges && Ng.NotPeer(ngBridges, uplink) && Ng.Doable(ngBridges, NodesOf(h.ether), uplink) == 2
  }

  /** The new uplink is free once the switch's present one is off. */
  ghost predicate CanPlug(h: Host, ngBridges: map<string, seq<Ng.Peer>>, row: Switch, uplink: string) {
    match row.kind
    case IfBridge => Free(DropMember(h, row.name, row.uplink), ngBridges, row, uplink)
    case NgBridge =>
      && row.name in ngBridges
      && Free(h, ngBridges[row.name := Ng.WithoutPeer(ngBridges[row.name], row.uplink)], row, uplink)
  }

  /** When that is, for an IF switch in terms of the memberships before. */
  lemma CanPlugIfExactly(h: Host, bridges: map<string, seq<Ng.Peer>>, row: Switch, uplink: string)
    requires row.kind == IfBridge
    ensures CanPlug(h, bridges, row, uplink) <==>
            && row.name in h.bridges && uplink in h.ifaces
            && forall b :: b in h.bridges && uplink in h.bridges[b] ==> b == row.name && uplink == row.uplink
  {
    var dropped := DropMember(h, row.name, row.uplink);
    if CanPlug(h, bridges, row, uplink) {
      forall b | b in h.bridges && uplink in h.bridges[b]
        ensures b == row.name && uplink == row.uplink
      {
        assert b in dropped.bridges;
      }
    }
  }

  /** A hook that keeps the switch from getting the uplink. Its own hooks to the present one
      do not. */
  predicate InTheWay(row: Switch, uplink: string, b: string, p: Ng.Peer) {
    && !(b == row.name && p.peerName == row.uplink)
    && (p.peerName == uplink || (p.peerName == Ng.NgName(uplink) && p.peerHook in {"lower", "upper"}))
  }

  /** For an NG switch in terms of the hooks before. */
  lemma CanPlugNgExactly(h: Host, bridges: map<string, seq<Ng.Peer>>, row: Switch, uplink: string)
    requires row.kind == NgBridge
    ensures CanPlug(h, bridges, row, uplink) <==>
            && row.name in bridges && Ng.NgName(uplink) in NodesOf(h.ether)
            && forall b, p: Ng.Peer :: b in bridges && p in bridges[b] ==> !InTheWay(row, uplink, b, p)
  {
    if row.name in bridges {
      Ng.WithoutPeerKeeps(bridges[row.name], row.uplink);
      var rest := bridges[row.name := Ng.WithoutPeer(bridges[row.name], row.uplink)];
      forall b, p: Ng.Peer | b in bridges
        ensures p in rest[b] <==> p in bridges[b] && !(b == row.name && p.peerName == row.uplink)
      {
      }
      if forall b, p: Ng.Peer :: b in bridges && p in bridges[b] ==> !InTheWay(row, uplink, b, p) {
        NothingInTheWay(rest, row, uplink);
      } else {
        var b, p: Ng.Peer :| b in bridges && p in bridges[b] && InTheWay(row, uplink, b, p);
        assert p in rest[b];
      }
    }
  }

  lemma NothingInTheWay(rest: map<string, seq<Ng.Peer>>, row: Switch, uplink: string)
    requires forall b, p: Ng.Peer :: b in rest && p in rest[b] ==> !InTheWay(row, uplink, b, p)
    requires row.name in rest && forall p :: p in rest[row.name] ==> p.peerName != row.uplink
    ensures Ng.NotPeer(rest, uplink)
    ensures Ng.HookFree(rest, Ng.NgName(uplink), "lower") && Ng.HookFree(rest, Ng.NgName(uplink), "upper")
  {
  }

  /** No hook of the bridge leads to the old uplink, a "lower" and an "upper" one lead to the
      new; the other hooks and bridges are as before. */
  ghost predicate NgReplugged(before: map<string, seq<Ng.Peer>>, after: map<string, seq<Ng.Peer>>, name: string,
                              was: string, uplink: string) {
    && name in before && name in after && after == before[name := after[name]]
    && exists kept ::
         Sifted(before[name], kept, (p: Ng.Peer) => p.peerName != was) &&
         Ng.PluggedTwice(kept, after[name], Ng.NgName(uplink))
  }

  lemma Replugged(before: map<string, seq<Ng.Peer>>, taken: map<string, seq<Ng.Peer>>,
                  after: map<string, seq<Ng.Peer>>, name: string, was: string, uplink: string)
    requires name in before && taken == before[name := Ng.WithoutPeer(before[name], was)]
    requires after == taken[name := Ng.Added(taken[name], uplink, 2)]
    ensures NgReplugged(before, after, name, was, uplink)
  {
    Ng.WithoutPeerIs(before[name], was);
    Ng.AddedIs(taken[name], uplink);
    UpdatedTwice(before, name, taken[name], after[name]);
  }

  lemma IfReplugged(h: Host, name: string, was: string, uplink: string)
    requires name in h.bridges
    ensures AddMember(DropMember(h, name, was), name, uplink) ==
            h.(bridges := h.bridges[name := h.bridges[name] - {was} + {uplink}])
  {
    UpdatedTwice(h.bridges, name, h.bridges[name] - {was}, h.bridges[name] - {was} + {uplink});
  }

  /** SetSwitchUplink once the request has been validated. Whatever commands fail on the
      way, recorded uplinks stay members of their bridges, no interface gets into a second
      IF bridge and no other switch's row changes. Success gives the switch the uplink and
      leaves no other switch of its type with it; failure leaves the old one or none. While
      commands are carried out, success is decided by the records and the host alone. */
  method SetSwitchUplink(k: Machine, ng: Ng.Netgraph, table: SwitchTable, sw: SwitchObject, uplink: string)
    returns (ok: bool)
    requires Sound(k.State()) && NgSound(k.State(), ng.others, ng.bridges) && sw.SavedIn(table)
    requires UniqueNames(table.rows)
    modifies sw, k, ng`bridges, table
    ensures Sound(k.State()) && NgSound(k.State(), ng.others, ng.bridges) && sw.SavedIn(table)
    ensures UniqueNames(table.rows)
    ensures old(Agreement(k.State(), table.rows)) ==> Agreement(k.State(), table.rows)
    ensures table.rows == old(table.rows)[sw.id := old(table.rows)[sw.id].(uplink := sw.uplink)]
    ensures ok ==> sw.uplink == uplink
    ensures ok && uplink != "" ==> Plugged(k.State(), sw.Row()) && !UsedElsewhere(table.rows, sw.id, sw.kind, uplink)
    ensures !ok ==> sw.uplink in {old(sw.uplink), ""}
    ensures uplink != "" && UsedElsewhere(old(table.rows), sw.id, sw.kind, uplink) ==>
              !ok && k.State() == old(k.State()) && table.rows == old(table.rows)
    ensures k.reliable && ng.reliable && uplink != "" ==>
              (ok <==> !UsedElsewhere(old(table.rows), sw.id, sw.kind, uplink) && Askable(sw.kind, ng.unnamed) &&
                       old(CanPlug(k.State(), ng.bridges, sw.Row(), uplink)))
    ensures k.reliable && ng.reliable && uplink == "" ==>
              (ok <==> old(sw.uplink) == "" || sw.kind == IfBridge || sw.name in old(ng.bridges))
    ensures ok && uplink != "" && k.reliable && sw.kind == IfBridge ==>
              && sw.name in old(k.bridges) && ng.bridges == old(ng.bridges)
              && k.State() == old(k.State()).(
                   bridges := old(k.bridges)[sw.name := old(k.bridges)[sw.name] - {old(sw.uplink)} + {uplink}])
    ensures ok && uplink != "" && k.reliable && ng.reliable && sw.kind == NgBridge ==>
              && k.State() == old(k.State()) && sw.name in old(ng.bridges)
              && NgReplugged(old(ng.bridges), ng.bridges, sw.name, old(sw.uplink), uplink)
    ensures ok && uplink == "" && k.reliable && sw.kind == IfBridge ==>
              && ng.bridges == old(ng.bridges)
              && k.State() == old(k.State()).(
                   bridges := if old(sw.uplink) != "" && sw.name in old(k.bridges)
                              then old(k.bridges)[sw.name := old(k.bridges)[sw.name] - {old(sw.uplink)}]
                              else old(k.bridges))
    ensures ok && uplink == "" && ng.reliable && sw.kind == NgBridge ==>
              && k.State() == old(k.State())
              && if old(sw.uplink) == "" then ng.bridges == old(ng.bridges)
                 else && sw.name in old(ng.bridges) && sw.name in ng.bridges
                      && ng.bridges == old(ng.bridges)[sw.name := ng.bridges[sw.name]]
                      && Sifted(old(ng.bridges)[sw.name], ng.bridges[sw.name],
                                (p: Ng.Peer) => p.peerName != old(sw.uplink))
    ensures !ok && uplink != "" && !UsedElsewhere(old(table.rows), sw.id, sw.kind, uplink) && k.reliable &&
            sw.kind == IfBridge ==>
              && sw.uplink == "" && ng.bridges == old(ng.bridges)
              && k.State() == old(k.State()).(
                   bridges := if sw.name in old(k.bridges)
                              then old(k.bridges)[sw.name := old(k.bridges)[sw.name] - {old(sw.uplink)}]
                              else old(k.bridges))
    ensures '.' !in uplink && old(PeersOnce(ng.bridges)) ==> PeersOnce(ng.bridges)
    ensures old(k.Clean() && NoneOf(k.base, sw.Row())) ==> k.Clean()
    ensures old(k.past) <= k.past
  {
    if uplink == "" {
      if sw.uplink != "" {
        var err := UnsetKeepingAgreement(k, ng, table, sw);
        if err.Some? {
          return false;
        }
        if sw.kind == NgBridge {
          Ng.WithoutPeerIs(old(ng.bridges)[sw.name], old(sw.uplink));
        }
      }
      return true;
    }
    var used := FindUsedElsewhere(table, sw, uplink);
    if used {
      return false;
    }
    ok := ReplaceUplink(k, ng, table, sw, uplink);
  }

  lemma UpdatedTwice<T>(rows: map<string, T>, id: string, first: T, second: T)
    ensures rows[id := first][id := second] == rows[id := second]
  {
  }

  /** Unset, then set. When the uplink changes, failing to unset the old one is ignored: it
      may not be set at all. */
  method ReplaceUplink(k: Machine, ng: Ng.Netgraph, table: SwitchTable, sw: SwitchObject, uplink: string)
    returns (ok: bool)
    requires Sound(k.State()) && NgSound(k.State(), ng.others, ng.bridges) && sw.SavedIn(table)
    requires UniqueNames(table.rows)
    modifies sw, k, ng`bridges, table
    ensures Sound(k.State()) && NgSound(k.State(), ng.others, ng.bridges) && sw.SavedIn(table)
    ensures UniqueNames(table.rows)
    ensures old(Agreement(k.State(), table.rows)) ==> Agreement(k.State(), table.rows)
    ensures table.rows == old(table.rows)[sw.id := sw.Row()]
    ensures if ok then sw.uplink == uplink && Plugged(k.State(), sw.Row()) else sw.uplink in {old(sw.uplink), ""}
    ensures k.reliable && ng.reliable ==>
              (ok <==> Askable(sw.kind, ng.unnamed) && old(CanPlug(k.State(), ng.bridges, sw.Row(), uplink)))
    ensures ok && k.reliable && sw.kind == IfBridge ==>
              && sw.name in old(k.bridges) && ng.bridges == old(ng.bridges)
              && k.State() == old(k.State()).(
                   bridges := old(k.bridges)[sw.name := old(k.bridges)[sw.name] - {old(sw.uplink)} + {uplink}])
    ensures ok && k.reliable && ng.reliable && sw.kind == NgBridge ==>
              && k.State() == old(k.State()) && sw.name in old(ng.bridges)
              && NgReplugged(old(ng.bridges), ng.bridges, sw.name, old(sw.uplink), uplink)
    ensures !ok && k.reliable && sw.kind == IfBridge ==>
              && sw.uplink == "" && ng.bridges == old(ng.bridges)
              && k.State() == old(k.State()).(
                   bridges := if sw.name in old(k.bridges)
                              then old(k.bridges)[sw.name := old(k.bridges)[sw.name] - {old(sw.uplink)}]
                              else old(k.bridges))
    ensures '.' !in uplink && old(PeersOnce(ng.bridges)) ==> PeersOnce(ng.bridges)
    ensures old(k.Clean() && NoneOf(k.base, sw.Row())) ==> k.Clean()
    ensures old(k.past) <= k.past
  {
    ghost var taken;
    ok, taken := UnsetThenSet(k, ng, table, sw, uplink);
    if ok && k.reliable && sw.kind == IfBridge {
      IfReplugged(old(k.State()), sw.name, old(sw.uplink), uplink);
    } else if ok && k.reliable && ng.reliable {
      Replugged(old(ng.bridges), taken, ng.bridges, sw.name, old(sw.uplink), uplink);
    }
  }

  /** The two calls. `taken` are the NG bridges in between. */
  method UnsetThenSet(k: Machine, ng: Ng.Netgraph, table: SwitchTable, sw: SwitchObject, uplink: string)
    returns (ok: bool, ghost taken: map<string, seq<Ng.Peer>>)
    requires Sound(k.State()) && NgSound(k.State(), ng.others, ng.bridges) && sw.SavedIn(table)
    requires UniqueNames(table.rows)
    modifies sw, k, ng`bridges, table
    ensures Sound(k.State()) && NgSound(k.State(), ng.others, ng.bridges) && sw.SavedIn(table)
    ensures UniqueNames(table.rows)
    ensures old(Agreement(k.State(), table.rows)) ==> Agreement(k.State(), table.rows)
    ensures table.rows == old(table.rows)[sw.id := sw.Row()]
    ensures if ok then sw.uplink == uplink && Plugged(k.State(), sw.Row()) else sw.uplink in {old(sw.uplink), ""}
    ensures k.reliable && ng.reliable ==>
              (ok <==> Askable(sw.kind, ng.unnamed) && old(CanPlug(k.State(), ng.bridges, sw.Row(), uplink)))
    ensures ok && k.reliable && sw.kind == IfBridge ==>
              && sw.name in old(k.bridges) && ng.bridges == old(ng.bridges)
              && k.State() == AddMember(DropMember(old(k.State()), sw.name, old(sw.uplink)), sw.name, uplink)
    ensures ok && k.reliable && ng.reliable && sw.kind == NgBridge ==>
              && k.State() == old(k.State()) && sw.name in old(ng.bridges)
              && taken == old(ng.bridges)[sw.name := Ng.WithoutPeer(old(ng.bridges)[sw.name], old(sw.uplink))]
              && ng.bridges == taken[sw.name := Ng.Added(taken[sw.name], uplink, 2)]
    ensures !ok && k.reliable && sw.kind == IfBridge ==>
              && sw.uplink == "" && ng.bridges == old(ng.bridges)
              && k.State() == old(k.State()).(
                   bridges := if sw.name in old(k.bridges)
                              then old(k.bridges)[sw.name := old(k.bridges)[sw.name] - {old(sw.uplink)}]
                              else old(k.bridges))
    ensures '.' !in uplink && old(PeersOnce(ng.bridges)) ==> PeersOnce(ng.bridges)
    ensures old(k.Clean() && NoneOf(k.base, sw.Row())) ==> k.Clean()
    ensures old(k.past) <= k.past
  {
    var changing := sw.uplink != uplink;
    var err := UnsetKeepingAgreement(k, ng, table, sw);
    ghost var first := sw.Row();
    assert k.reliable && ng.reliable ==>
      old(CanPlug(k.State(), ng.bridges, sw.Row(), uplink)) == Free(k.State(), ng.bridges, sw.Row(), uplink);
    if err.Some? && !changing {
      return false, ng.bridges;
    }
    taken := ng.bridges;
    err := SetKeepingAgreement(k, ng, table, sw, uplink);
    UpdatedTwice(old(table.rows), sw.id, first, sw.Row());
    ok := err.None?;
  }
}

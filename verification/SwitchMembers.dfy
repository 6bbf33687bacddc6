/** Which interfaces end up on the bridges of switches, one switch or all of them. */
module SwitchMembers {
  import opened CommaList
  import opened HostState
  import opened NicWiring
  import opened Switches
  import opened NgSwitches
  import Ng = NgBridge

  /** Piece `m` of the column is an interface the daemon did not make, with a hardware
      address, and in no bridge. */
  predicate FreePiece(h: Host, uplinks: string, m: string) {
    m in Split(uplinks) && m != "" && m in h.ether && m !in h.own && forall b :: b in h.bridges ==> m !in h.bridges[b]
  }

  /** A new bridge with exactly these as members, and nothing else has changed. */
  ghost predicate NewBridge(h: Host, end: Host, name: string, uplinks: string) {
    && name !in h.ifaces && end.ifaces == h.ifaces + {name}
    && end.own == h.own + {name} && end.ether == h.ether + {name} && end.bridges.Keys == h.bridges.Keys + {name}
    && (forall m :: m in end.bridges[name] <==> FreePiece(h, uplinks, m))
    && (forall b :: b in h.bridges && b != name ==> end.bridges[b] == h.bridges[b])
    && end.epairs == h.epairs && end.pipes == h.pipes
  }

  predicate IsIf(rows: Switches.Rows, done: set<string>, id: string) {
    id in done && id in rows && rows[id].kind == IfBridge
  }

  predicate IsNg(rows: Switches.Rows, done: set<string>, id: string) {
    id in done && id in rows && rows[id].kind == NgBridge
  }

  /** Some IF switch among these has the interface as a member. */
  ghost predicate MemberOfOne(h: Host, rows: Switches.Rows, done: set<string>, m: string) {
    exists id :: IsIf(rows, done, id) && rows[id].name in h.bridges && m in h.bridges[rows[id].name]
  }

  /** The IF switches `done` have been brought up on host `h`. Members come from the switch's
      own column and were free; and every interface that was free and is in one of the columns
      has become a member of one. */
  ghost predicate IfUp(h: Host, end: Host, rows: Switches.Rows, done: set<string>) {
    && (forall x :: x in end.ether && x !in end.own <==> x in h.ether && x !in h.own)
    && (forall b :: b in h.bridges ==> b in end.bridges && end.bridges[b] == h.bridges[b])
    && (forall b :: b in end.bridges && b !in h.bridges ==> exists id :: IsIf(rows, done, id) && rows[id].name == b)
    && (forall id :: IsIf(rows, done, id) ==> rows[id].name in end.bridges && rows[id].name !in h.bridges)
    && (forall id, m :: IsIf(rows, done, id) && rows[id].name in end.bridges && m in end.bridges[rows[id].name] ==>
          FreePiece(h, rows[id].uplink, m))
    && (forall id, m :: IsIf(rows, done, id) && FreePiece(h, rows[id].uplink, m) ==> MemberOfOne(end, rows, done, m))
  }

  lemma IfTurn(h: Host, now: Host, end: Host, rows: Switches.Rows, done: set<string>, id: string)
    requires IfUp(h, now, rows, done) && id in rows && rows[id].kind == IfBridge
    requires NewBridge(now, end, rows[id].name, rows[id].uplink) && Consistent(now)
    ensures IfUp(h, end, rows, done + {id})
  {
    var name, more := rows[id].name, done + {id};
    assert name !in now.bridges;
    forall b | b in end.bridges && b !in h.bridges
      ensures exists i :: IsIf(rows, more, i) && rows[i].name == b
    {
      if b == name {
        assert IsIf(rows, more, id);
      } else {
        var i :| IsIf(rows, done, i) && rows[i].name == b;
        assert IsIf(rows, more, i);
      }
    }
    forall i, m | IsIf(rows, more, i) && FreePiece(h, rows[i].uplink, m)
      ensures MemberOfOne(end, rows, more, m)
    {
      PieceTaken(h, now, end, rows, done, id, i, m);
    }
    forall i, m | IsIf(rows, more, i) && rows[i].name in end.bridges && m in end.bridges[rows[i].name]
      ensures FreePiece(h, rows[i].uplink, m)
    {
      if i == id {
        assert FreePiece(now, rows[id].uplink, m);
      } else {
        assert IsIf(rows, done, i) && rows[i].name != name;
      }
    }
  }

  lemma PieceTaken(h: Host, now: Host, end: Host, rows: Switches.Rows, done: set<string>, id: string, i: string,
                   m: string)
    requires IfUp(h, now, rows, done) && id in rows && rows[id].kind == IfBridge
    requires NewBridge(now, end, rows[id].name, rows[id].uplink) && rows[id].name !in now.bridges
    requires IsIf(rows, done + {id}, i) && FreePiece(h, rows[i].uplink, m)
    ensures MemberOfOne(end, rows, done + {id}, m)
  {
    if IsIf(rows, done, i) {
      assert MemberOfOne(now, rows, done, m);
      var j :| IsIf(rows, done, j) && rows[j].name in now.bridges && m in now.bridges[rows[j].name];
      assert IsIf(rows, done + {id}, j) && m in end.bridges[rows[j].name];
    } else if b :| b in now.bridges && m in now.bridges[b] {
      assert b !in h.bridges;
      var j :| IsIf(rows, done, j) && rows[j].name == b;
      assert IsIf(rows, done + {id}, j) && m in end.bridges[b];
    } else {
      assert FreePiece(now, rows[id].uplink, m);
      assert IsIf(rows, done + {id}, id) && m in end.bridges[rows[id].name];
    }
  }

  /** An NG switch makes no difference. */
  lemma IfSame(h: Host, end: Host, rows: Switches.Rows, done: set<string>, id: string)
    requires IfUp(h, end, rows, done) && id in rows && rows[id].kind == NgBridge
    ensures IfUp(h, end, rows, done + {id})
  {
    forall i
      ensures IsIf(rows, done + {id}, i) <==> IsIf(rows, done, i)
    {
    }
    forall m | MemberOfOne(end, rows, done, m)
      ensures MemberOfOne(end, rows, done + {id}, m)
    {
      var i :| IsIf(rows, done, i) && rows[i].name in end.bridges && m in end.bridges[rows[i].name];
      assert IsIf(rows, done + {id}, i);
    }
  }

  // Netgraph.

  predicate LeadsTo(peers: seq<Ng.Peer>, x: string) {
    exists p :: p in peers && p.peerName == x
  }

  /** Piece `x` of the column is an interface the daemon did not make, with a hardware
      address, and no NG bridge leads to it. */
  predicate FreeNgPiece(h: Host, bridges: Bridges, uplinks: string, x: string) {
    && x in Split(uplinks) && x != "" && x in h.ether && x !in h.own
    && forall b :: b in bridges ==> !LeadsTo(bridges[b], x)
  }

  ghost predicate PeerOfOne(bridges: Bridges, rows: Switches.Rows, done: set<string>, x: string) {
    exists id :: IsNg(rows, done, id) && rows[id].name in bridges && LeadsTo(bridges[rows[id].name], x)
  }

  /** The same for NG switches, whose columns hold no dots. */
  ghost predicate NgUp(h: Host, before: Bridges, now: Bridges, rows: Switches.Rows, done: set<string>) {
    && (forall b :: b in before ==> b in now && now[b] == before[b])
    && (forall b :: b in now && b !in before ==> exists id :: IsNg(rows, done, id) && rows[id].name == b)
    && (forall id :: IsNg(rows, done, id) ==> rows[id].name in now && rows[id].name !in before)
    && (forall id, x :: IsNg(rows, done, id) && rows[id].name in now && LeadsTo(now[rows[id].name], x) ==>
          FreeNgPiece(h, before, rows[id].uplink, x))
    && (forall id, x :: IsNg(rows, done, id) && FreeNgPiece(h, before, rows[id].uplink, x) ==>
          PeerOfOne(now, rows, done, x))
  }

  lemma NgTurn(h: Host, before: Bridges, hnow: Host, now: Bridges, end: Bridges, rows: Switches.Rows,
               done: set<string>, id: string)
    requires NgUp(h, before, now, rows, done) && id in rows && rows[id].kind == NgBridge && '.' !in rows[id].uplink
    requires Creatable(hnow, now, rows[id].name) && end == BuiltNg(hnow, now, {}, rows[id].name, rows[id].uplink)
    requires forall x :: x in hnow.ether && x !in hnow.own <==> x in h.ether && x !in h.own
    ensures NgUp(h, before, end, rows, done + {id})
  {
    var name, more := rows[id].name, done + {id};
    forall x
      ensures LeadsTo(end[name], x) <==> FreeNgPiece(hnow, now, rows[id].uplink, x)
    {
      BuiltNgPeers(hnow, now, name, rows[id].uplink, x);
    }
    forall b | b in end && b !in before
      ensures exists i :: IsNg(rows, more, i) && rows[i].name == b
    {
      if b == name {
        assert IsNg(rows, more, id);
      } else {
        var i :| IsNg(rows, done, i) && rows[i].name == b;
        assert IsNg(rows, more, i);
      }
    }
    forall i, x | IsNg(rows, more, i) && FreeNgPiece(h, before, rows[i].uplink, x)
      ensures PeerOfOne(end, rows, more, x)
    {
      NgPieceTaken(h, before, hnow, now, end, rows, done, id, i, x);
    }
    forall i, x | IsNg(rows, more, i) && rows[i].name in end && LeadsTo(end[rows[i].name], x)
      ensures FreeNgPiece(h, before, rows[i].uplink, x)
    {
      if i == id {
        NgStillFree(h, before, hnow, now, rows[id].uplink, x);
      } else {
        assert IsNg(rows, done, i) && rows[i].name != name;
      }
    }
  }

  lemma NgStillFree(h: Host, before: Bridges, hnow: Host, now: Bridges, uplinks: string, x: string)
    requires FreeNgPiece(hnow, now, uplinks, x)
    requires forall b :: b in before ==> b in now && now[b] == before[b]
    requires forall y :: y in hnow.ether && y !in hnow.own <==> y in h.ether && y !in h.own
    ensures FreeNgPiece(h, before, uplinks, x)
  {
  }

  lemma NgPieceTaken(h: Host, before: Bridges, hnow: Host, now: Bridges, end: Bridges, rows: Switches.Rows,
                     done: set<string>, id: string, i: string, x: string)
    requires NgUp(h, before, now, rows, done) && id in rows && rows[id].kind == NgBridge
    requires rows[id].name !in now && rows[id].name in end
    requires forall b :: b in now ==> b in end && end[b] == now[b]
    requires forall y :: LeadsTo(end[rows[id].name], y) <==> FreeNgPiece(hnow, now, rows[id].uplink, y)
    requires forall y :: y in hnow.ether && y !in hnow.own <==> y in h.ether && y !in h.own
    requires IsNg(rows, done + {id}, i) && FreeNgPiece(h, before, rows[i].uplink, x)
    ensures PeerOfOne(end, rows, done + {id}, x)
  {
    if IsNg(rows, done, i) {
      assert PeerOfOne(now, rows, done, x);
      var j :| IsNg(rows, done, j) && rows[j].name in now && LeadsTo(now[rows[j].name], x);
      assert IsNg(rows, done + {id}, j) && LeadsTo(end[rows[j].name], x);
    } else if b :| b in now && LeadsTo(now[b], x) {
      assert b !in before;
      var j :| IsNg(rows, done, j) && rows[j].name == b;
      assert IsNg(rows, done + {id}, j) && LeadsTo(end[b], x);
    } else {
      assert FreeNgPiece(hnow, now, rows[id].uplink, x);
      assert IsNg(rows, done + {id}, id) && LeadsTo(end[rows[id].name], x);
    }
  }

  lemma NgSame(h: Host, before: Bridges, now: Bridges, rows: Switches.Rows, done: set<string>, id: string)
    requires id in rows && rows[id].kind == IfBridge
    ensures NgUp(h, before, now, rows, done) ==> NgUp(h, before, now, rows, done + {id})
  {
    forall i
      ensures IsNg(rows, done + {id}, i) <==> IsNg(rows, done, i)
    {
    }
    forall x | PeerOfOne(now, rows, done, x)
      ensures PeerOfOne(now, rows, done + {id}, x)
    {
      var i :| IsNg(rows, done, i) && rows[i].name in now && LeadsTo(now[rows[i].name], x);
      assert IsNg(rows, done + {id}, i);
    }
  }
}

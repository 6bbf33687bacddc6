/** Making and destroying the netgraph bridge of an NG switch (switch/bridge_ng.go). The
    bridge is born on a dummy IF bridge, which is then destroyed again. */
module NgSwitches {
  import opened Wrappers
  import opened CommaList
  import opened Decimal
  import opened FreeName
  import opened HostState
  import opened GroupSweep
  import opened Kernel
  import opened NicWiring
  import opened BridgeIf
  import opened Switches
  import Ng = NgBridge

  type Bridges = map<string, seq<Ng.Peer>>

  predicate IsNetName(name: string) {
    "bnet" <= name
  }

  /** What createNgBridge asks for. */
  predicate Creatable(h: Host, bridges: Bridges, name: string) {
    IsNetName(name) && name !in bridges && BridgePossible(h, DummyName("bridge", h.bridges.Keys))
  }

  /** No other node, such as the socket of a VM, has the name of the bridge or of the dummy. */
  predicate NamesFree(h: Host, others: set<string>, name: string) {
    {name, DummyName("bridge", h.bridges.Keys)} !! others
  }

  /** Only an interface of that very name has the node of a dummy bridge. */
  lemma DummyNode(taken: set<string>, x: string)
    requires DummyName("bridge", taken) != ""
    ensures Ng.NgName(x) == DummyName("bridge", taken) <==> x == DummyName("bridge", taken)
  {
    BridgeNode(DummyName("bridge", taken), x);
  }

  lemma BridgeNode(dummy: string, x: string)
    requires IsDummy(dummy)
    ensures Ng.NgName(x) == dummy <==> x == dummy
  {
    var n: nat :| dummy == Numbered("bridge", n);
    assert forall c :: c in Format(n) ==> IsDigit(c);
    assert forall c :: c in "bridge" ==> c != '.' && c != '_';
    Ng.NgNameExactlyWithoutDot(dummy);
    Ng.NgNameExactlyWithoutDot(x);
    if '.' in x {
      DotBecomesUnderscore(x);
    }
  }

  lemma {:induction false} DotBecomesUnderscore(x: string)
    requires '.' in x
    ensures '_' in Ng.NgName(x)
  {
    if x[0] != '.' {
      DotBecomesUnderscore(x[1..]);
    } else {
      assert Ng.NgName(x)[0] == '_';
    }
  }

  lemma DummyIsNew(h: Host)
    requires Consistent(h) && DummyName("bridge", h.bridges.Keys) != "" &&
             DummyName("bridge", h.bridges.Keys) !in h.ifaces
    ensures var dummy := DummyName("bridge", h.bridges.Keys);
            dummy !in NodesOf(h.ether) && NodesOf(AddBridge(h, dummy).ether) == NodesOf(h.ether) + {dummy}
  {
    var dummy := DummyName("bridge", h.bridges.Keys);
    forall x | x in h.ether
      ensures Ng.NgName(x) != dummy
    {
      DummyNode(h.bridges.Keys, x);
    }
    DummyNode(h.bridges.Keys, dummy);
    assert forall x :: x in h.ether + {dummy} <==> x in h.ether || x == dummy;
  }

  /** `made` is `bridges`, perhaps with one new bridge whose hooks all lead to the dummy. */
  predicate OnDummy(others: set<string>, bridges: Bridges, name: string, dummy: string, made: Bridges) {
    made == bridges ||
    (name !in bridges && dummy !in others && name in made && made == bridges[name := made[name]]
     && Ng.DistinctHooks(made[name]) && forall p :: p in made[name] ==> p.peerName == dummy)
  }

  /** Nothing happens to any bridge that was there. */
  predicate OthersKept(before: Bridges, after: Bridges, name: string) {
    && (forall b :: b in before ==> b in after && after[b] == before[b])
    && (forall b :: b in after ==> b in before || b == name)
  }

  /** What making an NG bridge keeps, whatever fails: the invariants, all other bridges of
      either kind, and the interfaces there are for uplinks. */
  ghost predicate Undamaged(before: Host, others: set<string>, bridges: Bridges, h: Host, now: Bridges, name: string) {
    && HostKept(before, h)
    && NgSound(h, others, now)
    && OthersKept(bridges, now, name)
    && (PeersOnce(bridges) ==> PeersOnce(now))
  }

  ghost predicate HostKept(before: Host, h: Host) {
    && Sound(h)
    && (forall b :: b in before.bridges ==> b in h.bridges && h.bridges[b] == before.bridges[b])
    && HostInterfaces(h) == HostInterfaces(before)
  }

  lemma DummyKeepsHost(h: Host, dummy: string)
    requires Sound(h) && dummy != "" && dummy !in h.ifaces
    ensures HostKept(h, AddBridge(h, dummy))
  {
    BridgeAddedSound(h, dummy);
    assert HostInterfaces(AddBridge(h, dummy)) == HostInterfaces(h);
  }

  lemma OnDummyOnce(h: Host, others: set<string>, bridges: Bridges, name: string, dummy: string, made: Bridges)
    requires NgSound(h, others, bridges) && dummy !in NodesOf(h.ether) && OnDummy(others, bridges, name, dummy, made)
    ensures PeersOnce(bridges) ==> PeersOnce(made)
  {
    if PeersOnce(bridges) && made != bridges {
      forall b, c, p: Ng.Peer, q: Ng.Peer |
        b in made && c in made && p in made[b] && q in made[c] && p.peerName == q.peerName
        ensures b == c
      {
        assert b != name ==> p in bridges[b] && p.peerName in NodesOf(h.ether) + others;
        assert c != name ==> q in bridges[c] && q.peerName in NodesOf(h.ether) + others;
      }
    }
  }

  /** While the dummy is there. */
  lemma OnDummySound(h: Host, others: set<string>, bridges: Bridges, name: string, made: Bridges)
    requires Sound(h) && NgSound(h, others, bridges)
    requires DummyName("bridge", h.bridges.Keys) != "" && DummyName("bridge", h.bridges.Keys) !in h.ifaces
    requires OnDummy(others, bridges, name, DummyName("bridge", h.bridges.Keys), made)
    ensures Undamaged(h, others, bridges, AddBridge(h, DummyName("bridge", h.bridges.Keys)), made, name)
  {
    DummyIsNew(h);
    DummyKeepsHost(h, DummyName("bridge", h.bridges.Keys));
    OnDummyOnce(h, others, bridges, name, DummyName("bridge", h.bridges.Keys), made);
    forall b, p | b in made && p in made[b]
      ensures p.peerName in NodesOf(h.ether) + {DummyName("bridge", h.bridges.Keys)} + others
      ensures b in bridges ==> p in bridges[b]
    {
    }
  }

  /** Once the dummy is gone the new bridge has no hooks, and the other bridges are as they
      were all along. */
  lemma OnDummySwept(h: Host, others: set<string>, bridges: Bridges, name: string, made: Bridges)
    requires Sound(h) && NgSound(h, others, bridges)
    requires DummyName("bridge", h.bridges.Keys) != "" && DummyName("bridge", h.bridges.Keys) !in h.ifaces
    requires OnDummy(others, bridges, name, DummyName("bridge", h.bridges.Keys), made) && made != bridges
    ensures Undamaged(h, others, bridges, h, bridges[name := []], name)
    ensures Ng.Swept(made, NodesOf(h.ether) + others) == bridges[name := []]
  {
    EmptyBridgeUndamaged(h, others, bridges, name);
    HooklessAfterSweep(h, others, bridges, name, made);
  }

  lemma EmptyBridgeUndamaged(h: Host, others: set<string>, bridges: Bridges, name: string)
    requires Sound(h) && NgSound(h, others, bridges) && name !in bridges
    ensures Undamaged(h, others, bridges, h, bridges[name := []], name)
  {
  }

  lemma HooklessAfterSweep(h: Host, others: set<string>, bridges: Bridges, name: string, made: Bridges)
    requires Consistent(h) && NgSound(h, others, bridges)
    requires DummyName("bridge", h.bridges.Keys) != "" && DummyName("bridge", h.bridges.Keys) !in h.ifaces
    requires OnDummy(others, bridges, name, DummyName("bridge", h.bridges.Keys), made) && made != bridges
    ensures Ng.Swept(made, NodesOf(h.ether) + others) == bridges[name := []]
  {
    var nodes := NodesOf(h.ether) + others;
    DummyIsNew(h);
    Ng.NothingThere(made[name], nodes);
    SweptWithout(bridges, name, made[name], nodes);
  }

  lemma SweptWithout(bridges: Bridges, name: string, peers: seq<Ng.Peer>, nodes: set<string>)
    requires forall b, p :: b in bridges && p in bridges[b] ==> p.peerName in nodes
    requires Ng.StillThere(peers, nodes) == []
    ensures Ng.Swept(bridges[name := peers], nodes) == bridges[name := []]
  {
    var swept, want := Ng.Swept(bridges[name := peers], nodes), bridges[name := []];
    assert swept.Keys == want.Keys;
    forall b | b in want
      ensures swept[b] == want[b]
    {
      if b != name {
        KeptInSweep(bridges, b, nodes);
      }
    }
  }

  lemma KeptInSweep(bridges: Bridges, b: string, nodes: set<string>)
    requires b in bridges && forall p :: p in bridges[b] ==> p.peerName in nodes
    ensures Ng.StillThere(bridges[b], nodes) == bridges[b]
  {
    Ng.AllThere(bridges[b], nodes);
  }

  /** Nothing to sweep while every node is there. */
  lemma NothingSwept(h: Host, others: set<string>, bridges: Bridges)
    requires NgSound(h, others, bridges)
    ensures Ng.Swept(bridges, NodesOf(h.ether) + others) == bridges
  {
    forall b | b in bridges
      ensures Ng.StillThere(bridges[b], NodesOf(h.ether) + others) == bridges[b]
    {
      Ng.AllThere(bridges[b], NodesOf(h.ether) + others);
    }
  }

  /** A creation that fails between `mkpeer` and `name` leaves a bridge without a name, and
      the dummy interface it is on. */
  ghost predicate UnnamedLeft(before: set<string>, now: set<string>, own: set<string>) {
    forall d :: d in now && d !in before ==> d in own && IsDummy(d)
  }

  ghost predicate IsDummy(d: string) {
    exists n: nat :: d == Numbered("bridge", n)
  }

  /** createNgBridge. */
  method CreateNgBridge(k: Machine, ng: Ng.Netgraph, name: string) returns (err: Option<Error>)
    requires Sound(k.State()) && NgSound(k.State(), ng.others, ng.bridges)
    modifies k, ng`bridges, ng`unnamed
    ensures Undamaged(old(k.State()), ng.others, old(ng.bridges), k.State(), ng.bridges, name)
    ensures err.None? ==> name !in old(ng.bridges) && name in ng.bridges
    ensures k.reliable && ng.reliable && NamesFree(old(k.State()), ng.others, name) ==>
              && (err.None? <==> Creatable(old(k.State()), old(ng.bridges), name))
              && k.State() == old(k.State()) && ng.unnamed <= old(ng.unnamed)
              && ng.bridges == if err.None? then old(ng.bridges)[name := []] else old(ng.bridges)
    ensures old(k.Clean()) ==> k.Clean()
    ensures UnnamedLeft(old(ng.unnamed), ng.unnamed, k.own) && (err.None? ==> ng.unnamed <= old(ng.unnamed))
    ensures old(k.past) <= k.past
  {
    if name == "" {
      return Some(InvalidName);
    }
    if !IsNetName(name) {
      return Some(InvalidName);
    }
    var all, _, listed := ng.List();
    if !listed {
      return Some(CommandFailed);
    }
    if name in all {
      return Some(AlreadyExists);
    }
    err := ActuallyCreate(k, ng, name);
  }

  /** actualNgBridgeCreate; a failure leaves what was made so far. */
  method ActuallyCreate(k: Machine, ng: Ng.Netgraph, name: string) returns (err: Option<Error>)
    requires Sound(k.State()) && NgSound(k.State(), ng.others, ng.bridges) && name !in ng.bridges
    modifies k, ng`bridges, ng`unnamed
    ensures Undamaged(old(k.State()), ng.others, old(ng.bridges), k.State(), ng.bridges, name)
    ensures err.None? ==> name in ng.bridges
    ensures k.reliable && ng.reliable && NamesFree(old(k.State()), ng.others, name) ==>
              && (err.None? <==> BridgePossible(old(k.State()), DummyName("bridge", old(k.bridges).Keys)))
              && k.State() == old(k.State()) && ng.unnamed <= old(ng.unnamed)
              && ng.bridges == if err.None? then old(ng.bridges)[name := []] else old(ng.bridges)
    ensures old(k.Clean()) ==> k.Clean()
    ensures UnnamedLeft(old(ng.unnamed), ng.unnamed, k.own) && (err.None? ==> ng.unnamed <= old(ng.unnamed))
    ensures old(k.past) <= k.past
  {
    ghost var h, bridges := k.State(), ng.bridges;
    var dummy := GetDummyBridgeName(k);
    if dummy == "" {
      return Some(CommandFailed);
    }
    err := CreateIfSwitch(k, dummy);
    if err.Some? {
      return;
    }
    if old(k.Clean()) {
      NotInBase(k.base, h);
    }
    err := CreateOn(k, ng, name, dummy, h, bridges);
  }

  /** From the new dummy on. */
  method CreateOn(k: Machine, ng: Ng.Netgraph, name: string, dummy: string, ghost h: Host, ghost bridges: Bridges)
    returns (err: Option<Error>)
    requires Sound(h) && NgSound(h, ng.others, bridges) && dummy == DummyName("bridge", h.bridges.Keys)
    requires BridgePossible(h, dummy) && Sound(k.State()) && k.State() == AddBridge(h, dummy)
    requires ng.bridges == bridges && name !in bridges
    modifies k, ng`bridges, ng`unnamed
    ensures Undamaged(h, ng.others, bridges, k.State(), ng.bridges, name)
    ensures err.None? ==> name in ng.bridges
    ensures k.reliable && ng.reliable && {name, dummy} !! ng.others ==>
              && err.None? && k.State() == h && ng.unnamed <= old(ng.unnamed) && ng.bridges == bridges[name := []]
    ensures old(k.Clean()) && NotOf(k.base, dummy) ==> k.Clean()
    ensures UnnamedLeft(old(ng.unnamed), ng.unnamed, k.own) && (err.None? ==> ng.unnamed <= old(ng.unnamed))
    ensures old(k.past) <= k.past
  {
    DummyIsNoPeer(h, ng.others, bridges);
    var ok := MakeOnDummy(k, ng, name, dummy);
    DummyLeft(h, dummy, old(ng.unnamed), ng.unnamed);
    if !ok {
      OnDummySound(h, ng.others, bridges, name, ng.bridges);
      return Some(CommandFailed);
    }
    err := DropDummy(k, ng, name, dummy, h, bridges);
  }

  lemma DummyIsNoPeer(h: Host, others: set<string>, bridges: Bridges)
    requires Sound(h) && NgSound(h, others, bridges) && BridgePossible(h, DummyName("bridge", h.bridges.Keys))
    ensures var dummy := DummyName("bridge", h.bridges.Keys);
            dummy in NodesOf(AddBridge(h, dummy).ether) && (dummy !in others ==> Ng.NotPeer(bridges, dummy))
  {
    DummyIsNew(h);
  }

  lemma DummyLeft(h: Host, dummy: string, before: set<string>, now: set<string>)
    requires dummy == DummyName("bridge", h.bridges.Keys) && dummy != "" && now <= before + {dummy}
    ensures UnnamedLeft(before, now, AddBridge(h, dummy).own)
  {
    var n: nat :| 1 <= n <= HIGHEST && dummy == Numbered("bridge", n);
  }

  /** The dummy goes, and its hooks with it. */
  method DropDummy(k: Machine, ng: Ng.Netgraph, name: string, dummy: string, ghost h: Host, ghost bridges: Bridges)
    returns (err: Option<Error>)
    requires Sound(h) && NgSound(h, ng.others, bridges) && dummy == DummyName("bridge", h.bridges.Keys)
    requires BridgePossible(h, dummy) && Sound(k.State())
    requires k.State() == AddBridge(h, dummy)
    requires OnDummy(ng.others, bridges, name, dummy, ng.bridges) && ng.bridges != bridges
    modifies k, ng`bridges, ng`unnamed
    ensures Undamaged(h, ng.others, bridges, k.State(), ng.bridges, name) && name in ng.bridges
    ensures k.reliable ==> err.None? && k.State() == h && ng.bridges == bridges[name := []]
    ensures old(k.Clean()) && NotOf(k.base, dummy) ==> k.Clean()
    ensures ng.unnamed <= old(ng.unnamed)
    ensures old(k.past) <= k.past
  {
    ghost var made := ng.bridges;
    OnDummySound(h, ng.others, bridges, name, made);
    DummyGone(h, dummy);
    err := DestroyIfSwitch(k, dummy, false);
    ng.Sweep(NodesOf(k.ether) + ng.others);
    if k.State() == h {
      OnDummySwept(h, ng.others, bridges, name, made);
    } else {
      NothingSwept(k.State(), ng.others, made);
    }
  }

  lemma DummyGone(h: Host, dummy: string)
    requires Consistent(h) && BridgePossible(h, dummy)
    ensures BridgeDestroyed(AddBridge(h, dummy), dummy) == h
  {
    var end := BridgeDestroyed(AddBridge(h, dummy), dummy);
    assert end.ifaces == h.ifaces && end.own == h.own && end.ether == h.ether;
    assert forall b :: b in h.bridges ==> h.bridges[b] - {dummy} == h.bridges[b];
    assert end.bridges == h.bridges;
  }

  /** The `ngctl` commands: mkpeer and name, connect, setpersistent. */
  method MakeOnDummy(k: Machine, ng: Ng.Netgraph, name: string, dummy: string) returns (ok: bool)
    requires name !in ng.bridges && dummy in NodesOf(k.ether)
    requires dummy !in ng.others ==> Ng.NotPeer(ng.bridges, dummy)
    modifies ng`bridges, ng`unnamed
    ensures OnDummy(ng.others, old(ng.bridges), name, dummy, ng.bridges)
    ensures ok ==> ng.bridges != old(ng.bridges)
    ensures ng.unnamed <= if ok then old(ng.unnamed) else old(ng.unnamed) + {dummy}
    ensures ng.reliable && {name, dummy} !! ng.others ==> ok
  {
    ok := ng.MakePeer(dummy);
    if !ok {
      return;
    }
    ok := ng.NameBridge(dummy, name);
    if !ok {
      return;
    }
    assert Ng.Hooks(ng.bridges[name]) == {"link0"};
    assert Ng.HookFree(ng.bridges, dummy, "upper");
    ok := ng.Connect(NodesOf(k.ether), name, "uplink1", dummy, "upper");
    if !ok {
      return;
    }
    ok := Attempt(true, ng.reliable);
  }

  /** bridgeNgDeleteAllPeers: takes each peer's name for the name of its hook. */
  method DeleteAllPeers(ng: Ng.Netgraph, name: string) returns (err: Option<Error>)
    requires Ng.AllDistinct(ng.bridges)
    modifies ng`bridges
    ensures Ng.AllDistinct(ng.bridges) &&
            OthersKept(map b | b in old(ng.bridges) && b != name :: old(ng.bridges)[b], ng.bridges, name)
    ensures name in old(ng.bridges) <==> name in ng.bridges
    ensures name in ng.bridges ==> forall p :: p in ng.bridges[name] ==> p in old(ng.bridges)[name]
    ensures ng.reliable && name in old(ng.bridges) && old(ng.bridges)[name] == [] ==>
              err.None? && ng.bridges == old(ng.bridges)
    ensures name !in old(ng.bridges) ==> err.Some?
    ensures name in old(ng.bridges) &&
            (forall p, q :: p in old(ng.bridges)[name] && q in old(ng.bridges)[name] ==> p.peerName != q.localHook) ==>
              ng.bridges == old(ng.bridges) && (old(ng.bridges)[name] != [] ==> err.Some?)
  {
    var peers, shown := ng.Show(name);
    if !shown {
      return Some(CommandFailed);
    }
    for i := 0 to |peers|
      invariant Ng.AllDistinct(ng.bridges) && name in ng.bridges
      invariant ng.bridges == old(ng.bridges)[name := ng.bridges[name]]
      invariant forall p :: p in ng.bridges[name] ==> p in old(ng.bridges)[name]
      invariant peers == [] ==> ng.bridges == old(ng.bridges)
      invariant (forall p, q :: p in peers && q in peers ==> p.peerName != q.localHook) ==>
                  i == 0 && ng.bridges == old(ng.bridges)
    {
      Ng.WithoutHookKeeps(ng.bridges[name], peers[i].peerName);
      assert peers[i] in peers;
      var ok := ng.RemoveHook(name, peers[i].peerName);
      if !ok {
        return Some(CommandFailed);
      }
    }
    return None;
  }

  /** The members in turn, as far as each can be connected. */
  function Joined(bridges: Bridges, nodes: set<string>, name: string, members: seq<string>): (r: Bridges)
    requires name in bridges
    ensures r.Keys == bridges.Keys && forall b :: b in bridges && b != name ==> r[b] == bridges[b]
  {
    if members == [] then bridges
    else
      var n := |members| - 1;
      var before := Joined(bridges, nodes, name, members[..n]);
      before[name := Ng.Added(before[name], members[n], Ng.Doable(before, nodes, members[n]))]
  }

  /** Who hangs on the new bridge: exactly the members, when each is a node of its own that no
      bridge leads to. */
  lemma {:induction false} JoinedPeers(bridges: Bridges, nodes: set<string>, name: string, members: seq<string>,
                                       x: string)
    requires name in bridges && bridges[name] == [] && DotFree(members)
    requires forall m :: m in members ==> Ng.NotPeer(bridges, m) && m in nodes
    ensures (exists p :: p in Joined(bridges, nodes, name, members)[name] && p.peerName == x) <==> x in members
    decreases |members|, 0
  {
    if members != [] {
      var n := |members| - 1;
      var last, before := members[n], Joined(bridges, nodes, name, members[..n]);
      JoinedPeers(bridges, nodes, name, members[..n], x);
      assert members == members[..n] + [last];
      Ng.NgNameExactlyWithoutDot(last);
      var done := Ng.Doable(before, nodes, last);
      AddedPeers(before[name], last, done);
      if last !in members[..n] {
        DoableForNew(bridges, nodes, name, members[..n], last);
        assert Ng.Added(before[name], last, 2)[|before[name]|].peerName == last;
      }
      forall p | p in before[name]
        ensures p in Ng.Added(before[name], last, done)
      {
      }
    }
  }

  predicate BothHooks(peers: seq<Ng.Peer>, x: string) {
    && (exists p :: p in peers && p.peerName == x && p.peerHook == "lower")
    && (exists p :: p in peers && p.peerName == x && p.peerHook == "upper")
  }

  /** Each of them by its "lower" and its "upper" hook. */
  lemma {:induction false} JoinedTwice(bridges: Bridges, nodes: set<string>, name: string, members: seq<string>,
                                       x: string)
    requires name in bridges && bridges[name] == [] && DotFree(members)
    requires forall m :: m in members ==> Ng.NotPeer(bridges, m) && m in nodes
    requires x in members
    ensures BothHooks(Joined(bridges, nodes, name, members)[name], x)
    decreases |members|
  {
    var n := |members| - 1;
    var last, before := members[n], Joined(bridges, nodes, name, members[..n]);
    assert members == members[..n] + [last];
    var done := Ng.Doable(before, nodes, last);
    var after := Ng.Added(before[name], last, done);
    forall p | p in before[name]
      ensures p in after
    {
    }
    if x in members[..n] {
      JoinedTwice(bridges, nodes, name, members[..n], x);
    } else {
      DoableForNew(bridges, nodes, name, members[..n], last);
      Ng.NgNameExactlyWithoutDot(last);
      Ng.AddedIs(before[name], last);
      assert after[|before[name]|].peerHook == "lower" && after[|before[name]| + 1].peerHook == "upper";
    }
  }

  /** A member that has not joined yet can be connected twice. */
  lemma {:induction false} DoableForNew(bridges: Bridges, nodes: set<string>, name: string, members: seq<string>,
                                        last: string)
    requires name in bridges && bridges[name] == [] && DotFree(members)
    requires forall m :: m in members ==> Ng.NotPeer(bridges, m) && m in nodes
    requires '.' !in last && last in nodes && last !in members && Ng.NotPeer(bridges, last)
    ensures Ng.Doable(Joined(bridges, nodes, name, members), nodes, last) == 2
    decreases |members|, 1
  {
    var joined := Joined(bridges, nodes, name, members);
    Ng.NgNameExactlyWithoutDot(last);
    JoinedPeers(bridges, nodes, name, members, last);
    forall b, p: Ng.Peer | b in joined && p in joined[b]
      ensures p.peerName != last
    {
    }
  }

  ghost predicate DotFree(members: seq<string>) {
    forall m :: m in members ==> '.' !in m
  }

  /** createNgBridgeWithMembers: members that cannot be added are skipped. */
  method CreateNgWithMembers(k: Machine, ng: Ng.Netgraph, name: string, members: seq<string>)
    returns (err: Option<Error>)
    requires Sound(k.State()) && NgSound(k.State(), ng.others, ng.bridges)
    requires forall m :: m in members ==> Ng.NotPeer(ng.bridges, m)
    modifies k, ng`bridges, ng`unnamed
    ensures Sound(k.State()) && NgSound(k.State(), ng.others, ng.bridges)
    ensures forall b :: b in old(k.bridges) ==> b in k.bridges && k.bridges[b] == old(k.bridges)[b]
    ensures OthersKept(old(ng.bridges), ng.bridges, name)
    ensures err.None? ==> name !in old(ng.bridges) && name in ng.bridges
    ensures DotFree(members) && old(PeersOnce(ng.bridges)) ==> PeersOnce(ng.bridges)
    ensures k.reliable && ng.reliable && NamesFree(old(k.State()), ng.others, name) ==>
              && k.State() == old(k.State()) && ng.unnamed <= old(ng.unnamed)
              && (err.None? <==> Creatable(old(k.State()), old(ng.bridges), name))
              && (err.Some? ==> ng.bridges == old(ng.bridges))
    ensures k.reliable && ng.reliable && NamesFree(old(k.State()), ng.others, name) && err.None? &&
            (forall m :: m in members ==> m in HostInterfaces(old(k.State()))) ==>
              ng.bridges == Joined(old(ng.bridges)[name := []], NodesOf(old(k.ether)), name, members)
    ensures old(k.Clean()) ==> k.Clean()
    ensures UnnamedLeft(old(ng.unnamed), ng.unnamed, k.own) && (err.None? ==> ng.unnamed <= old(ng.unnamed))
    ensures old(k.past) <= k.past
  {
    err := CreateNgBridge(k, ng, name);
    if err.Some? {
      return;
    }
    err := FillNew(k, ng, name, members, old(ng.bridges));
  }

  /** Clears the new bridge and adds the members. */
  method FillNew(k: Machine, ng: Ng.Netgraph, name: string, members: seq<string>, ghost others: Bridges)
    returns (err: Option<Error>)
    requires NgSound(k.State(), ng.others, ng.bridges) && name in ng.bridges && name !in others &&
             OthersKept(others, ng.bridges, name)
    requires forall m :: m in members ==> Ng.NotPeer(others, m)
    modifies ng`bridges
    ensures NgSound(k.State(), ng.others, ng.bridges) && name in ng.bridges && OthersKept(others, ng.bridges, name)
    ensures DotFree(members) && old(PeersOnce(ng.bridges)) ==> PeersOnce(ng.bridges)
    ensures ng.reliable && old(ng.bridges)[name] == [] ==> err.None?
    ensures k.reliable && ng.reliable && old(ng.bridges)[name] == [] &&
            (forall m :: m in members ==> m in HostInterfaces(k.State())) ==>
              ng.bridges == Joined(old(ng.bridges), NodesOf(k.ether), name, members)
  {
    ghost var made := ng.bridges;
    err := DeleteAllPeers(ng, name);
    FewerStaySound(k.State(), ng.others, made, ng.bridges);
    if err.Some? {
      return;
    }
    JoinMembers(k, ng, name, members, others);
  }

  /** The loop over the members. `others` are the bridges there were before this one. */
  method JoinMembers(k: Machine, ng: Ng.Netgraph, name: string, members: seq<string>, ghost others: Bridges)
    requires NgSound(k.State(), ng.others, ng.bridges) && name in ng.bridges && name !in others &&
             OthersKept(others, ng.bridges, name)
    requires forall m :: m in members ==> Ng.NotPeer(others, m)
    modifies ng`bridges
    ensures NgSound(k.State(), ng.others, ng.bridges) && name in ng.bridges && OthersKept(others, ng.bridges, name)
    ensures DotFree(members) && old(PeersOnce(ng.bridges)) ==> PeersOnce(ng.bridges)
    ensures k.reliable && ng.reliable && (forall m :: m in members ==> m in HostInterfaces(k.State())) ==>
              ng.bridges == Joined(old(ng.bridges), NodesOf(k.ether), name, members)
  {
    for i := 0 to |members|
      invariant NgSound(k.State(), ng.others, ng.bridges) && name in ng.bridges && OthersKept(others, ng.bridges, name)
      invariant DotFree(members) && old(PeersOnce(ng.bridges)) ==> PeersOnce(ng.bridges)
      invariant k.reliable && ng.reliable && (forall m :: m in members ==> m in HostInterfaces(k.State())) ==>
                  ng.bridges == Joined(old(ng.bridges), NodesOf(k.ether), name, members[..i])
    {
      assert members[..i + 1][..i] == members[..i] && members[i] in members;
      JoinMember(k, ng, name, members[i], others);
    }
    assert members[..|members|] == members;
  }

  method JoinMember(k: Machine, ng: Ng.Netgraph, name: string, member: string, ghost others: Bridges)
    requires NgSound(k.State(), ng.others, ng.bridges) && name in ng.bridges && name !in others &&
             OthersKept(others, ng.bridges, name)
    requires Ng.NotPeer(others, member)
    modifies ng`bridges
    ensures NgSound(k.State(), ng.others, ng.bridges) && name in ng.bridges && OthersKept(others, ng.bridges, name)
    ensures '.' !in member && old(PeersOnce(ng.bridges)) ==> PeersOnce(ng.bridges)
    ensures k.reliable && ng.reliable && member in HostInterfaces(k.State()) ==>
              var done := Ng.Doable(old(ng.bridges), NodesOf(k.ether), member);
              ng.bridges == old(ng.bridges)[name := Ng.Added(old(ng.bridges)[name], member, done)]
  {
    var present := k.UplinkCandidates();
    if member !in present {
      return;
    }
    ghost var before := ng.bridges;
    var failed, done := Ng.NgAddMember(ng, NodesOf(k.ether), name, member);
    AddedSound(k.State(), ng.others, before, ng.bridges, name, member, done);
    OthersKeptBy(others, before, name, member, done);
    if '.' !in member && PeersOnce(before) {
      AddedOnce(before, name, member, done);
    }
  }

  lemma OthersKeptBy(others: Bridges, before: Bridges, name: string, member: string, done: nat)
    requires name in before && name !in others && OthersKept(others, before, name) && done <= 2
    ensures OthersKept(others, before[name := Ng.Added(before[name], member, done)], name)
  {
  }

  /** The pieces of an uplink column that exist and hang on no NG bridge, in order. */
  function FreeNgPieces(h: Host, bridges: Bridges, pieces: seq<string>): (r: seq<string>)
    ensures forall m :: m in r ==> m in pieces && m in HostInterfaces(h) && Ng.NotPeer(bridges, m)
  {
    if pieces == [] then []
    else
      var n := |pieces| - 1;
      var last := pieces[n];
      FreeNgPieces(h, bridges, pieces[..n]) +
      if last != "" && last in HostInterfaces(h) && Ng.NotPeer(bridges, last) then [last] else []
  }

  /** The pieces that get through the sanity checks; none does while a bridge has no name. */
  function NgPiecesSeen(h: Host, bridges: Bridges, unnamed: set<string>, pieces: seq<string>): seq<string> {
    if unnamed == {} then FreeNgPieces(h, bridges, pieces) else []
  }

  method SiftNgMembers(k: Machine, ng: Ng.Netgraph, list: seq<string>) returns (members: seq<string>)
    ensures forall m :: m in members ==> m in list && Ng.NotPeer(ng.bridges, m)
    ensures k.reliable && ng.reliable ==> members == NgPiecesSeen(k.State(), ng.bridges, ng.unnamed, list)
  {
    members := [];
    for i := 0 to |list|
      invariant forall m :: m in members ==> m in list && Ng.NotPeer(ng.bridges, m)
      invariant k.reliable && ng.reliable ==> members == NgPiecesSeen(k.State(), ng.bridges, ng.unnamed, list[..i])
    {
      assert list[..i + 1][..i] == list[..i];
      if list[i] == "" {
        continue;
      }
      var present := k.UplinkCandidates();
      if list[i] !in present {
        continue;
      }
      var used, known := NgMemberUsed(ng, list[i]);
      if !known || used {
        continue;
      }
      members := members + [list[i]];
    }
    assert list[..|list|] == list;
  }

  /** The NG bridges once a switch has been built. */
  function BuiltNg(h: Host, bridges: Bridges, unnamed: set<string>, name: string, uplinks: string): Bridges {
    if Creatable(h, bridges, name)
    then Joined(bridges[name := []], NodesOf(h.ether), name, NgPiecesSeen(h, bridges, unnamed, Split(uplinks)))
    else bridges
  }

  /** A switch that is built over an uplink column without dots leads exactly to the pieces
      that are interfaces the daemon did not make, with a hardware address, and hang on no NG
      bridge; to each by both hooks. */
  lemma BuiltNgPeers(h: Host, bridges: Bridges, name: string, uplinks: string, x: string)
    requires Creatable(h, bridges, name) && '.' !in uplinks
    ensures var peers := BuiltNg(h, bridges, {}, name, uplinks)[name];
            && ((exists p :: p in peers && p.peerName == x) <==>
                && x in Split(uplinks) && x != "" && x in h.ether && x !in h.own
                && forall b, p :: b in bridges && p in bridges[b] ==> p.peerName != x)
            && ((exists p :: p in peers && p.peerName == x) ==> BothHooks(peers, x))
  {
    var members := FreeNgPieces(h, bridges, Split(uplinks));
    var empty := bridges[name := []];
    PiecesDotFree(uplinks);
    forall m | m in members
      ensures '.' !in m && Ng.NotPeer(empty, m) && m in NodesOf(h.ether)
    {
      Ng.NgNameExactlyWithoutDot(m);
      assert m in Split(uplinks);
    }
    JoinedPeers(empty, NodesOf(h.ether), name, members, x);
    FreeNgPiecesExactly(h, bridges, Split(uplinks), x);
    if x in members {
      JoinedTwice(empty, NodesOf(h.ether), name, members, x);
    }
  }

  /** Which pieces those are. */
  lemma {:induction false} FreeNgPiecesExactly(h: Host, bridges: Bridges, pieces: seq<string>, x: string)
    ensures x in FreeNgPieces(h, bridges, pieces) <==>
            && x in pieces && x != "" && x in h.ether && x !in h.own
            && forall b, p :: b in bridges && p in bridges[b] ==> p.peerName != x
  {
    if pieces != [] {
      var n := |pieces| - 1;
      FreeNgPiecesExactly(h, bridges, pieces[..n], x);
      assert pieces == pieces[..n] + [pieces[n]];
    }
  }

  /** buildNgSwitch. Whatever fails, other bridges of either kind stay as they are; while
      commands work the dummy leaves no trace and the bridge carries exactly the free pieces
      of the uplink column. */
  method BuildNgSwitch(k: Machine, ng: Ng.Netgraph, name: string, uplinks: string) returns (err: Option<Error>)
    requires Sound(k.State()) && NgSound(k.State(), ng.others, ng.bridges)
    modifies k, ng`bridges, ng`unnamed
    ensures Sound(k.State()) && NgSound(k.State(), ng.others, ng.bridges)
    ensures forall b :: b in old(k.bridges) ==> b in k.bridges && k.bridges[b] == old(k.bridges)[b]
    ensures OthersKept(old(ng.bridges), ng.bridges, name)
    ensures err.None? ==> name !in old(ng.bridges) && name in ng.bridges
    ensures '.' !in uplinks && old(PeersOnce(ng.bridges)) ==> PeersOnce(ng.bridges)
    ensures k.reliable && ng.reliable && NamesFree(old(k.State()), ng.others, name) ==>
              && k.State() == old(k.State()) && ng.unnamed <= old(ng.unnamed)
              && (err.None? <==> Creatable(old(k.State()), old(ng.bridges), name))
              && ng.bridges == BuiltNg(old(k.State()), old(ng.bridges), old(ng.unnamed), name, uplinks)
    ensures old(k.Clean()) ==> k.Clean()
    ensures UnnamedLeft(old(ng.unnamed), ng.unnamed, k.own) && (err.None? ==> ng.unnamed <= old(ng.unnamed))
    ensures old(k.past) <= k.past
  {
    var list := Split(uplinks);
    var members := SiftNgMembers(k, ng, list);
    if '.' !in uplinks {
      PiecesDotFree(uplinks);
    }
    err := CreateNgWithMembers(k, ng, name, members);
  }

  lemma {:induction false} PiecesDotFree(text: string)
    requires '.' !in text
    ensures DotFree(Split(text))
  {
    if text != "" {
      PiecesDotFree(text[1..]);
      var rest := Split(text[1..]);
      assert rest[0] in rest && text[0] != '.';
      forall m | m in Split(text)
        ensures '.' !in m
      {
        if text[0] == ',' {
          assert m == "" || m in rest;
        } else {
          assert m == [text[0]] + rest[0] || m in rest[1..];
          assert m in rest[1..] ==> m in rest;
        }
      }
    }
  }

  /** destroyNgSwitch: unlike an IF bridge, one that is not there is an error. */
  method DestroyNgSwitch(ng: Ng.Netgraph, name: string) returns (err: Option<Error>)
    modifies ng`bridges
    ensures ng.bridges == if err.None? then old(ng.bridges) - {name} else old(ng.bridges)
    ensures err.None? ==> IsNetName(name) && name in old(ng.bridges)
    ensures ng.reliable && IsNetName(name) && name in old(ng.bridges) ==> err.None?
  {
    if name == "" {
      return Some(InvalidName);
    }
    if !IsNetName(name) {
      return Some(InvalidName);
    }
    var ok := ng.Shutdown(name);
    if !ok {
      return Some(CommandFailed);
    }
    return None;
  }
}

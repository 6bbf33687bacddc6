/** Netgraph bridges (switch/bridge_ng.go): members hang on numbered hooks `linkN`, two per
    uplink interface. */
module NgBridge {
  import opened Wrappers
  import opened Decimal
  import opened FreeName
  import opened Sifting

  /** A line of `ngctl show`: the bridge's hook and what it leads to. */
  datatype Peer = Peer(localHook: string, peerName: string, peerHook: string)

  datatype Error = CommandFailed

  function Hooks(peers: seq<Peer>): set<string> {
    set p | p in peers :: p.localHook
  }

  lemma {:induction false} HooksAreFew(peers: seq<Peer>)
    ensures |Hooks(peers)| <= |peers|
  {
    if peers == [] {
      assert Hooks(peers) == {};
    } else {
      HooksAreFew(peers[1..]);
      assert Hooks(peers) == {peers[0].localHook} + Hooks(peers[1..]);
    }
  }

  predicate DistinctHooks(peers: seq<Peer>) {
    forall i, j :: 0 <= i < j < |peers| ==> peers[i].localHook != peers[j].localHook
  }

  function NextLink(peers: seq<Peer>): string {
    Numbered("link", LeastFree("link", Hooks(peers)))
  }

  /** The first of link0, link1, ... that no hook of the bridge has. */
  ghost predicate IsNextLink(peers: seq<Peer>, link: string) {
    exists n: nat :: link == "link" + Format(n) && link !in Hooks(peers) &&
      forall m: nat :: m < n ==> "link" + Format(m) in Hooks(peers)
  }

  lemma NextLinkIs(peers: seq<Peer>)
    ensures IsNextLink(peers, NextLink(peers))
  {
    var n := LeastFree("link", Hooks(peers));
    forall m: nat | m < n
      ensures "link" + Format(m) in Hooks(peers)
    {
      assert Numbered("link", m) == "link" + Format(m);
    }
    assert Numbered("link", n) == "link" + Format(n);
  }

  /** ngBridgeNextLink: the least unused link, found in at most one try more than there
      are peers. */
  method FindNextLink(peers: seq<Peer>) returns (link: string, tries: nat)
    ensures link == NextLink(peers)
    ensures IsNextLink(peers, link)
    ensures tries <= |peers| + 1
  {
    var hooks := Hooks(peers);
    HooksAreFew(peers);
    var num := 0;
    link, tries := Numbered("link", num), 1;
    while link in hooks
      invariant link == Numbered("link", num) && tries == num + 1 <= |peers| + 1
      invariant AllTaken("link", hooks, num)
      decreases |peers| - num
    {
      Pigeonhole("link", hooks, num + 1);
      num := num + 1;
      link := Numbered("link", num);
      tries := tries + 1;
    }
    LeastFreeIsUnique("link", hooks, num);
    NextLinkIs(peers);
  }

  /** `strings.Replace(name, ".", "_", 1)`: netgraph node names hold no dot. */
  function NgName(name: string): string {
    if name == "" then ""
    else if name[0] == '.' then "_" + name[1..]
    else [name[0]] + NgName(name[1..])
  }

  lemma {:induction false} NgNameExactlyWithoutDot(name: string)
    ensures NgName(name) == name <==> '.' !in name
  {
    if name != "" && name[0] != '.' {
      NgNameExactlyWithoutDot(name[1..]);
      assert name == [name[0]] + name[1..];
      assert NgName(name)[1..] == NgName(name[1..]);
    }
  }

  /** The first dot becomes an underscore. */
  lemma {:induction false} NgNameOfDotted(front: string, back: string)
    requires '.' !in front
    ensures NgName(front + "." + back) == front + "_" + back
  {
    if front == "" {
      assert front + "." + back == "." + back && ("." + back)[1..] == back;
    } else {
      NgNameOfDotted(front[1..], back);
      assert front + "." + back == [front[0]] + (front[1..] + "." + back);
      assert (front + "." + back)[1..] == front[1..] + "." + back;
      assert [front[0]] + (front[1..] + "_" + back) == front + "_" + back;
    }
  }

  /** Two more hooks: a "lower" and then an "upper" one to the node, each on the next link. */
  ghost predicate PluggedTwice(before: seq<Peer>, after: seq<Peer>, node: string) {
    exists low, up ::
      && IsNextLink(before, low) && IsNextLink(before + [Peer(low, node, "lower")], up)
      && after == before + [Peer(low, node, "lower"), Peer(up, node, "upper")]
  }

  lemma AddedIs(peers: seq<Peer>, member: string)
    ensures PluggedTwice(peers, Added(peers, member, 2), NgName(member))
  {
    var once := Connected(peers, NgName(member), "lower");
    NextLinkIs(peers);
    NextLinkIs(once);
    var low, up := NextLink(peers), NextLink(once);
    assert Added(peers, member, 2) == peers + [Peer(low, NgName(member), "lower"), Peer(up, NgName(member), "upper")];
  }

  /** A new hook at the end of the list. */
  function Connected(peers: seq<Peer>, name: string, peerHook: string): seq<Peer> {
    peers + [Peer(NextLink(peers), name, peerHook)]
  }

  /** switchNgAddMember carried out up to its n-th connect. */
  function Added(peers: seq<Peer>, member: string, n: nat): seq<Peer>
    requires n <= 2
  {
    if n == 0 then peers
    else if n == 1 then Connected(peers, NgName(member), "lower")
    else Connected(Connected(peers, NgName(member), "lower"), NgName(member), "upper")
  }

  function WithoutPeer(peers: seq<Peer>, name: string): seq<Peer> {
    if peers == [] then []
    else (if peers[0].peerName == name then [] else [peers[0]]) + WithoutPeer(peers[1..], name)
  }

  /** The others stay, in order. */
  lemma {:induction false} WithoutPeerIs(peers: seq<Peer>, name: string)
    ensures Sifted(peers, WithoutPeer(peers, name), (p: Peer) => p.peerName != name)
  {
    var passes := (p: Peer) => p.peerName != name;
    if peers == [] {
      SiftedEmpty(passes);
    } else {
      WithoutPeerIs(peers[1..], name);
      SiftedCons(peers[0], peers[1..], WithoutPeer(peers[1..], name), passes);
      assert peers == [peers[0]] + peers[1..];
    }
  }

  function WithoutHook(peers: seq<Peer>, hook: string): seq<Peer> {
    if peers == [] then []
    else (if peers[0].localHook == hook then [] else [peers[0]]) + WithoutHook(peers[1..], hook)
  }

  /** No bridge leads to the peer. */
  predicate NotPeer(bridges: map<string, seq<Peer>>, name: string) {
    forall b | b in bridges :: forall p | p in bridges[b] :: p.peerName != name
  }

  /** The peer's own hook is not connected to anything. */
  predicate HookFree(bridges: map<string, seq<Peer>>, name: string, peerHook: string) {
    forall b | b in bridges :: forall p | p in bridges[b] :: p.peerName == name ==> p.peerHook != peerHook
  }

  /** How many of the two connects of switchNgAddMember can be made, given the nodes there are. */
  function Doable(bridges: map<string, seq<Peer>>, nodes: set<string>, member: string): (n: nat)
    ensures n <= 2
  {
    if NgName(member) !in nodes || !HookFree(bridges, NgName(member), "lower") then 0
    else if !HookFree(bridges, NgName(member), "upper") then 1
    else 2
  }

  /** The peers whose nodes are still there. */
  function StillThere(peers: seq<Peer>, nodes: set<string>): (r: seq<Peer>)
    ensures forall p :: p in r <==> p in peers && p.peerName in nodes
  {
    if peers == [] then []
    else (if peers[0].peerName in nodes then [peers[0]] else []) + StillThere(peers[1..], nodes)
  }

  lemma {:induction false} AllThere(peers: seq<Peer>, nodes: set<string>)
    requires forall p :: p in peers ==> p.peerName in nodes
    ensures StillThere(peers, nodes) == peers
  {
    if peers != [] {
      assert peers[0] in peers;
      AllThere(peers[1..], nodes);
      assert peers == [peers[0]] + peers[1..];
    }
  }

  lemma {:induction false} NothingThere(peers: seq<Peer>, nodes: set<string>)
    requires forall p :: p in peers ==> p.peerName !in nodes
    ensures StillThere(peers, nodes) == []
  {
    if peers != [] {
      assert peers[0] in peers;
      NothingThere(peers[1..], nodes);
    }
  }

  lemma {:induction false} StillThereDistinct(peers: seq<Peer>, nodes: set<string>)
    requires DistinctHooks(peers)
    ensures DistinctHooks(StillThere(peers, nodes))
  {
    if peers != [] {
      StillThereDistinct(peers[1..], nodes);
      var rest := StillThere(peers[1..], nodes);
      forall i | 0 <= i < |rest|
        ensures rest[i].localHook != peers[0].localHook
      {
        assert rest[i] in peers[1..];
      }
    }
  }

  lemma {:induction false} WithoutHookKeeps(peers: seq<Peer>, hook: string)
    requires DistinctHooks(peers)
    ensures DistinctHooks(WithoutHook(peers, hook))
    ensures forall p :: p in WithoutHook(peers, hook) ==> p in peers
  {
    if peers != [] {
      WithoutHookKeeps(peers[1..], hook);
      var rest := WithoutHook(peers[1..], hook);
      forall i | 0 <= i < |rest|
        ensures rest[i].localHook != peers[0].localHook
      {
        assert rest[i] in rest && rest[i] in peers[1..];
      }
    }
  }

  function Swept(bridges: map<string, seq<Peer>>, nodes: set<string>): map<string, seq<Peer>> {
    map b | b in bridges :: StillThere(bridges[b], nodes)
  }

  class Netgraph {
    var bridges: map<string, seq<Peer>>
    var others: set<string>      // nodes that are neither bridges nor interfaces, such as the sockets of VMs
    var unnamed: set<string>     // interfaces whose nodes have a bridge on them that has no name yet
    const reliable: bool

    constructor (bridges: map<string, seq<Peer>>, others: set<string>, reliable: bool)
      ensures this.bridges == bridges && this.others == others && this.reliable == reliable && unnamed == {}
    {
      this.bridges, this.others, this.reliable := bridges, others, reliable;
      unnamed := {};
    }

    /** getAllNgSwitches. Bridges without a name are listed as `<unnamed>`. */
    method List() returns (names: set<string>, nameless: bool, ok: bool)
      ensures ok ==> names == bridges.Keys && (nameless <==> unnamed != {})
      ensures reliable ==> ok
    {
      ok := Attempt(true, reliable);
      names, nameless := if ok then bridges.Keys else {}, ok && unnamed != {};
    }

    /** `ngctl show`; there is no way to ask for a bridge that has no name. */
    method Show(bridge: string) returns (peers: seq<Peer>, ok: bool)
      ensures ok ==> bridge in bridges && peers == bridges[bridge]
      ensures reliable && bridge in bridges ==> ok
    {
      ok := Attempt(bridge in bridges, reliable);
      peers := if ok then bridges[bridge] else [];
    }

    /** `mkpeer` on the node of the dummy interface: a bridge with one hook and no name. */
    method MakePeer(dummy: string) returns (ok: bool)
      modifies this`unnamed
      ensures ok ==> dummy !in others && unnamed == old(unnamed) + {dummy}
      ensures !ok ==> unnamed == old(unnamed)
      ensures reliable && dummy !in others ==> ok
    {
      ok := Attempt(dummy !in others, reliable);
      if ok {
        unnamed := unnamed + {dummy};
      }
    }

    /** `name` for the bridge on the dummy. */
    method NameBridge(dummy: string, name: string) returns (ok: bool)
      modifies this`bridges, this`unnamed
      ensures ok ==>
                && dummy in old(unnamed) && name !in old(bridges) && name !in others
                && bridges == old(bridges)[name := [Peer("link0", dummy, "lower")]]
                && unnamed == old(unnamed) - {dummy}
      ensures !ok ==> bridges == old(bridges) && unnamed == old(unnamed)
      ensures reliable && dummy in old(unnamed) && name !in old(bridges) && name !in others ==> ok
    {
      ok := Attempt(dummy in unnamed && name !in bridges && name !in others, reliable);
      if ok {
        bridges, unnamed := bridges[name := [Peer("link0", dummy, "lower")]], unnamed - {dummy};
      }
    }

    /** `ngctl connect`. That a hook is used once, on the bridge and on the peer, is the
        kernel's doing only on a reliable host; elsewhere it is left to the daemon. */
    method Connect(nodes: set<string>, bridge: string, link: string, name: string, peerHook: string) returns (ok: bool)
      requires bridge in bridges
      modifies this`bridges
      ensures ok ==>
                name in nodes && bridges == old(bridges)[bridge := old(bridges)[bridge] + [Peer(link, name, peerHook)]]
      ensures !ok ==> bridges == old(bridges)
      ensures reliable ==>
                (ok <==>
                 name in nodes && link !in Hooks(old(bridges)[bridge]) && HookFree(old(bridges), name, peerHook))
    {
      var free := link !in Hooks(bridges[bridge]) && HookFree(bridges, name, peerHook);
      ok := Attempt(name in nodes && (reliable ==> free), reliable);
      if ok {
        bridges := bridges[bridge := bridges[bridge] + [Peer(link, name, peerHook)]];
      }
    }

    method RemoveHook(bridge: string, hook: string) returns (ok: bool)
      requires bridge in bridges
      modifies this`bridges
      ensures ok ==> hook in Hooks(old(bridges)[bridge]) &&
                     bridges == old(bridges)[bridge := WithoutHook(old(bridges)[bridge], hook)]
      ensures !ok ==> bridges == old(bridges)
      ensures reliable && hook in Hooks(old(bridges)[bridge]) ==> ok
    {
      ok := Attempt(hook in Hooks(bridges[bridge]), reliable);
      if ok {
        bridges := bridges[bridge := WithoutHook(bridges[bridge], hook)];
      }
    }

    /** `ngctl msg <bridge>: shutdown`. */
    method Shutdown(bridge: string) returns (ok: bool)
      modifies this`bridges
      ensures ok ==> bridge in old(bridges) && bridges == old(bridges) - {bridge}
      ensures !ok ==> bridges == old(bridges)
      ensures reliable && bridge in old(bridges) ==> ok
    {
      ok := Attempt(bridge in bridges, reliable);
      if ok {
        bridges := bridges - {bridge};
      }
    }

    /** bhyve connects the socket of a VM to a free link. */
    method PlugSocket(bridge: string, link: string, socket: string)
      requires bridge in bridges && link !in Hooks(bridges[bridge])
      modifies this`bridges, this`others
      ensures others == old(others) + {socket}
      ensures bridges == old(bridges)[bridge := old(bridges)[bridge] + [Peer(link, socket, "vmlink")]]
    {
      others := others + {socket};
      bridges := bridges[bridge := bridges[bridge] + [Peer(link, socket, "vmlink")]];
    }

    /** The VM is gone, and with it its socket. */
    method UnplugSocket(socket: string)
      modifies this`bridges, this`others
      ensures others == old(others) - {socket}
      ensures bridges == map b | b in old(bridges) :: WithoutPeer(old(bridges)[b], socket)
    {
      others := others - {socket};
      bridges := map b | b in bridges :: WithoutPeer(bridges[b], socket);
    }

    /** What the kernel does when interfaces go: their nodes go, and the hooks that led there. A
        bridge without a name has no other hook and goes too. */
    method Sweep(nodes: set<string>)
      modifies this`bridges, this`unnamed
      ensures bridges == Swept(old(bridges), nodes) && unnamed == old(unnamed) * nodes
    {
      bridges, unnamed := map b | b in bridges :: StillThere(bridges[b], nodes), unnamed * nodes;
    }
  }

  ghost predicate AllDistinct(bridges: map<string, seq<Peer>>) {
    forall b :: b in bridges ==> DistinctHooks(bridges[b])
  }

  /** switchNgAddMember: `done` of its two connects went through; while commands work, as
      many as can. `nodes` are the interface nodes on the host. */
  method NgAddMember(ng: Netgraph, nodes: set<string>, bridge: string, member: string)
    returns (err: Option<Error>, done: nat)
    requires AllDistinct(ng.bridges)
    modifies ng`bridges
    ensures AllDistinct(ng.bridges)
    ensures done <= 2 && (err.None? <==> done == 2)
    ensures bridge !in old(ng.bridges) ==> err.Some? && done == 0 && ng.bridges == old(ng.bridges)
    ensures bridge in old(ng.bridges) ==>
              ng.bridges == old(ng.bridges)[bridge := Added(old(ng.bridges)[bridge], member, done)]
    ensures done > 0 ==> NgName(member) in nodes
    ensures done == 2 ==> bridge in ng.bridges && bridge in old(ng.bridges) &&
                          PluggedTwice(old(ng.bridges)[bridge], ng.bridges[bridge], NgName(member))
    ensures ng.reliable && bridge in old(ng.bridges) ==> done == Doable(old(ng.bridges), nodes, member)
  {
    err, done := ConnectBoth(ng, nodes, bridge, member);
    if done == 2 {
      AddedIs(old(ng.bridges)[bridge], member);
    }
  }

  /** The two connects. */
  method ConnectBoth(ng: Netgraph, nodes: set<string>, bridge: string, member: string)
    returns (err: Option<Error>, done: nat)
    requires AllDistinct(ng.bridges)
    modifies ng`bridges
    ensures AllDistinct(ng.bridges)
    ensures done <= 2 && (err.None? <==> done == 2)
    ensures bridge !in old(ng.bridges) ==> err.Some? && done == 0 && ng.bridges == old(ng.bridges)
    ensures bridge in old(ng.bridges) ==>
              ng.bridges == old(ng.bridges)[bridge := Added(old(ng.bridges)[bridge], member, done)]
    ensures done > 0 ==> NgName(member) in nodes
    ensures ng.reliable && bridge in old(ng.bridges) ==> done == Doable(old(ng.bridges), nodes, member)
  {
    err := NgConnectNext(ng, nodes, bridge, NgName(member), "lower");
    if err.Some? {
      return err, 0;
    }
    ghost var once := ng.bridges;
    UpperStaysFree(old(ng.bridges), bridge, NgName(member));
    err := NgConnectNext(ng, nodes, bridge, NgName(member), "upper");
    if err.Some? {
      return err, 1;
    }
    return None, 2;
  }

  lemma UpperStaysFree(bridges: map<string, seq<Peer>>, bridge: string, name: string)
    requires bridge in bridges
    ensures HookFree(bridges[bridge := Connected(bridges[bridge], name, "lower")], name, "upper") <==>
            HookFree(bridges, name, "upper")
  {
    var after := bridges[bridge := Connected(bridges[bridge], name, "lower")];
    if HookFree(after, name, "upper") {
      forall b, p | b in bridges && p in bridges[b]
        ensures p.peerName == name ==> p.peerHook != "upper"
      {
        assert p in after[b];
      }
    }
  }

  /** One of the two connects, on the next free link. */
  method NgConnectNext(ng: Netgraph, nodes: set<string>, bridge: string, name: string, peerHook: string)
    returns (err: Option<Error>)
    requires AllDistinct(ng.bridges)
    modifies ng`bridges
    ensures AllDistinct(ng.bridges)
    ensures err.Some? ==> ng.bridges == old(ng.bridges)
    ensures err.None? ==> bridge in old(ng.bridges) && name in nodes &&
                          ng.bridges == old(ng.bridges)[bridge := Connected(old(ng.bridges)[bridge], name, peerHook)]
    ensures ng.reliable && bridge in old(ng.bridges) ==>
              (err.None? <==> name in nodes && HookFree(old(ng.bridges), name, peerHook))
  {
    var peers, shown := ng.Show(bridge);
    if !shown {
      return Some(CommandFailed);
    }
    var link, tries := FindNextLink(peers);
    ghost var before := ng.bridges;
    var ok := ng.Connect(nodes, bridge, link, name, peerHook);
    if !ok {
      return Some(CommandFailed);
    }
    ConnectedDistinct(peers, name, peerHook);
    DistinctWith(before, bridge, Connected(peers, name, peerHook));
    return None;
  }

  /** switchNgRemoveUplink: every hook that leads to the named peer goes. */
  method NgRemoveUplink(ng: Netgraph, bridge: string, peerName: string) returns (err: Option<Error>)
    requires AllDistinct(ng.bridges)
    modifies ng`bridges
    ensures AllDistinct(ng.bridges)
    ensures ng.bridges.Keys == old(ng.bridges).Keys
    ensures forall b :: b in ng.bridges && b != bridge ==> ng.bridges[b] == old(ng.bridges)[b]
    ensures err.None? ==>
              bridge in old(ng.bridges) &&
              ng.bridges == old(ng.bridges)[bridge := WithoutPeer(old(ng.bridges)[bridge], peerName)] &&
              Sifted(old(ng.bridges)[bridge], ng.bridges[bridge], (p: Peer) => p.peerName != peerName)
    ensures forall b, p :: b in ng.bridges && p in ng.bridges[b] ==> p in old(ng.bridges)[b]
    ensures ng.reliable && bridge in old(ng.bridges) ==> err.None?
  {
    var peers, shown := ng.Show(bridge);
    if !shown {
      return Some(CommandFailed);
    }
    var ok := RemovePeers(ng, bridge, peers, peerName);
    RemainingEnds(peers, peerName);
    WithoutPeerIs(peers, peerName);
    return if ok then None else Some(CommandFailed);
  }

  /** The loop over the peers that were shown. */
  method RemovePeers(ng: Netgraph, bridge: string, peers: seq<Peer>, peerName: string) returns (ok: bool)
    requires AllDistinct(ng.bridges) && bridge in ng.bridges && ng.bridges[bridge] == peers
    modifies ng`bridges
    ensures Reduced(old(ng.bridges), ng.bridges, bridge)
    ensures ok ==> ng.bridges == old(ng.bridges)[bridge := Remaining(peers, |peers|, peerName)]
    ensures ng.reliable ==> ok
  {
    RemainingEnds(peers, peerName);
    ghost var before, now := ng.bridges, peers;
    for i := 0 to |peers|
      invariant now == Remaining(peers, i, peerName) && DistinctHooks(now)
      invariant ng.bridges == before[bridge := now]
    {
      RemainingStep(peers, i, peerName);
      RemainingHasNext(peers, i, peerName);
      if peers[i].peerName == peerName {
        ok := RemovePeer(ng, bridge, peers[i].localHook, before, now);
        if !ok {
          RemainingReduced(before, bridge, i, peerName);
          return;
        }
        now := WithoutHook(now, peers[i].localHook);
      }
    }
    RemainingReduced(before, bridge, |peers|, peerName);
    return true;
  }

  /** Hooks have only gone, and only from this bridge. */
  ghost predicate Reduced(before: map<string, seq<Peer>>, after: map<string, seq<Peer>>, bridge: string) {
    && AllDistinct(after) && after.Keys == before.Keys
    && (forall b :: b in after && b != bridge ==> after[b] == before[b])
    && (forall b, p :: b in after && p in after[b] ==> p in before[b])
  }

  lemma RemainingReduced(before: map<string, seq<Peer>>, bridge: string, i: nat, name: string)
    requires AllDistinct(before) && bridge in before && i <= |before[bridge]|
    ensures Reduced(before, before[bridge := Remaining(before[bridge], i, name)], bridge)
  {
    RemainingDistinct(before, bridge, i, name);
    RemainingWithin(before[bridge], i, name);
  }

  /** `rmhook` on a bridge that has so far changed from `before` to `now`. */
  method RemovePeer(ng: Netgraph, bridge: string, hook: string,
                    ghost before: map<string, seq<Peer>>, ghost now: seq<Peer>) returns (ok: bool)
    requires bridge in ng.bridges && ng.bridges == before[bridge := now]
    modifies ng`bridges
    ensures ng.bridges == before[bridge := if ok then WithoutHook(now, hook) else now]
    ensures ng.reliable && hook in Hooks(now) ==> ok
  {
    ok := ng.RemoveHook(bridge, hook);
  }

  lemma {:induction false} WithoutPeerKeeps(peers: seq<Peer>, name: string)
    ensures forall p :: p in WithoutPeer(peers, name) <==> p in peers && p.peerName != name
  {
    if peers != [] {
      WithoutPeerKeeps(peers[1..], name);
    }
  }

  lemma {:induction false} WithoutPeerDistinct(peers: seq<Peer>, name: string)
    requires DistinctHooks(peers)
    ensures DistinctHooks(WithoutPeer(peers, name))
  {
    if peers != [] {
      WithoutPeerDistinct(peers[1..], name);
      WithoutPeerKeeps(peers[1..], name);
      var rest := WithoutPeer(peers[1..], name);
      forall i | 0 <= i < |rest|
        ensures rest[i].localHook != peers[0].localHook
      {
        assert rest[i] in peers[1..];
      }
    }
  }

  lemma RemainingWithin(peers: seq<Peer>, i: nat, name: string)
    requires i <= |peers|
    ensures forall p :: p in Remaining(peers, i, name) ==> p in peers
  {
    WithoutPeerKeeps(peers[..i], name);
  }

  lemma RemainingHasNext(peers: seq<Peer>, i: nat, name: string)
    requires i < |peers|
    ensures peers[i].localHook in Hooks(Remaining(peers, i, name))
  {
    assert peers[i..][0] == peers[i];
  }

  lemma {:induction false} RemainingDistinct(bridges: map<string, seq<Peer>>, bridge: string, i: nat, name: string)
    requires AllDistinct(bridges) && bridge in bridges && i <= |bridges[bridge]|
    ensures DistinctHooks(Remaining(bridges[bridge], i, name))
    ensures AllDistinct(bridges[bridge := Remaining(bridges[bridge], i, name)])
  {
    var peers := bridges[bridge];
    RemainingEnds(peers, name);
    if i > 0 {
      RemainingDistinct(bridges, bridge, i - 1, name);
      RemainingStep(peers, i - 1, name);
    }
    DistinctWith(bridges, bridge, Remaining(peers, i, name));
  }

  lemma DistinctWith(bridges: map<string, seq<Peer>>, bridge: string, peers: seq<Peer>)
    requires AllDistinct(bridges) && DistinctHooks(peers)
    ensures AllDistinct(bridges[bridge := peers])
  {
  }

  lemma ConnectedDistinct(peers: seq<Peer>, name: string, peerHook: string)
    requires DistinctHooks(peers)
    ensures DistinctHooks(Connected(peers, name, peerHook))
  {
    assert forall i :: 0 <= i < |peers| ==> peers[i].localHook in Hooks(peers);
  }

  /** The hook table when the first i of the peers shown have been gone through. */
  function Remaining(peers: seq<Peer>, i: nat, name: string): seq<Peer>
    requires i <= |peers|
  {
    WithoutPeer(peers[..i], name) + peers[i..]
  }

  lemma RemainingEnds(peers: seq<Peer>, name: string)
    ensures Remaining(peers, 0, name) == peers && Remaining(peers, |peers|, name) == WithoutPeer(peers, name)
  {
    assert peers[..|peers|] == peers;
  }

  lemma RemainingStep(peers: seq<Peer>, i: nat, name: string)
    requires i < |peers| && DistinctHooks(Remaining(peers, i, name))
    ensures DistinctHooks(Remaining(peers, i + 1, name))
    ensures Remaining(peers, i + 1, name) ==
            if peers[i].peerName == name then WithoutHook(Remaining(peers, i, name), peers[i].localHook)
            else Remaining(peers, i, name)
  {
    var front, back := WithoutPeer(peers[..i], name), peers[i + 1..];
    assert peers[..i + 1] == peers[..i] + [peers[i]];
    WithoutPeerAppend(peers[..i], peers[i], name);
    assert Remaining(peers, i, name) == front + [peers[i]] + back;
    if peers[i].peerName == name {
      RemovedAt(front, peers[i], back);
      assert Remaining(peers, i + 1, name) == front + back;
    } else {
      assert Remaining(peers, i + 1, name) == front + [peers[i]] + back;
    }
  }

  lemma {:induction false} WithoutPeerAppend(peers: seq<Peer>, last: Peer, name: string)
    ensures WithoutPeer(peers + [last], name) ==
            WithoutPeer(peers, name) + if last.peerName == name then [] else [last]
  {
    if peers == [] {
      assert (peers + [last])[1..] == [];
    } else {
      assert (peers + [last])[1..] == peers[1..] + [last];
      WithoutPeerAppend(peers[1..], last, name);
    }
  }

  lemma {:induction false} WithoutMissingHook(peers: seq<Peer>, hook: string)
    requires hook !in Hooks(peers)
    ensures WithoutHook(peers, hook) == peers
  {
    if peers != [] {
      assert peers[0].localHook in Hooks(peers);
      assert Hooks(peers[1..]) <= Hooks(peers);
      WithoutMissingHook(peers[1..], hook);
      assert peers == [peers[0]] + peers[1..];
    }
  }

  /** With distinct hooks, removing one hook removes exactly one peer. */
  lemma {:induction false} RemovedAt(front: seq<Peer>, peer: Peer, back: seq<Peer>)
    requires DistinctHooks(front + [peer] + back)
    ensures WithoutHook(front + [peer] + back, peer.localHook) == front + back
    ensures DistinctHooks(front + back)
  {
    DistinctWithout(front, peer, back);
    var whole := front + [peer] + back;
    if front == [] {
      assert whole[0] == peer && whole[1..] == back;
      forall p | p in back
        ensures p.localHook != peer.localHook
      {
        var j :| 0 <= j < |back| && back[j] == p;
        assert whole[j + 1] == p;
      }
      WithoutMissingHook(back, peer.localHook);
    } else {
      assert whole[1..] == front[1..] + [peer] + back;
      assert whole[0].localHook != whole[|front|].localHook;
      RemovedAt(front[1..], peer, back);
      assert [front[0]] + (front[1..] + back) == front + back;
    }
  }

  lemma DistinctWithout(front: seq<Peer>, peer: Peer, back: seq<Peer>)
    requires DistinctHooks(front + [peer] + back)
    ensures DistinctHooks(front + back)
  {
    var whole := front + [peer] + back;
    assert forall i :: 0 <= i < |front + back| ==> (front + back)[i] == whole[if i < |front| then i else i + 1];
  }

  lemma {:induction false} WithoutAbsentPeer(peers: seq<Peer>, name: string)
    requires forall p :: p in peers ==> p.peerName != name
    ensures WithoutPeer(peers, name) == peers
  {
    if peers != [] {
      WithoutAbsentPeer(peers[1..], name);
      assert peers == [peers[0]] + peers[1..];
    }
  }

  /** Once a member has been added, the check for it on other bridges sees it exactly when
      its name has no dot. */
  lemma SeenExactlyWithoutDot(bridges: map<string, seq<Peer>>, bridge: string, member: string, done: nat)
    requires bridge in bridges && 1 <= done <= 2 && NotPeer(bridges, member)
    ensures NotPeer(bridges[bridge := Added(bridges[bridge], member, done)], member) <==> '.' in member
  {
    NgNameExactlyWithoutDot(member);
    var peers, name := bridges[bridge], NgName(member);
    var grown: seq<Peer> := Added(peers, member, done);
    assert grown[|peers|].peerName == name && grown[|peers|] in grown;
    assert forall p :: p in grown ==> p in peers || p.peerName == name;
    assert bridges[bridge := grown][bridge] == grown;
  }

  /** Adding a member the bridge does not have and removing it again, by the name it was
      added under, gives back the hook table; it does so exactly when that name has no dot,
      because only the addition rewrites it. A half-failed addition is undone too. */
  lemma AddThenRemove(peers: seq<Peer>, member: string, done: nat)
    requires 1 <= done <= 2
    requires forall p :: p in peers ==> p.peerName != member
    ensures WithoutPeer(Added(peers, member, done), member) == peers <==> '.' !in member
  {
    NgNameExactlyWithoutDot(member);
    var name := NgName(member);
    var one := Connected(peers, name, "lower");
    WithoutPeerAppend(peers, Peer(NextLink(peers), name, "lower"), member);
    WithoutPeerAppend(one, Peer(NextLink(one), name, "upper"), member);
    WithoutAbsentPeer(peers, member);
  }
}

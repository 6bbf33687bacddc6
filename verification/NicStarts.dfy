/** What a start connects: after it each NIC with a new device is in its switch, behind an
    epair of its own if it is rate-limited, and nothing that comes later takes it out. */
module NicStarts {
  import opened FreeName
  import opened HostState
  import opened NicWiring
  import opened NicRoundTrip

  /** The NIC, as its record says, is a member of the bridge: itself, or the far end of its
      epair, which has a pipe on each end and its near end on a dummy bridge with the device. */
  predicate OnSwitch(h: Host, bridge: string, nic: Nic) {
    && nic.netDev in h.ifaces && bridge in h.bridges
    && if !nic.rateLimit then nic.netDev in h.bridges[bridge]
       else
         && nic.instEpair + "b" in h.bridges[bridge]
         && nic.instEpair in h.epairs && nic.instEpair + "a" in h.ifaces && nic.instEpair + "b" in h.ifaces
         && nic.instEpair + "a" + "_pipe" in h.pipes && nic.instEpair + "b" + "_pipe" in h.pipes
         && nic.instBridge in h.bridges && {nic.instEpair + "a", nic.netDev} <= h.bridges[nic.instBridge]
  }

  /** Nothing else is on its dummy bridge. */
  predicate AloneOnDummy(h: Host, nic: Nic) {
    nic.rateLimit ==>
      nic.instBridge in h.bridges && h.bridges[nic.instBridge] == {nic.instEpair + "a", nic.netDev}
  }

  /** There are dummy names for `n` NICs, and no other interface has the name of a dummy. */
  ghost predicate Room(h: Host, n: nat) {
    && |h.epairs| + n <= HIGHEST && |h.bridges.Keys| + n <= HIGHEST
    && OnlyBridgesNumbered(h)
  }

  lemma SomeNameIsFree(prefix: string, taken: set<string>)
    requires |taken| < HIGHEST
    ensures DummyName(prefix, taken) != ""
  {
    if DummyName(prefix, taken) == "" {
      var all := taken + {Numbered(prefix, 0)};
      forall m: nat | m < HIGHEST + 1
        ensures Numbered(prefix, m) in all
      {
      }
      Pigeonhole(prefix, all, HIGHEST + 1);
    }
  }

  lemma RoomGivesNames(h: Host)
    requires WellFormed(h) && Room(h, 1)
    ensures DummyName("epair", h.epairs) != "" && EpairPossible(h, DummyName("epair", h.epairs))
    ensures DummyName("bridge", h.bridges.Keys) != "" && BridgePossible(h, DummyName("bridge", h.bridges.Keys))
  {
    SomeNameIsFree("epair", h.epairs);
    SomeNameIsFree("bridge", h.bridges.Keys);
    var e, b := DummyName("epair", h.epairs), DummyName("bridge", h.bridges.Keys);
    var n: nat :| 1 <= n <= HIGHEST && e == Numbered("epair", n);
    assert WholeEpair(h, e);
    var m: nat :| 1 <= m <= HIGHEST && b == Numbered("bridge", m);
    NamesApart(Nic("", 0, "", Netgraph, "", "", false, "", ""), m);
  }

  /** Nothing has gone, and no bridge has changed. */
  predicate Kept(h: Host, end: Host) {
    && h.ifaces <= end.ifaces && h.epairs <= end.epairs && h.pipes <= end.pipes
    && forall b :: b in h.bridges ==> b in end.bridges && end.bridges[b] == h.bridges[b]
  }

  /** Nothing has gone, and bridges other than `name` have the members they had. */
  predicate Grew(h: Host, end: Host, name: string) {
    && h.ifaces <= end.ifaces && h.epairs <= end.epairs && h.pipes <= end.pipes
    && forall b :: b in h.bridges ==>
         b in end.bridges && h.bridges[b] <= end.bridges[b] && (b != name ==> end.bridges[b] == h.bridges[b])
  }

  /** Interfaces that have the name of a dummy bridge are bridges. */
  ghost predicate OnlyBridgesNumbered(h: Host) {
    forall m: nat :: Numbered("bridge", m) in h.ifaces ==> Numbered("bridge", m) in h.bridges
  }

  predicate IsDummyLike(x: string) {
    x != "" && x[0] in {'e', 'b'} && ',' !in x
  }

  /** A turn takes one name of each kind at most; what is new is the device or has the name of
      an epair end or a dummy bridge. */
  ghost predicate TakesOne(h: Host, end: Host, dev: string) {
    && |end.epairs| <= |h.epairs| + 1 && |end.bridges.Keys| <= |h.bridges.Keys| + 1
    && (forall x :: x in end.ifaces && x !in h.ifaces ==> (dev != "" && x == dev) || IsDummyLike(x))
    && (OnlyBridgesNumbered(h) ==> OnlyBridgesNumbered(end))
  }

  // One NIC.

  lemma DummyGrows(h: Host, nic: Nic, epair: string)
    ensures var w, dummy := DummyBridged(h, nic, epair), DummyName("bridge", h.bridges.Keys);
            && Kept(h, w.host) && w.host.pipes == h.pipes && w.host.epairs == h.epairs
            && if BridgePossible(h, dummy)
               then w.host.ifaces == h.ifaces + {dummy} && w.host.bridges.Keys == h.bridges.Keys + {dummy}
               else w.host == h
  {
  }

  lemma EpairGrows(h: Host, nic: Nic)
    ensures var w, e := EpairRecorded(h, nic), DummyName("epair", h.epairs);
            && Kept(h, w.host) && w.host.bridges == h.bridges
            && if EpairPossible(h, e) then w.host.ifaces == h.ifaces + EndsOf(e) && w.host.epairs == h.epairs + {e}
               else w.host == h
  {
  }

  lemma DummyInitial(prefix: string, taken: set<string>)
    requires prefix in {"epair", "bridge"} && DummyName(prefix, taken) != ""
    ensures DummyName(prefix, taken)[0] == prefix[0] && IsDummyLike(DummyName(prefix, taken))
    ensures forall x :: x in EndsOf(DummyName(prefix, taken)) ==> x[0] == prefix[0] && IsDummyLike(x)
  {
    var n: nat :| 1 <= n <= HIGHEST && DummyName(prefix, taken) == Numbered(prefix, n);
    NoCommaInNumber(prefix, n);
  }

  lemma OneMore(before: set<string>, after: set<string>, x: string)
    requires after <= before + {x}
    ensures |after| <= |before| + 1
  {
    var all := before + {x};
    assert after + (all - after) == all;
    assert |after| + |all - after| == |all|;
  }

  lemma RateLimitedGrows(h: Host, nic: Nic)
    ensures var w := RateLimited(h, nic);
            Kept(h, w.host) && TakesOne(h, w.host, "")
  {
    var e, r := DummyName("epair", h.epairs), EpairRecorded(h, nic);
    EpairGrows(h, nic);
    if EpairPossible(h, e) {
      DummyInitial("epair", h.epairs);
      var dummy := DummyName("bridge", r.host.bridges.Keys);
      if r.ok {
        DummyGrows(r.host, r.nic, r.nic.instEpair);
        if BridgePossible(r.host, dummy) {
          DummyInitial("bridge", r.host.bridges.Keys);
        }
      }
      LimitTakesOne(h, r.host, RateLimited(h, nic).host, e, dummy);
    }
  }

  lemma LimitTakesOne(h: Host, mid: Host, end: Host, e: string, dummy: string)
    requires mid.ifaces == h.ifaces + EndsOf(e) && mid.epairs == h.epairs + {e} && mid.bridges == h.bridges
    requires forall x :: x in EndsOf(e) ==> IsDummyLike(x) && x[0] == 'e'
    requires end == mid || (IsDummyLike(dummy) && end.ifaces == mid.ifaces + {dummy} &&
                            end.bridges.Keys == mid.bridges.Keys + {dummy} && end.epairs == mid.epairs)
    ensures TakesOne(h, end, "")
  {
    OneMore(h.epairs, end.epairs, e);
    OneMore(h.bridges.Keys, end.bridges.Keys, dummy);
    if OnlyBridgesNumbered(h) {
      forall m: nat | Numbered("bridge", m) in end.ifaces
        ensures Numbered("bridge", m) in end.bridges
      {
        assert Numbered("bridge", m)[0] == 'b';
      }
    }
  }

  /** The name of the IF switch a NIC is to be on, if there is one. */
  function SwitchNameOf(switches: map<string, Switch>, nic: Nic): string {
    if nic.switchId in switches && switches[nic.switchId].kind == IfBridge then switches[nic.switchId].name else ""
  }

  lemma JoinGrows(h: Host, nic: Nic, bridge: string, member: string)
    ensures var w := Joined(h, nic, bridge, member);
            && Grew(h, w.host, bridge)
            && w.host.ifaces == h.ifaces && w.host.epairs == h.epairs && w.host.bridges.Keys == h.bridges.Keys
  {
  }

  lemma ConnectGrows(h: Host, s: Switch, nic: Nic)
    ensures var w := Connected(h, s, nic);
            Grew(h, w.host, s.name) && TakesOne(h, w.host, "")
  {
    if TypeMatches(s, nic) && s.kind == IfBridge {
      if nic.rateLimit {
        LimitedGrows(h, nic, s.name);
      } else {
        JoinGrows(h, nic, s.name, nic.netDev);
        JoinedTakesNoMore(h, h, Connected(h, s, nic).host);
      }
    }
  }

  lemma LimitedGrows(h: Host, nic: Nic, bridge: string)
    ensures var limited := RateLimited(h, nic);
            var end := if limited.ok then Joined(limited.host, limited.nic, bridge, limited.nic.instEpair + "b").host
                       else limited.host;
            Grew(h, end, bridge) && TakesOne(h, end, "")
  {
    var limited := RateLimited(h, nic);
    RateLimitedGrows(h, nic);
    GrewAnyway(h, limited.host, bridge);
    if limited.ok {
      var w := Joined(limited.host, limited.nic, bridge, limited.nic.instEpair + "b");
      JoinGrows(limited.host, limited.nic, bridge, limited.nic.instEpair + "b");
      GrewTwice(h, limited.host, w.host, bridge);
      JoinedTakesNoMore(h, limited.host, w.host);
    }
  }

  lemma GrewAnyway(h: Host, end: Host, bridge: string)
    requires Kept(h, end)
    ensures Grew(h, end, bridge)
  {
  }

  lemma GrewTwice(h: Host, mid: Host, end: Host, bridge: string)
    requires Grew(h, mid, bridge) && Grew(mid, end, bridge)
    ensures Grew(h, end, bridge)
  {
    forall b | b in h.bridges
      ensures b in end.bridges && h.bridges[b] <= end.bridges[b] && (b != bridge ==> end.bridges[b] == h.bridges[b])
    {
      assert b in mid.bridges;
    }
  }

  lemma JoinedTakesNoMore(h: Host, mid: Host, end: Host)
    requires TakesOne(h, mid, "")
    requires end.ifaces == mid.ifaces && end.epairs == mid.epairs && end.bridges.Keys == mid.bridges.Keys
    ensures TakesOne(h, end, "")
  {
  }

  /** A turn of the loop takes nothing away, and touches no bridge but the NIC's switch. */
  lemma StartGrows(h: Host, switches: map<string, Switch>, nic: Nic)
    requires Written(nic)
    ensures var w := Started(h, switches, nic);
            Grew(h, w.host, SwitchNameOf(switches, nic)) && TakesOne(h, w.host, nic.netDev)
  {
    if nic.devType == Netgraph || (nic.netDev != "" && nic.netDev !in h.ifaces) {
      var h1 := if nic.devType == Netgraph then h else AddIface(h, nic.netDev);
      GrewAnyway(h, h1, SwitchNameOf(switches, nic));
      if nic.switchId != "" && nic.switchId in switches {
        ConnectGrows(h1, switches[nic.switchId], nic);
        GrewTwice(h, h1, Started(h, switches, nic).host, SwitchNameOf(switches, nic));
      }
      BuiltTakesOne(h, h1, Started(h, switches, nic).host, nic);
    }
  }

  lemma BuiltTakesOne(h: Host, built: Host, end: Host, nic: Nic)
    requires Written(nic) && built == (if nic.devType == Netgraph then h else AddIface(h, nic.netDev))
    requires nic.devType != Netgraph ==> nic.netDev != ""
    requires end == built || TakesOne(built, end, "")
    ensures TakesOne(h, end, nic.netDev)
  {
    forall m: nat
      ensures Numbered("bridge", m) != nic.netDev
    {
      NameIsNoDevice(nic, m);
    }
  }

  lemma NameIsNoDevice(nic: Nic, m: nat)
    requires Written(nic)
    ensures Numbered("bridge", m) != nic.netDev
  {
    NoCommaInNumber("bridge", m);
    assert Numbered("bridge", m)[0] == 'b';
  }

  /** A new device on an IF switch of its type whose bridge is there. */
  predicate Connectable(h: Host, switches: map<string, Switch>, nic: Nic) {
    && nic.devType in {Tap, Vmnet} && nic.netDev != "" && nic.netDev !in h.ifaces
    && nic.switchId != "" && nic.switchId in switches
    && switches[nic.switchId].kind == IfBridge && switches[nic.switchId].name in h.bridges
  }

  /** One start. */
  lemma StartPlugs(h: Host, switches: map<string, Switch>, nic: Nic)
    requires WellFormed(h) && Saved(nic) && Connectable(h, switches, nic)
    requires nic.rateLimit ==> Room(h, 1)
    ensures var w := Started(h, switches, nic);
            && w.ok && SameButInst(nic, w.nic)
            && OnSwitch(w.host, switches[nic.switchId].name, w.nic) && AloneOnDummy(w.host, w.nic)
            && (nic.rateLimit ==> w.nic.instBridge != "" && w.nic.instBridge !in h.bridges)
  {
    var h1 := AddIface(h, nic.netDev);
    if nic.rateLimit {
      NamesApart(nic, 0);
      IfaceKeepsWellFormed(h, nic.netDev);
      RoomAfterDevice(h, nic);
      LimitPlugs(h1, nic, switches[nic.switchId].name);
    }
  }

  lemma RoomAfterDevice(h: Host, nic: Nic)
    requires Room(h, 1) && Written(nic)
    ensures Room(AddIface(h, nic.netDev), 1)
  {
    forall m: nat | Numbered("bridge", m) in AddIface(h, nic.netDev).ifaces
      ensures Numbered("bridge", m) in h.bridges
    {
      NameIsNoDevice(nic, m);
    }
  }

  /** Epair, pipes, dummy bridge, and the far end on the switch. */
  lemma LimitPlugs(h: Host, nic: Nic, bridge: string)
    requires WellFormed(h) && Saved(nic) && Room(h, 1) && nic.netDev in h.ifaces && bridge in h.bridges
    requires nic.rateLimit
    ensures var limited := RateLimited(h, nic);
            var w := Joined(limited.host, limited.nic, bridge, limited.nic.instEpair + "b");
            && limited.ok && w.ok && SameButInst(nic, w.nic)
            && OnSwitch(w.host, bridge, w.nic) && AloneOnDummy(w.host, w.nic)
            && w.nic.instBridge != "" && w.nic.instBridge !in h.bridges
  {
    RoomGivesNames(h);
    var e := DummyName("epair", h.epairs);
    EpairLaid(h, e);
    var h1, recorded := PipesLaid(AddEpair(h, e), e).0, nic.(instEpair := e);
    assert EpairRecorded(h, nic) == Wired(h1, recorded, true);
    var dummy := DummyName("bridge", h.bridges.Keys);
    DummyInitial("epair", h.epairs);
    DummyInitial("bridge", h.bridges.Keys);
    assert dummy !in EndsOf(e);
    DummyMade(h1, recorded, e);
    DummyOnSwitch(h1, recorded, e, dummy, bridge);
  }

  lemma DummyOnSwitch(h: Host, nic: Nic, e: string, dummy: string, bridge: string)
    requires dummy !in h.ifaces && bridge in h.bridges && h.bridges.Keys <= h.ifaces && nic.rateLimit
    requires nic.instEpair == e && e in h.epairs && EndsOf(e) <= h.ifaces && PipesOf(e) <= h.pipes
    requires nic.netDev in h.ifaces
    ensures var built := AddMember(AddMember(AddBridge(h, dummy), dummy, e + "a"), dummy, nic.netDev);
            var w := Joined(built, nic.(instBridge := dummy), bridge, e + "b");
            w.ok && OnSwitch(w.host, bridge, w.nic) && AloneOnDummy(w.host, w.nic)
  {
    assert e + "a" in EndsOf(e) && e + "b" in EndsOf(e);
    assert e + "a" + "_pipe" in PipesOf(e) && e + "b" + "_pipe" in PipesOf(e);
    var built := AddMember(AddMember(AddBridge(h, dummy), dummy, e + "a"), dummy, nic.netDev);
    assert built.bridges[dummy] == {e + "a", nic.netDev};
    assert dummy != bridge;
  }

  /** What ConnectNic's success means, whatever there was room for. */
  lemma ConnectedPlugs(h: Host, s: Switch, nic: Nic)
    requires s.kind == IfBridge && nic.netDev in h.ifaces && Connected(h, s, nic).ok
    ensures OnSwitch(Connected(h, s, nic).host, s.name, Connected(h, s, nic).nic)
  {
    if nic.rateLimit {
      var r := EpairRecorded(h, nic);
      var e := r.nic.instEpair;
      assert e + "a" in EndsOf(e) && e + "b" in EndsOf(e);
      DummyBuiltOk(r.host, r.nic, e);
    }
  }

  lemma DummyBuiltOk(h: Host, nic: Nic, epair: string)
    requires DummyBridged(h, nic, epair).ok
    ensures var w := DummyBridged(h, nic, epair);
            && Kept(h, w.host) && w.nic == nic.(instBridge := w.nic.instBridge)
            && w.nic.instBridge in w.host.bridges
            && w.host.bridges[w.nic.instBridge] == {epair + "a", nic.netDev}
  {
    DummyGrows(h, nic, epair);
  }

  // Lists.

  /** Later turns keep what is there. */
  lemma {:induction false} StartAllGrows(h: Host, switches: map<string, Switch>, nics: seq<Nic>, bridge: string)
    requires forall n :: n in nics ==> Written(n)
    requires bridge in h.bridges
    ensures var end := StartedAll(h, switches, nics).0;
            && h.ifaces <= end.ifaces && h.epairs <= end.epairs && h.pipes <= end.pipes
            && bridge in end.bridges && h.bridges[bridge] <= end.bridges[bridge]
            && ((forall n :: n in nics ==> SwitchNameOf(switches, n) != bridge) ==>
                  end.bridges[bridge] == h.bridges[bridge])
    decreases |nics|
  {
    if nics != [] {
      assert nics[0] in nics;
      StartGrows(h, switches, nics[0]);
      StartAllGrows(Started(h, switches, nics[0]).host, switches, nics[1..], bridge);
    }
  }

  lemma RestKeepsOnSwitch(h: Host, switches: map<string, Switch>, rest: seq<Nic>, bridge: string, nic: Nic)
    requires (forall n :: n in rest ==> Written(n)) && OnSwitch(h, bridge, nic)
    ensures OnSwitch(StartedAll(h, switches, rest).0, bridge, nic)
    ensures AloneOnDummy(h, nic) && (forall n :: n in rest ==> SwitchNameOf(switches, n) != nic.instBridge) ==>
              AloneOnDummy(StartedAll(h, switches, rest).0, nic)
  {
    StartAllGrows(h, switches, rest, bridge);
    if nic.rateLimit {
      StartAllGrows(h, switches, rest, nic.instBridge);
    }
  }

  /** NIC `i` can be connected, and no other of the list is to have its device. */
  predicate ConnectableAt(h: Host, switches: map<string, Switch>, nics: seq<Nic>, i: nat)
    requires i < |nics|
  {
    Connectable(h, switches, nics[i]) && forall j :: 0 <= j < |nics| && j != i ==> nics[j].netDev != nics[i].netDev
  }

  /** The IF switches the NICs name are up. */
  predicate SwitchesUp(h: Host, switches: map<string, Switch>, nics: seq<Nic>) {
    forall n :: n in nics && n.switchId in switches && switches[n.switchId].kind == IfBridge ==>
      switches[n.switchId].name in h.bridges
  }

  lemma StillConnectable(h: Host, switches: map<string, Switch>, nics: seq<Nic>, i: nat)
    requires WellFormed(h) && (forall n :: n in nics ==> Saved(n)) && 0 < i < |nics|
    requires ConnectableAt(h, switches, nics, i) && (nics[i].rateLimit ==> Room(h, |nics|))
    ensures var h1 := Started(h, switches, nics[0]).host;
            && WellFormed(h1) && ConnectableAt(h1, switches, nics[1..], i - 1)
            && (nics[i].rateLimit ==> Room(h1, |nics| - 1))
            && (SwitchesUp(h, switches, nics) ==> SwitchesUp(h1, switches, nics[1..]))
  {
    assert nics[0] in nics && nics[i] in nics;
    StartGrows(h, switches, nics[0]);
    StartAccounted(h, switches, nics[0]);
    assert nics[1..][i - 1] == nics[i];
    DeviceIsNoDummy(nics[i]);
  }

  lemma DeviceIsNoDummy(nic: Nic)
    requires Written(nic)
    ensures !IsDummyLike(nic.netDev)
  {
  }

  /** A start of a list connects every NIC of it that can be connected, and its record says
      where. */
  lemma {:induction false} StartAllPlugs(h: Host, switches: map<string, Switch>, nics: seq<Nic>, i: nat)
    requires WellFormed(h) && (forall n :: n in nics ==> Saved(n)) && i < |nics|
    requires ConnectableAt(h, switches, nics, i) && (nics[i].rateLimit ==> Room(h, |nics|))
    ensures var (end, started) := StartedAll(h, switches, nics);
            && |started| == |nics| && SameButInst(nics[i], started[i])
            && OnSwitch(end, switches[nics[i].switchId].name, started[i])
            && (SwitchesUp(h, switches, nics) ==> AloneOnDummy(end, started[i]))
    decreases |nics|
  {
    StartAllAccounted(h, switches, nics);
    assert nics[0] in nics && nics[i] in nics;
    var w := Started(h, switches, nics[0]);
    if i == 0 {
      StartPlugs(h, switches, nics[0]);
      FirstStays(h, switches, nics, w);
    } else {
      StillConnectable(h, switches, nics, i);
      StartAllPlugs(w.host, switches, nics[1..], i - 1);
      assert nics[1..][i - 1] == nics[i];
    }
  }

  lemma FirstStays(h: Host, switches: map<string, Switch>, nics: seq<Nic>, w: Wired)
    requires nics != [] && (forall n :: n in nics ==> Saved(n)) && nics[0].switchId in switches
    requires w == Started(h, switches, nics[0]) && SameButInst(nics[0], w.nic)
    requires OnSwitch(w.host, switches[nics[0].switchId].name, w.nic) && AloneOnDummy(w.host, w.nic)
    requires nics[0].rateLimit ==> w.nic.instBridge != "" && w.nic.instBridge !in h.bridges
    ensures var end := StartedAll(h, switches, nics).0;
            && OnSwitch(end, switches[nics[0].switchId].name, w.nic)
            && (SwitchesUp(h, switches, nics) ==> AloneOnDummy(end, w.nic))
  {
    assert forall n :: n in nics[1..] ==> n in nics;
    assert w.nic.rateLimit == nics[0].rateLimit by {
      assert w.nic.(instBridge := "", instEpair := "").rateLimit ==
        nics[0].(instBridge := "", instEpair := "").rateLimit;
    }
    RestKeepsOnSwitch(w.host, switches, nics[1..], switches[nics[0].switchId].name, w.nic);
    if SwitchesUp(h, switches, nics) && nics[0].rateLimit {
      forall n | n in nics[1..]
        ensures SwitchNameOf(switches, n) != w.nic.instBridge
      {
      }
    }
  }

  /** The same, of the host and the rows there are afterwards. */
  ghost predicate StartConnects(h: Host, switches: map<string, Switch>, nics: seq<Nic>, end: Host,
                                rows: map<string, Nic>) {
    WellFormed(h) && (forall n :: n in nics ==> Saved(n)) ==>
      forall i :: 0 <= i < |nics| && ConnectableAt(h, switches, nics, i) && (nics[i].rateLimit ==> Room(h, |nics|)) ==>
        && nics[i].id in rows && SameButInst(nics[i], rows[nics[i].id])
        && OnSwitch(end, switches[nics[i].switchId].name, rows[nics[i].id])
        && (SwitchesUp(h, switches, nics) ==> AloneOnDummy(end, rows[nics[i].id]))
  }

  lemma StartDoesConnect(h: Host, switches: map<string, Switch>, nics: seq<Nic>, rows: map<string, Nic>)
    requires forall n :: n in StartedAll(h, switches, nics).1 ==> n.id in rows && rows[n.id] == n
    ensures StartConnects(h, switches, nics, StartedAll(h, switches, nics).0, rows)
  {
    if WellFormed(h) && forall n :: n in nics ==> Saved(n) {
      forall i | 0 <= i < |nics| && ConnectableAt(h, switches, nics, i) && (nics[i].rateLimit ==> Room(h, |nics|))
        ensures nics[i].id in rows && SameButInst(nics[i], rows[nics[i].id])
        ensures OnSwitch(StartedAll(h, switches, nics).0, switches[nics[i].switchId].name, rows[nics[i].id])
        ensures SwitchesUp(h, switches, nics) ==> AloneOnDummy(StartedAll(h, switches, nics).0, rows[nics[i].id])
      {
        StartAllPlugs(h, switches, nics, i);
        var started := StartedAll(h, switches, nics).1;
        assert started[i] in started;
        SameButInstSameId(nics[i], started[i]);
      }
    }
  }

  lemma SameButInstSameId(nic: Nic, after: Nic)
    requires SameButInst(nic, after)
    ensures nic.id == after.id
  {
    assert nic.(instBridge := "", instEpair := "").id == after.(instBridge := "", instEpair := "").id;
  }
}

/** Starting a VM's NICs and stopping them again. What a stop takes away is a function of the
    saved records; what a start adds is always among it, even when the dummy names run out
    half-way, a switch is not on the host or the records are stale. */
module NicRoundTrip {
  import opened Decimal
  import opened FreeName
  import opened HostState
  import opened NicWiring

  /** The device its record names, built or not. */
  function DeviceOf(nic: Nic): set<string> {
    if nic.devType != Netgraph && nic.netDev != "" then {nic.netDev} else {}
  }

  /** What the inst fields name. */
  function InstGear(nic: Nic): Gear {
    Gear(
      (if nic.instBridge != "" then {nic.instBridge} else {}) +
      (if nic.instEpair != "" then EndsOf(nic.instEpair) else {}),
      if nic.instEpair != "" then {nic.instEpair} else {},
      if nic.instEpair != "" then PipesOf(nic.instEpair) else {})
  }

  /** DisconnectNic gets as far as unsetVMNicRateLimit, which it also does for a NIC that is
      not rate-limited. */
  predicate Detachable(switches: map<string, Switch>, nic: Nic) {
    && nic.switchId != "" && nic.switchId in switches
    && TypeMatches(switches[nic.switchId], nic) && switches[nic.switchId].kind == IfBridge
    && if nic.rateLimit then nic.instEpair != "" else nic.netDev != ""
  }

  /** What stopping the NIC takes away, going by its record. */
  function ClaimOf(switches: map<string, Switch>, nic: Nic): Gear {
    Both(Gear(DeviceOf(nic), {}, {}), if Detachable(switches, nic) then InstGear(nic) else NOTHING)
  }

  function Claimed(switches: map<string, Switch>, nics: seq<Nic>): Gear {
    if nics == [] then NOTHING else Both(Claimed(switches, nics[1..]), ClaimOf(switches, nics[0]))
  }

  predicate Blank(nic: Nic) {
    nic.instBridge == "" && nic.instEpair == ""
  }

  function DevPrefix(t: DevType): string {
    if t == Tap then "tap" else "vmnet"
  }

  /** The saved device is empty or something getNetArgs wrote, now or under another device
      type: a tap or vmnet name, or `node,link`. */
  predicate Written(nic: Nic) {
    nic.netDev == "" || ',' in nic.netDev || nic.netDev[0] in {'t', 'v'}
  }

  /** The inst fields are empty or something setupVMNicRateLimit wrote, for this NIC or one it
      is a clone of. */
  ghost predicate InstWritten(nic: Nic) {
    && (nic.instEpair != "" ==> IsEpairName(nic.instEpair))
    && (nic.instBridge != "" ==> exists n: nat :: nic.instBridge == Numbered("bridge", n))
  }

  ghost predicate Saved(nic: Nic) {
    Written(nic) && InstWritten(nic)
  }

  predicate SameButInst(before: Nic, after: Nic) {
    after.(instBridge := "", instEpair := "") == before.(instBridge := "", instEpair := "")
  }

  lemma NoCommaInNumber(prefix: string, n: nat)
    requires ',' !in prefix
    ensures ',' !in Numbered(prefix, n)
  {
    assert forall c :: c in Format(n) ==> IsDigit(c);
  }

  /** Neither a saved device nor a numbered bridge is an epair end. */
  lemma NamesApart(nic: Nic, bridge: nat)
    requires Written(nic)
    ensures DeviceOf(nic) != {} ==> NotEpairEnd(nic.netDev)
    ensures NotEpairEnd(Numbered("bridge", bridge)) && IsBridgeName(Numbered("bridge", bridge))
  {
    forall n: nat, x | x in EndsOf(Numbered("epair", n))
      ensures x[0] == 'e' && ',' !in x
    {
      NoCommaInNumber("epair", n);
    }
    assert Numbered("bridge", bridge)[0] == 'b';
  }

  lemma ClaimIsWhole(switches: map<string, Switch>, nic: Nic)
    requires Saved(nic)
    ensures WholeGear(ClaimOf(switches, nic))
  {
    var g := ClaimOf(switches, nic);
    var bridge: nat := if n: nat :| nic.instBridge == Numbered("bridge", n) then n else 0;
    NamesApart(nic, bridge);
    forall n: nat
      ensures WholeIn(g, Numbered("epair", n))
    {
      var e := Numbered("epair", n);
      assert e + "a" in EndsOf(e) && e + "b" in EndsOf(e);
      if e != nic.instEpair {
        EndsApart(e, nic.instEpair);
      }
    }
  }

  lemma {:induction false} ClaimsAreWhole(switches: map<string, Switch>, nics: seq<Nic>)
    requires forall n :: n in nics ==> Saved(n)
    ensures WholeGear(Claimed(switches, nics))
  {
    if nics != [] {
      ClaimIsWhole(switches, nics[0]);
      ClaimsAreWhole(switches, nics[1..]);
      forall n: nat
        ensures WholeIn(Claimed(switches, nics), Numbered("epair", n))
      {
        assert WholeIn(ClaimOf(switches, nics[0]), Numbered("epair", n));
        assert WholeIn(Claimed(switches, nics[1..]), Numbered("epair", n));
      }
    }
  }

  predicate Grown(h: Host, end: Host) {
    h.ifaces <= end.ifaces && h.epairs <= end.epairs && h.pipes <= end.pipes
  }

  predicate Within(g: Gear, more: Gear) {
    g.ifaces <= more.ifaces && g.epairs <= more.epairs && g.pipes <= more.pipes
  }

  /** `end` is `h` with things added that are all among the gear. */
  ghost predicate AddsOnly(h: Host, end: Host, g: Gear) {
    WellFormed(end) && Grown(h, end) && Remove(end, g) == Remove(h, g)
  }

  lemma AddsOnlyThen(h: Host, mid: Host, end: Host, g: Gear)
    requires AddsOnly(h, mid, g) && AddsOnly(mid, end, g)
    ensures AddsOnly(h, end, g)
  {
  }

  /** The inst fields name what they named before, or what was not on the host. */
  predicate FreshOrOld(h: Host, nic: Nic, after: Nic) {
    && (after.instEpair == nic.instEpair ||
        (after.instEpair !in h.epairs && EndsOf(after.instEpair) !! h.ifaces && PipesOf(after.instEpair) !! h.pipes))
    && (after.instBridge == nic.instBridge || (after.instBridge !in h.ifaces && after.instEpair != ""))
  }

  /** The value of DummyBridged when a bridge can be had: both members get in. */
  lemma DummyMade(h: Host, nic: Nic, epair: string)
    requires BridgePossible(h, DummyName("bridge", h.bridges.Keys))
    requires epair + "a" in h.ifaces && nic.netDev in h.ifaces
    ensures var bridge := DummyName("bridge", h.bridges.Keys);
            DummyBridged(h, nic, epair) ==
            Wired(AddMember(AddMember(AddBridge(h, bridge), bridge, epair + "a"), bridge, nic.netDev),
                  nic.(instBridge := bridge), true)
  {
  }

  lemma DummyUnderRemoval(h: Host, bridge: string, a: string, b: string, g: Gear)
    requires bridge in g.ifaces
    ensures Remove(AddMember(AddMember(AddBridge(h, bridge), bridge, a), bridge, b), g) == Remove(h, g)
  {
    MemberUnderRemoval(AddMember(AddBridge(h, bridge), bridge, a), bridge, b, g);
    MemberUnderRemoval(AddBridge(h, bridge), bridge, a, g);
    BridgeUnderRemoval(h, bridge, g);
  }

  lemma DummyKeepsWellFormed(h: Host, n: nat, a: string, b: string)
    requires WellFormed(h) && a in h.ifaces && b in h.ifaces
    ensures var bridge := Numbered("bridge", n);
            WellFormed(AddMember(AddMember(AddBridge(h, bridge), bridge, a), bridge, b))
  {
    var bridge := Numbered("bridge", n);
    NamesApart(Nic("", 0, "", Netgraph, "", "", false, "", ""), n);
    assert bridge != "" by {
      assert bridge[0] == 'b';
    }
    IfaceKeepsWellFormed(h, bridge);
    BridgesKeepWellFormed(AddIface(h, bridge), h.bridges[bridge := {a, b}]);
    assert {} + {a} + {b} == {a, b};
    assert AddMember(AddMember(AddBridge(h, bridge), bridge, a), bridge, b) ==
      AddIface(h, bridge).(bridges := h.bridges[bridge := {a, b}]);
  }

  /** The dummy bridge between epair and device. */
  lemma DummyBridgedAdds(h: Host, nic: Nic, epair: string, g: Gear)
    requires WellFormed(h) && Saved(nic) && epair + "a" in h.ifaces && nic.netDev in h.ifaces
    requires var w := DummyBridged(h, nic, epair); w.ok ==> w.nic.instBridge in g.ifaces
    ensures var w := DummyBridged(h, nic, epair);
            && AddsOnly(h, w.host, g) && Saved(w.nic) && w.nic.(instBridge := "") == nic.(instBridge := "")
            && if w.ok then w.nic.instBridge !in h.ifaces else w.nic == nic
  {
    var bridge := DummyName("bridge", h.bridges.Keys);
    if BridgePossible(h, bridge) {
      var n: nat :| 1 <= n <= HIGHEST && bridge == Numbered("bridge", n);
      DummyMade(h, nic, epair);
      DummyKeepsWellFormed(h, n, epair + "a", nic.netDev);
      DummyUnderRemoval(h, bridge, epair + "a", nic.netDev, g);
    }
  }

  /** The epair and its pipes. */
  lemma EpairAdds(h: Host, g: Gear)
    requires WellFormed(h) && DummyName("epair", h.epairs) != ""
    requires var e := DummyName("epair", h.epairs); Within(Gear(EndsOf(e), {e}, PipesOf(e)), g)
    ensures var e := DummyName("epair", h.epairs);
            && EpairPossible(h, e) && PipesLaid(AddEpair(h, e), e).1 && IsEpairName(e)
            && AddsOnly(h, PipesLaid(AddEpair(h, e), e).0, g)
            && EndsOf(e) !! h.ifaces && PipesOf(e) !! h.pipes && e !in h.epairs
  {
    var e := DummyName("epair", h.epairs);
    var n: nat :| 1 <= n <= HIGHEST && e == Numbered("epair", n);
    assert WholeEpair(h, e);
    EndsNotEmpty(e);
    EpairKeepsWellFormed(h, n, PipesOf(e));
    EpairUnderRemoval(h, e, PipesOf(e), g);
  }

  lemma EndsNotEmpty(e: string)
    ensures e + "a" != e + "b" && e + "a" + "_pipe" != e + "b" + "_pipe"
  {
    assert (e + "a")[|e|] == 'a' && (e + "a" + "_pipe")[|e|] == 'a' && (e + "b" + "_pipe")[|e|] == 'b';
  }

  lemma RateLimitedAdds(h: Host, nic: Nic, g: Gear)
    requires WellFormed(h) && Saved(nic) && nic.netDev in h.ifaces
    requires EpairPossible(h, DummyName("epair", h.epairs)) ==> Within(InstGear(RateLimited(h, nic).nic), g)
    ensures var w := RateLimited(h, nic);
            && AddsOnly(h, w.host, g) && Saved(w.nic) && SameButInst(nic, w.nic) && FreshOrOld(h, nic, w.nic)
            && (w.ok ==> EpairPossible(h, DummyName("epair", h.epairs)) && w.nic.instEpair != "")
            && (!EpairPossible(h, DummyName("epair", h.epairs)) ==> w.nic == nic)
  {
    var e := DummyName("epair", h.epairs);
    if EpairPossible(h, e) {
      var h1 := PipesLaid(AddEpair(h, e), e).0;
      var recorded := nic.(instEpair := e);
      EpairLaid(h, e);
      EpairAdds(h, g);
      DummyBridgedAdds(h1, recorded, e, g);
      AddsOnlyThen(h, h1, RateLimited(h, nic).host, g);
    }
  }

  /** A new epair's pipes can be laid. */
  lemma EpairLaid(h: Host, e: string)
    requires WellFormed(h) && e == DummyName("epair", h.epairs) && e != ""
    ensures PipesLaid(AddEpair(h, e), e) == (AddEpair(h, e).(pipes := h.pipes + PipesOf(e)), true)
  {
    var n: nat :| 1 <= n <= HIGHEST && e == Numbered("epair", n);
    assert WholeEpair(h, e);
    EndsNotEmpty(e);
  }

  /** ConnectNic of a NIC whose device is there. */
  lemma ConnectAdds(h: Host, switches: map<string, Switch>, nic: Nic)
    requires WellFormed(h) && Saved(nic) && nic.switchId != "" && nic.switchId in switches
    requires nic.devType != Netgraph ==> nic.netDev != "" && nic.netDev in h.ifaces
    ensures var w := Connected(h, switches[nic.switchId], nic);
            && AddsOnly(h, w.host, ClaimOf(switches, w.nic)) && Saved(w.nic)
            && SameButInst(nic, w.nic) && FreshOrOld(h, nic, w.nic)
            && (w.nic != nic ==> w.nic.instEpair != "" && Detachable(switches, w.nic))
  {
    var s := switches[nic.switchId];
    var w := Connected(h, s, nic);
    var g := ClaimOf(switches, w.nic);
    if TypeMatches(s, nic) && s.kind == IfBridge {
      if nic.rateLimit {
        var limited := RateLimited(h, nic);
        assert w.nic == limited.nic;
        RateLimitedAdds(h, nic, g);
        if limited.ok {
          JoinAdds(limited.host, limited.nic, s.name, limited.nic.instEpair + "b", g);
          AddsOnlyThen(h, limited.host, w.host, g);
        }
      } else {
        JoinAdds(h, nic, s.name, nic.netDev, g);
      }
    }
  }

  lemma JoinAdds(h: Host, nic: Nic, bridge: string, member: string, g: Gear)
    requires WellFormed(h) && member in g.ifaces
    ensures AddsOnly(h, Joined(h, nic, bridge, member).host, g)
  {
    if Joined(h, nic, bridge, member).ok {
      MemberUnderRemoval(h, bridge, member, g);
      BridgesKeepWellFormed(h, AddMember(h, bridge, member).bridges);
    }
  }

  /** Whatever starting a NIC adds its saved record claims, be the device new, already there
      or without a name, and whatever the record claimed before. */
  lemma StartAccounted(h: Host, switches: map<string, Switch>, nic: Nic)
    requires WellFormed(h) && Saved(nic)
    ensures var w := Started(h, switches, nic);
            && AddsOnly(h, w.host, ClaimOf(switches, w.nic)) && Saved(w.nic)
            && SameButInst(nic, w.nic) && FreshOrOld(h, nic, w.nic)
            && (w.nic != nic ==> w.nic.instEpair != "" && Detachable(switches, w.nic))
  {
    var w := Started(h, switches, nic);
    var g := ClaimOf(switches, w.nic);
    if nic.devType == Netgraph || (nic.netDev != "" && nic.netDev !in h.ifaces) {
      var h1 := if nic.devType == Netgraph then h else AddIface(h, nic.netDev);
      if nic.devType != Netgraph {
        NamesApart(nic, 0);
        IfaceKeepsWellFormed(h, nic.netDev);
      }
      if nic.switchId != "" && nic.switchId in switches {
        ConnectAdds(h1, switches, nic);
      }
      if nic.devType != Netgraph {
        IfaceUnderRemoval(h, nic.netDev, g);
      }
      AddsOnlyThen(h, h1, w.host, g);
    }
  }

  // Stopping.

  lemma UnlimitedRemoves(h: Host, nic: Nic)
    requires WellFormed(h) && Saved(nic)
    ensures Unlimited(h, nic).0 == Remove(h, InstGear(nic))
  {
    var e := nic.instEpair;
    var bridge := if nic.instBridge != "" then {nic.instBridge} else {};
    var h1 := Remove(h, Gear(bridge, {}, {}));
    BridgeGone(h, nic);
    if e == "" {
      assert InstGear(nic) == Gear(bridge, {}, {});
    } else {
      var gear := Gear(EndsOf(e), {e}, PipesOf(e));
      InstEpairStays(h, nic);
      EpairGone(h1, e);
      RemoveBoth(h, Gear(bridge, {}, {}), gear);
      assert Both(Gear(bridge, {}, {}), gear) == InstGear(nic);
    }
  }

  lemma BridgeGone(h: Host, nic: Nic)
    requires WellFormed(h) && Saved(nic)
    ensures (if nic.instBridge != "" then BridgeDestroyed(h, nic.instBridge) else h) ==
            Remove(h, Gear(if nic.instBridge != "" then {nic.instBridge} else {}, {}, {}))
  {
    if nic.instBridge != "" {
      var n: nat :| nic.instBridge == Numbered("bridge", n);
      assert IsBridgeName(nic.instBridge);
    }
    if nic.instBridge == "" || nic.instBridge !in h.ifaces {
      RemoveAbsent(h, Gear(if nic.instBridge != "" then {nic.instBridge} else {}, {}, {}));
    }
  }

  /** Taking the dummy bridge away leaves epairs whole. */
  lemma InstEpairStays(h: Host, nic: Nic)
    requires WellFormed(h) && Saved(nic)
    ensures WellFormed(Remove(h, Gear(if nic.instBridge != "" then {nic.instBridge} else {}, {}, {})))
  {
    var g := Gear(if nic.instBridge != "" then {nic.instBridge} else {}, {}, {});
    var bridge: nat := if n: nat :| nic.instBridge == Numbered("bridge", n) then n else 0;
    NamesApart(nic, bridge);
    forall n: nat
      ensures WholeIn(g, Numbered("epair", n))
    {
      var e := Numbered("epair", n);
      assert e + "a" in EndsOf(e) && e + "b" in EndsOf(e);
    }
    RemoveKeepsWellFormed(h, g);
  }

  lemma EpairGone(h: Host, e: string)
    requires WellFormed(h) && IsEpairName(e)
    ensures var piped := h.(pipes := h.pipes - PipesOf(e));
            (if e + "a" in piped.ifaces then DropEpair(piped, e) else piped) ==
            Remove(h, Gear(EndsOf(e), {e}, PipesOf(e)))
  {
    var n: nat :| e == Numbered("epair", n);
    assert WholeEpair(h, e);
    if e + "a" !in h.ifaces {
      RemoveAbsent(h, Gear(EndsOf(e), {e}, {}));
      RemoveBoth(h, Gear(EndsOf(e), {e}, {}), Gear({}, {}, PipesOf(e)));
    }
    SameBridges(Without(h, {}), h);
  }

  lemma DemolishRemoves(h: Host, nic: Nic)
    requires Consistent(h)
    ensures Demolished(h, nic) == Remove(h, Gear(DeviceOf(nic), {}, {}))
  {
    if DeviceOf(nic) !! h.ifaces {
      RemoveAbsent(h, Gear(DeviceOf(nic), {}, {}));
    }
  }

  /** The record after a stop. */
  function Detached(switches: map<string, Switch>, nic: Nic): Nic {
    if Detachable(switches, nic) then nic.(instBridge := "", instEpair := "") else nic
  }

  /** Stopping a NIC removes exactly what its record claims, present or not. */
  lemma StopRemoves(h: Host, switches: map<string, Switch>, nic: Nic)
    requires WellFormed(h) && Saved(nic)
    ensures Stopped(h, switches, nic) == (Remove(h, ClaimOf(switches, nic)), Detached(switches, nic))
    ensures WellFormed(Stopped(h, switches, nic).0)
  {
    var device := Gear(DeviceOf(nic), {}, {});
    if Detachable(switches, nic) {
      DetachRemoves(h, switches, nic);
    } else {
      RemoveAbsent(h, NOTHING);
      DemolishRemoves(h, nic);
      assert Both(device, NOTHING) == device;
    }
    ClaimIsWhole(switches, nic);
    RemoveKeepsWellFormed(h, ClaimOf(switches, nic));
  }

  lemma DetachRemoves(h: Host, switches: map<string, Switch>, nic: Nic)
    requires WellFormed(h) && Saved(nic) && Detachable(switches, nic)
    ensures Stopped(h, switches, nic) == (Remove(h, ClaimOf(switches, nic)), Detached(switches, nic))
  {
    var device, inst := Gear(DeviceOf(nic), {}, {}), InstGear(nic);
    var s := switches[nic.switchId];
    var member := if nic.rateLimit then nic.instEpair + "b" else nic.netDev;
    var h1 := DropMember(h, s.name, member);
    DropKeepsWellFormed(h, s.name, member);
    UnlimitedRemoves(h1, nic);
    assert Disconnected(h, s, nic) == (Remove(h1, inst), nic.(instBridge := "", instEpair := ""));
    DemolishRemoves(Remove(h1, inst), nic);
    RemoveBoth(h1, inst, device);
    assert Both(inst, device) == Both(device, inst);
    DroppedUnderRemoval(h, s.name, member, ClaimOf(switches, nic));
  }

  lemma DropKeepsWellFormed(h: Host, bridge: string, member: string)
    requires WellFormed(h)
    ensures WellFormed(DropMember(h, bridge, member))
  {
    BridgesKeepWellFormed(h, DropMember(h, bridge, member).bridges);
  }

  // Lists.

  /** The records after the stops. */
  function DetachedAll(switches: map<string, Switch>, nics: seq<Nic>): (r: seq<Nic>)
    ensures |r| == |nics| && forall i :: 0 <= i < |nics| ==> r[i] == Detached(switches, nics[i])
  {
    if nics == [] then [] else [Detached(switches, nics[0])] + DetachedAll(switches, nics[1..])
  }

  lemma {:induction false} ClaimedExactly(switches: map<string, Switch>, nics: seq<Nic>)
    ensures forall x ::
      x in Claimed(switches, nics).ifaces <==> exists n :: n in nics && x in ClaimOf(switches, n).ifaces
    ensures forall x ::
      x in Claimed(switches, nics).epairs <==> exists n :: n in nics && x in ClaimOf(switches, n).epairs
    ensures forall x ::
      x in Claimed(switches, nics).pipes <==> exists n :: n in nics && x in ClaimOf(switches, n).pipes
  {
    if nics != [] {
      ClaimedExactly(switches, nics[1..]);
      assert forall n :: n in nics <==> n == nics[0] || n in nics[1..];
    }
  }

  lemma ClaimedIgnoresOrder(switches: map<string, Switch>, nics: seq<Nic>, order: seq<Nic>)
    requires forall n :: n in nics <==> n in order
    ensures Claimed(switches, nics) == Claimed(switches, order)
  {
    ClaimedExactly(switches, nics);
    ClaimedExactly(switches, order);
    assert Claimed(switches, nics).ifaces == Claimed(switches, order).ifaces;
    assert Claimed(switches, nics).epairs == Claimed(switches, order).epairs;
    assert Claimed(switches, nics).pipes == Claimed(switches, order).pipes;
  }

  /** Stopping a list removes exactly the union of what the records claim. */
  lemma {:induction false} StopAllRemoves(h: Host, switches: map<string, Switch>, nics: seq<Nic>)
    requires WellFormed(h) && forall n :: n in nics ==> Saved(n)
    ensures StoppedAll(h, switches, nics) == (Remove(h, Claimed(switches, nics)), DetachedAll(switches, nics))
    ensures WellFormed(StoppedAll(h, switches, nics).0)
    decreases |nics|
  {
    if nics == [] {
      RemoveAbsent(h, NOTHING);
    } else {
      StopRemoves(h, switches, nics[0]);
      var h1 := Remove(h, ClaimOf(switches, nics[0]));
      StopAllRemoves(h1, switches, nics[1..]);
      RemoveBoth(h, ClaimOf(switches, nics[0]), Claimed(switches, nics[1..]));
      ClaimedFirst(switches, nics);
    }
  }

  lemma ClaimedFirst(switches: map<string, Switch>, nics: seq<Nic>)
    requires nics != []
    ensures Both(ClaimOf(switches, nics[0]), Claimed(switches, nics[1..])) == Claimed(switches, nics)
  {
  }

  /** Stopping the NIC destroys the interface: its device, or a part of what its inst fields
      name when it is on an IF switch of its type. */
  predicate TakenByStop(switches: map<string, Switch>, nic: Nic, x: string) {
    nic.devType in {Tap, Vmnet} && (
      || (nic.netDev != "" && x == nic.netDev)
      || (&& nic.switchId != "" && nic.switchId in switches && switches[nic.switchId].kind == IfBridge
          && (if nic.rateLimit then nic.instEpair != "" else nic.netDev != "")
          && ((nic.instBridge != "" && x == nic.instBridge) ||
              (nic.instEpair != "" && x in {nic.instEpair + "a", nic.instEpair + "b"}))))
  }

  /** Exactly those go, out of every bridge, and everything else stays. */
  ghost predicate StopTakes(h: Host, switches: map<string, Switch>, nics: seq<Nic>, end: Host) {
    WellFormed(h) && (forall n :: n in nics ==> Saved(n)) ==>
      && (forall x :: x in end.ifaces <==> x in h.ifaces && forall n :: n in nics ==> !TakenByStop(switches, n, x))
      && end.bridges.Keys == h.bridges.Keys * end.ifaces
      && (forall b :: b in end.bridges ==> end.bridges[b] == h.bridges[b] * end.ifaces)
  }

  lemma TakenIsClaimed(switches: map<string, Switch>, nic: Nic, x: string)
    ensures x in ClaimOf(switches, nic).ifaces <==> TakenByStop(switches, nic, x)
  {
  }

  lemma SomeClaim(switches: map<string, Switch>, nics: seq<Nic>, x: string)
    ensures x in Claimed(switches, nics).ifaces <==> exists n :: n in nics && TakenByStop(switches, n, x)
  {
    ClaimedExactly(switches, nics);
    forall n | n in nics
      ensures x in ClaimOf(switches, n).ifaces <==> TakenByStop(switches, n, x)
    {
      TakenIsClaimed(switches, n, x);
    }
  }

  lemma RemovedByMember(h: Host, g: Gear)
    requires Consistent(h)
    ensures var end := Remove(h, g);
            && (forall x :: x in end.ifaces <==> x in h.ifaces && x !in g.ifaces)
            && end.bridges.Keys == h.bridges.Keys * end.ifaces
            && (forall b :: b in end.bridges ==> end.bridges[b] == h.bridges[b] * end.ifaces)
  {
  }

  lemma StopDoesTake(h: Host, switches: map<string, Switch>, nics: seq<Nic>)
    ensures StopTakes(h, switches, nics, StoppedAll(h, switches, nics).0)
  {
    if WellFormed(h) && forall n :: n in nics ==> Saved(n) {
      StopAllRemoves(h, switches, nics);
      RemovedByMember(h, Claimed(switches, nics));
      forall x
        ensures x in Claimed(switches, nics).ifaces <==> exists n :: n in nics && TakenByStop(switches, n, x)
      {
        SomeClaim(switches, nics, x);
      }
    }
  }

  /** Starting a list adds only what the saved records claim. */
  lemma {:induction false} StartAllAccounted(h: Host, switches: map<string, Switch>, nics: seq<Nic>)
    requires WellFormed(h) && forall n :: n in nics ==> Saved(n)
    ensures var (end, started) := StartedAll(h, switches, nics);
            && AddsOnly(h, end, Claimed(switches, started))
            && |started| == |nics|
            && (forall i :: 0 <= i < |nics| ==> StartedFrom(h, switches, nics[i], started[i]))
    decreases |nics|
  {
    if nics == [] {
      RemoveAbsent(h, NOTHING);
    } else {
      assert nics[0] in nics;
      StartAccounted(h, switches, nics[0]);
      var w := Started(h, switches, nics[0]);
      StartAllAccounted(w.host, switches, nics[1..]);
      var (end, rest) := StartedAll(w.host, switches, nics[1..]);
      PrependAccounted(h, switches, w, end, rest);
      forall i | 0 <= i < |rest|
        ensures StartedFrom(h, switches, nics[i + 1], rest[i])
      {
        assert StartedFrom(w.host, switches, nics[1..][i], rest[i]);
      }
    }
  }

  /** What is known of a record after its start. */
  ghost predicate StartedFrom(h: Host, switches: map<string, Switch>, nic: Nic, after: Nic) {
    && Saved(after) && SameButInst(nic, after) && FreshOrOld(h, nic, after)
    && (after != nic ==> after.instEpair != "" && Detachable(switches, after))
  }

  lemma PrependAccounted(h: Host, switches: map<string, Switch>, w: Wired, end: Host, rest: seq<Nic>)
    requires AddsOnly(h, w.host, ClaimOf(switches, w.nic)) && AddsOnly(w.host, end, Claimed(switches, rest))
    ensures AddsOnly(h, end, Claimed(switches, [w.nic] + rest))
  {
    var first, others := ClaimOf(switches, w.nic), Claimed(switches, rest);
    assert ([w.nic] + rest)[1..] == rest;
    RemoveBoth(end, others, first);
    RemoveBoth(w.host, others, first);
    RemoveSwap(w.host, others, first);
    RemoveSwap(h, first, others);
    RemoveBoth(h, others, first);
  }

  /** The round trip, for every host and whatever the records held before. Starting a list
      of NICs and then stopping the saved records, in whatever order they are read back,
      gives the host it began with, less what the saved records claim of it. Names running
      out, missing switches, and two NICs with one device are among the cases. */
  lemma StartThenStopLeaves(h: Host, switches: map<string, Switch>, nics: seq<Nic>, order: seq<Nic>)
    requires WellFormed(h) && forall n :: n in nics ==> Saved(n)
    requires forall n :: n in order <==> n in StartedAll(h, switches, nics).1
    ensures var (end, started) := StartedAll(h, switches, nics);
            StoppedAll(end, switches, order) ==
            (Remove(h, Claimed(switches, started)), DetachedAll(switches, order))
  {
    StartAllAccounted(h, switches, nics);
    var (end, started) := StartedAll(h, switches, nics);
    forall n | n in order
      ensures Saved(n)
    {
      var i :| 0 <= i < |started| && started[i] == n;
      assert StartedFrom(h, switches, nics[i], started[i]);
    }
    StopAllRemoves(end, switches, order);
    ClaimedIgnoresOrder(switches, started, order);
  }

  lemma RemovedExactly(h: Host, g: Gear)
    requires Consistent(h)
    ensures Remove(h, g) == h <==> Absent(g, h)
  {
    if Absent(g, h) {
      RemoveAbsent(h, g);
    }
  }

  /** The host is restored exactly when the saved records claim nothing that was on it. */
  lemma StartThenStopRestoresExactly(h: Host, switches: map<string, Switch>, nics: seq<Nic>, order: seq<Nic>)
    requires WellFormed(h) && forall n :: n in nics ==> Saved(n)
    requires forall n :: n in order <==> n in StartedAll(h, switches, nics).1
    ensures var (end, started) := StartedAll(h, switches, nics);
            StoppedAll(end, switches, order).0 == h <==>
            forall n :: n in started ==> Absent(ClaimOf(switches, n), h)
  {
    StartThenStopLeaves(h, switches, nics, order);
    var started := StartedAll(h, switches, nics).1;
    RemovedExactly(h, Claimed(switches, started));
    ClaimedExactly(switches, started);
    if Absent(Claimed(switches, started), h) {
      forall n | n in started
        ensures Absent(ClaimOf(switches, n), h)
      {
        ClaimWithin(switches, started, n);
      }
    }
  }

  lemma ClaimWithin(switches: map<string, Switch>, nics: seq<Nic>, n: Nic)
    requires n in nics
    ensures Within(ClaimOf(switches, n), Claimed(switches, nics))
  {
    ClaimedExactly(switches, nics);
  }

  /** The devices the records of a list name. */
  function Devices(nics: seq<Nic>): set<string> {
    if nics == [] then {} else Devices(nics[1..]) + DeviceOf(nics[0])
  }

  lemma {:induction false} DevicesExactly(nics: seq<Nic>, d: string)
    ensures d in Devices(nics) <==> exists n :: n in nics && d in DeviceOf(n)
  {
    if nics != [] {
      DevicesExactly(nics[1..], d);
      assert forall n :: n in nics <==> n == nics[0] || n in nics[1..];
    }
  }

  lemma InstStaysAbsent(h: Host, nic: Nic, after: Nic)
    requires Consistent(h) && SameButInst(nic, after) && FreshOrOld(h, nic, after) && Absent(InstGear(nic), h)
    ensures DeviceOf(after) == DeviceOf(nic) && Absent(InstGear(after), h)
  {
  }

  /** When the inst fields name nothing that is on the host, as empty ones do, only devices
      matter: what is left is the host less the interfaces that carried a saved device. */
  lemma OnlyDevicesMatter(h: Host, switches: map<string, Switch>, nics: seq<Nic>)
    requires WellFormed(h) && forall n :: n in nics ==> Saved(n) && Absent(InstGear(n), h)
    ensures Remove(h, Claimed(switches, StartedAll(h, switches, nics).1)) == Without(h, Devices(nics))
  {
    StartAllAccounted(h, switches, nics);
    var started := StartedAll(h, switches, nics).1;
    forall i | 0 <= i < |nics|
      ensures DeviceOf(started[i]) == DeviceOf(nics[i]) && Absent(InstGear(started[i]), h)
    {
      assert nics[i] in nics && StartedFrom(h, switches, nics[i], started[i]);
      InstStaysAbsent(h, nics[i], started[i]);
    }
    OnlyDevicesClaimed(h, switches, nics, started);
    RemoveSame(h, Claimed(switches, started), Gear(Devices(nics), {}, {}));
  }

  lemma {:induction false} OnlyDevicesClaimed(h: Host, switches: map<string, Switch>, nics: seq<Nic>, started: seq<Nic>)
    requires Consistent(h) && |nics| == |started|
    requires forall i :: 0 <= i < |nics| ==>
               DeviceOf(started[i]) == DeviceOf(nics[i]) && Absent(InstGear(started[i]), h)
    ensures var g := Claimed(switches, started);
            g.ifaces * h.ifaces == Devices(nics) * h.ifaces && g.epairs !! h.epairs && g.pipes !! h.pipes
  {
    if nics != [] {
      OnlyDevicesClaimed(h, switches, nics[1..], started[1..]);
      var rest, first := Claimed(switches, started[1..]), ClaimOf(switches, started[0]);
      assert first.ifaces * h.ifaces == DeviceOf(nics[0]) * h.ifaces;
      assert (rest.ifaces + first.ifaces) * h.ifaces == rest.ifaces * h.ifaces + first.ifaces * h.ifaces;
      assert Devices(nics) * h.ifaces == Devices(nics[1..]) * h.ifaces + DeviceOf(nics[0]) * h.ifaces;
    }
  }

  /** Records that are blank before a start are blank after the stop. */
  lemma BlankAgain(h: Host, switches: map<string, Switch>, nics: seq<Nic>, n: Nic)
    requires WellFormed(h) && forall m :: m in nics ==> Saved(m) && Blank(m)
    requires n in StartedAll(h, switches, nics).1
    ensures Blank(Detached(switches, n))
  {
    StartAllAccounted(h, switches, nics);
    var started := StartedAll(h, switches, nics).1;
    var i :| 0 <= i < |started| && started[i] == n;
    assert nics[i] in nics && StartedFrom(h, switches, nics[i], started[i]);
  }

  /** nicClone's copy of a record: all of it, under a new id and attached to no VM. */
  function CloneOf(nic: Nic, newId: string): Nic {
    nic.(id := newId, configId := 0)
  }

  /** The input that shows inst fields matter: the clone of a rate-limited NIC that is
      running, with the limit switched off and a device of its own, attached to some VM.
      Starting and stopping that VM destroys the bridge and the epair of the original. */
  lemma CloneTakesGear(h: Host, switches: map<string, Switch>, running: Nic, newId: string, configId: nat,
                       device: string)
    requires WellFormed(h) && Saved(running) && Detachable(switches, running) && running.rateLimit
    requires running.instEpair in h.epairs && running.instBridge in h.bridges
    requires device != "" && device[0] in {'t', 'v'} && device !in h.ifaces
    ensures var clone := CloneOf(running, newId).(configId := configId, netDev := device, rateLimit := false);
            var (end, started) := StartedAll(h, switches, [clone]);
            started == [clone] &&
            StoppedAll(end, switches, started).0 == Remove(h, Both(Gear({device}, {}, {}), InstGear(running)))
    ensures running.instEpair in InstGear(running).epairs
    ensures running.instBridge in InstGear(running).ifaces
  {
    var clone := CloneOf(running, newId).(configId := configId, netDev := device, rateLimit := false);
    StartAccounted(h, switches, clone);
    assert Started(h, switches, clone).nic == clone;
    assert [clone][1..] == [];
    assert StartedAll(h, switches, [clone]).1 == [clone];
    StartThenStopLeaves(h, switches, [clone], [clone]);
    assert Claimed(switches, [clone]) == ClaimOf(switches, clone);
    assert "" !in h.bridges;
  }
}

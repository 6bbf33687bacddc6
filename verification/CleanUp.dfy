/** The clean-up at start-up (cleanup.go, cleanupNet): stop the NICs of every VM, destroy the
    switches, then destroy whatever is left of the group `cirrinad`. It undoes what a daemon
    that died between any two commands had made. */
module CleanUp {
  import opened Wrappers
  import opened FreeName
  import opened HostState
  import opened GroupSweep
  import opened Kernel
  import opened NicWiring
  import opened NicRoundTrip
  import opened NetDevice
  import opened NicCode
  import opened VmNetwork
  import opened BridgeIf
  import opened Switches
  import opened NgSwitches
  import opened SwitchRuns
  import Ng = NgBridge

  /** The loop over the interfaces. An interface that went with the other end of its epair
      is in no group any more. */
  method SweepGroup(k: Machine)
    requires Sound(k.State())
    modifies k
    ensures Sound(k.State())
    ensures old(k.Clean()) ==> k.Clean()
    ensures k.reliable && WellFormed(old(k.State())) ==> k.State() == SweepOwn(old(k.State()))
    ensures k.reliable && WellFormed(old(k.State())) ==> GroupGone(old(k.State()), k.State())
    ensures old(k.past) <= k.past
  {
    ghost var h := k.State();
    ghost var exact := k.reliable && WellFormed(h);
    var todo := k.AllInterfaces();
    while todo != {}
      invariant old(k.past) <= k.past
      invariant Sound(k.State())
      invariant old(k.Clean()) ==> k.Clean()
      invariant exact ==> WellFormed(k.State()) && SweepOwn(k.State()) == SweepOwn(h) && k.own <= todo
      decreases todo
    {
      var x :| x in todo;
      todo := todo - {x};
      var known := Attempt(true, k.reliable);
      if known && x in k.own {
        RemovalsSound(k.State(), "", "", {x}, PairOf(x));
        if exact {
          AnySwept(k.State(), x);
        }
        var _ := k.DestroyAny(x);
      }
    }
    if exact {
      NothingOwn(k.State());
      SweepIs(h);
    }
  }

  /** What the records of a configuration claim. */
  function ConfigClaims(switches: map<string, Switch>, rows: NetDevice.Rows, configId: nat): Gear {
    Gear(
      set id, x | id in rows && rows[id].configId == configId && x in ClaimOf(switches, rows[id]).ifaces :: x,
      set id, x | id in rows && rows[id].configId == configId && x in ClaimOf(switches, rows[id]).epairs :: x,
      set id, x | id in rows && rows[id].configId == configId && x in ClaimOf(switches, rows[id]).pipes :: x)
  }

  /** What the records of the VMs claim. */
  function AllClaims(switches: map<string, Switch>, rows: NetDevice.Rows, configs: seq<nat>): Gear {
    if configs == [] then NOTHING
    else
      var n := |configs| - 1;
      Both(AllClaims(switches, rows, configs[..n]), ConfigClaims(switches, rows, configs[n]))
  }

  ghost predicate AllRowsSaved(rows: NetDevice.Rows) {
    forall id :: id in rows ==> Saved(rows[id])
  }

  /** The rows of the configurations that have not been stopped yet are as they were. */
  predicate RestKept(before: NetDevice.Rows, rows: NetDevice.Rows, stopped: seq<nat>) {
    && rows.Keys == before.Keys
    && (forall id :: id in before ==> rows[id].configId == before[id].configId)
    && (forall id :: id in before && before[id].configId !in stopped ==> rows[id] == before[id])
  }

  lemma ClaimsOfOne(switches: map<string, Switch>, rows: NetDevice.Rows, now: NetDevice.Rows, stopped: seq<nat>,
                    configId: nat, nics: seq<Nic>)
    requires RestKept(rows, now, stopped) && configId !in stopped && IsNicsOf(now, configId, nics)
    ensures Claimed(switches, nics) == ConfigClaims(switches, rows, configId)
  {
    ClaimedExactly(switches, nics);
    forall n | n in nics
      ensures exists id :: id in rows && rows[id] == n && n.configId == configId
    {
    }
    forall id | id in rows && rows[id].configId == configId
      ensures rows[id] in nics
    {
      assert now[id] == rows[id];
    }
    var claimed, all := Claimed(switches, nics), ConfigClaims(switches, rows, configId);
    assert claimed.ifaces == all.ifaces;
    assert claimed.epairs == all.epairs;
    assert claimed.pipes == all.pipes;
  }

  /** One NetStop leaves the rows of other VMs alone. */
  predicate OnlyOf(before: NetDevice.Rows, rows: NetDevice.Rows, configId: nat) {
    && rows.Keys == before.Keys
    && (forall id :: id in before ==> rows[id].configId == before[id].configId)
    && (forall id :: id in before && before[id].configId != configId ==> rows[id] == before[id])
  }

  lemma OneStopped(switches: map<string, Switch>, now: NetDevice.Rows, configId: nat, nics: seq<Nic>)
    requires Keyed(now) && IsNicsOf(now, configId, nics)
    ensures OnlyOf(now, SavedAll(now, DetachedAll(switches, nics)), configId)
  {
    var after := DetachedAll(switches, nics);
    StartedIds(now, configId, nics, after);
    SavedAllExactly(now, after);
    KeysKept(now, after);
    forall id | id in now
      ensures SavedAll(now, after)[id].configId == now[id].configId
      ensures now[id].configId != configId ==> SavedAll(now, after)[id] == now[id]
    {
      RowAfterStop(now, after, configId, id);
    }
  }

  lemma {:induction false} KeysKept(rows: NetDevice.Rows, records: seq<Nic>)
    requires forall n :: n in records ==> n.id in rows
    ensures SavedAll(rows, records).Keys == rows.Keys
    decreases |records|
  {
    if records != [] {
      assert records[0] in records;
      KeysKept(rows[records[0].id := records[0]], records[1..]);
    }
  }

  lemma RestStillKept(rows: NetDevice.Rows, now: NetDevice.Rows, next: NetDevice.Rows, stopped: seq<nat>, configId: nat)
    requires RestKept(rows, now, stopped) && OnlyOf(now, next, configId)
    ensures RestKept(rows, next, stopped + [configId])
  {
  }

  lemma RowAfterStop(now: NetDevice.Rows, after: seq<Nic>, configId: nat, id: string)
    requires id in now && id in SavedAll(now, after)
    requires forall n :: n in after ==> n.id in now && now[n.id].configId == configId && n.configId == configId
    requires forall n :: n in after ==> n.id in SavedAll(now, after) && SavedAll(now, after)[n.id] == n
    requires (forall n :: n in after ==> n.id != id) ==> SavedAll(now, after)[id] == now[id]
    ensures SavedAll(now, after)[id].configId == now[id].configId
    ensures now[id].configId != configId ==> SavedAll(now, after)[id] == now[id]
  {
    if n :| n in after && n.id == id {
      assert SavedAll(now, after)[n.id] == n;
    }
  }

  /** No two VMs share a configuration. */
  predicate EachOnce(configs: seq<nat>) {
    forall i, j :: 0 <= i < j < |configs| ==> configs[i] != configs[j]
  }

  /** The NetStop of every VM. */
  method StopAllVms(k: Machine, nics: NicTable, switches: map<string, Switch>, configs: seq<nat>)
    requires Sound(k.State()) && Keyed(nics.rows)
    requires EachOnce(configs)
    modifies k, nics
    ensures Sound(k.State()) && Keyed(nics.rows)
    ensures old(Tidy(k, nics)) ==> Tidy(k, nics)
    ensures k.reliable && old(WellFormed(k.State()) && AllRowsSaved(nics.rows)) ==>
              && WellFormed(k.State())
              && k.State() == Remove(old(k.State()), AllClaims(switches, old(nics.rows), configs))
    ensures old(k.past) <= k.past && old(nics.past) <= nics.past
  {
    ghost var h, rows := k.State(), nics.rows;
    ghost var exact := k.reliable && WellFormed(h) && AllRowsSaved(rows);
    NoClaims(h, switches, rows);
    for i := 0 to |configs|
      invariant old(k.past) <= k.past && old(nics.past) <= nics.past
      invariant Sound(k.State()) && Keyed(nics.rows)
      invariant old(Tidy(k, nics)) ==> Tidy(k, nics)
      invariant exact ==> WellFormed(k.State()) && RestKept(rows, nics.rows, configs[..i])
      invariant exact ==> k.State() == Remove(h, AllClaims(switches, rows, configs[..i]))
    {
      ghost var before, now := k.State(), nics.rows;
      assert configs[..i + 1] == configs[..i] + [configs[i]];
      assert configs[i] !in configs[..i];
      var answered := Attempt(true, k.reliable);
      var read := NetStop(k, nics, switches, configs[i], answered);
      if exact {
        StoppedVm(h, before, switches, rows, now, configs[..i], configs[i], read);
      }
    }
    assert configs[..|configs|] == configs;
  }

  lemma NoClaims(h: Host, switches: map<string, Switch>, rows: NetDevice.Rows)
    ensures WellFormed(h) ==> Remove(h, AllClaims(switches, rows, [])) == h
  {
    assert AllClaims(switches, rows, []) == NOTHING;
    if WellFormed(h) {
      RemoveAbsent(h, NOTHING);
    }
  }

  lemma StoppedVm(h: Host, before: Host, switches: map<string, Switch>, rows: NetDevice.Rows, now: NetDevice.Rows,
                  stopped: seq<nat>, configId: nat, nics: seq<Nic>)
    requires WellFormed(before) && before == Remove(h, AllClaims(switches, rows, stopped)) && AllRowsSaved(rows)
    requires RestKept(rows, now, stopped) && Keyed(now) && configId !in stopped && IsNicsOf(now, configId, nics)
    ensures var (end, after) := StoppedAll(before, switches, nics);
            && WellFormed(end) && end == Remove(h, AllClaims(switches, rows, stopped + [configId]))
            && RestKept(rows, SavedAll(now, after), stopped + [configId])
  {
    forall n | n in nics
      ensures Saved(n)
    {
      var id :| id in now && now[id] == n && n.configId == configId;
      assert rows[id] == n;
    }
    StopAllRemoves(before, switches, nics);
    RemoveBoth(h, AllClaims(switches, rows, stopped), Claimed(switches, nics));
    ClaimsOfOne(switches, rows, now, stopped, configId, nics);
    assert (stopped + [configId])[..|stopped|] == stopped;
    OneStopped(switches, now, configId, nics);
    RestStillKept(rows, now, SavedAll(now, DetachedAll(switches, nics)), stopped, configId);
  }

  /** What records and switches claim of a host. */
  function CleanGear(h: Host, switches: Switches.Rows, rows: NetDevice.Rows, configs: seq<nat>): Gear {
    Both(AllClaims(switches, rows, configs), Gear(NamesOf(switches, IfBridge, switches.Keys) * h.bridges.Keys, {}, {}))
  }

  /** The host after the clean-up: without the group, and without what was claimed of the rest. */
  function CleanedUp(h: Host, switches: Switches.Rows, rows: NetDevice.Rows, configs: seq<nat>): Host {
    Remove(SweepOwn(h), CleanGear(h, switches, rows, configs))
  }

  /** Stopping the NICs of these VMs, or destroying the switches, takes the interface. */
  predicate TakenAway(h: Host, switches: Switches.Rows, rows: NetDevice.Rows, configs: seq<nat>, x: string) {
    || (exists id :: id in rows && rows[id].configId in configs && TakenByStop(switches, rows[id], x))
    || (x in h.bridges && exists id :: id in switches && switches[id].kind == IfBridge && switches[id].name == x)
  }

  lemma {:induction false} AllClaimsExactly(switches: map<string, Switch>, rows: NetDevice.Rows, configs: seq<nat>,
                                            x: string)
    ensures x in AllClaims(switches, rows, configs).ifaces <==>
            exists id :: id in rows && rows[id].configId in configs && TakenByStop(switches, rows[id], x)
  {
    if configs != [] {
      var n := |configs| - 1;
      AllClaimsExactly(switches, rows, configs[..n], x);
      forall id | id in rows
        ensures x in ClaimOf(switches, rows[id]).ifaces <==> TakenByStop(switches, rows[id], x)
      {
        TakenIsClaimed(switches, rows[id], x);
      }
      assert configs == configs[..n] + [configs[n]];
    }
  }

  /** What is left: nothing of the group, and nothing that is taken away. */
  lemma CleanedUpIs(h: Host, switches: Switches.Rows, rows: NetDevice.Rows, configs: seq<nat>, x: string)
    requires WellFormed(h)
    ensures x in CleanedUp(h, switches, rows, configs).ifaces <==>
            x in h.ifaces && !InGroup(h, x) && !TakenAway(h, switches, rows, configs, x)
  {
    SweepIs(h);
    AllClaimsExactly(switches, rows, configs, x);
  }

  /** cleanupNet; the daemon gives up when the switches cannot be destroyed. Whatever fails,
      what is left over is the group's: a later sweep takes it. */
  method CleanUpNet(k: Machine, ng: Ng.Netgraph, table: SwitchTable, nics: NicTable, configs: seq<nat>)
    returns (err: Option<Error>)
    requires Sound(k.State()) && NgSound(k.State(), ng.others, ng.bridges) && Keyed(nics.rows)
    requires EachOnce(configs)
    modifies k, ng`bridges, ng`unnamed, nics
    ensures Sound(k.State()) && NgSound(k.State(), ng.others, ng.bridges) && Keyed(nics.rows)
    ensures old(Tidy(k, nics) && SwitchesApart(k.base, table.rows)) ==>
              Tidy(k, nics) && SweepOwn(k.State()) == k.base
    ensures k.reliable && ng.reliable && ProperNames(table.rows) &&
            old(WellFormed(k.State()) && AllRowsSaved(nics.rows)) ==>
              err.None? && k.State() == CleanedUp(old(k.State()), table.rows, old(nics.rows), configs)
    ensures ng.unnamed <= old(ng.unnamed) && (err.None? ==> ng.unnamed <= NodesOf(k.ether) + ng.others)
    ensures k.reliable && ng.reliable && ProperNames(table.rows) &&
            old(WellFormed(k.State()) && AllRowsSaved(nics.rows)) &&
            OwnDummies(old(ng.unnamed), old(k.own), ng.others) ==>
              ng.unnamed == {}
    ensures old(k.past) <= k.past && old(nics.past) <= nics.past
  {
    ghost var h, rows := k.State(), nics.rows;
    ghost var exact := k.reliable && ng.reliable && ProperNames(table.rows) && WellFormed(h) && AllRowsSaved(rows);
    err := StopAndDestroy(k, ng, table, nics, configs);
    if err.Some? {
      return;
    }
    SweepGroup(k);
    Settle(k, ng);
    if exact {
      NamelessGone(h, k.State(), table.rows, rows, configs, old(ng.unnamed), ng.unnamed, ng.others);
    }
  }

  /** The VMs and the switches. */
  method StopAndDestroy(k: Machine, ng: Ng.Netgraph, table: SwitchTable, nics: NicTable, configs: seq<nat>)
    returns (err: Option<Error>)
    requires Sound(k.State()) && NgSound(k.State(), ng.others, ng.bridges) && Keyed(nics.rows)
    requires EachOnce(configs)
    modifies k, ng`bridges, ng`unnamed, nics
    ensures Sound(k.State()) && NgSound(k.State(), ng.others, ng.bridges) && Keyed(nics.rows)
    ensures old(Tidy(k, nics) && SwitchesApart(k.base, table.rows)) ==> Tidy(k, nics)
    ensures k.reliable && ng.reliable && ProperNames(table.rows) &&
            old(WellFormed(k.State()) && AllRowsSaved(nics.rows)) ==>
              && err.None? && WellFormed(k.State())
              && SweepOwn(k.State()) == CleanedUp(old(k.State()), table.rows, old(nics.rows), configs)
    ensures ng.unnamed <= old(ng.unnamed)
    ensures old(k.past) <= k.past && old(nics.past) <= nics.past
  {
    ghost var h, rows := k.State(), nics.rows;
    ghost var exact := k.reliable && ng.reliable && ProperNames(table.rows) && WellFormed(h) && AllRowsSaved(rows);
    StopAllVms(k, nics, table.rows, configs);
    ghost var stopped := k.State();
    Settle(k, ng);
    err := DestroySwitches(k, ng, table);
    if exact {
      SwitchesGone(h, stopped, k.State(), table.rows, rows, configs);
    }
  }

  /** The interfaces with a nameless bridge are dummies of the daemon, as failed creations leave them. */
  ghost predicate OwnDummies(unnamed: set<string>, own: set<string>, others: set<string>) {
    unnamed <= own && unnamed !! others && forall d :: d in unnamed ==> IsDummy(d)
  }

  lemma NamelessGone(h: Host, end: Host, switches: Switches.Rows, rows: NetDevice.Rows, configs: seq<nat>,
                     before: set<string>, now: set<string>, others: set<string>)
    requires end == CleanedUp(h, switches, rows, configs)
    requires now <= before && now <= NodesOf(end.ether) + others
    ensures OwnDummies(before, h.own, others) ==> now == {}
  {
    if d :| OwnDummies(before, h.own, others) && d in now {
      var x :| x in end.ether && Ng.NgName(x) == d;
      BridgeNode(d, x);
      assert false;
    }
  }

  lemma SwitchesGone(h: Host, stopped: Host, destroyed: Host, switches: Switches.Rows, rows: NetDevice.Rows,
                     configs: seq<nat>)
    requires WellFormed(h) && WellFormed(stopped) && ProperNames(switches) && AllRowsSaved(rows)
    requires stopped == Remove(h, AllClaims(switches, rows, configs))
    requires destroyed == Without(stopped, NamesOf(switches, IfBridge, switches.Keys) * stopped.bridges.Keys)
    ensures WellFormed(destroyed) && SweepOwn(destroyed) == CleanedUp(h, switches, rows, configs)
  {
    var claims, names := AllClaims(switches, rows, configs), NamesOf(switches, IfBridge, switches.Keys);
    var there, all := Gear(names * stopped.bridges.Keys, {}, {}), Gear(names * h.bridges.Keys, {}, {});
    assert destroyed == Remove(stopped, there);
    NamesAreWhole(switches, there);
    AllClaimsWhole(switches, rows, configs);
    RemoveKeepsWellFormed(stopped, there);
    SweepCommutes(stopped, there);
    SweepCommutes(h, claims);
    RemoveBoth(SweepOwn(h), claims, there);
    SweptIsConsistent(h);
    RemoveSame(SweepOwn(h), Both(claims, there), Both(claims, all));
  }

  lemma SweptIsConsistent(h: Host)
    requires WellFormed(h)
    ensures WellFormed(SweepOwn(h))
  {
    OwnGearIsWhole(h);
    RemoveKeepsWellFormed(h, OwnGear(h));
  }

  lemma NamesAreWhole(switches: Switches.Rows, g: Gear)
    requires ProperNames(switches) && g.ifaces <= NamesOf(switches, IfBridge, switches.Keys) && g.epairs == {} &&
             g.pipes == {}
    ensures WholeGear(g)
  {
    forall n: nat
      ensures WholeIn(g, Numbered("epair", n))
    {
      var e := Numbered("epair", n);
      assert e + "a" in EndsOf(e) && e + "b" in EndsOf(e);
      forall x | x in g.ifaces
        ensures x !in EndsOf(e)
      {
        BridgeNameIsNoEnd(x);
      }
    }
  }

  lemma {:induction false} AllClaimsWhole(switches: map<string, Switch>, rows: NetDevice.Rows, configs: seq<nat>)
    requires AllRowsSaved(rows)
    ensures WholeGear(AllClaims(switches, rows, configs))
  {
    if configs != [] {
      var n := |configs| - 1;
      AllClaimsWhole(switches, rows, configs[..n]);
      ConfigClaimsWhole(switches, rows, configs[n]);
      forall m: nat
        ensures WholeIn(AllClaims(switches, rows, configs), Numbered("epair", m))
      {
        assert WholeIn(AllClaims(switches, rows, configs[..n]), Numbered("epair", m));
        assert WholeIn(ConfigClaims(switches, rows, configs[n]), Numbered("epair", m));
      }
    }
  }

  lemma ConfigClaimsWhole(switches: map<string, Switch>, rows: NetDevice.Rows, configId: nat)
    requires AllRowsSaved(rows)
    ensures WholeGear(ConfigClaims(switches, rows, configId))
  {
    forall n: nat
      ensures WholeIn(ConfigClaims(switches, rows, configId), Numbered("epair", n))
    {
      var e := Numbered("epair", n);
      forall id | id in rows
        ensures WholeIn(ClaimOf(switches, rows[id]), e)
      {
        ClaimIsWhole(switches, rows[id]);
      }
    }
  }

  lemma {:induction false} HarmlessClaims(base: Host, switches: map<string, Switch>, rows: NetDevice.Rows,
                                          configs: seq<nat>)
    requires HarmlessRows(base, rows)
    ensures Absent(AllClaims(switches, rows, configs), base)
  {
    if configs != [] {
      var n := |configs| - 1;
      HarmlessClaims(base, switches, rows, configs[..n]);
      forall id | id in rows
        ensures Absent(ClaimOf(switches, rows[id]), base)
      {
        assert Harmless(base, rows[id]);
      }
      assert Absent(ConfigClaims(switches, rows, configs[n]), base);
    }
  }

  /** On a host that was clean, the clean-up gives back the host without the daemon exactly
      when records and switches claim nothing of it. */
  lemma CleanUpRestoresExactly(base: Host, h: Host, switches: Switches.Rows, rows: NetDevice.Rows, configs: seq<nat>)
    requires CleanHost(base, h)
    ensures CleanedUp(h, switches, rows, configs) == base <==> Absent(CleanGear(h, switches, rows, configs), base)
  {
    SweptIsConsistent(h);
    RemovedExactly(base, CleanGear(h, switches, rows, configs));
  }

  /** Harmless records and switches claim nothing of it. */
  lemma HarmlessCleanUp(base: Host, h: Host, switches: Switches.Rows, rows: NetDevice.Rows, configs: seq<nat>)
    requires CleanHost(base, h) && HarmlessRows(base, rows) && SwitchesApart(base, switches)
    ensures CleanedUp(h, switches, rows, configs) == base
  {
    HarmlessClaims(base, switches, rows, configs);
    assert Absent(CleanGear(h, switches, rows, configs), base);
    CleanUpRestoresExactly(base, h, switches, rows, configs);
  }
}

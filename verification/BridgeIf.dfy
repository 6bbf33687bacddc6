/** The IF bridge commands (switch/bridge_if.go) and the epair helpers (epair/epair.go).
    On a reliable host each does exactly what NicWiring says; on any host each keeps every
    interface in at most one bridge. */
module BridgeIf {
  import opened Wrappers
  import opened FreeName
  import opened HostState
  import opened GroupSweep
  import opened Kernel
  import opened NicWiring

  datatype Error =
    | CommandFailed | InvalidName | AlreadyExists | NoSuchSwitch | NoSuchInterface
    | UplinkInUse | SwitchBusy

  lemma BridgeNameIsNoEnd(name: string)
    requires IsBridgeName(name)
    ensures NotEpairEnd(name) && name != ""
  {
    assert name[0] == 'b';
    forall n: nat, x | x in EndsOf(Numbered("epair", n))
      ensures x[0] == 'e'
    {
    }
  }

  lemma BridgeAddedSound(h: Host, name: string)
    requires Sound(h) && name !in h.ifaces && name != ""
    ensures Sound(AddBridge(h, name))
  {
  }

  /** The one dangerous step: the new member must not be in another bridge. */
  lemma MemberAddedSound(h: Host, bridge: string, member: string)
    requires Sound(h) && bridge in h.bridges && member in h.ifaces
    requires OnlyIn(h, bridge, member)
    ensures Sound(AddMember(h, bridge, member))
  {
  }

  lemma RemovalsSound(h: Host, bridge: string, member: string, gone: set<string>, epair: string)
    requires Sound(h)
    ensures Sound(DropMember(h, bridge, member)) && Sound(Without(h, gone)) && Sound(DropEpair(h, epair))
  {
  }

  method CreateIfSwitch(k: Machine, name: string) returns (err: Option<Error>)
    requires Sound(k.State())
    modifies k
    ensures Sound(k.State())
    ensures err.None? ==> BridgePossible(old(k.State()), name) && k.State() == AddBridge(old(k.State()), name)
    ensures err.Some? ==> k.State() == old(k.State())
    ensures k.reliable && BridgePossible(old(k.State()), name) ==> err.None?
    ensures k.reliable ==> (err.None? <==> "bridge" <= name && name !in old(k.ifaces))
    ensures err.None? ==> k.ifaces == old(k.ifaces) + {name} && k.bridges == old(k.bridges)[name := {}]
    ensures old(k.Clean()) ==> k.Clean()
    ensures old(k.past) <= k.past
  {
    if name == "" {
      return Some(InvalidName);
    }
    if !IsBridgeName(name) {
      return Some(InvalidName);
    }
    var all, listed := k.AllBridges();
    if !listed {
      return Some(CommandFailed);
    }
    if name in all {
      return Some(AlreadyExists);
    }
    BridgeNameIsNoEnd(name);
    var ok := k.CreateBridge(name);
    if !ok {
      return Some(CommandFailed);
    }
    BridgeAddedSound(old(k.State()), name);
    return None;
  }

  /** Bridge or member was not there before the daemon. */
  predicate Ours(base: Host, bridge: string, member: string) {
    bridge !in base.bridges || member !in base.ifaces
  }

  /** Exclusive only if the caller knows the member to be in no other bridge. */
  method IfAddMember(k: Machine, bridge: string, member: string) returns (err: Option<Error>)
    requires Sound(k.State())
    requires OnlyIn(k.State(), bridge, member)
    modifies k
    ensures Sound(k.State())
    ensures err.None? ==>
              bridge in old(k.bridges) && member in old(k.ifaces) &&
              k.State() == AddMember(old(k.State()), bridge, member)
    ensures err.Some? ==> k.State() == old(k.State())
    ensures k.reliable && bridge in old(k.bridges) && member in old(k.ifaces) ==> err.None?
    ensures err.None? ==>
              bridge in old(k.bridges) && k.bridges == old(k.bridges)[bridge := old(k.bridges)[bridge] + {member}]
    ensures old(k.Clean()) && Ours(k.base, bridge, member) ==> k.Clean()
    ensures old(k.past) <= k.past
  {
    var present := k.AllInterfaces();
    if bridge !in present {
      return Some(NoSuchSwitch);
    }
    if member !in present {
      return Some(NoSuchInterface);
    }
    var members, shown := k.MembersOf(bridge);
    if !shown {
      return Some(CommandFailed);
    }
    if member in members {
      assert k.bridges == k.bridges[bridge := k.bridges[bridge] + {member}] by {
        assert k.bridges[bridge] + {member} == k.bridges[bridge];
      }
      return None;
    }
    var ok := k.AddM(bridge, member);
    if !ok {
      return Some(CommandFailed);
    }
    MemberAddedSound(old(k.State()), bridge, member);
    return None;
  }

  method IfDeleteMember(k: Machine, bridge: string, member: string) returns (err: Option<Error>)
    requires Sound(k.State())
    modifies k
    ensures Sound(k.State())
    ensures k.State() == old(k.State()) || k.State() == DropMember(old(k.State()), bridge, member)
    ensures err.Some? ==> k.State() == old(k.State())
    ensures k.reliable ==> err.None? && k.State() == DropMember(old(k.State()), bridge, member)
    ensures k.reliable && bridge in old(k.bridges) ==>
              k.bridges == old(k.bridges)[bridge := old(k.bridges)[bridge] - {member}]
    ensures k.reliable && bridge !in old(k.bridges) ==> k.bridges == old(k.bridges)
    ensures old(k.Clean()) && Ours(k.base, bridge, member) ==> k.Clean()
    ensures old(k.past) <= k.past
  {
    var present := k.AllInterfaces();
    if bridge !in present {
      return None;
    }
    var members, shown := k.MembersOf(bridge);
    if !shown {
      return Some(CommandFailed);
    }
    if member !in members {
      assert bridge in k.bridges ==> k.bridges[bridge] - {member} == k.bridges[bridge];
      assert DropMember(k.State(), bridge, member).bridges == k.bridges;
      return None;
    }
    var ok := k.DeleteM(bridge, member);
    if !ok {
      return Some(CommandFailed);
    }
    RemovalsSound(old(k.State()), bridge, member, {}, "");
    return None;
  }

  /** getDummyBridgeName: counts down from 32767, "" on a failed query or when none is free. */
  method GetDummyBridgeName(k: Machine) returns (name: string)
    ensures name != "" ==> name == DummyName("bridge", k.bridges.Keys)
    ensures k.reliable ==> name == DummyName("bridge", k.bridges.Keys)
  {
    var taken, ok := k.AllBridges();
    if !ok {
      return "";
    }
    name := CountDown("bridge", taken);
  }

  /** getDummyEpairName. */
  method GetDummyEpairName(k: Machine) returns (name: string)
    ensures name != "" ==> name == DummyName("epair", k.epairs)
    ensures k.reliable ==> name == DummyName("epair", k.epairs)
  {
    var ok := Attempt(true, k.reliable);
    if !ok {
      return "";
    }
    name := CountDown("epair", k.epairs);
  }

  method CountDown(prefix: string, taken: set<string>) returns (name: string)
    ensures name == DummyName(prefix, taken)
    ensures name == "" <==> forall n: nat :: 1 <= n <= 32767 ==> Numbered(prefix, n) in taken
    ensures name != "" ==> exists n: nat :: 1 <= n <= 32767 && name == Numbered(prefix, n) && name !in taken &&
                             forall j: nat :: n < j <= 32767 ==> Numbered(prefix, j) in taken
  {
    var num := HIGHEST;
    while num > 0
      invariant DummyName(prefix, taken) == DummyFrom(prefix, taken, num)
    {
      name := Numbered(prefix, num);
      if name in taken {
        num := num - 1;
      } else {
        return name;
      }
    }
    return "";
  }

  /** memberUsedByIfSwitch: asks every bridge in turn. */
  method MemberUsed(k: Machine, member: string) returns (used: bool, err: Option<Error>)
    ensures err.None? ==> (used <==> !Unbridged(k.State(), member))
    ensures err.None? ==> (used <==> exists b :: b in k.bridges && member in k.bridges[b])
    ensures err.Some? ==> used
    ensures k.reliable && Consistent(k.State()) ==> err.None?
  {
    var all, listed := k.AllBridges();
    if !listed {
      return true, Some(CommandFailed);
    }
    var todo := all;
    while todo != {}
      invariant todo <= all
      invariant forall b :: b in all - todo ==> member !in k.bridges[b]
      decreases todo
    {
      var b :| b in todo;
      var members, shown := k.MembersOf(b);
      if !shown {
        return true, Some(CommandFailed);
      }
      if member in members {
        return true, None;
      }
      todo := todo - {b};
    }
    return false, None;
  }

  method DeleteAllMembers(k: Machine, bridge: string) returns (err: Option<Error>)
    requires Sound(k.State())
    modifies k
    ensures Sound(k.State()) && k.State() == old(k.State()).(bridges := k.bridges)
    ensures k.bridges.Keys == old(k.bridges).Keys
    ensures forall b :: b in k.bridges && b != bridge ==> k.bridges[b] == old(k.bridges)[b]
    ensures k.reliable && bridge in old(k.bridges) ==> err.None? && k.bridges[bridge] == {}
    ensures k.reliable && bridge in old(k.ifaces) ==> err.None?
    ensures old(k.Clean()) && bridge !in k.base.bridges ==> k.Clean()
    ensures old(k.past) <= k.past
  {
    var members, shown := k.MembersOf(bridge);
    if !shown {
      return Some(CommandFailed);
    }
    var todo := members;
    while todo != {}
      invariant old(k.past) <= k.past
      invariant Sound(k.State()) && k.State() == old(k.State()).(bridges := k.bridges)
      invariant k.bridges.Keys == old(k.bridges).Keys
      invariant forall b :: b in k.bridges && b != bridge ==> k.bridges[b] == old(k.bridges)[b]
      invariant k.reliable && bridge in k.bridges ==> k.bridges[bridge] == todo
      invariant old(k.Clean()) && bridge !in k.base.bridges ==> k.Clean()
      decreases todo
    {
      var member :| member in todo;
      err := IfDeleteMember(k, bridge, member);
      if err.Some? {
        return;
      }
      todo := todo - {member};
    }
    return None;
  }

  /** destroyIfSwitch: other bridges lose at most this one as a member. */
  method DestroyIfSwitch(k: Machine, name: string, cleanup: bool) returns (err: Option<Error>)
    requires Sound(k.State())
    modifies k
    ensures Sound(k.State())
    ensures forall b :: b in old(k.bridges) && b != name ==>
              b in k.bridges && k.bridges[b] in {old(k.bridges)[b], old(k.bridges)[b] - {name}}
    ensures k.bridges.Keys <= old(k.bridges).Keys
    ensures !cleanup ==> k.State() in {old(k.State()), BridgeDestroyed(old(k.State()), name)}
    ensures k.reliable ==> k.State() == BridgeDestroyed(old(k.State()), name)
    ensures k.reliable ==> (err.None? <==> "bridge" <= name)
    ensures k.reliable && "bridge" <= name ==>
              k.ifaces == old(k.ifaces) - {name} && k.bridges.Keys == old(k.bridges).Keys - {name}
    ensures old(k.Clean()) && NotOf(k.base, name) ==> k.Clean()
    ensures old(k.past) <= k.past
  {
    if !IsBridgeName(name) {
      return Some(InvalidName);
    }
    var present := k.AllInterfaces();
    if name !in present {
      return None;
    }
    if cleanup {
      err := DeleteAllMembers(k, name);
      if err.Some? {
        return;
      }
    }
    ghost var before := k.State();
    BridgeNameIsNoEnd(name);
    var ok := k.Destroy(name);
    if !ok {
      return Some(CommandFailed);
    }
    RemovalsSound(before, "", "", {name}, "");
    return None;
  }

  /** createIfSwitchWithMembers: `created` says the bridge came up, `added` how many members
      made it in before an error. */
  method CreateWithMembers(k: Machine, name: string, members: seq<string>)
    returns (err: Option<Error>, ghost created: bool, ghost added: nat)
    requires Sound(k.State())
    requires forall i :: 0 <= i < |members| ==> Unbridged(k.State(), members[i])
    modifies k
    ensures Sound(k.State()) && added <= |members|
    ensures k.State() == if created then AddMembers(AddBridge(old(k.State()), name), name, members[..added])
                         else old(k.State())
    ensures created ==> BridgePossible(old(k.State()), name)
    ensures err.None? ==> created && added == |members|
    ensures k.reliable ==> (created <==> BridgePossible(old(k.State()), name))
    ensures k.reliable && created ==>
              && (forall m :: m in members[..added] ==> m in k.ifaces)
              && (if added == |members| then err.None? else err.Some? && members[added] !in k.ifaces)
    ensures created ==>
              && k.bridges.Keys == old(k.bridges).Keys + {name}
              && (forall m :: m in k.bridges[name] <==> m in members[..added])
              && (forall b :: b in old(k.bridges) ==> k.bridges[b] == old(k.bridges)[b])
    ensures old(k.Clean()) ==> k.Clean()
    ensures old(k.past) <= k.past
  {
    if name == "" {
      return Some(InvalidName), false, 0;
    }
    err := CreateIfSwitch(k, name);
    if err.Some? {
      return err, false, 0;
    }
    created := true;
    if old(k.Clean()) {
      NotInBase(k.base, old(k.State()));
    }
    err, added := AddAll(k, name, members, old(k.State()));
    MembersGotIn(AddBridge(old(k.State()), name), name, members[..added]);
    OtherBridgesKept(AddBridge(old(k.State()), name), name, members[..added]);
    BridgesStay(AddBridge(old(k.State()), name), name, members[..added]);
  }

  /** The loop over the members of a bridge that has just been created. */
  method AddAll(k: Machine, name: string, members: seq<string>, ghost before: Host)
    returns (err: Option<Error>, ghost added: nat)
    requires Sound(k.State()) && name !in before.bridges && k.State() == AddBridge(before, name)
    requires forall i :: 0 <= i < |members| ==> Unbridged(before, members[i])
    modifies k
    ensures Sound(k.State()) && added <= |members|
    ensures k.State() == AddMembers(AddBridge(before, name), name, members[..added])
    ensures err.None? ==> added == |members|
    ensures k.reliable ==>
              && (forall m :: m in members[..added] ==> m in k.ifaces)
              && (if added == |members| then err.None? else err.Some? && members[added] !in k.ifaces)
    ensures old(k.Clean()) && name !in k.base.bridges ==> k.Clean()
    ensures old(k.past) <= k.past
  {
    added := 0;
    for i := 0 to |members|
      invariant old(k.past) <= k.past
      invariant added == i && k.State() == AddMembers(AddBridge(before, name), name, members[..i])
      invariant Sound(k.State())
      invariant old(k.Clean()) && name !in k.base.bridges ==> k.Clean()
    {
      MembersGotIn(AddBridge(before, name), name, members[..i]);
      err := AddNext(k, name, members, i, before);
      if err.Some? {
        return;
      }
      added := added + 1;
    }
    MembersGotIn(AddBridge(before, name), name, members[..|members|]);
    return None, added;
  }

  /** One turn of that loop. */
  method AddNext(k: Machine, name: string, members: seq<string>, i: nat, ghost before: Host)
    returns (err: Option<Error>)
    requires Sound(k.State()) && name !in before.bridges && i < |members| && Unbridged(before, members[i])
    requires k.State() == AddMembers(AddBridge(before, name), name, members[..i])
    modifies k
    ensures Sound(k.State()) && k.ifaces == old(k.ifaces)
    ensures k.State() == AddMembers(AddBridge(before, name), name, members[..if err.None? then i + 1 else i])
    ensures err.None? ==> members[i] in k.ifaces
    ensures k.reliable ==> (err.None? <==> members[i] in k.ifaces)
    ensures old(k.Clean()) && name !in k.base.bridges ==> k.Clean()
    ensures old(k.past) <= k.past
  {
    OnlyInNewBridge(before, name, members[..i], members[i]);
    AddMembersStep(AddBridge(before, name), name, members, i);
    err := IfAddMember(k, name, members[i]);
  }

  lemma {:induction false} MembersGotIn(h: Host, bridge: string, members: seq<string>)
    requires bridge in h.bridges
    ensures forall m :: m in AddMembers(h, bridge, members).bridges[bridge] <==> m in h.bridges[bridge] || m in members
  {
    if members != [] {
      var n := |members| - 1;
      MembersGotIn(h, bridge, members[..n]);
      assert members == members[..n] + [members[n]];
    }
  }

  lemma {:induction false} BridgesStay(h: Host, bridge: string, members: seq<string>)
    requires bridge in h.bridges
    ensures AddMembers(h, bridge, members).bridges.Keys == h.bridges.Keys
  {
    if members != [] {
      BridgesStay(h, bridge, members[..|members| - 1]);
    }
  }

  lemma AddMembersStep(h: Host, bridge: string, members: seq<string>, i: nat)
    requires bridge in h.bridges && i < |members|
    ensures AddMembers(h, bridge, members[..i + 1]) ==
            AddMember(AddMembers(h, bridge, members[..i]), bridge, members[i])
  {
    assert members[..i + 1][..i] == members[..i];
  }

  lemma {:induction false} OtherBridgesKept(h: Host, bridge: string, members: seq<string>)
    requires bridge in h.bridges
    ensures forall b :: b in h.bridges && b != bridge ==> AddMembers(h, bridge, members).bridges[b] == h.bridges[b]
  {
    if members != [] {
      OtherBridgesKept(h, bridge, members[..|members| - 1]);
    }
  }

  lemma OnlyInNewBridge(h: Host, name: string, members: seq<string>, member: string)
    requires Unbridged(h, member) && name !in h.bridges
    ensures OnlyIn(AddMembers(AddBridge(h, name), name, members), name, member)
  {
    OtherBridgesKept(AddBridge(h, name), name, members);
  }

  /** One `addm` after the other into the same bridge. */
  function AddMembers(h: Host, bridge: string, members: seq<string>): (r: Host)
    requires bridge in h.bridges
    ensures r.bridges.Keys == h.bridges.Keys && r == h.(bridges := r.bridges)
  {
    if members == [] then h
    else AddMember(AddMembers(h, bridge, members[..|members| - 1]), bridge, members[|members| - 1])
  }
}

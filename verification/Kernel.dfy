/** The host as a mutable object, and the commands the daemon runs against it. A command
    that is possible may still fail, unless the host is `reliable`. */
module Kernel {
  import opened Wrappers
  import opened HostState
  import opened GroupSweep

  class Machine {
    var ifaces: set<string>
    var own: set<string>
    var ether: set<string>
    var bridges: map<string, set<string>>
    var epairs: set<string>
    var pipes: set<string>
    const reliable: bool
    ghost const base: Host          // the host without what the daemon had made at first
    ghost var past: set<Host>       // every state after a command, the first state included

    constructor (h: Host, reliable: bool)
      ensures State() == h && this.reliable == reliable
      ensures base == SweepOwn(h) && past == {h} && (WellFormed(h) && Exclusive(h) ==> Clean())
    {
      base, past := SweepOwn(h), {h};
      ifaces, own, ether := h.ifaces, h.own, h.ether;
      bridges, epairs, pipes := h.bridges, h.epairs, h.pipes;
      this.reliable := reliable;
    }

    function State(): Host
      reads this
    {
      Host(ifaces, own, ether, bridges, epairs, pipes)
    }

    /** After every command so far, the host without the group was what it is now, and no
        interface was in two bridges. */
    ghost predicate Clean()
      reads this
    {
      State() in past && forall h :: h in past ==> CleanHost(base, h) && Exclusive(h)
    }

    /** A command is one step: the state it leads to is on record. */
    ghost predicate Recorded(before: Host, was: set<Host>)
      reads this
    {
      past == was + {State()} || (State() == before && past == was)
    }

    /** GetAllHostInterfaces: a failing query reads as no interfaces at all. */
    method AllInterfaces() returns (names: set<string>)
      ensures names == ifaces || (!reliable && names == {})
    {
      var ok := Attempt(true, reliable);
      names := if ok then ifaces else {};
    }

    /** GetHostInterfaces: when the groups of any interface cannot be read, no interface at all. */
    method UplinkCandidates() returns (names: set<string>)
      ensures names == HostInterfaces(State()) || (!reliable && names == {})
    {
      var ok := Attempt(true, reliable);
      names := if ok then ether - own else {};
    }

    /** `ifconfig -g bridge`. */
    method AllBridges() returns (names: set<string>, ok: bool)
      ensures ok ==> names == bridges.Keys
      ensures reliable ==> ok
    {
      ok := Attempt(true, reliable);
      names := if ok then bridges.Keys else {};
    }

    /** `ifconfig <bridge>`; an interface that is no bridge shows no members. */
    method MembersOf(name: string) returns (members: set<string>, ok: bool)
      ensures ok ==> name in ifaces && members == if name in bridges then bridges[name] else {}
      ensures reliable && name in ifaces ==> ok
    {
      ok := Attempt(name in ifaces, reliable);
      members := if ok && name in bridges then bridges[name] else {};
    }

    /** The host after a command. */
    method Become(h: Host)
      modifies this
      ensures State() == h && past == old(past) + {h}
    {
      ifaces, own, ether, bridges, epairs, pipes := h.ifaces, h.own, h.ether, h.bridges, h.epairs, h.pipes;
      past := past + {h};
    }

    method CreateBridge(name: string) returns (ok: bool)
      modifies this
      ensures Recorded(old(State()), old(past))
      ensures ok ==> name !in old(ifaces) && State() == AddBridge(old(State()), name)
      ensures !ok ==> State() == old(State())
      ensures reliable && name !in old(ifaces) ==> ok
      ensures old(Clean()) && NotEpairEnd(name) && name != "" ==> Clean()
    {
      ok := Attempt(name !in ifaces, reliable);
      var h := State();
      if ok {
        Become(AddBridge(h, name));
      }
      if ok && old(Clean()) && NotEpairEnd(name) && name != "" {
        BridgeSwept(h, name);
      }
    }

    /** `addm`; that the interface is in no other bridge is left to the daemon. */
    method AddM(bridge: string, member: string) returns (ok: bool)
      modifies this
      ensures Recorded(old(State()), old(past))
      ensures ok ==>
                bridge in old(bridges) && member in old(ifaces) && State() == AddMember(old(State()), bridge, member)
      ensures !ok ==> State() == old(State())
      ensures reliable && bridge in old(bridges) && member in old(ifaces) ==> ok
      ensures old(Clean() && OnlyIn(State(), bridge, member)) && (bridge !in base.bridges || member !in base.ifaces) ==>
                Clean()
    {
      ok := Attempt(bridge in bridges && member in ifaces, reliable);
      var h := State();
      if ok {
        Become(AddMember(h, bridge, member));
      }
      if ok && old(Clean() && OnlyIn(State(), bridge, member)) && (bridge !in base.bridges || member !in base.ifaces) {
        NotInBase(base, h);
        MemberSwept(h, bridge, member);
      }
    }

    method DeleteM(bridge: string, member: string) returns (ok: bool)
      modifies this
      ensures Recorded(old(State()), old(past))
      ensures ok ==> State() == DropMember(old(State()), bridge, member)
      ensures !ok ==> State() == old(State())
      ensures reliable && bridge in old(bridges) && member in old(bridges)[bridge] ==> ok
      ensures old(Clean()) && (bridge !in base.bridges || member !in base.ifaces) ==> Clean()
    {
      ok := Attempt(bridge in bridges && member in bridges[bridge], reliable);
      var h := State();
      if ok {
        Become(DropMember(h, bridge, member));
      }
      if ok && old(Clean()) && (bridge !in base.bridges || member !in base.ifaces) {
        NotInBase(base, h);
        DropSwept(h, bridge, member);
      }
    }

    /** `ifconfig <name> create` for a tap or vmnet device. */
    method CreateDevice(name: string) returns (ok: bool)
      modifies this
      ensures Recorded(old(State()), old(past))
      ensures ok ==> name !in old(ifaces) && State() == AddIface(old(State()), name)
      ensures !ok ==> State() == old(State())
      ensures reliable && name !in old(ifaces) ==> ok
      ensures old(Clean()) && NotEpairEnd(name) && name != "" ==> Clean()
    {
      ok := Attempt(name !in ifaces, reliable);
      var h := State();
      if ok {
        Become(AddIface(h, name));
      }
      if ok && old(Clean()) && NotEpairEnd(name) && name != "" {
        IfaceSwept(h, name);
      }
    }

    /** `ifconfig <name> destroy` for anything but an epair end. */
    method Destroy(name: string) returns (ok: bool)
      modifies this
      ensures Recorded(old(State()), old(past))
      ensures ok ==> name in old(ifaces) && State() == Without(old(State()), {name})
      ensures !ok ==> State() == old(State())
      ensures reliable && name in old(ifaces) ==> ok
      ensures old(Clean()) && NotEpairEnd(name) && name !in base.ifaces ==> Clean()
    {
      ok := Attempt(name in ifaces, reliable);
      var h := State();
      if ok {
        Become(Without(h, {name}));
      }
      if ok && old(Clean()) && NotEpairEnd(name) && name !in base.ifaces {
        NotInBase(base, h);
        DestroySwept(h, name);
      }
    }

    /** `ifconfig <epair> create group cirrinad`. */
    method CreatePair(name: string) returns (ok: bool)
      modifies this
      ensures Recorded(old(State()), old(past))
      ensures ok ==> EndsOf(name) !! old(ifaces) && State() == AddBareEpair(old(State()), name)
      ensures !ok ==> State() == old(State())
      ensures reliable && EndsOf(name) !! old(ifaces) ==> ok
      ensures old(Clean()) && IsEpairName(name) ==> Clean()
    {
      ok := Attempt(EndsOf(name) !! ifaces, reliable);
      var h := State();
      if ok {
        Become(AddBareEpair(h, name));
      }
      if ok && old(Clean()) && IsEpairName(name) {
        BareEpairSwept(h, name);
      }
    }

    /** `ifconfig <end> up group cirrinad`. */
    method UpInGroup(name: string) returns (ok: bool)
      modifies this
      ensures Recorded(old(State()), old(past))
      ensures ok ==> name in ifaces && State() == old(State()).(own := old(own) + {name})
      ensures !ok ==> State() == old(State())
      ensures reliable && name in ifaces ==> ok
      ensures old(Clean()) && name !in base.ifaces ==> Clean()
    {
      ok := Attempt(name in ifaces, reliable);
      var h := State();
      if ok {
        Become(h.(own := own + {name}));
      }
      if ok && old(Clean()) && name !in base.ifaces {
        NotInBase(base, h);
        JoinGroupSwept(h, name);
      }
    }

    /** Destroying the `a` end destroys the pair. */
    method DestroyPair(name: string) returns (ok: bool)
      modifies this
      ensures Recorded(old(State()), old(past))
      ensures ok ==> name + "a" in old(ifaces) && State() == DropEpair(old(State()), name)
      ensures !ok ==> State() == old(State())
      ensures reliable && name + "a" in old(ifaces) ==> ok
      ensures old(Clean()) && IsEpairName(name) && name !in base.epairs ==> Clean()
    {
      ok := Attempt(name + "a" in ifaces, reliable);
      var h := State();
      if ok {
        Become(DropEpair(h, name));
      }
      if ok && old(Clean()) && IsEpairName(name) && name !in base.epairs {
        OwnPairSwept(h, name);
      }
    }

    lemma OwnPairSwept(h: Host, name: string)
      requires CleanHost(base, h) && IsEpairName(name) && name !in base.epairs && name + "a" in h.ifaces
      ensures CleanHost(base, DropEpair(h, name))
    {
      NotInBase(base, h);
      assert WholeEpair(h, name);
      DestroyPairSwept(h, name);
    }

    /** `ifconfig <name> destroy` for any interface; the end of an epair takes the pair along. */
    method DestroyAny(name: string) returns (ok: bool)
      modifies this
      ensures Recorded(old(State()), old(past))
      ensures ok ==> name in old(ifaces) && State() == AnyDestroyed(old(State()), name)
      ensures !ok ==> State() == old(State())
      ensures reliable && name in old(ifaces) ==> ok
      ensures old(Clean()) && name in old(own) ==> Clean()
    {
      var h := State();
      ok := Attempt(name in ifaces, reliable);
      if ok {
        Become(AnyDestroyed(h, name));
      }
      if ok && old(Clean()) && name in old(own) {
        AnySwept(h, name);
      }
    }

    /** An end of an epair that was not there before the daemon. */
    ghost predicate EndOfOwn(end: string) {
      exists e :: IsEpairName(e) && e !in base.epairs && end in EndsOf(e)
    }

    /** The `ngctl` sequence that puts a named pipe on an epair end; it can stop with the
        pipe named and not yet wired or configured. */
    method LayPipe(end: string) returns (ok: bool)
      modifies this
      ensures Recorded(old(State()), old(past))
      ensures ok ==> end + "_pipe" !in old(pipes)
      ensures State() == old(State()).(pipes := old(pipes) + {end + "_pipe"}) || (!ok && State() == old(State()))
      ensures reliable ==> (ok <==> end in old(ifaces) && end + "_pipe" !in old(pipes))
      ensures reliable && !ok ==> State() == old(State())
      ensures old(Clean()) && EndOfOwn(end) ==> Clean()
    {
      ok := Attempt(end in ifaces && end + "_pipe" !in pipes, reliable);
      var h := State();
      ghost var laid := ok;
      if ok {
        Become(h.(pipes := pipes + {end + "_pipe"}));
        ok := Attempt(true, reliable);
      }
      if laid && old(Clean()) && EndOfOwn(end) {
        OwnPipeSwept(h, end);
      }
    }

    lemma OwnPipeSwept(h: Host, end: string)
      requires CleanHost(base, h) && EndOfOwn(end) && end in h.ifaces
      ensures CleanHost(base, h.(pipes := h.pipes + {end + "_pipe"}))
    {
      var e :| IsEpairName(e) && e !in base.epairs && end in EndsOf(e);
      NotInBase(base, h);
      assert WholeEpair(h, e);
      PipeLaidSwept(h, e, end + "_pipe");
    }

    method ShutdownPipe(end: string) returns (ok: bool)
      modifies this
      ensures Recorded(old(State()), old(past))
      ensures State() == old(State()).(pipes := old(pipes) - {end + "_pipe"}) || (!ok && State() == old(State()))
      ensures reliable ==> State() == old(State()).(pipes := old(pipes) - {end + "_pipe"})
      ensures old(Clean()) && end + "_pipe" !in base.pipes ==> Clean()
    {
      ok := Attempt(end + "_pipe" in pipes, reliable);
      var h := State();
      if ok {
        Become(h.(pipes := pipes - {end + "_pipe"}));
      }
      if ok && old(Clean()) && end + "_pipe" !in base.pipes {
        NotInBase(base, h);
        PipeShutSwept(h, end + "_pipe");
      }
    }
  }
}

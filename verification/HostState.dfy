/** The part of the host the daemon changes: interfaces, if_bridge membership, epairs and
    netgraph pipes. Functions give the effect of a host command that is carried out. */
module HostState {
  import opened FreeName

  /** `own` are the interfaces in group `cirrinad`, `ether` those with a hardware address;
      `bridges` maps each IF bridge to its members; `epairs` holds base names (`epair7` for
      `epair7a`/`epair7b`), `pipes` netgraph node names. */
  datatype Host = Host(
    ifaces: set<string>,
    own: set<string>,
    ether: set<string>,
    bridges: map<string, set<string>>,
    epairs: set<string>,
    pipes: set<string>)

  /** What the kernel keeps true: epairs are numbered, their ends are the only interfaces of
      such names, and a pipe on an epair end does not outlive the epair. */
  ghost predicate WellFormed(h: Host) {
    && Consistent(h)
    && (forall e :: e in h.epairs ==> IsEpairName(e))
    && (forall n: nat :: WholeEpair(h, Numbered("epair", n)))
  }

  ghost predicate IsEpairName(e: string) {
    exists n: nat :: e == Numbered("epair", n)
  }

  predicate WholeEpair(h: Host, e: string) {
    && (e in h.epairs <==> e + "a" in h.ifaces) && (e in h.epairs <==> e + "b" in h.ifaces)
    && (e !in h.epairs ==> h.pipes !! PipesOf(e))
  }

  ghost predicate NotEpairEnd(name: string) {
    forall n: nat :: name !in EndsOf(Numbered("epair", n))
  }

  /** No interface is in two bridges. */
  ghost predicate Exclusive(h: Host) {
    forall b, c, m :: b in h.bridges && c in h.bridges && m in h.bridges[b] && m in h.bridges[c] ==> b == c
  }

  /** Members and bridges are interfaces, and interfaces have names. */
  predicate Consistent(h: Host) {
    && h.bridges.Keys <= h.ifaces && (forall b :: b in h.bridges ==> h.bridges[b] <= h.ifaces)
    && h.own <= h.ifaces && h.ether <= h.ifaces && "" !in h.ifaces
  }

  /** GetHostInterfaces: what the daemon did not make and has a hardware address. Only
      these are accepted as uplinks when a switch is created or brought up. */
  function HostInterfaces(h: Host): set<string> {
    h.ether - h.own
  }

  /** What every operation keeps, whatever commands fail. */
  ghost predicate Sound(h: Host) {
    Consistent(h) && Exclusive(h)
  }

  predicate Unbridged(h: Host, m: string) {
    forall b :: b in h.bridges ==> m !in h.bridges[b]
  }

  /** The interface can be added to `bridge` without ending up in two. */
  predicate OnlyIn(h: Host, bridge: string, member: string) {
    forall b :: b in h.bridges && member in h.bridges[b] ==> b == bridge
  }

  function EndsOf(epair: string): set<string> {
    {epair + "a", epair + "b"}
  }

  function PipesOf(epair: string): set<string> {
    {epair + "a" + "_pipe", epair + "b" + "_pipe"}
  }

  function AddIface(h: Host, name: string): Host {
    h.(ifaces := h.ifaces + {name}, own := h.own + {name}, ether := h.ether + {name})
  }

  function AddBridge(h: Host, name: string): Host {
    AddIface(h, name).(bridges := h.bridges[name := {}])
  }

  function AddMember(h: Host, bridge: string, member: string): Host
    requires bridge in h.bridges
  {
    h.(bridges := h.bridges[bridge := h.bridges[bridge] + {member}])
  }

  /** `deletem`; nothing to do when the bridge is absent. */
  function DropMember(h: Host, bridge: string, member: string): Host {
    if bridge in h.bridges then h.(bridges := h.bridges[bridge := h.bridges[bridge] - {member}]) else h
  }

  function AddEpair(h: Host, epair: string): Host {
    h.(ifaces := h.ifaces + EndsOf(epair), own := h.own + EndsOf(epair), ether := h.ether + EndsOf(epair),
       epairs := h.epairs + {epair})
  }

  /** The pair as `create group` leaves it: only the `a` end is in the group. */
  function AddBareEpair(h: Host, epair: string): Host {
    AddEpair(h, epair).(own := h.own + {epair + "a"})
  }

  /** Destroying interfaces takes them out of every bridge. */
  function Without(h: Host, gone: set<string>): Host {
    h.(ifaces := h.ifaces - gone, own := h.own - gone, ether := h.ether - gone,
       bridges := map b | b in h.bridges && b !in gone :: h.bridges[b] - gone)
  }

  /** Both ends go, and with them their pipes. */
  function DropEpair(h: Host, epair: string): Host {
    Without(h, EndsOf(epair)).(epairs := h.epairs - {epair}, pipes := h.pipes - PipesOf(epair))
  }

  /** Interfaces, epairs and pipes, to be taken away together. */
  datatype Gear = Gear(ifaces: set<string>, epairs: set<string>, pipes: set<string>)

  const NOTHING: Gear := Gear({}, {}, {})

  function Remove(h: Host, g: Gear): Host {
    Without(h, g.ifaces).(epairs := h.epairs - g.epairs, pipes := h.pipes - g.pipes)
  }

  function Both(g: Gear, more: Gear): Gear {
    Gear(g.ifaces + more.ifaces, g.epairs + more.epairs, g.pipes + more.pipes)
  }

  /** None of it is on the host. */
  predicate Absent(g: Gear, h: Host) {
    g.ifaces !! h.ifaces && g.epairs !! h.epairs && g.pipes !! h.pipes
  }

  /** Epairs only go whole, with their pipes. */
  ghost predicate WholeGear(g: Gear) {
    forall n: nat :: WholeIn(g, Numbered("epair", n))
  }

  predicate WholeIn(g: Gear, e: string) {
    && (e in g.epairs <==> e + "a" in g.ifaces) && (e in g.epairs <==> e + "b" in g.ifaces)
    && (e in g.epairs ==> PipesOf(e) <= g.pipes)
  }

  lemma SameBridges(h: Host, back: Host)
    requires h.bridges.Keys == back.bridges.Keys
    requires forall b :: b in h.bridges ==> back.bridges[b] == h.bridges[b]
    ensures h.bridges == back.bridges
  {
  }

  lemma RemoveBoth(h: Host, g: Gear, more: Gear)
    ensures Remove(Remove(h, g), more) == Remove(h, Both(g, more))
  {
    SameBridges(Remove(Remove(h, g), more), Remove(h, Both(g, more)));
  }

  /** Removals commute. */
  lemma RemoveSwap(h: Host, g: Gear, more: Gear)
    ensures Remove(Remove(h, g), more) == Remove(Remove(h, more), g)
  {
    RemoveBoth(h, g, more);
    RemoveBoth(h, more, g);
    assert Both(g, more) == Both(more, g);
  }

  lemma RemoveKeepsWellFormed(h: Host, g: Gear)
    requires WellFormed(h) && WholeGear(g)
    ensures WellFormed(Remove(h, g))
  {
    forall n: nat
      ensures WholeEpair(Remove(h, g), Numbered("epair", n))
    {
      assert WholeEpair(h, Numbered("epair", n)) && WholeIn(g, Numbered("epair", n));
    }
  }

  lemma RemoveAbsent(h: Host, g: Gear)
    requires Consistent(h) && Absent(g, h)
    ensures Remove(h, g) == h
  {
    SameBridges(h, Remove(h, g));
  }

  /** One end tells its epair. */
  lemma EndsApart(e: string, f: string)
    requires e != f
    ensures EndsOf(e) !! EndsOf(f) && PipesOf(e) !! PipesOf(f)
  {
    forall x, y | x in {"a", "b"} && y in {"a", "b"}
      ensures e + x != f + y && e + x + "_pipe" != f + y + "_pipe"
    {
      assert (e + x)[..|e|] == e && (e + x + "_pipe")[..|e|] == e;
      if |e| == |f| {
        assert (f + y)[..|e|] == f && (f + y + "_pipe")[..|e|] == f;
      }
    }
  }

  lemma IfaceKeepsWellFormed(h: Host, name: string)
    requires WellFormed(h) && NotEpairEnd(name) && name != ""
    ensures WellFormed(AddIface(h, name))
  {
    forall n: nat
      ensures WholeEpair(AddIface(h, name), Numbered("epair", n))
    {
      var e := Numbered("epair", n);
      assert WholeEpair(h, e) && name !in EndsOf(e);
      assert e + "a" in EndsOf(e) && e + "b" in EndsOf(e);
    }
  }

  /** Memberships do not matter to epairs. */
  lemma BridgesKeepWellFormed(h: Host, bridges: map<string, set<string>>)
    requires WellFormed(h) && Consistent(h.(bridges := bridges))
    ensures WellFormed(h.(bridges := bridges))
  {
    forall n: nat
      ensures WholeEpair(h.(bridges := bridges), Numbered("epair", n))
    {
      assert WholeEpair(h, Numbered("epair", n));
    }
  }

  lemma EpairKeepsWellFormed(h: Host, n: nat, pipes: set<string>)
    requires WellFormed(h) && Numbered("epair", n) !in h.epairs && pipes <= PipesOf(Numbered("epair", n))
    ensures WellFormed(AddEpair(h, Numbered("epair", n)).(pipes := h.pipes + pipes))
  {
    var e := Numbered("epair", n);
    var end := AddEpair(h, e).(pipes := h.pipes + pipes);
    assert "" !in EndsOf(e);
    forall m: nat
      ensures WholeEpair(end, Numbered("epair", m))
    {
      var f := Numbered("epair", m);
      assert WholeEpair(h, f);
      assert f + "a" in EndsOf(f) && f + "b" in EndsOf(f);
      if e != f {
        EndsApart(e, f);
      }
    }
  }

  // What is added and then removed leaves what there was before.

  lemma IfaceUnderRemoval(h: Host, name: string, g: Gear)
    requires name in g.ifaces
    ensures Remove(AddIface(h, name), g) == Remove(h, g)
  {
  }

  lemma BridgeUnderRemoval(h: Host, name: string, g: Gear)
    requires name in g.ifaces
    ensures Remove(AddBridge(h, name), g) == Remove(h, g)
  {
    SameBridges(Remove(AddBridge(h, name), g), Remove(h, g));
  }

  lemma MemberUnderRemoval(h: Host, bridge: string, member: string, g: Gear)
    requires bridge in h.bridges && (bridge in g.ifaces || member in g.ifaces)
    ensures Remove(AddMember(h, bridge, member), g) == Remove(h, g)
  {
    SameBridges(Remove(AddMember(h, bridge, member), g), Remove(h, g));
  }

  lemma DroppedUnderRemoval(h: Host, bridge: string, member: string, g: Gear)
    requires bridge in g.ifaces || member in g.ifaces
    ensures Remove(DropMember(h, bridge, member), g) == Remove(h, g)
  {
    SameBridges(Remove(DropMember(h, bridge, member), g), Remove(h, g));
  }

  lemma EpairUnderRemoval(h: Host, e: string, pipes: set<string>, g: Gear)
    requires EndsOf(e) <= g.ifaces && e in g.epairs && pipes <= g.pipes
    ensures Remove(AddEpair(h, e).(pipes := h.pipes + pipes), g) == Remove(h, g)
  {
  }

  lemma PipesUnderRemoval(h: Host, pipes: set<string>, g: Gear)
    requires pipes <= g.pipes
    ensures Remove(h.(pipes := h.pipes + pipes), g) == Remove(h, g)
  {
  }

  /** Only what is there counts. */
  lemma RemoveSame(h: Host, g: Gear, other: Gear)
    requires Consistent(h) && g.ifaces * h.ifaces == other.ifaces * h.ifaces
    requires g.epairs * h.epairs == other.epairs * h.epairs && g.pipes * h.pipes == other.pipes * h.pipes
    ensures Remove(h, g) == Remove(h, other)
  {
    assert forall x :: x in h.ifaces ==> (x in g.ifaces <==> x in g.ifaces * h.ifaces);
    assert forall x :: x in h.ifaces ==> (x in other.ifaces <==> x in other.ifaces * h.ifaces);
    assert forall x :: x in h.epairs ==> (x in g.epairs <==> x in g.epairs * h.epairs);
    assert forall x :: x in h.epairs ==> (x in other.epairs <==> x in other.epairs * h.epairs);
    assert forall x :: x in h.pipes ==> (x in g.pipes <==> x in g.pipes * h.pipes);
    assert forall x :: x in h.pipes ==> (x in other.pipes <==> x in other.pipes * h.pipes);
    SameBridges(Remove(h, g), Remove(h, other));
  }

  const HIGHEST: nat := 32767

  /** The highest number in 1..n whose name is free, or "" when all are taken. */
  function DummyFrom(prefix: string, taken: set<string>, n: nat): (name: string)
    ensures name != "" ==> name !in taken &&
                           exists k: nat :: 1 <= k <= n && name == Numbered(prefix, k) &&
                             forall j: nat :: k < j <= n ==> Numbered(prefix, j) in taken
    ensures name == "" <==> forall j: nat :: 1 <= j <= n ==> Numbered(prefix, j) in taken
  {
    if n == 0 then ""
    else if Numbered(prefix, n) in taken then DummyFrom(prefix, taken, n - 1)
    else Numbered(prefix, n)
  }

  function DummyName(prefix: string, taken: set<string>): string {
    DummyFrom(prefix, taken, HIGHEST)
  }
}

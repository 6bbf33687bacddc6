/** The group `cirrinad`: what the daemon has made, and the host without it. Every command the
    daemon gives to make something, or to take away what it made, leaves the host without
    its group as it was. */
module GroupSweep {
  import opened FreeName
  import opened HostState

  /** An epair with an end in the group goes as a whole. */
  predicate OwnPair(h: Host, e: string) {
    e in h.epairs && (e + "a" in h.own || e + "b" in h.own)
  }

  /** What goes when every interface of the group is destroyed. */
  function OwnGear(h: Host): Gear {
    Gear(
      h.own + (set e, x | e in h.epairs && OwnPair(h, e) && x in EndsOf(e) :: x),
      set e | e in h.epairs && OwnPair(h, e),
      set e, p | e in h.epairs && OwnPair(h, e) && p in PipesOf(e) :: p)
  }

  function SweepOwn(h: Host): Host {
    Remove(h, OwnGear(h))
  }

  /** The interface is in the group, or the other end of its epair is. */
  predicate InGroup(h: Host, x: string) {
    x in h.own || exists e :: e in h.epairs && x in {e + "a", e + "b"} && (e + "a" in h.own || e + "b" in h.own)
  }

  /** Exactly the interfaces of the group have gone, out of every bridge, and whole epairs. */
  ghost predicate GroupGone(h: Host, end: Host) {
    && (forall x :: x in end.ifaces <==> x in h.ifaces && !InGroup(h, x))
    && end.bridges.Keys == h.bridges.Keys * end.ifaces
    && (forall b :: b in end.bridges ==> end.bridges[b] == h.bridges[b] * end.ifaces)
    && (forall e :: e in end.epairs <==> e in h.epairs && e + "a" !in h.own && e + "b" !in h.own)
    && end.own == {}
  }

  lemma SweepIs(h: Host)
    requires WellFormed(h)
    ensures GroupGone(h, SweepOwn(h))
  {
    forall x
      ensures x in OwnGear(h).ifaces <==> InGroup(h, x)
    {
      if e :| e in h.epairs && x in {e + "a", e + "b"} && (e + "a" in h.own || e + "b" in h.own) {
        assert OwnPair(h, e) && x in EndsOf(e);
      }
      if e :| e in h.epairs && OwnPair(h, e) && x in EndsOf(e) {
        assert x in {e + "a", e + "b"};
      }
    }
  }

  /** The host is `base` plus what the daemon made. */
  ghost predicate CleanHost(base: Host, h: Host) {
    WellFormed(h) && SweepOwn(h) == base
  }

  lemma OwnGearIsWhole(h: Host)
    requires WellFormed(h)
    ensures WholeGear(OwnGear(h))
  {
    forall n: nat
      ensures WholeIn(OwnGear(h), Numbered("epair", n))
    {
      var e := Numbered("epair", n);
      assert WholeEpair(h, e) && e + "a" in EndsOf(e) && e + "b" in EndsOf(e);
      forall f | f in h.epairs && f != e
        ensures EndsOf(e) !! EndsOf(f)
      {
        EndsApart(e, f);
      }
    }
  }

  /** Something new under a removal of its own. */
  lemma SweptAddition(h: Host, end: Host, added: Gear)
    requires Consistent(h) && Absent(added, h) && Remove(end, added) == Remove(h, added)
    requires OwnGear(end) == Both(added, OwnGear(h))
    ensures SweepOwn(end) == SweepOwn(h)
  {
    RemoveAbsent(h, added);
    RemoveBoth(end, added, OwnGear(h));
  }

  lemma IfaceSwept(h: Host, name: string)
    requires WellFormed(h) && NotEpairEnd(name) && name != "" && name !in h.ifaces
    ensures WellFormed(AddIface(h, name)) && SweepOwn(AddIface(h, name)) == SweepOwn(h)
  {
    var end, added := AddIface(h, name), Gear({name}, {}, {});
    IfaceKeepsWellFormed(h, name);
    forall e | e in h.epairs
      ensures OwnPair(end, e) <==> OwnPair(h, e)
    {
      var n: nat :| e == Numbered("epair", n);
      assert name !in EndsOf(e);
    }
    assert OwnGear(end) == Both(added, OwnGear(h));
    IfaceUnderRemoval(h, name, added);
    SweptAddition(h, end, added);
  }

  lemma BridgeSwept(h: Host, name: string)
    requires WellFormed(h) && NotEpairEnd(name) && name != "" && name !in h.ifaces
    ensures WellFormed(AddBridge(h, name)) && SweepOwn(AddBridge(h, name)) == SweepOwn(h)
  {
    IfaceSwept(h, name);
    BridgesKeepWellFormed(AddIface(h, name), h.bridges[name := {}]);
    BridgeUnderRemoval(h, name, OwnGear(AddBridge(h, name)));
    IfaceUnderRemoval(h, name, OwnGear(AddIface(h, name)));
    assert OwnGear(AddBridge(h, name)) == OwnGear(AddIface(h, name));
  }

  lemma BareEpairSwept(h: Host, e: string)
    requires WellFormed(h) && IsEpairName(e) && EndsOf(e) !! h.ifaces
    ensures WellFormed(AddBareEpair(h, e)) && SweepOwn(AddBareEpair(h, e)) == SweepOwn(h)
  {
    var n: nat :| e == Numbered("epair", n);
    var end, added := AddBareEpair(h, e), Gear(EndsOf(e), {e}, PipesOf(e));
    assert WholeEpair(h, e);
    EpairKeepsWellFormed(h, n, {});
    assert h.pipes + {} == h.pipes;
    BareIsWellFormed(AddEpair(h, e), end);
    forall f | f in h.epairs
      ensures OwnPair(end, f) <==> OwnPair(h, f)
    {
      EndsApart(e, f);
      assert f + "a" in EndsOf(f) && f + "b" in EndsOf(f);
    }
    assert OwnPair(end, e);
    assert OwnGear(end) == Both(added, OwnGear(h));
    EpairUnderRemoval(h, e, {}, added);
    assert Remove(end, added).own == Remove(AddEpair(h, e), added).own;
    SweptAddition(h, end, added);
  }

  /** The group does not matter to well-formedness, as long as its members are there. */
  lemma BareIsWellFormed(h: Host, end: Host)
    requires WellFormed(h) && end == h.(own := end.own) && end.own <= h.ifaces
    ensures WellFormed(end)
  {
    forall n: nat
      ensures WholeEpair(end, Numbered("epair", n))
    {
      assert WholeEpair(h, Numbered("epair", n));
    }
  }

  /** The host had no interface of this name before the daemon. */
  predicate NotOf(base: Host, name: string) {
    name !in base.ifaces && name !in base.bridges
  }

  /** What is on the host and was not there before the daemon is to be swept. */
  lemma NotInBase(base: Host, h: Host)
    requires CleanHost(base, h)
    ensures base.ifaces <= h.ifaces && base.bridges.Keys <= h.ifaces
    ensures forall x :: x in h.ifaces && x !in base.ifaces ==> x in OwnGear(h).ifaces
    ensures forall e :: e in h.epairs && e !in base.epairs ==> OwnPair(h, e)
    ensures forall p :: p in h.pipes && p !in base.pipes ==> p in OwnGear(h).pipes
    ensures forall b :: b in h.bridges && b !in base.bridges ==> b in OwnGear(h).ifaces
  {
  }

  lemma JoinGroupSwept(h: Host, name: string)
    requires WellFormed(h) && name in h.ifaces && name in OwnGear(h).ifaces
    ensures var end := h.(own := h.own + {name}); WellFormed(end) && SweepOwn(end) == SweepOwn(h)
  {
    var end := h.(own := h.own + {name});
    BareIsWellFormed(h, end);
    forall e | e in h.epairs
      ensures OwnPair(end, e) <==> OwnPair(h, e)
    {
      if OwnPair(end, e) && !OwnPair(h, e) {
        var f :| f in h.epairs && OwnPair(h, f) && name in EndsOf(f);
        EndsApart(e, f);
      }
    }
    assert OwnGear(end).ifaces == OwnGear(h).ifaces;
    assert OwnGear(end) == OwnGear(h);
  }

  lemma BridgesSwept(h: Host, bridges: map<string, set<string>>)
    requires WellFormed(h) && Consistent(h.(bridges := bridges))
    requires Remove(h.(bridges := bridges), OwnGear(h)) == Remove(h, OwnGear(h))
    ensures WellFormed(h.(bridges := bridges)) && SweepOwn(h.(bridges := bridges)) == SweepOwn(h)
  {
    BridgesKeepWellFormed(h, bridges);
    assert OwnGear(h.(bridges := bridges)) == OwnGear(h);
  }

  lemma MemberSwept(h: Host, bridge: string, member: string)
    requires WellFormed(h) && bridge in h.bridges && member in h.ifaces
    requires bridge in OwnGear(h).ifaces || member in OwnGear(h).ifaces
    ensures WellFormed(AddMember(h, bridge, member)) && SweepOwn(AddMember(h, bridge, member)) == SweepOwn(h)
  {
    MemberUnderRemoval(h, bridge, member, OwnGear(h));
    BridgesSwept(h, AddMember(h, bridge, member).bridges);
  }

  lemma DropSwept(h: Host, bridge: string, member: string)
    requires WellFormed(h)
    requires bridge in OwnGear(h).ifaces || member in OwnGear(h).ifaces
    ensures WellFormed(DropMember(h, bridge, member)) && SweepOwn(DropMember(h, bridge, member)) == SweepOwn(h)
  {
    DroppedUnderRemoval(h, bridge, member, OwnGear(h));
    BridgesSwept(h, DropMember(h, bridge, member).bridges);
  }

  lemma PipeLaidSwept(h: Host, e: string, pipe: string)
    requires WellFormed(h) && OwnPair(h, e) && pipe in PipesOf(e)
    ensures var end := h.(pipes := h.pipes + {pipe}); WellFormed(end) && SweepOwn(end) == SweepOwn(h)
  {
    var end := h.(pipes := h.pipes + {pipe});
    forall n: nat
      ensures WholeEpair(end, Numbered("epair", n))
    {
      assert WholeEpair(h, Numbered("epair", n));
      if Numbered("epair", n) != e {
        EndsApart(e, Numbered("epair", n));
      }
    }
    assert OwnGear(end) == OwnGear(h);
    PipesUnderRemoval(h, {pipe}, OwnGear(h));
  }

  lemma PipeShutSwept(h: Host, pipe: string)
    requires WellFormed(h) && pipe in OwnGear(h).pipes
    ensures var end := h.(pipes := h.pipes - {pipe}); WellFormed(end) && SweepOwn(end) == SweepOwn(h)
  {
    var end := h.(pipes := h.pipes - {pipe});
    forall n: nat
      ensures WholeEpair(end, Numbered("epair", n))
    {
      assert WholeEpair(h, Numbered("epair", n));
    }
    assert OwnGear(end) == OwnGear(h);
    assert end.pipes - OwnGear(h).pipes == h.pipes - OwnGear(h).pipes;
  }

  /** Taking away part of what is to be swept. */
  lemma SweptRemoval(h: Host, gone: Gear)
    requires Both(gone, OwnGear(Remove(h, gone))) == OwnGear(h)
    ensures SweepOwn(Remove(h, gone)) == SweepOwn(h)
  {
    RemoveBoth(h, gone, OwnGear(Remove(h, gone)));
  }

  lemma DestroySwept(h: Host, name: string)
    requires WellFormed(h) && NotEpairEnd(name) && name in OwnGear(h).ifaces
    ensures WellFormed(Without(h, {name})) && SweepOwn(Without(h, {name})) == SweepOwn(h)
  {
    var gone := Gear({name}, {}, {});
    var end := Remove(h, gone);
    assert end == Without(h, {name});
    assert WholeGear(gone) by {
      forall n: nat
        ensures WholeIn(gone, Numbered("epair", n))
      {
        var e := Numbered("epair", n);
        assert name !in EndsOf(e) && e + "a" in EndsOf(e) && e + "b" in EndsOf(e);
      }
    }
    RemoveKeepsWellFormed(h, gone);
    forall e | e in h.epairs
      ensures name !in EndsOf(e) && (OwnPair(end, e) <==> OwnPair(h, e))
    {
      var n: nat :| e == Numbered("epair", n);
      assert name !in EndsOf(e) && e + "a" in EndsOf(e) && e + "b" in EndsOf(e);
    }
    assert Both(gone, OwnGear(end)).ifaces == OwnGear(h).ifaces;
    assert Both(gone, OwnGear(end)).epairs == OwnGear(h).epairs;
    assert Both(gone, OwnGear(end)).pipes == OwnGear(h).pipes;
    SweptRemoval(h, gone);
  }

  lemma DestroyPairSwept(h: Host, e: string)
    requires WellFormed(h) && OwnPair(h, e)
    ensures WellFormed(DropEpair(h, e)) && SweepOwn(DropEpair(h, e)) == SweepOwn(h)
  {
    var gone := Gear(EndsOf(e), {e}, PipesOf(e));
    var end := Remove(h, gone);
    assert end == DropEpair(h, e);
    PairIsWhole(e);
    RemoveKeepsWellFormed(h, gone);
    forall f | f in h.epairs && f != e
      ensures OwnPair(end, f) <==> OwnPair(h, f)
    {
      EndsApart(e, f);
      assert f + "a" in EndsOf(f) && f + "b" in EndsOf(f);
    }
    PairOfGear(h, e, end);
    SweptRemoval(h, gone);
  }

  lemma PairIsWhole(e: string)
    ensures WholeGear(Gear(EndsOf(e), {e}, PipesOf(e)))
  {
    forall n: nat
      ensures WholeIn(Gear(EndsOf(e), {e}, PipesOf(e)), Numbered("epair", n))
    {
      var f := Numbered("epair", n);
      assert f + "a" in EndsOf(f) && f + "b" in EndsOf(f);
      if e != f {
        EndsApart(e, f);
      }
    }
  }

  lemma PairOfGear(h: Host, e: string, end: Host)
    requires OwnPair(h, e) && end == Remove(h, Gear(EndsOf(e), {e}, PipesOf(e)))
    requires forall f :: f in h.epairs && f != e ==> (OwnPair(end, f) <==> OwnPair(h, f))
    ensures Both(Gear(EndsOf(e), {e}, PipesOf(e)), OwnGear(end)) == OwnGear(h)
  {
    var both := Both(Gear(EndsOf(e), {e}, PipesOf(e)), OwnGear(end));
    assert both.epairs == OwnGear(h).epairs;
    assert both.ifaces == OwnGear(h).ifaces;
    assert both.pipes == OwnGear(h).pipes;
  }

  function PairOf(name: string): string {
    if name == "" then "" else name[..|name| - 1]
  }

  /** The host once an interface has been destroyed, be it the end of an epair or not. */
  function AnyDestroyed(h: Host, name: string): Host {
    if PairOf(name) in h.epairs && name in EndsOf(PairOf(name)) then DropEpair(h, PairOf(name)) else Without(h, {name})
  }

  /** Destroying any interface of the group. */
  lemma AnySwept(h: Host, name: string)
    requires WellFormed(h) && name in h.own
    ensures WellFormed(AnyDestroyed(h, name)) && SweepOwn(AnyDestroyed(h, name)) == SweepOwn(h)
  {
    var e := PairOf(name);
    if e in h.epairs && name in EndsOf(e) {
      DestroyPairSwept(h, e);
    } else {
      forall n: nat
        ensures name !in EndsOf(Numbered("epair", n))
      {
        var f := Numbered("epair", n);
        assert WholeEpair(h, f);
        assert name in EndsOf(f) ==> PairOf(name) == f;
      }
      DestroySwept(h, name);
    }
  }

  /** A host without anything in the group is swept. */
  lemma NothingOwn(h: Host)
    requires WellFormed(h) && h.own == {}
    ensures SweepOwn(h) == h
  {
    assert OwnGear(h) == NOTHING;
    RemoveAbsent(h, NOTHING);
  }

  /** Sweeping commutes with taking whole gear away. */
  lemma SweepCommutes(h: Host, g: Gear)
    requires WellFormed(h) && WholeGear(g)
    ensures SweepOwn(Remove(h, g)) == Remove(SweepOwn(h), g)
  {
    var end := Remove(h, g);
    forall e | e in end.epairs
      ensures OwnPair(end, e) <==> OwnPair(h, e)
    {
      var n: nat :| e == Numbered("epair", n);
      assert WholeIn(g, e);
    }
    RemoveBoth(h, g, OwnGear(end));
    RemoveBoth(h, OwnGear(h), g);
    SweptParts(h, g);
    RemoveSame(h, Both(g, OwnGear(end)), Both(OwnGear(h), g));
  }

  lemma SweptParts(h: Host, g: Gear)
    requires WellFormed(h) && WholeGear(g)
    requires var end := Remove(h, g); forall e :: e in end.epairs ==> (OwnPair(end, e) <==> OwnPair(h, e))
    ensures var before, after := Both(OwnGear(h), g), Both(g, OwnGear(Remove(h, g)));
            && before.ifaces * h.ifaces == after.ifaces * h.ifaces
            && before.epairs * h.epairs == after.epairs * h.epairs
            && before.pipes * h.pipes == after.pipes * h.pipes
  {
    var end := Remove(h, g);
    forall e | e in h.epairs && e in g.epairs
      ensures EndsOf(e) <= g.ifaces && PipesOf(e) <= g.pipes
    {
      var n: nat :| e == Numbered("epair", n);
      assert WholeIn(g, e);
    }
    assert forall e :: e in h.epairs && OwnPair(h, e) ==> e in g.epairs || (e in end.epairs && OwnPair(end, e));
  }
}

/** PCI slots on the bhyve command line (vm/args.go): one counter threaded through the
    generators, with the LPC bridge always at 31. */
module PciSlots {
  import opened Wrappers
  import opened NicWiring
  import opened NetDevice
  import opened NetDeviceNames

  const LPC_SLOT: int := 31

  datatype Thing = HostBridge | Framebuffer | Tablet | Net | Disk(index: nat) | Cd(index: nat) | Sound | Lpc

  datatype Arg = Arg(slot: int, thing: Thing)

  datatype Controller = Nvme | AhciHd | VirtioBlk | OtherController

  /** An entry of the VM's disk list: nil or without id, not in the disk list, or a disk
      with its type and whether its backing exists. */
  datatype DiskEntry = Blank | Missing | Found(controller: Controller, backed: bool)

  /** `port` says a VNC port could be had; the sound fields are the outcomes of the two
      path checks, None for an error. */
  datatype Config = Config(
    hostBridge: bool, screen: bool, port: bool, tablet: bool,
    sound: bool, soundIn: Option<bool>, soundOut: Option<bool>,
    disks: seq<DiskEntry>,
    isos: seq<bool>)   // false for a nil entry

  /** Things at consecutive slots. */
  function Seat(things: seq<Thing>, slot: int): (args: seq<Arg>)
    ensures |args| == |things|
    ensures forall i :: 0 <= i < |args| ==> args[i] == Arg(slot + i, things[i])
  {
    seq(|things|, i requires 0 <= i < |things| => Arg(slot + i, things[i]))
  }

  function One(present: bool, thing: Thing, slot: int): (seq<Arg>, int) {
    if present then ([Arg(slot, thing)], slot + 1) else ([], slot)
  }

  function HostBridgeArg(c: Config, slot: int): (seq<Arg>, int) {
    One(c.hostBridge, HostBridge, slot)
  }

  function VideoArg(c: Config, slot: int): (seq<Arg>, int) {
    One(c.screen && c.port, Framebuffer, slot)
  }

  function TabletArg(c: Config, slot: int): (seq<Arg>, int) {
    One(c.screen && c.tablet, Tablet, slot)
  }

  function SoundArg(c: Config, slot: int): (seq<Arg>, int) {
    One(HasSound(c), Sound, slot)
  }

  function LpcArg(): Arg {
    Arg(LPC_SLOT, Lpc)
  }

  /** Disks that count against the AHCI limit, backed or not. */
  function AhciCount(disks: seq<DiskEntry>): nat {
    if disks == [] then 0
    else
      var last := disks[|disks| - 1];
      AhciCount(disks[..|disks| - 1]) + if last.Found? && last.controller == AhciHd then 1 else 0
  }

  predicate Usable(d: DiskEntry) {
    d.Found? && d.controller != OtherController && d.backed
  }

  /** A disk gets an argument when it is usable and the AHCI disks up to and including it
      are within the limit: past the limit, disks of every type are dropped. */
  function KeptDisks(disks: seq<DiskEntry>, limit: int): seq<Thing> {
    if disks == [] then []
    else
      var n := |disks| - 1;
      KeptDisks(disks[..n], limit) + if Usable(disks[n]) && AhciCount(disks) <= limit then [Disk(n)] else []
  }

  lemma {:induction false} KeptDisksAre(disks: seq<DiskEntry>, limit: int)
    ensures forall t :: t in KeptDisks(disks, limit) ==> t.Disk? && t.index < |disks|
    ensures forall i: nat :: Disk(i) in KeptDisks(disks, limit) <==>
              i < |disks| && Usable(disks[i]) && AhciCount(disks[..i + 1]) <= limit
  {
    if disks != [] {
      var n := |disks| - 1;
      var front := disks[..n];
      KeptDisksAre(front, limit);
      var last := if Usable(disks[n]) && AhciCount(disks) <= limit then [Disk(n)] else [];
      assert KeptDisks(disks, limit) == KeptDisks(front, limit) + last;
      forall i: nat
        ensures Disk(i) in KeptDisks(disks, limit) <==>
                i < |disks| && Usable(disks[i]) && AhciCount(disks[..i + 1]) <= limit
      {
        if i < n {
          assert front[i] == disks[i] && front[..i + 1] == disks[..i + 1];
        } else if i == n {
          assert disks[..n + 1] == disks;
        }
      }
    }
  }

  /** The places of the AHCI disks among the first `n` entries. */
  function AhciAt(disks: seq<DiskEntry>, n: nat): set<nat>
    requires n <= |disks|
  {
    set i: nat | i < n && disks[i].Found? && disks[i].controller == AhciHd
  }

  lemma {:induction false} AhciCountIs(disks: seq<DiskEntry>, n: nat)
    requires n <= |disks|
    ensures AhciCount(disks[..n]) == |AhciAt(disks, n)|
    decreases n
  {
    if n == 0 {
      assert AhciAt(disks, 0) == {};
    } else {
      AhciCountIs(disks, n - 1);
      assert disks[..n][..n - 1] == disks[..n - 1];
      if disks[n - 1].Found? && disks[n - 1].controller == AhciHd {
        assert AhciAt(disks, n) == AhciAt(disks, n - 1) + {n - 1};
      } else {
        assert AhciAt(disks, n) == AhciAt(disks, n - 1);
      }
    }
  }

  /** Which disks are kept: those that were found with their backing and a known type, as long
      as the AHCI disks up to and including them are within the limit. */
  lemma KeptDisksExactly(disks: seq<DiskEntry>, limit: int, i: nat)
    ensures Disk(i) in KeptDisks(disks, limit) <==>
            && i < |disks| && disks[i].Found? && disks[i].backed
            && disks[i].controller in {Nvme, AhciHd, VirtioBlk} && |AhciAt(disks, i + 1)| <= limit
  {
    KeptDisksAre(disks, limit);
    if i < |disks| {
      AhciCountIs(disks, i + 1);
    }
  }

  predicate DisksInOrder(things: seq<Thing>, bound: int) {
    && (forall j :: 0 <= j < |things| ==> things[j].Disk? && things[j].index < bound)
    && (forall j, k :: 0 <= j < k < |things| ==> things[j].index < things[k].index)
  }

  lemma {:induction false} KeptDisksInOrder(disks: seq<DiskEntry>, limit: int)
    ensures DisksInOrder(KeptDisks(disks, limit), |disks|)
  {
    if disks != [] {
      KeptDisksInOrder(disks[..|disks| - 1], limit);
    }
  }

  method GetDiskArg(disks: seq<DiskEntry>, start: int) returns (args: seq<Arg>, slot: int)
    ensures args == Seat(KeptDisks(disks, LPC_SLOT - start - 1), start) && DisksFrom(disks, start, args)
    ensures slot == start + |args|
  {
    var maxSataDevs := LPC_SLOT - start - 1;
    var sataDevCount := 0;
    args, slot := [], start;
    for i := 0 to |disks|
      invariant sataDevCount == AhciCount(disks[..i])
      invariant args == Seat(KeptDisks(disks[..i], maxSataDevs), start)
      invariant slot == start + |args|
    {
      assert disks[..i + 1][..i] == disks[..i];
      if disks[i].Blank? || disks[i].Missing? {
        continue;
      }
      if disks[i].controller == AhciHd {
        sataDevCount := sataDevCount + 1;
      }
      if sataDevCount > maxSataDevs {
        continue;
      }
      if !disks[i].backed || disks[i].controller == OtherController {
        continue;
      }
      args := args + [Arg(slot, Disk(i))];
      slot := slot + 1;
    }
    assert disks[..|disks|] == disks;
    SeatedDisks(disks, start, args);
  }

  /** The non-nil ISOs, in order. */
  function LiveIsos(isos: seq<bool>): (things: seq<Thing>)
    ensures |things| <= |isos|
  {
    if isos == [] then []
    else
      var n := |isos| - 1;
      LiveIsos(isos[..n]) + if isos[n] then [Cd(n)] else []
  }

  /** Which ISOs those are. */
  lemma {:induction false} LiveIsosExactly(isos: seq<bool>, i: nat)
    ensures Cd(i) in LiveIsos(isos) <==> i < |isos| && isos[i]
  {
    if isos != [] {
      LiveIsosExactly(isos[..|isos| - 1], i);
    }
  }

  predicate CdsInOrder(things: seq<Thing>, bound: int) {
    && (forall j :: 0 <= j < |things| ==> things[j].Cd? && things[j].index < bound)
    && (forall j, k :: 0 <= j < k < |things| ==> things[j].index < things[k].index)
  }

  lemma {:induction false} LiveIsosInOrder(isos: seq<bool>)
    ensures CdsInOrder(LiveIsos(isos), |isos|)
  {
    if isos != [] {
      LiveIsosInOrder(isos[..|isos| - 1]);
    }
  }

  /** How many drives fit below the LPC slot. */
  function CdRoom(isos: seq<bool>, start: int): (n: nat)
    ensures n <= |LiveIsos(isos)|
  {
    var room := if start < LPC_SLOT then LPC_SLOT - start else 0;
    if |LiveIsos(isos)| <= room then |LiveIsos(isos)| else room
  }

  /** Drive `j` is for the j-th ISO that is there; as many as there are ISOs or room. */
  predicate DrivesFor(isos: seq<bool>, start: int, args: seq<Arg>) {
    && (forall j :: 0 <= j < |args| ==>
          && args[j].slot == start + j && args[j].thing.Cd?
          && args[j].thing.index < |isos| && isos[args[j].thing.index])
    && (forall j, k :: 0 <= j < k < |args| ==> args[j].thing.index < args[k].thing.index)
    && (forall j, i: nat :: 0 <= j < |args| && i < args[j].thing.index && isos[i] ==> CarriedBefore(args, j, i))
    && |args| <= (if start < 31 then 31 - start else 0)
    && (|args| < (if start < 31 then 31 - start else 0) ==>
          forall i: nat :: i < |isos| && isos[i] ==> CarriedBefore(args, |args|, i))
  }

  /** One of the first `n` drives has the ISO. */
  predicate CarriedBefore(args: seq<Arg>, n: nat, iso: nat)
    requires n <= |args|
  {
    exists l :: 0 <= l < n && args[l].thing == Cd(iso)
  }

  lemma FirstLive(isos: seq<bool>, start: int, args: seq<Arg>)
    requires args == Seat(LiveIsos(isos)[..CdRoom(isos, start)], start)
    ensures DrivesFor(isos, start, args)
  {
    var live := LiveIsos(isos);
    LiveIsosInOrder(isos);
    forall j | 0 <= j < |args|
      ensures args[j].thing.index < |isos| && isos[args[j].thing.index]
    {
      assert args[j].thing == live[j] && live[j] in live;
      LiveIsosExactly(isos, live[j].index);
    }
    forall j, i: nat | 0 <= j < |args| && i < args[j].thing.index && isos[i]
      ensures CarriedBefore(args, j, i)
    {
      EarlierIsCarried(isos, args, j, i);
    }
    if |args| < (if start < 31 then 31 - start else 0) {
      forall i: nat | i < |isos| && isos[i]
        ensures CarriedBefore(args, |args|, i)
      {
        var l := PlaceOf(isos, i);
        assert args[l].thing == Cd(i);
      }
    }
  }

  lemma PlaceOf(isos: seq<bool>, i: nat) returns (l: nat)
    requires i < |isos| && isos[i]
    ensures l < |LiveIsos(isos)| && LiveIsos(isos)[l] == Cd(i)
  {
    LiveIsosExactly(isos, i);
    l :| 0 <= l < |LiveIsos(isos)| && LiveIsos(isos)[l] == Cd(i);
  }

  lemma EarlierIsCarried(isos: seq<bool>, args: seq<Arg>, j: nat, i: nat)
    requires |args| <= |LiveIsos(isos)| && forall l :: 0 <= l < |args| ==> args[l].thing == LiveIsos(isos)[l]
    requires CdsInOrder(LiveIsos(isos), |isos|) && j < |args| && i < args[j].thing.index && isos[i]
    ensures CarriedBefore(args, j, i)
  {
    var l := PlaceOf(isos, i);
    assert LiveIsos(isos)[j] == args[j].thing;
    assert l < j;
    assert args[l].thing == Cd(i);
  }

  /** Exactly the first min(n, max(0, 31 - slot)) non-nil ISOs, at slots up to 30. */
  method GetCdArg(isos: seq<bool>, start: int) returns (args: seq<Arg>, slot: int)
    ensures args == Seat(LiveIsos(isos)[..CdRoom(isos, start)], start)
    ensures slot == start + |args|
    ensures forall i :: 0 <= i < |args| ==> args[i].slot < LPC_SLOT
    ensures DrivesFor(isos, start, args)
  {
    var maxSataDevs := LPC_SLOT - start - 1;
    var devCount := 0;
    args, slot := [], start;
    for i := 0 to |isos|
      invariant devCount == |args| == CdRoom(isos[..i], start)
      invariant args == Seat(LiveIsos(isos[..i])[..CdRoom(isos[..i], start)], start)
      invariant slot == start + devCount
    {
      assert isos[..i + 1][..i] == isos[..i];
      if !isos[i] {
        continue;
      }
      if devCount <= maxSataDevs {
        args := args + [Arg(slot, Cd(i))];
        devCount := devCount + 1;
        slot := slot + 1;
      }
    }
    assert isos[..|isos|] == isos;
    FirstLive(isos, start, args);
  }

  /** All generators in counter order; `net` is what getNetArgs returns for slot numbers. */
  datatype Line = Line(
    hostBridge: seq<Arg>, video: seq<Arg>, tablet: seq<Arg>, net: seq<Arg>,
    disk: seq<Arg>, cd: seq<Arg>, sound: seq<Arg>, last: int)

  function DeviceArgs(line: Line): seq<Arg> {
    (line.hostBridge + line.video + line.tablet + line.net) + (line.disk + line.cd + line.sound)
  }

  function BeforeNet(c: Config): (seq<Arg>, seq<Arg>, seq<Arg>, int) {
    var (hostBridge, s1) := HostBridgeArg(c, 0);
    var (video, s2) := VideoArg(c, s1);
    var (tablet, s3) := TabletArg(c, s2);
    (hostBridge, video, tablet, s3)
  }

  function LineOf(c: Config, netSlots: seq<nat>, netNext: int): Line {
    var (hostBridge, video, tablet, _) := BeforeNet(c);
    var net := seq(|netSlots|, i requires 0 <= i < |netSlots| => Arg(netSlots[i], Net));
    var disk := Seat(KeptDisks(c.disks, LPC_SLOT - netNext - 1), netNext);
    var s5 := netNext + |disk|;
    var cd := Seat(LiveIsos(c.isos)[..CdRoom(c.isos, s5)], s5);
    var (sound, last) := SoundArg(c, s5 + |cd|);
    Line(hostBridge, video, tablet, net, disk, cd, sound, last)
  }

  /** What is on the line, and where, in terms of the configuration. */
  ghost predicate IsLine(c: Config, netSlots: seq<nat>, netNext: int, line: Line) {
    var bridge, screen := if c.hostBridge then 1 else 0, if c.screen && c.port then 1 else 0;
    && line.hostBridge == (if c.hostBridge then [Arg(0, HostBridge)] else [])
    && line.video == (if c.screen && c.port then [Arg(bridge, Framebuffer)] else [])
    && line.tablet == (if c.screen && c.tablet then [Arg(bridge + screen, Tablet)] else [])
    && |line.net| == |netSlots| && (forall i :: 0 <= i < |netSlots| ==> line.net[i] == Arg(netSlots[i], Net))
    && DisksFrom(c.disks, netNext, line.disk)
    && DrivesFor(c.isos, netNext + |line.disk|, line.cd)
    && line.sound == (if c.sound && (c.soundIn == Some(true) || c.soundOut == Some(true))
                      then [Arg(netNext + |line.disk| + |line.cd|, Sound)] else [])
    && line.last == netNext + |line.disk| + |line.cd| + |line.sound|
  }

  /** The disks at consecutive slots, in the order of the list. */
  ghost predicate DisksFrom(disks: seq<DiskEntry>, start: int, args: seq<Arg>) {
    && (forall j :: 0 <= j < |args| ==> args[j].slot == start + j && args[j].thing.Disk?)
    && (forall j, k :: 0 <= j < k < |args| ==> args[j].thing.index < args[k].thing.index)
    && (forall i: nat :: DiskOn(args, i) <==> DiskFits(disks, 31 - start - 1, i))
  }

  predicate DiskOn(args: seq<Arg>, i: nat) {
    exists j :: 0 <= j < |args| && args[j].thing == Disk(i)
  }

  predicate DiskFits(disks: seq<DiskEntry>, limit: int, i: nat) {
    && i < |disks| && disks[i].Found? && disks[i].backed
    && disks[i].controller in {Nvme, AhciHd, VirtioBlk} && |AhciAt(disks, i + 1)| <= limit
  }

  lemma SeatedDisks(disks: seq<DiskEntry>, start: int, args: seq<Arg>)
    requires args == Seat(KeptDisks(disks, 31 - start - 1), start)
    ensures DisksFrom(disks, start, args)
  {
    var kept := KeptDisks(disks, 31 - start - 1);
    KeptDisksInOrder(disks, 31 - start - 1);
    forall i: nat
      ensures DiskOn(args, i) <==> DiskFits(disks, 31 - start - 1, i)
    {
      KeptDisksExactly(disks, 31 - start - 1, i);
      if Disk(i) in kept {
        var j :| 0 <= j < |kept| && kept[j] == Disk(i);
        assert args[j].thing == Disk(i);
      }
    }
  }

  lemma LineIs(c: Config, netSlots: seq<nat>, netNext: int)
    ensures IsLine(c, netSlots, netNext, LineOf(c, netSlots, netNext)) && LpcArg() == Arg(31, Lpc)
  {
    var line := LineOf(c, netSlots, netNext);
    SeatedDisks(c.disks, netNext, line.disk);
    FirstLive(c.isos, netNext + |line.disk|, line.cd);
  }

  /** The first slot for a network device. */
  lemma NetStartsAt(c: Config)
    ensures BeforeNet(c).3 ==
            (if c.hostBridge then 1 else 0) + (if c.screen && c.port then 1 else 0) +
            (if c.screen && c.tablet then 1 else 0)
  {
  }

  /** getSlotArgs. */
  method GetSlotArgs(c: Config, table: NicTable, nics: seq<Nic>, vms: map<string, Vm>, ifaces: set<string>,
                     answers: Answers)
    returns (line: Line, lpc: Arg, netOk: bool)
    modifies table
    ensures lpc == LpcArg()
    ensures var start := BeforeNet(c).3;
            var r := Assigned(old(table.rows), vms, ifaces, nics, answers, start, start);
            && table.rows == r.rows && netOk == r.ok && line == LineOf(c, r.slots, r.next)
            && IsLine(c, r.slots, r.next, line)
  {
    var (hostBridge, s1) := HostBridgeArg(c, 0);
    var (video, s2) := VideoArg(c, s1);
    var (tablet, s3) := TabletArg(c, s2);
    var netSlots, s4, ok := table.GetNetArgs(nics, vms, ifaces, answers, s3);
    var net, disk, cd, sound, last := FromNetOn(c, netSlots, s4);
    LineIs(c, netSlots, s4);
    return Line(hostBridge, video, tablet, net, disk, cd, sound, last), LpcArg(), ok;
  }

  /** The part of the line from the network devices on. */
  method FromNetOn(c: Config, netSlots: seq<nat>, netNext: int)
    returns (net: seq<Arg>, disk: seq<Arg>, cd: seq<Arg>, sound: seq<Arg>, last: int)
    ensures var line := LineOf(c, netSlots, netNext);
            (net, disk, cd, sound, last) == (line.net, line.disk, line.cd, line.sound, line.last)
  {
    var s5, s6;
    disk, s5 := GetDiskArg(c.disks, netNext);
    cd, s6 := GetCdArg(c.isos, s5);
    var soundArg := SoundArg(c, s6);
    sound, last := soundArg.0, soundArg.1;
    net := seq(|netSlots|, i requires 0 <= i < |netSlots| => Arg(netSlots[i], Net));
  }

  predicate Ascending(args: seq<Arg>, from: int, to: int) {
    && (forall i :: 0 <= i < |args| ==> from <= args[i].slot < to)
    && (forall i, j :: 0 <= i < j < |args| ==> args[i].slot < args[j].slot)
  }

  lemma AscendingConcat(a: seq<Arg>, b: seq<Arg>, from: int, mid: int, to: int)
    requires Ascending(a, from, mid) && Ascending(b, mid, to) && from <= mid <= to
    ensures Ascending(a + b, from, to)
  {
  }

  /** The slots getNetArgs uses: one per NIC on success, none on failure, and a counter that
      never goes back. */
  predicate NetResult(netSlots: seq<nat>, netStart: int, netNext: int, ok: bool) {
    && netStart <= netNext
    && if ok then |netSlots| == netNext - netStart && forall i :: 0 <= i < |netSlots| ==> netSlots[i] == netStart + i
       else netSlots == []
  }

  lemma NetResultHolds(c: Config, rows: Rows, vms: map<string, Vm>, ifaces: set<string>, nics: seq<Nic>,
                       answers: Answers)
    ensures var start := BeforeNet(c).3;
            var r := Assigned(rows, vms, ifaces, nics, answers, start, start);
            NetResult(r.slots, start, r.next, r.ok)
  {
    AssignedSlots(rows, vms, ifaces, nics, answers, BeforeNet(c).3, BeforeNet(c).3);
  }

  /** Whatever the configuration, no two devices share a slot: each generator stays inside
      its own interval of the counter. */
  lemma SlotsDistinct(c: Config, netSlots: seq<nat>, netNext: int, ok: bool)
    requires NetResult(netSlots, BeforeNet(c).3, netNext, ok)
    ensures Ascending(DeviceArgs(LineOf(c, netSlots, netNext)), 0, LineOf(c, netSlots, netNext).last)
  {
    var line := LineOf(c, netSlots, netNext);
    NetAscending(netSlots, BeforeNet(c).3, netNext, ok, line.net);
    FrontAscending(c, line.net, netNext);
    BackAscending(c, netNext, line);
    var front, back := line.hostBridge + line.video + line.tablet + line.net, line.disk + line.cd + line.sound;
    AscendingConcat(front, back, 0, netNext, line.last);
  }

  lemma NetAscending(netSlots: seq<nat>, start: int, netNext: int, ok: bool, net: seq<Arg>)
    requires NetResult(netSlots, start, netNext, ok) && |net| == |netSlots|
    requires forall i :: 0 <= i < |net| ==> net[i] == Arg(netSlots[i], Net)
    ensures Ascending(net, start, netNext)
  {
  }

  lemma ThreeAscending(a: seq<Arg>, b: seq<Arg>, c: seq<Arg>, s0: int, s1: int, s2: int, s3: int)
    requires Ascending(a, s0, s1) && Ascending(b, s1, s2) && Ascending(c, s2, s3) && s0 <= s1 <= s2 <= s3
    ensures Ascending(a + b + c, s0, s3)
  {
    AscendingConcat(a, b, s0, s1, s2);
    AscendingConcat(a + b, c, s0, s2, s3);
  }

  lemma FrontAscending(c: Config, net: seq<Arg>, netNext: int)
    requires BeforeNet(c).3 <= netNext && Ascending(net, BeforeNet(c).3, netNext)
    ensures Ascending(BeforeNet(c).0 + BeforeNet(c).1 + BeforeNet(c).2 + net, 0, netNext)
  {
    var (hostBridge, s1) := HostBridgeArg(c, 0);
    var (video, s2) := VideoArg(c, s1);
    var (tablet, s3) := TabletArg(c, s2);
    ThreeAscending(hostBridge, video, tablet, 0, s1, s2, s3);
    AscendingConcat(hostBridge + video + tablet, net, 0, s3, netNext);
  }

  lemma BackAscending(c: Config, netNext: int, line: Line)
    requires line.disk == Seat(KeptDisks(c.disks, LPC_SLOT - netNext - 1), netNext)
    requires line.cd == Seat(LiveIsos(c.isos)[..CdRoom(c.isos, netNext + |line.disk|)], netNext + |line.disk|)
    requires (line.sound, line.last) == SoundArg(c, netNext + |line.disk| + |line.cd|)
    ensures Ascending(line.disk + line.cd + line.sound, netNext, line.last)
  {
    var s5 := netNext + |line.disk|;
    ThreeAscending(line.disk, line.cd, line.sound, netNext, s5, s5 + |line.cd|, line.last);
  }

  predicate Collides(line: Line) {
    exists i :: 0 <= i < |DeviceArgs(line)| && DeviceArgs(line)[i].slot == LPC_SLOT
  }

  /** When getNetArgs succeeds the slots in use are 0 up to the counter, so the line is free
      of collisions exactly when the counter leaving getSoundArg is at most 31. A failed
      getNetArgs only leaves a gap, and the bound is then sufficient. */
  lemma CollisionExactlyPast31(c: Config, netSlots: seq<nat>, netNext: int, ok: bool)
    requires NetResult(netSlots, BeforeNet(c).3, netNext, ok)
    ensures LineOf(c, netSlots, netNext).last <= LPC_SLOT ==> !Collides(LineOf(c, netSlots, netNext))
    ensures ok ==> (Collides(LineOf(c, netSlots, netNext)) <==> LineOf(c, netSlots, netNext).last > LPC_SLOT)
  {
    SlotsDistinct(c, netSlots, netNext, ok);
    var line := LineOf(c, netSlots, netNext);
    if ok {
      assert |DeviceArgs(line)| == line.last;
      FullAscending(DeviceArgs(line));
      if line.last > LPC_SLOT {
        assert DeviceArgs(line)[LPC_SLOT].slot == LPC_SLOT;
      }
    }
  }

  /** In terms of what is known before the ISO and sound generators run: the counter after
      the disks is past 31, or the ISOs fill up to 31 and a sound device follows. */
  lemma CollidesExactly(c: Config, netSlots: seq<nat>, netNext: int)
    requires NetResult(netSlots, BeforeNet(c).3, netNext, true)
    ensures var afterDisks := netNext + |KeptDisks(c.disks, LPC_SLOT - netNext - 1)|;
            Collides(LineOf(c, netSlots, netNext)) <==>
            afterDisks > LPC_SLOT || (HasSound(c) && afterDisks + |LiveIsos(c.isos)| >= LPC_SLOT)
  {
    CollisionExactlyPast31(c, netSlots, netNext, true);
  }

  predicate HasSound(c: Config) {
    c.sound && Some(true) in {c.soundIn, c.soundOut}
  }

  /** When getNetArgs failed, the slots it skipped are free; a counter past 31 then means
      that 31 is among them. */
  lemma CollidesExactlyAfterFailedNaming(c: Config, netNext: int)
    requires NetResult([], BeforeNet(c).3, netNext, false)
    ensures var afterDisks := netNext + |KeptDisks(c.disks, LPC_SLOT - netNext - 1)|;
            Collides(LineOf(c, [], netNext)) <==>
            netNext <= LPC_SLOT &&
            (afterDisks > LPC_SLOT || (HasSound(c) && afterDisks + |LiveIsos(c.isos)| >= LPC_SLOT))
  {
    var line := LineOf(c, [], netNext);
    var front, back := line.hostBridge + line.video + line.tablet, line.disk + line.cd + line.sound;
    assert front + line.net == front;
    FrontBelowStart(c, front);
    SeatedFrom(c, netNext, line);
    SlotTaken(front, back, BeforeNet(c).3, netNext, line.last);
    assert DeviceArgs(line) == front + back;
  }

  lemma FrontBelowStart(c: Config, front: seq<Arg>)
    requires front == BeforeNet(c).0 + BeforeNet(c).1 + BeforeNet(c).2
    ensures BeforeNet(c).3 <= 3 && forall i :: 0 <= i < |front| ==> front[i].slot < BeforeNet(c).3
  {
    var (hostBridge, s1) := HostBridgeArg(c, 0);
    var (video, s2) := VideoArg(c, s1);
    var (tablet, s3) := TabletArg(c, s2);
    ThreeAscending(hostBridge, video, tablet, 0, s1, s2, s3);
  }

  lemma SlotTaken(front: seq<Arg>, back: seq<Arg>, start: int, from: int, last: int)
    requires start <= 3 && start <= from && |back| == last - from
    requires forall i :: 0 <= i < |front| ==> front[i].slot < start
    requires forall i :: 0 <= i < |back| ==> back[i].slot == from + i
    ensures (exists i :: 0 <= i < |front + back| && (front + back)[i].slot == LPC_SLOT) <==>
            last > LPC_SLOT && !(start <= LPC_SLOT < from)
  {
    if from <= LPC_SLOT < last {
      assert (front + back)[|front| + (LPC_SLOT - from)].slot == LPC_SLOT;
    }
  }

  /** The generators after getNetArgs fill their interval without a gap. */
  lemma SeatedFrom(c: Config, netNext: int, line: Line)
    requires line == LineOf(c, [], netNext)
    ensures var back := line.disk + line.cd + line.sound;
            |back| == line.last - netNext && forall i :: 0 <= i < |back| ==> back[i].slot == netNext + i
  {
  }

  lemma {:induction false} FullAscending(args: seq<Arg>)
    requires Ascending(args, 0, |args|)
    ensures forall i :: 0 <= i < |args| ==> args[i].slot == i
  {
    if args != [] {
      var n := |args| - 1;
      AscendingAtLeast(args, n);
      FullAscending(args[..n]);
    }
  }

  lemma {:induction false} AscendingAtLeast(args: seq<Arg>, i: nat)
    requires Ascending(args, 0, |args|) && i < |args|
    ensures i <= args[i].slot
  {
    if i > 0 {
      AscendingAtLeast(args, i - 1);
    }
  }

  /** Nothing keeps the sound device off the LPC slot: 31 ISOs fill slots 0 to 30. */
  lemma SoundCanCollide()
    ensures exists c: Config :: c.disks == [] && Collides(LineOf(c, [], 0)) && BeforeNet(c).3 == 0
  {
    var isos := seq(31, _ => true);
    var c := Config(false, false, false, false, true, Some(true), None, [], isos);
    AllLive(isos);
    var line := LineOf(c, [], 0);
    assert |line.cd| == 31;
    assert DeviceArgs(line)[31] == line.sound[0] == Arg(31, Sound);
  }

  lemma {:induction false} AllLive(isos: seq<bool>)
    requires forall i :: 0 <= i < |isos| ==> isos[i]
    ensures |LiveIsos(isos)| == |isos|
  {
    if isos != [] {
      AllLive(isos[..|isos| - 1]);
    }
  }
}

/** Device names for a VM's NICs (vm/args.go getNetArgs, getTapDev, getVmnetDev;
    vm/util.go getUsedNetPorts): each name is searched for, saved, and thereby taken. */
module NetDevice {
  import opened Wrappers
  import opened Decimal
  import opened FreeName
  import opened NicWiring

  datatype Vm = Vm(stopped: bool, configId: nat)

  type Rows = map<string, Nic>

  /** Some VM that is not stopped has the NIC. */
  predicate InUse(vms: map<string, Vm>, nic: Nic) {
    exists v :: v in vms && !vms[v].stopped && vms[v].configId == nic.configId
  }

  /** The devices of VMs that are not stopped. */
  function UsedPorts(rows: Rows, vms: map<string, Vm>): set<string> {
    set id | id in rows && InUse(vms, rows[id]) :: rows[id].netDev
  }

  /** What the outside answers. `ngDev` is GetNgDev for a switch: its node name and the next
      free link. The others are for the NIC with the id that is being named: whether its
      record can be saved, whether the host lists its interfaces, and whether the NICs of a
      VM can be read when a name is tried. */
  datatype Answers = Answers(
    ngDev: string -> Option<(string, string)>,
    saves: string -> bool,
    lists: string -> bool,
    readable: (string, string, string) -> bool)

  /** The interfaces the search sees: a failing query reads as none. */
  function Listed(ifaces: set<string>, answers: Answers, id: string): set<string> {
    if answers.lists(id) then ifaces else {}
  }

  /** The NIC's VM is not stopped, and its NICs can be read when the name of its device is tried. */
  predicate SeenInUse(vms: map<string, Vm>, answers: Answers, id: string, nic: Nic) {
    exists v :: v in vms && !vms[v].stopped && vms[v].configId == nic.configId && answers.readable(id, nic.netDev, v)
  }

  /** getUsedNetPorts: a VM whose NICs cannot be read is skipped. */
  function SeenPorts(rows: Rows, vms: map<string, Vm>, answers: Answers, id: string): set<string> {
    set other | other in rows && SeenInUse(vms, answers, id, rows[other]) :: rows[other].netDev
  }

  /** What the search for the device of the NIC takes to be taken. */
  function Taken(rows: Rows, vms: map<string, Vm>, ifaces: set<string>, answers: Answers, id: string): set<string> {
    Listed(ifaces, answers, id) + SeenPorts(rows, vms, answers, id)
  }

  function NetTypeKnown(netType: string): bool {
    netType in {"VIRTIONET", "E1000"}
  }

  /** getTapDev and getVmnetDev: count up until a name is neither an interface nor in use. */
  method FreeDevice(prefix: string, taken: set<string>) returns (name: string)
    ensures name == Numbered(prefix, LeastFree(prefix, taken))
  {
    var num := 0;
    name := Numbered(prefix, num);
    while name in taken
      invariant name == Numbered(prefix, num)
      invariant AllTaken(prefix, taken, num)
      decreases |taken| + 1 - num
    {
      Pigeonhole(prefix, taken, num + 1);
      num := num + 1;
      name := Numbered(prefix, num);
    }
    LeastFreeIsUnique(prefix, taken, num);
  }

  /** The device for one NIC, None where getNetDevTypeArg or Save fails. */
  function Device(nic: Nic, taken: set<string>, answers: Answers): Option<string> {
    if answers.saves(nic.id) then FoundDevice(nic, taken, answers) else None
  }

  function FoundDevice(nic: Nic, taken: set<string>, answers: Answers): Option<string> {
    match nic.devType
    case Tap => Some(Numbered("tap", LeastFree("tap", taken)))
    case Vmnet => Some(Numbered("vmnet", LeastFree("vmnet", taken)))
    case Netgraph =>
      match answers.ngDev(nic.switchId)
      case None => None
      case Some((node, link)) => Some(node + "," + link)
  }

  datatype NetArgs = NetArgs(rows: Rows, slots: seq<nat>, next: nat, ok: bool)

  /** getNetArgs over the NICs still to do. An unknown NIC type gives back the slot the
      whole call started from, later failures the slot reached; no argument survives. */
  function Assigned(rows: Rows, vms: map<string, Vm>, ifaces: set<string>, nics: seq<Nic>,
                    answers: Answers, start: nat, slot: nat): NetArgs
    decreases |nics|
  {
    if nics == [] then NetArgs(rows, [], slot, true)
    else if !NetTypeKnown(nics[0].netType) then NetArgs(rows, [], start, false)
    else
      match Device(nics[0], Taken(rows, vms, ifaces, answers, nics[0].id), answers)
      case None => NetArgs(rows, [], slot, false)
      case Some(dev) =>
        var saved := rows[nics[0].id := nics[0].(netDev := dev)];
        Prefixed([slot], Assigned(saved, vms, ifaces, nics[1..], answers, start, slot + 1))
  }

  /** A row is stored under its own id. */
  predicate Keyed(rows: Rows) {
    forall id :: id in rows ==> rows[id].id == id
  }

  /** The names found for TAP and VMNET NICs while the host did not list its interfaces. */
  function BlindNames(rows: Rows, vms: map<string, Vm>, ifaces: set<string>, nics: seq<Nic>, answers: Answers)
    : set<string>
    decreases |nics|
  {
    if nics == [] || !NetTypeKnown(nics[0].netType) then {}
    else
      match Device(nics[0], Taken(rows, vms, ifaces, answers, nics[0].id), answers)
      case None => {}
      case Some(dev) =>
        BlindName(nics[0], dev, answers) +
        BlindNames(rows[nics[0].id := nics[0].(netDev := dev)], vms, ifaces, nics[1..], answers)
  }

  function BlindName(nic: Nic, dev: string, answers: Answers): set<string> {
    if nic.devType == Netgraph || answers.lists(nic.id) then {} else {dev}
  }

  /** What a search can come up with when it avoids these interfaces. */
  predicate Found(nic: Nic, avoided: set<string>, dev: string) {
    if nic.devType == Netgraph then ',' in dev else dev != "" && dev[0] in {'t', 'v'} && dev !in avoided
  }

  /** A row that getNetArgs saved. */
  ghost predicate NamedRow(row: Nic, nics: seq<Nic>, avoided: set<string>, id: string) {
    exists nic :: nic in nics && nic.id == id && Found(nic, avoided, row.netDev) && row == nic.(netDev := row.netDev)
  }

  /** Each row is one that was there or one that getNetArgs saved. */
  ghost predicate NamedRows(before: Rows, after: Rows, nics: seq<Nic>, avoided: set<string>) {
    forall id :: id in after ==> (id in before && after[id] == before[id]) || NamedRow(after[id], nics, avoided, id)
  }

  /** So it is after each of the saves. */
  ghost predicate NamedInTurn(before: Rows, was: set<Rows>, rows: Rows, now: set<Rows>, nics: seq<Nic>,
                              avoided: set<string>) {
    && NamedRows(before, rows, nics, avoided)
    && (before in was ==> rows in now)
    && was <= now && forall r :: r in now && r !in was ==> NamedRows(before, r, nics, avoided)
  }

  lemma OneMoreNamed(before: Rows, was: set<Rows>, rows: Rows, now: set<Rows>, nics: seq<Nic>, avoided: set<string>,
                     nic: Nic, dev: string)
    requires NamedInTurn(before, was, rows, now, nics, avoided) && nic in nics && Found(nic, avoided, dev)
    ensures var next := rows[nic.id := nic.(netDev := dev)];
            NamedInTurn(before, was, next, now + {next}, nics, avoided)
  {
    assert NamedRow(nic.(netDev := dev), nics, avoided, nic.id);
  }

  lemma FoundIsFree(nic: Nic, rows: Rows, vms: map<string, Vm>, ifaces: set<string>, answers: Answers,
                    avoided: set<string>)
    requires FoundDevice(nic, Taken(rows, vms, ifaces, answers, nic.id), answers).Some? && avoided <= ifaces
    requires var dev := FoundDevice(nic, Taken(rows, vms, ifaces, answers, nic.id), answers).value;
             BlindName(nic, dev, answers) !! avoided
    ensures Found(nic, avoided, FoundDevice(nic, Taken(rows, vms, ifaces, answers, nic.id), answers).value)
  {
  }

  class NicTable {
    var rows: Rows
    ghost var past: set<Rows>       // the rows after every save, the first ones included

    constructor (rows: Rows)
      ensures this.rows == rows && past == {rows}
    {
      this.rows, past := rows, {rows};
    }

    /** The rows of one VM, in any order. */
    method GetNics(configId: nat) returns (nics: seq<Nic>)
      ensures forall n :: n in nics <==> exists id :: id in rows && rows[id] == n && n.configId == configId
      ensures Keyed(rows) ==>
                forall i, j :: 0 <= i < j < |nics| ==> nics[i].id != nics[j].id
    {
      nics := [];
      var todo := rows.Keys;
      while todo != {}
        invariant todo <= rows.Keys
        invariant forall n :: n in nics <==>
                  exists id :: id in rows && id !in todo && rows[id] == n && n.configId == configId
        invariant Keyed(rows) ==> forall n :: n in nics ==> n.id !in todo
        invariant Keyed(rows) ==>
                    forall i, j :: 0 <= i < j < |nics| ==> nics[i].id != nics[j].id
        decreases todo
      {
        var id :| id in todo;
        todo := todo - {id};
        if rows[id].configId == configId {
          nics := nics + [rows[id]];
        }
      }
    }

    method Save(nic: Nic)
      modifies this
      ensures rows == old(rows)[nic.id := nic] && past == old(past) + {rows}
    {
      rows := rows[nic.id := nic];
      past := past + {rows};
    }

    /** The search and the save for the first NIC of those still to do. `nics`, `before`, `was` and `avoided`
        are those of the whole call. */
    method NameOne(nic: Nic, vms: map<string, Vm>, ifaces: set<string>, answers: Answers, ghost rest: seq<Nic>,
                   ghost nics: seq<Nic>, ghost before: Rows, ghost was: set<Rows>, ghost avoided: set<string>)
      returns (named: bool)
      requires nic in nics && NamedInTurn(before, was, rows, past, nics, avoided) && avoided <= ifaces
      requires rest != [] && rest[0] == nic && NetTypeKnown(nic.netType)
      requires BlindNames(rows, vms, ifaces, rest, answers) !! avoided
      modifies this
      ensures named ==> BlindNames(rows, vms, ifaces, rest[1..], answers) !! avoided
      ensures var dev := Device(nic, Taken(old(rows), vms, ifaces, answers, nic.id), answers);
              && (named <==> dev.Some?)
              && rows == if named then old(rows)[nic.id := nic.(netDev := dev.value)] else old(rows)
      ensures NamedInTurn(before, was, rows, past, nics, avoided)
    {
      var dev := FindDevice(nic, Taken(rows, vms, ifaces, answers, nic.id), answers);
      if dev.None? {
        return false;
      }
      if !answers.saves(nic.id) {
        return false;
      }
      FoundIsFree(nic, rows, vms, ifaces, answers, avoided);
      OneMoreNamed(before, was, rows, past, nics, avoided, nic, dev.value);
      Save(nic.(netDev := dev.value));
      return true;
    }

    /** getNetArgs from its loop on; the argument list is given by the slots its `-s` options name. */
    method GetNetArgs(nics: seq<Nic>, vms: map<string, Vm>, ifaces: set<string>, answers: Answers, slot: nat)
      returns (slots: seq<nat>, next: nat, ok: bool)
      modifies this
      ensures NetArgs(rows, slots, next, ok) == Assigned(old(rows), vms, ifaces, nics, answers, slot, slot)
      ensures NamedInTurn(old(rows), old(past), rows, past, nics,
                          ifaces - BlindNames(old(rows), vms, ifaces, nics, answers))
    {
      slots, next := [], slot;
      ghost var whole := Assigned(rows, vms, ifaces, nics, answers, slot, slot);
      ghost var blind := BlindNames(rows, vms, ifaces, nics, answers);
      for i := 0 to |nics|
        invariant whole == Prefixed(slots, Assigned(rows, vms, ifaces, nics[i..], answers, slot, next))
        invariant BlindNames(rows, vms, ifaces, nics[i..], answers) !! ifaces - blind
        invariant NamedInTurn(old(rows), old(past), rows, past, nics, ifaces - blind)
      {
        var nic := nics[i];
        assert nics[i..][1..] == nics[i + 1..] && nics[i..][0] == nic;
        if !NetTypeKnown(nic.netType) {
          return [], slot, false;
        }
        var named := NameOne(nic, vms, ifaces, answers, nics[i..], nics, old(rows), old(past), ifaces - blind);
        if !named {
          return [], next, false;
        }
        PrefixedTwice(slots, next, Assigned(rows, vms, ifaces, nics[i + 1..], answers, slot, next + 1));
        slots := slots + [next];
        next := next + 1;
      }
      return slots, next, true;
    }
  }

  function Prefixed(slots: seq<nat>, rest: NetArgs): NetArgs {
    if rest.ok then rest.(slots := slots + rest.slots) else rest
  }

  lemma PrefixedTwice(slots: seq<nat>, slot: nat, rest: NetArgs)
    ensures Prefixed(slots, Prefixed([slot], rest)) == Prefixed(slots + [slot], rest)
  {
    assert slots + ([slot] + rest.slots) == (slots + [slot]) + rest.slots;
  }

  /** getNetDevTypeArg. */
  method FindDevice(nic: Nic, taken: set<string>, answers: Answers) returns (dev: Option<string>)
    ensures dev == FoundDevice(nic, taken, answers)
    ensures nic.devType == Tap ==> dev == Some("tap" + Format(LeastFree("tap", taken)))
    ensures nic.devType == Vmnet ==> dev == Some("vmnet" + Format(LeastFree("vmnet", taken)))
    ensures nic.devType == Netgraph ==>
              (dev.None? <==> answers.ngDev(nic.switchId).None?) &&
              forall node, link :: answers.ngDev(nic.switchId) == Some((node, link)) ==> dev == Some(node + "," + link)
  {
    match nic.devType {
      case Tap =>
        var name := FreeDevice("tap", taken);
        return Some(name);
      case Vmnet =>
        var name := FreeDevice("vmnet", taken);
        return Some(name);
      case Netgraph =>
        match answers.ngDev(nic.switchId) {
          case None => return None;
          case Some((node, link)) => return Some(node + "," + link);
        }
    }
  }
}

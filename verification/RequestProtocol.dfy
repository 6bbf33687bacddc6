/** The asynchronous request protocol as an interleaved step system: gRPC handlers look the
    object up, check for pending requests and insert, one dispatcher picks, marks and spawns
    (reqproc.go), and each worker looks its object up, re-checks for other requests and acts
    (vmops.go, diskops.go, nicops.go). One action is one access to shared state, so every
    interleaving of the goroutines is a sequence of actions. */
module RequestProtocol {
  import opened Wrappers
  import opened RequestTable

  /** Where a worker is. `Critical` is entered by passing the re-check; a VM deletion then
      waits for the VM list lock (`Deleting` holds it) and, after reporting success,
      still has to drop the VM from the list (`Removing`). `Failing` is a worker that has
      found a reason to fail its request and not done so yet. */
  datatype Phase = Lookup | Recheck | Failing | Critical | Deleting | Removing

  datatype Dispatcher = Idle | Picked(id: ReqId) | Marked(id: ReqId)

  /** A handler that has found its object: the id as it was sent and as it parses, and
      whether the pending check has been passed. */
  datatype Call = Call(kind: Kind, text: string, canonical: string, newName: string, checked: bool)

  /** StopVM and DeleteVM queue the text they were given, the others its parsed form. */
  function QueuedId(c: Call): string {
    if c.kind in {VmStop, VmDelete} then c.text else c.canonical
  }

  datatype State = State(
    up: bool,
    rows: Rows,
    dispatcher: Dispatcher,
    workers: map<ReqId, Phase>,
    calls: map<nat, Call>,
    vms: set<string>,
    disks: set<string>,
    nics: set<string>)

  datatype Action =
    | HandlerLookup(call: nat, kind: Kind, text: string, canonical: string, newName: string)
    | HandlerCheck(call: nat)
    | HandlerRefuse(call: nat)
    | HandlerInsert(call: nat, newId: ReqId)
    | Pick(id: ReqId)
    | Mark(id: ReqId)
    | Spawn(id: ReqId)
    | LookUp(id: ReqId)
    | Check(id: ReqId)
    | Fail(id: ReqId)
    | TakeList(id: ReqId)
    | Finish(id: ReqId, ok: bool)
    | GiveUp(id: ReqId)
    | RemoveVm(id: ReqId)
    | AddObject(kind: Kind, objId: string)
    | DropDisk(objId: string)
    | DropNic(objId: string)
    | Crash
    | Boot

  predicate Exists(s: State, kind: Kind, objId: string) {
    match kind
    case DiskWipe => objId in s.disks
    case NicClone => objId in s.nics
    case Unknown => false
    case _ => objId in s.vms
  }

  /** A request whose worker would stop before its re-check. */
  predicate Dead(s: State, row: Row) {
    row.obj.None? || !Exists(s, row.kind, row.obj.value)
  }

  predicate ListFree(s: State) {
    forall id :: id in s.workers ==> s.workers[id] !in {Deleting, Removing}
  }

  predicate NoPending(s: State, objId: string) {
    forall id :: id in s.rows ==> !PendingFor(s.rows, id, objId)
  }

  predicate OtherPending(s: State, me: ReqId, objId: string) {
    exists id :: id in s.rows && id != me && PendingFor(s.rows, id, objId)
  }

  predicate At(s: State, id: ReqId, phase: Phase) {
    id in s.workers && s.workers[id] == phase && id in s.rows
  }

  /** Generated ids are new: no request names them yet. */
  predicate Unmentioned(s: State, objId: string) {
    && (forall id :: id in s.rows ==> s.rows[id].obj != Some(objId))
    && (forall c :: c in s.calls ==> s.calls[c].text != objId && s.calls[c].canonical != objId)
  }

  predicate Enabled(s: State, a: Action) {
    a.Boot? != s.up &&
    match a
    case HandlerLookup(call, kind, text, canonical, newName) =>
      && call !in s.calls
      && Exists(s, kind, canonical)
      && (ValidVmReqType(kind) ==> ListFree(s))
      && (!ValidVmReqType(kind) ==> text == canonical)
    case HandlerCheck(call) => call in s.calls && !s.calls[call].checked && NoPending(s, s.calls[call].text)
    case HandlerRefuse(call) => call in s.calls
    case HandlerInsert(call, newId) => call in s.calls && s.calls[call].checked && newId !in s.rows
    case Pick(id) => s.dispatcher.Idle? && id in s.rows && !s.rows[id].started
    case Mark(id) => s.dispatcher == Picked(id) && id in s.rows
    case Spawn(id) => s.dispatcher == Marked(id) && id in s.rows
    case LookUp(id) =>
      At(s, id, Lookup) && (ValidVmReqType(s.rows[id].kind) ==> ListFree(s))
    case Check(id) => At(s, id, Recheck) && s.rows[id].obj.Some?
    case Fail(id) => At(s, id, Failing)
    case TakeList(id) => At(s, id, Critical) && s.rows[id].kind == VmDelete && ListFree(s)
    case Finish(id, ok) =>
      if id in s.rows && s.rows[id].kind == VmDelete then At(s, id, Deleting)
      else At(s, id, Critical) && (s.rows[id].kind == DiskWipe ==> ok)
    case GiveUp(id) => At(s, id, Critical) && s.rows[id].kind == DiskWipe
    case RemoveVm(id) => At(s, id, Removing) && s.rows[id].obj.Some?
    case AddObject(kind, objId) =>
      Unmentioned(s, objId) && (ValidVmReqType(kind) ==> ListFree(s))
    case _ => true
  }

  /** What the worker does when its object lookup returns: VM workers return without
      completing the request, disk and NIC workers go on to fail it. */
  function LookedUp(s: State, id: ReqId): State
    requires At(s, id, Lookup)
  {
    var row := s.rows[id];
    if !Dead(s, row) then s.(workers := s.workers[id := Recheck])
    else if ValidVmReqType(row.kind) then s.(workers := s.workers - {id})
    else s.(workers := s.workers[id := Failing])
  }

  function Checked(s: State, id: ReqId): State
    requires At(s, id, Recheck) && s.rows[id].obj.Some?
  {
    if OtherPending(s, id, s.rows[id].obj.value) then s.(workers := s.workers[id := Failing])
    else s.(workers := s.workers[id := Critical])
  }

  function Finished(s: State, id: ReqId, ok: bool): State
    requires id in s.rows
  {
    if !ok then s.(workers := s.workers - {id}, rows := MarkFailed(s.rows, id))
    else s.(
      workers := if s.rows[id].kind == VmDelete then s.workers[id := Removing] else s.workers - {id},
      rows := MarkSucceeded(s.rows, id))
  }

  function Added(s: State, kind: Kind, objId: string): State {
    match kind
    case DiskWipe => s.(disks := s.disks + {objId})
    case NicClone => s.(nics := s.nics + {objId})
    case Unknown => s
    case _ => s.(vms := s.vms + {objId})
  }

  function Next(s: State, a: Action): State
    requires Enabled(s, a)
  {
    match a
    case HandlerLookup(call, kind, text, canonical, newName) =>
      s.(calls := s.calls[call := Call(kind, text, canonical, newName, false)])
    case HandlerCheck(call) => s.(calls := s.calls[call := s.calls[call].(checked := true)])
    case HandlerRefuse(call) => s.(calls := s.calls - {call})
    case HandlerInsert(call, newId) =>
      s.(calls := s.calls - {call},
         rows := s.rows[newId := NewRow(s.calls[call].kind, QueuedId(s.calls[call]), s.calls[call].newName)])
    case Pick(id) => s.(dispatcher := Picked(id))
    case Mark(id) => s.(dispatcher := Marked(id), rows := MarkStarted(s.rows, id))
    case Spawn(id) =>
      s.(dispatcher := Idle,
         workers := if s.rows[id].kind == Unknown then s.workers else s.workers[id := Lookup])
    case LookUp(id) => LookedUp(s, id)
    case Check(id) => Checked(s, id)
    case Fail(id) => s.(workers := s.workers - {id}, rows := MarkFailed(s.rows, id))
    case TakeList(id) => s.(workers := s.workers[id := Deleting])
    case Finish(id, ok) => Finished(s, id, ok)
    case GiveUp(id) => s.(workers := s.workers - {id})
    case RemoveVm(id) =>
      s.(workers := s.workers - {id}, vms := s.vms - {s.rows[id].obj.value})
    case AddObject(kind, objId) => Added(s, kind, objId)
    case DropDisk(objId) => s.(disks := s.disks - {objId})
    case DropNic(objId) => s.(nics := s.nics - {objId})
    case Crash => s.(up := false, dispatcher := Idle, workers := map[], calls := map[])
    case Boot => s.(up := true, rows := MarkAllComplete(s.rows))
  }

  /** `acts` can happen from `s`, in order. */
  predicate Runs(s: State, acts: seq<Action>)
    decreases |acts|
  {
    acts == [] || (Enabled(s, acts[0]) && Runs(Next(s, acts[0]), acts[1..]))
  }

  function Final(s: State, acts: seq<Action>): State
    requires Runs(s, acts)
    decreases |acts|
  {
    if acts == [] then s else Final(Next(s, acts[0]), acts[1..])
  }

  /** No crash and no restart: one life of the daemon. */
  predicate OneLife(acts: seq<Action>) {
    forall i :: 0 <= i < |acts| ==> !acts[i].Crash? && !acts[i].Boot?
  }

  lemma OneLifeConcat(first: seq<Action>, second: seq<Action>)
    requires OneLife(first) && OneLife(second)
    ensures OneLife(first + second)
  {
  }

  predicate InCritical(s: State, id: ReqId) {
    At(s, id, Critical) || At(s, id, Deleting)
  }

  ghost predicate MutualExclusion(s: State) {
    forall a, b :: InCritical(s, a) && InCritical(s, b) && s.rows[a].obj == s.rows[b].obj ==> a == b
  }

  lemma {:induction false} RunsConcat(s: State, first: seq<Action>, second: seq<Action>)
    requires Runs(s, first) && Runs(Final(s, first), second)
    ensures Runs(s, first + second)
    ensures Final(s, first + second) == Final(Final(s, first), second)
    decreases |first|
  {
    if first == [] {
      assert first + second == second;
    } else {
      RunsConcat(Next(s, first[0]), first[1..], second);
      assert (first + second)[1..] == first[1..] + second;
    }
  }
}

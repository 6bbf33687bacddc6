/** The goroutine bodies (reqproc.go, vmops.go, diskops.go, nicops.go) as code over the
    request table. Between any two accesses to shared state anything the other goroutines do
    may come in, so what each method returns is a run of RequestProtocol in which the
    worker's own actions are those of its body. */
module Workers {
  import opened Wrappers
  import opened RequestTable
  import opened RequestProtocol
  import opened RequestSafety
  import opened RequestLifecycle

  /** None of the actions is a step of this worker, and the daemon lives on. */
  predicate Foreign(acts: seq<Action>, id: ReqId) {
    forall i :: 0 <= i < |acts| ==> !Moves(acts[i], id) && !acts[i].Crash? && !acts[i].Boot?
  }

  /** The worker's own part of a run. */
  function Own(acts: seq<Action>, id: ReqId): seq<Action> {
    if acts == [] then []
    else (if Moves(acts[0], id) then [acts[0]] else []) + Own(acts[1..], id)
  }

  lemma {:induction false} OwnConcat(first: seq<Action>, second: seq<Action>, id: ReqId)
    ensures Own(first + second, id) == Own(first, id) + Own(second, id)
  {
    if first == [] {
      assert first + second == second;
    } else {
      assert (first + second)[1..] == first[1..] + second;
      OwnConcat(first[1..], second, id);
    }
  }

  /** Every step of the worker in the run is in its own part. */
  lemma {:induction false} OwnHasAll(acts: seq<Action>, a: Action, id: ReqId)
    requires Moves(a, id)
    ensures a in acts <==> a in Own(acts, id)
  {
    if acts != [] {
      OwnHasAll(acts[1..], a, id);
    }
  }

  /** What the table says of the request once its worker is through. */
  lemma SuccessIsReported(s: State, t: State, acts: seq<Action>, id: ReqId, own: seq<Action>)
    requires Did(s, t, acts, id, own) && id in s.rows
    ensures id in t.rows && (t.rows[id].successful <==> s.rows[id].successful || Finish(id, true) in own)
  {
    RowAfterRun(s, acts, id);
    OwnHasAll(acts, Finish(id, true), id);
  }

  lemma {:induction false} ForeignOwnsNothing(acts: seq<Action>, id: ReqId)
    requires Foreign(acts, id)
    ensures Own(acts, id) == []
  {
    if acts != [] {
      ForeignOwnsNothing(acts[1..], id);
    }
  }

  /** Others leave the worker where it is. */
  lemma {:induction false} ForeignKeeps(s: State, acts: seq<Action>, id: ReqId, phase: Phase)
    requires Runs(s, acts) && Foreign(acts, id) && At(s, id, phase) && s.up
    ensures var t := Final(s, acts);
            At(t, id, phase) && t.up && t.rows[id].kind == s.rows[id].kind && t.rows[id].obj == s.rows[id].obj
    decreases |acts|
  {
    if acts != [] {
      var a := acts[0];
      assert !Moves(a, id) && !a.Crash? && !a.Boot?;
      PayloadStays(s, a, id);
      WorkerStays(s, a, id);
      ForeignKeeps(Next(s, a), acts[1..], id, phase);
    }
  }

  lemma WorkerStays(s: State, a: Action, id: ReqId)
    requires Enabled(s, a) && !Moves(a, id) && !a.Crash? && !a.Boot? && id in s.workers && s.up
    ensures id in Next(s, a).workers && Next(s, a).workers[id] == s.workers[id] && Next(s, a).up
  {
  }

  class Daemon {
    const table: Table
    var rest: State          // all shared state but the request rows
    const quiet: bool        // nobody else is at work

    constructor (s: State, table: Table, quiet: bool)
      requires s.rows == table.rows
      ensures this.table == table && this.quiet == quiet && Now() == s
    {
      this.table, rest, this.quiet := table, s, quiet;
    }

    function Now(): State
      reads this, table
    {
      rest.(rows := table.rows)
    }

    /** Whatever the other goroutines get to do here. */
    method Others(id: ReqId, phase: Phase) returns (ghost acts: seq<Action>)
      requires At(Now(), id, phase) && Now().up
      modifies this, table
      ensures Runs(old(Now()), acts) && Now() == Final(old(Now()), acts) && Own(acts, id) == []
      ensures At(Now(), id, phase) && Now().up
      ensures Now().rows[id].kind == old(Now().rows)[id].kind && Now().rows[id].obj == old(Now().rows)[id].obj
      ensures quiet ==> Now() == old(Now())
    {
      var happening: seq<Action> := *;
      if quiet || !Runs(Now(), happening) || !Foreign(happening, id) {
        happening := [];
      }
      ForeignOwnsNothing(happening, id);
      ForeignKeeps(Now(), happening, id, phase);
      acts := happening;
      var end := Final(Now(), happening);
      table.rows := end.rows;
      rest := end;
    }

    /** The worker's own step, apart from what it writes to the table. */
    method MoveTo(id: ReqId, phase: Phase)
      modifies this
      ensures rest == old(rest).(workers := old(rest).workers[id := phase])
    {
      rest := rest.(workers := rest.workers[id := phase]);
    }

    method Leave(id: ReqId)
      modifies this
      ensures rest == old(rest).(workers := old(rest).workers - {id})
    {
      rest := rest.(workers := rest.workers - {id});
    }
  }

  /** `t` is reached from `s` by a run whose own part is `own`. */
  ghost predicate Did(s: State, t: State, acts: seq<Action>, id: ReqId, own: seq<Action>) {
    Runs(s, acts) && Final(s, acts) == t && Own(acts, id) == own
  }

  lemma ThenDid(s: State, t: State, u: State, acts: seq<Action>, more: seq<Action>, id: ReqId, own: seq<Action>,
                ownMore: seq<Action>)
    requires Did(s, t, acts, id, own) && Did(t, u, more, id, ownMore)
    ensures Did(s, u, acts + more, id, own + ownMore)
  {
    RunsConcat(s, acts, more);
    OwnConcat(acts, more, id);
  }

  lemma OneDid(s: State, a: Action, id: ReqId)
    requires Enabled(s, a) && Moves(a, id)
    ensures Did(s, Next(s, a), [a], id, [a])
  {
    RunsOne(s, a);
    assert Own([a], id) == [a] + Own([a][1..], id);
  }

  predicate SameRequest(row: Row, before: Row) {
    row.kind == before.kind && row.obj == before.obj
  }

  /** How far a body got. `Waiting`: a lock it needs is held by another worker. */
  datatype Outcome = Waiting | Lost | Refused | Admitted

  /** The steps of lookup and re-check. */
  function EntrySteps(outcome: Outcome, id: ReqId, checked: bool): seq<Action> {
    match outcome
    case Waiting => []
    case _ => [LookUp(id)] + AfterLookupSteps(outcome, id, checked)
  }

  function AfterLookupSteps(outcome: Outcome, id: ReqId, checked: bool): seq<Action> {
    match outcome
    case Refused => if checked then [Check(id), Fail(id)] else [Fail(id)]
    case Admitted => [Check(id)]
    case _ => []
  }

  /** The table after worker `id` has run alone: what it reports depends on the lookup, on
      other requests for its object and on the outcome of the operation. */
  ghost function Reported(s: State, id: ReqId, opOk: bool): Rows
    requires id in s.rows
  {
    if Dead(s, s.rows[id]) && ValidVmReqType(s.rows[id].kind) then s.rows
    else if Dead(s, s.rows[id]) || OtherPending(s, id, s.rows[id].obj.value) || !opOk then MarkFailed(s.rows, id)
    else MarkSucceeded(s.rows, id)
  }

  /** One turn of the dispatcher loop. */
  method ProcessOneRequest(table: Table, ghost s: State) returns (picked: Option<ReqId>, ghost acts: seq<Action>)
    requires s.up && s.dispatcher == Idle && s.rows == table.rows
    modifies table
    ensures Runs(s, acts) && table.rows == Final(s, acts).rows
    ensures picked.None? ==> acts == [] && forall id :: id in s.rows ==> s.rows[id].started
    ensures picked.Some? ==>
              && picked.value in s.rows && !s.rows[picked.value].started
              && acts == [Pick(picked.value), Mark(picked.value), Spawn(picked.value)]
  {
    picked := table.GetUnstarted();
    acts := [];
    if picked.Some? {
      var id := picked.value;
      table.Start(id);
      acts := [Pick(id), Mark(id), Spawn(id)];
      RunsOne(Next(Next(s, Pick(id)), Mark(id)), Spawn(id));
      RunsCons(Next(s, Pick(id)), Mark(id), [Spawn(id)]);
      RunsCons(s, Pick(id), [Mark(id), Spawn(id)]);
    }
  }

  /** The loop over the pending ids that every worker runs after its lookup. */
  method HasOtherPending(table: Table, me: ReqId, objId: string) returns (busy: bool)
    ensures busy <==> exists id :: id in table.rows && id != me && !table.rows[id].complete &&
                        table.rows[id].obj == Some(objId) && table.rows[id].kind != Unknown
  {
    var pending := table.PendingReqExists(objId);
    for i := 0 to |pending|
      invariant forall j :: 0 <= j < i ==> pending[j] == me
    {
      if pending[i] != me {
        assert pending[i] in pending;
        return true;
      }
    }
    assert forall id :: id in pending ==> id == me;
    return false;
  }

  /** The lookup, once it can be made. */
  method Look(d: Daemon, id: ReqId) returns (phase: Option<Phase>)
    requires At(d.Now(), id, Lookup) && Enabled(d.Now(), LookUp(id))
    modifies d
    ensures d.Now() == Next(old(d.Now()), LookUp(id))
    ensures phase == if id in d.Now().workers then Some(d.Now().workers[id]) else None
    ensures phase == (if !old(Dead(d.Now(), d.Now().rows[id])) then Some(Recheck)
                      else if ValidVmReqType(d.Now().rows[id].kind) then None else Some(Failing))
  {
    var row := d.table.rows[id];
    if row.obj.Some? && Exists(d.Now(), row.kind, row.obj.value) {
      d.MoveTo(id, Recheck);
      return Some(Recheck);
    }
    if ValidVmReqType(row.kind) {
      d.Leave(id);
      return None;
    }
    d.MoveTo(id, Failing);
    return Some(Failing);
  }

  /** The re-check. */
  method CheckPending(d: Daemon, id: ReqId) returns (busy: bool)
    requires At(d.Now(), id, Recheck) && Enabled(d.Now(), Check(id))
    modifies d
    ensures d.Now() == Next(old(d.Now()), Check(id))
    ensures busy <==> old(OtherPending(d.Now(), id, d.Now().rows[id].obj.value))
  {
    busy := HasOtherPending(d.table, id, d.table.rows[id].obj.value);
    d.MoveTo(id, if busy then Failing else Critical);
  }

  /** Others, and then this worker fails its request. */
  method FailRequest(d: Daemon, id: ReqId) returns (ghost acts: seq<Action>)
    requires At(d.Now(), id, Failing) && d.Now().up
    modifies d, d.table
    ensures Did(old(d.Now()), d.Now(), acts, id, [Fail(id)]) && id !in d.Now().workers
    ensures id in d.Now().rows && SameRequest(d.Now().rows[id], old(d.Now().rows)[id])
    ensures d.quiet ==> d.Now().rows == MarkFailed(old(d.Now().rows), id) && d.Now().vms == old(d.Now()).vms
  {
    acts := d.Others(id, Failing);
    ghost var t := d.Now();
    d.table.Failed(id);
    d.Leave(id);
    OneDid(t, Fail(id), id);
    ThenDid(old(d.Now()), t, d.Now(), acts, [Fail(id)], id, [], [Fail(id)]);
    acts := acts + [Fail(id)];
  }

  /** Lookup and re-check, the part all workers share. VM workers report nothing when the
      lookup fails, disk and NIC workers fail the request. */
  method Admit(d: Daemon, id: ReqId) returns (outcome: Outcome, ghost checked: bool, ghost acts: seq<Action>)
    requires At(d.Now(), id, Lookup) && d.Now().up
    modifies d, d.table
    ensures Did(old(d.Now()), d.Now(), acts, id, EntrySteps(outcome, id, checked))
    ensures id in d.Now().rows && SameRequest(d.Now().rows[id], old(d.Now().rows)[id])
    ensures outcome == Admitted ==> d.Now().up && d.Now().rows[id].obj.Some?
    ensures outcome == Waiting ==> ValidVmReqType(d.Now().rows[id].kind) && !ListFree(d.Now())
    ensures match outcome
            case Waiting => At(d.Now(), id, Lookup)
            case Admitted => At(d.Now(), id, Critical)
            case _ => id !in d.Now().workers
    ensures d.quiet && old(ListFree(d.Now())) ==>
              && outcome != Waiting && d.Now().vms == old(d.Now()).vms
              && (outcome != Admitted ==> d.Now().rows == Reported(old(d.Now()), id, true))
              && (d.Now().rows[id].complete <==> old(d.Now().rows)[id].complete || outcome == Refused)
              && (outcome == Admitted ==> d.Now() == old(d.Now()).(workers := old(d.Now()).workers[id := Critical]))
              && (outcome == Admitted <==>
                  old(!Dead(d.Now(), d.Now().rows[id]) && !OtherPending(d.Now(), id, d.Now().rows[id].obj.value)))
  {
    checked := false;
    acts := d.Others(id, Lookup);
    ghost var s, t := old(d.Now()), d.Now();
    if ValidVmReqType(d.table.rows[id].kind) && !ListFree(d.Now()) {
      return Waiting, checked, acts;
    }
    ghost var more;
    outcome, checked, more := Enter(d, id);
    ThenDid(s, t, d.Now(), acts, more, id, [], EntrySteps(outcome, id, checked));
    acts := acts + more;
  }

  /** Lookup and re-check once the lookup can be made. */
  method Enter(d: Daemon, id: ReqId) returns (outcome: Outcome, ghost checked: bool, ghost acts: seq<Action>)
    requires At(d.Now(), id, Lookup) && Enabled(d.Now(), LookUp(id))
    modifies d, d.table
    ensures outcome != Waiting && Did(old(d.Now()), d.Now(), acts, id, EntrySteps(outcome, id, checked))
    ensures id in d.Now().rows && SameRequest(d.Now().rows[id], old(d.Now().rows)[id])
    ensures outcome == Admitted ==> d.Now().up && d.Now().rows[id].obj.Some?
    ensures if outcome == Admitted then At(d.Now(), id, Critical) else id !in d.Now().workers
    ensures d.quiet ==>
              && d.Now().vms == old(d.Now()).vms
              && (outcome != Admitted ==> d.Now().rows == Reported(old(d.Now()), id, true))
              && (d.Now().rows[id].complete <==> old(d.Now().rows)[id].complete || outcome == Refused)
              && (outcome == Admitted ==> d.Now() == old(d.Now()).(workers := old(d.Now()).workers[id := Critical]))
              && (outcome == Admitted <==>
                  old(!Dead(d.Now(), d.Now().rows[id]) && !OtherPending(d.Now(), id, d.Now().rows[id].obj.value)))
  {
    ghost var s := d.Now();
    var phase := Look(d, id);
    OneDid(s, LookUp(id), id);
    acts := [LookUp(id)];
    ghost var t, more := d.Now(), [];
    outcome, checked, more := GoOn(d, id, phase);
    ThenDid(s, t, d.Now(), acts, more, id, [LookUp(id)], AfterLookupSteps(outcome, id, checked));
    acts := acts + more;
  }

  /** After the lookup: gone, failing, or on to the re-check. */
  method GoOn(d: Daemon, id: ReqId, phase: Option<Phase>)
    returns (outcome: Outcome, ghost checked: bool, ghost acts: seq<Action>)
    requires d.Now().up && id in d.Now().rows && phase in {None, Some(Failing), Some(Recheck)}
    requires if phase.None? then id !in d.Now().workers else At(d.Now(), id, phase.value)
    requires phase == Some(Recheck) ==> d.Now().rows[id].obj.Some?
    modifies d, d.table
    ensures outcome != Waiting && Did(old(d.Now()), d.Now(), acts, id, AfterLookupSteps(outcome, id, checked))
    ensures if outcome == Admitted then At(d.Now(), id, Critical) && d.Now().up else id !in d.Now().workers
    ensures id in d.Now().rows && SameRequest(d.Now().rows[id], old(d.Now().rows)[id])
    ensures (outcome == Admitted ==> phase == Some(Recheck)) && (outcome == Lost <==> phase.None?)
    ensures d.quiet ==>
              && (outcome == Admitted <==>
                  phase == Some(Recheck) && old(!OtherPending(d.Now(), id, d.Now().rows[id].obj.value)))
              && d.Now().rows == (if outcome == Admitted || phase.None? then old(d.Now().rows)
                                  else MarkFailed(old(d.Now().rows), id))
              && d.Now().vms == old(d.Now()).vms
              && (outcome == Admitted ==> d.Now() == old(d.Now()).(workers := old(d.Now()).workers[id := Critical]))
  {
    checked := phase == Some(Recheck);
    if phase.None? {
      acts, outcome := [], Lost;
    } else if phase.value == Failing {
      acts := FailRequest(d, id);
      outcome := Refused;
    } else {
      outcome, acts := AfterLookup(d, id);
    }
  }

  method AfterLookup(d: Daemon, id: ReqId) returns (outcome: Outcome, ghost acts: seq<Action>)
    requires At(d.Now(), id, Recheck) && d.Now().up && d.Now().rows[id].obj.Some?
    modifies d, d.table
    ensures outcome in {Admitted, Refused}
    ensures Did(old(d.Now()), d.Now(), acts, id, if outcome == Admitted then [Check(id)] else [Check(id), Fail(id)])
    ensures if outcome == Admitted then At(d.Now(), id, Critical) && d.Now().up else id !in d.Now().workers
    ensures id in d.Now().rows && SameRequest(d.Now().rows[id], old(d.Now().rows)[id])
    ensures d.quiet ==>
              && (outcome == Admitted <==> old(!OtherPending(d.Now(), id, d.Now().rows[id].obj.value)))
              && d.Now().rows == (if outcome == Admitted then old(d.Now().rows) else MarkFailed(old(d.Now().rows), id))
              && d.Now().vms == old(d.Now()).vms
              && (outcome == Admitted ==> d.Now() == old(d.Now()).(workers := old(d.Now()).workers[id := Critical]))
  {
    acts := d.Others(id, Recheck);
    ghost var s, t := old(d.Now()), d.Now();
    var busy := CheckPending(d, id);
    OneDid(t, Check(id), id);
    ThenDid(s, t, d.Now(), acts, [Check(id)], id, [], [Check(id)]);
    acts := acts + [Check(id)];
    outcome := Admitted;
    if busy {
      t := d.Now();
      ghost var more := FailRequest(d, id);
      ThenDid(s, t, d.Now(), acts, more, id, [Check(id)], [Fail(id)]);
      acts := acts + more;
      outcome := Refused;
    }
  }

  /** startVM, stopVM and nicClone; `opOk` is the outcome of the operation itself. */
  method RunOperation(d: Daemon, id: ReqId, opOk: bool)
    returns (outcome: Outcome, ghost checked: bool, ghost acts: seq<Action>)
    requires At(d.Now(), id, Lookup) && d.Now().up && d.Now().rows[id].kind in {VmStart, VmStop, NicClone}
    modifies d, d.table
    ensures Did(old(d.Now()), d.Now(), acts, id,
                EntrySteps(outcome, id, checked) + if outcome == Admitted then [Finish(id, opOk)] else [])
    ensures outcome != Waiting <==> id !in d.Now().workers
    ensures outcome == Waiting ==> !ListFree(d.Now())
    ensures id in d.Now().rows
    ensures d.Now().rows[id].successful <==> old(d.Now().rows)[id].successful || (outcome == Admitted && opOk)
    ensures d.quiet && old(ListFree(d.Now())) ==>
              (d.Now().rows[id].complete <==> old(d.Now().rows)[id].complete || outcome in {Refused, Admitted})
    ensures d.quiet && old(ListFree(d.Now())) ==> outcome != Waiting && d.Now().rows == Reported(old(d.Now()), id, opOk)
  {
    outcome, checked, acts := Admit(d, id);
    ghost var own := EntrySteps(outcome, id, checked);
    assert own + [] == own;
    if outcome == Admitted {
      ghost var t := d.Now();
      ghost var more := d.Others(id, Critical);
      ThenDid(old(d.Now()), t, d.Now(), acts, more, id, own, []);
      acts, t := acts + more, d.Now();
      Report(d, id, opOk);
      ThenDid(old(d.Now()), t, d.Now(), acts, [Finish(id, opOk)], id, own, [Finish(id, opOk)]);
      acts := acts + [Finish(id, opOk)];
    }
    SuccessIsReported(old(d.Now()), d.Now(), acts, id,
                      EntrySteps(outcome, id, checked) + if outcome == Admitted then [Finish(id, opOk)] else []);
  }

  /** Reports the outcome and is done. */
  method Report(d: Daemon, id: ReqId, opOk: bool)
    requires At(d.Now(), id, Critical) && d.Now().up && d.Now().rows[id].kind in {VmStart, VmStop, NicClone}
    modifies d, d.table
    ensures Did(old(d.Now()), d.Now(), [Finish(id, opOk)], id, [Finish(id, opOk)])
    ensures id !in d.Now().workers
    ensures d.Now().rows == if opOk then MarkSucceeded(old(d.Now().rows), id) else MarkFailed(old(d.Now().rows), id)
  {
    ghost var t := d.Now();
    if !opOk {
      d.table.Failed(id);
    } else {
      d.table.Succeeded(id);
    }
    d.Leave(id);
    OneDid(t, Finish(id, opOk), id);
  }

  /** diskWipe; `sized` says the device type is known and its size could be read. Errors
      removing or recreating the backing are only logged. */
  method WipeDisk(d: Daemon, id: ReqId, sized: bool)
    returns (outcome: Outcome, ghost checked: bool, ghost acts: seq<Action>)
    requires At(d.Now(), id, Lookup) && d.Now().up && d.Now().rows[id].kind == DiskWipe
    modifies d, d.table
    ensures Did(old(d.Now()), d.Now(), acts, id,
                EntrySteps(outcome, id, checked) +
                if outcome != Admitted then [] else if sized then [Finish(id, true)] else [GiveUp(id)])
    ensures outcome != Waiting && id !in d.Now().workers
    ensures id in d.Now().rows
    ensures d.Now().rows[id].successful <==> old(d.Now().rows)[id].successful || (outcome == Admitted && sized)
    ensures d.quiet && old(ListFree(d.Now())) ==>
              (d.Now().rows[id].complete <==>
               old(d.Now().rows)[id].complete || outcome == Refused || (outcome == Admitted && sized))
    ensures d.quiet && old(ListFree(d.Now())) ==>
              d.Now().rows == if outcome == Admitted && !sized then old(d.Now().rows)
                              else Reported(old(d.Now()), id, true)
  {
    outcome, checked, acts := Admit(d, id);
    ghost var own := EntrySteps(outcome, id, checked);
    assert own + [] == own;
    if outcome == Admitted {
      ghost var t := d.Now();
      ghost var more := d.Others(id, Critical);
      ThenDid(old(d.Now()), t, d.Now(), acts, more, id, own, []);
      acts, t := acts + more, d.Now();
      ghost var last := if sized then Finish(id, true) else GiveUp(id);
      if sized {
        d.table.Succeeded(id);
      }
      d.Leave(id);
      OneDid(t, last, id);
      ThenDid(old(d.Now()), t, d.Now(), acts, [last], id, own, [last]);
      acts := acts + [last];
    }
    SuccessIsReported(old(d.Now()), d.Now(), acts, id,
                      EntrySteps(outcome, id, checked) +
                      if outcome != Admitted then [] else if sized then [Finish(id, true)] else [GiveUp(id)]);
  }

  /** How deleteVM goes on once admitted: `held` says it got the VM list lock. */
  function DeletionSteps(id: ReqId, held: bool, opOk: bool): seq<Action> {
    if !held then []
    else if opOk then [TakeList(id), Finish(id, true), RemoveVm(id)]
    else [TakeList(id), Finish(id, false)]
  }

  /** deleteVM: holds the VM list lock while deleting, reports, then drops the list entry. */
  method DeleteVm(d: Daemon, id: ReqId, opOk: bool)
    returns (outcome: Outcome, held: bool, ghost checked: bool, ghost acts: seq<Action>)
    requires At(d.Now(), id, Lookup) && d.Now().up && d.Now().rows[id].kind == VmDelete
    modifies d, d.table
    ensures held ==> outcome == Admitted
    ensures Did(old(d.Now()), d.Now(), acts, id, EntrySteps(outcome, id, checked) + DeletionSteps(id, held, opOk))
    ensures id !in d.Now().workers <==> held || outcome in {Lost, Refused}
    ensures outcome == Waiting || (outcome == Admitted && !held) ==> !ListFree(d.Now())
    ensures id in d.Now().rows
    ensures d.Now().rows[id].successful <==> old(d.Now().rows)[id].successful || (held && opOk)
    ensures d.quiet && old(ListFree(d.Now())) ==>
              (d.Now().rows[id].complete <==> old(d.Now().rows)[id].complete || outcome in {Refused, Admitted})
    ensures d.quiet && old(ListFree(d.Now())) ==>
              && d.Now().rows == Reported(old(d.Now()), id, opOk)
              && (held <==> outcome == Admitted) && (held ==> old(d.Now().rows)[id].obj.Some?)
              && d.Now().vms == if held && opOk then old(d.Now()).vms - {old(d.Now().rows)[id].obj.value}
                                else old(d.Now()).vms
  {
    held := false;
    outcome, checked, acts := Admit(d, id);
    ghost var own := EntrySteps(outcome, id, checked);
    assert own + [] == own;
    if outcome == Admitted {
      assert d.quiet && old(ListFree(d.Now())) ==> ListFree(d.Now());
      ghost var t, more := d.Now(), [];
      held, more := DeleteHoldingList(d, id, opOk);
      ThenDid(old(d.Now()), t, d.Now(), acts, more, id, own, DeletionSteps(id, held, opOk));
      acts := acts + more;
    }
    SuccessIsReported(old(d.Now()), d.Now(), acts, id,
                      EntrySteps(outcome, id, checked) + DeletionSteps(id, held, opOk));
  }

  method DeleteHoldingList(d: Daemon, id: ReqId, opOk: bool) returns (held: bool, ghost acts: seq<Action>)
    requires At(d.Now(), id, Critical) && d.Now().up && d.Now().rows[id].kind == VmDelete
    requires d.Now().rows[id].obj.Some?
    modifies d, d.table
    ensures Did(old(d.Now()), d.Now(), acts, id, DeletionSteps(id, held, opOk))
    ensures id !in d.Now().workers <==> held
    ensures !held ==> !ListFree(d.Now())
    ensures d.quiet && old(ListFree(d.Now())) ==>
              && held
              && d.Now().rows == (if opOk then MarkSucceeded(old(d.Now().rows), id)
                                  else MarkFailed(old(d.Now().rows), id))
              && d.Now().vms == if opOk then old(d.Now()).vms - {old(d.Now().rows)[id].obj.value} else old(d.Now()).vms
  {
    acts := d.Others(id, Critical);
    if !ListFree(d.Now()) {
      return false, acts;
    }
    ghost var s, t := old(d.Now()), d.Now();
    d.MoveTo(id, Deleting);
    OneDid(t, TakeList(id), id);
    ThenDid(s, t, d.Now(), acts, [TakeList(id)], id, [], [TakeList(id)]);
    acts, t := acts + [TakeList(id)], d.Now();
    ghost var more := ReportDeletion(d, id, opOk);
    ThenDid(s, t, d.Now(), acts, more, id, [TakeList(id)],
            if opOk then [Finish(id, true), RemoveVm(id)] else [Finish(id, false)]);
    held, acts := true, acts + more;
  }

  method ReportDeletion(d: Daemon, id: ReqId, opOk: bool) returns (ghost acts: seq<Action>)
    requires At(d.Now(), id, Deleting) && d.Now().up && d.Now().rows[id].kind == VmDelete
    requires d.Now().rows[id].obj.Some?
    modifies d, d.table
    ensures Did(old(d.Now()), d.Now(), acts, id, if opOk then [Finish(id, true), RemoveVm(id)] else [Finish(id, false)])
    ensures id !in d.Now().workers
    ensures d.quiet ==>
              && d.Now().rows == (if opOk then MarkSucceeded(old(d.Now().rows), id)
                                  else MarkFailed(old(d.Now().rows), id))
              && d.Now().vms == if opOk then old(d.Now()).vms - {old(d.Now().rows)[id].obj.value} else old(d.Now()).vms
  {
    acts := d.Others(id, Deleting);
    ghost var s, t := old(d.Now()), d.Now();
    if !opOk {
      d.table.Failed(id);
      d.Leave(id);
    } else {
      d.table.Succeeded(id);
      d.MoveTo(id, Removing);
    }
    OneDid(t, Finish(id, opOk), id);
    ThenDid(s, t, d.Now(), acts, [Finish(id, opOk)], id, [], [Finish(id, opOk)]);
    acts := acts + [Finish(id, opOk)];
    if opOk {
      t := d.Now();
      ghost var more := DropVm(d, id);
      ThenDid(s, t, d.Now(), acts, more, id, [Finish(id, true)], [RemoveVm(id)]);
      acts := acts + more;
    }
  }

  method DropVm(d: Daemon, id: ReqId) returns (ghost acts: seq<Action>)
    requires At(d.Now(), id, Removing) && d.Now().up && d.Now().rows[id].obj.Some?
    modifies d, d.table
    ensures Did(old(d.Now()), d.Now(), acts, id, [RemoveVm(id)]) && id !in d.Now().workers
    ensures d.quiet ==>
              && d.Now().rows == old(d.Now().rows)
              && d.Now().vms == old(d.Now()).vms - {old(d.Now().rows)[id].obj.value}
  {
    acts := d.Others(id, Removing);
    ghost var s, t := old(d.Now()), d.Now();
    d.Leave(id);
    d.rest := d.rest.(vms := d.rest.vms - {d.table.rows[id].obj.value});
    OneDid(t, RemoveVm(id), id);
    ThenDid(s, t, d.Now(), acts, [RemoveVm(id)], id, [], [RemoveVm(id)]);
    acts := acts + [RemoveVm(id)];
  }
}

/** What a single request can go through, over runs that may crash and restart. */
module RequestLifecycle {
  import opened Wrappers
  import opened RequestTable
  import opened RequestProtocol
  import opened RequestSafety

  /** The dispatcher's claim on a request it has marked but not yet handed over. */
  predicate Claimed(s: State, id: ReqId) {
    s.dispatcher == Marked(id)
  }

  predicate DispatcherConsistent(s: State) {
    match s.dispatcher
    case Idle => true
    case Picked(id) => id in s.rows && !s.rows[id].started
    case Marked(id) => id in s.rows && s.rows[id].started
  }

  lemma DispatcherConsistentStep(s: State, a: Action)
    requires DispatcherConsistent(s) && Enabled(s, a)
    ensures DispatcherConsistent(Next(s, a))
  {
  }

  function Spawns(acts: seq<Action>, id: ReqId): nat {
    multiset(acts)[Spawn(id)]
  }

  /** Whatever crashes and restarts happen, a request is handed to a worker at most once,
      and never again after it has been started. */
  lemma {:induction false} DispatchedAtMostOnce(s: State, acts: seq<Action>, id: ReqId)
    requires DispatcherConsistent(s) && Runs(s, acts)
    ensures Spawns(acts, id) <= 1
    ensures id in s.rows && s.rows[id].started && !Claimed(s, id) ==> Spawns(acts, id) == 0
    decreases |acts|
  {
    if acts != [] {
      DispatcherConsistentStep(s, acts[0]);
      DispatchedAtMostOnce(Next(s, acts[0]), acts[1..], id);
      assert acts == [acts[0]] + acts[1..];
    }
  }

  predicate SuccessIsComplete(s: State) {
    forall id :: id in s.rows && s.rows[id].successful ==> s.rows[id].complete
  }

  /** Rows only move forward: never unstarted again, never incomplete again, never
      un-succeeded, and never about something else. */
  predicate Forward(before: Row, after: Row) {
    && after.kind == before.kind && after.obj == before.obj
    && (before.started ==> after.started)
    && (before.complete ==> after.complete)
    && (before.successful ==> after.successful)
  }

  lemma RowsStepForward(s: State, a: Action)
    requires SuccessIsComplete(s) && Enabled(s, a)
    ensures SuccessIsComplete(Next(s, a))
    ensures forall id :: id in s.rows ==> id in Next(s, a).rows && Forward(s.rows[id], Next(s, a).rows[id])
  {
    forall id | id in s.rows
      ensures id in Next(s, a).rows && Forward(s.rows[id], Next(s, a).rows[id])
    {
      if a in {Boot, Mark(id), Fail(id), Finish(id, true), Finish(id, false)} {
        WrittenRow(s, a, id);
      } else {
        RowLeftAlone(s, a, id);
      }
    }
    SuccessStaysComplete(s, a);
  }

  lemma SuccessStaysComplete(s: State, a: Action)
    requires SuccessIsComplete(s) && Enabled(s, a)
    ensures SuccessIsComplete(Next(s, a))
  {
  }

  lemma {:induction false} RowsMoveForward(s: State, acts: seq<Action>)
    requires SuccessIsComplete(s) && Runs(s, acts)
    ensures SuccessIsComplete(Final(s, acts))
    ensures forall id :: id in s.rows ==>
              id in Final(s, acts).rows && Forward(s.rows[id], Final(s, acts).rows[id])
    decreases |acts|
  {
    if acts != [] {
      RowsStepForward(s, acts[0]);
      RowsMoveForward(Next(s, acts[0]), acts[1..]);
    }
  }

  /** The fields of a row after a run: started exactly by its mark, complete exactly by a
      report, a refusal or a restart, and successful exactly by a report of success. */
  lemma {:induction false} RowAfterRun(s: State, acts: seq<Action>, id: ReqId)
    requires Runs(s, acts) && id in s.rows
    ensures id in Final(s, acts).rows
    ensures Final(s, acts).rows[id].started <==> s.rows[id].started || Mark(id) in acts
    ensures Final(s, acts).rows[id].complete <==>
            || s.rows[id].complete || Boot in acts
            || Fail(id) in acts || Finish(id, true) in acts || Finish(id, false) in acts
    ensures Final(s, acts).rows[id].successful <==> s.rows[id].successful || Finish(id, true) in acts
    decreases |acts|
  {
    if acts != [] {
      RowAfterStep(s, acts[0], id);
      RowAfterRun(Next(s, acts[0]), acts[1..], id);
      assert forall a :: a in acts <==> a == acts[0] || a in acts[1..];
    }
  }

  lemma RowAfterStep(s: State, a: Action, id: ReqId)
    requires Enabled(s, a) && id in s.rows
    ensures id in Next(s, a).rows
    ensures Next(s, a).rows[id].started <==> s.rows[id].started || a == Mark(id)
    ensures Next(s, a).rows[id].complete <==>
            s.rows[id].complete || a in {Boot, Fail(id), Finish(id, true), Finish(id, false)}
    ensures Next(s, a).rows[id].successful <==> s.rows[id].successful || a == Finish(id, true)
  {
    if a in {Boot, Mark(id), Fail(id), Finish(id, true), Finish(id, false)} {
      WrittenRow(s, a, id);
    } else {
      RowLeftAlone(s, a, id);
    }
  }

  lemma WrittenRow(s: State, a: Action, id: ReqId)
    requires Enabled(s, a) && id in s.rows && a in {Boot, Mark(id), Fail(id), Finish(id, true), Finish(id, false)}
    ensures id in Next(s, a).rows
    ensures Next(s, a).rows[id] ==
            if a == Mark(id) then s.rows[id].(started := true)
            else if a == Finish(id, true) then s.rows[id].(complete := true, successful := true)
            else s.rows[id].(complete := true)
  {
  }

  lemma RowLeftAlone(s: State, a: Action, id: ReqId)
    requires Enabled(s, a) && id in s.rows && a !in {Boot, Mark(id), Fail(id), Finish(id, true), Finish(id, false)}
    ensures id in Next(s, a).rows && Next(s, a).rows[id] == s.rows[id]
  {
  }

  /** When a worker gets in, in terms of the row and the lists: its object is in the list of
      its kind and no other incomplete request names it. */
  lemma GetsInExactly(s: State, id: ReqId)
    requires id in s.rows && s.rows[id].obj.Some?
    ensures var row := s.rows[id];
            !Dead(s, row) && !OtherPending(s, id, row.obj.value) <==>
            && ((row.kind in {VmStart, VmStop, VmDelete} && row.obj.value in s.vms) ||
                (row.kind == DiskWipe && row.obj.value in s.disks) ||
                (row.kind == NicClone && row.obj.value in s.nics))
            && forall other | other in s.rows && other != id && s.rows[other].obj == row.obj ::
                 s.rows[other].complete || s.rows[other].kind == Unknown
  {
    if other :| other in s.rows && other != id && s.rows[other].obj == s.rows[id].obj &&
                s.rows[other].kind != Unknown && !s.rows[other].complete {
      assert PendingFor(s.rows, other, s.rows[id].obj.value);
    }
  }

  /** A started request nobody is going to complete: its worker left through one of the
      exits that report nothing. */
  predicate Abandoned(s: State, id: ReqId) {
    && id in s.rows && s.rows[id].started && !s.rows[id].complete
    && s.rows[id].kind != Unknown && s.rows[id].obj.Some?
    && id !in s.workers && !Claimed(s, id)
  }

  /** How requests get abandoned: a VM worker whose lookup fails, a wipe that cannot size
      its disk, or a crash. */
  lemma AbandoningExits(s: State, a: Action, id: ReqId)
    requires Inv(s) && Enabled(s, a) && !a.Crash? && !a.Boot?
    requires id in s.rows && s.rows[id].obj.Some? && id in s.workers
    ensures Abandoned(Next(s, a), id) <==>
            || (a == LookUp(id) && Dead(s, s.rows[id]) && ValidVmReqType(s.rows[id].kind) && !s.rows[id].complete)
            || a == GiveUp(id)
  {
    assert WorkerOk(s, id);
    assert !Claimed(s, id);
  }

  lemma AbandonedStep(s: State, a: Action, id: ReqId)
    requires Abandoned(s, id) && DispatcherConsistent(s) && Enabled(s, a) && !a.Crash? && !a.Boot?
    ensures Abandoned(Next(s, a), id)
  {
  }

  /** Until the next restart an abandoned request bars its object: the workers inside the
      critical section at any later time were inside when it was abandoned. */
  lemma {:induction false} AbandonedBars(s: State, acts: seq<Action>, id: ReqId, worker: ReqId)
    requires Abandoned(s, id) && DispatcherConsistent(s) && s.workers.Keys <= s.rows.Keys
    requires OneLife(acts) && Runs(s, acts)
    ensures Abandoned(Final(s, acts), id)
    ensures InCritical(Final(s, acts), worker) && Final(s, acts).rows[worker].obj == s.rows[id].obj
            ==> InCritical(s, worker)
    decreases |acts|
  {
    if acts != [] {
      var a, t := acts[0], Next(s, acts[0]);
      assert !a.Crash? && !a.Boot?;
      AbandonedStep(s, a, id);
      DispatcherConsistentStep(s, a);
      PayloadStays(s, a, id);
      AbandonedBars(t, acts[1..], id, worker);
      if InCritical(t, worker) && !InCritical(s, worker) {
        EnterOnlyByCheck(s, a, worker);
        RowPayloadKept(t, acts[1..], worker);
        assert PendingFor(s.rows, id, s.rows[id].obj.value);
      }
    }
  }

  lemma {:induction false} RowPayloadKept(s: State, acts: seq<Action>, id: ReqId)
    requires Runs(s, acts) && id in s.rows
    ensures id in Final(s, acts).rows && Final(s, acts).rows[id].obj == s.rows[id].obj
    decreases |acts|
  {
    if acts != [] {
      PayloadStays(s, acts[0], id);
      RowPayloadKept(Next(s, acts[0]), acts[1..], id);
    }
  }

  /** A deletion reports success before it drops the VM from the list, so a start request
      that slipped past its handler check can be working on the VM while it disappears:
      from any quiet state with a VM in it there is such a run. */
  lemma WorkerCanOutliveItsVm(s: State, vmId: string, delete: ReqId, start: ReqId) returns (acts: seq<Action>)
    requires s.up && s.dispatcher == Idle && s.workers == map[] && s.calls == map[]
    requires vmId in s.vms && NoPending(s, vmId)
    requires delete !in s.rows && start !in s.rows && delete != start
    ensures OneLife(acts) && Runs(s, acts)
    ensures InCritical(Final(s, acts), start)
    ensures Final(s, acts).rows[start].obj == Some(vmId) && vmId !in Final(s, acts).vms
  {
    var part1 := BothAsked(s, vmId, delete);
    var part2 := OverlappingStart(Final(s, part1), vmId, delete, start);
    RunsConcat(s, part1, part2);
    OneLifeConcat(part1, part2);
    acts := part1 + part2;
  }

  /** Both handlers pass their checks, then the deletion is queued and gets in. */
  lemma BothAsked(s: State, vmId: string, delete: ReqId) returns (acts: seq<Action>)
    requires s.up && s.dispatcher == Idle && s.workers == map[] && s.calls == map[]
    requires vmId in s.vms && NoPending(s, vmId) && delete !in s.rows
    ensures OneLife(acts) && Runs(s, acts)
    ensures Final(s, acts) ==
            s.(rows := s.rows[delete := NewRow(VmDelete, vmId, "").(started := true)],
               workers := map[delete := Critical], calls := map[1 := Waiting(vmId)])
  {
    var ask := Ask(vmId, delete);
    AskRuns(s, vmId, delete);
    EnterRuns(Final(s, ask), delete);
    RunsConcat(s, ask, Enter(delete));
    OneLifeConcat(ask, Enter(delete));
    acts := ask + Enter(delete);
  }

  /** A start handler that has passed its check. */
  function Waiting(vmId: string): Call {
    Call(VmStart, vmId, vmId, "", true)
  }

  function Ask(vmId: string, delete: ReqId): seq<Action> {
    [HandlerLookup(1, VmStart, vmId, vmId, ""), HandlerCheck(1)] + Queue(0, VmDelete, vmId, vmId, delete)
  }

  lemma AskRuns(s: State, vmId: string, delete: ReqId)
    requires s.up && s.workers == map[] && s.calls == map[]
    requires vmId in s.vms && NoPending(s, vmId) && delete !in s.rows
    ensures OneLife(Ask(vmId, delete)) && Runs(s, Ask(vmId, delete))
    ensures Final(s, Ask(vmId, delete)) ==
            s.(rows := s.rows[delete := NewRow(VmDelete, vmId, "")], calls := map[1 := Waiting(vmId)])
  {
    var look, check := HandlerLookup(1, VmStart, vmId, vmId, ""), HandlerCheck(1);
    var s1 := Next(s, look);
    RunsOne(s1, check);
    RunsCons(s, look, [check]);
    var s2 := s.(calls := map[1 := Waiting(vmId)]);
    assert Final(s, [look] + [check]) == s2;
    QueueRuns(s2, 0, VmDelete, vmId, vmId, delete);
    RunsConcat(s, [look] + [check], Queue(0, VmDelete, vmId, vmId, delete));
    assert [look] + [check] == [look, check];
  }

  lemma OverlappingStart(s: State, vmId: string, delete: ReqId, start: ReqId) returns (acts: seq<Action>)
    requires s.up && s.dispatcher == Idle && s.workers == map[delete := Critical]
    requires s.calls == map[1 := Waiting(vmId)] && vmId in s.vms && delete in s.rows && start !in s.rows
    requires s.rows[delete].kind == VmDelete && s.rows[delete].obj == Some(vmId)
    requires forall id :: id in s.rows && id != delete ==> !PendingFor(s.rows, id, vmId)
    ensures OneLife(acts) && Runs(s, acts)
    ensures InCritical(Final(s, acts), start)
    ensures Final(s, acts).rows[start].obj == Some(vmId) && vmId !in Final(s, acts).vms
  {
    var s1 := Next(s, HandlerInsert(1, start));
    var dispatch := [Pick(start), Mark(start), Spawn(start)];
    DispatchRuns(s1, start);
    var s2 := Final(s1, dispatch);
    assert s2.workers == map[delete := Critical, start := Lookup];
    DeletionRace(s2, vmId, delete, start);
    RunsConcat(s1, dispatch, Race(delete, start));
    RunsCons(s, HandlerInsert(1, start), dispatch + Race(delete, start));
    acts := [HandlerInsert(1, start)] + (dispatch + Race(delete, start));
  }

  function Race(delete: ReqId, start: ReqId): seq<Action> {
    [LookUp(start), TakeList(delete), Finish(delete, true)] + [Check(start), RemoveVm(delete)]
  }

  lemma DeletionRace(s: State, vmId: string, delete: ReqId, start: ReqId)
    requires s.up && s.workers == map[delete := Critical, start := Lookup] && delete != start
    requires vmId in s.vms && delete in s.rows && start in s.rows
    requires s.rows[delete].kind == VmDelete && s.rows[delete].obj == Some(vmId)
    requires s.rows[start].kind == VmStart && s.rows[start].obj == Some(vmId)
    requires forall id :: id in s.rows && id != delete && id != start ==> !PendingFor(s.rows, id, vmId)
    ensures OneLife(Race(delete, start)) && Runs(s, Race(delete, start))
    ensures InCritical(Final(s, Race(delete, start)), start)
    ensures Final(s, Race(delete, start)).rows[start].obj == Some(vmId)
    ensures vmId !in Final(s, Race(delete, start)).vms
  {
    DeletionReports(s, delete, start);
    var t := Final(s, [LookUp(start), TakeList(delete), Finish(delete, true)]);
    RemovalOvertakes(t, vmId, delete, start);
    RunsConcat(s, [LookUp(start), TakeList(delete), Finish(delete, true)], [Check(start), RemoveVm(delete)]);
  }

  lemma DeletionReports(s: State, delete: ReqId, start: ReqId)
    requires s.up && s.workers == map[delete := Critical, start := Lookup] && delete != start
    requires delete in s.rows && start in s.rows && s.rows[delete].kind == VmDelete
    requires s.rows[start].kind == VmStart && !Dead(s, s.rows[start])
    ensures Runs(s, [LookUp(start), TakeList(delete), Finish(delete, true)])
    ensures Final(s, [LookUp(start), TakeList(delete), Finish(delete, true)]) ==
            s.(workers := map[delete := Removing, start := Recheck], rows := MarkSucceeded(s.rows, delete))
  {
    var s1 := Next(s, LookUp(start));
    assert s1 == s.(workers := map[delete := Critical, start := Recheck]);
    ReportsDeletion(s1, delete, start);
    RunsCons(s, LookUp(start), [TakeList(delete), Finish(delete, true)]);
  }

  lemma ReportsDeletion(s: State, delete: ReqId, start: ReqId)
    requires s.up && s.workers == map[delete := Critical, start := Recheck] && delete != start
    requires delete in s.rows && s.rows[delete].kind == VmDelete
    ensures Runs(s, [TakeList(delete), Finish(delete, true)])
    ensures Final(s, [TakeList(delete), Finish(delete, true)]) ==
            s.(workers := map[delete := Removing, start := Recheck], rows := MarkSucceeded(s.rows, delete))
  {
    var s2 := Next(s, TakeList(delete));
    assert s2 == s.(workers := map[delete := Deleting, start := Recheck]);
    RunsOne(s2, Finish(delete, true));
    RunsCons(s, TakeList(delete), [Finish(delete, true)]);
  }

  lemma RemovalOvertakes(s: State, vmId: string, delete: ReqId, start: ReqId)
    requires s.up && s.workers == map[delete := Removing, start := Recheck] && delete != start
    requires delete in s.rows && start in s.rows
    requires s.rows[delete].obj == Some(vmId) && s.rows[start].obj == Some(vmId)
    requires forall id :: id in s.rows && id != start ==> !PendingFor(s.rows, id, vmId)
    ensures Runs(s, [Check(start), RemoveVm(delete)])
    ensures Final(s, [Check(start), RemoveVm(delete)]).vms == s.vms - {vmId}
    ensures Final(s, [Check(start), RemoveVm(delete)]).rows == s.rows
    ensures InCritical(Final(s, [Check(start), RemoveVm(delete)]), start)
  {
    var s1 := Next(s, Check(start));
    assert s1 == s.(workers := map[delete := Removing, start := Critical]);
    RunsOne(s1, RemoveVm(delete));
    RunsCons(s, Check(start), [RemoveVm(delete)]);
  }
}

/** Mutual exclusion of the workers of one object, proved over every interleaving of one
    daemon life, and exactly when a freshly booted daemon has it. */
module RequestSafety {
  import opened Wrappers
  import opened RequestTable
  import opened RequestProtocol
  import FreeName

  /** A started request that will reach its re-check counts as pending for everyone else. */
  predicate WorkerOk(s: State, id: ReqId)
    requires id in s.workers
  {
    && id in s.rows
    && s.rows[id].started
    && s.rows[id].kind != Unknown
    && match s.workers[id]
       case Lookup => s.rows[id].complete ==> Dead(s, s.rows[id])
       case Failing => true
       case Removing => s.rows[id].complete && s.rows[id].obj.Some?
       case _ => !s.rows[id].complete && s.rows[id].obj.Some?
  }

  predicate DispatcherOk(s: State) {
    match s.dispatcher
    case Idle => true
    case Picked(id) => id in s.rows && !s.rows[id].started
    case Marked(id) =>
      id in s.rows && s.rows[id].started && id !in s.workers &&
      (s.rows[id].complete ==> Dead(s, s.rows[id]))
  }

  /** Unstarted requests are incomplete, or too dead for their worker to get anywhere. */
  ghost predicate Inv(s: State) {
    && (forall id :: id in s.rows && !s.rows[id].started && s.rows[id].complete ==> Dead(s, s.rows[id]))
    && (forall id :: id in s.workers ==> WorkerOk(s, id))
    && DispatcherOk(s)
    && MutualExclusion(s)
  }

  lemma DeadStaysDead(s: State, a: Action, row: Row)
    requires Enabled(s, a) && Dead(s, row)
    requires exists id :: id in s.rows && s.rows[id].obj == row.obj
    ensures Dead(Next(s, a), row)
  {
  }

  lemma RowStep(s: State, a: Action, id: ReqId)
    requires Inv(s) && Enabled(s, a) && !a.Crash? && !a.Boot?
    requires id in Next(s, a).rows && !Next(s, a).rows[id].started && Next(s, a).rows[id].complete
    ensures Dead(Next(s, a), Next(s, a).rows[id])
  {
    assert id in s.rows && s.rows[id] == Next(s, a).rows[id];
    DeadStaysDead(s, a, s.rows[id]);
  }

  /** The worker an action moves. */
  predicate Moves(a: Action, id: ReqId) {
    a in {Spawn(id), LookUp(id), Check(id), Fail(id), TakeList(id),
          Finish(id, true), Finish(id, false), GiveUp(id), RemoveVm(id)}
  }

  lemma NewWorkersAreSpawned(s: State, a: Action, id: ReqId)
    requires Enabled(s, a) && !Moves(a, id) && id in Next(s, a).workers
    ensures id in s.workers && Next(s, a).workers[id] == s.workers[id]
  {
  }

  lemma OtherRowsUntouched(s: State, a: Action, id: ReqId)
    requires Enabled(s, a) && !a.Boot? && !Moves(a, id) && a != Mark(id) && id in s.rows
    ensures id in Next(s, a).rows && Next(s, a).rows[id] == s.rows[id]
  {
  }

  lemma WorkerStep(s: State, a: Action, id: ReqId)
    requires Inv(s) && Enabled(s, a) && !a.Crash? && !a.Boot?
    requires id in Next(s, a).workers
    ensures WorkerOk(Next(s, a), id)
  {
    if Moves(a, id) {
      MovedWorkerOk(s, a, id);
    } else {
      NewWorkersAreSpawned(s, a, id);
      assert WorkerOk(s, id);
      OtherRowsUntouched(s, a, id);
      if Dead(s, s.rows[id]) {
        DeadStaysDead(s, a, s.rows[id]);
      }
    }
  }

  lemma MovedWorkerOk(s: State, a: Action, id: ReqId)
    requires Inv(s) && Enabled(s, a) && Moves(a, id)
    requires id in Next(s, a).workers
    ensures WorkerOk(Next(s, a), id)
  {
    if !a.Spawn? {
      assert WorkerOk(s, id);
    }
  }

  lemma WorkersStarted(s: State)
    requires Inv(s)
    ensures forall id :: id in s.workers ==> id in s.rows && s.rows[id].started
  {
    forall id | id in s.workers
      ensures id in s.rows && s.rows[id].started
    {
      assert WorkerOk(s, id);
    }
  }

  lemma DispatcherStep(s: State, a: Action)
    requires Inv(s) && Enabled(s, a) && !a.Crash? && !a.Boot?
    ensures DispatcherOk(Next(s, a))
  {
    WorkersStarted(s);
    if !s.dispatcher.Idle? {
      var id := s.dispatcher.id;
      if Dead(s, s.rows[id]) {
        DeadStaysDead(s, a, s.rows[id]);
      }
    }
  }

  lemma PayloadStays(s: State, a: Action, id: ReqId)
    requires Enabled(s, a) && id in s.rows
    ensures id in Next(s, a).rows
    ensures Next(s, a).rows[id].obj == s.rows[id].obj && Next(s, a).rows[id].kind == s.rows[id].kind
  {
  }

  /** Passing the re-check is the only way in. */
  lemma EnterOnlyByCheck(s: State, a: Action, x: ReqId)
    requires Enabled(s, a) && !a.Crash? && !a.Boot?
    requires s.workers.Keys <= s.rows.Keys
    requires InCritical(Next(s, a), x) && !InCritical(s, x)
    ensures a == Check(x) && !OtherPending(s, x, s.rows[x].obj.value)
  {
  }

  lemma InsideIsPending(s: State, x: ReqId)
    requires InCritical(s, x) && WorkerOk(s, x)
    ensures s.rows[x].obj.Some? && PendingFor(s.rows, x, s.rows[x].obj.value)
  {
  }

  lemma ExclusionStep(s: State, a: Action, x: ReqId, y: ReqId)
    requires Inv(s) && Enabled(s, a) && !a.Crash? && !a.Boot?
    requires InCritical(Next(s, a), x) && InCritical(Next(s, a), y)
    requires Next(s, a).rows[x].obj == Next(s, a).rows[y].obj
    requires InCritical(s, x)
    ensures x == y
  {
    WorkersStarted(s);
    InsideIsPending(s, x);
    PayloadStays(s, a, x);
    if InCritical(s, y) {
      PayloadStays(s, a, y);
    } else {
      EnterOnlyByCheck(s, a, y);
      PayloadStays(s, a, y);
    }
  }

  lemma InvStep(s: State, a: Action)
    requires Inv(s) && Enabled(s, a) && !a.Crash? && !a.Boot?
    ensures Inv(Next(s, a))
  {
    var t := Next(s, a);
    WorkersStarted(s);
    forall id | id in t.rows && !t.rows[id].started && t.rows[id].complete
      ensures Dead(t, t.rows[id])
    {
      RowStep(s, a, id);
    }
    forall id | id in t.workers
      ensures WorkerOk(t, id)
    {
      WorkerStep(s, a, id);
    }
    DispatcherStep(s, a);
    forall x, y | InCritical(t, x) && InCritical(t, y) && t.rows[x].obj == t.rows[y].obj
      ensures x == y
    {
      if InCritical(s, x) {
        ExclusionStep(s, a, x, y);
      } else {
        EnterOnlyByCheck(s, a, x);
        if InCritical(s, y) {
          ExclusionStep(s, a, y, x);
        } else {
          EnterOnlyByCheck(s, a, y);
        }
      }
    }
  }

  lemma {:induction false} InvAlways(s: State, acts: seq<Action>)
    requires Inv(s) && OneLife(acts) && Runs(s, acts)
    ensures Inv(Final(s, acts))
    decreases |acts|
  {
    if acts != [] {
      assert !acts[0].Crash? && !acts[0].Boot?;
      InvStep(s, acts[0]);
      InvAlways(Next(s, acts[0]), acts[1..]);
    }
  }

  /** A daemon that has just run its start-up cleanup (cleanup.go): nothing is in flight
      and FailAllPending has completed every row, started or not. */
  predicate JustBooted(s: State) {
    && s.up && s.dispatcher == Idle && s.workers == map[] && s.calls == map[]
    && forall id :: id in s.rows ==> s.rows[id].complete
  }

  /** Every restart passes through such a state, with its unstarted rows still unstarted. */
  lemma RestartIsJustBooted(s: State)
    requires s.up
    ensures Runs(s, [Crash, Boot]) && JustBooted(Final(s, [Crash, Boot]))
    ensures forall id :: id in s.rows ==>
              id in Final(s, [Crash, Boot]).rows &&
              Final(s, [Crash, Boot]).rows[id] == s.rows[id].(complete := true)
  {
    var down := Next(s, Crash);
    RunsOne(down, Boot);
    RunsCons(s, Crash, [Boot]);
  }

  function Enter(id: ReqId): seq<Action> {
    [Pick(id), Mark(id), Spawn(id), LookUp(id), Check(id)]
  }

  lemma RunsOne(s: State, a: Action)
    requires Enabled(s, a)
    ensures Runs(s, [a]) && Final(s, [a]) == Next(s, a)
  {
    assert Runs(Next(s, a), []);
  }

  lemma RunsCons(s: State, a: Action, rest: seq<Action>)
    requires Enabled(s, a) && Runs(Next(s, a), rest)
    ensures Runs(s, [a] + rest) && Final(s, [a] + rest) == Final(Next(s, a), rest)
  {
    assert ([a] + rest)[1..] == rest;
  }

  lemma DispatchRuns(s: State, id: ReqId)
    requires s.up && s.dispatcher == Idle
    requires id in s.rows && !s.rows[id].started && s.rows[id].kind != Unknown
    ensures Runs(s, [Pick(id), Mark(id), Spawn(id)])
    ensures Final(s, [Pick(id), Mark(id), Spawn(id)]) ==
            s.(rows := MarkStarted(s.rows, id), workers := s.workers[id := Lookup])
  {
    var s1 := Next(s, Pick(id));
    var s2 := Next(s1, Mark(id));
    RunsOne(s2, Spawn(id));
    RunsCons(s1, Mark(id), [Spawn(id)]);
    RunsCons(s, Pick(id), [Mark(id), Spawn(id)]);
  }

  lemma AdmitRuns(s: State, id: ReqId)
    requires s.up && ListFree(s) && At(s, id, Lookup) && !Dead(s, s.rows[id])
    requires !OtherPending(s, id, s.rows[id].obj.value)
    ensures Runs(s, [LookUp(id), Check(id)])
    ensures Final(s, [LookUp(id), Check(id)]) == s.(workers := s.workers[id := Critical])
  {
    var s1 := Next(s, LookUp(id));
    assert s1 == s.(workers := s.workers[id := Recheck]);
    assert Next(s1, Check(id)) == s.(workers := s.workers[id := Critical]);
    RunsOne(s1, Check(id));
    RunsCons(s, LookUp(id), [Check(id)]);
  }

  /** An undisturbed request on a live object with no rival gets into its critical section. */
  lemma EnterRuns(s: State, id: ReqId)
    requires s.up && s.dispatcher == Idle && ListFree(s)
    requires id in s.rows && id !in s.workers && !s.rows[id].started && !Dead(s, s.rows[id])
    requires !OtherPending(s, id, s.rows[id].obj.value)
    ensures Runs(s, Enter(id)) && OneLife(Enter(id))
    ensures Final(s, Enter(id)) ==
            s.(rows := MarkStarted(s.rows, id), workers := s.workers[id := Critical])
  {
    DispatchRuns(s, id);
    var t := Final(s, [Pick(id), Mark(id), Spawn(id)]);
    assert forall other :: other != id && PendingFor(t.rows, other, t.rows[id].obj.value) ==>
        PendingFor(s.rows, other, s.rows[id].obj.value);
    AdmitRuns(t, id);
    RunsConcat(s, [Pick(id), Mark(id), Spawn(id)], [LookUp(id), Check(id)]);
    assert Enter(id) == [Pick(id), Mark(id), Spawn(id)] + [LookUp(id), Check(id)];
    assert t.workers[id := Critical] == s.workers[id := Critical];
  }

  /** One undisturbed handler call. */
  function Queue(call: nat, kind: Kind, text: string, canonical: string, newId: ReqId): seq<Action> {
    [HandlerLookup(call, kind, text, canonical, ""), HandlerCheck(call), HandlerInsert(call, newId)]
  }

  lemma QueueRuns(s: State, call: nat, kind: Kind, text: string, canonical: string, newId: ReqId)
    requires s.up && call !in s.calls && Exists(s, kind, canonical) && ListFree(s) && newId !in s.rows
    requires (!ValidVmReqType(kind) ==> text == canonical) && NoPending(s, text)
    ensures OneLife(Queue(call, kind, text, canonical, newId)) && Runs(s, Queue(call, kind, text, canonical, newId))
    ensures Final(s, Queue(call, kind, text, canonical, newId)) ==
            s.(rows := s.rows[newId := NewRow(kind, QueuedId(Call(kind, text, canonical, "", true)), "")])
  {
    var look := HandlerLookup(call, kind, text, canonical, "");
    var check, insert := HandlerCheck(call), HandlerInsert(call, newId);
    var s1 := Next(s, look);
    var s2 := Next(s1, check);
    assert Next(s2, insert).calls == s.calls;
    RunsOne(s2, insert);
    RunsCons(s1, check, [insert]);
    RunsCons(s, look, [check] + [insert]);
    assert Queue(call, kind, text, canonical, newId) == [look] + ([check] + [insert]);
  }

  /** The dispatcher only looks at the start time, so a request failed at boot is still
      dispatched; being complete it hides from the next request's checks. */
  lemma LeftoverBreaksExclusion(s: State, old1: ReqId, new1: ReqId) returns (acts: seq<Action>)
    requires JustBooted(s)
    requires old1 in s.rows && !s.rows[old1].started && !Dead(s, s.rows[old1])
    requires new1 !in s.rows
    ensures OneLife(acts) && Runs(s, acts) && !MutualExclusion(Final(s, acts))
  {
    var kind, objId := s.rows[old1].kind, s.rows[old1].obj.value;
    EnterRuns(s, old1);
    var s1 := Final(s, Enter(old1));
    var queue := Queue(0, kind, objId, objId, new1);
    QueueRuns(s1, 0, kind, objId, objId, new1);
    RunsConcat(s, Enter(old1), queue);
    EnterRuns(Final(s1, queue), new1);
    RunsConcat(s, Enter(old1) + queue, Enter(new1));
    acts := Enter(old1) + queue + Enter(new1);
    OneLifeConcat(Enter(old1), queue);
    OneLifeConcat(Enter(old1) + queue, Enter(new1));
    var t := Final(s, acts);
    assert t.rows[old1].obj == Some(objId) && t.rows[new1].obj == Some(objId);
    assert InCritical(t, old1) && InCritical(t, new1) && t.rows[old1].obj == t.rows[new1].obj;
  }

  /** From a boot, one worker per object id is guaranteed over every interleaving exactly
      when no request was left waiting for the dispatcher on an object that still exists. */
  lemma ExclusionExactlyWithoutLeftovers(s: State)
    requires JustBooted(s)
    ensures (forall acts :: OneLife(acts) && Runs(s, acts) ==> MutualExclusion(Final(s, acts)))
       <==> (forall id :: id in s.rows && !s.rows[id].started ==> Dead(s, s.rows[id]))
  {
    if forall id :: id in s.rows && !s.rows[id].started ==> Dead(s, s.rows[id]) {
      forall acts | OneLife(acts) && Runs(s, acts)
        ensures MutualExclusion(Final(s, acts))
      {
        InvAlways(s, acts);
      }
    } else {
      var id :| id in s.rows && !s.rows[id].started && !Dead(s, s.rows[id]);
      var unused := FreeName.Numbered("", FreeName.LeastFree("", s.rows.Keys));
      var acts := LeftoverBreaksExclusion(s, id, unused);
    }
  }

  /** The general form: any start in which unstarted requests are incomplete. */
  lemma MutualExclusionInOneLife(s: State, acts: seq<Action>)
    requires forall id :: id in s.rows && !s.rows[id].started ==> !s.rows[id].complete
    requires s.dispatcher == Idle && s.workers == map[]
    requires OneLife(acts) && Runs(s, acts)
    ensures MutualExclusion(Final(s, acts))
  {
    InvAlways(s, acts);
  }
}

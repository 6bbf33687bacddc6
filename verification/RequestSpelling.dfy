/** VM ids can be sent in more than one spelling. StopVM and DeleteVM check and queue the text
    they were sent, while workers look VMs up by their canonical text. */
module RequestSpelling {
  import opened Wrappers
  import opened RequestTable
  import opened RequestProtocol
  import opened RequestSafety
  import opened RequestLifecycle

  /** The VM is listed under its canonical id only. */
  predicate Listed(s: State, c: Call) {
    c.canonical in s.vms && (c.text != c.canonical ==> c.text !in s.vms)
  }

  /** The row a checked call inserts. */
  predicate QueuedBy(s: State, id: ReqId, c: Call) {
    id in s.rows && s.rows[id].kind == c.kind && s.rows[id].obj == Some(QueuedId(c))
  }

  /** While its VM stays listed, the worker of a queued request finds it exactly if the
      request is a start or its id was sent in canonical form; otherwise it abandons it. */
  lemma LookupSucceedsExactly(s: State, id: ReqId, c: Call)
    requires At(s, id, Lookup) && ValidVmReqType(c.kind) && QueuedBy(s, id, c) && Listed(s, c)
    requires s.rows[id].started && !s.rows[id].complete && !Claimed(s, id) && Enabled(s, LookUp(id))
    ensures At(Next(s, LookUp(id)), id, Recheck) <==> c.kind == VmStart || c.text == c.canonical
    ensures Abandoned(Next(s, LookUp(id)), id) <==> !(c.kind == VmStart || c.text == c.canonical)
  {
  }

  function Insert(call: nat, id: ReqId): seq<Action> {
    [HandlerInsert(call, id), Pick(id), Mark(id), Spawn(id), LookUp(id)]
  }

  /** The input: a checked stop or delete with another spelling. Its undisturbed run. */
  lemma MisspelledIsAbandoned(s: State, call: nat, id: ReqId)
    requires s.up && s.dispatcher == Idle && ListFree(s) && id !in s.rows && id !in s.workers
    requires call in s.calls && s.calls[call].checked && Listed(s, s.calls[call])
    requires s.calls[call].kind in {VmStop, VmDelete} && s.calls[call].text != s.calls[call].canonical
    ensures OneLife(Insert(call, id)) && Runs(s, Insert(call, id))
    ensures var t := Final(s, Insert(call, id));
            && Abandoned(t, id) && t.rows[id].obj == Some(s.calls[call].text)
            && t == s.(calls := s.calls - {call}, rows := t.rows)
            && var c := s.calls[call];
               t.rows == MarkStarted(s.rows[id := NewRow(c.kind, c.text, c.newName)], id)
  {
    var s1 := Next(s, HandlerInsert(call, id));
    LostInLookup(s1, id);
    RunsOne(s, HandlerInsert(call, id));
    RunsConcat(s, [HandlerInsert(call, id)], [Pick(id), Mark(id), Spawn(id)] + [LookUp(id)]);
    assert Insert(call, id) == [HandlerInsert(call, id)] + ([Pick(id), Mark(id), Spawn(id)] + [LookUp(id)]);
  }

  /** A VM request whose id text is not listed is dispatched and then abandoned. */
  lemma LostInLookup(s: State, id: ReqId)
    requires s.up && s.dispatcher == Idle && ListFree(s) && id in s.rows && id !in s.workers
    requires ValidVmReqType(s.rows[id].kind) && s.rows[id].obj.Some? && s.rows[id].obj.value !in s.vms
    requires !s.rows[id].started && !s.rows[id].complete
    ensures var acts := [Pick(id), Mark(id), Spawn(id)] + [LookUp(id)];
            Runs(s, acts) && Final(s, acts) == s.(rows := MarkStarted(s.rows, id)) && Abandoned(Final(s, acts), id)
  {
    DispatchRuns(s, id);
    var t := Final(s, [Pick(id), Mark(id), Spawn(id)]);
    assert t == s.(rows := MarkStarted(s.rows, id), workers := s.workers[id := Lookup]);
    RunsOne(t, LookUp(id));
    RunsConcat(s, [Pick(id), Mark(id), Spawn(id)], [LookUp(id)]);
    assert t.workers - {id} == s.workers;
  }

  /** Where no other request is pending for its text, a call passes its check exactly if it
      has another spelling than the abandoned request. By AbandonedBars this stays so until
      the restart. */
  lemma BarsExactlyItsSpelling(s: State, id: ReqId, call: nat)
    requires s.up && Abandoned(s, id) && call in s.calls && !s.calls[call].checked
    requires forall r :: r in s.rows && r != id ==> !PendingFor(s.rows, r, s.calls[call].text)
    ensures Enabled(s, HandlerCheck(call)) <==> s.rows[id].obj != Some(s.calls[call].text)
  {
    assert PendingFor(s.rows, id, s.rows[id].obj.value);
  }

  /** So after the abandoned request a call with the canonical spelling goes through: it
      passes its check, is queued, and its worker gets in. */
  lemma CanonicalStillEnters(s: State, call: nat, id: ReqId, next: nat, start: ReqId)
    requires s.up && s.dispatcher == Idle && ListFree(s) && id !in s.rows && id !in s.workers
    requires call in s.calls && s.calls[call].checked && Listed(s, s.calls[call])
    requires s.calls[call].kind in {VmStop, VmDelete} && s.calls[call].text != s.calls[call].canonical
    requires NoPending(s, s.calls[call].canonical)
    requires next !in s.calls && start !in s.rows && start != id && start !in s.workers
    ensures var vmId := s.calls[call].canonical;
            var acts := Insert(call, id) + (Queue(next, VmStart, vmId, vmId, start) + Enter(start));
            OneLife(acts) && Runs(s, acts) && Abandoned(Final(s, acts), id) && InCritical(Final(s, acts), start)
  {
    var vmId := s.calls[call].canonical;
    MisspelledIsAbandoned(s, call, id);
    var t := Final(s, Insert(call, id));
    NothingElsePending(s, t, id, vmId);
    StartGoesThrough(t, next, vmId, id, start);
    var more := Queue(next, VmStart, vmId, vmId, start) + Enter(start);
    RunsConcat(s, Insert(call, id), more);
    OneLifeConcat(Insert(call, id), more);
  }

  /** A start of a VM nothing is pending for, beside an abandoned request. */
  lemma StartGoesThrough(s: State, next: nat, vmId: string, id: ReqId, start: ReqId)
    requires s.up && s.dispatcher == Idle && ListFree(s) && vmId in s.vms && NoPending(s, vmId)
    requires next !in s.calls && start !in s.rows && start !in s.workers && Abandoned(s, id)
    ensures var acts := Queue(next, VmStart, vmId, vmId, start) + Enter(start);
            OneLife(acts) && Runs(s, acts) && Abandoned(Final(s, acts), id) && InCritical(Final(s, acts), start)
  {
    var queue := Queue(next, VmStart, vmId, vmId, start);
    QueueRuns(s, next, VmStart, vmId, vmId, start);
    EnterRuns(Final(s, queue), start);
    RunsConcat(s, queue, Enter(start));
    OneLifeConcat(queue, Enter(start));
  }

  lemma NothingElsePending(s: State, t: State, id: ReqId, vmId: string)
    requires NoPending(s, vmId) && id !in s.rows && id in t.rows && t.rows[id].obj != Some(vmId)
    requires t.rows.Keys == s.rows.Keys + {id} && forall r :: r in s.rows ==> t.rows[r] == s.rows[r]
    ensures NoPending(t, vmId)
  {
    forall r | r in t.rows
      ensures !PendingFor(t.rows, r, vmId)
    {
      assert r in s.rows ==> !PendingFor(s.rows, r, vmId);
    }
  }
}

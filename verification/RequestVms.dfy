/** How long a worker that is inside its critical section keeps its VM, also after a boot that
    left requests over. */
module RequestVms {
  import opened Wrappers
  import opened RequestTable
  import opened RequestProtocol
  import opened RequestSafety
  import opened RequestLifecycle

  predicate Holds(phase: Phase) {
    phase in {Deleting, Removing}
  }

  predicate WorkerBooked(s: State, id: ReqId)
    requires id in s.workers
  {
    && id in s.rows && s.rows[id].started && s.rows[id].kind != Unknown
    && (s.workers[id] !in {Lookup, Failing} ==> s.rows[id].obj.Some?)
    && (Holds(s.workers[id]) ==> s.rows[id].kind == VmDelete)
  }

  predicate DispatcherBooked(s: State) {
    match s.dispatcher
    case Idle => true
    case Picked(id) => id in s.rows && !s.rows[id].started
    case Marked(id) => id in s.rows && s.rows[id].started && id !in s.workers
  }

  /** What every run keeps, whatever requests it began with. */
  ghost predicate Booked(s: State) {
    && (forall id :: id in s.workers ==> WorkerBooked(s, id))
    && DispatcherBooked(s)
    && (forall a, b :: a in s.workers && b in s.workers && Holds(s.workers[a]) && Holds(s.workers[b]) ==> a == b)
  }

  lemma WorkerBookedStep(s: State, a: Action, id: ReqId)
    requires Booked(s) && Enabled(s, a) && id in Next(s, a).workers
    ensures WorkerBooked(Next(s, a), id)
  {
    PayloadOfWorkers(s, a, id);
    if id in s.workers {
      assert WorkerBooked(s, id);
    }
  }

  lemma PayloadOfWorkers(s: State, a: Action, id: ReqId)
    requires Booked(s) && Enabled(s, a) && id in Next(s, a).workers
    ensures id in s.rows
  {
    if id in s.workers {
      assert WorkerBooked(s, id);
    }
  }

  lemma HolderStep(s: State, a: Action)
    requires Booked(s) && Enabled(s, a)
    ensures var t := Next(s, a);
            forall x, y :: x in t.workers && y in t.workers && Holds(t.workers[x]) && Holds(t.workers[y]) ==> x == y
  {
    var t := Next(s, a);
    forall x | x in t.workers && Holds(t.workers[x])
      ensures (x in s.workers && Holds(s.workers[x])) || (a == TakeList(x) && ListFree(s))
    {
    }
  }

  lemma DispatcherBookedStep(s: State, a: Action)
    requires Booked(s) && Enabled(s, a)
    ensures DispatcherBooked(Next(s, a))
  {
    forall id | id in s.workers
      ensures id in s.rows && s.rows[id].started
    {
      assert WorkerBooked(s, id);
    }
  }

  lemma {:induction false} BookedAlways(s: State, acts: seq<Action>)
    requires Booked(s) && Runs(s, acts)
    ensures Booked(Final(s, acts))
    decreases |acts|
  {
    if acts != [] {
      BookedStep(s, acts[0]);
      BookedAlways(Next(s, acts[0]), acts[1..]);
    }
  }

  lemma BookedStep(s: State, a: Action)
    requires Booked(s) && Enabled(s, a)
    ensures Booked(Next(s, a))
  {
    forall id | id in Next(s, a).workers
      ensures WorkerBooked(Next(s, a), id)
    {
      WorkerBookedStep(s, a, id);
    }
    DispatcherBookedStep(s, a);
    HolderStep(s, a);
  }

  /** Some worker has reported the deletion of this VM and is about to drop it. */
  ghost predicate BeingRemoved(s: State, vmId: string) {
    exists d :: At(s, d, Removing) && s.rows[d].obj == Some(vmId)
  }

  /** Another deletion of the VM is inside too, as only leftover requests make possible. */
  ghost predicate OtherDeletion(s: State, w: ReqId, vmId: string) {
    exists d :: d != w && DeletesInside(s, d, vmId)
  }

  predicate DeletesInside(s: State, d: ReqId, vmId: string) {
    InCritical(s, d) && s.rows[d].kind == VmDelete && s.rows[d].obj == Some(vmId)
  }

  /** The worker can lose its VM: a deletion has reported, or another one is inside and does
      not have to wait for this worker to give the VM list back. */
  ghost predicate CanLose(s: State, w: ReqId, vmId: string) {
    BeingRemoved(s, vmId) || (!At(s, w, Deleting) && OtherDeletion(s, w, vmId))
  }

  /** Inside, with a request that is not complete, and with the VM. */
  predicate Works(s: State, w: ReqId, vmId: string) {
    InCritical(s, w) && !s.rows[w].complete && s.rows[w].obj == Some(vmId) && vmId in s.vms
  }

  predicate OutForGood(s: State, w: ReqId) {
    w in s.rows && s.rows[w].started && !Claimed(s, w) && (w !in s.workers || s.workers[w] == Removing)
  }

  lemma StaysOut(s: State, a: Action, w: ReqId)
    requires DispatcherBooked(s) && Enabled(s, a) && !a.Crash? && !a.Boot? && OutForGood(s, w)
    ensures OutForGood(Next(s, a), w)
  {
  }

  lemma {:induction false} LeftForGood(s: State, acts: seq<Action>, w: ReqId)
    requires Booked(s) && OneLife(acts) && Runs(s, acts) && OutForGood(s, w)
    ensures !InCritical(Final(s, acts), w)
    decreases |acts|
  {
    if acts != [] {
      assert !acts[0].Crash? && !acts[0].Boot?;
      BookedStep(s, acts[0]);
      StaysOut(s, acts[0], w);
      LeftForGood(Next(s, acts[0]), acts[1..], w);
    }
  }

  lemma {:induction false} KeepsItsVm(s: State, acts: seq<Action>, w: ReqId, vmId: string)
    requires Booked(s) && OneLife(acts) && Runs(s, acts) && Works(s, w, vmId) && !CanLose(s, w, vmId)
    ensures InCritical(Final(s, acts), w) ==> vmId in Final(s, acts).vms
    decreases |acts|
  {
    if acts != [] {
      var t := Next(s, acts[0]);
      assert !acts[0].Crash? && !acts[0].Boot?;
      BookedStep(s, acts[0]);
      WorkStep(s, acts[0], w, vmId);
      if InCritical(t, w) {
        StillCannotLose(s, acts[0], w, vmId);
        KeepsItsVm(t, acts[1..], w, vmId);
      } else {
        LeftForGood(t, acts[1..], w);
      }
    }
  }

  lemma WorkStep(s: State, a: Action, w: ReqId, vmId: string)
    requires Booked(s) && Enabled(s, a) && !a.Crash? && !a.Boot? && Works(s, w, vmId) && !CanLose(s, w, vmId)
    ensures if InCritical(Next(s, a), w) then Works(Next(s, a), w, vmId) else OutForGood(Next(s, a), w)
  {
    PayloadStays(s, a, w);
    assert WorkerBooked(s, w);
    if a.RemoveVm? {
      assert At(s, a.id, Removing);
    }
  }

  /** Where a deletion that is inside, or has reported, was a step before. */
  lemma DeletionComesFrom(s: State, a: Action, d: ReqId, vmId: string)
    requires Booked(s) && Enabled(s, a) && !a.Crash? && !a.Boot? && d in Next(s, a).rows
    requires Next(s, a).rows[d].obj == Some(vmId)
    ensures At(Next(s, a), d, Removing) ==>
              && d in s.rows && s.rows[d].obj == Some(vmId)
              && (At(s, d, Removing) || (a == Finish(d, true) && At(s, d, Deleting)))
    ensures DeletesInside(Next(s, a), d, vmId) ==>
              || DeletesInside(s, d, vmId)
              || (a == Check(d) && d in s.rows && s.rows[d].obj == Some(vmId) && !OtherPending(s, d, vmId))
  {
    if d in Next(s, a).workers {
      PayloadOfWorkers(s, a, d);
      PayloadStays(s, a, d);
      if d in s.workers {
        assert WorkerBooked(s, d);
      }
    }
  }

  lemma StillCannotLose(s: State, a: Action, w: ReqId, vmId: string)
    requires Booked(s) && Enabled(s, a) && !a.Crash? && !a.Boot? && Works(s, w, vmId) && !CanLose(s, w, vmId)
    requires InCritical(Next(s, a), w)
    ensures !CanLose(Next(s, a), w, vmId)
  {
    var t := Next(s, a);
    assert WorkerBooked(s, w) && PendingFor(s.rows, w, vmId);
    forall d | At(t, d, Removing)
      ensures t.rows[d].obj != Some(vmId)
    {
      if t.rows[d].obj == Some(vmId) {
        DeletionComesFrom(s, a, d, vmId);
        assert WorkerBooked(s, d);
        assert At(s, w, Deleting) ==> d == w;
        assert d != w ==> DeletesInside(s, d, vmId);
        assert false;
      }
    }
    forall d | d != w && DeletesInside(t, d, vmId)
      ensures At(t, w, Deleting)
    {
      DeletionComesFrom(s, a, d, vmId);
      assert DeletesInside(s, d, vmId);
      assert At(s, w, Deleting);
    }
  }

  /** Once the list is free, a deletion that is inside can take the VM away. */
  lemma DeletionRuns(s: State, w: ReqId, d: ReqId, vmId: string) returns (acts: seq<Action>)
    requires s.up && ListFree(s) && InCritical(s, w) && d != w && DeletesInside(s, d, vmId)
    ensures OneLife(acts) && Runs(s, acts) && InCritical(Final(s, acts), w) && vmId !in Final(s, acts).vms
  {
    assert At(s, d, Critical);
    var s1 := Next(s, TakeList(d));
    acts := ReportedRuns(s1, w, d, vmId);
    RunsCons(s, TakeList(d), acts);
    acts := [TakeList(d)] + acts;
  }

  lemma ReportedRuns(s: State, w: ReqId, d: ReqId, vmId: string) returns (acts: seq<Action>)
    requires s.up && InCritical(s, w) && d != w && At(s, d, Deleting)
    requires s.rows[d].kind == VmDelete && s.rows[d].obj == Some(vmId)
    ensures OneLife(acts) && Runs(s, acts) && InCritical(Final(s, acts), w) && vmId !in Final(s, acts).vms
  {
    var s1 := Next(s, Finish(d, true));
    RunsOne(s1, RemoveVm(d));
    RunsCons(s, Finish(d, true), [RemoveVm(d)]);
    acts := [Finish(d, true)] + [RemoveVm(d)];
  }

  /** The holder of the list is let go first. */
  lemma ReleasedRuns(s: State, w: ReqId, d: ReqId, x: ReqId, vmId: string) returns (acts: seq<Action>)
    requires Booked(s) && s.up && InCritical(s, w) && d != w && DeletesInside(s, d, vmId)
    requires x in s.workers && Holds(s.workers[x]) && x != d && x != w
    ensures OneLife(acts) && Runs(s, acts) && InCritical(Final(s, acts), w) && vmId !in Final(s, acts).vms
  {
    assert WorkerBooked(s, x);
    var release := if s.workers[x] == Deleting then Finish(x, false) else RemoveVm(x);
    var t := Next(s, release);
    assert t.workers == s.workers - {x};
    acts := DeletionRuns(t, w, d, vmId);
    RunsCons(s, release, acts);
    acts := [release] + acts;
  }

  /** The run that loses the VM. Another holder of the list is let go first. */
  lemma LosingRun(s: State, w: ReqId, vmId: string) returns (acts: seq<Action>)
    requires Booked(s) && s.up && Works(s, w, vmId) && CanLose(s, w, vmId)
    ensures OneLife(acts) && Runs(s, acts) && InCritical(Final(s, acts), w) && vmId !in Final(s, acts).vms
  {
    if d :| At(s, d, Removing) && s.rows[d].obj == Some(vmId) {
      RunsOne(s, RemoveVm(d));
      acts := [RemoveVm(d)];
    } else {
      var d :| d != w && DeletesInside(s, d, vmId);
      if At(s, d, Deleting) {
        acts := ReportedRuns(s, w, d, vmId);
      } else if x :| x in s.workers && Holds(s.workers[x]) {
        acts := ReleasedRuns(s, w, d, x, vmId);
      } else {
        acts := DeletionRuns(s, w, d, vmId);
      }
    }
  }

  /** A worker that is inside keeps its VM for as long as it stays inside, over every
      interleaving, exactly when it cannot lose it as said above. */
  lemma WorkerKeepsVmExactly(s: State, w: ReqId, vmId: string)
    requires Booked(s) && s.up && Works(s, w, vmId)
    ensures (forall acts :: OneLife(acts) && Runs(s, acts) && InCritical(Final(s, acts), w) ==>
               vmId in Final(s, acts).vms)
       <==> !CanLose(s, w, vmId)
  {
    if CanLose(s, w, vmId) {
      var acts := LosingRun(s, w, vmId);
    } else {
      forall acts | OneLife(acts) && Runs(s, acts) && InCritical(Final(s, acts), w)
        ensures vmId in Final(s, acts).vms
      {
        KeepsItsVm(s, acts, w, vmId);
      }
    }
  }

  /** Where mutual exclusion holds, only a deletion that has reported counts. */
  lemma OnlyReportedDeletionsCount(s: State, w: ReqId, vmId: string)
    requires MutualExclusion(s) && Works(s, w, vmId)
    ensures CanLose(s, w, vmId) <==> BeingRemoved(s, vmId)
  {
  }
}

/** Writes to the request table whose error nobody looks at (requests.go: Start, Succeeded,
    Failed, FailAllPending): the code goes on as if the row had been written. */
module LostWrites {
  import opened RequestTable
  import opened RequestProtocol
  import opened RequestLifecycle

  /** An action of the protocol, or one whose write was lost. */
  datatype Step = Did(a: Action) | Lost(a: Action)

  predicate Losable(a: Action) {
    a.Mark? || a.Finish? || a.Fail? || a.Boot?
  }

  predicate CanStep(s: State, step: Step) {
    Enabled(s, step.a) && (step.Lost? ==> Losable(step.a))
  }

  function Stepped(s: State, step: Step): State
    requires CanStep(s, step)
  {
    if step.Lost? then Next(s, step.a).(rows := s.rows) else Next(s, step.a)
  }

  predicate StepsRun(s: State, steps: seq<Step>)
    decreases |steps|
  {
    steps == [] || (CanStep(s, steps[0]) && StepsRun(Stepped(s, steps[0]), steps[1..]))
  }

  function After(s: State, steps: seq<Step>): State
    requires StepsRun(s, steps)
    decreases |steps|
  {
    if steps == [] then s else After(Stepped(s, steps[0]), steps[1..])
  }

  lemma StepsCons(s: State, step: Step, rest: seq<Step>)
    requires CanStep(s, step) && StepsRun(Stepped(s, step), rest)
    ensures StepsRun(s, [step] + rest) && After(s, [step] + rest) == After(Stepped(s, step), rest)
  {
    assert ([step] + rest)[1..] == rest;
  }

  lemma {:induction false} StepsConcat(s: State, first: seq<Step>, second: seq<Step>)
    requires StepsRun(s, first) && StepsRun(After(s, first), second)
    ensures StepsRun(s, first + second) && After(s, first + second) == After(After(s, first), second)
    decreases |first|
  {
    if first == [] {
      assert first + second == second;
    } else {
      StepsConcat(Stepped(s, first[0]), first[1..], second);
      assert (first + second)[0] == first[0] && (first + second)[1..] == first[1..] + second;
    }
  }

  function SpawnsIn(steps: seq<Step>, id: ReqId): nat {
    multiset(steps)[Did(Spawn(id))]
  }

  function LostMarksIn(steps: seq<Step>, id: ReqId): nat {
    multiset(steps)[Lost(Mark(id))]
  }

  predicate DispatcherKnowsRow(s: State) {
    match s.dispatcher
    case Idle => true
    case Picked(id) => id in s.rows && !s.rows[id].started
    case Marked(id) => id in s.rows
  }

  /** How often the request will be handed to a worker if no mark on it is lost from now on. */
  function Due(s: State, id: ReqId): nat {
    (if id in s.rows && s.rows[id].started then 0 else 1) + (if Claimed(s, id) then 1 else 0)
  }

  lemma KnowsRowStep(s: State, step: Step)
    requires DispatcherKnowsRow(s) && CanStep(s, step)
    ensures DispatcherKnowsRow(Stepped(s, step))
  {
  }

  function Spawned(step: Step, id: ReqId): nat {
    if step == Did(Spawn(id)) then 1 else 0
  }

  function MarkLost(step: Step, id: ReqId): nat {
    if step == Lost(Mark(id)) then 1 else 0
  }

  lemma DueStep(s: State, step: Step, id: ReqId)
    requires DispatcherKnowsRow(s) && CanStep(s, step)
    ensures Due(Stepped(s, step), id) + Spawned(step, id) <= Due(s, id) + MarkLost(step, id)
  {
    RowNotUnstarted(s, step, id);
    ClaimStep(s, step, id);
  }

  lemma RowNotUnstarted(s: State, step: Step, id: ReqId)
    requires CanStep(s, step)
    ensures id in s.rows && s.rows[id].started ==>
              id in Stepped(s, step).rows && Stepped(s, step).rows[id].started
    ensures step == Did(Mark(id)) && id in s.rows ==> Stepped(s, step).rows[id].started
  {
  }

  lemma ClaimStep(s: State, step: Step, id: ReqId)
    requires DispatcherKnowsRow(s) && CanStep(s, step)
    ensures step.a == Mark(id) ==> Claimed(Stepped(s, step), id) && !Claimed(s, id)
    ensures step.a == Mark(id) ==> id in s.rows && !s.rows[id].started
    ensures step.a == Spawn(id) ==> Claimed(s, id) && !Claimed(Stepped(s, step), id)
    ensures step.a != Mark(id) && Claimed(Stepped(s, step), id) ==> Claimed(s, id)
  {
  }

  /** A request goes to a worker at most once more than marks on it are lost, whatever crashes,
      restarts and other lost writes there are. */
  lemma {:induction false} SpawnsAtMostLostMarks(s: State, steps: seq<Step>, id: ReqId)
    requires DispatcherKnowsRow(s) && StepsRun(s, steps)
    ensures SpawnsIn(steps, id) <= Due(s, id) + LostMarksIn(steps, id)
    decreases |steps|
  {
    if steps != [] {
      DueStep(s, steps[0], id);
      KnowsRowStep(s, steps[0]);
      SpawnsAtMostLostMarks(Stepped(s, steps[0]), steps[1..], id);
      assert steps == [steps[0]] + steps[1..];
      assert multiset(steps) == multiset([steps[0]]) + multiset(steps[1..]);
    }
  }

  /** A dispatcher turn on the request, its mark lost or not. */
  function Turn(id: ReqId, lost: bool): seq<Step> {
    [Did(Pick(id)), if lost then Lost(Mark(id)) else Did(Mark(id)), Did(Spawn(id))]
  }

  lemma TurnRuns(s: State, id: ReqId, lost: bool)
    requires s.up && s.dispatcher == Idle && id in s.rows && !s.rows[id].started && s.rows[id].kind != Unknown
    ensures StepsRun(s, Turn(id, lost))
    ensures After(s, Turn(id, lost)) ==
            s.(workers := s.workers[id := Lookup], rows := if lost then s.rows else MarkStarted(s.rows, id))
  {
    var pick, mark, spawn := Did(Pick(id)), if lost then Lost(Mark(id)) else Did(Mark(id)), Did(Spawn(id));
    var s1 := Stepped(s, pick);
    var s2 := Stepped(s1, mark);
    StepsCons(s2, spawn, []);
    StepsCons(s1, mark, [spawn] + []);
    StepsCons(s, pick, [mark] + ([spawn] + []));
    assert Turn(id, lost) == [pick] + ([mark] + ([spawn] + []));
  }

  /** The bound is met: every lost mark can cost one more worker. */
  lemma {:induction false} EveryLostMarkCounts(s: State, id: ReqId, n: nat) returns (steps: seq<Step>)
    requires s.up && s.dispatcher == Idle && id in s.rows && !s.rows[id].started && s.rows[id].kind != Unknown
    ensures StepsRun(s, steps) && LostMarksIn(steps, id) == n && SpawnsIn(steps, id) == n + 1
    ensures Due(s, id) == 1
    decreases n
  {
    TurnRuns(s, id, n > 0);
    if n == 0 {
      steps := Turn(id, false);
    } else {
      var t := After(s, Turn(id, true));
      var rest := EveryLostMarkCounts(t, id, n - 1);
      StepsConcat(s, Turn(id, true), rest);
      steps := Turn(id, true) + rest;
    }
  }

  /** Lookup and re-check of the worker the turn has made. */
  function Entry(id: ReqId): seq<Step> {
    [Did(LookUp(id)), Did(Check(id))]
  }

  lemma EntryRuns(s: State, id: ReqId)
    requires s.up && ListFree(s) && At(s, id, Lookup) && !Dead(s, s.rows[id])
    requires !OtherPending(s, id, s.rows[id].obj.value)
    ensures StepsRun(s, Entry(id)) && After(s, Entry(id)) == s.(workers := s.workers[id := Critical])
  {
    var look, check := Did(LookUp(id)), Did(Check(id));
    var t := Stepped(s, look);
    assert !OtherPending(t, id, s.rows[id].obj.value);
    assert t.workers[id := Critical] == s.workers[id := Critical];
    StepsCons(t, check, []);
    StepsCons(s, look, [check] + []);
    assert Entry(id) == [look] + ([check] + []);
  }

  /** The run: a lost mark puts two workers at one request. The re-check does not keep the
      second out, as it looks for other requests only; nothing is reported in between. */
  lemma SecondWorkerEnters(s: State, id: ReqId)
    requires s.up && s.dispatcher == Idle && ListFree(s) && id in s.rows && !s.rows[id].started
    requires s.rows[id].obj.Some? && !Dead(s, s.rows[id]) && !OtherPending(s, id, s.rows[id].obj.value)
    ensures var first, second := Turn(id, true) + Entry(id), Turn(id, false) + Entry(id);
            && StepsRun(s, first) && InCritical(After(s, first), id)
            && StepsRun(After(s, first), second) && InCritical(After(After(s, first), second), id)
  {
    OneEnters(s, id, true);
    OneEnters(After(s, Turn(id, true) + Entry(id)), id, false);
  }

  lemma OneEnters(s: State, id: ReqId, lost: bool)
    requires s.up && s.dispatcher == Idle && ListFree(s) && id in s.rows && !s.rows[id].started
    requires s.rows[id].obj.Some? && !Dead(s, s.rows[id]) && !OtherPending(s, id, s.rows[id].obj.value)
    ensures StepsRun(s, Turn(id, lost) + Entry(id))
    ensures After(s, Turn(id, lost) + Entry(id)) ==
            s.(workers := s.workers[id := Critical], rows := if lost then s.rows else MarkStarted(s.rows, id))
  {
    TurnRuns(s, id, lost);
    var t := After(s, Turn(id, lost));
    assert !OtherPending(t, id, s.rows[id].obj.value);
    EntryRuns(t, id);
    StepsConcat(s, Turn(id, lost), Entry(id));
    assert t.workers[id := Critical] == s.workers[id := Critical];
  }

  /** A report that is lost abandons the request, unless a deletion has yet to drop its VM or
      the request was complete already. */
  lemma LostReportAbandons(s: State, id: ReqId, ok: bool)
    requires Enabled(s, Finish(id, ok)) && s.rows[id].started && s.rows[id].kind != Unknown && s.rows[id].obj.Some?
    requires !Claimed(s, id)
    ensures Abandoned(Stepped(s, Lost(Finish(id, ok))), id) <==>
            !s.rows[id].complete && !(ok && s.rows[id].kind == VmDelete)
  {
  }
}

/**
  Mutation admission, exclusive mutations and shutdown of the service, src/workflowService.ts:540-608,
  672-693 and 1818-1856, with initialization running beside them.
 */
module ServiceAdmission {
  import opened Common

  datatype Lifecycle = New | Initializing | Ready | Quiescing | Stopped | Failed

  /** An admitted mutation; an exclusive one waits for the others before its body runs. */
  datatype Task = Shared | ExclusiveWaiting | ExclusiveBody

  datatype StopPhase = Idle | AwaitingInit | AwaitingDrain | DrainSeen | Interrupting

  /** `admitted` is the counter the source keeps; `tasks` are the mutations themselves. `drainWoken` and
      `exclusiveWoken` are the resolved promises of the two kinds of waiter. */
  datatype State = State(
    lifecycle: Lifecycle,
    initializing: bool,
    tasks: seq<Task>,
    admitted: int,
    exclusive: bool,
    exclusiveWoken: bool,
    stop: StopPhase,
    stopIsFailure: bool,
    drainWoken: bool,
    active: set<nat>,
    snapshot: set<nat>)

  const INITIAL := State(New, false, [], 0, false, false, Idle, false, false, {}, {})

  datatype Op =
    | InitBegin
    | InitRegister(run: nat)
    | InitEnd(ok: bool)
    | Admit
    | Register(i: nat, run: nat)
    | Finish(i: nat)
    | AdmitExclusive
    | ProceedExclusive(i: nat)
    | FinishExclusive(i: nat)
    | RunEnds(run: nat)
    | BeginStop(failure: bool)
    | InitSettled
    | DrainSettled
    | Snapshot
    | StopEnd(ok: bool)

  predicate Enabled(s: State, op: Op) {
    match op
    case InitBegin => s.lifecycle.New?
    case InitRegister(_) => s.initializing
    case InitEnd(_) => s.initializing
    case Admit => s.lifecycle.Ready? && !s.exclusive
    case Register(i, _) => i < |s.tasks| && s.tasks[i].Shared?
    case Finish(i) => i < |s.tasks| && s.tasks[i].Shared?
    case AdmitExclusive => s.lifecycle.Ready? && !s.exclusive
    case ProceedExclusive(i) => i < |s.tasks| && s.tasks[i].ExclusiveWaiting? && s.exclusiveWoken
    case FinishExclusive(i) => i < |s.tasks| && s.tasks[i].ExclusiveBody?
    case RunEnds(_) => true
    case BeginStop(_) => true
    case InitSettled => s.stop.AwaitingInit? && !s.initializing
    case DrainSettled => s.stop.AwaitingDrain? && s.drainWoken
    case Snapshot => s.stop.DrainSeen?
    case StopEnd(_) => s.stop.Interrupting?
  }

  /** `#notifyAdmissionChange` */
  function Notify(s: State): State {
    s.(exclusiveWoken := s.exclusiveWoken || (s.exclusive && s.admitted == 1),
       drainWoken := s.drainWoken || s.admitted == 0)
  }

  function Without(tasks: seq<Task>, i: nat): seq<Task>
    requires i < |tasks|
  {
    tasks[..i] + tasks[i + 1..]
  }

  function Stop(s: State, failure: bool): State {
    var t := if failure then s.(lifecycle := Failed) else s;
    if !t.stop.Idle? || t.lifecycle.Stopped? then t
    else t.(lifecycle := if failure then Failed else Quiescing, stop := AwaitingInit, stopIsFailure := failure)
  }

  function Step(s: State, op: Op): State
    requires Enabled(s, op)
  {
    match op
    case InitBegin => s.(lifecycle := Initializing, initializing := true)
    case InitRegister(run) => s.(active := s.active + {run})
    case InitEnd(ok) =>
      s.(initializing := false, lifecycle := if s.lifecycle.Initializing? then (if ok then Ready else Failed)
        else s.lifecycle)
    case Admit => s.(tasks := s.tasks + [Shared], admitted := s.admitted + 1)
    case Register(_, run) => s.(active := s.active + {run})
    case Finish(i) => Notify(s.(tasks := Without(s.tasks, i), admitted := s.admitted - 1))
    case AdmitExclusive =>
      s.(exclusive := true, tasks := s.tasks + [ExclusiveWaiting], admitted := s.admitted + 1,
        exclusiveWoken := s.admitted + 1 == 1)
    case ProceedExclusive(i) => s.(tasks := s.tasks[i := ExclusiveBody])
    case FinishExclusive(i) =>
      Notify(s.(exclusive := false, exclusiveWoken := false, tasks := Without(s.tasks, i), admitted := s.admitted - 1))
    case RunEnds(run) => s.(active := s.active - {run})
    case BeginStop(failure) => Stop(s, failure)
    case InitSettled => s.(stop := AwaitingDrain, drainWoken := s.admitted == 0)
    case DrainSettled => s.(stop := DrainSeen)
    case Snapshot => s.(stop := Interrupting, snapshot := s.active)
    case StopEnd(ok) => s.(stop := Idle, lifecycle := if ok && !s.stopIsFailure then Stopped else Failed)
  }

  predicate EnabledRun(s: State, ops: seq<Op>)
    decreases |ops|
  {
    ops == [] || (Enabled(s, ops[0]) && EnabledRun(Step(s, ops[0]), ops[1..]))
  }

  function Run(s: State, ops: seq<Op>): State
    requires EnabledRun(s, ops)
    decreases |ops|
  {
    if ops == [] then s else Run(Step(s, ops[0]), ops[1..])
  }

  // ---------------------------------------------------------------------------------------------
  // Invariant
  // ---------------------------------------------------------------------------------------------

  predicate Closed(l: Lifecycle) {
    l.Quiescing? || l.Stopped? || l.Failed?
  }

  ghost predicate HasExclusive(tasks: seq<Task>) {
    exists i :: 0 <= i < |tasks| && !tasks[i].Shared?
  }

  ghost predicate AtMostOneExclusive(tasks: seq<Task>) {
    forall i, j :: 0 <= i < j < |tasks| ==> tasks[i].Shared? || tasks[j].Shared?
  }

  ghost predicate NoBody(tasks: seq<Task>) {
    forall i :: 0 <= i < |tasks| ==> !tasks[i].ExclusiveBody?
  }

  /** The flag stands for exactly one exclusive mutation, and a body runs only once it was woken alone. */
  ghost predicate OneExclusive(s: State) {
    && (s.exclusive <==> HasExclusive(s.tasks))
    && AtMostOneExclusive(s.tasks)
    && (s.exclusiveWoken ==> s.exclusive && |s.tasks| == 1)
    && (!s.exclusiveWoken ==> NoBody(s.tasks))
  }

  ghost predicate StopInv(s: State) {
    && (!s.stop.Idle? ==> Closed(s.lifecycle))
    && (s.stop.AwaitingDrain? || s.stop.DrainSeen? || s.stop.Interrupting? ==> !s.initializing)
    && (s.stop.AwaitingDrain? && s.drainWoken ==> s.tasks == [])
    && (s.stop.DrainSeen? || s.stop.Interrupting? ==> s.tasks == [])
    && (s.stop.Interrupting? ==> s.active <= s.snapshot)
    && (s.initializing ==> !s.lifecycle.New? && !s.lifecycle.Ready?)
  }

  ghost predicate Inv(s: State) {
    s.admitted == |s.tasks| && OneExclusive(s) && StopInv(s)
  }

  lemma WithoutAt(tasks: seq<Task>, i: nat)
    requires i < |tasks|
    ensures |Without(tasks, i)| == |tasks| - 1
    ensures forall j :: 0 <= j < |tasks| - 1 ==> Without(tasks, i)[j] == tasks[if j < i then j else j + 1]
  {
  }

  lemma RemoveShared(tasks: seq<Task>, i: nat)
    requires i < |tasks| && tasks[i].Shared?
    ensures HasExclusive(Without(tasks, i)) <==> HasExclusive(tasks)
    ensures AtMostOneExclusive(tasks) ==> AtMostOneExclusive(Without(tasks, i))
    ensures NoBody(tasks) ==> NoBody(Without(tasks, i))
  {
    WithoutAt(tasks, i);
    if HasExclusive(tasks) {
      var j :| 0 <= j < |tasks| && !tasks[j].Shared?;
      assert !Without(tasks, i)[if j < i then j else j - 1].Shared?;
    }
  }

  lemma FinishKeepsInv(s: State, i: nat)
    requires Inv(s) && Enabled(s, Finish(i))
    ensures Inv(Step(s, Finish(i)))
  {
    RemoveShared(s.tasks, i);
    WithoutAt(s.tasks, i);
  }

  lemma FinishExclusiveKeepsInv(s: State, i: nat)
    requires Inv(s) && Enabled(s, FinishExclusive(i))
    ensures Inv(Step(s, FinishExclusive(i))) && s.tasks == [ExclusiveBody]
  {
    assert |s.tasks| == 1;
    assert Step(s, FinishExclusive(i)).tasks == [];
  }

  lemma AdmitKeepsInv(s: State, op: Op)
    requires Inv(s) && (op.Admit? || op.AdmitExclusive?) && Enabled(s, op)
    ensures Inv(Step(s, op))
  {
    var t := Step(s, op);
    assert t.tasks[|s.tasks|] == if op.Admit? then Shared else ExclusiveWaiting;
    assert forall j :: 0 <= j < |s.tasks| ==> t.tasks[j] == s.tasks[j];
  }

  lemma ProceedKeepsInv(s: State, i: nat)
    requires Inv(s) && Enabled(s, ProceedExclusive(i))
    ensures Inv(Step(s, ProceedExclusive(i)))
  {
    assert Step(s, ProceedExclusive(i)).tasks[i].ExclusiveBody?;
  }

  lemma StepKeepsInv(s: State, op: Op)
    requires Inv(s) && Enabled(s, op)
    ensures Inv(Step(s, op))
  {
    match op
    case Admit => AdmitKeepsInv(s, op);
    case AdmitExclusive => AdmitKeepsInv(s, op);
    case Finish(i) => FinishKeepsInv(s, i);
    case ProceedExclusive(i) => ProceedKeepsInv(s, i);
    case FinishExclusive(i) => FinishExclusiveKeepsInv(s, i);
    case _ =>
  }

  lemma {:induction false} RunKeepsInv(s: State, ops: seq<Op>)
    requires Inv(s) && EnabledRun(s, ops)
    ensures Inv(Run(s, ops))
    decreases |ops|
  {
    if ops != [] {
      StepKeepsInv(s, ops[0]);
      RunKeepsInv(Step(s, ops[0]), ops[1..]);
    }
  }

  /** The body of an exclusive mutation runs with no other admitted mutation. */
  lemma ExclusiveRunsAlone(ops: seq<Op>, i: nat)
    requires EnabledRun(INITIAL, ops)
    ensures var s := Run(INITIAL, ops);
      i < |s.tasks| && s.tasks[i].ExclusiveBody? ==> s.tasks == [ExclusiveBody] && s.admitted == 1
  {
    RunKeepsInv(INITIAL, ops);
    var s := Run(INITIAL, ops);
    assert i < |s.tasks| && s.tasks[i].ExclusiveBody? ==> s.tasks == [s.tasks[0]];
  }

  /** A closed service never becomes available again, and never admits anything. */
  lemma ClosedStaysClosed(s: State, op: Op)
    requires Inv(s) && Enabled(s, op) && Closed(s.lifecycle)
    ensures Closed(Step(s, op).lifecycle) && |Step(s, op).tasks| <= |s.tasks|
  {
    match op
    case Finish(i) => WithoutAt(s.tasks, i);
    case FinishExclusive(i) => WithoutAt(s.tasks, i);
    case _ =>
  }

  /** The snapshot of active runs is taken with nothing admitted and initialization over, and from then
      on no run is registered that it misses. */
  lemma SnapshotIsComplete(ops: seq<Op>)
    requires EnabledRun(INITIAL, ops)
    ensures var s := Run(INITIAL, ops);
      && (Enabled(s, Snapshot) ==> s.tasks == [] && s.admitted == 0 && !s.initializing && Closed(s.lifecycle))
      && (s.stop.Interrupting? ==> s.active <= s.snapshot && s.tasks == [])
  {
    RunKeepsInv(INITIAL, ops);
  }

  /** Once stopping has begun, every later state is closed and admits no more than it did. */
  lemma {:induction false} NothingAdmittedAfterStop(s: State, ops: seq<Op>)
    requires Inv(s) && EnabledRun(s, ops) && Closed(s.lifecycle)
    ensures Closed(Run(s, ops).lifecycle) && |Run(s, ops).tasks| <= |s.tasks|
    decreases |ops|
  {
    if ops != [] {
      StepKeepsInv(s, ops[0]);
      ClosedStaysClosed(s, ops[0]);
      NothingAdmittedAfterStop(Step(s, ops[0]), ops[1..]);
    }
  }

  // ---------------------------------------------------------------------------------------------
  // Failure verdicts
  // ---------------------------------------------------------------------------------------------

  /** The two ways a failure verdict is lost: an operator stops a failed service that is not stopping, or
      a stop that began before the failure ends well. */
  predicate Overwrites(s: State, op: Op) {
    (op == BeginStop(false) && s.stop.Idle?) || (op == StopEnd(true) && !s.stopIsFailure)
  }

  /** A failed service stays failed exactly until one of them. */
  lemma FailureKeptIff(s: State, op: Op)
    requires Enabled(s, op) && s.lifecycle.Failed?
    ensures Step(s, op).lifecycle.Failed? <==> !Overwrites(s, op)
  {
  }

  /** A failure that did not interrupt an operator's stop lasts until an operator asks for one. */
  lemma {:induction false} FailureLasts(s: State, ops: seq<Op>)
    requires EnabledRun(s, ops) && s.lifecycle.Failed? && (s.stop.Idle? || s.stopIsFailure) && BeginStop(false) !in ops
    ensures Run(s, ops).lifecycle.Failed?
    decreases |ops|
  {
    if ops != [] {
      FailureKeptIff(s, ops[0]);
      FailureLasts(Step(s, ops[0]), ops[1..]);
    }
  }

  lemma {:induction false} RunThrough(ops: seq<Op>, states: seq<State>)
    requires |states| == |ops| + 1
    requires forall i :: 0 <= i < |ops| ==> Enabled(states[i], ops[i]) && states[i + 1] == Step(states[i], ops[i])
    ensures EnabledRun(states[0], ops) && Run(states[0], ops) == states[|ops|]
    decreases |ops|
  {
    if ops != [] {
      RunThrough(ops[1..], states[1..]);
    }
  }

  const LOSING: seq<Op> := [InitBegin, InitEnd(true), BeginStop(false), BeginStop(true)]
  const ENDING: seq<Op> := [InitSettled, DrainSettled, Snapshot, StopEnd(true)]
  const LOST := State(Failed, false, [], 0, false, false, AwaitingInit, false, false, {}, {})

  lemma LosesOwnership()
    ensures EnabledRun(INITIAL, LOSING) && Run(INITIAL, LOSING) == LOST
  {
    var s1 := Step(INITIAL, InitBegin);
    var s2 := Step(s1, InitEnd(true));
    RunThrough(LOSING, [INITIAL, s1, s2, Step(s2, BeginStop(false)), LOST]);
  }

  lemma EndsStopping()
    ensures EnabledRun(LOST, ENDING) && Run(LOST, ENDING).lifecycle == Stopped
  {
    var s1 := Step(LOST, InitSettled);
    var s2 := Step(s1, DrainSettled);
    var s3 := Step(s2, Snapshot);
    RunThrough(ENDING, [LOST, s1, s2, s3, Step(s3, StopEnd(true))]);
  }

  /** Ownership is lost while an operator's stop is under way: the service ends as stopped all the same. */
  lemma FailureCanBeOverwritten()
    ensures EnabledRun(INITIAL, LOSING) && Run(INITIAL, LOSING).lifecycle == Failed
    ensures EnabledRun(Run(INITIAL, LOSING), ENDING) && Run(Run(INITIAL, LOSING), ENDING).lifecycle == Stopped
  {
    LosesOwnership();
    EndsStopping();
  }
}

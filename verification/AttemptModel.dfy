/**
  The attempt loop of `#executeAgent` in src/runWorkflow.ts: every agent of a run advances from one
  `await` to the next, interleaved with all others over one circuit breaker, one pool of permits, one
  retry budget and one journal. Each operation is what happens between two awaits.
 */
module AttemptModel {
  import opened Common
  import C = CircuitSpec
  import J = JournalModel

  /** `twoLevel` when the service shares its own scheduler across runs. */
  datatype Config = Config(
    policy: C.Policy,
    maxAttempts: nat,
    maxRetries: nat,
    automaticRetry: bool,
    readOnly: bool,
    twoLevel: bool,
    runLimit: nat,
    serviceLimit: nat)

  ghost predicate ValidConfig(c: Config) {
    C.ValidPolicy(c.policy) && c.maxAttempts > 0
  }

  datatype Report = FinalFailure | NeedsRecovery

  /** What an agent is awaiting. */
  datatype Pc =
    | Preparing
    | AtGate
    | AwaitingRun
    | AwaitingService
    | Starting
    | Executing
    | Completing
    | Retrying
    | BackingOff
    | Reporting(report: Report)
    | Cancelling
    | Finished(beforeAbort: bool)
    | FellThrough

  /** One call of `#executeAgent`. `slot`, `key` and `agent` are its journal miss; `reserved` counts its
      retries, `results` its `recordResult` calls, and `ambiguous` the retried attempts whose
      termination was not confirmed. */
  datatype Worker = Worker(
    slot: nat,
    key: J.Key,
    agent: J.Agent,
    worktree: bool,
    pc: Pc,
    attempt: nat,
    reserved: nat,
    results: nat,
    lease: Option<nat>,
    runHeld: bool,
    serviceHeld: bool,
    ambiguous: seq<nat>)

  /** A quarantined execution and the permits it keeps until it settles. */
  datatype Fence = Fence(worker: nat, attempt: nat, run: bool, service: bool)

  datatype Kind = Started | Completed | RetryScheduled | Failed | RecoveryRequired | Cancelled

  datatype Event = Event(worker: nat, kind: Kind)

  /** `owners[i]` is the worker that circuit lease `i` was returned to; `durable` is the journal as
      last persisted; `stopped` are the quarantined executions that have settled. */
  datatype State = State(
    workers: seq<Worker>,
    circuit: C.State,
    owners: seq<nat>,
    runActive: int,
    serviceActive: int,
    fences: seq<Fence>,
    stopped: set<(nat, nat)>,
    unconfirmed: set<(nat, nat)>,
    retries: nat,
    journal: J.Run,
    durable: J.Run,
    events: seq<Event>,
    aborted: bool,
    storageDown: bool)

  function Initial(journal: J.Run): State {
    State([], C.INITIAL, [], 0, 0, [], {}, {}, 0, journal, journal, [], false, false)
  }

  // ---------------------------------------------------------------------------------------------
  // Building blocks
  // ---------------------------------------------------------------------------------------------

  function Put(s: State, a: nat, w: Worker): State
    requires a < |s.workers|
  {
    s.(workers := s.workers[a := w])
  }

  function Goto(s: State, a: nat, pc: Pc): (t: State)
    requires a < |s.workers|
    ensures |t.workers| == |s.workers|
  {
    Put(s, a, s.workers[a].(pc := pc))
  }

  /** Settle the circuit lease, if one is held; settling again would change nothing. */
  function DropLease(c: Config, s: State, a: nat, outcome: C.Outcome, at: nat): (t: State)
    requires a < |s.workers|
    ensures |t.workers| == |s.workers|
  {
    var w := s.workers[a];
    if w.lease.Some? && w.lease.value < |s.circuit.leases| then
      Put(s, a, w.(lease := None)).(circuit := C.Settle(c.policy, s.circuit, w.lease.value, outcome, at))
    else s
  }

  function One(b: bool): int {
    if b then 1 else 0
  }

  function DropPermits(s: State, a: nat): (t: State)
    requires a < |s.workers|
    ensures |t.workers| == |s.workers|
  {
    var w := s.workers[a];
    Put(s, a, w.(runHeld := false, serviceHeld := false)).(
      runActive := s.runActive - One(w.runHeld), serviceActive := s.serviceActive - One(w.serviceHeld))
  }

  /** Hand the permits over to the quarantine of the current attempt. */
  function ParkPermits(s: State, a: nat): (t: State)
    requires a < |s.workers|
    ensures |t.workers| == |s.workers|
  {
    var w := s.workers[a];
    Put(s, a, w.(runHeld := false, serviceHeld := false)).(
      fences := s.fences + [Fence(a, w.attempt, w.runHeld, w.serviceHeld)])
  }

  /** Leaving by an exception that is neither a provider nor an assignment failure. */
  function Escape(s: State, a: nat): (t: State)
    requires a < |s.workers|
    ensures |t.workers| == |s.workers|
  {
    Goto(s, a, if s.aborted then Cancelling else Finished(true))
  }

  /** The `finally` of an attempt, then an exception. */
  function Unwind(c: Config, s: State, a: nat, at: nat): (t: State)
    requires a < |s.workers|
    ensures |t.workers| == |s.workers|
  {
    Escape(DropPermits(DropLease(c, s, a, C.Neutral, at), a), a)
  }

  /** The `finally` of an attempt after its terminal event. */
  function Finish(s: State, a: nat): (t: State)
    requires a < |s.workers|
    ensures |t.workers| == |s.workers|
  {
    Goto(DropPermits(s, a), a, Finished(!s.aborted))
  }

  /** A journal mutation, then the attempt to persist it. */
  function Journal(s: State, op: J.Op, persisted: bool): State {
    var j := J.Apply(s.journal, op);
    s.(journal := j, durable := if persisted then j else s.durable)
  }

  function ResultOf(w: Worker, value: J.Value, success: bool): J.Op {
    J.ResultOp(w.slot, w.key, w.agent, value, Some(success), !success)
  }

  function Store(s: State, a: nat, value: J.Value, success: bool, persisted: bool): (t: State)
    requires a < |s.workers|
    ensures |t.workers| == |s.workers|
  {
    var w := s.workers[a];
    Put(Journal(s, ResultOf(w, value, success), persisted), a, w.(results := w.results + 1))
  }

  /** Record the result; go on only once it is durable. */
  function Record(c: Config, s: State, a: nat, value: J.Value, success: bool, next: Pc, persisted: bool,
      at: nat): (t: State)
    requires a < |s.workers|
    ensures |t.workers| == |s.workers|
  {
    var t := Store(s, a, value, success, persisted);
    if persisted then Goto(t, a, next) else Unwind(c, t, a, at)
  }

  // ---------------------------------------------------------------------------------------------
  // Retry policy
  // ---------------------------------------------------------------------------------------------

  /** What the provider says about replaying a request. */
  datatype Assessment = Assessment(automatic: bool, worktreeRisk: bool)

  function ReplaySafety(c: Config, w: Worker, provider: Assessment): Assessment {
    if !provider.automatic || c.readOnly then provider
    else if w.worktree then Assessment(true, true)
    else Assessment(false, false)
  }

  predicate MayRetry(c: Config, s: State, w: Worker, retryable: bool, safety: Assessment) {
    && retryable && w.attempt < c.maxAttempts
    && s.retries < c.maxRetries
    && c.automaticRetry
    && safety.automatic
    && (c.readOnly || w.worktree)
  }

  /** Take one retry of the run's budget and abandon the provider session. */
  function TakeRetry(s: State, a: nat, ambiguous: bool, persisted: bool): (t: State)
    requires a < |s.workers|
    ensures |t.workers| == |s.workers|
  {
    var w := s.workers[a];
    var v := w.(reserved := w.reserved + 1, ambiguous := if ambiguous then w.ambiguous + [w.attempt] else w.ambiguous);
    Put(Journal(s, J.DiscardOp(w.slot, w.key, w.agent), persisted), a, v).(retries := s.retries + 1)
  }

  /** Announce the retry once the session is durably gone. */
  function Reserve(c: Config, s: State, a: nat, ambiguous: bool, persisted: bool, at: nat): (t: State)
    requires a < |s.workers|
    ensures |t.workers| == |s.workers|
  {
    var t := TakeRetry(s, a, ambiguous, persisted);
    if persisted then Goto(t, a, Retrying) else Unwind(c, t, a, at)
  }

  // ---------------------------------------------------------------------------------------------
  // Steps
  // ---------------------------------------------------------------------------------------------

  datatype Preparation = Ready | Refused | Broken

  datatype Op =
    | AdmitOp(call: J.Call, isolated: bool, persisted: bool)
    | PrepareOp(a: nat, outcome: Preparation, placeholder: J.Text, persisted: bool, at: nat)
    | EnterOp(a: nat, at: nat)
    | GrantOp(a: nat, at: nat)
    | LeaveOp(a: nat, at: nat)
    | ProgressOp(a: nat)
    | SessionOp(a: nat, thread: J.Text, persisted: bool)
    | ReturnOp(a: nat, value: J.Value, persisted: bool, at: nat)
    | FailOp(a: nat, returned: bool, retryable: bool, infrastructure: bool, provider: Assessment,
      session: Option<J.Text>,
        sessionPersisted: bool, placeholder: J.Text, persisted: bool, at: nat)
    | UnconfirmedOp(a: nat, provider: Assessment, placeholder: J.Text, persisted: bool, at: nat)
    | EmitOp(a: nat, sent: bool, acknowledged: bool, at: nat)
    | WakeOp(a: nat)
    | AbortOp
    | FenceSettlesOp(i: nat)

  /** The steps before an attempt starts, and those of the run as a whole. */
  predicate Early(op: Op) {
    op.AdmitOp? || op.PrepareOp? || op.EnterOp? || op.GrantOp? || op.LeaveOp? || op.WakeOp? || op.AbortOp? ||
      op.FenceSettlesOp?
  }

  predicate Waiting(pc: Pc) {
    pc.AtGate? || pc.AwaitingRun? || pc.AwaitingService? || pc.BackingOff?
  }

  predicate Emitting(pc: Pc) {
    pc.Starting? || pc.Completing? || pc.Retrying? || pc.Reporting? || pc.Cancelling?
  }

  predicate At(s: State, a: nat, pc: Pc) {
    a < |s.workers| && s.workers[a].pc == pc
  }

  /** The clock never goes back, and nothing is published once a publication failed. */
  predicate Enabled(c: Config, s: State, op: Op) {
    match op
    case AdmitOp(_, _, _) => !s.aborted
    case PrepareOp(a, _, _, _, at) => At(s, a, Preparing) && at >= s.circuit.now
    case EnterOp(a, at) => At(s, a, AtGate) && !s.aborted && at >= s.circuit.now
    case GrantOp(a, at) =>
      && at >= s.circuit.now
      && if At(s, a, AwaitingRun) then !s.aborted && s.runActive < c.runLimit
         else At(s, a, AwaitingService) && s.serviceActive < c.serviceLimit
    case LeaveOp(a, at) => a < |s.workers| && Waiting(s.workers[a].pc) && s.aborted && at >= s.circuit.now
    case ProgressOp(a) => At(s, a, Executing)
    case SessionOp(a, _, _) => At(s, a, Executing)
    case ReturnOp(a, _, _, at) => At(s, a, Executing) && at >= s.circuit.now
    case FailOp(a, returned, _, _, _, _, _, _, _, at) => At(s, a, Executing) && at >= s.circuit.now &&
      (returned ==> !s.aborted)
    case UnconfirmedOp(a, _, _, _, at) => At(s, a, Executing) && at >= s.circuit.now
    case EmitOp(a, sent, _, at) =>
      a < |s.workers| && Emitting(s.workers[a].pc) && (sent ==> !s.storageDown) && at >= s.circuit.now
    case WakeOp(a) => At(s, a, BackingOff) && !s.aborted
    case AbortOp => true
    case FenceSettlesOp(i) => i < |s.fences|
  }

  function Admit(s: State, call: J.Call, isolated: bool, persisted: bool): State {
    var t := Journal(s, J.AdmitOp(call), persisted);
    match J.Admit(s.journal, call).1
    case Hit(_, _, _, _, _, _) => t
    case Miss(slot, key, agent, _) =>
      if persisted then t.(workers := s.workers +
        [Worker(slot, key, agent, isolated, Preparing, 1, 0, 0, None, false, false, [])])
      else t
  }

  function Placeholder(text: J.Text): J.Value {
    J.FailurePlaceholder(text)
  }

  function Prepare(c: Config, s: State, a: nat, outcome: Preparation, text: J.Text, persisted: bool, at: nat): State
    requires a < |s.workers|
  {
    if s.aborted || outcome.Broken? then Escape(s, a)
    else if outcome.Ready? then Goto(s, a, AtGate)
    else Record(c, s, a, Placeholder(text), false, Reporting(FinalFailure), persisted, at)
  }

  /** A turn of the circuit wait. */
  function Enter(c: Config, s: State, a: nat, at: nat): (t: State)
    requires a < |s.workers|
    ensures |t.workers| == |s.workers|
  {
    var (k, granted) := C.Enter(c.policy, s.circuit, at);
    if granted then
      Put(s, a, s.workers[a].(lease := Some(|s.circuit.leases|), pc := AwaitingRun)).(circuit := k,
        owners := s.owners + [a])
    else s.(circuit := k)
  }

  /** After the last permit: start, or give everything back and wait at the gate again. */
  function Check(c: Config, s: State, a: nat, at: nat): (t: State)
    requires a < |s.workers|
    ensures |t.workers| == |s.workers|
  {
    var w := s.workers[a];
    if w.lease.Some? && w.lease.value < |s.circuit.leases| && C.StartAllowed(s.circuit, w.lease.value) then
      var t := s.(circuit := C.Start(s.circuit, w.lease.value));
      if s.aborted then Unwind(c, t, a, at) else Goto(t, a, Starting)
    else Goto(DropPermits(DropLease(c, s, a, C.Neutral, at), a), a, AtGate)
  }

  function GrantRun(s: State, a: nat): (t: State)
    requires a < |s.workers|
    ensures |t.workers| == |s.workers|
  {
    Put(s, a, s.workers[a].(runHeld := true)).(runActive := s.runActive + 1)
  }

  function GrantService(s: State, a: nat): (t: State)
    requires a < |s.workers|
    ensures |t.workers| == |s.workers|
  {
    Put(s, a, s.workers[a].(serviceHeld := true)).(serviceActive := s.serviceActive + 1)
  }

  function Grant(c: Config, s: State, a: nat, at: nat): (t: State)
    requires a < |s.workers|
    ensures |t.workers| == |s.workers|
  {
    if s.workers[a].pc.AwaitingRun? then
      var t := GrantRun(s, a);
      if c.twoLevel then Goto(t, a, AwaitingService) else Check(c, t, a, at)
    else Check(c, GrantService(s, a), a, at)
  }

  /** A durable provider event proves the provider responsive. */
  function Progress(s: State, a: nat): State
    requires a < |s.workers|
  {
    var w := s.workers[a];
    if w.lease.Some? && w.lease.value < |s.circuit.leases| then s.(circuit := C.Responsive(s.circuit, w.lease.value))
      else s
  }

  function Return(c: Config, s: State, a: nat, value: J.Value, persisted: bool, at: nat): State
    requires a < |s.workers|
  {
    var t := DropLease(c, s, a, C.Success, at);
    if s.aborted then Unwind(c, t, a, at) else Record(c, t, a, value, true, Completing, persisted, at)
  }

  /** The branch of a provider failure once its session is recorded and no abort is pending. */
  function FailSettled(c: Config, s: State, a: nat, retryable: bool, safety: Assessment, text: J.Text,
      persisted: bool, at: nat): State
    requires a < |s.workers|
  {
    if retryable && !safety.automatic then
      Record(c, s, a, Placeholder(text), false, Reporting(NeedsRecovery), persisted, at)
    else if !MayRetry(c, s, s.workers[a], retryable, safety) then
      Record(c, s, a, Placeholder(text), false, Reporting(FinalFailure), persisted, at)
    else Reserve(c, s, a, false, persisted, at)
  }

  /** The state a provider failure has reached once its session is recorded. */
  function FailRecorded(c: Config, s: State, op: Op): (t: State)
    requires op.FailOp? && op.a < |s.workers|
    ensures |t.workers| == |s.workers|
  {
    var w := s.workers[op.a];
    var t := if op.returned then DropLease(c, s, op.a, C.Success, op.at) else s;
    if op.session.Some? then Journal(t, J.SessionOp(w.slot, w.key, w.agent, op.session.value), op.sessionPersisted)
      else t
  }

  function FailDropped(c: Config, s: State, op: Op): (t: State)
    requires op.FailOp? && op.a < |s.workers|
    ensures |t.workers| == |s.workers|
  {
    DropLease(c, FailRecorded(c, s, op), op.a, if op.retryable && op.infrastructure then C.Failure else C.Neutral,
      op.at)
  }

  function Fail(c: Config, s: State, op: Op): State
    requires op.FailOp? && op.a < |s.workers|
  {
    if (op.session.Some? && !op.sessionPersisted) || s.aborted then Unwind(c, FailRecorded(c, s, op), op.a, op.at)
    else
      FailSettled(c, FailDropped(c, s, op), op.a, op.retryable, ReplaySafety(c, s.workers[op.a], op.provider),
        op.placeholder,
        op.persisted, op.at)
  }

  /** The old writer may still be alive: a worktree it writes to is never shared with a replacement. */
  function WriterSafety(safety: Assessment): Assessment {
    safety.(automatic := safety.automatic && !safety.worktreeRisk)
  }

  function Unconfirmed(c: Config, s: State, op: Op): State
    requires op.UnconfirmedOp? && op.a < |s.workers|
  {
    var w := s.workers[op.a];
    var t := DropLease(c, s, op.a, C.Failure, op.at).(unconfirmed := s.unconfirmed + {(op.a, w.attempt)});
    var safety := WriterSafety(ReplaySafety(c, w, op.provider));
    if s.aborted then Goto(ParkPermits(t, op.a), op.a, Cancelling)
    else if MayRetry(c, t, w, true, safety) then Reserve(c, t, op.a, true, op.persisted, op.at)
    else
      Record(c, t.(fences := t.fences + [Fence(op.a, w.attempt, false, false)]), op.a, Placeholder(op.placeholder),
        false,
        Reporting(NeedsRecovery), op.persisted, op.at)
  }

  function KindOf(pc: Pc): Kind
    requires Emitting(pc)
  {
    match pc
    case Starting => Started
    case Completing => Completed
    case Retrying => RetryScheduled
    case Reporting(report) => if report.FinalFailure? then Failed else RecoveryRequired
    case Cancelling => Cancelled
  }

  /** A publication is sent, or dropped because the run is already terminal, or rejected; a rejected one
      may still become durable. */
  function Publish(s: State, a: nat, sent: bool, acknowledged: bool): (t: State)
    requires a < |s.workers| && Emitting(s.workers[a].pc)
    ensures t.workers == s.workers
  {
    s.(events := if sent then s.events + [Event(a, KindOf(s.workers[a].pc))] else s.events,
       storageDown := s.storageDown || !acknowledged)
  }

  function Published(c: Config, s: State, a: nat, acknowledged: bool, at: nat): (t: State)
    requires a < |s.workers| && Emitting(s.workers[a].pc)
    ensures |t.workers| == |s.workers|
  {
    var pc := s.workers[a].pc;
    if pc.Cancelling? then Finish(s, a)
    else if !acknowledged then Unwind(c, s, a, at)
    else if pc.Starting? then Goto(s, a, Executing)
    else if pc.Retrying? then Goto(DropPermits(s, a), a, BackingOff)
    else Finish(s, a)
  }

  function Emit(c: Config, s: State, a: nat, sent: bool, acknowledged: bool, at: nat): State
    requires a < |s.workers| && Emitting(s.workers[a].pc)
  {
    Published(c, Publish(s, a, sent, acknowledged), a, acknowledged, at)
  }

  /** The `for` header. */
  function Wake(c: Config, s: State, a: nat): State
    requires a < |s.workers|
  {
    var w := s.workers[a];
    Put(s, a, w.(attempt := w.attempt + 1, pc := if w.attempt + 1 <= c.maxAttempts then AtGate else FellThrough))
  }

  function AttemptFences(a: nat, attempts: seq<nat>): seq<Fence> {
    if attempts == [] then [] else [Fence(a, attempts[0], false, false)] + AttemptFences(a, attempts[1..])
  }

  /** The abort listeners of every agent that has not finished. */
  function AbortFences(workers: seq<Worker>, a: nat): seq<Fence>
    requires a <= |workers|
    decreases |workers| - a
  {
    if a == |workers| then []
    else (if workers[a].pc.Finished? then [] else AttemptFences(a, workers[a].ambiguous)) + AbortFences(workers, a + 1)
  }

  function Abort(s: State): State {
    if s.aborted then s else s.(aborted := true, fences := s.fences + AbortFences(s.workers, 0))
  }

  function FenceSettles(s: State, i: nat): State
    requires i < |s.fences|
  {
    var f := s.fences[i];
    s.(fences := s.fences[..i] + s.fences[i + 1..], stopped := s.stopped + {(f.worker, f.attempt)},
       runActive := s.runActive - One(f.run), serviceActive := s.serviceActive - One(f.service))
  }

  function Step(c: Config, s: State, op: Op): State
    requires Enabled(c, s, op)
  {
    match op
    case AdmitOp(call, isolated, persisted) => Admit(s, call, isolated, persisted)
    case PrepareOp(a, outcome, text, persisted, at) => Prepare(c, s, a, outcome, text, persisted, at)
    case EnterOp(a, at) => Enter(c, s, a, at)
    case GrantOp(a, at) => Grant(c, s, a, at)
    case LeaveOp(a, at) => Unwind(c, s, a, at)
    case ProgressOp(a) => Progress(s, a)
    case SessionOp(a, thread, persisted) =>
      var w := s.workers[a];
      Journal(s, J.SessionOp(w.slot, w.key, w.agent, thread), persisted)
    case ReturnOp(a, value, persisted, at) => Return(c, s, a, value, persisted, at)
    case FailOp(_, _, _, _, _, _, _, _, _, _) => Fail(c, s, op)
    case UnconfirmedOp(_, _, _, _, _) => Unconfirmed(c, s, op)
    case EmitOp(a, sent, acknowledged, at) => Emit(c, s, a, sent, acknowledged, at)
    case WakeOp(a) => Wake(c, s, a)
    case AbortOp => Abort(s)
    case FenceSettlesOp(i) => FenceSettles(s, i)
  }

  predicate EnabledRun(c: Config, s: State, ops: seq<Op>)
    decreases |ops|
  {
    ops == [] || (Enabled(c, s, ops[0]) && EnabledRun(c, Step(c, s, ops[0]), ops[1..]))
  }

  function Run(c: Config, s: State, ops: seq<Op>): State
    requires EnabledRun(c, s, ops)
    decreases |ops|
  {
    if ops == [] then s else Run(c, Step(c, s, ops[0]), ops[1..])
  }
}

/**
  That the attempt loop gets somewhere: an agent that nobody disturbs runs through to its published result, a
  failed attempt that was granted a retry comes back for the next one, and what was held is given back.
 */
module AttemptProgress {
  import opened Common
  import opened AttemptModel
  import opened AttemptSafety
  import C = CircuitSpec
  import J = JournalModel

  /** Agent `a` may enter: the circuit is closed, permits are free, and nothing stops the run. */
  ghost predicate MayEnter(c: Config, s: State, a: nat) {
    && At(s, a, AtGate) && !s.aborted && !s.storageDown && s.circuit.openUntil == 0
    && s.runActive < c.runLimit && (c.twoLevel ==> s.serviceActive < c.serviceLimit)
    && var w := s.workers[a];
    && w.lease.None? && !w.runHeld && !w.serviceHeld
  }

  /** Agent `a` holds circuit lease `i`, which may start now. */
  ghost predicate Holds(s: State, a: nat, i: nat) {
    && a < |s.workers| && s.workers[a].lease == Some(i) && i < |s.circuit.leases|
    && C.StartAllowed(s.circuit, i) && s.circuit.openUntil == 0
  }

  /** `t` is `s` but for the circuit, its owners, and agent `a`, which became `w`. */
  ghost predicate Moved(s: State, t: State, a: nat, w: Worker) {
    && a < |s.workers| && t.workers == s.workers[a := w] && t.aborted == s.aborted && t.storageDown == s.storageDown
    && t.journal == s.journal && t.durable == s.durable && t.events == s.events && t.retries == s.retries
    && t.fences == s.fences && t.runActive == s.runActive && t.serviceActive == s.serviceActive
  }

  lemma EnterHolds(c: Config, s: State, a: nat, at: nat)
    requires MayEnter(c, s, a) && at >= s.circuit.now
    ensures Enabled(c, s, EnterOp(a, at))
    ensures var t := Step(c, s, EnterOp(a, at)); var i := |s.circuit.leases|;
      Moved(s, t, a, s.workers[a].(lease := Some(i), pc := AwaitingRun)) && Holds(t, a, i) && t.circuit.now == at
  {
  }

  lemma CheckStarts(c: Config, s: State, a: nat, at: nat, i: nat)
    requires Holds(s, a, i) && !s.aborted
    ensures var t := Check(c, s, a, at);
      Moved(s, t, a, s.workers[a].(pc := Starting)) && Holds(t, a, i) && t.circuit.now == s.circuit.now
  {
  }

  /** The state once the permits are granted, before the start is checked. */
  function Granted(c: Config, s: State, a: nat): (t: State)
    requires a < |s.workers|
    ensures |t.workers| == |s.workers|
  {
    var w := s.workers[a];
    s.(workers := s.workers[a := w.(runHeld := true, serviceHeld := c.twoLevel)], runActive := s.runActive + 1,
       serviceActive := s.serviceActive + One(c.twoLevel))
  }

  /** Enter, and take the permits. */
  function Entry(c: Config, a: nat, at: nat): seq<Op> {
    if c.twoLevel then [EnterOp(a, at), GrantOp(a, at), GrantOp(a, at)] else [EnterOp(a, at), GrantOp(a, at)]
  }

  lemma RunOne(c: Config, s: State, op: Op)
    requires Enabled(c, s, op)
    ensures EnabledRun(c, s, [op]) && Run(c, s, [op]) == Step(c, s, op)
  {
    assert [op][1..] == [];
  }

  lemma RunTwo(c: Config, s: State, op: Op, next: Op)
    requires Enabled(c, s, op) && Enabled(c, Step(c, s, op), next)
    ensures EnabledRun(c, s, [op, next]) && Run(c, s, [op, next]) == Step(c, Step(c, s, op), next)
  {
    assert [op, next][1..] == [next];
    RunOne(c, Step(c, s, op), next);
  }

  lemma RunThree(c: Config, s: State, first: Op, second: Op, third: Op)
    requires Enabled(c, s, first) && Enabled(c, Step(c, s, first), second)
    requires Enabled(c, Step(c, Step(c, s, first), second), third)
    ensures EnabledRun(c, s, [first, second, third])
    ensures Run(c, s, [first, second, third]) == Step(c, Step(c, Step(c, s, first), second), third)
  {
    assert [first, second, third][1..] == [second, third];
    RunTwo(c, Step(c, s, first), second, third);
  }

  lemma OneLevelStarts(c: Config, s: State, a: nat, at: nat, i: nat)
    requires !c.twoLevel && At(s, a, AwaitingRun) && Holds(s, a, i) && !s.aborted && s.runActive < c.runLimit
    requires at >= s.circuit.now && !s.workers[a].serviceHeld
    ensures Enabled(c, s, GrantOp(a, at))
    ensures Step(c, s, GrantOp(a, at)) == Check(c, Granted(c, s, a), a, at)
  {
    assert GrantRun(s, a) == Granted(c, s, a);
  }

  lemma TwoLevelsStart(c: Config, s: State, a: nat, at: nat, i: nat)
    requires c.twoLevel && At(s, a, AwaitingRun) && Holds(s, a, i) && !s.aborted && s.runActive < c.runLimit
    requires at >= s.circuit.now && s.serviceActive < c.serviceLimit
    ensures Enabled(c, s, GrantOp(a, at))
    ensures var t := Step(c, s, GrantOp(a, at));
      && Enabled(c, t, GrantOp(a, at))
      && Step(c, t, GrantOp(a, at)) == Check(c, Goto(Granted(c, s, a), a, AwaitingService), a, at)
  {
    var t := Step(c, s, GrantOp(a, at));
    assert t == Goto(GrantRun(s, a), a, AwaitingService);
    assert GrantService(t, a).workers == Goto(Granted(c, s, a), a, AwaitingService).workers;
  }

  /** The state once agent `a`, with circuit lease `i`, may publish its start. */
  ghost predicate ReadyToStart(c: Config, s: State, t: State, a: nat, i: nat)
    requires a < |s.workers|
  {
    var g := Granted(c, s, a);
    Moved(g, t, a, g.workers[a].(lease := Some(i), pc := Starting)) && Holds(t, a, i)
  }

  lemma OneLevelReady(c: Config, s: State, a: nat, at: nat)
    requires !c.twoLevel && MayEnter(c, s, a) && at >= s.circuit.now
    ensures EnabledRun(c, s, Entry(c, a, at))
    ensures var t := Run(c, s, Entry(c, a, at)); ReadyToStart(c, s, t, a, |s.circuit.leases|) && t.circuit.now == at
  {
    EnterHolds(c, s, a, at);
    var x := Step(c, s, EnterOp(a, at));
    OneLevelStarts(c, x, a, at, |s.circuit.leases|);
    RunTwo(c, s, EnterOp(a, at), GrantOp(a, at));
    CheckStarts(c, Granted(c, x, a), a, at, |s.circuit.leases|);
  }

  lemma TwoLevelsReady(c: Config, s: State, a: nat, at: nat)
    requires c.twoLevel && MayEnter(c, s, a) && at >= s.circuit.now
    ensures EnabledRun(c, s, Entry(c, a, at))
    ensures var t := Run(c, s, Entry(c, a, at)); ReadyToStart(c, s, t, a, |s.circuit.leases|) && t.circuit.now == at
  {
    EnterHolds(c, s, a, at);
    var x := Step(c, s, EnterOp(a, at));
    TwoLevelsStart(c, x, a, at, |s.circuit.leases|);
    RunThree(c, s, EnterOp(a, at), GrantOp(a, at), GrantOp(a, at));
    CheckStarts(c, Goto(Granted(c, x, a), a, AwaitingService), a, at, |s.circuit.leases|);
  }

  /** Publish the start, return `value`, publish the end. */
  function Rest(a: nat, value: J.Value, at: nat): seq<Op> {
    [EmitOp(a, true, true, at), ReturnOp(a, value, true, at), EmitOp(a, true, true, at)]
  }

  /** The kind of event an agent publishes there. */
  function KindPublished(pc: Pc): Kind {
    match pc
    case Starting => Kind.Started
    case Completing => Completed
    case Retrying => RetryScheduled
    case Reporting(report) => if report.FinalFailure? then Failed else Kind.RecoveryRequired
    case _ => Cancelled
  }

  /** Nothing was journaled, fenced or retried, and one event of agent `a` was published. */
  ghost predicate Announced(s: State, t: State, a: nat)
    requires a < |s.workers|
  {
    && t.circuit == s.circuit && t.aborted == s.aborted && t.storageDown == s.storageDown
    && t.journal == s.journal && t.durable == s.durable && t.retries == s.retries && t.fences == s.fences
    && t.events == s.events + [Event(a, KindPublished(s.workers[a].pc))]
  }

  /** The agent moved on with its permits. */
  ghost predicate KeptPermits(s: State, t: State, a: nat, pc: Pc)
    requires a < |s.workers|
  {
    && t.workers == s.workers[a := s.workers[a].(pc := pc)]
    && t.runActive == s.runActive && t.serviceActive == s.serviceActive
  }

  /** The agent moved on without permits. */
  ghost predicate GavePermits(s: State, t: State, a: nat, pc: Pc)
    requires a < |s.workers|
  {
    var w := s.workers[a];
    && t.workers == s.workers[a := w.(runHeld := false, serviceHeld := false, pc := pc)]
    && t.runActive == s.runActive - One(w.runHeld) && t.serviceActive == s.serviceActive - One(w.serviceHeld)
  }

  /** A published event moves the agent on: to its execution, to its back-off, or to its end. */
  lemma PublishedMoves(c: Config, s: State, a: nat, at: nat)
    requires a < |s.workers| && !s.storageDown && at >= s.circuit.now && !s.aborted && Emitting(s.workers[a].pc)
    ensures Enabled(c, s, EmitOp(a, true, true, at))
    ensures var t := Step(c, s, EmitOp(a, true, true, at));
      && Announced(s, t, a)
      && match s.workers[a].pc
         case Starting => KeptPermits(s, t, a, Executing)
         case Retrying => GavePermits(s, t, a, BackingOff)
         case _ => GavePermits(s, t, a, Finished(true))
  {
  }

  /** The result of agent `a` was journaled durably. */
  ghost predicate Stored(s: State, t: State, a: nat, value: J.Value)
    requires a < |s.workers|
  {
    var w := s.workers[a];
    t.journal == J.Apply(s.journal, J.ResultOp(w.slot, w.key, w.agent, value, Some(true), false)) &&
    t.durable == t.journal && t.retries == s.retries && t.fences == s.fences
  }

  /** The result is in, and the end is to be published. */
  ghost predicate ToComplete(s: State, t: State, a: nat, value: J.Value)
    requires a < |s.workers|
  {
    var w := s.workers[a];
    && Stored(s, t, a, value) && t.events == s.events && t.aborted == s.aborted && t.storageDown == s.storageDown
    && t.workers == s.workers[a := w.(lease := None, pc := Completing, results := w.results + 1)]
    && t.runActive == s.runActive && t.serviceActive == s.serviceActive
  }

  lemma ReturnStores(c: Config, s: State, a: nat, value: J.Value, at: nat, i: nat)
    requires At(s, a, Executing) && Holds(s, a, i) && !s.aborted && at >= s.circuit.now
    ensures Enabled(c, s, ReturnOp(a, value, true, at))
    ensures var t := Step(c, s, ReturnOp(a, value, true, at)); ToComplete(s, t, a, value) && t.circuit.now <= at
  {
  }

  /** Agent `a` went from its start event to its completion event. */
  ghost predicate Completes(s: State, t: State, a: nat, value: J.Value)
    requires a < |s.workers|
  {
    var w := s.workers[a];
    && Stored(s, t, a, value)
    && t.workers == s.workers[a := w.(lease := None, pc := Finished(true), results := w.results + 1,
         runHeld := false, serviceHeld := false)]
    && t.runActive == s.runActive - One(w.runHeld) && t.serviceActive == s.serviceActive - One(w.serviceHeld)
    && t.events == s.events + [Event(a, Kind.Started), Event(a, Completed)]
  }

  /** The agent was started and returned its result. */
  ghost predicate Returned(s: State, y: State, a: nat, value: J.Value)
    requires a < |s.workers|
  {
    var w := s.workers[a];
    && Stored(s, y, a, value) && y.events == s.events + [Event(a, Kind.Started)]
    && y.runActive == s.runActive && y.serviceActive == s.serviceActive
    && y.workers == s.workers[a := w.(lease := None, pc := Completing, results := w.results + 1)]
    && !y.aborted && !y.storageDown
  }

  lemma StagesReturn(s: State, x: State, y: State, a: nat, value: J.Value)
    requires a < |s.workers| && s.workers[a].pc.Starting? && !s.aborted && !s.storageDown
    requires Announced(s, x, a) && KeptPermits(s, x, a, Executing) && ToComplete(x, y, a, value)
    ensures Returned(s, y, a, value)
  {
  }

  lemma StartsAndReturns(c: Config, s: State, a: nat, value: J.Value, at: nat, i: nat)
    requires At(s, a, Starting) && Holds(s, a, i) && !s.aborted && !s.storageDown && at >= s.circuit.now
    ensures var (emit, back) := (EmitOp(a, true, true, at), ReturnOp(a, value, true, at));
      && Enabled(c, s, emit) && Enabled(c, Step(c, s, emit), back)
      && var y := Step(c, Step(c, s, emit), back);
      && Returned(s, y, a, value) && y.circuit.now <= at
  {
    PublishedMoves(c, s, a, at);
    var x := Step(c, s, EmitOp(a, true, true, at));
    ReturnStores(c, x, a, value, at, i);
    StagesReturn(s, x, Step(c, x, ReturnOp(a, value, true, at)), a, value);
  }

  lemma EndCompletes(s: State, y: State, z: State, a: nat, value: J.Value)
    requires a < |s.workers| && Returned(s, y, a, value)
    requires Announced(y, z, a) && GavePermits(y, z, a, Finished(true))
    ensures Completes(s, z, a, value)
  {
  }

  lemma RestCompletes(c: Config, s: State, a: nat, value: J.Value, at: nat, i: nat)
    requires At(s, a, Starting) && Holds(s, a, i) && !s.aborted && !s.storageDown && at >= s.circuit.now
    ensures EnabledRun(c, s, Rest(a, value, at)) && Completes(s, Run(c, s, Rest(a, value, at)), a, value)
  {
    var (emit, back) := (EmitOp(a, true, true, at), ReturnOp(a, value, true, at));
    StartsAndReturns(c, s, a, value, at, i);
    var y := Step(c, Step(c, s, emit), back);
    PublishedMoves(c, y, a, at);
    EndCompletes(s, y, Step(c, y, emit), a, value);
    RunThree(c, s, emit, back, emit);
  }

  /** The agent ran through and gave back what it took. */
  ghost predicate RanThrough(s: State, t: State, a: nat, value: J.Value)
    requires a < |s.workers|
  {
    && Stored(s, t, a, value)
    && t.workers == s.workers[a := s.workers[a].(pc := Finished(true), results := s.workers[a].results + 1)]
    && t.runActive == s.runActive && t.serviceActive == s.serviceActive
    && t.events == s.events + [Event(a, Kind.Started), Event(a, Completed)]
  }

  lemma TakesAndGives(c: Config, s: State, y: State, t: State, a: nat, value: J.Value, i: nat)
    requires MayEnter(c, s, a) && ReadyToStart(c, s, y, a, i) && Completes(y, t, a, value)
    ensures RanThrough(s, t, a, value)
  {
  }

  /** An agent that nobody disturbs runs through: it starts, its result is journaled durably before it is
      published as completed, and every permit it took is given back. */
  lemma UndisturbedAgentCompletes(c: Config, s: State, a: nat, value: J.Value, at: nat)
    requires MayEnter(c, s, a) && at >= s.circuit.now
    ensures EnabledRun(c, s, Entry(c, a, at))
    ensures var y := Run(c, s, Entry(c, a, at));
      EnabledRun(c, y, Rest(a, value, at)) && RanThrough(s, Run(c, y, Rest(a, value, at)), a, value)
  {
    if c.twoLevel {
      TwoLevelsReady(c, s, a, at);
    } else {
      OneLevelReady(c, s, a, at);
    }
    var y := Run(c, s, Entry(c, a, at));
    RestCompletes(c, y, a, value, at, |s.circuit.leases|);
    TakesAndGives(c, s, y, Run(c, y, Rest(a, value, at)), a, value, |s.circuit.leases|);
  }

  /** An agent wakes up to its next attempt, if there is one. */
  lemma WakesUp(c: Config, s: State, a: nat)
    requires At(s, a, BackingOff) && !s.aborted
    ensures Enabled(c, s, WakeOp(a))
    ensures var w := s.workers[a];
      Step(c, s, WakeOp(a)) == s.(workers := s.workers[a := w.(attempt := w.attempt + 1,
        pc := if w.attempt < c.maxAttempts then AtGate else FellThrough)])
  {
  }

  /** A retry that was taken comes back: the failed attempt is announced, its permits are given back for the
      back-off, and the agent waits at the gate for its next attempt. */
  lemma RetryComesBack(c: Config, s: State, a: nat, at: nat)
    requires At(s, a, Retrying) && !s.aborted && !s.storageDown && at >= s.circuit.now
    requires s.workers[a].attempt < c.maxAttempts
    ensures EnabledRun(c, s, [EmitOp(a, true, true, at), WakeOp(a)])
    ensures var (w, t) := (s.workers[a], Run(c, s, [EmitOp(a, true, true, at), WakeOp(a)]));
      && t.workers == s.workers[a := w.(runHeld := false, serviceHeld := false, pc := AtGate, attempt := w.attempt + 1)]
      && t.runActive == s.runActive - One(w.runHeld) && t.serviceActive == s.serviceActive - One(w.serviceHeld)
      && t.events == s.events + [Event(a, RetryScheduled)] && t.journal == s.journal
  {
    PublishedMoves(c, s, a, at);
    WakesUp(c, Step(c, s, EmitOp(a, true, true, at)), a);
    RunTwo(c, s, EmitOp(a, true, true, at), WakeOp(a));
  }

  /** Preparation decides where an agent goes: to the gate, to a final failure, or out. */
  lemma PreparationDisposition(c: Config, s: State, op: Op)
    requires op.PrepareOp? && Enabled(c, s, op)
    ensures var (w, t) := (s.workers[op.a], Step(c, s, op));
      if s.aborted then t == s.(workers := s.workers[op.a := w.(pc := Cancelling)])
      else match op.outcome
        case Ready => t == s.(workers := s.workers[op.a := w.(pc := AtGate)])
        case Broken => t == s.(workers := s.workers[op.a := w.(pc := Finished(true))])
        case Refused =>
          && |t.workers| == |s.workers| && t.workers[op.a].results == w.results + 1
          && t.workers[op.a].pc == (if op.persisted then Reporting(FinalFailure) else Finished(true))
          && t.journal == J.Apply(s.journal, J.ResultOp(w.slot, w.key, w.agent,
               J.FailurePlaceholder(op.placeholder), Some(false), true))
  {
  }

  /** A call that is not replayed becomes an agent of its own, once its start is on disk; a replayed call does
      not. */
  lemma AdmissionDisposition(c: Config, s: State, op: Op)
    requires op.AdmitOp? && Enabled(c, s, op)
    ensures var (t, d) := (Step(c, s, op), J.Admit(s.journal, op.call).1);
      && t.journal == J.Admit(s.journal, op.call).0 && t.durable == (if op.persisted then t.journal else s.durable)
      && t.circuit == s.circuit && t.events == s.events && t.aborted == s.aborted && t.storageDown == s.storageDown
      && t.runActive == s.runActive && t.serviceActive == s.serviceActive && t.fences == s.fences
      && if d.Miss? && op.persisted then
           |t.workers| == |s.workers| + 1 && t.workers[..|s.workers|] == s.workers &&
           t.workers[|s.workers|] == Worker(d.callIndex, d.key, d.agent, op.isolated, Preparing, 1, 0, 0, None, false,
             false, [])
         else t.workers == s.workers
  {
  }

  /** A run begins with nothing started, nothing held and nothing stopped, so its first agent, once prepared, may
      enter. */
  lemma FirstAgentMayEnter(c: Config, journal: J.Run, call: J.Call, isolated: bool, at: nat)
    requires c.runLimit > 0 && c.serviceLimit > 0 && J.Admit(journal, call).1.Miss?
    ensures var (admit, prepare) := (AdmitOp(call, isolated, true),
      PrepareOp(0, Preparation.Ready, J.Text(""), true, at));
      EnabledRun(c, Initial(journal), [admit, prepare]) &&
      var t := Run(c, Initial(journal), [admit, prepare]);
      MayEnter(c, t, 0) && t.circuit.now == 0 && t.retries == 0 && t.events == [] && t.fences == [] &&
      t.unconfirmed == {}
  {
    var (admit, prepare) := (AdmitOp(call, isolated, true), PrepareOp(0, Preparation.Ready, J.Text(""), true, at));
    RunTwo(c, Initial(journal), admit, prepare);
  }

  lemma StaysAborted(c: Config, s: State, op: Op)
    requires Enabled(c, s, op) && s.aborted
    ensures Step(c, s, op).aborted
  {
    if Mover(op).Some? {
      StepMoves(c, s, op);
    }
  }

  /** An abort takes hold at once and for good: from then on no call is admitted, nobody enters, and nobody
      wakes up for another attempt. */
  lemma {:induction false} AbortTakesHold(c: Config, s: State, ops: seq<Op>)
    requires EnabledRun(c, s, ops) && (s.aborted || (ops != [] && ops[0].AbortOp?))
    ensures Run(c, s, ops).aborted
    ensures forall op: Op :: op.AdmitOp? || op.EnterOp? || op.WakeOp? ==> !Enabled(c, Run(c, s, ops), op)
    decreases |ops|
  {
    if ops != [] {
      if s.aborted {
        StaysAborted(c, s, ops[0]);
      }
      AbortTakesHold(c, Step(c, s, ops[0]), ops[1..]);
    }
  }
}

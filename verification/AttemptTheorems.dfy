/**
  What every run of the attempt loop guarantees, from any journal snapshot and under every interleaving
  of its agents, aborts, publication failures and journal failures.
 */
module AttemptTheorems {
  import opened Common
  import opened AttemptModel
  import opened AttemptFlow
  import opened AttemptLeases
  import opened AttemptSafety
  import P = AttemptPermits
  import L = AttemptLedger
  import C = CircuitSpec
  import J = JournalModel
  import R = JournalResume
  import U = JournalReuse
  import Y = JournalReplay

  ghost predicate Controlled(c: Config, s: State) {
    AllFit(c, s) && LeaseInv(s) && C.Inv(c.policy, s.circuit)
  }

  lemma StepControlled(c: Config, s: State, op: Op)
    requires ValidConfig(c) && Enabled(c, s, op) && Controlled(c, s)
    ensures Controlled(c, Step(c, s, op))
  {
    LeaseInvLinks(s);
    StepFits(c, s, op);
    StepKeepsLeases(c, s, op);
  }

  lemma InitialControlled(c: Config, begun: J.Run)
    requires ValidConfig(c)
    ensures Controlled(c, Initial(begun))
  {
    C.InitialInv(c.policy);
  }

  lemma {:induction false} RunControlled(c: Config, s: State, ops: seq<Op>)
    requires ValidConfig(c) && EnabledRun(c, s, ops) && Controlled(c, s)
    ensures Controlled(c, Run(c, s, ops))
    decreases |ops|
  {
    if ops != [] {
      StepControlled(c, s, ops[0]);
      RunControlled(c, Step(c, s, ops[0]), ops[1..]);
    }
  }

  ghost predicate Reachable(c: Config, begun: J.Run, s: State) {
    exists ops: seq<Op> :: EnabledRun(c, Initial(begun), ops) && Run(c, Initial(begun), ops) == s
  }

  /** Where a run may begin: any shaped snapshot, or none. */
  ghost predicate Begun(begun: J.Run, p: Option<J.Snapshot>, hash: J.Text, mode: J.Mode, gaps: bool) {
    begun == J.BeginRun(p, hash, mode, gaps) && (p.Some? ==> R.Shaped(p.value.records))
  }

  lemma ReachableControlled(c: Config, begun: J.Run, s: State)
    requires ValidConfig(c) && Reachable(c, begun, s)
    ensures Controlled(c, s)
  {
    var ops: seq<Op> :| EnabledRun(c, Initial(begun), ops) && Run(c, Initial(begun), ops) == s;
    InitialControlled(c, begun);
    RunControlled(c, Initial(begun), ops);
  }

  // ---------------------------------------------------------------------------------------------
  // Capacity
  // ---------------------------------------------------------------------------------------------

  /** An agent waiting for the circuit or backing off holds no permit and no lease, a finished one holds
      nothing, and the loop never falls through. */
  lemma WaitingHoldsNothing(c: Config, begun: J.Run, s: State, a: nat)
    requires ValidConfig(c) && Reachable(c, begun, s) && a < |s.workers|
    ensures var w := s.workers[a];
      && (w.pc.AtGate? || w.pc.BackingOff? || w.pc.Cancelling? || w.pc.Finished? ==>
        w.lease.None? && !w.runHeld &&
        !w.serviceHeld)
      && (w.pc.Executing? ==> w.runHeld && w.serviceHeld == c.twoLevel && w.lease.Some?)
      && !w.pc.FellThrough? && 1 <= w.attempt <= c.maxAttempts && w.results <= 1
  {
    ReachableControlled(c, begun, s);
    assert Fits(c, s.workers[a]);
  }

  lemma {:induction false} RunBounded(c: Config, s: State, ops: seq<Op>)
    requires EnabledRun(c, s, ops) && Bounded(c, s)
    ensures Bounded(c, Run(c, s, ops))
    decreases |ops|
  {
    if ops != [] {
      StepBounded(c, s, ops[0]);
      RunBounded(c, Step(c, s, ops[0]), ops[1..]);
    }
  }

  /** Retries stay within the run's budget, so all agents together make at most that many attempts
      beyond their first; permits stay within both limits. */
  lemma RetriesAreBounded(c: Config, begun: J.Run, s: State)
    requires ValidConfig(c) && Reachable(c, begun, s)
    ensures s.retries <= c.maxRetries && Attempts(s.workers) <= |s.workers| + c.maxRetries
    ensures s.runActive <= c.runLimit && s.serviceActive <= c.serviceLimit
  {
    var ops: seq<Op> :| EnabledRun(c, Initial(begun), ops) && Run(c, Initial(begun), ops) == s;
    RunBounded(c, Initial(begun), ops);
    ReachableControlled(c, begun, s);
    forall a | 0 <= a < |s.workers| ensures AttemptsFit(c, s.workers[a]) {
      assert Fits(c, s.workers[a]);
    }
    AttemptsWithinReserved(c, s.workers);
  }

  lemma GrantIsNew(c: Config, s: State, op: Op)
    requires Controlled(c, s) && Enabled(c, s, op)
    ensures op.GrantOp? ==> if s.workers[op.a].pc.AwaitingRun? then !s.workers[op.a].runHeld
      else !s.workers[op.a].serviceHeld
  {
    if op.GrantOp? {
      assert Fits(c, s.workers[op.a]);
    }
  }

  lemma {:induction false} RunLeaksNothing(c: Config, s: State, ops: seq<Op>, service: bool)
    requires ValidConfig(c) && EnabledRun(c, s, ops) && Controlled(c, s)
    ensures P.Leaked(Run(c, s, ops), service) == P.Leaked(s, service)
    decreases |ops|
  {
    if ops != [] {
      GrantIsNew(c, s, ops[0]);
      StepControlled(c, s, ops[0]);
      P.StepLeaksNothing(c, s, ops[0], service);
      RunLeaksNothing(c, Step(c, s, ops[0]), ops[1..], service);
    }
  }

  /** Every permit in use is held by one agent or kept by one quarantined execution. */
  lemma PermitsAreConserved(c: Config, begun: J.Run, s: State, service: bool)
    requires ValidConfig(c) && Reachable(c, begun, s)
    ensures P.Active(s, service) == P.Held(s.workers, service) + P.Kept(s.fences, service)
  {
    var ops: seq<Op> :| EnabledRun(c, Initial(begun), ops) && Run(c, Initial(begun), ops) == s;
    InitialControlled(c, begun);
    RunLeaksNothing(c, Initial(begun), ops, service);
  }

  ghost predicate AllFinished(s: State) {
    forall a :: 0 <= a < |s.workers| ==> s.workers[a].pc.Finished?
  }

  /** When all agents are done, the only permits in use belong to quarantined executions, every circuit
      lease is settled, and no half-open probe is outstanding. */
  lemma QuietRunHoldsNothing(c: Config, begun: J.Run, s: State)
    requires ValidConfig(c) && Reachable(c, begun, s) && AllFinished(s)
    ensures s.runActive == P.Kept(s.fences, false) && s.serviceActive == P.Kept(s.fences, true)
    ensures forall i :: 0 <= i < |s.circuit.leases| ==> s.circuit.leases[i].settled
    ensures !s.circuit.halfOpenProbe
  {
    ReachableControlled(c, begun, s);
    forall a | 0 <= a < |s.workers| ensures Fits(c, s.workers[a]) && s.workers[a].lease.None? &&
      !s.workers[a].runHeld && !s.workers[a].serviceHeld {
      assert Fits(c, s.workers[a]);
    }
    P.HeldIsCount(s.workers, false);
    P.HeldIsCount(s.workers, true);
    PermitsAreConserved(c, begun, s, false);
    PermitsAreConserved(c, begun, s, true);
    assert forall i :: C.LiveProbe(s.circuit, i) ==> !s.circuit.leases[i].settled;
  }

  /** An unsettled lease is held by exactly one agent, which is queueing for permits or executing. */
  lemma LeaseHasOneHolder(c: Config, begun: J.Run, s: State, i: nat, a: nat)
    requires ValidConfig(c) && Reachable(c, begun, s) && i < |s.circuit.leases| && a < |s.workers|
    ensures i < |s.owners|
    ensures s.workers[a].lease == Some(i) <==> !s.circuit.leases[i].settled && a == s.owners[i]
    ensures !s.circuit.leases[i].settled ==> s.owners[i] < |s.workers|
    ensures s.workers[a].lease == Some(i) ==>
      s.workers[a].pc.AwaitingRun? || s.workers[a].pc.AwaitingService? || s.workers[a].pc.Starting? ||
        s.workers[a].pc.Executing?
  {
    ReachableControlled(c, begun, s);
    assert Fits(c, s.workers[a]);
  }

  // ---------------------------------------------------------------------------------------------
  // Replay safety
  // ---------------------------------------------------------------------------------------------

  lemma RecordTakesNoRetry(c: Config, s: State, a: nat, value: J.Value, success: bool, next: Pc, persisted: bool,
      at: nat)
    requires a < |s.workers|
    ensures Record(c, s, a, value, success, next, persisted, at).retries == s.retries
  {
    L.UnwindQuiet(c, Store(s, a, value, success, persisted), a, at);
  }

  lemma FailRetries(c: Config, s: State, op: Op)
    requires op.FailOp? && Enabled(c, s, op) && Fail(c, s, op).retries != s.retries
    ensures MayRetry(c, s, s.workers[op.a], op.retryable, ReplaySafety(c, s.workers[op.a], op.provider))
  {
    var u, v := FailRecorded(c, s, op), FailDropped(c, s, op);
    FailRecordedCalm(c, s, op);
    L.UnwindQuiet(c, u, op.a, op.at);
    var outcome := if op.retryable && op.infrastructure then C.Failure else C.Neutral;
    DropLeaseCalm(c, u, op.a, outcome, op.at);
    CalmTwice(s, u, v, op.a);
    RecordTakesNoRetry(c, v, op.a, Placeholder(op.placeholder), false, Reporting(NeedsRecovery), op.persisted, op.at);
    RecordTakesNoRetry(c, v, op.a, Placeholder(op.placeholder), false, Reporting(FinalFailure), op.persisted, op.at);
  }

  lemma UnconfirmedRetries(c: Config, s: State, op: Op)
    requires op.UnconfirmedOp? && Enabled(c, s, op) && Unconfirmed(c, s, op).retries != s.retries
    ensures MayRetry(c, s, s.workers[op.a], true, WriterSafety(ReplaySafety(c, s.workers[op.a], op.provider)))
  {
    var w := s.workers[op.a];
    DropLeaseCalm(c, s, op.a, C.Failure, op.at);
    var t := DropLease(c, s, op.a, C.Failure, op.at).(unconfirmed := s.unconfirmed + {(op.a, w.attempt)});
    var u := t.(fences := t.fences + [Fence(op.a, w.attempt, false, false)]);
    RecordTakesNoRetry(c, u, op.a, Placeholder(op.placeholder), false, Reporting(NeedsRecovery), op.persisted, op.at);
  }

  lemma OthersTakeNoRetry(c: Config, s: State, op: Op)
    requires Enabled(c, s, op) && !op.FailOp? && !op.UnconfirmedOp?
    ensures Step(c, s, op).retries == s.retries
  {
    match op
    case AdmitOp(_, _, _) =>
    case PrepareOp(a, _, text, persisted, at) => RecordTakesNoRetry(c, s, a, Placeholder(text), false,
      Reporting(FinalFailure), persisted, at);
    case EnterOp(a, at) => L.EnterQuiet(c, s, a, at);
    case GrantOp(a, at) => L.GrantQuiet(c, s, a, at);
    case LeaveOp(a, at) => L.UnwindQuiet(c, s, a, at);
    case ProgressOp(_) =>
    case SessionOp(_, _, _) =>
    case ReturnOp(a, value, persisted, at) =>
      var t := DropLease(c, s, a, C.Success, at);
      DropLeaseCalm(c, s, a, C.Success, at);
      L.UnwindQuiet(c, t, a, at);
      RecordTakesNoRetry(c, t, a, value, true, Completing, persisted, at);
    case EmitOp(a, sent, acknowledged, at) => L.PublishedQuiet(c, Publish(s, a, sent, acknowledged), a, acknowledged,
      at);
    case WakeOp(_) =>
    case AbortOp =>
    case FenceSettlesOp(_) =>
  }

  /** A retry is only taken when the provider allows automatic replay, and local effects are either
      impossible or confined to a worktree whose previous writer is known to have stopped. */
  lemma RetriesAreReplaySafe(c: Config, s: State, op: Op)
    requires Enabled(c, s, op) && Step(c, s, op).retries != s.retries
    ensures (op.FailOp? || op.UnconfirmedOp?) && op.provider.automatic && c.automaticRetry
    ensures var w := s.workers[op.a];
      w.attempt < c.maxAttempts && (c.readOnly || (w.worktree && op.FailOp?)) && (op.FailOp? ==> op.retryable)
  {
    if op.FailOp? {
      FailRetries(c, s, op);
    } else if op.UnconfirmedOp? {
      UnconfirmedRetries(c, s, op);
    } else {
      OthersTakeNoRetry(c, s, op);
    }
  }

  // ---------------------------------------------------------------------------------------------
  // Ownership handoff after an abort
  // ---------------------------------------------------------------------------------------------

  lemma {:induction false} RunContained(c: Config, s: State, ops: seq<Op>)
    requires EnabledRun(c, s, ops) && Contained(s)
    ensures Contained(Run(c, s, ops))
    decreases |ops|
  {
    if ops != [] {
      StepContained(c, s, ops[0]);
      RunContained(c, Step(c, s, ops[0]), ops[1..]);
    }
  }

  /** After an abort, an execution whose termination was not confirmed is fenced, or has stopped since,
      or belongs to an agent that was done before the abort. */
  lemma AbortFencesEverything(c: Config, begun: J.Run, s: State, a: nat, k: nat)
    requires Reachable(c, begun, s) && s.aborted && (a, k) in s.unconfirmed
    ensures FencedAt(s.fences, a, k) || (a, k) in s.stopped || (a < |s.workers| && s.workers[a].pc == Finished(true))
  {
    var ops: seq<Op> :| EnabledRun(c, Initial(begun), ops) && Run(c, Initial(begun), ops) == s;
    RunContained(c, Initial(begun), ops);
    assert Accounted(s, a, k);
  }

  // ---------------------------------------------------------------------------------------------
  // Journal before event
  // ---------------------------------------------------------------------------------------------

  ghost predicate Recorded(begun: J.Run, s: State) {
    L.LedgerInv(s) && L.StateReached(begun, s)
  }

  lemma InitialRecorded(begun: J.Run)
    requires begun.slots == []
    ensures Recorded(begun, Initial(begun))
  {
    assert L.ReachedBy(begun, begun, begun, [], 0);
  }

  lemma StepRecorded(c: Config, begun: J.Run, s: State, op: Op)
    requires Enabled(c, s, op) && Controlled(c, s) && Recorded(begun, s)
    ensures Recorded(begun, Step(c, s, op))
  {
    forall a | 0 <= a < |s.workers| ensures L.Unrecorded(s, a) {
      assert Fits(c, s.workers[a]);
    }
    L.StepKeepsLedger(c, s, op);
    L.StepReached(begun, c, s, op);
  }

  lemma {:induction false} RunRecorded(c: Config, begun: J.Run, s: State, ops: seq<Op>)
    requires ValidConfig(c) && EnabledRun(c, s, ops) && Controlled(c, s) && Recorded(begun, s)
    ensures Recorded(begun, Run(c, s, ops))
    decreases |ops|
  {
    if ops != [] {
      StepControlled(c, s, ops[0]);
      StepRecorded(c, begun, s, ops[0]);
      RunRecorded(c, begun, Step(c, s, ops[0]), ops[1..]);
    }
  }

  lemma ReachableRecorded(c: Config, begun: J.Run, s: State)
    requires ValidConfig(c) && Reachable(c, begun, s) && begun.slots == []
    ensures Recorded(begun, s)
  {
    var ops: seq<Op> :| EnabledRun(c, Initial(begun), ops) && Run(c, Initial(begun), ops) == s;
    InitialControlled(c, begun);
    InitialRecorded(begun);
    RunRecorded(c, begun, Initial(begun), ops);
  }

  /** The result of a call in a journal: a success, or a coverage gap. */
  ghost predicate HasResult(records: seq<J.Record>, key: J.Key, agent: J.Agent, gap: bool) {
    exists r :: r in records && r.Result? && r.key == key && r.agent == agent && r.coverageGap == gap &&
      (!gap ==> r.successful == Some(true))
  }

  lemma DurableSound(begun: J.Run, s: State, base: seq<J.Record>)
    requires R.RunInv(begun, base) && L.StateReached(begun, s)
    ensures R.RunInv(s.durable, base)
  {
    var ops: seq<J.Op>, k: nat :| L.ReachedBy(begun, s.journal, s.durable, ops, k);
    R.RunKeepsInv(begun, ops[..k], base);
  }

  lemma OnRecordIsStored(run: J.Run, base: seq<J.Record>, w: Worker, gap: bool)
    requires R.RunInv(run, base) && L.OnRecord(run, w, gap)
    ensures HasResult(run.records, w.key, w.agent, gap)
  {
    var slot := run.slots[w.slot];
    assert slot in run.slots && R.SlotValid(slot);
    assert R.Of(run.records, w.key) == R.SlotRecords(slot);
    var r := slot.fate.record;
    assert R.SlotRecords(slot)[1] == r;
    assert r in R.Of(run.records, w.key);
    R.OfMember(run.records, r);
  }

  /** Whenever the process dies: every completed, finally failed or recovery_required event that was
      published has its result in the journal on disk. */
  lemma JournalBeforeEvent(c: Config, begun: J.Run, p: Option<J.Snapshot>, hash: J.Text, mode: J.Mode, gaps: bool,
      s: State, i: nat)
    requires ValidConfig(c) && Begun(begun, p, hash, mode, gaps) && Reachable(c, begun, s) && i < |s.events|
    ensures var e := s.events[i]; e.worker < |s.workers|
    ensures var e := s.events[i]; var w := s.workers[e.worker]; var left := J.SnapshotOf(s.durable);
      && (e.kind.Completed? ==> HasResult(left.records, w.key, w.agent, false))
      && (e.kind.Failed? || e.kind.RecoveryRequired? ==> HasResult(left.records, w.key, w.agent, true))
  {
    var base := R.BeginHasInv(p, hash, mode, gaps);
    ReachableRecorded(c, begun, s);
    DurableSound(begun, s, base);
    var e := s.events[i];
    assert L.Backed(s, e);
    if e.kind.Completed? {
      OnRecordIsStored(s.durable, base, s.workers[e.worker], false);
    }
    if e.kind.Failed? || e.kind.RecoveryRequired? {
      OnRecordIsStored(s.durable, base, s.workers[e.worker], true);
    }
  }

  lemma HeldIsReusable(records: seq<J.Record>, key: J.Key, agent: J.Agent, gap: bool)
    requires HasResult(records, key, agent, gap)
    ensures U.ReusableAt(records, key, true)
  {
    var r :| r in records && r.Result? && r.key == key && r.agent == agent && r.coverageGap == gap &&
      (!gap ==> r.successful == Some(true));
    R.OfMember(records, r);
    assert r in R.Of(records, key) && J.ReusableRecord(r, true);
  }

  /** Automatic recovery never dispatches a journaled call again: in the next generation of the same
      source, a call whose key ended in such an event is replayed from the journal, at whatever point
      the process died. */
  lemma RecoveryReplays(c: Config, begun: J.Run, p: Option<J.Snapshot>, hash: J.Text, mode: J.Mode, gaps: bool,
      s: State, i: nat,
      again: seq<J.Op>, j: nat)
    requires ValidConfig(c) && Begun(begun, p, hash, mode, gaps) && Reachable(c, begun, s)
    requires i < |s.events| && s.events[i].worker < |s.workers|
    requires s.events[i].kind.Completed? || s.events[i].kind.Failed? || s.events[i].kind.RecoveryRequired?
    ensures var left := J.SnapshotOf(s.durable);
      var next := J.ApplyAll(J.BeginRun(Some(left), left.sourceHash, J.ExactSourceSparse, true), again);
      j < |next.slots| && next.slots[j].key == s.workers[s.events[i].worker].key ==> next.slots[j].fate.Reused?
  {
    var left, w := J.SnapshotOf(s.durable), s.workers[s.events[i].worker];
    ReachableRecorded(c, begun, s);
    assert L.Backed(s, s.events[i]);
    assert s.durable.slots[w.slot].key == w.key;
    JournalBeforeEvent(c, begun, p, hash, mode, gaps, s, i);
    HeldIsReusable(left.records, w.key, w.agent, !s.events[i].kind.Completed?);
    var ops: seq<J.Op>, k: nat :| L.ReachedBy(begun, s.journal, s.durable, ops, k);
    Y.VisitedCallsReplay(p, hash, mode, gaps, ops[..k], again, true, j);
  }

  /** Whenever the process dies, no coverage gap on disk has a provider session beside it. */
  lemma GapsHaveNoSession(c: Config, begun: J.Run, p: J.Snapshot, hash: J.Text, mode: J.Mode, gaps: bool, s: State)
    requires ValidConfig(c) && Begun(begun, Some(p), hash, mode, gaps) && Reachable(c, begun, s)
    requires U.GapsSessionless(p.records, p.sessions)
    ensures var left := J.SnapshotOf(s.durable); U.GapsSessionless(left.records, left.sessions)
  {
    ReachableRecorded(c, begun, s);
    var ops: seq<J.Op>, k: nat :| L.ReachedBy(begun, s.journal, s.durable, ops, k);
    U.CoverageGapsHaveNoSession(p, hash, mode, gaps, ops[..k]);
  }

  lemma {:induction false} RunOnce(c: Config, s: State, ops: seq<Op>)
    requires EnabledRun(c, s, ops) && Once(s)
    ensures Once(Run(c, s, ops))
    decreases |ops|
  {
    if ops != [] {
      StepOnce(c, s, ops[0]);
      RunOnce(c, Step(c, s, ops[0]), ops[1..]);
    }
  }

  /** No agent is reported as ended twice. */
  lemma OneTerminalEvent(c: Config, begun: J.Run, s: State, i: nat, j: nat)
    requires Reachable(c, begun, s) && i < j < |s.events| && Terminal(s.events[i]) && Terminal(s.events[j])
    ensures s.events[i].worker != s.events[j].worker
  {
    var ops: seq<Op> :| EnabledRun(c, Initial(begun), ops) && Run(c, Initial(begun), ops) == s;
    RunOnce(c, Initial(begun), ops);
  }
}

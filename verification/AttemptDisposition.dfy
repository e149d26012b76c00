/**
  What becomes of an attempt, said by the operation's own fields and the configuration: when a failure is
  retried, when it needs recovery and when it is final, what is journaled for it and what it tells the circuit.
 */
module AttemptDisposition {
  import opened Common
  import opened AttemptModel
  import L = AttemptLedger
  import T = AttemptTheorems
  import C = CircuitSpec
  import J = JournalModel

  /** Where an attempt goes that is left by an exception. */
  function Thrown(s: State): Pc {
    if s.aborted then Cancelling else Finished(true)
  }

  /** One result was journaled for agent `a`; it publishes `next`, or fails if the journal did not persist. */
  ghost predicate Disposed(s: State, t: State, a: nat, value: J.Value, success: bool, next: Pc, persisted: bool)
    requires a < |s.workers| == |t.workers|
  {
    var (v, w) := (s.workers[a], t.workers[a]);
    && w.pc == (if persisted then next else Thrown(s)) && w.results == v.results + 1 && w.reserved == v.reserved
    && t.retries == s.retries
    && t.journal == J.Apply(s.journal, J.ResultOp(v.slot, v.key, v.agent, value, Some(success), !success))
    && t.durable == (if persisted then t.journal else s.durable)
  }

  /** One retry was taken and the provider session abandoned. */
  ghost predicate Retried(s: State, t: State, a: nat, persisted: bool)
    requires a < |s.workers| == |t.workers|
  {
    var (v, w) := (s.workers[a], t.workers[a]);
    && w.pc == (if persisted then Retrying else Thrown(s)) && w.results == v.results && w.reserved == v.reserved + 1
    && t.retries == s.retries + 1
    && t.journal == J.Apply(s.journal, J.DiscardOp(v.slot, v.key, v.agent))
    && t.durable == (if persisted then t.journal else s.durable)
  }

  lemma RecordDisposes(c: Config, s: State, a: nat, value: J.Value, success: bool, next: Pc, persisted: bool, at: nat)
    requires a < |s.workers|
    ensures Disposed(s, Record(c, s, a, value, success, next, persisted, at), a, value, success, next, persisted)
  {
    L.UnwindQuiet(c, Store(s, a, value, success, persisted), a, at);
  }

  lemma ReserveRetries(c: Config, s: State, a: nat, ambiguous: bool, persisted: bool, at: nat)
    requires a < |s.workers|
    ensures Retried(s, Reserve(c, s, a, ambiguous, persisted, at), a, persisted)
  {
    L.UnwindQuiet(c, TakeRetry(s, a, ambiguous, persisted), a, at);
  }

  /** The run and the agent have attempts left, and retries are switched on. */
  predicate AttemptsLeft(c: Config, s: State, w: Worker) {
    w.attempt < c.maxAttempts && s.retries < c.maxRetries && c.automaticRetry
  }

  /** What the step starts from once the session of a failure is journaled. */
  function SessionJournaled(s: State, op: Op): State
    requires op.FailOp? && op.a < |s.workers|
  {
    var w := s.workers[op.a];
    if op.session.None? then s
    else
      var j := J.Apply(s.journal, J.SessionOp(w.slot, w.key, w.agent, op.session.value));
      s.(journal := j, durable := if op.sessionPersisted then j else s.durable)
  }

  ghost predicate SameButLease(s: State, t: State, a: nat)
    requires a < |s.workers|
  {
    && |t.workers| == |s.workers| && t.workers == s.workers[a := s.workers[a].(lease := t.workers[a].lease)]
    && t.journal == s.journal && t.durable == s.durable && t.retries == s.retries && t.aborted == s.aborted
  }

  lemma DropLeaseSame(c: Config, s: State, a: nat, outcome: C.Outcome, at: nat)
    requires a < |s.workers|
    ensures SameButLease(s, DropLease(c, s, a, outcome, at), a)
  {
  }

  lemma SameTwice(s: State, t: State, u: State, a: nat)
    requires a < |s.workers| && SameButLease(s, t, a) && SameButLease(t, u, a)
    ensures SameButLease(s, u, a)
  {
  }

  lemma FailRecordedIs(c: Config, s: State, op: Op)
    requires op.FailOp? && op.a < |s.workers|
    ensures SameButLease(SessionJournaled(s, op), FailRecorded(c, s, op), op.a)
  {
    if op.returned {
      DropLeaseSame(c, s, op.a, C.Success, op.at);
    }
  }

  lemma FailDroppedIs(c: Config, s: State, op: Op)
    requires op.FailOp? && op.a < |s.workers|
    ensures SameButLease(SessionJournaled(s, op), FailDropped(c, s, op), op.a)
  {
    FailRecordedIs(c, s, op);
    var outcome := if op.retryable && op.infrastructure then C.Failure else C.Neutral;
    DropLeaseSame(c, FailRecorded(c, s, op), op.a, outcome, op.at);
    SameTwice(SessionJournaled(s, op), FailRecorded(c, s, op), FailDropped(c, s, op), op.a);
  }

  lemma DisposedAlike(s: State, u: State, t: State, a: nat, value: J.Value, success: bool, next: Pc, persisted: bool)
    requires a < |s.workers| && SameButLease(s, u, a) && |t.workers| == |s.workers|
    ensures Disposed(u, t, a, value, success, next, persisted) == Disposed(s, t, a, value, success, next, persisted)
    ensures Retried(u, t, a, persisted) == Retried(s, t, a, persisted)
  {
  }

  lemma SettledDisposes(c: Config, s: State, a: nat, retryable: bool, provider: Assessment, text: J.Text,
      persisted: bool, at: nat)
    requires a < |s.workers|
    ensures var w := s.workers[a];
      var t := FailSettled(c, s, a, retryable, ReplaySafety(c, w, provider), text, persisted, at);
      var value := J.FailurePlaceholder(text);
      var safe := provider.automatic && (c.readOnly || w.worktree);
      |t.workers| == |s.workers| &&
      if retryable && safe && AttemptsLeft(c, s, w) then Retried(s, t, a, persisted)
      else if retryable && !safe then Disposed(s, t, a, value, false, Reporting(NeedsRecovery), persisted)
      else Disposed(s, t, a, value, false, Reporting(FinalFailure), persisted)
  {
    RecordDisposes(c, s, a, Placeholder(text), false, Reporting(NeedsRecovery), persisted, at);
    RecordDisposes(c, s, a, Placeholder(text), false, Reporting(FinalFailure), persisted, at);
    ReserveRetries(c, s, a, false, persisted, at);
  }

  lemma UnwindFences(c: Config, s: State, a: nat, at: nat)
    requires a < |s.workers|
    ensures Unwind(c, s, a, at).fences == s.fences && Unwind(c, s, a, at).workers[a].ambiguous == s.workers[a].ambiguous
    ensures Unwind(c, s, a, at).unconfirmed == s.unconfirmed
  {
    L.UnwindQuiet(c, s, a, at);
  }

  /** The failure is not judged: the run is aborted, or the session could not be persisted. */
  predicate CutShort(s: State, op: Op)
    requires op.FailOp?
  {
    s.aborted || (op.session.Some? && !op.sessionPersisted)
  }

  lemma CutShortThrows(c: Config, s: State, op: Op)
    requires op.FailOp? && op.a < |s.workers| && CutShort(s, op)
    ensures var t := Fail(c, s, op);
      && |t.workers| == |s.workers| && t.workers[op.a].pc == Thrown(s)
      && t.workers[op.a].results == s.workers[op.a].results && t.workers[op.a].reserved == s.workers[op.a].reserved
      && t.retries == s.retries && t.journal == SessionJournaled(s, op).journal
  {
    FailRecordedIs(c, s, op);
    L.UnwindQuiet(c, FailRecorded(c, s, op), op.a, op.at);
  }

  /** How a failure that is judged ends, seen from `s`. */
  ghost predicate JudgedTo(c: Config, s: State, w: Worker, t: State, op: Op)
    requires op.FailOp? && op.a < |s.workers| == |t.workers|
  {
    var value := J.FailurePlaceholder(op.placeholder);
    var safe := op.provider.automatic && (c.readOnly || w.worktree);
    if op.retryable && safe && AttemptsLeft(c, s, w) then Retried(s, t, op.a, op.persisted)
    else if op.retryable && !safe then Disposed(s, t, op.a, value, false, Reporting(NeedsRecovery), op.persisted)
    else Disposed(s, t, op.a, value, false, Reporting(FinalFailure), op.persisted)
  }

  lemma JudgedAlike(c: Config, s: State, u: State, w: Worker, v: Worker, t: State, op: Op)
    requires op.FailOp? && op.a < |s.workers| == |t.workers| && SameButLease(s, u, op.a)
    requires v.worktree == w.worktree && v.attempt == w.attempt && JudgedTo(c, u, v, t, op)
    ensures JudgedTo(c, s, w, t, op)
  {
    var value := J.FailurePlaceholder(op.placeholder);
    DisposedAlike(s, u, t, op.a, value, false, Reporting(NeedsRecovery), op.persisted);
    DisposedAlike(s, u, t, op.a, value, false, Reporting(FinalFailure), op.persisted);
  }

  lemma FailureIsJudged(c: Config, s: State, op: Op)
    requires op.FailOp? && op.a < |s.workers| && !CutShort(s, op)
    ensures var t := Fail(c, s, op);
      |t.workers| == |s.workers| && JudgedTo(c, SessionJournaled(s, op), s.workers[op.a], t, op)
  {
    var u, v := SessionJournaled(s, op), FailDropped(c, s, op);
    FailDroppedIs(c, s, op);
    assert ReplaySafety(c, s.workers[op.a], op.provider) == ReplaySafety(c, v.workers[op.a], op.provider);
    SettledDisposes(c, v, op.a, op.retryable, op.provider, op.placeholder, op.persisted, op.at);
    assert JudgedTo(c, v, v.workers[op.a], Fail(c, s, op), op);
    JudgedAlike(c, u, v, s.workers[op.a], v.workers[op.a], Fail(c, s, op), op);
  }

  /** A provider failure is retried exactly when it is retryable, the provider allows automatic replay, the run
      is read-only or the agent works in a worktree, and attempts and retries are left. A retryable failure that
      may not be replayed needs recovery; every other one is final. An abort, or a session that could not be
      persisted, journals no result and takes no retry. */
  lemma FailureDisposition(c: Config, s: State, op: Op)
    requires op.FailOp? && Enabled(c, s, op)
    ensures var (u, t) := (SessionJournaled(s, op), Step(c, s, op));
      var (v, w) := (s.workers[op.a], t.workers[op.a]);
      var value := J.FailurePlaceholder(op.placeholder);
      var safe := op.provider.automatic && (c.readOnly || v.worktree);
      |t.workers| == |s.workers| &&
      if CutShort(s, op) then
        && w.pc == Thrown(s) && w.results == v.results && w.reserved == v.reserved
        && t.retries == s.retries && t.journal == u.journal
      else if op.retryable && safe && AttemptsLeft(c, s, v) then Retried(u, t, op.a, op.persisted)
      else if op.retryable && !safe then Disposed(u, t, op.a, value, false, Reporting(NeedsRecovery), op.persisted)
      else Disposed(u, t, op.a, value, false, Reporting(FinalFailure), op.persisted)
  {
    if CutShort(s, op) {
      CutShortThrows(c, s, op);
    } else {
      FailureIsJudged(c, s, op);
    }
  }

  /** What an unconfirmed termination has done once the circuit knows of it. */
  function Suspected(c: Config, s: State, op: Op): (t: State)
    requires op.UnconfirmedOp? && op.a < |s.workers|
    ensures |t.workers| == |s.workers|
  {
    DropLease(c, s, op.a, C.Failure, op.at).(unconfirmed := s.unconfirmed + {(op.a, s.workers[op.a].attempt)})
  }

  lemma SuspectedIs(c: Config, s: State, op: Op)
    requires op.UnconfirmedOp? && op.a < |s.workers|
    ensures var t := Suspected(c, s, op);
      SameButLease(s, t, op.a) && t.fences == s.fences && t.runActive == s.runActive &&
      t.serviceActive == s.serviceActive
  {
    DropLeaseSame(c, s, op.a, C.Failure, op.at);
  }

  /** An execution that may be replayed although its old writer may be alive. */
  predicate HarmlessWriter(c: Config, op: Op)
    requires op.UnconfirmedOp?
  {
    c.readOnly && op.provider.automatic && !op.provider.worktreeRisk
  }

  lemma ParkedAfterAbort(c: Config, s: State, op: Op)
    requires op.UnconfirmedOp? && op.a < |s.workers| && s.aborted
    ensures var t := Unconfirmed(c, s, op);
      var (v, w) := (s.workers[op.a], t.workers[op.a]);
      && |t.workers| == |s.workers| && t.unconfirmed == s.unconfirmed + {(op.a, v.attempt)}
      && w == v.(lease := w.lease, runHeld := false, serviceHeld := false, pc := Cancelling)
      && t.fences == s.fences + [Fence(op.a, v.attempt, v.runHeld, v.serviceHeld)]
      && t.journal == s.journal && t.retries == s.retries
      && t.runActive == s.runActive && t.serviceActive == s.serviceActive
  {
    SuspectedIs(c, s, op);
  }

  lemma HarmlessIsRetried(c: Config, s: State, op: Op)
    requires op.UnconfirmedOp? && op.a < |s.workers| && !s.aborted
    requires HarmlessWriter(c, op) && AttemptsLeft(c, s, s.workers[op.a])
    ensures var t := Unconfirmed(c, s, op); var v := s.workers[op.a];
      && |t.workers| == |s.workers| && t.unconfirmed == s.unconfirmed + {(op.a, v.attempt)}
      && Retried(s, t, op.a, op.persisted) && t.fences == s.fences
      && t.workers[op.a].ambiguous == v.ambiguous + [v.attempt]
  {
    var u, a := Suspected(c, s, op), op.a;
    SuspectedIs(c, s, op);
    assert Unconfirmed(c, s, op) == Reserve(c, u, a, true, op.persisted, op.at);
    ReserveRetries(c, u, a, true, op.persisted, op.at);
    UnwindFences(c, TakeRetry(u, a, true, op.persisted), a, op.at);
    DisposedAlike(s, u, Unconfirmed(c, s, op), a, J.NullValue, false, Retrying, op.persisted);
  }

  lemma RiskyIsFenced(c: Config, s: State, op: Op)
    requires op.UnconfirmedOp? && op.a < |s.workers| && !s.aborted
    requires !(HarmlessWriter(c, op) && AttemptsLeft(c, s, s.workers[op.a]))
    ensures var t := Unconfirmed(c, s, op); var v := s.workers[op.a];
      && |t.workers| == |s.workers| && t.unconfirmed == s.unconfirmed + {(op.a, v.attempt)}
      && Disposed(s, t, op.a, J.FailurePlaceholder(op.placeholder), false, Reporting(NeedsRecovery), op.persisted)
      && t.fences == s.fences + [Fence(op.a, v.attempt, false, false)]
  {
    var u, a, v := Suspected(c, s, op), op.a, s.workers[op.a];
    var value := Placeholder(op.placeholder);
    SuspectedIs(c, s, op);
    var f := u.(fences := u.fences + [Fence(a, v.attempt, false, false)]);
    assert Unconfirmed(c, s, op) ==
      Record(c, f, a, value, false, Reporting(NeedsRecovery), op.persisted, op.at);
    RecordDisposes(c, f, a, value, false, Reporting(NeedsRecovery), op.persisted, op.at);
    UnwindFences(c, Store(f, a, value, false, op.persisted), a, op.at);
    DisposedAlike(s, f, Unconfirmed(c, s, op), a, value, false, Reporting(NeedsRecovery), op.persisted);
  }

  /** An attempt whose termination was not confirmed is retried exactly in a read-only run, when the provider
      allows automatic replay without a writer at risk, and attempts and retries are left; otherwise it needs
      recovery behind a fence. After an abort its permits stay with the fence and nothing is journaled. */
  lemma UnconfirmedDisposition(c: Config, s: State, op: Op)
    requires op.UnconfirmedOp? && Enabled(c, s, op)
    ensures var t := Step(c, s, op);
      var (v, w) := (s.workers[op.a], t.workers[op.a]);
      var safe := c.readOnly && op.provider.automatic && !op.provider.worktreeRisk;
      |t.workers| == |s.workers| && t.unconfirmed == s.unconfirmed + {(op.a, v.attempt)} &&
      if s.aborted then
        && w == v.(lease := w.lease, runHeld := false, serviceHeld := false, pc := Cancelling)
        && t.fences == s.fences + [Fence(op.a, v.attempt, v.runHeld, v.serviceHeld)]
        && t.journal == s.journal && t.retries == s.retries
        && t.runActive == s.runActive && t.serviceActive == s.serviceActive
      else if safe && AttemptsLeft(c, s, v) then
        Retried(s, t, op.a, op.persisted) && t.fences == s.fences && w.ambiguous == v.ambiguous + [v.attempt]
      else
        && Disposed(s, t, op.a, J.FailurePlaceholder(op.placeholder), false, Reporting(NeedsRecovery), op.persisted)
        && t.fences == s.fences + [Fence(op.a, v.attempt, false, false)]
  {
    if s.aborted {
      ParkedAfterAbort(c, s, op);
    } else if HarmlessWriter(c, op) && AttemptsLeft(c, s, s.workers[op.a]) {
      HarmlessIsRetried(c, s, op);
    } else {
      RiskyIsFenced(c, s, op);
    }
  }

  /** Retries are taken by these two disposals and by nothing else. */
  lemma RetryIff(c: Config, s: State, op: Op)
    requires Enabled(c, s, op)
    ensures Step(c, s, op).retries == s.retries + 1 || Step(c, s, op).retries == s.retries
    ensures Step(c, s, op).retries == s.retries + 1 <==>
      && (op.FailOp? || op.UnconfirmedOp?) && !s.aborted && AttemptsLeft(c, s, s.workers[op.a])
      && op.provider.automatic
      && (op.FailOp? ==> op.retryable && (c.readOnly || s.workers[op.a].worktree) && !CutShort(s, op))
      && (op.UnconfirmedOp? ==> c.readOnly && !op.provider.worktreeRisk)
  {
    if op.FailOp? {
      FailureDisposition(c, s, op);
    } else if op.UnconfirmedOp? {
      UnconfirmedDisposition(c, s, op);
    } else {
      T.OthersTakeNoRetry(c, s, op);
    }
  }

  // ---------------------------------------------------------------------------------------------
  // What the circuit learns
  // ---------------------------------------------------------------------------------------------

  lemma DroppedOnce(c: Config, s: State, a: nat, outcome: C.Outcome, at: nat)
    requires a < |s.workers| && (s.workers[a].lease.Some? ==> s.workers[a].lease.value < |s.circuit.leases|)
    ensures var t := DropLease(c, s, a, outcome, at);
      && t.workers[a].lease.None? && (s.workers[a].lease.None? ==> t.circuit == s.circuit)
      && (s.workers[a].lease.Some? ==>
            t.circuit == C.Settle(c.policy, s.circuit, s.workers[a].lease.value, outcome, at))
  {
  }

  /** After the lease is settled nothing that follows in the attempt touches the circuit. */
  lemma NothingMoreToSettle(c: Config, s: State, a: nat, at: nat)
    requires a < |s.workers| && s.workers[a].lease.None?
    ensures Unwind(c, s, a, at).circuit == s.circuit
  {
  }

  lemma RecordKeepsCircuit(c: Config, s: State, a: nat, value: J.Value, success: bool, next: Pc, persisted: bool,
      at: nat)
    requires a < |s.workers| && s.workers[a].lease.None?
    ensures Record(c, s, a, value, success, next, persisted, at).circuit == s.circuit
  {
    NothingMoreToSettle(c, Store(s, a, value, success, persisted), a, at);
  }

  lemma ReserveKeepsCircuit(c: Config, s: State, a: nat, ambiguous: bool, persisted: bool, at: nat)
    requires a < |s.workers| && s.workers[a].lease.None?
    ensures Reserve(c, s, a, ambiguous, persisted, at).circuit == s.circuit
  {
    NothingMoreToSettle(c, TakeRetry(s, a, ambiguous, persisted), a, at);
  }

  /** How the attempt that ends here looks to the circuit. */
  function Verdict(s: State, op: Op): C.Outcome {
    match op
    case ReturnOp(_, _, _, _) => C.Success
    case UnconfirmedOp(_, _, _, _, _) => C.Failure
    case FailOp(_, returned, retryable, infrastructure, _, _, _, _, _, _) =>
      if returned then C.Success
      else if !CutShort(s, op) && retryable && infrastructure then C.Failure
      else C.Neutral
    case _ => C.Neutral
  }

  /** The failing execution holds a lease of the circuit. */
  predicate Leased(s: State, a: nat) {
    a < |s.workers| && s.workers[a].lease.Some? && s.workers[a].lease.value < |s.circuit.leases|
  }

  lemma RecordedTellsCircuit(c: Config, s: State, op: Op)
    requires op.FailOp? && Leased(s, op.a)
    ensures var u := FailRecorded(c, s, op);
      if op.returned then
        && op.a < |u.workers| && u.workers[op.a].lease.None?
        && u.circuit == C.Settle(c.policy, s.circuit, s.workers[op.a].lease.value, C.Success, op.at)
      else op.a < |u.workers| && u.workers[op.a].lease == s.workers[op.a].lease && u.circuit == s.circuit
  {
    DroppedOnce(c, s, op.a, C.Success, op.at);
  }

  lemma CutShortTellsCircuit(c: Config, s: State, op: Op)
    requires op.FailOp? && Leased(s, op.a) && CutShort(s, op)
    ensures Fail(c, s, op).circuit ==
      C.Settle(c.policy, s.circuit, s.workers[op.a].lease.value, Verdict(s, op), op.at)
  {
    RecordedTellsCircuit(c, s, op);
    DroppedOnce(c, FailRecorded(c, s, op), op.a, C.Neutral, op.at);
  }

  lemma DroppedTellsCircuit(c: Config, s: State, op: Op)
    requires op.FailOp? && Leased(s, op.a) && !CutShort(s, op)
    ensures var v := FailDropped(c, s, op);
      && op.a < |v.workers| && v.workers[op.a].lease.None?
      && v.circuit == C.Settle(c.policy, s.circuit, s.workers[op.a].lease.value, Verdict(s, op), op.at)
  {
    RecordedTellsCircuit(c, s, op);
    var outcome := if op.retryable && op.infrastructure then C.Failure else C.Neutral;
    DroppedOnce(c, FailRecorded(c, s, op), op.a, outcome, op.at);
  }

  lemma FailTellsCircuit(c: Config, s: State, op: Op)
    requires op.FailOp? && Leased(s, op.a)
    ensures Fail(c, s, op).circuit ==
      C.Settle(c.policy, s.circuit, s.workers[op.a].lease.value, Verdict(s, op), op.at)
  {
    if CutShort(s, op) {
      CutShortTellsCircuit(c, s, op);
    } else {
      var (a, v, text) := (op.a, FailDropped(c, s, op), op.placeholder);
      DroppedTellsCircuit(c, s, op);
      RecordKeepsCircuit(c, v, a, Placeholder(text), false, Reporting(NeedsRecovery), op.persisted, op.at);
      RecordKeepsCircuit(c, v, a, Placeholder(text), false, Reporting(FinalFailure), op.persisted, op.at);
      ReserveKeepsCircuit(c, v, a, false, op.persisted, op.at);
    }
  }

  lemma UnconfirmedTellsCircuit(c: Config, s: State, op: Op)
    requires op.UnconfirmedOp? && Enabled(c, s, op) && Leased(s, op.a)
    ensures Unconfirmed(c, s, op).circuit ==
      C.Settle(c.policy, s.circuit, s.workers[op.a].lease.value, C.Failure, op.at)
  {
    var u, a, v := Suspected(c, s, op), op.a, s.workers[op.a];
    DroppedOnce(c, s, a, C.Failure, op.at);
    if !s.aborted {
      var f := u.(fences := u.fences + [Fence(a, v.attempt, false, false)]);
      ReserveKeepsCircuit(c, u, a, true, op.persisted, op.at);
      RecordKeepsCircuit(c, f, a, Placeholder(op.placeholder), false, Reporting(NeedsRecovery), op.persisted, op.at);
    }
  }

  lemma ReturnTellsCircuit(c: Config, s: State, op: Op)
    requires op.ReturnOp? && Enabled(c, s, op) && Leased(s, op.a)
    ensures Return(c, s, op.a, op.value, op.persisted, op.at).circuit ==
      C.Settle(c.policy, s.circuit, s.workers[op.a].lease.value, C.Success, op.at)
  {
    var t := DropLease(c, s, op.a, C.Success, op.at);
    DroppedOnce(c, s, op.a, C.Success, op.at);
    NothingMoreToSettle(c, t, op.a, op.at);
    RecordKeepsCircuit(c, t, op.a, op.value, true, Completing, op.persisted, op.at);
  }

  /** The end of an execution settles its lease once: as a success when the provider returned, as a failure for
      retryable infrastructure failures and unconfirmed terminations, neutrally otherwise. */
  lemma CircuitLearnsVerdict(c: Config, s: State, op: Op)
    requires op.ReturnOp? || op.FailOp? || op.UnconfirmedOp?
    requires Enabled(c, s, op) && Leased(s, op.a)
    ensures Step(c, s, op).circuit ==
      C.Settle(c.policy, s.circuit, s.workers[op.a].lease.value, Verdict(s, op), op.at)
  {
    match op
    case ReturnOp(_, _, _, _) => ReturnTellsCircuit(c, s, op);
    case FailOp(_, _, _, _, _, _, _, _, _, _) => FailTellsCircuit(c, s, op);
    case UnconfirmedOp(_, _, _, _, _) => UnconfirmedTellsCircuit(c, s, op);
  }

  /** A result that arrives before an abort is journaled as returned, and the agent completes. */
  lemma ReturnDisposition(c: Config, s: State, op: Op)
    requires op.ReturnOp? && Enabled(c, s, op)
    ensures var t := Step(c, s, op);
      |t.workers| == |s.workers| &&
      if s.aborted then t.workers[op.a].pc == Cancelling && t.journal == s.journal && t.retries == s.retries
      else Disposed(s, t, op.a, op.value, true, Completing, op.persisted)
  {
    var t := DropLease(c, s, op.a, C.Success, op.at);
    DropLeaseSame(c, s, op.a, C.Success, op.at);
    L.UnwindQuiet(c, t, op.a, op.at);
    RecordDisposes(c, t, op.a, op.value, true, Completing, op.persisted, op.at);
    DisposedAlike(s, t, Step(c, s, op), op.a, op.value, true, Completing, op.persisted);
  }
}

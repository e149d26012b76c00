/**
  Control of the attempt loop: what an agent holds at each await, and the attempt and retry limits.
 */
module AttemptFlow {
  import opened Common
  import opened AttemptModel
  import C = CircuitSpec
  import J = JournalModel

  /** A circuit lease exactly while queueing for permits and while executing. */
  predicate LeaseFits(w: Worker) {
    w.lease.Some? <==> w.pc.AwaitingRun? || w.pc.AwaitingService? || w.pc.Starting? || w.pc.Executing?
  }

  /** No permit before the circuit lease, while backing off or after the end; all permits from the start
      of an attempt until its disposition is published. */
  predicate PermitsFit(c: Config, w: Worker) {
    && (w.serviceHeld ==> w.runHeld && c.twoLevel)
    && match w.pc
       case AwaitingService => c.twoLevel && w.runHeld && !w.serviceHeld
       case Starting => w.runHeld && w.serviceHeld == c.twoLevel
       case Executing => w.runHeld && w.serviceHeld == c.twoLevel
       case Completing => w.runHeld && w.serviceHeld == c.twoLevel
       case Retrying => w.runHeld && w.serviceHeld == c.twoLevel
       case Reporting(_) => w.runHeld ==> w.serviceHeld == c.twoLevel
       case _ => !w.runHeld && !w.serviceHeld
  }

  /** Each attempt after the first was reserved, and a reserved attempt can still be made. */
  predicate AttemptsFit(c: Config, w: Worker) {
    && 1 <= w.attempt <= c.maxAttempts && !w.pc.FellThrough?
    && w.attempt - 1 <= w.reserved <= w.attempt && w.reserved < c.maxAttempts
    && (w.pc.Retrying? || w.pc.BackingOff? ==> w.reserved == w.attempt)
    && (!w.pc.Retrying? && !w.pc.BackingOff? && !w.pc.Cancelling? && !w.pc.Finished? ==> w.reserved == w.attempt - 1)
  }

  /** One recorded result at most, and exactly one while it is being published. */
  predicate ResultsFit(w: Worker) {
    && w.results <= 1
    && (w.pc.Completing? || w.pc.Reporting? ==> w.results == 1)
    && (!w.pc.Completing? && !w.pc.Reporting? && !w.pc.Cancelling? && !w.pc.Finished? ==> w.results == 0)
  }

  predicate Fits(c: Config, w: Worker) {
    LeaseFits(w) && PermitsFit(c, w) && AttemptsFit(c, w) && ResultsFit(w)
  }

  ghost predicate AllFit(c: Config, s: State) {
    forall a :: 0 <= a < |s.workers| ==> Fits(c, s.workers[a])
  }

  /** A held lease exists. */
  predicate Linked(s: State, a: nat) {
    a < |s.workers| && (s.workers[a].lease.Some? ==> s.workers[a].lease.value < |s.circuit.leases|)
  }

  /** Only worker `a` changed, and it became `w`. */
  ghost predicate Became(s: State, t: State, a: nat, w: Worker) {
    a < |s.workers| && t.workers == s.workers[a := w]
  }

  lemma DropLeaseBecomes(c: Config, s: State, a: nat, outcome: C.Outcome, at: nat)
    requires Linked(s, a)
    ensures var t := DropLease(c, s, a, outcome, at);
      && Became(s, t, a, s.workers[a].(lease := None)) && Linked(t, a)
      && t.aborted == s.aborted && t.retries == s.retries && |t.circuit.leases| == |s.circuit.leases|
  {
  }

  function Unwound(s: State, w: Worker): Worker {
    w.(lease := None, runHeld := false, serviceHeld := false, pc := if s.aborted then Cancelling else Finished(true))
  }

  lemma UnwindBecomes(c: Config, s: State, a: nat, at: nat)
    requires Linked(s, a)
    ensures Became(s, Unwind(c, s, a, at), a, Unwound(s, s.workers[a])) && Unwind(c, s, a, at).retries == s.retries
  {
    DropLeaseBecomes(c, s, a, C.Neutral, at);
  }

  lemma RecordBecomes(c: Config, s: State, a: nat, value: J.Value, success: bool, next: Pc, persisted: bool, at: nat)
    requires Linked(s, a)
    ensures var w := s.workers[a].(results := s.workers[a].results + 1);
      Became(s, Record(c, s, a, value, success, next, persisted, at), a, if persisted then w.(pc := next)
        else Unwound(s, w))
    ensures Record(c, s, a, value, success, next, persisted, at).retries == s.retries
  {
    UnwindBecomes(c, Store(s, a, value, success, persisted), a, at);
  }

  function Took(w: Worker, ambiguous: bool): Worker {
    w.(reserved := w.reserved + 1, ambiguous := if ambiguous then w.ambiguous + [w.attempt] else w.ambiguous)
  }

  lemma ReserveBecomes(c: Config, s: State, a: nat, ambiguous: bool, persisted: bool, at: nat)
    requires Linked(s, a)
    ensures Became(s, Reserve(c, s, a, ambiguous, persisted, at), a,
      if persisted then Took(s.workers[a], ambiguous).(pc := Retrying) else Unwound(s, Took(s.workers[a], ambiguous)))
    ensures Reserve(c, s, a, ambiguous, persisted, at).retries == s.retries + 1
  {
    UnwindBecomes(c, TakeRetry(s, a, ambiguous, persisted), a, at);
  }

  lemma BecameTwice(s: State, t: State, u: State, a: nat, v: Worker, w: Worker)
    requires Became(s, t, a, v) && Became(t, u, a, w)
    ensures Became(s, u, a, w)
  {
  }

  function BackAtGate(w: Worker): Worker {
    w.(lease := None, runHeld := false, serviceHeld := false, pc := AtGate)
  }

  lemma CheckBecomes(c: Config, s: State, a: nat, at: nat)
    requires Linked(s, a)
    ensures var w := s.workers[a]; var t := Check(c, s, a, at);
      && t.retries == s.retries
      && ((w.lease.Some? && Became(s, t, a, w.(pc := Starting))) || Became(s, t, a, Unwound(s, w)) ||
        Became(s, t, a, BackAtGate(w)))
  {
    var w := s.workers[a];
    if w.lease.Some? && w.lease.value < |s.circuit.leases| && C.StartAllowed(s.circuit, w.lease.value) {
      if s.aborted {
        UnwindBecomes(c, s.(circuit := C.Start(s.circuit, w.lease.value)), a, at);
      }
    } else {
      DropLeaseBecomes(c, s, a, C.Neutral, at);
      var t := DropLease(c, s, a, C.Neutral, at);
      BecameTwice(s, t, Check(c, s, a, at), a, w.(lease := None), BackAtGate(w));
    }
  }

  // ---------------------------------------------------------------------------------------------
  // Every step keeps every worker in shape
  // ---------------------------------------------------------------------------------------------

  lemma BecameFits(c: Config, s: State, t: State, a: nat, w: Worker)
    requires AllFit(c, s) && Became(s, t, a, w) && Fits(c, w)
    ensures AllFit(c, t)
  {
  }

  lemma UnwoundFits(c: Config, s: State, w: Worker)
    requires PermitsFit(c, w) && w.results <= 1 && !w.pc.FellThrough?
    requires 1 <= w.attempt <= c.maxAttempts && w.attempt - 1 <= w.reserved <= w.attempt && w.reserved < c.maxAttempts
    ensures Fits(c, Unwound(s, w))
  {
  }

  lemma UnwindFits(c: Config, s: State, a: nat, at: nat)
    requires AllFit(c, s) && Linked(s, a)
    ensures AllFit(c, Unwind(c, s, a, at))
  {
    UnwindBecomes(c, s, a, at);
    UnwoundFits(c, s, s.workers[a]);
    BecameFits(c, s, Unwind(c, s, a, at), a, Unwound(s, s.workers[a]));
  }

  /** `t` is `s` but that worker `a`, still executing, has settled its lease. */
  ghost predicate Settled(c: Config, s: State, t: State, a: nat) {
    && AllFit(c, s) && Linked(s, a) && Linked(t, a) && s.workers[a].pc.Executing?
    && Became(s, t, a, s.workers[a].(lease := None))
  }

  lemma RecordFits(c: Config, s: State, t: State, a: nat, value: J.Value, success: bool, next: Pc, persisted: bool,
      at: nat)
    requires Settled(c, s, t, a) && (next.Completing? || next.Reporting?)
    ensures AllFit(c, Record(c, t, a, value, success, next, persisted, at))
  {
    RecordBecomes(c, t, a, value, success, next, persisted, at);
    var w := t.workers[a].(results := t.workers[a].results + 1);
    UnwoundFits(c, t, w);
    var v := if persisted then w.(pc := next) else Unwound(t, w);
    var u := Record(c, t, a, value, success, next, persisted, at);
    BecameTwice(s, t, u, a, t.workers[a], v);
    BecameFits(c, s, u, a, v);
  }

  lemma ReserveFits(c: Config, s: State, t: State, a: nat, ambiguous: bool, persisted: bool, at: nat)
    requires Settled(c, s, t, a) && s.workers[a].attempt < c.maxAttempts
    ensures AllFit(c, Reserve(c, t, a, ambiguous, persisted, at))
  {
    ReserveBecomes(c, t, a, ambiguous, persisted, at);
    var w := Took(t.workers[a], ambiguous);
    UnwoundFits(c, t, w);
    var v := if persisted then w.(pc := Retrying) else Unwound(t, w);
    var u := Reserve(c, t, a, ambiguous, persisted, at);
    BecameTwice(s, t, u, a, t.workers[a], v);
    BecameFits(c, s, u, a, v);
  }

  lemma ExecutingUnwindFits(c: Config, s: State, t: State, a: nat, at: nat)
    requires AllFit(c, s) && a < |s.workers| && Linked(t, a) && s.workers[a].pc.Executing?
    requires Became(s, t, a, s.workers[a]) || Became(s, t, a, s.workers[a].(lease := None))
    ensures AllFit(c, Unwind(c, t, a, at))
  {
    UnwindBecomes(c, t, a, at);
    UnwoundFits(c, t, t.workers[a]);
    var v := Unwound(t, t.workers[a]);
    BecameTwice(s, t, Unwind(c, t, a, at), a, t.workers[a], v);
    BecameFits(c, s, Unwind(c, t, a, at), a, v);
  }

  lemma ReturnFits(c: Config, s: State, op: Op)
    requires op.ReturnOp? && Enabled(c, s, op) && AllFit(c, s) && Linked(s, op.a)
    ensures AllFit(c, Return(c, s, op.a, op.value, op.persisted, op.at))
  {
    var t := DropLease(c, s, op.a, C.Success, op.at);
    DropLeaseBecomes(c, s, op.a, C.Success, op.at);
    ExecutingUnwindFits(c, s, t, op.a, op.at);
    RecordFits(c, s, t, op.a, op.value, true, Completing, op.persisted, op.at);
  }

  lemma FailSettledFits(c: Config, s: State, t: State, a: nat, retryable: bool, safety: Assessment, text: J.Text,
      persisted: bool, at: nat)
    requires Settled(c, s, t, a)
    ensures AllFit(c, FailSettled(c, t, a, retryable, safety, text, persisted, at))
  {
    if retryable && !safety.automatic {
      RecordFits(c, s, t, a, Placeholder(text), false, Reporting(NeedsRecovery), persisted, at);
    } else if !MayRetry(c, t, t.workers[a], retryable, safety) {
      RecordFits(c, s, t, a, Placeholder(text), false, Reporting(FinalFailure), persisted, at);
    } else {
      ReserveFits(c, s, t, a, false, persisted, at);
    }
  }

  lemma FailRecordedBecomes(c: Config, s: State, op: Op)
    requires op.FailOp? && Linked(s, op.a)
    ensures var u := FailRecorded(c, s, op);
      && Linked(u, op.a) && u.retries == s.retries && u.aborted == s.aborted
      && (Became(s, u, op.a, s.workers[op.a]) || Became(s, u, op.a, s.workers[op.a].(lease := None)))
  {
    DropLeaseBecomes(c, s, op.a, C.Success, op.at);
  }

  lemma FailDroppedBecomes(c: Config, s: State, op: Op)
    requires op.FailOp? && Linked(s, op.a)
    ensures var v := FailDropped(c, s, op);
      && Linked(v, op.a) && v.retries == s.retries && v.aborted == s.aborted
      && Became(s, v, op.a, s.workers[op.a].(lease := None))
  {
    var u, v := FailRecorded(c, s, op), FailDropped(c, s, op);
    FailRecordedBecomes(c, s, op);
    DropLeaseBecomes(c, u, op.a, if op.retryable && op.infrastructure then C.Failure else C.Neutral, op.at);
    BecameTwice(s, u, v, op.a, u.workers[op.a], s.workers[op.a].(lease := None));
  }

  lemma FailFits(c: Config, s: State, op: Op)
    requires op.FailOp? && Enabled(c, s, op) && AllFit(c, s) && Linked(s, op.a)
    ensures AllFit(c, Fail(c, s, op))
  {
    FailRecordedBecomes(c, s, op);
    FailDroppedBecomes(c, s, op);
    if (op.session.Some? && !op.sessionPersisted) || s.aborted {
      ExecutingUnwindFits(c, s, FailRecorded(c, s, op), op.a, op.at);
    } else {
      FailSettledFits(c, s, FailDropped(c, s, op), op.a, op.retryable, ReplaySafety(c, s.workers[op.a], op.provider),
        op.placeholder, op.persisted, op.at);
    }
  }

  lemma UnconfirmedFits(c: Config, s: State, op: Op)
    requires op.UnconfirmedOp? && Enabled(c, s, op) && AllFit(c, s) && Linked(s, op.a)
    ensures AllFit(c, Unconfirmed(c, s, op))
  {
    var w := s.workers[op.a];
    DropLeaseBecomes(c, s, op.a, C.Failure, op.at);
    var t := DropLease(c, s, op.a, C.Failure, op.at).(unconfirmed := s.unconfirmed + {(op.a, w.attempt)});
    if s.aborted {
      var v := w.(lease := None, runHeld := false, serviceHeld := false, pc := Cancelling);
      BecameTwice(s, t, Unconfirmed(c, s, op), op.a, w.(lease := None), v);
      BecameFits(c, s, Unconfirmed(c, s, op), op.a, v);
    } else if MayRetry(c, t, w, true, WriterSafety(ReplaySafety(c, w, op.provider))) {
      ReserveFits(c, s, t, op.a, true, op.persisted, op.at);
    } else {
      var u := t.(fences := t.fences + [Fence(op.a, w.attempt, false, false)]);
      RecordFits(c, s, u, op.a, Placeholder(op.placeholder), false, Reporting(NeedsRecovery), op.persisted, op.at);
    }
  }

  lemma PrepareFits(c: Config, s: State, op: Op)
    requires op.PrepareOp? && Enabled(c, s, op) && AllFit(c, s) && Linked(s, op.a)
    ensures AllFit(c, Prepare(c, s, op.a, op.outcome, op.placeholder, op.persisted, op.at))
  {
    var w := s.workers[op.a];
    var t := Prepare(c, s, op.a, op.outcome, op.placeholder, op.persisted, op.at);
    if s.aborted || !op.outcome.Refused? {
      BecameFits(c, s, t, op.a, t.workers[op.a]);
    } else {
      var v := w.(results := w.results + 1);
      RecordBecomes(c, s, op.a, Placeholder(op.placeholder), false, Reporting(FinalFailure), op.persisted, op.at);
      UnwoundFits(c, s, v);
      BecameFits(c, s, t, op.a, if op.persisted then v.(pc := Reporting(FinalFailure)) else Unwound(s, v));
    }
  }

  lemma CheckFits(c: Config, s: State, t: State, a: nat, at: nat)
    requires AllFit(c, s) && Linked(t, a) && Became(s, t, a, t.workers[a])
    requires t.workers[a].lease.Some? && t.workers[a].runHeld && t.workers[a].serviceHeld == c.twoLevel
    requires AttemptsFit(c, t.workers[a]) && ResultsFit(t.workers[a])
    requires t.workers[a].pc.AwaitingRun? || t.workers[a].pc.AwaitingService?
    ensures AllFit(c, Check(c, t, a, at))
  {
    CheckBecomes(c, t, a, at);
    var w, u := t.workers[a], Check(c, t, a, at);
    assert Fits(c, w.(pc := Starting)) && Fits(c, Unwound(t, w)) && Fits(c, BackAtGate(w));
    BecameTwice(s, t, u, a, w, u.workers[a]);
    BecameFits(c, s, u, a, u.workers[a]);
  }

  lemma GrantFits(c: Config, s: State, op: Op)
    requires op.GrantOp? && Enabled(c, s, op) && AllFit(c, s) && Linked(s, op.a)
    ensures AllFit(c, Grant(c, s, op.a, op.at))
  {
    var a, w := op.a, s.workers[op.a];
    assert Fits(c, w);
    if w.pc.AwaitingRun? {
      var t := GrantRun(s, a);
      assert t.workers[a] == w.(runHeld := true);
      if c.twoLevel {
        BecameFits(c, s, Grant(c, s, a, op.at), a, w.(runHeld := true, pc := AwaitingService));
      } else {
        CheckFits(c, s, t, a, op.at);
      }
    } else {
      var t := GrantService(s, a);
      assert t.workers[a] == w.(serviceHeld := true);
      CheckFits(c, s, t, a, op.at);
    }
  }

  lemma PublishedFits(c: Config, s: State, a: nat, acknowledged: bool, at: nat)
    requires AllFit(c, s) && Linked(s, a) && Emitting(s.workers[a].pc)
    ensures AllFit(c, Published(c, s, a, acknowledged, at))
  {
    var w, t := s.workers[a], Published(c, s, a, acknowledged, at);
    if !w.pc.Cancelling? && !acknowledged {
      UnwindFits(c, s, a, at);
    } else {
      assert Fits(c, w) && Became(s, t, a, t.workers[a]);
      BecameFits(c, s, t, a, t.workers[a]);
    }
  }

  lemma WakeFits(c: Config, s: State, a: nat)
    requires AllFit(c, s) && At(s, a, BackingOff)
    ensures AllFit(c, Wake(c, s, a))
  {
    assert Fits(c, s.workers[a]);
    BecameFits(c, s, Wake(c, s, a), a, Wake(c, s, a).workers[a]);
  }

  lemma AdmitFits(c: Config, s: State, op: Op)
    requires op.AdmitOp? && ValidConfig(c) && AllFit(c, s)
    ensures AllFit(c, Admit(s, op.call, op.isolated, op.persisted))
  {
  }

  ghost predicate AllLinked(s: State) {
    forall a :: 0 <= a < |s.workers| ==> Linked(s, a)
  }

  lemma EarlyFits(c: Config, s: State, op: Op)
    requires ValidConfig(c) && Enabled(c, s, op) && Early(op) && AllFit(c, s) && AllLinked(s)
    ensures AllFit(c, Step(c, s, op))
  {
    match op
    case AdmitOp(_, _, _) => AdmitFits(c, s, op);
    case PrepareOp(_, _, _, _, _) => PrepareFits(c, s, op);
    case EnterOp(a, at) => BecameFits(c, s, Enter(c, s, a, at), a, Enter(c, s, a, at).workers[a]);
    case GrantOp(_, _) => GrantFits(c, s, op);
    case LeaveOp(a, at) => UnwindFits(c, s, a, at);
    case WakeOp(a) => WakeFits(c, s, a);
    case AbortOp =>
    case FenceSettlesOp(_) =>
  }

  lemma LateFits(c: Config, s: State, op: Op)
    requires ValidConfig(c) && Enabled(c, s, op) && !Early(op) && AllFit(c, s) && AllLinked(s)
    ensures AllFit(c, Step(c, s, op))
  {
    match op
    case ProgressOp(_) =>
    case SessionOp(_, _, _) =>
    case ReturnOp(_, _, _, _) => ReturnFits(c, s, op);
    case FailOp(_, _, _, _, _, _, _, _, _, _) => FailFits(c, s, op);
    case UnconfirmedOp(_, _, _, _, _) => UnconfirmedFits(c, s, op);
    case EmitOp(a, sent, acknowledged, at) =>
      var t := Publish(s, a, sent, acknowledged);
      assert Linked(s, a) && Linked(t, a);
      PublishedFits(c, t, a, acknowledged, at);
  }

  lemma StepFits(c: Config, s: State, op: Op)
    requires ValidConfig(c) && Enabled(c, s, op) && AllFit(c, s) && AllLinked(s)
    ensures AllFit(c, Step(c, s, op))
  {
    if Early(op) {
      EarlyFits(c, s, op);
    } else {
      LateFits(c, s, op);
    }
  }
}

/**
  Circuit leases of the attempt loop: each unsettled lease is held by exactly one agent, so a half-open
  probe is never left behind by an agent that has moved on.
 */
module AttemptLeases {
  import opened Common
  import opened AttemptModel
  import opened AttemptFlow
  import C = CircuitSpec
  import J = JournalModel

  /** Every unsettled lease is the one its owner holds. */
  ghost predicate Claimed(s: State)
    requires |s.owners| == |s.circuit.leases|
  {
    forall i :: 0 <= i < |s.circuit.leases| && !s.circuit.leases[i].settled ==>
      s.owners[i] < |s.workers| && s.workers[s.owners[i]].lease == Some(i)
  }

  /** Every held lease is unsettled and owned by its holder. */
  ghost predicate Owned(s: State)
    requires |s.owners| == |s.circuit.leases|
  {
    forall a :: 0 <= a < |s.workers| && s.workers[a].lease.Some? ==>
      var i := s.workers[a].lease.value;
      i < |s.circuit.leases| && s.owners[i] == a && !s.circuit.leases[i].settled
  }

  ghost predicate LeaseInv(s: State) {
    |s.owners| == |s.circuit.leases| && Claimed(s) && Owned(s)
  }

  ghost predicate Guarded(c: Config, s: State, at: nat) {
    LeaseInv(s) && C.Inv(c.policy, s.circuit) && s.circuit.now <= at
  }

  lemma LeaseInvLinks(s: State)
    requires LeaseInv(s)
    ensures AllLinked(s)
  {
  }

  /** Nobody's lease changed, and no lease was settled or added. */
  ghost predicate SameLeases(s: State, t: State) {
    && |s.workers| <= |t.workers|
    && (forall a :: 0 <= a < |t.workers| ==> t.workers[a].lease == if a < |s.workers| then s.workers[a].lease else None)
    && t.owners == s.owners && |t.circuit.leases| == |s.circuit.leases|
    && (forall i :: 0 <= i < |s.circuit.leases| ==> t.circuit.leases[i].settled == s.circuit.leases[i].settled)
  }

  lemma SameLeasesKeep(s: State, t: State)
    requires LeaseInv(s) && SameLeases(s, t)
    ensures LeaseInv(t)
  {
  }

  /** As `SameLeases`, and the circuit breaker was not touched at all. */
  lemma QuietKeeps(c: Config, s: State, t: State, at: nat)
    requires Guarded(c, s, at) && SameLeases(s, t) && t.circuit == s.circuit
    ensures Guarded(c, t, at)
  {
    SameLeasesKeep(s, t);
  }

  lemma SettleFrame(p: C.Policy, k: C.State, i: nat, outcome: C.Outcome, at: nat)
    requires i < |k.leases| && k.now <= at
    ensures var t := C.Settle(p, k, i, outcome, at);
      t.leases == k.leases[i := k.leases[i].(settled := true)] && t.now <= at
  {
  }

  lemma SettledOwners(s: State, t: State, a: nat, i: nat)
    requires LeaseInv(s) && a < |s.workers| && s.workers[a].lease == Some(i)
    requires t.workers == s.workers[a := s.workers[a].(lease := None)] && t.owners == s.owners
    requires i < |s.circuit.leases| && t.circuit.leases == s.circuit.leases[i := s.circuit.leases[i].(settled := true)]
    ensures LeaseInv(t)
  {
    assert s.owners[i] == a;
  }

  lemma DropLeaseKeeps(c: Config, s: State, a: nat, outcome: C.Outcome, at: nat)
    requires ValidConfig(c) && Guarded(c, s, at) && a < |s.workers|
    ensures Guarded(c, DropLease(c, s, a, outcome, at), at)
  {
    var w, t := s.workers[a], DropLease(c, s, a, outcome, at);
    if w.lease.Some? {
      SettleFrame(c.policy, s.circuit, w.lease.value, outcome, at);
      C.SettleKeepsInv(c.policy, s.circuit, w.lease.value, outcome, at);
      SettledOwners(s, t, a, w.lease.value);
    }
  }

  lemma UnwindKeeps(c: Config, s: State, a: nat, at: nat)
    requires ValidConfig(c) && Guarded(c, s, at) && a < |s.workers|
    ensures Guarded(c, Unwind(c, s, a, at), at)
  {
    var t := DropLease(c, s, a, C.Neutral, at);
    DropLeaseKeeps(c, s, a, C.Neutral, at);
    QuietKeeps(c, t, DropPermits(t, a), at);
    QuietKeeps(c, DropPermits(t, a), Unwind(c, s, a, at), at);
  }

  lemma RecordKeeps(c: Config, s: State, a: nat, value: J.Value, success: bool, next: Pc, persisted: bool, at: nat)
    requires ValidConfig(c) && Guarded(c, s, at) && a < |s.workers|
    ensures Guarded(c, Record(c, s, a, value, success, next, persisted, at), at)
  {
    var t := Store(s, a, value, success, persisted);
    QuietKeeps(c, s, t, at);
    QuietKeeps(c, t, Goto(t, a, next), at);
    UnwindKeeps(c, t, a, at);
  }

  lemma ReserveKeeps(c: Config, s: State, a: nat, ambiguous: bool, persisted: bool, at: nat)
    requires ValidConfig(c) && Guarded(c, s, at) && a < |s.workers|
    ensures Guarded(c, Reserve(c, s, a, ambiguous, persisted, at), at)
  {
    var t := TakeRetry(s, a, ambiguous, persisted);
    QuietKeeps(c, s, t, at);
    QuietKeeps(c, t, Goto(t, a, Retrying), at);
    UnwindKeeps(c, t, a, at);
  }

  lemma NewOwner(s: State, t: State, a: nat)
    requires LeaseInv(s) && a < |s.workers| && s.workers[a].lease.None?
    requires var n := |s.circuit.leases|;
      && |t.circuit.leases| == n + 1 && !t.circuit.leases[n].settled && t.circuit.leases[..n] == s.circuit.leases
      && t.owners == s.owners + [a]
      && |t.workers| == |s.workers| && t.workers[a].lease == Some(n)
      && (forall b :: 0 <= b < |s.workers| && b != a ==> t.workers[b] == s.workers[b])
    ensures LeaseInv(t)
  {
    var n := |s.circuit.leases|;
    forall i | 0 <= i < n ensures t.circuit.leases[i] == s.circuit.leases[i] && t.owners[i] == s.owners[i] {
      assert t.circuit.leases[..n][i] == t.circuit.leases[i];
    }
  }

  lemma EnterKeeps(c: Config, s: State, a: nat, at: nat)
    requires ValidConfig(c) && Guarded(c, s, at) && At(s, a, AtGate) && s.workers[a].lease.None?
    ensures Guarded(c, Enter(c, s, a, at), at)
  {
    C.EnterKeepsInv(c.policy, s.circuit, at);
    var t := Enter(c, s, a, at);
    if C.Enter(c.policy, s.circuit, at).1 {
      assert t.circuit.leases[..|s.circuit.leases|] == s.circuit.leases;
      NewOwner(s, t, a);
    } else {
      SameLeasesKeep(s, t);
    }
  }

  lemma StartKeeps(c: Config, s: State, i: nat, at: nat)
    requires ValidConfig(c) && Guarded(c, s, at) && i < |s.circuit.leases|
    ensures Guarded(c, s.(circuit := C.Start(s.circuit, i)), at)
    ensures Guarded(c, s.(circuit := C.Responsive(s.circuit, i)), at)
  {
    C.StartKeepsInv(c.policy, s.circuit, i);
    C.ResponsiveKeepsInv(c.policy, s.circuit, i);
    SameLeasesKeep(s, s.(circuit := C.Start(s.circuit, i)));
    SameLeasesKeep(s, s.(circuit := C.Responsive(s.circuit, i)));
  }

  lemma CheckKeeps(c: Config, s: State, a: nat, at: nat)
    requires ValidConfig(c) && Guarded(c, s, at) && a < |s.workers|
    ensures Guarded(c, Check(c, s, a, at), at)
  {
    var w := s.workers[a];
    if w.lease.Some? && w.lease.value < |s.circuit.leases| && C.StartAllowed(s.circuit, w.lease.value) {
      var t := s.(circuit := C.Start(s.circuit, w.lease.value));
      StartKeeps(c, s, w.lease.value, at);
      UnwindKeeps(c, t, a, at);
      QuietKeeps(c, t, Goto(t, a, Starting), at);
    } else {
      UnwindKeeps(c, s, a, at);
      QuietKeeps(c, Unwind(c, s, a, at), Check(c, s, a, at), at);
    }
  }

  lemma GrantKeeps(c: Config, s: State, a: nat, at: nat)
    requires ValidConfig(c) && Guarded(c, s, at) && a < |s.workers|
    ensures Guarded(c, Grant(c, s, a, at), at)
  {
    var t := if s.workers[a].pc.AwaitingRun? then GrantRun(s, a) else GrantService(s, a);
    QuietKeeps(c, s, t, at);
    QuietKeeps(c, t, Goto(t, a, AwaitingService), at);
    CheckKeeps(c, t, a, at);
  }

  lemma ReturnKeeps(c: Config, s: State, op: Op)
    requires ValidConfig(c) && op.ReturnOp? && op.a < |s.workers| && Guarded(c, s, op.at)
    ensures Guarded(c, Return(c, s, op.a, op.value, op.persisted, op.at), op.at)
  {
    var t := DropLease(c, s, op.a, C.Success, op.at);
    DropLeaseKeeps(c, s, op.a, C.Success, op.at);
    UnwindKeeps(c, t, op.a, op.at);
    RecordKeeps(c, t, op.a, op.value, true, Completing, op.persisted, op.at);
  }

  lemma FailSettledKeeps(c: Config, s: State, a: nat, retryable: bool, safety: Assessment, text: J.Text,
      persisted: bool, at: nat)
    requires ValidConfig(c) && a < |s.workers| && Guarded(c, s, at)
    ensures Guarded(c, FailSettled(c, s, a, retryable, safety, text, persisted, at), at)
  {
    if retryable && !safety.automatic {
      RecordKeeps(c, s, a, Placeholder(text), false, Reporting(NeedsRecovery), persisted, at);
    } else if !MayRetry(c, s, s.workers[a], retryable, safety) {
      RecordKeeps(c, s, a, Placeholder(text), false, Reporting(FinalFailure), persisted, at);
    } else {
      ReserveKeeps(c, s, a, false, persisted, at);
    }
  }

  lemma FailRecordedKeeps(c: Config, s: State, op: Op)
    requires ValidConfig(c) && op.FailOp? && op.a < |s.workers| && Guarded(c, s, op.at)
    ensures Guarded(c, FailRecorded(c, s, op), op.at)
  {
    var t := if op.returned then DropLease(c, s, op.a, C.Success, op.at) else s;
    DropLeaseKeeps(c, s, op.a, C.Success, op.at);
    QuietKeeps(c, t, FailRecorded(c, s, op), op.at);
  }

  lemma FailKeeps(c: Config, s: State, op: Op)
    requires ValidConfig(c) && op.FailOp? && op.a < |s.workers| && Guarded(c, s, op.at)
    ensures Guarded(c, Fail(c, s, op), op.at)
  {
    var u, v := FailRecorded(c, s, op), FailDropped(c, s, op);
    FailRecordedKeeps(c, s, op);
    UnwindKeeps(c, u, op.a, op.at);
    DropLeaseKeeps(c, u, op.a, if op.retryable && op.infrastructure then C.Failure else C.Neutral, op.at);
    FailSettledKeeps(c, v, op.a, op.retryable, ReplaySafety(c, s.workers[op.a], op.provider), op.placeholder,
      op.persisted, op.at);
  }

  lemma UnconfirmedKeeps(c: Config, s: State, op: Op)
    requires ValidConfig(c) && op.UnconfirmedOp? && op.a < |s.workers| && Guarded(c, s, op.at)
    ensures Guarded(c, Unconfirmed(c, s, op), op.at)
  {
    var w := s.workers[op.a];
    var r := DropLease(c, s, op.a, C.Failure, op.at);
    var t := r.(unconfirmed := s.unconfirmed + {(op.a, w.attempt)});
    DropLeaseKeeps(c, s, op.a, C.Failure, op.at);
    QuietKeeps(c, r, t, op.at);
    if s.aborted {
      QuietKeeps(c, t, Unconfirmed(c, s, op), op.at);
    } else if MayRetry(c, t, w, true, WriterSafety(ReplaySafety(c, w, op.provider))) {
      ReserveKeeps(c, t, op.a, true, op.persisted, op.at);
    } else {
      var u := t.(fences := t.fences + [Fence(op.a, w.attempt, false, false)]);
      QuietKeeps(c, t, u, op.at);
      RecordKeeps(c, u, op.a, Placeholder(op.placeholder), false, Reporting(NeedsRecovery), op.persisted, op.at);
    }
  }

  lemma PrepareKeeps(c: Config, s: State, op: Op)
    requires ValidConfig(c) && op.PrepareOp? && op.a < |s.workers| && Guarded(c, s, op.at)
    ensures Guarded(c, Prepare(c, s, op.a, op.outcome, op.placeholder, op.persisted, op.at), op.at)
  {
    RecordKeeps(c, s, op.a, Placeholder(op.placeholder), false, Reporting(FinalFailure), op.persisted, op.at);
    QuietKeeps(c, s, Escape(s, op.a), op.at);
    QuietKeeps(c, s, Goto(s, op.a, AtGate), op.at);
  }

  lemma PublishedKeeps(c: Config, s: State, a: nat, acknowledged: bool, at: nat)
    requires ValidConfig(c) && a < |s.workers| && Emitting(s.workers[a].pc) && Guarded(c, s, at)
    ensures Guarded(c, Published(c, s, a, acknowledged, at), at)
  {
    UnwindKeeps(c, s, a, at);
    QuietKeeps(c, s, Finish(s, a), at);
    QuietKeeps(c, s, Goto(s, a, Executing), at);
    QuietKeeps(c, s, Goto(DropPermits(s, a), a, BackingOff), at);
  }

  /** The time a step reads, or the last reading. */
  function Time(s: State, op: Op): nat {
    match op
    case PrepareOp(_, _, _, _, at) => at
    case EnterOp(_, at) => at
    case GrantOp(_, at) => at
    case LeaveOp(_, at) => at
    case ReturnOp(_, _, _, at) => at
    case FailOp(_, _, _, _, _, _, _, _, _, at) => at
    case UnconfirmedOp(_, _, _, _, at) => at
    case EmitOp(_, _, _, at) => at
    case _ => s.circuit.now
  }

  lemma EarlyKeeps(c: Config, s: State, op: Op)
    requires ValidConfig(c) && Enabled(c, s, op) && Early(op) && AllFit(c, s) && Guarded(c, s, Time(s, op))
    ensures Guarded(c, Step(c, s, op), Time(s, op))
  {
    match op
    case AdmitOp(_, _, _) => QuietKeeps(c, s, Step(c, s, op), s.circuit.now);
    case PrepareOp(_, _, _, _, _) => PrepareKeeps(c, s, op);
    case EnterOp(a, at) =>
      assert Fits(c, s.workers[a]);
      EnterKeeps(c, s, a, at);
    case GrantOp(a, at) => GrantKeeps(c, s, a, at);
    case LeaveOp(a, at) => UnwindKeeps(c, s, a, at);
    case WakeOp(a) => QuietKeeps(c, s, Step(c, s, op), s.circuit.now);
    case AbortOp => QuietKeeps(c, s, Step(c, s, op), s.circuit.now);
    case FenceSettlesOp(_) => QuietKeeps(c, s, Step(c, s, op), s.circuit.now);
  }

  lemma LateKeeps(c: Config, s: State, op: Op)
    requires ValidConfig(c) && Enabled(c, s, op) && !Early(op) && AllFit(c, s) && Guarded(c, s, Time(s, op))
    ensures Guarded(c, Step(c, s, op), Time(s, op))
  {
    match op
    case ProgressOp(a) =>
      if s.workers[a].lease.Some? {
        StartKeeps(c, s, s.workers[a].lease.value, s.circuit.now);
      }
    case SessionOp(_, _, _) => QuietKeeps(c, s, Step(c, s, op), s.circuit.now);
    case ReturnOp(_, _, _, _) => ReturnKeeps(c, s, op);
    case FailOp(_, _, _, _, _, _, _, _, _, _) => FailKeeps(c, s, op);
    case UnconfirmedOp(_, _, _, _, _) => UnconfirmedKeeps(c, s, op);
    case EmitOp(a, sent, acknowledged, at) =>
      QuietKeeps(c, s, Publish(s, a, sent, acknowledged), at);
      PublishedKeeps(c, Publish(s, a, sent, acknowledged), a, acknowledged, at);
  }

  lemma StepKeepsLeases(c: Config, s: State, op: Op)
    requires ValidConfig(c) && Enabled(c, s, op) && AllFit(c, s) && LeaseInv(s) && C.Inv(c.policy, s.circuit)
    ensures LeaseInv(Step(c, s, op)) && C.Inv(c.policy, Step(c, s, op).circuit)
  {
    if Early(op) {
      EarlyKeeps(c, s, op);
    } else {
      LateKeeps(c, s, op);
    }
  }
}

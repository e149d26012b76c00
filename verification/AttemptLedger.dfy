/**
  Journal before event: what an agent publishes as completed, finally failed or needing recovery is in
  the durable journal first, under every interleaving and at every crash.
 */
module AttemptLedger {
  import opened Common
  import opened AttemptModel
  import C = CircuitSpec
  import J = JournalModel
  import R = JournalResume
  import U = JournalReuse

  /** Nothing about journal, events and retries changed, no fence was lost, and only worker `a` moved. */
  ghost predicate Quiet(s: State, t: State, a: nat) {
    && a < |s.workers| && |t.workers| == |s.workers|
    && (forall b :: 0 <= b < |s.workers| && b != a ==> t.workers[b] == s.workers[b])
    && t.journal == s.journal && t.durable == s.durable && t.events == s.events && t.retries == s.retries
    && t.aborted == s.aborted && t.storageDown == s.storageDown
    && t.unconfirmed == s.unconfirmed && t.stopped == s.stopped && s.fences <= t.fences
    && var (v, w) := (s.workers[a], t.workers[a]);
       w.slot == v.slot && w.key == v.key && w.agent == v.agent && w.worktree == v.worktree && w.attempt == v.attempt
       && w.reserved == v.reserved && w.results == v.results && w.ambiguous == v.ambiguous
  }

  /** No permit was granted. */
  predicate NoMore(s: State, t: State) {
    t.runActive <= s.runActive && t.serviceActive <= s.serviceActive
  }

  lemma DropLeaseQuiet(c: Config, s: State, a: nat, outcome: C.Outcome, at: nat)
    requires a < |s.workers|
    ensures Quiet(s, DropLease(c, s, a, outcome, at), a) && NoMore(s, DropLease(c, s, a, outcome, at)) &&
      DropLease(c, s, a, outcome, at).workers[a].pc == s.workers[a].pc
  {
  }

  lemma DropPermitsQuiet(s: State, a: nat)
    requires a < |s.workers|
    ensures Quiet(s, DropPermits(s, a), a) && NoMore(s, DropPermits(s, a)) && DropPermits(s, a).workers[a].pc ==
      s.workers[a].pc
  {
  }

  lemma QuietTwice(s: State, t: State, u: State, a: nat)
    requires Quiet(s, t, a) && Quiet(t, u, a)
    ensures Quiet(s, u, a)
  {
  }

  lemma UnwindQuiet(c: Config, s: State, a: nat, at: nat)
    requires a < |s.workers|
    ensures Quiet(s, Unwind(c, s, a, at), a) && NoMore(s, Unwind(c, s, a, at))
    ensures Unwind(c, s, a, at).workers[a].pc == if s.aborted then Cancelling else Finished(true)
  {
    var t := DropLease(c, s, a, C.Neutral, at);
    DropLeaseQuiet(c, s, a, C.Neutral, at);
    DropPermitsQuiet(t, a);
    QuietTwice(s, t, DropPermits(t, a), a);
  }

  lemma FinishQuiet(s: State, a: nat)
    requires a < |s.workers|
    ensures Quiet(s, Finish(s, a), a) && NoMore(s, Finish(s, a)) && Finish(s, a).workers[a].pc == Finished(!s.aborted)
  {
    DropPermitsQuiet(s, a);
  }

  lemma CheckQuiet(c: Config, s: State, a: nat, at: nat)
    requires a < |s.workers|
    ensures Quiet(s, Check(c, s, a, at), a) && NoMore(s, Check(c, s, a, at))
    ensures Check(c, s, a, at).workers[a].pc in {Starting, AtGate, Cancelling}
  {
    var w := s.workers[a];
    if w.lease.Some? && w.lease.value < |s.circuit.leases| && C.StartAllowed(s.circuit, w.lease.value) {
      UnwindQuiet(c, s.(circuit := C.Start(s.circuit, w.lease.value)), a, at);
    } else {
      var t := DropLease(c, s, a, C.Neutral, at);
      DropLeaseQuiet(c, s, a, C.Neutral, at);
      DropPermitsQuiet(t, a);
      QuietTwice(s, t, DropPermits(t, a), a);
    }
  }

  lemma GrantQuiet(c: Config, s: State, a: nat, at: nat)
    requires a < |s.workers|
    ensures Quiet(s, Grant(c, s, a, at), a) &&
      NoMore(if s.workers[a].pc.AwaitingRun? then GrantRun(s, a) else GrantService(s, a), Grant(c, s, a, at))
    ensures Grant(c, s, a, at).workers[a].pc in {AwaitingService, Starting, AtGate, Cancelling}
  {
    var t := if s.workers[a].pc.AwaitingRun? then GrantRun(s, a) else GrantService(s, a);
    CheckQuiet(c, t, a, at);
    QuietTwice(s, t, Check(c, t, a, at), a);
  }

  /** What is being published ends the agent. */
  predicate TerminalPc(pc: Pc) {
    pc.Completing? || pc.Reporting? || pc.Cancelling?
  }

  lemma PublishedQuiet(c: Config, s: State, a: nat, acknowledged: bool, at: nat)
    requires a < |s.workers| && Emitting(s.workers[a].pc)
    ensures var t := Published(c, s, a, acknowledged, at);
      && Quiet(s, t, a) && NoMore(s, t)
      && !t.workers[a].pc.Completing? && !t.workers[a].pc.Reporting?
      && (acknowledged && TerminalPc(s.workers[a].pc) ==> t.workers[a].pc.Finished?)
  {
    var t := DropPermits(s, a);
    UnwindQuiet(c, s, a, at);
    FinishQuiet(s, a);
    DropPermitsQuiet(s, a);
    QuietTwice(s, t, Goto(t, a, BackingOff), a);
  }

  lemma EnterQuiet(c: Config, s: State, a: nat, at: nat)
    requires At(s, a, AtGate)
    ensures Quiet(s, Enter(c, s, a, at), a) && NoMore(s, Enter(c, s, a, at)) &&
      Enter(c, s, a, at).workers[a].pc in {AtGate, AwaitingRun}
  {
  }

  lemma EscapeQuiet(s: State, a: nat)
    requires a < |s.workers|
    ensures Quiet(s, Escape(s, a), a) && NoMore(s, Escape(s, a)) &&
      (Escape(s, a).workers[a].pc.Cancelling? || Escape(s, a).workers[a].pc.Finished?)
  {
  }

  // ---------------------------------------------------------------------------------------------
  // The journal only grows
  // ---------------------------------------------------------------------------------------------

  /** A call's slot, from `s` on: the same call, and the same record once it has one. */
  predicate SlotKept(s: J.Slot, t: J.Slot) {
    s.key == t.key && s.agent == t.agent && (s.fate.Open? || t.fate == s.fate)
  }

  ghost predicate Grown(run: J.Run, later: J.Run) {
    |run.slots| <= |later.slots| && forall i :: 0 <= i < |run.slots| ==> SlotKept(run.slots[i], later.slots[i])
  }

  lemma ApplyGrows(run: J.Run, op: J.Op)
    ensures Grown(run, J.Apply(run, op))
  {
    match op
    case AdmitOp(call) => R.AdmitRecords(run, call);
    case ResultOp(_, _, _, _, _, _) =>
    case SessionOp(_, _, _, _) =>
    case DiscardOp(_, _, _) =>
  }

  lemma GrownTwice(a: J.Run, b: J.Run, c: J.Run)
    requires Grown(a, b) && Grown(b, c)
    ensures Grown(a, c)
  {
  }

  // ---------------------------------------------------------------------------------------------
  // Invariant
  // ---------------------------------------------------------------------------------------------

  /** The worker's call is in the journal, open until the worker records its result. */
  predicate Tied(run: J.Run, w: Worker) {
    && w.slot < |run.slots| && run.slots[w.slot].key == w.key && run.slots[w.slot].agent == w.agent
    && (w.results == 0 ==> run.slots[w.slot].fate.Open?)
  }

  /** The worker's call has a result: a success, or a failure placeholder marked as a coverage gap. */
  predicate OnRecord(run: J.Run, w: Worker, gap: bool) {
    && w.slot < |run.slots| && run.slots[w.slot].key == w.key && run.slots[w.slot].agent == w.agent
    && run.slots[w.slot].fate.Recorded?
    && var r := run.slots[w.slot].fate.record;
       r.Result? && r.key == w.key && r.coverageGap == gap && (!gap ==> r.successful == Some(true))
  }

  ghost predicate AllTied(s: State) {
    && (forall a :: 0 <= a < |s.workers| ==> Tied(s.journal, s.workers[a]))
    && (forall a, b :: 0 <= a < b < |s.workers| ==> s.workers[a].slot != s.workers[b].slot)
  }

  predicate Disposed(run: J.Run, w: Worker) {
    && (w.pc.Completing? ==> OnRecord(run, w, false))
    && (w.pc.Reporting? ==> OnRecord(run, w, true))
  }

  ghost predicate AllDisposed(s: State) {
    forall a :: 0 <= a < |s.workers| ==> Disposed(s.durable, s.workers[a])
  }

  predicate Backed(s: State, e: Event) {
    && e.worker < |s.workers|
    && (e.kind.Completed? ==> OnRecord(s.durable, s.workers[e.worker], false))
    && (e.kind.Failed? || e.kind.RecoveryRequired? ==> OnRecord(s.durable, s.workers[e.worker], true))
  }

  ghost predicate AllBacked(s: State) {
    forall i :: 0 <= i < |s.events| ==> Backed(s, s.events[i])
  }

  /** Disk is behind memory, open calls are open, and everything published is on disk. */
  ghost predicate LedgerInv(s: State) {
    Grown(s.durable, s.journal) && AllTied(s) && AllDisposed(s) && AllBacked(s)
  }

  lemma OnRecordGrows(run: J.Run, later: J.Run, w: Worker, gap: bool)
    requires Grown(run, later) && OnRecord(run, w, gap)
    ensures OnRecord(later, w, gap)
  {
    assert SlotKept(run.slots[w.slot], later.slots[w.slot]);
  }

  /** A quiet step keeps the ledger if what the worker now publishes is on record. */
  lemma QuietKeeps(s: State, t: State, a: nat)
    requires LedgerInv(s) && Quiet(s, t, a) && Disposed(t.durable, t.workers[a])
    ensures LedgerInv(t)
  {
    assert AllTied(t);
    forall i | 0 <= i < |t.events| ensures Backed(t, t.events[i]) {
      assert Backed(s, s.events[i]);
    }
  }

  /** `t` differs from `s` by one journal mutation, persisted or not. */
  ghost predicate Mutated(s: State, t: State, op: J.Op, persisted: bool) {
    && t.journal == J.Apply(s.journal, op)
    && t.durable == if persisted then t.journal else s.durable
  }

  lemma MutatedGrows(s: State, t: State, op: J.Op, persisted: bool)
    requires Grown(s.durable, s.journal) && Mutated(s, t, op, persisted)
    ensures Grown(s.durable, t.durable) && Grown(t.durable, t.journal)
  {
    ApplyGrows(s.journal, op);
    GrownTwice(s.durable, s.journal, t.journal);
  }

  /** The same call at the same point. */
  predicate SameCall(v: Worker, w: Worker) {
    v.slot == w.slot && v.key == w.key && v.agent == w.agent && v.pc == w.pc
  }

  ghost predicate SameCalls(s: State, t: State) {
    |t.workers| == |s.workers| && forall b :: 0 <= b < |s.workers| ==> SameCall(s.workers[b], t.workers[b])
  }

  lemma MutatedBacked(s: State, t: State)
    requires AllBacked(s) && Grown(s.durable, t.durable) && t.events == s.events && SameCalls(s, t)
    ensures AllBacked(t)
  {
    forall i | 0 <= i < |t.events| ensures Backed(t, t.events[i]) {
      var e := s.events[i];
      assert Backed(s, e);
      if e.kind.Completed? {
        OnRecordGrows(s.durable, t.durable, s.workers[e.worker], false);
      }
      if e.kind.Failed? || e.kind.RecoveryRequired? {
        OnRecordGrows(s.durable, t.durable, s.workers[e.worker], true);
      }
    }
  }

  lemma MutatedDisposed(s: State, t: State)
    requires AllDisposed(s) && Grown(s.durable, t.durable) && SameCalls(s, t)
    ensures AllDisposed(t)
  {
    forall b | 0 <= b < |t.workers| ensures Disposed(t.durable, t.workers[b]) {
      assert Disposed(s.durable, s.workers[b]);
      if s.workers[b].pc.Completing? {
        OnRecordGrows(s.durable, t.durable, s.workers[b], false);
      }
      if s.workers[b].pc.Reporting? {
        OnRecordGrows(s.durable, t.durable, s.workers[b], true);
      }
    }
  }

  lemma SessionSlots(run: J.Run, op: J.Op)
    requires op.SessionOp? || op.DiscardOp?
    ensures J.Apply(run, op).slots == run.slots
  {
  }

  lemma SameSlotsTied(s: State, t: State)
    requires AllTied(s) && t.journal.slots == s.journal.slots && SameCalls(s, t)
    requires forall b :: 0 <= b < |s.workers| ==> t.workers[b].results == s.workers[b].results
    ensures AllTied(t)
  {
    forall b | 0 <= b < |t.workers| ensures Tied(t.journal, t.workers[b]) {
      assert Tied(s.journal, s.workers[b]);
    }
  }

  /** A mutation that leaves the slots alone. */
  lemma SessionKeeps(s: State, t: State, op: J.Op, persisted: bool)
    requires LedgerInv(s) && (op.SessionOp? || op.DiscardOp?) && Mutated(s, t, op, persisted) && SameCalls(s, t)
    requires t.events == s.events && forall b :: 0 <= b < |s.workers| ==> t.workers[b].results == s.workers[b].results
    ensures LedgerInv(t)
  {
    MutatedGrows(s, t, op, persisted);
    MutatedBacked(s, t);
    MutatedDisposed(s, t);
    SessionSlots(s.journal, op);
    SameSlotsTied(s, t);
  }

  /** The record a worker writes. */
  function Written(w: Worker, value: J.Value, success: bool): J.Record {
    J.Result(w.key, w.agent, value, Some(success), !success)
  }

  /** An open call accepts its result: `recordResult` does not throw. */
  lemma ResultAccepted(run: J.Run, w: Worker, value: J.Value, success: bool)
    requires Tied(run, w) && w.results == 0 && (success || value.FailurePlaceholder?)
    ensures J.Apply(run, ResultOf(w, value, success)).slots ==
      run.slots[w.slot := J.Slot(w.key, w.agent, J.Recorded(Written(w, value, success)))]
  {
  }

  lemma StoreTied(s: State, t: State, a: nat, r: J.Record)
    requires AllTied(s) && a < |s.workers| &&
      t.workers == s.workers[a := s.workers[a].(results := s.workers[a].results + 1)]
    requires var w := s.workers[a]; t.journal.slots == s.journal.slots[w.slot := J.Slot(w.key, w.agent, J.Recorded(r))]
    ensures AllTied(t)
  {
    var w := s.workers[a];
    forall b | 0 <= b < |t.workers| ensures Tied(t.journal, t.workers[b]) {
      assert Tied(s.journal, s.workers[b]);
      assert a < b ==> s.workers[a].slot != s.workers[b].slot;
      assert b < a ==> s.workers[b].slot != s.workers[a].slot;
    }
  }

  lemma StoreKeeps(s: State, a: nat, value: J.Value, success: bool, persisted: bool)
    requires LedgerInv(s) && a < |s.workers| && s.workers[a].results == 0 && (success || value.FailurePlaceholder?)
    requires !s.workers[a].pc.Completing? && !s.workers[a].pc.Reporting?
    ensures var t := Store(s, a, value, success, persisted);
      LedgerInv(t) && (persisted ==> OnRecord(t.durable, t.workers[a], !success))
  {
    var w, t := s.workers[a], Store(s, a, value, success, persisted);
    MutatedGrows(s, t, ResultOf(w, value, success), persisted);
    MutatedBacked(s, t);
    MutatedDisposed(s, t);
    ResultAccepted(s.journal, w, value, success);
    StoreTied(s, t, a, Written(w, value, success));
  }

  lemma UnwindKeeps(c: Config, s: State, a: nat, at: nat)
    requires LedgerInv(s) && a < |s.workers|
    ensures LedgerInv(Unwind(c, s, a, at))
  {
    UnwindQuiet(c, s, a, at);
    QuietKeeps(s, Unwind(c, s, a, at), a);
  }

  lemma RecordKeeps(c: Config, s: State, a: nat, value: J.Value, success: bool, next: Pc, persisted: bool, at: nat)
    requires LedgerInv(s) && a < |s.workers| && s.workers[a].results == 0 && (success || value.FailurePlaceholder?)
    requires s.workers[a].pc.Preparing? || s.workers[a].pc.Executing?
    requires if success then next.Completing? else next.Reporting?
    ensures LedgerInv(Record(c, s, a, value, success, next, persisted, at))
  {
    var t := Store(s, a, value, success, persisted);
    StoreKeeps(s, a, value, success, persisted);
    if persisted {
      QuietKeeps(t, Goto(t, a, next), a);
    } else {
      UnwindKeeps(c, t, a, at);
    }
  }

  lemma TakeRetryKeeps(s: State, a: nat, ambiguous: bool, persisted: bool)
    requires LedgerInv(s) && a < |s.workers|
    ensures LedgerInv(TakeRetry(s, a, ambiguous, persisted))
  {
    var w := s.workers[a];
    SessionKeeps(s, TakeRetry(s, a, ambiguous, persisted), J.DiscardOp(w.slot, w.key, w.agent), persisted);
  }

  lemma ReserveKeeps(c: Config, s: State, a: nat, ambiguous: bool, persisted: bool, at: nat)
    requires LedgerInv(s) && a < |s.workers|
    ensures LedgerInv(Reserve(c, s, a, ambiguous, persisted, at))
  {
    var t := TakeRetry(s, a, ambiguous, persisted);
    TakeRetryKeeps(s, a, ambiguous, persisted);
    if persisted {
      QuietKeeps(t, Goto(t, a, Retrying), a);
    } else {
      UnwindKeeps(c, t, a, at);
    }
  }

  // ---------------------------------------------------------------------------------------------
  // Every step keeps the ledger
  // ---------------------------------------------------------------------------------------------

  /** From the control invariant: a call still being prepared or executed has recorded nothing. */
  predicate Unrecorded(s: State, a: nat) {
    a < |s.workers| && ((s.workers[a].pc.Preparing? || s.workers[a].pc.Executing?) ==> s.workers[a].results == 0)
  }

  lemma DropLeaseKeeps(c: Config, s: State, a: nat, outcome: C.Outcome, at: nat)
    requires LedgerInv(s) && a < |s.workers|
    ensures LedgerInv(DropLease(c, s, a, outcome, at))
  {
    DropLeaseQuiet(c, s, a, outcome, at);
    QuietKeeps(s, DropLease(c, s, a, outcome, at), a);
  }

  lemma ReturnKeeps(c: Config, s: State, op: Op)
    requires op.ReturnOp? && Enabled(c, s, op) && LedgerInv(s) && Unrecorded(s, op.a)
    ensures LedgerInv(Return(c, s, op.a, op.value, op.persisted, op.at))
  {
    var t := DropLease(c, s, op.a, C.Success, op.at);
    DropLeaseQuiet(c, s, op.a, C.Success, op.at);
    DropLeaseKeeps(c, s, op.a, C.Success, op.at);
    if s.aborted {
      UnwindKeeps(c, t, op.a, op.at);
    } else {
      RecordKeeps(c, t, op.a, op.value, true, Completing, op.persisted, op.at);
    }
  }

  lemma FailSettledKeeps(c: Config, s: State, a: nat, retryable: bool, safety: Assessment, text: J.Text,
      persisted: bool, at: nat)
    requires LedgerInv(s) && Unrecorded(s, a) && s.workers[a].pc.Executing?
    ensures LedgerInv(FailSettled(c, s, a, retryable, safety, text, persisted, at))
  {
    if retryable && !safety.automatic {
      RecordKeeps(c, s, a, Placeholder(text), false, Reporting(NeedsRecovery), persisted, at);
    } else if !MayRetry(c, s, s.workers[a], retryable, safety) {
      RecordKeeps(c, s, a, Placeholder(text), false, Reporting(FinalFailure), persisted, at);
    } else {
      ReserveKeeps(c, s, a, false, persisted, at);
    }
  }

  /** Worker `a` is at the same point of the same call, with as many results. */
  ghost predicate Still(s: State, t: State, a: nat) {
    a < |s.workers| && a < |t.workers| && SameCall(s.workers[a], t.workers[a]) &&
      t.workers[a].results == s.workers[a].results
  }

  lemma FailRecordedKeeps(c: Config, s: State, op: Op)
    requires op.FailOp? && Enabled(c, s, op) && LedgerInv(s)
    ensures LedgerInv(FailRecorded(c, s, op)) && Still(s, FailRecorded(c, s, op), op.a)
  {
    var w := s.workers[op.a];
    var t := if op.returned then DropLease(c, s, op.a, C.Success, op.at) else s;
    DropLeaseQuiet(c, s, op.a, C.Success, op.at);
    DropLeaseKeeps(c, s, op.a, C.Success, op.at);
    if op.session.Some? {
      SessionKeeps(t, FailRecorded(c, s, op), J.SessionOp(w.slot, w.key, w.agent, op.session.value),
        op.sessionPersisted);
    }
  }

  lemma FailKeeps(c: Config, s: State, op: Op)
    requires op.FailOp? && Enabled(c, s, op) && LedgerInv(s) && Unrecorded(s, op.a)
    ensures LedgerInv(Fail(c, s, op))
  {
    var u, v := FailRecorded(c, s, op), FailDropped(c, s, op);
    var outcome := if op.retryable && op.infrastructure then C.Failure else C.Neutral;
    FailRecordedKeeps(c, s, op);
    if (op.session.Some? && !op.sessionPersisted) || s.aborted {
      UnwindKeeps(c, u, op.a, op.at);
    } else {
      DropLeaseQuiet(c, u, op.a, outcome, op.at);
      DropLeaseKeeps(c, u, op.a, outcome, op.at);
      FailSettledKeeps(c, v, op.a, op.retryable, ReplaySafety(c, s.workers[op.a], op.provider), op.placeholder,
        op.persisted, op.at);
    }
  }

  /** `t` differs from `s` in nothing the ledger reads. */
  lemma SameLedger(s: State, t: State)
    requires LedgerInv(s) && t.workers == s.workers && t.journal == s.journal && t.durable == s.durable &&
      t.events == s.events
    ensures LedgerInv(t)
  {
    forall i | 0 <= i < |t.events| ensures Backed(t, t.events[i]) {
      assert Backed(s, s.events[i]);
    }
  }

  lemma UnconfirmedKeeps(c: Config, s: State, op: Op)
    requires op.UnconfirmedOp? && Enabled(c, s, op) && LedgerInv(s) && Unrecorded(s, op.a)
    ensures LedgerInv(Unconfirmed(c, s, op))
  {
    var w, r := s.workers[op.a], DropLease(c, s, op.a, C.Failure, op.at);
    var t := r.(unconfirmed := s.unconfirmed + {(op.a, w.attempt)});
    DropLeaseQuiet(c, s, op.a, C.Failure, op.at);
    DropLeaseKeeps(c, s, op.a, C.Failure, op.at);
    SameLedger(r, t);
    if s.aborted {
      QuietKeeps(t, Unconfirmed(c, s, op), op.a);
    } else if MayRetry(c, t, w, true, WriterSafety(ReplaySafety(c, w, op.provider))) {
      ReserveKeeps(c, t, op.a, true, op.persisted, op.at);
    } else {
      var u := t.(fences := t.fences + [Fence(op.a, w.attempt, false, false)]);
      SameLedger(t, u);
      RecordKeeps(c, u, op.a, Placeholder(op.placeholder), false, Reporting(NeedsRecovery), op.persisted, op.at);
    }
  }

  lemma PrepareKeeps(c: Config, s: State, op: Op)
    requires op.PrepareOp? && Enabled(c, s, op) && LedgerInv(s) && Unrecorded(s, op.a)
    ensures LedgerInv(Prepare(c, s, op.a, op.outcome, op.placeholder, op.persisted, op.at))
  {
    if s.aborted || op.outcome.Broken? {
      EscapeQuiet(s, op.a);
      QuietKeeps(s, Escape(s, op.a), op.a);
    } else if op.outcome.Ready? {
      QuietKeeps(s, Goto(s, op.a, AtGate), op.a);
    } else {
      RecordKeeps(c, s, op.a, Placeholder(op.placeholder), false, Reporting(FinalFailure), op.persisted, op.at);
    }
  }

  lemma PublishKeeps(s: State, a: nat, sent: bool, acknowledged: bool)
    requires LedgerInv(s) && a < |s.workers| && Emitting(s.workers[a].pc)
    ensures LedgerInv(Publish(s, a, sent, acknowledged))
  {
    var t := Publish(s, a, sent, acknowledged);
    assert Disposed(s.durable, s.workers[a]);
    forall i | 0 <= i < |t.events| ensures Backed(t, t.events[i]) {
      if i < |s.events| {
        assert Backed(s, s.events[i]);
      }
    }
  }

  lemma EmitKeeps(c: Config, s: State, op: Op)
    requires op.EmitOp? && Enabled(c, s, op) && LedgerInv(s)
    ensures LedgerInv(Emit(c, s, op.a, op.sent, op.acknowledged, op.at))
  {
    var t := Publish(s, op.a, op.sent, op.acknowledged);
    PublishKeeps(s, op.a, op.sent, op.acknowledged);
    PublishedQuiet(c, t, op.a, op.acknowledged, op.at);
    QuietKeeps(t, Emit(c, s, op.a, op.sent, op.acknowledged, op.at), op.a);
  }

  lemma WakeKeeps(c: Config, s: State, a: nat)
    requires LedgerInv(s) && At(s, a, BackingOff)
    ensures LedgerInv(Wake(c, s, a))
  {
    var t := Wake(c, s, a);
    forall b | 0 <= b < |t.workers| ensures Tied(t.journal, t.workers[b]) && Disposed(t.durable, t.workers[b]) {
      assert Tied(s.journal, s.workers[b]);
    }
    forall i | 0 <= i < |t.events| ensures Backed(t, t.events[i]) {
      assert Backed(s, s.events[i]);
    }
  }

  lemma AdmitSlots(run: J.Run, call: J.Call)
    ensures var (after, decision) := J.Admit(run, call);
      && |after.slots| == |run.slots| + 1 && after.slots[..|run.slots|] == run.slots
      && (decision.Miss? ==>
        decision.callIndex == |run.slots| &&
        after.slots[|run.slots|] == J.Slot(decision.key, decision.agent, J.Open))
  {
  }

  lemma AdmitTied(s: State, t: State, u: State)
    requires AllTied(s) && (forall b :: 0 <= b < |s.workers| ==> Tied(t.journal, s.workers[b]))
    requires u.journal == t.journal && |t.journal.slots| == |s.journal.slots| + 1
    requires u.workers == s.workers ||
      (exists w :: u.workers == s.workers + [w] && Tied(t.journal, w) && w.slot == |s.journal.slots|)
    ensures AllTied(u)
  {
    forall b | 0 <= b < |s.workers| ensures s.workers[b].slot < |s.journal.slots| {
      assert Tied(s.journal, s.workers[b]);
    }
  }

  lemma AdmitKeeps(s: State, op: Op)
    requires op.AdmitOp? && LedgerInv(s)
    ensures LedgerInv(Admit(s, op.call, op.isolated, op.persisted))
  {
    var t, u := Journal(s, J.AdmitOp(op.call), op.persisted), Admit(s, op.call, op.isolated, op.persisted);
    MutatedGrows(s, t, J.AdmitOp(op.call), op.persisted);
    MutatedBacked(s, t);
    MutatedDisposed(s, t);
    AdmitSlots(s.journal, op.call);
    forall b | 0 <= b < |s.workers| ensures Tied(t.journal, s.workers[b]) {
      assert Tied(s.journal, s.workers[b]);
      assert t.journal.slots[..|s.journal.slots|][s.workers[b].slot] == s.journal.slots[s.workers[b].slot];
    }
    AdmitTied(s, t, u);
    forall i | 0 <= i < |u.events| ensures Backed(u, u.events[i]) {
      assert Backed(t, t.events[i]);
    }
  }

  lemma EarlyKeeps(c: Config, s: State, op: Op)
    requires Enabled(c, s, op) && Early(op) && LedgerInv(s) && (forall a :: 0 <= a < |s.workers| ==> Unrecorded(s, a))
    ensures LedgerInv(Step(c, s, op))
  {
    match op
    case AdmitOp(_, _, _) => AdmitKeeps(s, op);
    case PrepareOp(_, _, _, _, _) => PrepareKeeps(c, s, op);
    case EnterOp(a, at) =>
      EnterQuiet(c, s, a, at);
      QuietKeeps(s, Enter(c, s, a, at), a);
    case GrantOp(a, at) =>
      GrantQuiet(c, s, a, at);
      QuietKeeps(s, Grant(c, s, a, at), a);
    case LeaveOp(a, at) => UnwindKeeps(c, s, a, at);
    case WakeOp(a) => WakeKeeps(c, s, a);
    case AbortOp => SameLedger(s, Abort(s));
    case FenceSettlesOp(i) => SameLedger(s, FenceSettles(s, i));
  }

  lemma LateKeeps(c: Config, s: State, op: Op)
    requires Enabled(c, s, op) && !Early(op) && LedgerInv(s) && (forall a :: 0 <= a < |s.workers| ==> Unrecorded(s, a))
    ensures LedgerInv(Step(c, s, op))
  {
    match op
    case ProgressOp(a) => SameLedger(s, Progress(s, a));
    case SessionOp(a, thread, persisted) =>
      var w := s.workers[a];
      SessionKeeps(s, Step(c, s, op), J.SessionOp(w.slot, w.key, w.agent, thread), persisted);
    case ReturnOp(_, _, _, _) => ReturnKeeps(c, s, op);
    case FailOp(_, _, _, _, _, _, _, _, _, _) => FailKeeps(c, s, op);
    case UnconfirmedOp(_, _, _, _, _) => UnconfirmedKeeps(c, s, op);
    case EmitOp(_, _, _, _) => EmitKeeps(c, s, op);
  }

  lemma StepKeepsLedger(c: Config, s: State, op: Op)
    requires Enabled(c, s, op) && LedgerInv(s) && (forall a :: 0 <= a < |s.workers| ==> Unrecorded(s, a))
    ensures LedgerInv(Step(c, s, op))
  {
    if Early(op) {
      EarlyKeeps(c, s, op);
    } else {
      LateKeeps(c, s, op);
    }
  }

  // ---------------------------------------------------------------------------------------------
  // What a crash leaves
  // ---------------------------------------------------------------------------------------------

  ghost predicate ReachedBy(begun: J.Run, journal: J.Run, durable: J.Run, ops: seq<J.Op>, k: nat) {
    k <= |ops| && journal == J.ApplyAll(begun, ops) && durable == J.ApplyAll(begun, ops[..k])
  }

  /** The journal is `begun` after some mutations, and the durable journal after a prefix of them. */
  ghost predicate Reached(begun: J.Run, journal: J.Run, durable: J.Run) {
    exists ops: seq<J.Op>, k: nat :: ReachedBy(begun, journal, durable, ops, k)
  }

  lemma {:induction false} ApplyAllPush(run: J.Run, ops: seq<J.Op>, op: J.Op)
    ensures J.ApplyAll(run, ops + [op]) == J.Apply(J.ApplyAll(run, ops), op)
    decreases |ops|
  {
    if ops == [] {
      assert [] + [op] == [op];
    } else {
      ApplyAllPush(J.Apply(run, ops[0]), ops[1..], op);
      assert (ops + [op])[1..] == ops[1..] + [op];
    }
  }

  lemma MutatedReachedBy(begun: J.Run, s: State, t: State, op: J.Op, persisted: bool, ops: seq<J.Op>, k: nat)
    requires ReachedBy(begun, s.journal, s.durable, ops, k) && Mutated(s, t, op, persisted)
    ensures ReachedBy(begun, t.journal, t.durable, ops + [op], if persisted then |ops| + 1 else k)
  {
    ApplyAllPush(begun, ops, op);
    assert (ops + [op])[..k] == ops[..k] && (ops + [op])[..|ops| + 1] == ops + [op];
  }

  lemma MutatedReached(begun: J.Run, s: State, t: State, op: J.Op, persisted: bool)
    requires Reached(begun, s.journal, s.durable) && Mutated(s, t, op, persisted)
    ensures Reached(begun, t.journal, t.durable)
  {
    var ops: seq<J.Op>, k: nat :| ReachedBy(begun, s.journal, s.durable, ops, k);
    MutatedReachedBy(begun, s, t, op, persisted, ops, k);
  }

  ghost predicate StateReached(begun: J.Run, s: State) {
    Reached(begun, s.journal, s.durable)
  }

  lemma RecordReached(begun: J.Run, c: Config, s: State, a: nat, value: J.Value, success: bool, next: Pc,
      persisted: bool, at: nat)
    requires StateReached(begun, s) && a < |s.workers|
    ensures StateReached(begun, Record(c, s, a, value, success, next, persisted, at))
  {
    var t := Store(s, a, value, success, persisted);
    MutatedReached(begun, s, t, ResultOf(s.workers[a], value, success), persisted);
    UnwindQuiet(c, t, a, at);
  }

  lemma ReserveReached(begun: J.Run, c: Config, s: State, a: nat, ambiguous: bool, persisted: bool, at: nat)
    requires StateReached(begun, s) && a < |s.workers|
    ensures StateReached(begun, Reserve(c, s, a, ambiguous, persisted, at))
  {
    var w, t := s.workers[a], TakeRetry(s, a, ambiguous, persisted);
    MutatedReached(begun, s, t, J.DiscardOp(w.slot, w.key, w.agent), persisted);
    UnwindQuiet(c, t, a, at);
  }

  lemma FailSettledReached(begun: J.Run, c: Config, s: State, a: nat, retryable: bool, safety: Assessment,
      text: J.Text, persisted: bool, at: nat)
    requires StateReached(begun, s) && a < |s.workers|
    ensures StateReached(begun, FailSettled(c, s, a, retryable, safety, text, persisted, at))
  {
    RecordReached(begun, c, s, a, Placeholder(text), false, Reporting(NeedsRecovery), persisted, at);
    RecordReached(begun, c, s, a, Placeholder(text), false, Reporting(FinalFailure), persisted, at);
    ReserveReached(begun, c, s, a, false, persisted, at);
  }

  lemma FailRecordedReached(begun: J.Run, c: Config, s: State, op: Op)
    requires op.FailOp? && op.a < |s.workers| && StateReached(begun, s)
    ensures StateReached(begun, FailRecorded(c, s, op))
  {
    var w := s.workers[op.a];
    var t := if op.returned then DropLease(c, s, op.a, C.Success, op.at) else s;
    DropLeaseQuiet(c, s, op.a, C.Success, op.at);
    if op.session.Some? {
      MutatedReached(begun, t, FailRecorded(c, s, op), J.SessionOp(w.slot, w.key, w.agent, op.session.value),
        op.sessionPersisted);
    }
  }

  lemma FailReached(begun: J.Run, c: Config, s: State, op: Op)
    requires op.FailOp? && op.a < |s.workers| && StateReached(begun, s)
    ensures StateReached(begun, Fail(c, s, op))
  {
    var u, v := FailRecorded(c, s, op), FailDropped(c, s, op);
    FailRecordedReached(begun, c, s, op);
    DropLeaseQuiet(c, u, op.a, if op.retryable && op.infrastructure then C.Failure else C.Neutral, op.at);
    UnwindQuiet(c, u, op.a, op.at);
    FailSettledReached(begun, c, v, op.a, op.retryable, ReplaySafety(c, s.workers[op.a], op.provider), op.placeholder,
      op.persisted, op.at);
  }

  lemma UnconfirmedReached(begun: J.Run, c: Config, s: State, op: Op)
    requires op.UnconfirmedOp? && op.a < |s.workers| && StateReached(begun, s)
    ensures StateReached(begun, Unconfirmed(c, s, op))
  {
    var w, r := s.workers[op.a], DropLease(c, s, op.a, C.Failure, op.at);
    DropLeaseQuiet(c, s, op.a, C.Failure, op.at);
    var t := r.(unconfirmed := s.unconfirmed + {(op.a, w.attempt)});
    var u := t.(fences := t.fences + [Fence(op.a, w.attempt, false, false)]);
    ReserveReached(begun, c, t, op.a, true, op.persisted, op.at);
    RecordReached(begun, c, u, op.a, Placeholder(op.placeholder), false, Reporting(NeedsRecovery), op.persisted, op.at);
  }

  lemma ReturnReached(begun: J.Run, c: Config, s: State, op: Op)
    requires op.ReturnOp? && op.a < |s.workers| && StateReached(begun, s)
    ensures StateReached(begun, Return(c, s, op.a, op.value, op.persisted, op.at))
  {
    var t := DropLease(c, s, op.a, C.Success, op.at);
    DropLeaseQuiet(c, s, op.a, C.Success, op.at);
    UnwindQuiet(c, t, op.a, op.at);
    RecordReached(begun, c, t, op.a, op.value, true, Completing, op.persisted, op.at);
  }

  lemma PrepareReached(begun: J.Run, c: Config, s: State, op: Op)
    requires op.PrepareOp? && op.a < |s.workers| && StateReached(begun, s)
    ensures StateReached(begun, Prepare(c, s, op.a, op.outcome, op.placeholder, op.persisted, op.at))
  {
    EscapeQuiet(s, op.a);
    RecordReached(begun, c, s, op.a, Placeholder(op.placeholder), false, Reporting(FinalFailure), op.persisted, op.at);
  }

  lemma EarlyReached(begun: J.Run, c: Config, s: State, op: Op)
    requires Enabled(c, s, op) && Early(op) && StateReached(begun, s)
    ensures StateReached(begun, Step(c, s, op))
  {
    match op
    case AdmitOp(call, isolated, persisted) =>
      MutatedReached(begun, s, Admit(s, call, isolated, persisted), J.AdmitOp(call), persisted);
    case PrepareOp(_, _, _, _, _) => PrepareReached(begun, c, s, op);
    case EnterOp(a, at) => EnterQuiet(c, s, a, at);
    case GrantOp(a, at) => GrantQuiet(c, s, a, at);
    case LeaveOp(a, at) => UnwindQuiet(c, s, a, at);
    case WakeOp(_) =>
    case AbortOp =>
    case FenceSettlesOp(_) =>
  }

  lemma LateReached(begun: J.Run, c: Config, s: State, op: Op)
    requires Enabled(c, s, op) && !Early(op) && StateReached(begun, s)
    ensures StateReached(begun, Step(c, s, op))
  {
    match op
    case ProgressOp(_) =>
    case SessionOp(a, thread, persisted) =>
      var w := s.workers[a];
      MutatedReached(begun, s, Step(c, s, op), J.SessionOp(w.slot, w.key, w.agent, thread), persisted);
    case ReturnOp(_, _, _, _) => ReturnReached(begun, c, s, op);
    case FailOp(_, _, _, _, _, _, _, _, _, _) => FailReached(begun, c, s, op);
    case UnconfirmedOp(_, _, _, _, _) => UnconfirmedReached(begun, c, s, op);
    case EmitOp(a, sent, acknowledged, at) => PublishedQuiet(c, Publish(s, a, sent, acknowledged), a, acknowledged, at);
  }

  lemma StepReached(begun: J.Run, c: Config, s: State, op: Op)
    requires Enabled(c, s, op) && StateReached(begun, s)
    ensures StateReached(begun, Step(c, s, op))
  {
    if Early(op) {
      EarlyReached(begun, c, s, op);
    } else {
      LateReached(begun, c, s, op);
    }
  }
}

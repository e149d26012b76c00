/**
  Permits of the attempt loop are conserved: what the schedulers count is what agents hold and
  quarantined executions keep.
 */
module AttemptPermits {
  import opened Common
  import opened AttemptModel
  import C = CircuitSpec
  import J = JournalModel

  // ---------------------------------------------------------------------------------------------
  // Permits
  // ---------------------------------------------------------------------------------------------

  function Holds(w: Worker, service: bool): bool {
    if service then w.serviceHeld else w.runHeld
  }

  function Held(workers: seq<Worker>, service: bool): int {
    if workers == [] then 0 else Held(workers[..|workers| - 1], service) + One(Holds(workers[|workers| - 1], service))
  }

  function Kept(fences: seq<Fence>, service: bool): int {
    if fences == [] then 0
    else
      var f := fences[|fences| - 1];
      Kept(fences[..|fences| - 1], service) + One(if service then f.service else f.run)
  }

  function Active(s: State, service: bool): int {
    if service then s.serviceActive else s.runActive
  }

  /** Permits counted by the scheduler and owned by nobody. */
  function Leaked(s: State, service: bool): int {
    Active(s, service) - Held(s.workers, service) - Kept(s.fences, service)
  }

  lemma {:induction false} HeldPut(workers: seq<Worker>, a: nat, w: Worker, service: bool)
    requires a < |workers|
    ensures Held(workers[a := w], service) == Held(workers, service) - One(Holds(workers[a], service)) +
      One(Holds(w, service))
    decreases |workers|
  {
    var n := |workers| - 1;
    if a < n {
      HeldPut(workers[..n], a, w, service);
      assert workers[a := w][..n] == workers[..n][a := w];
    } else {
      assert workers[a := w][..n] == workers[..n];
    }
  }

  lemma {:induction false} HeldIsCount(workers: seq<Worker>, service: bool)
    ensures Held(workers, service) >= 0
    ensures (forall a :: 0 <= a < |workers| ==> !Holds(workers[a], service)) ==> Held(workers, service) == 0
    decreases |workers|
  {
    if workers != [] {
      HeldIsCount(workers[..|workers| - 1], service);
    }
  }

  lemma {:induction false} KeptAppend(fences: seq<Fence>, more: seq<Fence>, service: bool)
    ensures Kept(fences + more, service) == Kept(fences, service) + Kept(more, service)
    decreases |more|
  {
    if more == [] {
      assert fences + more == fences;
    } else {
      var n := |more| - 1;
      KeptAppend(fences, more[..n], service);
      assert (fences + more)[..|fences + more| - 1] == fences + more[..n];
    }
  }

  lemma KeptOne(f: Fence, service: bool)
    ensures Kept([f], service) == One(if service then f.service else f.run)
  {
    assert [f][..0] == [];
  }

  lemma PutKeepsLeaks(s: State, t: State, a: nat, w: Worker, service: bool)
    requires a < |s.workers| && t.workers == s.workers[a := w] && t.fences == s.fences
    requires Active(t, service) == Active(s, service) - One(Holds(s.workers[a], service)) + One(Holds(w, service))
    ensures Leaked(t, service) == Leaked(s, service)
  {
    HeldPut(s.workers, a, w, service);
  }

  lemma DropPermitsLeaks(s: State, a: nat, service: bool)
    requires a < |s.workers|
    ensures Leaked(DropPermits(s, a), service) == Leaked(s, service)
  {
    var w := s.workers[a].(runHeld := false, serviceHeld := false);
    PutKeepsLeaks(s, DropPermits(s, a), a, w, service);
  }

  lemma ParkPermitsLeaks(s: State, a: nat, service: bool)
    requires a < |s.workers|
    ensures Leaked(ParkPermits(s, a), service) == Leaked(s, service)
  {
    var w := s.workers[a];
    var f := Fence(a, w.attempt, w.runHeld, w.serviceHeld);
    HeldPut(s.workers, a, w.(runHeld := false, serviceHeld := false), service);
    KeptAppend(s.fences, [f], service);
    KeptOne(f, service);
  }

  /** Everything that concerns permits is as it was, except control state of worker `a`. */
  ghost predicate SamePermits(s: State, t: State, a: nat) {
    && a < |s.workers| && |t.workers| == |s.workers|
    && t.workers == s.workers[a := t.workers[a]]
    && t.workers[a].runHeld == s.workers[a].runHeld && t.workers[a].serviceHeld == s.workers[a].serviceHeld
    && t.runActive == s.runActive && t.serviceActive == s.serviceActive && t.fences == s.fences
  }

  lemma SamePermitsLeaks(s: State, t: State, a: nat, service: bool)
    requires SamePermits(s, t, a)
    ensures Leaked(t, service) == Leaked(s, service)
  {
    PutKeepsLeaks(s, t, a, t.workers[a], service);
  }

  lemma DropLeaseSamePermits(c: Config, s: State, a: nat, outcome: C.Outcome, at: nat)
    requires a < |s.workers|
    ensures SamePermits(s, DropLease(c, s, a, outcome, at), a)
  {
  }

  lemma UnwindLeaks(c: Config, s: State, a: nat, at: nat, service: bool)
    requires a < |s.workers|
    ensures Leaked(Unwind(c, s, a, at), service) == Leaked(s, service)
  {
    var t := DropLease(c, s, a, C.Neutral, at);
    DropLeaseSamePermits(c, s, a, C.Neutral, at);
    SamePermitsLeaks(s, t, a, service);
    DropPermitsLeaks(t, a, service);
    SamePermitsLeaks(DropPermits(t, a), Unwind(c, s, a, at), a, service);
  }

  lemma FinishLeaks(s: State, a: nat, service: bool)
    requires a < |s.workers|
    ensures Leaked(Finish(s, a), service) == Leaked(s, service)
  {
    DropPermitsLeaks(s, a, service);
    SamePermitsLeaks(DropPermits(s, a), Finish(s, a), a, service);
  }

  lemma GotoLeaks(s: State, a: nat, pc: Pc, service: bool)
    requires a < |s.workers|
    ensures Leaked(Goto(s, a, pc), service) == Leaked(s, service)
  {
    SamePermitsLeaks(s, Goto(s, a, pc), a, service);
  }

  lemma StoreLeaks(s: State, a: nat, value: J.Value, success: bool, persisted: bool, service: bool)
    requires a < |s.workers|
    ensures Leaked(Store(s, a, value, success, persisted), service) == Leaked(s, service)
  {
    SamePermitsLeaks(s, Store(s, a, value, success, persisted), a, service);
  }

  lemma TakeRetryLeaks(s: State, a: nat, ambiguous: bool, persisted: bool, service: bool)
    requires a < |s.workers|
    ensures Leaked(TakeRetry(s, a, ambiguous, persisted), service) == Leaked(s, service)
  {
    SamePermitsLeaks(s, TakeRetry(s, a, ambiguous, persisted), a, service);
  }

  lemma RecordLeaks(c: Config, s: State, a: nat, value: J.Value, success: bool, next: Pc, persisted: bool, at: nat,
      service: bool)
    requires a < |s.workers|
    ensures Leaked(Record(c, s, a, value, success, next, persisted, at), service) == Leaked(s, service)
  {
    var t := Store(s, a, value, success, persisted);
    StoreLeaks(s, a, value, success, persisted, service);
    GotoLeaks(t, a, next, service);
    UnwindLeaks(c, t, a, at, service);
  }

  lemma ReserveLeaks(c: Config, s: State, a: nat, ambiguous: bool, persisted: bool, at: nat, service: bool)
    requires a < |s.workers|
    ensures Leaked(Reserve(c, s, a, ambiguous, persisted, at), service) == Leaked(s, service)
  {
    var t := TakeRetry(s, a, ambiguous, persisted);
    TakeRetryLeaks(s, a, ambiguous, persisted, service);
    GotoLeaks(t, a, Retrying, service);
    UnwindLeaks(c, t, a, at, service);
  }

  lemma CheckLeaks(c: Config, s: State, a: nat, at: nat, service: bool)
    requires a < |s.workers|
    ensures Leaked(Check(c, s, a, at), service) == Leaked(s, service)
  {
    var w := s.workers[a];
    if w.lease.Some? && w.lease.value < |s.circuit.leases| && C.StartAllowed(s.circuit, w.lease.value) {
      var t := s.(circuit := C.Start(s.circuit, w.lease.value));
      SamePermitsLeaks(s, t, a, service);
      if s.aborted {
        UnwindLeaks(c, t, a, at, service);
      } else {
        GotoLeaks(t, a, Starting, service);
      }
    } else {
      UnwindLeaks(c, s, a, at, service);
      SamePermitsLeaks(Unwind(c, s, a, at), Check(c, s, a, at), a, service);
    }
  }

  lemma GrantLeaks(c: Config, s: State, a: nat, at: nat, service: bool)
    requires a < |s.workers| &&
      (if s.workers[a].pc.AwaitingRun? then !s.workers[a].runHeld else !s.workers[a].serviceHeld)
    ensures Leaked(Grant(c, s, a, at), service) == Leaked(s, service)
  {
    var t := if s.workers[a].pc.AwaitingRun? then GrantRun(s, a) else GrantService(s, a);
    PutKeepsLeaks(s, t, a, t.workers[a], service);
    if s.workers[a].pc.AwaitingRun? && c.twoLevel {
      GotoLeaks(t, a, AwaitingService, service);
    } else {
      CheckLeaks(c, t, a, at, service);
    }
  }

  lemma FailSettledLeaks(c: Config, s: State, a: nat, retryable: bool, safety: Assessment, text: J.Text,
      persisted: bool, at: nat, service: bool)
    requires a < |s.workers|
    ensures Leaked(FailSettled(c, s, a, retryable, safety, text, persisted, at), service) == Leaked(s, service)
  {
    RecordLeaks(c, s, a, Placeholder(text), false, Reporting(NeedsRecovery), persisted, at, service);
    RecordLeaks(c, s, a, Placeholder(text), false, Reporting(FinalFailure), persisted, at, service);
    ReserveLeaks(c, s, a, false, persisted, at, service);
  }

  lemma FailLeaks(c: Config, s: State, op: Op, service: bool)
    requires op.FailOp? && op.a < |s.workers|
    ensures Leaked(Fail(c, s, op), service) == Leaked(s, service)
  {
    var t := if op.returned then DropLease(c, s, op.a, C.Success, op.at) else s;
    var u, v := FailRecorded(c, s, op), FailDropped(c, s, op);
    DropLeaseSamePermits(c, s, op.a, C.Success, op.at);
    SamePermitsLeaks(s, t, op.a, service);
    SamePermitsLeaks(t, u, op.a, service);
    DropLeaseSamePermits(c, u, op.a, if op.retryable && op.infrastructure then C.Failure else C.Neutral, op.at);
    SamePermitsLeaks(u, v, op.a, service);
    UnwindLeaks(c, u, op.a, op.at, service);
    FailSettledLeaks(c, v, op.a, op.retryable, ReplaySafety(c, s.workers[op.a], op.provider), op.placeholder,
      op.persisted, op.at, service);
  }

  lemma UnconfirmedLeaks(c: Config, s: State, op: Op, service: bool)
    requires op.UnconfirmedOp? && op.a < |s.workers|
    ensures Leaked(Unconfirmed(c, s, op), service) == Leaked(s, service)
  {
    var w := s.workers[op.a];
    var t := DropLease(c, s, op.a, C.Failure, op.at).(unconfirmed := s.unconfirmed + {(op.a, w.attempt)});
    DropLeaseSamePermits(c, s, op.a, C.Failure, op.at);
    SamePermitsLeaks(s, t, op.a, service);
    if s.aborted {
      ParkPermitsLeaks(t, op.a, service);
      SamePermitsLeaks(ParkPermits(t, op.a), Unconfirmed(c, s, op), op.a, service);
    } else if MayRetry(c, t, w, true, WriterSafety(ReplaySafety(c, w, op.provider))) {
      ReserveLeaks(c, t, op.a, true, op.persisted, op.at, service);
    } else {
      var f := Fence(op.a, w.attempt, false, false);
      KeptAppend(t.fences, [f], service);
      KeptOne(f, service);
      RecordLeaks(c, t.(fences := t.fences + [f]), op.a, Placeholder(op.placeholder), false, Reporting(NeedsRecovery),
        op.persisted, op.at, service);
    }
  }

  lemma PublishedLeaks(c: Config, s: State, a: nat, acknowledged: bool, at: nat, service: bool)
    requires a < |s.workers| && Emitting(s.workers[a].pc)
    ensures Leaked(Published(c, s, a, acknowledged, at), service) == Leaked(s, service)
  {
    FinishLeaks(s, a, service);
    UnwindLeaks(c, s, a, at, service);
    GotoLeaks(s, a, Executing, service);
    DropPermitsLeaks(s, a, service);
    GotoLeaks(DropPermits(s, a), a, BackingOff, service);
  }

  lemma {:induction false} AttemptFencesKeepNothing(a: nat, attempts: seq<nat>, service: bool)
    ensures Kept(AttemptFences(a, attempts), service) == 0
    decreases |attempts|
  {
    if attempts != [] {
      AttemptFencesKeepNothing(a, attempts[1..], service);
      KeptOne(Fence(a, attempts[0], false, false), service);
      KeptAppend([Fence(a, attempts[0], false, false)], AttemptFences(a, attempts[1..]), service);
    }
  }

  lemma {:induction false} AbortFencesKeepNothing(workers: seq<Worker>, a: nat, service: bool)
    requires a <= |workers|
    ensures Kept(AbortFences(workers, a), service) == 0
    decreases |workers| - a
  {
    if a < |workers| {
      var first := if workers[a].pc.Finished? then [] else AttemptFences(a, workers[a].ambiguous);
      AttemptFencesKeepNothing(a, workers[a].ambiguous, service);
      AbortFencesKeepNothing(workers, a + 1, service);
      KeptAppend(first, AbortFences(workers, a + 1), service);
    }
  }

  lemma FenceSettlesLeaks(s: State, i: nat, service: bool)
    requires i < |s.fences|
    ensures Leaked(FenceSettles(s, i), service) == Leaked(s, service)
  {
    var f := s.fences[i];
    assert s.fences == s.fences[..i] + ([f] + s.fences[i + 1..]);
    KeptAppend(s.fences[..i], [f] + s.fences[i + 1..], service);
    KeptAppend([f], s.fences[i + 1..], service);
    KeptAppend(s.fences[..i], s.fences[i + 1..], service);
    KeptOne(f, service);
  }

  lemma AdmitLeaks(s: State, call: J.Call, isolated: bool, persisted: bool, service: bool)
    ensures Leaked(Admit(s, call, isolated, persisted), service) == Leaked(s, service)
  {
    var t := Admit(s, call, isolated, persisted);
    assert t.workers != s.workers ==>
      t.workers[..|t.workers| - 1] == s.workers &&
      !Holds(t.workers[|t.workers| - 1], service);
  }

  lemma PrepareLeaks(c: Config, s: State, op: Op, service: bool)
    requires op.PrepareOp? && op.a < |s.workers|
    ensures Leaked(Prepare(c, s, op.a, op.outcome, op.placeholder, op.persisted, op.at), service) == Leaked(s, service)
  {
    RecordLeaks(c, s, op.a, Placeholder(op.placeholder), false, Reporting(FinalFailure), op.persisted, op.at, service);
    SamePermitsLeaks(s, Escape(s, op.a), op.a, service);
    GotoLeaks(s, op.a, AtGate, service);
  }

  lemma ReturnLeaks(c: Config, s: State, op: Op, service: bool)
    requires op.ReturnOp? && op.a < |s.workers|
    ensures Leaked(Return(c, s, op.a, op.value, op.persisted, op.at), service) == Leaked(s, service)
  {
    var t := DropLease(c, s, op.a, C.Success, op.at);
    DropLeaseSamePermits(c, s, op.a, C.Success, op.at);
    SamePermitsLeaks(s, t, op.a, service);
    UnwindLeaks(c, t, op.a, op.at, service);
    RecordLeaks(c, t, op.a, op.value, true, Completing, op.persisted, op.at, service);
  }

  lemma AbortLeaks(s: State, service: bool)
    ensures Leaked(Abort(s), service) == Leaked(s, service)
  {
    AbortFencesKeepNothing(s.workers, 0, service);
    KeptAppend(s.fences, AbortFences(s.workers, 0), service);
  }

  lemma EarlyLeaks(c: Config, s: State, op: Op, service: bool)
    requires Enabled(c, s, op) && Early(op)
    requires op.GrantOp? ==> if s.workers[op.a].pc.AwaitingRun? then !s.workers[op.a].runHeld
      else !s.workers[op.a].serviceHeld
    ensures Leaked(Step(c, s, op), service) == Leaked(s, service)
  {
    match op
    case AdmitOp(call, isolated, persisted) => AdmitLeaks(s, call, isolated, persisted, service);
    case PrepareOp(_, _, _, _, _) => PrepareLeaks(c, s, op, service);
    case EnterOp(a, at) => SamePermitsLeaks(s, Enter(c, s, a, at), a, service);
    case GrantOp(a, at) => GrantLeaks(c, s, a, at, service);
    case LeaveOp(a, at) => UnwindLeaks(c, s, a, at, service);
    case WakeOp(a) => SamePermitsLeaks(s, Wake(c, s, a), a, service);
    case AbortOp => AbortLeaks(s, service);
    case FenceSettlesOp(i) => FenceSettlesLeaks(s, i, service);
  }

  lemma LateLeaks(c: Config, s: State, op: Op, service: bool)
    requires Enabled(c, s, op) && !Early(op)
    ensures Leaked(Step(c, s, op), service) == Leaked(s, service)
  {
    match op
    case ProgressOp(a) => SamePermitsLeaks(s, Progress(s, a), a, service);
    case SessionOp(a, _, _) => SamePermitsLeaks(s, Step(c, s, op), a, service);
    case ReturnOp(_, _, _, _) => ReturnLeaks(c, s, op, service);
    case FailOp(_, _, _, _, _, _, _, _, _, _) => FailLeaks(c, s, op, service);
    case UnconfirmedOp(_, _, _, _, _) => UnconfirmedLeaks(c, s, op, service);
    case EmitOp(a, sent, acknowledged, at) =>
      PublishedLeaks(c, Publish(s, a, sent, acknowledged), a, acknowledged, at, service);
  }

  /** No step creates or loses a permit. */
  lemma StepLeaksNothing(c: Config, s: State, op: Op, service: bool)
    requires Enabled(c, s, op)
    requires op.GrantOp? ==> if s.workers[op.a].pc.AwaitingRun? then !s.workers[op.a].runHeld
      else !s.workers[op.a].serviceHeld
    ensures Leaked(Step(c, s, op), service) == Leaked(s, service)
  {
    if Early(op) {
      EarlyLeaks(c, s, op, service);
    } else {
      LateLeaks(c, s, op, service);
    }
  }
}

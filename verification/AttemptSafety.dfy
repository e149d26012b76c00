/**
  The guarantees of the attempt loop under every interleaving: nothing leaks, nothing runs away, the
  journal is ahead of the events, and an abort fences every execution that may still be alive.
 */
module AttemptSafety {
  import opened Common
  import opened AttemptModel
  import opened AttemptFlow
  import opened AttemptLeases
  import AttemptPermits
  import L = AttemptLedger
  import C = CircuitSpec
  import J = JournalModel
  import R = JournalResume
  import U = JournalReuse

  // ---------------------------------------------------------------------------------------------
  // The shape of a step of one agent
  // ---------------------------------------------------------------------------------------------

  ghost predicate Spends(c: Config, s: State, t: State, a: nat)
    requires a < |s.workers| == |t.workers|
  {
    && t.retries - s.retries == t.workers[a].reserved - s.workers[a].reserved
    && (t.retries == s.retries || (t.retries == s.retries + 1 && s.retries < c.maxRetries))
  }

  /** Permits are only granted below the limit. */
  predicate Limited(c: Config, s: State, t: State) {
    && (t.runActive <= s.runActive || t.runActive <= c.runLimit)
    && (t.serviceActive <= s.serviceActive || t.serviceActive <= c.serviceLimit)
  }

  predicate FencedAt(fences: seq<Fence>, a: nat, k: nat) {
    exists i :: 0 <= i < |fences| && fences[i].worker == a && fences[i].attempt == k
  }

  ghost predicate Confines(s: State, t: State, a: nat)
    requires a < |s.workers| == |t.workers|
  {
    var k := s.workers[a].attempt;
    && s.workers[a].ambiguous <= t.workers[a].ambiguous
    && (t.unconfirmed == s.unconfirmed
        || (t.unconfirmed == s.unconfirmed + {(a, k)} &&
          (FencedAt(t.fences, a, k) || (!s.aborted && k in t.workers[a].ambiguous))))
  }

  /** One agent moved: it took at most one retry, lost no fence, and an attempt whose termination it
      could not confirm is fenced, or kept for the abort listener. */
  ghost predicate Moves(c: Config, s: State, t: State, a: nat) {
    && a < |s.workers| && |t.workers| == |s.workers|
    && (forall b :: 0 <= b < |s.workers| && b != a ==> t.workers[b] == s.workers[b])
    && t.aborted == s.aborted && s.fences <= t.fences && t.stopped == s.stopped
    && t.events == s.events && t.storageDown == s.storageDown
    && Spends(c, s, t, a) && Confines(s, t, a) && Limited(c, s, t)
    && (t.workers[a].pc == Finished(false) ==> s.aborted)
  }

  lemma QuietMoves(c: Config, s: State, t: State, a: nat)
    requires L.Quiet(s, t, a) && Limited(c, s, t) && (t.workers[a].pc == Finished(false) ==> s.aborted)
    ensures Moves(c, s, t, a)
  {
  }

  lemma MovesThenQuiet(c: Config, s: State, t: State, u: State, a: nat)
    requires Moves(c, s, t, a) && L.Quiet(t, u, a) && L.NoMore(t, u) &&
      (u.workers[a].pc == Finished(false) ==> s.aborted)
    ensures Moves(c, s, u, a)
  {
    if FencedAt(t.fences, a, s.workers[a].attempt) {
      var i :| 0 <= i < |t.fences| && t.fences[i].worker == a && t.fences[i].attempt == s.workers[a].attempt;
      assert u.fences[i] == t.fences[i];
    }
  }

  /** `t` has not yet touched retries, fences or suspicions. */
  ghost predicate Calm(s: State, t: State, a: nat) {
    && a < |s.workers| && |t.workers| == |s.workers|
    && (forall b :: 0 <= b < |s.workers| && b != a ==> t.workers[b] == s.workers[b])
    && t.aborted == s.aborted && t.fences == s.fences && t.stopped == s.stopped
    && t.events == s.events && t.storageDown == s.storageDown && t.retries == s.retries &&
      t.unconfirmed == s.unconfirmed
    && t.workers[a].reserved == s.workers[a].reserved && t.workers[a].ambiguous == s.workers[a].ambiguous
    && t.workers[a].attempt == s.workers[a].attempt && t.workers[a].pc == s.workers[a].pc
    && t.workers[a].worktree == s.workers[a].worktree && L.NoMore(s, t)
  }

  lemma DropLeaseCalm(c: Config, s: State, a: nat, outcome: C.Outcome, at: nat)
    requires a < |s.workers|
    ensures Calm(s, DropLease(c, s, a, outcome, at), a)
  {
  }

  lemma CalmThen(c: Config, s: State, t: State, u: State, a: nat)
    requires Calm(s, t, a) && Moves(c, t, u, a)
    ensures Moves(c, s, u, a)
  {
  }

  lemma RecordMoves(c: Config, s: State, a: nat, value: J.Value, success: bool, next: Pc, persisted: bool, at: nat)
    requires a < |s.workers| && !next.Finished? && (s.workers[a].pc == Finished(false) ==> s.aborted)
    ensures Moves(c, s, Record(c, s, a, value, success, next, persisted, at), a)
  {
    var t := Store(s, a, value, success, persisted);
    assert Moves(c, s, t, a);
    L.UnwindQuiet(c, t, a, at);
    MovesThenQuiet(c, s, t, Record(c, s, a, value, success, next, persisted, at), a);
  }

  lemma ReserveMoves(c: Config, s: State, a: nat, persisted: bool, at: nat)
    requires a < |s.workers| && s.retries < c.maxRetries && !s.workers[a].pc.Finished?
    ensures Moves(c, s, Reserve(c, s, a, false, persisted, at), a)
  {
    var t := TakeRetry(s, a, false, persisted);
    assert Moves(c, s, t, a);
    L.UnwindQuiet(c, t, a, at);
    MovesThenQuiet(c, s, t, Reserve(c, s, a, false, persisted, at), a);
  }

  lemma FailSettledMoves(c: Config, s: State, a: nat, retryable: bool, safety: Assessment, text: J.Text,
      persisted: bool, at: nat)
    requires a < |s.workers| && !s.workers[a].pc.Finished?
    ensures Moves(c, s, FailSettled(c, s, a, retryable, safety, text, persisted, at), a)
  {
    if retryable && !safety.automatic {
      RecordMoves(c, s, a, Placeholder(text), false, Reporting(NeedsRecovery), persisted, at);
    } else if !MayRetry(c, s, s.workers[a], retryable, safety) {
      RecordMoves(c, s, a, Placeholder(text), false, Reporting(FinalFailure), persisted, at);
    } else {
      ReserveMoves(c, s, a, persisted, at);
    }
  }

  lemma FailRecordedCalm(c: Config, s: State, op: Op)
    requires op.FailOp? && op.a < |s.workers|
    ensures Calm(s, FailRecorded(c, s, op), op.a)
  {
    DropLeaseCalm(c, s, op.a, C.Success, op.at);
  }

  lemma CalmTwice(s: State, t: State, u: State, a: nat)
    requires Calm(s, t, a) && Calm(t, u, a)
    ensures Calm(s, u, a)
  {
  }

  lemma FailMoves(c: Config, s: State, op: Op)
    requires op.FailOp? && Enabled(c, s, op)
    ensures Moves(c, s, Fail(c, s, op), op.a)
  {
    var u, v := FailRecorded(c, s, op), FailDropped(c, s, op);
    FailRecordedCalm(c, s, op);
    if (op.session.Some? && !op.sessionPersisted) || s.aborted {
      L.UnwindQuiet(c, u, op.a, op.at);
      QuietMoves(c, u, Unwind(c, u, op.a, op.at), op.a);
      CalmThen(c, s, u, Unwind(c, u, op.a, op.at), op.a);
    } else {
      DropLeaseCalm(c, u, op.a, if op.retryable && op.infrastructure then C.Failure else C.Neutral, op.at);
      CalmTwice(s, u, v, op.a);
      FailSettledMoves(c, v, op.a, op.retryable, ReplaySafety(c, s.workers[op.a], op.provider), op.placeholder,
        op.persisted, op.at);
      CalmThen(c, s, v, Fail(c, s, op), op.a);
    }
  }

  lemma ReturnMoves(c: Config, s: State, op: Op)
    requires op.ReturnOp? && Enabled(c, s, op)
    ensures Moves(c, s, Return(c, s, op.a, op.value, op.persisted, op.at), op.a)
  {
    var t := DropLease(c, s, op.a, C.Success, op.at);
    DropLeaseCalm(c, s, op.a, C.Success, op.at);
    L.UnwindQuiet(c, t, op.a, op.at);
    QuietMoves(c, t, Unwind(c, t, op.a, op.at), op.a);
    RecordMoves(c, t, op.a, op.value, true, Completing, op.persisted, op.at);
    CalmThen(c, s, t, Return(c, s, op.a, op.value, op.persisted, op.at), op.a);
  }

  lemma UnconfirmedFenced(c: Config, s: State, op: Op, u: State)
    requires op.UnconfirmedOp? && Enabled(c, s, op)
    requires var w := s.workers[op.a];
      u == DropLease(c, s, op.a, C.Failure, op.at).(unconfirmed := s.unconfirmed + {(op.a, w.attempt)},
        fences := s.fences + [Fence(op.a, w.attempt, false, false)])
    ensures Moves(c, s, Record(c, u, op.a, Placeholder(op.placeholder), false, Reporting(NeedsRecovery), op.persisted,
      op.at), op.a)
  {
    var w := s.workers[op.a];
    DropLeaseCalm(c, s, op.a, C.Failure, op.at);
    var v := Store(u, op.a, Placeholder(op.placeholder), false, op.persisted);
    assert v.fences[|s.fences|] == Fence(op.a, w.attempt, false, false);
    assert FencedAt(v.fences, op.a, w.attempt);
    assert Moves(c, s, v, op.a);
    L.UnwindQuiet(c, v, op.a, op.at);
    MovesThenQuiet(c, s, v,
      Record(c, u, op.a, Placeholder(op.placeholder), false, Reporting(NeedsRecovery), op.persisted, op.at), op.a);
  }

  lemma UnconfirmedMoves(c: Config, s: State, op: Op)
    requires op.UnconfirmedOp? && Enabled(c, s, op)
    ensures Moves(c, s, Unconfirmed(c, s, op), op.a)
  {
    var a, w := op.a, s.workers[op.a];
    var r := DropLease(c, s, a, C.Failure, op.at);
    DropLeaseCalm(c, s, a, C.Failure, op.at);
    var t := r.(unconfirmed := s.unconfirmed + {(a, w.attempt)});
    if s.aborted {
      var u := ParkPermits(t, a);
      assert u.fences[|t.fences|] == Fence(a, w.attempt, r.workers[a].runHeld, r.workers[a].serviceHeld);
      assert FencedAt(u.fences, a, w.attempt);
    } else if MayRetry(c, t, w, true, WriterSafety(ReplaySafety(c, w, op.provider))) {
      var u := TakeRetry(t, a, true, op.persisted);
      assert u.workers[a].ambiguous == w.ambiguous + [w.attempt];
      assert Moves(c, s, u, a);
      L.UnwindQuiet(c, u, a, op.at);
      MovesThenQuiet(c, s, u, Unconfirmed(c, s, op), a);
    } else {
      var u := t.(fences := t.fences + [Fence(a, w.attempt, false, false)]);
      UnconfirmedFenced(c, s, op, u);
    }
  }

  lemma PrepareMoves(c: Config, s: State, op: Op)
    requires op.PrepareOp? && Enabled(c, s, op)
    ensures Moves(c, s, Prepare(c, s, op.a, op.outcome, op.placeholder, op.persisted, op.at), op.a)
  {
    L.EscapeQuiet(s, op.a);
    QuietMoves(c, s, Escape(s, op.a), op.a);
    QuietMoves(c, s, Goto(s, op.a, AtGate), op.a);
    RecordMoves(c, s, op.a, Placeholder(op.placeholder), false, Reporting(FinalFailure), op.persisted, op.at);
  }

  /** The agent a step belongs to. */
  function Mover(op: Op): Option<nat> {
    match op
    case AdmitOp(_, _, _) => None
    case AbortOp => None
    case FenceSettlesOp(_) => None
    case PrepareOp(a, _, _, _, _) => Some(a)
    case EnterOp(a, _) => Some(a)
    case GrantOp(a, _) => Some(a)
    case LeaveOp(a, _) => Some(a)
    case ProgressOp(a) => Some(a)
    case SessionOp(a, _, _) => Some(a)
    case ReturnOp(a, _, _, _) => Some(a)
    case FailOp(a, _, _, _, _, _, _, _, _, _) => Some(a)
    case UnconfirmedOp(a, _, _, _, _) => Some(a)
    case EmitOp(a, _, _, _) => Some(a)
    case WakeOp(a) => Some(a)
  }

  /** What the step starts from once its own publication is counted. */
  function Sent(s: State, op: Op): State
    requires op.EmitOp? ==> op.a < |s.workers| && Emitting(s.workers[op.a].pc)
  {
    if op.EmitOp? then Publish(s, op.a, op.sent, op.acknowledged) else s
  }

  lemma EarlyMoves(c: Config, s: State, op: Op)
    requires Enabled(c, s, op) && Mover(op).Some? && Early(op)
    ensures Moves(c, s, Step(c, s, op), Mover(op).value) && !s.workers[Mover(op).value].pc.Finished?
  {
    match op
    case PrepareOp(_, _, _, _, _) => PrepareMoves(c, s, op);
    case EnterOp(a, at) =>
      L.EnterQuiet(c, s, a, at);
      QuietMoves(c, s, Enter(c, s, a, at), a);
    case GrantOp(a, at) =>
      L.GrantQuiet(c, s, a, at);
      QuietMoves(c, s, Grant(c, s, a, at), a);
    case LeaveOp(a, at) =>
      L.UnwindQuiet(c, s, a, at);
      QuietMoves(c, s, Unwind(c, s, a, at), a);
    case WakeOp(_) =>
  }

  lemma PublishedFinish(c: Config, s: State, a: nat, acknowledged: bool, at: nat)
    requires a < |s.workers| && Emitting(s.workers[a].pc)
    ensures Published(c, s, a, acknowledged, at).workers[a].pc == Finished(false) ==> s.aborted
  {
    L.UnwindQuiet(c, s, a, at);
    L.FinishQuiet(s, a);
  }

  lemma LateMoves(c: Config, s: State, op: Op)
    requires Enabled(c, s, op) && Mover(op).Some? && !Early(op)
    ensures Moves(c, Sent(s, op), Step(c, s, op), Mover(op).value) && !s.workers[Mover(op).value].pc.Finished?
  {
    match op
    case ProgressOp(_) =>
    case SessionOp(_, _, _) =>
    case ReturnOp(_, _, _, _) => ReturnMoves(c, s, op);
    case FailOp(_, _, _, _, _, _, _, _, _, _) => FailMoves(c, s, op);
    case UnconfirmedOp(_, _, _, _, _) => UnconfirmedMoves(c, s, op);
    case EmitOp(a, sent, acknowledged, at) =>
      var t := Publish(s, a, sent, acknowledged);
      L.PublishedQuiet(c, t, a, acknowledged, at);
      PublishedFinish(c, t, a, acknowledged, at);
      QuietMoves(c, t, Step(c, s, op), a);
  }

  lemma StepMoves(c: Config, s: State, op: Op)
    requires Enabled(c, s, op) && Mover(op).Some?
    ensures Moves(c, Sent(s, op), Step(c, s, op), Mover(op).value) && !s.workers[Mover(op).value].pc.Finished?
  {
    if Early(op) {
      EarlyMoves(c, s, op);
    } else {
      LateMoves(c, s, op);
    }
  }

  // ---------------------------------------------------------------------------------------------
  // Retry budget
  // ---------------------------------------------------------------------------------------------

  function Reserved(workers: seq<Worker>): nat {
    if workers == [] then 0 else Reserved(workers[..|workers| - 1]) + workers[|workers| - 1].reserved
  }

  function Attempts(workers: seq<Worker>): nat {
    if workers == [] then 0 else Attempts(workers[..|workers| - 1]) + workers[|workers| - 1].attempt
  }

  lemma {:induction false} ReservedPut(workers: seq<Worker>, a: nat, w: Worker)
    requires a < |workers|
    ensures Reserved(workers[a := w]) == Reserved(workers) - workers[a].reserved + w.reserved
    decreases |workers|
  {
    var n := |workers| - 1;
    if a < n {
      ReservedPut(workers[..n], a, w);
      assert workers[a := w][..n] == workers[..n][a := w];
    } else {
      assert workers[a := w][..n] == workers[..n];
    }
  }

  lemma {:induction false} AttemptsWithinReserved(c: Config, workers: seq<Worker>)
    requires forall a :: 0 <= a < |workers| ==> AttemptsFit(c, workers[a])
    ensures Attempts(workers) <= |workers| + Reserved(workers)
    decreases |workers|
  {
    if workers != [] {
      assert AttemptsFit(c, workers[|workers| - 1]);
      AttemptsWithinReserved(c, workers[..|workers| - 1]);
    }
  }

  ghost predicate Bounded(c: Config, s: State) {
    && s.retries == Reserved(s.workers) && s.retries <= c.maxRetries
    && s.runActive <= c.runLimit && s.serviceActive <= c.serviceLimit
  }

  lemma MovesBounded(c: Config, s: State, t: State, a: nat)
    requires Moves(c, s, t, a) && Bounded(c, s)
    ensures Bounded(c, t)
  {
    ReservedPut(s.workers, a, t.workers[a]);
    assert t.workers == s.workers[a := t.workers[a]];
  }

  lemma StepBounded(c: Config, s: State, op: Op)
    requires Enabled(c, s, op) && Bounded(c, s)
    ensures Bounded(c, Step(c, s, op))
  {
    var t := Step(c, s, op);
    if Mover(op).Some? {
      StepMoves(c, s, op);
      MovesBounded(c, Sent(s, op), t, Mover(op).value);
    } else if t.workers != s.workers {
      assert t.workers[..|t.workers| - 1] == s.workers && t.workers[|t.workers| - 1].reserved == 0;
    }
  }

  // ---------------------------------------------------------------------------------------------
  // Executions that may still be alive
  // ---------------------------------------------------------------------------------------------

  /** The execution is fenced, or known to have stopped, or left to an agent that is still at work or
      was done before the abort. */
  predicate Accounted(s: State, a: nat, k: nat) {
    || FencedAt(s.fences, a, k)
    || (a, k) in s.stopped
    || (a < |s.workers| && k in s.workers[a].ambiguous && (s.aborted ==> s.workers[a].pc == Finished(true)))
  }

  ghost predicate Contained(s: State) {
    && (forall a: nat, k: nat :: (a, k) in s.unconfirmed ==> Accounted(s, a, k))
    && (!s.aborted ==> forall a :: 0 <= a < |s.workers| ==> s.workers[a].pc != Finished(false))
  }

  lemma FencedGrows(fences: seq<Fence>, more: seq<Fence>, a: nat, k: nat)
    requires FencedAt(fences, a, k) && fences <= more
    ensures FencedAt(more, a, k)
  {
    var i :| 0 <= i < |fences| && fences[i].worker == a && fences[i].attempt == k;
    assert more[i] == fences[i];
  }

  lemma MovesAccounted(c: Config, s: State, t: State, a: nat, b: nat, k: nat)
    requires Moves(c, s, t, a) && !s.workers[a].pc.Finished? && Accounted(s, b, k)
    ensures Accounted(t, b, k)
  {
    if FencedAt(s.fences, b, k) {
      FencedGrows(s.fences, t.fences, b, k);
    } else if (b, k) !in s.stopped && b == a {
      assert k in s.workers[a].ambiguous;
      assert forall x :: x in s.workers[a].ambiguous ==> x in t.workers[a].ambiguous;
    }
  }

  lemma MovesContained(c: Config, s: State, t: State, a: nat)
    requires Moves(c, s, t, a) && !s.workers[a].pc.Finished? && Contained(s)
    ensures Contained(t)
  {
    forall b: nat, k: nat | (b, k) in t.unconfirmed ensures Accounted(t, b, k) {
      if (b, k) in s.unconfirmed {
        MovesAccounted(c, s, t, a, b, k);
      }
    }
  }

  lemma FencedAfter(before: seq<Fence>, fences: seq<Fence>, a: nat, k: nat)
    requires FencedAt(fences, a, k)
    ensures FencedAt(before + fences, a, k)
  {
    var i :| 0 <= i < |fences| && fences[i].worker == a && fences[i].attempt == k;
    assert (before + fences)[|before| + i] == fences[i];
  }

  lemma {:induction false} AttemptFencesHold(a: nat, attempts: seq<nat>, k: nat)
    requires k in attempts
    ensures FencedAt(AttemptFences(a, attempts), a, k)
    decreases |attempts|
  {
    var fences := AttemptFences(a, attempts);
    if attempts[0] == k {
      assert fences[0] == Fence(a, k, false, false);
    } else {
      AttemptFencesHold(a, attempts[1..], k);
      FencedAfter([Fence(a, attempts[0], false, false)], AttemptFences(a, attempts[1..]), a, k);
    }
  }

  lemma {:induction false} AbortFencesHold(workers: seq<Worker>, from: nat, a: nat, k: nat)
    requires from <= a < |workers| && !workers[a].pc.Finished? && k in workers[a].ambiguous
    ensures FencedAt(AbortFences(workers, from), a, k)
    decreases a - from
  {
    var first := if workers[from].pc.Finished? then [] else AttemptFences(from, workers[from].ambiguous);
    var rest := AbortFences(workers, from + 1);
    if from == a {
      AttemptFencesHold(a, workers[a].ambiguous, k);
      FencedGrows(first, first + rest, a, k);
    } else {
      AbortFencesHold(workers, from + 1, a, k);
      FencedAfter(first, rest, a, k);
    }
  }

  lemma AbortContained(s: State)
    requires Contained(s)
    ensures Contained(Abort(s))
  {
    var t := Abort(s);
    if !s.aborted {
      forall a: nat, k: nat | (a, k) in t.unconfirmed ensures Accounted(t, a, k) {
        assert Accounted(s, a, k);
        if FencedAt(s.fences, a, k) {
          FencedGrows(s.fences, t.fences, a, k);
        } else if (a, k) !in s.stopped && !s.workers[a].pc.Finished? {
          AbortFencesHold(s.workers, 0, a, k);
          FencedAfter(s.fences, AbortFences(s.workers, 0), a, k);
        }
      }
    }
  }

  lemma SettlesContained(s: State, i: nat)
    requires i < |s.fences| && Contained(s)
    ensures Contained(FenceSettles(s, i))
  {
    var t, f := FenceSettles(s, i), s.fences[i];
    forall a: nat, k: nat | (a, k) in t.unconfirmed ensures Accounted(t, a, k) {
      assert Accounted(s, a, k);
      if FencedAt(s.fences, a, k) && (a, k) != (f.worker, f.attempt) {
        var j :| 0 <= j < |s.fences| && s.fences[j].worker == a && s.fences[j].attempt == k;
        assert t.fences[if j < i then j else j - 1] == s.fences[j];
      }
    }
  }

  lemma AdmitContained(s: State, op: Op)
    requires op.AdmitOp? && Contained(s)
    ensures Contained(Admit(s, op.call, op.isolated, op.persisted))
  {
    var t := Admit(s, op.call, op.isolated, op.persisted);
    forall a: nat, k: nat | (a, k) in t.unconfirmed ensures Accounted(t, a, k) {
      assert Accounted(s, a, k);
    }
  }

  lemma StepContained(c: Config, s: State, op: Op)
    requires Enabled(c, s, op) && Contained(s)
    ensures Contained(Step(c, s, op))
  {
    if Mover(op).Some? {
      StepMoves(c, s, op);
      MovesContained(c, Sent(s, op), Step(c, s, op), Mover(op).value);
    } else if op.AdmitOp? {
      AdmitContained(s, op);
    } else if op.AbortOp? {
      AbortContained(s);
    } else {
      SettlesContained(s, op.i);
    }
  }

  // ---------------------------------------------------------------------------------------------
  // One terminal event per agent
  // ---------------------------------------------------------------------------------------------

  predicate Terminal(e: Event) {
    e.kind.Completed? || e.kind.Failed? || e.kind.RecoveryRequired? || e.kind.Cancelled?
  }

  predicate Ended(s: State, a: nat) {
    a < |s.workers| && (s.workers[a].pc.Finished? || s.storageDown)
  }

  ghost predicate Once(s: State) {
    && (forall i, j :: 0 <= i < j < |s.events| && Terminal(s.events[i]) && Terminal(s.events[j]) ==>
          s.events[i].worker != s.events[j].worker)
    && (forall i :: 0 <= i < |s.events| && Terminal(s.events[i]) ==> Ended(s, s.events[i].worker))
  }

  lemma MovesOnce(c: Config, s: State, t: State, a: nat)
    requires Moves(c, s, t, a) && !s.workers[a].pc.Finished? && Once(s)
    ensures Once(t)
  {
    assert forall b :: Ended(s, b) ==> Ended(t, b);
  }

  lemma EmitOnce(c: Config, s: State, op: Op)
    requires op.EmitOp? && Enabled(c, s, op) && Once(s)
    ensures Once(Step(c, s, op))
  {
    var a, t := op.a, Step(c, s, op);
    StepMoves(c, s, op);
    L.PublishedQuiet(c, Publish(s, a, op.sent, op.acknowledged), a, op.acknowledged, op.at);
    assert forall b :: Ended(s, b) ==> Ended(t, b);
    assert L.TerminalPc(s.workers[a].pc) ==> Ended(t, a);
    assert op.sent ==> !Ended(s, a);
    assert op.sent ==> t.events == s.events + [Event(a, KindOf(s.workers[a].pc))];
    assert op.sent && Terminal(Event(a, KindOf(s.workers[a].pc))) ==> L.TerminalPc(s.workers[a].pc);
  }

  lemma StepOnce(c: Config, s: State, op: Op)
    requires Enabled(c, s, op) && Once(s)
    ensures Once(Step(c, s, op))
  {
    if op.EmitOp? {
      EmitOnce(c, s, op);
    } else if Mover(op).Some? {
      StepMoves(c, s, op);
      MovesOnce(c, s, Step(c, s, op), Mover(op).value);
    } else {
      assert forall b :: Ended(s, b) ==> Ended(Step(c, s, op), b);
    }
  }
}

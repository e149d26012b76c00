/**
  The cool-down of the circuit breaker over whole runs, told by the operations and the leases they reserve:
  which failures open the circuit, how long nobody passes, who passes first, and what ends an outage early.
 */
module CircuitCooldown {
  import opened Common
  import opened CircuitSpec

  // ---------------------------------------------------------------------------------------------
  // What an operation does to an outage
  // ---------------------------------------------------------------------------------------------

  /** The settlement counts: the lease was not settled before. */
  predicate Settles(s: State, op: Op) {
    op.SettleOp? && op.lease < |s.leases| && !s.leases[op.lease].settled
  }

  /** A probe that has not proved the provider responsive. */
  predicate Unproven(s: State, i: nat) {
    i < |s.leases| && s.leases[i].probe && !s.leases[i].probeRecovered
  }

  /** The provider answered in a started probe. */
  predicate Recovers(s: State, op: Op) {
    op.ResponsiveOp? && Unproven(s, op.lease) && !s.leases[op.lease].settled && s.leases[op.lease].startCommitted
  }

  /** A success, a recovery, or an unproven probe given up neutrally. */
  predicate Intervenes(s: State, op: Op) {
    || Recovers(s, op)
    || (Settles(s, op) && op.outcome.Success?)
    || (Settles(s, op) && op.outcome.Neutral? && Unproven(s, op.lease))
  }

  /** The failures in the window that ends at `at`, with the one settled then. */
  function Burst(p: Policy, s: State, at: nat): seq<nat> {
    Filter(s.sinceClear + [at], t => t >= at - p.windowMs)
  }

  /** A failure that opens or reopens the circuit: an unproven probe's, or the threshold-th of a burst. */
  predicate Trips(p: Policy, s: State, op: Op) {
    Settles(s, op) && op.outcome.Failure? && (Unproven(s, op.lease) || |Burst(p, s, op.at)| >= p.threshold)
  }

  /** The failure times since the last success or recovery, read off the operations alone. */
  function FailureTimes(p: Policy, s: State, ops: seq<Op>, since: seq<nat>): seq<nat>
    requires EnabledRun(p, s, ops)
    decreases |ops|
  {
    if ops == [] then since
    else
      var op := ops[0];
      FailureTimes(p, Apply(p, s, op), ops[1..],
        if Recovers(s, op) || (Settles(s, op) && op.outcome.Success?) then []
        else if Settles(s, op) && op.outcome.Failure? then since + [op.at]
        else since)
  }

  lemma {:induction false} BurstsAreTold(p: Policy, s: State, ops: seq<Op>)
    requires EnabledRun(p, s, ops)
    ensures Run(p, s, ops).sinceClear == FailureTimes(p, s, ops, s.sinceClear)
    decreases |ops|
  {
    if ops != [] {
      BurstsAreTold(p, Apply(p, s, ops[0]), ops[1..]);
    }
  }

  lemma QueueIsPruned(p: Policy, s: State, at: nat)
    requires ValidPolicy(p) && QueueIsWindow(p, s) && at >= s.now
    ensures Pruned(s.failures + [at], at - p.windowMs) == Pruned(s.sinceClear + [at], at - p.windowMs)
  {
    PrunedThenPushed(s.sinceClear, at, s.prunedAt - p.windowMs);
    PrunedTwice(s.sinceClear + [at], s.prunedAt - p.windowMs, at - p.windowMs);
  }

  lemma PushStaysSorted(times: seq<nat>, now: nat, at: nat)
    requires Sorted(times) && (forall t :: t in times ==> t <= now) && at >= now
    ensures Sorted(times + [at])
  {
    assert forall i :: 0 <= i < |times| ==> times[i] in times;
  }

  /** The pruned queue, with the new failure, is the burst. */
  lemma QueueIsBurst(p: Policy, s: State, at: nat)
    requires ValidPolicy(p) && QueueIsWindow(p, s) && at >= s.now
    ensures Pruned(s.failures + [at], at - p.windowMs) == Burst(p, s, at)
  {
    QueueIsPruned(p, s, at);
    PushStaysSorted(s.sinceClear, s.now, at);
    PrunedIsFilter(s.sinceClear + [at], at - p.windowMs);
  }

  // ---------------------------------------------------------------------------------------------
  // Runs
  // ---------------------------------------------------------------------------------------------

  /** No operation of the run intervenes in the outage. */
  predicate Undisturbed(p: Policy, s: State, ops: seq<Op>)
    requires EnabledRun(p, s, ops)
    decreases |ops|
  {
    ops == [] || (!Intervenes(s, ops[0]) && Undisturbed(p, Apply(p, s, ops[0]), ops[1..]))
  }

  /** No operation of the run trips the circuit. */
  predicate Untripped(p: Policy, s: State, ops: seq<Op>)
    requires EnabledRun(p, s, ops)
    decreases |ops|
  {
    ops == [] || (!Trips(p, s, ops[0]) && Untripped(p, Apply(p, s, ops[0]), ops[1..]))
  }

  /** The circuit is open at least until `time`, and no probe is out. */
  predicate ClosedUntil(s: State, time: nat) {
    s.openUntil >= time > 0 && !s.halfOpenProbe
  }

  lemma TripCloses(p: Policy, s: State, op: Op)
    requires ValidPolicy(p) && Inv(p, s) && Enabled(s, op) && Trips(p, s, op)
    ensures var t := Apply(p, s, op); t.openUntil == op.at + p.cooldownMs && !t.halfOpenProbe && t.now == op.at
  {
    QueueIsBurst(p, s, op.at);
  }

  lemma UntrippedStays(p: Policy, s: State, op: Op)
    requires ValidPolicy(p) && Inv(p, s) && Enabled(s, op) && !Trips(p, s, op) && !Intervenes(s, op)
    ensures Apply(p, s, op).openUntil == s.openUntil
    ensures !op.EnterOp? ==> Apply(p, s, op).halfOpenProbe == s.halfOpenProbe && |Apply(p, s, op).leases| == |s.leases|
  {
    if op.SettleOp? {
      QueueIsBurst(p, s, op.at);
    }
  }

  /** Times of operations never go back. */
  lemma TimeGoesOn(p: Policy, s: State, op: Op)
    requires Enabled(s, op)
    ensures Apply(p, s, op).now >= s.now
  {
  }

  lemma {:induction false} RunTimeGoesOn(p: Policy, s: State, ops: seq<Op>)
    requires EnabledRun(p, s, ops)
    ensures Run(p, s, ops).now >= s.now
    decreases |ops|
  {
    if ops != [] {
      TimeGoesOn(p, s, ops[0]);
      RunTimeGoesOn(p, Apply(p, s, ops[0]), ops[1..]);
    }
  }

  /** While the clock is before the cool-down's end, an undisturbed step reserves nothing and keeps it. */
  lemma StepKeepsClosed(p: Policy, s: State, op: Op, trip: nat)
    requires ValidPolicy(p) && Inv(p, s) && Enabled(s, op) && !Intervenes(s, op)
    requires ClosedUntil(s, trip + p.cooldownMs) && s.now >= trip && Apply(p, s, op).now < trip + p.cooldownMs
    ensures var t := Apply(p, s, op);
      ClosedUntil(t, trip + p.cooldownMs) && t.now >= trip && |t.leases| == |s.leases|
  {
    TimeGoesOn(p, s, op);
    if Trips(p, s, op) {
      TripCloses(p, s, op);
    } else {
      UntrippedStays(p, s, op);
    }
  }

  lemma {:induction false} RunKeepsClosed(p: Policy, s: State, ops: seq<Op>, trip: nat)
    requires ValidPolicy(p) && Inv(p, s) && EnabledRun(p, s, ops) && Undisturbed(p, s, ops)
    requires ClosedUntil(s, trip + p.cooldownMs) && s.now >= trip && Run(p, s, ops).now < trip + p.cooldownMs
    ensures var t := Run(p, s, ops); ClosedUntil(t, trip + p.cooldownMs) && |t.leases| == |s.leases| && Inv(p, t)
    decreases |ops|
  {
    if ops != [] {
      RunTimeGoesOn(p, Apply(p, s, ops[0]), ops[1..]);
      StepKeepsClosed(p, s, ops[0], trip);
      StepKeepsInv(p, s, ops[0]);
      RunKeepsClosed(p, Apply(p, s, ops[0]), ops[1..], trip);
    }
  }

  /** After a failure trips the circuit at time `trip.at`, and until a success, a recovery or a neutral end of
      an unproven probe intervenes, nobody entering before `trip.at + cooldownMs` reserves a lease. */
  lemma NobodyEntersDuringCooldown(p: Policy, before: seq<Op>, trip: Op, ops: seq<Op>, at: nat)
    requires ValidPolicy(p) && EnabledRun(p, INITIAL, before)
    requires var s := Run(p, INITIAL, before);
      && Enabled(s, trip) && Trips(p, s, trip) && EnabledRun(p, Apply(p, s, trip), ops)
      && Undisturbed(p, Apply(p, s, trip), ops) && at >= Run(p, Apply(p, s, trip), ops).now
    requires at < trip.at + p.cooldownMs
    ensures var s := Run(p, INITIAL, before); var t := Run(p, Apply(p, s, trip), ops);
      |t.leases| == |s.leases| && |Apply(p, t, EnterOp(at)).leases| == |t.leases|
  {
    InitialInv(p);
    RunKeepsInv(p, INITIAL, before);
    var s := Run(p, INITIAL, before);
    TripCloses(p, s, trip);
    StepKeepsInv(p, s, trip);
    RunKeepsClosed(p, Apply(p, s, trip), ops, trip.at);
  }

  /** No one enters at or after `time`. */
  predicate NobodyTries(ops: seq<Op>, time: nat) {
    forall op :: op in ops && op.EnterOp? ==> op.at < time
  }

  lemma {:induction false} RunKeepsTime(p: Policy, s: State, ops: seq<Op>, time: nat)
    requires ValidPolicy(p) && Inv(p, s) && EnabledRun(p, s, ops) && Undisturbed(p, s, ops) && Untripped(p, s, ops)
    requires s.openUntil == time > 0 && !s.halfOpenProbe && NobodyTries(ops, time)
    ensures var t := Run(p, s, ops); t.openUntil == time && !t.halfOpenProbe && |t.leases| == |s.leases|
    decreases |ops|
  {
    if ops != [] {
      UntrippedStays(p, s, ops[0]);
      StepKeepsInv(p, s, ops[0]);
      assert ops[0] in ops && forall op :: op in ops[1..] ==> op in ops;
      RunKeepsTime(p, Apply(p, s, ops[0]), ops[1..], time);
    }
  }

  /** The first to enter at or after `trip.at + cooldownMs` reserves the one probe. */
  lemma FirstAfterCooldownProbes(p: Policy, before: seq<Op>, trip: Op, ops: seq<Op>, at: nat)
    requires ValidPolicy(p) && EnabledRun(p, INITIAL, before)
    requires var s := Run(p, INITIAL, before);
      && Enabled(s, trip) && Trips(p, s, trip) && EnabledRun(p, Apply(p, s, trip), ops)
      && Undisturbed(p, Apply(p, s, trip), ops) && Untripped(p, Apply(p, s, trip), ops)
      && at >= Run(p, Apply(p, s, trip), ops).now
    requires NobodyTries(ops, trip.at + p.cooldownMs) && at >= trip.at + p.cooldownMs
    ensures var t := Run(p, Apply(p, Run(p, INITIAL, before), trip), ops); var u := Apply(p, t, EnterOp(at));
      |u.leases| == |t.leases| + 1 && u.leases[|t.leases|].probe
  {
    InitialInv(p);
    RunKeepsInv(p, INITIAL, before);
    var s := Run(p, INITIAL, before);
    TripCloses(p, s, trip);
    StepKeepsInv(p, s, trip);
    RunKeepsTime(p, Apply(p, s, trip), ops, trip.at + p.cooldownMs);
  }

  // ---------------------------------------------------------------------------------------------
  // While the probe is out, and how an outage ends
  // ---------------------------------------------------------------------------------------------

  lemma StepKeepsProbe(p: Policy, s: State, op: Op)
    requires ValidPolicy(p) && Inv(p, s) && Enabled(s, op) && s.halfOpenProbe
    requires !Intervenes(s, op) && !Trips(p, s, op)
    ensures var t := Apply(p, s, op); t.halfOpenProbe && |t.leases| == |s.leases|
  {
    UntrippedStays(p, s, op);
  }

  /** Once a probe is out, nobody else passes until it is settled or proved. */
  lemma {:induction false} ProbeIsAlone(p: Policy, s: State, ops: seq<Op>)
    requires ValidPolicy(p) && Inv(p, s) && EnabledRun(p, s, ops) && s.halfOpenProbe
    requires Undisturbed(p, s, ops) && Untripped(p, s, ops)
    ensures |Run(p, s, ops).leases| == |s.leases|
    decreases |ops|
  {
    if ops != [] {
      StepKeepsProbe(p, s, ops[0]);
      StepKeepsInv(p, s, ops[0]);
      ProbeIsAlone(p, Apply(p, s, ops[0]), ops[1..]);
    }
  }

  /** Whoever enters reserves a lease that is no probe. */
  predicate Passes(p: Policy, s: State, at: nat) {
    at >= s.now ==>
      var t := Apply(p, s, EnterOp(at));
      |t.leases| == |s.leases| + 1 && !t.leases[|s.leases|].probe
  }

  /** A success or a recovery ends any outage at once. */
  lemma SuccessLetsEveryonePass(p: Policy, s: State, op: Op, at: nat)
    requires Enabled(s, op) && (Recovers(s, op) || (Settles(s, op) && op.outcome.Success?))
    ensures Passes(p, Apply(p, s, op), at)
  {
  }

  /** An unproven probe given up neutrally lets the next one probe at once. */
  lemma NeutralLetsNextProbe(p: Policy, s: State, op: Op, at: nat)
    requires Enabled(s, op) && Settles(s, op) && op.outcome.Neutral? && Unproven(s, op.lease) && op.at > 0
    requires at >= op.at
    ensures var t := Apply(p, s, op); var u := Apply(p, t, EnterOp(at));
      t.now == op.at && |u.leases| == |t.leases| + 1 && u.leases[|t.leases|].probe
  {
  }

  /** Neither a neutral end of a proven or ordinary call nor a failure short of the threshold changes who
      may pass. */
  lemma OtherSettlementsChangeNothing(p: Policy, s: State, op: Op)
    requires ValidPolicy(p) && Inv(p, s) && Enabled(s, op) && op.SettleOp?
    requires !Intervenes(s, op) && !Trips(p, s, op)
    ensures var t := Apply(p, s, op);
      t.openUntil == s.openUntil && t.halfOpenProbe == s.halfOpenProbe && t.generation == s.generation
  {
    QueueIsBurst(p, s, op.at);
  }

  /** No operation of the run is a trip or the neutral end of an unproven probe. */
  predicate NeverOpens(p: Policy, s: State, ops: seq<Op>)
    requires EnabledRun(p, s, ops)
    decreases |ops|
  {
    ops == [] ||
    (!Trips(p, s, ops[0]) && !(Settles(s, ops[0]) && ops[0].outcome.Neutral? && Unproven(s, ops[0].lease)) &&
      NeverOpens(p, Apply(p, s, ops[0]), ops[1..]))
  }

  lemma StepStaysClosed(p: Policy, s: State, op: Op)
    requires ValidPolicy(p) && Inv(p, s) && Enabled(s, op) && s.openUntil == 0 && !Trips(p, s, op)
    requires !(Settles(s, op) && op.outcome.Neutral? && Unproven(s, op.lease))
    ensures Apply(p, s, op).openUntil == 0
  {
    OpensIff(p, s, op);
    if op.SettleOp? {
      QueueIsBurst(p, s, op.at);
    }
  }

  lemma {:induction false} ClosedCircuitLetsPass(p: Policy, s: State, ops: seq<Op>, at: nat)
    requires ValidPolicy(p) && Inv(p, s) && EnabledRun(p, s, ops) && s.openUntil == 0 && NeverOpens(p, s, ops)
    ensures Passes(p, Run(p, s, ops), at)
    decreases |ops|
  {
    if ops != [] {
      StepStaysClosed(p, s, ops[0]);
      StepKeepsInv(p, s, ops[0]);
      ClosedCircuitLetsPass(p, Apply(p, s, ops[0]), ops[1..], at);
    }
  }

  /** As long as no burst and no failed or abandoned probe opened the circuit, everyone passes. */
  lemma EveryonePassesUntilTripped(p: Policy, ops: seq<Op>, at: nat)
    requires ValidPolicy(p) && EnabledRun(p, INITIAL, ops) && NeverOpens(p, INITIAL, ops)
    ensures Passes(p, Run(p, INITIAL, ops), at)
  {
    InitialInv(p);
    ClosedCircuitLetsPass(p, INITIAL, ops, at);
  }

  // ---------------------------------------------------------------------------------------------
  // The life of a lease
  // ---------------------------------------------------------------------------------------------

  /** A caller is let through exactly when it gets a lease, which begins unsettled and uncommitted. */
  lemma EntryReserves(p: Policy, s: State, at: nat)
    requires Enabled(s, EnterOp(at))
    ensures var (t, granted) := Enter(p, s, at);
      t.leases == if granted then s.leases + [Lease(s.openUntil != 0, s.generation, false, false, false)] else s.leases
  {
  }

  /** The lease may start: it is unsettled, and was started before, or no transition came between and the circuit
      waits for it. */
  predicate MayStart(s: State, i: nat)
    requires i < |s.leases|
  {
    var l := s.leases[i];
    && !l.settled
    && (l.startCommitted || (l.generation == s.generation &&
      (l.probe ==> s.halfOpenProbe && s.openUntil != 0) && (!l.probe ==> s.openUntil == 0)))
  }

  /** A lease is settled by its settlement, started by its start if it may start, and recovered by its first sign
      of life; nothing else changes it, and no step skips a generation. */
  lemma LeaseLife(p: Policy, s: State, op: Op, i: nat)
    requires Enabled(s, op) && i < |s.leases|
    ensures var (t, l) := (Apply(p, s, op), s.leases[i]);
      && s.generation <= t.generation <= s.generation + 1
      && i < |t.leases|
      && t.leases[i] == l.(
           settled := l.settled || (op.SettleOp? && op.lease == i),
           startCommitted := l.startCommitted || (op == StartOp(i) && MayStart(s, i)),
           probeRecovered := l.probeRecovered || (op == ResponsiveOp(i) && Recovers(s, op)))
  {
  }

  /** The operation changes neither the circuit nor lease `i`. */
  predicate Calm(p: Policy, s: State, op: Op, i: nat) {
    && !Trips(p, s, op) && !Recovers(s, op) && !(Settles(s, op) && Unproven(s, op.lease))
    && !(op.SettleOp? && op.lease == i)
    && !(Settles(s, op) && op.outcome.Success? && s.openUntil != 0)
  }

  predicate CalmRun(p: Policy, s: State, ops: seq<Op>, i: nat)
    requires EnabledRun(p, s, ops)
    decreases |ops|
  {
    ops == [] || (Calm(p, s, ops[0], i) && CalmRun(p, Apply(p, s, ops[0]), ops[1..], i))
  }

  lemma CalmKeepsReservation(p: Policy, s: State, op: Op, i: nat)
    requires ValidPolicy(p) && Inv(p, s) && Enabled(s, op) && i < |s.leases| && MayStart(s, i) && Calm(p, s, op, i)
    ensures MayStart(Apply(p, s, op), i)
  {
    LeaseLife(p, s, op, i);
    if op.SettleOp? {
      QueueIsBurst(p, s, op.at);
    }
  }

  /** A reservation that may start stays so while no transition of the circuit comes between, however long it waits
      for a permit. */
  lemma {:induction false} ReservationLasts(p: Policy, s: State, ops: seq<Op>, i: nat)
    requires ValidPolicy(p) && Inv(p, s) && EnabledRun(p, s, ops) && i < |s.leases|
    requires MayStart(s, i) && CalmRun(p, s, ops, i)
    ensures i < |Run(p, s, ops).leases| && MayStart(Run(p, s, ops), i)
    decreases |ops|
  {
    if ops != [] {
      CalmKeepsReservation(p, s, ops[0], i);
      LeaseLife(p, s, ops[0], i);
      StepKeepsInv(p, s, ops[0]);
      ReservationLasts(p, Apply(p, s, ops[0]), ops[1..], i);
    }
  }

  /** What a caller just reserved may start. */
  lemma ReservedMayStart(p: Policy, s: State, at: nat)
    requires ValidPolicy(p) && Inv(p, s) && Enabled(s, EnterOp(at)) && Enter(p, s, at).1
    ensures var t := Enter(p, s, at).0; MayStart(t, |s.leases|) && StartAllowed(t, |s.leases|)
  {
  }

  lemma AllowedIff(s: State, i: nat)
    requires i < |s.leases|
    ensures StartAllowed(s, i) <==> MayStart(s, i)
  {
  }
}

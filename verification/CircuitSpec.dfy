/**
  What the provider circuit breaker of src/executionReliability.ts computes, and what every run of it
  guarantees under a clock that never goes back. The class in CircuitBreaker.dfy updates the fields.
 */
module CircuitSpec {
  import opened Common

  /** Positive safe integers, as `normalizeReliabilityPolicy` checks. */
  datatype Policy = Policy(threshold: nat, windowMs: nat, cooldownMs: nat)

  ghost predicate ValidPolicy(p: Policy) {
    p.threshold > 0 && p.windowMs > 0 && p.cooldownMs > 0
  }

  /** The closure variables of one lease. */
  datatype Lease = Lease(probe: bool, generation: nat, settled: bool, startCommitted: bool, probeRecovered: bool)

  /** `sinceClear` are the failures since the last success or recovery, `prunedAt` the time of the
      last prune and `now` the latest clock reading. */
  datatype State = State(
    failures: seq<nat>,
    openUntil: nat,
    halfOpenProbe: bool,
    generation: nat,
    leases: seq<Lease>,
    sinceClear: seq<nat>,
    prunedAt: nat,
    now: nat)

  datatype Outcome = Success | Failure | Neutral

  /** Failures older than the window leave from the front. */
  function Pruned(failures: seq<nat>, oldest: int): seq<nat>
  {
    if failures == [] || failures[0] >= oldest then failures else Pruned(failures[1..], oldest)
  }

  function Prune(p: Policy, s: State, now: nat): State {
    s.(failures := Pruned(s.failures, now - p.windowMs), prunedAt := now, now := now)
  }

  function NewLease(s: State, probe: bool): State {
    s.(leases := s.leases + [Lease(probe, s.generation, false, false, false)])
  }

  /** One turn of the `enter` loop: it returns a lease, or waits. */
  function Enter(p: Policy, s: State, now: nat): (r: (State, bool)) {
    var t := Prune(p, s, now);
    if t.openUntil == 0 then (NewLease(t, false), true)
    else if now >= t.openUntil && !t.halfOpenProbe then (NewLease(t.(halfOpenProbe := true), true), true)
    else (t, false)
  }

  predicate StartAllowed(s: State, i: nat)
    requires i < |s.leases|
  {
    var l := s.leases[i];
    !l.settled && (l.startCommitted ||
      (l.generation == s.generation && if l.probe then s.halfOpenProbe && s.openUntil != 0 else s.openUntil == 0))
  }

  function Start(s: State, i: nat): State
    requires i < |s.leases|
  {
    if StartAllowed(s, i) then s.(leases := s.leases[i := s.leases[i].(startCommitted := true)]) else s
  }

  function Responsive(s: State, i: nat): State
    requires i < |s.leases|
  {
    var l := s.leases[i];
    if l.settled || !l.startCommitted || !l.probe || l.probeRecovered then s
    else s.(leases := s.leases[i := l.(probeRecovered := true)],
            failures := [], openUntil := 0, halfOpenProbe := false, generation := s.generation + 1, sinceClear := [])
  }

  function Settle(p: Policy, s: State, i: nat, outcome: Outcome, now: nat): State
    requires i < |s.leases|
  {
    var l := s.leases[i];
    if l.settled then s
    else
      var t := s.(leases := s.leases[i := l.(settled := true)], now := now);
      var live := l.probe && !l.probeRecovered;
      match outcome
      case Success =>
        t.(failures := [], openUntil := 0, halfOpenProbe := false, sinceClear := [],
           generation := if live || s.openUntil != 0 then s.generation + 1 else s.generation)
      case Failure =>
        var u := Prune(p, t.(failures := s.failures + [now], sinceClear := s.sinceClear + [now]), now);
        if live || |u.failures| >= p.threshold then
          u.(openUntil := now + p.cooldownMs, halfOpenProbe := false, generation := s.generation + 1)
        else u
      case Neutral =>
        if live then t.(halfOpenProbe := false, openUntil := now, generation := s.generation + 1) else t
  }

  datatype Op =
    | EnterOp(at: nat)
    | SnapshotOp(at: nat)
    | StartOp(lease: nat)
    | ResponsiveOp(lease: nat)
    | SettleOp(lease: nat, outcome: Outcome, at: nat)

  predicate Enabled(s: State, op: Op) {
    match op
    case EnterOp(at) => at >= s.now
    case SnapshotOp(at) => at >= s.now
    case StartOp(i) => i < |s.leases|
    case ResponsiveOp(i) => i < |s.leases|
    case SettleOp(i, _, at) => i < |s.leases| && at >= s.now
  }

  function Apply(p: Policy, s: State, op: Op): State
    requires Enabled(s, op)
  {
    match op
    case EnterOp(at) => Enter(p, s, at).0
    case SnapshotOp(at) => Prune(p, s, at)
    case StartOp(i) => Start(s, i)
    case ResponsiveOp(i) => Responsive(s, i)
    case SettleOp(i, outcome, at) => Settle(p, s, i, outcome, at)
  }

  predicate EnabledRun(p: Policy, s: State, ops: seq<Op>)
    decreases |ops|
  {
    ops == [] || (Enabled(s, ops[0]) && EnabledRun(p, Apply(p, s, ops[0]), ops[1..]))
  }

  function Run(p: Policy, s: State, ops: seq<Op>): State
    requires EnabledRun(p, s, ops)
    decreases |ops|
  {
    if ops == [] then s else Run(p, Apply(p, s, ops[0]), ops[1..])
  }

  const INITIAL := State([], 0, false, 0, [], [], 0, 0)

  // ---------------------------------------------------------------------------------------------
  // Invariant of every run
  // ---------------------------------------------------------------------------------------------

  /** An unsettled, unrecovered probe of the current generation. */
  predicate LiveProbe(s: State, i: int) {
    0 <= i < |s.leases| && s.leases[i].probe && !s.leases[i].settled && !s.leases[i].probeRecovered
    && s.leases[i].generation == s.generation
  }

  /** `halfOpenProbe` stands for exactly one live probe. */
  ghost predicate ProbeAccounted(s: State) {
    && (s.halfOpenProbe <==> exists i :: LiveProbe(s, i))
    && (s.halfOpenProbe ==> s.openUntil != 0)
  }

  /** An outage generation reserves one start, its probe; a closed generation reserves no probe. */
  ghost predicate OneStartPerOutage(s: State) {
    && (forall i :: 0 <= i < |s.leases| ==> s.leases[i].generation <= s.generation)
    && (forall i :: 0 <= i < |s.leases| && s.leases[i].generation == s.generation ==>
          (s.leases[i].probe <==> s.openUntil != 0))
    && (forall i, j :: 0 <= i < j < |s.leases| && s.leases[i].generation == s.leases[j].generation ==>
          !s.leases[i].probe && !s.leases[j].probe)
    && (!s.halfOpenProbe && s.openUntil != 0 ==> forall i :: 0 <= i < |s.leases| ==>
      s.leases[i].generation < s.generation)
  }

  ghost predicate Sorted(times: seq<nat>) {
    forall i, j :: 0 <= i < j < |times| ==> times[i] <= times[j]
  }

  /** The queue holds exactly the failures since the last success or recovery that were inside the
      window at the last prune. */
  ghost predicate QueueIsWindow(p: Policy, s: State) {
    && Sorted(s.sinceClear)
    && (forall t :: t in s.sinceClear ==> t <= s.now)
    && s.prunedAt <= s.now
    && s.failures == Pruned(s.sinceClear, s.prunedAt - p.windowMs)
  }

  /** A probe is only reserved at a positive time: the circuit was open until then. */
  ghost predicate ProbesAfterZero(s: State) {
    forall i :: 0 <= i < |s.leases| && s.leases[i].probe ==> s.now > 0
  }

  ghost predicate Inv(p: Policy, s: State) {
    && ProbeAccounted(s)
    && OneStartPerOutage(s)
    && QueueIsWindow(p, s)
    && ProbesAfterZero(s)
    && (s.openUntil == 0 ==> |s.failures| < p.threshold)
  }

  lemma {:induction false} PrunedIsFilter(failures: seq<nat>, oldest: int)
    requires Sorted(failures)
    ensures Pruned(failures, oldest) == Filter(failures, t => t >= oldest)
  {
    if failures != [] {
      assert failures == [failures[0]] + failures[1..];
      FilterAppend([failures[0]], failures[1..], t => t >= oldest);
      FilterOne(failures[0], t => t >= oldest);
      if failures[0] >= oldest {
        FilterAll(failures, t => t >= oldest);
      } else {
        PrunedIsFilter(failures[1..], oldest);
      }
    }
  }

  /** Pruning again later is pruning once at the later time. */
  lemma {:induction false} PrunedTwice(failures: seq<nat>, earlier: int, later: int)
    requires earlier <= later
    ensures Pruned(Pruned(failures, earlier), later) == Pruned(failures, later)
  {
    if failures != [] && failures[0] < earlier {
      PrunedTwice(failures[1..], earlier, later);
    }
  }

  lemma {:induction false} PrunedThenPushed(failures: seq<nat>, now: nat, oldest: int)
    requires now >= oldest
    ensures Pruned(failures, oldest) + [now] == Pruned(failures + [now], oldest)
  {
    if failures == [] {
      assert (failures + [now])[0] == now;
    } else {
      assert (failures + [now])[0] == failures[0];
      if failures[0] < oldest {
        PrunedThenPushed(failures[1..], now, oldest);
        assert (failures + [now])[1..] == failures[1..] + [now];
      }
    }
  }

  lemma {:induction false} PrunedShorter(failures: seq<nat>, oldest: int)
    ensures |Pruned(failures, oldest)| <= |failures|
  {
    if failures != [] && failures[0] < oldest {
      PrunedShorter(failures[1..], oldest);
    }
  }

  lemma PruneKeepsInv(p: Policy, s: State, at: nat)
    requires ValidPolicy(p) && Inv(p, s) && at >= s.now
    ensures Inv(p, Prune(p, s, at))
  {
    PrunedTwice(s.sinceClear, s.prunedAt - p.windowMs, at - p.windowMs);
    PrunedShorter(s.failures, at - p.windowMs);
    var t := Prune(p, s, at);
    assert forall i :: LiveProbe(t, i) == LiveProbe(s, i);
  }

  lemma NewLeaseKeepsProbes(s: State, probe: bool)
    requires ProbeAccounted(s) && OneStartPerOutage(s)
    requires if probe then s.openUntil != 0 && !s.halfOpenProbe else s.openUntil == 0
    ensures var t := NewLease(s.(halfOpenProbe := s.halfOpenProbe || probe), probe);
      ProbeAccounted(t) && OneStartPerOutage(t)
  {
    var t := NewLease(s.(halfOpenProbe := s.halfOpenProbe || probe), probe);
    assert LiveProbe(t, |s.leases|) == probe;
    assert forall i :: LiveProbe(t, i) ==> LiveProbe(s, i) || i == |s.leases|;
    assert forall i :: LiveProbe(s, i) ==> LiveProbe(t, i);
  }

  lemma EnterKeepsInv(p: Policy, s: State, at: nat)
    requires ValidPolicy(p) && Inv(p, s) && at >= s.now
    ensures Inv(p, Enter(p, s, at).0)
  {
    PruneKeepsInv(p, s, at);
    var t := Prune(p, s, at);
    if t.openUntil == 0 {
      NewLeaseKeepsProbes(t, false);
    } else if at >= t.openUntil && !t.halfOpenProbe {
      NewLeaseKeepsProbes(t, true);
    }
  }

  lemma StartKeepsInv(p: Policy, s: State, i: nat)
    requires Inv(p, s) && i < |s.leases|
    ensures Inv(p, Start(s, i))
  {
    assert forall j :: LiveProbe(Start(s, i), j) == LiveProbe(s, j);
  }

  lemma ResponsiveKeepsInv(p: Policy, s: State, i: nat)
    requires ValidPolicy(p) && Inv(p, s) && i < |s.leases|
    ensures Inv(p, Responsive(s, i))
  {
    var t := Responsive(s, i);
    if t.generation == s.generation {
      assert t == s;
    } else {
      assert forall j :: !LiveProbe(t, j);
    }
  }

  /** A settlement that changes no circuit field keeps the invariant. */
  lemma QuietSettleKeepsProbes(s: State, i: nat, t: State)
    requires ProbeAccounted(s) && OneStartPerOutage(s) && i < |s.leases|
    requires !(s.leases[i].probe && !s.leases[i].probeRecovered) || s.leases[i].settled
    requires t.leases == s.leases[i := s.leases[i].(settled := true)]
    requires t.openUntil == s.openUntil && t.halfOpenProbe == s.halfOpenProbe && t.generation == s.generation
    ensures ProbeAccounted(t) && OneStartPerOutage(t)
  {
    assert forall j :: LiveProbe(t, j) == LiveProbe(s, j);
  }

  /** A new generation without a probe keeps the invariant. */
  lemma BumpKeepsProbes(s: State, i: nat, t: State)
    requires OneStartPerOutage(s) && i < |s.leases|
    requires t.leases == s.leases[i := s.leases[i].(settled := true)]
    requires !t.halfOpenProbe && t.generation == s.generation + 1
    ensures ProbeAccounted(t) && OneStartPerOutage(t)
  {
    assert forall j :: !LiveProbe(t, j);
  }

  lemma FailureKeepsQueue(p: Policy, s: State, now: nat, t: State)
    requires QueueIsWindow(p, s) && now >= s.now && ValidPolicy(p)
    requires t.sinceClear == s.sinceClear + [now] && t.now == now && t.prunedAt == now
    requires t.failures == Pruned(s.failures + [now], now - p.windowMs)
    ensures QueueIsWindow(p, t)
  {
    PrunedThenPushed(s.sinceClear, now, s.prunedAt - p.windowMs);
    PrunedTwice(s.sinceClear + [now], s.prunedAt - p.windowMs, now - p.windowMs);
    assert forall x :: x in t.sinceClear ==> x in s.sinceClear || x == now;
    assert forall i :: 0 <= i < |s.sinceClear| ==> s.sinceClear[i] in s.sinceClear;
  }

  lemma SettleKeepsInv(p: Policy, s: State, i: nat, outcome: Outcome, at: nat)
    requires ValidPolicy(p) && Inv(p, s) && i < |s.leases| && at >= s.now
    ensures Inv(p, Settle(p, s, i, outcome, at))
  {
    var l, t := s.leases[i], Settle(p, s, i, outcome, at);
    if !l.settled {
      if t.generation == s.generation {
        if outcome.Success? && s.halfOpenProbe {
          assert false;
        }
        QuietSettleKeepsProbes(s, i, t);
      } else {
        BumpKeepsProbes(s, i, t);
      }
      if outcome.Failure? {
        FailureKeepsQueue(p, s, at, t);
      }
    }
  }

  lemma StepKeepsInv(p: Policy, s: State, op: Op)
    requires ValidPolicy(p) && Inv(p, s) && Enabled(s, op)
    ensures Inv(p, Apply(p, s, op))
  {
    match op
    case EnterOp(at) => EnterKeepsInv(p, s, at);
    case SnapshotOp(at) => PruneKeepsInv(p, s, at);
    case StartOp(i) => StartKeepsInv(p, s, i);
    case ResponsiveOp(i) => ResponsiveKeepsInv(p, s, i);
    case SettleOp(i, outcome, at) => SettleKeepsInv(p, s, i, outcome, at);
  }

  /** Every reachable state satisfies the invariant. */
  lemma {:induction false} RunKeepsInv(p: Policy, s: State, ops: seq<Op>)
    requires ValidPolicy(p) && Inv(p, s) && EnabledRun(p, s, ops)
    ensures Inv(p, Run(p, s, ops))
    decreases |ops|
  {
    if ops != [] {
      StepKeepsInv(p, s, ops[0]);
      RunKeepsInv(p, Apply(p, s, ops[0]), ops[1..]);
    }
  }

  lemma InitialInv(p: Policy)
    requires ValidPolicy(p)
    ensures Inv(p, INITIAL)
  {
    assert forall i :: !LiveProbe(INITIAL, i);
  }

  /** What the invariant says to callers. */
  lemma ReachableFacts(p: Policy, ops: seq<Op>, i: nat, j: nat)
    requires ValidPolicy(p) && EnabledRun(p, INITIAL, ops)
    ensures var s := Run(p, INITIAL, ops);
      && (LiveProbe(s, i) && LiveProbe(s, j) ==> i == j)
      && (LiveProbe(s, i) ==> s.halfOpenProbe)
      && (s.halfOpenProbe ==> exists k :: LiveProbe(s, k))
      && (s.openUntil == 0 ==> |s.failures| < p.threshold)
      && (s.failures == Filter(s.sinceClear, t => t >= s.prunedAt - p.windowMs))
  {
    var s := Run(p, INITIAL, ops);
    InitialInv(p);
    RunKeepsInv(p, INITIAL, ops);
    PrunedIsFilter(s.sinceClear, s.prunedAt - p.windowMs);
  }

  // ---------------------------------------------------------------------------------------------
  // Generation fence
  // ---------------------------------------------------------------------------------------------

  /** Every change of `openUntil`, and every end of a half-open probe, starts a new generation. */
  lemma TransitionBumps(p: Policy, s: State, op: Op)
    requires ValidPolicy(p) && Inv(p, s) && Enabled(s, op)
    ensures var t := Apply(p, s, op);
      && t.generation >= s.generation
      && (t.openUntil != s.openUntil || (s.halfOpenProbe && !t.halfOpenProbe) ==> t.generation > s.generation)
  {
  }

  lemma StepKeepsLease(p: Policy, s: State, op: Op, i: nat)
    requires Enabled(s, op) && i < |s.leases|
    ensures var t := Apply(p, s, op);
      && i < |t.leases| && t.generation >= s.generation
      && t.leases[i].generation == s.leases[i].generation && t.leases[i].probe == s.leases[i].probe
      && (s.leases[i].settled ==> t.leases[i].settled)
      && (t.leases[i].startCommitted && !s.leases[i].startCommitted ==>
            s.leases[i].generation == s.generation && t.openUntil == s.openUntil && !s.leases[i].settled
            && (s.leases[i].probe <==> s.openUntil != 0))
  {
  }

  /** A reservation made before a transition never commits its start after it. */
  lemma {:induction false} StaleNeverStarts(p: Policy, s: State, ops: seq<Op>, i: nat)
    requires EnabledRun(p, s, ops) && i < |s.leases|
    requires !s.leases[i].startCommitted && s.leases[i].generation < s.generation
    ensures var t := Run(p, s, ops); i < |t.leases| && !t.leases[i].startCommitted
    decreases |ops|
  {
    if ops != [] {
      StepKeepsLease(p, s, ops[0], i);
      StaleNeverStarts(p, Apply(p, s, ops[0]), ops[1..], i);
    }
  }

  /** The thundering-herd fence: once the circuit opens, closes or reopens, no reservation that had
      not started by then ever starts. */
  lemma NoStartAcrossTransition(p: Policy, s: State, op: Op, ops: seq<Op>, i: nat)
    requires ValidPolicy(p) && Inv(p, s) && Enabled(s, op) && EnabledRun(p, Apply(p, s, op), ops)
    requires i < |s.leases| && !s.leases[i].startCommitted
    requires Apply(p, s, op).openUntil != s.openUntil
    ensures var t := Run(p, Apply(p, s, op), ops); i < |t.leases| && !t.leases[i].startCommitted
  {
    TransitionBumps(p, s, op);
    StepKeepsLease(p, s, op, i);
    StaleNeverStarts(p, Apply(p, s, op), ops, i);
  }

  /** While a circuit stays open or half-open, at most one start commits. */
  lemma OutageStartsOnce(p: Policy, ops: seq<Op>, i: nat, j: nat)
    requires ValidPolicy(p) && EnabledRun(p, INITIAL, ops)
    ensures var s := Run(p, INITIAL, ops);
      i < |s.leases| && j < |s.leases| && s.leases[i].probe && s.leases[i].generation == s.leases[j].generation ==>
        i == j
  {
    InitialInv(p);
    RunKeepsInv(p, INITIAL, ops);
  }

  // ---------------------------------------------------------------------------------------------
  // When the circuit opens, and that no probe leaks
  // ---------------------------------------------------------------------------------------------

  /** A closed circuit opens exactly when an unsettled lease settles as a failure that is a live probe's
      or the threshold-th in the window, or an unrecovered probe of any age settles neutrally. */
  lemma OpensIff(p: Policy, s: State, op: Op)
    requires ValidPolicy(p) && Inv(p, s) && Enabled(s, op) && s.openUntil == 0
    ensures Apply(p, s, op).openUntil != 0 <==>
      && op.SettleOp? && !s.leases[op.lease].settled
      && var live := s.leases[op.lease].probe && !s.leases[op.lease].probeRecovered;
         match op.outcome
         case Success => false
         case Failure => live || |Pruned(s.failures + [op.at], op.at - p.windowMs)| >= p.threshold
         case Neutral => live
  {
  }

  lemma RunFive(p: Policy, ops: seq<Op>, states: seq<State>)
    requires |states| == |ops| + 1
    requires forall i :: 0 <= i < |ops| ==> Enabled(states[i], ops[i]) && states[i + 1] == Apply(p, states[i], ops[i])
    ensures EnabledRun(p, states[0], ops) && Run(p, states[0], ops) == states[|ops|]
    decreases |ops|
  {
    if ops != [] {
      RunFive(p, ops[1..], states[1..]);
    }
  }

  /** "Only failures open the circuit" is false: a stale probe that settles neutrally opens it. */
  lemma NeutralCanOpen()
    ensures var p := Policy(1, 10, 10);
      var ops := [EnterOp(1), EnterOp(1), SettleOp(0, Failure, 1), EnterOp(11), SettleOp(1, Success, 12)];
      EnabledRun(p, INITIAL, ops) && Run(p, INITIAL, ops).openUntil == 0 &&
      Apply(p, Run(p, INITIAL, ops), SettleOp(2, Neutral, 13)).openUntil == 13
  {
    var p := Policy(1, 10, 10);
    var s1 := Apply(p, INITIAL, EnterOp(1));
    var s2 := Apply(p, s1, EnterOp(1));
    var s3 := Apply(p, s2, SettleOp(0, Failure, 1));
    var s4 := Apply(p, s3, EnterOp(11));
    var s5 := Apply(p, s4, SettleOp(1, Success, 12));
    assert s3.openUntil == 11 && |s3.leases| == 2;
    assert |s4.leases| == 3 && s4.leases[2].probe;
    var ops := [EnterOp(1), EnterOp(1), SettleOp(0, Failure, 1), EnterOp(11), SettleOp(1, Success, 12)];
    RunFive(p, ops, [INITIAL, s1, s2, s3, s4, s5]);
  }

  /** Whatever the outcome, settling the live probe lets the next caller probe or pass. */
  lemma SettledProbeFreesCircuit(p: Policy, s: State, i: nat, outcome: Outcome, at: nat, later: nat)
    requires ValidPolicy(p) && Inv(p, s) && LiveProbe(s, i) && at >= s.now
    requires later >= at && later >= Settle(p, s, i, outcome, at).openUntil
    ensures var t := Settle(p, s, i, outcome, at);
      !t.halfOpenProbe && Enter(p, t, later).1 && t.generation == s.generation + 1
  {
  }
}

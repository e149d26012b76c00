/**
  What the service admits and which runs it interrupts, told by the operations so far; and that nobody who
  waits for admitted mutations to finish waits in vain.
 */
module ServiceHistory {
  import opened Common
  import opened ServiceAdmission

  lemma {:induction false} RunPush(s: State, ops: seq<Op>, op: Op)
    requires EnabledRun(s, ops + [op])
    ensures EnabledRun(s, ops) && Enabled(Run(s, ops), op) && Run(s, ops + [op]) == Step(Run(s, ops), op)
    decreases |ops|
  {
    if ops == [] {
      assert [op][1..] == [];
    } else {
      assert (ops + [op])[1..] == ops[1..] + [op];
      RunPush(Step(s, ops[0]), ops[1..], op);
    }
  }

  // ---------------------------------------------------------------------------------------------
  // What is admitted
  // ---------------------------------------------------------------------------------------------

  ghost predicate StopRequested(ops: seq<Op>) {
    BeginStop(false) in ops || BeginStop(true) in ops
  }

  function Exclusives(ops: seq<Op>): int {
    if ops == [] then 0
    else
      var op := ops[|ops| - 1];
      Exclusives(ops[..|ops| - 1]) +
      if op.AdmitExclusive? then 1 else if op.FinishExclusive? then -1 else 0
  }

  /** Initialization as the operations tell it. */
  ghost predicate InitTold(s: State, ops: seq<Op>) {
    && (s.lifecycle.New? <==> InitBegin !in ops && !StopRequested(ops))
    && (s.lifecycle.Initializing? ==> s.initializing)
    && (s.initializing ==> InitBegin in ops && InitEnd(true) !in ops && InitEnd(false) !in ops)
    && (InitEnd(true) in ops || InitEnd(false) in ops ==> InitBegin in ops)
    && (s.lifecycle.Ready? <==> InitEnd(true) in ops && !StopRequested(ops))
  }

  ghost predicate StopTold(s: State, ops: seq<Op>) {
    && (StopRequested(ops) ==> Closed(s.lifecycle))
    && (!StopRequested(ops) && s.lifecycle.Failed? ==> InitEnd(false) in ops && !s.initializing)
    && (!StopRequested(ops) ==> s.stop.Idle? && !s.lifecycle.Quiescing? && !s.lifecycle.Stopped?)
  }

  ghost predicate ExclusivesTold(s: State, ops: seq<Op>) {
    (s.exclusive <==> Exclusives(ops) == 1) && (!s.exclusive <==> Exclusives(ops) == 0)
  }

  lemma PushedIn(ops: seq<Op>, op: Op)
    ensures forall x :: x in ops + [op] <==> x in ops || x == op
    ensures Exclusives(ops + [op]) == Exclusives(ops) +
      if op.AdmitExclusive? then 1 else if op.FinishExclusive? then -1 else 0
  {
    assert (ops + [op])[..|ops|] == ops;
  }

  lemma StepTellsInit(s: State, ops: seq<Op>, op: Op)
    requires Inv(s) && InitTold(s, ops) && StopTold(s, ops) && Enabled(s, op)
    ensures InitTold(Step(s, op), ops + [op])
  {
    PushedIn(ops, op);
  }

  lemma StepTellsStop(s: State, ops: seq<Op>, op: Op)
    requires Inv(s) && InitTold(s, ops) && StopTold(s, ops) && Enabled(s, op)
    ensures StopTold(Step(s, op), ops + [op])
  {
    PushedIn(ops, op);
  }

  lemma StepTellsExclusives(s: State, ops: seq<Op>, op: Op)
    requires Inv(s) && ExclusivesTold(s, ops) && Enabled(s, op)
    ensures ExclusivesTold(Step(s, op), ops + [op])
  {
    PushedIn(ops, op);
    if op.FinishExclusive? {
      assert HasExclusive(s.tasks);
    }
  }

  lemma {:induction false} RunTold(ops: seq<Op>)
    requires EnabledRun(INITIAL, ops)
    ensures var s := Run(INITIAL, ops); InitTold(s, ops) && StopTold(s, ops) && ExclusivesTold(s, ops)
    decreases |ops|
  {
    if ops != [] {
      var n := |ops| - 1;
      assert ops == ops[..n] + [ops[n]];
      RunPush(INITIAL, ops[..n], ops[n]);
      RunTold(ops[..n]);
      RunKeepsInv(INITIAL, ops[..n]);
      StepTellsInit(Run(INITIAL, ops[..n]), ops[..n], ops[n]);
      StepTellsStop(Run(INITIAL, ops[..n]), ops[..n], ops[n]);
      StepTellsExclusives(Run(INITIAL, ops[..n]), ops[..n], ops[n]);
    }
  }

  /** Mutations, shared or exclusive, are admitted exactly when initialization succeeded, no stop was ever asked
      for, and every exclusive mutation admitted so far has finished. */
  lemma AdmittedIff(ops: seq<Op>)
    requires EnabledRun(INITIAL, ops)
    ensures var s := Run(INITIAL, ops);
      var open := InitEnd(true) in ops && !StopRequested(ops) && Exclusives(ops) == 0;
      (Enabled(s, Admit) <==> open) && (Enabled(s, AdmitExclusive) <==> open)
  {
    RunTold(ops);
  }

  /** While a stop is under way the service is quiescing, or failed because a failure stopped it; it is stopped only
      once a stop came to a good end. */
  ghost predicate StageTold(s: State, ops: seq<Op>) {
    && (s.lifecycle.Quiescing? ==> !s.stop.Idle?)
    && (!s.stop.Idle? ==> s.lifecycle.Quiescing? || (s.lifecycle.Failed? && BeginStop(true) in ops))
    && (s.lifecycle.Stopped? ==> s.stop.Idle? && StopEnd(true) in ops)
  }

  lemma StepTellsStage(s: State, ops: seq<Op>, op: Op)
    requires Inv(s) && StageTold(s, ops) && StopTold(s, ops) && Enabled(s, op)
    ensures StageTold(Step(s, op), ops + [op])
  {
    PushedIn(ops, op);
  }

  lemma {:induction false} StageIsTold(ops: seq<Op>)
    requires EnabledRun(INITIAL, ops)
    ensures StageTold(Run(INITIAL, ops), ops)
    decreases |ops|
  {
    if ops != [] {
      var n := |ops| - 1;
      assert ops == ops[..n] + [ops[n]];
      RunPush(INITIAL, ops[..n], ops[n]);
      StageIsTold(ops[..n]);
      RunTold(ops[..n]);
      RunKeepsInv(INITIAL, ops[..n]);
      StepTellsStage(Run(INITIAL, ops[..n]), ops[..n], ops[n]);
    }
  }

  // ---------------------------------------------------------------------------------------------
  // Which runs are active
  // ---------------------------------------------------------------------------------------------

  predicate Concerns(op: Op, run: nat) {
    match op
    case InitRegister(r) => r == run
    case Register(_, r) => r == run
    case RunEnds(r) => r == run
    case _ => false
  }

  /** The run was registered and has not ended since. */
  ghost predicate Registered(ops: seq<Op>, run: nat) {
    var last := LastWhere(ops, (op: Op) => Concerns(op, run));
    last.Some? && !last.value.RunEnds?
  }

  lemma RegisteredPush(ops: seq<Op>, op: Op, run: nat)
    ensures Registered(ops + [op], run) <==> if Concerns(op, run) then !op.RunEnds? else Registered(ops, run)
  {
    LastWherePush(ops, op, (x: Op) => Concerns(x, run));
  }

  lemma {:induction false} ActiveIff(ops: seq<Op>, run: nat)
    requires EnabledRun(INITIAL, ops)
    ensures run in Run(INITIAL, ops).active <==> Registered(ops, run)
    decreases |ops|
  {
    if ops != [] {
      var n := |ops| - 1;
      assert ops == ops[..n] + [ops[n]];
      RunPush(INITIAL, ops[..n], ops[n]);
      ActiveIff(ops[..n], run);
      RegisteredPush(ops[..n], ops[n], run);
    }
  }

  /** The runs a stop interrupts are exactly those registered and not ended when it looks; and none that is
      registered later escapes it. */
  lemma InterruptsRegistered(ops: seq<Op>, run: nat)
    requires EnabledRun(INITIAL, ops) && Enabled(Run(INITIAL, ops), Snapshot)
    ensures run in Step(Run(INITIAL, ops), Snapshot).snapshot <==> Registered(ops, run)
  {
    ActiveIff(ops, run);
  }

  // ---------------------------------------------------------------------------------------------
  // Nobody waits in vain
  // ---------------------------------------------------------------------------------------------

  /** An exclusive mutation that is alone was woken, and so was a stop that waits for nobody. */
  ghost predicate Woken(s: State) {
    && (s.exclusive && |s.tasks| == 1 ==> s.exclusiveWoken)
    && (s.stop.AwaitingDrain? && s.tasks == [] ==> s.drainWoken)
  }

  lemma StepKeepsWoken(s: State, op: Op)
    requires Inv(s) && Woken(s) && Enabled(s, op)
    ensures Woken(Step(s, op))
  {
    StepKeepsInv(s, op);
  }

  lemma {:induction false} RunKeepsWoken(s: State, ops: seq<Op>)
    requires Inv(s) && Woken(s) && EnabledRun(s, ops)
    ensures Woken(Run(s, ops))
    decreases |ops|
  {
    if ops != [] {
      StepKeepsWoken(s, ops[0]);
      StepKeepsInv(s, ops[0]);
      RunKeepsWoken(Step(s, ops[0]), ops[1..]);
    }
  }

  /** Whoever waits for the others goes on as soon as they are gone: an exclusive mutation may run its body, and
      a stop goes on to look for active runs, to interrupt them, and to end. */
  lemma NoLostWakeups(ops: seq<Op>)
    requires EnabledRun(INITIAL, ops)
    ensures var s := Run(INITIAL, ops);
      && (s.tasks == [ExclusiveWaiting] ==> Enabled(s, ProceedExclusive(0)))
      && (s.stop.AwaitingInit? && !s.initializing ==> Enabled(s, InitSettled))
      && (s.stop.AwaitingDrain? && s.tasks == [] ==> Enabled(s, DrainSettled))
      && (s.stop.DrainSeen? ==> Step(s, Snapshot).stop.Interrupting?)
      && (s.stop.Interrupting? ==> Step(s, StopEnd(false)).stop.Idle? && Step(s, StopEnd(true)).stop.Idle?)
      && (s.stop.Interrupting? ==> (Step(s, StopEnd(true)).lifecycle.Stopped? <==> !s.stopIsFailure))
      && (s.stop.Interrupting? ==> Step(s, StopEnd(false)).lifecycle.Failed?)
  {
    RunKeepsWoken(INITIAL, ops);
    RunKeepsInv(INITIAL, ops);
    var s := Run(INITIAL, ops);
    assert s.tasks == [ExclusiveWaiting] ==> !s.tasks[0].Shared?;
  }
}

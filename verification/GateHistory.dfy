/** When the write gate lets a writer in, told by what happened to the lease so far. */
module GateHistory {
  import opened Common
  import opened WriteGate

  /** What opens or closes the gate: an acquisition, a release that begins, or ownership found lost. */
  predicate MovesGate(op: Op) {
    match op
    case Acquire => true
    case OwnershipLost => true
    case BeginRelease => true
    case EnterOp(owned) => !owned
    case LeaveOp(_, owned) => !owned
    case _ => false
  }

  ghost predicate AcquiredLast(ops: seq<Op>) {
    LastWhere(ops, MovesGate) == Some(Acquire)
  }

  /** The gate as the operations tell it. */
  ghost predicate GateTold(s: State, ops: seq<Op>) {
    && (s.gate.open <==> AcquiredLast(ops))
    && (s.gate.everActivated <==> Acquire in ops) && (s.gate.open ==> s.gate.everActivated)
  }

  lemma StepTold(s: State, ops: seq<Op>, op: Op)
    requires Inv(s) && GateTold(s, ops) && Enabled(s, op)
    ensures GateTold(Step(s, op), ops + [op])
  {
    LastWherePush(ops, op, MovesGate);
    assert Acquire in ops + [op] <==> Acquire in ops || op == Acquire;
  }

  lemma {:induction false} RunPush(s: State, ops: seq<Op>, op: Op)
    requires EnabledRun(s, ops + [op])
    ensures EnabledRun(s, ops) && Enabled(Run(s, ops), op) && Run(s, ops + [op]) == Step(Run(s, ops), op)
    decreases |ops|
  {
    if ops == [] {
      assert [op][1..] == [];
    } else {
      assert (ops + [op])[1..] == ops[1..] + [op];
      RunPush(Step(s, ops[0]), ops[1..], op);
    }
  }

  lemma {:induction false} RunTold(ops: seq<Op>)
    requires EnabledRun(INITIAL, ops)
    ensures GateTold(Run(INITIAL, ops), ops)
    decreases |ops|
  {
    if ops != [] {
      var n := |ops| - 1;
      assert ops == ops[..n] + [ops[n]];
      RunPush(INITIAL, ops[..n], ops[n]);
      RunTold(ops[..n]);
      RunKeepsInv(INITIAL, ops[..n]);
      StepTold(Run(INITIAL, ops[..n]), ops[..n], ops[n]);
    }
  }

  /** A writer gets in exactly when the last thing that moved the gate was an acquisition and it still owns the
      store; otherwise it is told why not, and only a writer that gets in is counted. */
  lemma EntryIsTold(ops: seq<Op>, owned: bool)
    requires EnabledRun(INITIAL, ops)
    ensures var s := Run(INITIAL, ops);
      && Enter(s.gate, owned).1 ==
         (if Acquire !in ops then NotAcquired
          else if !AcquiredLast(ops) then Released
          else if owned then Done
          else OwnershipDrift)
      && |Step(s, EnterOp(owned)).permits| == |s.permits| + if Enter(s.gate, owned).1.Done? then 1 else 0
  {
    RunTold(ops);
    RunKeepsInv(INITIAL, ops);
  }

  /** Activation is refused exactly while the lease that was acquired last still lets writers in or has not got all
      its permits back; a refusal changes nothing. */
  lemma ActivationIsTold(ops: seq<Op>)
    requires EnabledRun(INITIAL, ops)
    ensures var s := Run(INITIAL, ops);
      && Activate(s.gate).1 == (if AcquiredLast(ops) || s.permits != [] then StillActive else Done)
      && (Activate(s.gate).1.StillActive? ==> Activate(s.gate).0 == s.gate)
      && (s.phase.Free? ==> Activate(s.gate).1.Done?)
  {
    RunTold(ops);
    RunKeepsInv(INITIAL, ops);
  }

  /** What takes the lease from one stage to the next. */
  predicate MovesLease(op: Op) {
    !op.EnterOp? && !op.LeaveOp? && !op.OwnershipLost?
  }

  ghost predicate LeaseTold(s: State, ops: seq<Op>) {
    s.phase == match LastWhere(ops, MovesLease)
      case None => Free
      case Some(op) =>
        if op.Acquire? || op.UnlockFails? then Held
        else if op.BeginRelease? then Draining
        else if op.DrainDone? then Drained
        else if op.Unlock? then Unlocked
        else Free
  }

  lemma {:induction false} LeaseIsTold(ops: seq<Op>)
    requires EnabledRun(INITIAL, ops)
    ensures LeaseTold(Run(INITIAL, ops), ops)
    decreases |ops|
  {
    if ops != [] {
      var n := |ops| - 1;
      assert ops == ops[..n] + [ops[n]];
      RunPush(INITIAL, ops[..n], ops[n]);
      LeaseIsTold(ops[..n]);
      LastWherePush(ops[..n], ops[n], MovesLease);
    }
  }

  /** What may happen next: ownership may be lost from the acquisition to the end of the release, writers may knock
      and leave at any time, and acquisition and release take turns. */
  lemma MayHappenIff(ops: seq<Op>, op: Op)
    requires EnabledRun(INITIAL, ops)
    ensures var (s, last) := (Run(INITIAL, ops), LastWhere(ops, MovesLease));
      Enabled(s, op) <==> match op
        case Acquire => last.None? || last.value.DeactivateOp?
        case OwnershipLost => last.Some? && !last.value.DeactivateOp?
        case EnterOp(_) => true
        case LeaveOp(i, _) => i < |s.permits|
        case BeginRelease => last.Some? && (last.value.Acquire? || last.value.UnlockFails?)
        case DrainDone => last.Some? && last.value.BeginRelease? && s.permits == []
        case Unlock => last.Some? && last.value.DrainDone?
        case UnlockFails => last.Some? && last.value.DrainDone?
        case DeactivateOp => last.Some? && last.value.Unlock?
  {
    LeaseIsTold(ops);
    RunKeepsInv(INITIAL, ops);
    var last := LastWhere(ops, MovesLease);
    if last.Some? {
      var _ := LastWhereAt(ops, MovesLease);
    }
  }

  /** Leaving returns exactly one permit. */
  lemma LeavingReturnsPermit(ops: seq<Op>, i: nat, owned: bool)
    requires EnabledRun(INITIAL, ops) && Enabled(Run(INITIAL, ops), LeaveOp(i, owned))
    ensures var (s, t) := (Run(INITIAL, ops), Step(Run(INITIAL, ops), LeaveOp(i, owned)));
      && t.permits == s.permits[..i] + s.permits[i + 1..] && t.gate.active == |t.permits| == s.gate.active - 1
      && (t.gate.open <==> s.gate.open && owned)
  {
    RunKeepsInv(INITIAL, ops);
  }

  /** A release always comes to its end: it drains once the permits are back, unlocks or falls back to a closed
      lease, and leaves the store free. */
  lemma ReleaseComesToItsEnd(ops: seq<Op>)
    requires EnabledRun(INITIAL, ops)
    ensures var s := Run(INITIAL, ops);
      && (s.phase.Draining? && s.permits == [] ==> Enabled(s, DrainDone) && Step(s, DrainDone).phase.Drained?)
      && (s.phase.Drained? ==> Step(s, Unlock).phase.Unlocked? && Step(s, UnlockFails).phase.Held? && !s.gate.open)
      && (s.phase.Unlocked? ==> Step(s, DeactivateOp).phase.Free? && !Step(s, DeactivateOp).gate.bound)
      && (s.phase.Free? ==> Step(s, Acquire).phase.Held? && Step(s, Acquire).gate.open && Step(s, Acquire).gate.bound)
  {
    RunKeepsInv(INITIAL, ops);
  }
}

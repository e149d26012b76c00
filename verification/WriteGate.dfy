/**
  The write-permit gate of src/workflowWriteCoordinator.ts:17-102 and the lease that a store holds around
  it, src/fileWorkflowStore.ts:362-406: ownership is only handed over with the gate closed and no permit
  outstanding.
 */
module WriteGate {
  import opened Common

  /** `bound` when an ownership check is installed. */
  datatype Gate = Gate(open: bool, everActivated: bool, active: nat, bound: bool)

  datatype Outcome = Done | NotAcquired | Released | OwnershipDrift | StillActive

  function Activate(g: Gate): (Gate, Outcome) {
    if g.open || g.active != 0 then (g, StillActive) else (Gate(true, true, 0, true), Done)
  }

  /** `owned` is what the kernel check says now; drift closes the gate for good. */
  function Verify(g: Gate, owned: bool): (Gate, Outcome) {
    if g.bound && !owned then (g.(open := false), OwnershipDrift) else (g, Done)
  }

  function AssertWritable(g: Gate, owned: bool): (Gate, Outcome) {
    if !g.everActivated then (g, NotAcquired)
    else if !g.open || !g.bound then (g, Released)
    else Verify(g, owned)
  }

  function Enter(g: Gate, owned: bool): (Gate, Outcome) {
    var (h, r) := AssertWritable(g, owned);
    if r.Done? then (h.(active := h.active + 1), Done) else (h, r)
  }

  function Leave(g: Gate): Gate
    requires g.active > 0
  {
    g.(active := g.active - 1)
  }

  function Close(g: Gate): Gate {
    g.(open := false)
  }

  function Deactivate(g: Gate): (Gate, Outcome) {
    if g.active != 0 then (g, StillActive) else (g.(open := false, bound := false), Done)
  }

  class LeaseScopedWriteCoordinator {
    var open: bool
    var everActivated: bool
    var active: nat
    var bound: bool
    /** Callers of `closeAndDrain` that wait, and those that were woken. */
    var drainWaiters: seq<nat>
    var woken: seq<nat>

    ghost function Abstract(): Gate
      reads this
    {
      Gate(open, everActivated, active, bound)
    }

    /** Nobody waits for a drain that has happened. */
    ghost predicate Valid()
      reads this
    {
      active == 0 ==> drainWaiters == []
    }

    constructor ()
      ensures Valid() && Abstract() == Gate(false, false, 0, false) && drainWaiters == [] && woken == []
    {
      open, everActivated, active, bound, drainWaiters, woken := false, false, 0, false, [], [];
    }

    method ActivateGate() returns (r: Outcome)
      requires Valid()
      modifies this
      ensures Valid() && (Abstract(), r) == Activate(old(Abstract()))
      ensures drainWaiters == old(drainWaiters) && woken == old(woken)
    {
      if open || active != 0 {
        return StillActive;
      }
      bound, open, everActivated := true, true, true;
      r := Done;
    }

    method VerifyOwned(owned: bool) returns (r: Outcome)
      requires Valid()
      modifies this`open
      ensures Valid() && (Abstract(), r) == Verify(old(Abstract()), owned)
    {
      if bound && !owned {
        open := false;
        return OwnershipDrift;
      }
      r := Done;
    }

    method EnterGate(owned: bool) returns (r: Outcome)
      requires Valid()
      modifies this`open, this`active
      ensures Valid() && (Abstract(), r) == Enter(old(Abstract()), owned)
    {
      if !everActivated {
        return NotAcquired;
      }
      if !open || !bound {
        return Released;
      }
      r := VerifyOwned(owned);
      if r.Done? {
        active := active + 1;
      }
    }

    /** The last permit wakes every waiting drain. */
    method LeaveGate()
      requires Valid() && active > 0
      modifies this`active, this`drainWaiters, this`woken
      ensures Valid() && Abstract() == Leave(old(Abstract()))
      ensures if active == 0 then drainWaiters == [] && woken == old(woken) + old(drainWaiters)
              else drainWaiters == old(drainWaiters) && woken == old(woken)
    {
      active := active - 1;
      if active != 0 {
        return;
      }
      woken := woken + drainWaiters;
      drainWaiters := [];
    }

    /** A write: enter, do it, check ownership again, leave whatever happened. */
    method RunSync(ownedBefore: bool, ownedAfter: bool) returns (r: Outcome)
      requires Valid()
      modifies this
      ensures Valid() && active == old(active)
      ensures r.Done? <==> old(open) && old(bound) && old(everActivated) && ownedBefore && ownedAfter
      ensures !r.Done? && old(open) && old(bound) && old(everActivated) ==> !open
    {
      r := EnterGate(ownedBefore);
      if !r.Done? {
        return;
      }
      r := VerifyOwned(ownedAfter);
      LeaveGate();
    }

    /** Closing is synchronous; the caller waits exactly when permits are outstanding. */
    method CloseAndDrain(waiter: nat) returns (drained: bool)
      requires Valid()
      modifies this`open, this`drainWaiters
      ensures Valid() && Abstract() == Close(old(Abstract()))
      ensures drained <==> active == 0
      ensures drainWaiters == if drained then old(drainWaiters) else old(drainWaiters) + [waiter]
    {
      open := false;
      drained := active == 0;
      if !drained {
        drainWaiters := drainWaiters + [waiter];
      }
    }

    method DeactivateGate() returns (r: Outcome)
      requires Valid()
      modifies this`open, this`bound
      ensures Valid() && (Abstract(), r) == Deactivate(old(Abstract()))
    {
      if active != 0 {
        return StillActive;
      }
      open, bound := false, false;
      r := Done;
    }
  }

  // ---------------------------------------------------------------------------------------------
  // The lease around the gate
  // ---------------------------------------------------------------------------------------------

  /** A release closes the gate and drains, then lets the backend unlock, then deactivates. */
  datatype Phase = Free | Held | Draining | Drained | Unlocked

  /** `permits` records the lease generation each outstanding permit was issued in. */
  datatype State = State(gate: Gate, phase: Phase, generation: nat, permits: seq<nat>)

  const INITIAL := State(Gate(false, false, 0, false), Free, 0, [])

  datatype Op =
    | Acquire
    | EnterOp(owned: bool)
    | LeaveOp(i: nat, owned: bool)
    | OwnershipLost
    | BeginRelease
    | DrainDone
    | Unlock
    | UnlockFails
    | DeactivateOp

  predicate Enabled(s: State, op: Op) {
    match op
    case Acquire => s.phase.Free?
    case EnterOp(_) => true
    case LeaveOp(i, _) => i < |s.permits|
    case OwnershipLost => !s.phase.Free?
    case BeginRelease => s.phase.Held?
    case DrainDone => s.phase.Draining? && s.gate.active == 0
    case Unlock => s.phase.Drained?
    case UnlockFails => s.phase.Drained?
    case DeactivateOp => s.phase.Unlocked?
  }

  function Step(s: State, op: Op): State
    requires Enabled(s, op)
  {
    match op
    case Acquire => State(Activate(s.gate).0, Held, s.generation + 1, s.permits)
    case EnterOp(owned) =>
      var (g, r) := Enter(s.gate, owned);
      if r.Done? then s.(gate := g, permits := s.permits + [s.generation]) else s.(gate := g)
    case LeaveOp(i, owned) =>
      var g := Verify(s.gate, owned).0;
      if g.active > 0 then s.(gate := Leave(g), permits := s.permits[..i] + s.permits[i + 1..]) else s
    case OwnershipLost => s.(gate := Close(s.gate))
    case BeginRelease => s.(gate := Close(s.gate), phase := Draining)
    case DrainDone => s.(phase := Drained)
    case Unlock => s.(phase := Unlocked)
    case UnlockFails => s.(phase := Held)
    case DeactivateOp => s.(gate := Deactivate(s.gate).0, phase := Free)
  }

  predicate EnabledRun(s: State, ops: seq<Op>)
    decreases |ops|
  {
    ops == [] || (Enabled(s, ops[0]) && EnabledRun(Step(s, ops[0]), ops[1..]))
  }

  function Run(s: State, ops: seq<Op>): State
    requires EnabledRun(s, ops)
    decreases |ops|
  {
    if ops == [] then s else Run(Step(s, ops[0]), ops[1..])
  }

  ghost predicate Inv(s: State) {
    && s.gate.active == |s.permits|
    && (forall i :: 0 <= i < |s.permits| ==> s.permits[i] == s.generation)
    && (|s.permits| > 0 ==> s.phase.Held? || s.phase.Draining?)
    && (s.gate.open ==> s.phase.Held? && s.gate.bound)
    && (s.phase.Drained? || s.phase.Unlocked? || s.phase.Free? ==> s.gate.active == 0)
    && (s.phase.Free? ==> !s.gate.bound)
  }

  lemma StepKeepsInv(s: State, op: Op)
    requires Inv(s) && Enabled(s, op)
    ensures Inv(Step(s, op))
  {
    match op
    case LeaveOp(i, _) =>
      var left := s.permits[..i] + s.permits[i + 1..];
      assert forall j :: 0 <= j < |left| ==> left[j] == s.permits[if j < i then j else j + 1];
    case _ =>
  }

  lemma {:induction false} RunKeepsInv(s: State, ops: seq<Op>)
    requires Inv(s) && EnabledRun(s, ops)
    ensures Inv(Run(s, ops))
    decreases |ops|
  {
    if ops != [] {
      StepKeepsInv(s, ops[0]);
      RunKeepsInv(Step(s, ops[0]), ops[1..]);
    }
  }

  /** In every reachable state: a permit was issued in the present lease generation, and the lease is not
      given up before it is returned; so when the backend unlocks, the gate is closed and no writer of
      the old owner is left, and the next owner's activation succeeds. */
  lemma HandoverIsQuiet(ops: seq<Op>, i: nat)
    requires EnabledRun(INITIAL, ops)
    ensures var s := Run(INITIAL, ops);
      && (i < |s.permits| ==> s.permits[i] == s.generation && (s.phase.Held? || s.phase.Draining?))
      && (Enabled(s, Unlock) ==> !s.gate.open && s.gate.active == 0 && s.permits == [])
      && (Enabled(s, Acquire) ==> Activate(s.gate).1.Done?)
      && (Enabled(s, DeactivateOp) ==> Deactivate(s.gate).1.Done?)
  {
    var s := Run(INITIAL, ops);
    RunKeepsInv(INITIAL, ops);
  }

  /** From the moment a release begins until the next acquisition, nobody enters the gate. */
  lemma NoEntryAfterRelease(s: State, owned: bool)
    requires Inv(s) && !s.phase.Held?
    ensures !Enter(s.gate, owned).1.Done? && Step(s, EnterOp(owned)).permits == s.permits
  {
  }
}

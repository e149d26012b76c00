/** The circuit breaker as the source writes it: counters in the object, flags in each lease's closure. */
module CircuitBreaker {
  import opened Common
  import C = CircuitSpec

  class ProviderCircuitBreaker {
    const policy: C.Policy
    var failures: seq<nat>
    var openUntil: nat
    var halfOpenProbe: bool
    var generation: nat
    /** The closure variables of the leases handed out, in order. */
    var leases: seq<C.Lease>
    ghost var sinceClear: seq<nat>
    ghost var prunedAt: nat
    ghost var now: nat

    ghost function Abstract(): C.State
      reads this
    {
      C.State(failures, openUntil, halfOpenProbe, generation, leases, sinceClear, prunedAt, now)
    }

    constructor (policy: C.Policy)
      ensures this.policy == policy && Abstract() == C.INITIAL
    {
      this.policy := policy;
      failures, openUntil, halfOpenProbe, generation, leases := [], 0, false, 0, [];
      sinceClear, prunedAt, now := [], 0, 0;
    }

    method Prune(at: nat)
      modifies this
      ensures Abstract() == C.Prune(policy, old(Abstract()), at)
    {
      while |failures| > 0 && failures[0] < at - policy.windowMs
        invariant C.Pruned(failures, at - policy.windowMs) == C.Pruned(old(failures), at - policy.windowMs)
        invariant Abstract() == old(Abstract()).(failures := failures)
        decreases |failures|
      {
        failures := failures[1..];
      }
      prunedAt, now := at, at;
    }

    /** One turn of the `enter` loop; `None` means wait and come back. */
    method Enter(at: nat) returns (lease: Option<nat>)
      modifies this
      ensures Abstract() == C.Enter(policy, old(Abstract()), at).0
      ensures lease == if C.Enter(policy, old(Abstract()), at).1 then Some(|old(leases)|) else None
    {
      Prune(at);
      if openUntil == 0 {
        lease := NewLease(false);
      } else if at >= openUntil && !halfOpenProbe {
        halfOpenProbe := true;
        lease := NewLease(true);
      } else {
        lease := None;
      }
    }

    method NewLease(probe: bool) returns (lease: Option<nat>)
      modifies this`leases
      ensures Abstract() == C.NewLease(old(Abstract()), probe) && lease == Some(|old(leases)|)
    {
      lease := Some(|leases|);
      leases := leases + [C.Lease(probe, generation, false, false, false)];
    }

    method StartAllowed(i: nat) returns (allowed: bool)
      requires i < |leases|
      modifies this`leases
      ensures allowed == C.StartAllowed(old(Abstract()), i)
      ensures Abstract() == C.Start(old(Abstract()), i)
    {
      var l := leases[i];
      if l.settled {
        return false;
      }
      if l.startCommitted {
        return true;
      }
      allowed := l.generation == generation && if l.probe then halfOpenProbe && openUntil != 0 else openUntil == 0;
      if allowed {
        leases := leases[i := l.(startCommitted := true)];
      }
    }

    method ProviderResponsive(i: nat)
      requires i < |leases|
      modifies this
      ensures Abstract() == C.Responsive(old(Abstract()), i)
    {
      var l := leases[i];
      if l.settled || !l.startCommitted || !l.probe || l.probeRecovered {
        return;
      }
      leases := leases[i := l.(probeRecovered := true)];
      failures, sinceClear := [], [];
      openUntil := 0;
      halfOpenProbe := false;
      generation := generation + 1;
    }

    method Settle(i: nat, outcome: C.Outcome, at: nat)
      requires i < |leases|
      modifies this
      ensures Abstract() == C.Settle(policy, old(Abstract()), i, outcome, at)
    {
      var l := leases[i];
      if l.settled {
        return;
      }
      leases := leases[i := l.(settled := true)];
      now := at;
      if outcome.Success? {
        var changedCircuitState := (l.probe && !l.probeRecovered) || openUntil != 0;
        failures, sinceClear := [], [];
        openUntil := 0;
        halfOpenProbe := false;
        if changedCircuitState {
          generation := generation + 1;
        }
        return;
      }
      if outcome.Failure? {
        failures, sinceClear := failures + [at], sinceClear + [at];
        Prune(at);
        if (l.probe && !l.probeRecovered) || |failures| >= policy.threshold {
          openUntil := at + policy.cooldownMs;
          halfOpenProbe := false;
          generation := generation + 1;
        }
        return;
      }
      if l.probe && !l.probeRecovered {
        halfOpenProbe := false;
        openUntil := at;
        generation := generation + 1;
      }
    }
  }
}

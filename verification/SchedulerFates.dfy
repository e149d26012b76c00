/** What becomes of each request of the scheduler, and why: granted, rejected or still waiting. */
module SchedulerFates {
  import opened Common
  import opened SchedulerSpec

  /** Listeners run for waiters whose signal was aborted. */
  predicate Heard(s: State, op: Op) {
    op.OnAbortOp? ==> op.w.signal in s.aborted
  }

  predicate HeardRun(s: State, ops: seq<Op>)
    decreases |ops|
  {
    ops == [] || (Heard(s, ops[0]) && HeardRun(Apply(s, ops[0]), ops[1..]))
  }

  /** `t` has granted and rejected more than `s`: live requests were granted, aborted ones rejected. */
  ghost predicate Settled(s: State, t: State) {
    && s.granted <= t.granted && s.rejected <= t.rejected && t.aborted == s.aborted && t.capacity == s.capacity
    && (forall i :: |s.granted| <= i < |t.granted| ==> t.granted[i].signal !in s.aborted)
    && (forall i :: |s.rejected| <= i < |t.rejected| ==> t.rejected[i].signal in s.aborted)
  }

  lemma SettledTwice(s: State, t: State, u: State)
    requires Settled(s, t) && Settled(t, u)
    ensures Settled(s, u)
  {
  }

  lemma {:induction false} DrainSettles(s: State)
    ensures Settled(s, Drain(s))
    decreases |s.waiters|
  {
    if Drainable(s) {
      DrainSettles(DrainOne(s));
      SettledTwice(s, DrainOne(s), Drain(s));
    }
  }

  lemma AcquireSettles(s: State, key: Key, signal: nat)
    ensures Settled(s, Acquire(s, key, signal))
  {
    var queued := Requested(s, Waiter(|s.requests|, key, signal)).(
      waiters := s.waiters + [Waiter(|s.requests|, key, signal)]);
    DrainSettles(queued);
  }

  /** Every operation grants live requests only and rejects aborted ones only. */
  lemma StepSettles(s: State, op: Op)
    requires Heard(s, op) && !op.AbortOp?
    ensures Settled(s, Apply(s, op))
  {
    match op
    case AcquireOp(key, signal) => AcquireSettles(s, key, signal);
    case ReleaseOp(id) => DrainSettles(Returned(s, id));
    case OnAbortOp(_) =>
  }

  lemma AbortRaises(s: State, signal: nat)
    ensures Apply(s, AbortOp(signal)) == s.(aborted := s.aborted + {signal})
  {
  }

  ghost predicate OnlyAbortedRejected(s: State) {
    forall w :: w in s.rejected ==> w.signal in s.aborted
  }

  /** A signal counts as aborted exactly when an abort was asked for. */
  lemma {:induction false} RunIsTold(s: State, ops: seq<Op>)
    requires OnlyAbortedRejected(s) && HeardRun(s, ops)
    ensures OnlyAbortedRejected(Run(s, ops))
    ensures forall signal :: signal in Run(s, ops).aborted <==> signal in s.aborted || AbortOp(signal) in ops
    decreases |ops|
  {
    if ops != [] {
      var t := Apply(s, ops[0]);
      if !ops[0].AbortOp? {
        StepSettles(s, ops[0]);
        forall w | w in t.rejected ensures w.signal in t.aborted {
          var i :| 0 <= i < |t.rejected| && t.rejected[i] == w;
          assert i < |s.rejected| ==> s.rejected[i] == w;
        }
      }
      RunIsTold(t, ops[1..]);
      assert ops == [ops[0]] + ops[1..];
    }
  }

  /** From the start: whoever was rejected had aborted. */
  lemma RejectedHadAborted(capacity: nat, ops: seq<Op>, w: Waiter)
    requires HeardRun(Initial(capacity), ops) && w in Run(Initial(capacity), ops).rejected
    ensures AbortOp(w.signal) in ops
  {
    RunIsTold(Initial(capacity), ops);
  }

  /** A request is rejected at once if its signal was aborted, granted at once if a permit is free, and queued
      last otherwise. */
  lemma AcquireDisposition(s: State, key: Key, signal: nat)
    requires Inv(s) && WorkConserving(s)
    ensures var (t, w) := (Acquire(s, key, signal), Waiter(|s.requests|, key, signal));
      && t.requests == s.requests + [w]
      && if signal in s.aborted then
           t.rejected == s.rejected + [w] && t.granted == s.granted && t.waiters == s.waiters && t.held == s.held
         else if s.active < s.capacity then
           && t.granted == s.granted + [w] && t.held == s.held + {w.id} && t.active == s.active + 1
           && t.waiters == [] && t.rejected == s.rejected && t.last == Some(key)
         else
           t.waiters == s.waiters + [w] && t.granted == s.granted && t.rejected == s.rejected && t.held == s.held
  {
  }

  lemma ReturnedHasRoom(s: State, id: nat)
    requires Accounts(s) && id in s.held
    ensures Returned(s, id).active == s.active - 1 < s.capacity
  {
    assert |s.held| > 0;
  }

  /** With one permit free, draining grants one request, or none is left. */
  lemma {:induction false} DrainGrantsOne(s: State)
    requires s.active == s.capacity - 1
    ensures var t := Drain(s);
      |s.granted| <= |t.granted| <= |s.granted| + 1 && (|t.granted| == |s.granted| ==> t.waiters == [])
    decreases |s.waiters|
  {
    if s.waiters != [] {
      var t := DrainOne(s);
      if t.active == s.active {
        DrainGrantsOne(t);
      }
    }
  }

  /** Releasing gives one permit back, once, and hands it to the next live request in turn: only aborted requests
      are passed over. */
  lemma ReleaseDisposition(s: State, id: nat)
    requires Inv(s) && WorkConserving(s) && id in s.held
    ensures var t := Release(s, id);
      && id !in Returned(s, id).held && Returned(s, id).active == s.active - 1
      && t == Drain(Returned(s, id)) && Release(Returned(s, id), id) == Returned(s, id)
      && |t.granted| <= |s.granted| + 1
      && (|t.granted| == |s.granted| ==> t.waiters == [])
  {
    ReturnedHasRoom(s, id);
    if s.waiters != [] {
      DrainGrantsOne(Returned(s, id));
    }
  }

  /** A waiter's abort listener rejects it and nobody else, and leaves the rest of the queue in order. */
  lemma ListenerDisposition(s: State, w: Waiter)
    requires Inv(s) && w in s.waiters
    ensures var t := Apply(s, OnAbortOp(w));
      && t.rejected == s.rejected + [w] && w !in t.waiters && t.granted == s.granted && t.held == s.held
      && (exists i :: 0 <= i < |s.waiters| && s.waiters[i] == w && t.waiters == s.waiters[..i] + s.waiters[i + 1..])
  {
    var i :| 0 <= i < |s.waiters| && s.waiters[i] == w;
    WithoutAt(s.waiters, i);
    RemoveAt(s.waiters, i);
  }
}

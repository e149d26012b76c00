/**
  What a run leaves behind can be loaded again: the checks that a snapshot must pass hold of it, if they held
  of the snapshot the run began with.
 */
module JournalLoad {
  import opened Common
  import opened JournalModel
  import opened JournalResume
  import opened JournalReuse

  /** A coverage-gap mark is legal only on an unsuccessful failure placeholder. */
  predicate GapLegal(r: Record) {
    r.Result? && r.coverageGap ==> r.successful == Some(false) && r.value.FailurePlaceholder?
  }

  predicate GapsLegal(records: seq<Record>) {
    forall r :: r in records ==> GapLegal(r)
  }

  /** No two imports name the same call. */
  predicate ImportsDistinct(imports: seq<Imported>) {
    forall i, j :: 0 <= i < j < |imports| ==>
      !(imports[i].key == imports[j].key && imports[i].agent == imports[j].agent)
  }

  /** Each import names a call that was started. */
  predicate ImportsStarted(records: seq<Record>, imports: seq<Imported>) {
    forall m :: m in imports ==> Started(m.key, m.agent) in records
  }

  predicate Loadable(records: seq<Record>, imports: seq<Imported>) {
    GapsLegal(records) && ImportsDistinct(imports) && ImportsStarted(records, imports)
  }

  lemma {:induction false} FilterStaysDistinct(imports: seq<Imported>, keep: Imported -> bool)
    requires ImportsDistinct(imports)
    ensures ImportsDistinct(Filter(imports, keep))
    decreases |imports|
  {
    if imports != [] {
      var n := |imports| - 1;
      FilterStaysDistinct(imports[..n], keep);
      var rest := Filter(imports[..n], keep);
      forall i | 0 <= i < |rest| ensures !(rest[i].key == imports[n].key && rest[i].agent == imports[n].agent) {
        assert rest[i] in imports[..n];
        var j :| 0 <= j < n && imports[j] == rest[i];
      }
    }
  }

  /** Every historical result of the run is a record of the snapshot it began with, so its gap mark is legal. */
  ghost predicate HistoryLegal(run: Run) {
    forall h :: h in run.previous && h.result.Some? ==> GapLegal(h.result.value)
  }

  ghost predicate RunLoadable(run: Run) {
    HistoryLegal(run) && Loadable(run.records, run.importedCalls) && (!run.tracking ==> run.importedCalls == [])
  }

  lemma {:induction false} CallsAreLegal(records: seq<Record>)
    requires GapsLegal(records)
    ensures forall h :: h in Calls(records) && h.result.Some? ==> h.result.value in records
    decreases |records|
  {
    if records != [] {
      var prefix := records[..|records| - 1];
      assert records == prefix + [records[|records| - 1]];
      CallsAreLegal(prefix);
    }
  }

  lemma BeginLoadable(p: Option<Snapshot>, sourceHash: Text, mode: Mode, gaps: bool)
    requires p.Some? ==> Loadable(p.value.records, ImportsOf(p.value))
    ensures RunLoadable(BeginRun(p, sourceHash, mode, gaps))
  {
    if p.Some? {
      var calls, history := Calls(p.value.records), HistoricalCalls(p.value);
      CallsAreLegal(p.value.records);
      forall h | h in history && h.result.Some? ensures h.result.value in p.value.records {
        var i :| 0 <= i < |history| && history[i] == h;
        assert calls[i] in calls;
      }
    }
  }

  lemma AdmitKeepsGaps(run: Run, call: Call)
    requires RunLoadable(run)
    ensures GapsLegal(Admit(run, call).0.records)
  {
    AdmitRecords(run, call);
    var (m, slot) := (Lookup(run, call), NewSlot(run, call));
    assert m.hit.Some? ==> run.previous[m.hit.value] in run.previous;
    forall r | r in Admit(run, call).0.records ensures GapLegal(r) {
      assert r in run.records || r in SlotRecords(slot);
    }
  }

  /** The imports that stay name calls whose start stays. */
  lemma AdmitKeepsStarted(run: Run, call: Call)
    requires RunLoadable(run)
    ensures ImportsStarted(Admit(run, call).0.records, Admit(run, call).0.importedCalls)
  {
    AdmitRecords(run, call);
    var (r, key, m) := (Admit(run, call).0, CallKey(run, call), Lookup(run, call));
    if run.tracking {
      var gone := if m.replaced.Some? then Some(run.previous[m.replaced.value]) else None;
      forall x | x in r.importedCalls ensures Started(x.key, x.agent) in r.records {
        if x != Imported(key, call.agent, call.prompt) {
          assert x in run.importedCalls && OtherImport(x, key, gone);
          assert Started(x.key, x.agent) in KeptRecords(run, key, m.replaced);
        } else {
          assert Started(key, call.agent) in SlotRecords(NewSlot(run, call));
        }
      }
    }
  }

  lemma AdmitKeepsDistinct(run: Run, call: Call)
    requires RunLoadable(run)
    ensures ImportsDistinct(Admit(run, call).0.importedCalls)
  {
    var (key, m) := (CallKey(run, call), Lookup(run, call));
    if run.tracking {
      var gone := if m.replaced.Some? then Some(run.previous[m.replaced.value]) else None;
      var keep := (x: Imported) => OtherImport(x, key, gone);
      FilterStaysDistinct(run.importedCalls, keep);
      var kept := Filter(run.importedCalls, keep);
      forall i | 0 <= i < |kept| ensures kept[i].key != key {
        assert kept[i] in kept;
      }
    }
  }

  lemma OtherOpsKeepLoadable(run: Run, op: Op)
    requires RunLoadable(run) && !op.AdmitOp?
    ensures RunLoadable(Apply(run, op))
  {
    if op.ResultOp? {
      var after := RecordResult(run, op.index, op.key, op.agent, op.value, op.successful, op.gap);
      if after.Some? {
        assert forall r :: r in run.records ==> r in after.value.records;
      }
    }
  }

  lemma StepKeepsLoadable(run: Run, op: Op)
    requires RunLoadable(run)
    ensures RunLoadable(Apply(run, op))
  {
    if op.AdmitOp? {
      AdmitRecords(run, op.call);
      AdmitKeepsGaps(run, op.call);
      AdmitKeepsStarted(run, op.call);
      AdmitKeepsDistinct(run, op.call);
    } else {
      OtherOpsKeepLoadable(run, op);
    }
  }

  lemma {:induction false} RunKeepsLoadable(run: Run, ops: seq<Op>)
    requires RunLoadable(run)
    ensures RunLoadable(ApplyAll(run, ops))
    decreases |ops|
  {
    if ops != [] {
      StepKeepsLoadable(run, ops[0]);
      RunKeepsLoadable(Apply(run, ops[0]), ops[1..]);
    }
  }

  /** From a snapshot that loads, or none, in either mode: wherever the run crashes, what it leaves loads. */
  lemma WhatIsLeftLoads(p: Option<Snapshot>, sourceHash: Text, mode: Mode, gaps: bool, ops: seq<Op>)
    requires p.Some? ==> Loadable(p.value.records, ImportsOf(p.value))
    ensures var left := SnapshotOf(ApplyAll(BeginRun(p, sourceHash, mode, gaps), ops));
      Loadable(left.records, ImportsOf(left))
  {
    BeginLoadable(p, sourceHash, mode, gaps);
    RunKeepsLoadable(BeginRun(p, sourceHash, mode, gaps), ops);
  }

  lemma StepKeepsTracking(run: Run, op: Op)
    ensures Apply(run, op).tracking == run.tracking && Apply(run, op).sourceHash == run.sourceHash
  {
    if op.AdmitOp? {
      AdmitRecords(run, op.call);
    } else {
      OtherOpsSameReplays(run, op);
    }
  }

  lemma {:induction false} RunKeepsTracking(run: Run, ops: seq<Op>)
    ensures ApplyAll(run, ops).tracking == run.tracking && ApplyAll(run, ops).sourceHash == run.sourceHash
    decreases |ops|
  {
    if ops != [] {
      StepKeepsTracking(run, ops[0]);
      RunKeepsTracking(Apply(run, ops[0]), ops[1..]);
    }
  }

  /** Imported calls are listed exactly when the beginning listed them, and the source is the run's own. */
  lemma {:induction false} TrackingIsInherited(p: Option<Snapshot>, sourceHash: Text, mode: Mode, gaps: bool,
      ops: seq<Op>)
    ensures var left := SnapshotOf(ApplyAll(BeginRun(p, sourceHash, mode, gaps), ops));
      (left.importedCalls.Some? <==> p.Some? && p.value.importedCalls.Some?) && left.sourceHash == sourceHash
  {
    RunKeepsTracking(BeginRun(p, sourceHash, mode, gaps), ops);
  }

  lemma {:induction false} NothingBeforeStays(run: Run, ops: seq<Op>)
    requires run.previous == [] && !run.sparse
    ensures ApplyAll(run, ops).previous == [] && !ApplyAll(run, ops).sparse
    decreases |ops|
  {
    if ops != [] {
      if ops[0].AdmitOp? {
        AdmitRecords(run, ops[0].call);
      } else {
        OtherOpsSameReplays(run, ops[0]);
      }
      NothingBeforeStays(Apply(run, ops[0]), ops[1..]);
    }
  }

  /** Without a snapshot to begin with every call runs, and is offered no session. */
  lemma NothingToReplay(sourceHash: Text, mode: Mode, gaps: bool, ops: seq<Op>, call: Call)
    ensures var run := ApplyAll(BeginRun(None, sourceHash, mode, gaps), ops);
      Admit(run, call).1 == Miss(|run.slots|, Link(run.previousKey, call.prompt, call.options), call.agent, None)
  {
    NothingBeforeStays(BeginRun(None, sourceHash, mode, gaps), ops);
  }
}

/**
  What the resume journal reuses: replayed results are sound and used once, none is lost across
  crashes, and the longest-prefix mode is exact.
 */
module JournalReuse {
  import opened Common
  import opened JournalModel
  import opened JournalResume

  // ---------------------------------------------------------------------------------------------
  // Where replayed results come from
  // ---------------------------------------------------------------------------------------------

  /** Slot `i` replays the result of historical call `m`. */
  ghost predicate Replays(run: Run, i: int, m: nat) {
    0 <= i < |run.slots| && run.slots[i].fate.Reused? && run.slots[i].fate.source == m
  }

  /** The same prompt under the same execution options. */
  predicate SameWork(a: Key, b: Key) {
    a.Link? && b.Link? && a.prompt == b.prompt && a.options == b.options
  }

  /** The replay is the result of a call with the same prompt and the same execution options, found
      by its chained key or by its prompt. */
  ghost predicate SoundSource(run: Run, slot: Slot) {
    slot.fate.Reused? ==>
      && slot.fate.source in run.consumed && slot.fate.source < |run.previous|
      && var h := run.previous[slot.fate.source];
      && Reusable(h, run.gaps) && slot.fate.replayed == Replay(h, slot.key, slot.agent)
      && SameWork(h.key, slot.key)
      && (h.key == slot.key || h.importedPrompt == Some(slot.key.prompt))
  }

  ghost predicate AllSound(run: Run) {
    forall slot :: slot in run.slots ==> slot.key.Link? && SoundSource(run, slot)
  }

  /** No historical call gives its result twice. */
  ghost predicate SourcesDistinct(run: Run) {
    forall i, j, m: nat :: Replays(run, i, m) && Replays(run, j, m) ==> i == j
  }

  ghost predicate ReplayedOrEmpty(run: Run, m: nat) {
    m < |run.previous| && (Reusable(run.previous[m], run.gaps) ==> exists i :: Replays(run, i, m))
  }

  /** Every consumed call that has a reusable result is replayed by some slot. */
  ghost predicate ConsumedReplayed(run: Run) {
    forall m: nat :: m in run.consumed ==> ReplayedOrEmpty(run, m)
  }

  ghost predicate SourcesInv(run: Run) {
    AllSound(run) && SourcesDistinct(run) && ConsumedReplayed(run)
  }

  lemma LookupSound(run: Run, call: Call)
    ensures var m := Lookup(run, call).hit; var key := CallKey(run, call);
      m.Some? ==>
        && SameWork(run.previous[m.value].key, key)
        && (run.previous[m.value].key == key || run.previous[m.value].importedPrompt == Some(call.prompt))
  {
  }

  lemma AdmitKeepsSound(run: Run, call: Call)
    requires AllSound(run)
    ensures AllSound(Admit(run, call).0)
  {
    LookupSound(run, call);
    AdmitRecords(run, call);
    var r := Admit(run, call).0;
    forall slot | slot in r.slots ensures slot.key.Link? && SoundSource(r, slot) {
      assert slot in run.slots || slot == NewSlot(run, call);
    }
  }

  lemma AdmitConsumes(run: Run, call: Call)
    ensures var m := Lookup(run, call);
      Admit(run, call).0.consumed == if m.replaced.Some? then run.consumed + {m.replaced.value} else run.consumed
  {
  }

  lemma ReplacedReusableIsHit(run: Run, call: Call)
    ensures var look := Lookup(run, call);
      look.replaced.Some? && Reusable(run.previous[look.replaced.value], run.gaps) ==> look.hit == look.replaced
  {
  }

  lemma AdmitKeepsSources(run: Run, call: Call)
    requires SourcesInv(run)
    ensures SourcesInv(Admit(run, call).0)
  {
    var r, look := Admit(run, call).0, Lookup(run, call);
    AdmitKeepsSound(run, call);
    AdmitRecords(run, call);
    AdmitConsumes(run, call);
    assert forall i, m: nat :: 0 <= i < |run.slots| ==> Replays(r, i, m) == Replays(run, i, m);
    assert forall m: nat :: Replays(r, |run.slots|, m) <==> look.hit == Some(m);
    forall i, m: nat | Replays(run, i, m) ensures m in run.consumed {
      assert run.slots[i] in run.slots;
    }
    forall m: nat | m in r.consumed ensures ReplayedOrEmpty(r, m) {
      if m in run.consumed {
        assert ReplayedOrEmpty(run, m);
        if Reusable(run.previous[m], run.gaps) {
          var i :| Replays(run, i, m);
          assert Replays(r, i, m);
        }
      } else {
        ReplacedReusableIsHit(run, call);
        assert Reusable(run.previous[m], run.gaps) ==> Replays(r, |run.slots|, m);
      }
    }
  }

  /** Nothing but open slots being filled. */
  ghost predicate SameReplays(run: Run, after: Run) {
    && after.previous == run.previous && after.consumed == run.consumed && after.gaps == run.gaps
    && after.sparse == run.sparse && after.tracking == run.tracking && after.canReusePrefix == run.canReusePrefix
    && |after.slots| == |run.slots|
    && forall i :: 0 <= i < |run.slots| ==>
         && after.slots[i].key == run.slots[i].key && after.slots[i].agent == run.slots[i].agent
         && (after.slots[i] == run.slots[i] || (run.slots[i].fate.Open? && after.slots[i].fate.Recorded?))
  }

  lemma OtherOpsSameReplays(run: Run, op: Op)
    requires !op.AdmitOp?
    ensures SameReplays(run, Apply(run, op))
  {
    match op
    case ResultOp(index, key, agent, value, successful, gap) =>
      RecordResultFills(run, index, key, agent, value, successful, gap);
    case SessionOp(_, _, _, _) =>
    case DiscardOp(_, _, _) =>
  }

  lemma SameReplaysKeepSources(run: Run, after: Run)
    requires SourcesInv(run) && SameReplays(run, after)
    ensures SourcesInv(after)
  {
    assert forall i, m: nat :: Replays(after, i, m) == Replays(run, i, m);
    forall slot | slot in after.slots ensures slot.key.Link? && SoundSource(after, slot) {
      var i :| 0 <= i < |after.slots| && after.slots[i] == slot;
      assert run.slots[i] in run.slots;
    }
    forall m: nat | m in after.consumed ensures ReplayedOrEmpty(after, m) {
      assert ReplayedOrEmpty(run, m);
      if Reusable(run.previous[m], run.gaps) {
        var i :| Replays(run, i, m);
        assert Replays(after, i, m);
      }
    }
  }

  lemma StepKeepsSources(run: Run, op: Op)
    requires SourcesInv(run)
    ensures SourcesInv(Apply(run, op))
  {
    if op.AdmitOp? {
      AdmitKeepsSources(run, op.call);
    } else {
      OtherOpsSameReplays(run, op);
      SameReplaysKeepSources(run, Apply(run, op));
    }
  }

  lemma {:induction false} RunKeepsSources(run: Run, ops: seq<Op>)
    requires SourcesInv(run)
    ensures SourcesInv(ApplyAll(run, ops))
    decreases |ops|
  {
    if ops != [] {
      StepKeepsSources(run, ops[0]);
      RunKeepsSources(Apply(run, ops[0]), ops[1..]);
    }
  }

  predicate SameSource(a: Fate, b: Fate) {
    a.Reused? && b.Reused? && a.source == b.source
  }

  /** From any snapshot and in either mode: every replay is the result of a historical call with the
      same prompt and execution options, and no historical call is replayed twice. */
  lemma ReuseIsSound(p: Option<Snapshot>, sourceHash: Text, mode: Mode, gaps: bool, ops: seq<Op>, i: nat, j: nat)
    ensures var run := ApplyAll(BeginRun(p, sourceHash, mode, gaps), ops);
      && (i < |run.slots| ==> SoundSource(run, run.slots[i]))
      && (i < |run.slots| && j < |run.slots| && SameSource(run.slots[i].fate, run.slots[j].fate) ==> i == j)
  {
    var begun := BeginRun(p, sourceHash, mode, gaps);
    RunKeepsSources(begun, ops);
    var run := ApplyAll(begun, ops);
    if i < |run.slots| {
      assert run.slots[i] in run.slots;
      if j < |run.slots| && run.slots[i].fate.Reused? && run.slots[j].fate.Reused? {
        assert Replays(run, i, run.slots[i].fate.source);
        assert Replays(run, j, run.slots[j].fate.source);
      }
    }
  }

  lemma {:induction false} SameDirect(run: Run, other: Run, key: Key, from: nat)
    requires other.previous == run.previous && other.consumed == run.consumed && other.gaps == run.gaps
    requires from <= |run.previous|
    ensures FindDirect(other, key, from) == FindDirect(run, key, from)
    decreases |run.previous| - from
  {
    if from < |run.previous| && !DirectCandidate(run, key, from) {
      SameDirect(run, other, key, from + 1);
    }
  }

  // ---------------------------------------------------------------------------------------------
  // Results survive crashes
  // ---------------------------------------------------------------------------------------------

  /** These records hold a reusable result `v` for this key. */
  ghost predicate HeldAt(records: seq<Record>, key: Key, gaps: bool, v: Value) {
    exists r :: r in Of(records, key) && ReusableRecord(r, gaps) && r.value == v
  }

  /** They hold it for some call with the same prompt and the same execution options. */
  ghost predicate HeldFor(records: seq<Record>, work: Key, gaps: bool, v: Value) {
    exists key: Key :: SameWork(key, work) && HeldAt(records, key, gaps, v)
  }

  /** A visited key's own historical calls, if reusable, are consumed. */
  ghost predicate VisitedConsumed(run: Run) {
    forall i, m: nat ::
      (0 <= i < |run.slots| && m < |run.previous| && run.previous[m].key == run.slots[i].key &&
        Reusable(run.previous[m], run.gaps))
      ==> m in run.consumed
  }

  lemma AdmitConsumesItsKey(run: Run, call: Call, m: nat)
    requires run.sparse && FirstsMarked(run.previous) && m < |run.previous|
    requires run.previous[m].key == CallKey(run, call) && Reusable(run.previous[m], run.gaps)
    ensures m in Admit(run, call).0.consumed
  {
    AdmitConsumes(run, call);
    var direct := FindDirect(run, CallKey(run, call), 0);
    assert m !in run.consumed ==> DirectCandidate(run, CallKey(run, call), m);
  }

  lemma StepKeepsVisitedConsumed(run: Run, op: Op)
    requires run.sparse && FirstsMarked(run.previous) && VisitedConsumed(run)
    ensures var after := Apply(run, op);
      VisitedConsumed(after) && after.sparse && after.previous == run.previous && after.gaps == run.gaps
  {
    var after := Apply(run, op);
    if op.AdmitOp? {
      AdmitRecords(run, op.call);
      forall i, m: nat | 0 <= i < |after.slots| && m < |after.previous| && after.previous[m].key == after.slots[i].key
        && Reusable(after.previous[m], after.gaps) ensures m in after.consumed
      {
        if i == |run.slots| {
          AdmitConsumesItsKey(run, op.call, m);
        } else {
          assert after.slots[i] == run.slots[i];
        }
      }
    } else {
      OtherOpsSameReplays(run, op);
    }
  }

  lemma {:induction false} RunKeepsVisitedConsumed(run: Run, ops: seq<Op>)
    requires run.sparse && FirstsMarked(run.previous) && VisitedConsumed(run)
    ensures var after := ApplyAll(run, ops);
      VisitedConsumed(after) && after.sparse && after.previous == run.previous && after.gaps == run.gaps
    decreases |ops|
  {
    if ops != [] {
      StepKeepsVisitedConsumed(run, ops[0]);
      RunKeepsVisitedConsumed(Apply(run, ops[0]), ops[1..]);
    }
  }

  lemma ReusableWithGaps(r: Record, fewer: bool, gaps: bool)
    requires ReusableRecord(r, fewer) && (fewer ==> gaps)
    ensures ReusableRecord(r, gaps)
  {
  }

  /** The replay record is as reusable as what it replays. */
  lemma SlotHolds(run: Run, i: nat, m: nat, gaps: bool)
    requires VisitedExact(run) && AllSound(run) && Replays(run, i, m)
    requires m < |run.previous| && Reusable(run.previous[m], gaps)
    ensures HeldAt(run.records, run.slots[i].key, gaps, run.previous[m].result.value.value)
  {
    var slot := run.slots[i];
    assert slot in run.slots;
    assert Of(run.records, slot.key) == SlotRecords(slot);
    assert SlotRecords(slot)[1] == slot.fate.replayed;
  }

  lemma UntouchedStaysHeld(run: Run, base: seq<Record>, m: nat)
    requires UnvisitedKept(run, base) && ConsumedKnown(run) && FirstsMarked(run.previous) && VisitedConsumed(run)
    requires m < |run.previous| && m !in run.consumed && Reusable(run.previous[m], run.gaps)
    ensures Of(run.records, run.previous[m].key) == Of(base, run.previous[m].key)
  {
    var key := run.previous[m].key;
    assert !Visited(run.slots, key);
    assert !Donated(run, key);
  }

  /** A result in the inherited records is some historical call's. */
  lemma ResultIsInHistory(run: Run, base: seq<Record>, key: Key, r: Record) returns (m: nat)
    requires ResultsFound(run.previous, base) && r in Of(base, key) && r.Result?
    ensures m < |run.previous| && run.previous[m].key == key && run.previous[m].result == Some(r)
  {
    assert r in base && HasResult(run.previous, r);
    m :| 0 <= m < |run.previous| && run.previous[m].key == r.key && run.previous[m].result == Some(r);
  }

  /** A reusable inherited result is still held when the run crashes. */
  lemma HeldResultStaysHeld(run: Run, base: seq<Record>, key: Key, gaps: bool, v: Value)
    requires RunInv(run, base) && run.sparse && SourcesInv(run) && VisitedConsumed(run)
    requires HeldAt(base, key, gaps, v) && key.Link? && (gaps ==> run.gaps)
    ensures HeldFor(run.records, key, gaps, v)
  {
    var r :| r in Of(base, key) && ReusableRecord(r, gaps) && r.value == v;
    var m := ResultIsInHistory(run, base, key, r);
    ReusableWithGaps(r, gaps, run.gaps);
    if m in run.consumed {
      assert ReplayedOrEmpty(run, m);
      var i :| Replays(run, i, m);
      assert run.slots[i] in run.slots;
      SlotHolds(run, i, m, gaps);
    } else {
      UntouchedStaysHeld(run, base, m);
      assert HeldAt(run.records, key, gaps, v);
    }
  }

  /** One generation: begin from what the last one left, mutate, crash. Nothing is written before the
      first mutation. Automatic recovery reuses coverage gaps, a resume by a user does not. */
  datatype Generation = Generation(ops: seq<Op>, gaps: bool)

  function Left(p: Snapshot, g: Generation): Snapshot {
    if g.ops == [] then p else SnapshotOf(ApplyAll(BeginRun(Some(p), p.sourceHash, ExactSourceSparse, g.gaps), g.ops))
  }

  function Lineage(p: Snapshot, generations: seq<Generation>): Snapshot
    decreases |generations|
  {
    if generations == [] then p else Lineage(Left(p, generations[0]), generations[1..])
  }

  /** `gaps` when the result may be a coverage gap; then the generation must reuse gaps. */
  lemma GenerationKeepsResults(p: Snapshot, g: Generation, gaps: bool, work: Key, v: Value)
    requires Shaped(p.records) && HeldFor(p.records, work, gaps, v) && (gaps ==> g.gaps)
    ensures Shaped(Left(p, g).records) && HeldFor(Left(p, g).records, work, gaps, v)
  {
    if g.ops != [] {
      var begun := BeginRun(Some(p), p.sourceHash, ExactSourceSparse, g.gaps);
      BeginKeepsInv(p, p.sourceHash, ExactSourceSparse, g.gaps);
      RunKeepsInv(begun, g.ops, p.records);
      RunKeepsSources(begun, g.ops);
      RunKeepsVisitedConsumed(begun, g.ops);
      var run := ApplyAll(begun, g.ops);
      RunStaysShaped(run, p.records);
      var key: Key :| SameWork(key, work) && HeldAt(p.records, key, gaps, v);
      HeldResultStaysHeld(run, p.records, key, gaps, v);
      var held: Key :| SameWork(held, key) && HeldAt(run.records, held, gaps, v);
      assert SameWork(held, work);
    }
  }

  /** Through any number of crashed generations, recovered or resumed in any order, a reusable result is
      never lost: some call with its prompt and execution options still holds it. */
  lemma {:induction false} LineageKeepsResults(p: Snapshot, generations: seq<Generation>, gaps: bool, work: Key,
      v: Value)
    requires Shaped(p.records) && HeldFor(p.records, work, gaps, v)
    requires gaps ==> forall g :: g in generations ==> g.gaps
    ensures Shaped(Lineage(p, generations).records) && HeldFor(Lineage(p, generations).records, work, gaps, v)
    decreases |generations|
  {
    if generations != [] {
      GenerationKeepsResults(p, generations[0], gaps, work, v);
      LineageKeepsResults(Left(p, generations[0]), generations[1..], gaps, work, v);
    }
  }

  // ---------------------------------------------------------------------------------------------
  // Exactly which calls are replayed
  // ---------------------------------------------------------------------------------------------

  ghost predicate ReusableAt(records: seq<Record>, key: Key, gaps: bool) {
    exists r :: r in Of(records, key) && ReusableRecord(r, gaps)
  }

  lemma DirectIff(run: Run, base: seq<Record>, key: Key)
    requires FirstsMarked(run.previous) && ResultsHeld(run.previous, base) && ResultsFound(run.previous, base) &&
      ConsumedKnown(run)
    ensures FindDirect(run, key, 0) < |run.previous| <==> ReusableAt(base, key, run.gaps) && !Donated(run, key)
  {
    var direct := FindDirect(run, key, 0);
    if direct < |run.previous| {
      assert run.previous[direct].result.value in Of(base, key);
    }
    if ReusableAt(base, key, run.gaps) && !Donated(run, key) {
      var r :| r in Of(base, key) && ReusableRecord(r, run.gaps);
      var m := ResultIsInHistory(run, base, key, r);
      assert m !in run.consumed;
      assert DirectCandidate(run, key, m);
    }
  }

  /** In a sparse run a call is replayed by its own key exactly when its inherited result is reusable
      and no earlier call took it. */
  lemma DirectHitIff(run: Run, base: seq<Record>, call: Call)
    requires RunInv(run, base) && run.sparse
    ensures var key := CallKey(run, call);
      FindDirect(run, key, 0) < |run.previous| <==> ReusableAt(base, key, run.gaps) && !Donated(run, key)
  {
    DirectIff(run, base, CallKey(run, call));
  }

  /** Without imported calls, only a visited key's call is ever consumed. */
  ghost predicate NoDonors(run: Run) {
    forall m: nat :: m in run.consumed && m < |run.previous| ==> Visited(run.slots, run.previous[m].key)
  }

  /** Each call so far was replayed exactly when its key had a reusable inherited result. */
  ghost predicate HitsExact(run: Run, base: seq<Record>) {
    forall i :: 0 <= i < |run.slots| ==> (run.slots[i].fate.Reused? <==> ReusableAt(base, run.slots[i].key, run.gaps))
  }

  lemma AdmitKeepsNoDonors(run: Run, call: Call)
    requires NoDonors(run) && !(run.sparse && run.tracking)
    ensures NoDonors(Admit(run, call).0)
  {
    var r := Admit(run, call).0;
    AdmitRecords(run, call);
    AdmitConsumes(run, call);
    forall m: nat | m in r.consumed && m < |r.previous| ensures Visited(r.slots, r.previous[m].key) {
      VisitedAfter(run.slots, NewSlot(run, call), r.previous[m].key);
    }
  }

  lemma AdmitKeepsHitsExact(run: Run, base: seq<Record>, call: Call)
    requires RunInv(run, base) && run.sparse && !run.tracking && NoDonors(run) && HitsExact(run, base)
    ensures NoDonors(Admit(run, call).0) && HitsExact(Admit(run, call).0, base)
  {
    var r := Admit(run, call).0;
    AdmitRecords(run, call);
    AdmitKeepsNoDonors(run, call);
    NewKeyUnvisited(run.slots, call.prompt, call.options);
    DirectHitIff(run, base, call);
    assert !Donated(run, CallKey(run, call));
    forall i | 0 <= i < |r.slots| ensures r.slots[i].fate.Reused? <==> ReusableAt(base, r.slots[i].key, r.gaps) {
      if i < |run.slots| {
        assert r.slots[i] == run.slots[i];
      }
    }
  }

  lemma SameReplaysKeepNoDonors(run: Run, after: Run)
    requires NoDonors(run) && SameReplays(run, after)
    ensures NoDonors(after)
  {
    forall m: nat | m in after.consumed && m < |after.previous| ensures Visited(after.slots, after.previous[m].key) {
      var i :| 0 <= i < |run.slots| && run.slots[i].key == run.previous[m].key;
      assert after.slots[i].key == after.previous[m].key;
    }
  }

  lemma StepKeepsHitsExact(run: Run, base: seq<Record>, op: Op)
    requires RunInv(run, base) && run.sparse && !run.tracking && NoDonors(run) && HitsExact(run, base)
    ensures var r := Apply(run, op); r.sparse && !r.tracking && NoDonors(r) && HitsExact(r, base) && r.gaps == run.gaps
  {
    if op.AdmitOp? {
      AdmitKeepsHitsExact(run, base, op.call);
    } else {
      OtherOpsSameReplays(run, op);
      SameReplaysKeepNoDonors(run, Apply(run, op));
      var r := Apply(run, op);
      assert forall i :: 0 <= i < |run.slots| ==>
        r.slots[i].key == run.slots[i].key && r.slots[i].fate.Reused? == run.slots[i].fate.Reused?;
    }
  }

  lemma {:induction false} RunKeepsHitsExact(run: Run, base: seq<Record>, ops: seq<Op>)
    requires RunInv(run, base) && run.sparse && !run.tracking && NoDonors(run) && HitsExact(run, base)
    ensures HitsExact(ApplyAll(run, ops), base) && ApplyAll(run, ops).gaps == run.gaps
    decreases |ops|
  {
    if ops != [] {
      StepKeepsHitsExact(run, base, ops[0]);
      StepKeepsInv(run, ops[0], base);
      RunKeepsHitsExact(Apply(run, ops[0]), base, ops[1..]);
    }
  }

  /** Resuming a journal without imported calls replays a call if and only if the crashed run left a
      reusable result under its key. */
  lemma ResumeReplaysExactly(p: Snapshot, gaps: bool, ops: seq<Op>, i: nat)
    requires Shaped(p.records) && p.importedCalls.None?
    ensures var run := ApplyAll(BeginRun(Some(p), p.sourceHash, ExactSourceSparse, gaps), ops);
      i < |run.slots| ==> (run.slots[i].fate.Reused? <==> ReusableAt(p.records, run.slots[i].key, gaps))
  {
    BeginKeepsInv(p, p.sourceHash, ExactSourceSparse, gaps);
    RunKeepsHitsExact(BeginRun(Some(p), p.sourceHash, ExactSourceSparse, gaps), p.records, ops);
  }

  // ---------------------------------------------------------------------------------------------
  // Longest prefix
  // ---------------------------------------------------------------------------------------------

  ghost predicate HasReusable(calls: seq<Historical>, key: Key, gaps: bool) {
    exists m: nat :: m < |calls| && calls[m].key == key && Reusable(calls[m], gaps)
  }

  ghost predicate AllReused(slots: seq<Slot>) {
    forall i :: 0 <= i < |slots| ==> slots[i].fate.Reused?
  }

  /** Every call up to and including `i` matches reusable history. */
  ghost predicate MatchesUpTo(calls: seq<Historical>, gaps: bool, slots: seq<Slot>, i: int)
  {
    forall j :: 0 <= j <= i && j < |slots| ==> HasReusable(calls, slots[j].key, gaps)
  }

  ghost predicate ReusedIffMatching(calls: seq<Historical>, gaps: bool, slots: seq<Slot>) {
    forall i :: 0 <= i < |slots| ==> (slots[i].fate.Reused? <==> MatchesUpTo(calls, gaps, slots, i))
  }

  ghost predicate PrefixExact(run: Run) {
    && !run.sparse && NoDonors(run) && Chained(run.slots) && run.previousKey == LastKey(run.slots)
    && (run.canReusePrefix <==> AllReused(run.slots))
    && ReusedIffMatching(run.previous, run.gaps, run.slots)
  }

  lemma AdmitHitsIffReusable(run: Run, call: Call)
    requires !run.sparse && NoDonors(run) && Chained(run.slots) && run.previousKey == LastKey(run.slots)
    ensures NewSlot(run, call).fate.Reused? <==>
      run.canReusePrefix &&
      HasReusable(run.previous, CallKey(run, call), run.gaps)
  {
    var key := CallKey(run, call);
    NewKeyUnvisited(run.slots, call.prompt, call.options);
    if HasReusable(run.previous, key, run.gaps) {
      var m: nat :| m < |run.previous| && run.previous[m].key == key && Reusable(run.previous[m], run.gaps);
      assert m !in run.consumed;
      assert DirectCandidate(run, key, m);
    }
  }

  lemma MatchesPrefix(calls: seq<Historical>, gaps: bool, slots: seq<Slot>, slot: Slot, i: int)
    requires i < |slots|
    ensures MatchesUpTo(calls, gaps, slots + [slot], i) <==> MatchesUpTo(calls, gaps, slots, i)
  {
    assert forall j :: 0 <= j < |slots| ==> (slots + [slot])[j] == slots[j];
  }

  lemma AllReusedIffAllMatch(calls: seq<Historical>, gaps: bool, slots: seq<Slot>)
    requires ReusedIffMatching(calls, gaps, slots)
    ensures AllReused(slots) <==> MatchesUpTo(calls, gaps, slots, |slots| - 1)
  {
    if MatchesUpTo(calls, gaps, slots, |slots| - 1) {
      forall i | 0 <= i < |slots| ensures slots[i].fate.Reused? {
        assert MatchesUpTo(calls, gaps, slots, i);
      }
    } else {
      assert slots != [];
      assert !slots[|slots| - 1].fate.Reused?;
    }
  }

  /** Reuse stays exact when the new slot is reused iff all before it were and it matches. */
  lemma SlotKeepsMatching(calls: seq<Historical>, gaps: bool, slots: seq<Slot>, slot: Slot)
    requires ReusedIffMatching(calls, gaps, slots)
    requires slot.fate.Reused? <==> AllReused(slots) && HasReusable(calls, slot.key, gaps)
    ensures ReusedIffMatching(calls, gaps, slots + [slot])
    ensures AllReused(slots + [slot]) <==> slot.fate.Reused?
  {
    var more := slots + [slot];
    assert more[|slots|] == slot && forall j :: 0 <= j < |slots| ==> more[j] == slots[j];
    forall i | 0 <= i < |more| ensures more[i].fate.Reused? <==> MatchesUpTo(calls, gaps, more, i) {
      if i < |slots| {
        MatchesPrefix(calls, gaps, slots, slot, i);
      } else {
        MatchesPrefix(calls, gaps, slots, slot, |slots| - 1);
        AllReusedIffAllMatch(calls, gaps, slots);
        assert MatchesUpTo(calls, gaps, more, i) <==>
          MatchesUpTo(calls, gaps, more, |slots| - 1) &&
          HasReusable(calls, more[i].key, gaps);
      }
    }
  }

  lemma AdmitKeepsPrefixExact(run: Run, call: Call)
    requires PrefixExact(run)
    ensures PrefixExact(Admit(run, call).0)
  {
    var slot := NewSlot(run, call);
    AdmitRecords(run, call);
    AdmitKeepsNoDonors(run, call);
    AdmitHitsIffReusable(run, call);
    ChainGrows(run.slots, slot);
    SlotKeepsMatching(run.previous, run.gaps, run.slots, slot);
  }

  lemma SameFatesMatch(calls: seq<Historical>, gaps: bool, slots: seq<Slot>, after: seq<Slot>)
    requires |after| == |slots| && ReusedIffMatching(calls, gaps, slots)
    requires forall i :: 0 <= i < |slots| ==>
      after[i].key == slots[i].key &&
      after[i].fate.Reused? == slots[i].fate.Reused?
    ensures ReusedIffMatching(calls, gaps, after) && (AllReused(after) <==> AllReused(slots))
  {
    forall i | 0 <= i < |after| ensures after[i].fate.Reused? <==> MatchesUpTo(calls, gaps, after, i) {
      assert MatchesUpTo(calls, gaps, slots, i) <==> MatchesUpTo(calls, gaps, after, i);
    }
  }

  lemma OtherOpsKeepChain(run: Run, op: Op)
    requires Chained(run.slots) && run.previousKey == LastKey(run.slots) && !op.AdmitOp?
    ensures Chained(Apply(run, op).slots) && Apply(run, op).previousKey == LastKey(Apply(run, op).slots)
  {
    if op.ResultOp? && Unfinished(run, op.index, op.key, op.agent) {
      var r := Apply(run, op);
      if r != run {
        SameKeysChained(run.slots, op.index, r.slots[op.index]);
      }
    }
  }

  lemma OtherOpsKeepPrefixExact(run: Run, op: Op)
    requires PrefixExact(run) && !op.AdmitOp?
    ensures PrefixExact(Apply(run, op))
  {
    var r := Apply(run, op);
    OtherOpsSameReplays(run, op);
    SameReplaysKeepNoDonors(run, r);
    SameFatesMatch(run.previous, run.gaps, run.slots, r.slots);
    OtherOpsKeepChain(run, op);
  }

  lemma {:induction false} RunKeepsPrefixExact(run: Run, ops: seq<Op>)
    requires PrefixExact(run)
    ensures PrefixExact(ApplyAll(run, ops))
    decreases |ops|
  {
    if ops != [] {
      if ops[0].AdmitOp? {
        AdmitKeepsPrefixExact(run, ops[0].call);
      } else {
        OtherOpsKeepPrefixExact(run, ops[0]);
      }
      RunKeepsPrefixExact(Apply(run, ops[0]), ops[1..]);
    }
  }

  /** Longest-prefix reuse, from any snapshot: call `i` is replayed if and only if calls 0 to `i` all
      have reusable history under their chained keys; nothing after the first miss is. */
  lemma LongestPrefixIsExact(p: Snapshot, sourceHash: Text, mode: Mode, gaps: bool, ops: seq<Op>, i: nat)
    requires mode.LongestPrefix? || p.sourceHash != sourceHash
    ensures var run := ApplyAll(BeginRun(Some(p), sourceHash, mode, gaps), ops);
      i < |run.slots| ==> (run.slots[i].fate.Reused? <==> MatchesUpTo(run.previous, run.gaps, run.slots, i))
  {
    RunKeepsPrefixExact(BeginRun(Some(p), sourceHash, mode, gaps), ops);
  }

  // ---------------------------------------------------------------------------------------------
  // A coverage gap never survives beside a resumable session
  // ---------------------------------------------------------------------------------------------

  ghost predicate GapsSessionless(records: seq<Record>, sessions: seq<Session>) {
    forall r, s :: r in records && s in sessions && r.Result? && r.coverageGap ==>
      !(r.key == s.key && r.agent == s.agent)
  }

  /** Outside sparse mode sessions belong to calls of this run. */
  ghost predicate SessionsVisited(run: Run) {
    !run.sparse ==> forall s :: s in run.sessions ==> Visited(run.slots, s.key)
  }

  lemma AdmitKeepsGapsSessionless(run: Run, base: seq<Record>, call: Call)
    requires RunInv(run, base) && GapsSessionless(run.records, run.sessions) && SessionsVisited(run)
    ensures var r := Admit(run, call).0; GapsSessionless(r.records, r.sessions) && SessionsVisited(r)
  {
    var r, slot := Admit(run, call).0, NewSlot(run, call);
    AdmitRecords(run, call);
    NewKeyUnvisited(run.slots, call.prompt, call.options);
    var kept := KeptRecords(run, slot.key, Lookup(run, call).replaced);
    assert forall x :: x in kept ==> x in run.records;
    forall s | s in r.sessions ensures s in run.sessions && s.key != slot.key {
    }
    forall s | !run.sparse && s in r.sessions ensures Visited(r.slots, s.key) {
      VisitedAfter(run.slots, slot, s.key);
    }
  }

  lemma SessionOpKeepsGapsSessionless(run: Run, base: seq<Record>, index: nat, key: Key, agent: Agent, thread: Text)
    requires RunInv(run, base) && GapsSessionless(run.records, run.sessions) && SessionsVisited(run)
    ensures var r := RecordSession(run, index, key, agent, thread);
      r.Some? ==> GapsSessionless(r.value.records, r.value.sessions) && SessionsVisited(r.value)
  {
    var r := RecordSession(run, index, key, agent, thread);
    if r.Some? {
      assert Of(run.records, key) == SlotRecords(run.slots[index]);
      forall x | x in run.records && x.key == key ensures x.Started? {
        OfMember(run.records, x);
      }
      assert Visited(run.slots, key);
      assert forall s :: s in r.value.sessions ==> s in run.sessions || s == Session(key, agent, thread);
    }
  }

  lemma ResultOpKeepsGapsSessionless(run: Run, index: nat, key: Key, agent: Agent, value: Value,
      successful: Option<bool>, gap: bool)
    requires GapsSessionless(run.records, run.sessions) && SessionsVisited(run)
    ensures var r := RecordResult(run, index, key, agent, value, successful, gap);
      r.Some? ==>
        GapsSessionless(r.value.records, r.value.sessions) &&
        (forall s :: s in r.value.sessions ==> s in run.sessions)
  {
  }

  lemma StepKeepsGapsSessionless(run: Run, base: seq<Record>, op: Op)
    requires RunInv(run, base) && GapsSessionless(run.records, run.sessions) && SessionsVisited(run)
    ensures var r := Apply(run, op); GapsSessionless(r.records, r.sessions) && SessionsVisited(r)
  {
    match op
    case AdmitOp(call) => AdmitKeepsGapsSessionless(run, base, call);
    case SessionOp(index, key, agent, thread) => SessionOpKeepsGapsSessionless(run, base, index, key, agent, thread);
    case ResultOp(index, key, agent, value, successful, gap) =>
      ResultOpKeepsGapsSessionless(run, index, key, agent, value, successful, gap);
      var r := RecordResult(run, index, key, agent, value, successful, gap);
      if r.Some? {
        SameKeysChained(run.slots, index, r.value.slots[index]);
      }
    case DiscardOp(_, _, _) =>
  }

  lemma {:induction false} RunKeepsGapsSessionless(run: Run, base: seq<Record>, ops: seq<Op>)
    requires RunInv(run, base) && GapsSessionless(run.records, run.sessions) && SessionsVisited(run)
    ensures var r := ApplyAll(run, ops); GapsSessionless(r.records, r.sessions)
    decreases |ops|
  {
    if ops != [] {
      StepKeepsGapsSessionless(run, base, ops[0]);
      StepKeepsInv(run, ops[0], base);
      RunKeepsGapsSessionless(Apply(run, ops[0]), base, ops[1..]);
    }
  }

  /** Whatever a run does and wherever it crashes, no coverage gap it leaves has a provider session. */
  lemma CoverageGapsHaveNoSession(p: Snapshot, sourceHash: Text, mode: Mode, gaps: bool, ops: seq<Op>)
    requires Shaped(p.records) && GapsSessionless(p.records, p.sessions)
    ensures var left := SnapshotOf(ApplyAll(BeginRun(Some(p), sourceHash, mode, gaps), ops));
      Shaped(left.records) && GapsSessionless(left.records, left.sessions)
  {
    var begun := BeginRun(Some(p), sourceHash, mode, gaps);
    var base := BaseOf(p, sourceHash, mode);
    BeginKeepsInv(p, sourceHash, mode, gaps);
    RunKeepsGapsSessionless(begun, base, ops);
    RunKeepsInv(begun, ops, base);
    RunStaysShaped(ApplyAll(begun, ops), base);
  }
}

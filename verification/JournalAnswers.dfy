/**
  What admission answers. A hit hands back the stored result of the historical call it consumes and a miss
  offers the first session of its own key; and what one generation recorded for a call, the next generation
  of the same source answers with, whatever crash lies between.
 */
module JournalAnswers {
  import opened Common
  import opened JournalModel
  import opened JournalResume
  import opened JournalReuse
  import opened JournalReplay

  // ---------------------------------------------------------------------------------------------
  // One admission
  // ---------------------------------------------------------------------------------------------

  /** Historical call `m` stores this result. */
  predicate Stores(run: Run, m: nat, value: Value, gap: bool) {
    && m < |run.previous| && run.previous[m].result.Some? && run.previous[m].result.value.Result?
    && run.previous[m].result.value.value == value && run.previous[m].result.value.coverageGap == gap
  }

  /** The first historical call of the key with a provider session, among those this run may resume. */
  predicate Resumable(run: Run, key: Key, m: nat) {
    && m < |run.previous| && (run.canReusePrefix || run.sparse)
    && run.previous[m].key == key && run.previous[m].session.Some?
    && forall j :: 0 <= j < m ==> !(run.previous[j].key == key && run.previous[j].session.Some?)
  }

  /** The decision names the new slot; it is a hit exactly when that slot replays historical call `m`, and
      then hands over the stored result of `m` and its agent. */
  lemma AnswerIsStored(run: Run, call: Call)
    ensures var (after, d) := Admit(run, call);
      && |after.slots| == |run.slots| + 1 && after.slots[..|run.slots|] == run.slots
      && var slot := after.slots[|run.slots|];
      && slot.key == Link(run.previousKey, call.prompt, call.options) && slot.agent == call.agent
      && d.callIndex == |run.slots| && d.key == slot.key && d.agent == slot.agent
      && (slot.fate.Reused? || slot.fate.Open?) && (d.Hit? <==> slot.fate.Reused?)
      && (d.Hit? ==>
            && Stores(run, slot.fate.source, d.value, d.coverageGap)
            && d.sourceAgent == run.previous[slot.fate.source].agent
            && slot.fate.replayed == Result(slot.key, slot.agent, d.value, Some(!d.coverageGap), d.coverageGap))
  {
  }

  /** The call has a result that this run may replay: a coverage gap only when gaps are reused, else a success;
      where success was not noted, anything but null. */
  predicate Replayable(h: Historical, gaps: bool) {
    && h.result.Some? && h.result.value.Result?
    && var r := h.result.value;
    if r.coverageGap then gaps else if r.successful.Some? then r.successful.value else r.value != NullValue
  }

  /** Historical call `m` is the first unconsumed one of this key that has such a result. */
  predicate Available(run: Run, key: Key, m: nat) {
    && m < |run.previous| && run.previous[m].key == key && m !in run.consumed && Replayable(run.previous[m], run.gaps)
    && forall j :: 0 <= j < m ==>
      !(run.previous[j].key == key && j !in run.consumed && Replayable(run.previous[j], run.gaps))
  }

  /** A run that may reuse replays the first available call of the key; only a sparse run that tracks imported
      prompts may replay another one, and only one that is unconsumed and replayable, for the same prompt and
      options. */
  lemma AvailableIsReplayed(run: Run, call: Call)
    ensures var (after, d) := Admit(run, call);
      var key := Link(run.previousKey, call.prompt, call.options);
      && (run.canReusePrefix || run.sparse ==> forall m: nat :: Available(run, key, m) ==>
            d.Hit? && after.slots[|run.slots|].fate.source == m)
      && (d.Hit? ==>
            var m := after.slots[|run.slots|].fate.source;
            && m < |run.previous| && m !in run.consumed && m in after.consumed
            && Replayable(run.previous[m], run.gaps) && SameWork(run.previous[m].key, key)
            && (Available(run, key, m) || (run.sparse && run.tracking)))
      && (d.Hit? ==> run.canReusePrefix || run.sparse)
  {
    var key := CallKey(run, call);
    LookupSound(run, call);
    AdmitConsumes(run, call);
    var direct := FindDirect(run, key, 0);
    assert forall j :: 0 <= j < |run.previous| ==>
      (DirectCandidate(run, key, j) <==>
        run.previous[j].key == key && j !in run.consumed && Replayable(run.previous[j], run.gaps));
    forall m: nat | Available(run, key, m) ensures direct == m {
      assert DirectCandidate(run, key, m);
    }
    assert direct < |run.previous| ==> Available(run, key, direct);
  }

  lemma {:induction false} FirstSessionIs(calls: seq<Historical>, key: Key, from: nat)
    requires from <= |calls|
    ensures forall j :: from <= j < FindSession(calls, key, from) ==> !(calls[j].key == key && calls[j].session.Some?)
    decreases |calls| - from
  {
    if from < |calls| && !(calls[from].key == key && calls[from].session.Some?) {
      FirstSessionIs(calls, key, from + 1);
    }
  }

  /** A miss offers the session of the first historical call of its key that has one, if the run may reuse. */
  lemma MissOffersFirstSession(run: Run, call: Call)
    requires Admit(run, call).1.Miss?
    ensures var d := Admit(run, call).1;
      && (forall m: nat :: Resumable(run, d.key, m) ==> d.providerSession == run.previous[m].session)
      && (d.providerSession.Some? ==> exists m: nat :: Resumable(run, d.key, m))
  {
    var key := CallKey(run, call);
    var i := FindSession(run.previous, key, 0);
    FirstSessionIs(run.previous, key, 0);
    assert i < |run.previous| && (run.canReusePrefix || run.sparse) ==> Resumable(run, key, i);
    forall m: nat | Resumable(run, key, m) ensures m == i {
    }
  }

  // ---------------------------------------------------------------------------------------------
  // The next generation
  // ---------------------------------------------------------------------------------------------

  /** Slot `i` ended with result `r`, replayed or recorded. */
  predicate EndedWith(run: Run, i: nat, r: Record) {
    i < |run.slots| && match run.slots[i].fate
      case Open => false
      case Reused(_, x) => r == x
      case Recorded(x) => r == x
  }

  lemma EndedResult(run: Run, base: seq<Record>, i: nat, r: Record)
    requires RunCore(run, base) && EndedWith(run, i, r)
    ensures Of(run.records, run.slots[i].key) == [Started(run.slots[i].key, run.slots[i].agent), r]
    ensures r.Result? && r.key == run.slots[i].key && r.agent == run.slots[i].agent
  {
    assert run.slots[i] in run.slots;
  }

  /** Where the next generation stands: it follows the calls of `run`, whose records it inherited. */
  ghost predicate Follows(next: Run, left: seq<Record>, past: seq<Slot>, gaps: bool) {
    RunInv(next, left) && KnowsAll(next, past) && Faithful(next, left, past) && next.gaps == gaps
  }

  lemma {:induction false} RunKeepsKnowing(run: Run, ops: seq<Op>, past: seq<Slot>)
    requires KnowsAll(run, past)
    ensures KnowsAll(ApplyAll(run, ops), past)
    decreases |ops|
  {
    if ops != [] {
      KeepsKnowing(run, ops[0], past);
      RunKeepsKnowing(Apply(run, ops[0]), ops[1..], past);
    }
  }

  lemma NextFollows(run: Run, base: seq<Record>, again: seq<Op>, gaps: bool)
    requires RunInv(run, base) && AllListed(run)
    ensures var left := SnapshotOf(run);
      var next := ApplyAll(BeginRun(Some(left), left.sourceHash, ExactSourceSparse, gaps), again);
      Follows(next, left.records, run.slots, gaps)
  {
    var left := SnapshotOf(run);
    var begun := BeginRun(Some(left), left.sourceHash, ExactSourceSparse, gaps);
    RunStaysShaped(run, base);
    BeginKeepsInv(left, left.sourceHash, ExactSourceSparse, gaps);
    forall i | run.tracking && 0 <= i < |run.slots| ensures Knows(begun.previous, run.slots[i].key) {
      VisitedIsKnown(run, base, i);
    }
    RunStaysFaithful(begun, left.records, again, run.slots);
    RunKeepsInv(begun, again, left.records);
    RunKeepsKnowing(begun, again, run.slots);
  }

  /** Whoever calls with a visited key has made only visited calls, so nobody gave its result away. */
  lemma VisitedMeansNoDonors(next: Run, left: seq<Record>, past: seq<Slot>, gaps: bool, call: Call)
    requires Follows(next, left, past, gaps) && Linked(past) && Visited(past, CallKey(next, call))
    ensures NoDonors(next)
  {
    var slot := NewSlot(next, call);
    ChainGrows(next.slots, slot);
    ChainedIsLinked(next.slots + [slot]);
    SameKeySameCalls(past, next.slots + [slot], |next.slots|);
    AllFromPrefix(past, next.slots, slot);
  }

  /** The only result of a key is what a historical call of that key stores, under its own agent. */
  lemma StoredUnderKey(next: Run, left: seq<Record>, m: nat, start: Record, r: Record)
    requires Describes(next.previous, left) && m < |next.previous| && next.previous[m].result.Some?
    requires Of(left, next.previous[m].key) == [start, r] && start.Started?
    ensures next.previous[m].result == Some(r) && next.previous[m].agent == r.agent
  {
    assert next.previous[m].result.value in [start, r];
    assert r in Of(left, next.previous[m].key);
  }

  lemma ReusableIff(left: seq<Record>, key: Key, start: Record, r: Record, gaps: bool)
    requires Of(left, key) == [start, r] && start.Started?
    ensures ReusableAt(left, key, gaps) <==> ReusableRecord(r, gaps)
  {
    assert r in Of(left, key);
  }

  /** A call whose key ended with result `r` in the crashed run is answered from `r`. */
  lemma AnswersFrom(next: Run, left: seq<Record>, past: seq<Slot>, gaps: bool, call: Call, start: Record, r: Record)
    requires Follows(next, left, past, gaps) && Linked(past) && Visited(past, CallKey(next, call))
    requires Of(left, CallKey(next, call)) == [start, r] && start.Started? && r.Result?
    ensures var d := Admit(next, call).1;
      if ReusableRecord(r, gaps) then
        d == Hit(|next.slots|, CallKey(next, call), call.agent, r.agent, r.value, r.coverageGap)
      else d.Miss?
  {
    var key, m := CallKey(next, call), Lookup(next, call);
    VisitedMeansNoDonors(next, left, past, gaps, call);
    HitsItsOwn(next, left, call, past);
    ReusableIff(left, key, start, r, gaps);
    TakesItsOwn(next, call, past);
    if m.hit.Some? {
      StoredUnderKey(next, left, m.hit.value, start, r);
    }
  }

  /** After a crash at any point, the next generation of the same source answers a call that had ended with
      result `r` exactly from `r`: its value, its gap mark and the agent that produced it. */
  lemma EndedCallsAreAnswered(p: Option<Snapshot>, sourceHash: Text, mode: Mode, gaps: bool, ops: seq<Op>,
      again: seq<Op>, gapsAgain: bool, i: nat, r: Record, call: Call)
    requires p.Some? ==> Shaped(p.value.records)
    requires EndedWith(ApplyAll(BeginRun(p, sourceHash, mode, gaps), ops), i, r)
    ensures var run := ApplyAll(BeginRun(p, sourceHash, mode, gaps), ops);
      var left := SnapshotOf(run);
      var next := ApplyAll(BeginRun(Some(left), left.sourceHash, ExactSourceSparse, gapsAgain), again);
      var d := Admit(next, call).1;
      CallKey(next, call) == run.slots[i].key ==>
        && r.Result?
        && (if ReusableRecord(r, gapsAgain)
            then d == Hit(|next.slots|, CallKey(next, call), call.agent, r.agent, r.value, r.coverageGap)
            else d.Miss?)
  {
    var begun := BeginRun(p, sourceHash, mode, gaps);
    var base := BeginHasInv(p, sourceHash, mode, gaps);
    RunKeepsInv(begun, ops, base);
    RunKeepsListed(begun, ops, base);
    var run := ApplyAll(begun, ops);
    var left := SnapshotOf(run);
    var next := ApplyAll(BeginRun(Some(left), left.sourceHash, ExactSourceSparse, gapsAgain), again);
    EndedResult(run, base, i, r);
    if CallKey(next, call) == run.slots[i].key {
      NextFollows(run, base, again, gapsAgain);
      ChainedIsLinked(run.slots);
      assert Visited(run.slots, CallKey(next, call));
      AnswersFrom(next, left.records, run.slots, gapsAgain, call, Started(run.slots[i].key, run.slots[i].agent), r);
    }
  }

  // ---------------------------------------------------------------------------------------------
  // From the recorded value to the replayed one
  // ---------------------------------------------------------------------------------------------

  lemma ApplyKeepsEnds(run: Run, op: Op, i: nat, r: Record)
    requires EndedWith(run, i, r)
    ensures EndedWith(Apply(run, op), i, r) && Apply(run, op).slots[i] == run.slots[i]
  {
    if op.AdmitOp? {
      AdmitRecords(run, op.call);
    } else {
      OtherOpsSameReplays(run, op);
    }
  }

  lemma {:induction false} RunKeepsEnds(run: Run, ops: seq<Op>, i: nat, r: Record)
    requires EndedWith(run, i, r)
    ensures EndedWith(ApplyAll(run, ops), i, r) && ApplyAll(run, ops).slots[i] == run.slots[i]
    decreases |ops|
  {
    if ops != [] {
      ApplyKeepsEnds(run, ops[0], i, r);
      RunKeepsEnds(Apply(run, ops[0]), ops[1..], i, r);
    }
  }

  lemma {:induction false} ApplyAllAppend(run: Run, ops: seq<Op>, more: seq<Op>)
    ensures ApplyAll(run, ops + more) == ApplyAll(ApplyAll(run, ops), more)
    decreases |ops|
  {
    if ops == [] {
      assert ops + more == more;
    } else {
      assert (ops + more)[1..] == ops[1..] + more;
      ApplyAllAppend(Apply(run, ops[0]), ops[1..], more);
    }
  }

  /** A result is accepted exactly for a call that is still open, and a coverage gap only as an unsuccessful
      placeholder; the stored record holds the value as given. */
  lemma ResultIsStored(run: Run, index: nat, key: Key, agent: Agent, value: Value, successful: Option<bool>, gap: bool)
    ensures var after := RecordResult(run, index, key, agent, value, successful, gap);
      && (after.Some? <==>
        index < |run.slots| && run.slots[index] == Slot(key, agent, Open) &&
        (gap ==> successful == Some(false) && value.FailurePlaceholder?))
      && (after.Some? ==> EndedWith(after.value, index, Result(key, agent, value,
        Some(if successful.Some? then successful.value else value != NullValue), gap)))
  {
  }

  /** What makes a recorded result reusable. */
  predicate ReusedLater(value: Value, successful: Option<bool>, gap: bool, gapsAgain: bool) {
    if gap then gapsAgain else if successful.Some? then successful.value else value != NullValue
  }

  /** End to end: a run records `value` for a call and crashes at any later point; when the next generation
      of the same source makes that call again, it is answered with exactly `value`, unless the result is
      one that is not reused, and then it runs live. */
  lemma RecordedValueIsReplayed(p: Option<Snapshot>, sourceHash: Text, mode: Mode, gaps: bool, before: seq<Op>,
      index: nat, key: Key, agent: Agent, value: Value, successful: Option<bool>, gap: bool, later: seq<Op>,
      again: seq<Op>, gapsAgain: bool, call: Call)
    requires p.Some? ==> Shaped(p.value.records)
    requires RecordResult(ApplyAll(BeginRun(p, sourceHash, mode, gaps), before), index, key, agent, value,
      successful, gap).Some?
    ensures var record := ResultOp(index, key, agent, value, successful, gap);
      var left := SnapshotOf(ApplyAll(BeginRun(p, sourceHash, mode, gaps), before + [record] + later));
      var next := ApplyAll(BeginRun(Some(left), left.sourceHash, ExactSourceSparse, gapsAgain), again);
      var d := Admit(next, call).1;
      Link(next.previousKey, call.prompt, call.options) == key ==>
        if ReusedLater(value, successful, gap, gapsAgain) then
          d == Hit(|next.slots|, key, call.agent, agent, value, gap)
        else d.Miss?
  {
    var record := ResultOp(index, key, agent, value, successful, gap);
    var begun := BeginRun(p, sourceHash, mode, gaps);
    var met := ApplyAll(begun, before);
    ResultIsStored(met, index, key, agent, value, successful, gap);
    var r := Result(key, agent, value, Some(if successful.Some? then successful.value else value != NullValue), gap);
    ApplyAllAppend(begun, before + [record], later);
    ApplyAllAppend(begun, before, [record]);
    assert ApplyAll(met, [record]) == Apply(met, record) by {
      assert [record][1..] == [];
    }
    RunKeepsEnds(Apply(met, record), later, index, r);
    EndedCallsAreAnswered(p, sourceHash, mode, gaps, before + [record] + later, again, gapsAgain, index, r, call);
  }
}

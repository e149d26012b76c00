/**
  Resuming what a crashed run had visited, whether or not the journal tracks imported prompts: in the next
  sparse generation such a call is replayed exactly when its result was left in the journal. Each visited
  call is listed with its own prompt, so no call of the same sequence can take another's result by prompt.
 */
module JournalReplay {
  import opened Common
  import opened JournalModel
  import opened JournalResume
  import opened JournalReuse

  // ---------------------------------------------------------------------------------------------
  // A tracking run lists every call it visits
  // ---------------------------------------------------------------------------------------------

  /** The call is listed with its own prompt, and its key with no other. */
  ghost predicate Listed(imports: seq<Imported>, key: Key, agent: Agent) {
    && key.Link? && Imported(key, agent, key.prompt) in imports
    && forall m :: m in imports && m.key == key ==> m.promptKey == key.prompt
  }

  ghost predicate AllListed(run: Run) {
    run.tracking ==> forall i :: 0 <= i < |run.slots| ==>
      Listed(run.importedCalls, run.slots[i].key, run.slots[i].agent)
  }

  lemma StaysListed(imports: seq<Imported>, key: Key, agent: Agent, gone: Option<Historical>, added: Imported)
    requires Listed(imports, key, agent) && added.key != key && (gone.Some? ==> gone.value.key != key)
    ensures Listed(Filter(imports, (m: Imported) => OtherImport(m, added.key, gone)) + [added], key, agent)
  {
  }

  lemma NewlyListed(imports: seq<Imported>, gone: Option<Historical>, added: Imported)
    requires added.key.Link? && added.promptKey == added.key.prompt
    ensures Listed(Filter(imports, (m: Imported) => OtherImport(m, added.key, gone)) + [added], added.key, added.agent)
  {
  }

  lemma AdmitKeepsListed(run: Run, call: Call, base: seq<Record>)
    requires RunCore(run, base) && AllListed(run)
    ensures AllListed(Admit(run, call).0)
  {
    var r, key, replaced := Admit(run, call).0, CallKey(run, call), Lookup(run, call).replaced;
    AdmitRecords(run, call);
    NewKeyUnvisited(run.slots, call.prompt, call.options);
    DonorIsUnvisited(run, call, base);
    var gone := if replaced.Some? then Some(run.previous[replaced.value]) else None;
    var added := Imported(key, call.agent, call.prompt);
    NewlyListed(run.importedCalls, gone, added);
    forall i | run.tracking &&
      0 <= i < |run.slots| ensures Listed(r.importedCalls, run.slots[i].key, run.slots[i].agent) {
      assert Visited(run.slots, run.slots[i].key);
      StaysListed(run.importedCalls, run.slots[i].key, run.slots[i].agent, gone, added);
    }
  }

  lemma OtherOpsKeepImports(run: Run, op: Op)
    requires !op.AdmitOp?
    ensures Apply(run, op).importedCalls == run.importedCalls
  {
  }

  lemma StepKeepsListed(run: Run, op: Op, base: seq<Record>)
    requires RunCore(run, base) && AllListed(run)
    ensures AllListed(Apply(run, op))
  {
    if op.AdmitOp? {
      AdmitKeepsListed(run, op.call, base);
    } else {
      OtherOpsSameReplays(run, op);
      OtherOpsKeepImports(run, op);
    }
  }

  lemma {:induction false} RunKeepsListed(run: Run, ops: seq<Op>, base: seq<Record>)
    requires RunInv(run, base) && AllListed(run)
    ensures AllListed(ApplyAll(run, ops))
    decreases |ops|
  {
    if ops != [] {
      StepKeepsListed(run, ops[0], base);
      StepKeepsInv(run, ops[0], base);
      RunKeepsListed(Apply(run, ops[0]), ops[1..], base);
    }
  }

  // ---------------------------------------------------------------------------------------------
  // The next generation knows their prompts
  // ---------------------------------------------------------------------------------------------

  /** Some historical call of this key carries the key's prompt. */
  ghost predicate Knows(calls: seq<Historical>, key: Key) {
    key.Link? && exists m :: 0 <= m < |calls| && calls[m].key == key && calls[m].importedPrompt == Some(key.prompt)
  }

  lemma SameIdentitiesSameFirst(calls: seq<Historical>, others: seq<Historical>, key: Key, agent: Agent)
    requires |others| == |calls|
    requires forall i :: 0 <= i < |calls| ==> others[i].key == calls[i].key && others[i].agent == calls[i].agent
    ensures FirstSame(others, key, agent) == FirstSame(calls, key, agent)
  {
    FirstSameIs(calls, key, agent);
    FirstSameIs(others, key, agent);
    assert forall i :: 0 <= i < |calls| ==> SameCall(others[i], key, agent) == SameCall(calls[i], key, agent);
  }

  /** The first call with a listed identity learns its prompt. */
  lemma {:induction false} ImportTold(calls: seq<Historical>, imports: seq<Imported>, key: Key, agent: Agent,
      prompt: Text)
    requires FirstSame(calls, key, agent) < |calls|
    requires forall m :: m in imports && m.key == key ==> m.promptKey == prompt
    requires Imported(key, agent, prompt) in imports || calls[FirstSame(calls, key, agent)].importedPrompt ==
      Some(prompt)
    ensures WithImports(calls, imports)[FirstSame(calls, key, agent)].importedPrompt == Some(prompt)
    decreases |imports|
  {
    if imports != [] {
      var m := imports[0];
      var i := FirstSame(calls, m.key, m.agent);
      FirstSameIs(calls, m.key, m.agent);
      FirstSameIs(calls, key, agent);
      var told := if i < |calls| then calls[i := calls[i].(importedPrompt := Some(m.promptKey))] else calls;
      SameIdentitiesSameFirst(calls, told, key, agent);
      assert imports == [m] + imports[1..];
      ImportTold(told, imports[1..], key, agent, prompt);
    }
  }

  /** A visited call's history carries its prompt. */
  lemma VisitedIsKnown(run: Run, base: seq<Record>, i: nat)
    requires RunInv(run, base) && AllListed(run) && run.tracking && i < |run.slots|
    ensures Knows(HistoricalCalls(SnapshotOf(run)), run.slots[i].key)
  {
    var key, agent := run.slots[i].key, run.slots[i].agent;
    RunStaysShaped(run, base);
    CallsDescribe(run.records);
    var calls := Calls(run.records);
    var started := Of(run.records, key)[0];
    assert started == Started(key, agent) && started in Of(run.records, key);
    var m :| 0 <= m < |calls| && calls[m].key == key;
    assert calls[m].agent == agent;
    var met := WithSessions(calls, run.sessions);
    FirstSameIs(met, key, agent);
    assert SameCall(met[m], key, agent);
    assert Listed(run.importedCalls, key, agent);
    ImportTold(met, run.importedCalls, key, agent, key.prompt);
    assert HistoricalCalls(SnapshotOf(run))[FirstSame(met, key, agent)].key == key;
  }

  lemma {:induction false} FoundFirst(calls: seq<Historical>, prompt: Text, from: nat, m: nat)
    requires from <= m < |calls| && calls[m].importedPrompt == Some(prompt)
    ensures FindPrompt(calls, prompt, from) <= m
    decreases m - from
  {
    if from < m {
      FoundFirst(calls, prompt, from + 1, m);
    }
  }

  /** A prompt that only one call carries is that call's. */
  lemma UniqueIs(calls: seq<Historical>, prompt: Text, m: nat)
    requires m < |calls| && calls[m].importedPrompt == Some(prompt) && UniqueImport(calls, prompt).Some?
    ensures UniqueImport(calls, prompt) == Some(m)
  {
    var i := FindPrompt(calls, prompt, 0);
    FoundFirst(calls, prompt, 0, m);
    if i < m {
      FoundFirst(calls, prompt, i + 1, m);
    }
  }

  // ---------------------------------------------------------------------------------------------
  // While the next generation follows the visited calls, every result stays at its own key
  // ---------------------------------------------------------------------------------------------

  /** The first `n` calls are calls of `past`. */
  ghost predicate AllFrom(past: seq<Slot>, slots: seq<Slot>, n: nat)
    requires n <= |slots|
  {
    forall i :: 0 <= i < n ==> Visited(past, slots[i].key)
  }

  ghost predicate KnowsAll(run: Run, past: seq<Slot>) {
    run.sparse && (run.tracking ==> forall i :: 0 <= i < |past| ==> Knows(run.previous, past[i].key))
  }

  ghost predicate ReplayedAt(run: Run, base: seq<Record>, i: nat)
    requires i < |run.slots|
  {
    run.slots[i].fate.Reused? <==> ReusableAt(base, run.slots[i].key, run.gaps)
  }

  ghost predicate Faithful(run: Run, base: seq<Record>, past: seq<Slot>) {
    && (AllFrom(past, run.slots, |run.slots|) ==> NoDonors(run))
    && forall i :: 0 <= i < |run.slots| && AllFrom(past, run.slots, i + 1) ==> ReplayedAt(run, base, i)
  }

  /** A call of the old sequence takes nobody else's result. */
  lemma TakesItsOwn(run: Run, call: Call, past: seq<Slot>)
    requires KnowsAll(run, past) && Visited(past, CallKey(run, call))
    ensures var m := Lookup(run, call);
      m.replaced.Some? ==> run.previous[m.replaced.value].key == CallKey(run, call)
  {
    var key := CallKey(run, call);
    if run.tracking && FindDirect(run, key, 0) == |run.previous| && UniqueImport(run.previous, call.prompt).Some? {
      assert Knows(run.previous, key);
      var m :| 0 <= m < |run.previous| && run.previous[m].key == key && run.previous[m].importedPrompt ==
        Some(key.prompt);
      UniqueIs(run.previous, call.prompt, m);
    }
  }

  /** It is replayed exactly when its inherited result is reusable. */
  lemma HitsItsOwn(run: Run, base: seq<Record>, call: Call, past: seq<Slot>)
    requires RunInv(run, base) && KnowsAll(run, past) && Visited(past, CallKey(run, call)) && NoDonors(run)
    ensures Lookup(run, call).hit.Some? <==> ReusableAt(base, CallKey(run, call), run.gaps)
  {
    var key, m := CallKey(run, call), Lookup(run, call);
    TakesItsOwn(run, call, past);
    DirectHitIff(run, base, call);
    NewKeyUnvisited(run.slots, call.prompt, call.options);
    assert !Donated(run, key);
    if m.hit.Some? {
      assert DirectCandidate(run, key, m.hit.value);
    }
  }

  lemma AllFromPrefix(past: seq<Slot>, slots: seq<Slot>, slot: Slot)
    ensures forall n :: 0 <= n <= |slots| ==> (AllFrom(past, slots + [slot], n) <==> AllFrom(past, slots, n))
    ensures AllFrom(past, slots + [slot], |slots| + 1) <==> AllFrom(past, slots, |slots|) && Visited(past, slot.key)
  {
    var more := slots + [slot];
    assert forall i :: 0 <= i < |slots| ==> more[i] == slots[i];
    assert more[|slots|] == slot;
    forall n | 0 <= n <= |slots| ensures AllFrom(past, more, n) <==> AllFrom(past, slots, n) {
    }
  }

  lemma AdmitKeepsDonors(run: Run, call: Call, past: seq<Slot>)
    requires KnowsAll(run, past) && Visited(past, CallKey(run, call)) && NoDonors(run)
    ensures NoDonors(Admit(run, call).0)
  {
    var r := Admit(run, call).0;
    TakesItsOwn(run, call, past);
    AdmitRecords(run, call);
    AdmitConsumes(run, call);
    forall m: nat | m in r.consumed && m < |r.previous| ensures Visited(r.slots, r.previous[m].key) {
      VisitedAfter(run.slots, NewSlot(run, call), r.previous[m].key);
    }
  }

  lemma AdmitKeepsFaithful(run: Run, base: seq<Record>, call: Call, past: seq<Slot>)
    requires RunInv(run, base) && KnowsAll(run, past) && Faithful(run, base, past)
    ensures Faithful(Admit(run, call).0, base, past)
  {
    var r, slot := Admit(run, call).0, NewSlot(run, call);
    AdmitRecords(run, call);
    AllFromPrefix(past, run.slots, slot);
    if AllFrom(past, r.slots, |r.slots|) {
      AdmitKeepsDonors(run, call, past);
      HitsItsOwn(run, base, call, past);
    }
    forall i | 0 <= i < |r.slots| && AllFrom(past, r.slots, i + 1) ensures ReplayedAt(r, base, i) {
      if i < |run.slots| {
        assert ReplayedAt(run, base, i);
      }
    }
  }

  lemma SameReplaysStayFaithful(run: Run, base: seq<Record>, after: Run, past: seq<Slot>)
    requires Faithful(run, base, past) && SameReplays(run, after)
    ensures Faithful(after, base, past)
  {
    assert forall n :: 0 <= n <= |run.slots| ==> AllFrom(past, after.slots, n) == AllFrom(past, run.slots, n);
    if AllFrom(past, after.slots, |after.slots|) {
      SameReplaysKeepNoDonors(run, after);
    }
    forall i | 0 <= i < |after.slots| && AllFrom(past, after.slots, i + 1) ensures ReplayedAt(after, base, i) {
      assert ReplayedAt(run, base, i);
    }
  }

  lemma KeepsKnowing(run: Run, op: Op, past: seq<Slot>)
    requires KnowsAll(run, past)
    ensures KnowsAll(Apply(run, op), past)
  {
    if op.AdmitOp? {
      AdmitRecords(run, op.call);
    } else {
      OtherOpsSameReplays(run, op);
    }
  }

  lemma {:induction false} RunStaysFaithful(run: Run, base: seq<Record>, ops: seq<Op>, past: seq<Slot>)
    requires RunInv(run, base) && KnowsAll(run, past) && Faithful(run, base, past)
    ensures Faithful(ApplyAll(run, ops), base, past) && ApplyAll(run, ops).gaps == run.gaps
    decreases |ops|
  {
    if ops != [] {
      if ops[0].AdmitOp? {
        AdmitKeepsFaithful(run, base, ops[0].call, past);
      } else {
        OtherOpsSameReplays(run, ops[0]);
        SameReplaysStayFaithful(run, base, Apply(run, ops[0]), past);
      }
      KeepsKnowing(run, ops[0], past);
      StepKeepsInv(run, ops[0], base);
      RunStaysFaithful(Apply(run, ops[0]), base, ops[1..], past);
    }
  }

  /** Each key is as deep as its place, and goes back to the key before it. */
  ghost predicate Linked(slots: seq<Slot>) {
    forall j :: 0 <= j < |slots| ==>
      Depth(slots[j].key) == j + 1 && (j > 0 ==> slots[j].key.Link? && slots[j].key.previous == slots[j - 1].key)
  }

  lemma ChainedIsLinked(slots: seq<Slot>)
    requires Chained(slots)
    ensures Linked(slots)
  {
    forall j | 0 <= j < |slots|
      ensures Depth(slots[j].key) == j + 1
      ensures j > 0 ==> slots[j].key.Link? && slots[j].key.previous == slots[j - 1].key
    {
      ChainDepth(slots, j);
      assert j > 0 ==> slots[..j][j - 1] == slots[j - 1];
    }
  }

  /** Keys commit to their predecessors: who reaches a visited key made the visited calls before it. */
  lemma {:induction false} SameKeySameCalls(past: seq<Slot>, slots: seq<Slot>, j: nat)
    requires Linked(past) && Linked(slots) && j < |slots| && Visited(past, slots[j].key)
    ensures AllFrom(past, slots, j + 1)
    decreases j
  {
    if j > 0 {
      var i :| 0 <= i < |past| && past[i].key == slots[j].key;
      assert past[i - 1].key == slots[j - 1].key;
      SameKeySameCalls(past, slots, j - 1);
    }
  }

  lemma NextReplays(run: Run, base: seq<Record>, again: seq<Op>, gaps: bool, j: nat)
    requires RunInv(run, base) && AllListed(run)
    ensures var left := SnapshotOf(run);
      var next := ApplyAll(BeginRun(Some(left), left.sourceHash, ExactSourceSparse, gaps), again);
      j < |next.slots| && Visited(run.slots, next.slots[j].key) ==>
        (next.slots[j].fate.Reused? <==> ReusableAt(left.records, next.slots[j].key, gaps))
  {
    var left := SnapshotOf(run);
    var begun := BeginRun(Some(left), left.sourceHash, ExactSourceSparse, gaps);
    RunStaysShaped(run, base);
    BeginKeepsInv(left, left.sourceHash, ExactSourceSparse, gaps);
    forall i | run.tracking && 0 <= i < |run.slots| ensures Knows(begun.previous, run.slots[i].key) {
      VisitedIsKnown(run, base, i);
    }
    RunStaysFaithful(begun, left.records, again, run.slots);
    RunKeepsInv(begun, again, left.records);
    var next := ApplyAll(begun, again);
    if j < |next.slots| && Visited(run.slots, next.slots[j].key) {
      ChainedIsLinked(run.slots);
      ChainedIsLinked(next.slots);
      SameKeySameCalls(run.slots, next.slots, j);
      assert ReplayedAt(next, left.records, j);
    }
  }

  /** From any journal, imported or not, in either mode: after a crash at any point, the next generation of
      the same source replays a call that the crashed run had visited exactly when the journal holds a
      reusable result under its key. */
  lemma VisitedCallsReplay(p: Option<Snapshot>, sourceHash: Text, mode: Mode, gaps: bool, ops: seq<Op>,
      again: seq<Op>, gapsAgain: bool, j: nat)
    requires p.Some? ==> Shaped(p.value.records)
    ensures var run := ApplyAll(BeginRun(p, sourceHash, mode, gaps), ops);
      var left := SnapshotOf(run);
      var next := ApplyAll(BeginRun(Some(left), left.sourceHash, ExactSourceSparse, gapsAgain), again);
      j < |next.slots| && Visited(run.slots, next.slots[j].key) ==>
        (next.slots[j].fate.Reused? <==> ReusableAt(left.records, next.slots[j].key, gapsAgain))
  {
    var begun := BeginRun(p, sourceHash, mode, gaps);
    var base := BeginHasInv(p, sourceHash, mode, gaps);
    RunKeepsInv(begun, ops, base);
    RunKeepsListed(begun, ops, base);
    NextReplays(ApplyAll(begun, ops), base, again, gapsAgain, j);
  }
}

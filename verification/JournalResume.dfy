/**
  Guarantees of the resume journal over whole runs and over generations separated by crashes.

  A snapshot is `Shaped` when the records of each key belong to one call: a started record first, which
  an import may repeat around a provider retry, and at most one result. Every run keeps that shape, and
  leaves the keys it visits with one started record each.
 */
module JournalResume {
  import opened Common
  import opened JournalModel

  /** The records of one key, in order. */
  function Of(records: seq<Record>, key: Key): seq<Record> {
    Filter(records, (r: Record) => r.key == key)
  }

  /** What a run writes for a call: one started record, then at most one result. */
  predicate KeyShape(rs: seq<Record>) {
    || |rs| == 0
    || (|rs| == 1 && rs[0].Started?)
    || (|rs| == 2 && rs[0].Started? && rs[1].Result? && rs[1].agent == rs[0].agent)
  }

  function ResultsIn(rs: seq<Record>): seq<Record> {
    Filter(rs, (r: Record) => r.Result?)
  }

  /** What history may hold of a call: its start may have been recorded again. */
  predicate OneCall(rs: seq<Record>) {
    && (rs != [] ==> rs[0].Started?)
    && (forall r :: r in rs ==> r.agent == rs[0].agent)
    && |ResultsIn(rs)| <= 1
  }

  ghost predicate Shaped(records: seq<Record>) {
    forall key: Key :: OneCall(Of(records, key))
  }

  // ---------------------------------------------------------------------------------------------
  // Filters by key
  // ---------------------------------------------------------------------------------------------

  lemma OfAppend(records: seq<Record>, more: seq<Record>, key: Key)
    ensures Of(records + more, key) == Of(records, key) + Of(more, key)
  {
    FilterAppend(records, more, (r: Record) => r.key == key);
  }

  lemma OfOne(r: Record, key: Key)
    ensures Of([r], key) == if r.key == key then [r] else []
  {
    FilterOne(r, (x: Record) => x.key == key);
  }

  lemma OfPush(records: seq<Record>, r: Record, key: Key)
    ensures Of(records + [r], key) == if r.key == key then Of(records, key) + [r] else Of(records, key)
  {
    OfAppend(records, [r], key);
    OfOne(r, key);
  }

  /** Filtering by a predicate that accepts every record of `key` keeps those records. */
  lemma OfKept(records: seq<Record>, keep: Record -> bool, key: Key)
    requires forall r: Record :: r in records && r.key == key ==> keep(r)
    ensures Of(Filter(records, keep), key) == Of(records, key)
  {
    var all := (r: Record) => true;
    FilterWithin(records, keep, (r: Record) => r.key == key, all);
    FilterAll(Of(records, key), all);
  }

  lemma OfDropped(records: seq<Record>, keep: Record -> bool, key: Key)
    requires forall r: Record :: r in records && r.key == key ==> !keep(r)
    ensures Of(Filter(records, keep), key) == []
  {
    FilterNone(Filter(records, keep), (r: Record) => r.key == key);
  }

  lemma OfMember(records: seq<Record>, r: Record)
    ensures r in records <==> r in Of(records, r.key)
  {
  }

  // ---------------------------------------------------------------------------------------------
  // Historical calls of a shaped snapshot
  // ---------------------------------------------------------------------------------------------

  ghost predicate HasCall(calls: seq<Historical>, key: Key) {
    exists i :: 0 <= i < |calls| && calls[i].key == key
  }

  ghost predicate HasResult(calls: seq<Historical>, r: Record) {
    exists i :: 0 <= i < |calls| && calls[i].key == r.key && calls[i].result == Some(r)
  }

  /** Nothing but a start is known of the call. */
  predicate Bare(h: Historical) {
    h.result.None? && h.session.None? && h.importedPrompt.None?
  }

  /** Whatever is known of a key is known of its first call. */
  ghost predicate FirstsMarked(calls: seq<Historical>) {
    forall i, j :: 0 <= i < j < |calls| && calls[i].key == calls[j].key ==> Bare(calls[j])
  }

  /** The calls of a key are by the agent of its records, of which there are some. */
  ghost predicate AgentsAgree(calls: seq<Historical>, records: seq<Record>) {
    forall i :: 0 <= i < |calls| ==>
      Of(records, calls[i].key) != [] && forall r :: r in Of(records, calls[i].key) ==> r.agent == calls[i].agent
  }

  ghost predicate ResultsHeld(calls: seq<Historical>, records: seq<Record>) {
    forall i :: 0 <= i < |calls| && calls[i].result.Some? ==>
      calls[i].result.value.Result? && calls[i].result.value in Of(records, calls[i].key)
  }

  ghost predicate ResultsFound(calls: seq<Historical>, records: seq<Record>) {
    forall r :: r in records && r.Result? ==> HasResult(calls, r)
  }

  ghost predicate Covers(calls: seq<Historical>, records: seq<Record>) {
    forall key: Key :: Of(records, key) != [] ==> HasCall(calls, key)
  }

  /** The calls of a key stand for its records: the first has the key's result, if there is one. */
  ghost predicate Describes(calls: seq<Historical>, records: seq<Record>) {
    && FirstsMarked(calls) && AgentsAgree(calls, records)
    && ResultsHeld(calls, records) && ResultsFound(calls, records) && Covers(calls, records)
  }

  lemma ShapedPrefix(records: seq<Record>, r: Record)
    requires Shaped(records + [r])
    ensures Shaped(records)
  {
    forall key: Key ensures OneCall(Of(records, key)) {
      OfPush(records, r, key);
      var rs := Of(records, key);
      assert OneCall(Of(records + [r], key));
      FilterAppend(rs, [r], (x: Record) => x.Result?);
      assert rs != [] ==> (rs + [r])[0] == rs[0];
    }
  }

  /** What calls `calls` say of `records` and of one more record stays right. */
  lemma PushAgrees(calls: seq<Historical>, records: seq<Record>, r: Record)
    requires forall i :: 0 <= i < |calls| ==>
      && (Of(records, calls[i].key) != [] || calls[i].key == r.key) &&
        (calls[i].key == r.key ==> calls[i].agent == r.agent)
      && forall x :: x in Of(records, calls[i].key) ==> x.agent == calls[i].agent
    requires forall i :: 0 <= i < |calls| && calls[i].result.Some? ==>
      calls[i].result.value.Result? &&
        (calls[i].result.value in Of(records, calls[i].key) || calls[i].result == Some(r))
    requires forall i :: 0 <= i < |calls| && calls[i].result == Some(r) ==> calls[i].key == r.key
    ensures AgentsAgree(calls, records + [r]) && ResultsHeld(calls, records + [r])
  {
    forall i | 0 <= i < |calls|
      ensures Of(records + [r], calls[i].key) != [] && forall x :: x in Of(records + [r], calls[i].key) ==>
        x.agent == calls[i].agent
      ensures calls[i].result.Some? ==> calls[i].result.value in Of(records + [r], calls[i].key)
    {
      OfPush(records, r, calls[i].key);
    }
  }

  lemma SameAgentAsBefore(calls: seq<Historical>, records: seq<Record>, r: Record)
    requires AgentsAgree(calls, records) && OneCall(Of(records + [r], r.key))
    ensures forall x :: x in Of(records, r.key) ==> x.agent == r.agent
    ensures forall i :: 0 <= i < |calls| && calls[i].key == r.key ==> calls[i].agent == r.agent
  {
    OfPush(records, r, r.key);
    var rs := Of(records, r.key);
    assert r in rs + [r] && forall x :: x in rs ==> x in rs + [r];
    forall i | 0 <= i < |calls| && calls[i].key == r.key ensures calls[i].agent == r.agent {
      assert rs[0] in rs;
    }
  }

  /** Every call and every result is still there. */
  lemma KeepsCalls(calls: seq<Historical>, more: seq<Historical>, records: seq<Record>, r: Record)
    requires Covers(calls, records) && ResultsFound(calls, records) && HasCall(more, r.key) &&
      (r.Result? ==> HasResult(more, r))
    requires |calls| <= |more|
    requires forall i :: 0 <= i < |calls| ==>
      more[i].key == calls[i].key && (calls[i].result.Some? ==> more[i].result == calls[i].result)
    ensures Covers(more, records + [r]) && ResultsFound(more, records + [r])
  {
    forall key: Key | Of(records + [r], key) != [] ensures HasCall(more, key) {
      OfPush(records, r, key);
      if key != r.key {
        var i :| 0 <= i < |calls| && calls[i].key == key;
        assert more[i].key == key;
      }
    }
    forall x | x in records + [r] && x.Result? ensures HasResult(more, x) {
      if x != r {
        var i :| 0 <= i < |calls| && calls[i].key == x.key && calls[i].result == Some(x);
        assert more[i].result == Some(x);
      }
    }
  }

  lemma StartedDescribes(calls: seq<Historical>, records: seq<Record>, r: Record)
    requires Describes(calls, records) && r.Started? && OneCall(Of(records + [r], r.key))
    ensures Describes(Observe(calls, r), records + [r])
  {
    var more := calls + [Historical(r.key, r.agent, None, None, None)];
    SameAgentAsBefore(calls, records, r);
    PushAgrees(more, records, r);
    assert more[|calls|].key == r.key;
    KeepsCalls(calls, more, records, r);
  }

  /** A result belongs to the first call of its key, which has none yet. */
  lemma OpenIsFirst(calls: seq<Historical>, records: seq<Record>, r: Record)
    requires Describes(calls, records) && r.Result? && OneCall(Of(records + [r], r.key))
    ensures var i := FirstOpen(calls, r.key, r.agent);
      i < |calls| && forall j :: 0 <= j < i ==> calls[j].key != r.key
  {
    OfPush(records, r, r.key);
    SameAgentAsBefore(calls, records, r);
    var before := Of(records, r.key);
    assert before != [] by {
      assert (before + [r])[0].Started?;
    }
    FilterAppend(before, [r], (x: Record) => x.Result?);
    FilterOne(r, (x: Record) => x.Result?);
    assert forall x :: x in before && x.Result? ==> x in ResultsIn(before);
    assert forall j :: 0 <= j < |calls| && calls[j].key == r.key ==> calls[j].result.None?;
    assert HasCall(calls, r.key);
    var j :| 0 <= j < |calls| && calls[j].key == r.key;
    assert SameCall(calls[j], r.key, r.agent) && calls[j].result.None?;
  }

  lemma FirstGetsResult(calls: seq<Historical>, i: nat, r: Record)
    requires FirstsMarked(calls) && i < |calls| && forall j :: 0 <= j < i ==> calls[j].key != calls[i].key
    ensures FirstsMarked(calls[i := calls[i].(result := Some(r))])
  {
  }

  lemma ResultAgrees(calls: seq<Historical>, records: seq<Record>, r: Record, i: nat)
    requires AgentsAgree(calls, records) && ResultsHeld(calls, records) && ResultsFound(calls, records) &&
      Covers(calls, records)
    requires r.Result? && i < |calls| && calls[i].key == r.key && calls[i].result.None?
    requires forall j :: 0 <= j < |calls| && calls[j].key == r.key ==> calls[j].agent == r.agent
    ensures var more := calls[i := calls[i].(result := Some(r))];
      && AgentsAgree(more, records + [r]) && ResultsHeld(more, records + [r])
      && ResultsFound(more, records + [r]) && Covers(more, records + [r])
  {
    var more := calls[i := calls[i].(result := Some(r))];
    assert more[i].key == r.key && more[i].result == Some(r);
    forall j | 0 <= j < |more| && more[j].result == Some(r) ensures more[j].key == r.key {
      assert j != i ==> r in Of(records, calls[j].key);
    }
    PushAgrees(more, records, r);
    KeepsCalls(calls, more, records, r);
  }

  lemma ResultDescribes(calls: seq<Historical>, records: seq<Record>, r: Record)
    requires Describes(calls, records) && r.Result? && OneCall(Of(records + [r], r.key))
    ensures Describes(Observe(calls, r), records + [r])
  {
    OpenIsFirst(calls, records, r);
    var i := FirstOpen(calls, r.key, r.agent);
    FirstGetsResult(calls, i, r);
    SameAgentAsBefore(calls, records, r);
    ResultAgrees(calls, records, r, i);
  }

  lemma {:induction false} CallsDescribe(records: seq<Record>)
    requires Shaped(records)
    ensures Describes(Calls(records), records)
  {
    if records != [] {
      var prefix, r := records[..|records| - 1], records[|records| - 1];
      assert records == prefix + [r];
      ShapedPrefix(prefix, r);
      CallsDescribe(prefix);
      assert OneCall(Of(records, r.key));
      if r.Started? {
        StartedDescribes(Calls(prefix), prefix, r);
      } else {
        ResultDescribes(Calls(prefix), prefix, r);
      }
    }
  }

  ghost predicate OneAgentPerKey(calls: seq<Historical>) {
    forall i, j :: 0 <= i < j < |calls| && calls[i].key == calls[j].key ==> calls[i].agent == calls[j].agent
  }

  /** `FirstSame` finds the first call of a key. */
  lemma {:induction false} FirstSameIs(calls: seq<Historical>, key: Key, agent: Agent)
    ensures var i := FirstSame(calls, key, agent);
      && (i < |calls| ==> SameCall(calls[i], key, agent))
      && (forall j :: 0 <= j < i ==> !SameCall(calls[j], key, agent))
    decreases |calls|
  {
    if calls != [] {
      FirstSameIs(calls[1..], key, agent);
      assert forall j :: 0 < j < |calls| ==> calls[j] == calls[1..][j - 1];
    }
  }

  lemma {:induction false} SessionsMarkFirsts(calls: seq<Historical>, sessions: seq<Session>)
    requires FirstsMarked(calls) && OneAgentPerKey(calls)
    ensures FirstsMarked(WithSessions(calls, sessions))
    decreases |sessions|
  {
    if sessions != [] {
      var s := sessions[0];
      var i := FirstSame(calls, s.key, s.agent);
      FirstSameIs(calls, s.key, s.agent);
      SessionsMarkFirsts(if i < |calls| then calls[i := calls[i].(session := Some(s.thread))]
        else calls, sessions[1..]);
    }
  }

  lemma {:induction false} ImportsMarkFirsts(calls: seq<Historical>, imports: seq<Imported>)
    requires FirstsMarked(calls) && OneAgentPerKey(calls)
    ensures FirstsMarked(WithImports(calls, imports))
    decreases |imports|
  {
    if imports != [] {
      var m := imports[0];
      var i := FirstSame(calls, m.key, m.agent);
      FirstSameIs(calls, m.key, m.agent);
      ImportsMarkFirsts(if i < |calls| then calls[i := calls[i].(importedPrompt := Some(m.promptKey))]
        else calls, imports[1..]);
    }
  }

  lemma AgentsAreOnePerKey(calls: seq<Historical>, records: seq<Record>)
    requires AgentsAgree(calls, records)
    ensures OneAgentPerKey(calls)
  {
    forall i, j | 0 <= i < j < |calls| && calls[i].key == calls[j].key ensures calls[i].agent == calls[j].agent {
      assert Of(records, calls[i].key)[0] in Of(records, calls[i].key);
    }
  }

  lemma HistoryDescribes(s: Snapshot)
    requires Shaped(s.records)
    ensures Describes(HistoricalCalls(s), s.records)
  {
    CallsDescribe(s.records);
    var calls, hist := Calls(s.records), HistoricalCalls(s);
    AgentsAreOnePerKey(calls, s.records);
    SessionsMarkFirsts(calls, s.sessions);
    ImportsMarkFirsts(WithSessions(calls, s.sessions), ImportsOf(s));
    forall key: Key | Of(s.records, key) != [] ensures HasCall(hist, key) {
      var i :| 0 <= i < |calls| && calls[i].key == key;
      assert hist[i].key == key;
    }
    forall r | r in s.records && r.Result? ensures HasResult(hist, r) {
      var i :| 0 <= i < |calls| && calls[i].key == r.key && calls[i].result == Some(r);
      assert hist[i].result == Some(r);
    }
  }

  // ---------------------------------------------------------------------------------------------
  // The invariant of a run
  // ---------------------------------------------------------------------------------------------

  function LastKey(slots: seq<Slot>): Key {
    if slots == [] then Root else slots[|slots| - 1].key
  }

  /** Each admitted key chains to the one before it. */
  ghost predicate Chained(slots: seq<Slot>) {
    forall i :: 0 <= i < |slots| ==> slots[i].key.Link? && slots[i].key.previous == LastKey(slots[..i])
  }

  function Depth(key: Key): nat {
    if key.Root? then 0 else 1 + Depth(key.previous)
  }

  lemma {:induction false} ChainDepth(slots: seq<Slot>, i: nat)
    requires Chained(slots) && i < |slots|
    ensures Depth(slots[i].key) == i + 1
  {
    if i > 0 {
      ChainDepth(slots, i - 1);
      assert slots[..i][i - 1] == slots[i - 1];
    }
  }

  ghost predicate Visited(slots: seq<Slot>, key: Key) {
    exists i :: 0 <= i < |slots| && slots[i].key == key
  }

  lemma NewKeyUnvisited(slots: seq<Slot>, prompt: Text, options: Text)
    requires Chained(slots)
    ensures !Visited(slots, Link(LastKey(slots), prompt, options))
  {
    var key := Link(LastKey(slots), prompt, options);
    if slots != [] {
      ChainDepth(slots, |slots| - 1);
    }
    if Visited(slots, key) {
      var i :| 0 <= i < |slots| && slots[i].key == key;
      ChainDepth(slots, i);
    }
  }

  lemma ChainGrows(slots: seq<Slot>, slot: Slot)
    requires Chained(slots) && slot.key.Link? && slot.key.previous == LastKey(slots)
    ensures Chained(slots + [slot])
  {
    var more := slots + [slot];
    forall i | 0 <= i < |more| ensures more[i].key.Link? && more[i].key.previous == LastKey(more[..i]) {
      assert more[..i] == slots[..i];
      assert slots[..|slots|] == slots;
    }
  }

  /** The records a visited call owns: one start, and one result once it has one. */
  function SlotRecords(slot: Slot): seq<Record> {
    [Started(slot.key, slot.agent)] +
    match slot.fate
    case Open => []
    case Reused(_, r) => [r]
    case Recorded(r) => [r]
  }

  /** A slot's result belongs to its call. */
  predicate SlotValid(slot: Slot) {
    match slot.fate
    case Open => true
    case Reused(_, r) => r.Result? && r.key == slot.key && r.agent == slot.agent
    case Recorded(r) => r.Result? && r.key == slot.key && r.agent == slot.agent
  }

  ghost predicate VisitedExact(run: Run) {
    forall i :: 0 <= i < |run.slots| ==> Of(run.records, run.slots[i].key) == SlotRecords(run.slots[i])
  }

  /** Some historical call with this key gave its result away. */
  ghost predicate Donated(run: Run, key: Key) {
    exists m: nat :: m in run.consumed && m < |run.previous| && run.previous[m].key == key
  }

  /** A key not yet visited keeps its inherited records until one of its calls gives its result away. */
  ghost predicate UnvisitedKept(run: Run, base: seq<Record>) {
    forall key: Key :: !Visited(run.slots, key) ==>
      Of(run.records, key) == if Donated(run, key) then [] else Of(base, key)
  }

  /** Historical call `m` could still be taken by its prompt. */
  predicate Donatable(run: Run, m: nat)
    requires m < |run.previous|
  {
    var key := run.previous[m].key;
    && run.sparse && run.tracking && key.Link? && m !in run.consumed
    && UniqueImport(run.previous, key.prompt) == Some(m)
    && ImportProof(run, m, key.prompt, key.options).found
  }

  /** No historical call of a visited key can be taken any more. */
  ghost predicate Fenced(run: Run) {
    forall i, m: nat :: 0 <= i < |run.slots| && m < |run.previous| && run.previous[m].key == run.slots[i].key ==>
      !Donatable(run, m)
  }

  /** What was consumed had a result or an imported prompt, so it is the first call of its key. */
  ghost predicate ConsumedKnown(run: Run) {
    forall m: nat :: m in run.consumed ==> m < |run.previous| && !Bare(run.previous[m])
  }

  /** What a run knows of itself. */
  ghost predicate RunCore(run: Run, base: seq<Record>) {
    && Chained(run.slots) && run.previousKey == LastKey(run.slots)
    && (forall slot :: slot in run.slots ==> SlotValid(slot))
    && VisitedExact(run)
    && UnvisitedKept(run, base)
    && Fenced(run)
    && ConsumedKnown(run)
    && (!run.sparse ==> base == [])
  }

  ghost predicate RunInv(run: Run, base: seq<Record>) {
    && RunCore(run, base)
    && (run.sparse ==> Describes(run.previous, base) && Shaped(base))
  }

  /** What the next generation inherits. */
  function BaseOf(p: Snapshot, sourceHash: Text, mode: Mode): seq<Record> {
    if mode.ExactSourceSparse? && p.sourceHash == sourceHash then p.records else []
  }

  lemma BeginKeepsInv(p: Snapshot, sourceHash: Text, mode: Mode, gaps: bool)
    requires Shaped(p.records)
    ensures RunInv(BeginRun(Some(p), sourceHash, mode, gaps), BaseOf(p, sourceHash, mode))
  {
    var run := BeginRun(Some(p), sourceHash, mode, gaps);
    HistoryDescribes(p);
    assert forall key: Key :: !Donated(run, key);
  }

  /** A run may begin from any shaped snapshot, or from none. */
  lemma BeginHasInv(p: Option<Snapshot>, sourceHash: Text, mode: Mode, gaps: bool) returns (base: seq<Record>)
    requires p.Some? ==> Shaped(p.value.records)
    ensures var begun := BeginRun(p, sourceHash, mode, gaps); RunInv(begun, base) && begun.slots == []
  {
    if p.Some? {
      base := BaseOf(p.value, sourceHash, mode);
      BeginKeepsInv(p.value, sourceHash, mode, gaps);
    } else {
      base := [];
      var begun := BeginRun(p, sourceHash, mode, gaps);
      assert forall key: Key :: !Visited(begun.slots, key) && Of(begun.records, key) == [];
    }
  }

  // Proof search budgets only shrink.

  lemma {:induction false} ProveMonotone(keys: seq<Key>, target: Key, prompt: Text, options: Text, shared: nat,
      hashes: nat, bytes: nat, fewerHashes: nat, fewerBytes: nat)
    requires fewerHashes <= hashes && fewerBytes <= bytes
    requires Prove(keys, target, prompt, options, shared, fewerHashes, fewerBytes).found
    ensures Prove(keys, target, prompt, options, shared, hashes, bytes).found
    decreases |keys|
  {
    if keys != [] && Link(keys[0], prompt, options) != target {
      var cost := shared + KeyBytes(keys[0]);
      ProveMonotone(keys[1..], target, prompt, options, shared, hashes - 1, bytes - cost, fewerHashes - 1,
        fewerBytes - cost);
    }
  }

  /** What later mutations may change without making a historical call takeable again. */
  ghost predicate Narrower(run: Run, later: Run) {
    && later.previous == run.previous && later.sparse == run.sparse && later.tracking == run.tracking
    && run.consumed <= later.consumed
    && later.proofHashes <= run.proofHashes && later.proofBytes <= run.proofBytes
  }

  lemma DonatableShrinks(run: Run, later: Run, m: nat)
    requires Narrower(run, later) && m < |run.previous| && Donatable(later, m)
    ensures Donatable(run, m)
  {
    var key := run.previous[m].key;
    ProveMonotone([Root] + DistinctKeys(run.previous), key, key.prompt, key.options,
      SharedBytes(key.prompt, key.options),
      run.proofHashes, run.proofBytes, later.proofHashes, later.proofBytes);
  }

  // ---------------------------------------------------------------------------------------------
  // Admission
  // ---------------------------------------------------------------------------------------------

  lemma KeptOther(run: Run, key: Key, replaced: Option<nat>, other: Key)
    requires replaced.Some? ==> replaced.value < |run.previous|
    requires other != key
    requires run.sparse && replaced.Some? ==> run.previous[replaced.value].key != other
    ensures Of(KeptRecords(run, key, replaced), other) == Of(run.records, other)
  {
    if run.sparse {
      OfKept(run.records, (r: Record) => OtherKey(r, key), other);
      if replaced.Some? {
        var h := run.previous[replaced.value];
        OfKept(Filter(run.records, (r: Record) => OtherKey(r, key)), (r: Record) => OtherCall(r, h), other);
      }
    }
  }

  lemma KeptSelf(run: Run, key: Key, replaced: Option<nat>)
    requires replaced.Some? ==> replaced.value < |run.previous|
    requires !run.sparse ==> Of(run.records, key) == []
    ensures Of(KeptRecords(run, key, replaced), key) == []
  {
    if run.sparse {
      var unvisited := Filter(run.records, (r: Record) => OtherKey(r, key));
      FilterNone(unvisited, (r: Record) => r.key == key);
      if replaced.Some? && run.previous[replaced.value].key != key {
        var h := run.previous[replaced.value];
        FilterNone(Filter(unvisited, (r: Record) => OtherCall(r, h)), (r: Record) => r.key == key);
      }
    }
  }

  lemma KeptDonor(run: Run, key: Key, donor: nat)
    requires run.sparse && donor < |run.previous| && run.previous[donor].key != key
    requires forall r :: r in Of(run.records, run.previous[donor].key) ==> r.agent == run.previous[donor].agent
    ensures Of(KeptRecords(run, key, Some(donor)), run.previous[donor].key) == []
  {
    var h := run.previous[donor];
    var unvisited := Filter(run.records, (r: Record) => OtherKey(r, key));
    forall r: Record | r in unvisited && r.key == h.key ensures !OtherCall(r, h) {
      OfMember(run.records, r);
    }
    OfDropped(unvisited, (r: Record) => OtherCall(r, h), h.key);
  }

  /** A replaced call with another key was takeable by this call's prompt, and its key is unvisited. */
  lemma DonorIsUnvisited(run: Run, call: Call, base: seq<Record>)
    requires RunCore(run, base)
    ensures var m := Lookup(run, call); var key := CallKey(run, call);
      m.replaced.Some? && run.previous[m.replaced.value].key != key ==>
        && run.sparse && Donatable(run, m.replaced.value)
        && !Visited(run.slots, run.previous[m.replaced.value].key)
  {
    var m, key := Lookup(run, call), CallKey(run, call);
    if m.replaced.Some? && run.previous[m.replaced.value].key != key {
      var donor := run.previous[m.replaced.value].key;
      assert Donatable(run, m.replaced.value);
      assert forall i :: 0 <= i < |run.slots| ==> run.slots[i].key != donor;
    }
  }

  lemma DonorAgents(run: Run, base: seq<Record>, m: nat)
    requires RunInv(run, base) && run.sparse && m < |run.previous| && !Visited(run.slots, run.previous[m].key)
    ensures forall r :: r in Of(run.records, run.previous[m].key) ==> r.agent == run.previous[m].agent
  {
    var key := run.previous[m].key;
    assert forall r :: r in Of(base, key) ==> r.agent == run.previous[m].agent;
  }

  /** The slot `admit` adds. */
  function NewSlot(run: Run, call: Call): Slot {
    var key, m := CallKey(run, call), Lookup(run, call);
    Slot(key, call.agent,
      if m.hit.Some? then Reused(m.hit.value, Replay(run.previous[m.hit.value], key, call.agent)) else Open)
  }

  lemma AdmitRecords(run: Run, call: Call)
    ensures var r := Admit(run, call).0; var slot := NewSlot(run, call);
      && r.records == KeptRecords(run, slot.key, Lookup(run, call).replaced) + SlotRecords(slot)
      && r.slots == run.slots + [slot] && r.previousKey == slot.key
      && Narrower(run, r)
  {
  }

  lemma SlotRecordsKey(slot: Slot, key: Key)
    requires slot.fate.Reused? ==> slot.fate.replayed.key == slot.key
    requires slot.fate.Recorded? ==> slot.fate.record.key == slot.key
    ensures Of(SlotRecords(slot), key) == if key == slot.key then SlotRecords(slot) else []
  {
    if key == slot.key {
      FilterAll(SlotRecords(slot), (r: Record) => r.key == key);
    } else {
      FilterNone(SlotRecords(slot), (r: Record) => r.key == key);
    }
  }

  /** Admission keeps the records of every visited call. */
  lemma VisitedStays(run: Run, call: Call, base: seq<Record>, i: nat)
    requires RunCore(run, base) && i < |run.slots|
    ensures Of(KeptRecords(run, CallKey(run, call), Lookup(run, call).replaced), run.slots[i].key) ==
      SlotRecords(run.slots[i])
    ensures run.slots[i].key != CallKey(run, call)
  {
    NewKeyUnvisited(run.slots, call.prompt, call.options);
    DonorIsUnvisited(run, call, base);
    assert Visited(run.slots, run.slots[i].key);
    KeptOther(run, CallKey(run, call), Lookup(run, call).replaced, run.slots[i].key);
  }

  lemma EmptyWhenFresh(run: Run, base: seq<Record>, key: Key)
    requires RunCore(run, base) && !Visited(run.slots, key)
    ensures !run.sparse ==> Of(run.records, key) == []
  {
  }

  lemma NewKeyHasNoRecords(run: Run, call: Call, base: seq<Record>)
    requires RunCore(run, base)
    ensures Of(KeptRecords(run, CallKey(run, call), Lookup(run, call).replaced), CallKey(run, call)) == []
  {
    NewKeyUnvisited(run.slots, call.prompt, call.options);
    EmptyWhenFresh(run, base, CallKey(run, call));
    KeptSelf(run, CallKey(run, call), Lookup(run, call).replaced);
  }

  lemma AdmitKeepsVisited(run: Run, call: Call, base: seq<Record>)
    requires RunCore(run, base)
    ensures VisitedExact(Admit(run, call).0)
  {
    var r, slot := Admit(run, call).0, NewSlot(run, call);
    AdmitRecords(run, call);
    NewKeyHasNoRecords(run, call, base);
    var kept := KeptRecords(run, slot.key, Lookup(run, call).replaced);
    forall i | 0 <= i < |r.slots| ensures Of(r.records, r.slots[i].key) == SlotRecords(r.slots[i]) {
      OfAppend(kept, SlotRecords(slot), r.slots[i].key);
      SlotRecordsKey(slot, r.slots[i].key);
      if i < |run.slots| {
        VisitedStays(run, call, base, i);
      }
    }
  }

  lemma VisitedAfter(slots: seq<Slot>, slot: Slot, key: Key)
    ensures Visited(slots + [slot], key) <==> Visited(slots, key) || key == slot.key
  {
    var more := slots + [slot];
    assert more[|slots|] == slot;
    assert forall i :: 0 <= i < |slots| ==> more[i] == slots[i];
  }

  /** Consuming call `m` donates exactly its key. */
  lemma DonatedAfter(run: Run, later: Run, m: nat, key: Key)
    requires m < |run.previous| && later.previous == run.previous && later.consumed == run.consumed + {m}
    ensures Donated(later, key) <==> Donated(run, key) || key == run.previous[m].key
  {
    if Donated(run, key) {
      var x: nat :| x in run.consumed && x < |run.previous| && run.previous[x].key == key;
      assert x in later.consumed;
    }
    assert m in later.consumed;
  }

  lemma SameDonated(run: Run, later: Run, key: Key)
    requires later.previous == run.previous && later.consumed == run.consumed
    ensures Donated(later, key) <==> Donated(run, key)
  {
  }

  lemma AdmitKeepsUnvisited(run: Run, call: Call, base: seq<Record>, key: Key)
    requires RunInv(run, base)
    requires !Visited(Admit(run, call).0.slots, key)
    ensures var r := Admit(run, call).0; Of(r.records, key) == if Donated(r, key) then [] else Of(base, key)
  {
    var r, slot, m := Admit(run, call).0, NewSlot(run, call), Lookup(run, call);
    AdmitRecords(run, call);
    VisitedAfter(run.slots, slot, key);
    var kept := KeptRecords(run, slot.key, m.replaced);
    OfAppend(kept, SlotRecords(slot), key);
    SlotRecordsKey(slot, key);
    DonorIsUnvisited(run, call, base);
    assert Of(run.records, key) == if Donated(run, key) then [] else Of(base, key);
    if m.replaced.Some? {
      DonatedAfter(run, r, m.replaced.value, key);
      if run.previous[m.replaced.value].key == key {
        DonorAgents(run, base, m.replaced.value);
        KeptDonor(run, slot.key, m.replaced.value);
      } else {
        KeptOther(run, slot.key, m.replaced, key);
      }
    } else {
      SameDonated(run, r, key);
      KeptOther(run, slot.key, m.replaced, key);
    }
  }

  /** Once its key is visited, a historical call is consumed or can no longer be proved. */
  lemma AdmitFencesItsKey(run: Run, call: Call, m: nat)
    requires run.sparse ==> FirstsMarked(run.previous)
    requires m < |run.previous| && run.previous[m].key == CallKey(run, call)
    ensures !Donatable(Admit(run, call).0, m)
  {
    var r := Admit(run, call).0;
    AdmitRecords(run, call);
    if Donatable(r, m) {
      DonatableShrinks(run, r, m);
    }
  }

  lemma AdmitKeepsFence(run: Run, call: Call, base: seq<Record>)
    requires RunInv(run, base)
    ensures Fenced(Admit(run, call).0)
  {
    var r := Admit(run, call).0;
    AdmitRecords(run, call);
    forall i, m: nat | 0 <= i < |r.slots| && m < |r.previous| && r.previous[m].key == r.slots[i].key
      ensures !Donatable(r, m)
    {
      if i < |run.slots| {
        assert !Donatable(run, m);
        if Donatable(r, m) {
          DonatableShrinks(run, r, m);
        }
      } else {
        AdmitFencesItsKey(run, call, m);
      }
    }
  }

  lemma AdmitKeepsKnown(run: Run, call: Call)
    requires ConsumedKnown(run)
    ensures ConsumedKnown(Admit(run, call).0)
  {
    var m := Lookup(run, call);
    assert m.replaced.Some? ==> !Bare(run.previous[m.replaced.value]);
  }

  lemma AdmitKeepsSlots(run: Run, call: Call)
    requires Chained(run.slots) && run.previousKey == LastKey(run.slots) && forall slot :: slot in run.slots ==>
      SlotValid(slot)
    ensures var r := Admit(run, call).0;
      Chained(r.slots) && r.previousKey == LastKey(r.slots) && forall slot :: slot in r.slots ==> SlotValid(slot)
  {
    AdmitRecords(run, call);
    ChainGrows(run.slots, NewSlot(run, call));
    assert forall x :: x in Admit(run, call).0.slots ==> x in run.slots || x == NewSlot(run, call);
  }

  lemma AdmitKeepsCore(run: Run, call: Call, base: seq<Record>)
    requires RunCore(run, base) && Fenced(Admit(run, call).0) && UnvisitedKept(Admit(run, call).0, base)
    ensures RunCore(Admit(run, call).0, base)
  {
    AdmitRecords(run, call);
    AdmitKeepsSlots(run, call);
    AdmitKeepsVisited(run, call, base);
    AdmitKeepsKnown(run, call);
  }

  lemma AdmitKeepsInv(run: Run, call: Call, base: seq<Record>)
    requires RunInv(run, base)
    ensures RunInv(Admit(run, call).0, base)
  {
    var r := Admit(run, call).0;
    AdmitRecords(run, call);
    AdmitKeepsFence(run, call, base);
    forall key: Key | !Visited(r.slots, key) ensures Of(r.records, key) == if Donated(r, key) then []
      else Of(base, key) {
      AdmitKeepsUnvisited(run, call, base, key);
    }
    AdmitKeepsCore(run, call, base);
  }

  // ---------------------------------------------------------------------------------------------
  // The other mutations
  // ---------------------------------------------------------------------------------------------

  lemma SameKeysChained(slots: seq<Slot>, i: nat, slot: Slot)
    requires Chained(slots) && i < |slots| && slot.key == slots[i].key
    ensures Chained(slots[i := slot]) && LastKey(slots[i := slot]) == LastKey(slots)
    ensures forall key: Key :: Visited(slots[i := slot], key) <==> Visited(slots, key)
  {
    var after := slots[i := slot];
    forall j | 0 <= j < |after| ensures after[j].key.Link? && after[j].key.previous == LastKey(after[..j]) {
      assert LastKey(after[..j]) == LastKey(slots[..j]);
    }
    forall key: Key ensures Visited(after, key) <==> Visited(slots, key) {
      if Visited(slots, key) {
        var j :| 0 <= j < |slots| && slots[j].key == key;
        assert after[j].key == key;
      }
      if Visited(after, key) {
        var j :| 0 <= j < |after| && after[j].key == key;
        assert slots[j].key == key;
      }
    }
  }

  lemma DistinctSlotKeys(slots: seq<Slot>, i: nat, j: nat)
    requires Chained(slots) && i < |slots| && j < |slots| && slots[i].key == slots[j].key
    ensures i == j
  {
    ChainDepth(slots, i);
    ChainDepth(slots, j);
  }

  /** `after` is `run` with result `r` recorded for open slot `i`. */
  ghost predicate Fills(run: Run, i: nat, r: Record, after: Run) {
    && i < |run.slots| && run.slots[i].fate.Open?
    && r.Result? && r.key == run.slots[i].key && r.agent == run.slots[i].agent
    && after.slots == run.slots[i := run.slots[i].(fate := Recorded(r))] && after.records == run.records + [r]
    && Narrower(run, after) && after.consumed == run.consumed && after.previousKey == run.previousKey
  }

  lemma ResultKeepsVisited(run: Run, i: nat, r: Record, after: Run)
    requires Chained(run.slots) && VisitedExact(run) && Fills(run, i, r, after)
    ensures VisitedExact(after)
  {
    forall j | 0 <= j < |after.slots| ensures Of(after.records, after.slots[j].key) == SlotRecords(after.slots[j]) {
      OfPush(run.records, r, run.slots[j].key);
      if run.slots[j].key == r.key {
        DistinctSlotKeys(run.slots, i, j);
      }
    }
  }

  lemma ResultKeepsUnvisited(run: Run, base: seq<Record>, i: nat, r: Record, after: Run)
    requires UnvisitedKept(run, base) && i < |run.slots| && r.key == run.slots[i].key
    requires forall key: Key :: Visited(after.slots, key) <==> Visited(run.slots, key)
    requires after.records == run.records + [r] && after.previous == run.previous && after.consumed == run.consumed
    ensures UnvisitedKept(after, base)
  {
    forall key: Key | !Visited(after.slots, key)
      ensures Of(after.records, key) == if Donated(after, key) then [] else Of(base, key)
    {
      OfPush(run.records, r, key);
      SameDonated(run, after, key);
      assert Visited(run.slots, r.key);
    }
  }

  lemma ResultKeepsFence(run: Run, after: Run)
    requires Fenced(run) && Narrower(run, after) && |after.slots| == |run.slots|
    requires forall j :: 0 <= j < |run.slots| ==> after.slots[j].key == run.slots[j].key
    ensures Fenced(after)
  {
    forall j, m: nat | 0 <= j < |after.slots| && m < |after.previous| && after.previous[m].key == after.slots[j].key
      ensures !Donatable(after, m)
    {
      assert !Donatable(run, m);
      if Donatable(after, m) {
        DonatableShrinks(run, after, m);
      }
    }
  }

  /** Recording a result fills an open slot and touches nothing else. */
  lemma ResultKeepsInv(run: Run, base: seq<Record>, i: nat, r: Record, after: Run)
    requires RunInv(run, base) && Fills(run, i, r, after)
    ensures RunInv(after, base)
  {
    SameKeysChained(run.slots, i, run.slots[i].(fate := Recorded(r)));
    assert forall slot :: slot in after.slots ==> slot in run.slots || slot == run.slots[i].(fate := Recorded(r));
    ResultKeepsVisited(run, i, r, after);
    ResultKeepsUnvisited(run, base, i, r, after);
    ResultKeepsFence(run, after);
  }

  /** Session mutations do not touch the records. */
  lemma SessionsKeepInv(run: Run, base: seq<Record>, sessions: seq<Session>)
    requires RunInv(run, base)
    ensures RunInv(run.(sessions := sessions), base)
  {
    var after := run.(sessions := sessions);
    ResultKeepsFence(run, after);
    forall key: Key { SameDonated(run, after, key); }
  }

  lemma RecordResultFills(run: Run, index: nat, key: Key, agent: Agent, value: Value, successful: Option<bool>,
      gap: bool)
    ensures var after := RecordResult(run, index, key, agent, value, successful, gap);
      after.Some? ==> Fills(run, index,
        Result(key, agent, value, Some(if successful.Some? then successful.value else !value.NullValue?), gap),
        after.value)
  {
  }

  lemma RecordResultKeepsInv(run: Run, base: seq<Record>, index: nat, key: Key, agent: Agent, value: Value,
      successful: Option<bool>, gap: bool)
    requires RunInv(run, base)
    ensures var after := RecordResult(run, index, key, agent, value, successful, gap);
      after.Some? ==> RunInv(after.value, base)
  {
    RecordResultFills(run, index, key, agent, value, successful, gap);
    var after := RecordResult(run, index, key, agent, value, successful, gap);
    if after.Some? {
      ResultKeepsInv(run, base, index, after.value.records[|run.records|], after.value);
    }
  }

  lemma StepKeepsInv(run: Run, op: Op, base: seq<Record>)
    requires RunInv(run, base)
    ensures RunInv(Apply(run, op), base)
  {
    match op
    case AdmitOp(call) => AdmitKeepsInv(run, call, base);
    case ResultOp(index, key, agent, value, successful, gap) =>
      RecordResultKeepsInv(run, base, index, key, agent, value, successful, gap);
    case SessionOp(index, key, agent, thread) =>
      var after := RecordSession(run, index, key, agent, thread);
      if after.Some? {
        SessionsKeepInv(run, base, after.value.sessions);
      }
    case DiscardOp(index, key, agent) =>
      var after := DiscardSession(run, index, key, agent);
      if after.Some? {
        SessionsKeepInv(run, base, after.value.sessions);
      }
  }

  lemma {:induction false} RunKeepsInv(run: Run, ops: seq<Op>, base: seq<Record>)
    requires RunInv(run, base)
    ensures RunInv(ApplyAll(run, ops), base)
    decreases |ops|
  {
    if ops != [] {
      StepKeepsInv(run, ops[0], base);
      RunKeepsInv(Apply(run, ops[0]), ops[1..], base);
    }
  }

  // ---------------------------------------------------------------------------------------------
  // Sparse resume loses nothing
  // ---------------------------------------------------------------------------------------------

  lemma EmptyShaped()
    ensures Shaped([])
  {
    forall key: Key ensures OneCall(Of([], key)) {
      assert Of([], key) == [];
    }
  }

  lemma SlotIsOneCall(slot: Slot)
    requires SlotValid(slot)
    ensures KeyShape(SlotRecords(slot)) && OneCall(SlotRecords(slot))
  {
    var rs := SlotRecords(slot);
    var start := Started(slot.key, slot.agent);
    FilterAppend([start], rs[1..], (r: Record) => r.Result?);
    FilterOne(start, (r: Record) => r.Result?);
    assert rs == [start] + rs[1..];
  }

  /** Whatever happens in a run, what it would leave behind is shaped again. */
  lemma RunStaysShaped(run: Run, base: seq<Record>)
    requires RunCore(run, base) && (run.sparse ==> Shaped(base))
    ensures Shaped(run.records)
  {
    EmptyShaped();
    forall key: Key ensures OneCall(Of(run.records, key)) {
      if Visited(run.slots, key) {
        var i :| 0 <= i < |run.slots| && run.slots[i].key == key;
        SlotIsOneCall(run.slots[i]);
      } else {
        assert OneCall(Of(base, key)) && OneCall(Of([], key));
        assert Of([], key) == [];
      }
    }
  }

  lemma LeavesExactly(run: Run, base: seq<Record>, key: Key)
    requires RunCore(run, base)
    ensures !Visited(run.slots, key) && !Donated(run, key) ==> Of(run.records, key) == Of(base, key)
    ensures forall i :: 0 <= i < |run.slots| && run.slots[i].key == key ==>
      Of(run.records, key) == SlotRecords(run.slots[i]) && KeyShape(Of(run.records, key))
  {
    forall i | 0 <= i < |run.slots| && run.slots[i].key == key ensures KeyShape(SlotRecords(run.slots[i])) {
      SlotIsOneCall(run.slots[i]);
    }
  }

  /** A crash at any point of a sparse run keeps the records of every key not yet re-admitted, unless
      one of its calls gave its result to an admitted call; and each admitted key has exactly one
      started record and at most one result. */
  lemma SparseResumeLosesNothing(p: Snapshot, ops: seq<Op>, gaps: bool, key: Key)
    requires Shaped(p.records)
    ensures var run := ApplyAll(BeginRun(Some(p), p.sourceHash, ExactSourceSparse, gaps), ops);
      var left := SnapshotOf(run);
      && Shaped(left.records)
      && (!Visited(run.slots, key) && !Donated(run, key) ==> Of(left.records, key) == Of(p.records, key))
      && (forall i :: 0 <= i < |run.slots| && run.slots[i].key == key ==>
            Of(left.records, key) == SlotRecords(run.slots[i]) && KeyShape(Of(left.records, key)))
  {
    var begun := BeginRun(Some(p), p.sourceHash, ExactSourceSparse, gaps);
    BeginKeepsInv(p, p.sourceHash, ExactSourceSparse, gaps);
    RunKeepsInv(begun, ops, p.records);
    var run := ApplyAll(begun, ops);
    RunStaysShaped(run, p.records);
    LeavesExactly(run, p.records, key);
  }
}

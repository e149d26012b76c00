/**
  The resume journal of src/workflowJournal.ts: what a run of it computes from the snapshot it begins
  with. A call key is kept as the chain it hashes, so that equal keys mean equal chains; JournalKey.dfy
  shows that the hashed text determines the chain.
 */
module JournalModel {
  import opened Common

  datatype Text = Text(chars: string)

  /** A chained call key: the previous key, the prompt and the canonical execution options. */
  datatype Key = Root | Link(previous: Key, prompt: Text, options: Text)

  datatype Agent = Agent(name: string)

  /** A call result; a placeholder is what stands in for a failed agent. */
  datatype Value = NullValue | FailurePlaceholder(details: Text) | Plain(content: Text)

  datatype Record =
    | Started(key: Key, agent: Agent)
    | Result(key: Key, agent: Agent, value: Value, successful: Option<bool>, coverageGap: bool)

  datatype Session = Session(key: Key, agent: Agent, thread: Text)

  /** `promptKey` is a hash of the prompt alone; the hash is injective, so the prompt stands for it. */
  datatype Imported = Imported(key: Key, agent: Agent, promptKey: Text)

  datatype Snapshot = Snapshot(
    sourceHash: Text,
    records: seq<Record>,
    sessions: seq<Session>,
    importedCalls: Option<seq<Imported>>)

  datatype Call = Call(agent: Agent, prompt: Text, options: Text)

  // ---------------------------------------------------------------------------------------------
  // History
  // ---------------------------------------------------------------------------------------------

  datatype Historical = Historical(
    key: Key,
    agent: Agent,
    result: Option<Record>,
    session: Option<Text>,
    importedPrompt: Option<Text>)

  predicate SameCall(h: Historical, key: Key, agent: Agent) {
    h.key == key && h.agent == agent
  }

  /** The oldest call with this identity that has no result yet, or the length. */
  function FirstOpen(calls: seq<Historical>, key: Key, agent: Agent): (i: nat)
    ensures i <= |calls|
    ensures i < |calls| ==> SameCall(calls[i], key, agent) && calls[i].result.None?
    ensures forall j :: 0 <= j < i ==> !(SameCall(calls[j], key, agent) && calls[j].result.None?)
  {
    if calls == [] then 0
    else if SameCall(calls[0], key, agent) && calls[0].result.None? then 0
    else
      assert calls == [calls[0]] + calls[1..];
      1 + FirstOpen(calls[1..], key, agent)
  }

  /** The oldest call with this identity, or the length. */
  function FirstSame(calls: seq<Historical>, key: Key, agent: Agent): (i: nat)
    ensures i <= |calls|
  {
    if calls == [] || SameCall(calls[0], key, agent) then 0 else 1 + FirstSame(calls[1..], key, agent)
  }

  function Observe(calls: seq<Historical>, r: Record): seq<Historical> {
    match r
    case Started(key, agent) => calls + [Historical(key, agent, None, None, None)]
    case Result(key, agent, _, _, _) =>
      var i := FirstOpen(calls, key, agent);
      if i < |calls| then calls[i := calls[i].(result := Some(r))] else calls
  }

  /** The calls the records describe; a result without an open start is ignored. */
  function Calls(records: seq<Record>): seq<Historical> {
    if records == [] then [] else Observe(Calls(records[..|records| - 1]), records[|records| - 1])
  }

  function WithSessions(calls: seq<Historical>, sessions: seq<Session>): (r: seq<Historical>)
    ensures |r| == |calls|
    ensures forall i :: 0 <= i < |calls| ==>
      r[i].key == calls[i].key && r[i].agent == calls[i].agent &&
      r[i].result == calls[i].result
    decreases |sessions|
  {
    if sessions == [] then calls
    else
      var s := sessions[0];
      var i := FirstSame(calls, s.key, s.agent);
      WithSessions(if i < |calls| then calls[i := calls[i].(session := Some(s.thread))] else calls, sessions[1..])
  }

  function WithImports(calls: seq<Historical>, imports: seq<Imported>): (r: seq<Historical>)
    ensures |r| == |calls|
    ensures forall i :: 0 <= i < |calls| ==>
      r[i].key == calls[i].key && r[i].agent == calls[i].agent &&
      r[i].result == calls[i].result
    decreases |imports|
  {
    if imports == [] then calls
    else
      var m := imports[0];
      var i := FirstSame(calls, m.key, m.agent);
      WithImports(if i < |calls| then calls[i := calls[i].(importedPrompt := Some(m.promptKey))]
        else calls, imports[1..])
  }

  function ImportsOf(s: Snapshot): seq<Imported> {
    if s.importedCalls.Some? then s.importedCalls.value else []
  }

  function HistoricalCalls(s: Snapshot): (r: seq<Historical>)
    ensures |r| == |Calls(s.records)|
    ensures forall i :: 0 <= i < |r| ==>
      r[i].key == Calls(s.records)[i].key && r[i].agent == Calls(s.records)[i].agent &&
        r[i].result == Calls(s.records)[i].result
  {
    WithImports(WithSessions(Calls(s.records), s.sessions), ImportsOf(s))
  }

  /** A stored result that may be replayed; a coverage gap only when the caller asks for gaps. */
  predicate ReusableRecord(r: Record, gaps: bool) {
    r.Result? && if r.coverageGap then gaps else if r.successful.Some? then r.successful.value else !r.value.NullValue?
  }

  predicate Reusable(h: Historical, gaps: bool) {
    h.result.Some? && ReusableRecord(h.result.value, gaps)
  }

  // ---------------------------------------------------------------------------------------------
  // A run
  // ---------------------------------------------------------------------------------------------

  /** What became of an admitted call: replayed from history, still open, or recorded. */
  datatype Fate = Reused(source: nat, replayed: Record) | Open | Recorded(record: Record)

  datatype Slot = Slot(key: Key, agent: Agent, fate: Fate)

  datatype Run = Run(
    sourceHash: Text,
    previous: seq<Historical>,
    records: seq<Record>,
    sessions: seq<Session>,
    importedCalls: seq<Imported>,
    slots: seq<Slot>,
    consumed: set<nat>,
    previousKey: Key,
    canReusePrefix: bool,
    sparse: bool,
    gaps: bool,
    tracking: bool,
    proofHashes: nat,
    proofBytes: nat)

  datatype Mode = LongestPrefix | ExactSourceSparse

  const MAX_PROOF_HASHES := 100_000
  const MAX_PROOF_BYTES := 128 * 1024 * 1024

  function BeginRun(previous: Option<Snapshot>, sourceHash: Text, mode: Mode, gaps: bool): Run {
    match previous
    case None => Run(sourceHash, [], [], [], [], [], {}, Root, false, false, gaps, false, MAX_PROOF_HASHES,
      MAX_PROOF_BYTES)
    case Some(p) =>
      var sparse := mode.ExactSourceSparse? && p.sourceHash == sourceHash;
      Run(sourceHash, HistoricalCalls(p),
        if sparse then p.records else [],
        if sparse then p.sessions else [],
        if sparse then ImportsOf(p) else [],
        [], {}, Root, true, sparse, gaps, p.importedCalls.Some?, MAX_PROOF_HASHES, MAX_PROOF_BYTES)
  }

  /** What a crash would leave behind. */
  function SnapshotOf(run: Run): Snapshot {
    Snapshot(run.sourceHash, run.records, run.sessions, if run.tracking then Some(run.importedCalls) else None)
  }

  function CallKey(run: Run, call: Call): Key {
    Link(run.previousKey, call.prompt, call.options)
  }

  predicate DirectCandidate(run: Run, key: Key, i: nat)
    requires i < |run.previous|
  {
    run.previous[i].key == key && i !in run.consumed && Reusable(run.previous[i], run.gaps)
  }

  /** The first unconsumed, reusable historical call with this key, or the length. */
  function FindDirect(run: Run, key: Key, from: nat): (i: nat)
    requires from <= |run.previous|
    ensures from <= i <= |run.previous|
    ensures i < |run.previous| ==> DirectCandidate(run, key, i)
    ensures forall j :: from <= j < i ==> !DirectCandidate(run, key, j)
    decreases |run.previous| - from
  {
    if from == |run.previous| || DirectCandidate(run, key, from) then from else FindDirect(run, key, from + 1)
  }

  /** The first historical call with this prompt hash, or the length. */
  function FindPrompt(calls: seq<Historical>, prompt: Text, from: nat): (i: nat)
    requires from <= |calls|
    ensures from <= i <= |calls|
    ensures i < |calls| ==> calls[i].importedPrompt == Some(prompt)
    decreases |calls| - from
  {
    if from == |calls| || calls[from].importedPrompt == Some(prompt) then from else FindPrompt(calls, prompt, from + 1)
  }

  /** The only historical call with this prompt hash, if there is exactly one. */
  function UniqueImport(calls: seq<Historical>, prompt: Text): (r: Option<nat>)
    ensures r.Some? ==> r.value < |calls| && calls[r.value].importedPrompt == Some(prompt)
  {
    var i := FindPrompt(calls, prompt, 0);
    if i < |calls| && FindPrompt(calls, prompt, i + 1) == |calls| then Some(i) else None
  }

  /** UTF-8 length of one Unicode scalar value. */
  function CharBytes(c: char): nat {
    if c < 0x80 as char then 1 else if c < 0x800 as char then 2 else if c < 0x1_0000 as char then 3 else 4
  }

  function Utf8Length(s: string): nat {
    if s == "" then 0 else CharBytes(s[0]) + Utf8Length(s[1..])
  }

  /** Keys print as nothing for the root and as `v2:` and 64 hexadecimal digits otherwise. */
  function KeyBytes(key: Key): nat {
    if key.Root? then 0 else 67
  }

  /** The outcome of a proof search and the budgets it leaves. */
  datatype Search = Search(found: bool, hashes: nat, bytes: nat)

  /** Try each historical key as the predecessor that `target` was hashed from, within both budgets. */
  function Prove(keys: seq<Key>, target: Key, prompt: Text, options: Text, shared: nat, hashes: nat,
      bytes: nat): (r: Search)
    ensures r.hashes <= hashes && r.bytes <= bytes
    ensures r.found ==> target.Link? && target.prompt == prompt && target.options == options && target.previous in keys
    decreases |keys|
  {
    if keys == [] || hashes == 0 || shared + KeyBytes(keys[0]) > bytes then Search(false, hashes, bytes)
    else
      var left := bytes - (shared + KeyBytes(keys[0]));
      if Link(keys[0], prompt, options) == target then Search(true, hashes - 1, left)
      else Prove(keys[1..], target, prompt, options, shared, hashes - 1, left)
  }

  /** The distinct keys of history in order of first appearance. */
  function DistinctKeys(calls: seq<Historical>): (r: seq<Key>)
    ensures forall k :: k in r ==> exists h :: h in calls && h.key == k
  {
    if calls == [] then []
    else
      var rest := DistinctKeys(calls[..|calls| - 1]);
      assert calls == calls[..|calls| - 1] + [calls[|calls| - 1]];
      if calls[|calls| - 1].key in rest then rest else rest + [calls[|calls| - 1].key]
  }

  function SharedBytes(prompt: Text, options: Text): nat {
    Utf8Length(prompt.chars) + Utf8Length(options.chars) + 2
  }

  function ImportProof(run: Run, i: nat, prompt: Text, options: Text): Search
    requires i < |run.previous|
  {
    Prove([Root] + DistinctKeys(run.previous), run.previous[i].key, prompt, options, SharedBytes(prompt, options),
      run.proofHashes, run.proofBytes)
  }

  /** The lookup half of `admit`: the replayable call, the replaced call, and the budgets left. */
  datatype Match = Match(hit: Option<nat>, replaced: Option<nat>, hashes: nat, bytes: nat)

  function Lookup(run: Run, call: Call): (m: Match)
    ensures m.replaced.Some? ==> m.replaced.value < |run.previous| && m.replaced.value !in run.consumed
    ensures m.hit.Some? ==> m.hit == m.replaced && Reusable(run.previous[m.hit.value], run.gaps)
    ensures m.hashes <= run.proofHashes && m.bytes <= run.proofBytes
  {
    var direct := if run.canReusePrefix || run.sparse then FindDirect(run, CallKey(run, call), 0) else |run.previous|;
    if direct < |run.previous| then Match(Some(direct), Some(direct), run.proofHashes, run.proofBytes)
    else if run.sparse && run.tracking then
      var candidate := UniqueImport(run.previous, call.prompt);
      if candidate.Some? && candidate.value !in run.consumed then
        var proof := ImportProof(run, candidate.value, call.prompt, call.options);
        if proof.found then
          Match(if Reusable(run.previous[candidate.value], run.gaps) then candidate else None, candidate,
            proof.hashes, proof.bytes)
        else Match(None, None, proof.hashes, proof.bytes)
      else Match(None, None, run.proofHashes, run.proofBytes)
    else Match(None, None, run.proofHashes, run.proofBytes)
  }

  /** The first historical call with this key that has a provider session, or the length. */
  function FindSession(calls: seq<Historical>, key: Key, from: nat): (i: nat)
    requires from <= |calls|
    ensures from <= i <= |calls|
    ensures i < |calls| ==> calls[i].key == key && calls[i].session.Some?
    decreases |calls| - from
  {
    if from == |calls| || (calls[from].key == key && calls[from].session.Some?) then from
    else FindSession(calls, key, from + 1)
  }

  function ResumableSession(run: Run, key: Key): Option<Text> {
    var i := if run.canReusePrefix || run.sparse then FindSession(run.previous, key, 0) else |run.previous|;
    if i < |run.previous| then run.previous[i].session else None
  }

  datatype Decision =
    | Miss(callIndex: nat, key: Key, agent: Agent, providerSession: Option<Text>)
    | Hit(callIndex: nat, key: Key, agent: Agent, sourceAgent: Agent, value: Value, coverageGap: bool)

  predicate OtherKey(r: Record, key: Key) {
    r.key != key
  }

  predicate OtherCall(r: Record, h: Historical) {
    !(r.key == h.key && r.agent == h.agent)
  }

  /** The records kept when `key` is visited and `replaced` is consumed under it. */
  function KeptRecords(run: Run, key: Key, replaced: Option<nat>): seq<Record>
    requires replaced.Some? ==> replaced.value < |run.previous|
  {
    if !run.sparse then run.records
    else
      var unvisited := Filter(run.records, (r: Record) => OtherKey(r, key));
      if replaced.Some? && run.previous[replaced.value].key != key then
        var h := run.previous[replaced.value];
        Filter(unvisited, (r: Record) => OtherCall(r, h))
      else unvisited
  }

  function KeptSessions(run: Run, key: Key): seq<Session> {
    if run.sparse then Filter(run.sessions, (s: Session) => s.key != key) else run.sessions
  }

  predicate OtherImport(m: Imported, key: Key, replaced: Option<Historical>) {
    !(m.key == key || (replaced.Some? && m.key == replaced.value.key && m.agent == replaced.value.agent))
  }

  function KeptImports(run: Run, key: Key, call: Call, replaced: Option<nat>): seq<Imported>
    requires replaced.Some? ==> replaced.value < |run.previous|
  {
    if !run.tracking then run.importedCalls
    else
      var gone := if replaced.Some? then Some(run.previous[replaced.value]) else None;
      Filter(run.importedCalls, (m: Imported) => OtherImport(m, key, gone)) + [Imported(key, call.agent, call.prompt)]
  }

  /** The result record a replay writes under the current key. */
  function Replay(h: Historical, key: Key, agent: Agent): Record
    requires h.result.Some? && h.result.value.Result?
  {
    var gap := h.result.value.coverageGap;
    Result(key, agent, h.result.value.value, Some(!gap), gap)
  }

  function Admit(run: Run, call: Call): (r: (Run, Decision)) {
    var key := CallKey(run, call);
    var m := Lookup(run, call);
    var started := KeptRecords(run, key, m.replaced) + [Started(key, call.agent)];
    var common := run.(
      sessions := KeptSessions(run, key),
      importedCalls := KeptImports(run, key, call, m.replaced),
      consumed := if m.replaced.Some? then run.consumed + {m.replaced.value} else run.consumed,
      previousKey := key,
      proofHashes := m.hashes,
      proofBytes := m.bytes);
    if m.hit.Some? then
      var h := run.previous[m.hit.value];
      var replay := Replay(h, key, call.agent);
      (common.(records := started + [replay], slots := run.slots +
        [Slot(key, call.agent, Reused(m.hit.value, replay))]),
       Hit(|run.slots|, key, call.agent, h.agent, replay.value, replay.coverageGap))
    else
      (common.(records := started, slots := run.slots + [Slot(key, call.agent, Open)],
               canReusePrefix := run.canReusePrefix && run.sparse),
       Miss(|run.slots|, key, call.agent, ResumableSession(run, key)))
  }

  /** `decision` names a call of this run that has no result yet. */
  predicate Unfinished(run: Run, index: nat, key: Key, agent: Agent) {
    index < |run.slots| && run.slots[index] == Slot(key, agent, Open)
  }

  predicate OtherSession(s: Session, key: Key, agent: Agent) {
    !(s.key == key && s.agent == agent)
  }

  function WithoutSession(sessions: seq<Session>, key: Key, agent: Agent): seq<Session> {
    Filter(sessions, (s: Session) => OtherSession(s, key, agent))
  }

  /** `None` where the source throws. */
  function RecordResult(run: Run, index: nat, key: Key, agent: Agent, value: Value, successful: Option<bool>,
      gap: bool): Option<Run> {
    if !Unfinished(run, index, key, agent) then None
    else if gap && !(successful == Some(false) && value.FailurePlaceholder?) then None
    else
      var r := Result(key, agent, value, Some(if successful.Some? then successful.value else !value.NullValue?), gap);
      Some(run.(
        records := run.records + [r],
        sessions := if gap then WithoutSession(run.sessions, key, agent) else run.sessions,
        slots := run.slots[index := Slot(key, agent, Recorded(r))]))
  }

  function FindRecordedSession(sessions: seq<Session>, key: Key, agent: Agent): (i: nat)
    ensures i <= |sessions|
    ensures i < |sessions| ==> sessions[i].key == key && sessions[i].agent == agent
  {
    if sessions == [] || !OtherSession(sessions[0], key, agent) then 0
    else 1 + FindRecordedSession(sessions[1..], key, agent)
  }

  function RecordSession(run: Run, index: nat, key: Key, agent: Agent, thread: Text): Option<Run> {
    if !Unfinished(run, index, key, agent) then None
    else
      var i := FindRecordedSession(run.sessions, key, agent);
      Some(run.(sessions :=
        if i < |run.sessions| then run.sessions[i := Session(key, agent, thread)]
        else run.sessions + [Session(key, agent, thread)]))
  }

  function DiscardSession(run: Run, index: nat, key: Key, agent: Agent): Option<Run> {
    if !Unfinished(run, index, key, agent) then None
    else Some(run.(sessions := WithoutSession(run.sessions, key, agent)))
  }

  datatype Op =
    | AdmitOp(call: Call)
    | ResultOp(index: nat, key: Key, agent: Agent, value: Value, successful: Option<bool>, gap: bool)
    | SessionOp(index: nat, key: Key, agent: Agent, thread: Text)
    | DiscardOp(index: nat, key: Key, agent: Agent)

  /** One mutation; a call that throws changes nothing. */
  function Apply(run: Run, op: Op): Run {
    match op
    case AdmitOp(call) => Admit(run, call).0
    case ResultOp(index, key, agent, value, successful, gap) =>
      var r := RecordResult(run, index, key, agent, value, successful, gap);
      if r.Some? then r.value else run
    case SessionOp(index, key, agent, thread) =>
      var r := RecordSession(run, index, key, agent, thread);
      if r.Some? then r.value else run
    case DiscardOp(index, key, agent) =>
      var r := DiscardSession(run, index, key, agent);
      if r.Some? then r.value else run
  }

  function ApplyAll(run: Run, ops: seq<Op>): Run
    decreases |ops|
  {
    if ops == [] then run else ApplyAll(Apply(run, ops[0]), ops[1..])
  }
}

/** Joining a durable journal with the inherited generation: `mergeSnapshots` of src/persistentWorkflowJournal.ts. */
module JournalMerge {
  import opened Common
  import opened JournalModel
  import R = JournalResume
  import U = JournalReuse
  import L = JournalLoad

  predicate HasKey(records: seq<Record>, key: Key) {
    exists r :: r in records && r.key == key
  }

  predicate HasImport(imports: seq<Imported>, key: Key, agent: Agent) {
    exists m :: m in imports && m.key == key && m.agent == agent
  }

  predicate HasPrompt(imports: seq<Imported>, prompt: Text) {
    exists m :: m in imports && m.promptKey == prompt
  }

  /** The fallback's imported call gave its prompt to another call of the primary. */
  predicate Superseded(primary: seq<Imported>, fallback: seq<Imported>, key: Key, agent: Agent) {
    !HasImport(primary, key, agent) &&
    exists m :: m in fallback && m.key == key && m.agent == agent && HasPrompt(primary, m.promptKey)
  }

  predicate KeepRecord(p: Snapshot, f: Snapshot, r: Record) {
    !HasKey(p.records, r.key) && !Superseded(ImportsOf(p), ImportsOf(f), r.key, r.agent)
  }

  predicate KeepSession(p: Snapshot, f: Snapshot, s: Session) {
    s !in p.sessions && !Superseded(ImportsOf(p), ImportsOf(f), s.key, s.agent)
  }

  predicate KeepImport(p: Snapshot, f: Snapshot, m: Imported) {
    !HasImport(ImportsOf(p), m.key, m.agent) && !Superseded(ImportsOf(p), ImportsOf(f), m.key, m.agent)
  }

  function AddedRecords(p: Snapshot, f: Snapshot): seq<Record> {
    Filter(f.records, (r: Record) => KeepRecord(p, f, r))
  }

  function AddedSessions(p: Snapshot, f: Snapshot): seq<Session> {
    Filter(f.sessions, (s: Session) => KeepSession(p, f, s))
  }

  function AddedImports(p: Snapshot, f: Snapshot): seq<Imported> {
    Filter(ImportsOf(f), (m: Imported) => KeepImport(p, f, m))
  }

  function Merge(p: Snapshot, f: Snapshot): Snapshot {
    Snapshot(p.sourceHash, p.records + AddedRecords(p, f), p.sessions + AddedSessions(p, f),
      if p.importedCalls.None? && f.importedCalls.None? then None else Some(ImportsOf(p) + AddedImports(p, f)))
  }

  /** A fallback that offers nothing new leaves the primary as it is. */
  lemma NothingAdded(p: Snapshot, f: Snapshot)
    requires forall r :: r in f.records ==> !KeepRecord(p, f, r)
    requires forall s :: s in f.sessions ==> !KeepSession(p, f, s)
    requires forall m :: m in ImportsOf(f) ==> !KeepImport(p, f, m)
    requires f.importedCalls.Some? ==> p.importedCalls.Some?
    ensures Merge(p, f) == p
  {
    FilterNone(f.records, (r: Record) => KeepRecord(p, f, r));
    FilterNone(f.sessions, (s: Session) => KeepSession(p, f, s));
    FilterNone(ImportsOf(f), (m: Imported) => KeepImport(p, f, m));
    assert p.records + [] == p.records && p.sessions + [] == p.sessions && ImportsOf(p) + [] == ImportsOf(p);
  }

  /** Opening the sidecar with an inherited snapshot; `None` is the source-mismatch error. */
  function OpenWith(stored: Option<Snapshot>, inherited: Snapshot): Option<Snapshot> {
    if stored.None? then Some(inherited)
    else if stored.value.sourceHash != inherited.sourceHash then None
    else Some(Merge(stored.value, inherited))
  }

  /** Opening is refused exactly when the sidecar is of another source; otherwise everything the sidecar holds is
      kept, first, and without a sidecar the inherited snapshot is taken as it is. */
  lemma OpenedIff(stored: Option<Snapshot>, inherited: Snapshot)
    ensures OpenWith(stored, inherited).None? <==>
      stored.Some? && stored.value.sourceHash != inherited.sourceHash
    ensures var r := OpenWith(stored, inherited);
      r.Some? ==>
        && r.value.sourceHash == inherited.sourceHash
        && (stored.None? ==> r.value == inherited)
        && (stored.Some? ==>
              stored.value.records <= r.value.records && stored.value.sessions <= r.value.sessions &&
              ImportsOf(stored.value) <= ImportsOf(r.value))
  {
  }

  /** A snapshot merged with itself is itself. */
  lemma MergeSelf(p: Snapshot)
    ensures Merge(p, p) == p
  {
    NothingAdded(p, p);
  }

  lemma MergedImports(p: Snapshot, f: Snapshot)
    ensures var q := ImportsOf(Merge(p, f));
      && (forall m :: m in q <==> m in ImportsOf(p) || (m in ImportsOf(f) && KeepImport(p, f, m)))
  {
  }

  /** What the first merge superseded, a second merge supersedes again. */
  lemma SupersededAgain(p: Snapshot, f: Snapshot, key: Key, agent: Agent)
    requires Superseded(ImportsOf(p), ImportsOf(f), key, agent)
    ensures Superseded(ImportsOf(Merge(p, f)), ImportsOf(f), key, agent)
  {
    MergedImports(p, f);
    var q := ImportsOf(Merge(p, f));
    var m :| m in ImportsOf(f) && m.key == key && m.agent == agent && HasPrompt(ImportsOf(p), m.promptKey);
    var x :| x in ImportsOf(p) && x.promptKey == m.promptKey;
    assert x in q;
    assert HasPrompt(q, m.promptKey);
  }

  lemma SecondMergeAddsNoRecord(p: Snapshot, f: Snapshot, r: Record)
    requires r in f.records
    ensures !KeepRecord(Merge(p, f), f, r)
  {
    var q := Merge(p, f);
    if KeepRecord(p, f, r) {
      assert r in q.records;
    } else if HasKey(p.records, r.key) {
      var x :| x in p.records && x.key == r.key;
      assert x in q.records;
    } else {
      SupersededAgain(p, f, r.key, r.agent);
    }
  }

  lemma SecondMergeAddsNoSession(p: Snapshot, f: Snapshot, s: Session)
    requires s in f.sessions
    ensures !KeepSession(Merge(p, f), f, s)
  {
    if KeepSession(p, f, s) || s in p.sessions {
      assert s in Merge(p, f).sessions;
    } else {
      SupersededAgain(p, f, s.key, s.agent);
    }
  }

  lemma SecondMergeAddsNoImport(p: Snapshot, f: Snapshot, m: Imported)
    requires m in ImportsOf(f)
    ensures !KeepImport(Merge(p, f), f, m)
  {
    MergedImports(p, f);
    var q := ImportsOf(Merge(p, f));
    if KeepImport(p, f, m) {
      assert m in q;
    } else if HasImport(ImportsOf(p), m.key, m.agent) {
      var x :| x in ImportsOf(p) && x.key == m.key && x.agent == m.agent;
      assert x in q;
    } else {
      SupersededAgain(p, f, m.key, m.agent);
    }
  }

  /** Recovering again with the same inherited snapshot changes nothing. */
  lemma MergeTwice(p: Snapshot, f: Snapshot)
    ensures Merge(Merge(p, f), f) == Merge(p, f)
  {
    var q := Merge(p, f);
    forall r: Record | r in f.records ensures !KeepRecord(q, f, r) { SecondMergeAddsNoRecord(p, f, r); }
    forall s: Session | s in f.sessions ensures !KeepSession(q, f, s) { SecondMergeAddsNoSession(p, f, s); }
    forall m: Imported | m in ImportsOf(f) ensures !KeepImport(q, f, m) { SecondMergeAddsNoImport(p, f, m); }
    NothingAdded(q, f);
  }

  lemma KeyHasRecords(records: seq<Record>, key: Key)
    ensures HasKey(records, key) <==> R.Of(records, key) != []
  {
    if R.Of(records, key) != [] {
      assert R.Of(records, key)[0] in R.Of(records, key);
    }
    if HasKey(records, key) {
      var r :| r in records && r.key == key;
      assert r in R.Of(records, key);
    }
  }

  function AliveRecords(p: Snapshot, f: Snapshot, records: seq<Record>): seq<Record> {
    Filter(records, (r: Record) => !Superseded(ImportsOf(p), ImportsOf(f), r.key, r.agent))
  }

  lemma AddedOfKey(p: Snapshot, f: Snapshot, key: Key)
    ensures R.Of(AddedRecords(p, f), key) == if HasKey(p.records, key) then []
      else AliveRecords(p, f, R.Of(f.records, key))
  {
    var keep := (r: Record) => KeepRecord(p, f, r);
    var alive := (r: Record) => !Superseded(ImportsOf(p), ImportsOf(f), r.key, r.agent);
    var ofKey := (r: Record) => r.key == key;
    if HasKey(p.records, key) {
      FilterNone(AddedRecords(p, f), ofKey);
    } else {
      assert forall r: Record :: r.key == key ==> keep(r) == alive(r);
      FilterWithin(f.records, keep, ofKey, alive);
    }
  }

  /** Per key: the primary's records have authority; an untouched fallback key keeps all of its
      records in order except those of superseded calls. */
  lemma MergedRecordsOfKey(p: Snapshot, f: Snapshot, key: Key)
    ensures R.Of(Merge(p, f).records, key) ==
      if HasKey(p.records, key) then R.Of(p.records, key) else AliveRecords(p, f, R.Of(f.records, key))
  {
    R.OfAppend(p.records, AddedRecords(p, f), key);
    KeyHasRecords(p.records, key);
    AddedOfKey(p, f, key);
  }

  predicate SameCallOf(m: Imported, key: Key, agent: Agent) {
    m.key == key && m.agent == agent
  }

  ghost predicate Unlisted(imports: seq<Imported>, key: Key, agent: Agent) {
    forall x :: x in imports ==> !SameCallOf(x, key, agent)
  }

  /** Imports of both lists share a prompt, the first under this call. */
  predicate SharedPrompt(m: Imported, x: Imported, key: Key, agent: Agent) {
    SameCallOf(m, key, agent) && x.promptKey == m.promptKey
  }

  /** The primary does not list the call, but lists one of its prompts under another call. */
  ghost predicate Overtaken(p: Snapshot, f: Snapshot, key: Key, agent: Agent) {
    && Unlisted(ImportsOf(p), key, agent)
    && exists m, x :: m in ImportsOf(f) && x in ImportsOf(p) && SharedPrompt(m, x, key, agent)
  }

  lemma UnlistedIff(imports: seq<Imported>, key: Key, agent: Agent)
    ensures HasImport(imports, key, agent) <==> !Unlisted(imports, key, agent)
  {
    if HasImport(imports, key, agent) {
      var x :| x in imports && x.key == key && x.agent == agent;
      assert SameCallOf(x, key, agent);
    }
  }

  lemma OvertakenIff(p: Snapshot, f: Snapshot, key: Key, agent: Agent)
    ensures Superseded(ImportsOf(p), ImportsOf(f), key, agent) <==> Overtaken(p, f, key, agent)
  {
    UnlistedIff(ImportsOf(p), key, agent);
    if Superseded(ImportsOf(p), ImportsOf(f), key, agent) {
      var m :| m in ImportsOf(f) && m.key == key && m.agent == agent && HasPrompt(ImportsOf(p), m.promptKey);
      var x :| x in ImportsOf(p) && x.promptKey == m.promptKey;
      assert SharedPrompt(m, x, key, agent);
    }
    if Overtaken(p, f, key, agent) {
      var m, x :| m in ImportsOf(f) && x in ImportsOf(p) && SharedPrompt(m, x, key, agent);
      assert HasPrompt(ImportsOf(p), m.promptKey);
    }
  }

  /** It comes from the primary, or from the fallback when it is kept. */
  ghost predicate FromEither<T>(x: T, primary: seq<T>, fallback: seq<T>, kept: bool) {
    x in primary || (x in fallback && kept)
  }

  /** The primary's imports and sessions come first and stay; of the fallback's, those survive whose call the
      primary has not overtaken, and imports only where the primary does not list the call itself. */
  lemma MergedListsIff(p: Snapshot, f: Snapshot)
    ensures var q := Merge(p, f);
      && ImportsOf(p) <= ImportsOf(q) && p.sessions <= q.sessions && q.sourceHash == p.sourceHash
      && (q.importedCalls.Some? <==> p.importedCalls.Some? || f.importedCalls.Some?)
      && (forall m :: m in ImportsOf(q) <==> FromEither(m, ImportsOf(p), ImportsOf(f),
            Unlisted(ImportsOf(p), m.key, m.agent) && !Overtaken(p, f, m.key, m.agent)))
      && (forall s :: s in q.sessions <==> FromEither(s, p.sessions, f.sessions, !Overtaken(p, f, s.key, s.agent)))
  {
    var q := Merge(p, f);
    MergedImports(p, f);
    forall m: Imported ensures m in ImportsOf(q) <==> FromEither(m, ImportsOf(p), ImportsOf(f),
      Unlisted(ImportsOf(p), m.key, m.agent) && !Overtaken(p, f, m.key, m.agent)) {
      UnlistedIff(ImportsOf(p), m.key, m.agent);
      OvertakenIff(p, f, m.key, m.agent);
    }
    forall s: Session
      ensures s in q.sessions <==> FromEither(s, p.sessions, f.sessions, !Overtaken(p, f, s.key, s.agent))
    {
      OvertakenIff(p, f, s.key, s.agent);
    }
  }

  /** A record of the fallback survives when the primary has none of its key and has not overtaken its call. */
  lemma MergedRecordsIff(p: Snapshot, f: Snapshot, r: Record)
    ensures p.records <= Merge(p, f).records
    ensures r in Merge(p, f).records <==> FromEither(r, p.records, f.records,
      (forall x :: x in p.records ==> x.key != r.key) && !Overtaken(p, f, r.key, r.agent))
  {
    OvertakenIff(p, f, r.key, r.agent);
  }

  /** A superseded call loses its start and its result together. */
  lemma OneCallFilters(rs: seq<Record>, p: Snapshot, f: Snapshot, key: Key)
    requires R.OneCall(rs) && forall r :: r in rs ==> r.key == key
    ensures var kept := AliveRecords(p, f, rs); kept == rs || kept == []
  {
    var alive := (r: Record) => !Superseded(ImportsOf(p), ImportsOf(f), r.key, r.agent);
    if rs != [] {
      assert forall r :: r in rs ==> r.agent == rs[0].agent;
      if alive(rs[0]) {
        FilterAll(rs, alive);
      } else {
        FilterNone(rs, alive);
      }
    }
  }

  /** Joining two shaped generations is shaped, so a recovered run starts from a well-formed history. */
  lemma MergeStaysShaped(p: Snapshot, f: Snapshot)
    requires R.Shaped(p.records) && R.Shaped(f.records)
    ensures R.Shaped(Merge(p, f).records)
  {
    forall key: Key ensures R.OneCall(R.Of(Merge(p, f).records, key)) {
      MergedRecordsOfKey(p, f, key);
      assert R.OneCall(R.Of(p.records, key)) && R.OneCall(R.Of(f.records, key));
      if !HasKey(p.records, key) {
        OneCallFilters(R.Of(f.records, key), p, f, key);
      }
    }
  }

  // ---------------------------------------------------------------------------------------------
  // Coverage gaps and sessions
  // ---------------------------------------------------------------------------------------------

  predicate GapOf(r: Record, s: Session) {
    r.Result? && r.coverageGap && r.key == s.key && r.agent == s.agent
  }

  /** One side keeps a coverage gap for a call whose session the other side keeps. */
  ghost predicate GapMeetsSession(p: Snapshot, f: Snapshot) {
    || (exists r, s :: r in p.records && s in f.sessions && KeepSession(p, f, s) && GapOf(r, s))
    || (exists r, s :: r in f.records && s in p.sessions && KeepRecord(p, f, r) && GapOf(r, s))
  }

  /** Joining two journals without a gap beside a session keeps them apart exactly when neither side's gap
      meets a session that the other side keeps. */
  lemma MergeKeepsGapsIff(p: Snapshot, f: Snapshot)
    requires U.GapsSessionless(p.records, p.sessions) && U.GapsSessionless(f.records, f.sessions)
    ensures var q := Merge(p, f); U.GapsSessionless(q.records, q.sessions) <==> !GapMeetsSession(p, f)
  {
    var q := Merge(p, f);
    assert forall r :: r in q.records <==> r in p.records || (r in f.records && KeepRecord(p, f, r));
    assert forall s :: s in q.sessions <==> s in p.sessions || (s in f.sessions && KeepSession(p, f, s));
    if !GapMeetsSession(p, f) {
      forall r, s | r in q.records && s in q.sessions ensures !GapOf(r, s) {
      }
    }
  }

  const EMPTY := Text("")
  const CALL := Link(Root, EMPTY, EMPTY)
  const AGENT := Agent("a")
  const GAP := Result(CALL, AGENT, FailurePlaceholder(EMPTY), Some(false), true)

  /** The stored journal gave a call up and dropped its session; the inherited one still has the session,
      and joining them brings it back beside the gap. */
  lemma MergeCanRejoin()
    ensures var p := Snapshot(EMPTY, [Started(CALL, AGENT), GAP], [], None);
      var f := Snapshot(EMPTY, [Started(CALL, AGENT)], [Session(CALL, AGENT, EMPTY)], None);
      && L.GapsLegal(p.records)
      && U.GapsSessionless(p.records, p.sessions) && U.GapsSessionless(f.records, f.sessions)
      && var q := Merge(p, f); !U.GapsSessionless(q.records, q.sessions)
  {
    var p := Snapshot(EMPTY, [Started(CALL, AGENT), GAP], [], None);
    var f := Snapshot(EMPTY, [Started(CALL, AGENT)], [Session(CALL, AGENT, EMPTY)], None);
    assert p.records[1] in p.records && f.sessions[0] in f.sessions;
    assert KeepSession(p, f, f.sessions[0]) && GapOf(p.records[1], f.sessions[0]);
    MergeKeepsGapsIff(p, f);
  }
}

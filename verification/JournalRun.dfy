/** The journal run as the source writes it: an object that splices its record and session lists in place. */
module JournalRun {
  import opened Common
  import M = JournalModel

  class InMemoryWorkflowJournalRun {
    const sourceHash: M.Text
    const previous: seq<M.Historical>
    const sparse: bool
    const gaps: bool
    const tracking: bool
    var records: seq<M.Record>
    var sessions: seq<M.Session>
    var importedCalls: seq<M.Imported>
    var slots: seq<M.Slot>
    var consumed: set<nat>
    var previousKey: M.Key
    var canReusePrefix: bool
    var proofHashes: nat
    var proofBytes: nat

    ghost function Abstract(): M.Run
      reads this
    {
      M.Run(sourceHash, previous, records, sessions, importedCalls, slots, consumed, previousKey, canReusePrefix,
        sparse, gaps, tracking, proofHashes, proofBytes)
    }

    constructor (snapshot: Option<M.Snapshot>, sourceHash: M.Text, mode: M.Mode, gaps: bool)
      ensures Abstract() == M.BeginRun(snapshot, sourceHash, mode, gaps)
    {
      var begun := M.BeginRun(snapshot, sourceHash, mode, gaps);
      this.sourceHash := sourceHash;
      this.previous := begun.previous;
      this.sparse := begun.sparse;
      this.gaps := gaps;
      this.tracking := begun.tracking;
      records, sessions, importedCalls := begun.records, begun.sessions, begun.importedCalls;
      slots, consumed, previousKey, canReusePrefix := [], {}, M.Root, begun.canReusePrefix;
      proofHashes, proofBytes := M.MAX_PROOF_HASHES, M.MAX_PROOF_BYTES;
    }

    /** The budgeted search for the historical predecessor that proves the execution options. */
    method ImportedOptionsMatch(candidate: nat, call: M.Call) returns (found: bool)
      requires candidate < |previous|
      modifies this`proofHashes, this`proofBytes
      ensures M.ImportProof(old(Abstract()), candidate, call.prompt, call.options) ==
        M.Search(found, proofHashes, proofBytes)
    {
      var keys := [M.Root] + M.DistinctKeys(previous);
      var shared := M.SharedBytes(call.prompt, call.options);
      var target := previous[candidate].key;
      var i := 0;
      while i < |keys|
        invariant 0 <= i <= |keys|
        invariant M.Prove(keys[i..], target, call.prompt, call.options, shared, proofHashes, proofBytes)
          == M.Prove(keys, target, call.prompt, call.options, shared, old(proofHashes), old(proofBytes))
      {
        if proofHashes <= 0 {
          return false;
        }
        var hashBytes := shared + M.KeyBytes(keys[i]);
        if hashBytes > proofBytes {
          return false;
        }
        proofHashes := proofHashes - 1;
        proofBytes := proofBytes - hashBytes;
        if M.Link(keys[i], call.prompt, call.options) == target {
          return true;
        }
        assert keys[i..][1..] == keys[i + 1..];
        i := i + 1;
      }
      found := false;
    }

    /** The reuse decision of `admit`. */
    method Lookup(call: M.Call, key: M.Key) returns (historicalResult: Option<nat>, replaced: Option<nat>)
      requires key == M.CallKey(Abstract(), call)
      modifies this`proofHashes, this`proofBytes
      ensures M.Lookup(old(Abstract()), call) == M.Match(historicalResult, replaced, proofHashes, proofBytes)
    {
      var mayReuse := canReusePrefix || sparse;
      var direct := |previous|;
      if mayReuse {
        direct := 0;
        while direct < |previous| &&
          !(previous[direct].key == key && direct !in consumed && M.Reusable(previous[direct], gaps))
          invariant 0 <= direct <= |previous|
          invariant M.FindDirect(Abstract(), key, direct) == M.FindDirect(Abstract(), key, 0)
        {
          direct := direct + 1;
        }
      }
      if direct < |previous| {
        return Some(direct), Some(direct);
      }
      historicalResult, replaced := None, None;
      if sparse && tracking {
        var candidate := M.UniqueImport(previous, call.prompt);
        if candidate.Some? && candidate.value !in consumed {
          var proved := ImportedOptionsMatch(candidate.value, call);
          if proved {
            replaced := candidate;
            if M.Reusable(previous[candidate.value], gaps) {
              historicalResult := candidate;
            }
          }
        }
      }
    }

    /** Replace the visited key's inherited records, and those of a call consumed under another key. */
    method Compact(key: M.Key, replaced: Option<nat>)
      requires replaced.Some? ==> replaced.value < |previous|
      modifies this`records, this`sessions
      ensures records == M.KeptRecords(old(Abstract()), key, replaced)
      ensures sessions == M.KeptSessions(old(Abstract()), key)
    {
      if sparse {
        records := Splice(records, (r: M.Record) => M.OtherKey(r, key));
        sessions := Splice(sessions, (s: M.Session) => s.key != key);
        if replaced.Some? {
          var h := previous[replaced.value];
          if h.key != key {
            records := Splice(records, (r: M.Record) => M.OtherCall(r, h));
          }
        }
      }
    }

    /** Move the imported prompt identity to the call that now carries it. */
    method TrackImport(key: M.Key, call: M.Call, replaced: Option<nat>)
      requires replaced.Some? ==> replaced.value < |previous|
      modifies this`importedCalls
      ensures importedCalls == M.KeptImports(old(Abstract()), key, call, replaced)
    {
      if tracking {
        var gone := if replaced.Some? then Some(previous[replaced.value]) else None;
        importedCalls := Splice(importedCalls, (m: M.Imported) => M.OtherImport(m, key, gone));
        importedCalls := importedCalls + [M.Imported(key, call.agent, call.prompt)];
      }
    }

    /** The first call of this key that left a provider session behind. */
    method FindSession(key: M.Key) returns (session: Option<M.Text>)
      ensures session == M.ResumableSession(Abstract(), key)
    {
      if !(canReusePrefix || sparse) {
        return None;
      }
      var i := 0;
      while i < |previous| && !(previous[i].key == key && previous[i].session.Some?)
        invariant 0 <= i <= |previous|
        invariant M.FindSession(previous, key, i) == M.FindSession(previous, key, 0)
      {
        i := i + 1;
      }
      session := if i < |previous| then previous[i].session else None;
    }

    method Admit(call: M.Call) returns (decision: M.Decision)
      modifies this
      ensures Abstract() == M.Admit(old(Abstract()), call).0
      ensures decision == M.Admit(old(Abstract()), call).1
    {
      var callIndex := |slots|;
      var key := M.Link(previousKey, call.prompt, call.options);
      var session := FindSession(key);
      var historicalResult, replaced := Lookup(call, key);
      Compact(key, replaced);
      TrackImport(key, call, replaced);
      previousKey := key;
      if replaced.Some? {
        consumed := consumed + {replaced.value};
      }
      if historicalResult.Some? {
        var h := previous[historicalResult.value];
        var replay := M.Replay(h, key, call.agent);
        records := records + [M.Started(key, call.agent)] + [replay];
        slots := slots + [M.Slot(key, call.agent, M.Reused(historicalResult.value, replay))];
        decision := M.Hit(callIndex, key, call.agent, h.agent, replay.value, replay.coverageGap);
        assert records == M.KeptRecords(old(Abstract()), key, replaced) + [M.Started(key, call.agent)] + [replay];
      } else {
        if !sparse {
          canReusePrefix := false;
        }
        records := records + [M.Started(key, call.agent)];
        slots := slots + [M.Slot(key, call.agent, M.Open)];
        decision := M.Miss(callIndex, key, call.agent, session);
      }
    }

    /** `false` where the source throws. */
    method RecordResult(index: nat, key: M.Key, agent: M.Agent, value: M.Value, successful: Option<bool>, gap: bool)
      returns (recorded: bool)
      modifies this
      ensures var after := M.RecordResult(old(Abstract()), index, key, agent, value, successful, gap);
        recorded == after.Some? && Abstract() == if after.Some? then after.value else old(Abstract())
    {
      if !(index < |slots| && slots[index] == M.Slot(key, agent, M.Open)) {
        return false;
      }
      if gap {
        if !(successful == Some(false) && value.FailurePlaceholder?) {
          return false;
        }
        sessions := Splice(sessions, (s: M.Session) => M.OtherSession(s, key, agent));
      }
      var r := M.Result(key, agent, value, Some(if successful.Some? then successful.value else !value.NullValue?), gap);
      slots := slots[index := M.Slot(key, agent, M.Recorded(r))];
      records := records + [r];
      recorded := true;
    }

    method RecordProviderSession(index: nat, key: M.Key, agent: M.Agent, thread: M.Text) returns (recorded: bool)
      modifies this
      ensures var after := M.RecordSession(old(Abstract()), index, key, agent, thread);
        recorded == after.Some? && Abstract() == if after.Some? then after.value else old(Abstract())
    {
      if !(index < |slots| && slots[index] == M.Slot(key, agent, M.Open)) {
        return false;
      }
      var i := M.FindRecordedSession(sessions, key, agent);
      if i < |sessions| {
        sessions := sessions[i := M.Session(key, agent, thread)];
      } else {
        sessions := sessions + [M.Session(key, agent, thread)];
      }
      recorded := true;
    }

    method DiscardProviderSession(index: nat, key: M.Key, agent: M.Agent) returns (discarded: bool)
      modifies this
      ensures var after := M.DiscardSession(old(Abstract()), index, key, agent);
        discarded == after.Some? && Abstract() == if after.Some? then after.value else old(Abstract())
    {
      if !(index < |slots| && slots[index] == M.Slot(key, agent, M.Open)) {
        return false;
      }
      sessions := Splice(sessions, (s: M.Session) => M.OtherSession(s, key, agent));
      discarded := true;
    }

    method Snapshot() returns (snapshot: M.Snapshot)
      ensures snapshot == M.SnapshotOf(Abstract())
    {
      snapshot := M.Snapshot(sourceHash, records, sessions, if tracking then Some(importedCalls) else None);
    }
  }

  /** The loop that reads history out of a snapshot's records. */
  method HistoricalCalls(records: seq<M.Record>) returns (calls: seq<M.Historical>)
    ensures calls == M.Calls(records)
  {
    calls := [];
    for i := 0 to |records|
      invariant calls == M.Calls(records[..i])
    {
      assert records[..i + 1][..i] == records[..i];
      var record := records[i];
      if record.Started? {
        calls := calls + [M.Historical(record.key, record.agent, None, None, None)];
      } else {
        var match_ := M.FirstOpen(calls, record.key, record.agent);
        if match_ < |calls| {
          calls := calls[match_ := calls[match_].(result := Some(record))];
        }
      }
    }
    assert records[..|records|] == records;
  }
}

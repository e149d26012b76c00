/**
  Provider sessions across a crash: what was last recorded or discarded for an open call is what the next
  generation offers when it makes that call again.
 */
module JournalSessions {
  import opened Common
  import opened JournalModel
  import opened JournalResume
  import opened JournalReuse
  import opened JournalReplay
  import opened JournalAnswers

  function SessionsOf(sessions: seq<Session>, key: Key): seq<Session> {
    Filter(sessions, (s: Session) => s.key == key)
  }

  /** At most one session, of the call's own agent. */
  ghost predicate OwnSession(sessions: seq<Session>, slot: Slot) {
    var own := SessionsOf(sessions, slot.key);
    |own| <= 1 && forall s :: s in own ==> s.agent == slot.agent
  }

  ghost predicate SessionsOwned(run: Run) {
    SessionsVisited(run) && forall i :: 0 <= i < |run.slots| ==> OwnSession(run.sessions, run.slots[i])
  }

  // ---------------------------------------------------------------------------------------------
  // Filters of a changed list
  // ---------------------------------------------------------------------------------------------

  lemma OwnAfterFilter(sessions: seq<Session>, keep: Session -> bool, slot: Slot)
    requires OwnSession(sessions, slot)
    ensures OwnSession(Filter(sessions, keep), slot)
  {
    FilterWithin(sessions, keep, (s: Session) => s.key == slot.key, keep);
  }

  lemma SessionsAppend(sessions: seq<Session>, more: seq<Session>, key: Key)
    ensures SessionsOf(sessions + more, key) == SessionsOf(sessions, key) + SessionsOf(more, key)
  {
    FilterAppend(sessions, more, (s: Session) => s.key == key);
  }

  lemma SessionsOne(s: Session, key: Key)
    ensures SessionsOf([s], key) == if s.key == key then [s] else []
  {
    FilterOne(s, (x: Session) => x.key == key);
  }

  lemma SessionsPut(sessions: seq<Session>, i: nat, s: Session, key: Key)
    requires i < |sessions| && sessions[i].key == s.key
    ensures var before, after := SessionsOf(sessions[..i], key), SessionsOf(sessions[i + 1..], key);
      && SessionsOf(sessions, key) == before + (if s.key == key then [sessions[i]] else []) + after
      && SessionsOf(sessions[i := s], key) == before + (if s.key == key then [s] else []) + after
  {
    var (head, tail) := (sessions[..i], sessions[i + 1..]);
    assert sessions == head + [sessions[i]] + tail && sessions[i := s] == head + [s] + tail;
    SessionsOne(s, key);
    SessionsOne(sessions[i], key);
    SessionsAppend(head, [sessions[i]], key);
    SessionsAppend(head + [sessions[i]], tail, key);
    SessionsAppend(head, [s], key);
    SessionsAppend(head + [s], tail, key);
  }

  // ---------------------------------------------------------------------------------------------
  // What every run keeps
  // ---------------------------------------------------------------------------------------------

  lemma AdmitKeepsOwned(run: Run, base: seq<Record>, call: Call)
    requires RunInv(run, base) && SessionsOwned(run)
    ensures SessionsOwned(Admit(run, call).0)
  {
    var (r, slot) := (Admit(run, call).0, NewSlot(run, call));
    AdmitRecords(run, call);
    NewKeyUnvisited(run.slots, call.prompt, call.options);
    assert r.sessions == KeptSessions(run, slot.key);
    forall s | !run.sparse && s in r.sessions ensures Visited(r.slots, s.key) {
      VisitedAfter(run.slots, slot, s.key);
    }
    FilterNone(r.sessions, (s: Session) => s.key == slot.key);
    forall i | 0 <= i < |r.slots| ensures OwnSession(r.sessions, r.slots[i]) {
      if i < |run.slots| && run.sparse {
        OwnAfterFilter(run.sessions, (s: Session) => s.key != slot.key, run.slots[i]);
      }
    }
  }

  lemma {:induction false} FoundIfAny(sessions: seq<Session>, key: Key, agent: Agent)
    ensures FindRecordedSession(sessions, key, agent) == |sessions| ==>
      forall s :: s in sessions ==> !(s.key == key && s.agent == agent)
    decreases |sessions|
  {
    if sessions != [] && OtherSession(sessions[0], key, agent) {
      FoundIfAny(sessions[1..], key, agent);
      assert sessions == [sessions[0]] + sessions[1..];
    }
  }

  /** Recording replaces the call's session, or adds it. */
  lemma RecordedSession(run: Run, index: nat, key: Key, agent: Agent, thread: Text)
    requires Chained(run.slots) && SessionsOwned(run) && Unfinished(run, index, key, agent)
    ensures var after := RecordSession(run, index, key, agent, thread).value;
      && SessionsOf(after.sessions, key) == [Session(key, agent, thread)]
      && (forall other: Key :: other != key ==> SessionsOf(after.sessions, other) == SessionsOf(run.sessions, other))
      && (forall s :: s in after.sessions ==> s in run.sessions || s.key == key)
  {
    var (i, s) := (FindRecordedSession(run.sessions, key, agent), Session(key, agent, thread));
    var after := RecordSession(run, index, key, agent, thread).value;
    assert OwnSession(run.sessions, run.slots[index]);
    FoundIfAny(run.sessions, key, agent);
    if i < |run.sessions| {
      SessionsPut(run.sessions, i, s, key);
      forall other: Key | other != key ensures SessionsOf(after.sessions, other) == SessionsOf(run.sessions, other) {
        SessionsPut(run.sessions, i, s, other);
      }
    } else {
      forall x | x in run.sessions ensures x.key != key {
        assert x.key == key ==> x in SessionsOf(run.sessions, key);
      }
      FilterNone(run.sessions, (x: Session) => x.key == key);
      forall other: Key ensures SessionsOf(after.sessions, other) == SessionsOf(run.sessions, other) +
        (if key == other then [s] else []) {
        SessionsAppend(run.sessions, [s], other);
        SessionsOne(s, other);
      }
    }
  }

  lemma SessionOpKeepsOwned(run: Run, base: seq<Record>, index: nat, key: Key, agent: Agent, thread: Text)
    requires RunInv(run, base) && SessionsOwned(run) && Unfinished(run, index, key, agent)
    ensures SessionsOwned(RecordSession(run, index, key, agent, thread).value)
  {
    RecordedSession(run, index, key, agent, thread);
    var after := RecordSession(run, index, key, agent, thread).value;
    assert Visited(run.slots, key);
    forall i | 0 <= i < |run.slots| ensures OwnSession(after.sessions, run.slots[i]) {
      if run.slots[i].key == key {
        DistinctSlotKeys(run.slots, i, index);
      } else {
        assert OwnSession(run.sessions, run.slots[i]);
      }
    }
  }

  /** Sessions only left, and slots kept their keys and agents. */
  lemma DroppingKeepsOwned(run: Run, after: Run, keep: Session -> bool)
    requires SessionsOwned(run) && after.sessions == Filter(run.sessions, keep) && after.sparse == run.sparse
    requires |after.slots| == |run.slots| && forall i :: 0 <= i < |run.slots| ==>
      after.slots[i].key == run.slots[i].key && after.slots[i].agent == run.slots[i].agent
    ensures SessionsOwned(after)
  {
    forall i | 0 <= i < |after.slots| ensures OwnSession(after.sessions, after.slots[i]) {
      OwnAfterFilter(run.sessions, keep, run.slots[i]);
    }
    forall s | !run.sparse && s in after.sessions ensures Visited(after.slots, s.key) {
      var i :| 0 <= i < |run.slots| && run.slots[i].key == s.key;
      assert after.slots[i].key == s.key;
    }
  }

  lemma ResultOpKeepsOwned(run: Run, op: Op)
    requires op.ResultOp? && SessionsOwned(run)
    ensures SessionsOwned(Apply(run, op))
  {
    OtherOpsSameReplays(run, op);
    var stored := RecordResult(run, op.index, op.key, op.agent, op.value, op.successful, op.gap);
    if stored.Some? && op.gap {
      DroppingKeepsOwned(run, stored.value, (s: Session) => OtherSession(s, op.key, op.agent));
    } else {
      var all := (s: Session) => true;
      FilterAll(run.sessions, all);
      DroppingKeepsOwned(run, Apply(run, op), all);
    }
  }

  lemma StepKeepsOwned(run: Run, base: seq<Record>, op: Op)
    requires RunInv(run, base) && SessionsOwned(run)
    ensures SessionsOwned(Apply(run, op))
  {
    match op
    case AdmitOp(call) => AdmitKeepsOwned(run, base, call);
    case SessionOp(index, key, agent, thread) =>
      if Unfinished(run, index, key, agent) {
        SessionOpKeepsOwned(run, base, index, key, agent, thread);
      }
    case ResultOp(_, _, _, _, _, _) => ResultOpKeepsOwned(run, op);
    case DiscardOp(index, key, agent) =>
      if Unfinished(run, index, key, agent) {
        DroppingKeepsOwned(run, Apply(run, op), (s: Session) => OtherSession(s, key, agent));
      }
  }

  lemma {:induction false} RunKeepsOwned(run: Run, base: seq<Record>, ops: seq<Op>)
    requires RunInv(run, base) && SessionsOwned(run)
    ensures SessionsOwned(ApplyAll(run, ops)) && RunInv(ApplyAll(run, ops), base)
    decreases |ops|
  {
    if ops != [] {
      StepKeepsOwned(run, base, ops[0]);
      StepKeepsInv(run, ops[0], base);
      RunKeepsOwned(Apply(run, ops[0]), base, ops[1..]);
    }
  }

  // ---------------------------------------------------------------------------------------------
  // A recorded session stays
  // ---------------------------------------------------------------------------------------------

  /** The operation leaves call `index` alone. */
  predicate Spares(op: Op, index: nat) {
    op.AdmitOp? || op.index != index
  }

  /** Call `index` is listed with exactly this session, or with none. */
  ghost predicate HasSession(run: Run, index: nat, thread: Option<Text>) {
    && index < |run.slots|
    && var slot := run.slots[index];
    && SessionsOf(run.sessions, slot.key) ==
      if thread.Some? then [Session(slot.key, slot.agent, thread.value)] else []
  }

  lemma KeptByFilter(sessions: seq<Session>, keep: Session -> bool, key: Key)
    requires forall s: Session :: s.key == key ==> keep(s)
    ensures SessionsOf(Filter(sessions, keep), key) == SessionsOf(sessions, key)
  {
    var all := (s: Session) => true;
    FilterWithin(sessions, keep, (s: Session) => s.key == key, all);
    FilterAll(SessionsOf(sessions, key), all);
  }

  lemma AdmitSparesSession(run: Run, base: seq<Record>, call: Call, index: nat, thread: Option<Text>)
    requires RunInv(run, base) && HasSession(run, index, thread)
    ensures HasSession(Admit(run, call).0, index, thread)
  {
    AdmitRecords(run, call);
    NewKeyUnvisited(run.slots, call.prompt, call.options);
    assert Visited(run.slots, run.slots[index].key);
    if run.sparse {
      KeptByFilter(run.sessions, (s: Session) => s.key != CallKey(run, call), run.slots[index].key);
    }
  }

  lemma OtherCallsKey(run: Run, op: Op, index: nat)
    requires Chained(run.slots) && index < |run.slots| && !op.AdmitOp? && op.index != index
    requires Unfinished(run, op.index, op.key, op.agent)
    ensures op.key != run.slots[index].key
  {
    if run.slots[index].key == op.key {
      DistinctSlotKeys(run.slots, index, op.index);
    }
  }

  lemma SameSessionsOf(run: Run, after: Run, index: nat, thread: Option<Text>)
    requires HasSession(run, index, thread) && SameReplays(run, after)
    requires SessionsOf(after.sessions, run.slots[index].key) == SessionsOf(run.sessions, run.slots[index].key)
    ensures HasSession(after, index, thread)
  {
  }

  /** Recording, discarding and coverage gaps touch the sessions of one key. */
  lemma OtherKeysKeepSessions(run: Run, op: Op, key: Key)
    requires Chained(run.slots) && SessionsOwned(run) && !op.AdmitOp? && op.key != key
    ensures SessionsOf(Apply(run, op).sessions, key) == SessionsOf(run.sessions, key)
  {
    if op.SessionOp? {
      if Unfinished(run, op.index, op.key, op.agent) {
        RecordedSession(run, op.index, op.key, op.agent, op.thread);
      }
    } else {
      KeptByFilter(run.sessions, (s: Session) => OtherSession(s, op.key, op.agent), key);
    }
  }

  lemma RefusedChangesNothing(run: Run, op: Op)
    requires !op.AdmitOp? && !Unfinished(run, op.index, op.key, op.agent)
    ensures Apply(run, op) == run
  {
  }

  lemma OtherOpSparesSession(run: Run, op: Op, index: nat, thread: Option<Text>)
    requires Chained(run.slots) && SessionsOwned(run) && HasSession(run, index, thread)
    requires !op.AdmitOp? && op.index != index
    ensures HasSession(Apply(run, op), index, thread)
  {
    if Unfinished(run, op.index, op.key, op.agent) {
      OtherCallsKey(run, op, index);
      OtherKeysKeepSessions(run, op, run.slots[index].key);
      OtherOpsSameReplays(run, op);
      SameSessionsOf(run, Apply(run, op), index, thread);
    } else {
      RefusedChangesNothing(run, op);
    }
  }

  lemma {:induction false} RunSparesSession(run: Run, base: seq<Record>, ops: seq<Op>, index: nat, thread: Option<Text>)
    requires RunInv(run, base) && SessionsOwned(run) && HasSession(run, index, thread)
    requires forall op :: op in ops ==> Spares(op, index)
    ensures HasSession(ApplyAll(run, ops), index, thread)
    decreases |ops|
  {
    if ops != [] {
      assert ops[0] in ops && forall op :: op in ops[1..] ==> op in ops;
      if ops[0].AdmitOp? {
        AdmitSparesSession(run, base, ops[0].call, index, thread);
      } else {
        OtherOpSparesSession(run, ops[0], index, thread);
      }
      StepKeepsOwned(run, base, ops[0]);
      StepKeepsInv(run, ops[0], base);
      RunSparesSession(Apply(run, ops[0]), base, ops[1..], index, thread);
    }
  }

  // ---------------------------------------------------------------------------------------------
  // The next generation offers it
  // ---------------------------------------------------------------------------------------------

  /** The first call with a listed identity learns its session. */
  lemma {:induction false} SessionTold(calls: seq<Historical>, sessions: seq<Session>, key: Key, agent: Agent,
      thread: Text)
    requires FirstSame(calls, key, agent) < |calls|
    requires forall s :: s in sessions && s.key == key ==> s.thread == thread
    requires Session(key, agent, thread) in sessions || calls[FirstSame(calls, key, agent)].session == Some(thread)
    ensures WithSessions(calls, sessions)[FirstSame(calls, key, agent)].session == Some(thread)
    decreases |sessions|
  {
    if sessions != [] {
      var s := sessions[0];
      var i := FirstSame(calls, s.key, s.agent);
      FirstSameIs(calls, s.key, s.agent);
      FirstSameIs(calls, key, agent);
      var told := if i < |calls| then calls[i := calls[i].(session := Some(s.thread))] else calls;
      SameIdentitiesSameFirst(calls, told, key, agent);
      assert sessions == [s] + sessions[1..];
      SessionTold(told, sessions[1..], key, agent, thread);
    }
  }

  lemma {:induction false} ImportsKeepSessions(calls: seq<Historical>, imports: seq<Imported>, i: nat)
    requires i < |calls|
    ensures WithImports(calls, imports)[i].session == calls[i].session
    decreases |imports|
  {
    if imports != [] {
      var m := imports[0];
      var j := FirstSame(calls, m.key, m.agent);
      ImportsKeepSessions(if j < |calls| then calls[j := calls[j].(importedPrompt := Some(m.promptKey))]
        else calls, imports[1..], i);
    }
  }

  /** The history of a crashed run knows the call's session. */
  lemma HistoryKnowsSession(run: Run, base: seq<Record>, index: nat, thread: Text) returns (i: nat)
    requires RunInv(run, base) && HasSession(run, index, Some(thread))
    ensures var calls := HistoricalCalls(SnapshotOf(run));
      i < |calls| && calls[i].key == run.slots[index].key && calls[i].session == Some(thread)
  {
    var (key, agent) := (run.slots[index].key, run.slots[index].agent);
    RunStaysShaped(run, base);
    CallsDescribe(run.records);
    var calls := Calls(run.records);
    var started := Of(run.records, key)[0];
    assert started == Started(key, agent) && started in Of(run.records, key);
    var m :| 0 <= m < |calls| && calls[m].key == key;
    assert calls[m].agent == agent;
    FirstSameIs(calls, key, agent);
    assert SameCall(calls[m], key, agent);
    i := FirstSame(calls, key, agent);
    var session := Session(key, agent, thread);
    assert session in SessionsOf(run.sessions, key);
    forall s | s in run.sessions && s.key == key ensures s.thread == thread {
      assert s in SessionsOf(run.sessions, key);
    }
    SessionTold(calls, run.sessions, key, agent, thread);
    ImportsKeepSessions(WithSessions(calls, run.sessions), ImportsOf(SnapshotOf(run)), i);
  }

  lemma ApplyAllKeepsHistory(run: Run, ops: seq<Op>)
    requires run.sparse
    ensures ApplyAll(run, ops).previous == run.previous && ApplyAll(run, ops).sparse
    decreases |ops|
  {
    if ops != [] {
      if ops[0].AdmitOp? {
        AdmitRecords(run, ops[0].call);
      } else {
        OtherOpsSameReplays(run, ops[0]);
      }
      ApplyAllKeepsHistory(Apply(run, ops[0]), ops[1..]);
    }
  }

  /** Only the first call of a key knows a session, so that is the one offered. */
  lemma OfferedIs(next: Run, call: Call, i: nat)
    requires next.sparse && FirstsMarked(next.previous) && Admit(next, call).1.Miss?
    requires i < |next.previous| && next.previous[i].key == CallKey(next, call) && next.previous[i].session.Some?
    ensures Admit(next, call).1.providerSession == next.previous[i].session
  {
    MissOffersFirstSession(next, call);
    assert Resumable(next, CallKey(next, call), i);
  }

  lemma {:induction false} RunKeepsKey(run: Run, ops: seq<Op>, index: nat)
    requires index < |run.slots|
    ensures index < |ApplyAll(run, ops).slots| && ApplyAll(run, ops).slots[index].key == run.slots[index].key
    decreases |ops|
  {
    if ops != [] {
      if ops[0].AdmitOp? {
        AdmitRecords(run, ops[0].call);
      } else {
        OtherOpsSameReplays(run, ops[0]);
      }
      RunKeepsKey(Apply(run, ops[0]), ops[1..], index);
    }
  }

  /** Calls of a key without sessions know none. */
  lemma {:induction false} NoSessionTold(calls: seq<Historical>, sessions: seq<Session>, key: Key)
    requires forall s :: s in sessions ==> s.key != key
    requires forall i :: 0 <= i < |calls| && calls[i].key == key ==> calls[i].session.None?
    ensures forall i :: 0 <= i < |calls| && calls[i].key == key ==> WithSessions(calls, sessions)[i].session.None?
    decreases |sessions|
  {
    if sessions != [] {
      var s := sessions[0];
      var i := FirstSame(calls, s.key, s.agent);
      FirstSameIs(calls, s.key, s.agent);
      assert sessions == [s] + sessions[1..];
      NoSessionTold(if i < |calls| then calls[i := calls[i].(session := Some(s.thread))] else calls, sessions[1..],
        key);
    }
  }

  lemma {:induction false} BareOfSessions(records: seq<Record>)
    ensures forall h :: h in Calls(records) ==> h.session.None?
    decreases |records|
  {
    if records != [] {
      BareOfSessions(records[..|records| - 1]);
    }
  }

  lemma HistoryKnowsNoSession(run: Run, index: nat)
    requires HasSession(run, index, None)
    ensures var calls := HistoricalCalls(SnapshotOf(run));
      forall i :: 0 <= i < |calls| && calls[i].key == run.slots[index].key ==> calls[i].session.None?
  {
    var (key, calls, left) := (run.slots[index].key, Calls(run.records), SnapshotOf(run));
    BareOfSessions(run.records);
    assert forall i :: 0 <= i < |calls| ==> calls[i] in calls;
    forall s | s in run.sessions ensures s.key != key {
      assert s.key == key ==> s in SessionsOf(run.sessions, key);
    }
    NoSessionTold(calls, run.sessions, key);
    forall i | 0 <= i < |calls| ensures HistoricalCalls(left)[i].session ==
      WithSessions(calls, run.sessions)[i].session {
      ImportsKeepSessions(WithSessions(calls, run.sessions), ImportsOf(left), i);
    }
  }

  lemma SessionSurvives(run: Run, base: seq<Record>, index: nat, thread: Option<Text>, again: seq<Op>, gaps: bool,
      call: Call)
    requires RunInv(run, base) && HasSession(run, index, thread)
    ensures var left := SnapshotOf(run);
      var next := ApplyAll(BeginRun(Some(left), left.sourceHash, ExactSourceSparse, gaps), again);
      CallKey(next, call) == run.slots[index].key && Admit(next, call).1.Miss? ==>
        Admit(next, call).1.providerSession == thread
  {
    var left := SnapshotOf(run);
    var begun := BeginRun(Some(left), left.sourceHash, ExactSourceSparse, gaps);
    var next := ApplyAll(begun, again);
    RunStaysShaped(run, base);
    HistoryDescribes(left);
    ApplyAllKeepsHistory(begun, again);
    if CallKey(next, call) == run.slots[index].key && Admit(next, call).1.Miss? {
      if thread.Some? {
        var i := HistoryKnowsSession(run, base, index, thread.value);
        OfferedIs(next, call, i);
      } else {
        HistoryKnowsNoSession(run, index);
        MissOffersFirstSession(next, call);
      }
    }
  }

  /** The session of an open call is recorded or discarded. */
  predicate SessionChange(run: Run, op: Op) {
    (op.SessionOp? || op.DiscardOp?) && Unfinished(run, op.index, op.key, op.agent)
  }

  function ThreadOf(op: Op): Option<Text> {
    if op.SessionOp? then Some(op.thread) else None
  }

  lemma ChangeListed(run: Run, op: Op)
    requires Chained(run.slots) && SessionsOwned(run) && SessionChange(run, op)
    ensures HasSession(Apply(run, op), op.index, ThreadOf(op))
  {
    if op.SessionOp? {
      RecordedSession(run, op.index, op.key, op.agent, op.thread);
    } else {
      var other := (s: Session) => OtherSession(s, op.key, op.agent);
      assert OwnSession(run.sessions, run.slots[op.index]);
      FilterWithin(run.sessions, other, (s: Session) => s.key == op.key, other);
      FilterNone(SessionsOf(run.sessions, op.key), other);
    }
  }

  /** From the change to the crash. */
  lemma ChangeStays(met: Run, base: seq<Record>, change: Op, later: seq<Op>)
    requires RunInv(met, base) && SessionsOwned(met) && SessionChange(met, change)
    requires forall op :: op in later ==> Spares(op, change.index)
    ensures var run := ApplyAll(Apply(met, change), later);
      && RunInv(run, base) && HasSession(run, change.index, ThreadOf(change))
      && run.slots[change.index].key == change.key
  {
    ChangeListed(met, change);
    StepKeepsOwned(met, base, change);
    StepKeepsInv(met, change, base);
    RunSparesSession(Apply(met, change), base, later, change.index, ThreadOf(change));
    RunKeepsOwned(Apply(met, change), base, later);
    RunKeepsKey(Apply(met, change), later, change.index);
  }

  lemma ChangeOnTheWay(run: Run, before: seq<Op>, change: Op, later: seq<Op>)
    ensures ApplyAll(run, before + [change] + later) == ApplyAll(Apply(ApplyAll(run, before), change), later)
  {
    ApplyAllAppend(run, before + [change], later);
    ApplyAllAppend(run, before, [change]);
    assert [change][1..] == [];
  }

  /** End to end: the session of an open call is recorded, or discarded, and the call is left alone until the
      crash; when the next generation of the same source makes that call again and has to run it, it is offered
      exactly that session, or none. */
  lemma LastSessionIsOffered(p: Option<Snapshot>, sourceHash: Text, mode: Mode, gaps: bool, before: seq<Op>,
      change: Op, later: seq<Op>, again: seq<Op>, gapsAgain: bool, call: Call)
    requires p.Some? ==> Shaped(p.value.records)
    requires SessionChange(ApplyAll(BeginRun(p, sourceHash, mode, gaps), before), change)
    requires forall op :: op in later ==> Spares(op, change.index)
    ensures var left := SnapshotOf(ApplyAll(BeginRun(p, sourceHash, mode, gaps), before + [change] + later));
      var next := ApplyAll(BeginRun(Some(left), left.sourceHash, ExactSourceSparse, gapsAgain), again);
      var d := Admit(next, call).1;
      Link(next.previousKey, call.prompt, call.options) == change.key && d.Miss? ==>
        d.providerSession == if change.SessionOp? then Some(change.thread) else None
  {
    var begun := BeginRun(p, sourceHash, mode, gaps);
    var base := BeginHasInv(p, sourceHash, mode, gaps);
    RunKeepsOwned(begun, base, before);
    ChangeStays(ApplyAll(begun, before), base, change, later);
    ChangeOnTheWay(begun, before, change, later);
    SessionSurvives(ApplyAll(Apply(ApplyAll(begun, before), change), later), base, change.index, ThreadOf(change),
      again,
      gapsAgain, call);
  }
}

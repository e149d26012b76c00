/** What every accepted event sequence keeps in a projected run snapshot. */
module RunProjectionInv {
  import opened Common
  import opened RunProjection

  /** Sorted by call index, hence distinct, with distinct ids. */
  ghost predicate AgentsSorted(agents: seq<Agent>) {
    forall i, j :: 0 <= i < j < |agents| ==> agents[i].callIndex < agents[j].callIndex && agents[i].id != agents[j].id
  }

  ghost predicate AttemptsSorted(attempts: seq<Attempt>) {
    forall i, j :: 0 <= i < j < |attempts| ==>
      attempts[i].number < attempts[j].number &&
      attempts[i].id != attempts[j].id
  }

  ghost predicate AllAttemptsSorted(agents: seq<Agent>) {
    forall i :: 0 <= i < |agents| ==> AttemptsSorted(agents[i].attempts)
  }

  /** The agents of a phase in call-index order. */
  function Members(agents: seq<Agent>, phase: nat): seq<nat> {
    if agents == [] then []
    else (if agents[0].phase == Some(phase) then [agents[0].id] else []) + Members(agents[1..], phase)
  }

  /** Every phase an agent names was discovered. */
  ghost predicate PhasesKnown(agents: seq<Agent>, phases: seq<Phase>) {
    forall i :: 0 <= i < |agents| && agents[i].phase.Some? ==> FindPhase(phases, agents[i].phase.value) < |phases|
  }

  ghost predicate PhasesRight(agents: seq<Agent>, phases: seq<Phase>) {
    && (forall i, j :: 0 <= i < j < |phases| ==> phases[i].id != phases[j].id)
    && (forall i :: 0 <= i < |phases| ==> phases[i].agentIds == Members(agents, phases[i].id))
    && PhasesKnown(agents, phases)
  }

  predicate Abandoned(s: RunStatus) {
    s.Failed? || s.Cancelled? || s.Interrupted?
  }

  ghost predicate Inv(s: State) {
    && AgentsSorted(s.agents) && AllAttemptsSorted(s.agents) && PhasesRight(s.agents, s.phases)
    && s.counts == Tally(s.agents, |s.agents|)
    && (Abandoned(s.status) ==> forall i :: 0 <= i < |s.agents| ==> TerminalAgent(s.agents[i].status))
  }

  // ---------------------------------------------------------------------------------------------
  // Updates of one agent
  // ---------------------------------------------------------------------------------------------

  predicate SameIdentity(a: Agent, b: Agent) {
    a.id == b.id && a.callIndex == b.callIndex && a.phase == b.phase
  }

  ghost predicate SameIdentities(agents: seq<Agent>, others: seq<Agent>) {
    |others| == |agents| && forall i :: 0 <= i < |agents| ==> SameIdentity(agents[i], others[i])
  }

  lemma {:induction false} InsertAttemptHolds(attempts: seq<Attempt>, a: Attempt)
    requires AttemptsSorted(attempts) && forall i :: 0 <= i < |attempts| ==>
      attempts[i].id != a.id &&
      attempts[i].number != a.number
    ensures AttemptsSorted(InsertAttempt(attempts, a))
    ensures forall x :: x in InsertAttempt(attempts, a) <==> x == a || x in attempts
    decreases |attempts|
  {
    if attempts != [] && a.number >= attempts[0].number {
      InsertAttemptHolds(attempts[1..], a);
      assert attempts == [attempts[0]] + attempts[1..];
      var rest := InsertAttempt(attempts[1..], a);
      forall i | 0 <= i < |rest| ensures attempts[0].number < rest[i].number && attempts[0].id != rest[i].id {
        assert rest[i] in rest;
      }
    }
  }

  lemma WithAttemptKeeps(a: Agent, attempt: nat, status: AttemptStatus)
    ensures var b := WithAttempt(a, attempt, status);
      b.Some? ==> SameIdentity(a, b.value) && (AttemptsSorted(a.attempts) ==> AttemptsSorted(b.value.attempts))
  {
  }

  lemma UpdatedKeeps(a: Agent, body: Body)
    requires AttemptsSorted(a.attempts) && Updated(a, body).Some?
    ensures SameIdentity(a, Updated(a, body).value) && AttemptsSorted(Updated(a, body).value.attempts)
  {
    match body
    case AgentStarted(_, attempt, number) => InsertAttemptHolds(a.attempts, Attempt(attempt, number, Ongoing));
    case AttemptStalled(_, attempt) => WithAttemptKeeps(a, attempt, Stalled);
    case AgentCompleted(_, which, _) =>
      if which.Some? {
        WithAttemptKeeps(a, which.value, Ended);
      }
    case AgentFailed(_, which, _) =>
      if which.Some? {
        WithAttemptKeeps(a, which.value, Broken);
      }
    case AgentUnresolved(_, attempt) => WithAttemptKeeps(a, attempt, Unresolved);
    case AgentCancelled(_, which) =>
      if which.Some? {
        WithAttemptKeeps(a, which.value, Stopped);
      }
    case _ =>
  }

  lemma {:induction false} MembersSame(agents: seq<Agent>, others: seq<Agent>, phase: nat)
    requires SameIdentities(agents, others)
    ensures Members(others, phase) == Members(agents, phase)
    decreases |agents|
  {
    if agents != [] {
      assert SameIdentity(agents[0], others[0]);
      MembersSame(agents[1..], others[1..], phase);
    }
  }

  /** Changing agents in place keeps the order of agents and the membership of phases. */
  lemma SameIdentitiesKeep(agents: seq<Agent>, others: seq<Agent>, phases: seq<Phase>)
    requires SameIdentities(agents, others) && AgentsSorted(agents) && PhasesRight(agents, phases)
    ensures AgentsSorted(others) && PhasesRight(others, phases)
  {
    forall i | 0 <= i < |phases| ensures phases[i].agentIds == Members(others, phases[i].id) {
      MembersSame(agents, others, phases[i].id);
    }
    assert forall i :: 0 <= i < |agents| ==> SameIdentity(agents[i], others[i]);
  }

  lemma ClosedKeeps(a: Agent, status: AgentStatus, attempt: AttemptStatus)
    requires AttemptsSorted(a.attempts) && TerminalAgent(status)
    ensures var r := Closed(a, status, attempt);
      SameIdentity(a, r) && AttemptsSorted(r.attempts) && TerminalAgent(r.status)
  {
  }

  lemma CloseKeeps(agents: seq<Agent>, status: AgentStatus, attempt: AttemptStatus)
    requires AllAttemptsSorted(agents) && TerminalAgent(status)
    ensures var r := CloseAgents(agents, status, attempt);
      && SameIdentities(agents, r) && AllAttemptsSorted(r)
      && (forall i :: 0 <= i < |r| ==> TerminalAgent(r[i].status))
  {
    var r := CloseAgents(agents, status, attempt);
    forall i | 0 <= i < |r| ensures SameIdentity(agents[i], r[i]) && AttemptsSorted(r[i].attempts) &&
      TerminalAgent(r[i].status) {
      ClosedKeeps(agents[i], status, attempt);
    }
  }

  // ---------------------------------------------------------------------------------------------
  // Admission
  // ---------------------------------------------------------------------------------------------

  /** The new agent's id and call index are new. */
  ghost predicate NewTo(agents: seq<Agent>, a: Agent) {
    forall i :: 0 <= i < |agents| ==> agents[i].id != a.id && agents[i].callIndex != a.callIndex
  }

  lemma {:induction false} InsertAgentHolds(agents: seq<Agent>, a: Agent)
    requires AgentsSorted(agents) && NewTo(agents, a)
    ensures AgentsSorted(InsertAgent(agents, a))
    ensures forall x :: x in InsertAgent(agents, a) <==> x == a || x in agents
    decreases |agents|
  {
    if agents != [] && a.callIndex >= agents[0].callIndex {
      InsertAgentHolds(agents[1..], a);
      assert agents == [agents[0]] + agents[1..];
      var rest := InsertAgent(agents[1..], a);
      forall i | 0 <= i < |rest| ensures agents[0].callIndex < rest[i].callIndex && agents[0].id != rest[i].id {
        assert rest[i] in rest;
      }
    }
  }

  lemma {:induction false} MembersOfOthers(agents: seq<Agent>, a: Agent, phase: nat)
    requires a.phase != Some(phase)
    ensures Members(InsertAgent(agents, a), phase) == Members(agents, phase)
    decreases |agents|
  {
    var r := InsertAgent(agents, a);
    if agents == [] || a.callIndex < agents[0].callIndex {
      assert r[1..] == agents;
      assert [] + Members(agents, phase) == Members(agents, phase);
    } else {
      MembersOfOthers(agents[1..], a, phase);
      assert r[1..] == InsertAgent(agents[1..], a);
    }
  }

  lemma CallIndexIs(all: seq<Agent>, a: Agent)
    requires AgentsSorted(all) && a in all
    ensures CallIndexOf(all, a.id) == a.callIndex
  {
    var i :| 0 <= i < |all| && all[i] == a;
    var j := FindAgent(all, a.id);
    assert j <= i;
  }

  lemma {:induction false} MembersAreAgents(agents: seq<Agent>, phase: nat, k: nat) returns (i: nat)
    requires k < |Members(agents, phase)|
    ensures i < |agents| && agents[i].id == Members(agents, phase)[k]
    decreases |agents|
  {
    var here := if agents[0].phase == Some(phase) then 1 else 0;
    if k < here {
      i := 0;
    } else {
      var x := MembersAreAgents(agents[1..], phase, k - here);
      i := x + 1;
    }
  }

  ghost predicate Within(agents: seq<Agent>, all: seq<Agent>) {
    forall i :: 0 <= i < |agents| ==> agents[i] in all
  }

  /** The new agent comes first. */
  lemma FirstMember(agents: seq<Agent>, a: Agent, phase: nat, all: seq<Agent>)
    requires AgentsSorted(agents) && a.phase == Some(phase) && (agents == [] || a.callIndex < agents[0].callIndex)
    requires AgentsSorted(all) && a in all && Within(agents, all)
    ensures InsertMember(Members(agents, phase), a.id, all) == [a.id] + Members(agents, phase)
    ensures Members([a] + agents, phase) == [a.id] + Members(agents, phase)
  {
    CallIndexIs(all, a);
    assert ([a] + agents)[1..] == agents;
    if Members(agents, phase) != [] {
      var i := MembersAreAgents(agents, phase, 0);
      CallIndexIs(all, agents[i]);
    }
  }

  lemma LaterMember(ids: seq<nat>, first: Agent, a: Agent, all: seq<Agent>)
    requires AgentsSorted(all) && a in all && first in all && first.callIndex < a.callIndex
    ensures InsertMember([first.id] + ids, a.id, all) == [first.id] + InsertMember(ids, a.id, all)
  {
    CallIndexIs(all, a);
    CallIndexIs(all, first);
    assert ([first.id] + ids)[1..] == ids;
  }

  lemma MembersPush(first: Agent, rest: seq<Agent>, phase: nat)
    ensures Members([first] + rest, phase) == if first.phase == Some(phase) then [first.id] + Members(rest, phase)
      else Members(rest, phase)
  {
    assert ([first] + rest)[1..] == rest;
    assert [] + Members(rest, phase) == Members(rest, phase);
  }

  lemma InsertBehind(first: Agent, rest: seq<Agent>, a: Agent, phase: nat, all: seq<Agent>)
    requires AgentsSorted(all) && a in all && first in all && first.callIndex < a.callIndex
    requires InsertMember(Members(rest, phase), a.id, all) == Members(InsertAgent(rest, a), phase)
    ensures InsertMember(Members([first] + rest, phase), a.id, all) == Members(InsertAgent([first] + rest, a), phase)
  {
    assert ([first] + rest)[1..] == rest;
    MembersPush(first, rest, phase);
    MembersPush(first, InsertAgent(rest, a), phase);
    LaterMember(Members(rest, phase), first, a, all);
  }

  /** Inserting the new id among the members by call index gives the members of the new list. */
  lemma {:induction false} InsertMemberIs(agents: seq<Agent>, a: Agent, phase: nat, all: seq<Agent>)
    requires AgentsSorted(agents) && NewTo(agents, a) && a.phase == Some(phase)
    requires AgentsSorted(all) && a in all && Within(agents, all)
    ensures InsertMember(Members(agents, phase), a.id, all) == Members(InsertAgent(agents, a), phase)
    decreases |agents|
  {
    if agents == [] || a.callIndex < agents[0].callIndex {
      FirstMember(agents, a, phase, all);
    } else {
      var first, rest := agents[0], agents[1..];
      assert agents == [first] + rest;
      InsertMemberIs(rest, a, phase, all);
      InsertBehind(first, rest, a, phase, all);
    }
  }

  ghost predicate Structured(agents: seq<Agent>, phases: seq<Phase>) {
    AgentsSorted(agents) && AllAttemptsSorted(agents) && PhasesRight(agents, phases)
  }

  lemma AdmitAgents(agents: seq<Agent>, a: Agent)
    requires AgentsSorted(agents) && AllAttemptsSorted(agents) && NewTo(agents, a) && a.attempts == []
    ensures AgentsSorted(InsertAgent(agents, a)) && AllAttemptsSorted(InsertAgent(agents, a))
  {
    InsertAgentHolds(agents, a);
    var all := InsertAgent(agents, a);
    forall i | 0 <= i < |all| ensures AttemptsSorted(all[i].attempts) {
      assert all[i] in all;
      if all[i] != a {
        assert all[i] in agents;
      }
    }
  }

  /** Discovered phases stay discovered when only other fields change. */
  lemma StillFound(phases: seq<Phase>, others: seq<Phase>, id: nat)
    requires FindPhase(phases, id) < |phases|
    requires |others| >= |phases| && forall i :: 0 <= i < |phases| ==> others[i].id == phases[i].id
    ensures FindPhase(others, id) < |others|
  {
    assert others[FindPhase(phases, id)].id == id;
  }

  lemma KnownPhases(agents: seq<Agent>, a: Agent, all: seq<Agent>, phases: seq<Phase>, others: seq<Phase>)
    requires PhasesKnown(agents, phases) && (a.phase.Some? ==> FindPhase(phases, a.phase.value) < |phases|)
    requires forall x :: x in all ==> x == a || x in agents
    requires |others| == |phases| && forall i :: 0 <= i < |phases| ==> others[i].id == phases[i].id
    ensures PhasesKnown(all, others)
  {
    forall i | 0 <= i < |all| && all[i].phase.Some? ensures FindPhase(others, all[i].phase.value) < |others| {
      assert all[i] in all;
      StillFound(phases, others, all[i].phase.value);
    }
  }

  lemma AdmitPhases(agents: seq<Agent>, a: Agent, phases: seq<Phase>, k: nat)
    requires AgentsSorted(agents) && NewTo(agents, a) && PhasesRight(agents, phases)
    requires k < |phases| && a.phase == Some(phases[k].id)
    ensures var all := InsertAgent(agents, a);
      PhasesRight(all, phases[k := phases[k].(agentIds := InsertMember(phases[k].agentIds, a.id, all))])
  {
    var all := InsertAgent(agents, a);
    var others := phases[k := phases[k].(agentIds := InsertMember(phases[k].agentIds, a.id, all))];
    InsertAgentHolds(agents, a);
    KnownPhases(agents, a, all, phases, others);
    forall i | 0 <= i < |others| ensures others[i].agentIds == Members(all, others[i].id) {
      if i == k {
        InsertMemberIs(agents, a, phases[k].id, all);
      } else {
        assert phases[i].id != phases[k].id by {
          assert i < k ==> phases[i].id != phases[k].id;
          assert k < i ==> phases[k].id != phases[i].id;
        }
        MembersOfOthers(agents, a, phases[i].id);
      }
    }
  }

  lemma AdmitLoose(agents: seq<Agent>, a: Agent, phases: seq<Phase>)
    requires AgentsSorted(agents) && NewTo(agents, a) && PhasesRight(agents, phases) && a.phase.None?
    ensures PhasesRight(InsertAgent(agents, a), phases)
  {
    InsertAgentHolds(agents, a);
    KnownPhases(agents, a, InsertAgent(agents, a), phases, phases);
    forall i | 0 <= i < |phases| ensures phases[i].agentIds == Members(InsertAgent(agents, a), phases[i].id) {
      MembersOfOthers(agents, a, phases[i].id);
    }
  }

  // ---------------------------------------------------------------------------------------------
  // Every event
  // ---------------------------------------------------------------------------------------------

  /** An abandoned run's agents are all terminal. */
  ghost predicate Settled(s: State) {
    Abandoned(s.status) ==> forall i :: 0 <= i < |s.agents| ==> TerminalAgent(s.agents[i].status)
  }

  lemma UpdateKeeps(s: State, id: nat, body: Body)
    requires Structured(s.agents, s.phases) && UpdateAgent(s, id, body).Some?
    ensures var t := UpdateAgent(s, id, body).value;
      Structured(t.agents, t.phases) && t.status == s.status && t.sequence == s.sequence
  {
    var i, t := FindAgent(s.agents, id), UpdateAgent(s, id, body).value;
    UpdatedKeeps(s.agents[i], body);
    SameIdentitiesKeep(s.agents, t.agents, s.phases);
  }

  lemma AdmitKeeps(s: State, id: nat, callIndex: nat, of: Option<nat>)
    requires Structured(s.agents, s.phases) && Admit(s, id, callIndex, of).Some?
    ensures var t := Admit(s, id, callIndex, of).value;
      Structured(t.agents, t.phases) && t.status == s.status && t.sequence == s.sequence
  {
    var a := Agent(id, callIndex, of, Admitted, false, []);
    AdmitAgents(s.agents, a);
    if of.Some? {
      AdmitPhases(s.agents, a, s.phases, FindPhase(s.phases, of.value));
    } else {
      AdmitLoose(s.agents, a, s.phases);
    }
  }

  lemma {:induction false} NoMembers(agents: seq<Agent>, phase: nat)
    requires forall i :: 0 <= i < |agents| ==> agents[i].phase != Some(phase)
    ensures Members(agents, phase) == []
    decreases |agents|
  {
    if agents != [] {
      NoMembers(agents[1..], phase);
    }
  }

  lemma DiscoverKeeps(agents: seq<Agent>, phases: seq<Phase>, id: nat)
    requires PhasesRight(agents, phases) && FindPhase(phases, id) == |phases|
    ensures PhasesRight(agents, phases + [Phase(id, Pending, false, [])])
  {
    var more := phases + [Phase(id, Pending, false, [])];
    NoMembers(agents, id);
    forall i | 0 <= i < |agents| && agents[i].phase.Some? ensures FindPhase(more, agents[i].phase.value) < |more| {
      StillFound(phases, more, agents[i].phase.value);
    }
  }

  /** Phase lists that differ only in status and completion. */
  lemma SamePhasesKeep(agents: seq<Agent>, phases: seq<Phase>, others: seq<Phase>)
    requires PhasesRight(agents, phases) && |others| == |phases|
    requires forall i :: 0 <= i < |phases| ==> others[i].id == phases[i].id && others[i].agentIds == phases[i].agentIds
    ensures PhasesRight(agents, others)
  {
    forall i | 0 <= i < |agents| && agents[i].phase.Some? ensures FindPhase(others, agents[i].phase.value) < |others| {
      StillFound(phases, others, agents[i].phase.value);
    }
  }

  lemma CloseApplies(s: State, status: RunStatus, agent: AgentStatus, attempt: AttemptStatus)
    requires Structured(s.agents, s.phases) && TerminalAgent(agent)
    ensures var t := s.(status := status, agents := CloseAgents(s.agents, agent, attempt));
      Structured(t.agents, t.phases) && Settled(t)
  {
    CloseKeeps(s.agents, agent, attempt);
    SameIdentitiesKeep(s.agents, CloseAgents(s.agents, agent, attempt), s.phases);
  }

  lemma ApplyKeeps(s: State, body: Body)
    requires Structured(s.agents, s.phases) && !TerminalRun(s.status) && Apply(s, body).Some?
    ensures var t := Apply(s, body).value; Structured(t.agents, t.phases) && Settled(t)
  {
    var t := Apply(s, body).value;
    if Subject(body).Some? {
      UpdateKeeps(s, Subject(body).value, body);
    } else {
      match body
      case RunFailed => CloseApplies(s, Failed, Faulty, Broken);
      case RunCancelled => CloseApplies(s, Cancelled, Aborted, Stopped);
      case RunInterrupted => CloseApplies(s, Interrupted, Faulty, Broken);
      case PhaseDiscovered(id) => DiscoverKeeps(s.agents, s.phases, id);
      case PhaseMoved(id, _) => SamePhasesKeep(s.agents, s.phases, t.phases);
      case AgentAdmitted(id, callIndex, of) => AdmitKeeps(s, id, callIndex, of);
      case _ =>
    }
  }

  lemma ApplyKeepsSequence(s: State, body: Body)
    requires Apply(s, body).Some?
    ensures Apply(s, body).value.sequence == s.sequence
  {
  }

  /** Every accepted event keeps the invariant, and none is accepted once the run is over. */
  lemma ReduceKeeps(s: State, e: Event)
    requires Inv(s) && Reduce(s, e).Some?
    ensures Inv(Reduce(s, e).value) && !TerminalRun(s.status) && Reduce(s, e).value.sequence > s.sequence
  {
    var t := Apply(s.(sequence := e.sequence), e.body).value;
    ApplyKeeps(s.(sequence := e.sequence), e.body);
    SamePhasesKeep(t.agents, t.phases, Finalize(t).phases);
    ApplyKeepsSequence(s.(sequence := e.sequence), e.body);
  }

  lemma {:induction false} ProjectKeeps(s: State, events: seq<Event>)
    requires Inv(s) && Project(s, events).Some?
    ensures Inv(Project(s, events).value)
    decreases |events|
  {
    if events != [] {
      ReduceKeeps(s, events[0]);
      ProjectKeeps(Reduce(s, events[0]).value, events[1..]);
    }
  }

  /** For every accepted event sequence: agents are strictly sorted by call index with distinct ids,
      attempts by number with distinct ids, each phase lists exactly its agents in call-index order,
      the status counts sum to the total, and once the run failed, was cancelled or was interrupted every
      agent is terminal. */
  lemma ProjectionIsConsistent(events: seq<Event>)
    requires Project(INITIAL, events).Some?
    ensures var s := Project(INITIAL, events).value;
      && AgentsSorted(s.agents) && AllAttemptsSorted(s.agents) && PhasesRight(s.agents, s.phases)
      && s.counts.total == |s.agents| == StatusSum(s.counts)
      && (Abandoned(s.status) ==> forall i :: 0 <= i < |s.agents| ==> TerminalAgent(s.agents[i].status))
  {
    assert Tally([], 0) == NO_COUNTS;
    ProjectKeeps(INITIAL, events);
    var s := Project(INITIAL, events).value;
    TallySums(s.agents, |s.agents|);
  }

  /** In an accepted event sequence no event but the last leaves the run terminal: every proper prefix
      projects, and to a run that is not over. */
  lemma {:induction false} TerminalRunsAbsorb(s: State, events: seq<Event>, k: nat)
    requires Project(s, events).Some? && k < |events|
    ensures Project(s, events[..k]).Some? && !TerminalRun(Project(s, events[..k]).value.status)
    decreases k
  {
    if k > 0 {
      TerminalRunsAbsorb(Reduce(s, events[0]).value, events[1..], k - 1);
      assert events[..k][0] == events[0] && events[..k][1..] == events[1..][..k - 1];
    }
  }
}

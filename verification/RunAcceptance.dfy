/** Which event may follow an accepted event sequence, told by the events before it. */
module RunAcceptance {
  import opened Common
  import opened RunProjection
  import opened RunProjectionInv
  import opened RunHistory

  ghost predicate WasAdmitted(events: seq<Event>, id: nat) {
    exists callIndex, of :: Happened(events, AgentAdmitted(id, callIndex, of))
  }

  ghost predicate WasStarted(events: seq<Event>, id: nat, attempt: nat) {
    exists number :: Happened(events, AgentStarted(id, attempt, number))
  }

  /** The attempt an event takes to exist. */
  function Named(b: Body): Option<nat> {
    match b
    case AttemptNoted(_, attempt) => Some(attempt)
    case AttemptStalled(_, attempt) => Some(attempt)
    case AgentUnresolved(_, attempt) => Some(attempt)
    case AgentCompleted(_, which, _) => which
    case AgentFailed(_, which, _) => which
    case AgentCancelled(_, which) => which
    case _ => None
  }

  /** An attempt starts once and under a new number, and is named after it started. */
  ghost predicate AttemptsPermit(events: seq<Event>, id: nat, b: Body) {
    if b.AgentStarted? then
      forall i, n :: Happened(events, AgentStarted(id, i, n)) ==> i != b.attempt && n != b.number
    else
      Named(b).Some? ==> WasStarted(events, id, Named(b).value)
  }

  /** The agent's id and call index were never announced. */
  ghost predicate IsNew(events: seq<Event>, id: nat, callIndex: nat) {
    forall i, c, p :: Happened(events, AgentAdmitted(i, c, p)) ==> i != id && c != callIndex
  }

  ghost predicate Permitted(events: seq<Event>, b: Body) {
    match b
    case PhaseDiscovered(phase) => !Happened(events, b)
    case PhaseMoved(phase, to) => Happened(events, PhaseDiscovered(phase)) && !to.Pending?
    case AgentAdmitted(id, callIndex, of) =>
      && IsNew(events, id, callIndex)
      && (of.Some? ==> Happened(events, PhaseDiscovered(of.value)))
    case _ => Subject(b).Some? ==> WasAdmitted(events, Subject(b).value) && AttemptsPermit(events, Subject(b).value, b)
  }

  lemma AttemptFound(a: Agent, events: seq<Event>, attempt: nat)
    requires AttemptsTold(a, events)
    ensures FindAttempt(a.attempts, attempt) < |a.attempts| <==> WasStarted(events, a.id, attempt)
  {
    var i := FindAttempt(a.attempts, attempt);
    if i < |a.attempts| {
      assert a.attempts[i] in a.attempts;
      assert Happened(events, AgentStarted(a.id, attempt, a.attempts[i].number));
    }
    if WasStarted(events, a.id, attempt) {
      var n :| Happened(events, AgentStarted(a.id, attempt, n));
      assert exists x :: x in a.attempts && x.id == attempt && x.number == n;
      var j :| 0 <= j < |a.attempts| && a.attempts[j].id == attempt;
    }
  }

  lemma StartPermittedIff(a: Agent, events: seq<Event>, b: Body)
    requires AttemptsTold(a, events) && b.AgentStarted? && b.agent == a.id
    ensures Updated(a, b).Some? <==> AttemptsPermit(events, a.id, b)
  {
    if j :| 0 <= j < |a.attempts| && (a.attempts[j].id == b.attempt || a.attempts[j].number == b.number) {
      assert a.attempts[j] in a.attempts;
      assert Happened(events, AgentStarted(a.id, a.attempts[j].id, a.attempts[j].number));
    } else {
      forall i, n | Happened(events, AgentStarted(a.id, i, n)) ensures i != b.attempt && n != b.number {
        var x :| x in a.attempts && x.id == i && x.number == n;
        var j :| 0 <= j < |a.attempts| && a.attempts[j] == x;
      }
    }
  }

  lemma NamedIff(a: Agent, b: Body)
    requires Subject(b) == Some(a.id) && !b.AgentStarted?
    ensures Updated(a, b).Some? <==> (Named(b).Some? ==> FindAttempt(a.attempts, Named(b).value) < |a.attempts|)
  {
  }

  lemma UpdatedIff(a: Agent, events: seq<Event>, b: Body)
    requires AttemptsTold(a, events) && Subject(b) == Some(a.id)
    ensures Updated(a, b).Some? <==> AttemptsPermit(events, a.id, b)
  {
    if b.AgentStarted? {
      StartPermittedIff(a, events, b);
    } else {
      NamedIff(a, b);
      if Named(b).Some? {
        AttemptFound(a, events, Named(b).value);
      }
    }
  }

  lemma AgentFound(agents: seq<Agent>, events: seq<Event>, id: nat)
    requires AgentsTold(agents, events)
    ensures FindAgent(agents, id) < |agents| <==> WasAdmitted(events, id)
  {
    var i := FindAgent(agents, id);
    if i < |agents| {
      assert agents[i] in agents;
      assert Happened(events, AgentAdmitted(id, agents[i].callIndex, agents[i].phase));
    }
    if WasAdmitted(events, id) {
      var callIndex, of :| Happened(events, AgentAdmitted(id, callIndex, of));
      var a :| a in agents && a.id == id && a.callIndex == callIndex && a.phase == of;
      var j :| 0 <= j < |agents| && agents[j] == a;
    }
  }

  lemma SubjectPermittedIff(s: State, events: seq<Event>, b: Body)
    requires AgentsTold(s.agents, events) && Subject(b).Some?
    ensures Apply(s, b).Some? <==> Permitted(events, b)
  {
    var id := Subject(b).value;
    AgentFound(s.agents, events, id);
    var i := FindAgent(s.agents, id);
    if i < |s.agents| {
      assert s.agents[i] in s.agents;
      UpdatedIff(s.agents[i], events, b);
    }
  }

  lemma PhaseFound(phases: seq<Phase>, events: seq<Event>, id: nat)
    requires PhasesTold(phases, events)
    ensures FindPhase(phases, id) < |phases| <==> Happened(events, PhaseDiscovered(id))
  {
    var i := FindPhase(phases, id);
    if i < |phases| {
      assert phases[i] in phases;
    }
    if Happened(events, PhaseDiscovered(id)) {
      var p :| p in phases && p.id == id;
      var j :| 0 <= j < |phases| && phases[j] == p;
    }
  }

  lemma NewIff(agents: seq<Agent>, events: seq<Event>, id: nat, callIndex: nat)
    requires AgentsTold(agents, events)
    ensures IsNew(events, id, callIndex) <==>
      forall i :: 0 <= i < |agents| ==> agents[i].id != id && agents[i].callIndex != callIndex
  {
    if i :| 0 <= i < |agents| && (agents[i].id == id || agents[i].callIndex == callIndex) {
      assert agents[i] in agents;
      assert Happened(events, AgentAdmitted(agents[i].id, agents[i].callIndex, agents[i].phase));
    } else {
      forall i, c, p | Happened(events, AgentAdmitted(i, c, p)) ensures i != id && c != callIndex {
        var a :| a in agents && a.id == i && a.callIndex == c && a.phase == p;
        var j :| 0 <= j < |agents| && agents[j] == a;
      }
    }
  }

  lemma AdmissionPermittedIff(s: State, events: seq<Event>, b: Body)
    requires AgentsTold(s.agents, events) && PhasesTold(s.phases, events) && b.AgentAdmitted?
    ensures Apply(s, b).Some? <==> Permitted(events, b)
  {
    if b.of.Some? {
      PhaseFound(s.phases, events, b.of.value);
    }
    NewIff(s.agents, events, b.agent, b.callIndex);
    assert Apply(s, b).Some? <==>
      IsNew(events, b.agent, b.callIndex) && (b.of.Some? ==> Happened(events, PhaseDiscovered(b.of.value)));
  }

  lemma PermittedIff(s: State, events: seq<Event>, b: Body)
    requires AgentsTold(s.agents, events) && PhasesTold(s.phases, events)
    ensures Apply(s, b).Some? <==> Permitted(events, b)
  {
    if Subject(b).Some? {
      SubjectPermittedIff(s, events, b);
    } else {
      match b
      case AgentAdmitted(_, _, _) => AdmissionPermittedIff(s, events, b);
      case PhaseDiscovered(phase) => PhaseFound(s.phases, events, phase);
      case PhaseMoved(phase, _) => PhaseFound(s.phases, events, phase);
      case _ =>
    }
  }

  lemma LastEnds(events: seq<Event>, k: nat)
    requires k < |events| && EndsRun(events[k].body)
    ensures TerminalRun(RunStatusOf(events[..k + 1]))
  {
    assert events[..k + 1] == events[..k] + [events[k]];
    LastOfPush(events[..k], events[k], MovesRun);
  }

  lemma StatusIsTold(events: seq<Event>)
    requires Project(INITIAL, events).Some?
    ensures Project(INITIAL, events).value.status == RunStatusOf(events)
  {
    SnapshotTellsHistory(events);
  }

  lemma PrefixIsTold(events: seq<Event>, k: nat)
    requires Project(INITIAL, events).Some? && k < |events|
    ensures !TerminalRun(RunStatusOf(events[..k]))
  {
    TerminalRunsAbsorb(INITIAL, events, k);
    StatusIsTold(events[..k]);
  }

  lemma EndIsLast(events: seq<Event>, k: nat)
    requires Project(INITIAL, events).Some? && k < |events| && EndsRun(events[k].body)
    ensures TerminalRun(Project(INITIAL, events).value.status)
  {
    LastEnds(events, k);
    StatusIsTold(events);
    if k + 1 < |events| {
      PrefixIsTold(events, k + 1);
    } else {
      assert events[..k + 1] == events;
    }
  }

  lemma TerminalEnds(events: seq<Event>)
    requires TerminalRun(RunStatusOf(events))
    ensures exists k :: 0 <= k < |events| && EndsRun(events[k].body)
  {
    var k := LastOfAt(events, MovesRun);
    assert EndsRun(events[k].body);
  }

  lemma OverIff(events: seq<Event>)
    requires Project(INITIAL, events).Some?
    ensures TerminalRun(Project(INITIAL, events).value.status) <==> exists k ::
      0 <= k < |events| && EndsRun(events[k].body)
  {
    StatusIsTold(events);
    if k :| 0 <= k < |events| && EndsRun(events[k].body) {
      EndIsLast(events, k);
    } else if TerminalRun(RunStatusOf(events)) {
      TerminalEnds(events);
    }
  }

  /** An event is accepted exactly when its sequence is next, the run is not over, and what it names was
      announced before and not twice. */
  lemma AcceptedIff(events: seq<Event>, e: Event)
    requires Project(INITIAL, events).Some?
    ensures Project(INITIAL, events + [e]).Some? <==>
      && e.sequence > LastSequence(events)
      && (forall k :: 0 <= k < |events| ==> !EndsRun(events[k].body))
      && Permitted(events, e.body)
  {
    var s := Project(INITIAL, events).value;
    SnapshotTellsHistory(events);
    ProjectPush(INITIAL, events, e);
    OverIff(events);
    PermittedIff(s.(sequence := e.sequence), events, e.body);
  }
}

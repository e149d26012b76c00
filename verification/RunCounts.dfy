/** The counts of a projected run snapshot: agents by status, and as many agents and attempts as began. */
module RunCounts {
  import opened Common
  import opened RunProjection
  import opened RunHistory

  function IfOne(b: bool): nat {
    if b then 1 else 0
  }

  /** How many agents have this status. */
  function Having(agents: seq<Agent>, status: AgentStatus): nat {
    |Filter(agents, (a: Agent) => a.status == status)|
  }

  function TotalAttempts(agents: seq<Agent>): nat {
    if agents == [] then 0 else |agents[0].attempts| + TotalAttempts(agents[1..])
  }

  lemma {:induction false} TotalPush(agents: seq<Agent>, a: Agent)
    ensures TotalAttempts(agents + [a]) == TotalAttempts(agents) + |a.attempts|
    decreases |agents|
  {
    if agents == [] {
      assert [a][1..] == [];
    } else {
      assert (agents + [a])[1..] == agents[1..] + [a];
      TotalPush(agents[1..], a);
    }
  }

  lemma HavingPush(agents: seq<Agent>, a: Agent, status: AgentStatus)
    ensures Having(agents + [a], status) == Having(agents, status) + IfOne(a.status == status)
  {
    FilterAppend(agents, [a], (x: Agent) => x.status == status);
    FilterOne(a, (x: Agent) => x.status == status);
  }

  ghost predicate CountsFit(c: Counts, agents: seq<Agent>) {
    && c.admitted == Having(agents, Admitted) && c.queued == Having(agents, Waiting)
    && c.running == Having(agents, Active) && c.completed == Having(agents, Succeeded)
    && c.failed == Having(agents, Faulty) && c.recoveryRequired == Having(agents, RecoveryRequired)
    && c.skipped == Having(agents, Skipped) && c.cancelled == Having(agents, Aborted)
  }

  lemma CountFits(c: Counts, agents: seq<Agent>, a: Agent)
    requires CountsFit(c, agents)
    ensures CountsFit(Count(c, a), agents + [a])
  {
    HavingPush(agents, a, Admitted);
    HavingPush(agents, a, Waiting);
    HavingPush(agents, a, Active);
    HavingPush(agents, a, Succeeded);
    HavingPush(agents, a, Faulty);
    HavingPush(agents, a, RecoveryRequired);
    HavingPush(agents, a, Skipped);
    HavingPush(agents, a, Aborted);
  }

  function Replayed(agents: seq<Agent>): nat {
    |Filter(agents, (a: Agent) => a.fromJournal)|
  }

  lemma ReplayedPush(agents: seq<Agent>, a: Agent)
    ensures Replayed(agents + [a]) == Replayed(agents) + IfOne(a.fromJournal)
  {
    FilterAppend(agents, [a], (x: Agent) => x.fromJournal);
    FilterOne(a, (x: Agent) => x.fromJournal);
  }

  lemma CountRest(c: Counts, a: Agent)
    ensures var d := Count(c, a);
      d.reused == c.reused + IfOne(a.fromJournal) && d.attempts == c.attempts + |a.attempts| && d.total == c.total
  {
  }

  /** Each count is the number of agents of that kind. */
  lemma {:induction false} TallyCounts(agents: seq<Agent>, total: nat)
    ensures var c := Tally(agents, total);
      CountsFit(c, agents) && c.reused == Replayed(agents) && c.attempts == TotalAttempts(agents) && c.total == total
    decreases |agents|
  {
    if agents != [] {
      var n := |agents| - 1;
      assert agents == agents[..n] + [agents[n]];
      TallyCounts(agents[..n], total);
      CountFits(Tally(agents[..n], total), agents[..n], agents[n]);
      CountRest(Tally(agents[..n], total), agents[n]);
      ReplayedPush(agents[..n], agents[n]);
      TotalPush(agents[..n], agents[n]);
    }
  }

  lemma {:induction false} TotalSame(agents: seq<Agent>, others: seq<Agent>)
    requires |others| == |agents| && forall i :: 0 <= i < |agents| ==> |others[i].attempts| == |agents[i].attempts|
    ensures TotalAttempts(others) == TotalAttempts(agents)
    decreases |agents|
  {
    if agents != [] {
      TotalSame(agents[1..], others[1..]);
    }
  }

  lemma {:induction false} TotalPut(agents: seq<Agent>, i: nat, a: Agent)
    requires i < |agents|
    ensures TotalAttempts(agents[i := a]) == TotalAttempts(agents) - |agents[i].attempts| + |a.attempts|
    decreases i
  {
    if i == 0 {
      assert agents[0 := a][1..] == agents[1..];
    } else {
      assert agents[i := a][1..] == agents[1..][i - 1 := a];
      TotalPut(agents[1..], i - 1, a);
    }
  }

  lemma {:induction false} TotalInserted(agents: seq<Agent>, a: Agent)
    ensures TotalAttempts(InsertAgent(agents, a)) == TotalAttempts(agents) + |a.attempts|
    ensures |InsertAgent(agents, a)| == |agents| + 1
    decreases |agents|
  {
    if agents == [] || a.callIndex < agents[0].callIndex {
      assert ([a] + agents)[1..] == agents;
    } else {
      TotalInserted(agents[1..], a);
      assert InsertAgent(agents, a)[1..] == InsertAgent(agents[1..], a);
    }
  }

  lemma {:induction false} InsertedLength(attempts: seq<Attempt>, x: Attempt)
    ensures |InsertAttempt(attempts, x)| == |attempts| + 1
    decreases |attempts|
  {
    if attempts != [] && x.number >= attempts[0].number {
      InsertedLength(attempts[1..], x);
    }
  }

  lemma UpdatedLength(a: Agent, b: Body)
    requires Updated(a, b).Some?
    ensures |Updated(a, b).value.attempts| == |a.attempts| + IfOne(b.AgentStarted?)
  {
    if b.AgentStarted? {
      InsertedLength(a.attempts, Attempt(b.attempt, b.number, Ongoing));
    }
  }

  lemma ApplyTotals(s: State, b: Body)
    requires Apply(s, b).Some?
    ensures var t := Apply(s, b).value;
      && TotalAttempts(t.agents) == TotalAttempts(s.agents) + IfOne(b.AgentStarted?)
      && |t.agents| == |s.agents| + IfOne(b.AgentAdmitted?)
  {
    if Subject(b).Some? {
      var i := FindAgent(s.agents, Subject(b).value);
      UpdatedLength(s.agents[i], b);
      TotalPut(s.agents, i, Updated(s.agents[i], b).value);
    } else if b.AgentAdmitted? {
      TotalInserted(s.agents, Fresh(b));
    } else {
      TotalSame(s.agents, Apply(s, b).value.agents);
    }
  }

  function Startings(events: seq<Event>): seq<Event> {
    Filter(events, (e: Event) => e.body.AgentStarted?)
  }

  function Admissions(events: seq<Event>): seq<Event> {
    Filter(events, (e: Event) => e.body.AgentAdmitted?)
  }

  lemma {:induction false} TotalsAre(events: seq<Event>)
    requires Project(INITIAL, events).Some?
    ensures var s := Project(INITIAL, events).value;
      TotalAttempts(s.agents) == |Startings(events)| && |s.agents| == |Admissions(events)|
    decreases |events|
  {
    if events != [] {
      var n := |events| - 1;
      assert events == events[..n] + [events[n]];
      ProjectPush(INITIAL, events[..n], events[n]);
      TotalsAre(events[..n]);
      var s := Project(INITIAL, events[..n]).value;
      ApplyTotals(s.(sequence := events[n].sequence), events[n].body);
    }
  }

  /** The counts of an accepted event sequence: agents by status, replayed agents, and as many agents and
      attempts as there are admissions and starts. */
  lemma CountsAreTold(events: seq<Event>)
    requires Project(INITIAL, events).Some?
    ensures var s := Project(INITIAL, events).value; var c := s.counts;
      && c.admitted == Having(s.agents, Admitted) && c.queued == Having(s.agents, Waiting)
      && c.running == Having(s.agents, Active) && c.completed == Having(s.agents, Succeeded)
      && c.failed == Having(s.agents, Faulty) && c.recoveryRequired == Having(s.agents, RecoveryRequired)
      && c.skipped == Having(s.agents, Skipped) && c.cancelled == Having(s.agents, Aborted)
      && c.reused == Replayed(s.agents)
      && c.total == |Admissions(events)| && c.attempts == |Startings(events)|
  {
    var s := Project(INITIAL, events).value;
    SnapshotTellsHistory(events);
    TallyCounts(s.agents, |s.agents|);
    TotalsAre(events);
  }
}

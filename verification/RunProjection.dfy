/**
  The event reducer of src/workflowState.ts:375-444 and 458-1027, over the parts of a run snapshot that its
  invariants speak of: agents, attempts, phases, counts and statuses.
 */
module RunProjection {
  import opened Common

  datatype RunStatus =
    | Queued | Running | CancellationRequested
    | Completed | CompletedWithErrors | Failed | Cancelled | Interrupted

  datatype AgentStatus = Admitted | Waiting | Active | Succeeded | Faulty | RecoveryRequired | Skipped | Aborted

  /** What a coverage gap may stand for. */
  type GapStatus = s: AgentStatus | s.Faulty? || s.RecoveryRequired? || s.Skipped? witness Faulty

  datatype AttemptStatus = Ongoing | Stalled | Ended | Broken | Unresolved | Stopped

  datatype Attempt = Attempt(id: nat, number: nat, status: AttemptStatus)

  datatype Agent = Agent(id: nat, callIndex: nat, phase: Option<nat>, status: AgentStatus, fromJournal: bool,
    attempts: seq<Attempt>)

  datatype PhaseStatus = Pending | Entered | Finished | Ruined

  datatype Phase = Phase(id: nat, status: PhaseStatus, complete: bool, agentIds: seq<nat>)

  datatype Counts = Counts(
    total: nat, admitted: nat, queued: nat, running: nat, completed: nat, failed: nat, recoveryRequired: nat,
      skipped: nat,
    cancelled: nat, reused: nat, attempts: nat)

  datatype State = State(sequence: nat, status: RunStatus, agents: seq<Agent>, phases: seq<Phase>, counts: Counts)

  /** Events that only note something about an agent or an attempt are grouped. */
  datatype Body =
    | RunStarted
    | RunCompleted(withErrors: bool)
    | RunFailed
    | CancellationAsked
    | RunCancelled
    | RunInterrupted
    | PhaseDiscovered(phase: nat)
    | PhaseMoved(phase: nat, to: PhaseStatus)
    | AgentAdmitted(agent: nat, callIndex: nat, of: Option<nat>)
    | AgentQueued(agent: nat)
    | AgentReused(agent: nat, gap: Option<GapStatus>)
    | AgentStarted(agent: nat, attempt: nat, number: nat)
    | AgentNoted(agent: nat)
    | AttemptNoted(agent: nat, attempt: nat)
    | AttemptStalled(agent: nat, attempt: nat)
    | AgentCompleted(agent: nat, which: Option<nat>, journal: bool)
    | AgentFailed(agent: nat, which: Option<nat>, retrying: bool)
    | AgentSkipped(agent: nat)
    | AgentUnresolved(agent: nat, attempt: nat)
    | AgentCancelled(agent: nat, which: Option<nat>)
    | Recorded

  datatype Event = Event(sequence: nat, body: Body)

  predicate TerminalRun(s: RunStatus) {
    s.Completed? || s.CompletedWithErrors? || s.Failed? || s.Cancelled? || s.Interrupted?
  }

  predicate TerminalAgent(s: AgentStatus) {
    s.Succeeded? || s.Faulty? || s.RecoveryRequired? || s.Skipped? || s.Aborted?
  }

  // ---------------------------------------------------------------------------------------------
  // Derived state
  // ---------------------------------------------------------------------------------------------

  const NO_COUNTS := Counts(0, 0, 0, 0, 0, 0, 0, 0, 0, 0, 0)

  function Count(c: Counts, a: Agent): Counts {
    var d := c.(attempts := c.attempts + |a.attempts|, reused := c.reused + (if a.fromJournal then 1 else 0));
    match a.status
    case Admitted => d.(admitted := d.admitted + 1)
    case Waiting => d.(queued := d.queued + 1)
    case Active => d.(running := d.running + 1)
    case Succeeded => d.(completed := d.completed + 1)
    case Faulty => d.(failed := d.failed + 1)
    case RecoveryRequired => d.(recoveryRequired := d.recoveryRequired + 1)
    case Skipped => d.(skipped := d.skipped + 1)
    case Aborted => d.(cancelled := d.cancelled + 1)
  }

  function Tally(agents: seq<Agent>, total: nat): Counts {
    if agents == [] then NO_COUNTS.(total := total)
      else Count(Tally(agents[..|agents| - 1], total), agents[|agents| - 1])
  }

  method DeriveCounts(agents: seq<Agent>) returns (counts: Counts)
    ensures counts == Tally(agents, |agents|)
  {
    counts := NO_COUNTS.(total := |agents|);
    var i := 0;
    assert agents[..0] == [];
    while i < |agents|
      invariant 0 <= i <= |agents| && counts == Tally(agents[..i], |agents|)
    {
      assert agents[..i + 1][..i] == agents[..i];
      counts := Count(counts, agents[i]);
      i := i + 1;
    }
    assert agents[..|agents|] == agents;
  }

  function StatusSum(c: Counts): nat {
    c.admitted + c.queued + c.running + c.completed + c.failed + c.recoveryRequired + c.skipped + c.cancelled
  }

  /** Each agent is counted under exactly one status. */
  lemma {:induction false} TallySums(agents: seq<Agent>, total: nat)
    ensures Tally(agents, total).total == total && StatusSum(Tally(agents, total)) == |agents|
    ensures Tally(agents, total).reused <= |agents|
    decreases |agents|
  {
    if agents != [] {
      TallySums(agents[..|agents| - 1], total);
    }
  }

  predicate AllTerminal(agents: seq<Agent>, ids: seq<nat>) {
    forall i :: 0 <= i < |ids| ==> exists j ::
      0 <= j < |agents| && agents[j].id == ids[i] &&
      TerminalAgent(agents[j].status)
  }

  function Derived(p: Phase, agents: seq<Agent>, status: RunStatus): Phase {
    p.(complete := p.status.Finished? || (!p.status.Ruined? && TerminalRun(status) && AllTerminal(agents, p.agentIds)))
  }

  function DerivePhases(phases: seq<Phase>, agents: seq<Agent>, status: RunStatus): (r: seq<Phase>)
    ensures |r| == |phases| && forall i :: 0 <= i < |r| ==> r[i] == Derived(phases[i], agents, status)
  {
    if phases == [] then [] else [Derived(phases[0], agents, status)] + DerivePhases(phases[1..], agents, status)
  }

  function Finalize(s: State): State {
    s.(counts := Tally(s.agents, |s.agents|), phases := DerivePhases(s.phases, s.agents, s.status))
  }

  // ---------------------------------------------------------------------------------------------
  // Updates
  // ---------------------------------------------------------------------------------------------

  function FindAgent(agents: seq<Agent>, id: nat): (i: nat)
    ensures i <= |agents| && (i < |agents| ==> agents[i].id == id) && (forall j :: 0 <= j < i ==> agents[j].id != id)
  {
    if agents == [] || agents[0].id == id then 0 else 1 + FindAgent(agents[1..], id)
  }

  function FindAttempt(attempts: seq<Attempt>, id: nat): (i: nat)
    ensures i <= |attempts| && (i < |attempts| ==> attempts[i].id == id) &&
      (forall j :: 0 <= j < i ==> attempts[j].id != id)
  {
    if attempts == [] || attempts[0].id == id then 0 else 1 + FindAttempt(attempts[1..], id)
  }

  function FindPhase(phases: seq<Phase>, id: nat): (i: nat)
    ensures i <= |phases| && (i < |phases| ==> phases[i].id == id) && (forall j :: 0 <= j < i ==> phases[j].id != id)
  {
    if phases == [] || phases[0].id == id then 0 else 1 + FindPhase(phases[1..], id)
  }

  function WithAttempt(a: Agent, attempt: nat, status: AttemptStatus): Option<Agent> {
    var i := FindAttempt(a.attempts, attempt);
    if i == |a.attempts| then None else Some(a.(attempts := a.attempts[i := a.attempts[i].(status := status)]))
  }

  function InsertAttempt(attempts: seq<Attempt>, attempt: Attempt): seq<Attempt> {
    if attempts == [] || attempt.number < attempts[0].number then [attempt] + attempts
    else [attempts[0]] + InsertAttempt(attempts[1..], attempt)
  }

  /** What an event does to the agent it names; `None` where the reducer throws. */
  function Updated(a: Agent, body: Body): Option<Agent> {
    match body
    case AgentQueued(_) => Some(a.(status := Waiting))
    case AgentReused(_, gap) =>
      if gap.Some? then Some(a.(status := gap.value, fromJournal := true))
        else Some(a.(status := Succeeded, fromJournal := true))
    case AgentStarted(_, attempt, number) =>
      if exists i :: 0 <= i < |a.attempts| && (a.attempts[i].id == attempt || a.attempts[i].number == number) then None
      else Some(a.(status := Active, attempts := InsertAttempt(a.attempts, Attempt(attempt, number, Ongoing))))
    case AgentNoted(_) => Some(a)
    case AttemptNoted(_, attempt) => if FindAttempt(a.attempts, attempt) == |a.attempts| then None else Some(a)
    case AttemptStalled(_, attempt) => WithAttempt(a, attempt, Stalled)
    case AgentCompleted(_, which, journal) =>
      var b := if which.Some? then WithAttempt(a, which.value, Ended) else Some(a);
      if b.None? then None else Some(b.value.(status := Succeeded, fromJournal := journal))
    case AgentFailed(_, which, retrying) =>
      var b := if which.Some? then WithAttempt(a, which.value, Broken) else Some(a);
      if b.None? then None else Some(b.value.(status := if retrying then Waiting else Faulty))
    case AgentSkipped(_) => Some(a.(status := Skipped))
    case AgentUnresolved(_, attempt) =>
      var b := WithAttempt(a, attempt, Unresolved);
      if b.None? then None else Some(b.value.(status := RecoveryRequired))
    case AgentCancelled(_, which) =>
      if which.None? then Some(a.(status := Aborted))
      else
        var i := FindAttempt(a.attempts, which.value);
        if i == |a.attempts| then None
        else if a.attempts[i].status.Ongoing? || a.attempts[i].status.Stalled? then
          Some(a.(status := Aborted, attempts := a.attempts[i := a.attempts[i].(status := Stopped)]))
        else Some(a.(status := Aborted))
    case _ => None
  }

  function ClosedAttempts(attempts: seq<Attempt>, status: AttemptStatus): (r: seq<Attempt>)
    ensures |r| == |attempts|
    ensures forall i :: 0 <= i < |r| ==> r[i].id == attempts[i].id && r[i].number == attempts[i].number
    ensures forall i :: 0 <= i < |r| ==> !r[i].status.Ongoing? || status.Ongoing?
  {
    if attempts == [] then []
    else
      var a := attempts[0];
      [if a.status.Ongoing? || a.status.Stalled? then a.(status := status) else a] +
        ClosedAttempts(attempts[1..], status)
  }

  function Closed(a: Agent, status: AgentStatus, attempt: AttemptStatus): Agent {
    if TerminalAgent(a.status) then a else a.(status := status, attempts := ClosedAttempts(a.attempts, attempt))
  }

  function CloseAgents(agents: seq<Agent>, status: AgentStatus, attempt: AttemptStatus): (r: seq<Agent>)
    ensures |r| == |agents| && forall i :: 0 <= i < |r| ==> r[i] == Closed(agents[i], status, attempt)
  {
    if agents == [] then [] else [Closed(agents[0], status, attempt)] + CloseAgents(agents[1..], status, attempt)
  }

  function InsertAgent(agents: seq<Agent>, a: Agent): seq<Agent> {
    if agents == [] || a.callIndex < agents[0].callIndex then [a] + agents
      else [agents[0]] + InsertAgent(agents[1..], a)
  }

  function CallIndexOf(agents: seq<Agent>, id: nat): nat {
    var i := FindAgent(agents, id);
    if i < |agents| then agents[i].callIndex else 0
  }

  function InsertMember(ids: seq<nat>, id: nat, agents: seq<Agent>): seq<nat> {
    if ids == [] || CallIndexOf(agents, id) < CallIndexOf(agents, ids[0]) then [id] + ids
    else [ids[0]] + InsertMember(ids[1..], id, agents)
  }

  function Admit(s: State, id: nat, callIndex: nat, of: Option<nat>): Option<State> {
    if exists i :: 0 <= i < |s.agents| && (s.agents[i].id == id || s.agents[i].callIndex == callIndex) then None
    else
      var agents := InsertAgent(s.agents, Agent(id, callIndex, of, Admitted, false, []));
      if of.None? then Some(s.(agents := agents))
      else
        var i := FindPhase(s.phases, of.value);
        if i == |s.phases| then None
        else Some(s.(agents := agents,
          phases := s.phases[i := s.phases[i].(agentIds := InsertMember(s.phases[i].agentIds, id, agents))]))
  }

  /** The agent an event updates. */
  function Subject(body: Body): Option<nat> {
    match body
    case AgentQueued(a) => Some(a)
    case AgentReused(a, _) => Some(a)
    case AgentStarted(a, _, _) => Some(a)
    case AgentNoted(a) => Some(a)
    case AttemptNoted(a, _) => Some(a)
    case AttemptStalled(a, _) => Some(a)
    case AgentCompleted(a, _, _) => Some(a)
    case AgentFailed(a, _, _) => Some(a)
    case AgentSkipped(a) => Some(a)
    case AgentUnresolved(a, _) => Some(a)
    case AgentCancelled(a, _) => Some(a)
    case _ => None
  }

  function UpdateAgent(s: State, id: nat, body: Body): Option<State> {
    var i := FindAgent(s.agents, id);
    if i == |s.agents| then None
    else
      var a := Updated(s.agents[i], body);
      if a.None? then None else Some(s.(agents := s.agents[i := a.value]))
  }

  function Apply(s: State, body: Body): Option<State> {
    if Subject(body).Some? then UpdateAgent(s, Subject(body).value, body)
    else
      match body
      case RunStarted => Some(s.(status := Running))
      case RunCompleted(withErrors) => Some(s.(status := if withErrors then CompletedWithErrors else Completed))
      case RunFailed => Some(s.(status := Failed, agents := CloseAgents(s.agents, Faulty, Broken)))
      case CancellationAsked => Some(s.(status := CancellationRequested))
      case RunCancelled => Some(s.(status := Cancelled, agents := CloseAgents(s.agents, Aborted, Stopped)))
      case RunInterrupted => Some(s.(status := Interrupted, agents := CloseAgents(s.agents, Faulty, Broken)))
      case PhaseDiscovered(id) =>
        if FindPhase(s.phases, id) < |s.phases| then None
          else Some(s.(phases := s.phases + [Phase(id, Pending, false, [])]))
      case PhaseMoved(id, to) =>
        var i := FindPhase(s.phases, id);
        if i == |s.phases| || to.Pending? then None else Some(s.(phases := s.phases[i := s.phases[i].(status := to)]))
      case AgentAdmitted(id, callIndex, of) => Admit(s, id, callIndex, of)
      case _ => Some(s)
  }

  /** `reduceWorkflowState`; `None` where it throws. */
  function Reduce(s: State, e: Event): Option<State> {
    if e.sequence <= s.sequence || TerminalRun(s.status) then None
    else
      var t := Apply(s.(sequence := e.sequence), e.body);
      if t.None? then None else Some(Finalize(t.value))
  }

  const INITIAL := State(0, Queued, [], [], NO_COUNTS)

  function Project(s: State, events: seq<Event>): Option<State>
    decreases |events|
  {
    if events == [] then Some(s)
    else
      var t := Reduce(s, events[0]);
      if t.None? then None else Project(t.value, events[1..])
  }

  /** `projectWorkflowState` */
  method ProjectWorkflowState(events: seq<Event>) returns (s: Option<State>)
    ensures s == Project(INITIAL, events)
  {
    var state := INITIAL;
    var i := 0;
    assert events[0..] == events;
    while i < |events|
      invariant 0 <= i <= |events| && Project(INITIAL, events) == Project(state, events[i..])
    {
      assert events[i..][1..] == events[i + 1..];
      var next := Reduce(state, events[i]);
      if next.None? {
        return None;
      }
      state := next.value;
      i := i + 1;
    }
    s := Some(state);
  }
}

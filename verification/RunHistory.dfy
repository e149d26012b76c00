/**
  What a projected run snapshot says, told by the event list alone: each status is what the last event that
  moves it leaves, unless the end of the run closed it; and an event is accepted exactly when the events
  before it allow it.
 */
module RunHistory {
  import opened Common
  import opened RunProjection
  import opened RunProjectionInv

  ghost predicate Happened(events: seq<Event>, b: Body) {
    exists k :: 0 <= k < |events| && events[k].body == b
  }

  /** The last event body that satisfies `p`. */
  ghost function LastOf(events: seq<Event>, p: Body -> bool): Option<Body> {
    var last := LastWhere(events, (e: Event) => p(e.body));
    if last.Some? then Some(last.value.body) else None
  }

  lemma LastOfHolds(events: seq<Event>, p: Body -> bool)
    ensures LastOf(events, p).None? <==> forall k :: 0 <= k < |events| ==> !p(events[k].body)
  {
    LastWhereNone(events, (e: Event) => p(e.body));
  }

  lemma LastOfAt(events: seq<Event>, p: Body -> bool) returns (k: nat)
    requires LastOf(events, p).Some?
    ensures k < |events| && p(events[k].body) && LastOf(events, p) == Some(events[k].body)
    ensures forall j :: k < j < |events| ==> !p(events[j].body)
  {
    k := LastWhereAt(events, (e: Event) => p(e.body));
  }

  lemma LastOfPush(events: seq<Event>, e: Event, p: Body -> bool)
    ensures LastOf(events + [e], p) == if p(e.body) then Some(e.body) else LastOf(events, p)
  {
    LastWherePush(events, e, (x: Event) => p(x.body));
  }

  lemma HappenedPush(events: seq<Event>, e: Event, b: Body)
    ensures Happened(events + [e], b) <==> Happened(events, b) || e.body == b
  {
    var more := events + [e];
    assert more[|events|] == e && forall k :: 0 <= k < |events| ==> more[k] == events[k];
  }

  // ---------------------------------------------------------------------------------------------
  // Statuses
  // ---------------------------------------------------------------------------------------------

  predicate MovesRun(b: Body) {
    b.RunStarted? || b.RunCompleted? || b.RunFailed? || b.CancellationAsked? || b.RunCancelled? || b.RunInterrupted?
  }

  predicate EndsRun(b: Body) {
    b.RunCompleted? || b.RunFailed? || b.RunCancelled? || b.RunInterrupted?
  }

  ghost function RunStatusOf(events: seq<Event>): RunStatus {
    match LastOf(events, MovesRun)
    case Some(RunStarted) => Running
    case Some(RunCompleted(withErrors)) => if withErrors then CompletedWithErrors else Completed
    case Some(RunFailed) => Failed
    case Some(CancellationAsked) => CancellationRequested
    case Some(RunCancelled) => Cancelled
    case Some(RunInterrupted) => Interrupted
    case _ => Queued
  }

  /** What such an end of the run makes of an agent that is not done, and of an attempt that is open. */
  function Closes(b: Body): Option<(AgentStatus, AttemptStatus)> {
    match b
    case RunFailed => Some((Faulty, Broken))
    case RunInterrupted => Some((Faulty, Broken))
    case RunCancelled => Some((Aborted, Stopped))
    case _ => None
  }

  ghost function Closing(events: seq<Event>): Option<(AgentStatus, AttemptStatus)> {
    var last := LastOf(events, MovesRun);
    if last.Some? then Closes(last.value) else None
  }

  predicate MovesAgent(b: Body, id: nat) {
    match b
    case AgentAdmitted(a, _, _) => a == id
    case AgentQueued(a) => a == id
    case AgentReused(a, _) => a == id
    case AgentStarted(a, _, _) => a == id
    case AgentCompleted(a, _, _) => a == id
    case AgentFailed(a, _, _) => a == id
    case AgentSkipped(a) => a == id
    case AgentUnresolved(a, _) => a == id
    case AgentCancelled(a, _) => a == id
    case _ => false
  }

  /** The last event that moves agent `id`. */
  ghost function AgentMove(events: seq<Event>, id: nat): Option<Body> {
    LastOf(events, (b: Body) => MovesAgent(b, id))
  }

  /** The status such an event leaves. */
  function Leaves(b: Body): AgentStatus {
    match b
    case AgentQueued(_) => Waiting
    case AgentReused(_, gap) => if gap.Some? then gap.value else Succeeded
    case AgentStarted(_, _, _) => Active
    case AgentCompleted(_, _, _) => Succeeded
    case AgentFailed(_, _, retrying) => if retrying then Waiting else Faulty
    case AgentSkipped(_) => Skipped
    case AgentUnresolved(_, _) => RecoveryRequired
    case AgentCancelled(_, _) => Aborted
    case _ => Admitted
  }

  ghost function AgentLeft(events: seq<Event>, id: nat): AgentStatus {
    var last := AgentMove(events, id);
    if last.Some? then Leaves(last.value) else Admitted
  }

  predicate Done(status: AgentStatus) {
    status.Succeeded? || status.Faulty? || status.RecoveryRequired? || status.Skipped? || status.Aborted?
  }

  ghost function AgentStatusOf(events: seq<Event>, id: nat): AgentStatus {
    var left, closing := AgentLeft(events, id), Closing(events);
    if Done(left) || closing.None? then left else closing.value.0
  }

  predicate Answers(b: Body, id: nat) {
    (b.AgentReused? || b.AgentCompleted?) && b.agent == id
  }

  predicate FromJournal(b: Body) {
    b.AgentReused? || (b.AgentCompleted? && b.journal)
  }

  /** The last answer of agent `id` came from the journal. */
  ghost predicate ReplayedLast(events: seq<Event>, id: nat) {
    var last := LastOf(events, (b: Body) => Answers(b, id));
    last.Some? && FromJournal(last.value)
  }

  predicate MovesAttempt(b: Body, id: nat, attempt: nat) {
    match b
    case AgentStarted(a, i, _) => a == id && i == attempt
    case AttemptStalled(a, i) => a == id && i == attempt
    case AgentCompleted(a, which, _) => a == id && which == Some(attempt)
    case AgentFailed(a, which, _) => a == id && which == Some(attempt)
    case AgentUnresolved(a, i) => a == id && i == attempt
    case _ => false
  }

  ghost function AttemptMove(events: seq<Event>, id: nat, attempt: nat): Option<Body> {
    LastOf(events, (b: Body) => MovesAttempt(b, id, attempt))
  }

  function LeavesAttempt(b: Body): AttemptStatus {
    match b
    case AttemptStalled(_, _) => Stalled
    case AgentCompleted(_, _, _) => Ended
    case AgentFailed(_, _, _) => Broken
    case AgentUnresolved(_, _) => Unresolved
    case _ => Ongoing
  }

  ghost function AttemptLeft(events: seq<Event>, id: nat, attempt: nat): AttemptStatus {
    var last := AttemptMove(events, id, attempt);
    if last.Some? then LeavesAttempt(last.value) else Ongoing
  }

  /** The agent was cancelled in this attempt after the last event that moves the attempt. */
  ghost predicate CancelledSince(events: seq<Event>, id: nat, attempt: nat) {
    var last := LastOf(events, (b: Body) => MovesAttempt(b, id, attempt) || b == AgentCancelled(id, Some(attempt)));
    last.Some? && last.value.AgentCancelled?
  }

  predicate IsOpen(status: AttemptStatus) {
    status.Ongoing? || status.Stalled?
  }

  ghost function AttemptStatusOf(events: seq<Event>, id: nat, attempt: nat): AttemptStatus {
    var left, closing := AttemptLeft(events, id, attempt), Closing(events);
    if !IsOpen(left) then left
    else if CancelledSince(events, id, attempt) then Stopped
    else if Done(AgentLeft(events, id)) || closing.None? then left
    else closing.value.1
  }

  predicate MovesPhase(b: Body, id: nat) {
    match b
    case PhaseDiscovered(p) => p == id
    case PhaseMoved(p, _) => p == id
    case _ => false
  }

  ghost function PhaseStatusOf(events: seq<Event>, id: nat): PhaseStatus {
    match LastOf(events, (b: Body) => MovesPhase(b, id))
    case Some(PhaseMoved(_, to)) => to
    case _ => Pending
  }

  // ---------------------------------------------------------------------------------------------
  // What the snapshot says of each agent
  // ---------------------------------------------------------------------------------------------

  /** The attempts are those that started, in the statuses the events leave. */
  ghost predicate AttemptsTold(a: Agent, events: seq<Event>) {
    && (forall x :: x in a.attempts ==>
          Happened(events, AgentStarted(a.id, x.id, x.number)) && x.status == AttemptStatusOf(events, a.id, x.id))
    && (forall i, n :: Happened(events, AgentStarted(a.id, i, n)) ==>
          exists x :: x in a.attempts && x.id == i && x.number == n)
  }

  ghost predicate AgentTold(a: Agent, events: seq<Event>) {
    && Happened(events, AgentAdmitted(a.id, a.callIndex, a.phase))
    && a.status == AgentStatusOf(events, a.id)
    && a.fromJournal == ReplayedLast(events, a.id)
    && AttemptsTold(a, events)
  }

  /** What an accepted event makes of an agent that was there before. */
  function Touched(a: Agent, b: Body): Agent {
    if Subject(b) == Some(a.id) then
      var u := Updated(a, b);
      if u.Some? then u.value else a
    else
      match b
      case RunFailed => Closed(a, Faulty, Broken)
      case RunCancelled => Closed(a, Aborted, Stopped)
      case RunInterrupted => Closed(a, Faulty, Broken)
      case _ => a
  }

  /** The event may follow, as far as this agent is concerned. */
  ghost predicate Fits(a: Agent, events: seq<Event>, b: Body) {
    && AttemptsSorted(a.attempts) && Closing(events).None?
    && !(b.AgentAdmitted? && b.agent == a.id)
    && (Subject(b) == Some(a.id) ==> Updated(a, b).Some?)
  }

  lemma ClosingPush(events: seq<Event>, e: Event)
    requires Closing(events).None?
    ensures Closing(events + [e]) == Closes(e.body)
  {
    LastOfPush(events, e, MovesRun);
  }

  lemma AgentMovePush(events: seq<Event>, e: Event, id: nat)
    ensures AgentMove(events + [e], id) == if MovesAgent(e.body, id) then Some(e.body) else AgentMove(events, id)
  {
    LastOfPush(events, e, (b: Body) => MovesAgent(b, id));
  }

  lemma TouchedStatus(a: Agent, b: Body)
    requires (Subject(b) == Some(a.id) ==> Updated(a, b).Some?) && !(b.AgentAdmitted? && b.agent == a.id)
    ensures Touched(a, b).status ==
      if MovesAgent(b, a.id) then Leaves(b)
      else if Done(a.status) || Closes(b).None? then a.status
      else Closes(b).value.0
    ensures MovesAgent(b, a.id) ==> Closes(b).None?
  {
  }

  lemma StatusStep(a: Agent, events: seq<Event>, e: Event)
    requires Fits(a, events, e.body) && a.status == AgentStatusOf(events, a.id)
    ensures Touched(a, e.body).status == AgentStatusOf(events + [e], a.id)
  {
    ClosingPush(events, e);
    AgentMovePush(events, e, a.id);
    TouchedStatus(a, e.body);
  }

  lemma TouchedJournal(a: Agent, b: Body)
    requires Subject(b) == Some(a.id) ==> Updated(a, b).Some?
    ensures Touched(a, b).fromJournal == if Answers(b, a.id) then FromJournal(b) else a.fromJournal
  {
  }

  lemma ReplayedStep(a: Agent, events: seq<Event>, e: Event)
    requires Fits(a, events, e.body) && a.fromJournal == ReplayedLast(events, a.id)
    ensures Touched(a, e.body).fromJournal == ReplayedLast(events + [e], a.id)
  {
    LastOfPush(events, e, (b: Body) => Answers(b, a.id));
    TouchedJournal(a, e.body);
  }

  lemma AttemptMovePush(events: seq<Event>, e: Event, id: nat, attempt: nat)
    ensures AttemptMove(events + [e], id, attempt) ==
      if MovesAttempt(e.body, id, attempt) then Some(e.body) else AttemptMove(events, id, attempt)
  {
    LastOfPush(events, e, (b: Body) => MovesAttempt(b, id, attempt));
  }

  lemma CancelledPush(events: seq<Event>, e: Event, id: nat, attempt: nat)
    ensures CancelledSince(events + [e], id, attempt) <==>
      e.body == AgentCancelled(id, Some(attempt)) ||
      (!MovesAttempt(e.body, id, attempt) && CancelledSince(events, id, attempt))
  {
    LastOfPush(events, e, (b: Body) => MovesAttempt(b, id, attempt) || b == AgentCancelled(id, Some(attempt)));
  }

  lemma AttemptPush(events: seq<Event>, e: Event, id: nat, attempt: nat)
    ensures AttemptLeft(events + [e], id, attempt) ==
      if MovesAttempt(e.body, id, attempt) then LeavesAttempt(e.body) else AttemptLeft(events, id, attempt)
    ensures CancelledSince(events + [e], id, attempt) <==>
      e.body == AgentCancelled(id, Some(attempt)) ||
      (!MovesAttempt(e.body, id, attempt) && CancelledSince(events, id, attempt))
  {
    AttemptMovePush(events, e, id, attempt);
    CancelledPush(events, e, id, attempt);
  }

  /** What the event does to one attempt of the agent. */
  function Stepped(a: Agent, x: Attempt, b: Body): AttemptStatus {
    if MovesAttempt(b, a.id, x.id) then LeavesAttempt(b)
    else if !IsOpen(x.status) then x.status
    else if b == AgentCancelled(a.id, Some(x.id)) then Stopped
    else if Closes(b).Some? && !Done(a.status) then Closes(b).value.1
    else x.status
  }

  lemma MoversAreApart(b: Body, id: nat, attempt: nat)
    ensures Closes(b).Some? ==> !MovesAgent(b, id) && !MovesAttempt(b, id, attempt)
    ensures MovesAttempt(b, id, attempt) ==> b != AgentCancelled(id, Some(attempt))
    ensures b == AgentCancelled(id, Some(attempt)) ==> Closes(b).None?
    ensures IsOpen(LeavesAttempt(b)) ==>
      !b.AgentCompleted? && !b.AgentFailed? && !b.AgentUnresolved?
  {
  }

  lemma SteppedIs(a: Agent, events: seq<Event>, e: Event, x: Attempt)
    requires Closing(events).None? && a.status == AgentStatusOf(events, a.id)
    requires x.status == AttemptStatusOf(events, a.id, x.id)
    ensures Stepped(a, x, e.body) == AttemptStatusOf(events + [e], a.id, x.id)
  {
    ClosingPush(events, e);
    AgentMovePush(events, e, a.id);
    AttemptPush(events, e, a.id, x.id);
    MoversAreApart(e.body, a.id, x.id);
  }

  /** Attempt `x` of the touched agent is `y` moved on. */
  ghost predicate StepsFrom(a: Agent, b: Body, y: Attempt, x: Attempt) {
    y in a.attempts && x == y.(status := Stepped(a, y, b))
  }

  ghost predicate NewAttempt(a: Agent, b: Body, x: Attempt) {
    b == AgentStarted(a.id, x.id, x.number) && x.status.Ongoing?
  }

  ghost predicate AttemptsStepped(a: Agent, b: Body, attempts: seq<Attempt>) {
    && (forall x :: x in attempts ==> NewAttempt(a, b, x) || exists y :: StepsFrom(a, b, y, x))
    && (forall y :: y in a.attempts ==> y.(status := Stepped(a, y, b)) in attempts)
    && (b.AgentStarted? && b.agent == a.id ==> Attempt(b.attempt, b.number, Ongoing) in attempts)
  }

  lemma EachStepped(a: Agent, b: Body, attempts: seq<Attempt>)
    requires |attempts| == |a.attempts| && !(b.AgentStarted? && b.agent == a.id)
    requires forall j :: 0 <= j < |attempts| ==> attempts[j] == a.attempts[j].(status := Stepped(a, a.attempts[j], b))
    ensures AttemptsStepped(a, b, attempts)
  {
    forall x | x in attempts ensures exists y :: StepsFrom(a, b, y, x) {
      var j :| 0 <= j < |attempts| && attempts[j] == x;
      assert StepsFrom(a, b, a.attempts[j], x);
    }
    forall y | y in a.attempts ensures y.(status := Stepped(a, y, b)) in attempts {
      var j :| 0 <= j < |attempts| && a.attempts[j] == y;
      assert attempts[j] in attempts;
    }
  }

  /** Attempt `i` becomes `status`, the others stay. */
  lemma OneStepped(a: Agent, b: Body, i: nat, status: AttemptStatus)
    requires i < |a.attempts| && !b.AgentStarted? && Stepped(a, a.attempts[i], b) == status
    requires forall j :: 0 <= j < |a.attempts| && j != i ==> Stepped(a, a.attempts[j], b) == a.attempts[j].status
    ensures AttemptsStepped(a, b, a.attempts[i := a.attempts[i].(status := status)])
  {
    EachStepped(a, b, a.attempts[i := a.attempts[i].(status := status)]);
  }

  lemma NoneStepped(a: Agent, b: Body)
    requires !b.AgentStarted? || b.agent != a.id
    requires forall y :: y in a.attempts ==> Stepped(a, y, b) == y.status
    ensures AttemptsStepped(a, b, a.attempts)
  {
    EachStepped(a, b, a.attempts);
  }

  lemma StartedSteps(a: Agent, b: Body)
    requires b.AgentStarted? && b.agent == a.id && AttemptsSorted(a.attempts) && Updated(a, b).Some?
    ensures AttemptsStepped(a, b, Updated(a, b).value.attempts)
  {
    InsertAttemptHolds(a.attempts, Attempt(b.attempt, b.number, Ongoing));
    forall y | y in a.attempts ensures StepsFrom(a, b, y, y) && y == y.(status := Stepped(a, y, b)) {
    }
  }

  lemma {:induction false} ClosedSteps(a: Agent, b: Body, attempts: seq<Attempt>, status: AttemptStatus)
    requires forall y :: y in attempts ==> y in a.attempts
    requires forall y :: y in attempts ==> Stepped(a, y, b) == if IsOpen(y.status) then status else y.status
    ensures forall x :: x in ClosedAttempts(attempts, status) ==> exists y :: StepsFrom(a, b, y, x)
    ensures forall y :: y in attempts ==> y.(status := Stepped(a, y, b)) in ClosedAttempts(attempts, status)
    decreases |attempts|
  {
    if attempts != [] {
      assert attempts == [attempts[0]] + attempts[1..];
      ClosedSteps(a, b, attempts[1..], status);
      assert StepsFrom(a, b, attempts[0], ClosedAttempts(attempts, status)[0]);
    }
  }

  lemma NamedSteps(a: Agent, b: Body, attempt: nat)
    requires AttemptsSorted(a.attempts) && MovesAttempt(b, a.id, attempt) && !b.AgentStarted?
    requires FindAttempt(a.attempts, attempt) < |a.attempts|
    ensures var i := FindAttempt(a.attempts, attempt);
      AttemptsStepped(a, b, a.attempts[i := a.attempts[i].(status := LeavesAttempt(b))])
  {
    var i := FindAttempt(a.attempts, attempt);
    forall j | 0 <= j < |a.attempts| && j != i ensures a.attempts[j].id != attempt {
    }
    OneStepped(a, b, i, LeavesAttempt(b));
  }

  lemma CancelSteps(a: Agent, b: Body)
    requires b.AgentCancelled? && b.agent == a.id && AttemptsSorted(a.attempts) && Updated(a, b).Some?
    ensures AttemptsStepped(a, b, Updated(a, b).value.attempts)
  {
    if b.which.None? {
      NoneStepped(a, b);
    } else {
      var i := FindAttempt(a.attempts, b.which.value);
      forall j | 0 <= j < |a.attempts| && j != i ensures a.attempts[j].id != b.which.value {
      }
      if IsOpen(a.attempts[i].status) {
        OneStepped(a, b, i, Stopped);
      } else {
        forall y | y in a.attempts ensures Stepped(a, y, b) == y.status {
          var j :| 0 <= j < |a.attempts| && a.attempts[j] == y;
        }
        NoneStepped(a, b);
      }
    }
  }

  lemma UpdatedSteps(a: Agent, b: Body)
    requires AttemptsSorted(a.attempts) && Subject(b) == Some(a.id) && Updated(a, b).Some?
    ensures AttemptsStepped(a, b, Updated(a, b).value.attempts)
  {
    match b
    case AgentStarted(_, _, _) => StartedSteps(a, b);
    case AttemptStalled(_, attempt) => NamedSteps(a, b, attempt);
    case AgentCompleted(_, which, _) =>
      if which.Some? {
        NamedSteps(a, b, which.value);
      } else {
        NoneStepped(a, b);
      }
    case AgentFailed(_, which, _) =>
      if which.Some? {
        NamedSteps(a, b, which.value);
      } else {
        NoneStepped(a, b);
      }
    case AgentUnresolved(_, attempt) => NamedSteps(a, b, attempt);
    case AgentCancelled(_, _) => CancelSteps(a, b);
    case _ => NoneStepped(a, b);
  }

  lemma TouchedSteps(a: Agent, b: Body)
    requires AttemptsSorted(a.attempts) && (Subject(b) == Some(a.id) ==> Updated(a, b).Some?)
    ensures AttemptsStepped(a, b, Touched(a, b).attempts) && Touched(a, b).id == a.id
  {
    if Subject(b) == Some(a.id) {
      UpdatedSteps(a, b);
      UpdatedKeeps(a, b);
    } else {
      assert forall y :: y in a.attempts ==> !MovesAttempt(b, a.id, y.id);
      if Closes(b).Some? && !Done(a.status) {
        ClosedSteps(a, b, a.attempts, Closes(b).value.1);
      } else {
        NoneStepped(a, b);
      }
    }
  }

  lemma StartedIsNew(events: seq<Event>, e: Event, a: Agent, x: Attempt)
    requires Closing(events).None? && NewAttempt(a, e.body, x)
    ensures AttemptStatusOf(events + [e], a.id, x.id) == Ongoing
  {
    ClosingPush(events, e);
    AttemptPush(events, e, a.id, x.id);
  }

  lemma OldAttemptsTold(a: Agent, events: seq<Event>, e: Event, x: Attempt)
    requires Closing(events).None? && a.status == AgentStatusOf(events, a.id) && AttemptsTold(a, events)
    requires NewAttempt(a, e.body, x) || exists y :: StepsFrom(a, e.body, y, x)
    ensures Happened(events + [e], AgentStarted(a.id, x.id, x.number))
    ensures x.status == AttemptStatusOf(events + [e], a.id, x.id)
  {
    HappenedPush(events, e, AgentStarted(a.id, x.id, x.number));
    if NewAttempt(a, e.body, x) {
      StartedIsNew(events, e, a, x);
    } else {
      var y :| StepsFrom(a, e.body, y, x);
      SteppedIs(a, events, e, y);
    }
  }

  lemma AttemptsStep(a: Agent, events: seq<Event>, e: Event)
    requires Fits(a, events, e.body) && a.status == AgentStatusOf(events, a.id) && AttemptsTold(a, events)
    ensures AttemptsTold(Touched(a, e.body), events + [e])
  {
    var t := Touched(a, e.body);
    TouchedSteps(a, e.body);
    forall x | x in t.attempts
      ensures Happened(events + [e], AgentStarted(a.id, x.id, x.number))
      ensures x.status == AttemptStatusOf(events + [e], a.id, x.id)
    {
      OldAttemptsTold(a, events, e, x);
    }
    forall i, n | Happened(events + [e], AgentStarted(a.id, i, n))
      ensures exists x :: x in t.attempts && x.id == i && x.number == n
    {
      HappenedPush(events, e, AgentStarted(a.id, i, n));
      if e.body == AgentStarted(a.id, i, n) {
        assert Attempt(i, n, Ongoing) in t.attempts;
      } else {
        var y :| y in a.attempts && y.id == i && y.number == n;
        assert y.(status := Stepped(a, y, e.body)) in t.attempts;
      }
    }
  }

  lemma TouchedIdentity(a: Agent, b: Body)
    requires AttemptsSorted(a.attempts) && (Subject(b) == Some(a.id) ==> Updated(a, b).Some?)
    ensures SameIdentity(a, Touched(a, b))
  {
    if Subject(b) == Some(a.id) {
      UpdatedKeeps(a, b);
    }
  }

  lemma TouchedTold(a: Agent, events: seq<Event>, e: Event)
    requires Fits(a, events, e.body) && AgentTold(a, events)
    ensures AgentTold(Touched(a, e.body), events + [e])
  {
    TouchedIdentity(a, e.body);
    HappenedPush(events, e, AgentAdmitted(a.id, a.callIndex, a.phase));
    StatusStep(a, events, e);
    ReplayedStep(a, events, e);
    AttemptsStep(a, events, e);
  }

  // ---------------------------------------------------------------------------------------------
  // The whole snapshot
  // ---------------------------------------------------------------------------------------------

  function Fresh(b: Body): Agent
    requires b.AgentAdmitted?
  {
    Agent(b.agent, b.callIndex, b.of, Admitted, false, [])
  }

  /** The agents of the next snapshot are those of this one, touched, and the one admitted. */
  ghost predicate AgentsStepped(agents: seq<Agent>, b: Body, more: seq<Agent>) {
    && (forall a :: a in agents ==> Touched(a, b) in more)
    && (b.AgentAdmitted? ==> Fresh(b) in more)
    && (forall t :: t in more ==> (b.AgentAdmitted? && t == Fresh(b)) || exists a :: a in agents && t == Touched(a, b))
  }

  lemma EachTouched(agents: seq<Agent>, b: Body, more: seq<Agent>)
    requires |more| == |agents| && !b.AgentAdmitted?
    requires forall i :: 0 <= i < |agents| ==> more[i] == Touched(agents[i], b)
    ensures AgentsStepped(agents, b, more)
  {
    forall a | a in agents ensures Touched(a, b) in more {
      var i :| 0 <= i < |agents| && agents[i] == a;
      assert more[i] in more;
    }
    forall t | t in more ensures exists a :: a in agents && t == Touched(a, b) {
      var i :| 0 <= i < |more| && more[i] == t;
      assert agents[i] in agents;
    }
  }

  lemma UpdateTouches(s: State, id: nat, b: Body)
    requires AgentsSorted(s.agents) && Subject(b) == Some(id) && UpdateAgent(s, id, b).Some?
    ensures AgentsStepped(s.agents, b, UpdateAgent(s, id, b).value.agents)
    ensures forall a :: a in s.agents && a.id == id ==> Updated(a, b).Some?
    ensures exists a :: a in s.agents && a.id == id
  {
    var i := FindAgent(s.agents, id);
    assert s.agents[i] in s.agents;
    assert forall j :: 0 <= j < |s.agents| && j != i ==> s.agents[j].id != id;
    EachTouched(s.agents, b, UpdateAgent(s, id, b).value.agents);
  }

  lemma AdmitTouches(s: State, b: Body)
    requires AgentsSorted(s.agents) && b.AgentAdmitted? && Admit(s, b.agent, b.callIndex, b.of).Some?
    ensures AgentsStepped(s.agents, b, Admit(s, b.agent, b.callIndex, b.of).value.agents)
    ensures forall a :: a in s.agents ==> a.id != b.agent && a.callIndex != b.callIndex
  {
    InsertAgentHolds(s.agents, Fresh(b));
    forall a | a in s.agents ensures Touched(a, b) == a && a.id != b.agent && a.callIndex != b.callIndex {
    }
  }

  ghost predicate Known(agents: seq<Agent>, id: nat) {
    exists a :: a in agents && a.id == id
  }

  /** What an accepted event does to the agents. */
  lemma ApplyTouches(s: State, b: Body)
    requires AgentsSorted(s.agents) && Apply(s, b).Some?
    ensures AgentsStepped(s.agents, b, Apply(s, b).value.agents)
    ensures forall a :: a in s.agents ==> !(b.AgentAdmitted? && (b.agent == a.id || b.callIndex == a.callIndex))
    ensures forall a :: a in s.agents && Subject(b) == Some(a.id) ==> Updated(a, b).Some?
    ensures Subject(b).Some? ==> Known(s.agents, Subject(b).value)
  {
    if Subject(b).Some? {
      UpdateTouches(s, Subject(b).value, b);
    } else if b.AgentAdmitted? {
      AdmitTouches(s, b);
    } else {
      EachTouched(s.agents, b, Apply(s, b).value.agents);
    }
  }

  /** The phases are those discovered, in the statuses the events leave. */
  ghost predicate PhasesTold(phases: seq<Phase>, events: seq<Event>) {
    && (forall p :: p in phases ==> Happened(events, PhaseDiscovered(p.id)) && p.status == PhaseStatusOf(events, p.id))
    && (forall id :: Happened(events, PhaseDiscovered(id)) ==> exists p :: p in phases && p.id == id)
  }

  ghost predicate DoneAgent(agents: seq<Agent>, id: nat) {
    exists a :: a in agents && a.id == id && Done(a.status)
  }

  /** A phase is complete once it was completed, or once the run is over and all its agents are done. */
  ghost predicate CompletionTold(p: Phase, s: State) {
    p.complete <==>
      || p.status.Finished?
      || (!p.status.Ruined? && !(s.status.Queued? || s.status.Running? || s.status.CancellationRequested?)
          && (forall id :: id in p.agentIds ==> DoneAgent(s.agents, id)))
  }

  ghost predicate AgentsTold(agents: seq<Agent>, events: seq<Event>) {
    && (forall a :: a in agents ==> AgentTold(a, events))
    && (forall id, callIndex, of :: Happened(events, AgentAdmitted(id, callIndex, of)) ==>
          exists a :: a in agents && a.id == id && a.callIndex == callIndex && a.phase == of)
    && (forall k :: 0 <= k < |events| && Subject(events[k].body).Some? ==> Known(agents, Subject(events[k].body).value))
  }

  function LastSequence(events: seq<Event>): nat {
    if events == [] then 0 else events[|events| - 1].sequence
  }

  /** The snapshot says exactly what the events say. */
  ghost predicate Tells(s: State, events: seq<Event>) {
    && s.sequence == LastSequence(events)
    && s.status == RunStatusOf(events)
    && AgentsTold(s.agents, events)
    && PhasesTold(s.phases, events)
    && (forall p :: p in s.phases ==> CompletionTold(p, s))
  }

  /** No event named the agent yet. */
  ghost predicate Unnamed(events: seq<Event>, id: nat) {
    && (forall callIndex, of :: !Happened(events, AgentAdmitted(id, callIndex, of)))
    && (forall k :: 0 <= k < |events| ==> Subject(events[k].body) != Some(id))
  }

  lemma FreshNeverStarted(events: seq<Event>, e: Event)
    requires e.body.AgentAdmitted? && Unnamed(events, e.body.agent)
    ensures forall i, n :: !Happened(events + [e], AgentStarted(e.body.agent, i, n))
  {
    forall i, n ensures !Happened(events + [e], AgentStarted(e.body.agent, i, n)) {
      HappenedPush(events, e, AgentStarted(e.body.agent, i, n));
    }
  }

  lemma FreshIsQuiet(events: seq<Event>, e: Event)
    requires e.body.AgentAdmitted? && Closing(events).None? && Unnamed(events, e.body.agent)
    ensures AgentStatusOf(events + [e], e.body.agent) == Admitted && !ReplayedLast(events + [e], e.body.agent)
  {
    var id := e.body.agent;
    ClosingPush(events, e);
    AgentMovePush(events, e, id);
    LastOfPush(events, e, (b: Body) => Answers(b, id));
    LastOfHolds(events, (b: Body) => Answers(b, id));
  }

  lemma FreshTold(events: seq<Event>, e: Event)
    requires e.body.AgentAdmitted? && Closing(events).None? && Unnamed(events, e.body.agent)
    ensures AgentTold(Fresh(e.body), events + [e])
  {
    HappenedPush(events, e, e.body);
    FreshIsQuiet(events, e);
    FreshNeverStarted(events, e);
  }

  lemma AgentsTellStep(agents: seq<Agent>, events: seq<Event>, e: Event, more: seq<Agent>)
    requires AgentsTold(agents, events) && Closing(events).None? && AllAttemptsSorted(agents)
    requires AgentsStepped(agents, e.body, more)
    requires forall a :: a in agents ==>
      !(e.body.AgentAdmitted? && e.body.agent == a.id) && (Subject(e.body) == Some(a.id) ==> Updated(a, e.body).Some?)
    ensures forall t :: t in more ==> AgentTold(t, events + [e])
  {
    forall t | t in more ensures AgentTold(t, events + [e]) {
      if e.body.AgentAdmitted? && t == Fresh(e.body) {
        FreshTold(events, e);
      } else {
        var a :| a in agents && t == Touched(a, e.body);
        var i :| 0 <= i < |agents| && agents[i] == a;
        TouchedTold(a, events, e);
      }
    }
  }

  lemma KnownStays(agents: seq<Agent>, b: Body, more: seq<Agent>, a: Agent)
    requires AgentsStepped(agents, b, more) && a in agents && AttemptsSorted(a.attempts)
    requires Subject(b) == Some(a.id) ==> Updated(a, b).Some?
    ensures Touched(a, b) in more && SameIdentity(a, Touched(a, b)) && Known(more, a.id)
  {
    TouchedIdentity(a, b);
  }

  lemma AllStayKnown(agents: seq<Agent>, b: Body, more: seq<Agent>)
    requires AllAttemptsSorted(agents) && AgentsStepped(agents, b, more)
    requires forall a :: a in agents && Subject(b) == Some(a.id) ==> Updated(a, b).Some?
    ensures forall a :: a in agents ==> SameIdentity(a, Touched(a, b)) && Touched(a, b) in more && Known(more, a.id)
  {
    forall a | a in agents ensures SameIdentity(a, Touched(a, b)) && Touched(a, b) in more && Known(more, a.id) {
      var i :| 0 <= i < |agents| && agents[i] == a;
      KnownStays(agents, b, more, a);
    }
  }

  lemma AdmittedStay(agents: seq<Agent>, events: seq<Event>, e: Event, more: seq<Agent>)
    requires AgentsTold(agents, events) && AgentsStepped(agents, e.body, more)
    requires forall a :: a in agents ==> SameIdentity(a, Touched(a, e.body)) && Touched(a, e.body) in more
    ensures forall id, callIndex, of :: Happened(events + [e], AgentAdmitted(id, callIndex, of)) ==>
      exists a :: a in more && a.id == id && a.callIndex == callIndex && a.phase == of
  {
    forall id, callIndex, of | Happened(events + [e], AgentAdmitted(id, callIndex, of))
      ensures exists a :: a in more && a.id == id && a.callIndex == callIndex && a.phase == of
    {
      HappenedPush(events, e, AgentAdmitted(id, callIndex, of));
      if e.body == AgentAdmitted(id, callIndex, of) {
        assert Fresh(e.body) in more;
      } else {
        var a :| a in agents && a.id == id && a.callIndex == callIndex && a.phase == of;
        assert SameIdentity(a, Touched(a, e.body));
      }
    }
  }

  lemma SubjectsStay(agents: seq<Agent>, events: seq<Event>, e: Event, more: seq<Agent>)
    requires AgentsTold(agents, events) && (Subject(e.body).Some? ==> Known(agents, Subject(e.body).value))
    requires forall a :: a in agents ==> Known(more, a.id)
    ensures var all := events + [e];
      forall k :: 0 <= k < |all| && Subject(all[k].body).Some? ==> Known(more, Subject(all[k].body).value)
  {
  }

  lemma ApplyTellsAgents(s: State, events: seq<Event>, e: Event)
    requires Inv(s) && AgentsTold(s.agents, events) && Closing(events).None? && Apply(s, e.body).Some?
    ensures AgentsTold(Apply(s, e.body).value.agents, events + [e])
  {
    ApplyTouches(s, e.body);
    var more := Apply(s, e.body).value.agents;
    AgentsTellStep(s.agents, events, e, more);
    AllStayKnown(s.agents, e.body, more);
    AdmittedStay(s.agents, events, e, more);
    SubjectsStay(s.agents, events, e, more);
  }

  lemma PhaseStatusPush(events: seq<Event>, e: Event, id: nat)
    ensures PhaseStatusOf(events + [e], id) == match e.body
      case PhaseDiscovered(p) => if p == id then Pending else PhaseStatusOf(events, id)
      case PhaseMoved(p, to) => if p == id then to else PhaseStatusOf(events, id)
      case _ => PhaseStatusOf(events, id)
    ensures Happened(events + [e], PhaseDiscovered(id)) <==>
      Happened(events, PhaseDiscovered(id)) || e.body == PhaseDiscovered(id)
  {
    LastOfPush(events, e, (b: Body) => MovesPhase(b, id));
    HappenedPush(events, e, PhaseDiscovered(id));
  }

  /** What an accepted event does to a phase; admission changes its agents, nothing else its status. */
  ghost predicate PhasesStepped(phases: seq<Phase>, b: Body, more: seq<Phase>) {
    && |more| == (if b.PhaseDiscovered? then |phases| + 1 else |phases|)
    && (b.PhaseDiscovered? ==> more[|phases|].id == b.phase && more[|phases|].status.Pending?)
    && (forall i :: 0 <= i < |phases| ==>
          && more[i].id == phases[i].id && !(b.PhaseDiscovered? && b.phase == phases[i].id)
          && more[i].status == if b.PhaseMoved? && b.phase == phases[i].id then b.to else phases[i].status)
    && (b.PhaseMoved? ==> exists i :: 0 <= i < |phases| && phases[i].id == b.phase)
  }

  lemma ApplySteps(s: State, b: Body)
    requires PhasesRight(s.agents, s.phases) && Apply(s, b).Some?
    ensures PhasesStepped(s.phases, b, Apply(s, b).value.phases)
  {
    if b.PhaseMoved? {
      var i := FindPhase(s.phases, b.phase);
      assert forall j :: 0 <= j < |s.phases| && j != i ==> s.phases[j].id != b.phase;
    }
  }

  lemma PhaseTellsStep(phases: seq<Phase>, events: seq<Event>, e: Event, more: seq<Phase>, i: nat)
    requires PhasesTold(phases, events) && PhasesStepped(phases, e.body, more) && i < |more|
    requires forall p :: p in phases ==> !(e.body.PhaseDiscovered? && e.body.phase == p.id)
    ensures Happened(events + [e], PhaseDiscovered(more[i].id))
    ensures more[i].status == PhaseStatusOf(events + [e], more[i].id)
  {
    PhaseStatusPush(events, e, more[i].id);
    if i < |phases| {
      assert phases[i] in phases;
    }
  }

  lemma PhasesTellStep(phases: seq<Phase>, events: seq<Event>, e: Event, more: seq<Phase>)
    requires PhasesTold(phases, events) && PhasesStepped(phases, e.body, more)
    ensures PhasesTold(more, events + [e])
  {
    forall p | p in phases ensures !(e.body.PhaseDiscovered? && e.body.phase == p.id) {
      var i :| 0 <= i < |phases| && phases[i] == p;
    }
    forall p | p in more
      ensures Happened(events + [e], PhaseDiscovered(p.id)) && p.status == PhaseStatusOf(events + [e], p.id)
    {
      var i :| 0 <= i < |more| && more[i] == p;
      PhaseTellsStep(phases, events, e, more, i);
    }
    forall id | Happened(events + [e], PhaseDiscovered(id)) ensures exists p :: p in more && p.id == id {
      PhaseStatusPush(events, e, id);
      if e.body == PhaseDiscovered(id) {
        assert more[|phases|] in more;
      } else {
        var p :| p in phases && p.id == id;
        var i :| 0 <= i < |phases| && phases[i] == p;
        assert more[i] in more;
      }
    }
  }

  lemma SamePhasesTell(phases: seq<Phase>, events: seq<Event>, others: seq<Phase>)
    requires PhasesTold(phases, events) && |others| == |phases|
    requires forall i :: 0 <= i < |phases| ==> others[i].id == phases[i].id && others[i].status == phases[i].status
    ensures PhasesTold(others, events)
  {
    forall p | p in others
      ensures Happened(events, PhaseDiscovered(p.id)) && p.status == PhaseStatusOf(events, p.id)
    {
      var i :| 0 <= i < |others| && others[i] == p;
      assert phases[i] in phases;
    }
    forall id | Happened(events, PhaseDiscovered(id)) ensures exists p :: p in others && p.id == id {
      var p :| p in phases && p.id == id;
      var i :| 0 <= i < |phases| && phases[i] == p;
      assert others[i] in others;
    }
  }

  lemma AllTerminalIs(agents: seq<Agent>, ids: seq<nat>)
    ensures AllTerminal(agents, ids) <==> forall id :: id in ids ==> DoneAgent(agents, id)
  {
    if AllTerminal(agents, ids) {
      forall id | id in ids ensures DoneAgent(agents, id) {
        var i :| 0 <= i < |ids| && ids[i] == id;
        var j :| 0 <= j < |agents| && agents[j].id == ids[i] && TerminalAgent(agents[j].status);
        assert agents[j] in agents;
      }
    }
    if forall id :: id in ids ==> DoneAgent(agents, id) {
      forall i | 0 <= i < |ids|
        ensures exists j :: 0 <= j < |agents| && agents[j].id == ids[i] && TerminalAgent(agents[j].status)
      {
        assert DoneAgent(agents, ids[i]);
        var a :| a in agents && a.id == ids[i] && Done(a.status);
        var j :| 0 <= j < |agents| && agents[j] == a;
      }
    }
  }

  lemma FinalizeTells(s: State)
    ensures var t := Finalize(s);
      && t.agents == s.agents && t.status == s.status && t.sequence == s.sequence
      && (forall events :: PhasesTold(s.phases, events) ==> PhasesTold(t.phases, events))
      && (forall p :: p in t.phases ==> CompletionTold(p, t))
  {
    var t := Finalize(s);
    forall events | PhasesTold(s.phases, events) ensures PhasesTold(t.phases, events) {
      SamePhasesTell(s.phases, events, t.phases);
    }
    forall p | p in t.phases ensures CompletionTold(p, t) {
      var i :| 0 <= i < |t.phases| && t.phases[i] == p;
      assert p == Derived(s.phases[i], s.agents, s.status);
      AllTerminalIs(s.agents, p.agentIds);
    }
  }

  lemma RunStatusPush(s: State, events: seq<Event>, e: Event)
    requires s.status == RunStatusOf(events) && Apply(s, e.body).Some?
    ensures Apply(s, e.body).value.status == RunStatusOf(events + [e])
  {
    LastOfPush(events, e, MovesRun);
  }

  lemma NotClosedYet(s: State, events: seq<Event>)
    requires s.status == RunStatusOf(events) && !TerminalRun(s.status)
    ensures Closing(events).None?
  {
  }

  lemma TellsStep(s: State, events: seq<Event>, e: Event)
    requires Inv(s) && Tells(s, events) && Reduce(s, e).Some?
    ensures Tells(Reduce(s, e).value, events + [e])
  {
    var u := s.(sequence := e.sequence);
    var v := Apply(u, e.body).value;
    NotClosedYet(s, events);
    ApplyTellsAgents(u, events, e);
    ApplySteps(u, e.body);
    PhasesTellStep(u.phases, events, e, v.phases);
    RunStatusPush(u, events, e);
    ApplyKeepsSequence(u, e.body);
    FinalizeTells(v);
  }

  lemma {:induction false} ProjectPush(s: State, events: seq<Event>, e: Event)
    ensures Project(s, events + [e]) ==
      if Project(s, events).None? then None else Reduce(Project(s, events).value, e)
    decreases |events|
  {
    if events == [] {
      assert [e][1..] == [];
    } else {
      assert (events + [e])[1..] == events[1..] + [e];
      if Reduce(s, events[0]).Some? {
        ProjectPush(Reduce(s, events[0]).value, events[1..], e);
      }
    }
  }

  /** For every accepted event sequence the snapshot says exactly what the events say. */
  lemma {:induction false} SnapshotTellsHistory(events: seq<Event>)
    requires Project(INITIAL, events).Some?
    ensures Tells(Project(INITIAL, events).value, events) && Inv(Project(INITIAL, events).value)
    decreases |events|
  {
    if events == [] {
      assert Tally([], 0) == NO_COUNTS;
    } else {
      var n := |events| - 1;
      assert events == events[..n] + [events[n]];
      ProjectPush(INITIAL, events[..n], events[n]);
      SnapshotTellsHistory(events[..n]);
      TellsStep(Project(INITIAL, events[..n]).value, events[..n], events[n]);
      ReduceKeeps(Project(INITIAL, events[..n]).value, events[n]);
    }
  }

  // ---------------------------------------------------------------------------------------------
  // What a reader of the snapshot learns
  // ---------------------------------------------------------------------------------------------

  /** Every agent of the snapshot: whence it comes, its status, its flag and its attempts. */
  lemma AgentIsToldByEvents(events: seq<Event>, a: Agent)
    requires Project(INITIAL, events).Some? && a in Project(INITIAL, events).value.agents
    ensures Happened(events, AgentAdmitted(a.id, a.callIndex, a.phase))
    ensures a.status == AgentStatusOf(events, a.id) && a.fromJournal == ReplayedLast(events, a.id)
    ensures forall x :: x in a.attempts ==>
      Happened(events, AgentStarted(a.id, x.id, x.number)) && x.status == AttemptStatusOf(events, a.id, x.id)
    ensures forall i, n :: Happened(events, AgentStarted(a.id, i, n)) ==>
      exists x :: x in a.attempts && x.id == i && x.number == n
  {
    SnapshotTellsHistory(events);
  }

  /** The last event that moves agent `id` is `events[k]`. */
  ghost predicate LastMoveAt(events: seq<Event>, id: nat, k: int) {
    0 <= k < |events| && MovesAgent(events[k].body, id) && forall j :: k < j < |events| ==>
      !MovesAgent(events[j].body, id)
  }

  lemma LastMoveIs(events: seq<Event>, id: nat)
    ensures AgentMove(events, id).None? ==> forall k :: !LastMoveAt(events, id, k)
    ensures AgentMove(events, id).Some? ==> exists k :: LastMoveAt(events, id, k)
    ensures forall k :: LastMoveAt(events, id, k) ==> AgentMove(events, id) == Some(events[k].body)
  {
    LastOfHolds(events, (b: Body) => MovesAgent(b, id));
    if AgentMove(events, id).Some? {
      var k := LastOfAt(events, (b: Body) => MovesAgent(b, id));
      assert LastMoveAt(events, id, k);
      assert forall m :: LastMoveAt(events, id, m) ==> m == k;
    }
  }

  predicate FullAnswer(b: Body) {
    b.AgentCompleted? || (b.AgentReused? && b.gap.None?)
  }

  /** An agent shows as completed exactly when the last event that moves it is its completion, or a replay
      that is not a coverage gap. */
  lemma {:induction false} SucceededIff(events: seq<Event>, a: Agent)
    requires Project(INITIAL, events).Some? && a in Project(INITIAL, events).value.agents
    ensures a.status.Succeeded? <==> exists k :: LastMoveAt(events, a.id, k) && FullAnswer(events[k].body)
  {
    AgentIsToldByEvents(events, a);
    LastMoveIs(events, a.id);
  }
}

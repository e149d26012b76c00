# Verified model of the workflow orchestration runtime

The runtime runs JavaScript workflows whose agents call model providers. It must survive crashes: results
already paid for are replayed, not bought again; events that a client has seen are never lost; and no
permit, lease or half-open probe leaks, whatever order promises settle in. This project models the parts
of the TypeScript sources that carry those promises, and proves them with Dafny 4.11.

Check everything with `dafny verify dfyconfig.toml`.

## Layout

| area | files |
|---|---|
| Provider scheduler | `SchedulerSpec` (states, runs, fairness), `SchedulerFates`, `Scheduler` (the class) |
| Circuit breaker | `CircuitSpec`, `CircuitCooldown` (outages over whole runs), `CircuitBreaker` (the class) |
| Resume journal | `JournalModel`, `JournalResume`, `JournalReuse`, `JournalReplay`, `JournalAnswers`, `JournalSessions`, `JournalLoad`, `JournalProof` and `JournalBudget` (theorems), `JournalRun` (the class), `JournalMerge`, `CanonicalJson`, `CanonicalMeaning`, `CanonicalOrder`, `CanonicalText`, `JournalKey`, `JournalOptions`, `JournalText` |
| Attempt and retry loop | `AttemptModel` (interleaved steps), `AttemptPermits`, `AttemptFlow`, `AttemptLeases`, `AttemptLedger`, `AttemptSafety` (step invariants), `AttemptTheorems`, `AttemptDisposition` (what becomes of an attempt), `AttemptProgress` |
| Event store | `EventLogSpec` (bytes), `EventManifest`, `EventScanSpec` (reader, recovery), `EventLines` (reading any log), `EventCrash` and `EventHistory` (process lifetimes), `EventStore` (the class) |
| Paged results | `Utf8`, `Utf8Meaning`, `ResultPages`, `BulkResults`, `ResultAnswers` (what is refused), `Transcript` |
| Codex schemas | `CodexSchema`, `CodexRestore` (what restoring removes), `CodexNodes` (validity node by node), `CodexSchemaSound`, `CodexStrict` and `CodexKeywords` (what the adapted schema and each keyword say) |
| Ownership and shutdown | `WriteGate`, `GateHistory`, `ServiceAdmission`, `ServiceHistory` |
| Run inventory and projection | `Inventory`, `RunProjection`, `RunProjectionInv`, `RunHistory`, `RunAcceptance`, `RunCounts` |

Objects whose methods update fields are classes, and each of their methods is proved to compute a
function on the object's abstract state. The theorems are about those functions, over every reachable
state or every run. Code that several promises interleave is a state machine whose steps are what happens
between two awaits; time is a nondecreasing integer, and a timeout or crash is a step that may come at any
point. A call that the source refuses by throwing leaves the state unchanged and reports the refusal.

## Where the code differs from what one would expect

- "Only failures open the circuit" is false. `CircuitSpec.NeutralCanOpen` is a run in which a stale probe
  that settles neutrally opens a closed circuit, and `CircuitSpec.OpensIff` says exactly when a circuit
  opens.
- Two different prompts can share a call key when one has a lone surrogate, because the digest is taken
  over UTF-8: `JournalKey.LoneSurrogatesCollide`. `JournalKey.KeyCommitsToHistory` gives the exact
  condition under which keys are equal.
- Schema adaptation changes meaning in two ways. A `required` beside a `$ref` can meet a definition that takes
  the property's null for its absence: `CodexSchemaSound.SiblingsOfReferencesBreak`. And `properties` under a
  type that excludes objects, as in `{"type": "string", "properties": {}}`, has its type replaced by `object`:
  `CodexSchemaSound.TypeWithoutObjectBreaks`. `CodexSchemaSound.AdaptationIsSound` shows that, within the
  fragment modelled, there is no third: a check on the author's schema holds if and only if meaning is preserved.
- An inherited result can leave its key during a sparse resume: a call that proves it has the same prompt
  and options takes it. `JournalReuse.LineageKeepsResults` shows that the result is then held under the
  new key, so nothing is lost.
- A smaller proof budget can gain hits over a run, because a result that no call takes by its prompt is still
  there for its own key: `JournalBudget.BudgetCanGainHits`. Budgets make no difference until a search is cut
  short: `JournalBudget.AdmitDivergesIff` and `JournalBudget.EnoughIsEnough`.
- Merging a stored journal with an inherited one can put a coverage gap back beside a provider session:
  `JournalMerge.MergeCanRejoin`, with the exact condition in `JournalMerge.MergeKeepsGapsIff`.
- A failure verdict can be overwritten by `STOPPED`, which a comment at src/workflowService.ts:546-548 rules
  out: `ServiceAdmission.FailureCanBeOverwritten`, with the exact condition in
  `ServiceAdmission.FailureKeptIff`.

## Model

| member | source | states |
|---|---|---|
| `Scheduler.WorkConservingScheduler.Create` | src/workConservingScheduler.ts:43-49 | A capacity is accepted if and only if it is a positive safe integer; an accepted one gives an idle scheduler. |
| `Scheduler.WorkConservingScheduler.Acquire` | src/workConservingScheduler.ts:51-78 | An aborted request is rejected, a request that meets a free permit and an empty queue is granted, any other joins the queue, which is then drained; the new state is the one `RunIsSafe` and `FairnessBound` speak of. |
| `Scheduler.WorkConservingScheduler.Resolve` | src/workConservingScheduler.ts:123-127 | The permit is counted and the key remembered as the last granted one before the waiter learns of it. |
| `Scheduler.WorkConservingScheduler.Release` | src/workConservingScheduler.ts:89-100 | The permit goes back once, the second call of the same lease changes nothing, and the freed permit is passed on. |
| `Scheduler.WorkConservingScheduler.Drain` | src/workConservingScheduler.ts:102-129 | The loop over the live queue reaches the state of the recursive specification: permits are handed out in ring order until none is free or nobody waits. |
| `Scheduler.WorkConservingScheduler.Abort` | src/workConservingScheduler.ts:120-123 | Raising an abort flag changes no permit and no queue; a flagged waiter may still be reached by a drain before its listener runs. |
| `Scheduler.WorkConservingScheduler.OnAbort` | src/workConservingScheduler.ts:66-71 | A waiter that is still queued leaves the queue and is rejected once; one that was already served or rejected is left alone. |
| `SchedulerSpec.NextKeyRotates` | src/workConservingScheduler.ts:110-114 | Two grants in a row share a key only when no other key waits. |
| `SchedulerSpec.OldestStartsTheRing` | src/workConservingScheduler.ts:102-115 | Before the first grant, and whenever nobody waits under the key granted last, the oldest waiter is next. |
| `SchedulerSpec.ChosenIsOldest` | src/workConservingScheduler.ts:115-116 | The waiter taken is the oldest of its key, so grants within a key are first come, first served. |
| `SchedulerSpec.UniqueKeysPrefix` | src/workConservingScheduler.ts:110-110 | The ring of waiting keys of a shorter queue is a prefix of the ring of the longer one, so arrivals never reorder it. |
| `SchedulerSpec.PlaceAfterTaking` | src/workConservingScheduler.ts:110-116 | Taking the chosen waiter never moves the ring position of its key back, whether the key stays or leaves. |
| `SchedulerSpec.DrainKeepsInv` | src/workConservingScheduler.ts:102-129 | A drain keeps the accounts, the order within keys and one fate per request, and ends work-conserving: no permit idle while a request waits. |
| `SchedulerSpec.StepKeepsInv` | src/workConservingScheduler.ts:51-129 | Every acquire, release, abort flag and abort listener keeps them too. |
| `SchedulerSpec.RunIsSafe` | src/workConservingScheduler.ts:51-129 | In every reachable state permits in use equal leases handed out and stay within capacity, each request waits or was granted once or was rejected once, grants of a key are in request order, and no permit is idle while a request waits. |
| `SchedulerSpec.GrantSpendsBudget` | src/workConservingScheduler.ts:102-129 | Each grant to somebody else either shortens the queue ahead of a waiter or moves the ring towards its key: a measure bounded by rounds of N grants drops. |
| `SchedulerSpec.FairnessBound` | src/workConservingScheduler.ts:102-129 | With keys from a set of N and no aborts, a waiter with q requests before it is among the next (q+1)*N grants, whatever arrives later. |
| `SchedulerFates.RejectedHadAborted` | src/workConservingScheduler.ts:51-77 | Over every run in which listeners run for aborted signals: whoever was rejected had aborted, and a signal counts as aborted if and only if an abort was asked for. |
| `SchedulerFates.StepSettles` | src/workConservingScheduler.ts:51-133 | No operation takes back a grant or a rejection; it grants live requests only and rejects aborted ones only. |
| `SchedulerFates.AcquireDisposition` | src/workConservingScheduler.ts:51-77 | A request is rejected at once if its signal was aborted, granted at once if a permit is free, and queued last otherwise. |
| `SchedulerFates.ReleaseDisposition` | src/workConservingScheduler.ts:88-133 | A release gives one permit back, once, and at most one request is granted for it; if none is, nobody waits any more. |
| `SchedulerFates.ListenerDisposition` | src/workConservingScheduler.ts:63-70 | An abort listener rejects its waiter and nobody else, and leaves the rest of the queue in order. |
| `CircuitBreaker.ProviderCircuitBreaker.constructor` | src/executionReliability.ts:322-329 | A new breaker is closed, in generation 0, with no failures and no leases. |
| `CircuitBreaker.ProviderCircuitBreaker.Prune` | src/executionReliability.ts:436-445 | The shifting loop leaves exactly the window that `PrunedIsFilter` describes. |
| `CircuitBreaker.ProviderCircuitBreaker.Enter` | src/executionReliability.ts:331-346 | One turn of the loop: a normal lease while closed, the single probe once the cool-down is over, otherwise wait. |
| `CircuitBreaker.ProviderCircuitBreaker.NewLease` | src/executionReliability.ts:358-362 | A lease remembers the generation it was issued in, with all its flags down. |
| `CircuitBreaker.ProviderCircuitBreaker.StartAllowed` | src/executionReliability.ts:363-374 | A start commits only in the lease's own generation, a probe while half-open and any other while closed; once committed it stays allowed until settled. |
| `CircuitBreaker.ProviderCircuitBreaker.ProviderResponsive` | src/executionReliability.ts:415-428 | The first sign of life of a started probe closes the circuit and starts a generation, once. |
| `CircuitBreaker.ProviderCircuitBreaker.Settle` | src/executionReliability.ts:375-412 | Success, failure and neutral settlement change the queue, the open time, the probe flag and the generation as `OpensIff` and `SettledProbeFreesCircuit` say; a second settlement changes nothing. |
| `CircuitSpec.PrunedIsFilter` | src/executionReliability.ts:436-439 | On a monotone clock dropping from the front keeps exactly the failures inside the window. |
| `CircuitSpec.StepKeepsInv` | src/executionReliability.ts:331-445 | Every operation on any lease keeps the probe accounting, one start per outage and the queue-is-the-window invariants. |
| `CircuitSpec.RunKeepsInv` | src/executionReliability.ts:331-445 | So does every sequence of operations under a clock that never goes back. |
| `CircuitSpec.ReachableFacts` | src/executionReliability.ts:331-445 | In every reachable state the half-open flag holds if and only if exactly one unsettled, unrecovered probe of the current generation exists; a closed circuit has fewer than threshold queued failures; the queue is the failures since the last success or recovery that lay in the window at the last prune. |
| `CircuitSpec.TransitionBumps` | src/executionReliability.ts:390-411 | Every change of the open time, and every end of a half-open probe, starts a new generation; generations never decrease. |
| `CircuitSpec.StepKeepsLease` | src/executionReliability.ts:358-433 | A lease keeps its generation and kind, stays settled once settled, and commits its start only in its own generation: probes while open, others while closed. |
| `CircuitSpec.StaleNeverStarts` | src/executionReliability.ts:363-374 | A reservation of an older generation never commits its start, whatever happens later. |
| `CircuitSpec.NoStartAcrossTransition` | src/executionReliability.ts:402-411 | No lease reserved before a transition commits its start after it. |
| `CircuitSpec.OutageStartsOnce` | src/executionReliability.ts:336-341 | While the circuit is open or half-open the probe is the only lease of its generation. |
| `CircuitSpec.OpensIff` | src/executionReliability.ts:375-412 | Exactly which operations open a closed circuit: a failure that fills the window or comes from a live probe, or a neutral settlement of a live probe. |
| `CircuitSpec.NeutralCanOpen` | src/executionReliability.ts:406-411 | A run of six steps in which a stale probe that settles neutrally opens a closed circuit, so "only failures open it" is false. |
| `CircuitSpec.SettledProbeFreesCircuit` | src/executionReliability.ts:390-411 | Settling the live probe, with whatever outcome, never leaves the circuit stuck: the flag is down and the next caller after the cool-down is admitted. |
| `CircuitCooldown.BurstsAreTold` | src/executionReliability.ts:374-412 | The failures that count are those settled since the last success or recovery, read off the operations alone. |
| `CircuitCooldown.NobodyEntersDuringCooldown` | src/executionReliability.ts:390-411 | After a failure that opens or reopens the circuit at time t, and until a success, a recovery or a neutral end of an unproven probe, nobody entering before t + `circuitBreakerCooldownMs` reserves a lease. |
| `CircuitCooldown.FirstAfterCooldownProbes` | src/executionReliability.ts:331-347 | The first caller that enters at or after t + `circuitBreakerCooldownMs` reserves one lease, and it is the probe. |
| `CircuitCooldown.ProbeIsAlone` | src/executionReliability.ts:331-347 | While the probe is out nobody else reserves a lease. |
| `CircuitCooldown.SuccessLetsEveryonePass` | src/executionReliability.ts:374-433 | After a success or a proof of responsiveness every caller gets an ordinary lease at once. |
| `CircuitCooldown.NeutralLetsNextProbe` | src/executionReliability.ts:406-411 | After an unproven probe ends neutrally the next caller probes at once. |
| `CircuitCooldown.OtherSettlementsChangeNothing` | src/executionReliability.ts:374-412 | A failure short of the threshold, and a neutral end of any other lease, change neither open time, nor probe flag, nor generation. |
| `CircuitCooldown.EveryonePassesUntilTripped` | src/executionReliability.ts:331-347 | As long as no burst of failures within the window and no failed or abandoned probe opened the circuit, every caller gets an ordinary lease. |
| `CircuitCooldown.EntryReserves` | src/executionReliability.ts:331-347 | A caller is let through exactly when it gets a lease, which begins unsettled and uncommitted. |
| `CircuitCooldown.LeaseLife` | src/executionReliability.ts:348-433 | A lease is settled by its settlement, started by its start if it may, and recovered by its first sign of life; nothing else changes it. |
| `CircuitCooldown.ReservationLasts` | src/executionReliability.ts:348-372 | A reservation that may start may still start as long as no transition of the circuit comes between. |
| `CanonicalJson.LexTransitive` | src/workflowJournal.ts:146-194 | Comparing strings by code units, as `sort()` does, is transitive. |
| `CanonicalJson.BeforeIsTotalOrder` | src/workflowJournal.ts:177-186 | The order in which properties are listed (array indices by value, then code-unit order) is a strict total order. |
| `CanonicalJson.SortedIsOrdered` | src/workflowJournal.ts:177-186 | Sorting properties lists each of them once, in that order. |
| `CanonicalJson.OrderedIsUnique` | src/workflowJournal.ts:177-186 | Two ordered listings of the same properties are the same list. |
| `CanonicalJson.AlikeIsCanonical` | src/workflowJournal.ts:146-194 | Values that differ only in the creation order of properties, at any depth, have the same canonical value, or are both refused. |
| `CanonicalMeaning.RefusedIff` | src/workflowJournal.ts:146-207 | A value is refused if and only if a bigint is anywhere inside, and has no text if and only if it is undefined, a function or a symbol. |
| `CanonicalMeaning.TextSaysData` | src/workflowJournal.ts:146-207 | Two usable values have the same canonical value if and only if they are the same JSON data: property order, properties without a value, minus zero, numbers that are not finite and holes in lists aside. |
| `CanonicalJson.QuotedReads` | src/workflowJournal.ts:202-208 | A printed string literal reads back as the string, surrogates and escapes included, and the reader stops behind it. |
| `CanonicalJson.PrintReads` | src/workflowJournal.ts:202-208 | Every printed canonical value reads back as itself from any text that continues it. |
| `CanonicalJson.PrintIsInjective` | src/workflowJournal.ts:202-208 | Equal texts come from equal canonical values. |
| `CanonicalJson.PrintIsClean` | src/workflowJournal.ts:202-208 | Canonical text has no control character, hence no NUL, and no lone surrogate, hence survives UTF-8. |
| `CanonicalOrder.IndexIff` | src/workflowJournal.ts:184-207 | A property name is an array index if and only if it is the decimal text of a number below 2^32 - 1. |
| `CanonicalOrder.IndicesAreNumeric` | src/workflowJournal.ts:184-207 | Array indices come first, in numeric order. |
| `CanonicalOrder.OtherNames` | src/workflowJournal.ts:184-207 | All other names come by their first differing code unit. |
| `CanonicalText.ValuesAreSpelled` | src/workflowJournal.ts:202-208 | Each canonical value is written as RFC 8259 has it: literals, quoted strings, brackets with commas between the parts. |
| `CanonicalText.EscapesAre` | src/workflowJournal.ts:202-208 | Quotes, backslashes, control characters and lone surrogates are escaped, each in the one way JSON.stringify has, and nothing else is. |
| `JournalKey.OtherOptionsAreIgnored` | src/workflowJournal.ts:210-221 | Options that agree on `schema`, `model`, `effort`, `isolation` and `agentType`, up to property order, give the same canonical options: label and phase never enter a key. |
| `JournalOptions.OptionsCommit` | src/workflowJournal.ts:6-221 | Two usable option objects have the same canonical options if and only if `schema`, `model`, `effort`, `isolation` and `agentType` are each the same JSON data in both, or absent from both. |
| `JournalOptions.RefusedOptionsIff` | src/workflowJournal.ts:146-221 | Options are refused if and only if one of the five holds a bigint. |
| `JournalOptions.KeyCommitsToOptions` | src/workflowJournal.ts:223-256 | Two calls have the same key if and only if the calls before them, their prompts as UTF-8 carries them, and their five execution options are the same. |
| `JournalOptions.KeysAreVersioned` | src/workflowJournal.ts:223-256 | The beginning has the empty key, and every other key is `v2:` and the digest of its frame. |
| `JournalOptions.FrameIs` | src/workflowJournal.ts:223-256 | The frame is the previous key, a NUL, the prompt, a NUL and the canonical options, as UTF-8 carries them. |
| `JournalText.SurvivesIff` | src/workflowJournal.ts:223-256 | A string is carried unchanged by UTF-8 if and only if it is the UTF-16 form of some code points. |
| `JournalText.SameBytesIff` | src/workflowJournal.ts:223-256 | Two strings are the same UTF-8 bytes if and only if they are equal once lone surrogates are replaced. |
| `JournalText.MessageBytes` | src/workflowJournal.ts:223-256 | The bytes hashed for a call are the UTF-8 of the previous key, a NUL, that of the prompt, a NUL, and that of the options. |
| `JournalText.SameMessageIff` | src/workflowJournal.ts:223-256 | Two calls hash the same bytes if and only if their messages are equal. |
| `JournalKey.CleanSurvives` | src/workflowJournal.ts:239-256 | Text without lone surrogates reaches the hash unchanged. |
| `JournalKey.FrameIsInjective` | src/workflowJournal.ts:239-256 | The NUL framing determines all three parts even when the prompt contains NUL. |
| `JournalKey.KeyCommitsToHistory` | src/workflowJournal.ts:223-256 | With a collision-free digest two keys are equal if and only if the calls so far are the same in number, prompt and canonical options; prompts are compared as UTF-8 carries them. |
| `JournalKey.LoneSurrogatesCollide` | src/workflowJournal.ts:239-256 | The exception: a prompt with a lone surrogate has the key of the prompt with U+FFFD in its place. |
| `JournalKey.KeyTextsMatchChains` | src/workflowJournal.ts:223-256 | Comparing hashed keys is comparing the chains that the journal model keeps. |
| `JournalRun.InMemoryWorkflowJournalRun.constructor` | src/workflowJournal.ts:695-739 | A run inherits the records of the same source in sparse mode and starts empty in prefix mode, with both proof budgets full. |
| `JournalRun.InMemoryWorkflowJournalRun.ImportedOptionsMatch` | src/workflowJournal.ts:564-592 | The loop over historical keys finds a proof and charges both budgets exactly as the specification does; `LookupSound` and `ProveMonotone` say what that means. |
| `JournalRun.InMemoryWorkflowJournalRun.Lookup` | src/workflowJournal.ts:447-495 | The reuse decision: the first unconsumed reusable call of the key, else a unique, unconsumed, proved call of the imported prompt. |
| `JournalRun.InMemoryWorkflowJournalRun.Compact` | src/workflowJournal.ts:484-510 | The reverse splice loops remove exactly the inherited records of the visited key and of the consumed call. |
| `JournalRun.InMemoryWorkflowJournalRun.TrackImport` | src/workflowJournal.ts:511-524 | The imported identity moves to the call that now carries the prompt. |
| `JournalRun.InMemoryWorkflowJournalRun.FindSession` | src/workflowJournal.ts:480-482 | The session offered is that of the first historical call of the key that has one. |
| `JournalRun.InMemoryWorkflowJournalRun.Admit` | src/workflowJournal.ts:437-562 | Records, sessions, imports, consumption, chain position and decision of one admitted call; `AdmitKeepsInv` and `ReuseIsSound` are about this function. |
| `JournalRun.InMemoryWorkflowJournalRun.RecordResult` | src/workflowJournal.ts:626-668 | Accepted exactly for an open call of this run (and a coverage gap only for a failure placeholder); otherwise nothing changes. |
| `JournalRun.InMemoryWorkflowJournalRun.RecordProviderSession` | src/workflowJournal.ts:594-607 | Accepted exactly for an open call; replaces the session of that call or adds it. |
| `JournalRun.InMemoryWorkflowJournalRun.DiscardProviderSession` | src/workflowJournal.ts:609-624 | Accepted exactly for an open call; removes the sessions of that call and no other. |
| `JournalRun.InMemoryWorkflowJournalRun.Snapshot` | src/workflowJournal.ts:670-682 | What a crash would leave behind at this point. |
| `JournalRun.HistoricalCalls` | src/workflowJournal.ts:316-356 | The loop that pairs started and result records builds the calls that `HistoryDescribes` characterizes. |
| `JournalResume.HistoryDescribes` | src/workflowJournal.ts:316-368 | The historical calls of a key stand for its records, also where a start was recorded again: all by the records' agent, the first with the key's result, session and imported prompt, the others with nothing. |
| `JournalResume.NewKeyUnvisited` | src/workflowJournal.ts:437-447 | A chained key is new: no earlier call of the run has it. |
| `JournalResume.DonorIsUnvisited` | src/workflowJournal.ts:456-510 | A call found by its imported prompt belongs to a key this run has not visited. |
| `JournalResume.AdmitKeepsInv` | src/workflowJournal.ts:437-562 | Admission keeps the resume invariant: visited keys own exactly their own records, unvisited keys keep the inherited ones unless a call of theirs gave its result away, and no call of a visited key can be taken by its prompt any more. |
| `JournalResume.RunKeepsInv` | src/workflowJournal.ts:370-682 | Every sequence of admissions, results and session changes, accepted or refused, keeps it. |
| `JournalResume.RunStaysShaped` | src/workflowJournal.ts:670-682 | What any run leaves has, under each key, the records of one call: a start first, and at most one result. |
| `JournalResume.ProveMonotone` | src/workflowJournal.ts:564-592 | A proof found with smaller budgets is found with larger ones. |
| `JournalResume.SparseResumeLosesNothing` | src/workflowJournal.ts:437-562 | At any crash of a sparse run: every key not yet re-admitted still has exactly its inherited records, repeated starts included (unless its result went to an admitted call), and each re-admitted key has exactly one started and at most one result record. |
| `JournalReuse.LookupSound` | src/workflowJournal.ts:447-479 | A hit has the caller's prompt and execution options, by its own key or by a proved imported prompt. |
| `JournalReuse.ReuseIsSound` | src/workflowJournal.ts:437-562 | In either mode, from any snapshot: every replay is the result of a historical call with the same prompt and execution options, and no historical call gives its result twice. |
| `JournalBudget.BudgetOnlyCostsHits` | src/workflowJournal.ts:564-592 | In one lookup from one state a smaller hash or byte budget never gains a hit and never changes one. |
| `JournalBudget.AdmitDivergesIff` | src/workflowJournal.ts:564-592 | Two runs that differ in their budgets are told apart by an admission if and only if the poorer one's search is cut short and the richer one finds its proof. |
| `JournalBudget.EnoughIsEnough` | src/workflowJournal.ts:564-592 | A budget that never cuts a search short costs nothing over a whole run: every call has the same fate as with any larger budget. |
| `JournalBudget.AgreesUntilCut` | src/workflowJournal.ts:564-592 | Otherwise the runs agree up to the first search that is cut short, which takes no historical call. |
| `JournalBudget.BudgetCanGainHits` | src/workflowJournal.ts:441-499 | After that a smaller budget may gain hits: for one history of two equal calls, exactly which of the two hits, for every budget. |
| `JournalReuse.GenerationKeepsResults` | src/workflowJournal.ts:695-739 | One crashed sparse generation, whatever it did, still holds each reusable result for some call with the same prompt and options; a coverage gap if the generation reuses gaps. |
| `JournalReuse.LineageKeepsResults` | src/workflowJournal.ts:695-739 | So does any number of crash-and-begin generations in a row, automatic recoveries and user resumes mixed; a coverage gap if all of them reuse gaps. |
| `JournalReuse.DirectHitIff` | src/workflowJournal.ts:447-455 | In a sparse run a call is replayed under its own key if and only if its inherited result is reusable and was not taken by an imported prompt. |
| `JournalReuse.ResumeReplaysExactly` | src/workflowJournal.ts:437-562 | Without imported calls, a sparse resume replays a call if and only if the crashed run left a reusable result under its key. |
| `JournalReuse.LongestPrefixIsExact` | src/workflowJournal.ts:437-562 | In prefix mode call i is replayed if and only if calls 0 to i all have reusable history; nothing after the first miss is. |
| `JournalReplay.RunKeepsListed` | src/workflowJournal.ts:511-524 | A tracking run lists every call it visits with that call's own prompt, and its key with no other. |
| `JournalReplay.VisitedIsKnown` | src/workflowJournal.ts:362-366 | So the next generation's history carries the prompt of every visited call. |
| `JournalReplay.TakesItsOwn` | src/workflowJournal.ts:458-479 | A call of a known sequence is never given another key's result by its prompt. |
| `JournalReplay.SameKeySameCalls` | src/workflowJournal.ts:223-256 | Who reaches a visited key made the visited calls before it, in that order. |
| `JournalReplay.VisitedCallsReplay` | src/workflowJournal.ts:437-562 | From any journal, imported or not, in either mode: after a crash at any point the next generation of the same source replays a call that the crashed run had visited if and only if the journal holds a reusable result under its key. |
| `JournalAnswers.AnswerIsStored` | src/workflowJournal.ts:437-562 | The decision is a hit if and only if the new slot replays a historical call; it then hands over the stored result, coverage-gap mark and agent of that call, and writes that result under its own key. A decision always names the new slot. |
| `JournalAnswers.AvailableIsReplayed` | src/workflowJournal.ts:444-479 | A run that may reuse replays the first unconsumed call of the key whose result may be reused: a coverage gap only when gaps are reused, else a success, else anything but null. Another key's call is replayed only in a sparse run with imported prompts, and only for the same prompt and options. |
| `JournalAnswers.MissOffersFirstSession` | src/workflowJournal.ts:480-562 | A miss offers the session of the first historical call of its own key that has one, if the run may reuse, and none otherwise. |
| `JournalAnswers.ResultIsStored` | src/workflowJournal.ts:626-668 | A result is accepted if and only if its call is open, and a coverage gap only as an unsuccessful placeholder; the record holds the value as given. |
| `JournalAnswers.EndedCallsAreAnswered` | src/workflowJournal.ts:437-562 | After a crash at any point the next generation of the same source answers a call that had ended with a result from exactly that record: value, gap mark and agent; or runs it when the record is not reusable. |
| `JournalAnswers.RecordedValueIsReplayed` | src/workflowJournal.ts:437-668 | End to end: a value recorded for a call, and a crash at any later point; when the next generation of the same source makes that call, it is answered with exactly that value, if and only if the result is one that is reused. |
| `JournalSessions.RunKeepsOwned` | src/workflowJournal.ts:487-624 | A run lists at most one provider session for each call it visits, the call's own. |
| `JournalSessions.LastSessionIsOffered` | src/workflowJournal.ts:594-624 | End to end: the session last recorded for an open call, or none after it was discarded, is what the next generation of the same source is offered when it has to run that call. |
| `JournalLoad.WhatIsLeftLoads` | src/workflowJournal.ts:282-325 | Wherever a run crashes, what it leaves passes the checks of loading if its beginning did: gap marks only on unsuccessful placeholders, and imported calls that uniquely name started records. |
| `JournalLoad.TrackingIsInherited` | src/workflowJournal.ts:405-435 | Imported calls are listed exactly when the snapshot a run began from listed them, and the source is the run's own. |
| `JournalLoad.NothingToReplay` | src/workflowJournal.ts:437-562 | Without a snapshot to begin with every call runs, and is offered no session. |
| `JournalProof.ProveIff` | src/workflowJournal.ts:564-592 | The proof of an imported call's options succeeds if and only if some historical key, tried in order, is the predecessor within both budgets; it spends one hash and the hashed bytes of each try. |
| `JournalProof.CandidatesAre` | src/workflowJournal.ts:420-424 | The keys tried are those of history, each once. |
| `JournalProof.UniqueImportIff` | src/workflowJournal.ts:458-466 | A prompt names a historical call if and only if no other call has that prompt. |
| `JournalProof.LengthIsEncoded` | src/workflowJournal.ts:576-580 | The byte length charged for a text is the length of its UTF-8 of RFC 3629, which is valid. |
| `JournalProof.FullBudget` | src/workflowJournal.ts:14-15 | A run begins with 100000 hashes and 128 MiB. |
| `JournalReuse.CoverageGapsHaveNoSession` | src/workflowJournal.ts:626-668 | No coverage gap a run leaves has a provider session beside it, if none it inherited had. |
| `JournalMerge.MergeSelf` | src/persistentWorkflowJournal.ts:156-209 | Merging a journal with itself changes nothing. |
| `JournalMerge.MergeTwice` | src/persistentWorkflowJournal.ts:156-209 | Recovering again with the same inherited snapshot changes nothing. |
| `JournalMerge.NothingAdded` | src/persistentWorkflowJournal.ts:156-209 | A fallback that offers nothing new leaves the stored journal, absent lists included, as it is. |
| `JournalMerge.MergedRecordsOfKey` | src/persistentWorkflowJournal.ts:156-209 | A key the stored journal knows keeps exactly its records; any other key gets the fallback's records that were not superseded, in order. |
| `JournalMerge.MergedRecordsIff` | src/persistentWorkflowJournal.ts:156-209 | The stored records come first and stay; a fallback record survives if and only if the stored journal has none of its key and has not given its prompt to another call. |
| `JournalMerge.MergedListsIff` | src/persistentWorkflowJournal.ts:156-209 | Likewise for imported calls and sessions: an import of the fallback survives if and only if the stored journal neither lists its call nor lists its prompt under another call. |
| `JournalMerge.MergeStaysShaped` | src/persistentWorkflowJournal.ts:75-119 | Merging two generations whose keys each hold the records of one call keeps that, so a recovered run starts from a history that `SparseResumeLosesNothing` and `LineageKeepsResults` accept. |
| `JournalMerge.MergeKeepsGapsIff` | src/persistentWorkflowJournal.ts:156-209 | Merging keeps coverage gaps free of sessions if and only if neither side's gap meets a session that the other side keeps. |
| `JournalMerge.MergeCanRejoin` | src/persistentWorkflowJournal.ts:156-209 | A stored gap and the inherited session of the same call, each sound alone, end up side by side. |
| `JournalMerge.OpenedIff` | src/persistentWorkflowJournal.ts:75-119 | Opening is refused exactly when the sidecar is of another source; otherwise all it holds is kept, first, and without a sidecar the inherited snapshot is taken as it is. |
| `AttemptPermits.StepLeaksNothing` | src/runWorkflow.ts:1520-1891 | No step creates or loses a permit: what the schedulers count is what agents hold and quarantined executions keep. |
| `AttemptFlow.StepFits` | src/runWorkflow.ts:1520-1891 | At each await an agent holds exactly what that point allows, attempts and reserved retries stay in step, and the `for` loop never falls through. |
| `AttemptLeases.StepKeepsLeases` | src/runWorkflow.ts:1529-1891 | Every unsettled circuit lease stays the one its owner holds, and the breaker's own invariant is kept. |
| `AttemptLedger.ResultAccepted` | src/runWorkflow.ts:1613-1658 | An agent that has not recorded a result yet is never refused by the journal when it does. |
| `AttemptLedger.StepKeepsLedger` | src/runWorkflow.ts:1520-1930 | Open calls are open in the journal, and everything published or about to be published is in the journal on disk. |
| `AttemptLedger.StepReached` | src/runWorkflow.ts:1520-1930 | The journal on disk is always the journal in memory at some earlier mutation. |
| `AttemptSafety.StepBounded` | src/runWorkflow.ts:2411-2435 | Each step keeps reserved retries within the run budget and permits within their limits. |
| `AttemptSafety.StepContained` | src/runWorkflow.ts:1726-1737 | Each step keeps every execution with unconfirmed termination accounted for: fenced, listed for fencing on abort, or stopped. |
| `AttemptSafety.StepOnce` | src/runWorkflow.ts:1520-1930 | Each step keeps at most one terminal event per agent, published last. |
| `AttemptTheorems.WaitingHoldsNothing` | src/runWorkflow.ts:1520-1891 | Under every interleaving: no permit or lease is held during circuit wait or backoff, both permits and a lease are held while executing, attempts stay within `maxAttempts`, and each journal miss records at most one result. |
| `AttemptTheorems.RetriesAreBounded` | src/runWorkflow.ts:2411-2435 | Retries of the run stay within `maxRetryAttemptsPerRun`, attempts within agents plus that budget, permits within their limits. |
| `AttemptTheorems.PermitsAreConserved` | src/runWorkflow.ts:2437-2459 | Every run and service permit in use is held by one agent or kept by one quarantined execution. |
| `AttemptTheorems.QuietRunHoldsNothing` | src/runWorkflow.ts:1886-1930 | When all agents are done only quarantined executions hold permits, every circuit lease is settled and no probe is outstanding. |
| `AttemptTheorems.LeaseHasOneHolder` | src/runWorkflow.ts:1529-1891 | A circuit lease is unsettled if and only if its one owner holds it, and that owner is queueing for permits or executing. |
| `AttemptTheorems.RetriesAreReplaySafe` | src/runWorkflow.ts:2309-2435 | A retry is reserved only when provider and policy allow it, attempts remain, and the work is read-only or an isolated worktree whose execution has ended. |
| `AttemptDisposition.FailureDisposition` | src/runWorkflow.ts:1783-1881 | A provider failure is retried if and only if it is retryable, the provider allows automatic replay, the run is read-only or the agent is in a worktree, attempts and retries are left, and retries are on. A retryable failure that may not be replayed needs recovery, every other one is final, each with its placeholder journaled; an abort, or a session that could not be persisted, journals no result. |
| `AttemptDisposition.UnconfirmedDisposition` | src/runWorkflow.ts:1668-1782 | An execution whose termination was not confirmed is retried if and only if the run is read-only, the provider allows automatic replay without a writer in a worktree, and attempts and retries are left; else it is fenced and needs recovery. After an abort its permits stay with the fence. |
| `AttemptDisposition.RetryIff` | src/runWorkflow.ts:2411-2435 | Retries of the run grow by one exactly in those two cases, and in no other step. |
| `AttemptDisposition.CircuitLearnsVerdict` | src/runWorkflow.ts:1608-1889 | The end of an execution settles its circuit lease once: success when the provider returned, failure for retryable infrastructure failures and unconfirmed terminations, neutral otherwise. |
| `AttemptDisposition.ReturnDisposition` | src/runWorkflow.ts:1600-1660 | A result that arrives before an abort is journaled as returned and the agent completes; after an abort nothing is journaled. |
| `AttemptProgress.UndisturbedAgentCompletes` | src/runWorkflow.ts:1520-1664 | An agent that nobody disturbs gets its lease and permits, starts, has its result on disk before it is published as completed, and gives back every permit. |
| `AttemptProgress.RetryComesBack` | src/runWorkflow.ts:1829-1881 | A reserved retry is announced, gives its permits back for the backoff, and comes back to the gate as the next attempt. |
| `AttemptProgress.PublishedMoves` | src/runWorkflow.ts:1570-1881 | A published event moves its agent on: from the start to its execution, from a retry to backoff without permits, from a terminal event to the end without permits. |
| `AttemptProgress.PreparationDisposition` | src/runWorkflow.ts:1405-1519 | Preparation leads to the gate, to a final failure with its placeholder journaled, or out of the loop. |
| `AttemptProgress.AdmissionDisposition` | src/runWorkflow.ts:1205-1400 | A call that is not replayed becomes an agent of its own once its start is on disk; a replayed call does not. |
| `AttemptProgress.FirstAgentMayEnter` | src/runWorkflow.ts:1520-1560 | A run begins with nothing started, held or stopped, so its first agent, once prepared, may enter. |
| `AttemptProgress.AbortTakesHold` | src/runWorkflow.ts:1500-1560 | From an abort on no call is admitted, nobody enters and nobody wakes up for another attempt. |
| `AttemptTheorems.AbortFencesEverything` | src/runWorkflow.ts:2237-2281 | After an abort every execution whose termination was not confirmed is fenced or has stopped, unless its agent was done before. |
| `AttemptTheorems.JournalBeforeEvent` | src/runWorkflow.ts:1613-1658 | Whenever the process dies, every completed, finally failed or recovery_required event already published has its result in the journal on disk. |
| `AttemptTheorems.RecoveryReplays` | src/workflowService.ts:1371-1389 | From any journal, imported or not: with the same source the next generation replays every call whose terminal event was published, so automatic recovery never dispatches it again. |
| `AttemptTheorems.GapsHaveNoSession` | src/runWorkflow.ts:2335-2394 | Whenever the process dies, no coverage gap on disk has a resumable session beside it. |
| `AttemptTheorems.OneTerminalEvent` | src/runWorkflow.ts:1520-1930 | No agent is reported as ended twice. |
| `EventLogSpec.LinesFrom` | src/fileWorkflowStore.ts:1058-1110 | The log from byte offset of record k on is the lines of the records from k on. |
| `EventLogSpec.FoldCursor` | src/fileWorkflowStore.ts:1810-1849 | The manifest folded over n records counts n. |
| `EventLogSpec.FoldTerminal` | src/fileWorkflowStore.ts:1810-1849 | Its status is terminal if and only if the last event is. |
| `EventManifest.ManifestSaysLog` | src/fileWorkflowStore.ts:1810-1849 | Each field of the manifest is what the last event that sets it says: status, error, cancellation reason, result, cursor and time of the last update. |
| `EventLogSpec.TailStartIs` | src/fileWorkflowStore.ts:1112-1168 | The backward search finds where an unterminated tail of less than the window begins. |
| `EventLogSpec.RepairOfTorn` | src/fileWorkflowStore.ts:1112-1168 | Repairing a log cut at any byte of its last line drops that line unless all but its newline was written, and then completes it. |
| `EventLogSpec.TailStartIff` | src/fileWorkflowStore.ts:1112-1168 | On any log, the tail begins after the last line feed, and is not found exactly when the last MiB of a longer log has none. |
| `EventLogSpec.RepairIff` | src/fileWorkflowStore.ts:1112-1168 | On any log, repair leaves a terminated log alone, completes a last line that is JSON, cuts any other, and reports one that fills the last MiB. |
| `EventLines.ReadingIsTold` | src/fileWorkflowStore.ts:1058-1110 | Reading any log gives certain records if and only if its lines that are not blank are those records, numbered from one; any other log is reported as corrupt. |
| `EventScanSpec.NextYields` | src/fileWorkflowStore.ts:1058-1110 | A reader before record k of a well-formed log gets record k and stands before k+1, or reaches the end. |
| `EventScanSpec.RestIs` | src/fileWorkflowStore.ts:1058-1110 | Reading on from there yields exactly the remaining records. |
| `EventScanSpec.StandsStill` | src/fileWorkflowStore.ts:1058-1110 | Appending does not move a reader. |
| `EventScanSpec.RecoveredCoherent` | src/fileWorkflowStore.ts:1112-1195 | Startup on a repaired log leaves the manifest the fold of all records, whether or not it was behind. |
| `EventScanSpec.CrashRecovers` | src/fileWorkflowStore.ts:637-706 | For a crash at any byte of an append, or between log fsync and manifest replacement, recovery yields the acknowledged records, or those and the one in flight, with cursor, manifest, numbering and terminal-last intact. |
| `EventCrash.StepKeepsInv` | src/fileWorkflowStore.ts:637-706 | Every append, crash, partial and full recovery keeps the store invariant and loses no complete record. |
| `EventCrash.LogSurvivesCrashes` | src/fileWorkflowStore.ts:637-706 | Over any number of process lifetimes: sequences are 1 to n, at most one event is terminal and it is last, every acknowledged record is where it was, and whenever the store is up the manifest is the fold of the log. |
| `EventCrash.OneCrash` | src/fileWorkflowStore.ts:1112-1195 | After one crash and recovery the records are the old ones, or those and the one in flight, and exactly which depends on whether all its text was written. |
| `EventCrash.RecoveryRestarts` | src/fileWorkflowStore.ts:1112-1195 | Dying during recovery changes nothing: the next recovery ends where the first would have. |
| `EventHistory.RunIsTold` | src/fileWorkflowStore.ts:637-737 | The process runs if and only if it never died or recovered since, and what is acknowledged is what was appended by an append that returned. |
| `EventHistory.AcceptedIff` | src/fileWorkflowStore.ts:637-737 | A record is accepted if and only if the process runs, it carries the next cursor and sequence, no event ended the run, and its line takes at most 1 MiB. |
| `EventHistory.MayDieAnywhere` | src/fileWorkflowStore.ts:1112-1195 | The process may die after any byte of a line; recovery keeps the record if and only if all its text was written. |
| `EventStore.PageIs` | src/fileWorkflowStore.ts:708-737 | A page that is full, or whose reader is at the end, is exactly the slice after the cursor with an exact `hasMore`. |
| `EventStore.ReadersSurvive` | src/fileWorkflowStore.ts:708-737 | What an interrupted reader has so far stays right while records are appended. |
| `EventStore.EventStore.constructor` | src/fileWorkflowStore.ts:637-706 | A created run has an empty log, no index entries and no cached projection. |
| `EventStore.EventStore.Write` | src/fileWorkflowStore.ts:637-683 | The log grows by exactly one line, or the append is refused: wrong sequence, run over, or log full, in that order. |
| `EventStore.EventStore.Commit` | src/fileWorkflowStore.ts:685-687 | The manifest is brought up to the record just written. |
| `EventStore.EventStore.Follow` | src/fileWorkflowStore.ts:689-704 | Every 256th record is indexed at its byte offset, and the cached projection is advanced by exactly one event or dropped. |
| `EventStore.EventStore.AppendEvent` | src/fileWorkflowStore.ts:637-706 | An uninterrupted append succeeds if and only if sequence, status and size allow, and then adds one record and folds it into the manifest. |
| `EventStore.EventStore.Seek` | src/fileWorkflowStore.ts:1068-1081 | The scan starts at the nearest indexed record not after the requested one, at its exact byte offset. |
| `EventStore.EventStore.FindLineEnd` | src/fileWorkflowStore.ts:1077-1085 | The loop finds the first newline. |
| `EventStore.EventStore.Read` | src/fileWorkflowStore.ts:1083-1110 | One turn of the scan yields the next record, and adds at most a correct index entry. |
| `EventStore.EventStore.PageTurn` | src/fileWorkflowStore.ts:720-728 | One turn of the page loop keeps the page a prefix of the slice, and stops when it is full or the log ends. |
| `EventStore.EventStore.ReadEvents` | src/fileWorkflowStore.ts:708-737 | The slice strictly after the cursor with an exact `hasMore`; a cursor ahead of the manifest is refused. |
| `EventStore.EventStore.CachedSnapshot` | src/fileWorkflowStore.ts:938-942 | A cache hit happens if and only if the cached cursor is the manifest's, and is then the reducer folded over exactly the published events. |
| `EventStore.EventStore.SnapshotTurn` | src/fileWorkflowStore.ts:943-946 | One turn of the snapshot scan folds exactly the next event, whatever was appended meanwhile. |
| `EventStore.EventStore.Remember` | src/fileWorkflowStore.ts:947-951 | A finished projection is cached unless a newer one is there. |
| `EventStore.EventStore.Snapshot` | src/fileWorkflowStore.ts:937-952 | The reducer folded over the published events. |
| `EventStore.EventStore.RepairTail` | src/fileWorkflowStore.ts:1126-1168 | The tail is repaired as `RepairOfTorn` says, or the corrupt log is left untouched. |
| `EventStore.EventStore.RecoverEventTail` | src/fileWorkflowStore.ts:1112-1195 | Whatever a crash leaves, startup ends with the complete records and their fold as manifest. |
| `EventStore.EventStore.CountRecords` | src/fileWorkflowStore.ts:1169-1172 | The scan counts every record. |
| `EventStore.EventStore.Rebuild` | src/fileWorkflowStore.ts:1178-1193 | Replaying from the identity fields gives the fold of all records. |
| `Utf8.ValidSplit` | src/fileWorkflowStore.ts:2154-2176 | After a valid prefix, the whole is valid if and only if the rest is. |
| `Utf8.ValidAppend` | src/fileWorkflowStore.ts:2154-2176 | Valid texts concatenate to valid text. |
| `Utf8.BoundaryIff` | src/fileWorkflowStore.ts:2150-2152 | In valid text the continuation-byte test is exact: a position is a code-point boundary if and only if its byte is not a continuation byte. |
| `Utf8.BoundaryNear` | src/fileWorkflowStore.ts:2154-2160 | Every position of valid text has a boundary at most three bytes before it. |
| `Utf8Meaning.ValidIff` | src/fileWorkflowStore.ts:2154-2176 | A text is valid if and only if it is the encoding of some code points, by the definition in section 3 of RFC 3629. |
| `Utf8Meaning.MeaningIsUnique` | src/fileWorkflowStore.ts:2154-2176 | And of one list of code points only. |
| `ResultPages.CursorRoundTrip` | src/fileWorkflowStore.ts:2078-2098 | A cursor parses to an offset if and only if it is the printed cursor of that offset and checksum and the offset is within the content. |
| `ResultPages.DecodeCompletePrefix` | src/fileWorkflowStore.ts:2154-2176 | Trimming finds the longest valid prefix at most three bytes short, or reports corruption. |
| `ResultPages.ReadPage` | src/fileWorkflowStore.ts:845-935 | The page, or the error: bad page size, stale or malformed cursor, cursor off a boundary, corrupt content. |
| `ResultPages.PageFromBoundary` | src/fileWorkflowStore.ts:2005-2066 | From a boundary a page ends on the last boundary within the limit, makes progress, holds exactly the bytes between, and names the next cursor if and only if there is more. |
| `ResultPages.OffBoundaryRefused` | src/fileWorkflowStore.ts:2039-2044 | A cursor is refused for its position if and only if it is off a boundary. |
| `ResultPages.NextCursorContinues` | src/fileWorkflowStore.ts:845-935 | Passing a page's `nextCursor` back continues where the page ended. |
| `ResultPages.WalkIsLossless` | src/fileWorkflowStore.ts:845-935 | Following `nextCursor` ends; pages start and end on boundaries, link up, and concatenate to the content. |
| `ResultAnswers.AnswerIff` | src/fileWorkflowStore.ts:845-935 | A sound result is read with 4 to 65536 bytes a page, from the start or from a cursor that stands for a code point's beginning or the end; everything else is refused, with the error that says why. |
| `ResultAnswers.WrongSizeIsCorrupt` | src/fileWorkflowStore.ts:845-935 | A result whose size is not the promised one is reported as corrupt, if the cursor is one for it. |
| `ResultAnswers.NoBrokenText` | src/fileWorkflowStore.ts:845-935 | Whatever is stored, no page carries broken text or more than `maxBytes`. |
| `BulkResults.BulkRoundTrip` | src/workflowService.ts:295-307 | A printed bulk cursor parses to its agent and inner cursor, an empty inner cursor meaning the agent's start. |
| `BulkResults.ReadAgentResults` | src/workflowService.ts:1061-1145 | The loop over agents returns the response of the specification, unknown agents and malformed cursors included. |
| `BulkResults.CursorContinues` | src/workflowService.ts:1079-1100 | A returned cursor continues at exactly the place it was printed for. |
| `BulkResults.CollectDelivers` | src/workflowService.ts:1089-1145 | One call delivers the pages between its place and a strictly later one (agents left, then bytes left), and its cursor names that place. |
| `BulkResults.ReceivedIsStream` | src/workflowService.ts:1061-1145 | Following cursors to the end yields every page of every readable agent once, in order. |
| `BulkResults.StreamBytes` | src/workflowService.ts:1061-1145 | Each readable agent contributes exactly its bytes, a damaged one none. |
| `BulkResults.BulkWalkIsLossless` | src/workflowService.ts:1061-1145 | A caller that follows the cursors receives each readable agent's bytes exactly once, contiguously, in call order. |
| `ResultAnswers.MalformedIff` | src/workflowService.ts:296-305 | A composite cursor is malformed if and only if it is not `v1.`, an agent id, a point and a text on one line. |
| `ResultAnswers.BulkAnswerIff` | src/workflowService.ts:1061-1090 | A bulk read is refused if and only if the page size is out of range or the cursor names no agent of the listing. |
| `ResultAnswers.ResponsesAreBounded` | src/workflowService.ts:1091-1145 | A response holds at most twenty pages, and stops early only when it holds twenty or its last page has more to come. |
| `Transcript.TakeBatch` | src/workflowService.ts:1155-1220 | Filtering a batch keeps the events of the agent found so far, and stops at the limit only when there are more. |
| `Transcript.ScanBatch` | src/workflowService.ts:1155-1220 | One batch read either fills the page, exhausts the log, or advances. |
| `Transcript.ReadAgentTranscript` | src/workflowService.ts:1155-1220 | A call on a growing log returns exactly the agent's events in (after, toCursor], and `hasMore` implies that toCursor advanced, under both the response limit and the batch cap; it stops short of the end only when the response is full or 10000 records were examined. A cursor ahead of the log is refused. |
| `Transcript.WalkDeliversOnce` | src/workflowService.ts:1155-1220 | Successive calls on a log that grows between them deliver each event of the agent up to the last cursor exactly once, in order. |
| `Transcript.LastPageCompletes` | src/workflowService.ts:1155-1220 | When a call says there is no more, every event of the agent has been delivered. |
| `CodexRestore.NullIsAllowed` | src/codexSchema.ts:156-186 | If null satisfies a schema then `schemaAllowsNull` says so. |
| `CodexRestore.AllowedNullIsKept` | src/codexSchema.ts:122-130 | A property whose schema null satisfies never gets a synthetic null. |
| `CodexRestore.ProjectInOrder` | src/codexSchema.ts:57-154 | Whatever a node combines, its projection first follows its reference and then does the node's own part. |
| `CodexRestore.ProjectKeepsShape` | src/codexSchema.ts:191-229 | Restoring never changes a scalar, a type or the length of a list, and never adds a property. |
| `CodexRestore.PeelAppend` | src/codexSchema.ts:191-236 | Restoring by two lists of schemas is restoring by one after the other. |
| `CodexRestore.ProjectIsPeel` | src/codexSchema.ts:191-229 | Making the projections of a schema, references and all, removes exactly the nulls that any schema applying to their place made synthetic. |
| `CodexRestore.RemovedNullsWereRejected` | src/codexSchema.ts:191-229 | A property that restoring removes was a null, declared by a schema of its place, and rejected by it. |
| `CodexNodes.ValidIff` | src/codexSchema.ts:57-75 | A value satisfies a schema if and only if it satisfies the own keywords of the schema and of every definition it refers to. |
| `CodexNodes.AcceptsIff` | src/codexSchema.ts:57-154 | The same of the adapted schema. |
| `CodexNodes.MeetsObjectIff` | src/codexSchema.ts:107-142 | Exactly which objects an adapted node accepts: all declared properties and, where it closes objects, no others, each valid or a null that stands for its absence. |
| `CodexSchemaSound.MeetsIsSat` | src/codexSchema.ts:57-154 | If some value satisfies the adapted schemas of a place, the satisfiability check of the schema says so. |
| `CodexSchemaSound.SatWitness` | src/codexSchema.ts:57-154 | And if the check says so, a value is built. |
| `CodexSchemaSound.PeelIsValid` | src/codexSchema.ts:191-229 | Where the schemas of a place are harmless, what their adapted forms accept restores to what they accept. |
| `CodexSchemaSound.HarmShows` | src/codexSchema.ts:191-229 | Where they are not, a value is built that the adapted forms accept and whose restoration the author's schemas reject. |
| `CodexSchemaSound.AdaptationIsSound` | src/codexSchema.ts:37-55 | Every value that satisfies the adapted schema satisfies, once restored, the author's, if and only if the author's schema passes the check: at each place that can be reached, declared properties go with a type that allows objects, and no property is required, with null allowed, by one schema while another takes its null for absence. |
| `CodexSchemaSound.LoneReferencesAreSound` | src/codexSchema.ts:37-55 | In particular, schemas whose references have no properties or items beside them, and whose types allow the properties they declare, keep their meaning. |
| `CodexSchemaSound.SiblingsOfReferencesBreak` | src/codexSchema.ts:103-142 | A schema that fails by `required` beside a `$ref`. |
| `CodexSchemaSound.TypeWithoutObjectBreaks` | src/codexSchema.ts:107-136 | A schema that fails by `properties` under `type: "string"`. |
| `CodexStrict.AdaptedIsStrict` | src/codexSchema.ts:26-36 | Whatever the author wrote, every node of the adapted schema that describes objects admits the declared properties only and requires each of them. |
| `CodexStrict.OthersAreUntouched` | src/codexSchema.ts:57-154 | A schema without object nodes is handed over as the author wrote it. |
| `CodexStrict.KeywordsAreKept` | src/codexSchema.ts:77-150 | Constants, enumerations, bounds, references and the names declared stay. |
| `CodexKeywords.TypeMeans` | src/codexSchema.ts:156-189 | What `type` accepts, one name or several. |
| `CodexKeywords.ConstantsMean` | src/codexSchema.ts:156-189 | What `const` and `enum` accept. |
| `WriteGate.LeaseScopedWriteCoordinator.constructor` | src/workflowWriteCoordinator.ts:17-23 | A new gate is closed, unbound and has nobody waiting. |
| `WriteGate.LeaseScopedWriteCoordinator.ActivateGate` | src/workflowWriteCoordinator.ts:24-31 | The gate opens exactly when no permit is outstanding. |
| `WriteGate.LeaseScopedWriteCoordinator.VerifyOwned` | src/workflowWriteCoordinator.ts:85-94 | Ownership drift closes the gate for good. |
| `WriteGate.LeaseScopedWriteCoordinator.EnterGate` | src/workflowWriteCoordinator.ts:70-83 | A permit is issued only when the gate is open, bound and ownership holds; otherwise the reason says never acquired, released or drifted. |
| `WriteGate.LeaseScopedWriteCoordinator.LeaveGate` | src/workflowWriteCoordinator.ts:96-102 | The last permit wakes every waiting drain, once. |
| `WriteGate.LeaseScopedWriteCoordinator.RunSync` | src/workflowWriteCoordinator.ts:44-53 | A write leaves the permit count as it was, succeeds if and only if ownership held before and after, and any drift leaves the gate closed. |
| `WriteGate.LeaseScopedWriteCoordinator.CloseAndDrain` | src/workflowWriteCoordinator.ts:55-62 | Closing takes effect at once; the caller waits exactly when permits are outstanding. |
| `WriteGate.LeaseScopedWriteCoordinator.DeactivateGate` | src/workflowWriteCoordinator.ts:64-68 | Refused while a permit is outstanding, otherwise the gate is closed and unbound. |
| `WriteGate.StepKeepsInv` | src/fileWorkflowStore.ts:362-406 | Every acquisition, write, loss of ownership and stage of a release keeps the ownership invariant. |
| `WriteGate.HandoverIsQuiet` | src/fileWorkflowStore.ts:362-406 | In every reachable state permits belong to the present lease, the backend unlocks only with the gate closed and no permit outstanding, and the next activation succeeds. |
| `WriteGate.NoEntryAfterRelease` | src/fileWorkflowStore.ts:395-404 | From the moment a release begins until the next acquisition nobody enters the gate. |
| `GateHistory.EntryIsTold` | src/workflowWriteCoordinator.ts:70-95 | A writer gets in if and only if the last thing that moved the gate was an acquisition and it still owns the store; otherwise the refusal says whether it was never acquired, released, or lost. |
| `GateHistory.LeavingReturnsPermit` | src/workflowWriteCoordinator.ts:85-101 | Leaving returns exactly one permit, and lost ownership seen while leaving closes the gate. |
| `GateHistory.ActivationIsTold` | src/workflowWriteCoordinator.ts:24-34 | Activation is refused if and only if the lease acquired last is still open or a permit is still out, and a refusal changes nothing. |
| `GateHistory.MayHappenIff` | src/fileWorkflowStore.ts:362-406 | Ownership may be lost from the acquisition to the end of the release, writers may knock at any time, and acquisition, release and its steps take turns. |
| `GateHistory.ReleaseComesToItsEnd` | src/fileWorkflowStore.ts:362-406 | A release drains once its permits are back, unlocks or falls back to a closed lease, and leaves the store free for an acquisition that opens the gate. |
| `ServiceAdmission.StepKeepsInv` | src/workflowService.ts:1818-1856 | Every admission, exclusive mutation, initialization step and stage of stopping keeps the admission invariant. |
| `ServiceAdmission.ExclusiveRunsAlone` | src/workflowService.ts:672-693 | The body of an exclusive mutation runs with no other admitted mutation. |
| `ServiceAdmission.ClosedStaysClosed` | src/workflowService.ts:540-573 | A closed service stays closed and its admitted mutations only go away. |
| `ServiceAdmission.SnapshotIsComplete` | src/workflowService.ts:575-608 | The active runs are listed with no admitted mutation and initialization over, and none is registered afterwards that the list misses. |
| `ServiceAdmission.NothingAdmittedAfterStop` | src/workflowService.ts:540-608 | In every continuation of a run in which stopping has begun, nothing is admitted. |
| `ServiceAdmission.FailureKeptIff` | src/workflowService.ts:540-573 | A failure verdict is lost in exactly two ways: an operator stops a failed service that is not stopping, or a stop that began before the failure ends well. |
| `ServiceAdmission.FailureLasts` | src/workflowService.ts:540-573 | A failure that did not interrupt an operator's stop lasts, whatever else happens, until an operator asks for one. |
| `ServiceAdmission.FailureCanBeOverwritten` | src/workflowService.ts:545-566 | A run in which ownership is lost during an operator's stop and the service ends as stopped. |
| `ServiceHistory.AdmittedIff` | src/workflowService.ts:1818-1856 | Mutations, shared or exclusive, are admitted if and only if initialization succeeded, no stop was ever asked for, and every exclusive mutation admitted so far has finished. |
| `ServiceHistory.StageIsTold` | src/workflowService.ts:540-573 | While a stop is under way the service is quiescing, or failed because a failure stopped it; it is stopped only once a stop came to a good end. |
| `ServiceHistory.InterruptsRegistered` | src/workflowService.ts:540-608 | The runs that a stop interrupts are exactly those registered and not ended when it looks. |
| `ServiceHistory.NoLostWakeups` | src/workflowService.ts:540-608 | An exclusive mutation that is alone may proceed, a stop that waits for nobody goes on, and a stop ends as stopped if and only if it went well and was no failure. |
| `Inventory.FirstKeyAfter` | src/fileWorkflowStore.ts:1697-1706 | Binary search finds where the keys after the given one begin. |
| `Inventory.InsertSortedKey` | src/fileWorkflowStore.ts:1708-1711 | The list stays strictly sorted and gains exactly that key. |
| `Inventory.RemoveSortedKey` | src/fileWorkflowStore.ts:1713-1717 | The list stays strictly sorted and loses exactly that key; a missing key changes nothing. |
| `Inventory.RunInventory.constructor` | src/fileWorkflowStore.ts:1229-1264 | A new inventory is empty. |
| `Inventory.RunInventory.IndexManifest` | src/fileWorkflowStore.ts:1229-1264 | After a run appears or changes status every status list is strictly sorted and holds exactly the keys with that status. |
| `Inventory.RunInventory.Newest` | src/fileWorkflowStore.ts:548-549 | The high-water mark is not behind any key, and is a key unless there is none. |
| `Inventory.RunInventory.LeastHead` | src/fileWorkflowStore.ts:564-575 | One round picks the list whose next key in range is least, if any list has one. |
| `Inventory.RunInventory.TakeHead` | src/fileWorkflowStore.ts:575-579 | Taking the least head extends the page by exactly the next wanted key. |
| `Inventory.RunInventory.Start` | src/fileWorkflowStore.ts:559-562 | Each list starts just after the cursor. |
| `Inventory.RunInventory.Merge` | src/fileWorkflowStore.ts:559-580 | The merge returns, in order, exactly the wanted keys up to the last one, and fewer than asked only when there are no more. |
| `Inventory.RunInventory.DropLookAhead` | src/fileWorkflowStore.ts:581-590 | Dropping the look-ahead key leaves a page that is exact and has more behind it. |
| `Inventory.RunInventory.ListRuns` | src/fileWorkflowStore.ts:534-591 | A page is the first `limit` keys of the sorted filter in (after, highWater] with an exact `hasMore`; limits, filters and cursors that do not belong are refused. |
| `Inventory.WalkIsComplete` | src/fileWorkflowStore.ts:534-591 | An unfiltered walk returns every key present at its start, in strictly ascending order, hence once, and nothing above the high-water mark, while runs are created and change status between pages. |
| `RunProjection.DeriveCounts` | src/workflowState.ts:375-385 | The counting loop computes the tally of `TallySums`. |
| `RunProjection.TallySums` | src/workflowState.ts:375-385 | Each agent is counted under exactly one status, and the total is the number of agents. |
| `RunProjection.ProjectWorkflowState` | src/workflowState.ts:1022-1026 | The loop folds the reducer over the events and stops where it throws. |
| `RunProjectionInv.InsertMemberIs` | src/workflowState.ts:458-1020 | Inserting an agent into a phase by call index gives exactly the phase's agents in call order. |
| `RunProjectionInv.CloseKeeps` | src/workflowState.ts:413-444 | Closing makes every agent terminal and changes no identity, order or attempt numbering. |
| `RunProjectionInv.ReduceKeeps` | src/workflowState.ts:458-1020 | Every accepted event keeps the snapshot invariant, advances the sequence, and is refused once the run is over. |
| `RunProjectionInv.ProjectionIsConsistent` | src/workflowState.ts:458-1026 | Over every accepted event sequence: agents strictly sorted by call index with distinct ids, attempts sorted and distinct, each phase lists exactly its agents in order, counts sum to the total, and after failure, cancellation or interruption every agent is terminal. |
| `RunProjectionInv.TerminalRunsAbsorb` | src/workflowState.ts:458-1026 | In every accepted event sequence only the last event can leave the run terminal: each proper prefix projects, to a run that is not over. |
| `RunHistory.SnapshotTellsHistory` | src/workflowState.ts:458-1026 | Over every accepted event sequence: the run status is what the last event that moves the run leaves; agents and phases are those announced, each in the status the events leave; a phase is complete if and only if it was completed, or has not failed, the run is over and all its agents are done. |
| `RunHistory.AgentIsToldByEvents` | src/workflowState.ts:458-1026 | The status of an agent is what the last event that moves it leaves, unless the run failed, was cancelled or interrupted before the agent was done; its attempts are those that started, each in the status left by the last event that names it, by a cancellation of the open attempt, or by the end of the run; and it counts as replayed if and only if its last answer came from the journal. |
| `RunHistory.SucceededIff` | src/workflowState.ts:317-327 | An agent shows as completed if and only if the last event that moves it is its completion or a replay that is not a coverage gap. |
| `RunAcceptance.AcceptedIff` | src/workflowState.ts:458-1026 | An event is accepted after an accepted sequence if and only if its sequence is higher, the run is not over, agents, call indexes, phases, attempts and attempt numbers are announced once, and what it names was announced before. |
| `RunCounts.CountsAreTold` | src/workflowState.ts:375-385 | Each count is the number of agents of that status, `reused` the number answered from the journal, and the totals of agents and attempts are the numbers of admissions and starts. |

## Left out

- JournalReuse.ResumeReplaysExactly: for journals that track no imported calls; where they do, `JournalReplay.VisitedCallsReplay` states it of the calls the crashed run had visited, and `JournalReuse.DirectHitIff` gives the condition for inherited calls it had not.
- JournalResume.SparseResumeLosesNothing: begins from a snapshot that has, under each key, the records of one call, its start first and repeated any number of times, and at most one result. Two agents or two results under one key, which no run writes, are left out.
- JournalReuse.GenerationKeepsResults: begins from such a snapshot too.
- JournalReuse.LineageKeepsResults: begins from such a snapshot too.
- JournalReuse.CoverageGapsHaveNoSession: begins from such a snapshot too.
- AttemptTheorems.JournalBeforeEvent: begins from such a snapshot too.
- AttemptTheorems.GapsHaveNoSession: begins from such a snapshot too.
- JournalKey.KeyCommitsToHistory: compares prompts as UTF-8 carries them, and takes SHA-256 to be collision-free.
- EventStore.EventStore.RecoverEventTail: requires the log to be what a crash can leave; a corrupt log is reported by the function `Recovered`.
- CodexSchemaSound.AdaptationIsSound: schemas without combinators, nested `$defs` and recursive references, whose `required` names are declared and whose enum and const values are scalars; under anyOf, oneOf or recursive references a nested value is not always restored. Keywords that count or relate properties, such as `minProperties` and `dependentRequired`, are not modelled; removing a null can break them.
- BulkResults.ReadAgentResults: the phase filter and the listing of readable agents come in as the list of agents.
- Inventory.RunInventory.ListRuns: keys are ranks of the text keys, the filter stands for its fingerprint, and the text encoding of the cursor is not modelled.
- RunProjectionInv.ProjectionIsConsistent: labels, timestamps, activities, logs and result references of a snapshot are not modelled.
- The attempt loop is a state machine over values, not a class: its state is spread over the locals of many suspended calls, and the order of steps between them is what the theorems are about.
- Worktree preparation and cleanup pools and their quarantine, soft-stall timers, provider activity events and the token budget of a run.
- `agent.failed` events that are published before an agent starts its attempts (invalid schema, missing workspace).
- The two announcements of a retry are one step; the events for queueing and recovery progress are not in the event list.
- Permits of other runs under the shared service scheduler: its count covers the modelled run.
- Cyclic option values, which the journal refuses while canonicalizing.
- Several workflow identities in one journal file: each has its own snapshot, and the model follows one.
- Persisting the journal file itself: a mutation is either on disk afterwards or the call throws.
- The JSON text of events: a codec with a round trip, no newline inside a record and no proper prefix that is JSON; records fit the 1 MiB tail window.
- Line separators other than newline that `node:readline` recognizes.
- Power loss: the manifest is renamed without syncing the file first, so only process crashes are modelled, and rename is atomic. An I/O error in the middle of an append is treated as a crash.
- Transcript mirror files, result metadata files and checksum verification.
- The default lease (process id and rename): it does not exclude two owners, because the owner is inspected before the rename. The injected backend is modelled.
- Two concurrent calls of one lease's `release`, and the microtask order between a terminal state and queued publications; the store refuses appends to a terminal run.
- Child processes, IPC, HTTP, stdio and MCP registration, command line, provider SDKs, workflow parsing and discovery.

# Verified model of the IBAE bounded execution kernel

IBAE is an execution kernel for agents whose every operation is bounded, receipted and identified by a canonical
fingerprint. This project models its interlocking state machines in Dafny and proves what they promise over every run,
whatever commands, outcomes and interleavings the environment chooses.

| files | what they model |
|---|---|
| `EffectLedger`, `EffectRuns`, `EffectOutcomes`, `EffectValidators`, `EffectApprovals`, `NativeEffects` | the effect ledger: declared occurrences against shared integer cells, lost acknowledgements, journal reconciliation, budgets, one-shot approvals; what every command does and when it is admitted, read off the plan; the Python validators as a second specification |
| `ReadRuntime`, `ReadRuntimeRuns`, `RuntimeOutcomes`, `ShortCycles`, `NativeRuntime` | the read runtime: budgets, clock, dependency-keyed cache, bounded history, short cycles, lease application; what every call costs and answers, read off the receipts before it |
| `LeaseRecords`, `Continuation`, `JointLedger`, `LeaseTheorems`, `EvaluationOutcomes` | the continuation protocol: the governance ledger and the runtime as one transition system of ask, apply, commit, observe, read and revoke; what every decision records and which check decides it |
| `Authority`, `Lineage`, `SealedLedger` | the terminal authority epoch, the live continuation lineage with its transition guards, and the governance ledger behind its sealed states |
| `Evidence`, `EvidenceRuns`, `EvidenceOutcomes`, `NativeEvidence` | the compact evidence reducer against a batch fold, against the sealed receipts and against the runtime it watched |
| `DependencyGraphs`, `Obligations`, `Epistemic`, `Progress` | dependency ordering, registry acceptance and readiness, the dependency digest, progress classification |
| `Utf8`, `DecimalIntegers`, `CanonicalFloats`, `CanonicalJson`, `CanonicalReader`, `CanonicalProfiles`, `CanonicalMeters` | canonical JSON: key order, escaping, byte metering, integer bounds, float layout, an independent reader, the two acceptance profiles |

## How the model is built

- A fingerprint is the record it covers, so equal identities are equal records; a hash chain is the chain of what was
  folded. Receipts, snapshots and grants nest the states they name.
- Objects that the source updates in place are classes (`EffectCore`, `EffectSession`, `RuntimeCore`, `EvidenceCore`,
  `LineageCell`, the canonical meters). Each method is proved equal to a specification function of the old state, and the
  results over all runs are proved about those functions. The Python continuation operations return new frozen records and
  are functions here as well.
- What the environment decides (which outcome an operation has, which command comes next, when authority is revoked, what
  a caller claims) is an argument quantified over in every theorem.
- A finite float is its shortest decimal: a signed zero, or a sign, digits without outer zeros and an exponent. Python
  lays these out directly; the native printer starts from whatever rendering of the same number its float formatter gives,
  and every result about it is quantified over that formatter.
- Fields such as `writeLog`, `commitLog`, `seals`, `consumed` and `terminalMarks` record history for the statements; no
  modelled operation reads them.

## What the proofs found

- **The runtime canonical profile functions differ, but no record meets the difference.** `_bounded_json_string_length` caps
  one serialized string at 262144 bytes whatever the profile, while the native renderer caps only the raw 65536 bytes. A
  string of 50000 NULs is 300002 bytes when escaped: the native profile function accepts it, the Python one refuses it
  (`RuntimeProfilesDiffer`). The two accept the same values exactly when every string and key is at most 262144 bytes once
  serialized (`AcceptanceDiffersExactlyOnLongStrings`). That always holds in the value profile, and so for every record
  assembled from value-profile values and text of at most 4096 bytes, as the runtime's records are
  (`AssembledRecordsAgree`).
- **A pending grant binds one runtime state.** One state-changing call between grant and application makes the grant
  unappliable for ever, and no further grant can be decided (`PendingGrantOutcome`, `MissedGrantIsLost`,
  `LeavingTheNamedStateMisses`).
- **The observer is partial.** Once the terminal marker is set, new progress is refused by the record constructor, and that is
  the only such refusal (`ObservationRefusedExactlyAtTerminal`).
- **Progress is consumed with a memory of one.** Two consecutive consuming grants never carry the same progress; an older one
  is not excluded (`NoFreeLease`).
- **A retry never waits for a predecessor.** An occurrence that was attempted has only terminal ones before it, so the
  predecessor check can refuse a first execution alone (`AcceptedIffAdmissible`).
- **The ceiling partial is the exhausted label.** Its three conditions hold together exactly while the ledger is labelled
  lease-exhausted (`PartialIffExhausted`).
- The ceiling and hard-limit checks that follow the schedule check, the overflow and missing-journal errors of the effect
  ledger, the clock overflow rejections and the cache-capacity rejection are unreachable.

## Model

| member | source | states |
|---|---|---|
| EffectRuns.RunIsSequentialReplay | rust/src/effects.rs:884-1005 | In every run of executes, retries, reconciliations and cancellations, the cells are the initial cells with exactly the written occurrences replayed once each in declared order, every expectation met and no sum out of 64-bit range |
| EffectRuns.WritesAtMostOnceInOrder | rust/src/effects.rs:895-955 | Insertions happen at strictly increasing declared positions: no occurrence writes twice |
| EffectRuns.TerminalIsAbsorbing | rust/src/effects.rs:275-280 | A terminal occurrence stays terminal under every continuation, is never attempted again and never writes again |
| EffectRuns.StatusMeansWrite | rust/src/effects.rs:895-995 | What each of the seven statuses says about whether the occurrence wrote, in every reachable ledger |
| EffectRuns.ReceiptTellsTheTruth | rust/src/effects.rs:895-1005 | effect_applied is true only after the write, false only when it never happened, null exactly when the status is ambiguous; one dispatch writes at most once, and only its own occurrence |
| EffectRuns.RejectionIsTheCheck | rust/src/effects.rs:782-876 | The command check decides the outcome: once it passes nothing fails, and the missing-journal and overflow errors are unreachable |
| EffectRuns.ReconciliationReportsTheCell | rust/src/effects.rs:956-984 | A reconciliation that resolves reports the current value of the cell although it reads only the journal, and changes no cell |
| EffectRuns.CheckDecides | rust/src/effects.rs:782-1005 | Under the run invariant, check and dispatch succeed together |
| EffectRuns.RunKeeps | rust/src/effects.rs:782-1005 | The invariant over all entries at once (order, journal currency, write log, accounting, replay) holds in every run |
| EffectOutcomes.CommandsFollowThePlan | rust/src/effects.rs:884-1005 | In every run an accepted execution or retry does what its declared outcome, the cell and the expectation say: written exactly for succeed, crash-after and ack-unknown on the expected value, with the status, failure reason, observations and counters of each; a reconciliation resolves to applied after crash-after, to not applied after crash-before and stays ambiguous after ack-unknown; a cancellation keeps ambiguity; nothing else changes and the receipt shows both states |
| EffectOutcomes.AcceptedIffAdmissible | rust/src/effects.rs:782-876 | A command is accepted if and only if it names the session, the live authority, the current state and an occurrence with a request left, and its family's condition on status, budgets, plan, predecessors and range holds |
| EffectOutcomes.RejectionNamesTheFirstFault | rust/src/effects.rs:782-876 | A rejection names the first fault of the command in the fixed order, and a command without a fault is accepted |
| EffectOutcomes.SnapshotShowsTheLedger | rust/src/effects.rs:776-782 | The state record shows identity, budgets, cells and every occurrence, and is the only record that does |
| EffectValidators.ReachableSnapshotsValid | src/ibae/effects.py:412-462 | Every reachable native state passes the Python snapshot rules: generation, attempts, retries, caps and cross-field rules |
| EffectValidators.EmittedReceiptsValid | src/ibae/effects.py:523-632 | Every receipt a dispatch emits passes the Python receipt rules: status claims, accounting, evidence and identity |
| EffectValidators.EventFixesTheReceipt | src/ibae/effects.py:523-632 | Two valid receipts of one event agree on everything the event covers: command, states, occurrence, attempt, status, claim, evidence and failure |
| EffectApprovals.ApprovalsAreOneShotAndBounded | rust/src/effects.rs:1058-1154 | At most one unused approval exists, at most twice the request limit are ever issued, and each commits at most one transition |
| EffectApprovals.PendingApprovalCommits | rust/src/effects.rs:1111-1154 | Until revocation the pending approval commits when used with its own command |
| EffectApprovals.RevocationIsFinal | rust/src/lib.rs:1393-1415 | After revocation no cell, counter, occurrence or seal ever changes |
| EffectApprovals.SessionLedgerIsARun | rust/src/effects.rs:1058-1154 | The ledger of every session run is a ledger run, so all ledger results carry over to sessions |
| EffectApprovals.IssuedIffFree | rust/src/effects.rs:1058-1110 | An approval is issued exactly for an admissible command under the session's own live authority when none is pending or it cancels the pending execution; it is then the only unused one |
| EffectApprovals.CommitsIffPending | rust/src/effects.rs:1111-1154 | An approval commits exactly when it is the pending one, presented with its own command before revocation |
| NativeEffects.EffectCore.Parse | rust/src/effects.rs:704-775 | A profile is accepted exactly when limits and counts are in bounds, owners, actions and proposals are unique and every cell is declared; the result has the profile's identity and limits and is the initial ledger |
| NativeEffects.EffectCore.Check | rust/src/effects.rs:782-876 | The in-place check returns what the specification function says and changes nothing |
| NativeEffects.EffectCore.Commit | rust/src/effects.rs:884-1005 | The dispatch in place: the new state and receipt of the specification, or its error; a command refused by the check leaves the state as it was, while the two errors after the check (proved unreachable in every run) may not, which is why the session dispatches on a copy |
| NativeEffects.EffectCore.Attempt | rust/src/effects.rs:895-955 | One execution or retry in place: counters, entry, cell write and evidence of the specification |
| NativeEffects.EffectCore.Insert | rust/src/effects.rs:923-945 | The checked cell insertion and the journal witness it leaves |
| NativeEffects.EffectCore.Reconcile | rust/src/effects.rs:956-984 | Reconciliation in place: status from the journal witness, no cell written |
| NativeEffects.EffectCore.Cancel | rust/src/effects.rs:985-995 | Cancellation in place: the occurrence is cancelled or keeps its ambiguity |
| NativeEffects.EffectSession.Authorize | rust/src/effects.rs:1058-1110 | Issues the next one-shot seal or the specified refusal, replacing only a pending execution by its cancellation |
| NativeEffects.EffectSession.Dispatch | rust/src/effects.rs:1111-1154 | Dispatch through a working copy: consumes exactly the pending seal, or refuses and changes nothing, on every error |
| Authority.AuthorityBinding.RevokeAll | rust/src/lib.rs:1404-1415 | Revocation advances the epoch once and is terminal |
| ReadRuntimeRuns.ClockCountsEverything | rust/src/lib.rs:2996-3088 | In every run the tick is requests + executions + cache hits + cache size + retries + applied leases, and no reachable dispatch is rejected for overflow |
| ReadRuntimeRuns.CacheCapacityNeverRefuses | rust/src/lib.rs:3051-3069 | The capacity check of the observation commit never refuses: the execution budget refuses before the operation runs |
| ReadRuntimeRuns.CacheRefinesMemoTable | rust/src/lib.rs:3557-3714 | All accepted reads of one key return one observation, and a read is cold exactly when no accepted read of its key came before |
| ReadRuntimeRuns.CacheHoldsOnlyYieldedObservations | rust/src/lib.rs:3620-3714 | What the cache holds was yielded by an accepted cold read of that key; failed and invalid observations never enter |
| ReadRuntimeRuns.RunKeepsLog | rust/src/lib.rs:3090-3112 | The bounded window is a suffix of the full log of accepted reads, also when leases raise the limit mid-run |
| ReadRuntimeRuns.RunKeepsClock | rust/src/lib.rs:2996-3088 | The clock, budget and lease invariants hold in every run |
| ReadRuntimeRuns.StatesNeverRecur | rust/src/lib.rs:2996-3088 | The clock never goes back, and a state that was left never recurs |
| ReadRuntimeRuns.ScheduledGrantFits | rust/src/lib.rs:3340-3375 | After the schedule check, amounts refuse a grant only for a wrong running total: never for the ceiling, the hard limits or an overflow |
| RuntimeOutcomes.CountersCountReceipts | rust/src/lib.rs:2996-3088 | In every run the counters are counts of the run's receipts: requests of reads not rejected for the request budget, executions of cold, invalid and failed ones, hits, accepted retries, and the clock their sum with stored observations and applied leases |
| RuntimeOutcomes.ReceiptsFollowTheHistory | rust/src/lib.rs:3538-3717 | Every read, retry or malformed command is answered from the receipts before it: rejected exactly when its budget is counted out or by its own invocation, a hit exactly when the key was read before, returning what the first read returned |
| RuntimeOutcomes.LeasesFollowTheSchedule | rust/src/lib.rs:3283-3497 | A lease application raises the limits by exactly its amount when no check fails, and is otherwise refused for the first of twelve checks that fails, changing nothing |
| ShortCycles.LiveCycleIsTheLeast | src/ibae/continuation.py:1617-1634 | The live cycle names the state itself and shows its least terminal period up to three with its pattern |
| ShortCycles.DetectShortCycle | src/ibae/invariants.py:47-63 | The reference detector returns the least terminal period, or none exists |
| ShortCycles.CycleFromSnapshot | src/ibae/continuation.py:1617-1634 | The continuation detector returns the least terminal period up to three, with its pattern |
| ShortCycles.WindowPeriodIsLogPeriod | rust/src/lib.rs:3099-3112 | With an initial window of at least six, the period on the live window is the period of the unbounded log, in every run |
| ShortCycles.SixIsExactlyEnough | src/ibae/continuation.py:499-502 | A window of n finds the periods of the full history exactly when n is at least six |
| ShortCycles.PrefixKeepsCycle | src/ibae/continuation.py:1649-1657 | Executing any prefix of a reproducing pattern leaves the same terminal cycle |
| ShortCycles.CycleEquivalentStaysCyclic | src/ibae/continuation.py:1782-1816 | Rejecting a proposed pattern as cycle-equivalent is sound: after any non-empty prefix of it the live window still ends in a cycle of no longer period |
| NativeRuntime.RuntimeCore.Create | rust/src/lib.rs:2902-2947 | A runtime is created exactly for a bounded non-empty key, limits within the hard bounds and, with a continuation context, an accepted policy whose initial budget is those limits; what is created is a fresh session, from which every run result starts |
| NativeRuntime.RuntimeCore.TerminalCyclePeriod | rust/src/lib.rs:3099-3112 | The native detector returns the least terminal period up to three |
| NativeRuntime.RuntimeCore.ReadOnce | rust/src/lib.rs:3557-3714 | One read in place: hit, cold execution or rejection exactly as specified |
| NativeRuntime.RuntimeCore.StoreObservation | rust/src/lib.rs:3051-3069 | Commit of a cold observation in place, or no change |
| NativeRuntime.RuntimeCore.CommitCacheHit | rust/src/lib.rs:3034-3049 | Commit of a cache hit in place, or no change |
| NativeRuntime.RuntimeCore.PushHistory | rust/src/lib.rs:3090-3097 | The window drops its oldest entry only when full |
| NativeRuntime.RuntimeCore.ApplyLeaseGrant | rust/src/lib.rs:3446-3497 | Lease application in place: new limits, tick, running total and applied grants, or the refusal and no change |
| NativeRuntime.RuntimeCore.DispatchCall | rust/src/lib.rs:3514-3717 | One dispatched command in place, with its receipt |
| LeaseRecords.AdmitPolicy | rust/src/lib.rs:683-846 | The running checked sum accepts exactly the policies whose exact schedule total is the ceiling and whose bounds hold |
| LeaseRecords.BothConstructorsAgree | src/ibae/continuation.py:404-494 | The native admission and the Python constructor accept the same policies, although one compares the exact total and the other checks each partial sum |
| LeaseRecords.SumSchedule | src/ibae/continuation.py:404-466 | The checked schedule sum, present exactly when no partial sum overflows |
| LeaseRecords.Capacity | src/ibae/continuation.py:509-511 | The capacity above the initial budget is the whole schedule |
| LeaseTheorems.LedgersAgree | src/ibae/continuation.py:2845-2912 | In every joint run the runtime limits are the initial budget plus the applied grants, within the ceiling, and the runtime is level with governance or exactly the pending grant behind |
| LeaseTheorems.PendingGrantOutcome | rust/src/lib.rs:3283-3375 | Applying the pending grant succeeds exactly when the runtime is still the state it names; otherwise the refusal is staleness and nothing else |
| LeaseTheorems.CeilingChecksAreUnreachable | src/ibae/continuation.py:3749-3816 | No evaluation is denied for exceeding the ceiling, the ceiling denial means an exhausted schedule, and every decided grant is sealed by the runtime |
| LeaseTheorems.GrantIsEarned | src/ibae/continuation.py:3506-3816 | In every run an inquiry about this ledger, with a request and any recovery it needs left, is granted if and only if it is authorized, current, unblocked, with measurable unconsumed progress or a material strategy change, with no unanswered live cycle, and for at most the next scheduled amount; the grant is exactly the request |
| LeaseTheorems.GrantApplyCommitCompletes | src/ibae/continuation.py:2825-2912 | A pending grant applied at its named state under its seal can be committed, and then both ledgers are level and nothing is pending |
| LeaseTheorems.MissedGrantIsLost | rust/src/lib.rs:3308-3312 | Once the runtime has left the named state, the pending grant is never applied and no other grant is ever decided |
| LeaseTheorems.LeavingTheNamedStateMisses | rust/src/lib.rs:3308-3312 | With an unapplied pending grant, it is missed if and only if the runtime is no longer the named state |
| LeaseTheorems.EvaluationsAreBounded | src/ibae/continuation.py:3581-3634 | A run has at most max_lease_requests + 1 state-changing evaluations and sets the terminal marker at most once |
| LeaseTheorems.ExhaustionYieldsPartial | src/ibae/continuation.py:3872-3900 | Once the schedule or the request cap is used up, one authorized, fresh, unblocked request leaves a state the lease-ceiling partial reason accepts |
| LeaseTheorems.NoFreeLease | src/ibae/continuation.py:3671-3684 | Grants are at most consumed progress plus counted recoveries, recoveries stay within policy, consumed progress never exceeds observed progress and never repeats twice in a row |
| LeaseTheorems.ObservationRefusedExactlyAtTerminal | src/ibae/continuation.py:2232-2239 | An observation that passes every other check is refused if and only if the ledger is terminal and carries new progress |
| LeaseTheorems.RevocationFreezesBoth | rust/src/lib.rs:1479-1492 | After revocation neither ledger changes again |
| LeaseTheorems.JointRunKeeps | src/ibae/continuation.py:2117-2289 | The joint invariant holds in every run and the policy is fixed |
| EvaluationOutcomes.EvaluationFollowsTheChecks | src/ibae/continuation.py:3581-3816 | In every joint run a bound inquiry is granted exactly when none of twenty-three checks fails, recording exactly the request, the new current strategy and the consumed progress; otherwise it is denied for the first check that fails, costing one request, one tick and one decision while a request is left, nothing for an unauthorized requester, and one terminal mark at exhaustion |
| EvaluationOutcomes.RequestsAreChargedAsks | src/ibae/continuation.py:3480-3498 | The requests spent are the grants plus the denials, and exactly the run's authorized, bound inquiries made while a request was left |
| EvaluationOutcomes.TerminalDecisionIsReserved | src/ibae/continuation.py:424-430 | In every joint run in which nothing was denied a request is left, so that the terminal decision can be recorded |
| EvaluationOutcomes.ObservationFollowsTheContext | src/ibae/continuation.py:2652-2791 | An observation is accepted exactly when it continues the ledger's orchestration, contract, external endpoint and strategy with nothing pending and no new progress at the terminal mark; it then records exactly what was observed |
| EvaluationOutcomes.CommitFollowsTheRuntime | src/ibae/continuation.py:2825-2912 | A commit is accepted exactly for the pending grant that the live runtime has applied, under the runtime's receipt, and frees the ledger |
| EvaluationOutcomes.PartialIffExhausted | src/ibae/continuation.py:3872-3900 | In every joint run the lease-ceiling partial is accepted exactly while the ledger is labelled lease-exhausted |
| JointLedger.EvaluateKeepsGov | src/ibae/continuation.py:3506-3816 | Every evaluation keeps the governance invariant, denied or granted |
| JointLedger.ObserveKeeps | src/ibae/continuation.py:2652-2791 | Every observation keeps the joint invariant |
| JointLedger.CommitKeeps | src/ibae/continuation.py:2825-2912 | Every commit of an applied lease keeps the joint invariant |
| Lineage.LineageNeverForks | rust/src/lib.rs:1522-1587 | In every interleaving at most one transition is open, and one can be begun exactly from the last committed state of an unrevoked authority |
| Lineage.CommittedStatesStay | rust/src/lib.rs:1615-1638 | Committed states are never rewritten: the lineage at any time is a prefix of every later one |
| Lineage.GuardIsNeverLost | rust/src/lib.rs:1615-1638 | The commit of a live guard fails only because of a revocation, and then restores the last committed state |
| Lineage.AbandoningUndoes | rust/src/lib.rs:1640-1676 | An abandoned transition, and one refused by a revocation, leaves the lineage as it was |
| Lineage.RevokedLineageIsFrozen | rust/src/lib.rs:1479-1492 | After revocation nothing is committed again |
| Lineage.ValidationSeesTheHead | rust/src/lib.rs:1589-1607 | A state validates exactly when it is the last committed one, or when a transition to its generation is open |
| Lineage.LineageCell.StartInitial | rust/src/lib.rs:1522-1544 | The initial begin in place, or the refusal and no change |
| Lineage.LineageCell.StartTransition | rust/src/lib.rs:1546-1587 | The compare-and-begin in place, or the refusal and no change |
| Lineage.LineageCell.RestoreGuard | rust/src/lib.rs:1646-1667 | Restoring a guard puts back its prior state unless the cell is no longer its own |
| Lineage.LineageCell.CommitGuard | rust/src/lib.rs:1615-1676 | The commit in place, including the restore by drop when it is refused |
| SealedLedger.GovernanceIsTheLineageHead | rust/src/lib.rs:2705-2727 | In every sealed run the governance state is the last committed state of the lineage, no transition is left open, and only an operation that presents that state under a live authority can change anything: a superseded state is refused |
| SealedLedger.SealedStateCommitsOnce | rust/src/lib.rs:2290-2412 | Of two operations that present one sealed state at most one commits: once it is superseded the other changes nothing |
| SealedLedger.LineageIsAChain | rust/src/lib.rs:2481-2588 | The committed lineage only grows, and each of its states was finalized by one evaluation, observation or commit from the state before it |
| SealedLedger.SealedRunIsAJointRun | rust/src/lib.rs:2597-2702 | The joint ledger of every sealed run is the joint ledger of a run of actions, so all lease results carry over to sealed states |
| EvidenceRuns.ReducerIsBatchFold | rust/src/lib.rs:4911-5093 | Whatever is offered, the reducer holds the batch fold of what it accepted: counts, totals, first failure index, details as the exact prefix of the failures, four identity chains |
| EvidenceRuns.ChainFixesItems | rust/src/lib.rs:4357-4372 | An identity chain fixes the number of items and, position by position, their kind and identity |
| EvidenceRuns.SameChainsSameStream | rust/src/lib.rs:5110-5115 | Two reducers with the same aggregate identities accepted the same items in the same order |
| EvidenceRuns.BoundTotalsAreNetChange | rust/src/lib.rs:4974-5003 | A source-bound child-free stream is, seal by seal, one run of the runtime from the initial to the final boundary state, and its totals are the counters at the end minus those at the start |
| EvidenceRuns.SealedMeansCovered | rust/src/lib.rs:5100-5108 | Such a stream can be sealed exactly when it has a case and every authorized action has an accepted cold execution in it; every accepted cache hit follows one of its own action |
| EvidenceRuns.HitRepeatsItsCold | rust/src/lib.rs:4832-4874 | In such a stream every accepted cache hit returns the very transition of an earlier accepted cold execution of the same action |
| EvidenceOutcomes.OffersFollowTheirSeals | rust/src/lib.rs:4076-4101 | In every stream each accepted runtime case reports exactly its sealed receipt (passed exactly when not rejected, otherwise with that reason and state; identities, states and charges those of the receipt), and an offer is accepted if and only if it is admissible after what was accepted before |
| EvidenceOutcomes.WatchedStreamTellsTheRun | rust/src/lib.rs:4911-5028 | A watched stream counts as many passed cases as the run has accepted calls and as many rejected as rejected ones, and its details are the first rejected calls in order |
| EvidenceOutcomes.SealableIffCovered | rust/src/lib.rs:5100-5108 | Any stream with a case can be sealed, except a source-bound one that leaves an authorized action without an accepted cold execution or child |
| EvidenceRuns.SealingIsFinal | rust/src/lib.rs:5141-5161 | A sealed reducer admits nothing and sealing again changes nothing |
| NativeEvidence.EvidenceCore.Create | rust/src/lib.rs:4768-4815 | A fresh reducer exactly for case and detail bounds within the protocol's |
| NativeEvidence.EvidenceCore.IngestStructural | rust/src/lib.rs:4817-4830 | Unbound cases through a working copy: the specified state, or no change at all |
| NativeEvidence.EvidenceCore.IngestRuntime | rust/src/lib.rs:4832-4874 | Sealed cases through a working copy: seal, manifest and cold-before-hit checks, then the specified state, or no change at all |
| NativeEvidence.EvidenceCore.IngestChild | rust/src/lib.rs:4876-4909 | Child receipts through a working copy: the specified state, or no change at all |
| NativeEvidence.EvidenceCore.FoldCase | rust/src/lib.rs:4921-5028 | The in-place case fold of the working copy |
| NativeEvidence.EvidenceCore.FoldChild | rust/src/lib.rs:5029-5090 | The in-place child fold of the working copy |
| NativeEvidence.EvidenceCore.Seal | rust/src/lib.rs:5141-5161 | Sealing in place, or the refusal |
| DependencyGraphs.OrderNodes | src/ibae/obligations.py:164-184 | The heap loop yields the greedy order of what it can reach, and what it leaves all waits within itself |
| DependencyGraphs.ValidateAcyclic | src/ibae/obligations.py:164-192 | Unresolved nodes are reported exactly when the graph has a cycle |
| DependencyGraphs.VisitsAllIffAcyclic | src/ibae/obligations.py:185-192 | Counting the visited nodes decides acyclicity, where a cycle is a closed dependency walk |
| DependencyGraphs.TopologicalIds | src/ibae/obligations.py:249-269 | The lexicographically least of all dependency-respecting permutations |
| DependencyGraphs.GreedyIsLeast | src/ibae/obligations.py:249-269 | A greedy order is at most every other order, lexicographically |
| DependencyGraphs.AcyclicIffOrderable | src/ibae/obligations.py:164-192 | A graph has a dependency-respecting permutation exactly when it has no cycle |
| Obligations.Construct | src/ibae/obligations.py:112-208 | A registry is accepted exactly when it is within its bound, ids are unique, dependencies known, acyclic, and nothing is satisfied before what it depends on; every refusal names a real fault |
| Obligations.SomethingIsUnobstructed | src/ibae/obligations.py:230-247 | Unless all is satisfied, some obligation waits for nothing: it is ready, or only explicitly blocked |
| Obligations.ReadyUnlessComplete | src/ibae/obligations.py:241-247 | With nothing blocked, ready_ids is empty exactly when everything is satisfied |
| Obligations.ReadinessMeans | src/ibae/obligations.py:221-238 | The four readiness classes, by the obligation's own status and whether something it needs is unsatisfied |
| Obligations.ReadyIds | src/ibae/obligations.py:241-247 | Exactly the ready obligations, in identity order |
| Obligations.SatisfyAcceptedIffUnblocked | src/ibae/obligations.py:271-286 | Satisfying an obligation is accepted exactly when no dependency blocks it |
| Obligations.ReopenAcceptedIffUnused | src/ibae/obligations.py:271-286 | Reopening or blocking one is accepted exactly when no satisfied obligation depends on it |
| Obligations.AnyReadyOrderCompletes | src/ibae/obligations.py:230-286 | Satisfying ready obligations in any order never gets stuck or refused, and completes after exactly as many steps as were unsatisfied |
| Epistemic.Construct | src/ibae/epistemic.py:185-224 | A state is accepted exactly when it is within its bound, keys are unique, dependencies known, acyclic and resolved |
| Epistemic.Closure | src/ibae/epistemic.py:299-306 | The worklist computes exactly what the keys reach through dependencies |
| Epistemic.DependencyDigest | src/ibae/epistemic.py:286-310 | The digest exists exactly for distinct resolved keys, and covers the identities of their closure in key order |
| Epistemic.DigestSeesExactlyTheClosure | src/ibae/epistemic.py:299-310 | Two digests of the same keys agree if and only if every record those keys reach has the same identity |
| Epistemic.IdentityForgetsOnlyReuse | src/ibae/epistemic.py:171-178 | Two records have one identity exactly when they differ at most in whether their observation was reused |
| Epistemic.ClosureIsResolved | src/ibae/epistemic.py:212-224 | Nothing unresolved ever enters a digest |
| Progress.DeriveClassification | src/ibae/continuation.py:961-999 | One pass classifies by whether some dimension informs, improves or regresses |
| Progress.ClassesMean | src/ibae/continuation.py:961-999 | Each of the five classes, by which dimensions say something new, improve and worsen |
| Progress.CountsPartition | src/ibae/continuation.py:1289-1312 | Every obligation is counted in exactly one of unsatisfied, blocked and satisfied |
| Progress.ProgressIsStrictOrder | src/ibae/continuation.py:961-999 | Measurable progress is irreflexive, asymmetric and transitive |
| Progress.BackwardsIsDual | src/ibae/continuation.py:961-999 | Read backwards, progress is regression and every other class is itself |
| Progress.ProgressChainsAreBounded | src/ibae/continuation.py:1289-1312 | A chain of measurable progress on obligation counts keeps the definitions and has at most dimensions times obligations steps |
| Progress.DeriveTaskComplete | src/ibae/continuation.py:1002-1026 | Complete exactly when every obligation is satisfied and every threshold is met |
| Progress.DefaultCompletion | src/ibae/continuation.py:746-764 | Under the built-in contract completion is satisfaction of everything, and then no progress is left |
| Progress.SatisfyingIsProgress | src/ibae/continuation.py:746-764 | Satisfying a ready obligation is measurable progress under the built-in contract |
| Utf8.ByteOrderIsCodePointOrder | rust/src/lib.rs:434-436 | Sorting keys by UTF-8 bytes and by code points agree on scalar text (section 1 of RFC 3629) |
| Utf8.EncodeIsInjective | src/ibae/canonical.py:50-52 | Different scalar texts have different bytes |
| Utf8.EncodeReadsBack | src/ibae/canonical.py:50-52 | The bytes of scalar text are read back as that text by a decoder of section 3 of RFC 3629 that refuses overlong and surrogate forms |
| Utf8.BoundedUtf8Length | src/ibae/_records.py:37-59 | The exact UTF-8 length, or a refusal exactly for unpaired surrogates and over-long text |
| DecimalIntegers.CanonicalIntegerIsPrintedValue | rust/src/lib.rs:361-381 | A JSON integer is printed as its value, negative zero included, exactly when it fits 256 bits |
| DecimalIntegers.IdentityIntegersAreBounded | rust/src/lib.rs:205-217 | Exactly the decimal texts of 0, or 1, up to 2^256 - 1 are identity integers |
| DecimalIntegers.DecimalOrder | rust/src/lib.rs:213-216 | Comparing length, then digits, compares values |
| DecimalIntegers.BothBoundsAgree | src/ibae/_records.py:218-223 | The 256-bit length bound and the decimal text bound are one bound |
| CanonicalFloats.DerivationIsExact | rust/src/lib.rs:288-315 | Trimming the digits of any positional or scientific rendering of a number, and recomputing the exponent from the trim, recovers exactly its shortest digits and exponent |
| CanonicalFloats.LayoutRendersItsDecimal | rust/src/lib.rs:317-359 | The text laid out for a float is itself a rendering of that float |
| CanonicalFloats.LayoutHasPythonForm | rust/src/lib.rs:324-359 | The text of a float has Python's form: a point and no exponent from 1e-4 up to 1e16, otherwise one digit, any others after a point, and a signed exponent of at least two digits |
| CanonicalFloats.LayoutIsInjective | rust/src/lib.rs:317-359 | Different floats, the two zeros included, print differently |
| CanonicalFloats.LayoutIsNoInteger | rust/src/lib.rs:361-365 | No float prints as any integer does |
| CanonicalFloats.PythonFloatRepr | rust/src/lib.rs:272-359 | Whatever rendering the float formatter gave, the printed text is the layout of the float; a float that is not finite is refused |
| CanonicalJson.NumberPrefix | rust/src/lib.rs:361-381 | Integers and floats print as a prefix code before any JSON delimiter: equal texts start with equal numbers |
| CanonicalJson.PrintersAgree | src/ibae/canonical.py:31-47 | The native and the Python printer give one text for every value, finite floats included, whose text is scalar |
| CanonicalJson.PrintedOrderIsAscending | rust/src/lib.rs:434-436 | What is printed is the same value up to key order, with the keys of every object strictly ascending |
| CanonicalJson.TextDeterminesValue | rust/src/lib.rs:383-459 | Two values print the same text if and only if they are equal up to object key order |
| CanonicalJson.RenderIsInjective | rust/src/lib.rs:383-459 | Rendering loses nothing |
| CanonicalReader.PrintReadsBack | rust/src/lib.rs:383-459 | What either printer prints is read back, by a reader that follows sections 3 to 7 of RFC 8259 and does not know the printer, as the value with its members in key order |
| CanonicalReader.StringIsTheShortestSpelling | rust/src/lib.rs:401-406 | Of all texts read as a string with lowercase hexadecimal digits, the printed one is the shortest and the only one of its length |
| CanonicalReader.ContentIsClean | src/ibae/canonical.py:41-47 | No control character is printed raw |
| CanonicalProfiles.MeterIsPrintedLength | src/ibae/_records.py:206-276 | The bytes charged in the caller's member order are exactly the UTF-8 length of the sorted, escaped text (section 7 of RFC 8259) |
| CanonicalProfiles.AcceptedIffWithinBounds | src/ibae/_records.py:179-280 | A value is accepted exactly when its depth, its number of values, its printed bytes, every collection size, every integer and every string and key are within bounds |
| CanonicalProfiles.AcceptanceDiffersExactlyOnLongStrings | src/ibae/_records.py:62-97 | Python accepts what the native side accepts less the values with a string over 262144 serialized bytes; in the value profile they accept the same |
| CanonicalProfiles.RuntimeProfilesDiffer | src/ibae/_records.py:92-96 | A value the native runtime profile function accepts and the Python one refuses |
| CanonicalProfiles.AssembledRecordsAgree | rust/src/lib.rs:2852-2865 | A record of any shape built from value-profile values and text of at most 4096 bytes is accepted by both sides or by neither, in every profile |
| CanonicalMeters.BoundedJsonStringLength | src/ibae/_records.py:62-97 | The exact serialized size of a string, found without serializing, or a refusal exactly when it does not fit |
| CanonicalMeters.Meter.Normalize | src/ibae/_records.py:179-280 | With shared counters spent through the recursion, accepts exactly what fits and charges exactly its nodes and bytes |
| CanonicalMeters.NormalizeBoundedJson | src/ibae/_records.py:179-280 | One normalisation accepts exactly the profile |
| CanonicalMeters.CanonicalFloat | rust/src/lib.rs:361-365 | A finite float becomes its layout, whichever rendering the formatter gives |
| CanonicalMeters.Stats.Render | rust/src/lib.rs:383-459 | With a shared node count, renders exactly the values that fit, as the sorted text |
| CanonicalMeters.CanonicalValueWithLimits | rust/src/lib.rs:461-482 | Text for exactly the accepted values, and the same text as the Python printer |

## Left out

- SHA-256: fingerprints are the records they cover and chains the items they fold, that is, hashing is taken as injective.
- Record schemas, exact-type revalidation and name grammars: records are taken as parsed; what the schemas guarantee is stated as a predicate where a result needs it (`FieldsInRange`, `OfferWellFormed`, `ActionWellFormed`).
- PyO3 glue, the GIL, mutexes and the Python code-integrity graph: operations are atomic steps; native seals and authorities are owner tags or identities issued by the session.
- Canonical-size errors of the effect and runtime records (the 1 MiB and 2 MiB envelopes): taken as not reached by the state machines.
- Binary floating point: a float is its shortest decimal digits, so shortest-digit search, decimal-to-binary parsing and the 32-bit exponent conversions of `python_float_repr` (whose exponents have at most three digits) are not modelled; the formatter behind the native printer is any function that renders the number.
- The JSON parsers of serde_json and the Python standard library: the text-to-value direction is the injectivity of printing.
- Heaps and dictionaries of the ordering loops are sets and maps with a least-element choice; the binary-heap array and the insertion order of dictionaries are not modelled.
- Node identities (fingerprints, epistemic keys) are naturals in one total order instead of strings in lexicographic order.
- The obligation and epistemic record constructors (duplicate dependencies, block reasons, class rules): dependencies are sets, and a self-dependency is refused as a cycle.
- Epistemic records carry their value as opaque text, and obligation definitions are their ids and dependencies, without the description text.
- Continuation decision and progress aggregates are the sequences they hash; the resumable checkpoint, the supervisor engine and the watchdog are not modelled.
- The evidence fast fold, finalization, bounded expansion and the byte ceiling of a summary.
- Orchestration, strategy materialization, tool admission and governance modules: their decisions are inputs.
- Observed snapshots, transports, adapters, conformance fixtures and benchmarks.

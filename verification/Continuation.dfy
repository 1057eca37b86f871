/**
 * The governance continuation ledger: evaluation of one lease request, context observation, commit of an
 * applied lease, and the partial-reason check. Records are immutable; each operation returns a new one.
 */
module Continuation {
  import opened Common
  import opened LeaseRecords
  import opened ShortCycles

  datatype LedgerError =
    | PolicyNotBound | ReceiptNotBound | PendingBlocksObservation | SnapshotNotBound | LimitsNotApplied
    | ProgressNotBound | ExternalNotContinued | ProgressCapacity | OrchestrationWithoutProgress
    | StrategyLineage | ApplicationMismatch | InvalidState

  datatype PolicyReceipt = PolicyReceipt(policy: Policy, id: string, task: string, governance: string,
                                         contract: Contract)

  // ----- Constructor invariants -----

  /** `ContinuationState.__post_init__`. */
  predicate Constructible(s: ContinuationState) {
    && s.leaseRequests == s.leasesGranted + s.leasesDenied
    && s.tick == s.leaseRequests
    && |s.decisions| == s.leaseRequests <= MAX_LEASE_REQUESTS && Distinct(s.decisions)
    && (s.progressEvents == 0 <==> s.lastProgress.None?)
    && (s.terminal.Some? ==> s.progressState.LeaseExhausted? && s.pending.None?)
    && (s.leaseRequests == 0 <==> s.lastDecision.NoDecision?)
    && (s.lastDecision.WasGranted? ==> s.leasesGranted > 0)
    && (s.lastDecision.WasDenied? ==> s.leasesDenied > 0)
    && (s.lastConsumed.Some? ==> s.leasesGranted > 0)
    && (s.lastConsumedExternal.Some? ==> s.leasesGranted > 0 && s.lastExternal.Some?)
    && s.strategyRecoveries <= s.leasesGranted
  }

  function Construct(s: ContinuationState): Result<ContinuationState, LedgerError> {
    if Constructible(s) then Success(s) else Failure(InvalidState)
  }

  /** `_require_policy`. */
  predicate PolicyBinds(s: ContinuationState, p: Policy) {
    && p == s.policy
    && s.leasesGranted <= |p.schedule| && s.leaseRequests <= p.maxRequests
    && s.progressEvents <= p.maxRequests + 1 && s.strategyRecoveries <= p.maxRecoveries
    && (s.terminal.Some? ==> s.leaseRequests == p.maxRequests && s.pending.None?)
  }

  // ----- Evaluation -----

  /** Everything one evaluation looks at besides the ledger state. */
  datatype Inquiry = Inquiry(
    request: Request, authorized: bool, live: RuntimeState, policy: Policy, receipt: PolicyReceipt, progress: Progress,
    strategy: Option<StrategyChange>, cycle: Option<CycleEvidence>, blocking: Option<string>)

  /** The first chain of refusals, in the order the evaluator tries them. */
  function ContextDenial(s: ContinuationState, q: Inquiry): Option<DenialReason>
    requires PolicyAccepted(s.policy)
  {
    var r := q.request;
    if r.requester != OpenAiSupervisor || !q.authorized then Some(UnauthorizedRequester)
    else if r.state != s then Some(StaleContinuationState)
    else if r.task != s.binding.task || r.governance != s.binding.governance || r.policy != s.policy
      then Some(StaleGovernance)
    else if r.orchestration != s.orchestration then Some(StaleOrchestration)
    else if r.runtimeSession != s.runtimeSession || r.runtimeState != s.runtimeState
            || q.live.session != s.runtimeSession || q.live != s.runtimeState then Some(StaleRuntime)
    else if s.pending.Some? then Some(PendingApplication)
    else if q.progress.task != s.binding.task || q.progress.governance != s.binding.governance
            || q.progress.contract != s.policy.progressContract || Some(q.progress) != s.lastProgress
            || q.progress.currentOrchestration != s.orchestration || r.progress != q.progress then Some(StaleProgress)
    else if q.progress.complete then Some(TaskAlreadyComplete)
    else if q.blocking.Some? then Some(BlockingViolation)
    else if s.leasesGranted >= |s.policy.schedule| then Some(LeaseCeilingReached)
    else if s.leaseRequests >= s.policy.maxRequests then Some(LeaseRequestLimit)
    else if r.leaseIndex != s.leasesGranted + 1 then Some(LeaseIndexMismatch)
    else if !IsWithin(s.cumulative, Capacity(s.policy)) then Some(LeaseCeilingReached)
    else if q.cycle.Some? && q.cycle != LiveCycle(q.live) then Some(StaleRuntime)
    else None
  }

  /** The strategy receipt: refused, or admitted, or absent. */
  function StrategyVerdict(s: ContinuationState, q: Inquiry): (r: (Option<DenialReason>, bool))
    ensures r.1 ==> r.0.None? && q.strategy.Some? && q.strategy.value.reason.AdmittedMaterialChange?
                    && q.request.strategyChange == q.strategy
    ensures r.0.None? && !r.1 ==> q.strategy.None?
  {
    if q.request.strategyChange.Some? then
      if q.strategy.None? || q.request.strategyChange != q.strategy || q.strategy.value.task != s.binding.task
         || q.strategy.value.governance != s.binding.governance || q.strategy.value.orchestration != s.orchestration
      then (Some(StrategyNotMaterial), false)
      else
        var c := q.strategy.value;
        if s.currentStrategy.None? || Some(c.priorMaterial) != s.currentStrategy then (Some(StrategyNotMaterial), false)
        else if c.cycle != LiveCycle(q.live) then (Some(StrategyCycleEquivalent), false)
        else if !c.reason.AdmittedMaterialChange? then
          (Some(if c.reason.CycleEquivalent? then StrategyCycleEquivalent else StrategyNotMaterial), false)
        else (None, true)
    else if q.strategy.Some? then (Some(StrategyNotMaterial), false)
    else (None, false)
  }

  predicate ProgressAdmitted(s: ContinuationState, p: Progress) {
    p.classification.MeasurableProgress? && Some(p) != s.lastConsumed
  }

  function MeritDenial(s: ContinuationState, q: Inquiry, strategyAdmitted: bool): Option<DenialReason> {
    if LiveCycle(q.live).Some? && !strategyAdmitted then Some(TerminalCycle)
    else if !ProgressAdmitted(s, q.progress) && !strategyAdmitted then Some(NoMeasurableProgress)
    else if strategyAdmitted && s.strategyRecoveries >= s.policy.maxRecoveries then Some(StrategyRecoveryExhausted)
    else None
  }

  function AmountDenial(s: ContinuationState, q: Inquiry): Option<DenialReason>
    requires PolicyAccepted(s.policy) && s.leasesGranted < |s.policy.schedule|
  {
    var amount := q.request.requested;
    if amount == ZERO then Some(EmptyResources)
    else if amount.mutations != 0 then Some(UnsupportedResource)
    else if !IsWithin(amount, s.policy.schedule[s.leasesGranted]) then Some(AmountExceedsSchedule)
    else
      match CheckedAdd(s.cumulative, amount)
      case None => Some(AmountExceedsCeiling)
      case Some(total) => if IsWithin(total, Capacity(s.policy)) then None else Some(AmountExceedsCeiling)
  }

  /** The reason an inquiry is denied, or nothing when it is granted. */
  function DenialOf(s: ContinuationState, q: Inquiry): Option<DenialReason>
    requires PolicyAccepted(s.policy)
  {
    match ContextDenial(s, q)
    case Some(why) => Some(why)
    case None =>
      var (refusal, admitted) := StrategyVerdict(s, q);
      if refusal.Some? then refusal
      else
        match MeritDenial(s, q, admitted)
        case Some(why) => Some(why)
        case None => AmountDenial(s, q)
  }

  function DeniedState(why: DenialReason): ProgressState {
    match why
    case TaskAlreadyComplete => Complete
    case LeaseCeilingReached => LeaseExhausted
    case LeaseRequestLimit => LeaseExhausted
    case TerminalCycle => CycleBlocked
    case StrategyCycleEquivalent => CycleBlocked
    case StrategyNotMaterial => StrategyChangeRejected
    case _ => Stalled
  }

  function DenialRecord(s: ContinuationState, q: Inquiry, why: DenialReason, recorded: bool): Denial {
    Denial(s.binding, s.policy, q.request, s, q.progress, q.request.leaseIndex, why,
           s.tick + if recorded then 1 else 0, if why.BlockingViolation? then q.blocking else None)
  }

  /** `_deny_continuation` for a recorded denial. */
  function RecordDenial(s: ContinuationState, d: Denial): ContinuationState {
    s.(leaseRequests := s.leaseRequests + 1, leasesDenied := s.leasesDenied + 1, tick := s.tick + 1,
       decisions := s.decisions + [Denied(d)], lastDecision := WasDenied(d.reason),
       progressState := DeniedState(d.reason))
  }

  /** The exhaustion denials that no longer have a request slot. */
  predicate ExhaustedWithoutSlot(s: ContinuationState, why: DenialReason) {
    && s.leaseRequests >= s.policy.maxRequests
    && ((why.LeaseCeilingReached? && s.leasesGranted >= |s.policy.schedule|)
        || (why.LeaseRequestLimit? && s.leasesGranted < |s.policy.schedule|))
  }

  /** What a denial does to the ledger: recorded, marked terminal once, or nothing. */
  function AfterDenial(s: ContinuationState, q: Inquiry, why: DenialReason): (ContinuationState, Denial) {
    var exhausted := ExhaustedWithoutSlot(s, why);
    var recorded := !why.UnauthorizedRequester? && !exhausted && s.leaseRequests < s.policy.maxRequests;
    var d := DenialRecord(s, q, why, recorded);
    if recorded then (RecordDenial(s, d), d)
    else if !exhausted || s.terminal.Some? then (s, d)
    else (s.(progressState := LeaseExhausted, terminal := Some(d)), d)
  }

  predicate UsesRecovery(s: ContinuationState, q: Inquiry) {
    StrategyVerdict(s, q).1 && (LiveCycle(q.live).Some? || !ProgressAdmitted(s, q.progress))
  }

  function GrantRecord(s: ContinuationState, q: Inquiry): Grant {
    Grant(s.binding, s.policy, s.policyReceipt, q.request, s, s.orchestration, s.runtimeSession, s.runtimeState,
          q.progress, if StrategyVerdict(s, q).1 then q.strategy else None, q.request.leaseIndex, q.request.requested,
          Plus(s.cumulative, q.request.requested), s.policy.ceiling, s.tick + 1)
  }

  function AfterGrant(s: ContinuationState, q: Inquiry): ContinuationState {
    var g := GrantRecord(s, q);
    var consumes := ProgressAdmitted(s, q.progress);
    s.(leaseRequests := s.leaseRequests + 1, leasesGranted := s.leasesGranted + 1, cumulative := g.cumulative,
       tick := s.tick + 1, decisions := s.decisions + [Granted(g)],
       strategyRecoveries := s.strategyRecoveries + (if UsesRecovery(s, q) then 1 else 0),
       currentStrategy := if StrategyVerdict(s, q).1 then Some(q.strategy.value.proposedMaterial)
         else s.currentStrategy,
       lastProgress := Some(q.progress),
       lastConsumed := if consumes then Some(q.progress) else s.lastConsumed,
       lastConsumedExternal := if consumes then q.progress.currentExternal else s.lastConsumedExternal,
       lastClassification := Some(q.progress.classification), lastDecision := WasGranted,
       progressState := if UsesRecovery(s, q) then StrategyChanged else Progressing, pending := Some(g))
  }

  /** `_evaluate_continuation`. */
  function Evaluate(s: ContinuationState, q: Inquiry): Result<(ContinuationState, Decision), LedgerError>
    requires PolicyAccepted(s.policy)
  {
    if !PolicyBinds(s, q.policy) then Failure(PolicyNotBound)
    else if q.receipt.policy != q.policy || q.receipt.id != s.policyReceipt || q.receipt.task != s.binding.task
            || q.receipt.governance != s.binding.governance || q.receipt.contract != s.policy.progressContract
    then Failure(ReceiptNotBound)
    else
      match DenialOf(s, q)
      case Some(why) =>
        var (next, d) := AfterDenial(s, q, why);
        (match Construct(next) case Success(n) => Success((n, Denied(d))) case Failure(e) => Failure(e))
      case None =>
        (match Construct(AfterGrant(s, q))
         case Success(n) => Success((n, Granted(GrantRecord(s, q))))
         case Failure(e) => Failure(e))
  }

  // ----- Observation -----

  predicate RuntimeBinds(s: ContinuationState, snapshot: RuntimeState) {
    && snapshot.lease.Some?
    && snapshot.lease.value.binding == s.binding && snapshot.lease.value.policy == s.policy
    && snapshot.lease.value.policyReceipt == s.policyReceipt
    && |snapshot.lease.value.applied| == s.leasesGranted
    && snapshot.lease.value.cumulative == s.cumulative
  }

  predicate LimitsApplied(s: ContinuationState, snapshot: RuntimeState) {
    var expected := Plus(s.policy.initial, s.cumulative);
    snapshot.limits == Limits(expected.requests, expected.executions, expected.retries, expected.history)
  }

  function ObservedState(p: Progress): ProgressState {
    if p.complete then Complete else if p.classification.MeasurableProgress? then Progressing else Stalled
  }

  function AfterObservation(
    s: ContinuationState, orchestration: string, snapshot: RuntimeState, progress: Option<Progress>): ContinuationState
  {
    var rebound := s.(orchestration := orchestration, runtimeState := snapshot);
    match progress
    case None => rebound
    case Some(p) =>
      rebound.(lastProgress := Some(p), progressEvents := s.progressEvents + 1, progressLog := s.progressLog + [p],
               lastExternal := p.currentExternal, lastClassification := Some(p.classification),
               progressState := ObservedState(p))
  }

  /** `_observe_continuation_context`. */
  function Observe(
    s: ContinuationState, policy: Policy, orchestration: string, snapshot: RuntimeState, progress: Option<Progress>,
    strategy: Option<string>): Result<ContinuationState, LedgerError>
  {
    if !PolicyBinds(s, policy) then Failure(PolicyNotBound)
    else if s.pending.Some? then Failure(PendingBlocksObservation)
    else if snapshot.session != s.runtimeSession || !RuntimeBinds(s, snapshot) then Failure(SnapshotNotBound)
    else if !LimitsApplied(s, snapshot) then Failure(LimitsNotApplied)
    else
      var refusal := ObservedProgressRefusal(s, orchestration, progress);
      if refusal.Some? then Failure(refusal.value)
      else if strategy.Some? && strategy != s.currentStrategy then Failure(StrategyLineage)
      else Construct(AfterObservation(s, orchestration, snapshot, progress))
  }

  function ObservedProgressRefusal(
    s: ContinuationState, orchestration: string, progress: Option<Progress>): Option<LedgerError>
  {
    match progress
    case None => if orchestration != s.orchestration then Some(OrchestrationWithoutProgress) else None
    case Some(p) =>
      if p.task != s.binding.task || p.governance != s.binding.governance || p.contract != s.policy.progressContract
         || p.priorOrchestration != s.orchestration || p.currentOrchestration != orchestration
      then Some(ProgressNotBound)
      else if s.lastExternal.Some? && p.priorExternal != s.lastExternal then Some(ExternalNotContinued)
      else if s.progressEvents >= s.policy.maxRequests + 1 then Some(ProgressCapacity)
      else None
  }

  // ----- Commit of an applied lease -----

  /** The runtime's receipt of a lease application, as the caller presents it. */
  datatype Application = Application(
    accepted: bool, grant: Grant, binding: Binding, policy: Policy, policyReceipt: string, session: string,
    leaseIndex: nat, cumulative: Resources, ceiling: Resources, prior: RuntimeState, resulting: RuntimeState)

  predicate ApplicationBinds(s: ContinuationState, g: Grant, a: Application, snapshot: RuntimeState) {
    && a.accepted
    && s.pending == Some(g) && a.grant == g
    && a.binding.task == s.binding.task && a.binding.governance == s.binding.governance
    && a.policy == s.policy && a.policyReceipt == s.policyReceipt && a.session == s.runtimeSession
    && a.leaseIndex == s.leasesGranted && a.cumulative == s.cumulative && a.ceiling == s.policy.ceiling
    && a.prior == s.runtimeState && a.resulting == snapshot && snapshot.session == s.runtimeSession
    && g.binding.task == s.binding.task && g.binding.governance == s.binding.governance && g.policy == s.policy
    && g.leaseIndex == s.leasesGranted && g.cumulative == s.cumulative
    && RuntimeBinds(s, snapshot)
    && |snapshot.lease.value.applied| > 0 && snapshot.lease.value.applied[|snapshot.lease.value.applied| - 1] == g
    && LimitsApplied(s, snapshot)
  }

  /** `_commit_lease_application`. */
  function CommitApplication(
    s: ContinuationState, policy: Policy, g: Grant, a: Application,
    snapshot: RuntimeState): Result<ContinuationState, LedgerError>
  {
    if !PolicyBinds(s, policy) then Failure(PolicyNotBound)
    else if !ApplicationBinds(s, g, a, snapshot) then Failure(ApplicationMismatch)
    else Construct(s.(runtimeState := snapshot, pending := None))
  }

  // ----- Partial finalization -----

  function EffectiveLeasesRemaining(s: ContinuationState): nat
    requires s.leasesGranted <= |s.policy.schedule| && s.leaseRequests <= s.policy.maxRequests
  {
    var slots, requests := |s.policy.schedule| - s.leasesGranted, s.policy.maxRequests - s.leaseRequests;
    if requests < slots then requests else slots
  }

  /** `_validate_semantic_partial_reason` for the lease-ceiling reason. */
  predicate CeilingPartialAccepted(s: ContinuationState)
    requires s.leasesGranted <= |s.policy.schedule| && s.leaseRequests <= s.policy.maxRequests
  {
    && s.progressState.LeaseExhausted?
    && EffectiveLeasesRemaining(s) == 0
    && (s.lastDecision == WasDenied(LeaseCeilingReached) || s.terminal.Some?)
  }
}

/**
 * What every inquiry, observation and commit does to the governance ledger, in every joint run: what a decision
 * costs, what it records, and which check decides it.
 */
module EvaluationOutcomes {
  import opened Common
  import opened LeaseRecords
  import opened ReadRuntime
  import opened ReadRuntimeRuns
  import opened ShortCycles
  import opened Continuation
  import opened JointLedger
  import opened LeaseTheorems

  // ----- The checks of one inquiry -----

  /** In the order in which they decide. */
  datatype Check =
    | Supervisor | NamesState | NamesGovernance | NamesOrchestration | NamesRuntime | NothingPending | NamesProgress
    | TaskOpen | Unblocked | ScheduleLeft | RequestLeft | NextIndex | NamesCycle | StrategyBound | StrategyAnswers
    | StrategyBreaksCycle | StrategyMaterial | CycleAnswered | ProgressMade | RecoveryLeft | AsksSomething
    | AsksNoMutation | WithinSchedule

  function Rank(c: Check): nat {
    match c
    case Supervisor => 0
    case NamesState => 1
    case NamesGovernance => 2
    case NamesOrchestration => 3
    case NamesRuntime => 4
    case NothingPending => 5
    case NamesProgress => 6
    case TaskOpen => 7
    case Unblocked => 8
    case ScheduleLeft => 9
    case RequestLeft => 10
    case NextIndex => 11
    case NamesCycle => 12
    case StrategyBound => 13
    case StrategyAnswers => 14
    case StrategyBreaksCycle => 15
    case StrategyMaterial => 16
    case CycleAnswered => 17
    case ProgressMade => 18
    case RecoveryLeft => 19
    case AsksSomething => 20
    case AsksNoMutation => 21
    case WithinSchedule => 22
  }

  function ReasonOf(c: Check): DenialReason {
    match c
    case Supervisor => UnauthorizedRequester
    case NamesState => StaleContinuationState
    case NamesGovernance => StaleGovernance
    case NamesOrchestration => StaleOrchestration
    case NamesRuntime => StaleRuntime
    case NothingPending => PendingApplication
    case NamesProgress => StaleProgress
    case TaskOpen => TaskAlreadyComplete
    case Unblocked => BlockingViolation
    case ScheduleLeft => LeaseCeilingReached
    case RequestLeft => LeaseRequestLimit
    case NextIndex => LeaseIndexMismatch
    case NamesCycle => StaleRuntime
    case StrategyBound => StrategyNotMaterial
    case StrategyAnswers => StrategyCycleEquivalent
    case StrategyBreaksCycle => StrategyCycleEquivalent
    case StrategyMaterial => StrategyNotMaterial
    case CycleAnswered => TerminalCycle
    case ProgressMade => NoMeasurableProgress
    case RecoveryLeft => StrategyRecoveryExhausted
    case AsksSomething => EmptyResources
    case AsksNoMutation => UnsupportedResource
    case WithinSchedule => AmountExceedsSchedule
  }

  /** Measurable progress other than what the last consuming grant used up. */
  predicate IsFresh(s: ContinuationState, p: Progress) {
    p.classification.MeasurableProgress? && s.lastConsumed != Some(p)
  }

  /** The strategy change is about this task, and continues from the current strategy. */
  predicate Continues(s: ContinuationState, c: StrategyChange) {
    && c.task == s.binding.task && c.governance == s.binding.governance && c.orchestration == s.orchestration
    && s.currentStrategy == Some(c.priorMaterial)
  }

  predicate Fails(s: ContinuationState, q: Inquiry, c: Check) {
    match c
    case Supervisor => q.request.requester != OpenAiSupervisor || !q.authorized
    case NamesState => q.request.state != s
    case NamesGovernance =>
      q.request.task != s.binding.task || q.request.governance != s.binding.governance || q.request.policy != s.policy
    case NamesOrchestration => q.request.orchestration != s.orchestration
    case NamesRuntime =>
      q.request.runtimeSession != s.runtimeSession || q.live.session != s.runtimeSession
      || q.request.runtimeState != s.runtimeState || q.live != s.runtimeState
    case NothingPending => s.pending.Some?
    case NamesProgress =>
      q.progress.task != s.binding.task || q.progress.governance != s.binding.governance
      || q.progress.contract != s.policy.progressContract || s.lastProgress != Some(q.progress)
      || q.progress.currentOrchestration != s.orchestration || q.request.progress != q.progress
    case TaskOpen => q.progress.complete
    case Unblocked => q.blocking.Some?
    case ScheduleLeft => s.leasesGranted >= |s.policy.schedule|
    case RequestLeft => s.leaseRequests >= s.policy.maxRequests
    case NextIndex => q.request.leaseIndex != s.leasesGranted + 1
    case NamesCycle => q.cycle.Some? && q.cycle != LiveCycle(q.live)
    case StrategyBound =>
      q.request.strategyChange != q.strategy || (q.strategy.Some? && !Continues(s, q.strategy.value))
    case StrategyAnswers => q.strategy.Some? && q.strategy.value.cycle != LiveCycle(q.live)
    case StrategyBreaksCycle => q.strategy.Some? && q.strategy.value.reason.CycleEquivalent?
    case StrategyMaterial => q.strategy.Some? && !q.strategy.value.reason.AdmittedMaterialChange?
    case CycleAnswered => q.strategy.None? && LiveCycle(q.live).Some?
    case ProgressMade => q.strategy.None? && !IsFresh(s, q.progress)
    case RecoveryLeft => q.strategy.Some? && s.strategyRecoveries >= s.policy.maxRecoveries
    case AsksSomething => q.request.requested == ZERO
    case AsksNoMutation => q.request.requested.mutations != 0
    case WithinSchedule =>
      s.leasesGranted < |s.policy.schedule| && !IsWithin(q.request.requested, s.policy.schedule[s.leasesGranted])
  }

  /** `c` fails, and nothing before it does. */
  ghost predicate IsFirstFailure(s: ContinuationState, q: Inquiry, c: Check) {
    Fails(s, q, c) && forall other :: Fails(s, q, other) ==> Rank(c) <= Rank(other)
  }

  // ----- What a decision records -----

  /** The progress label of a denied ledger. */
  predicate Labels(shown: ProgressState, why: DenialReason) {
    && (shown.Complete? <==> why.TaskAlreadyComplete?)
    && (shown.LeaseExhausted? <==> why.LeaseCeilingReached? || why.LeaseRequestLimit?)
    && (shown.CycleBlocked? <==> why.TerminalCycle? || why.StrategyCycleEquivalent?)
    && (shown.StrategyChangeRejected? <==> why.StrategyNotMaterial?)
    && !shown.Progressing? && !shown.StrategyChanged?
  }

  /** The denial is about this inquiry, for this reason. */
  predicate Denies(s: ContinuationState, q: Inquiry, d: Denial, why: DenialReason, tick: nat) {
    && d.binding == s.binding && d.policy == s.policy && d.request == q.request && d.priorState == s
    && d.progress == q.progress && d.leaseIndex == q.request.leaseIndex && d.reason == why && d.tick == tick
    && d.blocking == if why.BlockingViolation? then q.blocking else None
  }

  /** One request, one denial, one tick, one decision; nothing else but the label changes. */
  predicate Recorded(s: ContinuationState, n: ContinuationState, q: Inquiry, why: DenialReason) {
    && |n.decisions| == |s.decisions| + 1 && n.decisions[|s.decisions|].Denied?
    && Denies(s, q, n.decisions[|s.decisions|].denial, why, n.tick) && Labels(n.progressState, why)
    && n == s.(leaseRequests := s.leaseRequests + 1, leasesDenied := s.leasesDenied + 1, tick := s.tick + 1,
               decisions := s.decisions + [n.decisions[|s.decisions|]], lastDecision := WasDenied(why),
               progressState := n.progressState)
  }

  /** The terminal marker, which costs no request. */
  predicate Marked(s: ContinuationState, n: ContinuationState, q: Inquiry, why: DenialReason) {
    && s.terminal.None? && n.terminal.Some? && Denies(s, q, n.terminal.value, why, s.tick)
    && n == s.(progressState := LeaseExhausted, terminal := n.terminal)
  }

  /** The grant is exactly what was asked, on this state. */
  predicate Grants(s: ContinuationState, q: Inquiry, g: Grant, tick: nat) {
    && g.binding == s.binding && g.policy == s.policy && g.policyReceipt == s.policyReceipt && g.request == q.request
    && g.priorState == s && g.orchestration == s.orchestration && g.runtimeSession == s.runtimeSession
    && g.priorRuntime == s.runtimeState && g.progress == q.progress && g.strategyChange == q.strategy
    && g.leaseIndex == s.leasesGranted + 1 && g.granted == q.request.requested
    && g.cumulative == Plus(s.cumulative, q.request.requested) && g.ceiling == s.policy.ceiling && g.tick == tick
  }

  /** One request, one lease, one tick, one decision; a strategy change becomes current, fresh progress is consumed. */
  predicate Paid(s: ContinuationState, n: ContinuationState, q: Inquiry) {
    var consumes := IsFresh(s, q.progress);
    var recovers := q.strategy.Some? && (LiveCycle(q.live).Some? || !consumes);
    && n.pending.Some? && Grants(s, q, n.pending.value, n.tick)
    && n == s.(leaseRequests := s.leaseRequests + 1, leasesGranted := s.leasesGranted + 1, tick := s.tick + 1,
               cumulative := Plus(s.cumulative, q.request.requested),
               decisions := s.decisions + [Granted(n.pending.value)],
               strategyRecoveries := s.strategyRecoveries + (if recovers then 1 else 0),
               currentStrategy := if q.strategy.Some? then Some(q.strategy.value.proposedMaterial)
                                  else s.currentStrategy,
               lastConsumed := if consumes then Some(q.progress) else s.lastConsumed,
               lastConsumedExternal := if consumes then q.progress.currentExternal else s.lastConsumedExternal,
               lastClassification := Some(q.progress.classification), lastDecision := WasGranted,
               progressState := if recovers then StrategyChanged else Progressing, pending := n.pending)
  }

  // ----- The evaluation -----

  /** The inquiry is evaluated under the ledger's own policy and policy receipt. */
  predicate IsBound(s: ContinuationState, q: Inquiry) {
    && q.policy == s.policy
    && q.receipt
       == PolicyReceipt(s.policy, s.policyReceipt, s.binding.task, s.binding.governance, s.policy.progressContract)
  }

  /** What a denial for a failing check leaves. */
  predicate DeniedStep(s: ContinuationState, n: ContinuationState, q: Inquiry, c: Check) {
    if c.Supervisor? then n == s
    else if s.leaseRequests < s.policy.maxRequests then Recorded(s, n, q, ReasonOf(c))
    else if (c.ScheduleLeft? || c.RequestLeft?) && s.terminal.None? then Marked(s, n, q, ReasonOf(c))
    else n == s
  }

  ghost predicate EvaluationStep(j: Joint, j': Joint, q: Inquiry) {
    var s, n := j.gov, j'.gov;
    && j'.runtime == j.runtime && j'.revoked == j.revoked
    && if !IsBound(s, q) || (q.authorized && j.revoked) then j' == j
       else if forall c :: !Fails(s, q, c) then
         Paid(s, n, q) && n.pending.Some? && j'.seals == j.seals + {n.pending.value}
       else (exists c :: IsFirstFailure(s, q, c) && DeniedStep(s, n, q, c)) && j'.seals == j.seals
  }

  /**
   * In every joint run an inquiry that is not bound, or authorized after revocation, changes nothing. Any other is
   * granted exactly when no check fails, and otherwise denied for the first that does: the denial costs a request
   * while there is one, and after that only exhaustion leaves a mark, once.
   */
  lemma EvaluationFollowsTheChecks(init: Joint, actions: seq<Action>, ask: Inquiry)
    requires FreshJoint(init) && ActionsWellFormed(actions)
    ensures var j := JointRun(init, actions);
            EvaluationStep(j, AskStep(j, ask), ask.(live := j.runtime))
  {
    JointRunKeeps(init, actions);
    hide JointRun, AskStep, EvaluationStep, JointInv, PolicyAccepted;
    AskFollowsTheChecks(JointRun(init, actions), ask);
  }

  // ----- The first failure is the reason -----

  /** The first failing check. */
  function FirstCheck(s: ContinuationState, q: Inquiry): Option<Check> {
    if Fails(s, q, Supervisor) then Some(Supervisor)
    else if Fails(s, q, NamesState) then Some(NamesState)
    else if Fails(s, q, NamesGovernance) then Some(NamesGovernance)
    else if Fails(s, q, NamesOrchestration) then Some(NamesOrchestration)
    else if Fails(s, q, NamesRuntime) then Some(NamesRuntime)
    else if Fails(s, q, NothingPending) then Some(NothingPending)
    else if Fails(s, q, NamesProgress) then Some(NamesProgress)
    else if Fails(s, q, TaskOpen) then Some(TaskOpen)
    else if Fails(s, q, Unblocked) then Some(Unblocked)
    else if Fails(s, q, ScheduleLeft) then Some(ScheduleLeft)
    else if Fails(s, q, RequestLeft) then Some(RequestLeft)
    else if Fails(s, q, NextIndex) then Some(NextIndex)
    else if Fails(s, q, NamesCycle) then Some(NamesCycle)
    else LaterCheck(s, q)
  }

  /** The first failing check about strategy, progress or amount. */
  function LaterCheck(s: ContinuationState, q: Inquiry): Option<Check> {
    if Fails(s, q, StrategyBound) then Some(StrategyBound)
    else if Fails(s, q, StrategyAnswers) then Some(StrategyAnswers)
    else if Fails(s, q, StrategyBreaksCycle) then Some(StrategyBreaksCycle)
    else if Fails(s, q, StrategyMaterial) then Some(StrategyMaterial)
    else if Fails(s, q, CycleAnswered) then Some(CycleAnswered)
    else if Fails(s, q, ProgressMade) then Some(ProgressMade)
    else if Fails(s, q, RecoveryLeft) then Some(RecoveryLeft)
    else if Fails(s, q, AsksSomething) then Some(AsksSomething)
    else if Fails(s, q, AsksNoMutation) then Some(AsksNoMutation)
    else if Fails(s, q, WithinSchedule) then Some(WithinSchedule)
    else None
  }

  predicate ComesFirst(s: ContinuationState, q: Inquiry, other: Check) {
    match FirstCheck(s, q)
    case None => !Fails(s, q, other)
    case Some(c) => Fails(s, q, c) && (Fails(s, q, other) ==> Rank(c) <= Rank(other))
  }

  lemma FirstCheckComesFirst(s: ContinuationState, q: Inquiry, other: Check)
    ensures ComesFirst(s, q, other)
  {
    hide Fails;
  }

  lemma FirstCheckIsFirst(s: ContinuationState, q: Inquiry)
    ensures match FirstCheck(s, q)
            case None => forall c :: !Fails(s, q, c)
            case Some(c) => IsFirstFailure(s, q, c)
  {
    hide Fails, FirstCheck, Rank;
    FirstCheckComesFirst(s, q, Supervisor);
    forall other | Fails(s, q, other)
      ensures FirstCheck(s, q).Some? && Rank(FirstCheck(s, q).value) <= Rank(other)
    {
      FirstCheckComesFirst(s, q, other);
    }
  }

  /** The reason the evaluator gives is that of the first failing check. */
  ghost predicate GivesReason(denial: Option<DenialReason>, first: Option<Check>) {
    denial == match first case None => None case Some(c) => Some(ReasonOf(c))
  }

  lemma NamingChecks(s: ContinuationState, q: Inquiry)
    ensures Fails(s, q, Supervisor) <==> q.request.requester != OpenAiSupervisor || !q.authorized
    ensures Fails(s, q, NamesState) <==> q.request.state != s
    ensures Fails(s, q, NamesGovernance) <==>
              q.request.task != s.binding.task || q.request.governance != s.binding.governance
              || q.request.policy != s.policy
    ensures Fails(s, q, NamesOrchestration) <==> q.request.orchestration != s.orchestration
    ensures Fails(s, q, NamesRuntime) <==>
              q.request.runtimeSession != s.runtimeSession || q.request.runtimeState != s.runtimeState
              || q.live.session != s.runtimeSession || q.live != s.runtimeState
    ensures Fails(s, q, NothingPending) <==> s.pending.Some?
    ensures Fails(s, q, NamesProgress) <==>
              q.progress.task != s.binding.task || q.progress.governance != s.binding.governance
              || q.progress.contract != s.policy.progressContract || Some(q.progress) != s.lastProgress
              || q.progress.currentOrchestration != s.orchestration || q.request.progress != q.progress
  {}

  lemma StandingChecks(s: ContinuationState, q: Inquiry)
    ensures Fails(s, q, TaskOpen) <==> q.progress.complete
    ensures Fails(s, q, Unblocked) <==> q.blocking.Some?
    ensures Fails(s, q, ScheduleLeft) <==> s.leasesGranted >= |s.policy.schedule|
    ensures Fails(s, q, RequestLeft) <==> s.leaseRequests >= s.policy.maxRequests
    ensures Fails(s, q, NextIndex) <==> q.request.leaseIndex != s.leasesGranted + 1
    ensures Fails(s, q, NamesCycle) <==> q.cycle.Some? && q.cycle != LiveCycle(q.live)
  {
    hide LiveCycle;
  }

  lemma ContextReason(s: ContinuationState, q: Inquiry)
    requires GovInv(s)
    ensures match ContextDenial(s, q)
            case Some(why) => FirstCheck(s, q).Some? && ReasonOf(FirstCheck(s, q).value) == why
            case None => FirstCheck(s, q) == LaterCheck(s, q) && s.leasesGranted < |s.policy.schedule|
  {
    TotalPrefix(s.policy.schedule, s.leasesGranted);
    assert IsWithin(s.cumulative, Capacity(s.policy));
    NamingChecks(s, q);
    StandingChecks(s, q);
    hide GovInv, LiveCycle, PolicyAccepted, Total, LaterCheck, Fails, IsWithin, Capacity;
  }

  lemma StrategyChecks(s: ContinuationState, q: Inquiry)
    ensures Fails(s, q, StrategyBound) <==>
              q.request.strategyChange != q.strategy || (q.strategy.Some? && !Continues(s, q.strategy.value))
    ensures Fails(s, q, StrategyAnswers) <==> q.strategy.Some? && q.strategy.value.cycle != LiveCycle(q.live)
    ensures Fails(s, q, StrategyBreaksCycle) <==> q.strategy.Some? && q.strategy.value.reason.CycleEquivalent?
    ensures Fails(s, q, StrategyMaterial) <==> q.strategy.Some? && !q.strategy.value.reason.AdmittedMaterialChange?
  {
    hide LiveCycle, Continues;
  }

  lemma MeritChecks(s: ContinuationState, q: Inquiry)
    ensures Fails(s, q, CycleAnswered) <==> q.strategy.None? && LiveCycle(q.live).Some?
    ensures Fails(s, q, ProgressMade) <==> q.strategy.None? && !IsFresh(s, q.progress)
    ensures Fails(s, q, RecoveryLeft) <==> q.strategy.Some? && s.strategyRecoveries >= s.policy.maxRecoveries
  {
    hide LiveCycle, IsFresh;
  }

  lemma AmountChecks(s: ContinuationState, q: Inquiry)
    ensures Fails(s, q, AsksSomething) <==> q.request.requested == ZERO
    ensures Fails(s, q, AsksNoMutation) <==> q.request.requested.mutations != 0
    ensures Fails(s, q, WithinSchedule) <==>
              s.leasesGranted < |s.policy.schedule|
              && !IsWithin(q.request.requested, s.policy.schedule[s.leasesGranted])
  {
    hide IsWithin;
  }

  /** The strategy verdict is that of the first four later checks. */
  lemma StrategyReason(s: ContinuationState, q: Inquiry)
    ensures StrategyVerdict(s, q) ==
            if Fails(s, q, StrategyBound) then (Some(StrategyNotMaterial), false)
            else if Fails(s, q, StrategyAnswers) || Fails(s, q, StrategyBreaksCycle)
              then (Some(StrategyCycleEquivalent), false)
            else if Fails(s, q, StrategyMaterial) then (Some(StrategyNotMaterial), false)
            else (None, q.strategy.Some?)
  {
    StrategyChecks(s, q);
    hide Fails, LiveCycle;
  }

  lemma MeritReason(s: ContinuationState, q: Inquiry)
    ensures MeritDenial(s, q, q.strategy.Some?) ==
            if Fails(s, q, CycleAnswered) then Some(TerminalCycle)
            else if Fails(s, q, ProgressMade) then Some(NoMeasurableProgress)
            else if Fails(s, q, RecoveryLeft) then Some(StrategyRecoveryExhausted)
            else None
  {
    MeritChecks(s, q);
    hide Fails, LiveCycle;
  }

  lemma AmountReason(s: ContinuationState, q: Inquiry)
    requires GovInv(s) && s.leasesGranted < |s.policy.schedule|
    ensures AmountDenial(s, q) ==
            if Fails(s, q, AsksSomething) then Some(EmptyResources)
            else if Fails(s, q, AsksNoMutation) then Some(UnsupportedResource)
            else if Fails(s, q, WithinSchedule) then Some(AmountExceedsSchedule)
            else None
  {
    ScheduledAmountFits(s, q);
    AmountChecks(s, q);
    hide GovInv, Fails, PolicyAccepted, CheckedAdd, Capacity, IsWithin, Plus, Total;
  }

  /** What the evaluator says once the context is clear. */
  function LaterDenial(s: ContinuationState, q: Inquiry): Option<DenialReason>
    requires PolicyAccepted(s.policy) && s.leasesGranted < |s.policy.schedule|
  {
    var (refusal, admitted) := StrategyVerdict(s, q);
    if refusal.Some? then refusal
    else match MeritDenial(s, q, admitted) case Some(why) => Some(why) case None => AmountDenial(s, q)
  }

  lemma RefusedStrategyReason(s: ContinuationState, q: Inquiry)
    requires PolicyAccepted(s.policy) && s.leasesGranted < |s.policy.schedule| && StrategyVerdict(s, q).0.Some?
    ensures GivesReason(LaterDenial(s, q), LaterCheck(s, q))
  {
    StrategyReason(s, q);
    hide Fails, StrategyVerdict, MeritDenial, AmountDenial, PolicyAccepted;
  }

  /** The first failing check about merit or amount, the strategy being in order. */
  function LastCheck(s: ContinuationState, q: Inquiry): Option<Check> {
    if Fails(s, q, CycleAnswered) then Some(CycleAnswered)
    else if Fails(s, q, ProgressMade) then Some(ProgressMade)
    else if Fails(s, q, RecoveryLeft) then Some(RecoveryLeft)
    else if Fails(s, q, AsksSomething) then Some(AsksSomething)
    else if Fails(s, q, AsksNoMutation) then Some(AsksNoMutation)
    else if Fails(s, q, WithinSchedule) then Some(WithinSchedule)
    else None
  }

  lemma AdmittedStrategyChecks(s: ContinuationState, q: Inquiry)
    requires StrategyVerdict(s, q).0.None?
    ensures LaterCheck(s, q) == LastCheck(s, q) && StrategyVerdict(s, q) == (None, q.strategy.Some?)
  {
    StrategyReason(s, q);
    hide Fails, StrategyVerdict;
  }

  lemma AdmittedStrategyReason(s: ContinuationState, q: Inquiry)
    requires GovInv(s) && s.leasesGranted < |s.policy.schedule| && StrategyVerdict(s, q).0.None?
    ensures GivesReason(LaterDenial(s, q), LaterCheck(s, q))
  {
    AdmittedStrategyChecks(s, q);
    MeritReason(s, q);
    AmountReason(s, q);
    LastReasons();
    hide Fails, StrategyVerdict, MeritDenial, AmountDenial, GovInv, LaterCheck, ReasonOf, PolicyAccepted;
  }

  lemma LastReasons()
    ensures ReasonOf(CycleAnswered) == TerminalCycle && ReasonOf(ProgressMade) == NoMeasurableProgress
    ensures ReasonOf(RecoveryLeft) == StrategyRecoveryExhausted && ReasonOf(AsksSomething) == EmptyResources
    ensures ReasonOf(AsksNoMutation) == UnsupportedResource && ReasonOf(WithinSchedule) == AmountExceedsSchedule
  {}

  lemma FirstFailureIsTheReason(s: ContinuationState, q: Inquiry)
    requires GovInv(s)
    ensures GivesReason(DenialOf(s, q), FirstCheck(s, q))
  {
    ContextReason(s, q);
    if ContextDenial(s, q).None? {
      if StrategyVerdict(s, q).0.Some? {
        RefusedStrategyReason(s, q);
      } else {
        AdmittedStrategyReason(s, q);
      }
    }
    hide ContextDenial, StrategyVerdict, MeritDenial, AmountDenial, FirstCheck, LaterCheck, GovInv;
  }

  // ----- From the evaluator to the step -----

  lemma ReasonFacts(c: Check)
    ensures ReasonOf(c).UnauthorizedRequester? <==> c.Supervisor?
    ensures ReasonOf(c).LeaseCeilingReached? <==> c.ScheduleLeft?
    ensures ReasonOf(c).LeaseRequestLimit? <==> c.RequestLeft?
  {}

  lemma DenialLeaves(s: ContinuationState, q: Inquiry, c: Check)
    requires PolicyBinds(s, s.policy) && FirstCheck(s, q) == Some(c)
    ensures DeniedStep(s, AfterDenial(s, q, ReasonOf(c)).0, q, c)
  {
    ReasonFacts(c);
    FirstCheckComesFirst(s, q, ScheduleLeft);
    StandingChecks(s, q);
    hide FirstCheck, LiveCycle, Fails, ReasonOf, Recorded, Marked, RecordDenial;
    var why := ReasonOf(c);
    RecordedDenial(s, q, why);
    if s.terminal.None? {
      MarkedDenial(s, q, why);
    }
  }

  lemma RecordedDenial(s: ContinuationState, q: Inquiry, why: DenialReason)
    ensures Recorded(s, RecordDenial(s, DenialRecord(s, q, why, true)), q, why)
  {}

  lemma MarkedDenial(s: ContinuationState, q: Inquiry, why: DenialReason)
    requires s.terminal.None?
    ensures Marked(s, s.(progressState := LeaseExhausted, terminal := Some(DenialRecord(s, q, why, false))), q, why)
  {}

  lemma GrantLeaves(s: ContinuationState, q: Inquiry)
    requires GovInv(s) && DenialOf(s, q).None? && FirstCheck(s, q).None?
    ensures Paid(s, AfterGrant(s, q), q) && AfterGrant(s, q).pending == Some(GrantRecord(s, q))
  {
    FirstCheckComesFirst(s, q, NamesProgress);
    FirstCheckComesFirst(s, q, NextIndex);
    FirstCheckComesFirst(s, q, StrategyBound);
    FirstCheckComesFirst(s, q, StrategyAnswers);
    FirstCheckComesFirst(s, q, StrategyBreaksCycle);
    FirstCheckComesFirst(s, q, StrategyMaterial);
    NamingChecks(s, q);
    StandingChecks(s, q);
    StrategyReason(s, q);
    hide GovInv, DenialOf, LiveCycle, Fails, FirstCheck, StrategyVerdict;
  }

  lemma BindsItself(s: ContinuationState)
    requires GovInv(s)
    ensures PolicyBinds(s, s.policy)
  {}

  lemma AskGranted(j: Joint, ask: Inquiry)
    requires JointInv(j) && !(ask.authorized && j.revoked) && IsBound(j.gov, ask)
    requires FirstCheck(j.gov, ask.(live := j.runtime)).None?
    ensures EvaluationStep(j, AskStep(j, ask), ask.(live := j.runtime))
  {
    hide GovInv, RuntimeInv, Bound, InStep, SealsOk, HistoryOk, DenialOf, Evaluate, AfterGrant, GrantRecord, Fails,
      Paid, FirstCheck, IssueAccepted, IsFirstFailure, DeniedStep, PolicyAccepted;
    var q := ask.(live := j.runtime);
    EvaluateKeepsGov(j.gov, q);
    FirstFailureIsTheReason(j.gov, q);
    FirstCheckIsFirst(j.gov, q);
    BindsItself(j.gov);
    EvaluationAnswers(j.gov, q);
    AfterGrantInStep(j, q);
    GrantLeaves(j.gov, q);
  }

  lemma AskDenied(j: Joint, ask: Inquiry, c: Check)
    requires JointInv(j) && !(ask.authorized && j.revoked) && IsBound(j.gov, ask)
    requires FirstCheck(j.gov, ask.(live := j.runtime)) == Some(c)
    ensures EvaluationStep(j, AskStep(j, ask), ask.(live := j.runtime))
  {
    hide GovInv, RuntimeInv, Bound, InStep, SealsOk, HistoryOk, DenialOf, Evaluate, AfterDenial, Fails, Paid,
      FirstCheck, IsFirstFailure, DeniedStep, PolicyAccepted, ReasonOf;
    var q := ask.(live := j.runtime);
    EvaluateKeepsGov(j.gov, q);
    FirstFailureIsTheReason(j.gov, q);
    FirstCheckIsFirst(j.gov, q);
    BindsItself(j.gov);
    EvaluationAnswers(j.gov, q);
    DenialLeaves(j.gov, q, c);
    assert Fails(j.gov, q, c) by { FirstCheckComesFirst(j.gov, q, c); }
  }

  lemma AskFollowsTheChecks(j: Joint, ask: Inquiry)
    requires JointInv(j)
    ensures EvaluationStep(j, AskStep(j, ask), ask.(live := j.runtime))
  {
    hide FirstCheck, Evaluate, IssueAccepted, GovInv, RuntimeInv, Bound, InStep, SealsOk, HistoryOk;
    var q := ask.(live := j.runtime);
    if !IsBound(j.gov, ask) {
      UnboundIsRefused(j.gov, q);
      hide Paid, DeniedStep, Fails, IsFirstFailure;
    } else if !(ask.authorized && j.revoked) {
      match FirstCheck(j.gov, q) {
        case None => AskGranted(j, ask);
        case Some(c) => AskDenied(j, ask, c);
      }
      hide EvaluationStep, AskStep;
    }
  }

  lemma UnboundIsRefused(s: ContinuationState, q: Inquiry)
    requires PolicyAccepted(s.policy) && !IsBound(s, q)
    ensures Evaluate(s, q).Failure?
  {
    hide DenialOf, AfterDenial, AfterGrant, PolicyAccepted, Construct;
  }

  // ----- Requests are counted -----

  /** The inquiry is the supervisor's, under the live authority and the ledger's own policy, with a request left. */
  predicate Charged(j: Joint, q: Inquiry) {
    && IsBound(j.gov, q) && q.authorized && q.request.requester == OpenAiSupervisor && !j.revoked
    && j.gov.leaseRequests < j.gov.policy.maxRequests
  }

  /** How many inquiries of the run were charged. */
  ghost function ChargedAsks(init: Joint, actions: seq<Action>): nat
    requires PolicyAccepted(init.gov.policy)
  {
    if actions == [] then 0
    else
      var prior, last := actions[..|actions| - 1], actions[|actions| - 1];
      ChargedAsks(init, prior) + if last.AskLease? && Charged(JointRun(init, prior), last.inquiry) then 1 else 0
  }

  /** In every joint run the requests spent, which are the grants and the denials, are the charged inquiries. */
  lemma {:induction false} RequestsAreChargedAsks(init: Joint, actions: seq<Action>)
    requires FreshJoint(init) && ActionsWellFormed(actions)
    ensures var s := JointRun(init, actions).gov;
            s.leaseRequests == s.leasesGranted + s.leasesDenied == |s.decisions| == ChargedAsks(init, actions)
  {
    hide FreshJoint, JointInv, JointStep, Charged, PolicyAccepted;
    JointRunKeeps(init, actions);
    JointRunCounts(JointRun(init, actions));
    if actions == [] {
      FreshSpendsNothing(init);
    } else {
      var prior, last := actions[..|actions| - 1], actions[|actions| - 1];
      RequestsAreChargedAsks(init, prior);
      JointRunKeeps(init, prior);
      ActionCharges(JointRun(init, prior), last);
    }
  }

  lemma FreshSpendsNothing(j: Joint)
    requires FreshJoint(j)
    ensures j.gov.leaseRequests == 0
  {}

  lemma JointRunCounts(j: Joint)
    requires JointInv(j)
    ensures j.gov.leaseRequests == j.gov.leasesGranted + j.gov.leasesDenied == |j.gov.decisions|
  {
    hide RuntimeInv, Bound, InStep, SealsOk, HistoryOk;
  }

  lemma ActionCharges(j: Joint, a: Action)
    requires JointInv(j)
    ensures JointStep(j, a).gov.leaseRequests
         == j.gov.leaseRequests + if a.AskLease? && Charged(j, a.inquiry) then 1 else 0
  {
    hide AskStep, CallStep, Observe, CommitApplication, JointInv, Charged;
    match a
    case AskLease(ask) => AskCharges(j, ask);
    case CallRuntime(command, invocation, seal) => CallTouchesRuntime(j, command, invocation, seal);
    case ObserveContext(policy, orchestration, snapshot, progress, strategy) =>
      if Observe(j.gov, policy, orchestration, snapshot, progress, strategy).Success? {
        ObservationFacts(j.gov, policy, orchestration, snapshot, progress, strategy);
      }
    case CommitLease(policy, g, application, snapshot) => CommitCounts(j.gov, policy, g, application, snapshot);
    case RevokeAll =>
  }

  lemma CommitCounts(s: ContinuationState, policy: Policy, g: Grant, a: Application, snapshot: RuntimeState)
    ensures var next := CommitApplication(s, policy, g, a, snapshot);
            next.Success? ==> next.value == s.(runtimeState := snapshot, pending := None)
  {
    hide PolicyBinds, ApplicationBinds, Constructible;
  }

  lemma DenialCharges(s: ContinuationState, n: ContinuationState, q: Inquiry, c: Check)
    requires IsFirstFailure(s, q, c) && DeniedStep(s, n, q, c)
    ensures n.leaseRequests
         == s.leaseRequests + if !Fails(s, q, Supervisor) && s.leaseRequests < s.policy.maxRequests then 1 else 0
  {
    hide Fails, Denies, Labels, ReasonOf;
    assert Fails(s, q, Supervisor) ==> Rank(c) <= Rank(Supervisor);
    OnlySupervisorIsFirst(c);
  }

  lemma GrantCharges(s: ContinuationState, n: ContinuationState, q: Inquiry)
    requires Paid(s, n, q) && forall c :: !Fails(s, q, c)
    ensures n.leaseRequests == s.leaseRequests + 1 && !Fails(s, q, Supervisor) && !Fails(s, q, RequestLeft)
  {
    hide Fails, Grants, LiveCycle, IsFresh;
  }

  lemma ChargeChecks(s: ContinuationState, q: Inquiry)
    ensures Fails(s, q, Supervisor) <==> q.request.requester != OpenAiSupervisor || !q.authorized
    ensures Fails(s, q, RequestLeft) <==> s.leaseRequests >= s.policy.maxRequests
  {}

  lemma AskCharges(j: Joint, ask: Inquiry)
    requires JointInv(j)
    ensures AskStep(j, ask).gov.leaseRequests == j.gov.leaseRequests + if Charged(j, ask) then 1 else 0
  {
    assert PolicyAccepted(j.gov.policy);
    hide JointInv, AskStep, Paid, DeniedStep, IsFirstFailure, Fails, LiveCycle, PolicyAccepted;
    var q, n := ask.(live := j.runtime), AskStep(j, ask).gov;
    AskFollowsTheChecks(j, ask);
    ChargeChecks(j.gov, q);
    if IsBound(j.gov, q) && !(q.authorized && j.revoked) {
      if forall c :: !Fails(j.gov, q, c) {
        GrantCharges(j.gov, n, q);
      } else {
        var c :| IsFirstFailure(j.gov, q, c) && DeniedStep(j.gov, n, q, c);
        DenialCharges(j.gov, n, q, c);
      }
    }
  }

  lemma OnlySupervisorIsFirst(c: Check)
    ensures Rank(c) <= 0 ==> c.Supervisor?
  {}

  // ----- Observation and commit -----

  /** What an observation needs, in a reachable ledger. */
  predicate Observable(
    j: Joint, policy: Policy, orchestration: string, snapshot: RuntimeState, progress: Option<Progress>,
    strategy: Option<string>)
  {
    var s := j.gov;
    && !j.revoked && snapshot == j.runtime && policy == s.policy && s.pending.None?
    && (strategy.Some? ==> strategy == s.currentStrategy)
    && match progress
       case None => orchestration == s.orchestration
       case Some(p) =>
         && p.task == s.binding.task && p.governance == s.binding.governance
         && p.contract == s.policy.progressContract
         && p.priorOrchestration == s.orchestration && p.currentOrchestration == orchestration
         && (s.lastExternal.Some? ==> p.priorExternal == s.lastExternal)
         && s.progressEvents <= s.policy.maxRequests && s.terminal.None?
  }

  /** The ledger names what was observed, and nothing else changes. */
  predicate Observed(
    s: ContinuationState, n: ContinuationState, orchestration: string, runtime: RuntimeState,
    progress: Option<Progress>)
  {
    match progress
    case None => n == s.(runtimeState := runtime)
    case Some(p) =>
      n == s.(orchestration := orchestration, runtimeState := runtime, lastProgress := progress,
              progressEvents := s.progressEvents + 1, progressLog := s.progressLog + [p],
              lastExternal := p.currentExternal, lastClassification := Some(p.classification),
              progressState := if p.complete then Complete
                               else if p.classification.MeasurableProgress? then Progressing else Stalled)
  }

  /** In every joint run an observation is accepted exactly when it is observable, and then it is what is recorded. */
  lemma ObservationFollowsTheContext(
    init: Joint, actions: seq<Action>, policy: Policy, orchestration: string, snapshot: RuntimeState,
    progress: Option<Progress>, strategy: Option<string>)
    requires FreshJoint(init) && ActionsWellFormed(actions) && (progress.Some? ==> ProgressWellFormed(progress.value))
    ensures var j := JointRun(init, actions);
            var j' := JointStep(j, ObserveContext(policy, orchestration, snapshot, progress, strategy));
            && j' == j.(gov := j'.gov)
            && if Observable(j, policy, orchestration, snapshot, progress, strategy)
               then Observed(j.gov, j'.gov, orchestration, j.runtime, progress) else j' == j
  {
    JointRunKeeps(init, actions);
    hide JointRun, JointInv, PolicyAccepted, Observable, Observed;
    ObservationStep(JointRun(init, actions), policy, orchestration, snapshot, progress, strategy);
  }

  lemma ObservationStep(
    j: Joint, policy: Policy, orchestration: string, snapshot: RuntimeState, progress: Option<Progress>,
    strategy: Option<string>)
    requires JointInv(j) && (progress.Some? ==> ProgressWellFormed(progress.value))
    ensures var j' := JointStep(j, ObserveContext(policy, orchestration, snapshot, progress, strategy));
            && j' == j.(gov := j'.gov)
            && if Observable(j, policy, orchestration, snapshot, progress, strategy)
               then Observed(j.gov, j'.gov, orchestration, j.runtime, progress) else j' == j
  {
    hide AskStep, CallStep, CommitApplication, RuntimeInv, Bound, InStep, SealsOk, HistoryOk, GovInv, RuntimeBinds,
      LimitsApplied, AfterObservation, PolicyAccepted, Constructible;
    if j.gov.pending.None? && ObservedProgressRefusal(j.gov, orchestration, progress).None? {
      ObservedConstructs(j.gov, orchestration, j.runtime, progress);
      InStepBinds(j);
      ObservedIsRecorded(j.gov, orchestration, j.runtime, progress);
    }
  }

  lemma ObservedIsRecorded(
    s: ContinuationState, orchestration: string, runtime: RuntimeState, progress: Option<Progress>)
    requires ObservedProgressRefusal(s, orchestration, progress).None?
    ensures Observed(s, AfterObservation(s, orchestration, runtime, progress), orchestration, runtime, progress)
  {}

  /** The application is the runtime's receipt for the pending grant. */
  predicate Receipts(j: Joint, g: Grant, a: Application) {
    var s := j.gov;
    && a.accepted && a.grant == g && a.binding.task == s.binding.task && a.binding.governance == s.binding.governance
    && a.policy == s.policy && a.policyReceipt == s.policyReceipt && a.session == s.runtimeSession
    && a.leaseIndex == s.leasesGranted && a.cumulative == s.cumulative && a.ceiling == s.policy.ceiling
    && a.prior == s.runtimeState && a.resulting == j.runtime
  }

  /**
   * In every joint run a commit is accepted exactly for the pending grant, once the live runtime has applied it,
   * under the runtime's receipt; it moves the named runtime state and frees the ledger, and nothing else.
   */
  lemma CommitFollowsTheRuntime(
    init: Joint, actions: seq<Action>, policy: Policy, g: Grant, a: Application, snapshot: RuntimeState)
    requires FreshJoint(init) && ActionsWellFormed(actions)
    ensures var j := JointRun(init, actions);
            var j' := JointStep(j, CommitLease(policy, g, a, snapshot));
            if !j.revoked && snapshot == j.runtime && policy == j.gov.policy && j.gov.pending == Some(g)
               && LeasesApplied(j.runtime) == j.gov.leasesGranted && Receipts(j, g, a)
            then j' == j.(gov := j.gov.(runtimeState := j.runtime, pending := None)) else j' == j
  {
    JointRunKeeps(init, actions);
    hide JointRun, JointInv, PolicyAccepted, Receipts;
    CommitStep(JointRun(init, actions), policy, g, a, snapshot);
  }

  lemma CommitStep(j: Joint, policy: Policy, g: Grant, a: Application, snapshot: RuntimeState)
    requires JointInv(j)
    ensures var j' := JointStep(j, CommitLease(policy, g, a, snapshot));
            if !j.revoked && snapshot == j.runtime && policy == j.gov.policy && j.gov.pending == Some(g)
               && LeasesApplied(j.runtime) == j.gov.leasesGranted && Receipts(j, g, a)
            then j' == j.(gov := j.gov.(runtimeState := j.runtime, pending := None)) else j' == j
  {
    hide AskStep, CallStep, Observe, GovInv, RuntimeInv, Bound, InStep, SealsOk, HistoryOk, PolicyAccepted, Receipts,
      ApplicationBinds, Constructible, PolicyBinds;
    CommitCounts(j.gov, policy, g, a, snapshot);
    if j.gov.pending == Some(g) && snapshot == j.runtime {
      BindsItself(j.gov);
      ApplicationIsReceipt(j, g, a);
      FreedConstructs(j);
    } else if j.gov.pending != Some(g) {
      UnnamedIsUnbound(j.gov, g, a, snapshot);
    }
    OnlyOwnPolicyBinds(j.gov, policy);
  }

  lemma OnlyOwnPolicyBinds(s: ContinuationState, policy: Policy)
    ensures PolicyBinds(s, policy) ==> policy == s.policy
  {}

  lemma UnnamedIsUnbound(s: ContinuationState, g: Grant, a: Application, snapshot: RuntimeState)
    requires s.pending != Some(g)
    ensures !ApplicationBinds(s, g, a, snapshot)
  {
    hide RuntimeBinds, LimitsApplied;
  }

  lemma FreedConstructs(j: Joint)
    requires JointInv(j)
    ensures Constructible(j.gov.(runtimeState := j.runtime, pending := None))
  {
    hide RuntimeInv, Bound, InStep, SealsOk, HistoryOk, Distinct;
  }

  lemma ApplicationIsReceipt(j: Joint, g: Grant, a: Application)
    requires JointInv(j) && j.gov.pending == Some(g)
    ensures ApplicationBinds(j.gov, g, a, j.runtime) <==>
              LeasesApplied(j.runtime) == j.gov.leasesGranted && Receipts(j, g, a)
  {
    hide GovInv, SealsOk, HistoryOk, ClockInv, PolicyAccepted, IsWithin, Total;
  }

  // ----- The ceiling partial -----

  /** The label says exhausted only after a denial for the used-up schedule, or under the terminal marker. */
  predicate LabelEarned(s: ContinuationState) {
    s.progressState.LeaseExhausted? ==>
      (s.leasesGranted == |s.policy.schedule| && s.lastDecision == WasDenied(LeaseCeilingReached)) || s.terminal.Some?
  }

  lemma FreshLabel(j: Joint)
    requires FreshJoint(j)
    ensures LabelEarned(j.gov)
  {}

  lemma RecordedLabel(s: ContinuationState, n: ContinuationState, q: Inquiry, c: Check)
    requires GovInv(s) && Recorded(s, n, q, ReasonOf(c)) && Fails(s, q, c) && s.leaseRequests < s.policy.maxRequests
    ensures LabelEarned(n)
  {
    ReasonFacts(c);
    assert s.leasesGranted <= |s.policy.schedule|;
    hide GovInv, ReasonOf, Denies;
    StandingChecks(s, q);
    hide Fails;
  }

  lemma AskKeepsLabel(j: Joint, ask: Inquiry)
    requires JointInv(j) && LabelEarned(j.gov)
    ensures LabelEarned(AskStep(j, ask).gov)
  {
    assert PolicyAccepted(j.gov.policy) && GovInv(j.gov);
    hide JointInv, GovInv, AskStep, Paid, Recorded, IsFirstFailure, Fails, LiveCycle, PolicyAccepted, LabelEarned;
    var q, s, n := ask.(live := j.runtime), j.gov, AskStep(j, ask).gov;
    AskFollowsTheChecks(j, ask);
    if IsBound(s, q) && !(q.authorized && j.revoked) {
      if forall c :: !Fails(s, q, c) {
        PaidLabel(s, n, q);
      } else {
        var c :| IsFirstFailure(s, q, c) && DeniedStep(s, n, q, c);
        DeniedLabel(s, n, q, c);
      }
    }
  }

  lemma PaidLabel(s: ContinuationState, n: ContinuationState, q: Inquiry)
    requires Paid(s, n, q)
    ensures LabelEarned(n)
  {
    hide Grants, LiveCycle, IsFresh;
  }

  lemma DeniedLabel(s: ContinuationState, n: ContinuationState, q: Inquiry, c: Check)
    requires GovInv(s) && LabelEarned(s) && IsFirstFailure(s, q, c) && DeniedStep(s, n, q, c)
    ensures LabelEarned(n)
  {
    assert Fails(s, q, c);
    hide GovInv, IsFirstFailure, Fails, Recorded, ReasonOf, Denies;
    if !c.Supervisor? && s.leaseRequests < s.policy.maxRequests {
      RecordedLabel(s, n, q, c);
    }
  }

  lemma ActionKeepsLabel(j: Joint, a: Action)
    requires JointInv(j) && ActionWellFormed(a) && LabelEarned(j.gov)
    ensures LabelEarned(JointStep(j, a).gov)
  {
    hide AskStep, CallStep, Observe, CommitApplication, JointInv;
    match a
    case AskLease(ask) => AskKeepsLabel(j, ask);
    case CallRuntime(command, invocation, seal) => CallTouchesRuntime(j, command, invocation, seal);
    case ObserveContext(policy, orchestration, snapshot, progress, strategy) =>
      if Observe(j.gov, policy, orchestration, snapshot, progress, strategy).Success? {
        ObservationFacts(j.gov, policy, orchestration, snapshot, progress, strategy);
      }
    case CommitLease(policy, g, application, snapshot) => CommitCounts(j.gov, policy, g, application, snapshot);
    case RevokeAll =>
  }

  lemma {:induction false} RunKeepsLabel(init: Joint, actions: seq<Action>)
    requires FreshJoint(init) && ActionsWellFormed(actions)
    ensures LabelEarned(JointRun(init, actions).gov)
  {
    hide FreshJoint, JointStep, LabelEarned, JointInv;
    if actions == [] {
      FreshLabel(init);
    } else {
      var prior := actions[..|actions| - 1];
      RunKeepsLabel(init, prior);
      JointRunKeeps(init, prior);
      ActionKeepsLabel(JointRun(init, prior), actions[|actions| - 1]);
    }
  }

  /** In every joint run the lease-ceiling partial is accepted exactly while the ledger is labelled exhausted. */
  lemma PartialIffExhausted(init: Joint, actions: seq<Action>)
    requires FreshJoint(init) && ActionsWellFormed(actions)
    ensures var s := JointRun(init, actions).gov;
            && s.leasesGranted <= |s.policy.schedule| && s.leaseRequests <= s.policy.maxRequests
            && (CeilingPartialAccepted(s) <==> s.progressState.LeaseExhausted?)
  {
    JointRunKeeps(init, actions);
    RunKeepsLabel(init, actions);
    hide JointRun, RuntimeInv, Bound, InStep, SealsOk, HistoryOk, PolicyAccepted, Constructible;
  }

  /** The policy reserves a request beyond its leases: while nothing was denied, there is one left to spend. */
  lemma TerminalDecisionIsReserved(init: Joint, actions: seq<Action>)
    requires FreshJoint(init) && ActionsWellFormed(actions)
    ensures var s := JointRun(init, actions).gov; s.leasesDenied == 0 ==> s.leaseRequests < s.policy.maxRequests
  {
    JointRunKeeps(init, actions);
    hide JointRun, RuntimeInv, Bound, InStep, SealsOk, HistoryOk;
  }
}

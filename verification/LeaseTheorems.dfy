/** What holds in every run of the joint lease system. */
module LeaseTheorems {
  import opened Common
  import opened LeaseRecords
  import opened ReadRuntime
  import opened ReadRuntimeRuns
  import opened ShortCycles
  import opened Continuation
  import opened JointLedger

  ghost predicate ActionsWellFormed(actions: seq<Action>) {
    forall i :: 0 <= i < |actions| ==> ActionWellFormed(actions[i])
  }

  ghost function JointRun(j: Joint, actions: seq<Action>): (r: Joint)
    requires PolicyAccepted(j.gov.policy)
    ensures PolicyAccepted(r.gov.policy)
  {
    if actions == [] then j
    else
      var prior := JointRun(j, actions[..|actions| - 1]);
      PolicyIsFixed(prior, actions[|actions| - 1]);
      JointStep(prior, actions[|actions| - 1])
  }

  lemma PolicyIsFixed(j: Joint, a: Action)
    requires PolicyAccepted(j.gov.policy)
    ensures JointStep(j, a).gov.policy == j.gov.policy
  {
    hide DenialOf, ContextDenial, Dispatch, ValidateLease, PolicyAccepted, Constructible, ApplicationBinds,
      RuntimeBinds, ObservedProgressRefusal;
  }

  lemma {:induction false} JointRunKeeps(j: Joint, actions: seq<Action>)
    requires FreshJoint(j) && ActionsWellFormed(actions)
    ensures JointInv(JointRun(j, actions)) && JointRun(j, actions).gov.policy == j.gov.policy
  {
    hide JointStep, JointInv, FreshJoint;
    FreshHolds(j);
    if actions != [] {
      var prior := actions[..|actions| - 1];
      JointRunKeeps(j, prior);
      JointStepKeeps(JointRun(j, prior), actions[|actions| - 1]);
      PolicyIsFixed(JointRun(j, prior), actions[|actions| - 1]);
    }
  }

  // ----- The two ledgers -----

  /**
   * The runtime limits are always the initial budget plus the applied grants; the runtime is level with the
   * governance ledger, or exactly the pending grant behind.
   */
  lemma LedgersAgree(init: Joint, actions: seq<Action>)
    requires FreshJoint(init) && ActionsWellFormed(actions)
    ensures var j := JointRun(init, actions);
            j.runtime.lease.Some? &&
            var l := j.runtime.lease.value;
            && j.runtime.limits == LimitsOf(Plus(j.gov.policy.initial, l.cumulative))
            && IsWithin(Plus(j.gov.policy.initial, l.cumulative), j.gov.policy.ceiling)
            && ((|l.applied| == j.gov.leasesGranted && l.cumulative == j.gov.cumulative)
                || (j.gov.pending.Some? && |l.applied| + 1 == j.gov.leasesGranted
                    && Plus(l.cumulative, j.gov.pending.value.granted) == j.gov.cumulative))
  {
    JointRunKeeps(init, actions);
    hide JointRun, GovInv, HistoryOk, SealsOk, ClockInv, PolicyAccepted;
    var j := JointRun(init, actions);
    WithinCeiling(j.runtime);
  }

  lemma WithinCeiling(s: RuntimeState)
    requires LeaseInv(s) && s.lease.Some?
    ensures IsWithin(Plus(s.lease.value.policy.initial, s.lease.value.cumulative), s.lease.value.policy.ceiling)
  {
    TotalPrefix(s.lease.value.policy.schedule, |s.lease.value.applied|);
  }

  /**
   * Applying the pending grant under its seal succeeds exactly when the runtime still is the state the grant
   * names. Otherwise the refusal is staleness: never the schedule, the ceiling, the hard limits or an overflow.
   */
  lemma PendingGrantOutcome(init: Joint, actions: seq<Action>)
    requires FreshJoint(init) && ActionsWellFormed(actions)
    ensures var j := JointRun(init, actions);
            j.gov.pending.Some? ==>
              var g := j.gov.pending.value;
              && g in j.seals
              && ApplyGrant(j.runtime, g, true, Some(g)).1 == if j.runtime == g.priorRuntime then None
                 else Some(StaleRuntimeGrant)
  {
    JointRunKeeps(init, actions);
    hide JointRun, JointStep, ValidateLease;
    if JointRun(init, actions).gov.pending.Some? {
      PendingOutcome(JointRun(init, actions));
    }
  }

  lemma PendingOutcome(j: Joint)
    requires JointInv(j) && j.gov.pending.Some?
    ensures var g := j.gov.pending.value;
            && g in j.seals
            && ApplyGrant(j.runtime, g, true, Some(g)).1 == if j.runtime == g.priorRuntime then None
               else Some(StaleRuntimeGrant)
  {
    hide GovInv, HistoryOk, SealsOk, RuntimeInv, Bound, ValidateLease, PendingRecord, Waiting, AppliedUncommitted;
    if j.runtime == j.gov.pending.value.priorRuntime {
      PendingValidates(j);
    } else {
      PendingIsStale(j);
    }
  }

  lemma PendingValidates(j: Joint)
    requires JointInv(j) && j.gov.pending.Some? && j.runtime == j.gov.pending.value.priorRuntime
    ensures ValidateLease(j.runtime, j.gov.pending.value, true).Success?
  {
    hide GovInv, HistoryOk, SealsOk, ClockInv, LeaseInv, ValidateAmount, IsWithin, PolicyAccepted;
    var g := j.gov.pending.value;
    ScheduledGrantFits(j.runtime, g);
    assert g !in j.runtime.lease.value.applied;
  }

  lemma PendingIsStale(j: Joint)
    requires JointInv(j) && j.gov.pending.Some? && j.runtime != j.gov.pending.value.priorRuntime
    ensures ValidateLease(j.runtime, j.gov.pending.value, true) == Failure(StaleRuntimeGrant)
  {
    hide GovInv, HistoryOk, SealsOk, RuntimeInv, ValidateAmount, IsWithin, PolicyAccepted;
  }

  /** No evaluation is denied for exceeding the ceiling, and every grant the ledger decides is sealed. */
  lemma CeilingChecksAreUnreachable(init: Joint, actions: seq<Action>, q: Inquiry)
    requires FreshJoint(init) && ActionsWellFormed(actions) && q.live == JointRun(init, actions).runtime
    ensures var j := JointRun(init, actions);
            && DenialOf(j.gov, q) != Some(AmountExceedsCeiling)
            && (DenialOf(j.gov, q) == Some(LeaseCeilingReached) ==> j.gov.leasesGranted == |j.gov.policy.schedule|)
            && (DenialOf(j.gov, q).None? ==> IssueAccepted(j.runtime, q, GrantRecord(j.gov, q)))
  {
    JointRunKeeps(init, actions);
    var j := JointRun(init, actions);
    hide JointRun, DenialOf, IssueAccepted, GrantRecord, ContextDenial;
    DenialSources(j.gov, q);
    ContextClears(j.gov, q);
    if DenialOf(j.gov, q).None? {
      AfterGrantInStep(j, q);
    }
  }

  // ----- A missed grant -----

  /** The pending grant is not applied and the runtime has moved past the state it names. */
  ghost predicate Missed(j: Joint) {
    j.gov.pending.Some? && Waiting(j, j.gov.pending.value)
    && j.runtime.counters.tick > j.gov.pending.value.priorRuntime.counters.tick
  }

  lemma MissedAsk(j: Joint, ask: Inquiry)
    requires JointInv(j) && Missed(j)
    ensures var j' := AskStep(j, ask);
            && j'.runtime == j.runtime && j'.gov.pending == j.gov.pending
            && j'.gov.leasesGranted == j.gov.leasesGranted && j'.gov.cumulative == j.gov.cumulative
  {
    var q := ask.(live := j.runtime);
    PendingBlocksGrants(j.gov, q);
    EvaluateKeepsGov(j.gov, q);
    DenialCounts(j.gov, q, DenialOf(j.gov, q).value);
    hide DenialOf, IssueAccepted, AfterDenial, GovInv, RuntimeInv, Bound, InStep, SealsOk, HistoryOk;
  }

  /** A missed grant is not applied, so its commit is refused. */
  lemma MissedCommit(j: Joint, policy: Policy, g: Grant, a: Application)
    requires Missed(j)
    ensures CommitApplication(j.gov, policy, g, a, j.runtime).Failure?
  {
    hide PolicyBinds, Constructible, LimitsApplied;
  }

  lemma MissedStep(j: Joint, a: Action)
    requires JointInv(j) && Missed(j) && ActionWellFormed(a)
    ensures var j' := JointStep(j, a);
            Missed(j') && j'.gov.pending == j.gov.pending && j'.runtime.lease == j.runtime.lease
            && j'.gov.leasesGranted == j.gov.leasesGranted
  {
    hide AskStep, CallStep, CommitApplication, GovInv, RuntimeInv, Bound, InStep, SealsOk, HistoryOk, PolicyAccepted;
    match a
    case AskLease(ask) => MissedAsk(j, ask);
    case CallRuntime(command, invocation, seal) =>
      MissedCall(j, command, invocation, seal);
      CallTouchesRuntime(j, command, invocation, seal);
    case ObserveContext(policy, orchestration, snapshot, progress, strategy) =>
      PendingBlocksObservations(j.gov, policy, orchestration, snapshot, progress, strategy);
    case CommitLease(policy, g, application, snapshot) =>
      MissedCommit(j, policy, g, application);
    case RevokeAll =>
  }

  lemma CallTouchesRuntime(j: Joint, command: Command, invocation: Invocation, seal: Option<Grant>)
    ensures CallStep(j, command, invocation, seal).gov == j.gov
  {
    hide Dispatch;
  }

  lemma PendingBlocksObservations(
    s: ContinuationState, policy: Policy, orchestration: string, snapshot: RuntimeState, progress: Option<Progress>,
    strategy: Option<string>)
    requires s.pending.Some?
    ensures Observe(s, policy, orchestration, snapshot, progress, strategy).Failure?
  {
    hide PolicyBinds;
  }

  lemma PendingBlocksGrants(s: ContinuationState, q: Inquiry)
    requires GovInv(s) && s.pending.Some?
    ensures DenialOf(s, q).Some?
  {
    ContextClears(s, q);
    hide ContextDenial, GovInv;
  }

  lemma MissedCall(j: Joint, command: Command, invocation: Invocation, seal: Option<Grant>)
    requires JointInv(j) && Missed(j)
    ensures var next := CallStep(j, command, invocation, seal).runtime;
            next.lease == j.runtime.lease && next.counters.tick >= j.runtime.counters.tick
  {
    hide Dispatch, GovInv, RuntimeInv, Bound, InStep, SealsOk, HistoryOk, ValidateLease, Missed;
    var trusted := if seal.Some? && seal.value in j.seals then seal else None;
    var call := Call(command, invocation, trusted);
    DispatchAdvances(j.runtime, call);
    LeaseChangesOnlyByGrant(j.runtime, call);
    if command.ApplyLease? && trusted == Some(command.grant) {
      StaleGrantIsRefused(j, command.grant, command.identityValid);
      RefusedGrantKeepsLease(j.runtime, call);
    }
  }

  lemma RefusedGrantKeepsLease(s: RuntimeState, c: Call)
    requires c.command.ApplyLease? && ValidateLease(s, c.command.grant, c.command.identityValid).Failure?
    ensures Dispatch(s, c).0.lease == s.lease
  {
    hide ValidateLease;
  }

  /** No sealed grant applies to a runtime that missed the pending one. */
  lemma StaleGrantIsRefused(j: Joint, g: Grant, identityValid: bool)
    requires JointInv(j) && Missed(j) && g in j.seals
    ensures ValidateLease(j.runtime, g, identityValid).Failure?
  {
    hide GovInv, RuntimeInv, HistoryOk, ValidateAmount, IsWithin;
  }

  /** One runtime call between grant and apply, and the grant can never be applied nor another one decided. */
  lemma {:induction false} MissedGrantIsLost(init: Joint, actions: seq<Action>, more: seq<Action>)
    requires FreshJoint(init) && ActionsWellFormed(actions) && ActionsWellFormed(more)
    requires Missed(JointRun(init, actions))
    ensures var j, later := JointRun(init, actions), JointRun(init, actions + more);
            && Missed(later) && later.gov.pending == j.gov.pending
            && later.runtime.lease == j.runtime.lease && later.gov.leasesGranted == j.gov.leasesGranted
  {
    hide JointStep, JointInv, FreshJoint, Missed;
    if more == [] {
      assert actions + more == actions;
    } else {
      var fewer := more[..|more| - 1];
      MissedGrantIsLost(init, actions, fewer);
      assert (actions + more)[..|actions + more| - 1] == actions + fewer;
      JointRunKeeps(init, actions + fewer);
      MissedStep(JointRun(init, actions + fewer), more[|more| - 1]);
    }
  }

  /** The runtime is missed exactly when it left the named state before applying. */
  lemma LeavingTheNamedStateMisses(init: Joint, actions: seq<Action>)
    requires FreshJoint(init) && ActionsWellFormed(actions)
    ensures var j := JointRun(init, actions);
            j.gov.pending.Some? && LeasesApplied(j.runtime) < j.gov.leasesGranted ==>
              (Missed(j) <==> j.runtime != j.gov.pending.value.priorRuntime)
  {
    JointRunKeeps(init, actions);
    hide JointRun, GovInv, HistoryOk;
  }

  // ----- Exhaustion -----

  /** Evaluations that change the ledger are bounded, and the terminal marker is set at most once. */
  lemma EvaluationsAreBounded(init: Joint, actions: seq<Action>)
    requires FreshJoint(init) && ActionsWellFormed(actions)
    ensures var j := JointRun(init, actions);
            j.evaluations <= init.gov.policy.maxRequests + 1 && j.terminalMarks <= 1
            && j.gov.leaseRequests <= init.gov.policy.maxRequests
  {
    JointRunKeeps(init, actions);
    hide JointRun, RuntimeInv, Bound, InStep, SealsOk;
  }

  /** An authorized, fresh, unblocked request with live progress on an incomplete task and no pending grant. */
  predicate FreshUnblocked(j: Joint, q: Inquiry) {
    && q.authorized && !j.revoked && q.policy == j.gov.policy
    && q.receipt ==
       PolicyReceipt(j.gov.policy, j.gov.policyReceipt, j.gov.binding.task, j.gov.binding.governance,
                        j.gov.policy.progressContract)
    && q.request.requester == OpenAiSupervisor && q.request.state == j.gov
    && q.request.task == j.gov.binding.task && q.request.governance == j.gov.binding.governance
    && q.request.policy == j.gov.policy && q.request.orchestration == j.gov.orchestration
    && q.request.runtimeSession == j.gov.runtimeSession && q.request.runtimeState == j.gov.runtimeState
    && j.runtime == j.gov.runtimeState && j.gov.pending.None?
    && q.progress.task == j.gov.binding.task && q.progress.governance == j.gov.binding.governance
    && q.progress.contract == j.gov.policy.progressContract && Some(q.progress) == j.gov.lastProgress
    && q.progress.currentOrchestration == j.gov.orchestration && q.request.progress == q.progress
    && !q.progress.complete && q.blocking.None?
  }

  /** Once the schedule or the request cap is used up, one such request always leaves an acceptable ceiling partial. */
  lemma ExhaustionYieldsPartial(init: Joint, actions: seq<Action>, q: Inquiry)
    requires FreshJoint(init) && ActionsWellFormed(actions)
    ensures var j, next := JointRun(init, actions), AskStep(JointRun(init, actions), q).gov;
            FreshUnblocked(j, q)
            && (j.gov.leasesGranted == |j.gov.policy.schedule| || j.gov.leaseRequests == j.gov.policy.maxRequests) ==>
            && next.leasesGranted <= |next.policy.schedule| && next.leaseRequests <= next.policy.maxRequests
            && CeilingPartialAccepted(next)
  {
    JointRunKeeps(init, actions);
    hide JointRun, JointStep, AskStep, FreshUnblocked;
    var j := JointRun(init, actions);
    if FreshUnblocked(j, q)
       && (j.gov.leasesGranted == |j.gov.policy.schedule| || j.gov.leaseRequests == j.gov.policy.maxRequests) {
      ExhaustedAsk(j, q);
    }
  }

  /** An exhaustion denial leaves a state the ceiling partial accepts, recorded or marked terminal. */
  lemma ExhaustionIsAccepted(s: ContinuationState, q: Inquiry, why: DenialReason)
    requires s.leasesGranted <= |s.policy.schedule| && s.leaseRequests <= s.policy.maxRequests
    requires why == if s.leasesGranted == |s.policy.schedule| then LeaseCeilingReached else LeaseRequestLimit
    requires s.leasesGranted == |s.policy.schedule| || s.leaseRequests == s.policy.maxRequests
    requires s.terminal.Some? ==> s.progressState.LeaseExhausted?
    ensures var next := AfterDenial(s, q, why).0;
            && next.leasesGranted <= |next.policy.schedule| && next.leaseRequests <= next.policy.maxRequests
            && CeilingPartialAccepted(next)
  {}

  /** An evaluation under the bound policy and receipt is answered unless its next state is invalid. */
  lemma EvaluationAnswers(s: ContinuationState, q: Inquiry)
    requires PolicyAccepted(s.policy) && PolicyBinds(s, q.policy) && Evaluate(s, q) != Failure(InvalidState)
    requires q.receipt
          == PolicyReceipt(s.policy, s.policyReceipt, s.binding.task, s.binding.governance, s.policy.progressContract)
    ensures Evaluate(s, q).Success?
  {
    hide DenialOf, AfterDenial, AfterGrant, GrantRecord, PolicyAccepted, Constructible;
  }

  lemma ExhaustedAsk(j: Joint, q: Inquiry)
    requires JointInv(j) && FreshUnblocked(j, q)
    requires j.gov.leasesGranted == |j.gov.policy.schedule| || j.gov.leaseRequests == j.gov.policy.maxRequests
    ensures var next := AskStep(j, q).gov;
            && next.leasesGranted <= |next.policy.schedule| && next.leaseRequests <= next.policy.maxRequests
            && CeilingPartialAccepted(next)
  {
    hide GovInv, RuntimeInv, Bound, InStep, SealsOk, HistoryOk, DenialOf, AfterDenial, CeilingPartialAccepted,
      PolicyAccepted, PolicyBinds, Evaluate;
    var asked := q.(live := j.runtime);
    EvaluateKeepsGov(j.gov, asked);
    var why := ExhaustedDenial(j, asked);
    EvaluationAnswers(j.gov, asked);
    ExhaustionIsAccepted(j.gov, asked, why);
  }

  lemma ExhaustedDenial(j: Joint, asked: Inquiry) returns (why: DenialReason)
    requires JointInv(j) && FreshUnblocked(j, asked) && asked.live == j.runtime
    requires j.gov.leasesGranted == |j.gov.policy.schedule| || j.gov.leaseRequests == j.gov.policy.maxRequests
    ensures why == if j.gov.leasesGranted == |j.gov.policy.schedule| then LeaseCeilingReached else LeaseRequestLimit
    ensures DenialOf(j.gov, asked) == Some(why)
    ensures PolicyBinds(j.gov, asked.policy)
    ensures j.gov.leasesGranted <= |j.gov.policy.schedule| && j.gov.leaseRequests <= j.gov.policy.maxRequests
    ensures j.gov.terminal.Some? ==> j.gov.progressState.LeaseExhausted?
    ensures j.runtime.session == j.gov.runtimeSession
  {
    hide RuntimeInv, InStep, SealsOk, HistoryOk, LiveCycle, PolicyAccepted, IsWithin;
    why := if j.gov.leasesGranted == |j.gov.policy.schedule| then LeaseCeilingReached else LeaseRequestLimit;
  }

  // ----- Progress -----

  /** No lease comes free: each is paid by newly observed progress or by a counted strategy recovery. */
  lemma NoFreeLease(init: Joint, actions: seq<Action>)
    requires FreshJoint(init) && ActionsWellFormed(actions)
    ensures var j := JointRun(init, actions);
            && j.gov.leasesGranted <= |j.consumed| + j.gov.strategyRecoveries
            && |j.consumed| <= j.gov.progressEvents
            && j.gov.strategyRecoveries <= init.gov.policy.maxRecoveries
            && (forall i :: 0 <= i < |j.consumed| - 1 ==> j.consumed[i] != j.consumed[i + 1])
  {
    JointRunKeeps(init, actions);
    hide JointRun, RuntimeInv, Bound, InStep, SealsOk;
  }

  /**
   * An observation that passes every other check is refused exactly when the ledger is terminal and progress is
   * new.
   */
  lemma ObservationRefusedExactlyAtTerminal(
    init: Joint, actions: seq<Action>, orchestration: string, progress: Option<Progress>, strategy: Option<string>)
    requires FreshJoint(init) && ActionsWellFormed(actions) && (progress.Some? ==> ProgressWellFormed(progress.value))
    requires var j := JointRun(init, actions);
             && j.gov.pending.None? && ObservedProgressRefusal(j.gov, orchestration, progress).None?
             && (strategy.Some? ==> strategy == j.gov.currentStrategy)
    ensures var j := JointRun(init, actions);
            var outcome := Observe(j.gov, j.gov.policy, orchestration, j.runtime, progress, strategy);
            if j.gov.terminal.Some? && progress.Some? then outcome == Failure(InvalidState) else outcome.Success?
  {
    JointRunKeeps(init, actions);
    hide JointRun;
    ObservationDecided(JointRun(init, actions), orchestration, progress, strategy);
  }

  lemma ObservationDecided(j: Joint, orchestration: string, progress: Option<Progress>, strategy: Option<string>)
    requires JointInv(j) && (progress.Some? ==> ProgressWellFormed(progress.value))
    requires j.gov.pending.None? && ObservedProgressRefusal(j.gov, orchestration, progress).None?
    requires strategy.Some? ==> strategy == j.gov.currentStrategy
    ensures var outcome := Observe(j.gov, j.gov.policy, orchestration, j.runtime, progress, strategy);
            if j.gov.terminal.Some? && progress.Some? then outcome == Failure(InvalidState) else outcome.Success?
  {
    ObservedConstructs(j.gov, orchestration, j.runtime, progress);
    InStepBinds(j);
    hide AfterObservation, GovInv, RuntimeInv, Bound, InStep, SealsOk, HistoryOk, ObservedProgressRefusal,
      RuntimeBinds, LimitsApplied;
  }

  /** The observed state is constructible unless the ledger is terminal and carries new progress. */
  lemma ObservedConstructs(
    s: ContinuationState, orchestration: string, snapshot: RuntimeState, progress: Option<Progress>)
    requires GovInv(s) && s.pending.None? && (progress.Some? ==> ProgressWellFormed(progress.value))
    requires ObservedProgressRefusal(s, orchestration, progress).None?
    ensures Constructible(AfterObservation(s, orchestration, snapshot, progress)) <==>
              !(s.terminal.Some? && progress.Some?)
    ensures PolicyBinds(s, s.policy)
  {
    hide PolicyAccepted, IsWithin, Total, Distinct;
  }

  /** With nothing pending the runtime is bound and its limits are the granted ones. */
  lemma InStepBinds(j: Joint)
    requires JointInv(j) && j.gov.pending.None?
    ensures RuntimeBinds(j.gov, j.runtime) && LimitsApplied(j.gov, j.runtime)
            && j.runtime.session == j.gov.runtimeSession
  {
    hide GovInv, SealsOk, HistoryOk, ClockInv, PolicyAccepted, IsWithin, Total;
  }

  /** A material strategy change, answering the cycle the runtime is live in. */
  predicate AnswersTheCycle(q: Inquiry, runtime: RuntimeState) {
    q.strategy.Some? && q.strategy.value.reason.AdmittedMaterialChange? && q.strategy.value.cycle == LiveCycle(runtime)
  }

  /**
   * The requester is authorized and everything it names is current, nothing is pending or blocking, a live cycle
   * and any proposed strategy are answered by a material change, progress is measurable and not the one consumed
   * last unless such a change stands in for it, and the amount is the next scheduled one or less.
   */
  predicate Earned(j: Joint, q: Inquiry) {
    && q.authorized && !j.revoked && q.request.requester == OpenAiSupervisor && q.request.state == j.gov
    && j.runtime == j.gov.runtimeState == q.request.runtimeState && j.gov.pending.None? && q.blocking.None?
    && Some(q.progress) == j.gov.lastProgress && !q.progress.complete
    && (q.strategy.Some? || LiveCycle(j.runtime).Some? ==> AnswersTheCycle(q, j.runtime))
    && ((q.progress.classification.MeasurableProgress? && Some(q.progress) != j.gov.lastConsumed)
        || AnswersTheCycle(q, j.runtime))
    && j.gov.leasesGranted < |j.gov.policy.schedule| && q.request.leaseIndex == j.gov.leasesGranted + 1
    && q.request.requested != ZERO && IsWithin(q.request.requested, j.gov.policy.schedule[j.gov.leasesGranted])
  }

  /** One lease of exactly the requested amount is pending and sealed; the runtime and the denials are untouched. */
  predicate GrantedExactly(j: Joint, next: Joint, q: Inquiry) {
    && next.gov.leasesGranted == j.gov.leasesGranted + 1 && next.gov.leaseRequests == j.gov.leaseRequests + 1
    && next.gov.cumulative == Plus(j.gov.cumulative, q.request.requested)
    && next.gov.pending.Some? && next.gov.pending.value.request == q.request
    && next.gov.pending.value.priorRuntime == j.runtime
    && next.gov.pending.value in next.seals && next.runtime == j.runtime
    && next.gov.leasesDenied == j.gov.leasesDenied && next.gov.terminal == j.gov.terminal
  }

  /** The inquiry is about this ledger, and its strategy change, if it has one, about its current strategy. */
  predicate NamesThisLedger(j: Joint, q: Inquiry) {
    var b := j.gov.binding;
    && q.policy == j.gov.policy
    && q.receipt ==
       PolicyReceipt(j.gov.policy, j.gov.policyReceipt, b.task, b.governance, j.gov.policy.progressContract)
    && q.request.task == q.progress.task == b.task && q.request.governance == q.progress.governance == b.governance
    && q.request.policy == j.gov.policy && q.request.runtimeSession == j.runtime.session
    && q.request.orchestration == q.progress.currentOrchestration == j.gov.orchestration
    && q.request.progress == q.progress && q.progress.contract == j.gov.policy.progressContract
    && q.request.strategyChange == q.strategy && q.request.requested.mutations == 0
    && (q.cycle.Some? ==> q.cycle == LiveCycle(j.runtime))
    && (q.strategy.Some? ==>
          && q.strategy.value.task == b.task && q.strategy.value.governance == b.governance
          && q.strategy.value.orchestration == j.gov.orchestration
          && Some(q.strategy.value.priorMaterial) == j.gov.currentStrategy)
  }

  /** What the governance ledger still has to spend on the inquiry. */
  predicate HasSlot(s: ContinuationState, q: Inquiry) {
    s.leaseRequests < s.policy.maxRequests && (q.strategy.Some? ==> s.strategyRecoveries < s.policy.maxRecoveries)
  }

  /**
   * A lease is granted only when it is earned, and then exactly as requested. An inquiry about this ledger, with a
   * request and, where it carries a strategy change, a recovery left, is granted if and only if it is earned.
   */
  lemma GrantIsEarned(init: Joint, actions: seq<Action>, q: Inquiry)
    requires FreshJoint(init) && ActionsWellFormed(actions)
    ensures var j := JointRun(init, actions);
            var granted := AskStep(j, q).gov.leasesGranted != j.gov.leasesGranted;
            && (granted ==> Earned(j, q) && GrantedExactly(j, AskStep(j, q), q))
            && (NamesThisLedger(j, q) && HasSlot(j.gov, q) ==>
                  (granted <==> Earned(j, q)))
  {
    JointRunKeeps(init, actions);
    hide JointRun, AskStep, Earned, GrantedExactly, NamesThisLedger, HasSlot, AnswersTheCycle, JointInv, PolicyAccepted;
    EarnedIff(JointRun(init, actions), q);
  }

  lemma EarnedIff(j: Joint, q: Inquiry)
    requires PolicyAccepted(j.gov.policy) && JointInv(j)
    ensures var granted := AskStep(j, q).gov.leasesGranted != j.gov.leasesGranted;
            && (granted ==> Earned(j, q) && GrantedExactly(j, AskStep(j, q), q))
            && (NamesThisLedger(j, q) && HasSlot(j.gov, q) ==>
                  (granted <==> Earned(j, q)))
  {
    hide AskStep, Earned, GrantedExactly, NamesThisLedger, HasSlot, AnswersTheCycle, JointInv, PolicyAccepted;
    if AskStep(j, q).gov.leasesGranted != j.gov.leasesGranted {
      EarnedStep(j, q);
    } else if NamesThisLedger(j, q) && HasSlot(j.gov, q) && Earned(j, q) {
      EarnedIsGranted(j, q);
    }
  }

  lemma EarnedIsGranted(j: Joint, q: Inquiry)
    requires JointInv(j) && NamesThisLedger(j, q) && HasSlot(j.gov, q) && Earned(j, q)
    ensures AskStep(j, q).gov.leasesGranted == j.gov.leasesGranted + 1
  {
    var asked := q.(live := j.runtime);
    EarnedIsUndenied(j, asked);
    EvaluateKeepsGov(j.gov, asked);
    AfterGrantInStep(j, asked);
    GrantKeepsGov(j.gov, asked);
    assert PolicyBinds(j.gov, asked.policy);
    hide DenialOf, LiveCycle, PolicyAccepted, IssueAccepted, PolicyBinds, StrategyVerdict, RuntimeInv, Bound, InStep,
      SealsOk, HistoryOk;
  }

  lemma EarnedIsUndenied(j: Joint, q: Inquiry)
    requires JointInv(j) && NamesThisLedger(j, q) && HasSlot(j.gov, q) && Earned(j, q) && q.live == j.runtime
    ensures DenialOf(j.gov, q).None?
  {
    hide LiveCycle, RuntimeInv, InStep, SealsOk, HistoryOk, IsWithin, CheckedAdd, Capacity;
    ContextClears(j.gov, q);
    ScheduledAmountFits(j.gov, q);
  }

  lemma EarnedStep(j: Joint, q: Inquiry)
    requires PolicyAccepted(j.gov.policy) && AskStep(j, q).gov.leasesGranted != j.gov.leasesGranted
    ensures Earned(j, q) && GrantedExactly(j, AskStep(j, q), q)
  {
    hide AskStep, DenialOf, LiveCycle, PolicyAccepted, GrantedExactly, IsWithin;
    GrantStepFacts(j, q);
    UndeniedIsEarned(j.gov, q.(live := j.runtime));
  }

  lemma GrantStepFacts(j: Joint, q: Inquiry)
    requires PolicyAccepted(j.gov.policy) && AskStep(j, q).gov.leasesGranted != j.gov.leasesGranted
    ensures !(q.authorized && j.revoked) && DenialOf(j.gov, q.(live := j.runtime)).None?
    ensures DenialOf(j.gov, q.(live := j.runtime)).None? && j.runtime == j.gov.runtimeState ==>
              GrantedExactly(j, AskStep(j, q), q)
  {
    hide DenialOf, LiveCycle, PolicyAccepted, Constructible, IssueAccepted, PolicyBinds, StrategyVerdict;
  }

  lemma UndeniedIsEarned(s: ContinuationState, q: Inquiry)
    requires PolicyAccepted(s.policy) && DenialOf(s, q).None?
    ensures q.authorized && q.request.requester == OpenAiSupervisor && q.request.state == s && s.pending.None?
            && q.blocking.None?
    ensures q.live == s.runtimeState == q.request.runtimeState && Some(q.progress) == s.lastProgress
            && !q.progress.complete
    ensures q.strategy.Some? || LiveCycle(q.live).Some? ==> AnswersTheCycle(q, q.live)
    ensures (q.progress.classification.MeasurableProgress? && Some(q.progress) != s.lastConsumed)
            || AnswersTheCycle(q, q.live)
    ensures s.leasesGranted < |s.policy.schedule| && q.request.leaseIndex == s.leasesGranted + 1
    ensures q.request.requested != ZERO && IsWithin(q.request.requested, s.policy.schedule[s.leasesGranted])
  {
    hide LiveCycle, PolicyAccepted, IsWithin;
  }

  /** The receipt the runtime gives for applying a grant. */
  function ApplicationOf(g: Grant, before: RuntimeState, after: RuntimeState): Application {
    Application(true, g, g.binding, g.policy, g.policyReceipt, g.runtimeSession, g.leaseIndex, g.cumulative,
                g.ceiling, before, after)
  }

  /** Applying the grant and committing the application levels both ledgers on the new limits and frees them. */
  predicate Completes(j: Joint, g: Grant, invocation: Invocation)
    requires PolicyAccepted(j.gov.policy)
  {
    var applied := JointStep(j, CallRuntime(ApplyLease(g, true), invocation, Some(g)));
    var done := JointStep(applied,
                          CommitLease(j.gov.policy, g, ApplicationOf(g, j.runtime, applied.runtime), applied.runtime));
    && applied.runtime.limits == LimitsOf(Plus(j.gov.policy.initial, j.gov.cumulative))
    && done.gov.pending.None? && done.gov.runtimeState == done.runtime == applied.runtime
    && LeasesApplied(done.runtime) == done.gov.leasesGranted == j.gov.leasesGranted
    && done.runtime.lease.Some? && done.gov.cumulative == done.runtime.lease.value.cumulative
  }

  /** A pending grant applied at once under its seal can be committed, and then both ledgers are level and free. */
  lemma GrantApplyCommitCompletes(init: Joint, actions: seq<Action>, invocation: Invocation)
    requires FreshJoint(init) && ActionsWellFormed(actions)
    ensures var j := JointRun(init, actions);
            !j.revoked && j.gov.pending.Some? && j.runtime == j.gov.pending.value.priorRuntime ==>
              Completes(j, j.gov.pending.value, invocation)
  {
    JointRunKeeps(init, actions);
    hide JointRun, JointInv, Completes, PolicyAccepted;
    var j := JointRun(init, actions);
    if !j.revoked && j.gov.pending.Some? && j.runtime == j.gov.pending.value.priorRuntime {
      CompletesStep(j, invocation);
    }
  }

  lemma CompletesStep(j: Joint, invocation: Invocation)
    requires PolicyAccepted(j.gov.policy) && JointInv(j) && !j.revoked && j.gov.pending.Some?
    requires j.runtime == j.gov.pending.value.priorRuntime
    ensures Completes(j, j.gov.pending.value, invocation)
  {
    var g := j.gov.pending.value;
    var applied := CallStep(j, ApplyLease(g, true), invocation, Some(g));
    AppliedBinds(j, invocation);
    hide JointInv, CommitApplication, AskStep, CallStep, ApplicationOf, PolicyAccepted;
  }

  lemma AppliedBinds(j: Joint, invocation: Invocation)
    requires JointInv(j) && !j.revoked && j.gov.pending.Some? && j.runtime == j.gov.pending.value.priorRuntime
    ensures var g := j.gov.pending.value;
            var applied := CallStep(j, ApplyLease(g, true), invocation, Some(g));
            && applied.gov == j.gov && !applied.revoked
            && applied.runtime.limits == LimitsOf(Plus(j.gov.policy.initial, j.gov.cumulative))
            && CommitApplication(j.gov, j.gov.policy, g, ApplicationOf(g, j.runtime, applied.runtime), applied.runtime)
               == Success(j.gov.(runtimeState := applied.runtime, pending := None))
            && applied.runtime.lease.Some? && LeasesApplied(applied.runtime) == j.gov.leasesGranted
            && j.gov.cumulative == applied.runtime.lease.value.cumulative
  {
    hide CallStep, HistoryOk, SealsOk, RuntimeInv, PolicyAccepted, IsWithin, Total, Distinct;
    AppliedRuntime(j, invocation);
  }

  /** Applying the pending grant appends it to the runtime's lease and raises the limits by it. */
  lemma AppliedRuntime(j: Joint, invocation: Invocation)
    requires JointInv(j) && !j.revoked && j.gov.pending.Some? && j.runtime == j.gov.pending.value.priorRuntime
    ensures j.runtime.lease.Some?
    ensures var g, l := j.gov.pending.value, j.runtime.lease.value;
            var applied := CallStep(j, ApplyLease(g, true), invocation, Some(g));
            && applied == j.(runtime := applied.runtime) && applied.runtime.session == j.runtime.session
            && applied.runtime.lease == Some(l.(cumulative := j.gov.cumulative, applied := l.applied + [g]))
            && applied.runtime.limits == LimitsOf(Plus(j.gov.policy.initial, j.gov.cumulative))
            && |l.applied| + 1 == j.gov.leasesGranted
  {
    hide GovInv, HistoryOk, SealsOk, ClockInv, LeaseInv, ValidateLease, IsWithin, PolicyAccepted;
    var g := j.gov.pending.value;
    PendingValidates(j);
    GrantPasses(j.runtime, g, true);
  }

  /** After revocation neither ledger changes again. */
  lemma {:induction false} RevocationFreezesBoth(j: Joint, actions: seq<Action>)
    requires JointInv(j) && j.revoked
    ensures JointRun(j, actions) == j
  {
    hide JointStep, JointInv;
    if actions != [] {
      RevocationFreezesBoth(j, actions[..|actions| - 1]);
      RevokedStep(j, actions[|actions| - 1]);
    }
  }

  /** An unauthorized inquiry is denied without a trace. */
  lemma UnauthorizedLeavesNoTrace(j: Joint, ask: Inquiry)
    requires JointInv(j) && !ask.authorized
    ensures AskStep(j, ask) == j
  {
    var q := ask.(live := j.runtime);
    UnauthorizedIsDenied(j.gov, q);
    EvaluateKeepsGov(j.gov, q);
    hide IssueAccepted, DenialOf, GovInv, RuntimeInv, Bound, InStep, SealsOk, HistoryOk;
  }

  lemma UnauthorizedIsDenied(s: ContinuationState, q: Inquiry)
    requires PolicyAccepted(s.policy) && !q.authorized
    ensures DenialOf(s, q) == Some(UnauthorizedRequester) && AfterDenial(s, q, UnauthorizedRequester).0 == s
  {
    hide StrategyVerdict, MeritDenial, AmountDenial, PolicyAccepted;
  }

  lemma RevokedStep(j: Joint, a: Action)
    requires JointInv(j) && j.revoked
    ensures JointStep(j, a) == j
  {
    if a.AskLease? && !a.inquiry.authorized {
      UnauthorizedLeavesNoTrace(j, a.inquiry);
    }
    hide Evaluate, Observe, CommitApplication, Dispatch, JointInv;
  }
}

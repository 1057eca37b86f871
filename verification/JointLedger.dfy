/**
 * The governance ledger and the native runtime as one transition system, kept in step by grant, apply and
 * commit. Reads, retries, foreign grants, stale requests and revocation may come at any point.
 * `evaluations`, `terminalMarks` and `consumed` are history fields that no operation reads.
 */
module JointLedger {
  import opened Common
  import opened LeaseRecords
  import opened ReadRuntime
  import opened ReadRuntimeRuns
  import opened ShortCycles
  import opened Continuation

  datatype Joint = Joint(
    gov: ContinuationState, runtime: RuntimeState, revoked: bool, seals: set<Grant>, evaluations: nat,
    terminalMarks: nat, consumed: seq<Progress>)

  datatype Action =
    | AskLease(inquiry: Inquiry)
    | CallRuntime(command: Command, invocation: Invocation, seal: Option<Grant>)
    | ObserveContext(policy: Policy, orchestration: string, snapshot: RuntimeState, progress: Option<Progress>,
                     strategy: Option<string>)
    | CommitLease(policy: Policy, grant: Grant, application: Application, snapshot: RuntimeState)
    | RevokeAll

  /** A progress record carries external endpoints exactly when its contract declares external counters. */
  predicate ProgressWellFormed(p: Progress) {
    (p.priorExternal.Some? <==> p.contract.hasExternal) && (p.currentExternal.Some? <==> p.contract.hasExternal)
  }

  predicate ActionWellFormed(a: Action) {
    a.ObserveContext? && a.progress.Some? ==> ProgressWellFormed(a.progress.value)
  }

  /** `issue_evaluated_lease_grant`: the native side re-checks the grant before sealing it. */
  predicate IssueAccepted(runtime: RuntimeState, q: Inquiry, g: Grant) {
    && g.request == q.request && g.progress == q.progress && !q.progress.complete
    && (g.strategyChange.Some? <==> q.strategy.Some?)
    && (q.progress.classification.MeasurableProgress? || g.strategyChange.Some?)
    && ValidateLease(runtime, g, true).Success?
  }

  /** One native evaluation against the live runtime; an evaluation that raises leaves everything unchanged. */
  function AskStep(j: Joint, ask: Inquiry): Joint
    requires PolicyAccepted(j.gov.policy)
  {
    var q := ask.(live := j.runtime);
    if q.authorized && j.revoked then j
    else
      match Evaluate(j.gov, q)
      case Failure(_) => j
      case Success((next, Denied(_))) =>
        j.(gov := next, evaluations := j.evaluations + (if next != j.gov then 1 else 0),
           terminalMarks := j.terminalMarks + (if next.terminal != j.gov.terminal then 1 else 0))
      case Success((next, Granted(g))) =>
        if !IssueAccepted(j.runtime, q, g) then j
        else j.(gov := next, seals := j.seals + {g}, evaluations := j.evaluations + 1,
                consumed := if ProgressAdmitted(j.gov, q.progress) then j.consumed + [q.progress] else j.consumed)
  }

  /** A runtime dispatch trusts only seals that this session issued under the current epoch. */
  function CallStep(j: Joint, command: Command, invocation: Invocation, seal: Option<Grant>): Joint {
    if j.revoked then j
    else
      var trusted := if seal.Some? && seal.value in j.seals then seal else None;
      j.(runtime := Dispatch(j.runtime, Call(command, invocation, trusted)).0)
  }

  function JointStep(j: Joint, a: Action): Joint
    requires PolicyAccepted(j.gov.policy)
  {
    match a
    case AskLease(q) => AskStep(j, q)
    case CallRuntime(command, invocation, seal) => CallStep(j, command, invocation, seal)
    case ObserveContext(policy, orchestration, snapshot, progress, strategy) =>
      if j.revoked || snapshot != j.runtime then j
      else (match Observe(j.gov, policy, orchestration, snapshot, progress, strategy)
            case Success(next) => j.(gov := next) case Failure(_) => j)
    case CommitLease(policy, g, application, snapshot) =>
      if j.revoked || snapshot != j.runtime then j
      else (match CommitApplication(j.gov, policy, g, application, snapshot)
            case Success(next) => j.(gov := next) case Failure(_) => j)
    case RevokeAll => j.(revoked := true)
  }

  // ----- The governance invariant -----

  function DecisionTick(d: Decision): nat {
    match d case Granted(g) => g.tick case Denied(x) => x.tick
  }

  ghost predicate GovInv(s: ContinuationState) {
    && PolicyAccepted(s.policy) && Constructible(s) && PolicyBinds(s, s.policy)
    && (forall i :: 0 <= i < |s.decisions| ==> DecisionTick(s.decisions[i]) == i + 1)
    && IsWithin(s.cumulative, Total(s.policy.schedule[..s.leasesGranted]))
    && |s.progressLog| == s.progressEvents
    && (s.lastProgress.Some? ==> s.lastProgress.value == s.progressLog[|s.progressLog| - 1])
    && (s.lastProgress.Some? ==> s.lastProgress.value.contract == s.policy.progressContract
                                 && s.lastExternal == s.lastProgress.value.currentExternal)
    && (s.lastExternal.Some? <==> s.lastProgress.Some? && s.policy.progressContract.hasExternal)
    && (s.lastConsumed.Some? ==> s.lastProgress.Some?)
    && (s.lastConsumedExternal.Some? ==> s.policy.progressContract.hasExternal && s.lastProgress.Some?)
  }

  lemma DistinctByTick(ds: seq<Decision>)
    requires forall i :: 0 <= i < |ds| ==> DecisionTick(ds[i]) == i + 1
    ensures Distinct(ds)
  {
    forall i, j | 0 <= i < j < |ds|
      ensures ds[i] != ds[j]
    {
      assert DecisionTick(ds[i]) != DecisionTick(ds[j]);
    }
  }

  /** A denial keeps the ledger valid; only the two exhaustion denials can leave without a slot. */
  lemma DenialKeepsGov(s: ContinuationState, q: Inquiry, why: DenialReason)
    requires GovInv(s)
    requires why.LeaseRequestLimit? || why.LeaseCeilingReached? ==> s.pending.None?
    ensures GovInv(AfterDenial(s, q, why).0)
  {
    hide LiveCycle, IsWithin, Total, DeniedState, Distinct;
    var (next, d) := AfterDenial(s, q, why);
    DistinctByTick(next.decisions);
  }

  lemma ContextClears(s: ContinuationState, q: Inquiry)
    requires GovInv(s)
    ensures ContextDenial(s, q) != Some(AmountExceedsCeiling)
    ensures ContextDenial(s, q) == Some(LeaseCeilingReached) ==>
              s.pending.None? && s.leasesGranted == |s.policy.schedule|
    ensures ContextDenial(s, q) == Some(LeaseRequestLimit) ==>
              s.pending.None? && s.leaseRequests == s.policy.maxRequests && s.leasesGranted < |s.policy.schedule|
    ensures ContextDenial(s, q).None? ==>
              && s.pending.None? && q.progress.contract == s.policy.progressContract
              && Some(q.progress) == s.lastProgress
              && !q.progress.complete && s.leasesGranted < |s.policy.schedule| && s.leaseRequests < s.policy.maxRequests
              && q.request.leaseIndex == s.leasesGranted + 1 && q.live == s.runtimeState
              && q.request.runtimeSession == s.runtimeSession
  {
    TotalPrefix(s.policy.schedule, s.leasesGranted);
    hide Constructible, LiveCycle, PolicyAccepted, Total;
  }

  /** Within the schedule the ceiling is never what refuses: those two checks are unreachable. */
  lemma ScheduledAmountFits(s: ContinuationState, q: Inquiry)
    requires GovInv(s) && s.leasesGranted < |s.policy.schedule|
    ensures AmountDenial(s, q) != Some(AmountExceedsCeiling)
    ensures AmountDenial(s, q).None? ==>
              && q.request.requested != ZERO && q.request.requested.mutations == 0
              && IsWithin(q.request.requested, s.policy.schedule[s.leasesGranted])
              && IsWithin(Plus(s.cumulative, q.request.requested), Total(s.policy.schedule[..s.leasesGranted + 1]))
  {
    var n := s.leasesGranted;
    TotalPrefix(s.policy.schedule, n + 1);
    assert s.policy.schedule[..n + 1][..n] == s.policy.schedule[..n];
  }

  lemma GrantKeepsGov(s: ContinuationState, q: Inquiry)
    requires GovInv(s) && DenialOf(s, q).None?
    ensures GovInv(AfterGrant(s, q))
  {
    ContextClears(s, q);
    ScheduledAmountFits(s, q);
    hide LiveCycle, DenialOf, ContextDenial, AmountDenial, Capacity, IsWithin, Distinct, StrategyVerdict;
    var next := AfterGrant(s, q);
    DistinctByTick(next.decisions);
  }

  lemma DenialSources(s: ContinuationState, q: Inquiry)
    requires GovInv(s)
    ensures DenialOf(s, q) == Some(LeaseCeilingReached) || DenialOf(s, q) == Some(LeaseRequestLimit) ==>
              ContextDenial(s, q) == DenialOf(s, q)
    ensures DenialOf(s, q) != Some(AmountExceedsCeiling)
    ensures DenialOf(s, q) == Some(UnauthorizedRequester) <==> ContextDenial(s, q) == Some(UnauthorizedRequester)
    ensures DenialOf(s, q).None? ==>
              && ContextDenial(s, q).None? && StrategyVerdict(s, q).0.None?
              && MeritDenial(s, q, StrategyVerdict(s, q).1).None?
              && s.leasesGranted < |s.policy.schedule| && AmountDenial(s, q).None?
  {
    hide LiveCycle, ContextDenial, Capacity, IsWithin, CheckedAdd;
    ContextClears(s, q);
    if ContextDenial(s, q).None? {
      ScheduledAmountFits(s, q);
    }
  }

  /** On a valid ledger an evaluation never fails to construct its next state. */
  lemma EvaluateKeepsGov(s: ContinuationState, q: Inquiry)
    requires GovInv(s)
    ensures Evaluate(s, q) != Failure(InvalidState)
    ensures Evaluate(s, q).Success? ==> GovInv(Evaluate(s, q).value.0) && PolicyAccepted(Evaluate(s, q).value.0.policy)
    ensures Evaluate(s, q).Success? ==>
              match DenialOf(s, q)
              case Some(why) => Evaluate(s, q).value == (AfterDenial(s, q, why).0, Denied(AfterDenial(s, q, why).1))
              case None => Evaluate(s, q).value == (AfterGrant(s, q), Granted(GrantRecord(s, q)))
  {
    hide DenialOf, AfterDenial, AfterGrant, GrantRecord, ContextDenial, AmountDenial, StrategyVerdict, MeritDenial,
      Constructible, PolicyBinds;
    ContextClears(s, q);
    DenialSources(s, q);
    match DenialOf(s, q) {
      case Some(why) => DenialKeepsGov(s, q, why);
      case None => GrantKeepsGov(s, q);
    }
  }

  // ----- The joint invariant -----

  ghost predicate Bound(j: Joint) {
    && j.runtime.lease.Some?
    && j.runtime.lease.value.policy == j.gov.policy && j.runtime.lease.value.binding == j.gov.binding
    && j.runtime.lease.value.policyReceipt == j.gov.policyReceipt && j.runtime.session == j.gov.runtimeSession
    && (forall i :: 0 <= i < |j.runtime.lease.value.applied| ==> j.runtime.lease.value.applied[i].leaseIndex == i + 1)
  }

  /** The grant waits: the runtime is one lease behind. */
  ghost predicate Waiting(j: Joint, g: Grant) {
    j.runtime.lease.Some? &&
    var l := j.runtime.lease.value;
    && |l.applied| + 1 == j.gov.leasesGranted && Plus(l.cumulative, g.granted) == j.gov.cumulative
    && (j.runtime.counters.tick == g.priorRuntime.counters.tick ==> j.runtime == g.priorRuntime)
  }

  /** The grant is applied and only the governance commit is missing. */
  ghost predicate AppliedUncommitted(j: Joint, g: Grant) {
    j.runtime.lease.Some? &&
    var l := j.runtime.lease.value;
    && 0 < |l.applied| == j.gov.leasesGranted && l.applied[|l.applied| - 1] == g && l.cumulative == j.gov.cumulative
    && j.runtime.counters.tick > g.priorRuntime.counters.tick
  }

  ghost predicate PendingRecord(s: ContinuationState, g: Grant) {
    && g.binding == s.binding && g.policy == s.policy && g.policyReceipt == s.policyReceipt
    && g.ceiling == s.policy.ceiling && g.runtimeSession == s.runtimeSession && g.priorRuntime == s.runtimeState
    && 1 <= g.leaseIndex == s.leasesGranted <= |s.policy.schedule| && g.cumulative == s.cumulative
    && g.granted != ZERO && g.granted.mutations == 0 && IsWithin(g.granted, s.policy.schedule[s.leasesGranted - 1])
  }

  ghost predicate InStep(j: Joint) {
    j.runtime.lease.Some? &&
    match j.gov.pending
    case None =>
      |j.runtime.lease.value.applied| == j.gov.leasesGranted && j.runtime.lease.value.cumulative == j.gov.cumulative
    case Some(g) =>
      && PendingRecord(j.gov, g) && g in j.seals
      && g.priorRuntime.counters.tick <= j.runtime.counters.tick
      && (Waiting(j, g) || AppliedUncommitted(j, g))
  }

  ghost predicate SealsOk(j: Joint) {
    forall g :: g in j.seals ==>
      && g.leaseIndex <= j.gov.leasesGranted
      && (g.leaseIndex == j.gov.leasesGranted && j.gov.pending.Some? ==> j.gov.pending == Some(g))
  }

  /** The last observed progress has not been consumed. */
  predicate HasFreshProgress(s: ContinuationState) {
    s.lastProgress.Some? && s.lastProgress != s.lastConsumed
  }

  ghost predicate HistoryOk(j: Joint) {
    && j.evaluations == j.gov.leaseRequests + j.terminalMarks
    && j.terminalMarks == (if j.gov.terminal.Some? then 1 else 0)
    && (j.gov.lastConsumed == if j.consumed == [] then None else Some(j.consumed[|j.consumed| - 1]))
    && |j.consumed| + (if HasFreshProgress(j.gov) then 1 else 0) <= j.gov.progressEvents
    && j.gov.leasesGranted <= |j.consumed| + j.gov.strategyRecoveries
    && (forall i :: 0 <= i < |j.consumed| - 1 ==> j.consumed[i] != j.consumed[i + 1])
  }

  ghost predicate JointInv(j: Joint) {
    && PolicyAccepted(j.gov.policy) && GovInv(j.gov) && RuntimeInv(j.runtime)
    && Bound(j) && InStep(j) && SealsOk(j) && HistoryOk(j)
  }

  /** A fresh ledger, created over a fresh runtime under the same policy. */
  ghost predicate FreshJoint(j: Joint) {
    && PolicyAccepted(j.gov.policy) && FreshSession(j.runtime)
    && j.runtime.lease == Some(LeaseLedger(j.gov.policy, j.gov.policyReceipt, j.gov.binding, ZERO, []))
    && j.runtime.session == j.gov.runtimeSession && j.gov.runtimeState == j.runtime
    && !j.revoked && j.seals == {} && j.evaluations == 0 && j.terminalMarks == 0 && j.consumed == []
    && j.gov.leaseRequests == j.gov.leasesGranted == j.gov.leasesDenied == j.gov.tick == j.gov.strategyRecoveries == 0
    && j.gov.cumulative == ZERO && j.gov.decisions == [] && j.gov.lastDecision.NoDecision?
    && j.gov.lastConsumed.None? && j.gov.lastConsumedExternal.None? && j.gov.terminal.None? && j.gov.pending.None?
    && |j.gov.progressLog| == j.gov.progressEvents <= 1
    && match j.gov.lastProgress
       case None =>
         j.gov.progressEvents == 0 && j.gov.lastExternal.None? && j.gov.lastClassification.None?
         && j.gov.progressState.Stalled?
       case Some(p) =>
         && j.gov.lastClassification == Some(p.classification) && j.gov.progressState == ObservedState(p)
         && j.gov.progressLog == [p] && ProgressWellFormed(p) && p.contract == j.gov.policy.progressContract
         && j.gov.lastExternal == p.currentExternal
  }

  lemma FreshHolds(j: Joint)
    requires FreshJoint(j)
    ensures JointInv(j)
  {}

  // ----- Preservation -----

  lemma AfterGrantInStep(j: Joint, q: Inquiry)
    requires JointInv(j) && q.live == j.runtime && DenialOf(j.gov, q).None?
    ensures IssueAccepted(j.runtime, q, GrantRecord(j.gov, q))
    ensures var g := GrantRecord(j.gov, q);
            PendingRecord(AfterGrant(j.gov, q), g) && g.priorRuntime == j.runtime
            && Plus(j.runtime.lease.value.cumulative, g.granted) == g.cumulative
            && |j.runtime.lease.value.applied| == j.gov.leasesGranted
  {
    ContextClears(j.gov, q);
    DenialSources(j.gov, q);
    ScheduledAmountFits(j.gov, q);
    hide DenialOf, ContextDenial, AmountDenial, LiveCycle;
    ScheduledGrantFits(j.runtime, GrantRecord(j.gov, q));
  }

  /** What a grant consumes is the last progress, unconsumed before; otherwise a recovery stands in for it. */
  lemma GrantIsPaid(s: ContinuationState, q: Inquiry)
    requires GovInv(s) && DenialOf(s, q).None?
    ensures Some(q.progress) == s.lastProgress
    ensures ProgressAdmitted(s, q.progress) ==> Some(q.progress) != s.lastConsumed
    ensures ProgressAdmitted(s, q.progress) || UsesRecovery(s, q)
  {
    hide LiveCycle, GovInv, AmountDenial, PolicyAccepted, IsWithin;
  }

  /** What a grant counts. */
  predicate GrantCounted(s: ContinuationState, next: ContinuationState, p: Progress, consumes: bool, recovers: bool) {
    && next.leaseRequests == s.leaseRequests + 1 && next.leasesGranted == s.leasesGranted + 1
    && next.terminal == s.terminal && next.progressEvents == s.progressEvents && next.lastProgress == Some(p)
    && next.lastConsumed == (if consumes then Some(p) else s.lastConsumed)
    && next.strategyRecoveries == s.strategyRecoveries + if recovers then 1 else 0
  }

  lemma GrantCounts(s: ContinuationState, q: Inquiry)
    ensures GrantCounted(s, AfterGrant(s, q), q.progress, ProgressAdmitted(s, q.progress), UsesRecovery(s, q))
  {
    hide UsesRecovery, ProgressAdmitted, StrategyVerdict, GrantRecord;
  }

  lemma PaidGrantKeepsHistory(j: Joint, j': Joint, p: Progress, consumes: bool, recovers: bool)
    requires HistoryOk(j) && GrantCounted(j.gov, j'.gov, p, consumes, recovers)
    requires Some(p) == j.gov.lastProgress && (consumes || recovers) && (consumes ==> Some(p) != j.gov.lastConsumed)
    requires j'.evaluations == j.evaluations + 1 && j'.terminalMarks == j.terminalMarks
    requires j'.consumed == if consumes then j.consumed + [p] else j.consumed
    ensures HistoryOk(j')
  {}

  lemma GrantHistory(j: Joint, q: Inquiry)
    requires GovInv(j.gov) && HistoryOk(j) && DenialOf(j.gov, q).None?
    ensures HistoryOk(j.(gov := AfterGrant(j.gov, q), seals := j.seals + {GrantRecord(j.gov, q)},
                         evaluations := j.evaluations + 1,
                         consumed := if ProgressAdmitted(j.gov, q.progress) then j.consumed + [q.progress]
                           else j.consumed))
  {
    GrantIsPaid(j.gov, q);
    GrantCounts(j.gov, q);
    hide DenialOf, LiveCycle, GovInv, UsesRecovery, ProgressAdmitted, GrantRecord, AfterGrant, HistoryOk, GrantCounted;
    var consumes := ProgressAdmitted(j.gov, q.progress);
    PaidGrantKeepsHistory(
      j, j.(gov := AfterGrant(j.gov, q), seals := j.seals + {GrantRecord(j.gov, q)}, evaluations := j.evaluations + 1,
            consumed := if consumes then j.consumed + [q.progress] else j.consumed),
      q.progress, consumes, UsesRecovery(j.gov, q));
  }

  lemma AskKeeps(j: Joint, ask: Inquiry)
    requires JointInv(j)
    ensures JointInv(AskStep(j, ask))
  {
    hide Evaluate, GovInv, RuntimeInv, Bound, InStep, SealsOk, HistoryOk, AfterGrant, AfterDenial, GrantRecord,
      IssueAccepted, DenialOf, PendingRecord;
    var q := ask.(live := j.runtime);
    EvaluateKeepsGov(j.gov, q);
    if Evaluate(j.gov, q).Success? {
      match DenialOf(j.gov, q)
      case Some(why) => DeniedKeeps(j, q, why);
      case None =>
        AfterGrantInStep(j, q);
        GrantHistory(j, q);
        GrantedKeeps(j, q);
    }
  }

  /** What a denial leaves alone, and what it counts. */
  lemma DenialCounts(s: ContinuationState, q: Inquiry, why: DenialReason)
    requires Constructible(s)
    ensures var next := AfterDenial(s, q, why).0;
            && next.policy == s.policy && next.binding == s.binding && next.policyReceipt == s.policyReceipt
            && next.runtimeSession == s.runtimeSession && next.runtimeState == s.runtimeState
            && next.leasesGranted == s.leasesGranted && next.cumulative == s.cumulative && next.pending == s.pending
            && next.lastConsumed == s.lastConsumed && next.lastProgress == s.lastProgress
            && next.progressEvents == s.progressEvents && next.strategyRecoveries == s.strategyRecoveries
            && (if next == s then true
                else if next.terminal == s.terminal then next.leaseRequests == s.leaseRequests + 1
                else next.leaseRequests == s.leaseRequests && s.terminal.None? && next.terminal.Some?)
  {
    hide DeniedState, DenialRecord;
  }

  function JointDenied(j: Joint, q: Inquiry, why: DenialReason): Joint {
    var next := AfterDenial(j.gov, q, why).0;
    j.(gov := next, evaluations := j.evaluations + (if next != j.gov then 1 else 0),
       terminalMarks := j.terminalMarks + (if next.terminal != j.gov.terminal then 1 else 0))
  }

  lemma DeniedKeepsHistory(j: Joint, q: Inquiry, why: DenialReason)
    requires Constructible(j.gov) && HistoryOk(j)
    ensures HistoryOk(JointDenied(j, q, why))
  {
    DenialCounts(j.gov, q, why);
    hide AfterDenial, Constructible;
  }

  lemma DeniedKeeps(j: Joint, q: Inquiry, why: DenialReason)
    requires JointInv(j)
    ensures var j' := JointDenied(j, q, why);
            Bound(j') && InStep(j') && SealsOk(j') && HistoryOk(j')
  {
    DenialCounts(j.gov, q, why);
    DeniedKeepsHistory(j, q, why);
    hide LiveCycle, GovInv, RuntimeInv, AfterDenial, Constructible, PolicyAccepted, IsWithin, HistoryOk;
  }

  lemma GrantedKeeps(j: Joint, q: Inquiry)
    requires JointInv(j) && q.live == j.runtime && DenialOf(j.gov, q).None?
    requires var g := GrantRecord(j.gov, q);
             PendingRecord(AfterGrant(j.gov, q), g) && g.priorRuntime == j.runtime
             && Plus(j.runtime.lease.value.cumulative, g.granted) == g.cumulative
             && |j.runtime.lease.value.applied| == j.gov.leasesGranted
    ensures var g := GrantRecord(j.gov, q);
            var j' := j.(gov := AfterGrant(j.gov, q), seals := j.seals + {g}, evaluations := j.evaluations + 1,
                         consumed := if ProgressAdmitted(j.gov, q.progress) then j.consumed + [q.progress]
                           else j.consumed);
            Bound(j') && InStep(j') && SealsOk(j')
  {
    hide DenialOf, GovInv, RuntimeInv, HistoryOk;
  }

  /** A later runtime state, whose lease ledger is unchanged or took one sealed grant, is still in step. */
  lemma RuntimeAdvances(j: Joint, next: RuntimeState, taken: Option<Grant>)
    requires Bound(j) && InStep(j) && SealsOk(j)
    requires next.session == j.runtime.session && next.counters.tick >= j.runtime.counters.tick
    requires next.counters.tick == j.runtime.counters.tick ==> next == j.runtime
    requires next.lease == j.runtime.lease ||
             (taken.Some? && taken.value in j.seals && GrantTaken(j.runtime, next, taken.value)
              && next.counters.tick > j.runtime.counters.tick)
    ensures Bound(j.(runtime := next)) && InStep(j.(runtime := next)) && SealsOk(j.(runtime := next))
  {}

  ghost predicate GrantTaken(s: RuntimeState, s': RuntimeState, g: Grant) {
    s.lease.Some? && s'.lease.Some? &&
    var l := s.lease.value;
    && g.leaseIndex == |l.applied| + 1
    && s'.lease.value == l.(cumulative := Plus(l.cumulative, g.granted), applied := l.applied + [g])
  }

  lemma CallKeeps(j: Joint, command: Command, invocation: Invocation, seal: Option<Grant>)
    requires JointInv(j)
    ensures JointInv(CallStep(j, command, invocation, seal))
  {
    hide Dispatch, ClockInv, LeaseInv, GovInv, Bound, InStep, SealsOk, GrantTaken;
    if !j.revoked {
      var trusted := if seal.Some? && seal.value in j.seals then seal else None;
      var call := Call(command, invocation, trusted);
      DispatchKeepsClock(j.runtime, call);
      DispatchAdvances(j.runtime, call);
      LeaseChangesOnlyByGrant(j.runtime, call);
      RuntimeAdvances(j, Dispatch(j.runtime, call).0, if command.ApplyLease? then Some(command.grant) else None);
    }
  }

  /** The lease ledger of the runtime changes only by an accepted grant under its own seal. */
  lemma LeaseChangesOnlyByGrant(s: RuntimeState, c: Call)
    ensures var s' := Dispatch(s, c).0;
            && s'.session == s.session
            && (s'.lease == s.lease ||
                 (c.command.ApplyLease? && c.seal == Some(c.command.grant) && GrantTaken(s, s', c.command.grant)
                  && s'.counters.tick == s.counters.tick + 1))
  {}

  /** What an accepted observation is. */
  lemma ObservationFacts(
    s: ContinuationState, policy: Policy, orchestration: string, snapshot: RuntimeState, progress: Option<Progress>,
    strategy: Option<string>)
    requires Observe(s, policy, orchestration, snapshot, progress, strategy).Success?
    ensures var next := Observe(s, policy, orchestration, snapshot, progress, strategy).value;
            && next == AfterObservation(s, orchestration, snapshot, progress) && Constructible(next) && s.pending.None?
            && (progress.Some? ==> s.progressEvents <= s.policy.maxRequests
                                   && progress.value.contract == s.policy.progressContract)
  {
    hide AfterObservation, RuntimeBinds, LimitsApplied, Constructible;
  }

  lemma ObservationKeepsGov(
    s: ContinuationState, orchestration: string, snapshot: RuntimeState, progress: Option<Progress>)
    requires GovInv(s) && (progress.Some? ==> ProgressWellFormed(progress.value))
    requires s.pending.None? && Constructible(AfterObservation(s, orchestration, snapshot, progress))
    requires progress.Some? ==>
               s.progressEvents <= s.policy.maxRequests && progress.value.contract == s.policy.progressContract
    ensures GovInv(AfterObservation(s, orchestration, snapshot, progress))
  {
    hide PolicyAccepted, Constructible, IsWithin, Total, ObservedState;
  }

  lemma ObservationKeepsStep(j: Joint, orchestration: string, progress: Option<Progress>)
    requires Bound(j) && InStep(j) && SealsOk(j) && HistoryOk(j) && j.gov.pending.None?
    ensures var j' := j.(gov := AfterObservation(j.gov, orchestration, j.runtime, progress));
            Bound(j') && InStep(j') && SealsOk(j') && HistoryOk(j')
  {
    hide ObservedState;
  }

  lemma ObserveKeeps(
    j: Joint, policy: Policy, orchestration: string, progress: Option<Progress>, strategy: Option<string>)
    requires JointInv(j) && (progress.Some? ==> ProgressWellFormed(progress.value))
    requires Observe(j.gov, policy, orchestration, j.runtime, progress, strategy).Success?
    ensures JointInv(j.(gov := Observe(j.gov, policy, orchestration, j.runtime, progress, strategy).value))
  {
    ObservationFacts(j.gov, policy, orchestration, j.runtime, progress, strategy);
    ObservationKeepsGov(j.gov, orchestration, j.runtime, progress);
    ObservationKeepsStep(j, orchestration, progress);
    hide RuntimeInv, GovInv, Observe, PolicyAccepted, Constructible, ObservedState, Bound, InStep, SealsOk, HistoryOk;
  }

  lemma CommitKeeps(j: Joint, policy: Policy, g: Grant, a: Application)
    requires JointInv(j) && CommitApplication(j.gov, policy, g, a, j.runtime).Success?
    ensures JointInv(j.(gov := CommitApplication(j.gov, policy, g, a, j.runtime).value))
  {
    hide RuntimeInv, IsWithin, Total, PolicyAccepted, Distinct;
  }

  lemma JointStepKeeps(j: Joint, a: Action)
    requires JointInv(j) && ActionWellFormed(a)
    ensures JointInv(JointStep(j, a))
  {
    hide AskStep, CallStep, Observe, CommitApplication, GovInv, RuntimeInv;
    match a
    case AskLease(q) => AskKeeps(j, q);
    case CallRuntime(command, invocation, seal) => CallKeeps(j, command, invocation, seal);
    case ObserveContext(policy, orchestration, snapshot, progress, strategy) =>
      if snapshot == j.runtime && Observe(j.gov, policy, orchestration, snapshot, progress, strategy).Success? {
        ObserveKeeps(j, policy, orchestration, progress, strategy);
      }
    case CommitLease(policy, g, application, snapshot) =>
      if snapshot == j.runtime && CommitApplication(j.gov, policy, g, application, snapshot).Success? {
        CommitKeeps(j, policy, g, application);
      }
    case RevokeAll =>
  }
}

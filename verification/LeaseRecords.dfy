/**
 * The records shared by the native read runtime and the governance continuation ledger. A fingerprint
 * is modelled as the record it covers, so the runtime state, the grants it applied, and the governance
 * state that issued them refer to each other.
 */
module LeaseRecords {
  import opened Common

  const MAX_REQUESTS := 1_000_000
  const MAX_EXECUTIONS := 4_096
  const MAX_RETRIES := 1_000_000
  const MAX_HISTORY := 4_096
  const MAX_LEASES := 64
  const MAX_LEASE_REQUESTS := 128
  const MAX_SESSION_KEY_BYTES := 4_096
  const MIN_CYCLE_HISTORY := 6

  // ----- Resource vectors -----

  datatype Resources = Resources(requests: nat, executions: nat, retries: nat, mutations: nat, history: nat)

  const ZERO := Resources(0, 0, 0, 0, 0)

  function Plus(a: Resources, b: Resources): Resources {
    Resources(a.requests + b.requests, a.executions + b.executions, a.retries + b.retries,
              a.mutations + b.mutations, a.history + b.history)
  }

  /** Component-wise checked addition. */
  function CheckedAdd(a: Resources, b: Resources): (r: Option<Resources>)
    ensures r.Some? ==> r.value == Plus(a, b)
  {
    var s := Plus(a, b);
    if s.requests <= U64_MAX && s.executions <= U64_MAX && s.retries <= U64_MAX && s.mutations <= U64_MAX
       && s.history <= U64_MAX then Some(s) else None
  }

  predicate IsWithin(a: Resources, ceiling: Resources) {
    && a.requests <= ceiling.requests && a.executions <= ceiling.executions && a.retries <= ceiling.retries
    && a.mutations <= ceiling.mutations && a.history <= ceiling.history
  }

  function Total(rs: seq<Resources>): Resources {
    if rs == [] then ZERO else Plus(Total(rs[..|rs| - 1]), rs[|rs| - 1])
  }

  // ----- Runtime records -----

  datatype Limits = Limits(requests: nat, executions: nat, retries: nat, history: nat)
  datatype Counters = Counters(requests: nat, executions: nat, cacheHits: nat, retries: nat, tick: nat)
  datatype ToolKey = ToolKey(tool: string, arguments: string, dependency: string)
  datatype Transition = Transition(key: ToolKey, observation: string)
  datatype Binding = Binding(task: string, governance: string, governanceReceipt: string)

  /** A progress measure contract; `hasExternal` says whether it declares a governed external counter. */
  datatype Contract = Contract(id: string, hasExternal: bool)

  datatype Policy = Policy(
    key: string, initial: Resources, schedule: seq<Resources>, ceiling: Resources, maxRequests: nat,
    maxRecoveries: nat, progressContract: Contract)

  datatype LeaseLedger = LeaseLedger(
    policy: Policy, policyReceipt: string, binding: Binding, cumulative: Resources, applied: seq<Grant>)

  datatype RuntimeState = RuntimeState(
    session: string, limits: Limits, counters: Counters, cache: map<ToolKey, string>, history: seq<Transition>,
    lease: Option<LeaseLedger>)

  // ----- Governance records -----

  datatype Classification = MeasurableProgress | NoProgress | Regression | NewInformation | Incomparable

  datatype Progress = Progress(
    task: string, governance: string, contract: Contract, priorOrchestration: string, currentOrchestration: string,
    measures: string, classification: Classification, complete: bool, priorExternal: Option<string>,
    currentExternal: Option<string>)

  datatype CycleEvidence = CycleEvidence(session: string, state: RuntimeState, period: nat, pattern: seq<Transition>)

  datatype StrategyReason =
    | AdmittedMaterialChange | SameIdentity | NotMaterial | InvalidSchema | UnknownCapability | UnknownTarget
    | CycleEquivalent

  /** Admitted exactly when the reason is a material change. */
  datatype StrategyChange = StrategyChange(
    task: string, governance: string, orchestration: string, priorMaterial: string, proposedMaterial: string,
    reason: StrategyReason, cycle: Option<CycleEvidence>)

  datatype Requester = OpenAiSupervisor | OtherPrincipal

  datatype Request = Request(
    task: string, governance: string, policy: Policy, state: ContinuationState, orchestration: string,
    runtimeSession: string, runtimeState: RuntimeState, progress: Progress, leaseIndex: nat, requested: Resources,
    requester: Requester, strategyChange: Option<StrategyChange>)

  datatype Grant = Grant(
    binding: Binding, policy: Policy, policyReceipt: string, request: Request, priorState: ContinuationState,
    orchestration: string, runtimeSession: string, priorRuntime: RuntimeState, progress: Progress,
    strategyChange: Option<StrategyChange>, leaseIndex: nat, granted: Resources, cumulative: Resources,
    ceiling: Resources, tick: nat)

  datatype DenialReason =
    | UnauthorizedRequester | StaleContinuationState | StaleGovernance | StaleOrchestration | StaleRuntime
    | StaleProgress | LeaseIndexMismatch | NoMeasurableProgress | TerminalCycle | LeaseCeilingReached
    | LeaseRequestLimit | StrategyNotMaterial | StrategyCycleEquivalent | StrategyRecoveryExhausted
    | TaskAlreadyComplete | BlockingViolation | AmountExceedsSchedule | AmountExceedsCeiling | EmptyResources
    | UnsupportedResource | PendingApplication

  datatype Denial = Denial(
    binding: Binding, policy: Policy, request: Request, priorState: ContinuationState, progress: Progress,
    leaseIndex: nat, reason: DenialReason, tick: nat, blocking: Option<string>)

  datatype Decision = Granted(grant: Grant) | Denied(denial: Denial)
  datatype LastDecision = NoDecision | WasGranted | WasDenied(reason: DenialReason)
  datatype ProgressState =
    | Progressing | Stalled | StrategyChanged | StrategyChangeRejected | CycleBlocked | LeaseExhausted | Complete

  /** `decisions` and `progressLog` stand for the decision receipts and for the two running aggregates. */
  datatype ContinuationState = ContinuationState(
    binding: Binding, policy: Policy, policyReceipt: string, orchestration: string, runtimeSession: string,
    runtimeState: RuntimeState, leaseRequests: nat, leasesGranted: nat, leasesDenied: nat, cumulative: Resources,
    tick: nat, decisions: seq<Decision>, strategyRecoveries: nat, currentStrategy: Option<string>,
    lastProgress: Option<Progress>, progressEvents: nat, progressLog: seq<Progress>, lastConsumed: Option<Progress>,
    lastExternal: Option<string>, lastConsumedExternal: Option<string>, lastClassification: Option<Classification>,
    lastDecision: LastDecision, progressState: ProgressState, terminal: Option<Denial>, pending: Option<Grant>)

  // ----- Policy admission -----

  /** What both policy constructors accept. */
  predicate PolicyAccepted(p: Policy) {
    && p.initial.requests > 0 && p.initial.executions > 0 && p.initial.retries > 0
    && p.initial.history >= MIN_CYCLE_HISTORY && p.initial.mutations == 0
    && |p.schedule| <= MAX_LEASES
    && (forall i :: 0 <= i < |p.schedule| ==> p.schedule[i] != ZERO && p.schedule[i].mutations == 0)
    && |p.schedule| < p.maxRequests <= MAX_LEASE_REQUESTS
    && p.maxRecoveries <= |p.schedule|
    && p.ceiling == Plus(p.initial, Total(p.schedule))
    && p.ceiling.requests <= MAX_REQUESTS && p.ceiling.executions <= MAX_EXECUTIONS
    && p.ceiling.retries <= MAX_RETRIES && p.ceiling.history <= MAX_HISTORY && p.ceiling.mutations == 0
  }

  /** `continuation_capacity`: the ceiling less the initial budget, which is the whole schedule. */
  function Capacity(p: Policy): (r: Resources)
    requires PolicyAccepted(p)
    ensures r == Total(p.schedule)
  {
    Resources(p.ceiling.requests - p.initial.requests, p.ceiling.executions - p.initial.executions,
              p.ceiling.retries - p.initial.retries, p.ceiling.mutations - p.initial.mutations,
              p.ceiling.history - p.initial.history)
  }

  /** The checked addition of scheduled lease `i` to everything before it does not overflow. */
  predicate SumFits(p: Policy, i: nat)
    requires i < |p.schedule|
  {
    CheckedAdd(Plus(p.initial, Total(p.schedule[..i])), p.schedule[i]).Some?
  }

  lemma TotalPrefix(rs: seq<Resources>, n: nat)
    requires n <= |rs|
    ensures IsWithin(Total(rs[..n]), Total(rs))
  {
    if n < |rs| {
      assert rs[..|rs| - 1][..n] == rs[..n];
      TotalPrefix(rs[..|rs| - 1], n);
    } else {
      assert rs[..n] == rs;
    }
  }

  /** The checked sum that the constructors accumulate over the schedule. */
  method SumSchedule(p: Policy) returns (r: Option<Resources>)
    ensures r.Some? ==> r.value == Plus(p.initial, Total(p.schedule))
    ensures r.Some? <==> forall i :: 0 <= i < |p.schedule| ==> SumFits(p, i)
  {
    var computed := p.initial;
    for i := 0 to |p.schedule|
      invariant computed == Plus(p.initial, Total(p.schedule[..i]))
      invariant forall k :: 0 <= k < i ==> SumFits(p, k)
    {
      assert p.schedule[..i + 1][..i] == p.schedule[..i];
      var next := CheckedAdd(computed, p.schedule[i]);
      if next.None? {
        assert !SumFits(p, i);
        return None;
      }
      computed := next.value;
    }
    assert p.schedule[..|p.schedule|] == p.schedule;
    r := Some(computed);
  }

  /** Policy admission by the running checked sum accepts exactly the policies whose exact total is the ceiling. */
  method AdmitPolicy(p: Policy) returns (ok: bool)
    ensures ok <==> PolicyAccepted(p)
  {
    if p.initial.requests == 0 || p.initial.executions == 0 || p.initial.retries == 0
       || p.initial.history < MIN_CYCLE_HISTORY || p.initial.mutations != 0 || |p.schedule| > MAX_LEASES {
      return false;
    }
    for i := 0 to |p.schedule|
      invariant forall k :: 0 <= k < i ==> p.schedule[k] != ZERO && p.schedule[k].mutations == 0
    {
      if p.schedule[i] == ZERO || p.schedule[i].mutations != 0 {
        return false;
      }
    }
    if p.maxRequests == 0 || p.maxRequests > MAX_LEASE_REQUESTS || p.maxRequests <= |p.schedule|
       || p.maxRecoveries > |p.schedule| {
      return false;
    }
    var computed := SumSchedule(p);
    if computed.None? {
      SumWithinCeiling(p);
      return false;
    }
    ok := computed.value == p.ceiling
          && p.ceiling.requests <= MAX_REQUESTS && p.ceiling.executions <= MAX_EXECUTIONS
          && p.ceiling.retries <= MAX_RETRIES && p.ceiling.history <= MAX_HISTORY && p.ceiling.mutations == 0;
  }

  /** No partial sum of an acceptable policy can overflow. */
  lemma SumWithinCeiling(p: Policy)
    ensures PolicyAccepted(p) ==> forall i :: 0 <= i < |p.schedule| ==> SumFits(p, i)
  {
    forall i | 0 <= i < |p.schedule| && PolicyAccepted(p)
      ensures SumFits(p, i)
    {
      TotalPrefix(p.schedule, i + 1);
      assert p.schedule[..i + 1][..i] == p.schedule[..i];
    }
  }

  /** What the Python constructor asks, in its own order: each partial sum must be checked, the last is the ceiling. */
  ghost predicate PythonPolicyAccepted(p: Policy) {
    && |p.schedule| <= MAX_LEASES && ZERO !in p.schedule
    && 0 < p.maxRequests <= MAX_LEASE_REQUESTS && p.maxRequests > |p.schedule| && p.maxRecoveries <= |p.schedule|
    && p.initial.mutations == 0
    && (forall i :: 0 <= i < |p.schedule| ==> p.schedule[i].mutations == 0 && SumFits(p, i))
    && Plus(p.initial, Total(p.schedule)) == p.ceiling
    && p.ceiling.executions <= MAX_EXECUTIONS && p.ceiling.history <= MAX_HISTORY && p.ceiling.mutations <= 0
    && p.ceiling.requests <= MAX_REQUESTS && p.ceiling.retries <= MAX_RETRIES
    && p.initial.requests != 0 && p.initial.executions != 0 && p.initial.retries != 0 && p.initial.history != 0
    && p.initial.history >= MIN_CYCLE_HISTORY
  }

  /** The native and the Python constructor accept the same policies. */
  lemma BothConstructorsAgree(p: Policy)
    ensures PolicyAccepted(p) <==> PythonPolicyAccepted(p)
  {
    SumWithinCeiling(p);
    hide SumFits, Total;
  }
}

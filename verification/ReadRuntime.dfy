/**
 * The bounded read runtime: budgets, logical clock, dependency-keyed cache, bounded history window and
 * lease application. One dispatch is a function of the state, the command and what the operation returns.
 */
module ReadRuntime {
  import opened Common
  import opened LeaseRecords

  datatype Reason =
    | Malformed    // any rejection by the command parser
    | RequestBudget | ExecutionBudget | RetryBudget | ArithmeticOverflow | InvalidObservation | OperationFailed

  datatype LeaseReason =
    | ContinuationDisabled | GrantIdentityMismatch | StaleGovernanceGrant | PolicyMismatch | StaleRuntimeGrant
    | LeaseIndexRejected | ScheduleExceeded | CeilingExceeded | UnsupportedGrant | UnissuedGrant | LeaseOverflow

  datatype Command =
    | ExecuteRead(admission: string, key: ToolKey)
    | RecordRetry(admission: string)
    | ApplyLease(grant: Grant, identityValid: bool)
    | Unparsed

  /** What the caller's operation yields when the runtime invokes it. */
  datatype Invocation = Observed(text: string) | ObservationInvalid | Failed

  datatype CacheStatus = CacheHit | ColdExecution

  datatype Receipt =
    | CallReceipt(
        command: Command, before: RuntimeState, after: RuntimeState, delta: Counters, rejection: Option<Reason>,
        cacheStatus: Option<CacheStatus>, transition: Option<Transition>)
    | LeaseReceipt(command: Command, before: RuntimeState, after: RuntimeState, limitDelta: Resources,
                   refusal: Option<LeaseReason>)

  // ----- Counters, cache and history -----

  function AddRequest(s: RuntimeState): Result<RuntimeState, Reason> {
    if s.counters.requests >= s.limits.requests then Failure(RequestBudget)
    else if s.counters.requests + 1 > U64_MAX || s.counters.tick + 1 > U64_MAX then Failure(ArithmeticOverflow)
    else Success(s.(counters := s.counters.(requests := s.counters.requests + 1, tick := s.counters.tick + 1)))
  }

  function AddExecution(s: RuntimeState): Result<RuntimeState, Reason> {
    if s.counters.executions >= s.limits.executions then Failure(ExecutionBudget)
    else if s.counters.executions + 1 > U64_MAX || s.counters.tick + 1 > U64_MAX then Failure(ArithmeticOverflow)
    else Success(s.(counters := s.counters.(executions := s.counters.executions + 1, tick := s.counters.tick + 1)))
  }

  function AddRetry(s: RuntimeState): Result<RuntimeState, Reason> {
    if s.counters.retries >= s.limits.retries then Failure(RetryBudget)
    else if s.counters.retries + 1 > U64_MAX || s.counters.tick + 1 > U64_MAX then Failure(ArithmeticOverflow)
    else Success(s.(counters := s.counters.(retries := s.counters.retries + 1, tick := s.counters.tick + 1)))
  }

  /** `append_history`: drop the oldest only when the window is exactly full. */
  function AppendHistory(history: seq<Transition>, limit: nat, t: Transition): seq<Transition> {
    if |history| == limit && |history| > 0 then history[1..] + [t] else history + [t]
  }

  function CommitHit(s: RuntimeState, t: Transition): Result<RuntimeState, Reason> {
    if s.counters.cacheHits + 1 > U64_MAX || s.counters.tick + 1 > U64_MAX then Failure(ArithmeticOverflow)
    else Success(s.(counters := s.counters.(cacheHits := s.counters.cacheHits + 1, tick := s.counters.tick + 1),
                    history := AppendHistory(s.history, s.limits.history, t)))
  }

  function CommitObservation(s: RuntimeState, t: Transition): Result<RuntimeState, Reason> {
    if s.counters.tick + 1 > U64_MAX then Failure(ArithmeticOverflow)
    else if |s.cache| >= s.limits.executions then Failure(ExecutionBudget)
    else Success(s.(counters := s.counters.(tick := s.counters.tick + 1), cache := s.cache[t.key := t.observation],
                    history := AppendHistory(s.history, s.limits.history, t)))
  }

  function Delta(before: Counters, after: Counters): Counters
    requires before.requests <= after.requests && before.executions <= after.executions
    requires before.cacheHits <= after.cacheHits && before.retries <= after.retries && before.tick <= after.tick
  {
    Counters(after.requests - before.requests, after.executions - before.executions,
             after.cacheHits - before.cacheHits, after.retries - before.retries, after.tick - before.tick)
  }

  /** The window holds the most recent part of the history. */
  predicate IsSuffix<T(==)>(w: seq<T>, h: seq<T>) {
    |w| <= |h| && w == h[|h| - |w|..]
  }

  // ----- Reads -----

  datatype ReadResult = ReadResult(state: RuntimeState, rejection: Option<Reason>, status: Option<CacheStatus>,
                                   transition: Option<Transition>)

  function Refused(s: RuntimeState, why: Reason): ReadResult {
    ReadResult(s, Some(why), None, None)
  }

  /** A cold read, after the request has been counted and the cache missed. */
  function ColdRead(s: RuntimeState, key: ToolKey, invocation: Invocation): ReadResult {
    match AddExecution(s)
    case Failure(why) => Refused(s, why)
    case Success(s2) =>
      match invocation
      case ObservationInvalid => Refused(s2, InvalidObservation)
      case Failed => Refused(s2, OperationFailed)
      case Observed(text) =>
        var t := Transition(key, text);
        match CommitObservation(s2, t)
        case Failure(why) => Refused(s2, why)
        case Success(s3) => ReadResult(s3, None, Some(ColdExecution), Some(t))
  }

  function Read(s: RuntimeState, key: ToolKey, invocation: Invocation): ReadResult {
    match AddRequest(s)
    case Failure(why) => Refused(s, why)
    case Success(s1) =>
      if key in s1.cache then
        var t := Transition(key, s1.cache[key]);
        match CommitHit(s1, t)
        case Failure(why) => Refused(s1, why)
        case Success(s2) => ReadResult(s2, None, Some(CacheHit), Some(t))
      else ColdRead(s1, key, invocation)
  }

  // ----- Leases -----

  predicate LimitsMatch(m: Limits, r: Resources) {
    m.requests == r.requests && m.executions == r.executions && m.retries == r.retries && m.history == r.history
  }

  function LimitsOf(r: Resources): Limits {
    Limits(r.requests, r.executions, r.retries, r.history)
  }

  /** `Limits::validate`. */
  predicate LimitsWithinHardBounds(m: Limits) {
    && 0 < m.requests <= MAX_REQUESTS && 0 < m.executions <= MAX_EXECUTIONS
    && 0 < m.retries <= MAX_RETRIES && 0 < m.history <= MAX_HISTORY
  }

  /** `validate_lease_application`: the new cumulative grant, or the first check that refuses. */
  function ValidateLease(s: RuntimeState, g: Grant, identityValid: bool): Result<Resources, LeaseReason> {
    if s.lease.None? then Failure(ContinuationDisabled)
    else
      var l := s.lease.value;
      if !identityValid then Failure(GrantIdentityMismatch)
      else if g.binding != l.binding then Failure(StaleGovernanceGrant)
      else if g.policy != l.policy || g.policyReceipt != l.policyReceipt || g.ceiling != l.policy.ceiling
        then Failure(PolicyMismatch)
      else if g.runtimeSession != s.session || g.priorRuntime != s then Failure(StaleRuntimeGrant)
      else if g.leaseIndex != |l.applied| + 1 || g in l.applied then Failure(LeaseIndexRejected)
      else if g.granted == ZERO then Failure(ScheduleExceeded)
      else if g.granted.mutations != 0 then Failure(UnsupportedGrant)
      else if g.leaseIndex - 1 >= |l.policy.schedule| then Failure(LeaseIndexRejected)
      else if !IsWithin(g.granted, l.policy.schedule[g.leaseIndex - 1]) then Failure(ScheduleExceeded)
      else ValidateAmount(s, l, g)
  }

  /** The checks that follow the schedule check: prior limits, cumulative total, ceiling, hard limits, clock. */
  function ValidateAmount(s: RuntimeState, l: LeaseLedger, g: Grant): Result<Resources, LeaseReason> {
    match CheckedAdd(l.policy.initial, l.cumulative)
    case None => Failure(LeaseOverflow)
    case Some(prior) =>
      if !LimitsMatch(s.limits, prior) then Failure(PolicyMismatch)
      else
        match CheckedAdd(l.cumulative, g.granted)
        case None => Failure(LeaseOverflow)
        case Some(cumulative) =>
          if cumulative != g.cumulative then Failure(CeilingExceeded)
          else
            match CheckedAdd(l.policy.initial, cumulative)
            case None => Failure(LeaseOverflow)
            case Some(resulting) =>
              if !IsWithin(resulting, l.policy.ceiling) then Failure(CeilingExceeded)
              else if !LimitsWithinHardBounds(LimitsOf(resulting)) then Failure(CeilingExceeded)
              else if s.counters.tick + 1 > U64_MAX then Failure(LeaseOverflow)
              else Success(cumulative)
  }

  /** Apply a grant under the seal the session trusts; `None` when it trusts none. */
  function ApplyGrant(
    s: RuntimeState, g: Grant, identityValid: bool, seal: Option<Grant>): (RuntimeState, Option<LeaseReason>)
  {
    match ValidateLease(s, g, identityValid)
    case Failure(why) => (s, Some(why))
    case Success(cumulative) =>
      if seal != Some(g) then (s, Some(UnissuedGrant))
      else
        var l := s.lease.value;
        (s.(limits := LimitsOf(Plus(l.policy.initial, cumulative)),
            counters := s.counters.(tick := s.counters.tick + 1),
            lease := Some(l.(cumulative := cumulative, applied := l.applied + [g]))), None)
  }

  // ----- Dispatch -----

  datatype Call = Call(command: Command, invocation: Invocation, seal: Option<Grant>)

  function Dispatch(s: RuntimeState, c: Call): (RuntimeState, Receipt) {
    match c.command
    case ExecuteRead(_, key) =>
      var r := Read(s, key, c.invocation);
      (r.state, CallReceipt(c.command, s, r.state, Delta(s.counters, r.state.counters), r.rejection, r.status,
                            r.transition))
    case RecordRetry(_) =>
      (match AddRetry(s)
       case Success(s') => (s', CallReceipt(c.command, s, s', Delta(s.counters, s'.counters), None, None, None))
       case Failure(why) => (s, CallReceipt(c.command, s, s, Delta(s.counters, s.counters), Some(why), None, None)))
    case ApplyLease(g, identityValid) =>
      var (s', refusal) := ApplyGrant(s, g, identityValid, c.seal);
      (s', LeaseReceipt(c.command, s, s', if refusal.None? then g.granted else ZERO, refusal))
    case Unparsed => (s, CallReceipt(c.command, s, s, Delta(s.counters, s.counters), Some(Malformed), None, None))
  }

  // ----- Short cycles -----

  /** The last `2 * p` transitions are two copies of the last `p`. */
  predicate EndsInCycle<T(==)>(h: seq<T>, p: nat) {
    1 <= p && 2 * p <= |h| && h[|h| - 2 * p..|h| - p] == h[|h| - p..]
  }

  /** `r` is the least terminal period up to `max`, if there is one. */
  predicate IsShortestPeriod<T(==)>(h: seq<T>, max: nat, r: Option<nat>) {
    match r
    case Some(p) => 1 <= p <= max && EndsInCycle(h, p) && forall q :: 1 <= q < p ==> !EndsInCycle(h, q)
    case None => forall q :: 1 <= q <= max ==> !EndsInCycle(h, q)
  }
}

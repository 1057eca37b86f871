/** The native runtime object, updated in place, proved against the dispatch function. */
module NativeRuntime {
  import opened Common
  import opened LeaseRecords
  import opened ReadRuntime
  import opened ReadRuntimeRuns

  class RuntimeCore {
    const session: string
    var limits: Limits
    var counters: Counters
    var cache: map<ToolKey, string>
    var history: seq<Transition>
    var lease: Option<LeaseLedger>

    function State(): RuntimeState
      reads this
    {
      RuntimeState(session, limits, counters, cache, history, lease)
    }

    constructor (session: string, limits: Limits, lease: Option<LeaseLedger>)
      ensures State() == RuntimeState(session, limits, Counters(0, 0, 0, 0, 0), map[], [], lease)
    {
      this.session, this.limits, this.lease := session, limits, lease;
      this.counters, this.cache, this.history := Counters(0, 0, 0, 0, 0), map[], [];
    }

    /**
     * A new runtime under a key (as bytes) and limits, and what a continuation context brings to it: its policy,
     * the policy's receipt and its binding.
     */
    static method Create(session: string, limits: Limits, context: Option<(Policy, string, Binding)>)
      returns (r: Option<RuntimeCore>)
      ensures r.Some? <==>
                && 0 < |session| <= MAX_SESSION_KEY_BYTES && LimitsWithinHardBounds(limits)
                && (context.Some? ==> PolicyAccepted(context.value.0) && LimitsMatch(limits, context.value.0.initial))
      ensures r.Some? ==>
                && fresh(r.value) && FreshSession(r.value.State())
                && r.value.session == session && r.value.limits == limits
                && r.value.lease == match context
                                    case None => None
                                    case Some((p, receipt, binding)) => Some(LeaseLedger(p, receipt, binding, ZERO, []))
    {
      if !LimitsWithinHardBounds(limits) {
        return None;
      }
      if session == "" || |session| > MAX_SESSION_KEY_BYTES {
        return None;
      }
      var lease: Option<LeaseLedger> := None;
      if context.Some? {
        var (policy, receipt, binding) := context.value;
        var admitted := AdmitPolicy(policy);
        if !admitted || !LimitsMatch(limits, policy.initial) {
          return None;
        }
        lease := Some(LeaseLedger(policy, receipt, binding, ZERO, []));
      }
      var core := new RuntimeCore(session, limits, lease);
      return Some(core);
    }

    method IncrementRequest() returns (r: Option<Reason>)
      modifies this`counters
      ensures match AddRequest(old(State()))
              case Success(s) => r.None? && State() == s
              case Failure(why) => r == Some(why) && State() == old(State())
    {
      if counters.requests >= limits.requests {
        return Some(RequestBudget);
      }
      var requests, tick := CheckedAddU64(counters.requests, 1), CheckedAddU64(counters.tick, 1);
      if requests.None? || tick.None? {
        return Some(Reason.ArithmeticOverflow);
      }
      counters := counters.(requests := requests.value, tick := tick.value);
      return None;
    }

    method IncrementExecution() returns (r: Option<Reason>)
      modifies this`counters
      ensures match AddExecution(old(State()))
              case Success(s) => r.None? && State() == s
              case Failure(why) => r == Some(why) && State() == old(State())
    {
      if counters.executions >= limits.executions {
        return Some(ExecutionBudget);
      }
      var executions, tick := CheckedAddU64(counters.executions, 1), CheckedAddU64(counters.tick, 1);
      if executions.None? || tick.None? {
        return Some(Reason.ArithmeticOverflow);
      }
      counters := counters.(executions := executions.value, tick := tick.value);
      return None;
    }

    method IncrementRetry() returns (r: Option<Reason>)
      modifies this`counters
      ensures match AddRetry(old(State()))
              case Success(s) => r.None? && State() == s
              case Failure(why) => r == Some(why) && State() == old(State())
    {
      if counters.retries >= limits.retries {
        return Some(RetryBudget);
      }
      var retries, tick := CheckedAddU64(counters.retries, 1), CheckedAddU64(counters.tick, 1);
      if retries.None? || tick.None? {
        return Some(Reason.ArithmeticOverflow);
      }
      counters := counters.(retries := retries.value, tick := tick.value);
      return None;
    }

    method PushHistory(t: Transition)
      modifies this`history
      ensures history == AppendHistory(old(history), limits.history, t)
    {
      if |history| == limits.history && |history| > 0 {
        history := history[1..];
      }
      history := history + [t];
    }

    method CommitCacheHit(t: Transition) returns (r: Option<Reason>)
      modifies this`counters, this`history
      ensures match CommitHit(old(State()), t)
              case Success(s) => r.None? && State() == s
              case Failure(why) => r == Some(why) && State() == old(State())
    {
      var hits, tick := CheckedAddU64(counters.cacheHits, 1), CheckedAddU64(counters.tick, 1);
      if hits.None? || tick.None? {
        return Some(Reason.ArithmeticOverflow);
      }
      counters := counters.(cacheHits := hits.value, tick := tick.value);
      PushHistory(t);
      return None;
    }

    method StoreObservation(t: Transition) returns (r: Option<Reason>)
      modifies this`counters, this`history, this`cache
      ensures match CommitObservation(old(State()), t)
              case Success(s) => r.None? && State() == s
              case Failure(why) => r == Some(why) && State() == old(State())
    {
      var tick := CheckedAddU64(counters.tick, 1);
      if tick.None? {
        return Some(Reason.ArithmeticOverflow);
      }
      if |cache| >= limits.executions {
        return Some(ExecutionBudget);
      }
      counters := counters.(tick := tick.value);
      cache := cache[t.key := t.observation];
      PushHistory(t);
      return None;
    }

    /** `terminal_cycle_period` on the live window. */
    method TerminalCyclePeriod() returns (r: Option<nat>)
      ensures IsShortestPeriod(history, 3, r)
    {
      for period := 1 to 4
        invariant forall q :: 1 <= q < period ==> !EndsInCycle(history, q)
      {
        var width := period * 2;
        if |history| < width {
          continue;
        }
        var split := |history| - width;
        if history[split..split + period] == history[split + period..] {
          return Some(period);
        }
      }
      return None;
    }

    method ReadOnce(key: ToolKey, invocation: Invocation)
      returns (rejection: Option<Reason>, status: Option<CacheStatus>, transition: Option<Transition>)
      modifies this
      ensures var r := Read(old(State()), key, invocation);
              State() == r.state && rejection == r.rejection && status == r.status && transition == r.transition
    {
      rejection := IncrementRequest();
      if rejection.Some? {
        return rejection, None, None;
      }
      if key in cache {
        var t := Transition(key, cache[key]);
        rejection := CommitCacheHit(t);
        if rejection.Some? {
          return rejection, None, None;
        }
        return None, Some(CacheHit), Some(t);
      }
      rejection := IncrementExecution();
      if rejection.Some? {
        return rejection, None, None;
      }
      match invocation {
        case ObservationInvalid =>
          return Some(InvalidObservation), None, None;
        case Failed =>
          return Some(OperationFailed), None, None;
        case Observed(text) =>
          var t := Transition(key, text);
          rejection := StoreObservation(t);
          if rejection.Some? {
            return rejection, None, None;
          }
          return None, Some(ColdExecution), Some(t);
      }
    }

    method ApplyLeaseGrant(g: Grant, identityValid: bool, seal: Option<Grant>) returns (refusal: Option<LeaseReason>)
      modifies this
      ensures (State(), refusal) == ApplyGrant(old(State()), g, identityValid, seal)
    {
      var checked := ValidateLease(State(), g, identityValid);
      if checked.Failure? {
        return Some(checked.error);
      }
      if seal != Some(g) {
        return Some(UnissuedGrant);
      }
      var cumulative, ledger := checked.value, lease.value;
      limits := LimitsOf(Plus(ledger.policy.initial, cumulative));
      counters := counters.(tick := counters.tick + 1);
      lease := Some(ledger.(cumulative := cumulative, applied := ledger.applied + [g]));
      return None;
    }

    method DispatchCall(c: Call) returns (receipt: Receipt)
      modifies this
      ensures (State(), receipt) == Dispatch(old(State()), c)
    {
      hide ApplyGrant, Read;
      var before := State();
      match c.command {
        case ExecuteRead(_, key) =>
          ReadGrows(before, key, c.invocation);
          var rejection, status, transition := ReadOnce(key, c.invocation);
          return CallReceipt(c.command, before, State(), Delta(before.counters, counters), rejection, status,
                             transition);
        case RecordRetry(_) =>
          var rejection := IncrementRetry();
          return CallReceipt(c.command, before, State(), Delta(before.counters, counters), rejection, None, None);
        case ApplyLease(g, identityValid) =>
          var refusal := ApplyLeaseGrant(g, identityValid, c.seal);
          return LeaseReceipt(c.command, before, State(), if refusal.None? then g.granted else ZERO, refusal);
        case Unparsed =>
          return CallReceipt(c.command, before, before, Delta(counters, counters), Some(Malformed), None, None);
      }
    }
  }

  /** No counter goes back in a read. */
  lemma ReadGrows(s: RuntimeState, key: ToolKey, invocation: Invocation)
    ensures var n := Read(s, key, invocation).state.counters;
            && s.counters.requests <= n.requests && s.counters.executions <= n.executions
            && s.counters.cacheHits <= n.cacheHits && s.counters.retries <= n.retries && s.counters.tick <= n.tick
  {}
}

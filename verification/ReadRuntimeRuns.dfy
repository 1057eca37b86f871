/** Every run of the read runtime from a fresh session. */
module ReadRuntimeRuns {
  import opened Common
  import opened LeaseRecords
  import opened ReadRuntime

  ghost function Run(s: RuntimeState, calls: seq<Call>): RuntimeState {
    if calls == [] then s else Dispatch(Run(s, calls[..|calls| - 1]), calls[|calls| - 1]).0
  }

  /** The receipts of a run, in order. */
  ghost function Trace(s: RuntimeState, calls: seq<Call>): (r: seq<Receipt>)
    ensures |r| == |calls|
  {
    if calls == [] then []
    else
      var prior := calls[..|calls| - 1];
      Trace(s, prior) + [Dispatch(Run(s, prior), calls[|calls| - 1]).1]
  }

  /** One accepted read: what it returned, and whether it came from the cache. */
  datatype Accepted = Accepted(transition: Transition, status: CacheStatus)

  /** What one receipt adds to the log of accepted reads. */
  function Logged(r: Receipt): seq<Accepted> {
    if r.CallReceipt? && r.transition.Some? && r.cacheStatus.Some?
    then [Accepted(r.transition.value, r.cacheStatus.value)]
    else []
  }

  /** The unbounded log of accepted reads. */
  ghost function AcceptedLog(trace: seq<Receipt>): seq<Accepted> {
    if trace == [] then [] else AcceptedLog(trace[..|trace| - 1]) + Logged(trace[|trace| - 1])
  }

  ghost function Transitions(log: seq<Accepted>): (r: seq<Transition>)
    ensures |r| == |log| && forall i :: 0 <= i < |log| ==> r[i] == log[i].transition
  {
    seq(|log|, i requires 0 <= i < |log| => log[i].transition)
  }

  ghost predicate FreshSession(s: RuntimeState) {
    && s.counters == Counters(0, 0, 0, 0, 0) && s.cache == map[] && s.history == []
    && LimitsWithinHardBounds(s.limits)
    && (s.lease.Some? ==>
          && PolicyAccepted(s.lease.value.policy) && s.lease.value.cumulative == ZERO && s.lease.value.applied == []
          && LimitsMatch(s.limits, s.lease.value.policy.initial))
  }

  function LeasesApplied(s: RuntimeState): nat {
    if s.lease.Some? then |s.lease.value.applied| else 0
  }

  // ----- Counters and clock -----

  ghost predicate ClockInv(s: RuntimeState) {
    && s.counters.tick == s.counters.requests + s.counters.executions + s.counters.cacheHits + |s.cache|
                          + s.counters.retries + LeasesApplied(s)
    && s.counters.requests <= s.limits.requests && s.counters.executions <= s.limits.executions
    && s.counters.retries <= s.limits.retries
    && |s.cache| <= s.counters.executions && s.counters.cacheHits <= s.counters.requests
    && LimitsWithinHardBounds(s.limits)
  }

  /** The limits are exactly the initial budget plus the applied grants, which stay within the schedule so far. */
  ghost predicate LeaseInv(s: RuntimeState) {
    s.lease.Some? ==>
      var l := s.lease.value;
      && PolicyAccepted(l.policy)
      && LimitsMatch(s.limits, Plus(l.policy.initial, l.cumulative))
      && |l.applied| <= |l.policy.schedule|
      && IsWithin(l.cumulative, Total(l.policy.schedule[..|l.applied|]))
  }

  /** After the schedule check, nothing about amounts can refuse a grant that carries the exact running total. */
  lemma ScheduledGrantFits(s: RuntimeState, g: Grant)
    requires ClockInv(s) && LeaseInv(s) && s.lease.Some?
    requires var l := s.lease.value;
             && |l.applied| < |l.policy.schedule| && IsWithin(g.granted, l.policy.schedule[|l.applied|])
    ensures var l := s.lease.value;
            var total := Plus(l.cumulative, g.granted);
            && IsWithin(total, Total(l.policy.schedule[..|l.applied| + 1]))
            && IsWithin(Plus(l.policy.initial, total), l.policy.ceiling)
            && LimitsWithinHardBounds(LimitsOf(Plus(l.policy.initial, total)))
            && ValidateAmount(s, l, g) == if g.cumulative == total then Success(total) else Failure(CeilingExceeded)
  {
    var l := s.lease.value;
    var n := |l.applied|;
    TotalPrefix(l.policy.schedule, n);
    TotalPrefix(l.policy.schedule, n + 1);
    assert l.policy.schedule[..n + 1][..n] == l.policy.schedule[..n];
  }

  lemma ColdReadKeepsClock(s: RuntimeState, key: ToolKey, invocation: Invocation)
    requires ClockInv(s) && LeaseInv(s) && key !in s.cache && s.counters.cacheHits < s.counters.requests
    ensures var r := ColdRead(s, key, invocation);
            && ClockInv(r.state) && r.state.limits == s.limits && r.state.lease == s.lease
            && r.rejection != Some(ArithmeticOverflow)
            && (r.rejection == Some(ExecutionBudget) ==> s.counters.executions >= s.limits.executions)
  {
    HardBounds(s);
    hide LeaseInv, AppendHistory, LimitsWithinHardBounds, LeasesApplied;
  }

  lemma HardBounds(s: RuntimeState)
    requires LimitsWithinHardBounds(s.limits) && LeaseInv(s)
    ensures s.limits.requests <= MAX_REQUESTS && s.limits.executions <= MAX_EXECUTIONS
            && s.limits.retries <= MAX_RETRIES
    ensures LeasesApplied(s) <= MAX_LEASES
  {
    hide IsWithin, Total;
  }

  /** A read never overflows; the execution budget refuses it only before the operation is invoked. */
  lemma ReadKeepsClock(s: RuntimeState, key: ToolKey, invocation: Invocation)
    requires ClockInv(s) && LeaseInv(s)
    ensures var r := Read(s, key, invocation);
            && ClockInv(r.state) && r.state.limits == s.limits && r.state.lease == s.lease
            && r.rejection != Some(ArithmeticOverflow)
            && (r.rejection == Some(ExecutionBudget) ==>
                key !in s.cache && s.counters.executions >= s.limits.executions)
  {
    hide ColdRead;
    var s1 := AddRequest(s);
    if s1.Success? && key !in s.cache {
      ColdReadKeepsClock(s1.value, key, invocation);
    }
  }

  /** What an accepted lease application is, and that no overflow refuses one. */
  lemma GrantPasses(s: RuntimeState, g: Grant, identityValid: bool)
    requires ClockInv(s) && LeaseInv(s)
    ensures ValidateLease(s, g, identityValid) != Failure(LeaseOverflow)
    ensures ValidateLease(s, g, identityValid).Success? ==>
              && s.lease.Some? && |s.lease.value.applied| < |s.lease.value.policy.schedule|
              && IsWithin(g.granted, s.lease.value.policy.schedule[|s.lease.value.applied|])
              && ValidateLease(s, g, identityValid).value == Plus(s.lease.value.cumulative, g.granted)
  {
    hide ClockInv, LeaseInv, ValidateAmount, IsWithin, Plus;
    if s.lease.Some? && |s.lease.value.applied| < |s.lease.value.policy.schedule|
       && IsWithin(g.granted, s.lease.value.policy.schedule[|s.lease.value.applied|]) {
      ScheduledGrantFits(s, g);
    }
  }

  lemma GrantKeepsClock(s: RuntimeState, g: Grant, identityValid: bool, seal: Option<Grant>)
    requires ClockInv(s) && LeaseInv(s)
    ensures ClockInv(ApplyGrant(s, g, identityValid, seal).0) && LeaseInv(ApplyGrant(s, g, identityValid, seal).0)
    ensures ApplyGrant(s, g, identityValid, seal).1 != Some(LeaseOverflow)
  {
    hide ValidateLease, IsWithin, PolicyAccepted;
    GrantPasses(s, g, identityValid);
    if ValidateLease(s, g, identityValid).Success? {
      ScheduledGrantFits(s, g);
      hide ValidateAmount, Total;
    }
  }

  lemma DispatchKeepsClock(s: RuntimeState, c: Call)
    requires ClockInv(s) && LeaseInv(s)
    ensures ClockInv(Dispatch(s, c).0) && LeaseInv(Dispatch(s, c).0)
    ensures var r := Dispatch(s, c).1;
            && (r.CallReceipt? ==> r.rejection != Some(ArithmeticOverflow))
            && (r.LeaseReceipt? ==> r.refusal != Some(LeaseOverflow))
  {
    hide Read, ApplyGrant, Delta;
    match c.command
    case ExecuteRead(_, key) => ReadKeepsClock(s, key, c.invocation);
    case RecordRetry(_) =>
    case ApplyLease(g, identityValid) => GrantKeepsClock(s, g, identityValid, c.seal);
    case Unparsed =>
  }

  ghost predicate RuntimeInv(s: RuntimeState) {
    ClockInv(s) && LeaseInv(s)
  }

  lemma {:induction false} RunKeepsClock(init: RuntimeState, calls: seq<Call>)
    requires FreshSession(init)
    ensures RuntimeInv(Run(init, calls))
  {
    hide Dispatch;
    if calls != [] {
      RunKeepsClock(init, calls[..|calls| - 1]);
      DispatchKeepsClock(Run(init, calls[..|calls| - 1]), calls[|calls| - 1]);
    }
  }

  // ----- The memo table -----

  /** What the first accepted read of a key returned. */
  ghost function FirstObservation(log: seq<Accepted>, key: ToolKey): Option<string> {
    if log == [] then None
    else
      var last := log[|log| - 1].transition;
      match FirstObservation(log[..|log| - 1], key)
      case Some(text) => Some(text)
      case None => if last.key == key then Some(last.observation) else None
  }

  ghost predicate MemoInv(cache: map<ToolKey, string>, log: seq<Accepted>) {
    && (forall k :: k in cache <==> FirstObservation(log, k).Some?)
    && (forall k :: k in cache ==> FirstObservation(log, k) == Some(cache[k]))
    && (forall i :: 0 <= i < |log| ==> EntryMatchesMemo(log, i))
  }

  /** Entry `i` returned the first observation of its key, and was cold exactly when it was the first. */
  ghost predicate EntryMatchesMemo(log: seq<Accepted>, i: nat)
    requires i < |log|
  {
    var t := log[i].transition;
    && FirstObservation(log, t.key) == Some(t.observation)
    && (log[i].status.ColdExecution? <==> FirstObservation(log[..i], t.key).None?)
  }

  lemma MemoExtends(cache: map<ToolKey, string>, log: seq<Accepted>, a: Accepted)
    requires MemoInv(cache, log)
    requires var t := a.transition;
             if t.key in cache then a.status.CacheHit? && cache[t.key] == t.observation else a.status.ColdExecution?
    ensures MemoInv(cache[a.transition.key := a.transition.observation], log + [a])
  {
    var log' := log + [a];
    assert log'[..|log|] == log;
    forall i | 0 <= i < |log'|
      ensures EntryMatchesMemo(log', i)
    {
      if i < |log| {
        assert EntryMatchesMemo(log, i);
        assert log'[..i] == log[..i];
      }
    }
  }

  // ----- The history window -----

  ghost predicate WindowInv(s: RuntimeState, log: seq<Accepted>, initial: nat) {
    && IsSuffix(s.history, Transitions(log))
    && |s.history| <= s.limits.history && initial <= s.limits.history
    && (|s.history| >= |log| || |s.history| >= initial)
  }

  /** What one accepted read does to cache, window and log. */
  ghost predicate ReadEffect(s: RuntimeState, s': RuntimeState, t: Transition, status: CacheStatus) {
    && s'.history == AppendHistory(s.history, s.limits.history, t) && s'.limits == s.limits
    && (if status.CacheHit? then t.key in s.cache && s.cache[t.key] == t.observation && s'.cache == s.cache
        else t.key !in s.cache && s'.cache == s.cache[t.key := t.observation])
  }

  lemma ReadIsLogged(s: RuntimeState, key: ToolKey, invocation: Invocation)
    ensures var r := Read(s, key, invocation);
            && (r.transition.Some? <==> r.status.Some?)
            && (r.transition.Some? <==> r.rejection.None?)
            && (r.transition.None? ==>
                r.state.cache == s.cache && r.state.history == s.history && r.state.limits == s.limits)
            && (r.transition.Some? ==>
                r.transition.value.key == key && ReadEffect(s, r.state, r.transition.value, r.status.value))
            && (r.status == Some(ColdExecution) ==> invocation == Observed(r.transition.value.observation))
  {}

  lemma SuffixExtends(window: seq<Transition>, full: seq<Transition>, limit: nat, t: Transition)
    requires IsSuffix(window, full) && |window| <= limit && 0 < limit
    ensures var window' := AppendHistory(window, limit, t);
            && IsSuffix(window', full + [t])
            && |window'| == if |window| == limit then limit else |window| + 1
  {
    var full' := full + [t];
    assert window + [t] == full'[|full| - |window|..];
    if |window| == limit {
      assert AppendHistory(window, limit, t) == (window + [t])[1..];
    }
  }

  lemma WindowExtends(s: RuntimeState, s': RuntimeState, log: seq<Accepted>, initial: nat, a: Accepted)
    requires WindowInv(s, log, initial) && 0 < s.limits.history
    requires s'.history == AppendHistory(s.history, s.limits.history, a.transition) && s'.limits == s.limits
    ensures WindowInv(s', log + [a], initial)
  {
    hide AppendHistory;
    assert Transitions(log + [a]) == Transitions(log) + [a.transition];
    SuffixExtends(s.history, Transitions(log), s.limits.history, a.transition);
  }

  lemma LogGrows(init: RuntimeState, calls: seq<Call>)
    requires calls != []
    ensures var prior := calls[..|calls| - 1];
            AcceptedLog(Trace(init, calls))
              == AcceptedLog(Trace(init, prior)) + Logged(Dispatch(Run(init, prior), calls[|calls| - 1]).1)
  {
    var prior := calls[..|calls| - 1];
    assert Trace(init, calls)[..|calls| - 1] == Trace(init, prior);
  }

  lemma LeaseKeepsReads(s: RuntimeState, g: Grant, identityValid: bool, seal: Option<Grant>)
    requires RuntimeInv(s)
    ensures var s' := ApplyGrant(s, g, identityValid, seal).0;
            s'.cache == s.cache && s'.history == s.history && s'.limits.history >= s.limits.history
  {
    if s.lease.Some? && |s.lease.value.applied| < |s.lease.value.policy.schedule|
       && IsWithin(g.granted, s.lease.value.policy.schedule[|s.lease.value.applied|]) {
      ScheduledGrantFits(s, g);
    }
  }

  lemma {:induction false} RunKeepsLog(init: RuntimeState, calls: seq<Call>)
    requires FreshSession(init)
    ensures var s, log := Run(init, calls), AcceptedLog(Trace(init, calls));
            MemoInv(s.cache, log) && WindowInv(s, log, init.limits.history)
  {
    hide Read, ApplyGrant, MemoInv, WindowInv, ReadEffect, RuntimeInv;
    if calls == [] {
      EmptyLogHolds(init);
    } else {
      var prior, call := calls[..|calls| - 1], calls[|calls| - 1];
      RunKeepsLog(init, prior);
      RunKeepsClock(init, prior);
      LogGrows(init, calls);
      LogStep(init.limits.history, Run(init, prior), AcceptedLog(Trace(init, prior)), call);
    }
  }

  lemma EmptyLogHolds(init: RuntimeState)
    requires FreshSession(init)
    ensures MemoInv(init.cache, []) && WindowInv(init, [], init.limits.history)
  {}

  lemma ReadLogStep(initial: nat, s: RuntimeState, log: seq<Accepted>, key: ToolKey, invocation: Invocation)
    requires RuntimeInv(s) && MemoInv(s.cache, log) && WindowInv(s, log, initial)
    ensures var r := Read(s, key, invocation);
            var log' := log + if r.transition.Some? && r.status.Some?
                              then [Accepted(r.transition.value, r.status.value)] else [];
            MemoInv(r.state.cache, log') && WindowInv(r.state, log', initial)
  {
    ReadIsLogged(s, key, invocation);
    hide Read, MemoInv, WindowInv, AppendHistory;
    var r := Read(s, key, invocation);
    if r.transition.Some? {
      var a := Accepted(r.transition.value, r.status.value);
      MemoExtends(s.cache, log, a);
      WindowExtends(s, r.state, log, initial, a);
      assert a.status.CacheHit? ==> s.cache[a.transition.key := a.transition.observation] == s.cache;
    } else {
      assert log + [] == log;
      WindowUnchanged(s, r.state, log, initial);
    }
  }

  lemma WindowUnchanged(s: RuntimeState, s': RuntimeState, log: seq<Accepted>, initial: nat)
    requires WindowInv(s, log, initial) && s'.history == s.history && s'.limits.history >= s.limits.history
    ensures WindowInv(s', log, initial)
  {}

  /** What a dispatch other than a read does to cache, window and log. */
  lemma NoReadNoLog(s: RuntimeState, call: Call)
    requires RuntimeInv(s) && !call.command.ExecuteRead?
    ensures var (s', r) := Dispatch(s, call);
            && Logged(r) == [] && s'.cache == s.cache && s'.history == s.history
            && s'.limits.history >= s.limits.history
  {
    hide Delta, ApplyGrant, RuntimeInv;
    if call.command.ApplyLease? {
      LeaseKeepsReads(s, call.command.grant, call.command.identityValid, call.seal);
    }
  }

  lemma ReadIsDispatched(s: RuntimeState, call: Call)
    requires call.command.ExecuteRead?
    ensures var (s', r) := Dispatch(s, call);
            var read := Read(s, call.command.key, call.invocation);
            && s' == read.state
            && Logged(r) == if read.transition.Some? && read.status.Some?
                            then [Accepted(read.transition.value, read.status.value)] else []
  {
    hide Delta, Read;
  }

  lemma LogStep(initial: nat, s: RuntimeState, log: seq<Accepted>, call: Call)
    requires RuntimeInv(s) && MemoInv(s.cache, log) && WindowInv(s, log, initial)
    ensures var (s', r) := Dispatch(s, call);
            MemoInv(s'.cache, log + Logged(r)) && WindowInv(s', log + Logged(r), initial)
  {
    hide Read, Dispatch, MemoInv, WindowInv, RuntimeInv, Logged;
    if call.command.ExecuteRead? {
      ReadIsDispatched(s, call);
      ReadLogStep(initial, s, log, call.command.key, call.invocation);
    } else {
      NoReadNoLog(s, call);
      assert log + [] == log;
      WindowUnchanged(s, Dispatch(s, call).0, log, initial);
    }
  }

  // ----- Main results -----

  /** The logical clock counts every counted event, and no reachable dispatch overflows. */
  lemma ClockCountsEverything(init: RuntimeState, calls: seq<Call>, next: Call)
    requires FreshSession(init)
    ensures var s := Run(init, calls);
            && s.counters.tick == s.counters.requests + s.counters.executions + s.counters.cacheHits + |s.cache|
                                  + s.counters.retries + LeasesApplied(s)
            && (Dispatch(s, next).1.CallReceipt? ==> Dispatch(s, next).1.rejection != Some(ArithmeticOverflow))
            && (Dispatch(s, next).1.LeaseReceipt? ==> Dispatch(s, next).1.refusal != Some(LeaseOverflow))
  {
    RunKeepsClock(init, calls);
    DispatchKeepsClock(Run(init, calls), next);
  }

  /** The capacity check inside the observation commit never refuses: the execution budget refuses earlier. */
  lemma CacheCapacityNeverRefuses(init: RuntimeState, calls: seq<Call>, key: ToolKey, text: string)
    requires FreshSession(init)
    ensures var s := Run(init, calls);
            match AddRequest(s)
            case Failure(why) => why == RequestBudget
            case Success(s1) =>
              match AddExecution(s1)
              case Failure(why) => why == ExecutionBudget && s.counters.executions == s.limits.executions
              case Success(s2) => CommitObservation(s2, Transition(key, text)).Success?
  {
    RunKeepsClock(init, calls);
  }

  /** All accepted reads of one key return one observation, and exactly the first of them executes. */
  lemma CacheRefinesMemoTable(init: RuntimeState, calls: seq<Call>, i: nat, j: nat)
    requires FreshSession(init)
    requires i <= j < |AcceptedLog(Trace(init, calls))|
    requires AcceptedLog(Trace(init, calls))[i].transition.key == AcceptedLog(Trace(init, calls))[j].transition.key
    ensures var log := AcceptedLog(Trace(init, calls));
            && log[i].transition == log[j].transition
            && (log[j].status.ColdExecution? <==>
                forall k :: 0 <= k < j ==> log[k].transition.key != log[j].transition.key)
            && (log[i].transition.key in Run(init, calls).cache
                && Run(init, calls).cache[log[i].transition.key] == log[i].transition.observation)
  {
    RunKeepsLog(init, calls);
    hide Run, Trace, AcceptedLog, FirstObservation;
    var log := AcceptedLog(Trace(init, calls));
    MemoReturnsFirst(Run(init, calls).cache, log, i, j);
  }

  lemma MemoReturnsFirst(cache: map<ToolKey, string>, log: seq<Accepted>, i: nat, j: nat)
    requires MemoInv(cache, log) && i <= j < |log| && log[i].transition.key == log[j].transition.key
    ensures log[i].transition == log[j].transition
    ensures log[j].status.ColdExecution? <==> forall k :: 0 <= k < j ==> log[k].transition.key != log[j].transition.key
    ensures log[i].transition.key in cache && cache[log[i].transition.key] == log[i].transition.observation
  {
    hide FirstObservation;
    assert EntryMatchesMemo(log, i) && EntryMatchesMemo(log, j);
    SeenIffObserved(log[..j], log[j].transition.key);
  }

  lemma {:induction false} SeenIffObserved(log: seq<Accepted>, key: ToolKey)
    ensures FirstObservation(log, key).None? <==> forall k :: 0 <= k < |log| ==> log[k].transition.key != key
  {
    if log != [] {
      SeenIffObserved(log[..|log| - 1], key);
      assert forall k :: 0 <= k < |log| - 1 ==> log[k] == log[..|log| - 1][k];
    }
  }

  /** Call `k` was an accepted cold read of `key` whose operation yielded exactly `text`. */
  ghost predicate ColdAt(init: RuntimeState, calls: seq<Call>, k: nat, key: ToolKey, text: string) {
    && k < |calls| && calls[k].command.ExecuteRead? && calls[k].command.key == key
    && calls[k].invocation == Observed(text)
    && Trace(init, calls)[k].CallReceipt? && Trace(init, calls)[k].cacheStatus == Some(ColdExecution)
  }

  /** Whatever the cache holds was yielded by an accepted cold read; failures and invalid results never enter it. */
  lemma {:induction false} CacheHoldsOnlyYieldedObservations(init: RuntimeState, calls: seq<Call>, key: ToolKey)
    returns (k: nat)
    requires FreshSession(init) && key in Run(init, calls).cache
    ensures ColdAt(init, calls, k, key, Run(init, calls).cache[key])
  {
    hide Read, ApplyGrant;
    var prior, call := calls[..|calls| - 1], calls[|calls| - 1];
    var s := Run(init, prior);
    RunKeepsClock(init, prior);
    if call.command.ExecuteRead? {
      ReadIsLogged(s, call.command.key, call.invocation);
    } else if call.command.ApplyLease? {
      LeaseKeepsReads(s, call.command.grant, call.command.identityValid, call.seal);
    }
    if key in s.cache && s.cache[key] == Run(init, calls).cache[key] {
      k := CacheHoldsOnlyYieldedObservations(init, prior, key);
    } else {
      k := |calls| - 1;
    }
  }

  /** The clock never goes back, and stands still only when nothing changed. */
  lemma DispatchAdvances(s: RuntimeState, c: Call)
    ensures Dispatch(s, c).0.counters.tick >= s.counters.tick
    ensures Dispatch(s, c).0.counters.tick == s.counters.tick ==> Dispatch(s, c).0 == s
  {}

  /** A state that the runtime has left never recurs. */
  lemma {:induction false} StatesNeverRecur(s: RuntimeState, calls: seq<Call>)
    ensures Run(s, calls).counters.tick >= s.counters.tick
    ensures Run(s, calls).counters.tick == s.counters.tick ==> Run(s, calls) == s
  {
    hide Dispatch;
    if calls != [] {
      StatesNeverRecur(s, calls[..|calls| - 1]);
      DispatchAdvances(Run(s, calls[..|calls| - 1]), calls[|calls| - 1]);
    }
  }
}

/**
 * What every dispatched command costs and answers, read off the receipts of the run before it: the counters count
 * receipts, the budgets and the memo decide, and a lease is refused for its first fault.
 */
module RuntimeOutcomes {
  import opened Common
  import opened LeaseRecords
  import opened ReadRuntime
  import opened ReadRuntimeRuns

  // ----- Counting receipts -----

  datatype Event = RequestTaken | Executed | HitTaken | RetryTaken | Stored | LeaseApplied

  /** Which receipts count as what. */
  predicate Counts(r: Receipt, e: Event) {
    match r
    case LeaseReceipt(_, _, _, _, refusal) => e.LeaseApplied? && refusal.None?
    case CallReceipt(command, _, _, _, rejection, cacheStatus, _) =>
      match e
      case RequestTaken => command.ExecuteRead? && rejection != Some(RequestBudget)
      case Executed =>
        command.ExecuteRead? && (cacheStatus == Some(ColdExecution) || rejection == Some(InvalidObservation)
                                 || rejection == Some(OperationFailed))
      case HitTaken => command.ExecuteRead? && cacheStatus == Some(CacheHit)
      case RetryTaken => command.RecordRetry? && rejection.None?
      case Stored => command.ExecuteRead? && cacheStatus == Some(ColdExecution)
      case LeaseApplied => false
  }

  function One(counts: bool): nat {
    if counts then 1 else 0
  }

  ghost function CountOf(trace: seq<Receipt>, e: Event): nat {
    if trace == [] then 0 else CountOf(trace[..|trace| - 1], e) + One(Counts(trace[|trace| - 1], e))
  }

  /** The state holds, in its counters, cache and lease, exactly these counts. */
  ghost predicate Holds(
    s: RuntimeState, requests: nat, executions: nat, hits: nat, retries: nat, stored: nat, leases: nat)
  {
    && s.counters == Counters(requests, executions, hits, retries,
                              requests + executions + hits + retries + stored + leases)
    && |s.cache| == stored && LeasesApplied(s) == leases
  }

  ghost predicate HoldsCounts(s: RuntimeState, trace: seq<Receipt>) {
    Holds(s, CountOf(trace, RequestTaken), CountOf(trace, Executed), CountOf(trace, HitTaken),
          CountOf(trace, RetryTaken), CountOf(trace, Stored), CountOf(trace, LeaseApplied))
  }

  /** One receipt adds what it counts. */
  ghost predicate Adds(s: RuntimeState, s': RuntimeState, r: Receipt) {
    && s'.counters.requests == s.counters.requests + One(Counts(r, RequestTaken))
    && s'.counters.executions == s.counters.executions + One(Counts(r, Executed))
    && s'.counters.cacheHits == s.counters.cacheHits + One(Counts(r, HitTaken))
    && s'.counters.retries == s.counters.retries + One(Counts(r, RetryTaken))
    && |s'.cache| == |s.cache| + One(Counts(r, Stored))
    && LeasesApplied(s') == LeasesApplied(s) + One(Counts(r, LeaseApplied))
    && s'.counters.tick == s.counters.tick + One(Counts(r, RequestTaken)) + One(Counts(r, Executed))
       + One(Counts(r, HitTaken)) + One(Counts(r, RetryTaken)) + One(Counts(r, Stored)) + One(Counts(r, LeaseApplied))
  }

  /** A read without its overflow and capacity checks. */
  function PlainRead(s: RuntimeState, key: ToolKey, invocation: Invocation): ReadResult {
    var n := s.counters;
    if n.requests >= s.limits.requests then Refused(s, RequestBudget)
    else if key in s.cache then
      var t := Transition(key, s.cache[key]);
      ReadResult(s.(counters := n.(requests := n.requests + 1, cacheHits := n.cacheHits + 1, tick := n.tick + 2),
                    history := AppendHistory(s.history, s.limits.history, t)), None, Some(CacheHit), Some(t))
    else if n.executions >= s.limits.executions then
      Refused(s.(counters := n.(requests := n.requests + 1, tick := n.tick + 1)), ExecutionBudget)
    else
      var ran := n.(requests := n.requests + 1, executions := n.executions + 1, tick := n.tick + 2);
      match invocation
      case ObservationInvalid => Refused(s.(counters := ran), InvalidObservation)
      case Failed => Refused(s.(counters := ran), OperationFailed)
      case Observed(text) =>
        var t := Transition(key, text);
        ReadResult(s.(counters := ran.(tick := n.tick + 3), cache := s.cache[key := text],
                      history := AppendHistory(s.history, s.limits.history, t)), None, Some(ColdExecution), Some(t))
  }

  lemma ReadIsPlain(s: RuntimeState, key: ToolKey, invocation: Invocation)
    requires RuntimeInv(s)
    ensures Read(s, key, invocation) == PlainRead(s, key, invocation)
  {
    HardBounds(s);
    hide LeaseInv, AppendHistory, LimitsWithinHardBounds;
  }

  lemma PlainReadAdds(s: RuntimeState, key: ToolKey, invocation: Invocation, command: Command, delta: Counters)
    requires command.ExecuteRead?
    ensures var r := PlainRead(s, key, invocation);
            Adds(s, r.state, CallReceipt(command, s, r.state, delta, r.rejection, r.status, r.transition))
  {
    hide AppendHistory;
  }

  lemma DispatchAdds(s: RuntimeState, c: Call)
    requires RuntimeInv(s)
    ensures Adds(s, Dispatch(s, c).0, Dispatch(s, c).1)
  {
    hide Read, PlainRead, RuntimeInv, Delta;
    match c.command
    case ExecuteRead(_, key) =>
      ReadIsPlain(s, key, c.invocation);
      PlainReadAdds(s, key, c.invocation, c.command, Dispatch(s, c).1.delta);
      hide Adds, ApplyGrant;
    case RecordRetry(_) =>
      RetryNeverOverflows(s);
      hide ApplyGrant;
    case ApplyLease(_, _) => hide ValidateLease, AddRetry;
    case Unparsed => hide ApplyGrant, AddRetry;
  }

  lemma RetryNeverOverflows(s: RuntimeState)
    requires RuntimeInv(s)
    ensures s.counters.retries < s.limits.retries ==> AddRetry(s).Success?
  {
    HardBounds(s);
    hide LeaseInv, LimitsWithinHardBounds;
  }

  lemma CountGrows(trace: seq<Receipt>, r: Receipt, e: Event)
    ensures CountOf(trace + [r], e) == CountOf(trace, e) + One(Counts(r, e))
  {
    hide Counts;
    assert (trace + [r])[..|trace|] == trace;
  }

  lemma HoldsGrows(s: RuntimeState, s': RuntimeState, trace: seq<Receipt>, r: Receipt)
    requires HoldsCounts(s, trace) && Adds(s, s', r)
    ensures HoldsCounts(s', trace + [r])
  {
    hide Counts, CountOf, LeasesApplied;
    CountGrows(trace, r, RequestTaken);
    CountGrows(trace, r, Executed);
    CountGrows(trace, r, HitTaken);
    CountGrows(trace, r, RetryTaken);
    CountGrows(trace, r, Stored);
    CountGrows(trace, r, LeaseApplied);
  }

  /** The counters of every run are counts of its receipts, and the clock is their sum. */
  lemma {:induction false} CountersCountReceipts(init: RuntimeState, calls: seq<Call>)
    requires FreshSession(init)
    ensures HoldsCounts(Run(init, calls), Trace(init, calls))
  {
    if calls == [] {
      FreshHolds(init);
    } else {
      hide Dispatch, RuntimeInv, HoldsCounts, Adds, FreshSession;
      var prior, last := calls[..|calls| - 1], calls[|calls| - 1];
      CountersCountReceipts(init, prior);
      RunKeepsClock(init, prior);
      DispatchAdds(Run(init, prior), last);
      HoldsGrows(Run(init, prior), Run(init, calls), Trace(init, prior), Dispatch(Run(init, prior), last).1);
    }
  }

  lemma FreshHolds(init: RuntimeState)
    requires FreshSession(init)
    ensures HoldsCounts(init, [])
  {}

  // ----- What the history decides -----

  /** Some accepted read of the key came before. */
  ghost predicate Seen(trace: seq<Receipt>, key: ToolKey) {
    exists k :: 0 <= k < |trace| && Reads(trace[k], key)
  }

  predicate Reads(r: Receipt, key: ToolKey) {
    r.CallReceipt? && r.command.ExecuteRead? && r.transition.Some? && r.transition.value.key == key
  }

  /** Why a command is rejected, from what was accepted before. */
  ghost function Verdict(trace: seq<Receipt>, limits: Limits, c: Call): Option<Reason>
    requires !c.command.ApplyLease?
  {
    match c.command
    case RecordRetry(_) => if CountOf(trace, RetryTaken) == limits.retries then Some(RetryBudget) else None
    case ExecuteRead(_, key) =>
      if CountOf(trace, RequestTaken) == limits.requests then Some(RequestBudget)
      else if Seen(trace, key) then None
      else if CountOf(trace, Executed) == limits.executions then Some(ExecutionBudget)
      else
        (match c.invocation
         case Observed(_) => None
         case ObservationInvalid => Some(InvalidObservation)
         case Failed => Some(OperationFailed))
    case Unparsed => Some(Malformed)
  }

  /** What an accepted read returns: the operation's text the first time, and what that returned ever after. */
  ghost predicate Returns(trace: seq<Receipt>, c: Call, r: Receipt)
    requires c.command.ExecuteRead? && r.CallReceipt?
  {
    var key := c.command.key;
    && r.cacheStatus == Some(if Seen(trace, key) then CacheHit else ColdExecution)
    && r.transition.Some?
    && (!Seen(trace, key) ==> c.invocation == Observed(r.transition.value.observation) && r.transition.value.key == key)
    && (forall k :: 0 <= k < |trace| && Reads(trace[k], key) ==> trace[k].transition == r.transition)
  }

  /** The receipt of a command other than a lease application, against the history. */
  ghost predicate Answers(trace: seq<Receipt>, s: RuntimeState, s': RuntimeState, c: Call, r: Receipt)
    requires !c.command.ApplyLease?
  {
    && r.CallReceipt? && r.command == c.command && r.before == s && r.after == s'
    && r.rejection == Verdict(trace, s.limits, c)
    && (if c.command.ExecuteRead? && r.rejection.None? then Returns(trace, c, r)
        else r.cacheStatus.None? && r.transition.None?)
    && s'.limits == s.limits && s'.lease == s.lease && s'.session == s.session
    && s.counters.requests + r.delta.requests == s'.counters.requests
    && s.counters.executions + r.delta.executions == s'.counters.executions
    && s.counters.cacheHits + r.delta.cacheHits == s'.counters.cacheHits
    && s.counters.retries + r.delta.retries == s'.counters.retries && s.counters.tick + r.delta.tick == s'.counters.tick
    && (r.rejection.Some? ==> s'.cache == s.cache && s'.history == s.history)
  }

  lemma {:induction false} CacheRecalls(init: RuntimeState, calls: seq<Call>, key: ToolKey)
    requires FreshSession(init)
    ensures Recalls(Trace(init, calls), Run(init, calls), key)
  {
    hide Read, ApplyGrant, RuntimeInv, Reads;
    if calls != [] {
      var prior, last := calls[..|calls| - 1], calls[|calls| - 1];
      CacheRecalls(init, prior, key);
      RunKeepsClock(init, prior);
      CacheStep(Run(init, prior), last, key);
      var t, t0 := Trace(init, calls), Trace(init, prior);
      assert t == t0 + [Dispatch(Run(init, prior), last).1];
      hide Run, Trace, Dispatch;
      if Seen(t0, key) {
        var k :| 0 <= k < |t0| && Reads(t0[k], key);
        assert Reads(t[k], key);
      }
      if Reads(t[|t0|], key) {
        assert Seen(t, key);
      }
      if Seen(t, key) && !Reads(t[|t0|], key) {
        var k :| 0 <= k < |t| && Reads(t[k], key);
        assert Reads(t0[k], key);
      }
    }
  }

  lemma CacheStep(s: RuntimeState, c: Call, key: ToolKey)
    requires RuntimeInv(s)
    ensures var (s', r) := Dispatch(s, c);
            && (key in s'.cache <==> key in s.cache || Reads(r, key))
            && (key in s.cache ==> s'.cache[key] == s.cache[key])
            && (Reads(r, key) ==> r.transition == Some(Transition(key, s'.cache[key])))
  {
    if c.command.ApplyLease? {
      LeaseKeepsReads(s, c.command.grant, c.command.identityValid, c.seal);
    } else if c.command.ExecuteRead? {
      ReadIsPlain(s, c.command.key, c.invocation);
    }
    hide RuntimeInv, Read, ApplyGrant, Delta, AppendHistory;
  }

  /** Everything a command's receipt says follows from the receipts before it. */
  lemma ReceiptsFollowTheHistory(init: RuntimeState, calls: seq<Call>, c: Call)
    requires FreshSession(init) && !c.command.ApplyLease?
    ensures var s := Run(init, calls);
            Answers(Trace(init, calls), s, Dispatch(s, c).0, c, Dispatch(s, c).1)
  {
    CountersCountReceipts(init, calls);
    RunKeepsClock(init, calls);
    if c.command.ExecuteRead? {
      CacheRecalls(init, calls, c.command.key);
    }
    hide Run, Trace, CountOf, Recalls, HoldsCounts, RuntimeInv, Answers, Dispatch;
    StepAnswers(Trace(init, calls), Run(init, calls), c);
  }

  lemma StepAnswers(trace: seq<Receipt>, s: RuntimeState, c: Call)
    requires RuntimeInv(s) && HoldsCounts(s, trace) && !c.command.ApplyLease?
    requires c.command.ExecuteRead? ==> Recalls(trace, s, c.command.key)
    ensures Answers(trace, s, Dispatch(s, c).0, c, Dispatch(s, c).1)
  {
    hide CountOf, LeaseInv, Read, ApplyGrant, LimitsWithinHardBounds, PlainRead, Returns, Recalls;
    match c.command
    case ExecuteRead(_, key) =>
      ReadIsPlain(s, key, c.invocation);
      PlainReadAnswers(trace, s, c, Dispatch(s, c).1.delta);
      hide Answers, RuntimeInv, HoldsCounts;
    case RecordRetry(_) => RetryNeverOverflows(s);
    case Unparsed =>
  }

  /** The cache of the state holds what the accepted reads of the key returned. */
  ghost predicate Recalls(trace: seq<Receipt>, s: RuntimeState, key: ToolKey) {
    && (Seen(trace, key) <==> key in s.cache)
    && (forall k :: 0 <= k < |trace| && Reads(trace[k], key) ==>
          key in s.cache && trace[k].transition == Some(Transition(key, s.cache[key])))
  }

  lemma PlainReadAnswers(trace: seq<Receipt>, s: RuntimeState, c: Call, delta: Counters)
    requires RuntimeInv(s) && HoldsCounts(s, trace) && c.command.ExecuteRead? && Recalls(trace, s, c.command.key)
    requires var n := PlainRead(s, c.command.key, c.invocation).state.counters;
             && s.counters.requests + delta.requests == n.requests
             && s.counters.executions + delta.executions == n.executions
             && s.counters.cacheHits + delta.cacheHits == n.cacheHits
             && s.counters.retries + delta.retries == n.retries && s.counters.tick + delta.tick == n.tick
    ensures var r := PlainRead(s, c.command.key, c.invocation);
            Answers(trace, s, r.state, c,
                    CallReceipt(c.command, s, r.state, delta, r.rejection, r.status, r.transition))
  {
    hide CountOf, LeaseInv, AppendHistory, LimitsWithinHardBounds, Reads, Seen;
  }

  // ----- Lease refusals -----

  /** The checks of a lease application, in order. */
  datatype LeaseCheck =
    | HasLedger | IdentityHolds | SameGovernance | SamePolicy | SameRuntime | NextIndex | NotEmpty | NoMutation
    | ScheduleLeft | WithinSchedule | RightTotal | Sealed

  predicate LeaseFails(s: RuntimeState, g: Grant, identityValid: bool, seal: Option<Grant>, check: LeaseCheck) {
    if s.lease.None? then check.HasLedger?
    else
      var l := s.lease.value;
      match check
      case HasLedger => false
      case IdentityHolds => !identityValid
      case SameGovernance => g.binding != l.binding
      case SamePolicy => g.policy != l.policy || g.policyReceipt != l.policyReceipt || g.ceiling != l.policy.ceiling
      case SameRuntime => g.runtimeSession != s.session || g.priorRuntime != s
      case NextIndex => g.leaseIndex != |l.applied| + 1 || g in l.applied
      case NotEmpty => g.granted == ZERO
      case NoMutation => g.granted.mutations != 0
      case ScheduleLeft => |l.applied| == |l.policy.schedule|
      case WithinSchedule =>
        |l.applied| < |l.policy.schedule| && !IsWithin(g.granted, l.policy.schedule[|l.applied|])
      case RightTotal => g.cumulative != Plus(l.cumulative, g.granted)
      case Sealed => seal != Some(g)
  }

  function ReasonOf(check: LeaseCheck): LeaseReason {
    match check
    case HasLedger => ContinuationDisabled
    case IdentityHolds => GrantIdentityMismatch
    case SameGovernance => StaleGovernanceGrant
    case SamePolicy => PolicyMismatch
    case SameRuntime => StaleRuntimeGrant
    case NextIndex => LeaseIndexRejected
    case NotEmpty => ScheduleExceeded
    case NoMutation => UnsupportedGrant
    case ScheduleLeft => LeaseIndexRejected
    case WithinSchedule => ScheduleExceeded
    case RightTotal => CeilingExceeded
    case Sealed => UnissuedGrant
  }

  function Rank(check: LeaseCheck): nat {
    match check
    case HasLedger => 0
    case IdentityHolds => 1
    case SameGovernance => 2
    case SamePolicy => 3
    case SameRuntime => 4
    case NextIndex => 5
    case NotEmpty => 6
    case NoMutation => 7
    case ScheduleLeft => 8
    case WithinSchedule => 9
    case RightTotal => 10
    case Sealed => 11
  }

  /** `check` fails, and no check before it does. */
  ghost predicate IsFirstFailure(
    s: RuntimeState, g: Grant, identityValid: bool, seal: Option<Grant>, check: LeaseCheck)
  {
    && LeaseFails(s, g, identityValid, seal, check)
    && forall other :: LeaseFails(s, g, identityValid, seal, other) ==> Rank(check) <= Rank(other)
  }

  /** What an applied grant changes: the limits and the running total by its amount, the clock by one. */
  predicate Raised(s: RuntimeState, s': RuntimeState, g: Grant) {
    s.lease.Some? &&
    var l, m := s.lease.value, s.limits;
    s' == s.(limits := Limits(m.requests + g.granted.requests, m.executions + g.granted.executions,
                              m.retries + g.granted.retries, m.history + g.granted.history),
             counters := s.counters.(tick := s.counters.tick + 1),
             lease := Some(l.(cumulative := Plus(l.cumulative, g.granted), applied := l.applied + [g])))
  }

  /** A lease application as the history and the schedule decide it. */
  ghost predicate LeaseAnswers(s: RuntimeState, s': RuntimeState, c: Call, r: Receipt)
    requires c.command.ApplyLease?
  {
    var g, valid := c.command.grant, c.command.identityValid;
    && r.LeaseReceipt? && r.command == c.command && r.before == s && r.after == s'
    && match r.refusal
       case None =>
         && (forall check :: !LeaseFails(s, g, valid, c.seal, check))
         && Raised(s, s', g) && r.limitDelta == g.granted
       case Some(why) =>
         && (exists check :: IsFirstFailure(s, g, valid, c.seal, check) && why == ReasonOf(check))
         && s' == s && r.limitDelta == ZERO
  }

  /** In every run a grant is applied exactly when no check fails, and refused for the first that does. */
  lemma LeasesFollowTheSchedule(init: RuntimeState, calls: seq<Call>, c: Call)
    requires FreshSession(init) && c.command.ApplyLease?
    ensures var s := Run(init, calls);
            LeaseAnswers(s, Dispatch(s, c).0, c, Dispatch(s, c).1)
  {
    RunKeepsClock(init, calls);
    hide Run, Dispatch, LeaseAnswers;
    LeaseStep(Run(init, calls), c);
  }

  lemma LeaseStep(s: RuntimeState, c: Call)
    requires RuntimeInv(s) && c.command.ApplyLease?
    ensures LeaseAnswers(s, Dispatch(s, c).0, c, Dispatch(s, c).1)
  {
    var g, valid := c.command.grant, c.command.identityValid;
    ValidationIsFirstCheck(s, g, valid, c.seal);
    forall other ensures ComesFirst(s, g, valid, c.seal, other) {
      FirstCheckComesFirst(s, g, valid, c.seal, other);
    }
    if s.lease.Some? {
      assert LimitsMatch(s.limits, Plus(s.lease.value.policy.initial, s.lease.value.cumulative));
    }
    hide RuntimeInv, ValidateLease, FirstCheck, LeaseFails, IsFirstFailure, LimitsMatch;
    match FirstCheck(s, g, valid, c.seal)
    case Some(check) =>
      FirstIsFirst(s, g, valid, c.seal, check);
    case None =>
  }

  lemma FirstIsFirst(s: RuntimeState, g: Grant, valid: bool, seal: Option<Grant>, check: LeaseCheck)
    requires FirstCheck(s, g, valid, seal) == Some(check)
    requires forall other :: ComesFirst(s, g, valid, seal, other)
    ensures IsFirstFailure(s, g, valid, seal, check)
  {
    hide LeaseFails, FirstCheck, Rank;
    assert ComesFirst(s, g, valid, seal, check);
    forall other | LeaseFails(s, g, valid, seal, other) ensures Rank(check) <= Rank(other) {
      assert ComesFirst(s, g, valid, seal, other);
    }
  }

  /** The first failing check, in order. */
  function FirstCheck(s: RuntimeState, g: Grant, valid: bool, seal: Option<Grant>): Option<LeaseCheck> {
    if LeaseFails(s, g, valid, seal, HasLedger) then Some(HasLedger)
    else if LeaseFails(s, g, valid, seal, IdentityHolds) then Some(IdentityHolds)
    else if LeaseFails(s, g, valid, seal, SameGovernance) then Some(SameGovernance)
    else if LeaseFails(s, g, valid, seal, SamePolicy) then Some(SamePolicy)
    else if LeaseFails(s, g, valid, seal, SameRuntime) then Some(SameRuntime)
    else if LeaseFails(s, g, valid, seal, NextIndex) then Some(NextIndex)
    else if LeaseFails(s, g, valid, seal, NotEmpty) then Some(NotEmpty)
    else if LeaseFails(s, g, valid, seal, NoMutation) then Some(NoMutation)
    else if LeaseFails(s, g, valid, seal, ScheduleLeft) then Some(ScheduleLeft)
    else if LeaseFails(s, g, valid, seal, WithinSchedule) then Some(WithinSchedule)
    else if LeaseFails(s, g, valid, seal, RightTotal) then Some(RightTotal)
    else if LeaseFails(s, g, valid, seal, Sealed) then Some(Sealed)
    else None
  }

  predicate ComesFirst(s: RuntimeState, g: Grant, valid: bool, seal: Option<Grant>, other: LeaseCheck) {
    match FirstCheck(s, g, valid, seal)
    case None => !LeaseFails(s, g, valid, seal, other)
    case Some(check) =>
      LeaseFails(s, g, valid, seal, check) && (LeaseFails(s, g, valid, seal, other) ==> Rank(check) <= Rank(other))
  }

  lemma FirstCheckComesFirst(s: RuntimeState, g: Grant, valid: bool, seal: Option<Grant>, other: LeaseCheck)
    ensures ComesFirst(s, g, valid, seal, other)
  {
    hide LeaseFails;
  }

  /** The validation fails for the first check, but for the seal, which is looked at last. */
  predicate Validates(s: RuntimeState, g: Grant, valid: bool, seal: Option<Grant>) {
    match FirstCheck(s, g, valid, seal)
    case None => seal == Some(g) && s.lease.Some?
                 && ValidateLease(s, g, valid) == Success(Plus(s.lease.value.cumulative, g.granted))
    case Some(check) =>
      if check.Sealed? then s.lease.Some? && seal != Some(g) && ValidateLease(s, g, valid).Success?
      else ValidateLease(s, g, valid) == Failure(ReasonOf(check))
  }

  lemma ValidationIsFirstCheck(s: RuntimeState, g: Grant, valid: bool, seal: Option<Grant>)
    requires RuntimeInv(s)
    ensures Validates(s, g, valid, seal)
  {
    hide *;
    if NamesTheLedger(s, g, valid) {
      AmountIsFirstCheck(s, g, valid, seal);
    } else {
      NameIsFirstCheck(s, g, valid, seal);
    }
  }

  /** The checks before the amount's. */
  predicate NamesTheLedger(s: RuntimeState, g: Grant, valid: bool) {
    s.lease.Some? &&
    var l := s.lease.value;
    && valid && g.binding == l.binding
    && g.policy == l.policy && g.policyReceipt == l.policyReceipt && g.ceiling == l.policy.ceiling
    && g.runtimeSession == s.session && g.priorRuntime == s
  }

  lemma NameIsFirstCheck(s: RuntimeState, g: Grant, valid: bool, seal: Option<Grant>)
    requires !NamesTheLedger(s, g, valid)
    ensures Validates(s, g, valid, seal)
  {
    hide ValidateAmount, IsWithin, Plus;
  }

  lemma AmountIsFirstCheck(s: RuntimeState, g: Grant, valid: bool, seal: Option<Grant>)
    requires RuntimeInv(s) && NamesTheLedger(s, g, valid)
    ensures Validates(s, g, valid, seal)
  {
    AmountValidates(s, g, valid);
    AmountChecks(s, g, valid, seal);
    hide RuntimeInv, ValidateLease, IsWithin, Plus, LeaseFails;
  }

  lemma AmountChecks(s: RuntimeState, g: Grant, valid: bool, seal: Option<Grant>)
    requires NamesTheLedger(s, g, valid) && |s.lease.value.applied| <= |s.lease.value.policy.schedule|
    ensures !LeaseFails(s, g, valid, seal, HasLedger) && !LeaseFails(s, g, valid, seal, IdentityHolds)
    ensures !LeaseFails(s, g, valid, seal, SameGovernance) && !LeaseFails(s, g, valid, seal, SamePolicy)
    ensures !LeaseFails(s, g, valid, seal, SameRuntime)
    ensures var l := s.lease.value;
            && (LeaseFails(s, g, valid, seal, NextIndex) <==> g.leaseIndex != |l.applied| + 1 || g in l.applied)
            && (LeaseFails(s, g, valid, seal, NotEmpty) <==> g.granted == ZERO)
            && (LeaseFails(s, g, valid, seal, NoMutation) <==> g.granted.mutations != 0)
            && (LeaseFails(s, g, valid, seal, ScheduleLeft) <==> |l.applied| == |l.policy.schedule|)
            && (|l.applied| < |l.policy.schedule| ==>
                  (LeaseFails(s, g, valid, seal, WithinSchedule) <==>
                     !IsWithin(g.granted, l.policy.schedule[|l.applied|])))
            && (LeaseFails(s, g, valid, seal, RightTotal) <==> g.cumulative != Plus(l.cumulative, g.granted))
            && (LeaseFails(s, g, valid, seal, Sealed) <==> seal != Some(g))
  {
    hide IsWithin, Plus;
  }

  lemma AmountValidates(s: RuntimeState, g: Grant, valid: bool)
    requires RuntimeInv(s) && NamesTheLedger(s, g, valid)
    ensures var l := s.lease.value;
            ValidateLease(s, g, valid) ==
            if g.leaseIndex != |l.applied| + 1 || g in l.applied then Failure(LeaseIndexRejected)
            else if g.granted == ZERO then Failure(ScheduleExceeded)
            else if g.granted.mutations != 0 then Failure(UnsupportedGrant)
            else if |l.applied| == |l.policy.schedule| then Failure(LeaseIndexRejected)
            else if !IsWithin(g.granted, l.policy.schedule[|l.applied|]) then Failure(ScheduleExceeded)
            else if g.cumulative != Plus(l.cumulative, g.granted) then Failure(CeilingExceeded)
            else Success(Plus(l.cumulative, g.granted))
  {
    if |s.lease.value.applied| < |s.lease.value.policy.schedule|
       && IsWithin(g.granted, s.lease.value.policy.schedule[|s.lease.value.applied|]) {
      ScheduledGrantFits(s, g);
    }
    hide ClockInv, ValidateAmount, IsWithin, PolicyAccepted, Total, Plus;
  }
}

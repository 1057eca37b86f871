/**
 * The acceptance rules that the Python side states independently for effect snapshots and receipts,
 * and the proof that the native ledger meets them in every run.
 */
module EffectValidators {
  import opened Authority
  import opened Common
  import opened EffectLedger
  import opened EffectRuns

  /** `_counters`. */
  predicate CountersValid(n: Counters, caps: Limits) {
    && n.requests <= caps.requests && n.executions <= caps.executions
    && n.retries <= caps.retries && n.reconciliations <= caps.reconciliations
    && n.executions + n.reconciliations <= n.requests
    && n.retries <= n.executions
  }

  const HARD_CAPS := Limits(MAX_REQUESTS, MAX_ATTEMPTS, MAX_ATTEMPTS, MAX_ATTEMPTS)

  function TotalAttempts(os: seq<Occurrence>): nat {
    if os == [] then 0 else TotalAttempts(os[..|os| - 1]) + os[|os| - 1].attempts
  }

  function EverAttempted(os: seq<Occurrence>): nat {
    if os == [] then 0 else EverAttempted(os[..|os| - 1]) + if os[|os| - 1].attempts > 0 then 1 else 0
  }

  predicate OccurrenceValid(o: Occurrence) {
    && o.attempts <= MAX_OUTCOMES
    && (o.status.Cancelled? ==> o.cancelRequested)
    && (o.status.Pending? || o.status.Applied? || o.status.NotApplied? ==> !o.cancelRequested)
    && (if o.status.Pending? then o.attempts == 0 && o.lastEvent.None? && !o.cancelRequested
        else o.lastEvent.Some? && (o.attempts > 0 || o.status.Cancelled?))
  }

  /** `_validate_snapshot`, apart from field types and name grammar. */
  predicate SnapshotValid(s: Snapshot) {
    && LimitsOk(s.limits)
    && CountersValid(s.counters, s.limits)
    && |s.cells| <= MAX_ENTRIES
    && (forall k :: k in s.cells ==> IsI64(s.cells[k]))
    && 1 <= |s.occurrences| <= MAX_ENTRIES
    && (forall i, j :: 0 <= i < j < |s.occurrences| ==>
          && s.occurrences[i].actionId != s.occurrences[j].actionId
          && s.occurrences[i].occurrenceKey != s.occurrences[j].occurrenceKey)
    && s.generation == s.logicalTick == s.counters.requests
    && TotalAttempts(s.occurrences) == s.counters.executions
    && s.counters.retries == s.counters.executions - EverAttempted(s.occurrences)
    && (forall i :: 0 <= i < |s.occurrences| ==> OccurrenceValid(s.occurrences[i]))
  }

  predicate ObservationValid(o: Option<Observation>, r: Receipt) {
    o.Some? ==>
      && o.value.session == r.id.session && o.value.actionId == r.actionId
      && o.value.occurrenceKey == r.occurrenceKey && o.value.attempt == r.attempt
      && IsI64(o.value.value)
  }

  predicate ExecutionReceiptValid(r: Receipt) {
    && (r.status.Applied? || r.status.NotApplied? || r.status.Ambiguous?) && r.pre.Some?
    && (r.kind.ExecuteEffect? ==> r.attempt == 1 && r.recoveryOf.None?)
    && (r.kind.RetryEffect? ==> r.attempt >= 2 && r.recoveryOf.Some?)
    && if r.status.Ambiguous? then r.post.None? && r.failure == Some(AcknowledgementLost)
       else
         && r.post.Some?
         && if r.status.NotApplied? then
              && (r.failure == Some(SyntheticFailureBefore) || r.failure == Some(PreconditionMismatch))
              && r.pre.value.value == r.post.value.value
            else r.failure.None?
  }

  predicate ReconcileReceiptValid(r: Receipt) {
    && r.pre.None? && r.recoveryOf.Some?
    && if r.status.Ambiguous? then r.post.None? && r.failure == Some(ReconciliationUnknown)
       else (r.status.ReconciledApplied? || r.status.ReconciledNotApplied?) && r.post.Some? && r.failure.None?
  }

  predicate CancelReceiptValid(r: Receipt) {
    && (r.status.Cancelled? || r.status.Ambiguous?) && r.cancelRequested
    && r.pre.None? && r.post.None? && r.failure.None?
  }

  predicate StatusClaimValid(r: Receipt) {
    match r.status
    case Ambiguous => r.effectApplied.None? && r.ambiguous
    case Applied => r.effectApplied == Some(true) && !r.ambiguous
    case ReconciledApplied => r.effectApplied == Some(true) && !r.ambiguous
    case Pending => false
    case _ => r.effectApplied == Some(false) && !r.ambiguous
  }

  predicate AccountingValid(r: Receipt) {
    && CountersValid(r.counters, HARD_CAPS)
    && r.logicalTick == r.counters.requests && r.logicalTick != 0
    && r.attempt <= MAX_OUTCOMES
    && (r.attempt == 0 ==> r.status.Cancelled?)
    && r.attempt <= r.counters.executions
    && (r.attempt > 0 ==> r.attempt - 1 <= r.counters.retries)
    && (r.status.Applied? || r.status.NotApplied? ==> !r.cancelRequested)
    && (r.kind.ReconcileEffect? ==> r.counters.reconciliations != 0)
    && (r.kind.CancelEffect? ==> r.counters.executions + r.counters.reconciliations != r.counters.requests)
  }

  predicate EvidenceValid(r: Receipt) {
    && ObservationValid(r.pre, r) && ObservationValid(r.post, r)
    && (r.pre.Some? ==> r.pre.value.phase == Before)
    && (r.post.Some? ==> r.post.value.phase == if r.kind.ReconcileEffect? then Reconciliation else After)
    && (r.pre.Some? && r.post.Some? ==> r.pre.value.key == r.post.value.key)
    && match r.kind
       case ExecuteEffect => ExecutionReceiptValid(r)
       case RetryEffect => ExecutionReceiptValid(r)
       case ReconcileEffect => ReconcileReceiptValid(r)
       case CancelEffect => CancelReceiptValid(r)
       case UnknownFamily => false
  }

  /** The command and event identities must cover the receipt's own fields. */
  predicate IdentityValid(r: Receipt) {
    && r.priorState != r.resultingState
    && r.command == Command(r.kind, r.id.session, r.priorState, r.actionId, r.occurrenceKey)
    && r.event == Event(r.command, r.logicalTick, r.actionId, r.occurrenceKey, r.attempt, r.status,
                        r.effectApplied, r.pre, r.post, r.failure, r.cancelRequested)
  }

  /** `_validate_receipt`, apart from field types and name grammar. */
  predicate ReceiptValid(r: Receipt) {
    StatusClaimValid(r) && AccountingValid(r) && EvidenceValid(r) && IdentityValid(r)
  }

  /** Valid receipts of one event say the same of everything the event covers, and their states differ from it. */
  lemma EventFixesTheReceipt(r: Receipt, q: Receipt)
    requires ReceiptValid(r) && ReceiptValid(q) && r.event == q.event
    ensures r.command == q.command && r.kind == q.kind && r.id.session == q.id.session && r.priorState == q.priorState
    ensures r.actionId == q.actionId && r.occurrenceKey == q.occurrenceKey && r.attempt == q.attempt
    ensures r.status == q.status && r.effectApplied == q.effectApplied && r.ambiguous == q.ambiguous
    ensures r.pre == q.pre && r.post == q.post && r.failure == q.failure
    ensures r.cancelRequested == q.cancelRequested && r.logicalTick == q.logicalTick
    ensures r.counters.requests == q.counters.requests
  {
    hide EvidenceValid, CountersValid;
  }

  // ----- Agreement -----

  lemma TotalsAgree(entries: seq<Entry>, os: seq<Occurrence>)
    requires |entries| == |os| && forall i :: 0 <= i < |os| ==> os[i] == OccurrenceOf(entries[i])
    ensures TotalAttempts(os) == SumAttempts(entries) && EverAttempted(os) == CountAttempted(entries)
  {
    if os != [] {
      TotalsAgree(entries[..|entries| - 1], os[..|os| - 1]);
    }
  }

  lemma AttemptsWithinTotals(entries: seq<Entry>, i: nat)
    requires i < |entries|
    ensures entries[i].attempts <= SumAttempts(entries)
    ensures CountAttempted(entries) <= SumAttempts(entries)
    ensures entries[i].attempts > 0 ==> entries[i].attempts - 1 <= SumAttempts(entries) - CountAttempted(entries)
  {
    var n := |entries| - 1;
    if n > 0 {
      AttemptsWithinTotals(entries[..n], if i < n then i else 0);
    }
  }

  /** Every state the ledger reaches passes the independent snapshot rules. */
  lemma ReachableSnapshotsValid(init: Ledger, inputs: seq<Input>, epoch: AuthorityEpoch)
    requires Initial(init)
    ensures KeysDeclared(init) && SnapshotValid(SnapshotOf(Run(init, inputs), epoch))
  {
    RunKeeps(init, inputs);
    var l := Run(init, inputs);
    var s := SnapshotOf(l, epoch);
    TotalsAgree(l.entries, s.occurrences);
    AttemptsWithinTotals(l.entries, 0);
    assert l.cells.Keys == init.cells.Keys && |l.cells.Keys| == |init.cells.Keys|;
    forall i | 0 <= i < |s.occurrences|
      ensures OccurrenceValid(s.occurrences[i])
    {
      assert EntryOk(l.entries[i]) && DeclarationOk(init.entries[i].decl, init.cells);
    }
    forall i, j | 0 <= i < j < |s.occurrences|
      ensures s.occurrences[i].actionId != s.occurrences[j].actionId
      ensures s.occurrences[i].occurrenceKey != s.occurrences[j].occurrenceKey
    {
      assert l.entries[i].decl == init.entries[i].decl && l.entries[j].decl == init.entries[j].decl;
    }
  }

  ghost function Emitted(l: Ledger, i: nat, c: Command, m: Move, epoch: AuthorityEpoch): Receipt
    requires i < |l.entries|
  {
    ReceiptOf(Commit(l, i, c, m), i, c, EvidenceOf(l.id.session, m), epoch, SnapshotOf(l, epoch),
              l.entries[i].lastEvent)
  }

  /** The claim a transition makes is the one its status stands for. */
  predicate MoveClaims(m: Move) {
    match m.entry.status
    case Ambiguous => m.applied.None?
    case Applied => m.applied == Some(true)
    case ReconciledApplied => m.applied == Some(true)
    case Pending => false
    case _ => m.applied == Some(false)
  }

  lemma MovesClaim(l: Ledger, i: nat, kind: CommandKind, m: Move)
    requires KeysDeclared(l) && Permitted(l, i, kind) && EntryOk(l.entries[i]) && MoveOf(l, i, kind) == Success(m)
    ensures MoveClaims(m)
  {}

  lemma ClaimHolds(l: Ledger, i: nat, c: Command, m: Move, epoch: AuthorityEpoch)
    requires KeysDeclared(l) && Permitted(l, i, c.kind) && EntryOk(l.entries[i]) && MoveOf(l, i, c.kind) == Success(m)
    ensures StatusClaimValid(Emitted(l, i, c, m, epoch))
  {
    hide MoveOf, CheckExecution, EntryOk, SnapshotOf, EventOf;
    MovesClaim(l, i, c.kind, m);
  }

  lemma AccountingHolds(init: Ledger, l: Ledger, i: nat, c: Command, m: Move, epoch: AuthorityEpoch)
    requires KeysDeclared(l) && Permitted(l, i, c.kind)
    requires EntryOk(l.entries[i]) && DeclarationOk(l.entries[i].decl, init.cells) && Summary(l, i, m)
             && MoveOf(l, i, c.kind) == Success(m)
    requires Accounted(l) && Accounted(Commit(l, i, c, m)) && LimitsOk(l.limits) && l.generation == l.counters.requests
    ensures AccountingValid(Emitted(l, i, c, m, epoch))
  {
    AttemptsWithinTotals(Commit(l, i, c, m).entries, i);
  }

  lemma ExecutionEvidence(l: Ledger, i: nat, c: Command, m: Move, epoch: AuthorityEpoch)
    requires KeysDeclared(l) && Permitted(l, i, c.kind) && Summary(l, i, m) && MoveOf(l, i, c.kind) == Success(m)
    requires c.kind.ExecuteEffect? || c.kind.RetryEffect?
    requires EntryOk(l.entries[i]) && IsI64(l.cells[l.entries[i].decl.key])
    ensures EvidenceValid(Emitted(l, i, c, m, epoch))
  {
    hide SnapshotOf, EventOf, JournalMatches;
  }

  lemma ReconcileEvidence(l: Ledger, i: nat, c: Command, m: Move, epoch: AuthorityEpoch)
    requires KeysDeclared(l) && Permitted(l, i, c.kind) && MoveOf(l, i, c.kind) == Success(m) && c.kind.ReconcileEffect?
    requires EntryOk(l.entries[i]) && JournalMatches(l.entries[i], l.cells[l.entries[i].decl.key])
    requires IsI64(l.cells[l.entries[i].decl.key])
    ensures EvidenceValid(Emitted(l, i, c, m, epoch))
  {
    hide SnapshotOf, EventOf;
  }

  lemma CancelEvidence(l: Ledger, i: nat, c: Command, m: Move, epoch: AuthorityEpoch)
    requires KeysDeclared(l) && Permitted(l, i, c.kind) && MoveOf(l, i, c.kind) == Success(m) && c.kind.CancelEffect?
    ensures EvidenceValid(Emitted(l, i, c, m, epoch))
  {
    hide SnapshotOf, EventOf;
  }

  lemma EvidenceHolds(l: Ledger, i: nat, c: Command, m: Move, epoch: AuthorityEpoch)
    requires KeysDeclared(l) && Permitted(l, i, c.kind) && Summary(l, i, m) && MoveOf(l, i, c.kind) == Success(m)
    requires EntryOk(l.entries[i]) && JournalMatches(l.entries[i], l.cells[l.entries[i].decl.key])
    requires IsI64(l.cells[l.entries[i].decl.key])
    ensures EvidenceValid(Emitted(l, i, c, m, epoch))
  {
    hide MoveOf, Emitted, EvidenceValid, Summary, EntryOk, JournalMatches, CheckExecution;
    match c.kind
    case ExecuteEffect => ExecutionEvidence(l, i, c, m, epoch);
    case RetryEffect => ExecutionEvidence(l, i, c, m, epoch);
    case ReconcileEffect => ReconcileEvidence(l, i, c, m, epoch);
    case CancelEffect => CancelEvidence(l, i, c, m, epoch);
  }

  lemma IdentityHolds(l: Ledger, i: nat, c: Command, m: Move, epoch: AuthorityEpoch)
    requires KeysDeclared(l) && CheckCommand(l, c, epoch) == Success(i) && m.entry.decl == l.entries[i].decl
    ensures IdentityValid(Emitted(l, i, c, m, epoch))
  {
    assert Commit(l, i, c, m).generation != l.generation;
  }

  /** Every receipt the ledger emits passes the independent receipt rules. */
  lemma EmittedReceiptsValid(init: Ledger, inputs: seq<Input>, c: Command, epoch: AuthorityEpoch)
    requires Initial(init) && KeysDeclared(init)
    requires Dispatch(Run(init, inputs), c, epoch).Success?
    ensures ReceiptValid(Dispatch(Run(init, inputs), c, epoch).value.1)
  {
    RunKeeps(init, inputs);
    StepReceiptValid(init, Run(init, inputs), c, epoch);
  }

  lemma StepReceiptValid(init: Ledger, l: Ledger, c: Command, epoch: AuthorityEpoch)
    requires KeysDeclared(l) && Inv(init, l) && Dispatch(l, c, epoch).Success?
    ensures ReceiptValid(Dispatch(l, c, epoch).value.1)
  {
    CheckDecides(init, l, c, epoch);
    var i := CheckCommand(l, c, epoch).value;
    var m := MoveOf(l, i, c.kind).value;
    CommitKeeps(init, l, i, c, m);
    hide CheckCommand, CheckExecution, MoveOf, Commit, EvidenceOf, ReceiptOf, Summary, Ordered, LogOk, Replayed,
      Accounted, EntryOk, JournalMatches, StatusClaimValid, AccountingValid, EvidenceValid, IdentityValid;
    assert EntryOk(l.entries[i]) && DeclarationOk(init.entries[i].decl, init.cells);
    ClaimHolds(l, i, c, m, epoch);
    AccountingHolds(init, l, i, c, m, epoch);
    EvidenceHolds(l, i, c, m, epoch);
    IdentityHolds(l, i, c, m, epoch);
  }
}

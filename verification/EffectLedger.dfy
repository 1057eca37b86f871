/**
 * The closed synthetic effect ledger: declared occurrences over shared integer cells, the command
 * check, the single transition function, and the records it emits.
 *
 * A fingerprint is modelled as the record it covers, so equal state identities are equal snapshots.
 * `writeLog` is the history of cell insertions; no operation reads it.
 */
module EffectLedger {
  import opened Authority
  import opened Common

  const MAX_ENTRIES := 64
  const MAX_OUTCOMES := 16
  const MAX_REQUESTS := 4096
  const MAX_ATTEMPTS := 1024

  datatype Limits = Limits(requests: nat, executions: nat, retries: nat, reconciliations: nat)
  datatype Counters = Counters(requests: nat, executions: nat, retries: nat, reconciliations: nat)
  datatype Identity = Identity(session: string, profile: string, runtimeSession: string, task: string,
                               governance: string)

  datatype Operation = SetCell | Increment
  datatype Scenario = Succeed | FailBefore | CrashAfter | CrashBefore | AckUnknown
  datatype Status = Pending | NotApplied | Applied | Ambiguous | Cancelled | ReconciledApplied | ReconciledNotApplied
  datatype Witness = NoWitness | SawNotApplied(value: int) | SawApplied(value: int) | SawUnknown
  datatype CommandKind = ExecuteEffect | RetryEffect | ReconcileEffect | CancelEffect | UnknownFamily
  datatype FailureReason = SyntheticFailureBefore | PreconditionMismatch | AcknowledgementLost | ReconciliationUnknown
  datatype Phase = Before | After | Reconciliation

  /** What the profile commits for one occurrence; it never changes. */
  datatype Declaration = Declaration(
    actionId: string, occurrenceKey: string, proposalKey: string, admissionId: string, argumentsId: string,
    operation: Operation, key: string, operand: int, expected: int, outcomes: seq<Scenario>)

  datatype Entry = Entry(
    decl: Declaration, status: Status, attempts: nat, cancelRequested: bool, lastEvent: Option<Event>, journal: Witness)

  datatype Observation = Observation(
    session: string, actionId: string, occurrenceKey: string, attempt: nat, phase: Phase, key: string, value: int)

  datatype Occurrence = Occurrence(
    actionId: string, occurrenceKey: string, status: Status, attempts: nat, cancelRequested: bool,
    lastEvent: Option<Event>)

  datatype Snapshot = Snapshot(
    id: Identity, epoch: AuthorityEpoch, generation: nat, logicalTick: nat, limits: Limits, counters: Counters,
    cells: map<string, int>, occurrences: seq<Occurrence>)

  datatype Command = Command(
    kind: CommandKind, session: string, expectedState: Snapshot, actionId: string, occurrenceKey: string)

  datatype Event = Event(
    command: Command, generation: nat, actionId: string, occurrenceKey: string, attempt: nat, status: Status,
    effectApplied: Option<bool>, pre: Option<Observation>, post: Option<Observation>,
    failure: Option<FailureReason>, cancelRequested: bool)

  datatype Receipt = Receipt(
    id: Identity, epoch: nat, command: Command, kind: CommandKind, actionId: string, occurrenceKey: string,
    admissionId: string, operation: Operation, argumentsId: string, attempt: nat, status: Status, ambiguous: bool,
    effectApplied: Option<bool>, pre: Option<Observation>, post: Option<Observation>, recoveryOf: Option<Event>,
    event: Event, priorState: Snapshot, resultingState: Snapshot, counters: Counters, logicalTick: nat,
    cancelRequested: bool, failure: Option<FailureReason>)

  datatype Ledger = Ledger(
    id: Identity, limits: Limits, counters: Counters, cells: map<string, int>, entries: seq<Entry>,
    generation: nat, writeLog: seq<nat>)

  datatype EffectError =
    | ForeignSession | AuthorityRevoked | StaleState | UnknownAction | OccurrenceMismatch | RequestBudget
    | OccurrenceCancelled | PredecessorUnfinished | AlreadyAttempted | RetryWithoutProof | RetryBudget
    | ExecutionBudget | PlanExhausted | ArithmeticOverflow | NotAmbiguous | ReconciliationBudget
    | CannotCancel | UnknownCommandFamily
    | JournalMissing    // "effect journal is missing", raised after the command check
    | OverflowPanic     // the `expect` on the checked addition, after the command check

  // ----- Observers -----

  predicate Completed(s: Status) {
    s.Applied? || s.Cancelled? || s.ReconciledApplied?
  }

  /** The occurrence no longer holds back the declared sequence. */
  predicate SequenceTerminal(e: Entry) {
    Completed(e.status) || (e.cancelRequested && e.status.ReconciledNotApplied?)
  }

  function OccurrenceOf(e: Entry): Occurrence {
    Occurrence(e.decl.actionId, e.decl.occurrenceKey, e.status, e.attempts, e.cancelRequested, e.lastEvent)
  }

  function SnapshotOf(l: Ledger, epoch: AuthorityEpoch): Snapshot {
    Snapshot(l.id, epoch, l.generation, l.generation, l.limits, l.counters, l.cells,
             seq(|l.entries|, i requires 0 <= i < |l.entries| => OccurrenceOf(l.entries[i])))
  }

  function Observe(session: string, e: Entry, phase: Phase, value: int): Observation {
    Observation(session, e.decl.actionId, e.decl.occurrenceKey, e.attempts, phase, e.decl.key, value)
  }

  /** The first entry that owns an action identity. */
  function FindAction(entries: seq<Entry>, action: string): (r: Option<nat>)
    ensures r.Some? ==> r.value < |entries| && entries[r.value].decl.actionId == action
    ensures r.Some? ==> forall i :: 0 <= i < r.value ==> entries[i].decl.actionId != action
    ensures r.None? ==> forall i :: 0 <= i < |entries| ==> entries[i].decl.actionId != action
  {
    if entries == [] then None
    else if entries[0].decl.actionId == action then Some(0)
    else
      match FindAction(entries[1..], action)
      case None =>
        assert forall i :: 1 <= i < |entries| ==> entries[i] == entries[1..][i - 1];
        None
      case Some(k) =>
        assert forall i :: 1 <= i < |entries| ==> entries[i] == entries[1..][i - 1];
        Some(k + 1)
  }

  /** Every declared cell exists, holds 64-bit values and every plan is non-empty and bounded. */
  ghost predicate WellFormed(l: Ledger) {
    && 1 <= |l.entries| <= MAX_ENTRIES
    && 1 <= |l.cells| <= MAX_ENTRIES
    && (forall k :: k in l.cells ==> IsI64(l.cells[k]))
    && (forall i :: 0 <= i < |l.entries| ==> DeclarationOk(l.entries[i].decl, l.cells))
    && (forall i, j :: 0 <= i < j < |l.entries| ==>
          && l.entries[i].decl.actionId != l.entries[j].decl.actionId
          && l.entries[i].decl.occurrenceKey != l.entries[j].decl.occurrenceKey)
    && LimitsOk(l.limits)
  }

  /** Every entry addresses a declared cell. */
  predicate KeysDeclared(l: Ledger) {
    forall i :: 0 <= i < |l.entries| ==> l.entries[i].decl.key in l.cells
  }

  predicate DeclarationOk(d: Declaration, cells: map<string, int>) {
    d.key in cells && IsI64(d.operand) && IsI64(d.expected) && 1 <= |d.outcomes| <= MAX_OUTCOMES
  }

  predicate LimitsOk(m: Limits) {
    && 1 <= m.requests <= MAX_REQUESTS
    && 1 <= m.executions <= MAX_ATTEMPTS
    && m.retries <= MAX_ATTEMPTS
    && m.reconciliations <= MAX_ATTEMPTS
  }

  // ----- The command check -----

  function CheckExecution(l: Ledger, index: nat, retry: bool): (r: Result<nat, EffectError>)
    requires index < |l.entries|
    requires KeysDeclared(l)
  {
    var entry := l.entries[index];
    var cell := l.cells[entry.decl.key];
    if entry.cancelRequested then Failure(OccurrenceCancelled)
    else if exists i :: 0 <= i < index && !SequenceTerminal(l.entries[i]) then Failure(PredecessorUnfinished)
    else if !retry && entry.status != Pending then Failure(AlreadyAttempted)
    else if retry && entry.status != NotApplied && entry.status != ReconciledNotApplied then Failure(RetryWithoutProof)
    else if retry && l.counters.retries >= l.limits.retries then Failure(RetryBudget)
    else if l.counters.executions >= l.limits.executions then Failure(ExecutionBudget)
    else if entry.attempts >= |entry.decl.outcomes| then Failure(PlanExhausted)
    else if && cell == entry.decl.expected
            && entry.decl.operation.Increment?
            && entry.decl.outcomes[entry.attempts] != FailBefore
            && entry.decl.outcomes[entry.attempts] != CrashBefore
            && CheckedAddI64(cell, entry.decl.operand).None? then Failure(ArithmeticOverflow)
    else Success(index)
  }

  function CheckCommand(l: Ledger, c: Command, epoch: AuthorityEpoch): (r: Result<nat, EffectError>)
    requires KeysDeclared(l)
    ensures r.Success? ==> r.value < |l.entries| && FindAction(l.entries, c.actionId) == Some(r.value)
    ensures r.Success? ==> !c.kind.UnknownFamily?
    ensures r.Success? && (c.kind.ExecuteEffect? || c.kind.RetryEffect?) ==>
              l.entries[r.value].attempts < |l.entries[r.value].decl.outcomes|
  {
    if c.session != l.id.session then Failure(ForeignSession)
    else if epoch.revoked then Failure(AuthorityRevoked)
    else if c.expectedState != SnapshotOf(l, epoch) then Failure(StaleState)
    else
      match FindAction(l.entries, c.actionId)
      case None => Failure(UnknownAction)
      case Some(index) =>
        var entry := l.entries[index];
        if c.occurrenceKey != entry.decl.occurrenceKey then Failure(OccurrenceMismatch)
        else if l.counters.requests >= l.limits.requests then Failure(RequestBudget)
        else
          match c.kind
          case ExecuteEffect => CheckExecution(l, index, false)
          case RetryEffect => CheckExecution(l, index, true)
          case ReconcileEffect =>
            if entry.status != Ambiguous then Failure(NotAmbiguous)
            else if l.counters.reconciliations >= l.limits.reconciliations then Failure(ReconciliationBudget)
            else Success(index)
          case CancelEffect =>
            if entry.cancelRequested || Completed(entry.status) then Failure(CannotCancel) else Success(index)
          case UnknownFamily => Failure(UnknownCommandFamily)
  }

  // ----- The transition -----

  /** What one command does to its entry: the new entry, the cell insertion if any, and the evidence. */
  datatype Move = Move(
    entry: Entry, counters: Counters, write: Option<int>, applied: Option<bool>, failure: Option<FailureReason>,
    pre: Option<int>, post: Option<(Phase, int)>)

  datatype Evidence = Evidence(
    pre: Option<Observation>, post: Option<Observation>, applied: Option<bool>, failure: Option<FailureReason>)

  /** One attempt of the entry against the current cell; `n` already counts the request. */
  function ExecuteMove(e: Entry, n: Counters, cell: int, retry: bool): Result<Move, EffectError>
    requires e.attempts < |e.decl.outcomes|
  {
    var n' := n.(executions := n.executions + 1, retries := n.retries + if retry then 1 else 0);
    var scenario := e.decl.outcomes[e.attempts];
    var e' := e.(attempts := e.attempts + 1);
    if cell != e.decl.expected then
      Success(Move(e'.(status := NotApplied, journal := SawNotApplied(cell)), n', None, Some(false),
                   Some(PreconditionMismatch), Some(cell), Some((After, cell))))
    else if scenario.FailBefore? then
      Success(Move(e'.(status := NotApplied, journal := SawNotApplied(cell)), n', None, Some(false),
                   Some(SyntheticFailureBefore), Some(cell), Some((After, cell))))
    else if scenario.CrashBefore? then
      Success(Move(e'.(status := Ambiguous, journal := SawNotApplied(cell)), n', None, None,
                   Some(AcknowledgementLost), Some(cell), None))
    else
      var after := match e.decl.operation
                   case SetCell => Some(e.decl.operand)
                   case Increment => CheckedAddI64(cell, e.decl.operand);
      if after.None? then Failure(OverflowPanic)
      else
        var journal := if scenario.AckUnknown? then SawUnknown else SawApplied(after.value);
        if scenario.Succeed? then
          Success(Move(e'.(status := Applied, journal := journal), n', after, Some(true), None,
                       Some(cell), Some((After, after.value))))
        else
          Success(Move(e'.(status := Ambiguous, journal := journal), n', after, None, Some(AcknowledgementLost),
                       Some(cell), None))
  }

  function ReconcileMove(e: Entry, n: Counters): Result<Move, EffectError> {
    var n' := n.(reconciliations := n.reconciliations + 1);
    match e.journal
    case SawApplied(v) =>
      Success(Move(e.(status := ReconciledApplied), n', None, Some(true), None, None, Some((Reconciliation, v))))
    case SawNotApplied(v) =>
      Success(Move(e.(status := ReconciledNotApplied), n', None, Some(false), None, None, Some((Reconciliation, v))))
    case SawUnknown => Success(Move(e, n', None, None, Some(ReconciliationUnknown), None, None))
    case NoWitness => Failure(JournalMissing)
  }

  function CancelMove(e: Entry, n: Counters): Move {
    var e' := e.(cancelRequested := true);
    if e.status.Ambiguous? then Move(e', n, None, None, None, None, None)
    else Move(e'.(status := Cancelled), n, None, Some(false), None, None, None)
  }

  function MoveOf(l: Ledger, index: nat, kind: CommandKind): (r: Result<Move, EffectError>)
    requires index < |l.entries| && l.entries[index].decl.key in l.cells
    requires kind.ExecuteEffect? || kind.RetryEffect? ==> l.entries[index].attempts < |l.entries[index].decl.outcomes|
    ensures r.Success? ==> r.value.entry.decl == l.entries[index].decl
    ensures r.Failure? ==> r.error.JournalMissing? || r.error.OverflowPanic? || kind.UnknownFamily?
  {
    var entry, n := l.entries[index], l.counters.(requests := l.counters.requests + 1);
    match kind
    case ExecuteEffect => ExecuteMove(entry, n, l.cells[entry.decl.key], false)
    case RetryEffect => ExecuteMove(entry, n, l.cells[entry.decl.key], true)
    case ReconcileEffect => ReconcileMove(entry, n)
    case CancelEffect => Success(CancelMove(entry, n))
    case UnknownFamily => Failure(UnknownCommandFamily)
  }

  function EvidenceOf(session: string, m: Move): Evidence {
    Evidence(
      match m.pre case None => None case Some(v) => Some(Observe(session, m.entry, Before, v)),
      match m.post case None => None case Some((p, v)) => Some(Observe(session, m.entry, p, v)),
      m.applied, m.failure)
  }

  function EventOf(c: Command, generation: nat, e: Entry, ev: Evidence): Event {
    Event(c, generation, e.decl.actionId, e.decl.occurrenceKey, e.attempts, e.status, ev.applied, ev.pre, ev.post,
          ev.failure, e.cancelRequested)
  }

  /** The budgets, the cell and the entry after the move, before the event is retained. */
  function AfterMove(l: Ledger, index: nat, m: Move): Ledger
    requires index < |l.entries|
  {
    l.(counters := m.counters,
       cells := match m.write case None => l.cells case Some(v) => l.cells[m.entry.decl.key := v],
       entries := l.entries[index := m.entry],
       writeLog := match m.write case None => l.writeLog case Some(_) => l.writeLog + [index])
  }

  /** The committed ledger: one generation later, the entry retaining the new event. */
  function Retain(l: Ledger, index: nat, c: Command, ev: Evidence): Ledger
    requires index < |l.entries|
  {
    var e := l.entries[index];
    l.(entries := l.entries[index := e.(lastEvent := Some(EventOf(c, l.generation + 1, e, ev)))],
       generation := l.generation + 1)
  }

  function Commit(l: Ledger, index: nat, c: Command, m: Move): Ledger
    requires index < |l.entries|
  {
    Retain(AfterMove(l, index, m), index, c, EvidenceOf(l.id.session, m))
  }

  /** The receipt of a committed command: `l` is the ledger after it, `prior` the snapshot before it. */
  function ReceiptOf(
    l: Ledger, index: nat, c: Command, ev: Evidence, epoch: AuthorityEpoch, prior: Snapshot,
    recoveryOf: Option<Event>): Receipt
    requires index < |l.entries|
  {
    var e := l.entries[index];
    Receipt(l.id, epoch.epoch, c, c.kind, e.decl.actionId, e.decl.occurrenceKey, e.decl.admissionId, e.decl.operation,
            e.decl.argumentsId, e.attempts, e.status, e.status.Ambiguous?, ev.applied, ev.pre, ev.post,
            if c.kind.ExecuteEffect? then None else recoveryOf, EventOf(c, l.generation, e, ev), prior,
            SnapshotOf(l, epoch), l.counters, l.generation, e.cancelRequested, ev.failure)
  }

  function Dispatch(l: Ledger, c: Command, epoch: AuthorityEpoch): (r: Result<(Ledger, Receipt), EffectError>)
    requires KeysDeclared(l)
    ensures r.Success? ==> KeysDeclared(r.value.0)
  {
    hide CheckCommand, MoveOf, EvidenceOf, EventOf, ReceiptOf, SnapshotOf;
    var index :- CheckCommand(l, c, epoch);
    var m :- MoveOf(l, index, c.kind);
    var next := Commit(l, index, c, m);
    Success((next,
             ReceiptOf(next, index, c, EvidenceOf(l.id.session, m), epoch, SnapshotOf(l, epoch),
                       l.entries[index].lastEvent)))
  }
}

/**
 * What every accepted command does, in terms of the declared plan, the cell and the status before it, and which
 * commands are admitted: in every run, and without the transition function.
 */
module EffectOutcomes {
  import opened Authority
  import opened Common
  import opened EffectLedger
  import opened EffectRuns

  // ----- One command -----

  /** The declared outcomes in which the cell is written. */
  predicate WritesCell(o: Scenario) {
    o.Succeed? || o.CrashAfter? || o.AckUnknown?
  }

  /** What a written occurrence leaves in a cell that held `v`. */
  function Written(d: Declaration, v: int): int {
    if d.operation.SetCell? then d.operand else v + d.operand
  }

  /** Only occurrence `i` changes, it keeps its declaration, and its new event is the receipt's. */
  predicate TouchesOnly(l: Ledger, l': Ledger, i: nat, r: Receipt) {
    && l'.id == l.id && l'.limits == l.limits && l'.generation == l.generation + 1
    && |l'.entries| == |l.entries| && i < |l.entries|
    && (forall j :: 0 <= j < |l.entries| && j != i ==> l'.entries[j] == l.entries[j])
    && l'.entries[i].decl == l.entries[i].decl && l'.entries[i].lastEvent == Some(r.event)
  }

  /** A snapshot shows the whole ledger but its journal: identity, budgets, cells and every occurrence. */
  predicate ShowsLedger(s: Snapshot, l: Ledger, epoch: AuthorityEpoch) {
    && s.id == l.id && s.epoch == epoch && s.generation == s.logicalTick == l.generation
    && s.limits == l.limits && s.counters == l.counters && s.cells == l.cells
    && |s.occurrences| == |l.entries|
    && forall i :: 0 <= i < |l.entries| ==>
         var o, e := s.occurrences[i], l.entries[i];
         && o.actionId == e.decl.actionId && o.occurrenceKey == e.decl.occurrenceKey && o.status == e.status
         && o.attempts == e.attempts && o.cancelRequested == e.cancelRequested && o.lastEvent == e.lastEvent
  }

  /** The snapshot of a ledger is the one record that shows it. */
  lemma SnapshotShowsTheLedger(s: Snapshot, l: Ledger, epoch: AuthorityEpoch)
    ensures ShowsLedger(s, l, epoch) <==> s == SnapshotOf(l, epoch)
  {
    var t := SnapshotOf(l, epoch);
    if ShowsLedger(s, l, epoch) {
      assert s.occurrences == t.occurrences;
    }
  }

  /** The receipt names its session, epoch, command and occurrence, and the states on both sides of it. */
  predicate NamesItsCommand(l: Ledger, l': Ledger, i: nat, c: Command, epoch: AuthorityEpoch, r: Receipt)
    requires i < |l.entries| && i < |l'.entries|
  {
    var before, after := l.entries[i], l'.entries[i];
    && r.id == l.id && r.epoch == epoch.epoch && r.command == c && r.kind == c.kind
    && r.actionId == c.actionId == before.decl.actionId && r.occurrenceKey == before.decl.occurrenceKey
    && r.admissionId == before.decl.admissionId && r.operation == before.decl.operation
    && r.argumentsId == before.decl.argumentsId
    && ShowsLedger(r.priorState, l, epoch) && ShowsLedger(r.resultingState, l', epoch)
    && r.counters == l'.counters && r.logicalTick == l'.generation
    && r.attempt == after.attempts && r.status == after.status && r.cancelRequested == after.cancelRequested
    && r.recoveryOf == if c.kind.ExecuteEffect? then None else before.lastEvent
  }

  /** What the plan says of an attempt with declared outcome `o` on a cell that holds `v`. */
  predicate PlanDecides(d: Declaration, o: Scenario, v: int, wrote: bool, r: Receipt) {
    var expected := v == d.expected;
    && (wrote <==> expected && WritesCell(o))
    && (r.status.Applied? <==> expected && o.Succeed?)
    && (r.status.Ambiguous? <==> expected && (o.CrashAfter? || o.CrashBefore? || o.AckUnknown?))
    && (r.status.NotApplied? <==> !expected || o.FailBefore?)
    && (r.failure == Some(PreconditionMismatch) <==> !expected)
    && (r.failure == Some(SyntheticFailureBefore) <==> expected && o.FailBefore?)
    && (r.failure == Some(AcknowledgementLost) <==> r.status.Ambiguous?)
    && (r.failure.None? <==> r.status.Applied?)
  }

  /** An attempt reads the cell before, and reads it again after unless the acknowledgement is lost. */
  predicate ObservesTheCell(l': Ledger, d: Declaration, v: int, r: Receipt)
    requires d.key in l'.cells
  {
    && r.pre == Some(Observation(l'.id.session, d.actionId, d.occurrenceKey, r.attempt, Before, d.key, v))
    && r.post == if r.status.Ambiguous? then None
                 else Some(Observation(l'.id.session, d.actionId, d.occurrenceKey, r.attempt, After, d.key,
                                       l'.cells[d.key]))
  }

  /** The step of an accepted execution or retry of occurrence `i`. */
  ghost predicate AttemptStep(l: Ledger, l': Ledger, i: nat, retry: bool, r: Receipt) {
    i < |l.entries| && i < |l'.entries| &&
    var before, after, d := l.entries[i], l'.entries[i], l.entries[i].decl;
    before.attempts < |d.outcomes| && d.key in l.cells && d.key in l'.cells &&
    var o, v := d.outcomes[before.attempts], l.cells[d.key];
    && PlanDecides(d, o, v, i in l'.writeLog, r) && ObservesTheCell(l', d, v, r)
    && i !in l.writeLog && l'.writeLog == (if i in l'.writeLog then l.writeLog + [i] else l.writeLog)
    && l'.cells == (if i in l'.writeLog then l.cells[d.key := Written(d, v)] else l.cells)
    && (r.effectApplied == if r.status.Ambiguous? then None else Some(r.status.Applied?))
    && after.attempts == before.attempts + 1 && !after.cancelRequested
    && l'.counters == l.counters.(requests := l.counters.requests + 1, executions := l.counters.executions + 1,
                                  retries := l.counters.retries + if retry then 1 else 0)
  }

  /** The step of an accepted reconciliation: what the last attempt's declared outcome was decides the status. */
  ghost predicate ReconcileStep(l: Ledger, l': Ledger, i: nat, r: Receipt) {
    i < |l.entries| && i < |l'.entries| &&
    var before, after, d := l.entries[i], l'.entries[i], l.entries[i].decl;
    0 < before.attempts <= |d.outcomes| && d.key in l.cells &&
    var o := d.outcomes[before.attempts - 1];
    && (r.status.ReconciledApplied? <==> o.CrashAfter?) && (r.status.ReconciledNotApplied? <==> o.CrashBefore?)
    && (r.status.Ambiguous? <==> o.AckUnknown?)
    && r.failure == (if o.AckUnknown? then Some(ReconciliationUnknown) else None)
    && r.effectApplied == (if o.AckUnknown? then None else Some(o.CrashAfter?))
    && r.pre.None?
    && r.post == (if o.AckUnknown? then None
                  else Some(Observation(l.id.session, d.actionId, d.occurrenceKey, r.attempt, Reconciliation, d.key,
                                        l.cells[d.key])))
    && l'.cells == l.cells && l'.writeLog == l.writeLog
    && after.attempts == before.attempts && after.cancelRequested == before.cancelRequested
    && l'.counters == l.counters.(requests := l.counters.requests + 1,
                                  reconciliations := l.counters.reconciliations + 1)
  }

  /** The step of an accepted cancellation: an ambiguous occurrence stays ambiguous. */
  ghost predicate CancelStep(l: Ledger, l': Ledger, i: nat, r: Receipt) {
    i < |l.entries| && i < |l'.entries| &&
    var before, after := l.entries[i], l'.entries[i];
    && after.cancelRequested && after.attempts == before.attempts
    && r.status == (if before.status.Ambiguous? then Ambiguous else Cancelled)
    && r.effectApplied == (if before.status.Ambiguous? then None else Some(false))
    && r.pre.None? && r.post.None? && r.failure.None?
    && l'.cells == l.cells && l'.writeLog == l.writeLog
    && l'.counters == l.counters.(requests := l.counters.requests + 1)
  }

  // ----- The journal remembers the plan -----

  /** The journal of an ambiguous occurrence says which declared outcome left it so. */
  predicate JournalTells(e: Entry) {
    e.status.Ambiguous? ==>
      0 < e.attempts <= |e.decl.outcomes| &&
      match e.decl.outcomes[e.attempts - 1]
      case CrashAfter => e.journal.SawApplied?
      case CrashBefore => e.journal.SawNotApplied?
      case AckUnknown => e.journal.SawUnknown?
      case _ => false
  }

  ghost predicate JournalsTell(l: Ledger) {
    forall i :: 0 <= i < |l.entries| ==> JournalTells(l.entries[i])
  }

  lemma MovesTell(l: Ledger, i: nat, kind: CommandKind)
    requires KeysDeclared(l) && Permitted(l, i, kind) && JournalTells(l.entries[i])
    ensures MoveOf(l, i, kind).Success? ==> JournalTells(MoveOf(l, i, kind).value.entry)
  {
    match kind
    case ExecuteEffect =>
    case RetryEffect =>
    case ReconcileEffect =>
    case CancelEffect =>
  }

  lemma CommitTells(l: Ledger, i: nat, c: Command, m: Move)
    requires i < |l.entries| && JournalsTell(l) && JournalTells(m.entry)
    ensures JournalsTell(Commit(l, i, c, m))
  {
    hide EvidenceOf, EventOf;
  }

  lemma StepTells(l: Ledger, input: Input)
    requires KeysDeclared(l) && JournalsTell(l)
    ensures JournalsTell(Step(l, input))
  {
    hide CheckCommand, MoveOf, JournalsTell, Commit, ReceiptOf, Permitted;
    var c, epoch := input.command, input.epoch;
    if Dispatch(l, c, epoch).Success? {
      var i := CheckCommand(l, c, epoch).value;
      CheckPermits(l, c, epoch);
      assert JournalTells(l.entries[i]) by { EntryTells(l, i); }
      MovesTell(l, i, c.kind);
      CommitTells(l, i, c, MoveOf(l, i, c.kind).value);
    }
  }

  lemma EntryTells(l: Ledger, i: nat)
    requires JournalsTell(l) && i < |l.entries|
    ensures JournalTells(l.entries[i])
  {}

  lemma {:induction false} RunTells(init: Ledger, inputs: seq<Input>)
    requires Initial(init) && KeysDeclared(init)
    ensures JournalsTell(Run(init, inputs))
  {
    hide Step;
    if inputs != [] {
      RunTells(init, inputs[..|inputs| - 1]);
      StepTells(Run(init, inputs[..|inputs| - 1]), inputs[|inputs| - 1]);
    }
  }

  // ----- From the transition to the receipt -----

  /** What the move of an attempt carries. */
  predicate MovePlan(e: Entry, cell: int, retry: bool, n: Counters, m: Move) {
    e.attempts < |e.decl.outcomes| &&
    var o, expected := e.decl.outcomes[e.attempts], cell == e.decl.expected;
    && m.entry == e.(attempts := e.attempts + 1, status := m.entry.status, journal := m.entry.journal)
    && m.write == (if expected && WritesCell(o) then Some(Written(e.decl, cell)) else None)
    && m.entry.status == (if !expected || o.FailBefore? then NotApplied else if o.Succeed? then Applied else Ambiguous)
    && m.applied == (if m.entry.status.Ambiguous? then None else Some(m.entry.status.Applied?))
    && m.failure == (if !expected then Some(PreconditionMismatch)
                     else if o.FailBefore? then Some(SyntheticFailureBefore)
                     else if o.Succeed? then None else Some(AcknowledgementLost))
    && m.pre == Some(cell)
    && m.post == (if m.entry.status.Ambiguous? then None
                  else Some((After, if m.write.Some? then m.write.value else cell)))
    && m.counters == n.(executions := n.executions + 1, retries := n.retries + if retry then 1 else 0)
  }

  lemma ExecutionPlan(e: Entry, n: Counters, cell: int, retry: bool)
    requires e.attempts < |e.decl.outcomes|
    ensures var m := ExecuteMove(e, n, cell, retry); m.Success? ==> MovePlan(e, cell, retry, n, m.value)
  {}

  /** How a committed move shows in the ledger and in the receipt. */
  ghost predicate Shows(l: Ledger, l': Ledger, i: nat, m: Move, r: Receipt)
    requires i < |l.entries| && i < |l'.entries|
  {
    var e := m.entry;
    && l'.entries[i] == e.(lastEvent := Some(r.event)) && l'.counters == m.counters
    && l'.cells == (match m.write case None => l.cells case Some(v) => l.cells[e.decl.key := v])
    && l'.writeLog == (if m.write.None? then l.writeLog else l.writeLog + [i])
    && r.status == e.status && r.effectApplied == m.applied && r.failure == m.failure
    && r.pre == (match m.pre case None => None case Some(v) => Some(Observe(l.id.session, e, Before, v)))
    && r.post == (match m.post case None => None case Some((p, v)) => Some(Observe(l.id.session, e, p, v)))
  }

  lemma CommitShows(
    l: Ledger, i: nat, c: Command, m: Move, epoch: AuthorityEpoch, recoveryOf: Option<Event>)
    requires i < |l.entries| && m.entry.decl == l.entries[i].decl && c.actionId == m.entry.decl.actionId
    requires recoveryOf == l.entries[i].lastEvent
    ensures var l' := Commit(l, i, c, m);
            var r := ReceiptOf(l', i, c, EvidenceOf(l.id.session, m), epoch, SnapshotOf(l, epoch), recoveryOf);
            TouchesOnly(l, l', i, r) && NamesItsCommand(l, l', i, c, epoch, r) && Shows(l, l', i, m, r)
  {
    SnapshotShowsTheLedger(SnapshotOf(l, epoch), l, epoch);
    SnapshotShowsTheLedger(SnapshotOf(Commit(l, i, c, m), epoch), Commit(l, i, c, m), epoch);
    hide SnapshotOf, ShowsLedger;
  }

  /** Every accepted dispatch is a shown move of an admitted command. */
  lemma DispatchShows(init: Ledger, l: Ledger, c: Command, epoch: AuthorityEpoch) returns (i: nat, m: Move)
    requires KeysDeclared(l) && Inv(init, l) && Dispatch(l, c, epoch).Success?
    ensures FindAction(l.entries, c.actionId) == Some(i) && i < |l.entries| && Admitted(l, i, c.kind)
    ensures MoveOf(l, i, c.kind) == Success(m)
    ensures var (l', r) := Dispatch(l, c, epoch).value;
            && TouchesOnly(l, l', i, r) && NamesItsCommand(l, l', i, c, epoch, r) && Shows(l, l', i, m, r)
  {
    hide CheckCommand, CheckExecution, MoveOf, Commit, ReceiptOf, Inv, TouchesOnly, NamesItsCommand, Shows, Summary;
    CheckDecides(init, l, c, epoch);
    i := CheckCommand(l, c, epoch).value;
    m := MoveOf(l, i, c.kind).value;
    CommitShows(l, i, c, m, epoch, l.entries[i].lastEvent);
  }

  lemma NotInLog(l: Ledger, i: nat)
    requires EntriesOk(l) && LogOk(l) && i < |l.entries|
    requires l.entries[i].status.Pending? || l.entries[i].status.NotApplied?
             || l.entries[i].status.ReconciledNotApplied?
    ensures i !in l.writeLog
  {
    assert EntryOk(l.entries[i]);
  }

  lemma AttemptShows(l: Ledger, l': Ledger, i: nat, retry: bool, m: Move, r: Receipt, c: Command, epoch: AuthorityEpoch)
    requires i < |l.entries| && i < |l'.entries| && l.entries[i].decl.key in l.cells && i !in l.writeLog
    requires l'.id == l.id && !l.entries[i].cancelRequested
    requires MovePlan(l.entries[i], l.cells[l.entries[i].decl.key], retry,
                      l.counters.(requests := l.counters.requests + 1), m)
    requires Shows(l, l', i, m, r) && NamesItsCommand(l, l', i, c, epoch, r)
    ensures AttemptStep(l, l', i, retry, r)
  {
    hide ShowsLedger;
  }

  // ----- Main results -----

  /** The occurrence a command addresses, and its step from one ledger to the next. */
  ghost predicate StepsAsDeclared(l: Ledger, l': Ledger, i: nat, c: Command, epoch: AuthorityEpoch, r: Receipt) {
    && TouchesOnly(l, l', i, r) && NamesItsCommand(l, l', i, c, epoch, r)
    && match c.kind
       case ExecuteEffect => AttemptStep(l, l', i, false, r)
       case RetryEffect => AttemptStep(l, l', i, true, r)
       case ReconcileEffect => ReconcileStep(l, l', i, r)
       case CancelEffect => CancelStep(l, l', i, r)
       case UnknownFamily => false
  }

  /**
   * In every run an accepted command does to its occurrence what the declared plan, the cell and the status before
   * say, reports exactly that, and touches nothing else.
   */
  lemma CommandsFollowThePlan(init: Ledger, inputs: seq<Input>, c: Command, epoch: AuthorityEpoch)
    requires Initial(init) && KeysDeclared(init)
    requires Dispatch(Run(init, inputs), c, epoch).Success?
    ensures var l := Run(init, inputs);
            var (l', r) := Dispatch(l, c, epoch).value;
            FindAction(l.entries, c.actionId).Some?
            && StepsAsDeclared(l, l', FindAction(l.entries, c.actionId).value, c, epoch, r)
  {
    RunKeeps(init, inputs);
    RunTells(init, inputs);
    hide Dispatch, Inv, Run, StepsAsDeclared, JournalsTell;
    StepFollowsThePlan(init, Run(init, inputs), c, epoch);
  }

  lemma StepFollowsThePlan(init: Ledger, l: Ledger, c: Command, epoch: AuthorityEpoch)
    requires KeysDeclared(l) && Inv(init, l) && JournalsTell(l) && Dispatch(l, c, epoch).Success?
    ensures var (l', r) := Dispatch(l, c, epoch).value;
            FindAction(l.entries, c.actionId).Some?
            && StepsAsDeclared(l, l', FindAction(l.entries, c.actionId).value, c, epoch, r)
  {
    hide Dispatch, AttemptStep, ReconcileStep, CancelStep, Frame, Ordered, LogOk, JournalCurrent, Replayed, Accounted,
      EntriesOk, JournalsTell, NamesItsCommand, Shows, Summary, CheckExecution, ExecuteMove, ReconcileMove, CancelMove;
    var i, m := DispatchShows(init, l, c, epoch);
    var (l', r) := Dispatch(l, c, epoch).value;
    match c.kind
    case ExecuteEffect => AttemptFollows(l, l', i, false, m, r, c, epoch);
    case RetryEffect => AttemptFollows(l, l', i, true, m, r, c, epoch);
    case ReconcileEffect => ReconciliationFollows(l, l', i, m, r, c, epoch);
    case CancelEffect => CancellationFollows(l, l', i, m, r, c, epoch);
  }

  lemma AttemptFollows(
    l: Ledger, l': Ledger, i: nat, retry: bool, m: Move, r: Receipt, c: Command, epoch: AuthorityEpoch)
    requires KeysDeclared(l) && EntriesOk(l) && LogOk(l) && i < |l.entries| && i < |l'.entries| && l'.id == l.id
    requires CheckExecution(l, i, retry).Success? && c.kind == if retry then RetryEffect else ExecuteEffect
    requires Permitted(l, i, c.kind) && MoveOf(l, i, c.kind) == Success(m)
    requires Shows(l, l', i, m, r) && NamesItsCommand(l, l', i, c, epoch, r)
    ensures AttemptStep(l, l', i, retry, r)
  {
    hide AttemptStep, EntriesOk, LogOk, Shows, NamesItsCommand, ExecuteMove;
    var e := l.entries[i];
    NotInLog(l, i);
    ExecutionPlan(e, l.counters.(requests := l.counters.requests + 1), l.cells[e.decl.key], retry);
    AttemptShows(l, l', i, retry, m, r, c, epoch);
  }

  lemma ReconciliationFollows(l: Ledger, l': Ledger, i: nat, m: Move, r: Receipt, c: Command, epoch: AuthorityEpoch)
    requires KeysDeclared(l) && JournalsTell(l) && JournalCurrent(l) && i < |l.entries| && i < |l'.entries|
    requires Permitted(l, i, ReconcileEffect) && MoveOf(l, i, ReconcileEffect) == Success(m)
    requires Shows(l, l', i, m, r) && NamesItsCommand(l, l', i, c, epoch, r)
    ensures ReconcileStep(l, l', i, r)
  {
    hide ShowsLedger;
    assert JournalTells(l.entries[i]) && JournalMatches(l.entries[i], l.cells[l.entries[i].decl.key]);
  }

  lemma CancellationFollows(l: Ledger, l': Ledger, i: nat, m: Move, r: Receipt, c: Command, epoch: AuthorityEpoch)
    requires KeysDeclared(l) && i < |l.entries| && i < |l'.entries|
    requires Permitted(l, i, CancelEffect) && MoveOf(l, i, CancelEffect) == Success(m)
    requires Shows(l, l', i, m, r) && NamesItsCommand(l, l', i, c, epoch, r)
    ensures CancelStep(l, l', i, r)
  {
    hide ShowsLedger;
  }

  // ----- Admission -----

  /** The command addresses the ledger as it is: session, authority, snapshot, occurrence and request budget. */
  ghost predicate Addresses(l: Ledger, i: nat, c: Command, epoch: AuthorityEpoch) {
    && c.session == l.id.session && !epoch.revoked && ShowsLedger(c.expectedState, l, epoch)
    && i < |l.entries| && l.entries[i].decl.actionId == c.actionId
    && l.entries[i].decl.occurrenceKey == c.occurrenceKey
    && l.counters.requests < l.limits.requests
  }

  /** The increment that the plan would perform leaves the 64-bit range. */
  predicate WouldOverflow(l: Ledger, e: Entry)
    requires e.decl.key in l.cells
  {
    && e.decl.operation.Increment? && l.cells[e.decl.key] == e.decl.expected
    && e.attempts < |e.decl.outcomes| && WritesCell(e.decl.outcomes[e.attempts])
    && !IsI64(e.decl.expected + e.decl.operand)
  }

  /** What each command family needs, in a reachable ledger. */
  ghost predicate Admissible(l: Ledger, i: nat, kind: CommandKind)
    requires KeysDeclared(l) && i < |l.entries|
  {
    var e, n, caps := l.entries[i], l.counters, l.limits;
    match kind
    case ExecuteEffect =>
      && e.status.Pending? && (forall k :: 0 <= k < i ==> SequenceTerminal(l.entries[k]))
      && n.executions < caps.executions && !WouldOverflow(l, e)
    case RetryEffect =>
      && (e.status.NotApplied? || e.status.ReconciledNotApplied?) && !e.cancelRequested
      && n.retries < caps.retries && n.executions < caps.executions
      && e.attempts < |e.decl.outcomes| && !WouldOverflow(l, e)
    case ReconcileEffect => e.status.Ambiguous? && n.reconciliations < caps.reconciliations
    case CancelEffect => !e.cancelRequested && !e.status.Applied? && !e.status.ReconciledApplied?
    case UnknownFamily => false
  }

  /**
   * In every run a command is accepted if and only if it addresses some occurrence of the current state and its
   * family's condition holds there. A retry never waits for a predecessor, and no plan is empty.
   */
  lemma AcceptedIffAdmissible(init: Ledger, inputs: seq<Input>, c: Command, epoch: AuthorityEpoch)
    requires Initial(init) && KeysDeclared(init)
    ensures var l := Run(init, inputs);
            Dispatch(l, c, epoch).Success? <==>
              exists i: nat :: i < |l.entries| && Addresses(l, i, c, epoch) && Admissible(l, i, c.kind)
  {
    RunKeeps(init, inputs);
    hide Dispatch, Inv, Run, Addresses, Admissible;
    var l := Run(init, inputs);
    if Dispatch(l, c, epoch).Success? {
      var i := AcceptedIsAdmissible(init, l, c, epoch);
    }
    forall i: nat | i < |l.entries| && Addresses(l, i, c, epoch) && Admissible(l, i, c.kind)
      ensures Dispatch(l, c, epoch).Success?
    {
      AdmissibleIsAccepted(init, l, i, c, epoch);
    }
  }

  lemma AcceptedIsAdmissible(init: Ledger, l: Ledger, c: Command, epoch: AuthorityEpoch) returns (i: nat)
    requires KeysDeclared(l) && Inv(init, l) && Dispatch(l, c, epoch).Success?
    ensures i < |l.entries| && Addresses(l, i, c, epoch) && Admissible(l, i, c.kind)
  {
    CheckDecides(init, l, c, epoch);
    i := CheckCommand(l, c, epoch).value;
    CheckedIsAddressed(l, c, epoch);
    AddressedIsChecked(l, i, c, epoch);
    FamilyIsAdmissible(init, l, i, c.kind);
    hide *;
  }

  lemma AdmissibleIsAccepted(init: Ledger, l: Ledger, i: nat, c: Command, epoch: AuthorityEpoch)
    requires KeysDeclared(l) && Inv(init, l) && i < |l.entries| && Addresses(l, i, c, epoch) && Admissible(l, i, c.kind)
    ensures Dispatch(l, c, epoch).Success?
  {
    CheckDecides(init, l, c, epoch);
    assert WellFormed(init) && Frame(init, l);
    AddressedIsFound(init, l, i, c, epoch);
    AddressedIsChecked(l, i, c, epoch);
    FamilyIsAdmissible(init, l, i, c.kind);
    hide *;
  }

  lemma CheckedIsAddressed(l: Ledger, c: Command, epoch: AuthorityEpoch)
    requires KeysDeclared(l) && CheckCommand(l, c, epoch).Success?
    ensures Addresses(l, CheckCommand(l, c, epoch).value, c, epoch)
  {
    SnapshotShowsTheLedger(c.expectedState, l, epoch);
    hide SnapshotOf, ShowsLedger, CheckExecution, KeysDeclared;
  }

  /** Action identities are unique, so the command's occurrence is the one it addresses. */
  lemma AddressedIsFound(init: Ledger, l: Ledger, i: nat, c: Command, epoch: AuthorityEpoch)
    requires WellFormed(init) && Frame(init, l) && Addresses(l, i, c, epoch)
    ensures FindAction(l.entries, c.actionId) == Some(i)
  {
    hide ShowsLedger, FindAction, LimitsOk, DeclarationOk;
    var k := FindAction(l.entries, c.actionId).value;
    assert l.entries[i].decl == init.entries[i].decl && l.entries[k].decl == init.entries[k].decl;
  }

  /** What the check asks of the addressed occurrence. */
  ghost predicate FamilyChecks(l: Ledger, i: nat, kind: CommandKind)
    requires KeysDeclared(l) && i < |l.entries|
  {
    match kind
    case ExecuteEffect => CheckExecution(l, i, false).Success?
    case RetryEffect => CheckExecution(l, i, true).Success?
    case ReconcileEffect => l.entries[i].status.Ambiguous? && l.counters.reconciliations < l.limits.reconciliations
    case CancelEffect => !l.entries[i].cancelRequested && !Completed(l.entries[i].status)
    case UnknownFamily => false
  }

  /** The rest of the check of an addressed command is its family's. */
  lemma AddressedIsChecked(l: Ledger, i: nat, c: Command, epoch: AuthorityEpoch)
    requires KeysDeclared(l) && Addresses(l, i, c, epoch) && FindAction(l.entries, c.actionId) == Some(i)
    ensures CheckCommand(l, c, epoch).Success? <==> FamilyChecks(l, i, c.kind)
  {
    SnapshotShowsTheLedger(c.expectedState, l, epoch);
    hide SnapshotOf, ShowsLedger, CheckExecution, FindAction;
  }

  /** Before an attempted occurrence everything is terminal; a pending one has its whole plan left. */
  lemma PlanIsLeft(init: Ledger, l: Ledger, i: nat)
    requires Inv(init, l) && i < |l.entries|
    ensures var e := l.entries[i];
            && (e.status.Pending? ==> e.attempts == 0 && !e.cancelRequested && 0 < |e.decl.outcomes|)
            && (e.status.NotApplied? || e.status.ReconciledNotApplied? ==>
                  forall k :: 0 <= k < i ==> SequenceTerminal(l.entries[k]))
            && (e.status.Cancelled? ==> e.cancelRequested)
            && IsI64(e.decl.operand) && IsI64(e.decl.expected)
  {
    hide LimitsOk, SequenceTerminal, LogOk, JournalCurrent, Replayed, Accounted;
    assert EntryOk(l.entries[i]) && DeclarationOk(init.entries[i].decl, init.cells);
  }

  lemma FamilyIsAdmissible(init: Ledger, l: Ledger, i: nat, kind: CommandKind)
    requires KeysDeclared(l) && Inv(init, l) && i < |l.entries|
    ensures FamilyChecks(l, i, kind) <==> Admissible(l, i, kind)
  {
    PlanIsLeft(init, l, i);
    hide Inv, SequenceTerminal, KeysDeclared;
  }

  // ----- Refusals -----

  /** The command's own session, authority and snapshot. */
  ghost predicate IsCurrent(l: Ledger, c: Command, epoch: AuthorityEpoch) {
    c.session == l.id.session && !epoch.revoked && ShowsLedger(c.expectedState, l, epoch)
  }

  /** Something is wrong with the command, and this is the error that says so. */
  ghost predicate Faulty(l: Ledger, c: Command, epoch: AuthorityEpoch, error: EffectError)
    requires KeysDeclared(l)
  {
    match error
    case ForeignSession => c.session != l.id.session
    case AuthorityRevoked => epoch.revoked
    case StaleState => !ShowsLedger(c.expectedState, l, epoch)
    case UnknownAction => forall i :: 0 <= i < |l.entries| ==> l.entries[i].decl.actionId != c.actionId
    case _ =>
      match FindAction(l.entries, c.actionId)
      case None => false
      case Some(i) => FaultyAt(l, i, c, error)
  }

  /** Something is wrong with the command at the occurrence that owns its action. */
  ghost predicate FaultyAt(l: Ledger, i: nat, c: Command, error: EffectError)
    requires KeysDeclared(l) && i < |l.entries|
  {
    var e, n, caps := l.entries[i], l.counters, l.limits;
    var runs := c.kind.ExecuteEffect? || c.kind.RetryEffect?;
    match error
    case OccurrenceMismatch => c.occurrenceKey != e.decl.occurrenceKey
    case RequestBudget => n.requests >= caps.requests
    case OccurrenceCancelled => runs && e.cancelRequested
    case PredecessorUnfinished => runs && exists k :: 0 <= k < i && !SequenceTerminal(l.entries[k])
    case AlreadyAttempted => c.kind.ExecuteEffect? && !e.status.Pending?
    case RetryWithoutProof => c.kind.RetryEffect? && !e.status.NotApplied? && !e.status.ReconciledNotApplied?
    case RetryBudget => c.kind.RetryEffect? && n.retries >= caps.retries
    case ExecutionBudget => runs && n.executions >= caps.executions
    case PlanExhausted => runs && e.attempts >= |e.decl.outcomes|
    case ArithmeticOverflow => runs && WouldOverflow(l, e)
    case NotAmbiguous => c.kind.ReconcileEffect? && !e.status.Ambiguous?
    case ReconciliationBudget => c.kind.ReconcileEffect? && n.reconciliations >= caps.reconciliations
    case CannotCancel => c.kind.CancelEffect? && (e.cancelRequested || Completed(e.status))
    case UnknownCommandFamily => c.kind.UnknownFamily?
    case _ => false
  }

  /** The order in which faults are reported. */
  function Rank(error: EffectError): nat {
    match error
    case ForeignSession => 0
    case AuthorityRevoked => 1
    case StaleState => 2
    case UnknownAction => 3
    case OccurrenceMismatch => 4
    case RequestBudget => 5
    case OccurrenceCancelled => 6
    case PredecessorUnfinished => 7
    case AlreadyAttempted => 8
    case RetryWithoutProof => 9
    case RetryBudget => 10
    case ExecutionBudget => 11
    case PlanExhausted => 12
    case ArithmeticOverflow => 13
    case NotAmbiguous => 14
    case ReconciliationBudget => 15
    case CannotCancel => 16
    case UnknownCommandFamily => 17
    case JournalMissing => 18
    case OverflowPanic => 19
  }

  /** A rejection names the first fault of the command, and a command without a fault is accepted. */
  lemma RejectionNamesTheFirstFault(
    init: Ledger, inputs: seq<Input>, c: Command, epoch: AuthorityEpoch, other: EffectError)
    requires Initial(init) && KeysDeclared(init)
    ensures var l := Run(init, inputs);
            match Dispatch(l, c, epoch)
            case Success(_) => !Faulty(l, c, epoch, other)
            case Failure(e) => Faulty(l, c, epoch, e) && (Faulty(l, c, epoch, other) ==> Rank(e) <= Rank(other))
  {
    RunKeeps(init, inputs);
    var l := Run(init, inputs);
    CheckDecides(init, l, c, epoch);
    assert IsI64Operands(l) by { OperandsInRange(init, l); }
    CheckNamesTheFirstFault(l, c, epoch, other);
    hide Run, Inv, Faulty, CheckCommand, Initial, MoveOf;
    if CheckCommand(l, c, epoch).Failure? {
      assert Dispatch(l, c, epoch) == Failure(CheckCommand(l, c, epoch).error);
    }
  }

  ghost predicate IsI64Operands(l: Ledger) {
    forall i :: 0 <= i < |l.entries| ==> IsI64(l.entries[i].decl.operand) && IsI64(l.entries[i].decl.expected)
  }

  lemma OperandsInRange(init: Ledger, l: Ledger)
    requires Inv(init, l)
    ensures IsI64Operands(l)
  {
    forall i | 0 <= i < |l.entries|
      ensures IsI64(l.entries[i].decl.operand) && IsI64(l.entries[i].decl.expected)
    {
      PlanIsLeft(init, l, i);
    }
  }

  lemma RunNamesTheFirstFault(l: Ledger, i: nat, c: Command, retry: bool, other: EffectError)
    requires KeysDeclared(l) && IsI64Operands(l) && i < |l.entries| && Rank(other) >= 6
    requires c.kind == if retry then RetryEffect else ExecuteEffect
    ensures match CheckExecution(l, i, retry)
            case Success(_) => !FaultyAt(l, i, c, other)
            case Failure(e) =>
              FaultyAt(l, i, c, e) && 6 <= Rank(e) <= 13 && (FaultyAt(l, i, c, other) ==> Rank(e) <= Rank(other))
  {
    hide SequenceTerminal;
  }

  /** The check names the first fault, against any other. */
  ghost predicate NamesFirst(l: Ledger, c: Command, epoch: AuthorityEpoch, other: EffectError)
    requires KeysDeclared(l)
  {
    match CheckCommand(l, c, epoch)
    case Success(_) => !Faulty(l, c, epoch, other)
    case Failure(e) => Faulty(l, c, epoch, e) && (Faulty(l, c, epoch, other) ==> Rank(e) <= Rank(other))
  }

  lemma CheckNamesTheFirstFault(l: Ledger, c: Command, epoch: AuthorityEpoch, other: EffectError)
    requires KeysDeclared(l) && IsI64Operands(l)
    ensures NamesFirst(l, c, epoch, other)
  {
    hide *;
    if IsCurrent(l, c, epoch) && FindAction(l.entries, c.actionId).Some? {
      var i := FindAction(l.entries, c.actionId).value;
      match c.kind
      case ExecuteEffect => RunFault(l, i, c, epoch, false, other);
      case RetryEffect => RunFault(l, i, c, epoch, true, other);
      case _ => OtherFault(l, i, c, epoch, other);
    } else {
      AddressFault(l, c, epoch, other);
    }
  }

  lemma AddressFault(l: Ledger, c: Command, epoch: AuthorityEpoch, other: EffectError)
    requires KeysDeclared(l) && (!IsCurrent(l, c, epoch) || FindAction(l.entries, c.actionId).None?)
    ensures NamesFirst(l, c, epoch, other)
  {
    SnapshotShowsTheLedger(c.expectedState, l, epoch);
    hide SnapshotOf, ShowsLedger, CheckExecution, KeysDeclared, FaultyAt;
  }

  lemma OtherFault(l: Ledger, i: nat, c: Command, epoch: AuthorityEpoch, other: EffectError)
    requires KeysDeclared(l) && IsCurrent(l, c, epoch) && FindAction(l.entries, c.actionId) == Some(i)
    requires !c.kind.ExecuteEffect? && !c.kind.RetryEffect?
    ensures NamesFirst(l, c, epoch, other)
  {
    SnapshotShowsTheLedger(c.expectedState, l, epoch);
    hide SnapshotOf, ShowsLedger, CheckExecution, KeysDeclared, WouldOverflow, SequenceTerminal, FindAction;
  }

  /** An addressed command has no fault before its family's. */
  lemma AddressedFaults(l: Ledger, i: nat, c: Command, epoch: AuthorityEpoch, other: EffectError)
    requires KeysDeclared(l) && Addresses(l, i, c, epoch) && FindAction(l.entries, c.actionId) == Some(i)
    ensures Faulty(l, c, epoch, other) <==> Rank(other) >= 6 && FaultyAt(l, i, c, other)
  {
    SnapshotShowsTheLedger(c.expectedState, l, epoch);
    hide SnapshotOf, ShowsLedger, WouldOverflow, SequenceTerminal, FindAction, KeysDeclared;
  }

  lemma AddressedRunIsChecked(l: Ledger, i: nat, c: Command, epoch: AuthorityEpoch, retry: bool)
    requires KeysDeclared(l) && Addresses(l, i, c, epoch) && FindAction(l.entries, c.actionId) == Some(i)
    requires c.kind == if retry then RetryEffect else ExecuteEffect
    ensures CheckCommand(l, c, epoch) == CheckExecution(l, i, retry)
  {
    SnapshotShowsTheLedger(c.expectedState, l, epoch);
    hide SnapshotOf, ShowsLedger, CheckExecution, FindAction, KeysDeclared;
  }

  lemma RunFault(l: Ledger, i: nat, c: Command, epoch: AuthorityEpoch, retry: bool, other: EffectError)
    requires KeysDeclared(l) && IsI64Operands(l) && IsCurrent(l, c, epoch)
    requires FindAction(l.entries, c.actionId) == Some(i) && c.kind == if retry then RetryEffect else ExecuteEffect
    ensures NamesFirst(l, c, epoch, other)
  {
    hide CheckExecution, FaultyAt, Faulty, CheckCommand, FindAction, KeysDeclared, IsI64Operands, ShowsLedger;
    if c.occurrenceKey != l.entries[i].decl.occurrenceKey || l.counters.requests >= l.limits.requests {
      UnaddressedFault(l, i, c, epoch, other);
    } else {
      AddressedRunIsChecked(l, i, c, epoch, retry);
      RunNamesTheFirstFault(l, i, c, retry, if Rank(other) >= 6 then other else OverflowPanic);
      AddressedFaults(l, i, c, epoch, other);
      if CheckExecution(l, i, retry).Failure? {
        AddressedFaults(l, i, c, epoch, CheckExecution(l, i, retry).error);
      }
    }
  }

  lemma UnaddressedFault(l: Ledger, i: nat, c: Command, epoch: AuthorityEpoch, other: EffectError)
    requires KeysDeclared(l) && IsCurrent(l, c, epoch) && FindAction(l.entries, c.actionId) == Some(i)
    requires c.occurrenceKey != l.entries[i].decl.occurrenceKey || l.counters.requests >= l.limits.requests
    ensures NamesFirst(l, c, epoch, other)
  {
    SnapshotShowsTheLedger(c.expectedState, l, epoch);
    hide SnapshotOf, ShowsLedger, CheckExecution, KeysDeclared, WouldOverflow, SequenceTerminal, FindAction;
  }
}

/**
 * Every run of the effect ledger: arbitrary commands under arbitrary authority epochs, over any
 * interleaving of the declared occurrences.
 */
module EffectRuns {
  import opened Authority
  import opened Common
  import opened EffectLedger

  datatype Input = Input(command: Command, epoch: AuthorityEpoch)

  /** A rejected command leaves the ledger as it is. */
  ghost function Step(l: Ledger, input: Input): (r: Ledger)
    requires KeysDeclared(l)
    ensures KeysDeclared(r)
  {
    match Dispatch(l, input.command, input.epoch)
    case Success((next, _)) => next
    case Failure(_) => l
  }

  ghost function Run(l: Ledger, inputs: seq<Input>): (r: Ledger)
    requires KeysDeclared(l)
    ensures KeysDeclared(r)
  {
    if inputs == [] then l else Step(Run(l, inputs[..|inputs| - 1]), inputs[|inputs| - 1])
  }

  // ----- The sequential reference -----

  /** One occurrence applied in isolation: its expectation must hold and the sum must fit. */
  function ApplyOnce(d: Declaration, cells: map<string, int>): Option<map<string, int>> {
    if d.key !in cells || cells[d.key] != d.expected then None
    else
      match d.operation
      case SetCell => Some(cells[d.key := d.operand])
      case Increment =>
        match CheckedAddI64(cells[d.key], d.operand)
        case None => None
        case Some(sum) => Some(cells[d.key := sum])
  }

  /** The first `n` declarations replayed in declared order, skipping those outside `applied`. */
  function ReplayDeclared(
    cells: map<string, int>, entries: seq<Entry>, applied: set<nat>, n: nat): Option<map<string, int>>
    requires n <= |entries|
  {
    if n == 0 then Some(cells)
    else
      match ReplayDeclared(cells, entries, applied, n - 1)
      case None => None
      case Some(prior) => if n - 1 in applied then ApplyOnce(entries[n - 1].decl, prior) else Some(prior)
  }

  // ----- The invariant -----

  predicate Wrote(e: Entry) {
    e.journal.SawApplied? || e.journal.SawUnknown?
  }

  /** Status, attempts, cancellation, retained event and journal of one occurrence agree. */
  predicate EntryOk(e: Entry) {
    EntryShape(e) && (e.lastEvent.None? <==> e.status.Pending?)
  }

  predicate EntryShape(e: Entry) {
    && e.attempts <= |e.decl.outcomes|
    && match e.status
       case Pending => e.attempts == 0 && !e.cancelRequested && e.journal.NoWitness?
       case NotApplied => e.attempts > 0 && !e.cancelRequested && e.journal.SawNotApplied?
       case Applied => e.attempts > 0 && !e.cancelRequested && e.journal.SawApplied?
       case Ambiguous => e.attempts > 0 && !e.journal.NoWitness?
       case Cancelled =>
         e.cancelRequested && (if e.attempts == 0 then e.journal.NoWitness? else e.journal.SawNotApplied?)
       case ReconciledApplied => e.attempts > 0 && e.journal.SawApplied?
       case ReconciledNotApplied => e.attempts > 0 && e.journal.SawNotApplied?
  }

  ghost predicate Frame(init: Ledger, l: Ledger) {
    && l.id == init.id && l.limits == init.limits
    && |l.entries| == |init.entries|
    && (forall i :: 0 <= i < |l.entries| ==> l.entries[i].decl == init.entries[i].decl)
    && l.cells.Keys == init.cells.Keys
    && (forall k :: k in l.cells ==> IsI64(l.cells[k]))
    && l.generation == l.counters.requests
  }

  ghost predicate EntriesOk(l: Ledger) {
    forall i :: 0 <= i < |l.entries| ==> EntryOk(l.entries[i])
  }

  /** Nothing after an occurrence is attempted until that occurrence is terminal. */
  ghost predicate Ordered(l: Ledger) {
    forall i, j :: 0 <= i < j < |l.entries| && l.entries[j].attempts > 0 ==> SequenceTerminal(l.entries[i])
  }

  ghost predicate LogOk(l: Ledger) {
    && (forall a, b :: 0 <= a < b < |l.writeLog| ==> l.writeLog[a] < l.writeLog[b])
    && (forall i: nat :: i in l.writeLog <==> i < |l.entries| && Wrote(l.entries[i]))
  }

  /** The journal value of an ambiguous occurrence is the current value of its cell. */
  ghost predicate JournalCurrent(l: Ledger) {
    forall i :: 0 <= i < |l.entries| && l.entries[i].decl.key in l.cells ==>
      JournalMatches(l.entries[i], l.cells[l.entries[i].decl.key])
  }

  predicate JournalMatches(e: Entry, cell: int) {
    e.status.Ambiguous? ==>
      match e.journal
      case SawApplied(v) => v == cell
      case SawNotApplied(v) => v == cell
      case _ => true
  }

  ghost predicate Replayed(init: Ledger, l: Ledger) {
    ReplayDeclared(init.cells, l.entries, LogSet(l), |l.entries|) == Some(l.cells)
  }

  ghost function LogSet(l: Ledger): set<nat> {
    set i | i in l.writeLog
  }

  function SumAttempts(entries: seq<Entry>): nat {
    if entries == [] then 0 else SumAttempts(entries[..|entries| - 1]) + entries[|entries| - 1].attempts
  }

  function CountAttempted(entries: seq<Entry>): nat {
    if entries == [] then 0
    else CountAttempted(entries[..|entries| - 1]) + if entries[|entries| - 1].attempts > 0 then 1 else 0
  }

  ghost predicate Accounted(l: Ledger) {
    && l.counters.executions == SumAttempts(l.entries)
    && l.counters.retries + CountAttempted(l.entries) == l.counters.executions
    && l.counters.executions + l.counters.reconciliations <= l.counters.requests
    && l.counters.requests <= l.limits.requests
    && l.counters.executions <= l.limits.executions
    && l.counters.retries <= l.limits.retries
    && l.counters.reconciliations <= l.limits.reconciliations
  }

  ghost predicate Inv(init: Ledger, l: Ledger) {
    && WellFormed(init) && Frame(init, l) && EntriesOk(l) && Ordered(l) && LogOk(l) && JournalCurrent(l)
    && Replayed(init, l) && Accounted(l)
  }

  /** The ledger that `EffectCore::parse` hands out. */
  ghost predicate Initial(l: Ledger) {
    && WellFormed(l)
    && l.counters == Counters(0, 0, 0, 0) && l.generation == 0 && l.writeLog == []
    && (forall i :: 0 <= i < |l.entries| ==>
        l.entries[i] == Entry(l.entries[i].decl, Pending, 0, false, None, NoWitness))
  }

  // ----- Preservation -----

  /** What the command check establishes about the addressed occurrence. */
  ghost predicate Permitted(l: Ledger, index: nat, kind: CommandKind)
    requires KeysDeclared(l)
  {
    && index < |l.entries|
    && l.counters.requests < l.limits.requests
    && match kind
       case ExecuteEffect => CheckExecution(l, index, false).Success?
       case RetryEffect => CheckExecution(l, index, true).Success?
       case ReconcileEffect =>
         l.entries[index].status.Ambiguous? && l.counters.reconciliations < l.limits.reconciliations
       case CancelEffect => !l.entries[index].cancelRequested && !Completed(l.entries[index].status)
       case UnknownFamily => false
  }

  /** Everything later proofs need to know about one admitted transition. */
  ghost predicate Summary(l: Ledger, index: nat, m: Move) {
    index < |l.entries| && l.entries[index].decl.key in l.cells &&
    var e, d, cell := l.entries[index], l.entries[index].decl, l.cells[l.entries[index].decl.key];
    var ran := m.entry.attempts == e.attempts + 1;
    && m.entry.decl == d && EntryShape(m.entry) && !m.entry.status.Pending?
    && (ran || m.entry.attempts == e.attempts)
    && (ran ==>
          && !SequenceTerminal(e) && !e.status.Ambiguous?
          && forall i :: 0 <= i < index ==> SequenceTerminal(l.entries[i]))
    && (SequenceTerminal(e) ==> SequenceTerminal(m.entry))
    && (m.write.None? ==> (Wrote(e) <==> Wrote(m.entry)))
    && (m.write.Some? ==>
          && ran && !Wrote(e) && Wrote(m.entry) && IsI64(m.write.value)
          && ApplyOnce(d, l.cells) == Some(l.cells[d.key := m.write.value]))
    && JournalMatches(m.entry, if m.write.Some? then m.write.value else cell)
    && m.counters.requests == l.counters.requests + 1 <= l.limits.requests
    && m.counters.executions == l.counters.executions + (if ran then 1 else 0)
    && m.counters.retries == l.counters.retries + (if ran && e.attempts > 0 then 1 else 0)
    && l.counters.reconciliations <= m.counters.reconciliations
    && m.counters.executions + m.counters.reconciliations <= l.counters.executions + l.counters.reconciliations + 1
    && (ran ==> m.counters.executions <= l.limits.executions)
    && (m.counters.retries > l.counters.retries ==> m.counters.retries <= l.limits.retries)
    && (m.counters.reconciliations > l.counters.reconciliations ==>
        m.counters.reconciliations <= l.limits.reconciliations)
  }

  lemma CheckPermits(l: Ledger, c: Command, epoch: AuthorityEpoch)
    requires KeysDeclared(l)
    ensures CheckCommand(l, c, epoch).Success? ==> Permitted(l, CheckCommand(l, c, epoch).value, c.kind)
  {}

  lemma ExecutionSummary(l: Ledger, index: nat, retry: bool)
    requires KeysDeclared(l) && index < |l.entries| && EntryOk(l.entries[index]) && IsI64(l.entries[index].decl.operand)
    requires CheckExecution(l, index, retry).Success? && l.counters.requests < l.limits.requests
    ensures var e := l.entries[index];
            var m := ExecuteMove(e, l.counters.(requests := l.counters.requests + 1), l.cells[e.decl.key], retry);
            m.Success? && Summary(l, index, m.value)
  {}

  lemma ReconciliationSummary(l: Ledger, index: nat)
    requires KeysDeclared(l) && Permitted(l, index, ReconcileEffect) && EntryOk(l.entries[index])
    requires JournalMatches(l.entries[index], l.cells[l.entries[index].decl.key])
    ensures MoveOf(l, index, ReconcileEffect).Success?
    ensures Summary(l, index, MoveOf(l, index, ReconcileEffect).value)
  {
    hide ApplyOnce;
  }

  lemma CancellationSummary(l: Ledger, index: nat)
    requires KeysDeclared(l) && Permitted(l, index, CancelEffect) && EntryOk(l.entries[index])
    requires JournalMatches(l.entries[index], l.cells[l.entries[index].decl.key])
    ensures MoveOf(l, index, CancelEffect).Success?
    ensures Summary(l, index, MoveOf(l, index, CancelEffect).value)
  {
    hide ApplyOnce;
  }

  /** A permitted command always has a transition: no journal is missing and no sum overflows. */
  lemma PermittedMoves(l: Ledger, index: nat, kind: CommandKind)
    requires KeysDeclared(l) && Permitted(l, index, kind)
    requires EntryOk(l.entries[index]) && IsI64(l.entries[index].decl.operand)
    requires JournalMatches(l.entries[index], l.cells[l.entries[index].decl.key])
    ensures MoveOf(l, index, kind).Success? && Summary(l, index, MoveOf(l, index, kind).value)
  {
    hide Summary, EntryOk, JournalMatches;
    match kind
    case ExecuteEffect => ExecutionSummary(l, index, false);
    case RetryEffect => ExecutionSummary(l, index, true);
    case ReconcileEffect => ReconciliationSummary(l, index);
    case CancelEffect => CancellationSummary(l, index);
  }

  lemma SumAttemptsUpdate(entries: seq<Entry>, i: nat, e: Entry)
    requires i < |entries|
    ensures SumAttempts(entries[i := e]) == SumAttempts(entries) - entries[i].attempts + e.attempts
    ensures SumAttempts(entries) >= entries[i].attempts
  {
    var n := |entries| - 1;
    if i == n {
      assert entries[i := e][..n] == entries[..n];
    } else {
      assert entries[i := e][..n] == entries[..n][i := e];
      SumAttemptsUpdate(entries[..n], i, e);
    }
  }

  lemma CountAttemptedUpdate(entries: seq<Entry>, i: nat, e: Entry)
    requires i < |entries|
    ensures CountAttempted(entries[i := e]) + (if entries[i].attempts > 0 then 1 else 0)
         == CountAttempted(entries) + (if e.attempts > 0 then 1 else 0)
  {
    var n := |entries| - 1;
    if i == n {
      assert entries[i := e][..n] == entries[..n];
    } else {
      assert entries[i := e][..n] == entries[..n][i := e];
      CountAttemptedUpdate(entries[..n], i, e);
    }
  }

  /** Beyond the last applied index nothing is replayed. */
  lemma ReplayBeyond(cells: map<string, int>, entries: seq<Entry>, applied: set<nat>, n: nat, m: nat)
    requires m <= n <= |entries|
    requires forall i :: i in applied ==> i < m
    ensures ReplayDeclared(cells, entries, applied, n) == ReplayDeclared(cells, entries, applied, m)
  {
    if m < n {
      ReplayBeyond(cells, entries, applied, n - 1, m);
    }
  }

  /** The replay reads only declarations and membership below `n`. */
  lemma ReplayCongruent(cells: map<string, int>, e1: seq<Entry>, a1: set<nat>, e2: seq<Entry>, a2: set<nat>, n: nat)
    requires n <= |e1| && n <= |e2|
    requires forall i :: 0 <= i < n ==> e1[i].decl == e2[i].decl && (i in a1 <==> i in a2)
    ensures ReplayDeclared(cells, e1, a1, n) == ReplayDeclared(cells, e2, a2, n)
  {
    if n > 0 {
      ReplayCongruent(cells, e1, a1, e2, a2, n - 1);
    }
  }

  /** An occurrence that is not terminal has had no later occurrence attempted or written. */
  lemma NothingLater(l: Ledger, index: nat)
    requires EntriesOk(l) && Ordered(l) && index < |l.entries| && !SequenceTerminal(l.entries[index])
    ensures forall j :: index < j < |l.entries| ==> l.entries[j].attempts == 0 && !Wrote(l.entries[j])
  {
    forall j | index < j < |l.entries|
      ensures l.entries[j].attempts == 0 && !Wrote(l.entries[j])
    {
      assert EntryOk(l.entries[j]);
    }
  }

  lemma KeepsLog(l: Ledger, index: nat, c: Command, m: Move)
    requires EntriesOk(l) && Ordered(l) && LogOk(l) && Summary(l, index, m)
    ensures LogOk(Commit(l, index, c, m))
  {
    var l' := Commit(l, index, c, m);
    if m.write.Some? {
      NothingLater(l, index);
      forall a | 0 <= a < |l.writeLog|
        ensures l.writeLog[a] < index
      {
        assert l.writeLog[a] in l.writeLog;
      }
      assert forall i: nat :: i in l'.writeLog <==> i in l.writeLog || i == index;
    }
  }

  lemma KeepsReplay(init: Ledger, l: Ledger, index: nat, c: Command, m: Move)
    requires EntriesOk(l) && Ordered(l) && LogOk(l) && Replayed(init, l) && Summary(l, index, m)
    ensures Replayed(init, Commit(l, index, c, m))
  {
    hide EvidenceOf, EventOf, EntryShape, JournalMatches;
    var l' := Commit(l, index, c, m);
    assert l'.entries == l.entries[index := l'.entries[index]] && l'.entries[index].decl == l.entries[index].decl;
    if m.write.None? {
      ReplayCongruent(init.cells, l.entries, LogSet(l), l'.entries, LogSet(l'), |l.entries|);
    } else {
      NothingLater(l, index);
      assert forall i: nat :: i in LogSet(l') <==> i in LogSet(l) || i == index;
      ReplayExtends(init.cells, l.entries, LogSet(l), l'.entries, LogSet(l'), index);
    }
  }

  /** Adding one applied index above all others applies that one occurrence last. */
  lemma ReplayExtends(
    cells: map<string, int>, entries: seq<Entry>, applied: set<nat>, entries': seq<Entry>, applied': set<nat>,
    index: nat)
    requires index < |entries| == |entries'|
    requires forall i :: 0 <= i < |entries| ==> entries[i].decl == entries'[i].decl
    requires applied' == applied + {index} && forall i :: i in applied ==> i < index
    ensures var n := |entries|;
            ReplayDeclared(cells, entries', applied', n) ==
            match ReplayDeclared(cells, entries, applied, n)
            case None => None
            case Some(prior) => ApplyOnce(entries[index].decl, prior)
  {
    hide ApplyOnce;
    var n := |entries|;
    ReplayBeyond(cells, entries, applied, n, index);
    ReplayCongruent(cells, entries, applied, entries', applied', index);
    ReplayBeyond(cells, entries', applied', n, index + 1);
  }

  lemma KeepsJournal(l: Ledger, index: nat, c: Command, m: Move)
    requires KeysDeclared(l) && EntriesOk(l) && Ordered(l) && JournalCurrent(l) && Summary(l, index, m)
    ensures JournalCurrent(Commit(l, index, c, m))
  {
    if m.write.Some? {
      NothingLater(l, index);
      forall i | 0 <= i < |l.entries| && i != index
        ensures !l.entries[i].status.Ambiguous?
      {
        assert EntryOk(l.entries[i]);
        assert i < index ==> SequenceTerminal(l.entries[i]);
      }
    }
  }

  lemma KeepsAccounts(l: Ledger, index: nat, c: Command, m: Move)
    requires Accounted(l) && Summary(l, index, m)
    ensures Accounted(Commit(l, index, c, m))
  {
    var e := Commit(l, index, c, m).entries[index];
    assert Commit(l, index, c, m).entries == l.entries[index := e];
    SumAttemptsUpdate(l.entries, index, e);
    CountAttemptedUpdate(l.entries, index, e);
  }

  /** The entries of a commit: one entry replaced, and what replaced it. */
  lemma CommitEntries(l: Ledger, index: nat, c: Command, m: Move)
    requires EntriesOk(l) && Ordered(l) && Summary(l, index, m)
    ensures EntriesOk(Commit(l, index, c, m)) && Ordered(Commit(l, index, c, m))
  {}

  lemma CommitFrame(init: Ledger, l: Ledger, index: nat, c: Command, m: Move)
    requires Frame(init, l) && Summary(l, index, m)
    ensures Frame(init, Commit(l, index, c, m))
  {}

  lemma CommitKeeps(init: Ledger, l: Ledger, index: nat, c: Command, m: Move)
    requires KeysDeclared(l) && Inv(init, l) && Summary(l, index, m)
    ensures Inv(init, Commit(l, index, c, m))
  {
    CommitEntries(l, index, c, m);
    CommitFrame(init, l, index, c, m);
    KeepsLog(l, index, c, m);
    KeepsReplay(init, l, index, c, m);
    KeepsJournal(l, index, c, m);
    KeepsAccounts(l, index, c, m);
  }

  /** The command may run on the occurrence, it has a transition, and the transition is summarised. */
  ghost predicate Admitted(l: Ledger, index: nat, kind: CommandKind)
    requires KeysDeclared(l)
  {
    Permitted(l, index, kind) && MoveOf(l, index, kind).Success? && Summary(l, index, MoveOf(l, index, kind).value)
  }

  /** Under the invariant the command check decides the whole outcome. */
  lemma CheckDecides(init: Ledger, l: Ledger, c: Command, epoch: AuthorityEpoch)
    requires KeysDeclared(l) && Inv(init, l)
    ensures CheckCommand(l, c, epoch).Success? <==> Dispatch(l, c, epoch).Success?
    ensures Dispatch(l, c, epoch) != Failure(JournalMissing) && Dispatch(l, c, epoch) != Failure(OverflowPanic)
    ensures Dispatch(l, c, epoch).Success? ==> Admitted(l, CheckCommand(l, c, epoch).value, c.kind)
  {
    if CheckCommand(l, c, epoch).Success? {
      AdmittedUnderInvariant(init, l, c, epoch);
      hide CheckCommand, MoveOf, Summary, Permitted, Inv, ReceiptOf, Commit;
    } else {
      CheckFailures(l, c, epoch);
      hide CheckCommand, Inv;
    }
  }

  lemma CheckFailures(l: Ledger, c: Command, epoch: AuthorityEpoch)
    requires KeysDeclared(l)
    ensures CheckCommand(l, c, epoch) != Failure(JournalMissing) && CheckCommand(l, c, epoch) != Failure(OverflowPanic)
  {
    hide SnapshotOf;
  }

  lemma AdmittedUnderInvariant(init: Ledger, l: Ledger, c: Command, epoch: AuthorityEpoch)
    requires KeysDeclared(l) && Inv(init, l) && CheckCommand(l, c, epoch).Success?
    ensures Admitted(l, CheckCommand(l, c, epoch).value, c.kind)
  {
    hide CheckCommand, Permitted, Summary, MoveOf, Ordered, LogOk, Replayed, Accounted, EntryOk, JournalMatches;
    var index := CheckCommand(l, c, epoch).value;
    CheckPermits(l, c, epoch);
    assert EntryOk(l.entries[index]) && DeclarationOk(init.entries[index].decl, init.cells);
    PermittedMoves(l, index, c.kind);
  }

  lemma StepKeeps(init: Ledger, l: Ledger, input: Input)
    requires KeysDeclared(l) && Inv(init, l)
    ensures Inv(init, Step(l, input))
  {
    hide CheckCommand, ExecuteMove, ReconcileMove, CancelMove, ReceiptOf, Commit, Summary, Inv;
    var c, epoch := input.command, input.epoch;
    CheckDecides(init, l, c, epoch);
    if Dispatch(l, c, epoch).Success? {
      var index := CheckCommand(l, c, epoch).value;
      CommitKeeps(init, l, index, c, MoveOf(l, index, c.kind).value);
    }
  }

  lemma InitialHolds(init: Ledger)
    requires Initial(init)
    ensures KeysDeclared(init) && Inv(init, init)
  {
    assert forall i :: 0 <= i < |init.entries| ==> DeclarationOk(init.entries[i].decl, init.cells);
    NoAttempts(init.entries);
    ReplayBeyond(init.cells, init.entries, LogSet(init), |init.entries|, 0);
  }

  lemma NoAttempts(entries: seq<Entry>)
    requires forall i :: 0 <= i < |entries| ==> entries[i].attempts == 0
    ensures SumAttempts(entries) == 0 && CountAttempted(entries) == 0
  {
    if entries != [] {
      NoAttempts(entries[..|entries| - 1]);
    }
  }

  lemma {:induction false} RunKeeps(init: Ledger, inputs: seq<Input>)
    requires Initial(init)
    ensures KeysDeclared(init) && Inv(init, Run(init, inputs))
  {
    InitialHolds(init);
    if inputs != [] {
      RunKeeps(init, inputs[..|inputs| - 1]);
      StepKeeps(init, Run(init, inputs[..|inputs| - 1]), inputs[|inputs| - 1]);
    }
  }

  // ----- Main results -----

  /**
   * Whatever the interleaving, the cells are the initial cells with exactly the written occurrences
   * replayed once each in declared order, every expectation met and no sum out of range.
   */
  lemma RunIsSequentialReplay(init: Ledger, inputs: seq<Input>)
    requires Initial(init)
    ensures KeysDeclared(init)
    ensures var l := Run(init, inputs);
            && ReplayDeclared(init.cells, init.entries, LogSet(l), |init.entries|) == Some(l.cells)
            && (forall i :: i in LogSet(l) ==> i < |init.entries|)
  {
    RunKeeps(init, inputs);
    var l := Run(init, inputs);
    ReplayCongruent(init.cells, l.entries, LogSet(l), init.entries, LogSet(l), |init.entries|);
  }

  /** The insertions of a run are at distinct occurrences, in declared order. */
  lemma WritesAtMostOnceInOrder(init: Ledger, inputs: seq<Input>)
    requires Initial(init)
    ensures KeysDeclared(init)
    ensures var log := Run(init, inputs).writeLog;
            forall a, b :: 0 <= a < b < |log| ==> log[a] < log[b]
  {
    RunKeeps(init, inputs);
  }

  /** A terminal occurrence stays terminal, is never attempted again and never writes again. */
  lemma {:induction false} TerminalIsAbsorbing(init: Ledger, inputs: seq<Input>, more: seq<Input>, i: nat)
    requires Initial(init) && KeysDeclared(init)
    requires i < |Run(init, inputs).entries| && SequenceTerminal(Run(init, inputs).entries[i])
    ensures var before, after := Run(init, inputs), Run(init, inputs + more);
            && i < |after.entries| && SequenceTerminal(after.entries[i])
            && after.entries[i].attempts == before.entries[i].attempts
            && (i in after.writeLog <==> i in before.writeLog)
    decreases |more|
  {
    hide Dispatch, Inv;
    if more == [] {
      assert inputs + more == inputs;
    } else {
      var fewer, last := more[..|more| - 1], more[|more| - 1];
      TerminalIsAbsorbing(init, inputs, fewer, i);
      assert (inputs + more)[..|inputs + more| - 1] == inputs + fewer;
      RunKeeps(init, inputs + fewer);
      TerminalStep(init, Run(init, inputs + fewer), last, i);
    }
  }

  lemma TerminalStep(init: Ledger, l: Ledger, input: Input, i: nat)
    requires KeysDeclared(l) && Inv(init, l) && i < |l.entries| && SequenceTerminal(l.entries[i])
    ensures var l' := Step(l, input);
            && |l'.entries| == |l.entries| && SequenceTerminal(l'.entries[i])
            && l'.entries[i].attempts == l.entries[i].attempts
            && (i in l'.writeLog <==> i in l.writeLog)
  {
    hide CheckCommand, MoveOf, CheckExecution, EvidenceOf, EventOf, SnapshotOf, ApplyOnce, EntryShape, JournalMatches;
    CheckDecides(init, l, input.command, input.epoch);
    StepKeeps(init, l, input);
  }

  /** What each status says about the cell insertion of its occurrence, in every reachable ledger. */
  lemma StatusMeansWrite(init: Ledger, inputs: seq<Input>, i: nat)
    requires Initial(init) && i < |init.entries|
    ensures KeysDeclared(init)
    ensures var l := Run(init, inputs);
            |l.entries| == |init.entries| &&
            match l.entries[i].status
            case Applied => i in l.writeLog
            case ReconciledApplied => i in l.writeLog
            case Ambiguous => i in l.writeLog <==> !l.entries[i].journal.SawNotApplied?
            case _ => i !in l.writeLog
  {
    RunKeeps(init, inputs);
    assert EntryOk(Run(init, inputs).entries[i]);
  }

  /** What one receipt says about occurrence `i`, against the write logs before and after. */
  predicate Truthful(r: Receipt, i: nat, before: seq<nat>, after: seq<nat>) {
    && (r.effectApplied == Some(true) ==> i in after)
    && (r.effectApplied == Some(false) ==> i !in after)
    && (r.effectApplied == None <==> r.status == Ambiguous)
    && (after == before || (after == before + [i] && i !in before))
  }

  /**
   * A receipt says applied only after the insertion happened, says not applied only when it never has,
   * and says nothing exactly when the status is ambiguous. One dispatch inserts at most once.
   */
  lemma ReceiptTellsTheTruth(init: Ledger, inputs: seq<Input>, c: Command, epoch: AuthorityEpoch)
    requires Initial(init) && KeysDeclared(init)
    requires Dispatch(Run(init, inputs), c, epoch).Success?
    ensures var l := Run(init, inputs);
            var (l', r) := Dispatch(l, c, epoch).value;
            FindAction(l.entries, c.actionId).Some?
            && Truthful(r, FindAction(l.entries, c.actionId).value, l.writeLog, l'.writeLog)
  {
    RunKeeps(init, inputs);
    hide Truthful, Dispatch, Inv, Run;
    TruthfulStep(init, Run(init, inputs), c, epoch);
  }

  lemma TruthfulStep(init: Ledger, l: Ledger, c: Command, epoch: AuthorityEpoch)
    requires KeysDeclared(l) && Inv(init, l) && Dispatch(l, c, epoch).Success?
    ensures var (l', r) := Dispatch(l, c, epoch).value;
            FindAction(l.entries, c.actionId).Some?
            && Truthful(r, FindAction(l.entries, c.actionId).value, l.writeLog, l'.writeLog)
  {
    hide CheckCommand, MoveOf, Inv, Truthful, Summary;
    CheckDecides(init, l, c, epoch);
    var i := CheckCommand(l, c, epoch).value;
    TruthfulCommit(init, l, i, c, MoveOf(l, i, c.kind).value, epoch, SnapshotOf(l, epoch), l.entries[i].lastEvent);
  }

  lemma TruthfulCommit(
    init: Ledger, l: Ledger, i: nat, c: Command, m: Move, epoch: AuthorityEpoch, prior: Snapshot,
    recoveryOf: Option<Event>)
    requires KeysDeclared(l) && Inv(init, l) && Admitted(l, i, c.kind) && MoveOf(l, i, c.kind) == Success(m)
    ensures var l' := Commit(l, i, c, m);
            Truthful(ReceiptOf(l', i, c, EvidenceOf(l.id.session, m), epoch, prior, recoveryOf), i, l.writeLog,
                     l'.writeLog)
  {
    hide MoveOf, Permitted, Frame, Ordered, JournalCurrent, Replayed, Accounted, SnapshotOf, EntryOk, EntryShape,
      WellFormed;
    CommitKeeps(init, l, i, c, m);
    assert EntryOk(l.entries[i]);
    MoveTellsTheTruth(l, i, c.kind, m);
    assert Commit(l, i, c, m).entries[i].journal == m.entry.journal;
  }

  lemma MoveTellsTheTruth(l: Ledger, index: nat, kind: CommandKind, m: Move)
    requires KeysDeclared(l) && Permitted(l, index, kind) && EntryOk(l.entries[index])
    requires MoveOf(l, index, kind) == Success(m)
    ensures m.applied == Some(true) ==> Wrote(m.entry)
    ensures m.applied == Some(false) ==> !Wrote(m.entry)
    ensures m.applied.None? <==> m.entry.status.Ambiguous?
  {}

  /** A rejected command is rejected by the command check; nothing after the check fails. */
  lemma RejectionIsTheCheck(init: Ledger, inputs: seq<Input>, c: Command, epoch: AuthorityEpoch)
    requires Initial(init)
    ensures KeysDeclared(init)
    ensures var l := Run(init, inputs);
            match CheckCommand(l, c, epoch)
            case Success(_) => Dispatch(l, c, epoch).Success?
            case Failure(e) => Dispatch(l, c, epoch) == Failure(e) && e != JournalMissing && e != OverflowPanic
  {
    RunKeeps(init, inputs);
    CheckDecides(init, Run(init, inputs), c, epoch);
  }

  /** Reconciliation reports the current value of the cell, although it reads only the journal. */
  lemma ReconciliationReportsTheCell(init: Ledger, inputs: seq<Input>, c: Command, epoch: AuthorityEpoch)
    requires Initial(init) && KeysDeclared(init)
    requires c.kind.ReconcileEffect? && Dispatch(Run(init, inputs), c, epoch).Success?
    ensures var l := Run(init, inputs);
            var (l', r) := Dispatch(l, c, epoch).value;
            && l'.cells == l.cells
            && (r.post.Some? ==> r.post.value.key in l.cells && r.post.value.value == l.cells[r.post.value.key])
            && (r.status == ReconciledApplied || r.status == ReconciledNotApplied <==> r.post.Some?)
  {
    RunKeeps(init, inputs);
    var l := Run(init, inputs);
    CheckDecides(init, l, c, epoch);
    var i := FindAction(l.entries, c.actionId).value;
    assert EntryOk(l.entries[i]) && JournalMatches(l.entries[i], l.cells[l.entries[i].decl.key]);
  }
}

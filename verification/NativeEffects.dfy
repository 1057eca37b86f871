/**
 * The native objects, updated in place: the effect core, the shared authority binding, the approval
 * seals and the session that ties them. Each method is proved against its specification function.
 */
module NativeEffects {
  import opened Authority
  import opened Common
  import opened EffectLedger
  import opened EffectRuns
  import Approvals = EffectApprovals

  datatype Profile = Profile(id: Identity, limits: Limits, cells: map<string, int>, entries: seq<Declaration>)
  datatype ProfileError = LimitOutOfBounds | CellRegistryBound | ManifestBound | DuplicateOwner | UndeclaredCell

  /** What `EffectCore::parse` demands of the schema-checked profile. */
  ghost predicate ProfileAccepted(p: Profile) {
    && LimitsOk(p.limits)
    && 1 <= |p.cells| <= MAX_ENTRIES
    && 1 <= |p.entries| <= MAX_ENTRIES
    && ManifestAccepted(p)
  }

  ghost predicate ManifestAccepted(p: Profile) {
    && UniqueOwners(p.entries, |p.entries|)
    && (forall i :: 0 <= i < |p.entries| ==> p.entries[i].key in p.cells)
  }

  ghost predicate UniqueOwners(ds: seq<Declaration>, n: nat)
    requires n <= |ds|
  {
    forall i, j :: 0 <= i < j < n ==>
      && ds[i].occurrenceKey != ds[j].occurrenceKey
      && ds[i].actionId != ds[j].actionId
      && ds[i].proposalKey != ds[j].proposalKey
  }

  /** The three sets hold the owner names of the first `n` declarations. */
  ghost predicate OwnersSeen(
    ds: seq<Declaration>, n: nat, owners: set<string>, actions: set<string>, proposals: set<string>)
    requires n <= |ds|
  {
    && owners == (set i | 0 <= i < n :: ds[i].occurrenceKey)
    && actions == (set i | 0 <= i < n :: ds[i].actionId)
    && proposals == (set i | 0 <= i < n :: ds[i].proposalKey)
  }

  /** Looking the next declaration up in the three sets decides whether its owner names are unique so far. */
  lemma OwnersDecide(ds: seq<Declaration>, n: nat, owners: set<string>, actions: set<string>, proposals: set<string>)
    requires n < |ds| && UniqueOwners(ds, n) && OwnersSeen(ds, n, owners, actions, proposals)
    ensures var d := ds[n];
            if d.occurrenceKey in owners || d.actionId in actions || d.proposalKey in proposals
            then !UniqueOwners(ds, |ds|)
            else UniqueOwners(ds, n + 1)
    ensures OwnersSeen(ds, n + 1, owners + {ds[n].occurrenceKey}, actions + {ds[n].actionId},
                       proposals + {ds[n].proposalKey})
  {}

  /** Field ranges that the record schema guarantees before `parse` looks at the manifest. */
  ghost predicate FieldsInRange(p: Profile) {
    && (forall k :: k in p.cells ==> IsI64(p.cells[k]))
    && (forall d :: d in p.entries ==> IsI64(d.operand) && IsI64(d.expected) && 1 <= |d.outcomes| <= MAX_OUTCOMES)
  }

  /** The ledger of an accepted profile is initial. */
  lemma AcceptedIsInitial(p: Profile, l: Ledger)
    requires ProfileAccepted(p) && FieldsInRange(p) && l.limits == p.limits && l.cells == p.cells
    requires l.counters == Counters(0, 0, 0, 0) && l.generation == 0 && l.writeLog == [] && |l.entries| == |p.entries|
    requires forall i :: 0 <= i < |l.entries| ==>
               l.entries[i] == Entry(p.entries[i], Pending, 0, false, None, NoWitness)
    ensures Initial(l)
  {}

  /** What an attempt counts and observes: the cell before, and the cell after it unless the outcome is ambiguous. */
  lemma AttemptFacts(e: Entry, n: Counters, cell: int, retry: bool)
    requires e.attempts < |e.decl.outcomes|
    ensures ExecuteMove(e, n, cell, retry).Success? ==>
              var m := ExecuteMove(e, n, cell, retry).value;
              && m.entry.decl == e.decl && m.pre == Some(cell)
              && m.counters == n.(executions := n.executions + 1, retries := n.retries + if retry then 1 else 0)
              && m.post == if m.entry.status.Ambiguous? then None
                           else Some((After, if m.write.Some? then m.write.value else cell))
  {}

  class EffectCore {
    const id: Identity
    const limits: Limits
    var counters: Counters
    var cells: map<string, int>
    var entries: seq<Entry>
    var generation: nat
    ghost var writeLog: seq<nat>

    ghost function Value(): Ledger
      reads this
    {
      Ledger(id, limits, counters, cells, entries, generation, writeLog)
    }

    ghost predicate Valid()
      reads this
    {
      KeysDeclared(Value())
    }

    constructor (id: Identity, limits: Limits, cells: map<string, int>, entries: seq<Entry>)
      ensures Value() == Ledger(id, limits, Counters(0, 0, 0, 0), cells, entries, 0, [])
    {
      this.id, this.limits := id, limits;
      this.counters, this.cells, this.entries := Counters(0, 0, 0, 0), cells, entries;
      this.generation, this.writeLog := 0, [];
    }

    /** `EffectCore::parse` after the schema checks: bounds, then unique ownership and known cells in order. */
    static method Parse(p: Profile) returns (r: Result<EffectCore, ProfileError>)
      ensures r.Success? <==> ProfileAccepted(p)
      ensures r.Success? ==> fresh(r.value) && r.value.Valid()
      ensures r.Success? ==> r.value.id == p.id && r.value.limits == p.limits
      ensures r.Success? && FieldsInRange(p) ==> Initial(r.value.Value())
      ensures r.Success? ==>
                && r.value.cells == p.cells && |r.value.entries| == |p.entries|
                && forall i :: 0 <= i < |p.entries| ==> r.value.entries[i].decl == p.entries[i]
    {
      if !LimitsOk(p.limits) {
        return Failure(LimitOutOfBounds);
      }
      if |p.cells| == 0 || |p.cells| > MAX_ENTRIES {
        return Failure(CellRegistryBound);
      }
      if |p.entries| == 0 || |p.entries| > MAX_ENTRIES {
        return Failure(ManifestBound);
      }
      var entries :- Manifest(p);
      var core := new EffectCore(p.id, p.limits, p.cells, entries);
      if FieldsInRange(p) {
        AcceptedIsInitial(p, core.Value());
      }
      r := Success(core);
    }

    /** The manifest, in declared order: unique ownership, then a known cell, for each declaration. */
    static method Manifest(p: Profile) returns (r: Result<seq<Entry>, ProfileError>)
      ensures r.Success? <==> ManifestAccepted(p)
      ensures r.Success? ==>
                && |r.value| == |p.entries|
                && forall i :: 0 <= i < |p.entries| ==>
                  r.value[i] == Entry(p.entries[i], Pending, 0, false, None, NoWitness)
    {
      var owners, actions, proposals: set<string> := {}, {}, {};
      var entries: seq<Entry> := [];
      assert UniqueOwners(p.entries, 0);
      hide UniqueOwners, OwnersSeen;
      for n := 0 to |p.entries|
        invariant OwnersSeen(p.entries, n, owners, actions, proposals)
        invariant UniqueOwners(p.entries, n)
        invariant forall i :: 0 <= i < n ==> p.entries[i].key in p.cells
        invariant |entries| == n
        invariant forall i :: 0 <= i < n ==> entries[i] == Entry(p.entries[i], Pending, 0, false, None, NoWitness)
      {
        var d := p.entries[n];
        OwnersDecide(p.entries, n, owners, actions, proposals);
        if d.occurrenceKey in owners || d.actionId in actions || d.proposalKey in proposals {
          return Failure(DuplicateOwner);
        }
        owners, actions, proposals := owners + {d.occurrenceKey}, actions + {d.actionId}, proposals + {d.proposalKey};
        if d.key !in p.cells {
          return Failure(UndeclaredCell);
        }
        entries := entries + [Entry(d, Pending, 0, false, None, NoWitness)];
      }
      r := Success(entries);
    }

    method Clone() returns (c: EffectCore)
      requires Valid()
      ensures fresh(c) && c.Value() == Value()
    {
      c := new EffectCore(id, limits, cells, entries);
      c.counters, c.generation, c.writeLog := counters, generation, writeLog;
    }

    /** `snapshot_value`. */
    function Current(epoch: AuthorityEpoch): (r: Snapshot)
      reads this
      ensures r == SnapshotOf(Value(), epoch)
    {
      Snapshot(id, epoch, generation, generation, limits, counters, cells,
               seq(|entries|, i requires 0 <= i < |entries| reads this => OccurrenceOf(entries[i])))
    }

    /** The command check: reads only. */
    method Check(c: Command, epoch: AuthorityEpoch) returns (r: Result<nat, EffectError>)
      requires Valid()
      ensures r == CheckCommand(Value(), c, epoch)
    {
      if c.session != id.session {
        return Failure(ForeignSession);
      }
      if epoch.revoked {
        return Failure(AuthorityRevoked);
      }
      if c.expectedState != Current(epoch) {
        return Failure(StaleState);
      }
      var found := FindAction(entries, c.actionId);
      if found.None? {
        return Failure(UnknownAction);
      }
      var index := found.value;
      var entry := entries[index];
      if c.occurrenceKey != entry.decl.occurrenceKey {
        return Failure(OccurrenceMismatch);
      }
      if counters.requests >= limits.requests {
        return Failure(RequestBudget);
      }
      match c.kind {
        case ExecuteEffect =>
          r := CheckRun(index, false);
        case RetryEffect =>
          r := CheckRun(index, true);
        case ReconcileEffect =>
          if entry.status != Ambiguous {
            return Failure(NotAmbiguous);
          }
          if counters.reconciliations >= limits.reconciliations {
            return Failure(ReconciliationBudget);
          }
          r := Success(index);
        case CancelEffect =>
          if entry.cancelRequested || Completed(entry.status) {
            return Failure(CannotCancel);
          }
          r := Success(index);
        case UnknownFamily =>
          r := Failure(UnknownCommandFamily);
      }
    }

    method CheckRun(index: nat, retry: bool) returns (r: Result<nat, EffectError>)
      requires Valid() && index < |entries|
      ensures r == CheckExecution(Value(), index, retry)
    {
      var entry := entries[index];
      if entry.cancelRequested {
        return Failure(OccurrenceCancelled);
      }
      for i := 0 to index
        invariant forall k :: 0 <= k < i ==> SequenceTerminal(entries[k])
      {
        if !SequenceTerminal(entries[i]) {
          return Failure(PredecessorUnfinished);
        }
      }
      if !retry && entry.status != Pending {
        return Failure(AlreadyAttempted);
      }
      if retry && entry.status != NotApplied && entry.status != ReconciledNotApplied {
        return Failure(RetryWithoutProof);
      }
      if retry && counters.retries >= limits.retries {
        return Failure(RetryBudget);
      }
      if counters.executions >= limits.executions {
        return Failure(ExecutionBudget);
      }
      if entry.attempts >= |entry.decl.outcomes| {
        return Failure(PlanExhausted);
      }
      var scenario := entry.decl.outcomes[entry.attempts];
      if cells[entry.decl.key] == entry.decl.expected && entry.decl.operation.Increment?
         && scenario != FailBefore && scenario != CrashBefore
         && CheckedAddI64(cells[entry.decl.key], entry.decl.operand).None? {
        return Failure(ArithmeticOverflow);
      }
      r := Success(index);
    }

    /**
     * Spend the budgets, move the cell and the journal, retain the event. A failure after the command
     * check leaves a half-updated core, which is why the session dispatches on a clone.
     */
    method Commit(c: Command, epoch: AuthorityEpoch) returns (r: Result<Receipt, EffectError>)
      requires Valid()
      modifies this
      ensures match Dispatch(old(Value()), c, epoch)
              case Success((next, receipt)) => r == Success(receipt) && Value() == next
              case Failure(e) =>
                r == Failure(e) && (e != JournalMissing && e != OverflowPanic ==> Value() == old(Value()))
    {
      hide CheckCommand, SnapshotOf, MoveOf, EffectLedger.Commit, EvidenceOf, ReceiptOf;
      var index :- Check(c, epoch);
      r := Perform(index, c, epoch);
    }

    /** The transition of an admitted command on entry `index`. */
    method Perform(index: nat, c: Command, epoch: AuthorityEpoch) returns (r: Result<Receipt, EffectError>)
      requires Valid() && index < |entries| && !c.kind.UnknownFamily?
      requires c.kind.ExecuteEffect? || c.kind.RetryEffect? ==> entries[index].attempts < |entries[index].decl.outcomes|
      modifies this
      ensures var l := old(Value());
              match MoveOf(l, index, c.kind)
              case Failure(e) => r == Failure(e)
              case Success(m) =>
                && Value() == EffectLedger.Commit(l, index, c, m)
                && r == Success(ReceiptOf(Value(), index, c, EvidenceOf(id.session, m), epoch, SnapshotOf(l, epoch),
                                          l.entries[index].lastEvent))
    {
      hide ExecuteMove, ReconcileMove, CancelMove, EvidenceOf, Retain, ReceiptOf, SnapshotOf;
      var prior := Current(epoch);
      var recoveryOf := entries[index].lastEvent;
      counters := counters.(requests := counters.requests + 1);
      var evidence;
      match c.kind {
        case ExecuteEffect =>
          evidence :- Attempt(index, false);
        case RetryEffect =>
          evidence :- Attempt(index, true);
        case ReconcileEffect =>
          evidence :- Reconcile(index);
        case CancelEffect =>
          evidence := Cancel(index);
      }
      var receipt := Record(index, c, evidence, epoch, prior, recoveryOf);
      r := Success(receipt);
    }

    /** Count the generation, retain the event in its entry and issue the receipt. */
    method Record(
      index: nat, c: Command, evidence: Evidence, epoch: AuthorityEpoch, prior: Snapshot, recoveryOf: Option<Event>)
      returns (r: Receipt)
      requires index < |entries|
      modifies this
      ensures Value() == Retain(old(Value()), index, c, evidence)
      ensures r == ReceiptOf(Value(), index, c, evidence, epoch, prior, recoveryOf)
    {
      generation := generation + 1;
      var e := entries[index];
      var event := EventOf(c, generation, e, evidence);
      entries := entries[index := e.(lastEvent := Some(event))];
      var resulting := Current(epoch);
      e := entries[index];
      r := Receipt(id, epoch.epoch, c, c.kind, e.decl.actionId, e.decl.occurrenceKey, e.decl.admissionId,
                   e.decl.operation, e.decl.argumentsId, e.attempts, e.status, e.status.Ambiguous?,
                   evidence.applied, evidence.pre, evidence.post,
                   if c.kind.ExecuteEffect? then None else recoveryOf, event, prior, resulting,
                   counters, generation, e.cancelRequested, evidence.failure);
    }

    method Reconcile(index: nat) returns (r: Result<Evidence, EffectError>)
      requires Valid() && index < |entries|
      modifies this
      ensures match ReconcileMove(old(entries[index]), old(counters))
              case Failure(e) => r == Failure(e)
              case Success(m) => r == Success(EvidenceOf(id.session, m)) && Value() == AfterMove(old(Value()), index, m)
    {
      counters := counters.(reconciliations := counters.reconciliations + 1);
      var entry := entries[index];
      var post: Option<Observation> := None;
      var applied: Option<bool> := None;
      var failure: Option<FailureReason> := None;
      match entry.journal {
        case SawApplied(value) =>
          entries := entries[index := entry.(status := ReconciledApplied)];
          applied := Some(true);
          post := Some(Observe(id.session, entry, Reconciliation, value));
        case SawNotApplied(value) =>
          entries := entries[index := entry.(status := ReconciledNotApplied)];
          applied := Some(false);
          post := Some(Observe(id.session, entry, Reconciliation, value));
        case SawUnknown =>
          failure := Some(ReconciliationUnknown);
        case NoWitness =>
          return Failure(JournalMissing);
      }
      r := Success(EffectLedger.Evidence(None, post, applied, failure));
    }

    method Cancel(index: nat) returns (evidence: Evidence)
      requires Valid() && index < |entries|
      modifies this
      ensures var m := CancelMove(old(entries[index]), old(counters));
              evidence == EvidenceOf(id.session, m) && Value() == AfterMove(old(Value()), index, m)
    {
      var applied: Option<bool> := None;
      entries := entries[index := entries[index].(cancelRequested := true)];
      if entries[index].status != Ambiguous {
        entries := entries[index := entries[index].(status := Cancelled)];
        applied := Some(false);
      }
      evidence := EffectLedger.Evidence(None, None, applied, None);
    }

    /** The cell insertion of a successful or unacknowledged attempt; returns the entry as the journal records it. */
    method Insert(index: nat, entry: Entry, scenario: Scenario) returns (r: Result<Entry, EffectError>)
      requires entry.decl.key in cells && (scenario.Succeed? || scenario.CrashAfter? || scenario.AckUnknown?)
      modifies this`cells, this`writeLog
      ensures var before := old(cells[entry.decl.key]);
              var after := if entry.decl.operation.SetCell? then Some(entry.decl.operand)
                else CheckedAddI64(before, entry.decl.operand);
              if after.None? then r == Failure(OverflowPanic)
              else
                && cells == old(cells)[entry.decl.key := after.value] && writeLog == old(writeLog) + [index]
                && r == Success(entry.(
                     status := if scenario.Succeed? then Applied else Ambiguous,
                     journal := if scenario.AckUnknown? then SawUnknown else SawApplied(after.value)))
    {
      var after := entry.decl.operand;
      if entry.decl.operation.Increment? {
        var sum := CheckedAddI64(cells[entry.decl.key], entry.decl.operand);
        if sum.None? {
          return Failure(OverflowPanic);
        }
        after := sum.value;
      }
      cells := cells[entry.decl.key := after];
      writeLog := writeLog + [index];
      var e := entry.(journal := if scenario == AckUnknown then SawUnknown else SawApplied(after));
      if scenario == Succeed {
        e := e.(status := Applied);
      } else {
        e := e.(status := Ambiguous);
      }
      r := Success(e);
    }

    /** The outcome of one attempt: the entry as it will be stored, what is claimed and why it failed. */
    method Settle(index: nat, ghost n: Counters, ghost retry: bool)
      returns (r: Result<Entry, EffectError>, applied: Option<bool>, failure: Option<FailureReason>)
      requires Valid() && index < |entries| && entries[index].attempts < |entries[index].decl.outcomes|
      modifies this`cells, this`writeLog
      ensures match ExecuteMove(entries[index], n, old(cells[entries[index].decl.key]), retry)
              case Failure(e) => r == Failure(e)
              case Success(m) =>
                && r == Success(m.entry) && applied == m.applied && failure == m.failure
                && cells == (if m.write.None? then old(cells) else old(cells)[m.entry.decl.key := m.write.value])
                && writeLog == (if m.write.None? then old(writeLog) else old(writeLog) + [index])
    {
      applied, failure := None, None;
      var entry := entries[index];
      var scenario, before := entry.decl.outcomes[entry.attempts], cells[entry.decl.key];
      entry := entry.(attempts := entry.attempts + 1);
      if before != entry.decl.expected {
        entry := entry.(status := NotApplied, journal := SawNotApplied(before));
        applied, failure := Some(false), Some(PreconditionMismatch);
      } else {
        match scenario {
          case FailBefore =>
            entry := entry.(status := NotApplied, journal := SawNotApplied(before));
            applied, failure := Some(false), Some(SyntheticFailureBefore);
          case CrashBefore =>
            entry := entry.(status := Ambiguous, journal := SawNotApplied(before));
            failure := Some(AcknowledgementLost);
          case _ =>
            r := Insert(index, entry, scenario);
            if r.Failure? {
              return;
            }
            entry := r.value;
            if entry.status == Applied {
              applied := Some(true);
            } else {
              failure := Some(AcknowledgementLost);
            }
        }
      }
      r := Success(entry);
    }

    /** One execution or retry attempt of the entry, after the request has been counted. */
    method Attempt(index: nat, retry: bool) returns (r: Result<Evidence, EffectError>)
      requires Valid() && index < |entries| && entries[index].attempts < |entries[index].decl.outcomes|
      modifies this
      ensures match ExecuteMove(old(entries[index]), old(counters), old(cells[entries[index].decl.key]), retry)
              case Failure(e) => r == Failure(e)
              case Success(m) =>
                && r == Success(EvidenceOf(id.session, m))
                && counters == m.counters && entries == old(entries)[index := m.entry] && generation == old(generation)
                && (m.write.None? ==> cells == old(cells) && writeLog == old(writeLog))
                && (m.write.Some? ==>
                      cells == old(cells)[m.entry.decl.key := m.write.value] && writeLog == old(writeLog) + [index])
    {
      ghost var n := counters;
      counters := counters.(executions := counters.executions + 1);
      if retry {
        counters := counters.(retries := counters.retries + 1);
      }
      var before := cells[entries[index].decl.key];
      var settled, applied, failure := Settle(index, n, retry);
      var entry :- settled;
      entries := entries[index := entry];
      var post: Option<Observation> := None;
      if entry.status != Ambiguous {
        post := Some(Observe(id.session, entry, After, cells[entry.decl.key]));
      }
      AttemptFacts(old(entries[index]), n, before, retry);
      hide ExecuteMove;
      r := Success(EffectLedger.Evidence(Some(Observe(id.session, entry, Before, before)), post, applied, failure));
    }
  }

  /** One approval: an exact command, the epoch it was issued under, and a one-way used flag. */
  class ApprovalSeal {
    const owner: EffectSession
    const command: Command
    const epoch: nat
    var used: bool

    constructor (owner: EffectSession, command: Command, epoch: nat)
      ensures this.owner == owner && this.command == command && this.epoch == epoch && !used
    {
      this.owner, this.command, this.epoch, this.used := owner, command, epoch, false;
    }
  }

  class EffectSession {
    var core: EffectCore
    const binding: AuthorityBinding
    var pending: ApprovalSeal?
    ghost var issued: seq<ApprovalSeal>
    ghost var pendingIndex: nat
    ghost var commitLog: seq<nat>

    ghost predicate Valid()
      reads this, core, issued
    {
      && core.Valid()
      && (forall i, j :: 0 <= i < j < |issued| ==> issued[i] != issued[j])
      && (forall i :: 0 <= i < |issued| ==> issued[i].owner == this)
      && (pending != null ==> pendingIndex < |issued| && issued[pendingIndex] == pending)
    }

    ghost function State(): Approvals.Session
      requires Valid()
      reads this, core, binding, issued
    {
      Approvals.Session(
        core.Value(), binding.Current(), SealsOf(),
        if pending == null then None else Some(pendingIndex), commitLog)
    }

    ghost function SealsOf(): (r: seq<Approvals.Seal>)
      reads this, issued
      ensures |r| == |issued|
      ensures forall i :: 0 <= i < |issued| ==>
                r[i] == Approvals.Seal(issued[i].command, issued[i].epoch, issued[i].used)
    {
      seq(|issued|, i requires 0 <= i < |issued| reads this, issued =>
        Approvals.Seal(issued[i].command, issued[i].epoch, issued[i].used))
    }

    constructor (core: EffectCore, binding: AuthorityBinding)
      requires core.Valid()
      ensures Valid() && this.core == core && this.binding == binding
      ensures State() == Approvals.Session(core.Value(), binding.Current(), [], None, [])
    {
      this.core, this.binding := core, binding;
      this.pending, this.issued, this.pendingIndex, this.commitLog := null, [], 0, [];
    }

    /** Issue the single pending approval, or replace a pending execution by its cancellation. */
    method Authorize(c: Command, authority: AuthorityBinding) returns (r: Result<ApprovalSeal, Approvals.SessionError>)
      requires Valid()
      modifies this, issued
      ensures Valid() && core == old(core)
      ensures match Approvals.Authorize(old(State()), c, authority == binding)
              case Success(next) => r.Success? && fresh(r.value) && issued == old(issued) + [r.value] && State() == next
              case Failure(e) => r == Failure(e) && issued == old(issued) && State() == old(State())
    {
      hide CheckCommand, KeysDeclared;
      if authority != binding {
        return Failure(Approvals.ForeignAuthority);
      }
      if binding.revoked {
        return Failure(Approvals.RevokedOrStale);
      }
      var checked := core.Check(c, binding.Current());
      if checked.Failure? {
        return Failure(Approvals.Rejected(checked.error));
      }
      if pending != null {
        var original := pending.command;
        if c.kind != CancelEffect || (original.kind != ExecuteEffect && original.kind != RetryEffect)
           || original.actionId != c.actionId || original.occurrenceKey != c.occurrenceKey
           || original.expectedState != c.expectedState || pending.used {
          return Failure(Approvals.PendingApproval);
        }
      }
      var seal := Issue(c);
      r := Success(seal);
    }

    /** Retire the pending seal, if any, and install a new one. */
    method Issue(c: Command) returns (seal: ApprovalSeal)
      requires Valid()
      modifies this, issued
      ensures Valid() && core == old(core) && fresh(seal) && issued == old(issued) + [seal]
      ensures var s := old(State());
              State() == s.(seals := Approvals.MarkUsed(s.seals, s.pending)
                            + [Approvals.Seal(c, s.authority.epoch, false)],
                            pending := Some(|s.seals|))
    {
      hide KeysDeclared;
      ghost var before := State();
      seal := new ApprovalSeal(this, c, binding.epoch);
      if pending != null {
        pending.used := true;
      }
      pending := seal;
      issued := issued + [seal];
      pendingIndex := |issued| - 1;
      assert SealsOf() == Approvals.MarkUsed(before.seals, before.pending) + [Approvals.Seal(c, binding.epoch, false)];
    }

    /** Which of this session's seals an object is. */
    ghost function SealNumber(approval: ApprovalSeal): (r: Option<nat>)
      reads this
      ensures r.Some? ==> r.value < |issued| && issued[r.value] == approval
      ensures r.None? ==> approval !in issued
    {
      if i: nat :| i < |issued| && issued[i] == approval then Some(i) else None
    }

    /** Dispatch on a clone; install the clone only when every step succeeded. */
    method Dispatch(c: Command, approval: ApprovalSeal) returns (r: Result<Receipt, Approvals.SessionError>)
      requires Valid()
      modifies this, issued
      ensures Valid() && issued == old(issued)
      ensures match Approvals.DispatchApproved(old(State()), c, old(SealNumber(approval)), approval.epoch)
              case Success((next, receipt)) => r == Success(receipt) && fresh(core) && State() == next
              case Failure(e) => r == Failure(e) && core == old(core) && State() == old(State())
    {
      hide EffectLedger.Dispatch, KeysDeclared, SealsOf, SealNumber;
      ghost var before := State();
      ghost var number := SealNumber(approval);
      if binding.revoked || binding.epoch != approval.epoch {
        return Failure(Approvals.RevokedOrStale);
      }
      if approval.owner != this || approval.used || approval.command != c || pending != approval {
        return Failure(Approvals.BadApproval);
      }
      var candidate := core.Clone();
      var outcome := candidate.Commit(c, binding.Current());
      if outcome.Failure? {
        return Failure(Approvals.Rejected(outcome.error));
      }
      commitLog := commitLog + [pendingIndex];
      approval.used := true;
      pending := null;
      core := candidate;
      assert SealsOf() == Approvals.MarkUsed(before.seals, number);
      r := Success(outcome.value);
    }
  }
}

/**
 * One-shot approvals over the effect ledger. A session issues numbered seals; dispatch consumes the
 * pending one. `commitLog` records which seal committed each transition; no operation reads it.
 */
module EffectApprovals {
  import opened Authority
  import opened Common
  import opened EffectLedger
  import opened EffectRuns
  import Outcomes = EffectOutcomes

  datatype Seal = Seal(command: Command, epoch: nat, used: bool)

  datatype Session = Session(
    ledger: Ledger, authority: AuthorityEpoch, seals: seq<Seal>, pending: Option<nat>, commitLog: seq<nat>)

  datatype SessionError =
    | ForeignAuthority | RevokedOrStale | Rejected(error: EffectError) | PendingApproval | BadApproval

  /** The pending execution or retry approval may be replaced once, by a cancellation of the same command slot. */
  predicate Replaces(original: Seal, c: Command) {
    && c.kind.CancelEffect?
    && (original.command.kind.ExecuteEffect? || original.command.kind.RetryEffect?)
    && original.command.actionId == c.actionId
    && original.command.occurrenceKey == c.occurrenceKey
    && original.command.expectedState == c.expectedState
    && !original.used
  }

  function MarkUsed(seals: seq<Seal>, which: Option<nat>): (r: seq<Seal>)
    ensures |r| == |seals|
  {
    match which
    case Some(k) => if k < |seals| then seals[k := seals[k].(used := true)] else seals
    case None => seals
  }

  /** `authorize`: `own` says whether the supplied authority is bound to this session. */
  function Authorize(s: Session, c: Command, own: bool): Result<Session, SessionError>
    requires KeysDeclared(s.ledger)
  {
    if !own then Failure(ForeignAuthority)
    else if s.authority.revoked then Failure(RevokedOrStale)
    else
      match CheckCommand(s.ledger, c, s.authority)
      case Failure(e) => Failure(Rejected(e))
      case Success(_) =>
        if s.pending.Some? && (s.pending.value >= |s.seals| || !Replaces(s.seals[s.pending.value], c))
        then Failure(PendingApproval)
        else Success(s.(seals := MarkUsed(s.seals, s.pending) + [Seal(c, s.authority.epoch, false)],
                        pending := Some(|s.seals|)))
  }

  /** `dispatch` with seal number `k`; `None` is a seal that this session never issued. */
  function DispatchApproved(
    s: Session, c: Command, approval: Option<nat>, sealEpoch: nat): Result<(Session, Receipt), SessionError>
    requires KeysDeclared(s.ledger)
    requires approval.Some? ==> approval.value < |s.seals| && s.seals[approval.value].epoch == sealEpoch
  {
    if s.authority.revoked || s.authority.epoch != sealEpoch then Failure(RevokedOrStale)
    else if approval.None? || s.seals[approval.value].used || s.seals[approval.value].command != c
            || s.pending != approval
    then Failure(BadApproval)
    else
      match Dispatch(s.ledger, c, s.authority)
      case Failure(e) => Failure(Rejected(e))
      case Success((ledger, receipt)) =>
        Success((s.(ledger := ledger, seals := MarkUsed(s.seals, approval), pending := None,
                    commitLog := s.commitLog + [approval.value]), receipt))
  }

  // ----- Runs -----

  datatype Action =
    | AskApproval(command: Command, own: bool)
    | UseApproval(command: Command, approval: nat)
    | UseForeignApproval(command: Command, sealEpoch: nat)
    | RevokeAll

  ghost function Act(s: Session, a: Action): (r: Session)
    requires KeysDeclared(s.ledger)
    ensures KeysDeclared(r.ledger)
  {
    match a
    case AskApproval(c, own) => (match Authorize(s, c, own) case Success(n) => n case Failure(_) => s)
    case UseApproval(c, k) =>
      if k >= |s.seals| then s
      else (match DispatchApproved(s, c, Some(k), s.seals[k].epoch)
            case Success((n, _)) =>
              assert n.ledger == Step(s.ledger, Input(c, s.authority));
              n
            case Failure(_) => s)
    case UseForeignApproval(c, e) =>
      (match DispatchApproved(s, c, None, e) case Success((n, _)) => n case Failure(_) => s)
    case RevokeAll => (match Revoke(s.authority) case Some(n) => s.(authority := n) case None => s)
  }

  ghost function RunSession(s: Session, actions: seq<Action>): (r: Session)
    requires KeysDeclared(s.ledger)
    ensures KeysDeclared(r.ledger)
  {
    if actions == [] then s else Act(RunSession(s, actions[..|actions| - 1]), actions[|actions| - 1])
  }

  ghost predicate Fresh(s: Session) {
    && Initial(s.ledger) && s.authority == AuthorityEpoch(0, false)
    && s.seals == [] && s.pending.None? && s.commitLog == []
  }

  /** How many seals may exist beyond two per spent request. */
  function OpenIssues(s: Session): nat {
    match s.pending
    case None => 0
    case Some(k) => if k < |s.seals| && s.seals[k].command.kind.CancelEffect? then 2 else 1
  }

  /** The pending approval still passes the command check, until revocation. */
  ghost predicate PendingLive(s: Session)
    requires KeysDeclared(s.ledger)
  {
    s.pending.Some? ==>
      && s.pending.value < |s.seals| && !s.seals[s.pending.value].used
      && s.ledger.counters.requests < s.ledger.limits.requests
      && (!s.authority.revoked ==>
            && s.seals[s.pending.value].epoch == s.authority.epoch
            && CheckCommand(s.ledger, s.seals[s.pending.value].command, s.authority).Success?)
  }

  ghost predicate SessionInv(init: Session, s: Session) {
    && KeysDeclared(s.ledger) && Inv(init.ledger, s.ledger)
    && PendingLive(s)
    && (s.authority.revoked <==> s.authority.epoch == 1) && s.authority.epoch <= 1
    && (forall k :: 0 <= k < |s.seals| && !s.seals[k].used ==> s.pending == Some(k))
    && |s.seals| <= 2 * s.ledger.counters.requests + OpenIssues(s)
    && |s.commitLog| == s.ledger.generation
    && (forall i :: 0 <= i < |s.commitLog| ==> s.commitLog[i] < |s.seals| && s.seals[s.commitLog[i]].used)
    && (forall i, j :: 0 <= i < j < |s.commitLog| ==> s.commitLog[i] != s.commitLog[j])
  }

  lemma AskKeeps(init: Session, s: Session, c: Command, own: bool)
    requires SessionInv(init, s)
    ensures SessionInv(init, Act(s, AskApproval(c, own)))
  {
    hide Inv;
  }

  /** A committed command spends one request and one generation. */
  lemma CommitCounts(l: Ledger, c: Command, epoch: AuthorityEpoch)
    requires KeysDeclared(l) && Dispatch(l, c, epoch).Success?
    ensures var next := Dispatch(l, c, epoch).value.0;
            && next.generation == l.generation + 1 && next.counters.requests == l.counters.requests + 1
            && next.limits == l.limits
  {
    hide EvidenceOf, EventOf, SnapshotOf, ReceiptOf;
  }

  lemma UseKeeps(init: Session, s: Session, c: Command, k: nat)
    requires SessionInv(init, s)
    ensures SessionInv(init, Act(s, UseApproval(c, k)))
  {
    hide CheckCommand, Dispatch, KeysDeclared, Inv;
    if Dispatch(s.ledger, c, s.authority).Success? {
      CommitCounts(s.ledger, c, s.authority);
    }
    StepKeeps(init.ledger, s.ledger, Input(c, s.authority));
  }

  lemma ActKeeps(init: Session, s: Session, a: Action)
    requires SessionInv(init, s)
    ensures SessionInv(init, Act(s, a))
  {
    hide Inv, Dispatch, Authorize, MarkUsed;
    match a
    case AskApproval(c, own) => AskKeeps(init, s, c, own);
    case UseApproval(c, k) => UseKeeps(init, s, c, k);
    case UseForeignApproval(_, _) =>
    case RevokeAll =>
  }

  lemma {:induction false} SessionKeeps(init: Session, actions: seq<Action>)
    requires Fresh(init)
    ensures KeysDeclared(init.ledger) && SessionInv(init, RunSession(init, actions))
  {
    InitialHolds(init.ledger);
    if actions != [] {
      SessionKeeps(init, actions[..|actions| - 1]);
      ActKeeps(init, RunSession(init, actions[..|actions| - 1]), actions[|actions| - 1]);
    }
  }

  // ----- Main results -----

  /** At most one unused approval exists, issuance is bounded, and no seal commits twice. */
  lemma ApprovalsAreOneShotAndBounded(init: Session, actions: seq<Action>)
    requires Fresh(init)
    ensures KeysDeclared(init.ledger)
    ensures var s := RunSession(init, actions);
            && (forall j, k :: 0 <= j < |s.seals| && 0 <= k < |s.seals| && !s.seals[j].used && !s.seals[k].used ==>
                j == k)
            && |s.seals| <= 2 * init.ledger.limits.requests
            && |s.commitLog| == s.ledger.counters.requests
            && (forall i, j :: 0 <= i < j < |s.commitLog| ==> s.commitLog[i] != s.commitLog[j])
  {
    SessionKeeps(init, actions);
    var s := RunSession(init, actions);
    forall j, k | 0 <= j < |s.seals| && 0 <= k < |s.seals| && !s.seals[j].used && !s.seals[k].used
      ensures j == k
    {
      assert s.pending == Some(j) && s.pending == Some(k);
    }
  }

  /** Until revocation, using the pending approval with its own command always commits. */
  lemma PendingApprovalCommits(init: Session, actions: seq<Action>)
    requires Fresh(init) && KeysDeclared(init.ledger)
    requires RunSession(init, actions).pending.Some? && !RunSession(init, actions).authority.revoked
    ensures var s := RunSession(init, actions);
            s.pending.value < |s.seals| &&
            var seal := s.seals[s.pending.value];
            var outcome := DispatchApproved(s, seal.command, s.pending, seal.epoch);
            outcome.Success? && outcome.value.0.ledger.generation == s.ledger.generation + 1
  {
    SessionKeeps(init, actions);
    var s := RunSession(init, actions);
    CheckDecides(init.ledger, s.ledger, s.seals[s.pending.value].command, s.authority);
  }

  /** After revocation the ledger never changes again, whatever approvals were outstanding. */
  lemma {:induction false} RevocationIsFinal(s: Session, actions: seq<Action>)
    requires KeysDeclared(s.ledger) && s.authority.revoked
    ensures RunSession(s, actions).ledger == s.ledger && RunSession(s, actions).authority == s.authority
    ensures RunSession(s, actions).seals == s.seals
  {
    if actions != [] {
      RevocationIsFinal(s, actions[..|actions| - 1]);
    }
  }

  /** One session step leaves the ledger alone or takes one ledger step. */
  lemma ActIsAStep(s: Session, a: Action)
    requires KeysDeclared(s.ledger) && Act(s, a).ledger != s.ledger
    ensures a.UseApproval? && Act(s, a).ledger == Step(s.ledger, Input(a.command, s.authority))
  {
    hide Dispatch, CheckCommand, KeysDeclared, MarkUsed;
  }

  lemma RunSnoc(l: Ledger, inputs: seq<Input>, next: Input)
    requires KeysDeclared(l)
    ensures Run(l, inputs + [next]) == Step(Run(l, inputs), next)
  {
    hide Step, KeysDeclared;
    assert (inputs + [next])[..|inputs|] == inputs;
  }

  /** The ledger of a session run is the ledger of a command run, so every ledger result carries over. */
  lemma {:induction false} SessionLedgerIsARun(init: Session, actions: seq<Action>)
    returns (inputs: seq<Input>)
    requires KeysDeclared(init.ledger)
    ensures RunSession(init, actions).ledger == Run(init.ledger, inputs)
  {
    hide Act, Step, KeysDeclared;
    if actions == [] {
      inputs := [];
    } else {
      var prior, last := RunSession(init, actions[..|actions| - 1]), actions[|actions| - 1];
      inputs := SessionLedgerIsARun(init, actions[..|actions| - 1]);
      if Act(prior, last).ledger != prior.ledger {
        ActIsAStep(prior, last);
        RunSnoc(init.ledger, inputs, Input(last.command, prior.authority));
        inputs := inputs + [Input(last.command, prior.authority)];
      }
    }
  }

  // ----- When an approval is issued and when it commits -----

  /** The command is admissible on the current ledger under the current authority. */
  ghost predicate AdmissibleNow(s: Session, c: Command)
    requires KeysDeclared(s.ledger)
  {
    exists i: nat :: i < |s.ledger.entries| && Outcomes.Addresses(s.ledger, i, c, s.authority)
                     && Outcomes.Admissible(s.ledger, i, c.kind)
  }

  /** No approval is pending, or a pending execution or retry that the command cancels. */
  predicate Free(s: Session, c: Command) {
    s.pending.Some? ==>
      s.pending.value < |s.seals| &&
      var original := s.seals[s.pending.value].command;
      c.kind.CancelEffect? && (original.kind.ExecuteEffect? || original.kind.RetryEffect?)
      && original.actionId == c.actionId
  }

  /** One new seal for the command, the only unused one, is pending; nothing else changes. */
  predicate Issued(s: Session, n: Session, c: Command) {
    && n.ledger == s.ledger && n.authority == s.authority && n.commitLog == s.commitLog
    && |n.seals| == |s.seals| + 1 && n.pending == Some(|s.seals|)
    && n.seals[|s.seals|] == Seal(c, s.authority.epoch, false)
    && forall k :: 0 <= k < |s.seals| ==> n.seals[k] == s.seals[k].(used := true)
  }

  /**
   * In every session run an approval is issued exactly for an admissible command of this session's own live
   * authority, when none is pending or when it cancels the pending execution.
   */
  lemma IssuedIffFree(init: Session, actions: seq<Action>, c: Command, own: bool)
    requires Fresh(init) && KeysDeclared(init.ledger)
    ensures var s := RunSession(init, actions);
            match Authorize(s, c, own)
            case Success(n) =>
              own && !s.authority.revoked && AdmissibleNow(s, c) && Free(s, c) && Issued(s, n, c)
            case Failure(e) =>
              if !own then e == ForeignAuthority
              else if s.authority.revoked then e == RevokedOrStale
              else if !AdmissibleNow(s, c) then e.Rejected? && Dispatch(s.ledger, c, s.authority) == Failure(e.error)
              else !Free(s, c) && e == PendingApproval
  {
    SessionKeeps(init, actions);
    var s := RunSession(init, actions);
    var inputs := SessionLedgerIsARun(init, actions);
    Outcomes.AcceptedIffAdmissible(init.ledger, inputs, c, s.authority);
    CheckDecides(init.ledger, s.ledger, c, s.authority);
    hide RunSession, Run, Fresh;
    AuthorizeStep(init, s, c, own);
  }

  lemma AuthorizeStep(init: Session, s: Session, c: Command, own: bool)
    requires SessionInv(init, s) && (AdmissibleNow(s, c) <==> CheckCommand(s.ledger, c, s.authority).Success?)
    requires CheckCommand(s.ledger, c, s.authority).Failure? ==>
               Dispatch(s.ledger, c, s.authority) == Failure(CheckCommand(s.ledger, c, s.authority).error)
    ensures match Authorize(s, c, own)
            case Success(n) =>
              own && !s.authority.revoked && AdmissibleNow(s, c) && Free(s, c) && Issued(s, n, c)
            case Failure(e) =>
              if !own then e == ForeignAuthority
              else if s.authority.revoked then e == RevokedOrStale
              else if !AdmissibleNow(s, c) then e.Rejected? && Dispatch(s.ledger, c, s.authority) == Failure(e.error)
              else !Free(s, c) && e == PendingApproval
  {
    assert KeysDeclared(s.ledger);
    hide SessionInv, PendingLive, AdmissibleNow, CheckCommand, Dispatch, KeysDeclared, Issued, MarkUsed, Inv;
    hide Free, Replaces;
    if own && !s.authority.revoked && AdmissibleNow(s, c) && s.pending.Some? {
      FreeIffReplaces(init, s, c);
    } else if s.pending.None? {
      FreeWithoutPending(s, c);
    }
    IssueUsesTheRest(init, s, c);
  }

  lemma FreeWithoutPending(s: Session, c: Command)
    requires s.pending.None?
    ensures Free(s, c)
  {}

  lemma FreeIffReplaces(init: Session, s: Session, c: Command)
    requires SessionInv(init, s) && !s.authority.revoked && s.pending.Some?
    requires CheckCommand(s.ledger, c, s.authority).Success?
    ensures s.pending.value < |s.seals|
    ensures Free(s, c) <==> Replaces(s.seals[s.pending.value], c)
  {
    assert KeysDeclared(s.ledger);
    hide SessionInv, PendingLive, CheckCommand, KeysDeclared, Inv;
    PendingIsLive(init, s);
    SameSlot(s.ledger, s.seals[s.pending.value].command, c, s.authority);
  }

  lemma PendingIsLive(init: Session, s: Session)
    requires SessionInv(init, s) && !s.authority.revoked && s.pending.Some?
    ensures s.pending.value < |s.seals| && !s.seals[s.pending.value].used
    ensures s.seals[s.pending.value].epoch == s.authority.epoch
    ensures CheckCommand(s.ledger, s.seals[s.pending.value].command, s.authority).Success?
  {
    hide Inv, CheckCommand, KeysDeclared;
  }

  /** The pending seal is the only unused one, so that retiring it leaves none but the new one. */
  lemma IssueUsesTheRest(init: Session, s: Session, c: Command)
    requires SessionInv(init, s)
    ensures Issued(s, s.(seals := MarkUsed(s.seals, s.pending) + [Seal(c, s.authority.epoch, false)],
                         pending := Some(|s.seals|)), c)
  {
    hide Inv, CheckCommand, KeysDeclared;
  }

  /** Two commands that pass the check of one ledger name one state, and with one action one occurrence. */
  lemma SameSlot(l: Ledger, a: Command, b: Command, epoch: AuthorityEpoch)
    requires KeysDeclared(l) && CheckCommand(l, a, epoch).Success? && CheckCommand(l, b, epoch).Success?
    ensures a.expectedState == b.expectedState
    ensures a.actionId == b.actionId ==> a.occurrenceKey == b.occurrenceKey
  {
    hide SnapshotOf, CheckExecution, KeysDeclared;
  }

  /** A committed approval: its command is dispatched, its seal is used and logged, and nothing is pending. */
  ghost predicate Committed(s: Session, n: Session, k: nat, receipt: Receipt)
    requires KeysDeclared(s.ledger) && k < |s.seals|
  {
    && Dispatch(s.ledger, s.seals[k].command, s.authority) == Success((n.ledger, receipt))
    && n.authority == s.authority && n.pending.None? && n.commitLog == s.commitLog + [k]
    && n.seals == s.seals[k := s.seals[k].(used := true)]
  }

  /** In every session run an approval commits exactly when it is the pending one, for its own command, unrevoked. */
  lemma CommitsIffPending(init: Session, actions: seq<Action>, c: Command, k: nat)
    requires Fresh(init) && KeysDeclared(init.ledger) && k < |RunSession(init, actions).seals|
    ensures var s := RunSession(init, actions);
            match DispatchApproved(s, c, Some(k), s.seals[k].epoch)
            case Success((n, receipt)) =>
              !s.authority.revoked && s.pending == Some(k) && s.seals[k].command == c && Committed(s, n, k, receipt)
            case Failure(e) =>
              s.authority.revoked || s.pending != Some(k) || s.seals[k].command != c
  {
    SessionKeeps(init, actions);
    hide RunSession, Fresh, SessionInv, PendingLive, CheckCommand, Dispatch, KeysDeclared;
    CommitStep(init, RunSession(init, actions), c, k);
  }

  lemma CommitStep(init: Session, s: Session, c: Command, k: nat)
    requires SessionInv(init, s) && KeysDeclared(s.ledger) && k < |s.seals|
    ensures match DispatchApproved(s, c, Some(k), s.seals[k].epoch)
            case Success((n, receipt)) =>
              !s.authority.revoked && s.pending == Some(k) && s.seals[k].command == c && Committed(s, n, k, receipt)
            case Failure(e) =>
              s.authority.revoked || s.pending != Some(k) || s.seals[k].command != c
  {
    if !s.authority.revoked && s.pending == Some(k) && s.seals[k].command == c {
      PendingIsLive(init, s);
      CheckDecides(init.ledger, s.ledger, c, s.authority);
    }
    hide SessionInv, PendingLive, CheckCommand, Dispatch, KeysDeclared, Outcomes.Admissible, Inv, Admitted;
  }
}

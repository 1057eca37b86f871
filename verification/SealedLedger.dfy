/**
 * The governance ledger behind its native seals.  Every evaluation, observation and commit presents a sealed
 * state, opens a lineage transition from it, and either commits the next state or restores the lineage.
 */
module SealedLedger {
  import opened Authority
  import opened Common
  import opened LeaseRecords
  import opened ReadRuntime
  import opened Continuation
  import opened JointLedger
  import opened LeaseTheorems
  import L = Lineage

  /** A state with its seal: the generation it was committed as. */
  datatype Sealed = Sealed(generation: nat, state: ContinuationState)

  datatype Bench = Bench(joint: Joint, lineage: L.World)

  /** What the caller does: a runtime call or a revocation, or a governance operation on a sealed state. */
  datatype Move = Plain(action: Action) | Governed(action: Action, presented: Sealed)

  predicate IsGovernance(a: Action) {
    a.AskLease? || a.ObserveContext? || a.CommitLease?
  }

  /** The state an operation finalizes; nothing when it raises or returns the state it was given. */
  function Finalized(j: Joint, a: Action): Option<ContinuationState>
    requires PolicyAccepted(j.gov.policy)
  {
    match a
    case AskLease(q) => var next := AskStep(j, q).gov; if next == j.gov then None else Some(next)
    case ObserveContext(policy, orchestration, snapshot, progress, strategy) =>
      if j.revoked || snapshot != j.runtime then None
      else
        (match Observe(j.gov, policy, orchestration, snapshot, progress, strategy)
         case Success(next) => Some(next)
         case Failure(_) => None)
    case CommitLease(policy, g, application, snapshot) =>
      if j.revoked || snapshot != j.runtime then None
      else
        (match CommitApplication(j.gov, policy, g, application, snapshot)
         case Success(next) => Some(next)
         case Failure(_) => None)
    case _ => None
  }

  /** Begin from the presented state, run the operation on it, then commit its result or restore. */
  function GovernedStep(w: Bench, a: Action, presented: Sealed): (r: Bench)
    requires PolicyAccepted(w.joint.gov.policy) && PolicyAccepted(presented.state.policy)
    ensures PolicyAccepted(r.joint.gov.policy)
  {
    match L.BeginFrom(w.lineage, presented.generation, presented.state)
    case Failure(_) => w
    case Success(begun) =>
      var j := w.joint.(gov := presented.state);
      PolicyIsFixed(j, a);
      match Finalized(j, a)
      case None => Bench(JointStep(j, a), L.Step(begun, L.Abandon(0)))
      case Some(next) => Bench(JointStep(j, a), L.Step(begun, L.Commit(0, next)))
  }

  function SealedStep(w: Bench, m: Move): (r: Bench)
    requires PolicyAccepted(w.joint.gov.policy)
    ensures PolicyAccepted(r.joint.gov.policy)
  {
    PolicyIsFixed(w.joint, m.action);
    match m
    case Plain(a) =>
      if a.CallRuntime? then w.(joint := JointStep(w.joint, a))
      else if a.RevokeAll? then Bench(JointStep(w.joint, a), L.Step(w.lineage, L.RevokeAll))
      else w
    case Governed(a, presented) =>
      if IsGovernance(a) && PolicyAccepted(presented.state.policy) then GovernedStep(w, a, presented) else w
  }

  /** A fresh joint ledger whose initial state is committed as generation zero. */
  ghost predicate FreshBench(w: Bench) {
    && FreshJoint(w.joint)
    && w.lineage == L.World(L.Ready(L.Head(0, w.joint.gov)), AuthorityEpoch(0, false), [], [w.joint.gov])
  }

  /** Between operations no transition is open, and the governance state is the last committed one. */
  ghost predicate BenchInv(w: Bench) {
    && PolicyAccepted(w.joint.gov.policy)
    && L.LineageInv(w.lineage) && w.lineage.live.Ready?
    && w.lineage.log[|w.lineage.log| - 1] == w.joint.gov
    && (w.lineage.epoch.revoked <==> w.joint.revoked)
  }

  ghost function SealedRun(w: Bench, moves: seq<Move>): (r: Bench)
    requires BenchInv(w)
    ensures BenchInv(r)
  {
    if moves == [] then w
    else
      var prior := SealedRun(w, moves[..|moves| - 1]);
      SealedStepKeeps(prior, moves[|moves| - 1]);
      SealedStep(prior, moves[|moves| - 1])
  }

  /** The current sealed state. */
  predicate IsHead(w: Bench, s: Sealed) {
    && w.lineage.log != [] && s.generation == |w.lineage.log| - 1 && s.state == w.lineage.log[s.generation]
  }

  lemma FinalizedIsStep(j: Joint, a: Action)
    requires PolicyAccepted(j.gov.policy) && IsGovernance(a)
    ensures JointStep(j, a).gov == if Finalized(j, a).Some? then Finalized(j, a).value else j.gov
    ensures JointStep(j, a).revoked == j.revoked && JointStep(j, a).runtime == j.runtime
  {
    hide Evaluate, Observe, CommitApplication, IssueAccepted;
  }

  /**
   * An operation is refused, and changes nothing, exactly when a revocation or an exhausted generation forbids it
   * or it presents a superseded state.
   */
  lemma BeginDecides(w: Bench, presented: Sealed)
    requires BenchInv(w)
    ensures L.BeginFrom(w.lineage, presented.generation, presented.state).Success? <==>
              IsHead(w, presented) && !w.joint.revoked && presented.generation < U64_MAX
  {}

  /** One governed operation on the head: a joint step, and the lineage extended by exactly its finalized state. */
  lemma GovernedOnHead(w: Bench, a: Action, presented: Sealed)
    requires BenchInv(w) && IsGovernance(a) && PolicyAccepted(presented.state.policy)
    requires L.BeginFrom(w.lineage, presented.generation, presented.state).Success?
    ensures var n := GovernedStep(w, a, presented);
            && n.joint == JointStep(w.joint, a) && BenchInv(n) && n.lineage.epoch == w.lineage.epoch
            && n.lineage.log == w.lineage.log + match Finalized(w.joint, a) case None => [] case Some(next) => [next]
  {
    hide JointStep, Finalized, PolicyAccepted, IsGovernance;
    BeginDecides(w, presented);
    assert w.joint.(gov := presented.state) == w.joint;
    FinalizedIsStep(w.joint, a);
    PolicyIsFixed(w.joint, a);
    var begun := L.BeginFrom(w.lineage, presented.generation, presented.state).value;
    assert L.Without(begun.guards, 0) == [];
  }

  lemma SealedStepKeeps(w: Bench, m: Move)
    requires BenchInv(w)
    ensures BenchInv(SealedStep(w, m))
  {
    hide GovernedStep, PolicyAccepted;
    match m
    case Plain(a) => PolicyIsFixed(w.joint, a);
    case Governed(a, presented) =>
      if IsGovernance(a) && PolicyAccepted(presented.state.policy) {
        if L.BeginFrom(w.lineage, presented.generation, presented.state).Success? {
          GovernedOnHead(w, a, presented);
        } else {
          RefusedChangesNothing(w, a, presented);
        }
      }
  }

  lemma RefusedChangesNothing(w: Bench, a: Action, presented: Sealed)
    requires PolicyAccepted(w.joint.gov.policy) && PolicyAccepted(presented.state.policy)
    requires L.BeginFrom(w.lineage, presented.generation, presented.state).Failure?
    ensures GovernedStep(w, a, presented) == w
  {}

  lemma FreshBenchHolds(w: Bench)
    requires FreshBench(w)
    ensures BenchInv(w)
  {}

  // ----- Main results -----

  /** No transition is open, the governance state is the head, and only presenting the head can change anything. */
  ghost predicate HeadRules(w: Bench, a: Action, presented: Sealed)
    requires PolicyAccepted(w.joint.gov.policy)
  {
    && w.lineage.guards == [] && w.lineage.log != []
    && w.lineage.live == L.Ready(L.Head(|w.lineage.log| - 1, w.joint.gov))
    && IsHead(w, Sealed(|w.lineage.log| - 1, w.joint.gov))
    && (SealedStep(w, Governed(a, presented)) != w ==> IsHead(w, presented) && !w.joint.revoked)
  }

  /**
   * In every sealed run the governance state is the head of the committed lineage, no transition is left open,
   * and only an operation that presents the head can change anything: a superseded state is refused.
   */
  lemma GovernanceIsTheLineageHead(init: Bench, moves: seq<Move>, a: Action, presented: Sealed)
    requires FreshBench(init)
    ensures BenchInv(init) && HeadRules(SealedRun(init, moves), a, presented)
  {
    FreshBenchHolds(init);
    OnlyTheHeadMoves(SealedRun(init, moves), a, presented);
  }

  lemma OnlyTheHeadMoves(w: Bench, a: Action, presented: Sealed)
    requires BenchInv(w)
    ensures HeadRules(w, a, presented)
  {
    hide GovernedStep, PolicyAccepted;
    BeginDecides(w, presented);
    if IsGovernance(a) && PolicyAccepted(presented.state.policy)
       && L.BeginFrom(w.lineage, presented.generation, presented.state).Failure? {
      RefusedChangesNothing(w, a, presented);
    }
  }

  /** Of two operations that present one sealed state, at most one commits: after a commit the state is superseded. */
  lemma SealedStateCommitsOnce(init: Bench, moves: seq<Move>, a: Action, b: Action, presented: Sealed)
    requires FreshBench(init)
    ensures BenchInv(init)
    ensures var w := SealedRun(init, moves);
            var n := SealedStep(w, Governed(a, presented));
            n.lineage.log != w.lineage.log ==> SealedStep(n, Governed(b, presented)) == n
  {
    FreshBenchHolds(init);
    var w := SealedRun(init, moves);
    SealedStepKeeps(w, Governed(a, presented));
    var n := SealedStep(w, Governed(a, presented));
    hide JointStep, Finalized, PolicyAccepted, SealedRun;
    if n.lineage.log != w.lineage.log {
      BeginDecides(w, presented);
      GovernedOnHead(w, a, presented);
      BeginDecides(n, presented);
      if IsGovernance(b) && PolicyAccepted(presented.state.policy) {
        RefusedChangesNothing(n, b, presented);
      }
    }
  }

  /** Some operation on the one state finalized the other. */
  ghost predicate Follows(prior: ContinuationState, next: ContinuationState) {
    exists j: Joint, a: Action ::
      j.gov == prior && PolicyAccepted(prior.policy) && IsGovernance(a) && Finalized(j, a) == Some(next)
  }

  ghost predicate IsChained(log: seq<ContinuationState>) {
    forall k :: 0 < k < |log| ==> Follows(log[k - 1], log[k])
  }

  /** The committed lineage is a chain of operations: each state was finalized from the one before it. */
  lemma {:induction false} LineageIsAChain(init: Bench, moves: seq<Move>)
    requires BenchInv(init) && IsChained(init.lineage.log)
    ensures IsChained(SealedRun(init, moves).lineage.log)
    ensures init.lineage.log <= SealedRun(init, moves).lineage.log
  {
    if moves != [] {
      var n := |moves| - 1;
      LineageIsAChain(init, moves[..n]);
      StepChains(SealedRun(init, moves[..n]), moves[n]);
    }
  }

  lemma StepChains(w: Bench, m: Move)
    requires BenchInv(w) && IsChained(w.lineage.log)
    ensures IsChained(SealedStep(w, m).lineage.log) && w.lineage.log <= SealedStep(w, m).lineage.log
  {
    hide GovernedStep, PolicyAccepted, JointStep, Finalized, Follows, IsGovernance;
    if m.Governed? && IsGovernance(m.action) && PolicyAccepted(m.presented.state.policy) {
      if L.BeginFrom(w.lineage, m.presented.generation, m.presented.state).Success? {
        GovernedOnHead(w, m.action, m.presented);
        if Finalized(w.joint, m.action).Some? {
          FinalizedFollows(w.joint, m.action);
        }
      } else {
        RefusedChangesNothing(w, m.action, m.presented);
      }
    }
  }

  lemma FinalizedFollows(j: Joint, a: Action)
    requires PolicyAccepted(j.gov.policy) && IsGovernance(a) && Finalized(j, a).Some?
    ensures Follows(j.gov, Finalized(j, a).value)
  {
    hide Finalized;
  }

  ghost predicate MovesWellFormed(moves: seq<Move>) {
    forall i :: 0 <= i < |moves| ==> ActionWellFormed(moves[i].action)
  }

  /** The joint ledger of a sealed run is the joint ledger of a run of actions, so every lease result carries over. */
  lemma {:induction false} SealedRunIsAJointRun(init: Bench, moves: seq<Move>) returns (actions: seq<Action>)
    requires BenchInv(init) && MovesWellFormed(moves)
    ensures SealedRun(init, moves).joint == JointRun(init.joint, actions) && ActionsWellFormed(actions)
  {
    hide SealedStep, JointStep, PolicyAccepted, ActionWellFormed;
    actions := [];
    if moves != [] {
      var n := |moves| - 1;
      actions := SealedRunIsAJointRun(init, moves[..n]);
      var w := SealedRun(init, moves[..n]);
      if SealedStep(w, moves[n]).joint != w.joint {
        StepIsJointStep(w, moves[n]);
        JointRunSnoc(init.joint, actions, moves[n].action);
        actions := actions + [moves[n].action];
      }
    }
  }

  lemma StepIsJointStep(w: Bench, m: Move)
    requires BenchInv(w)
    ensures SealedStep(w, m).joint == w.joint || SealedStep(w, m).joint == JointStep(w.joint, m.action)
  {
    hide GovernedStep, PolicyAccepted, JointStep;
    if m.Governed? && IsGovernance(m.action) && PolicyAccepted(m.presented.state.policy) {
      if L.BeginFrom(w.lineage, m.presented.generation, m.presented.state).Success? {
        GovernedOnHead(w, m.action, m.presented);
      } else {
        RefusedChangesNothing(w, m.action, m.presented);
      }
    }
  }

  lemma JointRunSnoc(j: Joint, actions: seq<Action>, a: Action)
    requires PolicyAccepted(j.gov.policy)
    ensures JointRun(j, actions + [a]) == JointStep(JointRun(j, actions), a)
  {
    assert (actions + [a])[..|actions|] == actions;
  }
}

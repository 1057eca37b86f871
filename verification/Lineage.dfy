/**
 * The live continuation lineage: a generation-numbered cell that one transition at a time may advance, with a
 * guard that restores it when dropped, under a terminal authority epoch.
 */
module Lineage {
  import opened Authority
  import opened Common
  import opened LeaseRecords

  datatype Head = Head(generation: nat, canonical: ContinuationState)

  datatype Live = Uninitialized | Ready(head: Head) | Transitioning(prior: Option<Head>, next: nat)

  /** The guard a successful begin hands out; it is consumed by its commit, its restore or its drop. */
  datatype Guard = Guard(prior: Option<Head>, next: nat, epoch: nat)

  datatype LineageError = Revoked | AlreadyEstablished | InProgress | Superseded | Exhausted | Lost

  /** The native state, the guards still alive, and every canonical state ever committed, in order. */
  datatype World = World(live: Live, epoch: AuthorityEpoch, guards: seq<Guard>, log: seq<ContinuationState>)

  datatype Event =
    | BeginInitial
    | Begin(generation: nat, canonical: ContinuationState)
    | Commit(guard: nat, canonical: ContinuationState)
    | Abandon(guard: nat)
    | RevokeAll

  function BeginInitialFrom(w: World): Result<World, LineageError> {
    if w.epoch.revoked then Failure(Revoked)
    else if !w.live.Uninitialized? then Failure(AlreadyEstablished)
    else Success(w.(live := Transitioning(None, 0), guards := w.guards + [Guard(None, 0, w.epoch.epoch)]))
  }

  function BeginFrom(w: World, generation: nat, canonical: ContinuationState): Result<World, LineageError> {
    if w.epoch.revoked then Failure(Revoked)
    else if w.live.Transitioning? then Failure(InProgress)
    else if w.live != Ready(Head(generation, canonical)) then Failure(Superseded)
    else if generation + 1 > U64_MAX then Failure(Exhausted)
    else
      var prior := Some(w.live.head);
      Success(w.(live := Transitioning(prior, generation + 1),
                 guards := w.guards + [Guard(prior, generation + 1, w.epoch.epoch)]))
  }

  /** The cell a guard points at: only a transition to the guard's own generation is its own. */
  predicate Owns(live: Live, g: Guard) {
    live.Transitioning? && live.next == g.next
  }

  /** `restore_inner`; dropping a guard ignores the error. */
  function Restored(live: Live, g: Guard): Live {
    if !Owns(live, g) then live
    else if g.prior.Some? then Ready(g.prior.value)
    else Uninitialized
  }

  /** A commit that fails still consumes, and so drops, its guard. */
  function CommitOf(w: World, g: Guard, canonical: ContinuationState): (Live, Option<LineageError>) {
    if !IsCurrent(w.epoch, g.epoch) then (Restored(w.live, g), Some(Revoked))
    else if !Owns(w.live, g) then (w.live, Some(Lost))
    else (Ready(Head(g.next, canonical)), None)
  }

  function Without(guards: seq<Guard>, i: nat): seq<Guard>
    requires i < |guards|
  {
    guards[..i] + guards[i + 1..]
  }

  function Step(w: World, e: Event): World {
    match e
    case BeginInitial => (match BeginInitialFrom(w) case Success(n) => n case Failure(_) => w)
    case Begin(generation, canonical) =>
      (match BeginFrom(w, generation, canonical) case Success(n) => n case Failure(_) => w)
    case Commit(i, canonical) =>
      if i >= |w.guards| then w
      else
        var (live, error) := CommitOf(w, w.guards[i], canonical);
        w.(live := live, guards := Without(w.guards, i), log := if error.None? then w.log + [canonical] else w.log)
    case Abandon(i) =>
      if i >= |w.guards| then w else w.(live := Restored(w.live, w.guards[i]), guards := Without(w.guards, i))
    case RevokeAll => (match Revoke(w.epoch) case Some(next) => w.(epoch := next) case None => w)
  }

  const NEW_WORLD := World(Uninitialized, AuthorityEpoch(0, false), [], [])

  ghost function Run(w: World, events: seq<Event>): World {
    if events == [] then w else Step(Run(w, events[..|events| - 1]), events[|events| - 1])
  }

  function LastHead(log: seq<ContinuationState>): Option<Head> {
    if log == [] then None else Some(Head(|log| - 1, log[|log| - 1]))
  }

  /** At most one guard is alive, exactly while the cell is in transition, and it starts from the last commit. */
  ghost predicate LineageInv(w: World) {
    && w.epoch.epoch <= 1 && (w.epoch.revoked <==> w.epoch.epoch == 1)
    && match w.live
       case Uninitialized => w.guards == [] && w.log == []
       case Ready(head) => w.guards == [] && Some(head) == LastHead(w.log)
       case Transitioning(prior, next) =>
         w.guards == [Guard(prior, next, 0)] && prior == LastHead(w.log) && next == |w.log|
  }

  lemma StepKeepsLineage(w: World, e: Event)
    requires LineageInv(w)
    ensures LineageInv(Step(w, e)) && w.log <= Step(w, e).log
  {
    match e
    case Commit(i, canonical) =>
      if i < |w.guards| {
        assert Without(w.guards, i) == [];
      }
    case Abandon(i) =>
      if i < |w.guards| {
        assert Without(w.guards, i) == [];
      }
    case _ =>
  }

  lemma {:induction false} RunKeepsLineage(events: seq<Event>)
    ensures LineageInv(Run(NEW_WORLD, events))
  {
    if events != [] {
      RunKeepsLineage(events[..|events| - 1]);
      StepKeepsLineage(Run(NEW_WORLD, events[..|events| - 1]), events[|events| - 1]);
    }
  }

  /**
   * Whatever is interleaved, the lineage never forks: at most one transition is open, every state ever committed
   * keeps its own generation, and a transition can be begun exactly from the last committed state.
   */
  lemma LineageNeverForks(events: seq<Event>, generation: nat, canonical: ContinuationState)
    ensures var w := Run(NEW_WORLD, events);
            && |w.guards| <= 1 && (w.guards != [] <==> w.live.Transitioning?)
            && (w.live.Ready? ==> w.log != [] && w.live.head == Head(|w.log| - 1, w.log[|w.log| - 1]))
            && (BeginFrom(w, generation, canonical).Success? <==>
                  && !w.epoch.revoked && w.guards == [] && generation < U64_MAX
                  && w.log != [] && generation == |w.log| - 1 && canonical == w.log[generation])
            && (BeginInitialFrom(w).Success? <==> !w.epoch.revoked && w.guards == [] && w.log == [])
  {
    RunKeepsLineage(events);
  }

  /** Committed states are never rewritten, and each generation is committed once. */
  lemma {:induction false} CommittedStatesStay(events: seq<Event>, k: nat)
    requires k <= |events|
    ensures Run(NEW_WORLD, events[..k]).log <= Run(NEW_WORLD, events).log
    decreases |events| - k
  {
    if k < |events| {
      var next := events[..k + 1];
      assert next[..k] == events[..k];
      RunKeepsLineage(events[..k]);
      StepKeepsLineage(Run(NEW_WORLD, events[..k]), events[k]);
      CommittedStatesStay(events, k + 1);
    } else {
      assert events[..k] == events;
    }
  }

  /** A live guard is never lost: its commit fails only when the authority was revoked after its begin. */
  lemma GuardIsNeverLost(events: seq<Event>, i: nat, canonical: ContinuationState)
    requires i < |Run(NEW_WORLD, events).guards|
    ensures var w := Run(NEW_WORLD, events);
            var (live, error) := CommitOf(w, w.guards[i], canonical);
            && error == (if w.epoch.revoked then Some(Revoked) else None)
            && (error.None? ==> live == Ready(Head(|w.log|, canonical)))
            && (error.Some? ==>
                Some(live) == if w.log == [] then Some(Uninitialized) else Some(Ready(LastHead(w.log).value)))
  {
    RunKeepsLineage(events);
  }

  /** A begun transition that is abandoned, or whose commit is refused, leaves the lineage as it was. */
  lemma AbandoningUndoes(events: seq<Event>, e: Event)
    requires e.BeginInitial? || e.Begin?
    requires Run(NEW_WORLD, events).guards == []
    ensures var w := Run(NEW_WORLD, events);
            && Step(Step(w, e), Abandon(0)) == w
            && forall canonical :: Step(Step(Step(w, e), RevokeAll), Commit(0, canonical)) == Step(w, RevokeAll)
  {
    var w := Run(NEW_WORLD, events);
    RunKeepsLineage(events);
    var n := Step(w, e);
    StepKeepsLineage(w, e);
    if n.guards != [] {
      assert Without(n.guards, 0) == [];
    }
  }

  /** After revocation nothing is ever committed again. */
  lemma {:induction false} RevokedLineageIsFrozen(w: World, events: seq<Event>)
    requires LineageInv(w) && w.epoch.revoked
    ensures var n := Run(w, events); LineageInv(n) && n.epoch == w.epoch && n.log == w.log
  {
    if events != [] {
      RevokedLineageIsFrozen(w, events[..|events| - 1]);
      StepKeepsLineage(Run(w, events[..|events| - 1]), events[|events| - 1]);
    }
  }

  /** `validates_live_lineage`. */
  predicate Validates(live: Live, generation: nat, canonical: ContinuationState) {
    match live
    case Ready(head) => head == Head(generation, canonical)
    case Transitioning(prior, next) => prior == Some(Head(generation, canonical)) || next == generation
    case Uninitialized => false
  }

  /**
   * Outside a transition, exactly the last committed state validates; inside one, also anything of the next
   * generation.
   */
  lemma ValidationSeesTheHead(events: seq<Event>, generation: nat, canonical: ContinuationState)
    ensures var w := Run(NEW_WORLD, events);
            Validates(w.live, generation, canonical) <==>
              || (w.log != [] && generation == |w.log| - 1 && canonical == w.log[generation])
              || (w.guards != [] && generation == |w.log|)
  {
    RunKeepsLineage(events);
  }

  /** The lineage cell of one authority binding, updated in place. */
  class LineageCell {
    const binding: AuthorityBinding
    var live: Live

    constructor (binding: AuthorityBinding)
      ensures live == Uninitialized && this.binding == binding
    {
      this.binding, live := binding, Uninitialized;
    }

    function State(): World
      reads this, binding
    {
      World(live, binding.Current(), [], [])
    }

    method StartInitial() returns (r: Result<Guard, LineageError>)
      modifies this`live
      ensures match BeginInitialFrom(old(State()))
              case Success(w) => r.Success? && live == w.live && [r.value] == w.guards
              case Failure(e) => r == Failure(e) && live == old(live)
    {
      if binding.revoked {
        return Failure(Revoked);
      }
      if !live.Uninitialized? {
        return Failure(AlreadyEstablished);
      }
      live := Transitioning(None, 0);
      return Success(Guard(None, 0, binding.epoch));
    }

    method StartTransition(generation: nat, canonical: ContinuationState) returns (r: Result<Guard, LineageError>)
      modifies this`live
      ensures match BeginFrom(old(State()), generation, canonical)
              case Success(w) => r.Success? && live == w.live && [r.value] == w.guards
              case Failure(e) => r == Failure(e) && live == old(live)
    {
      if binding.revoked {
        return Failure(Revoked);
      }
      match live
      case Transitioning(_, _) => return Failure(InProgress);
      case Uninitialized => return Failure(Superseded);
      case Ready(head) =>
        if head.generation != generation || head.canonical != canonical {
          return Failure(Superseded);
        }
        var next := CheckedAddU64(generation, 1);
        if next.None? {
          return Failure(Exhausted);
        }
        live := Transitioning(Some(head), next.value);
        return Success(Guard(Some(head), next.value, binding.epoch));
    }

    method RestoreGuard(g: Guard) returns (r: Option<LineageError>)
      modifies this`live
      ensures live == Restored(old(live), g) && (r == if Owns(old(live), g) then None else Some(Lost))
    {
      if !live.Transitioning? || live.next != g.next {
        return Some(Lost);
      }
      match g.prior {
        case Some(head) => live := Ready(head);
        case None => live := Uninitialized;
      }
      return None;
    }

    /** Consumes the guard: when the commit is refused, the guard's drop restores the cell. */
    method CommitGuard(g: Guard, canonical: ContinuationState) returns (r: Option<LineageError>)
      modifies this`live
      ensures (live, r) == CommitOf(old(State()), g, canonical)
    {
      if binding.revoked || binding.epoch != g.epoch {
        var dropped := RestoreGuard(g);
        return Some(Revoked);
      }
      if !live.Transitioning? || live.next != g.next {
        var dropped := RestoreGuard(g);
        return Some(Lost);
      }
      live := Ready(Head(g.next, canonical));
      return None;
    }
  }
}

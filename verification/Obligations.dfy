/** The obligation registry: acceptance, readiness and status changes over a dependency graph. */
module Obligations {
  import opened Common
  import opened DependencyGraphs

  const MAX_OBLIGATIONS := 128

  datatype Status = Unsatisfied | Satisfied | Blocked(reason: string)

  datatype Obligation = Obligation(id: nat, deps: set<nat>, status: Status)

  datatype Readiness = IsReady | DependencyBlocked | ExplicitlyBlocked | IsSatisfied

  /** The registry's records under their identities. */
  type Records = map<nat, Obligation>

  datatype RegistryError =
    | BoundOutOfRange | TooMany | DuplicateId | UnknownDependency(id: nat) | DependencyCycle(unresolved: set<nat>)
    | SatisfiedTooEarly(id: nat)

  predicate UniqueIds(items: seq<Obligation>) {
    UniqueIn(items, (o: Obligation) => o.id)
  }

  /** `_by_id`. */
  function ById(items: seq<Obligation>): (m: Records)
    ensures forall id :: id in m ==> m[id].id == id && m[id] in items
    ensures forall i :: 0 <= i < |items| ==> items[i].id in m
    ensures UniqueIds(items) ==> forall i :: 0 <= i < |items| ==> m[items[i].id] == items[i]
  {
    Indexed(items, (o: Obligation) => o.id)
  }

  function GraphOf(m: Records): (g: Graph)
    ensures g.Keys == m.Keys
  {
    map id | id in m :: m[id].deps
  }

  predicate SatisfiedClosed(m: Records) {
    forall id :: id in m && m[id].status.Satisfied? ==> m[id].deps <= SatisfiedIds(m)
  }

  function SatisfiedIds(m: Records): set<nat> {
    set id | id in m && m[id].status.Satisfied?
  }

  /** What a registry promises: known dependencies, no cycle, and nothing satisfied before what it depends on. */
  ghost predicate Valid(m: Records) {
    Closed(GraphOf(m)) && Acyclic(GraphOf(m)) && SatisfiedClosed(m)
  }

  /** The registry constructor: every rejection names what is wrong, and everything else is accepted. */
  method Construct(supplied: seq<Obligation>, max: nat) returns (r: Result<Records, RegistryError>)
    ensures r.Success? <==>
              0 < max <= MAX_OBLIGATIONS && |supplied| <= max && UniqueIds(supplied) && Valid(ById(supplied))
    ensures match r
            case Success(m) => m == ById(supplied)
            case Failure(BoundOutOfRange) => max == 0 || max > MAX_OBLIGATIONS
            case Failure(TooMany) => |supplied| > max
            case Failure(DuplicateId) => !UniqueIds(supplied)
            case Failure(UnknownDependency(id)) =>
              id in ById(supplied) && !(ById(supplied)[id].deps <= ById(supplied).Keys)
            case Failure(DependencyCycle(u)) => u != {} && Waiting(GraphOf(ById(supplied)), u)
            case Failure(SatisfiedTooEarly(id)) =>
              id in ById(supplied) && ById(supplied)[id].status.Satisfied?
              && !(ById(supplied)[id].deps <= SatisfiedIds(ById(supplied)))
  {
    hide Waiting, Acyclic, Closed, SatisfiedClosed, SatisfiedIds, SatisfiedGraph, GraphOf, UniqueIds, ById, Sorted,
      DependsWithin;
    if max == 0 || max > MAX_OBLIGATIONS {
      return Failure(BoundOutOfRange);
    }
    if |supplied| > max {
      return Failure(TooMany);
    }
    if !UniqueIds(supplied) {
      return Failure(DuplicateId);
    }
    var m := ById(supplied);
    var ids := Sorted(m.Keys);
    var unknown := FirstOutside(GraphOf(m), m.Keys);
    KnownMeansClosed(m);
    if unknown.Some? {
      return Failure(UnknownDependency(unknown.value));
    }
    var unresolved := ValidateAcyclic(GraphOf(m), ids);
    if unresolved != {} {
      return Failure(DependencyCycle(unresolved));
    }
    var early := FirstOutside(SatisfiedGraph(m), SatisfiedIds(m));
    SatisfiedMeansClosed(m);
    if early.Some? {
      return Failure(SatisfiedTooEarly(early.value));
    }
    return Success(m);
  }

  /** The dependencies of the satisfied obligations. */
  function SatisfiedGraph(m: Records): (g: Graph)
    ensures g.Keys == SatisfiedIds(m)
  {
    map id | id in SatisfiedIds(m) :: m[id].deps
  }

  lemma KnownMeansClosed(m: Records)
    ensures DependsWithin(GraphOf(m), m.Keys) <==> Closed(GraphOf(m))
    ensures forall id :: id in m ==> GraphOf(m)[id] == m[id].deps
  {}

  lemma SatisfiedMeansClosed(m: Records)
    ensures DependsWithin(SatisfiedGraph(m), SatisfiedIds(m)) <==> SatisfiedClosed(m)
    ensures forall id :: id in SatisfiedIds(m) ==>
              id in m && m[id].status.Satisfied? && SatisfiedGraph(m)[id] == m[id].deps
  {
    if DependsWithin(SatisfiedGraph(m), SatisfiedIds(m)) {
      forall id | id in m && m[id].status.Satisfied? ensures m[id].deps <= SatisfiedIds(m) {
        assert id in SatisfiedGraph(m);
      }
    }
  }

  // ----- Readiness -----

  function BlockingIds(m: Records, id: nat): set<nat>
    requires id in m
  {
    m[id].deps - SatisfiedIds(m)
  }

  function ReadinessOf(m: Records, id: nat): Readiness
    requires id in m
  {
    if m[id].status.Satisfied? then IsSatisfied
    else if m[id].status.Blocked? then ExplicitlyBlocked
    else if BlockingIds(m, id) != {} then DependencyBlocked
    else IsReady
  }

  /** What each readiness means: the obligation's own status first, then whether something it needs is unsatisfied. */
  lemma ReadinessMeans(m: Records, id: nat)
    requires id in m
    ensures var waits := exists d :: d in m[id].deps && (d !in m || !m[d].status.Satisfied?);
            match ReadinessOf(m, id)
            case IsSatisfied => m[id].status.Satisfied?
            case ExplicitlyBlocked => m[id].status.Blocked?
            case DependencyBlocked => m[id].status.Unsatisfied? && waits
            case IsReady => m[id].status.Unsatisfied? && !waits
  {
    forall d | d in m[id].deps
      ensures d in BlockingIds(m, id) <==> d !in m || !m[d].status.Satisfied?
    {}
  }

  /** `ready_ids`, in identity order. */
  function ReadyIds(m: Records): (r: seq<nat>)
    ensures forall id :: id in r <==> id in m && ReadinessOf(m, id).IsReady?
    ensures Ascending(r)
  {
    var ready := set id | id in m && ReadinessOf(m, id).IsReady?;
    assert forall id :: id in Sorted(ready) <==> id in Elements(Sorted(ready));
    Sorted(ready)
  }

  predicate NoneBlocked(m: Records) {
    forall id :: id in m ==> !m[id].status.Blocked?
  }

  predicate AllSatisfied(m: Records) {
    forall id :: id in m ==> m[id].status.Satisfied?
  }

  /**
   * Whatever is left to do in a valid registry, something in it waits for nothing: either it is ready, or it is
   * explicitly blocked and only that holds it.
   */
  lemma SomethingIsUnobstructed(m: Records) returns (id: nat)
    requires Valid(m) && !AllSatisfied(m)
    ensures id in m && BlockingIds(m, id) == {} && ReadinessOf(m, id) in {IsReady, ExplicitlyBlocked}
  {
    hide Acyclic;
    var left := m.Keys - SatisfiedIds(m);
    var witnessId :| witnessId in m && !m[witnessId].status.Satisfied?;
    assert witnessId in left;
    if forall v :: v in left ==> BlockingIds(m, v) != {} {
      forall v | v in left ensures WaitsWithin(GraphOf(m), left, v) {
        var d :| d in BlockingIds(m, v);
        assert d in GraphOf(m)[v] && d in left;
      }
      WaitingMeansCycle(GraphOf(m), left);
      assert false;
    }
    id :| id in left && BlockingIds(m, id) == {};
  }

  /** With nothing explicitly blocked, the ready list is empty exactly when every obligation is satisfied. */
  lemma ReadyUnlessComplete(m: Records)
    requires Valid(m) && NoneBlocked(m)
    ensures ReadyIds(m) == [] <==> AllSatisfied(m)
  {
    hide Valid;
    if !AllSatisfied(m) {
      var id := SomethingIsUnobstructed(m);
      assert id in ReadyIds(m);
    } else {
      HeadIsMember(ReadyIds(m));
    }
  }

  lemma HeadIsMember(s: seq<nat>)
    ensures s == [] || exists x :: x in s
  {
    assert s == [] || s[0] in s;
  }

  // ----- Status changes -----

  function WithStatus(m: Records, id: nat, s: Status): Records
    requires id in m
  {
    m[id := m[id].(status := s)]
  }

  lemma SameGraph(m: Records, id: nat, s: Status)
    requires id in m
    ensures GraphOf(WithStatus(m, id, s)) == GraphOf(m)
  {}

  /** Satisfying an obligation is accepted exactly when nothing blocks it. */
  lemma SatisfyAcceptedIffUnblocked(m: Records, id: nat)
    requires Valid(m) && id in m
    ensures Valid(WithStatus(m, id, Satisfied)) <==> BlockingIds(m, id) == {}
  {
    hide Acyclic, Closed;
    var n := WithStatus(m, id, Satisfied);
    SameGraph(m, id, Satisfied);
    assert SatisfiedIds(n) == SatisfiedIds(m) + {id};
    assert id !in m[id].deps by { NoSelfDependency(m, id); }
    if BlockingIds(m, id) == {} {
      assert m[id].deps <= SatisfiedIds(m);
    }
    if Valid(n) {
      assert n[id].deps <= SatisfiedIds(n);
    }
  }

  lemma NoSelfDependency(m: Records, id: nat)
    requires Valid(m) && id in m
    ensures id !in m[id].deps
  {
    if id in m[id].deps {
      assert IsCycle(GraphOf(m), [id, id]);
    }
  }

  /** Reopening or blocking an obligation is accepted exactly when no satisfied obligation depends on it. */
  lemma ReopenAcceptedIffUnused(m: Records, id: nat, s: Status)
    requires Valid(m) && id in m && !s.Satisfied?
    ensures Valid(WithStatus(m, id, s)) <==>
              forall u :: u in m && u != id && m[u].status.Satisfied? ==> id !in m[u].deps
  {
    hide Acyclic, Closed;
    var n := WithStatus(m, id, s);
    SameGraph(m, id, s);
    assert SatisfiedIds(n) == SatisfiedIds(m) - {id};
    if Valid(n) {
      forall u | u in m && u != id && m[u].status.Satisfied? ensures id !in m[u].deps {
        assert n[u].deps <= SatisfiedIds(n);
      }
    } else {
      var u :| u in n && n[u].status.Satisfied? && !(n[u].deps <= SatisfiedIds(n));
      assert m[u].deps <= SatisfiedIds(m);
      assert id in m[u].deps;
    }
  }

  // ----- Working a registry off -----

  /** Each registry comes from the one before by satisfying one ready obligation. */
  ghost predicate WorkedOff(run: seq<Records>) {
    forall i :: 0 < i < |run| ==> SatisfiesReady(run[i - 1], run[i])
  }

  ghost predicate SatisfiesReady(m: Records, n: Records) {
    exists id :: id in ReadyIds(m) && n == WithStatus(m, id, Satisfied)
  }

  function Remaining(m: Records): nat {
    |m.Keys - SatisfiedIds(m)|
  }

  lemma ReadyIsUnblocked(m: Records, id: nat)
    requires id in ReadyIds(m)
    ensures id in m && m[id].status.Unsatisfied? && BlockingIds(m, id) == {}
  {
    hide BlockingIds;
  }

  lemma SatisfiedGrows(m: Records, id: nat)
    requires id in m && !m[id].status.Satisfied?
    ensures SatisfiedIds(WithStatus(m, id, Satisfied)) == SatisfiedIds(m) + {id} && id !in SatisfiedIds(m)
    ensures WithStatus(m, id, Satisfied).Keys == m.Keys
  {}

  lemma ReadyStep(m: Records, n: Records)
    requires Valid(m) && NoneBlocked(m) && SatisfiesReady(m, n)
    ensures Valid(n) && NoneBlocked(n) && Remaining(n) == Remaining(m) - 1
  {
    hide Valid, ReadyIds, SatisfiedIds, BlockingIds;
    var id :| id in ReadyIds(m) && n == WithStatus(m, id, Satisfied);
    ReadyIsUnblocked(m, id);
    SatisfyAcceptedIffUnblocked(m, id);
    SatisfiedGrows(m, id);
    RemoveOne(m.Keys, SatisfiedIds(m), id);
  }

  /**
   * Satisfying ready obligations in any order never gets stuck and never fails: every state on the way is valid,
   * a run of k steps satisfies exactly k, and it can be continued until, and only until, all are satisfied.
   */
  lemma {:induction false} AnyReadyOrderCompletes(run: seq<Records>)
    requires run != [] && Valid(run[0]) && NoneBlocked(run[0]) && WorkedOff(run)
    ensures var last := run[|run| - 1];
            && Valid(last) && NoneBlocked(last) && Remaining(last) + (|run| - 1) == Remaining(run[0])
            && (AllSatisfied(last) <==> |run| - 1 == Remaining(run[0]))
            && (!AllSatisfied(last) <==> exists n :: SatisfiesReady(last, n))
  {
    hide Valid, SatisfiesReady;
    var k := |run| - 1;
    if k > 0 {
      AnyReadyOrderCompletes(run[..k]);
      ReadyStep(run[k - 1], run[k]);
    }
    var last := run[k];
    ReadyUnlessComplete(last);
    NoneRemaining(last);
    Continuable(last);
  }

  lemma NoneRemaining(m: Records)
    ensures Remaining(m) == 0 <==> AllSatisfied(m)
  {
    EmptyDifference(m.Keys, SatisfiedIds(m));
  }

  lemma Continuable(m: Records)
    ensures ReadyIds(m) != [] <==> exists n :: SatisfiesReady(m, n)
  {
    if ReadyIds(m) != [] {
      assert ReadyIds(m)[0] in ReadyIds(m);
      assert SatisfiesReady(m, WithStatus(m, ReadyIds(m)[0], Satisfied));
    }
  }
}

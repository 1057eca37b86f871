/** The epistemic state: acceptance of a set of records, and the digest of everything some keys depend on. */
module Epistemic {
  import opened Common
  import opened DependencyGraphs

  const MAX_RECORDS := 256

  datatype Class = Observed | Derived | ModelProposed | Unknown

  datatype Provenance = Provenance(source: string, sourceId: string, dependencyId: string, reused: bool)

  datatype Record = Record(key: nat, class_: Class, value: Option<string>, deps: set<nat>,
                           provenance: Option<Provenance>)

  /** The semantic identity of a record: everything but how the observation was delivered. */
  datatype Identity = Identity(key: nat, class_: Class, value: Option<string>, deps: set<nat>,
                               origin: Option<(string, string, string)>)

  type Records = map<nat, Record>

  datatype StateError =
    | BoundOutOfRange | TooMany | DuplicateKey | UnknownDependency(key: nat) | DependencyCycle(unresolved: set<nat>)
    | UnresolvedDependency(key: nat)

  datatype DigestError = RepeatedKey | UnresolvedKeys(keys: set<nat>)

  function IdentityOf(r: Record): Identity {
    Identity(r.key, r.class_, r.value, r.deps,
             match r.provenance case None => None case Some(p) => Some((p.source, p.sourceId, p.dependencyId)))
  }

  /** The same record, whether or not its observation was reused. */
  predicate SameButReuse(a: Record, b: Record) {
    && a.key == b.key && a.class_ == b.class_ && a.value == b.value && a.deps == b.deps
    && match (a.provenance, b.provenance)
       case (None, None) => true
       case (Some(p), Some(q)) => p.(reused := q.reused) == q
       case _ => false
  }

  /** Two records have one identity exactly when they differ at most in whether the observation was reused. */
  lemma IdentityForgetsOnlyReuse(a: Record, b: Record)
    ensures IdentityOf(a) == IdentityOf(b) <==> SameButReuse(a, b)
  {}

  predicate IsResolved(r: Record) {
    r.class_.Observed? || r.class_.Derived?
  }

  predicate UniqueKeys(items: seq<Record>) {
    UniqueIn(items, (r: Record) => r.key)
  }

  /** `_by_key`. */
  function ByKey(items: seq<Record>): (m: Records)
    ensures forall k :: k in m ==> m[k].key == k && m[k] in items
    ensures forall i :: 0 <= i < |items| ==> items[i].key in m
    ensures UniqueKeys(items) ==> forall i :: 0 <= i < |items| ==> m[items[i].key] == items[i]
  {
    Indexed(items, (r: Record) => r.key)
  }

  function GraphOf(m: Records): (g: Graph)
    ensures g.Keys == m.Keys
  {
    map k | k in m :: m[k].deps
  }

  function ResolvedKeys(m: Records): set<nat> {
    set k | k in m && IsResolved(m[k])
  }

  predicate DependenciesResolved(m: Records) {
    forall k :: k in m ==> m[k].deps <= ResolvedKeys(m)
  }

  /** What an epistemic state promises. */
  ghost predicate Valid(m: Records) {
    && Closed(GraphOf(m)) && Acyclic(GraphOf(m)) && DependenciesResolved(m)
    && forall k :: k in m ==> m[k].key == k
  }

  /** The state constructor. */
  method Construct(supplied: seq<Record>, max: nat) returns (r: Result<Records, StateError>)
    ensures r.Success? <==>
              0 < max <= MAX_RECORDS && |supplied| <= max && UniqueKeys(supplied) && Valid(ByKey(supplied))
    ensures match r
            case Success(m) => m == ByKey(supplied)
            case Failure(BoundOutOfRange) => max == 0 || max > MAX_RECORDS
            case Failure(TooMany) => |supplied| > max
            case Failure(DuplicateKey) => !UniqueKeys(supplied)
            case Failure(UnknownDependency(k)) =>
              k in ByKey(supplied) && !(ByKey(supplied)[k].deps <= ByKey(supplied).Keys)
            case Failure(DependencyCycle(u)) => u != {} && Waiting(GraphOf(ByKey(supplied)), u)
            case Failure(UnresolvedDependency(k)) =>
              k in ByKey(supplied) && !(ByKey(supplied)[k].deps <= ResolvedKeys(ByKey(supplied)))
  {
    hide Waiting, Acyclic, Closed, DependenciesResolved, ResolvedKeys, GraphOf, UniqueKeys, ByKey, Sorted,
      DependsWithin;
    if max == 0 || max > MAX_RECORDS {
      return Failure(BoundOutOfRange);
    }
    if |supplied| > max {
      return Failure(TooMany);
    }
    if !UniqueKeys(supplied) {
      return Failure(DuplicateKey);
    }
    var m := ByKey(supplied);
    var keys := Sorted(m.Keys);
    DependsMeansDependsWithin(m);
    var unknown := FirstOutside(GraphOf(m), m.Keys);
    if unknown.Some? {
      return Failure(UnknownDependency(unknown.value));
    }
    var unresolved := ValidateAcyclic(GraphOf(m), keys);
    if unresolved != {} {
      return Failure(DependencyCycle(unresolved));
    }
    var open := FirstOutside(GraphOf(m), ResolvedKeys(m));
    if open.Some? {
      return Failure(UnresolvedDependency(open.value));
    }
    return Success(m);
  }

  lemma DependsMeansDependsWithin(m: Records)
    ensures DependsWithin(GraphOf(m), m.Keys) <==> Closed(GraphOf(m))
    ensures DependsWithin(GraphOf(m), ResolvedKeys(m)) <==> DependenciesResolved(m)
    ensures forall k :: k in m ==> GraphOf(m)[k] == m[k].deps
  {
    forall k | k in m ensures GraphOf(m)[k] == m[k].deps {}
  }

  // ----- The dependency digest -----

  /** `k` can be reached from one of the roots by following dependencies. */
  ghost predicate Reachable(g: Graph, roots: set<nat>, k: nat) {
    exists p :: |p| > 0 && IsWalk(g, p) && p[0] in roots && p[|p| - 1] == k
  }

  ghost predicate IsClosure(g: Graph, roots: set<nat>, c: set<nat>) {
    forall k :: k in c <==> Reachable(g, roots, k)
  }

  /** Everything a set of keys contains is in it, together with what each of its members depends on. */
  predicate ClosedUnder(g: Graph, c: set<nat>) {
    c <= g.Keys && forall k :: k in c ==> g[k] <= c
  }

  lemma RootIsReachable(g: Graph, roots: set<nat>, k: nat)
    requires k in roots && k in g
    ensures Reachable(g, roots, k)
  {
    assert IsWalk(g, [k]);
  }

  lemma StepIsReachable(g: Graph, roots: set<nat>, k: nat, d: nat)
    requires Reachable(g, roots, k) && k in g && d in g[k] && d in g
    ensures Reachable(g, roots, d)
  {
    var p :| |p| > 0 && IsWalk(g, p) && p[0] in roots && p[|p| - 1] == k;
    var q := p + [d];
    forall i | 0 < i < |q| ensures q[i] in g[q[i - 1]] {
      if i < |p| { assert p[i] in g[p[i - 1]]; }
    }
    assert IsWalk(g, q) && q[0] in roots && q[|q| - 1] == d;
  }

  lemma {:induction false} WalkStaysInside(g: Graph, c: set<nat>, p: seq<nat>)
    requires ClosedUnder(g, c) && |p| > 0 && IsWalk(g, p) && p[0] in c
    ensures p[|p| - 1] in c
  {
    if |p| > 1 {
      assert p[1] in g[p[0]];
      WalkStaysInside(g, c, p[1..]);
    }
  }

  /** A set between the roots and what they reach, and closed under dependencies, is exactly what they reach. */
  lemma ClosedMeansClosure(g: Graph, roots: set<nat>, c: set<nat>)
    requires ClosedUnder(g, c) && roots <= c && forall k :: k in c ==> Reachable(g, roots, k)
    ensures IsClosure(g, roots, c)
  {
    forall k | Reachable(g, roots, k) ensures k in c {
      var p :| |p| > 0 && IsWalk(g, p) && p[0] in roots && p[|p| - 1] == k;
      WalkStaysInside(g, c, p);
    }
  }

  /** The worklist: what the keys reach through dependencies. */
  method Closure(m: Records, keys: seq<nat>) returns (closure: set<nat>)
    requires Closed(GraphOf(m)) && Elements(keys) <= m.Keys
    ensures closure <= m.Keys && IsClosure(GraphOf(m), Elements(keys), closure)
  {
    hide Reachable, IsClosure, Closed, Elements;
    ghost var g, roots := GraphOf(m), Elements(keys);
    closure := Elements(keys);
    var pending := keys;
    forall k | k in closure ensures Reachable(g, roots, k) {
      RootIsReachable(g, roots, k);
    }
    while pending != []
      invariant roots <= closure <= m.Keys && Elements(pending) <= closure
      invariant forall k :: k in closure ==> Reachable(g, roots, k)
      invariant forall k :: k in closure && k !in Elements(pending) ==> m[k].deps <= closure
      decreases |m.Keys - closure|, |pending|
    {
      var key, rest := pending[|pending| - 1], pending[..|pending| - 1];
      ghost var before := closure;
      assert pending == rest + [key];
      ElementsSnoc(rest, key);
      KnownDependencies(m, key);
      forall d | d in m[key].deps ensures Reachable(g, roots, d) {
        StepIsReachable(g, roots, key, d);
      }
      closure, pending := Expand(m[key].deps, closure, rest);
      SmallerRemainder(m.Keys, before, closure);
    }
    assert Elements(pending) == {} by { assert forall x :: x !in pending; NoElements(); }
    ClosedMeansClosure(g, roots, closure);
  }

  lemma NoElements()
    ensures Elements([]) == {}
  {}

  lemma KnownDependencies(m: Records, key: nat)
    requires Closed(GraphOf(m)) && key in m
    ensures m[key].deps <= m.Keys && GraphOf(m)[key] == m[key].deps
  {}

  lemma SmallerRemainder(all: set<nat>, a: set<nat>, b: set<nat>)
    requires a <= b <= all
    ensures |all - b| <= |all - a| && (|all - b| == |all - a| ==> a == b)
  {
    assert all - a == (all - b) + (b - a);
    assert |all - a| == |all - b| + |b - a|;
    EmptyDifference(b, a);
  }

  /** Add the unseen dependencies of one key to the closure and to the pending keys. */
  method Expand(deps: set<nat>, closure0: set<nat>, pending0: seq<nat>) returns (closure: set<nat>, pending: seq<nat>)
    ensures closure == closure0 + deps
    ensures Elements(pending) == Elements(pending0) + (closure - closure0)
    ensures closure == closure0 ==> pending == pending0
  {
    hide Elements, IsLeast;
    closure, pending := closure0, pending0;
    var todo := deps;
    while todo != {}
      invariant todo <= deps && forall x :: x in closure <==> x in closure0 || (x in deps && x !in todo)
      invariant forall x :: x in Elements(pending) <==> x in Elements(pending0) || (x in closure && x !in closure0)
      invariant |closure0| <= |closure| && (|closure| == |closure0| ==> pending == pending0)
      decreases |todo|
    {
      LeastExists(todo);
      var d :| IsLeast(d, todo);
      LeastIsMember(d, todo);
      todo := todo - {d};
      if d !in closure {
        ElementsSnoc(pending, d);
        closure, pending := closure + {d}, pending + [d];
      }
    }
  }

  /** The identities of a set of records, in key order. */
  function Identities(m: Records, keys: seq<nat>): (r: seq<Identity>)
    requires Elements(keys) <= m.Keys
    ensures |r| == |keys|
  {
    seq(|keys|, i requires 0 <= i < |keys| => assert keys[i] in Elements(keys); IdentityOf(m[keys[i]]))
  }

  /** `dependency_digest`, as the list of identities it covers. */
  method DependencyDigest(m: Records, keys: seq<nat>)
    returns (r: Result<seq<Identity>, DigestError>, ghost closure: set<nat>)
    requires Valid(m)
    ensures r.Success? <==> Distinct(keys) && Elements(keys) <= ResolvedKeys(m)
    ensures match r
            case Success(d) =>
              closure <= m.Keys && IsClosure(GraphOf(m), Elements(keys), closure) && d == Identities(m, Sorted(closure))
            case Failure(RepeatedKey) => !Distinct(keys)
            case Failure(UnresolvedKeys(u)) => u != {} && u == Elements(keys) - ResolvedKeys(m)
  {
    hide Reachable, IsClosure, Closed, Acyclic, Sorted;
    closure := {};
    if !Distinct(keys) {
      return Failure(RepeatedKey), closure;
    }
    var unresolved := Elements(keys) - ResolvedKeys(m);
    if unresolved != {} {
      return Failure(UnresolvedKeys(unresolved)), closure;
    }
    assert Elements(keys) <= ResolvedKeys(m) by {
      forall k | k in Elements(keys) ensures k in ResolvedKeys(m) {
        assert k in ResolvedKeys(m) || k in unresolved;
      }
    }
    var all := Closure(m, keys);
    closure := all;
    r := Success(Identities(m, Sorted(all)));
  }

  /** Nothing unresolved ever enters a digest. */
  lemma ClosureIsResolved(m: Records, roots: set<nat>, closure: set<nat>)
    requires Valid(m) && roots <= ResolvedKeys(m) && IsClosure(GraphOf(m), roots, closure)
    ensures closure <= ResolvedKeys(m)
    ensures forall k :: k in closure ==> k in m && (m[k].class_.Observed? || m[k].class_.Derived?)
  {
    hide Acyclic;
    var g := GraphOf(m);
    forall k | k in closure ensures k in ResolvedKeys(m) {
      assert Reachable(g, roots, k);
      var p :| |p| > 0 && IsWalk(g, p) && p[0] in roots && p[|p| - 1] == k;
      if |p| > 1 {
        assert k in g[p[|p| - 2]];
        assert k in m[p[|p| - 2]].deps;
      }
    }
  }

  // ----- What the digest depends on -----

  lemma SameIdentities(m: Records, n: Records, left: seq<nat>, right: seq<nat>)
    requires Elements(left) <= m.Keys && Elements(right) <= n.Keys
    requires (forall k :: k in m ==> m[k].key == k) && (forall k :: k in n ==> n[k].key == k)
    ensures Identities(m, left) == Identities(n, right) <==>
              left == right && forall k :: k in left ==> k in m && k in n && IdentityOf(m[k]) == IdentityOf(n[k])
  {
    var a, b := Identities(m, left), Identities(n, right);
    assert forall i :: 0 <= i < |left| ==> left[i] in Elements(left);
    assert forall i :: 0 <= i < |right| ==> right[i] in Elements(right);
    assert forall i :: 0 <= i < |a| ==> a[i] == IdentityOf(m[left[i]]) && a[i].key == left[i];
    assert forall i :: 0 <= i < |b| ==> b[i] == IdentityOf(n[right[i]]) && b[i].key == right[i];
    if a == b {
      assert forall i :: 0 <= i < |left| ==> left[i] == a[i].key == b[i].key == right[i];
      assert left == right;
    }
  }

  /** Agreement on what one state reaches carries every walk over to the other state. */
  lemma {:induction false} WalkCarriesOver(m: Records, n: Records, c: set<nat>, p: seq<nat>)
    requires ClosedUnder(GraphOf(m), c) && |p| > 0 && IsWalk(GraphOf(m), p) && p[0] in c
    requires forall k :: k in c ==> k in n && n[k].deps == m[k].deps
    ensures IsWalk(GraphOf(n), p)
  {
    if |p| > 1 {
      assert p[1] in GraphOf(m)[p[0]];
      WalkCarriesOver(m, n, c, p[1..]);
      forall i | 0 < i < |p| ensures p[i] in GraphOf(n)[p[i - 1]] {
        if i > 1 { assert p[1..][i - 1] in GraphOf(n)[p[1..][i - 2]]; }
      }
      forall i | 0 <= i < |p| ensures p[i] in GraphOf(n) {
        if i > 0 { assert p[1..][i - 1] in GraphOf(n); }
      }
    }
  }

  lemma ClosureIsClosed(g: Graph, roots: set<nat>, c: set<nat>)
    requires Closed(g) && roots <= g.Keys && IsClosure(g, roots, c)
    ensures ClosedUnder(g, c) && roots <= c
  {
    forall k | k in roots ensures k in c {
      RootIsReachable(g, roots, k);
    }
    forall k | k in c ensures k in g && g[k] <= c {
      assert Reachable(g, roots, k);
      forall d | d in g[k] ensures d in c {
        StepIsReachable(g, roots, k, d);
      }
    }
  }

  /**
   * The digest of some keys changes exactly when a record they depend on, directly or not, changes identity:
   * records outside that closure never matter, and no change inside it goes unnoticed.
   */
  lemma DigestSeesExactlyTheClosure(m: Records, n: Records, roots: set<nat>, c: set<nat>, d: set<nat>)
    requires Valid(m) && Valid(n) && roots <= m.Keys && roots <= n.Keys && c <= m.Keys && d <= n.Keys
    requires IsClosure(GraphOf(m), roots, c) && IsClosure(GraphOf(n), roots, d)
    ensures Identities(m, Sorted(c)) == Identities(n, Sorted(d)) <==>
              forall k :: k in c ==> k in n && IdentityOf(n[k]) == IdentityOf(m[k])
  {
    hide IsClosure, Reachable, Acyclic, Sorted, Identities;
    SameIdentities(m, n, Sorted(c), Sorted(d));
    assert forall k :: k in c <==> k in Elements(Sorted(c));
    if forall k :: k in c ==> k in n && IdentityOf(n[k]) == IdentityOf(m[k]) {
      SameClosure(m, n, roots, c, d);
    }
  }

  lemma SameClosure(m: Records, n: Records, roots: set<nat>, c: set<nat>, d: set<nat>)
    requires Valid(m) && Valid(n) && roots <= m.Keys && roots <= n.Keys
    requires IsClosure(GraphOf(m), roots, c) && IsClosure(GraphOf(n), roots, d)
    requires forall k :: k in c ==> k in n && IdentityOf(n[k]) == IdentityOf(m[k])
    ensures c == d
  {
    hide Acyclic;
    ClosureIsClosed(GraphOf(m), roots, c);
    assert ClosedUnder(GraphOf(n), c) by {
      forall k | k in c ensures GraphOf(n)[k] <= c {
        assert IdentityOf(n[k]).deps == IdentityOf(m[k]).deps;
        assert GraphOf(m)[k] <= c;
      }
    }
    forall k | k in c ensures Reachable(GraphOf(n), roots, k) {
      assert Reachable(GraphOf(m), roots, k);
      var p :| |p| > 0 && IsWalk(GraphOf(m), p) && p[0] in roots && p[|p| - 1] == k;
      forall j | j in c ensures n[j].deps == m[j].deps {
        assert IdentityOf(n[j]).deps == IdentityOf(m[j]).deps;
      }
      WalkCarriesOver(m, n, c, p);
    }
    ClosedMeansClosure(GraphOf(n), roots, c);
  }
}

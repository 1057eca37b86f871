/**
 * Dependency graphs: cycles, dependency-respecting orders, and the heap-driven ordering loop shared by
 * the obligation registry and the epistemic state.  Node identities are compared in one total order.
 */
module DependencyGraphs {
  import opened Common

  /** What each node depends on. */
  type Graph = map<nat, set<nat>>

  predicate Closed(g: Graph) {
    forall v :: v in g ==> g[v] <= g.Keys
  }

  function Elements(s: seq<nat>): set<nat> {
    set x | x in s
  }

  // ----- Cycles -----

  /** Every step goes from a node to one of its dependencies. */
  predicate IsWalk(g: Graph, p: seq<nat>) {
    && (forall i :: 0 <= i < |p| ==> p[i] in g)
    && (forall i :: 0 < i < |p| ==> p[i] in g[p[i - 1]])
  }

  predicate IsCycle(g: Graph, p: seq<nat>) {
    |p| >= 2 && p[0] == p[|p| - 1] && IsWalk(g, p)
  }

  ghost predicate Acyclic(g: Graph) {
    forall p :: !IsCycle(g, p)
  }

  // ----- Orders -----

  /** Every node comes after all of its dependencies. */
  predicate Respects(g: Graph, order: seq<nat>) {
    forall i :: 0 <= i < |order| ==> order[i] in g && g[order[i]] <= Elements(order[..i])
  }

  /** A permutation of the nodes that respects the dependencies. */
  predicate IsOrder(g: Graph, order: seq<nat>) {
    Distinct(order) && Elements(order) == g.Keys && Respects(g, order)
  }

  /** The nodes that may come next. */
  function Ready(g: Graph, done: set<nat>): set<nat> {
    set v | v in g && v !in done && g[v] <= done
  }

  predicate IsLeast(x: nat, s: set<nat>) {
    x in s && forall y :: y in s ==> x <= y
  }

  /** Each position holds the least node that could come next. */
  predicate Greedy(g: Graph, order: seq<nat>) {
    forall i :: 0 <= i < |order| ==> IsLeast(order[i], Ready(g, Elements(order[..i])))
  }

  /** Lexicographic order: equal, or smaller at the first difference. */
  predicate LexAtMost(a: seq<nat>, b: seq<nat>) {
    a == b || exists i :: 0 <= i < |a| && i < |b| && a[..i] == b[..i] && a[i] < b[i]
  }

  lemma ElementsSnoc(s: seq<nat>, x: nat)
    ensures Elements(s + [x]) == Elements(s) + {x}
  {
    assert forall y :: y in s + [x] <==> y in s || y == x;
  }

  lemma LeastExists(s: set<nat>)
    requires s != {}
    ensures exists x :: IsLeast(x, s)
  {
    var y :| y in s;
    if s == {y} {
      assert IsLeast(y, s);
    } else {
      assert s - {y} != {} by {
        assert s == s - {y} + {y};
      }
      LeastExists(s - {y});
      var x :| IsLeast(x, s - {y});
      var least := if x < y then x else y;
      forall z | z in s ensures least <= z {
        if z != y { assert z in s - {y}; }
      }
      assert IsLeast(least, s);
    }
  }

  // ----- Ascending enumeration -----

  predicate Ascending(s: seq<nat>) {
    forall i, j :: 0 <= i < j < |s| ==> s[i] < s[j]
  }

  /** `sorted(...)` of a set of identities. */
  function Sorted(s: set<nat>): (r: seq<nat>)
    ensures Ascending(r) && Elements(r) == s
  {
    if s == {} then []
    else
      LeastExists(s);
      var x :| IsLeast(x, s);
      AscendingCons(x, s, Sorted(s - {x}));
      [x] + Sorted(s - {x})
  }

  lemma AscendingCons(x: nat, s: set<nat>, rest: seq<nat>)
    requires IsLeast(x, s) && Ascending(rest) && Elements(rest) == s - {x}
    ensures Ascending([x] + rest) && Elements([x] + rest) == s
  {
    forall i | 0 <= i < |rest| ensures x < rest[i] {
      assert rest[i] in Elements(rest);
    }
    assert forall y :: y in [x] + rest <==> y == x || y in Elements(rest);
    assert Elements([x] + rest) == {x} + Elements(rest);
  }

  // ----- Acyclicity and orders agree -----

  /** Positions strictly fall along a walk, so a full order leaves no room for a cycle. */
  lemma {:induction false} WalkFalls(g: Graph, order: seq<nat>, p: seq<nat>, at: nat)
    requires IsOrder(g, order) && IsWalk(g, p) && |p| >= 2 && at < |order| && order[at] == p[0]
    ensures exists k :: 0 <= k < at && order[k] == p[|p| - 1]
    decreases |p|
  {
    assert p[1] in g[p[0]];
    assert p[1] in Elements(order[..at]);
    var k :| 0 <= k < at && order[k] == p[1];
    if |p| > 2 {
      assert IsWalk(g, p[1..]);
      WalkFalls(g, order, p[1..], k);
    }
  }

  lemma OrderMeansAcyclic(g: Graph, order: seq<nat>)
    requires IsOrder(g, order)
    ensures Acyclic(g)
  {
    forall p ensures !IsCycle(g, p) {
      if IsCycle(g, p) {
        assert p[0] in Elements(order);
        var at :| 0 <= at < |order| && order[at] == p[0];
        WalkFalls(g, order, p, at);
      }
    }
  }

  /** Every node of `stuck` still waits for another node of `stuck`. */
  predicate Waiting(g: Graph, stuck: set<nat>) {
    stuck <= g.Keys && forall v :: v in stuck ==> WaitsWithin(g, stuck, v)
  }

  predicate WaitsWithin(g: Graph, stuck: set<nat>, v: nat)
    requires v in g
  {
    exists d :: d in g[v] && d in stuck
  }

  lemma WaitStep(g: Graph, stuck: set<nat>, v: nat) returns (d: nat)
    requires Waiting(g, stuck) && v in stuck
    ensures v in g && d in g[v] && d in stuck && d in g
  {
    assert WaitsWithin(g, stuck, v) by { hide WaitsWithin; }
    d := PeerOf(g, stuck, v);
  }

  lemma PeerOf(g: Graph, stuck: set<nat>, v: nat) returns (d: nat)
    requires v in g && stuck <= g.Keys && WaitsWithin(g, stuck, v)
    ensures d in g[v] && d in stuck && d in g
  {
    d :| d in g[v] && d in stuck;
  }

  lemma {:induction false} WalkInside(g: Graph, stuck: set<nat>, v: nat, n: nat) returns (p: seq<nat>)
    requires Waiting(g, stuck) && v in stuck && n > 0
    ensures |p| == n && p[0] == v && IsWalk(g, p) && forall i :: 0 <= i < |p| ==> p[i] in stuck
    decreases n
  {
    hide Waiting;
    p := [v];
    var d := WaitStep(g, stuck, v);
    if n > 1 {
      var rest := WalkInside(g, stuck, d, n - 1);
      p := [v] + rest;
      forall i | 0 < i < |p| ensures p[i] in g[p[i - 1]] {
        if i > 1 { assert rest[i - 1] in g[rest[i - 2]]; }
      }
    }
  }

  lemma {:induction false} DistinctFits(s: seq<nat>, within: set<nat>)
    requires Distinct(s) && forall i :: 0 <= i < |s| ==> s[i] in within
    ensures |s| <= |within|
  {
    if s != [] {
      DistinctFits(s[1..], within - {s[0]});
    }
  }

  lemma WaitingMeansCycle(g: Graph, stuck: set<nat>)
    requires Waiting(g, stuck) && stuck != {}
    ensures !Acyclic(g)
  {
    hide Waiting;
    var v :| v in stuck;
    var p := WalkInside(g, stuck, v, |stuck| + 1);
    if Distinct(p) {
      DistinctFits(p, stuck);
    } else {
      var i, j :| 0 <= i < j < |p| && p[i] == p[j];
      var c := p[i..j + 1];
      forall k | 0 < k < |c| ensures c[k] in g[c[k - 1]] {
        assert p[i + k] in g[p[i + k - 1]];
      }
      assert IsCycle(g, c);
    }
  }

  // ----- The greedy order is the least -----

  lemma NextIsReady(g: Graph, q: seq<nat>, i: nat)
    requires IsOrder(g, q) && i < |q|
    ensures q[i] in Ready(g, Elements(q[..i]))
  {}

  lemma {:induction false} OrderLength(g: Graph, a: seq<nat>)
    requires IsOrder(g, a)
    ensures |a| == |g.Keys|
  {
    DistinctCount(a);
  }

  lemma {:induction false} DistinctCount(s: seq<nat>)
    requires Distinct(s)
    ensures |Elements(s)| == |s|
  {
    if s != [] {
      var k := |s| - 1;
      DistinctCount(s[..k]);
      assert s == s[..k] + [s[k]];
      ElementsSnoc(s[..k], s[k]);
    }
  }

  /** A greedy order is lexicographically least among all dependency-respecting permutations. */
  lemma GreedyIsLeast(g: Graph, order: seq<nat>, other: seq<nat>)
    requires IsOrder(g, order) && Greedy(g, order) && IsOrder(g, other)
    ensures LexAtMost(order, other)
  {
    OrderLength(g, order);
    OrderLength(g, other);
    AgreeOrBelow(g, order, other, 0);
  }

  lemma {:induction false} AgreeOrBelow(g: Graph, order: seq<nat>, other: seq<nat>, i: nat)
    requires IsOrder(g, order) && Greedy(g, order) && IsOrder(g, other)
    requires |order| == |other| && i <= |order| && order[..i] == other[..i]
    ensures LexAtMost(order, other)
    decreases |order| - i
  {
    if i == |order| {
      assert order == order[..i] && other == other[..i];
    } else {
      NextIsReady(g, other, i);
      assert IsLeast(order[i], Ready(g, Elements(order[..i])));
      if order[i] == other[i] {
        assert order[..i + 1] == order[..i] + [order[i]] && other[..i + 1] == other[..i] + [other[i]];
        AgreeOrBelow(g, order, other, i + 1);
      }
    }
  }

  // ----- The loop -----

  lemma RemoveOne(s: set<nat>, done: set<nat>, x: nat)
    requires x !in done
    ensures |s - (done + {x})| == |s - done| - if x in s then 1 else 0
  {
    if x in s {
      assert s - done == (s - (done + {x})) + {x};
    } else {
      assert s - done == s - (done + {x});
    }
  }

  lemma EmptyDifference(s: set<nat>, done: set<nat>)
    ensures |s - done| == 0 <==> s <= done
  {
    if |s - done| == 0 {
      assert s - done == {};
      forall x | x in s ensures x in done {
        assert x in s - done || x in done;
      }
    } else {
      assert exists x :: x in s - done;
    }
  }

  /** `dependents[dependency].append(id)`, for each dependency of one node. */
  method AppendDependent(before: map<nat, set<nat>>, id: nat, deps: set<nat>) returns (dependents: map<nat, set<nat>>)
    requires deps <= before.Keys
    ensures dependents.Keys == before.Keys
    ensures forall d :: d in before ==> dependents[d] == if d in deps then before[d] + {id} else before[d]
  {
    dependents := before;
    var todo := deps;
    while todo != {}
      invariant todo <= deps && dependents.Keys == before.Keys
      invariant forall d :: d in before ==> dependents[d] == if d in deps - todo then before[d] + {id} else before[d]
      decreases |todo|
    {
      var d :| d in todo;
      todo := todo - {d};
      dependents := dependents[d := dependents[d] + {id}];
    }
  }

  /** The reverse edges, filled in one dependency at a time. */
  method Dependents(g: Graph, ids: seq<nat>) returns (dependents: map<nat, set<nat>>)
    requires Closed(g) && Elements(ids) == g.Keys
    ensures dependents.Keys == g.Keys
    ensures forall d :: d in g ==> dependents[d] == set v | v in g && d in g[v]
  {
    dependents := map v | v in g :: {};
    var i := 0;
    while i < |ids|
      invariant 0 <= i <= |ids| && dependents.Keys == g.Keys
      invariant forall d, v :: d in g ==> (v in dependents[d] <==> v in Elements(ids[..i]) && d in g[v])
    {
      var id := ids[i];
      assert id in Elements(ids);
      dependents := AppendDependent(dependents, id, g[id]);
      assert ids[..i + 1] == ids[..i] + [id];
      ElementsSnoc(ids[..i], id);
      i := i + 1;
    }
    assert ids[..i] == ids;
  }

  /** How many dependencies of `v` are not done yet. */
  function Missing(g: Graph, done: set<nat>, v: nat): nat
    requires v in g
  {
    |g[v] - done|
  }

  lemma MissingFacts(g: Graph, done: set<nat>, v: nat, id: nat)
    requires v in g && id !in done
    ensures Missing(g, done + {id}, v) == Missing(g, done, v) - if id in g[v] then 1 else 0
    ensures Missing(g, done + {id}, v) == 0 <==> g[v] <= done + {id}
    ensures Missing(g, {}, v) == |g[v]| && (|g[v]| == 0 <==> g[v] <= {})
  {
    RemoveOne(g[v], done, id);
    EmptyDifference(g[v], done + {id});
    assert g[v] - {} == g[v];
    EmptyDifference(g[v], {});
  }

  /** Where the loop stands: what each remaining node still waits for, and which nodes wait for nothing. */
  ghost predicate LoopInv(g: Graph, indegree: map<nat, int>, ready: set<nat>, order: seq<nat>) {
    && indegree.Keys == g.Keys
    && (forall v :: v in g ==> indegree[v] == Missing(g, Elements(order), v))
    && ready == Ready(g, Elements(order))
    && Distinct(order) && Elements(order) <= g.Keys && Respects(g, order) && Greedy(g, order)
  }

  /** Count one dependency of every dependent as met, and queue those that wait for nothing more. */
  method Release(dependents: set<nat>, indegree0: map<nat, int>, ready0: set<nat>)
    returns (indegree: map<nat, int>, ready: set<nat>)
    requires dependents <= indegree0.Keys
    ensures indegree.Keys == indegree0.Keys
    ensures forall v :: v in indegree0 ==> indegree[v] == indegree0[v] - if v in dependents then 1 else 0
    ensures ready == ready0 + set v | v in dependents && indegree[v] == 0
  {
    hide IsLeast;
    indegree, ready := indegree0, ready0;
    var todo := dependents;
    while todo != {}
      invariant todo <= dependents && indegree.Keys == indegree0.Keys
      invariant forall v :: v in indegree0 ==> indegree[v] == indegree0[v] - if v in dependents - todo then 1 else 0
      invariant ready == ready0 + set v | v in dependents - todo && indegree[v] == 0
      decreases |todo|
    {
      LeastExists(todo);
      var v :| IsLeast(v, todo);
      LeastIsMember(v, todo);
      todo := todo - {v};
      indegree := indegree[v := indegree[v] - 1];
      if indegree[v] == 0 {
        ready := ready + {v};
      }
    }
  }

  /**
   * The ordering loop.  It always yields the greedy order of the nodes it can reach; the nodes it leaves
   * behind all wait for one another.
   */
  method OrderNodes(g: Graph, ids: seq<nat>) returns (order: seq<nat>)
    requires Closed(g) && Elements(ids) == g.Keys
    ensures Distinct(order) && Elements(order) <= g.Keys && Respects(g, order) && Greedy(g, order)
    ensures Waiting(g, g.Keys - Elements(order))
  {
    hide LoopInv, Waiting, Ready, Respects, Greedy, Distinct, IsLeast, Closed, Elements;
    var dependents := Dependents(g, ids);
    var indegree: map<nat, int> := map v | v in g :: |g[v]|;
    var ready := set v | v in g && indegree[v] == 0;
    order := [];
    StartHolds(g, indegree, ready);
    while ready != {}
      invariant LoopInv(g, indegree, ready, order)
      decreases |g.Keys - Elements(order)|
    {
      LoopFacts(g, indegree, ready, order);
      LeastExists(ready);
      var id :| IsLeast(id, ready);
      LeastIsMember(id, ready);
      ghost var degrees, waiting, done := indegree, ready, Elements(order);
      indegree, ready := Release(dependents[id], indegree, ready - {id});
      StepHolds(g, degrees, waiting, order, id, dependents[id], indegree, ready);
      ElementsSnoc(order, id);
      RemoveOne(g.Keys, done, id);
      order := order + [id];
    }
    ExitWaits(g, indegree, order);
  }

  lemma LeastIsMember(x: nat, s: set<nat>)
    requires IsLeast(x, s)
    ensures x in s
  {}

  lemma LoopFacts(g: Graph, indegree: map<nat, int>, ready: set<nat>, order: seq<nat>)
    requires LoopInv(g, indegree, ready, order)
    ensures indegree.Keys == g.Keys && ready <= g.Keys - Elements(order)
  {}

  lemma StartHolds(g: Graph, indegree: map<nat, int>, ready: set<nat>)
    requires Closed(g) && indegree.Keys == g.Keys && forall v :: v in g ==> indegree[v] == |g[v]|
    requires ready == set v | v in g && indegree[v] == 0
    ensures LoopInv(g, indegree, ready, [])
  {
    hide Missing, Closed;
    assert Elements([]) == {};
    hide Elements;
    forall v | v in g ensures indegree[v] == Missing(g, {}, v) && (indegree[v] == 0 <==> g[v] <= {}) {
      MissingFacts(g, {}, v, 0);
    }
    assert ready == Ready(g, {});
  }

  /** Taking the least ready node and releasing its dependents keeps the loop invariant. */
  lemma StepHolds(g: Graph, indegree: map<nat, int>, ready: set<nat>, order: seq<nat>, id: nat,
                  dependents: set<nat>, indegree': map<nat, int>, ready': set<nat>)
    requires Closed(g) && LoopInv(g, indegree, ready, order) && IsLeast(id, ready)
    requires dependents == set v | v in g && id in g[v]
    requires indegree'.Keys == g.Keys == indegree.Keys
    requires forall v :: v in indegree ==> indegree'[v] == indegree[v] - if v in dependents then 1 else 0
    requires ready' == ready - {id} + set v | v in dependents && indegree'[v] == 0
    ensures LoopInv(g, indegree', ready', order + [id])
  {
    hide Elements, IsLeast, Ready, Respects, Greedy, Distinct, Missing;
    var done, next := Elements(order), order + [id];
    LeastIsMember(id, ready);
    ElementsSnoc(order, id);
    ReadyAfter(g, done, id);
    DoneIsClosed(g, order);
    forall v | v in g
      ensures indegree'[v] == Missing(g, done + {id}, v) && (indegree'[v] == 0 <==> g[v] <= done + {id})
    {
      MissingFacts(g, done, v, id);
    }
    assert ready' == Ready(g, Elements(next));
    OrderExtends(g, order, id);
  }

  lemma DoneIsClosed(g: Graph, order: seq<nat>)
    requires Respects(g, order)
    ensures forall v :: v in Elements(order) ==> v in g && g[v] <= Elements(order)
  {
    forall v | v in Elements(order) ensures v in g && g[v] <= Elements(order) {
      var i :| 0 <= i < |order| && order[i] == v;
      assert Elements(order[..i]) <= Elements(order);
    }
  }

  lemma OrderExtends(g: Graph, order: seq<nat>, id: nat)
    requires Distinct(order) && Elements(order) <= g.Keys && Respects(g, order) && Greedy(g, order)
    requires IsLeast(id, Ready(g, Elements(order)))
    ensures var next := order + [id];
            Distinct(next) && Elements(next) <= g.Keys && Respects(g, next) && Greedy(g, next)
  {
    var next := order + [id];
    ElementsSnoc(order, id);
    assert id !in Elements(order);
    forall i | 0 <= i < |next|
      ensures next[i] in g && g[next[i]] <= Elements(next[..i]) && IsLeast(next[i], Ready(g, Elements(next[..i])))
    {
      assert next[..i] == order[..i];
      if i == |order| { assert order[..i] == order; }
    }
  }

  lemma ReadyAfter(g: Graph, done: set<nat>, id: nat)
    requires id in Ready(g, done)
    requires Closed(g)
    ensures id in g && id !in done && id !in g[id] && g[id] <= done
    ensures Ready(g, done + {id}) == Ready(g, done) - {id} + set v | v in g && id in g[v] && v !in done
            && g[v] <= done + {id}
  {
    forall v | v in Ready(g, done + {id})
      ensures v in Ready(g, done) - {id} || (id in g[v] && g[v] <= done + {id})
    {
      if id !in g[v] {
        forall d | d in g[v] ensures d in done { assert d in done + {id}; }
      }
    }
  }

  lemma ExitWaits(g: Graph, indegree: map<nat, int>, order: seq<nat>)
    requires Closed(g) && LoopInv(g, indegree, {}, order)
    ensures Waiting(g, g.Keys - Elements(order))
    ensures Distinct(order) && Elements(order) <= g.Keys && Respects(g, order) && Greedy(g, order)
  {
    hide Distinct, Respects, Greedy;
    var done := Elements(order);
    forall v | v in g.Keys - done ensures WaitsWithin(g, g.Keys - done, v) {
      assert v !in Ready(g, done);
      assert exists d :: d in g[v] && d !in done;
    }
  }

  /** The loop visits every node exactly when the graph has no cycle. */
  lemma VisitsAllIffAcyclic(g: Graph, order: seq<nat>)
    requires Distinct(order) && Elements(order) <= g.Keys && Respects(g, order) && Waiting(g, g.Keys - Elements(order))
    ensures |order| == |g.Keys| <==> Acyclic(g)
    ensures |order| == |g.Keys| <==> IsOrder(g, order)
    ensures |order| == |g.Keys| <==> g.Keys - Elements(order) == {}
  {
    hide Waiting, Distinct, Respects, Acyclic;
    DistinctCount(order);
    if |order| == |g.Keys| {
      SameSizeSubset(Elements(order), g.Keys);
      OrderMeansAcyclic(g, order);
    } else {
      assert g.Keys == Elements(order) + (g.Keys - Elements(order));
      WaitingMeansCycle(g, g.Keys - Elements(order));
    }
  }

  lemma SameSizeSubset(a: set<nat>, b: set<nat>)
    requires a <= b && |a| == |b|
    ensures a == b
  {
    assert b == a + (b - a);
    assert |b - a| == 0;
    EmptyDifference(b, a);
  }

  /** An acyclic registry is accepted; otherwise the unresolved nodes are reported. */
  method ValidateAcyclic(g: Graph, ids: seq<nat>) returns (unresolved: set<nat>)
    requires Closed(g) && Distinct(ids) && Elements(ids) == g.Keys
    ensures unresolved == {} <==> Acyclic(g)
    ensures Waiting(g, unresolved)
  {
    var visited := OrderNodes(g, ids);
    VisitsAllIffAcyclic(g, visited);
    DistinctCount(ids);
    if |visited| != |ids| {
      unresolved := g.Keys - Elements(visited);
    } else {
      unresolved := {};
    }
  }

  /** On an acyclic graph: the lexicographically least dependency-respecting permutation of the nodes. */
  method TopologicalIds(g: Graph, ids: seq<nat>) returns (order: seq<nat>)
    requires Closed(g) && Elements(ids) == g.Keys && Acyclic(g)
    ensures IsOrder(g, order)
    ensures forall other :: IsOrder(g, other) ==> LexAtMost(order, other)
  {
    order := OrderNodes(g, ids);
    VisitsAllIffAcyclic(g, order);
    forall other | IsOrder(g, other) ensures LexAtMost(order, other) {
      GreedyIsLeast(g, order, other);
    }
  }

  /** A graph has a dependency-respecting permutation exactly when it has no cycle. */
  lemma AcyclicIffOrderable(g: Graph)
    requires Closed(g)
    ensures Acyclic(g) <==> exists order :: IsOrder(g, order)
  {
    if exists order :: IsOrder(g, order) {
      var order :| IsOrder(g, order);
      OrderMeansAcyclic(g, order);
    }
    if Acyclic(g) {
      var order := GrowOrder(g, []);
    }
  }

  /** On an acyclic graph the growth stops only when every node is placed. */
  lemma StopsComplete(g: Graph, prefix: seq<nat>)
    requires Closed(g) && Acyclic(g) && Elements(prefix) <= g.Keys && Ready(g, Elements(prefix)) == {}
    ensures Elements(prefix) == g.Keys
  {
    hide Elements, Acyclic, Waiting, Closed;
    var stuck := g.Keys - Elements(prefix);
    if stuck != {} {
      NoneReadyMeansWaiting(g, Elements(prefix));
      WaitingMeansCycle(g, stuck);
    }
    assert g.Keys == Elements(prefix) + stuck;
  }

  lemma NoneReadyMeansWaiting(g: Graph, done: set<nat>)
    requires Closed(g) && Ready(g, done) == {}
    ensures Waiting(g, g.Keys - done)
  {
    forall v | v in g.Keys - done ensures WaitsWithin(g, g.Keys - done, v) {
      assert v !in Ready(g, done);
      assert exists d :: d in g[v] && d !in done;
    }
  }

  /** One ready node extends a prefix. */
  lemma PrefixGrows(g: Graph, prefix: seq<nat>, v: nat)
    requires Distinct(prefix) && Elements(prefix) <= g.Keys && Respects(g, prefix) && v in Ready(g, Elements(prefix))
    ensures var next := prefix + [v];
            && Distinct(next) && Elements(next) <= g.Keys && Respects(g, next)
            && |g.Keys - Elements(next)| < |g.Keys - Elements(prefix)|
  {
    ElementsSnoc(prefix, v);
    RemoveOne(g.Keys, Elements(prefix), v);
    NewLast(prefix, v);
    hide Elements, Distinct;
    RespectsSnoc(g, prefix, v);
  }

  lemma NewLast(prefix: seq<nat>, v: nat)
    requires Distinct(prefix) && v !in Elements(prefix)
    ensures Distinct(prefix + [v])
  {
    forall i | 0 <= i < |prefix| ensures prefix[i] != v {
      assert prefix[i] in Elements(prefix);
    }
  }

  lemma RespectsSnoc(g: Graph, prefix: seq<nat>, v: nat)
    requires Respects(g, prefix) && v in g && g[v] <= Elements(prefix)
    ensures Respects(g, prefix + [v])
  {
    var next := prefix + [v];
    forall i | 0 <= i < |next| ensures next[i] in g && g[next[i]] <= Elements(next[..i]) {
      assert next[..i] == prefix[..i];
      if i == |prefix| { assert prefix[..i] == prefix; }
    }
  }

  lemma {:induction false} GrowOrder(g: Graph, prefix: seq<nat>) returns (order: seq<nat>)
    requires Closed(g) && Acyclic(g) && Distinct(prefix) && Elements(prefix) <= g.Keys && Respects(g, prefix)
    ensures IsOrder(g, order)
    decreases |g.Keys - Elements(prefix)|
  {
    hide Elements, Acyclic, Closed, Distinct, Respects, Ready;
    if Ready(g, Elements(prefix)) == {} {
      StopsComplete(g, prefix);
      order := prefix;
    } else {
      var v :| v in Ready(g, Elements(prefix));
      PrefixGrows(g, prefix, v);
      order := GrowOrder(g, prefix + [v]);
    }
  }

  // ----- Registries over a graph -----

  /** `{identity: item}`: the items under their identities. */
  function Indexed<T>(items: seq<T>, id: T -> nat): (m: map<nat, T>)
    ensures forall k :: k in m ==> id(m[k]) == k && m[k] in items
    ensures forall i :: 0 <= i < |items| ==> id(items[i]) in m
    ensures UniqueIn(items, id) ==> forall i :: 0 <= i < |items| ==> m[id(items[i])] == items[i]
  {
    if items == [] then map[]
    else
      var n := |items| - 1;
      assert forall i :: 0 <= i < n ==> items[i] == items[..n][i];
      Indexed(items[..n], id)[id(items[n]) := items[n]]
  }

  /** No identity is used twice. */
  predicate UniqueIn<T>(items: seq<T>, id: T -> nat) {
    forall i, j :: 0 <= i < j < |items| ==> id(items[i]) != id(items[j])
  }

  predicate DependsWithin(g: Graph, allowed: set<nat>) {
    forall v :: v in g ==> g[v] <= allowed
  }

  /** The first node, in identity order, with a dependency outside the allowed ones. */
  method FirstOutside(g: Graph, allowed: set<nat>) returns (r: Option<nat>)
    ensures match r
            case Some(v) => v in g && !(g[v] <= allowed) && !DependsWithin(g, allowed)
            case None => DependsWithin(g, allowed)
  {
    hide Sorted;
    var ids := Sorted(g.Keys);
    var i := 0;
    while i < |ids|
      invariant 0 <= i <= |ids|
      invariant forall k :: 0 <= k < i ==> ids[k] in g && g[ids[k]] <= allowed
    {
      assert ids[i] in Elements(ids);
      if !(g[ids[i]] <= allowed) {
        return Some(ids[i]);
      }
      i := i + 1;
    }
    forall v | v in g ensures g[v] <= allowed {
      assert v in Elements(ids);
    }
    return None;
  }
}

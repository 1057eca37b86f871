/** Progress measurement: classification of two sets of declared measures, and task completion. */
module Progress {
  import opened Common
  import opened DependencyGraphs
  import opened LeaseRecords
  import opened Obligations

  datatype Origin = UnsatisfiedCount | BlockedCount | SatisfiedCount | ExternalCounter

  datatype Direction = Decrease | Increase

  datatype Dimension = Dimension(key: string, origin: Origin, direction: Direction, threshold: Option<nat>)

  /** What a value was measured against: the obligation definitions, or the basis an external counter names. */
  datatype Basis = Definitions(graph: Graph) | External(name: string)

  datatype Evidence = FromState(records: Records) | FromReceipt(receipt: string)

  datatype Measure = Unmeasured | Measured(value: nat, basis: Basis, evidence: Evidence)

  /** The dimension constructor forces the direction of the obligation counts. */
  predicate DimensionValid(d: Dimension) {
    match d.origin
    case UnsatisfiedCount => d.direction.Decrease?
    case BlockedCount => d.direction.Decrease?
    case SatisfiedCount => d.direction.Increase?
    case ExternalCounter => true
  }

  // ----- What the classification means -----

  predicate Comparable(p: Measure, c: Measure) {
    p.Measured? && c.Measured? && p.basis == c.basis
  }

  predicate Better(d: Dimension, p: Measure, c: Measure) {
    Comparable(p, c) && if d.direction.Decrease? then c.value < p.value else c.value > p.value
  }

  predicate Informs(p: Measure, c: Measure) {
    !Comparable(p, c) && p != c
  }

  type Measures = seq<Measure>

  predicate SomeInforms(p: Measures, c: Measures)
    requires |p| == |c|
  {
    exists i :: 0 <= i < |p| && Informs(p[i], c[i])
  }

  predicate SomeBetter(ds: seq<Dimension>, p: Measures, c: Measures)
    requires |ds| == |p| == |c|
  {
    exists i :: 0 <= i < |ds| && Better(ds[i], p[i], c[i])
  }

  /** New information outranks everything; otherwise what counts is which directions some dimension moved in. */
  function Classify(ds: seq<Dimension>, p: Measures, c: Measures): Classification
    requires |ds| == |p| == |c|
  {
    if SomeInforms(p, c) then NewInformation
    else
      match (SomeBetter(ds, p, c), SomeBetter(ds, c, p))
      case (true, true) => Incomparable
      case (true, false) => MeasurableProgress
      case (false, true) => Regression
      case (false, false) => NoProgress
  }

  /** `_derive_progress_classification`: one pass with two counters and a flag. */
  method DeriveClassification(ds: seq<Dimension>, p: Measures, c: Measures) returns (r: Classification)
    requires |ds| == |p| == |c|
    ensures r == Classify(ds, p, c)
  {
    hide Better, Informs, SomeBetter, SomeInforms;
    NothingYet(ds, p, c);
    var improvements, regressions, newInformation := 0, 0, false;
    for i := 0 to |ds|
      invariant improvements >= 0 && regressions >= 0
      invariant newInformation <==> SomeInforms(p[..i], c[..i])
      invariant improvements > 0 <==> SomeBetter(ds[..i], p[..i], c[..i])
      invariant regressions > 0 <==> SomeBetter(ds[..i], c[..i], p[..i])
    {
      OneMore(ds, p, c, i);
      OneMore(ds, c, p, i);
      OneDimension(ds[i], p[i], c[i]);
      OneDimension(ds[i], c[i], p[i]);
      if p[i].Unmeasured? || c[i].Unmeasured? || p[i].basis != c[i].basis {
        if p[i] != c[i] {
          newInformation := true;
        }
      } else if p[i].value != c[i].value {
        var improved := if ds[i].direction.Decrease? then c[i].value < p[i].value else c[i].value > p[i].value;
        if improved {
          improvements := improvements + 1;
        } else {
          regressions := regressions + 1;
        }
      }
    }
    assert ds[..|ds|] == ds && p[..|ds|] == p && c[..|ds|] == c;
    if newInformation {
      return NewInformation;
    }
    if improvements != 0 && regressions != 0 {
      return Incomparable;
    }
    if improvements != 0 {
      return MeasurableProgress;
    }
    return if regressions != 0 then Regression else NoProgress;
  }

  /** The dimension's value is measured on the same basis on both sides, and moves in its direction. */
  predicate Improves(d: Dimension, from: Measure, to: Measure) {
    from.Measured? && to.Measured? && from.basis == to.basis
    && match d.direction case Decrease => to.value < from.value case Increase => to.value > from.value
  }

  /** The dimension's value has changed, but cannot be compared: it is missing, or measured on another basis. */
  predicate SaysSomethingNew(from: Measure, to: Measure) {
    from != to && (from.Unmeasured? || to.Unmeasured? || from.basis != to.basis)
  }

  /** What each class means: which dimensions exist. */
  lemma ClassesMean(ds: seq<Dimension>, p: Measures, c: Measures)
    requires |ds| == |p| == |c|
    ensures var informs := exists i :: 0 <= i < |ds| && SaysSomethingNew(p[i], c[i]);
            var improves := exists i :: 0 <= i < |ds| && Improves(ds[i], p[i], c[i]);
            var worsens := exists i :: 0 <= i < |ds| && Improves(ds[i], c[i], p[i]);
            var class_ := Classify(ds, p, c);
            && (class_.NewInformation? <==> informs)
            && (class_.Incomparable? <==> !informs && improves && worsens)
            && (class_.MeasurableProgress? <==> !informs && improves && !worsens)
            && (class_.Regression? <==> !informs && !improves && worsens)
            && (class_.NoProgress? <==> !informs && !improves && !worsens)
  {
    forall i | 0 <= i < |ds|
      ensures SaysSomethingNew(p[i], c[i]) <==> Informs(p[i], c[i])
      ensures Improves(ds[i], p[i], c[i]) <==> Better(ds[i], p[i], c[i])
      ensures Improves(ds[i], c[i], p[i]) <==> Better(ds[i], c[i], p[i])
    {}
    hide Informs, Better, Improves, SaysSomethingNew;
  }

  lemma NothingYet(ds: seq<Dimension>, p: Measures, c: Measures)
    requires |ds| == |p| == |c|
    ensures !SomeInforms(p[..0], c[..0]) && !SomeBetter(ds[..0], p[..0], c[..0]) && !SomeBetter(ds[..0], c[..0], p[..0])
  {}

  lemma OneMore(ds: seq<Dimension>, p: Measures, c: Measures, i: nat)
    requires |ds| == |p| == |c| && i < |ds|
    ensures SomeInforms(p[..i + 1], c[..i + 1]) <==> SomeInforms(p[..i], c[..i]) || Informs(p[i], c[i])
    ensures SomeBetter(ds[..i + 1], p[..i + 1], c[..i + 1]) <==>
              SomeBetter(ds[..i], p[..i], c[..i]) || Better(ds[i], p[i], c[i])
  {
    hide Better, Informs;
    var (d', p', c') := (ds[..i + 1], p[..i + 1], c[..i + 1]);
    forall k | 0 <= k <= i ensures d'[k] == ds[k] && p'[k] == p[k] && c'[k] == c[k] {}
    if SomeInforms(p[..i], c[..i]) {
      var k :| 0 <= k < i && Informs(p[..i][k], c[..i][k]);
      assert Informs(p'[k], c'[k]);
    }
    if Informs(p[i], c[i]) { assert Informs(p'[i], c'[i]); }
    if SomeInforms(p', c') && !Informs(p[i], c[i]) {
      var k :| 0 <= k <= i && Informs(p'[k], c'[k]);
      assert Informs(p[..i][k], c[..i][k]);
    }
    if SomeBetter(ds[..i], p[..i], c[..i]) {
      var k :| 0 <= k < i && Better(ds[..i][k], p[..i][k], c[..i][k]);
      assert Better(d'[k], p'[k], c'[k]);
    }
    if Better(ds[i], p[i], c[i]) { assert Better(d'[i], p'[i], c'[i]); }
    if SomeBetter(d', p', c') && !Better(ds[i], p[i], c[i]) {
      var k :| 0 <= k <= i && Better(d'[k], p'[k], c'[k]);
      assert Better(ds[..i][k], p[..i][k], c[..i][k]);
    }
  }

  lemma OneDimension(d: Dimension, p: Measure, c: Measure)
    ensures Informs(p, c) == Informs(c, p)
    ensures Informs(p, c) <==> (p.Unmeasured? || c.Unmeasured? || p.basis != c.basis) && p != c
    ensures Better(d, p, c) <==> Comparable(p, c) && p.value != c.value && !Better(d, c, p)
    ensures Better(d, p, c) <==>
              Comparable(p, c) && if d.direction.Decrease? then c.value < p.value else c.value > p.value
  {}

  // ----- A strict order -----

  function Dual(k: Classification): Classification {
    match k case MeasurableProgress => Regression case Regression => MeasurableProgress case _ => k
  }

  /** Read backwards, progress is regression, and everything else is itself. */
  lemma BackwardsIsDual(ds: seq<Dimension>, p: Measures, c: Measures)
    requires |ds| == |p| == |c|
    ensures Classify(ds, c, p) == Dual(Classify(ds, p, c))
  {
    assert SomeInforms(p, c) == SomeInforms(c, p) by {
      if SomeInforms(p, c) {
        var i :| 0 <= i < |p| && Informs(p[i], c[i]);
        assert Informs(c[i], p[i]);
      }
      if SomeInforms(c, p) {
        var i :| 0 <= i < |p| && Informs(c[i], p[i]);
        assert Informs(p[i], c[i]);
      }
    }
  }

  ghost predicate Progresses(ds: seq<Dimension>, p: Measures, c: Measures) {
    |ds| == |p| == |c| && Classify(ds, p, c).MeasurableProgress?
  }

  /** Measurable progress is a strict order: nothing progresses to itself, never both ways, and steps compose. */
  lemma ProgressIsStrictOrder(ds: seq<Dimension>, a: Measures, b: Measures, c: Measures)
    requires |ds| == |a| == |b| == |c|
    ensures Classify(ds, a, a).NoProgress?
    ensures Progresses(ds, a, b) ==> Classify(ds, b, a).Regression?
    ensures Progresses(ds, a, b) && Progresses(ds, b, c) ==> Progresses(ds, a, c)
  {
    BackwardsIsDual(ds, a, b);
    if Progresses(ds, a, b) && Progresses(ds, b, c) {
      forall i | 0 <= i < |ds| ensures !Informs(a[i], c[i]) && !Better(ds[i], c[i], a[i]) {
        NoWorse(ds, a, b, i);
        NoWorse(ds, b, c, i);
      }
      var i :| 0 <= i < |ds| && Better(ds[i], a[i], b[i]);
      NoWorse(ds, b, c, i);
      assert Better(ds[i], a[i], c[i]);
    }
  }

  lemma NoWorse(ds: seq<Dimension>, p: Measures, c: Measures, i: nat)
    requires Progresses(ds, p, c) && i < |ds|
    ensures !Informs(p[i], c[i]) && !Better(ds[i], c[i], p[i])
  {}

  // ----- Obligation counts -----

  function UnsatisfiedIds(m: Records): set<nat> {
    set id | id in m && m[id].status.Unsatisfied?
  }

  function BlockedIds(m: Records): set<nat> {
    set id | id in m && m[id].status.Blocked?
  }

  function CountOf(m: Records, o: Origin): nat {
    match o
    case UnsatisfiedCount => |UnsatisfiedIds(m)|
    case BlockedCount => |BlockedIds(m)|
    case SatisfiedCount => |SatisfiedIds(m)|
    case ExternalCounter => 0
  }

  /** Every obligation is counted in exactly one way. */
  lemma CountsPartition(m: Records)
    ensures CountOf(m, UnsatisfiedCount) + CountOf(m, BlockedCount) + CountOf(m, SatisfiedCount) == |m.Keys|
    ensures UnsatisfiedIds(m) !! BlockedIds(m) && UnsatisfiedIds(m) !! SatisfiedIds(m)
            && BlockedIds(m) !! SatisfiedIds(m)
    ensures forall id :: id in m ==>
              match m[id].status
              case Unsatisfied => id in UnsatisfiedIds(m)
              case Blocked(_) => id in BlockedIds(m)
              case Satisfied => id in SatisfiedIds(m)
  {
    assert m.Keys == UnsatisfiedIds(m) + BlockedIds(m) + SatisfiedIds(m);
  }

  /** `_state_measure`: the count, on the basis of the obligation definitions. */
  function StateMeasure(d: Dimension, m: Records): Measure {
    Measured(CountOf(m, d.origin), Definitions(GraphOf(m)), FromState(m))
  }

  function StateMeasures(ds: seq<Dimension>, m: Records): (r: Measures)
    ensures |r| == |ds|
  {
    seq(|ds|, i requires 0 <= i < |ds| => StateMeasure(ds[i], m))
  }

  predicate CountsOnly(ds: seq<Dimension>) {
    forall i :: 0 <= i < |ds| ==> DimensionValid(ds[i]) && !ds[i].origin.ExternalCounter?
  }

  lemma SubsetSize(a: set<nat>, b: set<nat>)
    requires a <= b
    ensures |a| <= |b|
  {
    assert b == a + (b - a);
  }

  lemma CountBounded(m: Records, o: Origin)
    ensures CountOf(m, o) <= |m.Keys|
  {
    SubsetSize(UnsatisfiedIds(m), m.Keys);
    SubsetSize(BlockedIds(m), m.Keys);
    SubsetSize(SatisfiedIds(m), m.Keys);
  }

  /** How far a dimension still is from its best possible count. */
  function Distance(d: Dimension, m: Records): int {
    if d.direction.Decrease? then CountOf(m, d.origin) else |m.Keys| - CountOf(m, d.origin)
  }

  function TotalDistance(ds: seq<Dimension>, m: Records): int {
    if ds == [] then 0 else TotalDistance(ds[..|ds| - 1], m) + Distance(ds[|ds| - 1], m)
  }

  lemma {:induction false} DistanceBounded(ds: seq<Dimension>, m: Records)
    ensures 0 <= TotalDistance(ds, m) <= |ds| * |m.Keys|
  {
    if ds != [] {
      DistanceBounded(ds[..|ds| - 1], m);
      CountBounded(m, ds[|ds| - 1].origin);
      assert |ds| * |m.Keys| == (|ds| - 1) * |m.Keys| + |m.Keys|;
    }
  }

  /** No dimension further, and some dimension nearer, means a smaller total. */
  lemma {:induction false} DistanceFalls(ds: seq<Dimension>, m: Records, n: Records, at: int)
    requires forall i :: 0 <= i < |ds| ==> Distance(ds[i], n) <= Distance(ds[i], m)
    requires 0 <= at < |ds| ==> Distance(ds[at], n) < Distance(ds[at], m)
    ensures TotalDistance(ds, n) <= TotalDistance(ds, m) - if 0 <= at < |ds| then 1 else 0
  {
    if ds != [] {
      DistanceFalls(ds[..|ds| - 1], m, n, at);
    }
  }

  ghost predicate StateProgress(ds: seq<Dimension>, m: Records, n: Records) {
    Progresses(ds, StateMeasures(ds, m), StateMeasures(ds, n))
  }

  /** Progress on obligation counts keeps the definitions and strictly lowers the total distance. */
  lemma ProgressLowersDistance(ds: seq<Dimension>, m: Records, n: Records)
    requires CountsOnly(ds) && StateProgress(ds, m, n)
    ensures GraphOf(m) == GraphOf(n) && m.Keys == n.Keys && TotalDistance(ds, n) < TotalDistance(ds, m)
  {
    hide CountOf, GraphOf;
    var p, c := StateMeasures(ds, m), StateMeasures(ds, n);
    var at :| 0 <= at < |ds| && Better(ds[at], p[at], c[at]);
    assert GraphOf(m) == GraphOf(n);
    assert GraphOf(m).Keys == m.Keys && GraphOf(n).Keys == n.Keys;
    forall i | 0 <= i < |ds| ensures Distance(ds[i], n) <= Distance(ds[i], m) {
      NoWorse(ds, p, c, i);
    }
    DistanceFalls(ds, m, n, at);
  }

  /** A chain of measurable progress on obligation counts has at most dimensions times obligations steps. */
  lemma {:induction false} ProgressChainsAreBounded(ds: seq<Dimension>, chain: seq<Records>)
    requires CountsOnly(ds) && chain != []
    requires forall i :: 0 < i < |chain| ==> StateProgress(ds, chain[i - 1], chain[i])
    ensures |chain| - 1 <= |ds| * |chain[0].Keys|
    ensures forall i :: 0 <= i < |chain| ==> GraphOf(chain[i]) == GraphOf(chain[0])
  {
    hide StateProgress;
    ChainFalls(ds, chain);
    DistanceBounded(ds, chain[0]);
    DistanceBounded(ds, chain[|chain| - 1]);
  }

  lemma {:induction false} ChainFalls(ds: seq<Dimension>, chain: seq<Records>)
    requires CountsOnly(ds) && chain != []
    requires forall i :: 0 < i < |chain| ==> StateProgress(ds, chain[i - 1], chain[i])
    ensures TotalDistance(ds, chain[|chain| - 1]) + (|chain| - 1) <= TotalDistance(ds, chain[0])
    ensures forall i :: 0 <= i < |chain| ==> GraphOf(chain[i]) == GraphOf(chain[0])
  {
    hide StateProgress, GraphOf, TotalDistance;
    var k := |chain| - 1;
    if k > 0 {
      ChainFalls(ds, chain[..k]);
      ProgressLowersDistance(ds, chain[k - 1], chain[k]);
      assert forall i :: 0 <= i < k ==> chain[..k][i] == chain[i];
    }
  }

  // ----- The built-in contract and task completion -----

  const BLOCKED_DIMENSION := Dimension("blocked", BlockedCount, Decrease, Some(0))
  const UNSATISFIED_DIMENSION := Dimension("unsatisfied", UnsatisfiedCount, Decrease, Some(0))
  const DEFAULT_CONTRACT := [BLOCKED_DIMENSION, UNSATISFIED_DIMENSION]

  predicate MeetsThreshold(d: Dimension, c: Measure) {
    d.threshold.Some? ==>
      c.Measured? && if d.direction.Decrease? then c.value <= d.threshold.value else c.value >= d.threshold.value
  }

  predicate TaskComplete(ds: seq<Dimension>, c: Measures, m: Records)
    requires |ds| == |c|
  {
    AllSatisfied(m) && forall i :: 0 <= i < |ds| ==> MeetsThreshold(ds[i], c[i])
  }

  /** `_derive_task_complete`. */
  method DeriveTaskComplete(ds: seq<Dimension>, c: Measures, m: Records) returns (complete: bool)
    requires |ds| == |c|
    ensures complete <==> TaskComplete(ds, c, m)
    ensures complete <==>
              && (forall id :: id in m ==> m[id].status.Satisfied?)
              && forall i :: 0 <= i < |ds| && ds[i].threshold.Some? ==>
                   && c[i].Measured?
                   && (ds[i].direction.Decrease? ==> c[i].value <= ds[i].threshold.value)
                   && (ds[i].direction.Increase? ==> c[i].value >= ds[i].threshold.value)
  {
    if !AllSatisfied(m) {
      return false;
    }
    for i := 0 to |ds|
      invariant forall k :: 0 <= k < i ==> MeetsThreshold(ds[k], c[k])
    {
      if ds[i].threshold.Some? {
        if c[i].Unmeasured? {
          return false;
        }
        if ds[i].direction.Decrease? {
          if c[i].value > ds[i].threshold.value {
            return false;
          }
        } else if c[i].value < ds[i].threshold.value {
          return false;
        }
      }
    }
    return true;
  }

  lemma NoneLeft(s: set<nat>)
    requires forall x :: x !in s
    ensures |s| == 0
  {
    assert s == {};
  }

  /**
   * Under the built-in contract a task is complete exactly when every obligation is satisfied, and a complete
   * task can make no further measurable progress.
   */
  lemma DefaultCompletion(m: Records, n: Records)
    ensures TaskComplete(DEFAULT_CONTRACT, StateMeasures(DEFAULT_CONTRACT, m), m) <==> AllSatisfied(m)
    ensures AllSatisfied(m) ==> !StateProgress(DEFAULT_CONTRACT, m, n)
  {
    var c := StateMeasures(DEFAULT_CONTRACT, m);
    assert c == [StateMeasure(BLOCKED_DIMENSION, m), StateMeasure(UNSATISFIED_DIMENSION, m)];
    if AllSatisfied(m) {
      NoneLeft(UnsatisfiedIds(m));
      NoneLeft(BlockedIds(m));
      assert c[0].value == c[1].value == 0;
    }
  }

  /** One count unchanged and the other lower, on the same definitions, is measurable progress. */
  lemma LowerSecondCount(p: Measures, c: Measures)
    requires |p| == |c| == 2 && Comparable(p[0], c[0]) && Comparable(p[1], c[1])
    requires p[0].value == c[0].value && c[1].value < p[1].value
    ensures Classify(DEFAULT_CONTRACT, p, c).MeasurableProgress?
  {
    assert Better(DEFAULT_CONTRACT[1], p[1], c[1]);
  }

  /** Satisfying a ready obligation is measurable progress under the built-in contract. */
  lemma SatisfyingIsProgress(m: Records, n: Records)
    requires SatisfiesReady(m, n)
    ensures StateProgress(DEFAULT_CONTRACT, m, n)
  {
    SatisfyingShiftsCounts(m, n);
    hide GraphOf, UnsatisfiedIds, BlockedIds, SatisfiesReady, Classify;
    LowerSecondCount(StateMeasures(DEFAULT_CONTRACT, m), StateMeasures(DEFAULT_CONTRACT, n));
  }

  lemma SatisfyingShiftsCounts(m: Records, n: Records)
    requires SatisfiesReady(m, n)
    ensures GraphOf(n) == GraphOf(m) && BlockedIds(n) == BlockedIds(m) && |UnsatisfiedIds(m)| == |UnsatisfiedIds(n)| + 1
  {
    var id :| id in ReadyIds(m) && n == WithStatus(m, id, Satisfied);
    hide ReadyIds;
    SameGraph(m, id, Satisfied);
    hide GraphOf;
    assert BlockedIds(n) == BlockedIds(m);
    assert UnsatisfiedIds(m) == UnsatisfiedIds(n) + {id};
  }
}

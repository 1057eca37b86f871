/** Terminal short cycles: the three detectors, the bounded window, and cycle-equivalent strategies. */
module ShortCycles {
  import opened Common
  import opened LeaseRecords
  import opened ReadRuntime
  import opened ReadRuntimeRuns

  /** The reference detector over an unbounded history. */
  method DetectShortCycle<T(==)>(history: seq<T>, maxPeriod: nat) returns (r: Option<nat>)
    ensures IsShortestPeriod(history, maxPeriod, r)
  {
    for period := 1 to maxPeriod + 1
      invariant forall q :: 1 <= q < period ==> !EndsInCycle(history, q)
    {
      var n, width := |history|, period * 2;
      if n >= width && history[n - width..n - period] == history[n - period..] {
        return Some(period);
      }
    }
    return None;
  }

  /** The live cycle evidence of a runtime snapshot. */
  function LiveCycle(s: RuntimeState): Option<CycleEvidence> {
    match ShortPeriod(s.history)
    case None => None
    case Some(p) =>
      if p <= |s.history| then Some(CycleEvidence(s.session, s, p, s.history[|s.history| - p..])) else None
  }

  function ShortPeriod<T(==)>(h: seq<T>): Option<nat> {
    if EndsInCycle(h, 1) then Some(1)
    else if EndsInCycle(h, 2) then Some(2)
    else if EndsInCycle(h, 3) then Some(3)
    else None
  }

  /** The live cycle is about the state itself, and shows the least terminal period up to three with its pattern. */
  lemma LiveCycleIsTheLeast(s: RuntimeState)
    ensures match LiveCycle(s)
            case None => forall p: nat :: 1 <= p <= 3 ==> !EndsInCycle(s.history, p)
            case Some(e) =>
              && e.session == s.session && e.state == s
              && 1 <= e.period <= 3 && EndsInCycle(s.history, e.period) && e.pattern == LastN(s.history, e.period)
              && forall p: nat :: 1 <= p < e.period ==> !EndsInCycle(s.history, p)
  {
    EndsWithinHistory(s.history);
    hide EndsInCycle;
  }

  lemma EndsWithinHistory<T>(h: seq<T>)
    ensures forall p: nat :: EndsInCycle(h, p) ==> 2 * p <= |h|
  {}

  /** `CycleEvidence.from_snapshot`. */
  method CycleFromSnapshot(s: RuntimeState) returns (r: Option<CycleEvidence>)
    ensures r == LiveCycle(s)
    ensures r.Some? ==>
              IsShortestPeriod(s.history, 3, Some(r.value.period))
              && r.value.pattern == s.history[|s.history| - r.value.period..]
    ensures r.None? ==> IsShortestPeriod(s.history, 3, None)
  {
    hide EndsInCycle;
    var h, n := s.history, |s.history|;
    for period := 1 to 4
      invariant period > 1 ==> !EndsInCycle(h, 1)
      invariant period > 2 ==> !EndsInCycle(h, 2)
      invariant period > 3 ==> !EndsInCycle(h, 3)
    {
      CycleTest(h, period);
      var width := period * 2;
      if n < width {
        continue;
      }
      if h[n - width..n - period] == h[n - period..] {
        return Some(CycleEvidence(s.session, s, period, h[n - period..]));
      }
    }
    return None;
  }

  lemma CycleTest<T>(h: seq<T>, p: nat)
    requires 1 <= p
    ensures EndsInCycle(h, p) <==> p * 2 <= |h| && h[|h| - p * 2..|h| - p] == h[|h| - p..]
  {}

  // ----- The bounded window -----

  lemma SuffixSeesCycle<T>(w: seq<T>, h: seq<T>, p: nat)
    requires IsSuffix(w, h) && 1 <= p && (2 * p <= |w| || |w| == |h|)
    ensures EndsInCycle(w, p) <==> EndsInCycle(h, p)
  {
    if 2 * p <= |w| {
      assert w[|w| - 2 * p..|w| - p] == h[|h| - 2 * p..|h| - p];
      assert w[|w| - p..] == h[|h| - p..];
    }
  }

  lemma SuffixSeesPeriod<T>(w: seq<T>, h: seq<T>, r: Option<nat>)
    requires IsSuffix(w, h) && (6 <= |w| || |w| == |h|)
    ensures IsShortestPeriod(w, 3, r) <==> IsShortestPeriod(h, 3, r)
  {
    hide EndsInCycle, IsSuffix;
    SuffixSeesCycle(w, h, 1);
    SuffixSeesCycle(w, h, 2);
    SuffixSeesCycle(w, h, 3);
  }

  /**
   * With an initial window of at least six, which every lease policy brings, in every run,
   * also when leases raise the limit, the period found on the live window is the period of the unbounded log of
   * accepted reads.
   */
  lemma WindowPeriodIsLogPeriod(init: RuntimeState, calls: seq<Call>, r: Option<nat>)
    requires FreshSession(init) && (init.lease.Some? || init.limits.history >= MIN_CYCLE_HISTORY)
    ensures var log := Transitions(AcceptedLog(Trace(init, calls)));
            && IsSuffix(Run(init, calls).history, log)
            && (IsShortestPeriod(Run(init, calls).history, 3, r) <==> IsShortestPeriod(log, 3, r))
  {
    RunKeepsLog(init, calls);
    SuffixSeesPeriod(Run(init, calls).history, Transitions(AcceptedLog(Trace(init, calls))), r);
  }

  function LastN<T>(h: seq<T>, n: nat): seq<T> {
    if |h| <= n then h else h[|h| - n..]
  }

  ghost predicate WindowIsExact(n: nat) {
    forall h: seq<Transition>, r: Option<nat> :: IsShortestPeriod(LastN(h, n), 3, r) <==> IsShortestPeriod(h, 3, r)
  }

  /** Six is exactly what the detectors need: any smaller window misses some period-three cycle. */
  lemma SixIsExactlyEnough(n: nat)
    ensures WindowIsExact(n) <==> n >= MIN_CYCLE_HISTORY
  {
    if n >= 6 {
      forall h: seq<Transition>, r: Option<nat>
        ensures IsShortestPeriod(LastN(h, n), 3, r) <==> IsShortestPeriod(h, 3, r)
      {
        SuffixSeesPeriod(LastN(h, n), h, r);
      }
    } else {
      var a := Transition(ToolKey("a", "", ""), "");
      var b := Transition(ToolKey("b", "", ""), "");
      var c := Transition(ToolKey("c", "", ""), "");
      assert a.key.tool[0] != b.key.tool[0] && b.key.tool[0] != c.key.tool[0];
      PeriodThree(a, b, c);
      TooShortForThree(LastN([a, b, c, a, b, c], n));
      hide IsShortestPeriod;
      assert IsShortestPeriod([a, b, c, a, b, c], 3, Some(3));
    }
  }

  lemma PeriodThree<T>(a: T, b: T, c: T)
    requires a != b && b != c
    ensures IsShortestPeriod([a, b, c, a, b, c], 3, Some(3))
  {
    var h := [a, b, c, a, b, c];
    assert h[0..3] == [a, b, c] && h[3..] == [a, b, c];
    assert h[4..5][0] == b && h[5..][0] == c;
    assert h[2..4][0] == c && h[4..][0] == b;
    assert !EndsInCycle(h, 1) && !EndsInCycle(h, 2) && EndsInCycle(h, 3);
  }

  lemma TooShortForThree<T>(w: seq<T>)
    requires |w| < 6
    ensures !IsShortestPeriod(w, 3, Some(3))
  {}

  // ----- Cycle-equivalent strategies -----

  /** `CycleEvidence.reproduces`. */
  predicate Reproduces<T(==)>(pattern: seq<T>, period: nat, proposed: seq<T>)
    requires 1 <= period == |pattern|
  {
    && proposed != [] && |proposed| >= period
    && forall i :: 0 <= i < |proposed| ==> proposed[i] == pattern[i % period]
  }

  /** Pointwise form of a terminal cycle. */
  lemma CyclePointwise<T>(h: seq<T>, p: nat)
    requires 1 <= p && 2 * p <= |h|
    ensures EndsInCycle(h, p) <==> forall i :: |h| - p <= i < |h| ==> h[i] == h[i - p]
  {
    var left, right := h[|h| - 2 * p..|h| - p], h[|h| - p..];
    if EndsInCycle(h, p) {
      forall i | |h| - p <= i < |h|
        ensures h[i] == h[i - p]
      {
        assert right[i - (|h| - p)] == left[i - (|h| - p)];
      }
    }
    if forall i :: |h| - p <= i < |h| ==> h[i] == h[i - p] {
      forall j | 0 <= j < p
        ensures left[j] == right[j]
      {
        assert h[|h| - p + j] == h[|h| - p + j - p];
      }
    }
  }

  lemma ModTwo(i: nat)
    requires 2 <= i
    ensures (i - 2) % 2 == i % 2
  {}

  lemma ModThree(i: nat)
    requires 3 <= i
    ensures (i - 3) % 3 == i % 3
  {}

  lemma ModStep(i: nat, p: nat)
    requires 1 <= p <= 3 && p <= i
    ensures (i - p) % p == i % p
  {
    match p
    case 1 => assert (i - 1) % 1 == i % 1;
    case 2 => ModTwo(i);
    case 3 => ModThree(i);
  }

  /** Executing any non-empty prefix of a reproducing pattern keeps the same terminal cycle. */
  lemma PrefixKeepsCycle<T>(h: seq<T>, p: nat, proposed: seq<T>, k: nat)
    requires p <= 3 && EndsInCycle(h, p) && Reproduces(h[|h| - p..], p, proposed) && k <= |proposed|
    ensures EndsInCycle(h + proposed[..k], p)
  {
    var h' := h + proposed[..k];
    CyclePointwise(h, p);
    forall i | |h'| - p <= i < |h'|
      ensures h'[i] == h'[i - p]
    {
      if i >= |h| {
        var j := i - |h|;
        assert h'[i] == h[|h| - p..][j % p];
        if j >= p {
          ModStep(j, p);
          assert h'[i - p] == proposed[j - p] == h[|h| - p..][(j - p) % p];
        } else {
          assert j % p == j && h'[i - p] == h[|h| - p + j];
        }
      }
    }
    CyclePointwise(h', p);
  }

  ghost function AppendAll(window: seq<Transition>, limit: nat, ts: seq<Transition>): seq<Transition> {
    if ts == [] then window else AppendHistory(AppendAll(window, limit, ts[..|ts| - 1]), limit, ts[|ts| - 1])
  }

  lemma AppendAllLast(window: seq<Transition>, limit: nat, ts: seq<Transition>)
    requires ts != []
    ensures AppendAll(window, limit, ts) == AppendHistory(AppendAll(window, limit, ts[..|ts| - 1]), limit, ts[|ts| - 1])
  {
    hide AppendHistory;
  }

  lemma JoinLast<T>(s: seq<T>, t: seq<T>)
    requires t != []
    ensures s + t == (s + t[..|t| - 1]) + [t[|t| - 1]]
  {}

  lemma {:induction false} AppendAllIsSuffix(window: seq<Transition>, limit: nat, ts: seq<Transition>)
    requires 0 < limit && |window| <= limit
    ensures var w := AppendAll(window, limit, ts);
            IsSuffix(w, window + ts) && |window| <= |w| <= limit
  {
    if ts == [] {
      assert window + ts == window;
    } else {
      hide IsSuffix, AppendHistory, AppendAll;
      var n := |ts| - 1;
      AppendAllIsSuffix(window, limit, ts[..n]);
      AppendAllLast(window, limit, ts);
      JoinLast(window, ts);
      SuffixExtends(AppendAll(window, limit, ts[..n]), window + ts[..n], limit, ts[n]);
    }
  }

  /**
   * Rejecting a proposed pattern as cycle-equivalent is sound: if it reproduces the live cycle, the window
   * after any non-empty prefix of it still ends in a cycle of no longer period.
   */
  lemma CycleEquivalentStaysCyclic(s: RuntimeState, proposed: seq<Transition>, k: nat)
    requires |s.history| <= s.limits.history && s.limits.history >= MIN_CYCLE_HISTORY
    requires LiveCycle(s).Some? && 1 <= LiveCycle(s).value.period == |LiveCycle(s).value.pattern|
    requires Reproduces(LiveCycle(s).value.pattern, LiveCycle(s).value.period, proposed) && 0 < k <= |proposed|
    ensures var after := ShortPeriod(AppendAll(s.history, s.limits.history, proposed[..k]));
            after.Some? && after.value <= LiveCycle(s).value.period
  {
    var p := LiveCycle(s).value.period;
    var w := AppendAll(s.history, s.limits.history, proposed[..k]);
    PrefixKeepsCycle(s.history, p, proposed, k);
    AppendAllIsSuffix(s.history, s.limits.history, proposed[..k]);
    SuffixSeesCycle(w, s.history + proposed[..k], p);
  }
}

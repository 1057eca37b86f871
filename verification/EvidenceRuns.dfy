/** Every stream offered to the evidence reducer, against the batch fold and against the runtime it watched. */
module EvidenceRuns {
  import opened Common
  import opened LeaseRecords
  import opened ReadRuntime
  import opened Evidence
  import Runs = ReadRuntimeRuns

  /** A rejected offer leaves the reducer as it is. */
  function Step(e: Reducer, o: Offer): Reducer {
    match Ingest(e, o) case Success(n) => n case Failure(_) => e
  }

  ghost function Stream(e: Reducer, offers: seq<Offer>): Reducer {
    if offers == [] then e else Step(Stream(e, offers[..|offers| - 1]), offers[|offers| - 1])
  }

  /** The offers that were accepted, in order. */
  ghost function Accepted(e: Reducer, offers: seq<Offer>): seq<Offer> {
    if offers == [] then []
    else
      var prior, last := offers[..|offers| - 1], offers[|offers| - 1];
      Accepted(e, prior) + if Ingest(Stream(e, prior), last).Success? then [last] else []
  }

  /** A seal comes only from a native dispatch. */
  ghost predicate DispatchProduced(r: Receipt) {
    exists s: RuntimeState, c: Call :: Dispatch(s, c).1 == r
  }

  /** The item parsers admit only well-formed cases and children; seals cannot be constructed by a caller. */
  ghost predicate OfferWellFormed(o: Offer) {
    match o
    case Structural(c) => CaseWellFormed(c)
    case Runtime(c, seal) => CaseWellFormed(c) && DispatchProduced(seal)
    case ChildOffer(c, _, _) => ChildWellFormed(c)
  }

  ghost predicate OffersWellFormed(offers: seq<Offer>) {
    forall i :: 0 <= i < |offers| ==> OfferWellFormed(offers[i])
  }

  // ----- The batch fold -----

  function ItemCounts(i: Item): Counts {
    match i case CaseItem(c) => OneCase(c.status) case ChildItem(c) => c.counts
  }

  function ItemTally(i: Item): Tally {
    match i case CaseItem(c) => c.tally case ChildItem(c) => c.tally
  }

  ghost function TotalCounts(os: seq<Offer>): Counts {
    if os == [] then Counts(0, 0, 0, 0) else CountsPlus(TotalCounts(os[..|os| - 1]), ItemCounts(ItemOf(os[|os| - 1])))
  }

  ghost function TotalTally(os: seq<Offer>): Tally {
    if os == [] then ZERO_TALLY else TallyPlus(TotalTally(os[..|os| - 1]), ItemTally(ItemOf(os[|os| - 1])))
  }

  /** Every failing case of the stream, with the number of cases before it. */
  ghost function Failures(os: seq<Offer>): seq<FailureDetail> {
    if os == [] then []
    else
      var prior := os[..|os| - 1];
      Failures(prior) +
      match ItemOf(os[|os| - 1])
      case CaseItem(c) =>
        if c.failure.Some?
          then [FailureDetail(c.caseId, TotalCounts(prior).total, c.failure.value, c.receiptId, c.status)] else []
      case ChildItem(_) => []
  }

  /** The four identity chains differ only in which identity of an item they cover. */
  datatype Facet = Inputs | Admissions | Results | Receipts

  function ItemIdentity(i: Item, f: Facet): Identity {
    match (i, f)
    case (CaseItem(c), Inputs) => c.inputId
    case (CaseItem(c), Admissions) => OfAction(c.admission)
    case (CaseItem(c), Results) => c.resultId
    case (CaseItem(c), Receipts) => c.receiptId
    case (ChildItem(c), Inputs) => OfChain(c.inputs)
    case (ChildItem(c), Admissions) => OfChain(c.admissions)
    case (ChildItem(c), Results) => OfChain(c.results)
    case (ChildItem(c), Receipts) => OfChain(c.receipts)
  }

  ghost function ChainOf(os: seq<Offer>, f: Facet): Chain {
    if os == [] then Seed
    else
      var i := ItemOf(os[|os| - 1]);
      Link(ChainOf(os[..|os| - 1], f), |os| - 1, i.ChildItem?, ItemIdentity(i, f))
  }

  ghost function AllChains(os: seq<Offer>): Chains {
    Chains(ChainOf(os, Inputs), ChainOf(os, Admissions), ChainOf(os, Results), ChainOf(os, Receipts))
  }

  function FirstN<T>(s: seq<T>, n: nat): seq<T> {
    if |s| <= n then s else s[..n]
  }

  /** What the simple batch fold of the accepted offers says the reducer must hold. */
  ghost predicate IsBatchFold(e: Reducer, os: seq<Offer>) {
    && e.counts == TotalCounts(os) && e.tally == TotalTally(os)
    && e.caseRecords + e.childReceipts == |os|
    && e.details == FirstN(Failures(os), e.maxDetails)
    && (e.firstFailure == if Failures(os) == [] then None else Some(Failures(os)[0].index))
    && e.counts.failed + e.counts.rejected == |Failures(os)|
    && e.chains == AllChains(os)
  }

  /** What accepting one item does, whatever kind of offer carried it. */
  ghost predicate Folded(e: Reducer, n: Reducer, i: Item) {
    && n.counts == CountsPlus(e.counts, ItemCounts(i)) && n.tally == TallyPlus(e.tally, ItemTally(i))
    && n.caseRecords + n.childReceipts == e.caseRecords + e.childReceipts + 1 && n.maxDetails == e.maxDetails
    && n.chains == LinkAll(e.chains, e.caseRecords + e.childReceipts, i.ChildItem?, ItemIdentity(i, Inputs),
                           ItemIdentity(i, Admissions), ItemIdentity(i, Results), ItemIdentity(i, Receipts))
    && if i.CaseItem? && i.item.failure.Some? then
         var d := FailureDetail(i.item.caseId, e.counts.total, i.item.failure.value, i.item.receiptId, i.item.status);
         && n.firstFailure == (if e.firstFailure.None? then Some(e.counts.total) else e.firstFailure)
         && n.details == if |e.details| < e.maxDetails then e.details + [d] else e.details
       else n.firstFailure == e.firstFailure && n.details == e.details
  }

  lemma IngestFolds(e: Reducer, o: Offer)
    requires Ingest(e, o).Success?
    ensures Folded(e, Ingest(e, o).value, ItemOf(o)) && (ItemOf(o).ChildItem? ==> ItemOf(o).child.noFailures)
  {
    hide SealValidates, AuthorizationMatches, BoundaryAfter, TallyFits, CountsFit, TallyPlus, CountsPlus;
  }

  /** Appending at most one failure keeps the retained details the exact prefix. */
  lemma PrefixGrows(all: seq<FailureDetail>, d: FailureDetail, kept: seq<FailureDetail>, max: nat)
    requires kept == FirstN(all, max)
    ensures FirstN(all + [d], max) == if |kept| < max then kept + [d] else kept
  {
    if |all| < max {
      assert kept == all;
    } else {
      assert (all + [d])[..max] == all[..max];
    }
  }

  lemma FoldStep(e: Reducer, os: seq<Offer>, o: Offer)
    requires IsBatchFold(e, os) && OfferWellFormed(o) && Ingest(e, o).Success?
    ensures IsBatchFold(Ingest(e, o).value, os + [o])
  {
    hide Ingest, Failures, AllChains, TotalCounts, TotalTally, OfferWellFormed, FirstN, LinkAll, TallyPlus,
      ItemTally, ItemIdentity, ItemCounts;
    var n, i := Ingest(e, o).value, ItemOf(o);
    IngestFolds(e, o);
    ItemCountsFailures(o);
    BatchGrows(os, o);
    hide ItemOf;
    if IsFailure(i) {
      var d := FailureDetail(i.item.caseId, TotalCounts(os).total, i.item.failure.value, i.item.receiptId,
                             i.item.status);
      PrefixGrows(Failures(os), d, e.details, e.maxDetails);
      assert (Failures(os) + [d])[0] == if Failures(os) == [] then d else Failures(os)[0];
    } else {
      assert Failures(os + [o]) == Failures(os);
    }
  }

  lemma BatchGrows(os: seq<Offer>, o: Offer)
    ensures TotalCounts(os + [o]) == CountsPlus(TotalCounts(os), ItemCounts(ItemOf(o)))
    ensures TotalTally(os + [o]) == TallyPlus(TotalTally(os), ItemTally(ItemOf(o)))
    ensures var i := ItemOf(o);
            AllChains(os + [o])
              == LinkAll(AllChains(os), |os|, i.ChildItem?, ItemIdentity(i, Inputs), ItemIdentity(i, Admissions),
                                           ItemIdentity(i, Results), ItemIdentity(i, Receipts))
    ensures var i := ItemOf(o);
            Failures(os + [o]) == Failures(os) +
              if IsFailure(i)
                then [FailureDetail(i.item.caseId, TotalCounts(os).total, i.item.failure.value, i.item.receiptId,
                                    i.item.status)] else []
  {
    assert (os + [o])[..|os|] == os;
  }

  predicate IsFailure(i: Item) {
    i.CaseItem? && i.item.failure.Some?
  }

  /** Only a failing case adds to the failure counts: children are admitted only without failures. */
  lemma ItemCountsFailures(o: Offer)
    requires OfferWellFormed(o)
    ensures ItemOf(o).CaseItem? ==>
              ItemCounts(ItemOf(o)).failed + ItemCounts(ItemOf(o)).rejected == if IsFailure(ItemOf(o)) then 1 else 0
    ensures ItemOf(o).ChildItem? && ItemOf(o).child.noFailures ==>
              ItemCounts(ItemOf(o)).failed == ItemCounts(ItemOf(o)).rejected == 0
  {
    hide DispatchProduced;
  }

  lemma ConstantsKept(e: Reducer, o: Offer)
    requires Ingest(e, o).Success?
    ensures var n := Ingest(e, o).value;
            n.maxDetails == e.maxDetails && n.maxCases == e.maxCases && n.manifest == e.manifest && !n.sealed
  {}

  /**
   * Whatever is offered, the streaming reducer holds exactly the batch fold of what it accepted: counts, totals,
   * the first failure, the retained details as the exact prefix of the failures, and the four identity chains.
   */
  lemma {:induction false} ReducerIsBatchFold(
    manifest: map<string, Authorization>, maxCases: nat, maxDetails: nat, offers: seq<Offer>)
    requires OffersWellFormed(offers)
    ensures var e := Stream(NewReducer(manifest, maxCases, maxDetails), offers);
            && IsBatchFold(e, Accepted(NewReducer(manifest, maxCases, maxDetails), offers))
            && e.maxDetails == maxDetails && e.maxCases == maxCases && e.manifest == manifest && !e.sealed
  {
    hide Ingest, OfferWellFormed, IsBatchFold;
    var e := NewReducer(manifest, maxCases, maxDetails);
    if offers == [] {
      assert IsBatchFold(e, []) by { EmptyFold(manifest, maxCases, maxDetails); }
    } else {
      var prior, last := offers[..|offers| - 1], offers[|offers| - 1];
      ReducerIsBatchFold(manifest, maxCases, maxDetails, prior);
      if Ingest(Stream(e, prior), last).Success? {
        FoldStep(Stream(e, prior), Accepted(e, prior), last);
        ConstantsKept(Stream(e, prior), last);
      } else {
        assert Accepted(e, prior) + [] == Accepted(e, prior);
      }
    }
  }

  lemma EmptyFold(manifest: map<string, Authorization>, maxCases: nat, maxDetails: nat)
    ensures IsBatchFold(NewReducer(manifest, maxCases, maxDetails), [])
  {}

  /** A chain fixes how many items were folded and, position by position, what kind and which identity each had. */
  lemma {:induction false} ChainFixesItems(left: seq<Offer>, right: seq<Offer>, f: Facet)
    requires ChainOf(left, f) == ChainOf(right, f)
    ensures |left| == |right|
    ensures forall i :: 0 <= i < |left| ==>
              && ItemOf(left[i]).ChildItem? == ItemOf(right[i]).ChildItem?
              && ItemIdentity(ItemOf(left[i]), f) == ItemIdentity(ItemOf(right[i]), f)
  {
    if left != [] && right != [] {
      ChainFixesItems(left[..|left| - 1], right[..|right| - 1], f);
      forall i | 0 <= i < |left|
        ensures ItemOf(left[i]).ChildItem? == ItemOf(right[i]).ChildItem?
                && ItemIdentity(ItemOf(left[i]), f) == ItemIdentity(ItemOf(right[i]), f)
      {
        if i < |left| - 1 {
          assert left[i] == left[..|left| - 1][i] && right[i] == right[..|right| - 1][i];
        }
      }
    }
  }

  predicate SameChains(left: Reducer, right: Reducer) {
    left.chains == right.chains
  }

  /** Two reducers with the same four chains accepted the same kinds and identities, in the same order. */
  lemma SameChainsSameStream(
    left: seq<Offer>, right: seq<Offer>, m: map<string, Authorization>, m': map<string, Authorization>,
                             maxCases: nat, maxCases': nat, maxDetails: nat, maxDetails': nat)
    requires OffersWellFormed(left) && OffersWellFormed(right)
    requires SameChains(Stream(NewReducer(m, maxCases, maxDetails), left),
                        Stream(NewReducer(m', maxCases', maxDetails'), right))
    ensures var a := Accepted(NewReducer(m, maxCases, maxDetails), left);
            var b := Accepted(NewReducer(m', maxCases', maxDetails'), right);
            && |a| == |b|
            && forall i, f :: 0 <= i < |a| ==>
                 ItemOf(a[i]).ChildItem? == ItemOf(b[i]).ChildItem?
                 && ItemIdentity(ItemOf(a[i]), f) == ItemIdentity(ItemOf(b[i]), f)
  {
    hide Ingest, OfferWellFormed, Stream, Accepted;
    var a := Accepted(NewReducer(m, maxCases, maxDetails), left);
    var b := Accepted(NewReducer(m', maxCases', maxDetails'), right);
    ReducerIsBatchFold(m, maxCases, maxDetails, left);
    ReducerIsBatchFold(m', maxCases', maxDetails', right);
    ChainFixesItems(a, b, Inputs);
    ChainFixesItems(a, b, Admissions);
    ChainFixesItems(a, b, Results);
    ChainFixesItems(a, b, Receipts);
    forall i, f | 0 <= i < |a|
      ensures ItemOf(a[i]).ChildItem? == ItemOf(b[i]).ChildItem?
              && ItemIdentity(ItemOf(a[i]), f) == ItemIdentity(ItemOf(b[i]), f)
    {
      match f case Inputs => case Admissions => case Results => case Receipts =>
    }
  }

  // ----- Source-bound streams -----

  ghost predicate Watching(e: Reducer) {
    e.allBound && e.childReceipts == 0
  }

  /** The stream so far is one unbroken stretch of one session, and the totals are its net change. */
  ghost predicate BoundInv(e: Reducer, os: seq<Offer>, calls: seq<Call>) {
    && |calls| == |os|
    && (e.boundary.Some? <==> os != [])
    && (e.boundary.Some? ==>
          var b := e.boundary.value;
          && b.session == b.initial.session
          && Runs.Run(b.initial, calls) == b.final && b.final.session == b.session
          && forall i :: 0 <= i < |os| ==> os[i].Runtime? && os[i].seal == Runs.Trace(b.initial, calls)[i])
    && e.tally == NetChange(e.boundary)
  }

  function NetChange(b: Option<Boundary>): Tally {
    if b.None? then ZERO_TALLY
    else
      var x, y := b.value.initial.counters, b.value.final.counters;
      Tally(Drop(y.requests, x.requests), Drop(y.executions, x.executions), Drop(y.cacheHits, x.cacheHits),
            Drop(y.retries, x.retries), 0, 0, 0, 0)
  }

  function Drop(a: nat, b: nat): (r: nat)
    ensures b <= a ==> r == a - b
  {
    if b <= a then a - b else 0
  }

  ghost predicate CountersGrow(x: Counters, y: Counters) {
    && x.requests <= y.requests && x.executions <= y.executions && x.cacheHits <= y.cacheHits
    && x.retries <= y.retries && x.tick <= y.tick
  }

  lemma DispatchMeasures(s: RuntimeState, c: Call)
    ensures var r := Dispatch(s, c).1;
            && r.before == s && r.after == Dispatch(s, c).0 && r.after.session == s.session
            && CountersGrow(s.counters, r.after.counters)
            && (r.CallReceipt? ==> r.delta == Delta(s.counters, r.after.counters))
  {}

  lemma {:induction false} RunGrows(s: RuntimeState, calls: seq<Call>)
    ensures CountersGrow(s.counters, Runs.Run(s, calls).counters) && Runs.Run(s, calls).session == s.session
  {
    if calls != [] {
      RunGrows(s, calls[..|calls| - 1]);
      DispatchMeasures(Runs.Run(s, calls[..|calls| - 1]), calls[|calls| - 1]);
    }
  }

  lemma RunExtends(s: RuntimeState, calls: seq<Call>, c: Call)
    ensures Runs.Run(s, calls + [c]) == Dispatch(Runs.Run(s, calls), c).0
    ensures Runs.Trace(s, calls + [c]) == Runs.Trace(s, calls) + [Dispatch(Runs.Run(s, calls), c).1]
  {
    assert (calls + [c])[..|calls|] == calls;
  }

  /** What accepting a sealed case does to the boundary and the totals. */
  lemma RuntimeStep(e: Reducer, o: Offer)
    requires o.Runtime? && Ingest(e, o).Success?
    ensures var n, r := Ingest(e, o).value, o.seal;
            && r.CallReceipt? && n.boundary.Some? && n.boundary.value.final == r.after
            && n.tally == TallyPlus(e.tally, SealTally(r)) && n.allBound == e.allBound
            && n.childReceipts == e.childReceipts
            && n.boundary.value.session == r.before.session
            && match e.boundary
               case None => n.boundary.value.initial == r.before
               case Some(b) =>
                 && b.final == r.before && b.session == r.before.session
                 && n.boundary.value.initial == b.initial && n.boundary.value.session == b.session
  {
    hide AuthorizationMatches, TallyFits, CountsFit;
  }

  lemma NonRuntimeStep(e: Reducer, o: Offer)
    requires !o.Runtime? && Ingest(e, o).Success?
    ensures !Watching(Ingest(e, o).value)
  {}

  lemma BoundStep(e: Reducer, os: seq<Offer>, calls: seq<Call>, o: Offer, s: RuntimeState, c: Call)
    requires BoundInv(e, os, calls)
    requires o.Runtime? && Ingest(e, o).Success? && Dispatch(s, c).1 == o.seal
    ensures BoundInv(Ingest(e, o).value, os + [o], calls + [c])
  {
    hide Ingest, Dispatch, Runs.Run, Runs.Trace;
    var n := Ingest(e, o).value;
    RuntimeStep(e, o);
    DispatchMeasures(s, c);
    var initial := n.boundary.value.initial;
    assert Runs.Run(initial, calls) == s by {
      if e.boundary.None? { EmptyRun(initial, calls); }
    }
    RunExtends(initial, calls, c);
    RunGrows(initial, calls);
    assert e.tally == NetChange(Some(Boundary(initial, s, o.item.receiptId, o.item.receiptId, "")));
    forall i | 0 <= i < |os + [o]|
      ensures (os + [o])[i].Runtime? && (os + [o])[i].seal == Runs.Trace(initial, calls + [c])[i]
    {
      if i < |os| { assert (os + [o])[i] == os[i]; }
    }
  }

  lemma EmptyRun(s: RuntimeState, calls: seq<Call>)
    requires calls == []
    ensures Runs.Run(s, calls) == s
  {}

  /** The calls behind a source-bound stream. */
  lemma {:induction false} BoundStreamHasRun(
    manifest: map<string, Authorization>, maxCases: nat, maxDetails: nat, offers: seq<Offer>) returns (calls: seq<Call>)
    requires OffersWellFormed(offers)
    requires Watching(Stream(NewReducer(manifest, maxCases, maxDetails), offers))
    ensures var e := NewReducer(manifest, maxCases, maxDetails);
            BoundInv(Stream(e, offers), Accepted(e, offers), calls)
  {
    hide Ingest, BoundInv;
    var e := NewReducer(manifest, maxCases, maxDetails);
    if offers == [] {
      calls := [];
      assert BoundInv(e, [], []) by { EmptyIsBound(manifest, maxCases, maxDetails); }
    } else {
      var prior, last := offers[..|offers| - 1], offers[|offers| - 1];
      var before := Stream(e, prior);
      if Ingest(before, last).Success? {
        if !last.Runtime? {
          NonRuntimeStep(before, last);
          assert false;
        }
        RuntimeStep(before, last);
        calls := BoundStreamHasRun(manifest, maxCases, maxDetails, prior);
        assert OfferWellFormed(last);
        var s: RuntimeState, c: Call :| Dispatch(s, c).1 == last.seal;
        BoundStep(before, Accepted(e, prior), calls, last, s, c);
        calls := calls + [c];
      } else {
        calls := BoundStreamHasRun(manifest, maxCases, maxDetails, prior);
        assert Accepted(e, prior) + [] == Accepted(e, prior);
      }
    }
  }

  lemma EmptyIsBound(manifest: map<string, Authorization>, maxCases: nat, maxDetails: nat)
    ensures BoundInv(NewReducer(manifest, maxCases, maxDetails), [], [])
  {}

  /** The calls take the boundary's initial state to its final one, and their receipts are the stream's seals. */
  ghost predicate IsWatchedRun(b: Boundary, os: seq<Offer>, calls: seq<Call>) {
    && |calls| == |os| && Runs.Run(b.initial, calls) == b.final
    && forall i :: 0 <= i < |os| ==> os[i].Runtime? && os[i].seal == Runs.Trace(b.initial, calls)[i]
  }

  /**
   * A source-bound child-free stream is one run of the runtime: its seals are, in order and without a gap, the
   * receipts of a run from the initial to the final boundary state, and its totals are that run's net change.
   */
  lemma BoundTotalsAreNetChange(
    manifest: map<string, Authorization>, maxCases: nat, maxDetails: nat, offers: seq<Offer>)
    requires OffersWellFormed(offers)
    requires Watching(Stream(NewReducer(manifest, maxCases, maxDetails), offers))
    requires Accepted(NewReducer(manifest, maxCases, maxDetails), offers) != []
    ensures var e := Stream(NewReducer(manifest, maxCases, maxDetails), offers);
            && e.boundary.Some?
            && (exists calls ::
                IsWatchedRun(e.boundary.value, Accepted(NewReducer(manifest, maxCases, maxDetails), offers), calls))
            && var x, y := e.boundary.value.initial.counters, e.boundary.value.final.counters;
            && x.requests + e.tally.requests == y.requests && x.executions + e.tally.executions == y.executions
            && x.cacheHits + e.tally.cacheHits == y.cacheHits && x.retries + e.tally.retries == y.retries
  {
    hide Ingest;
    var calls := BoundStreamHasRun(manifest, maxCases, maxDetails, offers);
    var e := Stream(NewReducer(manifest, maxCases, maxDetails), offers);
    assert IsWatchedRun(e.boundary.value, Accepted(NewReducer(manifest, maxCases, maxDetails), offers), calls);
    RunGrows(e.boundary.value.initial, calls);
  }

  // ----- Coverage -----

  /** Position `i` accepted a cold execution of the action. */
  ghost predicate ColdAt(os: seq<Offer>, i: int, action: string) {
    0 <= i < |os| && os[i].Runtime? && os[i].item.admission == action && ColdAccepted(os[i].seal)
  }

  ghost predicate CoverageInv(e: Reducer, os: seq<Offer>) {
    && e.observed <= e.manifest.Keys
    && (forall a :: a in e.observed ==> exists i :: ColdAt(os, i, a))
    && (forall a, i :: ColdAt(os, i, a) ==> a in e.observed)
    && (forall k :: 0 <= k < |os| && os[k].Runtime? && HitReceipt(os[k].seal) ==>
          exists i :: i < k && ColdAt(os, i, os[k].item.admission))
  }

  lemma ColdStays(os: seq<Offer>, o: Offer, i: int, action: string)
    requires ColdAt(os, i, action)
    ensures ColdAt(os + [o], i, action)
  {}

  /** What accepting a sealed case does to the set of observed actions. */
  lemma ObservedStep(e: Reducer, o: Offer)
    requires o.Runtime? && Ingest(e, o).Success?
    ensures var n, a := Ingest(e, o).value, o.item.admission;
            && a in e.manifest && n.manifest == e.manifest
            && (HitReceipt(o.seal) ==> a in e.observed)
            && n.observed == if ColdAccepted(o.seal) then e.observed + {a} else e.observed
  {
    hide SealValidates, AuthorizationMatches, TallyFits, CountsFit, BoundaryAfter;
  }

  lemma CoverageStep(e: Reducer, os: seq<Offer>, o: Offer)
    requires CoverageInv(e, os) && o.Runtime? && Ingest(e, o).Success?
    ensures CoverageInv(Ingest(e, o).value, os + [o])
  {
    hide Ingest;
    var n, next := Ingest(e, o).value, os + [o];
    ObservedStep(e, o);
    forall a | a in n.observed ensures exists i :: ColdAt(next, i, a) {
      if a in e.observed {
        var i :| ColdAt(os, i, a);
        ColdStays(os, o, i, a);
      } else {
        assert ColdAt(next, |os|, a);
      }
    }
    forall a, i | ColdAt(next, i, a) ensures a in n.observed {
      if i < |os| { assert ColdAt(os, i, a); }
    }
    forall k | 0 <= k < |next| && next[k].Runtime? && HitReceipt(next[k].seal)
      ensures exists i :: i < k && ColdAt(next, i, next[k].item.admission)
    {
      if k < |os| {
        var i :| i < k && ColdAt(os, i, os[k].item.admission);
        ColdStays(os, o, i, os[k].item.admission);
      } else {
        var i :| ColdAt(os, i, o.item.admission);
        ColdStays(os, o, i, o.item.admission);
      }
    }
  }

  lemma {:induction false} StreamCovers(
    manifest: map<string, Authorization>, maxCases: nat, maxDetails: nat, offers: seq<Offer>)
    requires OffersWellFormed(offers)
    requires Watching(Stream(NewReducer(manifest, maxCases, maxDetails), offers))
    ensures var e := NewReducer(manifest, maxCases, maxDetails);
            CoverageInv(Stream(e, offers), Accepted(e, offers))
  {
    hide Ingest, CoverageInv;
    var e := NewReducer(manifest, maxCases, maxDetails);
    if offers == [] {
      assert CoverageInv(e, []) by { EmptyCovers(manifest, maxCases, maxDetails); }
    } else {
      var prior, last := offers[..|offers| - 1], offers[|offers| - 1];
      var before := Stream(e, prior);
      if Ingest(before, last).Success? {
        if !last.Runtime? {
          NonRuntimeStep(before, last);
          assert false;
        }
        RuntimeStep(before, last);
        StreamCovers(manifest, maxCases, maxDetails, prior);
        CoverageStep(before, Accepted(e, prior), last);
      } else {
        StreamCovers(manifest, maxCases, maxDetails, prior);
        assert Accepted(e, prior) + [] == Accepted(e, prior);
      }
    }
  }

  lemma EmptyCovers(manifest: map<string, Authorization>, maxCases: nat, maxDetails: nat)
    ensures CoverageInv(NewReducer(manifest, maxCases, maxDetails), [])
  {}

  lemma SubsetOfSameSizeIsAll(part: set<string>, whole: set<string>)
    requires part <= whole && |part| == |whole|
    ensures part == whole
  {
    if exists x :: x in whole && x !in part {
      var x :| x in whole && x !in part;
      CardinalityLemma(part, whole - {x});
    }
  }

  lemma CardinalityLemma(a: set<string>, b: set<string>)
    requires a <= b
    ensures |a| <= |b|
    decreases b
  {
    if a != {} {
      var x :| x in a;
      CardinalityLemma(a - {x}, b - {x});
    }
  }

  /**
   * A source-bound child-free stream can be sealed exactly when it has a case and every authorized action has an
   * accepted cold execution in it; and every accepted cache hit came after such an execution of its own action.
   */
  lemma SealedMeansCovered(
    manifest: map<string, Authorization>, maxCases: nat, maxDetails: nat, offers: seq<Offer>)
    requires OffersWellFormed(offers)
    requires Watching(Stream(NewReducer(manifest, maxCases, maxDetails), offers))
    ensures var e := Stream(NewReducer(manifest, maxCases, maxDetails), offers);
            var os := Accepted(NewReducer(manifest, maxCases, maxDetails), offers);
            && (Summarize(e).Success? <==> os != [] && forall a :: a in manifest ==> exists i :: ColdAt(os, i, a))
            && (forall k :: 0 <= k < |os| && os[k].Runtime? && HitReceipt(os[k].seal) ==>
                  exists i :: i < k && ColdAt(os, i, os[k].item.admission))
  {
    hide Ingest;
    var e := Stream(NewReducer(manifest, maxCases, maxDetails), offers);
    StreamCovers(manifest, maxCases, maxDetails, offers);
    ReducerIsBatchFold(manifest, maxCases, maxDetails, offers);
    var calls := BoundStreamHasRun(manifest, maxCases, maxDetails, offers);
    CasesCountOne(Accepted(NewReducer(manifest, maxCases, maxDetails), offers));
    if Summarize(e).Success? {
      SubsetOfSameSizeIsAll(e.observed, e.manifest.Keys);
    } else if forall a :: a in manifest ==> a in e.observed {
      assert e.observed == e.manifest.Keys;
    }
  }

  lemma {:induction false} CasesCountOne(os: seq<Offer>)
    requires forall i :: 0 <= i < |os| ==> os[i].Runtime?
    ensures TotalCounts(os).total == |os|
  {
    if os != [] {
      CasesCountOne(os[..|os| - 1]);
    }
  }

  // ----- What a hit returns -----

  /** The sealed receipt is one the manifest entry of its action authorizes. */
  predicate AuthorizedAt(manifest: map<string, Authorization>, o: Offer) {
    o.Runtime? ==> o.item.admission in manifest && AuthorizationMatches(manifest[o.item.admission], o.seal)
  }

  lemma IngestAuthorizes(e: Reducer, o: Offer)
    requires Ingest(e, o).Success?
    ensures AuthorizedAt(e.manifest, o) && Ingest(e, o).value.manifest == e.manifest
  {
    hide SealValidates, AuthorizationMatches, TallyFits, CountsFit, BoundaryAfter;
  }

  lemma {:induction false} StreamAuthorized(e: Reducer, offers: seq<Offer>)
    ensures Stream(e, offers).manifest == e.manifest
    ensures forall k :: 0 <= k < |Accepted(e, offers)| ==> AuthorizedAt(e.manifest, Accepted(e, offers)[k])
  {
    hide Ingest, AuthorizedAt;
    if offers != [] {
      var prior, last := offers[..|offers| - 1], offers[|offers| - 1];
      StreamAuthorized(e, prior);
      if Ingest(Stream(e, prior), last).Success? {
        IngestAuthorizes(Stream(e, prior), last);
      }
    }
  }

  /** One action always reads one tool key. */
  lemma SameActionSameKey(manifest: map<string, Authorization>, o: Offer, p: Offer)
    requires o.Runtime? && p.Runtime? && o.item.admission == p.item.admission
    requires AuthorizedAt(manifest, o) && AuthorizedAt(manifest, p)
    requires o.seal.command.ExecuteRead? && p.seal.command.ExecuteRead?
    ensures o.seal.command.key == p.seal.command.key
  {}

  lemma DispatchKeepsCache(s: RuntimeState, c: Call, key: ToolKey)
    requires key in s.cache
    ensures key in Dispatch(s, c).0.cache && Dispatch(s, c).0.cache[key] == s.cache[key]
  {}

  lemma {:induction false} RunKeepsCache(s: RuntimeState, calls: seq<Call>, i: nat, j: nat, key: ToolKey)
    requires i <= j <= |calls| && key in Runs.Run(s, calls[..i]).cache
    ensures key in Runs.Run(s, calls[..j]).cache
    ensures Runs.Run(s, calls[..j]).cache[key] == Runs.Run(s, calls[..i]).cache[key]
    decreases j - i
  {
    hide Dispatch;
    if i < j {
      RunKeepsCache(s, calls, i, j - 1, key);
      assert calls[..j][..j - 1] == calls[..j - 1];
      DispatchKeepsCache(Runs.Run(s, calls[..j - 1]), calls[j - 1], key);
    }
  }

  lemma {:induction false} TraceAt(s: RuntimeState, calls: seq<Call>, k: nat)
    requires k < |calls|
    ensures Runs.Trace(s, calls)[k] == Dispatch(Runs.Run(s, calls[..k]), calls[k]).1
    ensures Runs.Run(s, calls[..k + 1]) == Dispatch(Runs.Run(s, calls[..k]), calls[k]).0
  {
    hide Dispatch;
    var n := |calls| - 1;
    assert calls[..k + 1][..k] == calls[..k];
    if k < n {
      TraceAt(s, calls[..n], k);
      assert calls[..n][..k] == calls[..k];
    }
  }

  /** A cold execution stores what it returns, and a hit returns what is stored. */
  lemma ReceiptAndCache(s: RuntimeState, c: Call)
    ensures var (next, r) := Dispatch(s, c);
            && (ColdAccepted(r) ==> r.command.key in next.cache
                                    && r.transition == Some(Transition(r.command.key, next.cache[r.command.key])))
            && (HitReceipt(r) ==> r.command.key in s.cache
                                  && r.transition == Some(Transition(r.command.key, s.cache[r.command.key])))
  {}

  lemma LaterHitRepeats(s: RuntimeState, calls: seq<Call>, i: nat, k: nat)
    requires i < k < |calls| && ColdAccepted(Runs.Trace(s, calls)[i]) && HitReceipt(Runs.Trace(s, calls)[k])
    requires Runs.Trace(s, calls)[i].command.key == Runs.Trace(s, calls)[k].command.key
    ensures Runs.Trace(s, calls)[i].transition.Some?
    ensures Runs.Trace(s, calls)[i].transition == Runs.Trace(s, calls)[k].transition
  {
    TraceAt(s, calls, i);
    TraceAt(s, calls, k);
    ReceiptAndCache(Runs.Run(s, calls[..i]), calls[i]);
    ReceiptAndCache(Runs.Run(s, calls[..k]), calls[k]);
    hide Dispatch, Runs.Run, Runs.Trace;
    RunKeepsCache(s, calls, i + 1, k, Runs.Trace(s, calls)[i].command.key);
  }

  /** An earlier cold execution of the same action returned this very transition. */
  ghost predicate RepeatsACold(os: seq<Offer>, k: nat)
    requires k < |os| && os[k].Runtime? && HitReceipt(os[k].seal)
  {
    exists i :: i < k && ColdAt(os, i, os[k].item.admission) && os[i].seal.transition.Some?
                && os[i].seal.transition == os[k].seal.transition
  }

  /**
   * In a source-bound child-free stream every accepted cache hit returns what a cold execution of its own action
   * returned.
   */
  lemma HitRepeatsItsCold(manifest: map<string, Authorization>, maxCases: nat, maxDetails: nat, offers: seq<Offer>)
    requires OffersWellFormed(offers)
    requires Watching(Stream(NewReducer(manifest, maxCases, maxDetails), offers))
    ensures var os := Accepted(NewReducer(manifest, maxCases, maxDetails), offers);
            forall k :: 0 <= k < |os| && os[k].Runtime? && HitReceipt(os[k].seal) ==> RepeatsACold(os, k)
  {
    var e := NewReducer(manifest, maxCases, maxDetails);
    var os := Accepted(e, offers);
    SealedMeansCovered(manifest, maxCases, maxDetails, offers);
    StreamAuthorized(e, offers);
    if os != [] {
      BoundTotalsAreNetChange(manifest, maxCases, maxDetails, offers);
      var b := Stream(e, offers).boundary.value;
      var calls :| IsWatchedRun(b, os, calls);
      hide Stream, Accepted, Ingest, AuthorizedAt, Runs.Run, Runs.Trace, NewReducer, Summarize;
      forall k | 0 <= k < |os| && os[k].Runtime? && HitReceipt(os[k].seal) ensures RepeatsACold(os, k) {
        var i :| i < k && ColdAt(os, i, os[k].item.admission);
        SameActionSameKey(manifest, os[i], os[k]);
        LaterHitRepeats(b.initial, calls, i, k);
      }
    }
  }

  /** A sealed reducer admits nothing more, and sealing again changes nothing. */
  lemma SealingIsFinal(e: Reducer, o: Offer)
    requires Summarize(e).Success?
    ensures var n := Summarize(e).value; n.sealed && Step(n, o) == n && Summarize(n) == Success(n)
  {}
}

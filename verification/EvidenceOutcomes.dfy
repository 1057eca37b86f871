/**
 * What an evidence stream may claim: each accepted case says what its sealed receipt says, an offer is admitted for
 * reasons read off the stream so far, and a watched stream's counts and failures are those of the run it watched.
 */
module EvidenceOutcomes {
  import opened Common
  import opened LeaseRecords
  import opened ReadRuntime
  import opened Evidence
  import opened EvidenceRuns
  import Runs = ReadRuntimeRuns

  // ----- A case and its receipt -----

  /** The identity of what the call returned, or of the state it left when it returned nothing. */
  predicate IsResult(i: Identity, r: Receipt)
    requires r.CallReceipt?
  {
    if r.transition.Some? then i == OfTransition(r.transition.value) else i == OfState(r.after)
  }

  /** The outcome a case reports is the outcome the receipt has. */
  predicate ReportsOutcome(c: Case, r: Receipt)
    requires r.CallReceipt?
  {
    && (c.status.Passed? <==> r.rejection.None?) && (c.status.Rejected? <==> r.rejection.Some?)
    && (c.failure.Some? <==> r.rejection.Some?)
    && (c.failure.Some? ==>
          && c.failure.value.reason == r.rejection
          && c.failure.value.detail == RuntimeRejection(r.rejection.value, r.after))
  }

  /** The case is about the receipt's own command, states and result, and charges what the receipt charges. */
  predicate Identifies(c: Case, r: Receipt)
    requires r.CallReceipt?
  {
    && (r.command.ExecuteRead? || r.command.RecordRetry?) && c.admission == r.command.admission
    && c.caseId == c.inputId == OfCommand(r.command, r.before) && c.receiptId == OfReceipt(r)
    && IsResult(c.resultId, r)
    && c.source == Some(Source(r.before, r.after, OfReceipt(r), r.before.session))
    && c.tally.requests == r.delta.requests && c.tally.executions == r.delta.executions
    && c.tally.cacheHits == r.delta.cacheHits && c.tally.retries == r.delta.retries
    && c.tally.mutations == c.tally.violations == c.tally.canonicalMismatches == c.tally.receiptMismatches == 0
  }

  predicate Reports(c: Case, r: Receipt) {
    r.CallReceipt? && Identifies(c, r) && ReportsOutcome(c, r)
  }

  /** The manifest entry is for this read, and allows a cached answer if this is one. */
  predicate Permits(a: Authorization, r: Receipt)
    requires r.CallReceipt?
  {
    r.command.ExecuteRead? ==>
      && r.command.key.arguments == a.arguments && r.command.key.dependency == a.dependency
      && r.command.key.tool == a.tool && (r.cacheStatus == Some(CacheHit) ==> a.cacheReuse)
  }

  lemma SealReports(c: Case, r: Receipt)
    ensures SealValidates(r, c) <==> Reports(c, r)
  {}

  lemma ManifestPermits(a: Authorization, c: Case, r: Receipt)
    requires Reports(c, r)
    ensures AuthorizationMatches(a, r) <==> Permits(a, r)
  {}

  // ----- The stream so far -----

  predicate HasChild(os: seq<Offer>) {
    exists i :: 0 <= i < |os| && os[i].ChildOffer?
  }

  predicate HasStructural(os: seq<Offer>) {
    exists i :: 0 <= i < |os| && os[i].Structural?
  }

  /** A cold execution of the action was accepted, or a child, which covers every action. */
  ghost predicate Covered(os: seq<Offer>, action: string) {
    HasChild(os) || exists i :: ColdAt(os, i, action)
  }

  /** The state the last watched call left. */
  ghost function LastState(os: seq<Offer>): Option<RuntimeState> {
    if os == [] then None
    else if os[|os| - 1].Runtime? then Some(os[|os| - 1].seal.after)
    else LastState(os[..|os| - 1])
  }

  /** What the reducer remembers of the stream. */
  ghost predicate Remembers(e: Reducer, os: seq<Offer>) {
    && !e.sealed && CountsFit(e.counts) && TallyFits(e.tally)
    && (e.allBound <==> !HasStructural(os))
    && (forall a :: a in e.observed <==> a in e.manifest && Covered(os, a))
    && (match LastState(os)
        case None => e.boundary.None?
        case Some(s) => e.boundary.Some? && e.boundary.value.final == s && e.boundary.value.session == s.session)
  }

  /** What one accepted offer does to what is remembered. */
  ghost predicate Extends(e: Reducer, n: Reducer, o: Offer) {
    && !n.sealed && CountsFit(n.counts) && TallyFits(n.tally) && n.manifest == e.manifest
    && (n.allBound <==> e.allBound && !o.Structural?)
    && (match o
        case Structural(_) => n.observed == e.observed && n.boundary == e.boundary
        case ChildOffer(_, _, _) => n.observed == e.manifest.Keys && n.boundary == e.boundary
        case Runtime(c, r) =>
          && c.admission in e.manifest
          && n.observed == (if ColdAccepted(r) then e.observed + {c.admission} else e.observed)
          && n.boundary.Some? && n.boundary.value.final == r.after && n.boundary.value.session == r.before.session)
  }

  lemma RuntimeExtends(e: Reducer, o: Offer)
    requires o.Runtime? && Ingest(e, o).Success?
    ensures Extends(e, Ingest(e, o).value, o)
  {
    hide AuthorizationMatches, TallyFits, CountsFit, TallyPlus, CountsPlus, LinkAll;
  }

  lemma IngestExtends(e: Reducer, o: Offer)
    requires Ingest(e, o).Success?
    ensures Extends(e, Ingest(e, o).value, o)
  {
    if o.Runtime? {
      RuntimeExtends(e, o);
    } else {
      hide SealValidates, AuthorizationMatches, TallyFits, CountsFit, TallyPlus, CountsPlus, LinkAll, BoundaryAfter;
    }
  }

  lemma CoveredGrows(os: seq<Offer>, o: Offer, a: string)
    ensures Covered(os + [o], a) <==>
              Covered(os, a) || o.ChildOffer? || (o.Runtime? && o.item.admission == a && ColdAccepted(o.seal))
  {
    var next := os + [o];
    assert next[|os|] == o;
    if i :| 0 <= i < |os| && os[i].ChildOffer? {
      assert next[i].ChildOffer?;
    }
    if HasChild(next) && !o.ChildOffer? {
      var i :| 0 <= i < |next| && next[i].ChildOffer?;
      assert os[i].ChildOffer?;
    }
    if i :| ColdAt(os, i, a) {
      ColdStays(os, o, i, a);
    }
    if i :| ColdAt(next, i, a) {
      assert i < |os| ==> ColdAt(os, i, a);
    }
    if o.Runtime? && o.item.admission == a && ColdAccepted(o.seal) {
      assert ColdAt(next, |os|, a);
    }
  }

  lemma StructuralGrows(os: seq<Offer>, o: Offer)
    ensures HasStructural(os + [o]) <==> HasStructural(os) || o.Structural?
  {
    var next := os + [o];
    assert next[|os|] == o;
    if i :| 0 <= i < |os| && os[i].Structural? {
      assert next[i].Structural?;
    }
    if HasStructural(next) && !o.Structural? {
      var i :| 0 <= i < |next| && next[i].Structural?;
      assert os[i].Structural?;
    }
  }

  lemma RemembersMore(e: Reducer, n: Reducer, os: seq<Offer>, o: Offer)
    requires Remembers(e, os) && Extends(e, n, o)
    requires o.Runtime? ==> o.seal.after.session == o.seal.before.session
    ensures Remembers(n, os + [o])
  {
    hide Covered, HasStructural, CountsFit, TallyFits, ColdAccepted;
    StructuralGrows(os, o);
    assert (os + [o])[..|os|] == os;
    forall a ensures a in n.observed <==> a in n.manifest && Covered(os + [o], a) {
      CoveredGrows(os, o, a);
    }
  }

  lemma {:induction false} StreamRemembers(
    manifest: map<string, Authorization>, maxCases: nat, maxDetails: nat, offers: seq<Offer>)
    requires OffersWellFormed(offers)
    ensures var e := NewReducer(manifest, maxCases, maxDetails);
            Remembers(Stream(e, offers), Accepted(e, offers))
  {
    hide Ingest, Remembers, Extends;
    var e := NewReducer(manifest, maxCases, maxDetails);
    if offers == [] {
      NothingRemembered(manifest, maxCases, maxDetails);
    } else {
      var prior, last := offers[..|offers| - 1], offers[|offers| - 1];
      StreamRemembers(manifest, maxCases, maxDetails, prior);
      if Ingest(Stream(e, prior), last).Success? {
        IngestExtends(Stream(e, prior), last);
        SealKeepsSession(last);
        RemembersMore(Stream(e, prior), Stream(e, offers), Accepted(e, prior), last);
      } else {
        assert Accepted(e, prior) + [] == Accepted(e, prior);
      }
    }
  }

  lemma SealKeepsSession(o: Offer)
    requires OfferWellFormed(o)
    ensures o.Runtime? ==> o.seal.after.session == o.seal.before.session
  {
    if o.Runtime? {
      var s: RuntimeState, c: Call :| Dispatch(s, c).1 == o.seal;
      DispatchMeasures(s, c);
    }
  }

  lemma NothingRemembered(manifest: map<string, Authorization>, maxCases: nat, maxDetails: nat)
    ensures Remembers(NewReducer(manifest, maxCases, maxDetails), [])
  {}

  // ----- Main results -----

  lemma {:induction false} CasesReport(e: Reducer, offers: seq<Offer>)
    ensures forall k :: 0 <= k < |Accepted(e, offers)| && Accepted(e, offers)[k].Runtime? ==>
              Reports(Accepted(e, offers)[k].item, Accepted(e, offers)[k].seal)
  {
    hide Ingest, Reports;
    if offers != [] {
      var prior, last := offers[..|offers| - 1], offers[|offers| - 1];
      CasesReport(e, prior);
      if last.Runtime? && Ingest(Stream(e, prior), last).Success? {
        AcceptedReports(Stream(e, prior), last);
      }
    }
  }

  lemma AcceptedReports(e: Reducer, o: Offer)
    requires o.Runtime? && Ingest(e, o).Success?
    ensures Reports(o.item, o.seal)
  {
    SealReports(o.item, o.seal);
    hide SealValidates, AuthorizationMatches, TallyFits, CountsFit, BoundaryAfter, Reports;
  }

  /** The new counts and totals stay within the bounds. */
  predicate Fits(e: Reducer, counts: Counts, tally: Tally) {
    && e.counts.total + counts.total <= e.maxCases && TallyFits(TallyPlus(e.tally, tally))
  }

  /** Why an offer is admitted, from the stream so far. */
  ghost predicate Admissible(e: Reducer, os: seq<Offer>, o: Offer) {
    match o
    case Structural(c) => c.source.None? && Fits(e, OneCase(c.status), c.tally)
    case ChildOffer(c, sealMatches, sourceBound) =>
      && sourceBound && sealMatches && c.sameAuthority && c.sameManifest && c.noFailures && Fits(e, c.counts, c.tally)
    case Runtime(c, r) =>
      && Reports(c, r) && c.admission in e.manifest && Permits(e.manifest[c.admission], r)
      && (r.command.ExecuteRead? && r.cacheStatus == Some(CacheHit) ==> Covered(os, c.admission))
      && (LastState(os).Some? ==> LastState(os).value == r.before) && Fits(e, OneCase(c.status), c.tally)
  }

  lemma SumsFit(e: Reducer, counts: Counts)
    requires CountsFit(e.counts) && e.maxCases <= MAX_EVIDENCE_CASES
    requires counts.total == counts.passed + counts.failed + counts.rejected
    ensures e.counts.total + counts.total <= e.maxCases ==> CountsFit(CountsPlus(e.counts, counts))
  {}

  lemma BoundaryContinues(e: Reducer, os: seq<Offer>, c: Case, r: Receipt)
    requires Remembers(e, os) && Reports(c, r)
    ensures BoundaryAfter(e.boundary, c).Success? <==> LastState(os).None? || LastState(os).value == r.before
  {
    hide LastState, Covered, HasStructural, CountsFit, TallyFits;
  }

  lemma AdmittedIffAdmissible(e: Reducer, os: seq<Offer>, o: Offer)
    requires Remembers(e, os) && OfferWellFormed(o) && e.maxCases <= MAX_EVIDENCE_CASES
    ensures Ingest(e, o).Success? <==> Admissible(e, os, o)
  {
    hide SealValidates, AuthorizationMatches, TallyFits, CountsFit, TallyPlus, LinkAll, Reports, Permits, Covered,
      LastState, HasStructural, BoundaryAfter;
    match o
    case Structural(c) =>
      SumsFit(e, OneCase(c.status));
      assert BoundaryAfter(e.boundary, c).Success? || c.source.Some? by { SourceFree(e.boundary, c); }
    case ChildOffer(c, _, _) => SumsFit(e, c.counts);
    case Runtime(c, r) =>
      SealReports(c, r);
      if Reports(c, r) {
        SumsFit(e, OneCase(c.status));
        BoundaryContinues(e, os, c, r);
        if c.admission in e.manifest {
          ManifestPermits(e.manifest[c.admission], c, r);
        }
      }
  }

  lemma SourceFree(b: Option<Boundary>, c: Case)
    ensures c.source.None? ==> BoundaryAfter(b, c) == Success(b)
  {}

  /**
   * In every stream each accepted runtime case reports exactly what its sealed receipt says, and an offer is
   * accepted if and only if it is admissible after what was accepted before.
   */
  lemma OffersFollowTheirSeals(
    manifest: map<string, Authorization>, maxCases: nat, maxDetails: nat, offers: seq<Offer>, o: Offer)
    requires OffersWellFormed(offers) && OfferWellFormed(o) && maxCases <= MAX_EVIDENCE_CASES
    ensures var e := NewReducer(manifest, maxCases, maxDetails);
            var os := Accepted(e, offers);
            && (forall k :: 0 <= k < |os| && os[k].Runtime? ==> Reports(os[k].item, os[k].seal))
            && (Ingest(Stream(e, offers), o).Success? <==> Admissible(Stream(e, offers), os, o))
  {
    var e := NewReducer(manifest, maxCases, maxDetails);
    CasesReport(e, offers);
    StreamRemembers(manifest, maxCases, maxDetails, offers);
    ReducerIsBatchFold(manifest, maxCases, maxDetails, offers);
    hide Ingest, Remembers, Admissible, Stream, Accepted, OfferWellFormed, IsBatchFold, Reports;
    AdmittedIffAdmissible(Stream(e, offers), Accepted(e, offers), o);
  }

  /**
   * Any stream with a case can be sealed, except a source-bound one that leaves an authorized action without an
   * accepted cold execution or child.
   */
  lemma SealableIffCovered(
    manifest: map<string, Authorization>, maxCases: nat, maxDetails: nat, offers: seq<Offer>)
    requires OffersWellFormed(offers)
    ensures var e := NewReducer(manifest, maxCases, maxDetails);
            var os := Accepted(e, offers);
            Summarize(Stream(e, offers)).Success? <==>
              os != [] && (HasStructural(os) || forall a :: a in manifest ==> Covered(os, a))
  {
    var e := NewReducer(manifest, maxCases, maxDetails);
    StreamRemembers(manifest, maxCases, maxDetails, offers);
    ReducerIsBatchFold(manifest, maxCases, maxDetails, offers);
    AcceptedWellFormed(e, offers);
    SomethingCounted(Accepted(e, offers));
    hide Stream, Accepted, Ingest, Covered, HasStructural, LastState, OfferWellFormed, TotalTally, Failures, AllChains;
    var n, os := Stream(e, offers), Accepted(e, offers);
    assert n.observed <= n.manifest.Keys;
    if |n.observed| == |n.manifest| {
      SubsetOfSameSizeIsAll(n.observed, n.manifest.Keys);
    }
    if forall a :: a in manifest ==> Covered(os, a) {
      assert n.observed == n.manifest.Keys;
    }
  }

  lemma {:induction false} AcceptedWellFormed(e: Reducer, offers: seq<Offer>)
    requires OffersWellFormed(offers)
    ensures OffersWellFormed(Accepted(e, offers))
  {
    hide Ingest, OfferWellFormed;
    if offers != [] {
      AcceptedWellFormed(e, offers[..|offers| - 1]);
    }
  }

  lemma {:induction false} SomethingCounted(os: seq<Offer>)
    requires OffersWellFormed(os)
    ensures TotalCounts(os).total > 0 <==> os != []
  {
    if os != [] {
      var n := |os| - 1;
      SomethingCounted(os[..n]);
      assert OfferWellFormed(os[n]);
      hide DispatchProduced;
    }
  }

  // ----- The run behind a watched stream -----

  /** The positions of the rejected calls, in order. */
  ghost function RejectedAt(trace: seq<Receipt>): (r: seq<nat>)
    ensures |r| <= |trace| && forall k :: 0 <= k < |r| ==> r[k] < |trace|
  {
    if trace == [] then []
    else
      var n := |trace| - 1;
      RejectedAt(trace[..n]) + if trace[n].CallReceipt? && trace[n].rejection.Some? then [n] else []
  }

  /** The failure detail is that of the rejected call at `index`. */
  predicate Details(d: FailureDetail, r: Receipt, index: nat) {
    && r.CallReceipt? && r.rejection.Some? && d.index == index && d.caseId == OfCommand(r.command, r.before)
    && d.receiptId == OfReceipt(r) && d.status.Rejected?
    && d.info.reason == r.rejection && d.info.detail == RuntimeRejection(r.rejection.value, r.after)
  }

  /** The counts are the accepted and the rejected calls; the details are the first rejected calls in order. */
  ghost predicate TellsTheRun(counts: Counts, details: seq<FailureDetail>, max: nat, trace: seq<Receipt>) {
    var at := RejectedAt(trace);
    && counts == Counts(|trace|, |trace| - |at|, 0, |at|)
    && |details| == (if |at| <= max then |at| else max)
    && forall k :: 0 <= k < |details| ==> Details(details[k], trace[at[k]], at[k])
  }

  /** All failures, position by position, are the rejected calls. */
  ghost predicate TellsAll(failures: seq<FailureDetail>, trace: seq<Receipt>) {
    var at := RejectedAt(trace);
    |failures| == |at| && forall k :: 0 <= k < |failures| ==> Details(failures[k], trace[at[k]], at[k])
  }

  ghost predicate AllReport(os: seq<Offer>) {
    forall k :: 0 <= k < |os| ==> os[k].Runtime? && Reports(os[k].item, os[k].seal)
  }

  function SealsOf(os: seq<Offer>): (r: seq<Receipt>)
    requires forall k :: 0 <= k < |os| ==> os[k].Runtime?
    ensures |r| == |os| && forall k :: 0 <= k < |os| ==> r[k] == os[k].seal
  {
    seq(|os|, k requires 0 <= k < |os| => os[k].seal)
  }

  lemma RejectedGrows(trace: seq<Receipt>, r: Receipt)
    ensures RejectedAt(trace + [r])
         == RejectedAt(trace) + if r.CallReceipt? && r.rejection.Some? then [|trace|] else []
  {
    assert (trace + [r])[..|trace|] == trace;
  }

  lemma FailureTells(c: Case, r: Receipt, index: nat)
    requires Reports(c, r) && c.failure.Some?
    ensures Details(FailureDetail(c.caseId, index, c.failure.value, c.receiptId, c.status), r, index)
  {}

  lemma TellsMore(failures: seq<FailureDetail>, trace: seq<Receipt>, r: Receipt, more: seq<FailureDetail>)
    requires TellsAll(failures, trace)
    requires if r.CallReceipt? && r.rejection.Some? then |more| == 1 && Details(more[0], r, |trace|) else more == []
    ensures TellsAll(failures + more, trace + [r])
  {
    RejectedGrows(trace, r);
    hide RejectedAt, Details;
    var next := trace + [r];
    assert forall i :: 0 <= i < |trace| ==> next[i] == trace[i];
  }

  lemma {:induction false} FoldTellsTheRun(os: seq<Offer>)
    requires AllReport(os)
    ensures TellsAll(Failures(os), SealsOf(os))
    ensures var at := RejectedAt(SealsOf(os)); TotalCounts(os) == Counts(|os|, |os| - |at|, 0, |at|)
  {
    if os == [] {
      NothingTells();
    } else {
      hide Failures, TotalCounts, RejectedAt, TellsAll, AllChains, TotalTally, LinkAll, Reports, ItemCounts, ItemOf,
        ItemIdentity, TallyPlus;
      var n := |os| - 1;
      var prior, o := os[..n], os[n];
      assert os == prior + [o] && SealsOf(os) == SealsOf(prior) + [o.seal];
      FoldTellsTheRun(prior);
      RejectedGrows(SealsOf(prior), o.seal);
      BatchGrows(prior, o);
      CaseTells(prior, o);
      assert TotalCounts(os) == CountsPlus(TotalCounts(prior), ItemCounts(ItemOf(o)));
      CountsGrow(TotalCounts(prior), ItemCounts(ItemOf(o)), |prior|, |RejectedAt(SealsOf(prior))|,
                 o.seal.rejection.Some?);
    }
  }

  lemma CountsGrow(total: Counts, one: Counts, n: nat, rejected: nat, isRejected: bool)
    requires rejected <= n && total == Counts(n, n - rejected, 0, rejected)
    requires one == if isRejected then Counts(1, 0, 0, 1) else Counts(1, 1, 0, 0)
    ensures CountsPlus(total, one)
         == if isRejected then Counts(n + 1, n - rejected, 0, rejected + 1)
           else Counts(n + 1, n + 1 - rejected, 0, rejected)
  {}

  lemma NothingTells()
    ensures TellsAll(Failures([]), SealsOf([])) && RejectedAt(SealsOf([])) == []
    ensures TotalCounts([]) == Counts(0, 0, 0, 0)
  {
    assert SealsOf([]) == [];
  }

  lemma CaseTells(os: seq<Offer>, o: Offer)
    requires AllReport(os) && o.Runtime? && Reports(o.item, o.seal) && TellsAll(Failures(os), SealsOf(os))
    requires TotalCounts(os).total == |os|
    ensures TellsAll(Failures(os + [o]), SealsOf(os) + [o.seal])
    ensures ItemCounts(ItemOf(o)) == if o.seal.rejection.Some? then Counts(1, 0, 0, 1) else Counts(1, 1, 0, 0)
    ensures o.seal.CallReceipt?
  {
    BatchGrows(os, o);
    if o.item.failure.Some? {
      FailureTells(o.item, o.seal, |os|);
    }
    var i := o.item;
    TellsMore(Failures(os), SealsOf(os), o.seal,
              if i.failure.Some? then [FailureDetail(i.caseId, |os|, i.failure.value, i.receiptId, i.status)] else []);
    hide TotalCounts, Failures, AllChains, LinkAll, TotalTally, AllReport, TellsAll, Details, Identifies, RejectedAt;
  }

  /**
   * The counts and failures of a source-bound child-free stream are those of one run of the runtime: as many passed
   * cases as accepted calls, as many rejected as rejected ones, no failed ones, and the first rejected calls in
   * order, each with its reason and state.
   */
  lemma WatchedStreamTellsTheRun(
    manifest: map<string, Authorization>, maxCases: nat, maxDetails: nat, offers: seq<Offer>)
    requires OffersWellFormed(offers)
    requires Watching(Stream(NewReducer(manifest, maxCases, maxDetails), offers))
    requires Accepted(NewReducer(manifest, maxCases, maxDetails), offers) != []
    ensures var e := Stream(NewReducer(manifest, maxCases, maxDetails), offers);
            var os := Accepted(NewReducer(manifest, maxCases, maxDetails), offers);
            && e.boundary.Some?
            && exists calls :: IsWatchedRun(e.boundary.value, os, calls)
                               && TellsTheRun(e.counts, e.details, maxDetails,
                                              Runs.Trace(e.boundary.value.initial, calls))
  {
    var empty := NewReducer(manifest, maxCases, maxDetails);
    BoundTotalsAreNetChange(manifest, maxCases, maxDetails, offers);
    ReducerIsBatchFold(manifest, maxCases, maxDetails, offers);
    CasesReport(empty, offers);
    hide Stream, Accepted, Ingest, Runs.Run, Reports, TellsTheRun, OfferWellFormed, AllChains, TotalTally;
    var e, os := Stream(empty, offers), Accepted(empty, offers);
    var calls :| IsWatchedRun(e.boundary.value, os, calls);
    FoldTellsTheRun(os);
    assert SealsOf(os) == Runs.Trace(e.boundary.value.initial, calls);
    KeptDetailsTell(TotalCounts(os), Failures(os), maxDetails, SealsOf(os));
  }

  lemma KeptDetailsTell(counts: Counts, failures: seq<FailureDetail>, max: nat, trace: seq<Receipt>)
    requires TellsAll(failures, trace)
    requires var at := RejectedAt(trace); counts == Counts(|trace|, |trace| - |at|, 0, |at|)
    ensures TellsTheRun(counts, FirstN(failures, max), max, trace)
  {
    hide RejectedAt, Details;
  }
}

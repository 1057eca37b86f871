/** The native evidence reducer, updated in place through a working copy, proved against the ingestion function. */
module NativeEvidence {
  import opened Common
  import opened LeaseRecords
  import opened ReadRuntime
  import opened Evidence

  class EvidenceCore {
    var chains: Chains
    var allBound: bool
    const manifest: map<string, Authorization>
    var counts: Counts
    var caseRecords: nat
    var childReceipts: nat
    var tally: Tally
    var details: seq<FailureDetail>
    var firstFailure: Option<nat>
    const maxCases: nat
    const maxDetails: nat
    var observed: set<string>
    var boundary: Option<Boundary>
    var sealed: bool

    function State(): Reducer
      reads this
    {
      Reducer(chains, allBound, manifest, counts, caseRecords, childReceipts, tally,
              details, firstFailure, maxCases, maxDetails, observed, boundary, sealed)
    }

    constructor (e: Reducer)
      ensures State() == e
    {
      chains, allBound, manifest, counts, caseRecords := e.chains, e.allBound, e.manifest, e.counts, e.caseRecords;
      childReceipts, tally, details, firstFailure := e.childReceipts, e.tally, e.details, e.firstFailure;
      maxCases, maxDetails, observed, boundary, sealed := e.maxCases, e.maxDetails, e.observed, e.boundary, e.sealed;
    }

    /** A fresh reducer, when both bounds are within the protocol's. */
    static method Create(manifest: map<string, Authorization>, maxCases: nat, maxDetails: nat)
      returns (r: Result<EvidenceCore, EvidenceError>)
      ensures r.Success? <==> 0 < maxCases <= MAX_EVIDENCE_CASES && 0 < maxDetails <= MAX_FAILURE_DETAILS
      ensures r.Success? ==> fresh(r.value) && r.value.State() == NewReducer(manifest, maxCases, maxDetails)
    {
      if maxCases == 0 || maxCases > MAX_EVIDENCE_CASES || maxDetails == 0 || maxDetails > MAX_FAILURE_DETAILS {
        return Failure(LimitOutOfBounds);
      }
      var core := new EvidenceCore(NewReducer(manifest, maxCases, maxDetails));
      return Success(core);
    }

    /** The working copy of one ingestion. */
    method Clone() returns (c: EvidenceCore)
      ensures fresh(c) && c.State() == State()
    {
      c := new EvidenceCore(State());
    }

    /** Replace this reducer by its working copy. */
    method Adopt(c: EvidenceCore)
      requires c != this && c.manifest == manifest && c.maxCases == maxCases && c.maxDetails == maxDetails
      modifies this
      ensures State() == c.State()
    {
      var copy := c.State();
      chains, allBound, counts, caseRecords := copy.chains, copy.allBound, copy.counts, copy.caseRecords;
      childReceipts, tally, details, firstFailure := copy.childReceipts, copy.tally, copy.details, copy.firstFailure;
      observed, boundary, sealed := copy.observed, copy.boundary, copy.sealed;
    }

    /** Extend the watched stretch by one source; the boundary is untouched when it refuses. */
    method ExtendBoundary(c: Case) returns (r: Option<EvidenceError>)
      modifies this`boundary
      ensures match BoundaryAfter(old(boundary), c)
              case Success(b) => r.None? && boundary == b
              case Failure(x) => r == Some(x) && boundary == old(boundary)
    {
      if c.source.None? {
        return None;
      }
      var s := c.source.value;
      if s.receipt != c.receiptId {
        return Some(SourceMismatch);
      }
      if boundary.Some? {
        var b := boundary.value;
        if b.session != s.session || b.final != s.prior {
          return Some(ContinuityBroken);
        }
        boundary := Some(b.(final := s.resulting, last := s.receipt));
      } else {
        boundary := Some(Boundary(s.prior, s.resulting, s.receipt, s.receipt, s.session));
      }
      return None;
    }

    method NoteFailure(c: Case)
      modifies this`firstFailure, this`details
      ensures firstFailure == if c.failure.Some? && old(firstFailure).None? then Some(counts.total)
        else old(firstFailure)
      ensures details == if c.failure.Some? && |old(details)| < maxDetails
                         then old(details) +
                              [FailureDetail(c.caseId, counts.total, c.failure.value, c.receiptId, c.status)]
                         else old(details)
    {
      if c.failure.Some? {
        if firstFailure.None? {
          firstFailure := Some(counts.total);
        }
        if |details| < maxDetails {
          details := details + [FailureDetail(c.caseId, counts.total, c.failure.value, c.receiptId, c.status)];
        }
      }
    }

    /** Fold one case in place; a refusal may leave this working copy half updated. */
    method FoldCase(c: Case) returns (r: Option<EvidenceError>)
      modifies this
      ensures match IngestCase(old(State()), c)
              case Success(n) => r.None? && State() == n
              case Failure(x) => r == Some(x)
    {
      hide CountsPlus, TallyPlus, CountsFit, TallyFits, OneCase, LinkAll, BoundaryAfter;
      var ordinal := caseRecords + childReceipts;
      var nextCounts, nextTally := CountsPlus(counts, OneCase(c.status)), TallyPlus(tally, c.tally);
      if !CountsFit(nextCounts) {
        return Some(CounterOverflow);
      }
      if nextCounts.total > maxCases {
        return Some(CaseBound);
      }
      if !TallyFits(nextTally) {
        return Some(CounterOverflow);
      }
      r := ExtendBoundary(c);
      if r.Some? {
        return;
      }
      NoteFailure(c);
      Count(nextCounts, nextTally,
            LinkAll(chains, ordinal, false, c.inputId, OfAction(c.admission), c.resultId, c.receiptId));
    }

    /** One more case record, under the new counts, totals and chains. */
    method Count(nextCounts: Counts, nextTally: Tally, nextChains: Chains)
      modifies this`counts, this`tally, this`caseRecords, this`chains
      ensures State() == old(State()).(counts := nextCounts, tally := nextTally, chains := nextChains,
                                       caseRecords := old(caseRecords) + 1)
    {
      counts, tally, chains, caseRecords := nextCounts, nextTally, nextChains, caseRecords + 1;
    }

    method FoldChild(c: Child) returns (r: Option<EvidenceError>)
      modifies this
      ensures match IngestChildItem(old(State()), c)
              case Success(n) => r.None? && State() == n
              case Failure(x) => r == Some(x)
    {
      hide CountsPlus, TallyPlus, CountsFit, TallyFits, LinkAll;
      if !c.sameAuthority {
        return Some(ChildAuthority);
      }
      if !c.sameManifest {
        return Some(ChildManifest);
      }
      if !c.noFailures {
        return Some(ChildFailed);
      }
      var ordinal := caseRecords + childReceipts;
      var nextCounts, nextTally := CountsPlus(counts, c.counts), TallyPlus(tally, c.tally);
      if !CountsFit(nextCounts) {
        return Some(CounterOverflow);
      }
      if nextCounts.total > maxCases {
        return Some(CaseBound);
      }
      if !TallyFits(nextTally) {
        return Some(CounterOverflow);
      }
      counts, tally, childReceipts, observed := nextCounts, nextTally, childReceipts + 1, manifest.Keys;
      chains := LinkAll(chains, ordinal, true, OfChain(c.inputs), OfChain(c.admissions), OfChain(c.results),
                        OfChain(c.receipts));
      return None;
    }

    /** An accepted offer moves the reducer exactly as `Ingest` says; a refused one changes nothing at all. */
    method IngestStructural(c: Case) returns (r: Option<EvidenceError>)
      modifies this
      ensures match Ingest(old(State()), Structural(c))
              case Success(n) => r.None? && State() == n
              case Failure(x) => r == Some(x) && State() == old(State())
    {
      if sealed {
        return Some(SealedAlready);
      }
      if c.source.Some? {
        return Some(NotStructural);
      }
      var candidate := Clone();
      candidate.allBound := false;
      r := candidate.FoldCase(c);
      if r.None? {
        Adopt(candidate);
      }
    }

    method IngestRuntime(c: Case, seal: Receipt) returns (r: Option<EvidenceError>)
      modifies this
      ensures match Ingest(old(State()), Runtime(c, seal))
              case Success(n) => r.None? && State() == n
              case Failure(x) => r == Some(x) && State() == old(State())
    {
      if sealed {
        return Some(SealedAlready);
      }
      if !SealValidates(seal, c) {
        return Some(SealMismatch);
      }
      if c.admission !in manifest {
        return Some(NotInManifest);
      }
      if !AuthorizationMatches(manifest[c.admission], seal) {
        return Some(ManifestMismatch);
      }
      if HitReceipt(seal) && c.admission !in observed {
        return Some(HitWithoutCold);
      }
      var candidate := Clone();
      if ColdAccepted(seal) {
        candidate.observed := candidate.observed + {c.admission};
      }
      r := candidate.FoldCase(c);
      if r.None? {
        Adopt(candidate);
      }
    }

    method IngestChild(c: Child, sealMatches: bool, sourceBound: bool) returns (r: Option<EvidenceError>)
      modifies this
      ensures match Ingest(old(State()), ChildOffer(c, sealMatches, sourceBound))
              case Success(n) => r.None? && State() == n
              case Failure(x) => r == Some(x) && State() == old(State())
    {
      if sealed {
        return Some(SealedAlready);
      }
      if !sourceBound {
        return Some(UnboundChild);
      }
      if !sealMatches {
        return Some(SealMismatch);
      }
      var candidate := Clone();
      r := candidate.FoldChild(c);
      if r.None? {
        Adopt(candidate);
      }
    }

    method Seal() returns (r: Option<EvidenceError>)
      modifies this`sealed
      ensures match Summarize(old(State()))
              case Success(n) => r.None? && State() == n
              case Failure(x) => r == Some(x) && State() == old(State())
    {
      if sealed {
        return None;
      }
      if counts.total == 0 {
        return Some(NoCases);
      }
      if allBound && |observed| != |manifest| {
        return Some(CoverageMissing);
      }
      sealed := true;
      return None;
    }
  }
}

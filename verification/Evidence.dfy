/**
 * The compact evidence reducer: a stream of structural cases, sealed runtime receipts and sealed child
 * receipts folded into counts, totals, identity chains and a bounded prefix of failure details.
 */
module Evidence {
  import opened Common
  import opened LeaseRecords
  import opened ReadRuntime

  const MAX_EVIDENCE_CASES := 1_000_000
  const MAX_FAILURE_DETAILS := 32

  datatype CaseStatus = Passed | CaseFailed | Rejected

  datatype Tally = Tally(
    requests: nat, executions: nat, cacheHits: nat, retries: nat, mutations: nat, violations: nat,
    canonicalMismatches: nat, receiptMismatches: nat)

  const ZERO_TALLY := Tally(0, 0, 0, 0, 0, 0, 0, 0)

  datatype Counts = Counts(total: nat, passed: nat, failed: nat, rejected: nat)

  /** A hash chain, as the chain it covers. */
  datatype Chain = Seed | Link(prior: Chain, ordinal: nat, isChild: bool, identity: Identity)

  /** The four running identities of a reducer. */
  datatype Chains = Chains(inputs: Chain, admissions: Chain, results: Chain, receipts: Chain)

  datatype Identity =
    | OfCommand(command: Command, prior: RuntimeState)
    | OfReceipt(receipt: Receipt)
    | OfTransition(transition: Transition)
    | OfState(state: RuntimeState)
    | OfAction(action: string)
    | OfChain(chain: Chain)
    | Named(name: string)

  datatype Detail = RuntimeRejection(reason: Reason, state: RuntimeState) | OtherDetail(text: string)
  datatype FailureInfo = FailureInfo(reason: Option<Reason>, code: string, detail: Detail)
  datatype Source = Source(prior: RuntimeState, resulting: RuntimeState, receipt: Identity, session: string)

  datatype Case = Case(
    admission: string, caseId: Identity, inputId: Identity, resultId: Identity, receiptId: Identity, tally: Tally,
    failure: Option<FailureInfo>, source: Option<Source>, status: CaseStatus)

  datatype Child = Child(
    inputs: Chain, admissions: Chain, results: Chain, receipts: Chain, counts: Counts, tally: Tally,
    sameAuthority: bool, sameManifest: bool, noFailures: bool)

  datatype Item = CaseItem(item: Case) | ChildItem(child: Child)

  datatype Authorization = Authorization(arguments: string, dependency: string, tool: string, cacheReuse: bool)

  datatype FailureDetail = FailureDetail(caseId: Identity, index: nat, info: FailureInfo, receiptId: Identity,
                                         status: CaseStatus)

  datatype Boundary = Boundary(initial: RuntimeState, final: RuntimeState, first: Identity, last: Identity,
                               session: string)

  datatype Reducer = Reducer(
    chains: Chains, allBound: bool, manifest: map<string, Authorization>,
    counts: Counts, caseRecords: nat, childReceipts: nat, tally: Tally, details: seq<FailureDetail>,
    firstFailure: Option<nat>, maxCases: nat, maxDetails: nat, observed: set<string>, boundary: Option<Boundary>,
    sealed: bool)

  datatype EvidenceError =
    | SealedAlready | NotStructural | SealMismatch | NotInManifest | ManifestMismatch | HitWithoutCold | UnboundChild
    | CounterOverflow | CaseBound | SourceMismatch | ContinuityBroken | ChildAuthority | ChildManifest | ChildFailed
    | NoCases | CoverageMissing | LimitOutOfBounds

  // ----- Schema guarantees of the item parsers -----

  predicate CaseWellFormed(c: Case) {
    && (c.failure.Some? <==> !c.status.Passed?)
    && (c.status.Passed? ==> c.tally.violations == c.tally.canonicalMismatches == c.tally.receiptMismatches == 0)
  }

  predicate ChildWellFormed(c: Child) {
    && c.counts.total > 0 && c.counts.total == c.counts.passed + c.counts.failed + c.counts.rejected
    && (c.noFailures <==> c.counts.failed == c.counts.rejected == 0)
  }

  // ----- Checked sums -----

  function TallyPlus(a: Tally, b: Tally): Tally {
    Tally(a.requests + b.requests, a.executions + b.executions, a.cacheHits + b.cacheHits, a.retries + b.retries,
          a.mutations + b.mutations, a.violations + b.violations, a.canonicalMismatches + b.canonicalMismatches,
          a.receiptMismatches + b.receiptMismatches)
  }

  predicate TallyFits(t: Tally) {
    && t.requests <= U64_MAX && t.executions <= U64_MAX && t.cacheHits <= U64_MAX && t.retries <= U64_MAX
    && t.mutations <= U64_MAX && t.violations <= U64_MAX && t.canonicalMismatches <= U64_MAX
    && t.receiptMismatches <= U64_MAX
  }

  function CountsPlus(a: Counts, b: Counts): Counts {
    Counts(a.total + b.total, a.passed + b.passed, a.failed + b.failed, a.rejected + b.rejected)
  }

  /** `EvidenceCaseCounts::checked_add`, including its consistency check. */
  predicate CountsFit(c: Counts) {
    && c.total <= U64_MAX && c.passed <= U64_MAX && c.failed <= U64_MAX && c.rejected <= U64_MAX
    && c.passed + c.failed + c.rejected <= U64_MAX && c.total == c.passed + c.failed + c.rejected
  }

  function OneCase(s: CaseStatus): Counts {
    match s
    case Passed => Counts(1, 1, 0, 0)
    case CaseFailed => Counts(1, 0, 1, 0)
    case Rejected => Counts(1, 0, 0, 1)
  }

  // ----- The runtime receipt seal -----

  function AdmissionOf(r: Receipt): Option<string> {
    match r.command
    case ExecuteRead(admission, _) => Some(admission)
    case RecordRetry(admission) => Some(admission)
    case _ => None
  }

  function SealTally(r: Receipt): Tally
    requires r.CallReceipt?
  {
    Tally(r.delta.requests, r.delta.executions, r.delta.cacheHits, r.delta.retries, 0, 0, 0, 0)
  }

  function ResultIdentity(r: Receipt): Identity
    requires r.CallReceipt?
  {
    match r.transition case Some(t) => OfTransition(t) case None => OfState(r.after)
  }

  /** `from_outcome` and `validates_case`: the case repeats exactly what the sealed receipt says. */
  predicate SealValidates(r: Receipt, c: Case) {
    && r.CallReceipt? && AdmissionOf(r).Some? && c.source.Some?
    && c.admission == AdmissionOf(r).value
    && c.caseId == OfCommand(r.command, r.before) && c.inputId == OfCommand(r.command, r.before)
    && c.resultId == ResultIdentity(r) && c.receiptId == OfReceipt(r)
    && c.source.value == Source(r.before, r.after, OfReceipt(r), r.before.session)
    && c.tally == SealTally(r)
    && match (r.rejection, c.failure)
       case (None, None) => c.status.Passed?
       case (Some(why), Some(f)) =>
         c.status.Rejected? && f.reason == Some(why) && f.detail == RuntimeRejection(why, r.after)
       case _ => false
  }

  predicate AuthorizationMatches(a: Authorization, r: Receipt) {
    r.CallReceipt? &&
    match r.command
    case ExecuteRead(_, key) =>
      && key.arguments == a.arguments && key.dependency == a.dependency && key.tool == a.tool
      && (a.cacheReuse || r.cacheStatus != Some(CacheHit))
    case RecordRetry(_) => true
    case _ => false
  }

  predicate ColdAccepted(r: Receipt) {
    r.CallReceipt? && r.command.ExecuteRead? && r.rejection.None? && r.cacheStatus == Some(ColdExecution)
  }

  predicate HitReceipt(r: Receipt) {
    r.CallReceipt? && r.command.ExecuteRead? && r.cacheStatus == Some(CacheHit)
  }

  // ----- Ingestion -----

  function LinkAll(
    c: Chains, ordinal: nat, isChild: bool, input: Identity, admission: Identity, result: Identity,
    receipt: Identity): Chains
  {
    Chains(Link(c.inputs, ordinal, isChild, input), Link(c.admissions, ordinal, isChild, admission),
           Link(c.results, ordinal, isChild, result), Link(c.receipts, ordinal, isChild, receipt))
  }

  /** The boundary after one case: started, extended without a gap, or left alone by a case with no source. */
  function BoundaryAfter(b: Option<Boundary>, c: Case): Result<Option<Boundary>, EvidenceError> {
    if c.source.None? then Success(b)
    else
      var s := c.source.value;
      if s.receipt != c.receiptId then Failure(SourceMismatch)
      else if b.None? then Success(Some(Boundary(s.prior, s.resulting, s.receipt, s.receipt, s.session)))
      else if b.value.session != s.session || b.value.final != s.prior then Failure(ContinuityBroken)
      else Success(Some(b.value.(final := s.resulting, last := s.receipt)))
  }

  function IngestCase(e: Reducer, c: Case): Result<Reducer, EvidenceError> {
    var counts, tally := CountsPlus(e.counts, OneCase(c.status)), TallyPlus(e.tally, c.tally);
    var ordinal := e.caseRecords + e.childReceipts;
    if !CountsFit(counts) then Failure(CounterOverflow)
    else if counts.total > e.maxCases then Failure(CaseBound)
    else if !TallyFits(tally) then Failure(CounterOverflow)
    else
      var boundary :- BoundaryAfter(e.boundary, c);
      Success(e.(counts := counts, tally := tally, caseRecords := e.caseRecords + 1, boundary := boundary,
                 firstFailure := if c.failure.Some? && e.firstFailure.None? then Some(e.counts.total)
                   else e.firstFailure,
                 details := if c.failure.Some? && |e.details| < e.maxDetails
                            then e.details +
                                 [FailureDetail(c.caseId, e.counts.total, c.failure.value, c.receiptId, c.status)]
                            else e.details,
                 chains := LinkAll(e.chains, ordinal, false, c.inputId, OfAction(c.admission), c.resultId,
                                   c.receiptId)))
  }

  function IngestChildItem(e: Reducer, c: Child): Result<Reducer, EvidenceError> {
    var counts, tally := CountsPlus(e.counts, c.counts), TallyPlus(e.tally, c.tally);
    var ordinal := e.caseRecords + e.childReceipts;
    if !c.sameAuthority then Failure(ChildAuthority)
    else if !c.sameManifest then Failure(ChildManifest)
    else if !c.noFailures then Failure(ChildFailed)
    else if !CountsFit(counts) then Failure(CounterOverflow)
    else if counts.total > e.maxCases then Failure(CaseBound)
    else if !TallyFits(tally) then Failure(CounterOverflow)
    else
      Success(e.(counts := counts, tally := tally, childReceipts := e.childReceipts + 1, observed := e.manifest.Keys,
                 chains := LinkAll(e.chains, ordinal, true, OfChain(c.inputs), OfChain(c.admissions),
                                   OfChain(c.results), OfChain(c.receipts))))
  }

  /** What a caller offers: a bare case, a case with a runtime seal, or a child with its seal's standing. */
  datatype Offer =
    | Structural(item: Case)
    | Runtime(item: Case, seal: Receipt)
    | ChildOffer(child: Child, sealMatches: bool, sourceBound: bool)

  function ItemOf(o: Offer): Item {
    match o
    case Structural(c) => CaseItem(c)
    case Runtime(c, _) => CaseItem(c)
    case ChildOffer(c, _, _) => ChildItem(c)
  }

  function Ingest(e: Reducer, o: Offer): Result<Reducer, EvidenceError> {
    if e.sealed then Failure(SealedAlready)
    else
      match o
      case Structural(c) =>
        if c.source.Some? then Failure(NotStructural) else IngestCase(e.(allBound := false), c)
      case Runtime(c, seal) =>
        if !SealValidates(seal, c) then Failure(SealMismatch)
        else if c.admission !in e.manifest then Failure(NotInManifest)
        else if !AuthorizationMatches(e.manifest[c.admission], seal) then Failure(ManifestMismatch)
        else if HitReceipt(seal) && c.admission !in e.observed then Failure(HitWithoutCold)
        else IngestCase(e.(observed := if ColdAccepted(seal) then e.observed + {c.admission} else e.observed), c)
      case ChildOffer(c, sealMatches, sourceBound) =>
        if !sourceBound then Failure(UnboundChild)
        else if !sealMatches then Failure(SealMismatch)
        else IngestChildItem(e, c)
  }

  /** `aggregate_summary`: seal the stream, if it has a case and, when source-bound, full coverage. */
  function Summarize(e: Reducer): Result<Reducer, EvidenceError> {
    if e.sealed then Success(e)
    else if e.counts.total == 0 then Failure(NoCases)
    else if e.allBound && |e.observed| != |e.manifest| then Failure(CoverageMissing)
    else Success(e.(sealed := true))
  }

  function NewReducer(manifest: map<string, Authorization>, maxCases: nat, maxDetails: nat): Reducer {
    Reducer(Chains(Seed, Seed, Seed, Seed), true, manifest, Counts(0, 0, 0, 0), 0, 0, ZERO_TALLY, [], None,
            maxCases, maxDetails, {}, None, false)
  }
}

/** The rows, artifacts and enumerations of the Body store, and the database as one value. */
module BodyModel {
  import opened Prelude
  import opened Ledger

  newtype Byte = x: int | 0 <= x < 256
  type Bytes = seq<Byte>

  /** SHA-256, taken to be injective: a digest is its preimage. */
  datatype Digest = Sha256(preimage: Bytes)

  const PDF_SIGNATURE: Bytes := [0x25, 0x50, 0x44, 0x46, 0x2D]

  predicate PdfShaped(raw: Bytes) {
    |raw| >= 1024 && raw[..5] == PDF_SIGNATURE
  }

  predicate ValidPdfBytes(raw: Bytes, expected: Digest) {
    PdfShaped(raw) && Sha256(raw) == expected
  }

  /** The part of a configuration snapshot that decides an extraction. */
  datatype Semantics = Semantics(backend: string, configHash: string, modelsHash: string)

  /** The digest of the extraction stage input: it determines the PDF and the semantics. */
  datatype Fingerprint = Fingerprint(pdf: Digest, semantics: Semantics)

  datatype Identity = Identity(fingerprint: Fingerprint, reading: Digest, evidenceMap: Digest)

  /** How an executor was configured; the limits are not part of the semantics. */
  datatype Audit = Audit(semantics: Semantics, timeout: nat, memoryLimit: nat, threads: nat) {
    predicate Matches(expected: Semantics) { semantics == expected }
  }

  datatype Manifest = Manifest(identity: Identity, configHash: string, modelsHash: string,
                               elapsed: int, peak: int, audit: Option<Audit>)

  datatype QualityFailure =
    | PdfTextLayer | BodyBoundary | ReadingOrder | EvidenceReplay | ContentIdentity
    | LayoutReview | RepresentativeCoverage | SourceGeneratedSeparation | EmbeddedBinary | TextIntegrity

  /** Content-addressed: an artifact's id is its content, and the issues are a function of the members. */
  datatype Artifact =
    | OriginalPdf(payload: Bytes)
    | Extraction(manifest: Manifest, issues: seq<QualityFailure>)

  datatype RootPurpose = Production | Experiment | UnknownPurpose

  /** The digest column is the preimage it was computed from. */
  datatype RootRow = RootRow(rootId: string, purpose: RootPurpose, at: int, digest: (string, RootPurpose, int))

  datatype ScreeningResult = Accepted | Pending | Denied

  datatype ScreeningSource = DirectManualDecision | OtherSource

  /** `valid` says that the result, source and reason form a permitted combination. */
  datatype ReasonRecord = ReasonRecord(result: ScreeningResult, source: ScreeningSource, reason: string, valid: bool)

  /** Whether a request names a version: an empty text counts as none. */
  predicate NamesVersion(version: Option<string>) {
    version.Some? && version.value != ""
  }

  datatype PdfRequest = PdfRequest(paper: string, version: Option<string>, sha: Digest)
  datatype PdfBody = PdfBody(artifact: Artifact, sha: Digest, requestedVersion: Option<string>)
  type PdfRow = Entry<PdfRequest, PdfBody>

  datatype DecisionRequest = DecisionRequest(paper: string, record: ReasonRecord, actor: string, references: set<string>)
  datatype DecisionBody = DecisionBody(revision: int, record: ReasonRecord, actor: string, references: set<string>)
  type DecisionRow = Entry<DecisionRequest, DecisionBody>

  datatype SampleRequest = SampleRequest(paper: string, feed: string, sha: Digest, reason: string)
  datatype SampleBody = SampleBody(feed: string, sha: Digest, reason: string)
  type SampleRow = Entry<SampleRequest, SampleBody>

  datatype InputRow = InputRow(backend: string, sha: Digest, snapshot: string)

  datatype Failure = Timeout | ResourceExhausted | ExecutorError | OutcomeUnknown | NoTextLayer | QualityGate

  predicate Permanent(f: Option<Failure>) {
    f.Some? && f.value in {NoTextLayer, QualityGate}
  }

  datatype Attempt = Attempt(id: string, fingerprint: Fingerprint, backend: string, ordinal: int, claimedAt: int,
                             audit: Option<Audit>)

  /** The three columns that are null together. */
  datatype Published = Published(artifact: Artifact, reading: Digest, evidenceMap: Digest)

  datatype Outcome = Outcome(failure: Option<Failure>, published: Option<Published>, flaw: Option<QualityFailure>,
                             elapsed: int, peak: int, settledAt: int)

  datatype ReviewRequest = ReviewRequest(identity: Identity, passed: bool, checks: map<string, bool>, note: string,
                                         actor: string)
  datatype ReviewRow = ReviewRow(id: string, requestId: string, request: ReviewRequest, identity: Identity,
                                 passed: bool, checks: map<string, bool>, note: string, actor: string, at: int)

  const LAYOUT_CHECKS: set<string> :=
    {"body_boundary", "reading_order", "sections", "headers_footers", "provenance", "restricted_content"}

  predicate AllPassed(checks: map<string, bool>) {
    forall c :: c in checks ==> checks[c]
  }

  /** What the paper tables say about one paper. */
  datatype Paper = Paper(versions: set<string>, current: string, revision: int, discoveries: set<(string, string)>)

  predicate PaperOk(p: Paper) {
    p.current in p.versions && p.revision >= 1
  }

  datatype ExecutorKind = TestExecutor | PiRpc
  datatype Screening = Screening(paper: string, kind: ExecutorKind)

  datatype Db = Db(
    papers: map<string, Paper>, screenings: map<string, Screening>, snapshots: map<string, Semantics>,
    store: set<Artifact>,
    roots: seq<RootRow>, decisions: seq<DecisionRow>, pdfs: seq<PdfRow>, samples: seq<SampleRow>,
    inputs: map<Fingerprint, InputRow>, attempts: seq<Attempt>, outcomes: map<string, Outcome>,
    successes: map<Fingerprint, string>, reviews: seq<ReviewRow>)

  const EMPTY_DB := Db(map[], map[], map[], {}, [], [], [], [], map[], [], map[], map[], [])

  datatype Reason =
    | RootConflict | InvalidRequest | RequestConflict | InvalidPdf | VersionMismatch | PdfAbsent | FactsChanged
    | SourceRequiresDedicatedPath | ScreeningMismatch | SampleMismatch | RootUnknown | DecisionNotAccepted
    | ExecutionSourceUnknown | TestExecutionSource | ExtractionAbsent | ExtractionFailed | QualityAbsent | QualityFailed
    | OrdinaryConsumptionDenied | LayoutConflict | CorruptReference | DatabaseFailed
    | PaperUnknown // raised by the paper tables

  type Reply<T> = Result<T, Reason>

  /** A transaction: what it commits (unchanged when it fails) and what it answers. */
  datatype Tx<T> = Tx(db: Db, reply: Reply<T>)

  ghost predicate PaperGrows(p: Paper, q: Paper) {
    p.versions <= q.versions && p.discoveries <= q.discoveries
  }

  /** Everything the store promises never to forget or rewrite. */
  ghost predicate Grows(a: Db, b: Db) {
    && (forall p :: p in a.papers ==> p in b.papers && PaperGrows(a.papers[p], b.papers[p]))
    && (forall k :: k in a.screenings ==> k in b.screenings && b.screenings[k] == a.screenings[k])
    && (forall k :: k in a.snapshots ==> k in b.snapshots && b.snapshots[k] == a.snapshots[k])
    && a.store <= b.store
    && a.roots <= b.roots && a.decisions <= b.decisions && a.pdfs <= b.pdfs && a.samples <= b.samples
    && (forall f :: f in a.inputs ==> f in b.inputs && b.inputs[f] == a.inputs[f])
    && a.attempts <= b.attempts
    && (forall k :: k in a.outcomes ==> k in b.outcomes && b.outcomes[k] == a.outcomes[k])
    && (forall f :: f in a.successes ==> f in b.successes && b.successes[f] == a.successes[f])
    && a.reviews <= b.reviews
  }

  lemma GrowsTransitive(a: Db, b: Db, c: Db)
    requires Grows(a, b) && Grows(b, c)
    ensures Grows(a, c)
  {
    forall p | p in a.papers ensures p in c.papers && PaperGrows(a.papers[p], c.papers[p]) {
      assert p in b.papers && PaperGrows(a.papers[p], b.papers[p]);
    }
  }
}

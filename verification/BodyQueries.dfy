/** The read-only queries over the Body tables, as functions of the database value. */
module BodyQueries {
  import opened Prelude
  import opened Ledger
  import opened BodyModel

  datatype Root = Root(rootId: Option<string>, purpose: RootPurpose, at: Option<int>)

  function RootFact(db: Db): Root {
    if |db.roots| != 1 || db.roots[0].digest != (db.roots[0].rootId, db.roots[0].purpose, db.roots[0].at)
    then Root(None, UnknownPurpose, None)
    else Root(Some(db.roots[0].rootId), db.roots[0].purpose, Some(db.roots[0].at))
  }

  function CurrentPdf(db: Db, paper: string, version: string): Option<PdfRow> {
    Latest(db.pdfs, paper, Some(version))
  }

  // ----- decisions ------------------------------------------------------------------------------

  predicate DirectAndValid(r: ReasonRecord) {
    r.valid && r.source.DirectManualDecision?
  }

  function DecisionEvents(db: Db, paper: string): Reply<seq<DecisionRow>> {
    if paper !in db.papers then Err(PaperUnknown) else
      var events := InSequence(db.decisions, paper);
      if (exists i :: 0 <= i < |events| && !DirectAndValid(events[i].body.record))
         || (exists i, j :: 0 <= i < j < |events| && events[i].sequence == events[j].sequence)
      then Err(CorruptReference)
      else Ok(events)
  }

  datatype ExecutionSource = ProductionSource | TestSource | UnknownSource

  predicate ReferencesOk(db: Db, paper: string, references: set<string>) {
    forall r :: r in references ==> r in db.screenings && db.screenings[r].paper == paper
  }

  function ExecutionSourceOf(db: Db, paper: string, decision: Option<DecisionRow>): Reply<ExecutionSource> {
    if decision.None? || decision.value.body.references == {} then Ok(UnknownSource)
    else if !ReferencesOk(db, paper, decision.value.body.references) then Err(CorruptReference)
    else if exists r :: r in decision.value.body.references && db.screenings[r].kind.TestExecutor? then Ok(TestSource)
    else Ok(ProductionSource)
  }

  // ----- extraction -----------------------------------------------------------------------------

  /** One attempt joined with its outcome, if it was settled. */
  datatype Joined = Joined(attempt: Attempt, outcome: Option<Outcome>)

  function FailureOf(j: Joined): Option<Failure> {
    if j.outcome.Some? then j.outcome.value.failure else None
  }

  function PublishedOf(j: Joined): Option<Published> {
    if j.outcome.Some? then j.outcome.value.published else None
  }

  datatype Quality =
    | FormalGate | DocumentGate(gated: Artifact) | Failed(failed: Artifact, why: QualityFailure) | AbsentQuality
    | UnknownQuality

  datatype View = View(fingerprint: Fingerprint, backend: string, sha: Digest, attempts: seq<Joined>,
                       artifact: Option<Artifact>, identity: Option<Identity>, quality: Quality, permanent: bool)

  /** The rows of one fingerprint, in insertion order. */
  function AttemptsOf(attempts: seq<Attempt>, fp: Fingerprint): (r: seq<Attempt>)
    ensures forall a :: a in r <==> a in attempts && a.fingerprint == fp
  {
    if attempts == [] then [] else
      var last := attempts[|attempts| - 1];
      assert attempts == attempts[..|attempts| - 1] + [last];
      AttemptsOf(attempts[..|attempts| - 1], fp) + (if last.fingerprint == fp then [last] else [])
  }

  /** The row with this primary key. */
  function Lookup(attempts: seq<Attempt>, id: string): (r: Option<Attempt>)
    ensures r.Some? ==> r.value in attempts && r.value.id == id
    ensures r.None? ==> forall a :: a in attempts ==> a.id != id
  {
    if attempts == [] then None
    else if attempts[0].id == id then Some(attempts[0])
    else Lookup(attempts[1..], id)
  }

  /** `ORDER BY ordinal`. */
  function InOrdinalOrder(attempts: seq<Attempt>, fp: Fingerprint): seq<Attempt> {
    SortBy(AttemptsOf(attempts, fp), (a: Attempt) => a.ordinal)
  }

  function Join(a: Attempt, outcomes: map<string, Outcome>): Joined {
    Joined(a, if a.id in outcomes then Some(outcomes[a.id]) else None)
  }

  function JoinAll(rows: seq<Attempt>, outcomes: map<string, Outcome>): (r: seq<Joined>)
    ensures |r| == |rows| && forall i :: 0 <= i < |r| ==> r[i] == Join(rows[i], outcomes)
  {
    seq(|rows|, i requires 0 <= i < |rows| => Join(rows[i], outcomes))
  }

  function JoinedRows(db: Db, fp: Fingerprint): seq<Joined> {
    JoinAll(InOrdinalOrder(db.attempts, fp), db.outcomes)
  }

  /** The last row that published an artifact. */
  function LastPublished(rows: seq<Joined>): Option<Published> {
    if rows == [] then None
    else if PublishedOf(rows[|rows| - 1]).Some? then PublishedOf(rows[|rows| - 1])
    else LastPublished(rows[..|rows| - 1])
  }

  /** The quality recorded by the last row that published an artifact with a flaw. */
  function LastFlaw(rows: seq<Joined>): Quality {
    if rows == [] then AbsentQuality else
      var last := rows[|rows| - 1];
      if PublishedOf(last).Some? && last.outcome.value.flaw.Some?
      then Failed(last.outcome.value.published.value.artifact, last.outcome.value.flaw.value)
      else LastFlaw(rows[..|rows| - 1])
  }

  predicate AnyPermanent(rows: seq<Joined>) {
    exists i :: 0 <= i < |rows| && Permanent(FailureOf(rows[i]))
  }

  predicate Reviewed(reviews: seq<ReviewRow>, fp: Fingerprint) {
    exists i :: 0 <= i < |reviews| && reviews[i].identity.fingerprint == fp
  }

  predicate ReviewFailed(reviews: seq<ReviewRow>, fp: Fingerprint) {
    exists i :: 0 <= i < |reviews| && reviews[i].identity.fingerprint == fp && !reviews[i].passed
  }

  predicate ReviewsAgree(reviews: seq<ReviewRow>, identity: Identity) {
    forall i :: 0 <= i < |reviews| && reviews[i].identity.fingerprint == identity.fingerprint
      ==> reviews[i].identity == identity
  }

  /** The success row points at the last attempt, that attempt did not fail, and something was published. */
  predicate SuccessCoherent(rows: seq<Joined>, success: string, published: Option<Published>) {
    rows != [] && rows[|rows| - 1].attempt.id == success && FailureOf(rows[|rows| - 1]).None? && published.Some?
  }

  function ExtractionView(db: Db, fp: Fingerprint): Reply<Option<View>> {
    if fp !in db.inputs then Ok(None) else
      var rows := JoinedRows(db, fp);
      var published := LastPublished(rows);
      var artifact := if published.Some? then Some(published.value.artifact) else None;
      var identity := if published.Some? then Some(Identity(fp, published.value.reading, published.value.evidenceMap))
                      else None;
      var succeeded := fp in db.successes;
      if succeeded && !SuccessCoherent(rows, db.successes[fp], published) then Err(CorruptReference)
      else if succeeded && !ReviewsAgree(db.reviews, identity.value) then Err(CorruptReference)
      else
        var failed := succeeded && ReviewFailed(db.reviews, fp);
        var quality := if failed then Failed(artifact.value, LayoutReview)
                       else if succeeded && Reviewed(db.reviews, fp) then DocumentGate(artifact.value)
                       else LastFlaw(rows);
        Ok(Some(View(fp, db.inputs[fp].backend, db.inputs[fp].sha, rows, artifact, identity, quality,
                     AnyPermanent(rows) || failed)))
  }

  datatype CurrentBody = CurrentBody(identity: Option<Identity>)

  /** Fingerprints of the successful extractions of one PDF. */
  function SuccessfulKeys(db: Db, sha: Digest): set<Fingerprint> {
    set f | f in db.successes && f in db.inputs && db.inputs[f].sha == sha
  }

  ghost function CurrentBodyOf(db: Db, paper: string): Reply<CurrentBody> {
    if paper !in db.papers then Err(PaperUnknown) else
      var pdf := CurrentPdf(db, paper, db.papers[paper].current);
      if pdf.None? then Ok(CurrentBody(None)) else
        var keys := SuccessfulKeys(db, pdf.value.body.sha);
        if |keys| != 1 then Ok(CurrentBody(None)) else
          var key :| key in keys;
          var view := ExtractionView(db, key);
          if view.Err? || view.value.None? || view.value.value.identity.None? then Err(CorruptReference)
          else Ok(CurrentBody(view.value.value.identity))
  }

  // ----- eligibility ----------------------------------------------------------------------------

  datatype Facts = Facts(paper: string, version: string, revision: int, root: Root, decision: Option<DecisionRow>,
                         source: ExecutionSource, pdf: Option<PdfRow>, extraction: Option<View>,
                         sample: Option<SampleRow>, reasons: set<Reason>) {
    predicate Eligible() { reasons == {} }
  }

  /** The decision in force: the latest one, when paper, version and references are all named. */
  function EffectiveDecision(paper: string, p: Paper, events: seq<DecisionRow>): Option<DecisionRow> {
    if paper == "" || p.current == "" || p.revision < 1 || events == []
       || (exists i :: 0 <= i < |events| && (events[i].id == "" || events[i].sequence < 0))
    then None
    else Some(events[|events| - 1])
  }

  /** What each reason for refusing a paper means, stated reason by reason. */
  predicate ReasonHolds(reason: Reason, root: Root, decision: Option<DecisionRow>, source: ExecutionSource,
                        pdf: Option<PdfRow>, extraction: Option<View>, body: Option<Identity>,
                        sample: Option<SampleRow>, identity: Option<Identity>, ordinary: bool)
  {
    match reason
    case DecisionNotAccepted => decision.None? || !decision.value.body.record.result.Accepted?
    case RootUnknown => root.purpose.UnknownPurpose?
    case ExecutionSourceUnknown => source.UnknownSource?
    case TestExecutionSource => source.TestSource?
    case PdfAbsent => pdf.None?
    case ExtractionAbsent => extraction.None?
    case FactsChanged =>
      extraction.Some? && (
        || (extraction.value.identity.Some? && body != extraction.value.identity)
        || (identity.Some? && extraction.value.identity != identity)
        || pdf.None? || pdf.value.body.sha != extraction.value.sha)
    case ExtractionFailed =>
      extraction.Some? && (
        || extraction.value.artifact.None?
        || (extraction.value.attempts != []
            && FailureOf(extraction.value.attempts[|extraction.value.attempts| - 1]).Some?))
    case QualityFailed => extraction.Some? && extraction.value.quality.Failed?
    case QualityAbsent =>
      extraction.None? || extraction.value.quality.AbsentQuality? || extraction.value.quality.UnknownQuality?
    case SampleMismatch =>
      root.purpose.Experiment? && (sample.None? || pdf.None? || sample.value.version != pdf.value.version
                                   || sample.value.body.sha != pdf.value.body.sha)
    case OrdinaryConsumptionDenied =>
      || (root.purpose.Experiment? && ordinary)
      || (root.purpose.Production? && extraction.Some? && extraction.value.quality.DocumentGate?)
    case _ => false
  }

  const REFUSALS: set<Reason> :=
    {DecisionNotAccepted, RootUnknown, ExecutionSourceUnknown, TestExecutionSource, PdfAbsent, ExtractionAbsent,
     FactsChanged, ExtractionFailed, QualityFailed, QualityAbsent, SampleMismatch, OrdinaryConsumptionDenied}

  function ReasonSet(root: Root, decision: Option<DecisionRow>, source: ExecutionSource, pdf: Option<PdfRow>,
                     extraction: Option<View>, body: Option<Identity>, sample: Option<SampleRow>,
                     identity: Option<Identity>, ordinary: bool): set<Reason>
  {
    set r | r in REFUSALS && ReasonHolds(r, root, decision, source, pdf, extraction, body, sample, identity, ordinary)
  }

  ghost function FactsOf(db: Db, paper: string, identity: Option<Identity>, fingerprint: Option<Fingerprint>,
                         ordinary: bool): Reply<Facts>
  {
    var events := DecisionEvents(db, paper);
    if events.Err? then Err(events.error) else
      var p := db.papers[paper];
      var chosen := EffectiveDecision(paper, p, events.value);
      var source := ExecutionSourceOf(db, paper, chosen);
      if source.Err? then Err(source.error) else
        var pdf := CurrentPdf(db, paper, p.current);
        var key := if identity.Some? then Some(identity.value.fingerprint) else fingerprint;
        var view := if key.Some? then ExtractionView(db, key.value) else Ok(None);
        if view.Err? then Err(view.error) else
          var needed := view.value.Some? && view.value.value.identity.Some?;
          var body := if needed then CurrentBodyOf(db, paper) else Ok(CurrentBody(None));
          if body.Err? then Err(body.error) else
            var sample := Latest(db.samples, paper, None);
            Ok(Facts(paper, p.current, p.revision, RootFact(db), chosen, source.value, pdf, view.value, sample,
                     ReasonSet(RootFact(db), chosen, source.value, pdf, view.value, body.value.identity, sample,
                               identity, ordinary)))
  }
}

/** The historical basis of a reading: recorded from eligible facts, and checked again ever after. */
module BodyReadBasis {
  import opened Prelude
  import opened Ledger
  import opened BodyModel
  import opened BodyQueries
  import opened BodyTransactions
  import opened BodyInvariant
  import opened BodyPreservation
  import opened ExtractionPreservation
  import opened BodyProtocol
  import opened BodySafety
  import opened BodyTheorems
  import opened BodyRequests
  import opened BodyEligibility

  // ----- the record and its encoding ------------------------------------------------------------

  /** A value of the stored dictionary: text, the text of an instant, or something that is not text at all. */
  datatype Cell = Text(text: string) | Instant(at: int) | NotText

  datatype ReadBasis = ReadBasis(rootId: Option<Cell>, purpose: Option<Cell>, decisionId: Option<Cell>,
                                 pdfId: Option<Cell>, sampleId: Option<Cell>, qualityBasis: Option<Cell>,
                                 reviewId: Option<Cell>, executionSource: Option<Cell>, recordedAt: Option<Cell>)

  const FIELDS: set<string> :=
    {"root_id", "purpose", "decision_id", "pdf_id", "sample_id", "quality_basis", "review_id", "execution_source",
     "recorded_at"}

  type Document = map<string, Option<Cell>>

  function Encode(b: ReadBasis): Document {
    map["root_id" := b.rootId, "purpose" := b.purpose, "decision_id" := b.decisionId, "pdf_id" := b.pdfId,
        "sample_id" := b.sampleId, "quality_basis" := b.qualityBasis, "review_id" := b.reviewId,
        "execution_source" := b.executionSource, "recorded_at" := b.recordedAt]
  }

  function Decode(d: Document): Reply<ReadBasis> {
    if d.Keys != FIELDS || (exists k :: k in d && d[k] == Some(NotText)) then Err(CorruptReference)
    else Ok(ReadBasis(d["root_id"], d["purpose"], d["decision_id"], d["pdf_id"], d["sample_id"], d["quality_basis"],
                      d["review_id"], d["execution_source"], d["recorded_at"]))
  }

  predicate OnlyText(b: ReadBasis) {
    && b.rootId != Some(NotText) && b.purpose != Some(NotText) && b.decisionId != Some(NotText)
    && b.pdfId != Some(NotText) && b.sampleId != Some(NotText) && b.qualityBasis != Some(NotText)
    && b.reviewId != Some(NotText) && b.executionSource != Some(NotText) && b.recordedAt != Some(NotText)
  }

  /** Decoding inverts encoding, in both directions, and refuses exactly what no record of texts encodes to. */
  lemma RoundTrip(b: ReadBasis, d: Document)
    ensures OnlyText(b) ==> Decode(Encode(b)) == Ok(b)
    ensures Decode(d).Ok? ==> OnlyText(Decode(d).value) && Encode(Decode(d).value) == d
    ensures Decode(d).Err? <==> forall r :: OnlyText(r) ==> Encode(r) != d
  {
    hide Encode;
    hide Decode;
    hide OnlyText;
    if OnlyText(b) { EncodedDecodes(b); }
    if Decode(d).Ok? { DecodedEncodes(d); }
    forall r | OnlyText(r) && Encode(r) == d ensures Decode(d).Ok? { EncodedDecodes(r); }
  }

  lemma EncodedDecodes(b: ReadBasis)
    requires OnlyText(b)
    ensures Decode(Encode(b)) == Ok(b)
  {
    assert Encode(b).Keys == FIELDS;
  }

  lemma DecodedEncodes(d: Document)
    requires Decode(d).Ok?
    ensures OnlyText(Decode(d).value) && Encode(Decode(d).value) == d
  {
    assert Encode(Decode(d).value).Keys == d.Keys;
  }

  // ----- recording and checking -----------------------------------------------------------------

  function PurposeText(p: RootPurpose): string {
    match p case Production => "production" case Experiment => "experiment" case UnknownPurpose => "unknown"
  }

  function SourceText(s: ExecutionSource): string {
    match s case ProductionSource => "production" case TestSource => "test" case UnknownSource => "unknown"
  }

  function QualityText(q: Quality): string {
    match q
    case FormalGate => "formal_gate"
    case DocumentGate(_) => "experiment_document_gate"
    case Failed(_, _) => "failed"
    case AbsentQuality => "absent"
    case UnknownQuality => "unknown"
  }

  function TextOf(o: Option<string>): Option<Cell> {
    if o.Some? then Some(Text(o.value)) else None
  }

  predicate Passing(r: ReviewRow, identity: Identity) {
    r.identity == identity && r.passed
  }

  /** What the query for the newest passing review may answer; ties are the database's choice. */
  ghost predicate NewestPassing(reviews: seq<ReviewRow>, identity: Identity, answer: Option<string>) {
    if answer.None? then forall r :: r in reviews ==> !Passing(r, identity)
    else exists n :: n in reviews && n.id == answer.value && Passing(n, identity)
                     && forall r :: r in reviews && Passing(r, identity) ==> r.at <= n.at
  }

  function FindReviewId(reviews: seq<ReviewRow>, id: string): (r: Option<ReviewRow>)
    ensures r.Some? ==> r.value in reviews && r.value.id == id
    ensures r.None? ==> forall e :: e in reviews ==> e.id != id
  {
    if reviews == [] then None
    else if reviews[0].id == id then Some(reviews[0])
    else FindReviewId(reviews[1..], id)
  }

  /** Looking a row up by a cell: anything but a text finds nothing. */
  function RowOf<Q, B>(rows: seq<Entry<Q, B>>, id: Option<Cell>): Option<Entry<Q, B>> {
    if id.Some? && id.value.Text? then FindId(rows, id.value.text) else None
  }

  function ReviewOf(reviews: seq<ReviewRow>, id: Option<Cell>): Option<ReviewRow> {
    if id.Some? && id.value.Text? then FindReviewId(reviews, id.value.text) else None
  }

  /** The root is the recorded one and the recorded decision was accepted on production screenings. */
  predicate RootAndDecisionHold(db: Db, paper: string, b: ReadBasis, events: seq<DecisionRow>) {
    var root, d := RootFact(db), RowOf(events, b.decisionId);
    && TextOf(root.rootId) == b.rootId && Some(Text(PurposeText(root.purpose))) == b.purpose
    && d.Some? && d.value.body.record.result.Accepted?
    && ExecutionSourceOf(db, paper, d).Ok?
    && Some(Text(SourceText(ExecutionSourceOf(db, paper, d).value))) == b.executionSource
    && b.executionSource == Some(Text("production"))
  }

  /** The recorded PDF is readable and is the one the identity was extracted from. */
  predicate PdfHolds(db: Db, paper: string, identity: Identity, b: ReadBasis, view: Option<View>) {
    var pdf := RowOf(db.pdfs, b.pdfId);
    && pdf.Some? && pdf.value.paper == paper
    && view.Some? && view.value.identity == Some(identity) && view.value.sha == pdf.value.body.sha
    && pdf.value.body.artifact in db.store && pdf.value.body.artifact.OriginalPdf?
    && ValidPdfBytes(pdf.value.body.artifact.payload, pdf.value.body.sha)
  }

  predicate SampleHolds(db: Db, paper: string, b: ReadBasis) {
    var pdf, sample := RowOf(db.pdfs, b.pdfId), RowOf(db.samples, b.sampleId);
    && pdf.Some? && sample.Some? && sample.value.paper == paper
    && sample.value.version == pdf.value.version && sample.value.body.sha == pdf.value.body.sha
  }

  /** The recorded quality: a passing review not newer than the record, or a formal gate in production. */
  predicate QualityHolds(db: Db, identity: Identity, b: ReadBasis, view: Option<View>) {
    if b.qualityBasis == Some(Text("experiment_document_gate")) then
      var review := ReviewOf(db.reviews, b.reviewId);
      && review.Some? && Passing(review.value, identity)
      && b.recordedAt.Some? && b.recordedAt.value.Instant? && review.value.at <= b.recordedAt.value.at
    else
      && b.qualityBasis == Some(Text("formal_gate")) && b.purpose == Some(Text("production"))
      && view.Some? && view.value.quality.FormalGate?
  }

  function Validate(db: Db, paper: string, identity: Identity, d: Document): Reply<()> {
    var b := Decode(d);
    if b.Err? then Err(b.error) else
      var events := DecisionEvents(db, paper);
      if events.Err? then Err(events.error) else
        var view := ExtractionView(db, identity.fingerprint);
        if view.Err? then Err(view.error)
        else if !RootAndDecisionHold(db, paper, b.value, events.value) then Err(CorruptReference)
        else if !PdfHolds(db, paper, identity, b.value, view.value) then Err(CorruptReference)
        else if b.value.purpose == Some(Text("experiment")) && !SampleHolds(db, paper, b.value) then Err(CorruptReference)
        else if !QualityHolds(db, identity, b.value, view.value) then Err(CorruptReference)
        else Ok(())
  }

  function BasisOf(facts: Facts, review: Option<string>, now: int): ReadBasis
    requires facts.extraction.Some? && facts.pdf.Some? && facts.decision.Some?
  {
    ReadBasis(TextOf(facts.root.rootId), Some(Text(PurposeText(facts.root.purpose))),
              Some(Text(facts.decision.value.id)), Some(Text(facts.pdf.value.id)),
              if facts.sample.Some? then Some(Text(facts.sample.value.id)) else None,
              Some(Text(QualityText(facts.extraction.value.quality))), TextOf(review),
              Some(Text(SourceText(facts.source))), Some(Instant(now)))
  }

  /** Recording a basis, given what the query for the newest passing review answered. */
  function Record(db: Db, facts: Facts, review: Option<string>, now: int): Reply<Document> {
    if !facts.Eligible() || facts.extraction.None? || facts.extraction.value.identity.None?
       || facts.pdf.None? || facts.decision.None?
    then Err(CorruptReference)
    else
      var d := Encode(BasisOf(facts, review, now));
      var checked := Validate(db, facts.paper, facts.extraction.value.identity.value, d);
      if checked.Err? then Err(checked.error) else Ok(d)
  }

  // ----- once valid, always valid ---------------------------------------------------------------

  lemma {:induction false} FindReviewIdSurvives(reviews: seq<ReviewRow>, later: seq<ReviewRow>, id: string)
    requires reviews <= later && FindReviewId(reviews, id).Some?
    ensures FindReviewId(later, id) == FindReviewId(reviews, id)
  {
    if reviews[0].id != id {
      assert reviews[1..] <= later[1..];
      FindReviewIdSurvives(reviews[1..], later[1..], id);
    }
  }

  lemma {:induction false} RowsOfPrefix<Q, B>(rows: seq<Entry<Q, B>>, later: seq<Entry<Q, B>>, paper: string)
    requires rows <= later
    ensures RowsOf(rows, paper) <= RowsOf(later, paper)
  {
    if rows != later {
      assert rows <= later[..|later| - 1];
      RowsOfPrefix(rows, later[..|later| - 1], paper);
    }
  }

  /** A row found by its id is found again in every longer table. */
  lemma RowStays<Q, B>(rows: seq<Entry<Q, B>>, later: seq<Entry<Q, B>>, id: Option<Cell>)
    requires rows <= later && RowOf(rows, id).Some?
    ensures RowOf(later, id) == RowOf(rows, id)
  {
    FindIdSurvives(rows, later, id.value.text);
  }

  lemma SourceStays(a: Db, b: Db, paper: string, d: DecisionRow)
    requires Grows(a, b) && ExecutionSourceOf(a, paper, Some(d)).Ok?
    ensures ExecutionSourceOf(b, paper, Some(d)) == ExecutionSourceOf(a, paper, Some(d))
  {
  }

  lemma RootAndDecisionStay(a: Db, b: Db, paper: string, basis: ReadBasis)
    requires DbOk(a) && DbOk(b) && Grows(a, b) && !RootFact(a).purpose.UnknownPurpose?
    requires paper in a.papers && DecisionEvents(a, paper).Ok? && RootAndDecisionHold(a, paper, basis, DecisionEvents(a, paper).value)
    ensures paper in b.papers && DecisionEvents(b, paper).Ok? && RootAndDecisionHold(b, paper, basis, DecisionEvents(b, paper).value)
  {
    hide DbOk;
    hide DecisionEvents;
    hide ExecutionSourceOf;
    RootStays(a, b);
    PaperStays(a, b, paper);
    EventsOf(a, paper);
    EventsOf(b, paper);
    RowsOfPrefix(a.decisions, b.decisions, paper);
    RowStays(RowsOf(a.decisions, paper), RowsOf(b.decisions, paper), basis.decisionId);
    SourceStays(a, b, paper, RowOf(RowsOf(a.decisions, paper), basis.decisionId).value);
  }

  lemma PaperStays(a: Db, b: Db, paper: string)
    requires Grows(a, b) && paper in a.papers
    ensures paper in b.papers && a.decisions <= b.decisions
  {
  }

  lemma PdfAndSampleStay(a: Db, b: Db, paper: string, identity: Identity, basis: ReadBasis, view: View, later: View)
    requires Grows(a, b) && PdfHolds(a, paper, identity, basis, Some(view))
    requires later.identity == view.identity && later.sha == view.sha
    ensures PdfHolds(b, paper, identity, basis, Some(later))
    ensures SampleHolds(a, paper, basis) ==> SampleHolds(b, paper, basis)
  {
    RowStays(a.pdfs, b.pdfs, basis.pdfId);
    if SampleHolds(a, paper, basis) { RowStays(a.samples, b.samples, basis.sampleId); }
  }

  lemma ReviewStays(a: Db, b: Db, identity: Identity, basis: ReadBasis, view: View, later: View)
    requires Grows(a, b) && QualityHolds(a, identity, basis, Some(view)) && !view.quality.FormalGate?
    ensures QualityHolds(b, identity, basis, Some(later))
  {
    FindReviewIdSurvives(a.reviews, b.reviews, basis.reviewId.value.text);
  }

  lemma ViewStays(a: Db, b: Db, identity: Identity)
    requires DbOk(a) && DbOk(b) && Grows(a, b)
    requires ExtractionView(a, identity.fingerprint).Ok? && ExtractionView(a, identity.fingerprint).value.Some?
    requires ExtractionView(a, identity.fingerprint).value.value.identity == Some(identity)
    ensures var v, w := ExtractionView(a, identity.fingerprint).value.value, ExtractionView(b, identity.fingerprint);
            w.Ok? && w.value.Some? && w.value.value.identity == v.identity && w.value.value.sha == v.sha
  {
    hide DbOk;
    hide Grows;
    hide ExtractionView;
    var f := identity.fingerprint;
    ViewOrNothing(a, f);
    ViewIsSound(a, f);
    DecisionsStay(a, b, f);
    InputStays(a, b, f);
    ViewIsSound(b, f);
  }

  lemma InputStays(a: Db, b: Db, f: Fingerprint)
    requires Grows(a, b) && f in a.inputs
    ensures f in b.inputs
  {
  }

  /** A basis that holds under a registered root holds in every later coherent store. */
  lemma BasisStays(a: Db, b: Db, paper: string, identity: Identity, d: Document)
    requires DbOk(a) && DbOk(b) && Grows(a, b) && !RootFact(a).purpose.UnknownPurpose?
    requires Validate(a, paper, identity, d).Ok?
    ensures Validate(b, paper, identity, d).Ok?
  {
    hide DbOk;
    hide Grows;
    hide ExtractionView;
    hide DecisionEvents;
    hide RootAndDecisionHold;
    hide PdfHolds;
    hide SampleHolds;
    hide QualityHolds;
    hide RootFact;
    var basis, f := Decode(d).value, identity.fingerprint;
    ValidatedView(a, paper, identity, d);
    RootAndDecisionStay(a, b, paper, basis);
    ViewStays(a, b, identity);
    var v, w := ExtractionView(a, f).value.value, ExtractionView(b, f).value.value;
    ViewHasNoFormalGate(a, f);
    PdfAndSampleStay(a, b, paper, identity, basis, v, w);
    ReviewStays(a, b, identity, basis, v, w);
  }

  lemma ValidatedView(a: Db, paper: string, identity: Identity, d: Document)
    requires Validate(a, paper, identity, d).Ok?
    ensures paper in a.papers && ExtractionView(a, identity.fingerprint).Ok? && ExtractionView(a, identity.fingerprint).value.Some?
    ensures ExtractionView(a, identity.fingerprint).value.value.identity == Some(identity)
  {
    hide ExtractionView;
  }

  // ----- recorded from eligible facts -----------------------------------------------------------

  lemma {:induction false} FindReviewIdOfMember(reviews: seq<ReviewRow>, r: ReviewRow)
    requires ReviewOrder(reviews) && r in reviews
    ensures FindReviewId(reviews, r.id) == Some(r)
  {
  }

  lemma DecisionIsListed(db: Db, paper: string)
    requires DbOk(db) && paper in db.papers && InForce(db, paper).Some?
    ensures FindId(RowsOf(db.decisions, paper), InForce(db, paper).value.id) == InForce(db, paper)
  {
    RowsOfDistinct(db.decisions, paper);
    FindIdOfMember(RowsOf(db.decisions, paper), InForce(db, paper).value);
  }

  lemma RowsAreListed(db: Db, paper: string)
    requires DbOk(db) && paper in db.papers
    ensures var pdf, sample := CurrentPdf(db, paper, db.papers[paper].current), Latest(db.samples, paper, None);
            && (pdf.Some? ==> FindId(db.pdfs, pdf.value.id) == pdf && PdfOk(db.papers, db.store, pdf.value))
            && (sample.Some? ==> FindId(db.samples, sample.value.id) == sample)
  {
    hide ExtractionOk;
    var pdf, sample := CurrentPdf(db, paper, db.papers[paper].current), Latest(db.samples, paper, None);
    if pdf.Some? { FindIdOfMember(db.pdfs, pdf.value); }
    if sample.Some? { FindIdOfMember(db.samples, sample.value); }
  }

  /** The review query answers with a passing review of the extraction. */
  lemma SomeReviewPasses(db: Db, f: Fingerprint, identity: Identity, answer: Option<string>)
    requires ReviewOrder(db.reviews) && identity.fingerprint == f && ReviewsAgree(db.reviews, identity)
    requires Reviewed(db.reviews, f) && !ReviewFailed(db.reviews, f) && NewestPassing(db.reviews, identity, answer)
    ensures answer.Some? && FindReviewId(db.reviews, answer.value).Some?
    ensures Passing(FindReviewId(db.reviews, answer.value).value, identity)
  {
    var i :| 0 <= i < |db.reviews| && db.reviews[i].identity.fingerprint == f;
    assert db.reviews[i] in db.reviews && Passing(db.reviews[i], identity);
    var n :| n in db.reviews && n.id == answer.value && Passing(n, identity);
    FindReviewIdOfMember(db.reviews, n);
  }

  lemma ReviewsMatch(db: Db, f: Fingerprint, identity: Identity)
    requires DbOk(db) && PublishedAs(db, f, identity)
    ensures ReviewOrder(db.reviews) && ReviewsAgree(db.reviews, identity)
  {
    ReviewsNameTheSuccess(db, f);
  }

  /** What eligible facts consist of. */
  ghost predicate Complete(facts: Facts) {
    && facts.decision.Some? && facts.decision.value.body.record.result.Accepted? && facts.source.ProductionSource?
    && facts.pdf.Some? && facts.sample.Some? && facts.root.purpose.Experiment?
    && facts.sample.value.version == facts.pdf.value.version && facts.sample.value.body.sha == facts.pdf.value.body.sha
    && facts.extraction.Some? && facts.extraction.value.quality.DocumentGate? && facts.extraction.value.artifact.Some?
    && facts.extraction.value.sha == facts.pdf.value.body.sha
  }

  lemma EligibleIsComplete(db: Db, paper: string, identity: Option<Identity>, key: Option<Fingerprint>, ordinary: bool,
                           facts: Facts, body: Option<Identity>)
    requires paper in db.papers && Assembled(db, paper, identity, key, ordinary, facts, body) && facts.Eligible()
    ensures Complete(facts) && key.Some?
  {
    hide ExtractionView;
    hide ReasonSet;
    hide ExecutionSourceOf;
    hide InForce;
    hide CurrentPdf;
    hide RootFact;
    if key.Some? && facts.extraction.Some? { ViewHasNoFormalGate(db, key.value); }
    NoReason(facts.root, facts.decision, facts.source, facts.pdf, facts.extraction, body, facts.sample, identity, ordinary);
  }

  /** A sampled, reviewed extraction is published under its identity and every review of it agrees and passed. */
  lemma GateIsReviewed(db: Db, f: Fingerprint, view: View)
    requires DbOk(db) && ExtractionView(db, f) == Ok(Some(view)) && view.quality.DocumentGate? && view.artifact.Some?
    ensures view.fingerprint == f && view.identity.Some? && view.identity.value.fingerprint == f
    ensures PublishedAs(db, f, view.identity.value) && Reviewed(db.reviews, f) && !ReviewFailed(db.reviews, f)
  {
    hide DbOk;
    hide ExtractionView;
    ViewOrNothing(db, f);
    ViewIsSound(db, f);
  }

  ghost predicate RecordedParts(db: Db, paper: string, facts: Facts, answer: Option<string>)
    requires Complete(facts) && facts.extraction.value.identity.Some? && paper in db.papers
  {
    var identity := facts.extraction.value.identity.value;
    && DecisionEvents(db, paper) == Ok(RowsOf(db.decisions, paper))
    && FindId(RowsOf(db.decisions, paper), facts.decision.value.id) == facts.decision
    && FindId(db.pdfs, facts.pdf.value.id) == facts.pdf && PdfOk(db.papers, db.store, facts.pdf.value)
    && facts.pdf.value.paper == paper && facts.sample.value.paper == paper
    && FindId(db.samples, facts.sample.value.id) == facts.sample
    && answer.Some? && FindReviewId(db.reviews, answer.value).Some?
    && Passing(FindReviewId(db.reviews, answer.value).value, identity)
  }

  lemma PartsAreListed(db: Db, paper: string, facts: Facts, answer: Option<string>, identity: Option<Identity>,
                       key: Option<Fingerprint>, ordinary: bool, body: Option<Identity>)
    requires DbOk(db) && paper in db.papers && Assembled(db, paper, identity, key, ordinary, facts, body)
    requires facts.Eligible() && Complete(facts) && key.Some?
    requires facts.extraction.value.identity.Some? ==> NewestPassing(db.reviews, facts.extraction.value.identity.value, answer)
    ensures facts.extraction.value.fingerprint == key.value
    ensures facts.extraction.value.identity.Some? && facts.extraction.value.identity.value.fingerprint == key.value
    ensures RecordedParts(db, paper, facts, answer)
  {
    hide DbOk;
    hide ExtractionView;
    hide ReasonSet;
    hide ExecutionSourceOf;
    hide DecisionEvents;
    hide NewestPassing;
    hide RootFact;
    EventsOf(db, paper);
    DecisionIsListed(db, paper);
    RowsAreListed(db, paper);
    GateIsReviewed(db, key.value, facts.extraction.value);
    var i := facts.extraction.value.identity.value;
    ReviewsMatch(db, key.value, i);
    SomeReviewPasses(db, key.value, i, answer);
  }

  /** With every row found again, the recorded basis passes its own check. */
  lemma RecordPasses(db: Db, paper: string, facts: Facts, answer: Option<string>, now: int, identity: Option<Identity>,
                     key: Fingerprint, ordinary: bool, body: Option<Identity>)
    requires paper in db.papers && Assembled(db, paper, identity, Some(key), ordinary, facts, body)
    requires facts.Eligible() && Complete(facts) && facts.extraction.value.identity.Some?
    requires facts.extraction.value.identity.value.fingerprint == key && RecordedParts(db, paper, facts, answer)
    requires FindReviewId(db.reviews, answer.value).value.at <= now
    ensures Validate(db, paper, facts.extraction.value.identity.value, Encode(BasisOf(facts, answer, now))).Ok?
    ensures Record(db, facts, answer, now) == Ok(Encode(BasisOf(facts, answer, now)))
  {
    hide ExtractionView;
    hide ReasonSet;
    hide DecisionEvents;
    hide InForce;
    hide CurrentPdf;
    hide Encode;
    hide Decode;
    hide BasisOf;
    hide RootAndDecisionHold;
    hide PdfHolds;
    hide SampleHolds;
    hide QualityHolds;
    hide ValidPdfBytes;
    DecisionPart(db, paper, facts, answer, now);
    DocumentPart(db, paper, facts, answer, now);
    BasisIsText(facts, answer, now);
    RoundTrip(BasisOf(facts, answer, now), Encode(BasisOf(facts, answer, now)));
  }

  lemma BasisIsText(facts: Facts, answer: Option<string>, now: int)
    requires Complete(facts)
    ensures OnlyText(BasisOf(facts, answer, now))
  {
  }

  lemma DecisionPart(db: Db, paper: string, facts: Facts, answer: Option<string>, now: int)
    requires paper in db.papers && Complete(facts) && facts.extraction.value.identity.Some?
    requires RecordedParts(db, paper, facts, answer) && facts.root == RootFact(db)
    requires ExecutionSourceOf(db, paper, facts.decision) == Ok(facts.source)
    ensures RootAndDecisionHold(db, paper, BasisOf(facts, answer, now), RowsOf(db.decisions, paper))
  {
    hide DecisionEvents;
    hide ExecutionSourceOf;
    hide PdfOk;
  }

  lemma DocumentPart(db: Db, paper: string, facts: Facts, answer: Option<string>, now: int)
    requires paper in db.papers && Complete(facts) && facts.extraction.value.identity.Some?
    requires RecordedParts(db, paper, facts, answer) && FindReviewId(db.reviews, answer.value).value.at <= now
    ensures var b, identity := BasisOf(facts, answer, now), facts.extraction.value.identity.value;
            && PdfHolds(db, paper, identity, b, facts.extraction) && SampleHolds(db, paper, b)
            && QualityHolds(db, identity, b, facts.extraction)
  {
    hide DecisionEvents;
  }

  lemma ReviewIsNotNewer(s: System, id: string)
    requires SystemOk(s) && FindReviewId(s.db.reviews, id).Some?
    ensures FindReviewId(s.db.reviews, id).value.at <= s.wall
  {
  }

  /**
   * A basis recorded from eligible facts is accepted when it is recorded and in every later state, whatever PDFs,
   * decisions, samples, failed reviews or extractions were added in between.
   */
  lemma RecordedBasisHolds(s: System, paper: string, identity: Option<Identity>, fingerprint: Option<Fingerprint>,
                           ordinary: bool, answer: Option<string>, events: seq<Event>)
    requires Reachable(s) && paper in s.db.papers
    requires var facts := FactsOf(s.db, paper, identity, fingerprint, ordinary); facts.Ok? && facts.value.Eligible()
    requires var v := FactsOf(s.db, paper, identity, fingerprint, ordinary).value.extraction;
             v.Some? && v.value.identity.Some? ==> NewestPassing(s.db.reviews, v.value.identity.value, answer)
    ensures var facts := FactsOf(s.db, paper, identity, fingerprint, ordinary).value;
            var basis := Record(s.db, facts, answer, s.wall);
            && basis.Ok? && facts.extraction.Some? && facts.extraction.value.identity.Some?
            && Validate(s.db, paper, facts.extraction.value.identity.value, basis.value).Ok?
            && Validate(Run(s, events).db, paper, facts.extraction.value.identity.value, basis.value).Ok?
  {
    hide DbOk;
    hide SystemOk;
    hide Grows;
    hide Run;
    hide FactsOf;
    hide Validate;
    hide Record;
    hide RecordedParts;
    hide NewestPassing;
    ReachableIsOk(s);
    RunKeeps(s, events);
    StoreOf(Run(s, events));
    var facts := FactsOf(s.db, paper, identity, fingerprint, ordinary).value;
    var key := KeyOf(identity, fingerprint);
    var body := FactsAreAssembled(s.db, paper, identity, fingerprint, ordinary);
    EligibleIsComplete(s.db, paper, identity, key, ordinary, facts, body);
    RecordsAndStays(s, Run(s, events).db, paper, facts, answer, identity, key, ordinary, body);
  }

  lemma RecordsAndStays(s: System, later: Db, paper: string, facts: Facts, answer: Option<string>, identity: Option<Identity>,
                        key: Option<Fingerprint>, ordinary: bool, body: Option<Identity>)
    requires SystemOk(s) && DbOk(s.db) && DbOk(later) && Grows(s.db, later) && paper in s.db.papers
    requires Assembled(s.db, paper, identity, key, ordinary, facts, body) && facts.Eligible() && Complete(facts) && key.Some?
    requires facts.extraction.value.identity.Some? ==> NewestPassing(s.db.reviews, facts.extraction.value.identity.value, answer)
    ensures var basis := Record(s.db, facts, answer, s.wall);
            && basis.Ok? && facts.extraction.value.identity.Some?
            && Validate(s.db, paper, facts.extraction.value.identity.value, basis.value).Ok?
            && Validate(later, paper, facts.extraction.value.identity.value, basis.value).Ok?
  {
    hide DbOk;
    hide SystemOk;
    hide Grows;
    hide Validate;
    hide Record;
    hide NewestPassing;
    hide ExtractionView;
    hide ReasonSet;
    hide ExecutionSourceOf;
    hide DecisionEvents;
    hide InForce;
    hide CurrentPdf;
    hide RootFact;
    PartsAreListed(s.db, paper, facts, answer, identity, key, ordinary, body);
    ReviewIsNotNewer(s, answer.value);
    RecordPasses(s.db, paper, facts, answer, s.wall, identity, key.value, ordinary, body);
    var basis := Encode(BasisOf(facts, answer, s.wall));
    BasisStays(s.db, later, paper, facts.extraction.value.identity.value, basis);
  }
}

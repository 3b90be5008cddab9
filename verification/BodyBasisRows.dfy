/** Which recorded bases of a reading are accepted: the rows that a basis must name, and how they must belong together. */
module BodyBasisRows {
  import opened Prelude
  import opened Ledger
  import opened BodyModel
  import opened BodyQueries
  import opened BodyTransactions
  import opened BodyInvariant
  import opened BodyPreservation
  import opened BodyRows
  import opened BodyEligibility
  import opened BodyProtocol
  import opened BodySafety
  import opened BodyTheorems
  import opened BodyReadBasis
  import BodyReasons

  // ----- what a basis must name -----------------------------------------------------------------

  predicate NamedBy<Q, B>(e: Entry<Q, B>, cell: Option<Cell>) {
    cell == Some(Text(e.id))
  }

  /** Every field is there, and none of them holds a value that is not text. */
  ghost predicate Filled(d: Document) {
    d.Keys == FIELDS && forall k :: k in d ==> d[k] != Some(NotText)
  }

  /** The registered root with its purpose; without one there is no root id and the purpose is unknown. */
  ghost predicate RootRecorded(db: Db, d: Document)
    requires Filled(d)
  {
    if db.roots == [] then d["root_id"] == None && d["purpose"] == Some(Text("unknown"))
    else
      && d["root_id"] == Some(Text(db.roots[0].rootId))
      && d["purpose"] == Some(Text(if db.roots[0].purpose.Experiment? then "experiment" else "production"))
  }

  /** A decision of the paper that accepted it on production screenings. */
  ghost predicate DecisionRecorded(db: Db, paper: string, d: Document)
    requires Filled(d)
  {
    && (exists e :: e in db.decisions && e.paper == paper && NamedBy(e, d["decision_id"]) && AcceptedInProduction(db, e))
    && d["execution_source"] == Some(Text("production"))
  }

  ghost predicate SampleRecorded(db: Db, paper: string, pdf: PdfRow, d: Document)
    requires Filled(d)
  {
    exists e :: e in db.samples && e.paper == paper && NamedBy(e, d["sample_id"])
                && e.version == pdf.version && e.body.sha == pdf.body.sha
  }

  /** A PDF of the paper that the identity was extracted from and, in an experiment, a sample frozen for that very PDF. */
  ghost predicate DocumentRecorded(db: Db, paper: string, identity: Identity, d: Document)
    requires Filled(d)
  {
    && PublishedRow(db, identity)
    && exists pdf :: pdf in db.pdfs && pdf.paper == paper && NamedBy(pdf, d["pdf_id"]) && pdf.body.sha == identity.fingerprint.pdf
                     && (d["purpose"] == Some(Text("experiment")) ==> SampleRecorded(db, paper, pdf, d))
  }

  /** A passing review of the identity that is not newer than the record. */
  ghost predicate ReviewRecorded(db: Db, identity: Identity, d: Document)
    requires Filled(d)
  {
    && d["quality_basis"] == Some(Text("experiment_document_gate"))
    && exists r :: r in db.reviews && d["review_id"] == Some(Text(r.id)) && r.identity == identity && r.passed
                   && d["recorded_at"].Some? && d["recorded_at"].value.Instant? && r.at <= d["recorded_at"].value.at
  }

  ghost predicate Recorded(db: Db, paper: string, identity: Identity, d: Document) {
    && Filled(d) && paper in db.papers && RootRecorded(db, d) && DecisionRecorded(db, paper, d)
    && DocumentRecorded(db, paper, identity, d) && ReviewRecorded(db, identity, d)
  }

  // ----- proofs ---------------------------------------------------------------------------------

  lemma RowIsNamed<Q, B>(rows: seq<Entry<Q, B>>, cell: Option<Cell>)
    requires Distinct(rows)
    ensures forall e :: RowOf(rows, cell) == Some(e) <==> e in rows && NamedBy(e, cell)
  {
    forall e | e in rows && NamedBy(e, cell) ensures RowOf(rows, cell) == Some(e) { FindIdOfMember(rows, e); }
  }

  lemma ReviewIsNamed(reviews: seq<ReviewRow>, cell: Option<Cell>)
    requires ReviewOrder(reviews)
    ensures forall r :: ReviewOf(reviews, cell) == Some(r) <==> r in reviews && cell == Some(Text(r.id))
  {
    forall r | r in reviews && cell == Some(Text(r.id)) ensures ReviewOf(reviews, cell) == Some(r) {
      FindReviewIdOfMember(reviews, r);
    }
  }

  lemma TablesAreDistinct(db: Db)
    requires DbOk(db)
    ensures Distinct(db.pdfs) && Distinct(db.samples) && Contiguous(db.decisions) && Distinct(db.decisions) && ReviewOrder(db.reviews)
  {
  }

  lemma DecodeIs(d: Document)
    ensures Decode(d).Ok? <==> Filled(d)
    ensures Decode(d).Err? ==> Decode(d) == Err(CorruptReference)
    ensures Filled(d) ==>
              Decode(d).value == ReadBasis(d["root_id"], d["purpose"], d["decision_id"], d["pdf_id"], d["sample_id"],
                                           d["quality_basis"], d["review_id"], d["execution_source"], d["recorded_at"])
  {
  }

  lemma RootIs(db: Db, b: ReadBasis)
    requires DbOk(db)
    ensures TextOf(RootFact(db).rootId) == b.rootId && Some(Text(PurposeText(RootFact(db).purpose))) == b.purpose <==>
            if db.roots == [] then b.rootId == None && b.purpose == Some(Text("unknown"))
            else && b.rootId == Some(Text(db.roots[0].rootId))
                 && b.purpose == Some(Text(if db.roots[0].purpose.Experiment? then "experiment" else "production"))
  {
    hide DbOk;
    hide RootFact;
    RootFactIs(db);
  }

  lemma ProductionIs(db: Db, paper: string, e: DecisionRow)
    requires DbOk(db) && e in db.decisions && e.paper == paper
    ensures ExecutionSourceOf(db, paper, Some(e)).Ok?
    ensures e.body.record.result.Accepted? && SourceText(ExecutionSourceOf(db, paper, Some(e)).value) == "production" <==>
            AcceptedInProduction(db, e)
  {
    assert DecisionOk(db.papers, db.screenings, e);
  }

  lemma RootAndDecisionMean(db: Db, paper: string, d: Document)
    requires DbOk(db) && paper in db.papers && Filled(d)
    ensures Decode(d).Ok? && DecisionEvents(db, paper).Ok?
    ensures RootAndDecisionHold(db, paper, Decode(d).value, DecisionEvents(db, paper).value) <==>
            RootRecorded(db, d) && DecisionRecorded(db, paper, d)
  {
    hide DbOk;
    hide DecisionEvents;
    DecodeIs(d);
    EventsOf(db, paper);
    RootIs(db, Decode(d).value);
    TablesAreDistinct(db);
    RowsOfDistinct(db.decisions, paper);
    var rows, cell := RowsOf(db.decisions, paper), Decode(d).value.decisionId;
    RowIsNamed(rows, cell);
    RowsAreTheEntries(db.decisions, paper);
    forall e | e in db.decisions && e.paper == paper
      ensures ExecutionSourceOf(db, paper, Some(e)).Ok?
      ensures e.body.record.result.Accepted? && SourceText(ExecutionSourceOf(db, paper, Some(e)).value) == "production" <==>
              AcceptedInProduction(db, e)
    {
      ProductionIs(db, paper, e);
    }
  }

  lemma PdfIsReadable(db: Db, pdf: PdfRow)
    requires DbOk(db) && pdf in db.pdfs
    ensures pdf.body.artifact in db.store && pdf.body.artifact.OriginalPdf?
    ensures ValidPdfBytes(pdf.body.artifact.payload, pdf.body.sha)
  {
    assert PdfOk(db.papers, db.store, pdf);
  }

  lemma ViewOfIdentity(db: Db, identity: Identity)
    requires DbOk(db)
    ensures var v := ExtractionView(db, identity.fingerprint);
            && v.Ok?
            && (v.value.Some? && v.value.value.identity == Some(identity) <==> PublishedRow(db, identity))
            && (v.value.Some? ==> v.value.value.sha == identity.fingerprint.pdf && !v.value.value.quality.FormalGate?)
  {
    hide DbOk;
    hide PassedInReview;
    HasInput(db, identity.fingerprint);
    if identity.fingerprint in db.inputs {
      BodyReasons.ViewIsRead(db, identity.fingerprint);
    } else {
      assert ExtractionView(db, identity.fingerprint) == Ok(None);
    }
  }

  lemma DocumentMeans(db: Db, paper: string, identity: Identity, d: Document)
    requires DbOk(db) && Filled(d)
    ensures Decode(d).Ok? && ExtractionView(db, identity.fingerprint).Ok?
    ensures var b, view := Decode(d).value, ExtractionView(db, identity.fingerprint).value;
            PdfHolds(db, paper, identity, b, view) && (b.purpose == Some(Text("experiment")) ==> SampleHolds(db, paper, b)) <==>
            DocumentRecorded(db, paper, identity, d)
  {
    hide DbOk;
    hide ExtractionView;
    DecodeIs(d);
    ViewOfIdentity(db, identity);
    TablesAreDistinct(db);
    RowIsNamed(db.pdfs, Decode(d).value.pdfId);
    RowIsNamed(db.samples, Decode(d).value.sampleId);
    forall pdf | pdf in db.pdfs
      ensures pdf.body.artifact in db.store && pdf.body.artifact.OriginalPdf?
      ensures ValidPdfBytes(pdf.body.artifact.payload, pdf.body.sha)
    {
      PdfIsReadable(db, pdf);
    }
  }

  lemma ReviewMeans(db: Db, identity: Identity, d: Document)
    requires DbOk(db) && Filled(d)
    ensures Decode(d).Ok? && ExtractionView(db, identity.fingerprint).Ok?
    ensures QualityHolds(db, identity, Decode(d).value, ExtractionView(db, identity.fingerprint).value) <==>
            ReviewRecorded(db, identity, d)
  {
    hide DbOk;
    hide ExtractionView;
    DecodeIs(d);
    ViewOfIdentity(db, identity);
    TablesAreDistinct(db);
    ReviewIsNamed(db.reviews, Decode(d).value.reviewId);
  }

  /**
   * A recorded basis is accepted exactly when every field is text and names the registered root, a decision that
   * accepted the paper on production screenings, a PDF of the paper that the identity was published from, in an
   * experiment a sample frozen for that PDF, and a passing review of the identity that is not newer than the record.
   */
  lemma AcceptedBases(db: Db, paper: string, identity: Identity, d: Document)
    requires DbOk(db)
    ensures Validate(db, paper, identity, d).Ok? <==> Recorded(db, paper, identity, d)
    ensures Validate(db, paper, identity, d) == Err(PaperUnknown) <==> Filled(d) && paper !in db.papers
    ensures Validate(db, paper, identity, d).Ok? || Validate(db, paper, identity, d).error in {PaperUnknown, CorruptReference}
  {
    hide DbOk;
    hide ExtractionView;
    DecodeIs(d);
    if Filled(d) {
      if paper in db.papers {
        RootAndDecisionMean(db, paper, d);
        DocumentMeans(db, paper, identity, d);
        ReviewMeans(db, identity, d);
      } else {
      }
    }
  }

  // ----- what is recorded -----------------------------------------------------------------------

  /** The basis names the rows in force at the moment it is recorded. */
  ghost predicate NamesPresent(db: Db, paper: string, answer: Option<string>, now: int, d: Document)
    requires paper in db.papers
  {
    && Filled(d)
    && (forall e :: DecisionInForce(db, paper, e) ==> NamedBy(e, d["decision_id"]))
    && (forall pdf :: CurrentPdfRow(db, paper, pdf) ==> NamedBy(pdf, d["pdf_id"]))
    && (forall e :: Newest(db.samples, paper, None, e) ==> NamedBy(e, d["sample_id"]))
    && d["review_id"] == (if answer.Some? then Some(Text(answer.value)) else None)
    && d["recorded_at"] == Some(Instant(now))
  }

  lemma CellsOf(facts: Facts, answer: Option<string>, now: int)
    requires facts.extraction.Some? && facts.pdf.Some? && facts.decision.Some?
    ensures var d := Encode(BasisOf(facts, answer, now));
            && Filled(d) && NamedBy(facts.decision.value, d["decision_id"])
            && NamedBy(facts.pdf.value, d["pdf_id"]) && (facts.sample.Some? ==> NamedBy(facts.sample.value, d["sample_id"]))
            && d["review_id"] == TextOf(answer) && d["recorded_at"] == Some(Instant(now))
  {
    assert Encode(BasisOf(facts, answer, now)).Keys == FIELDS;
  }

  lemma RecordIsEncoded(db: Db, facts: Facts, answer: Option<string>, now: int)
    requires Record(db, facts, answer, now).Ok?
    ensures facts.decision.Some? && facts.pdf.Some? && facts.extraction.Some? && facts.extraction.value.identity.Some?
    ensures var d := Record(db, facts, answer, now).value;
            d == Encode(BasisOf(facts, answer, now)) && Validate(db, facts.paper, facts.extraction.value.identity.value, d).Ok?
  {
    hide BasisOf;
    hide Validate;
  }

  /** A basis recorded from assembled facts names what is in force, and all of it belongs together. */
  lemma RecordNames(db: Db, paper: string, identity: Option<Identity>, fingerprint: Option<Fingerprint>, ordinary: bool,
                    answer: Option<string>, now: int)
    requires DbOk(db) && paper in db.papers && FactsOf(db, paper, identity, fingerprint, ordinary).Ok?
    requires Record(db, FactsOf(db, paper, identity, fingerprint, ordinary).value, answer, now).Ok?
    ensures var facts := FactsOf(db, paper, identity, fingerprint, ordinary).value;
            var d := Record(db, facts, answer, now).value;
            && NamesPresent(db, paper, answer, now, d)
            && facts.extraction.Some? && facts.extraction.value.identity.Some?
            && Recorded(db, paper, facts.extraction.value.identity.value, d)
  {
    hide DbOk;
    hide FactsOf;
    BodyReasons.FactsAreMeant(db, paper, identity, fingerprint, ordinary);
    var facts := FactsOf(db, paper, identity, fingerprint, ordinary).value;
    RecordIsEncoded(db, facts, answer, now);
    CellsOf(facts, answer, now);
    AcceptedBases(db, paper, facts.extraction.value.identity.value, Record(db, facts, answer, now).value);
  }

  /** What is recorded from eligible facts names the rows in force, and they belong together in every later state. */
  lemma RecordedForever(s: System, paper: string, identity: Option<Identity>, fingerprint: Option<Fingerprint>,
                        ordinary: bool, answer: Option<string>, events: seq<Event>)
    requires Reachable(s) && paper in s.db.papers
    requires var facts := FactsOf(s.db, paper, identity, fingerprint, ordinary); facts.Ok? && facts.value.Eligible()
    requires var v := FactsOf(s.db, paper, identity, fingerprint, ordinary).value.extraction;
             v.Some? && v.value.identity.Some? ==> NewestPassing(s.db.reviews, v.value.identity.value, answer)
    ensures var facts := FactsOf(s.db, paper, identity, fingerprint, ordinary).value;
            var basis := Record(s.db, facts, answer, s.wall);
            && basis.Ok? && facts.extraction.Some? && facts.extraction.value.identity.Some?
            && NamesPresent(s.db, paper, answer, s.wall, basis.value)
            && Recorded(s.db, paper, facts.extraction.value.identity.value, basis.value)
            && Recorded(Run(s, events).db, paper, facts.extraction.value.identity.value, basis.value)
  {
    hide *;
    ReachableIsOk(s);
    RunKeeps(s, events);
    StoreOf(Run(s, events));
    RecordedBasisHolds(s, paper, identity, fingerprint, ordinary, answer, events);
    RecordNames(s.db, paper, identity, fingerprint, ordinary, answer, s.wall);
    var facts := FactsOf(s.db, paper, identity, fingerprint, ordinary).value;
    AcceptedBases(Run(s, events).db, paper, facts.extraction.value.identity.value, Record(s.db, facts, answer, s.wall).value);
  }
}

/** What the facts about a paper and each reason against reading it say of the rows of the tables. */
module BodyReasons {
  import opened Prelude
  import opened Ledger
  import opened BodyModel
  import opened BodyQueries
  import opened BodyTransactions
  import opened BodyInvariant
  import opened BodyRows
  import opened BodyEligibility

  // ----- the view of one extraction -------------------------------------------------------------

  /** What a view says, row by row. */
  ghost predicate ViewMeans(db: Db, f: Fingerprint, v: View) {
    && v.fingerprint == f && v.backend == f.semantics.backend && v.sha == f.pdf
    && v.attempts == JoinAll(AttemptsOf(db.attempts, f), db.outcomes)
    && (forall i :: v.identity == Some(i) <==> i.fingerprint == f && PublishedRow(db, i))
    && (v.artifact.Some? <==> v.identity.Some?)
    && (v.artifact.None? || LastFails(v) <==> f !in db.successes)
    && (v.quality.Failed? <==> FailedInReview(db, f) || FlawPublished(db, f))
    && (v.quality.DocumentGate? <==> PassedInReview(db, f))
    && !v.quality.FormalGate? && !v.quality.UnknownQuality?
  }

  predicate LastFails(v: View) {
    v.attempts != [] && FailureOf(v.attempts[|v.attempts| - 1]).Some?
  }

  lemma FlawIsNoSuccess(db: Db, f: Fingerprint)
    requires DbOk(db) && FlawPublished(db, f)
    ensures f in db.inputs && f !in db.successes
  {
    var a :| a in db.attempts && a.fingerprint == f && a.id in db.outcomes && db.outcomes[a.id].flaw.Some?;
    PublisherIsLast(db, a);
    assert OutcomeOk(db.store, a, db.outcomes[a.id]);
    SuccessIsLast(db, f);
  }

  /** The view of an input is fixed by its attempts, their outcomes, its success row and its reviews. */
  lemma ViewIsRead(db: Db, f: Fingerprint)
    requires DbOk(db) && f in db.inputs
    ensures ExtractionView(db, f).Ok? && ExtractionView(db, f).value.Some? && ViewMeans(db, f, ExtractionView(db, f).value.value)
  {
    hide DbOk;
    hide ExtractionView;
    ViewIsSound(db, f);
    PublicationIs(db, f);
    ReviewsAre(db.reviews, f);
    HasInput(db, f);
    if FlawPublished(db, f) { FlawIsNoSuccess(db, f); }
    var v := ExtractionView(db, f).value.value;
    assert f !in db.successes ==> !FailedInReview(db, f) && !PassedInReview(db, f);
    AgreesMeans(db, f, v);
  }

  lemma AgreesMeans(db: Db, f: Fingerprint, v: View)
    requires AttemptsOf(db.attempts, f) != [] && ViewAgrees(db, f, v)
    requires var p := LastPublication(db, f);
             && (forall i: Identity :: p.Some? && i == Identity(f, p.value.reading, p.value.evidenceMap) <==>
                   i.fingerprint == f && PublishedRow(db, i))
             && (p.Some? && LastOutcome(db, f).value.flaw.Some? <==> FlawPublished(db, f))
    requires Reviewed(db.reviews, f) <==> exists r :: r in db.reviews && r.identity.fingerprint == f
    requires ReviewFailed(db.reviews, f) <==> FailedInReview(db, f)
    requires f !in db.successes ==> !FailedInReview(db, f) && !PassedInReview(db, f)
    requires f in db.successes ==> !FlawPublished(db, f)
    ensures ViewMeans(db, f, v)
  {
    hide PublishedRow;
    hide FlawPublished;
    hide Reviewed;
    hide ReviewFailed;
    hide FailedInReview;
    hide AttemptsOf;
  }

  // ----- the facts ------------------------------------------------------------------------------

  ghost predicate DecidedOn(db: Db, paper: string, d: DecisionRow)
    requires paper in db.papers
  {
    DecisionInForce(db, paper, d) && d.body.references != {}
  }

  ghost predicate RanInTest(db: Db, d: DecisionRow) {
    exists r :: r in d.body.references && r in db.screenings && db.screenings[r].kind.TestExecutor?
  }

  /** The facts about the paper, row by row. */
  ghost predicate RowsMean(db: Db, paper: string, facts: Facts)
    requires paper in db.papers
  {
    && facts.paper == paper && facts.version == db.papers[paper].current && facts.revision == db.papers[paper].revision
    && facts.root == (if db.roots == [] then Root(None, UnknownPurpose, None)
                      else Root(Some(db.roots[0].rootId), db.roots[0].purpose, Some(db.roots[0].at)))
    && (forall d :: facts.decision == Some(d) <==> DecisionInForce(db, paper, d))
    && (facts.source.UnknownSource? <==> !exists d :: DecidedOn(db, paper, d))
    && (facts.source.TestSource? <==> exists d :: DecidedOn(db, paper, d) && RanInTest(db, d))
    && (forall pdf :: facts.pdf == Some(pdf) <==> CurrentPdfRow(db, paper, pdf))
    && (forall e :: facts.sample == Some(e) <==> Newest(db.samples, paper, None, e))
  }

  /** The reasons that concern the paper alone. */
  ghost predicate PaperReasonsMean(db: Db, paper: string, reasons: set<Reason>)
    requires paper in db.papers
  {
    && (RootUnknown in reasons <==> db.roots == [])
    && (DecisionNotAccepted in reasons <==> !exists d :: DecisionInForce(db, paper, d) && d.body.record.result.Accepted?)
    && (ExecutionSourceUnknown in reasons <==> !exists d :: DecidedOn(db, paper, d))
    && (TestExecutionSource in reasons <==> exists d :: DecidedOn(db, paper, d) && RanInTest(db, d))
    && (PdfAbsent in reasons <==> forall pdf :: !CurrentPdfRow(db, paper, pdf))
  }

  ghost predicate PdfOf(db: Db, paper: string, f: Fingerprint)
    requires paper in db.papers
  {
    exists pdf :: CurrentPdfRow(db, paper, pdf) && pdf.body.sha == f.pdf
  }

  ghost predicate Publishing(db: Db, f: Fingerprint) {
    exists i: Identity :: i.fingerprint == f && PublishedRow(db, i)
  }

  /** The reasons that concern an extraction that was claimed. */
  ghost predicate ClaimedReasonsMean(db: Db, paper: string, identity: Option<Identity>, f: Fingerprint, reasons: set<Reason>)
    requires paper in db.papers
  {
    && ExtractionAbsent !in reasons
    && (ExtractionFailed in reasons <==> f !in db.successes)
    && (QualityFailed in reasons <==> FailedInReview(db, f) || FlawPublished(db, f))
    && (QualityAbsent in reasons <==> (forall r :: r in db.reviews ==> r.identity.fingerprint != f) && !FlawPublished(db, f))
    && (FactsChanged in reasons <==> (
          || !PdfOf(db, paper, f)
          || (Publishing(db, f) && !SoleSuccess(db, f))
          || (identity.Some? && !PublishedRow(db, identity.value))))
  }

  ghost predicate UnclaimedReasonsMean(reasons: set<Reason>) {
    ExtractionAbsent in reasons && QualityAbsent in reasons && {ExtractionFailed, QualityFailed, FactsChanged} !! reasons
  }

  /** The reasons that depend on the purpose of the root. */
  ghost predicate PurposeReasonsMean(db: Db, paper: string, key: Option<Fingerprint>, ordinary: bool, reasons: set<Reason>)
    requires paper in db.papers
  {
    var purpose := if db.roots == [] then UnknownPurpose else db.roots[0].purpose;
    && (SampleMismatch in reasons <==>
          purpose.Experiment? && !exists pdf :: CurrentPdfRow(db, paper, pdf) && FrozenFor(db, paper, pdf))
    && (OrdinaryConsumptionDenied in reasons <==>
          || (purpose.Experiment? && ordinary)
          || (purpose.Production? && key.Some? && PassedInReview(db, key.value)))
  }

  /** What assembled facts say: their rows, and each reason exactly when it holds of the tables. */
  ghost predicate FactsMean(db: Db, paper: string, identity: Option<Identity>, key: Option<Fingerprint>, ordinary: bool,
                            facts: Facts)
    requires paper in db.papers
  {
    var f := if key.Some? && key.value in db.inputs then key else None;
    && RowsMean(db, paper, facts)
    && (facts.extraction.Some? <==> f.Some?) && (f.Some? ==> ViewMeans(db, f.value, facts.extraction.value))
    && facts.reasons <= REFUSALS
    && PaperReasonsMean(db, paper, facts.reasons)
    && (if f.Some? then ClaimedReasonsMean(db, paper, identity, f.value, facts.reasons) else UnclaimedReasonsMean(facts.reasons))
    && PurposeReasonsMean(db, paper, key, ordinary, facts.reasons)
  }

  // ----- proofs ---------------------------------------------------------------------------------

  lemma SourceIs(db: Db, paper: string, d: DecisionRow)
    requires DbOk(db) && paper in db.papers && DecisionInForce(db, paper, d)
    ensures ExecutionSourceOf(db, paper, Some(d)) == Ok(
              if d.body.references == {} then UnknownSource else if RanInTest(db, d) then TestSource else ProductionSource)
  {
    assert DecisionOk(db.papers, db.screenings, d);
  }

  lemma RowsAreMeant(db: Db, paper: string, identity: Option<Identity>, key: Option<Fingerprint>, ordinary: bool,
                     facts: Facts, body: Option<Identity>)
    requires DbOk(db) && paper in db.papers && Assembled(db, paper, identity, key, ordinary, facts, body)
    ensures RowsMean(db, paper, facts)
  {
    hide CurrentPdf;
    hide CurrentPdfRow;
    hide DbOk;
    hide DecisionInForce;
    hide ExtractionView;
    hide InForce;
    hide Latest;
    hide Newest;
    hide ReasonSet;
    hide ReferencesOk;
    hide RootFact;
    RootFactIs(db);
    InForceIs(db, paper);
    CurrentPdfIs(db, paper);
    LatestSampleIs(db, paper);
    if facts.decision.Some? {
      var d := facts.decision.value;
      SourceIs(db, paper, d);
      assert DecidedOn(db, paper, d) <==> d.body.references != {};
      assert RanInTest(db, d) ==> d.body.references != {};
    } else {
      assert ExecutionSourceOf(db, paper, facts.decision) == Ok(UnknownSource);
    }
  }

  lemma Holds(r: Reason, facts: Facts, body: Option<Identity>, identity: Option<Identity>, ordinary: bool)
    requires facts.reasons == ReasonSet(facts.root, facts.decision, facts.source, facts.pdf, facts.extraction, body, facts.sample,
                                        identity, ordinary)
    requires r in REFUSALS
    ensures r in facts.reasons <==> ReasonHolds(r, facts.root, facts.decision, facts.source, facts.pdf, facts.extraction, body,
                                                facts.sample, identity, ordinary)
  {
  }

  lemma PaperReasonsAreMeant(db: Db, paper: string, identity: Option<Identity>, key: Option<Fingerprint>, ordinary: bool,
                             facts: Facts, body: Option<Identity>)
    requires DbOk(db) && paper in db.papers && Assembled(db, paper, identity, key, ordinary, facts, body)
    requires RowsMean(db, paper, facts)
    ensures PaperReasonsMean(db, paper, facts.reasons)
  {
    hide CurrentPdf;
    hide CurrentPdfRow;
    hide DbOk;
    hide DecidedOn;
    hide DecisionInForce;
    hide ExecutionSourceOf;
    hide ExtractionView;
    hide InForce;
    hide Latest;
    hide Newest;
    hide RanInTest;
    hide ReasonSet;
    hide RootFact;
    RootFactIs(db);
    Listed();
    Holds(RootUnknown, facts, body, identity, ordinary);
    Holds(DecisionNotAccepted, facts, body, identity, ordinary);
    Holds(ExecutionSourceUnknown, facts, body, identity, ordinary);
    Holds(TestExecutionSource, facts, body, identity, ordinary);
    Holds(PdfAbsent, facts, body, identity, ordinary);
  }

  lemma PurposeReasonsAreMeant(db: Db, paper: string, identity: Option<Identity>, key: Option<Fingerprint>, ordinary: bool,
                               facts: Facts, body: Option<Identity>)
    requires DbOk(db) && paper in db.papers && Assembled(db, paper, identity, key, ordinary, facts, body)
    requires RowsMean(db, paper, facts)
    requires facts.extraction.Some? ==> key.Some? && (facts.extraction.value.quality.DocumentGate? <==> PassedInReview(db, key.value))
    requires facts.extraction.None? ==> key.None? || !PassedInReview(db, key.value)
    ensures PurposeReasonsMean(db, paper, key, ordinary, facts.reasons)
  {
    hide CurrentPdf;
    hide CurrentPdfRow;
    hide DbOk;
    hide DecidedOn;
    hide DecisionInForce;
    hide ExecutionSourceOf;
    hide ExtractionView;
    hide InForce;
    hide Latest;
    hide Newest;
    hide PassedInReview;
    hide RanInTest;
    hide ReasonSet;
    hide RootFact;
    Listed();
    Holds(SampleMismatch, facts, body, identity, ordinary);
    Holds(OrdinaryConsumptionDenied, facts, body, identity, ordinary);
  }

  lemma ClaimedReasonsAreMeant(db: Db, paper: string, identity: Option<Identity>, f: Fingerprint, ordinary: bool,
                               facts: Facts, body: Option<Identity>)
    requires DbOk(db) && paper in db.papers && Assembled(db, paper, identity, Some(f), ordinary, facts, body)
    requires RowsMean(db, paper, facts) && facts.extraction.Some? && ViewMeans(db, f, facts.extraction.value)
    requires facts.extraction.value.identity.Some? ==> CurrentBodyOf(db, paper) == Ok(CurrentBody(body))
    requires identity.Some? ==> identity.value.fingerprint == f
    ensures ClaimedReasonsMean(db, paper, identity, f, facts.reasons)
  {
    hide AttemptsOf;
    hide CurrentBodyOf;
    hide CurrentPdf;
    hide DbOk;
    hide ExecutionSourceOf;
    hide ExtractionView;
    hide FlawPublished;
    hide InForce;
    hide JoinAll;
    hide Latest;
    hide PdfOf;
    hide PublishedRow;
    hide Publishing;
    hide ReasonSet;
    hide RootFact;
    hide RowsMean;
    hide SoleSuccess;
    hide ReasonHolds;
    Listed();
    HasInput(db, f);
    ChangeIsCollected(db, paper, identity, f, ordinary, facts, body);
    ClaimedReasonsHold(facts.extraction.value, facts, body, identity, ordinary);
    Holds(ExtractionAbsent, facts, body, identity, ordinary);
    Holds(ExtractionFailed, facts, body, identity, ordinary);
    Holds(QualityFailed, facts, body, identity, ordinary);
    Holds(QualityAbsent, facts, body, identity, ordinary);
  }

  lemma ClaimedReasonsHold(v: View, facts: Facts, body: Option<Identity>, identity: Option<Identity>, ordinary: bool)
    requires facts.extraction == Some(v)
    ensures var holds := (r: Reason) => ReasonHolds(r, facts.root, facts.decision, facts.source, facts.pdf, facts.extraction, body,
                                                    facts.sample, identity, ordinary);
            && !holds(ExtractionAbsent) && (holds(ExtractionFailed) <==> v.artifact.None? || LastFails(v))
            && (holds(QualityFailed) <==> v.quality.Failed?)
            && (holds(QualityAbsent) <==> v.quality.AbsentQuality? || v.quality.UnknownQuality?)
  {
  }

  lemma ChangeIsCollected(db: Db, paper: string, identity: Option<Identity>, f: Fingerprint, ordinary: bool, facts: Facts,
                          body: Option<Identity>)
    requires DbOk(db) && paper in db.papers && Assembled(db, paper, identity, Some(f), ordinary, facts, body)
    requires RowsMean(db, paper, facts) && facts.extraction.Some? && ViewMeans(db, f, facts.extraction.value)
    requires facts.extraction.value.identity.Some? ==> CurrentBodyOf(db, paper) == Ok(CurrentBody(body))
    requires identity.Some? ==> identity.value.fingerprint == f
    ensures FactsChanged in facts.reasons <==>
              || !PdfOf(db, paper, f) || (Publishing(db, f) && !SoleSuccess(db, f))
              || (identity.Some? && !PublishedRow(db, identity.value))
  {
    hide CurrentBodyOf;
    hide CurrentPdf;
    hide DbOk;
    hide ExecutionSourceOf;
    hide ExtractionView;
    hide InForce;
    hide Latest;
    hide PdfOf;
    hide PublishedRow;
    hide Publishing;
    hide ReasonSet;
    hide RootFact;
    hide RowsMean;
    hide SoleSuccess;
    hide ViewMeans;
    Listed();
    Holds(FactsChanged, facts, body, identity, ordinary);
    ChangeIsMeant(db, paper, identity, f, facts, body);
  }

  lemma ChangeIsMeant(db: Db, paper: string, identity: Option<Identity>, f: Fingerprint, facts: Facts, body: Option<Identity>)
    requires DbOk(db) && paper in db.papers
    requires RowsMean(db, paper, facts) && facts.extraction.Some? && ViewMeans(db, f, facts.extraction.value)
    requires facts.extraction.value.identity.Some? ==> CurrentBodyOf(db, paper) == Ok(CurrentBody(body))
    requires identity.Some? ==> identity.value.fingerprint == f
    ensures var v := facts.extraction.value;
            || (v.identity.Some? && body != v.identity) || (identity.Some? && v.identity != identity)
            || facts.pdf.None? || facts.pdf.value.body.sha != v.sha
            <==>
            || !PdfOf(db, paper, f) || (Publishing(db, f) && !SoleSuccess(db, f))
            || (identity.Some? && !PublishedRow(db, identity.value))
  {
    hide CurrentBodyOf;
    hide DbOk;
    CurrentBodyIs(db, paper);
    var v := facts.extraction.value;
    if v.identity.Some? {
      assert v.identity.value.fingerprint == f && PublishedRow(db, v.identity.value);
      assert body == v.identity <==> SoleSuccess(db, f) && PdfOf(db, paper, f);
    }
  }

  lemma UnclaimedReasonsAreMeant(db: Db, paper: string, identity: Option<Identity>, key: Option<Fingerprint>, ordinary: bool,
                                 facts: Facts, body: Option<Identity>)
    requires paper in db.papers && Assembled(db, paper, identity, key, ordinary, facts, body) && facts.extraction.None?
    ensures UnclaimedReasonsMean(facts.reasons)
  {
    hide CurrentPdf;
    hide ExecutionSourceOf;
    hide ExtractionView;
    hide InForce;
    hide Latest;
    hide ReasonSet;
    hide RootFact;
    Listed();
    Holds(ExtractionAbsent, facts, body, identity, ordinary);
    Holds(QualityAbsent, facts, body, identity, ordinary);
    Holds(ExtractionFailed, facts, body, identity, ordinary);
    Holds(QualityFailed, facts, body, identity, ordinary);
    Holds(FactsChanged, facts, body, identity, ordinary);
  }

  lemma ReasonsAreListed(facts: Facts, body: Option<Identity>, identity: Option<Identity>, ordinary: bool)
    requires facts.reasons == ReasonSet(facts.root, facts.decision, facts.source, facts.pdf, facts.extraction, body, facts.sample,
                                        identity, ordinary)
    ensures facts.reasons <= REFUSALS
  {
  }

  /** The facts of a known paper say what its rows say, and each reason is among them exactly when it holds of the rows. */
  lemma FactsAreMeant(db: Db, paper: string, identity: Option<Identity>, fingerprint: Option<Fingerprint>, ordinary: bool)
    requires DbOk(db) && paper in db.papers
    ensures var reply := FactsOf(db, paper, identity, fingerprint, ordinary);
            reply.Ok? && FactsMean(db, paper, identity, KeyOf(identity, fingerprint), ordinary, reply.value)
  {
    hide DbOk;
    hide FactsOf;
    FactsAssemble(db, paper, identity, fingerprint, ordinary);
    var facts, key := FactsOf(db, paper, identity, fingerprint, ordinary).value, KeyOf(identity, fingerprint);
    var body := FactsAreAssembled(db, paper, identity, fingerprint, ordinary);
    assert facts.reasons <= REFUSALS by { ReasonsAreListed(facts, body, identity, ordinary); }
    RowsAreMeant(db, paper, identity, key, ordinary, facts, body);
    PaperReasonsAreMeant(db, paper, identity, key, ordinary, facts, body);
    ExtractionIsMeant(db, paper, identity, key, ordinary, facts, body);
    PurposeReasonsAreMeant(db, paper, identity, key, ordinary, facts, body);
  }

  lemma ExtractionIsMeant(db: Db, paper: string, identity: Option<Identity>, key: Option<Fingerprint>, ordinary: bool,
                          facts: Facts, body: Option<Identity>)
    requires DbOk(db) && paper in db.papers && Assembled(db, paper, identity, key, ordinary, facts, body)
    requires RowsMean(db, paper, facts) && (identity.Some? ==> key == Some(identity.value.fingerprint))
    requires facts.extraction.Some? && facts.extraction.value.identity.Some? ==> CurrentBodyOf(db, paper) == Ok(CurrentBody(body))
    ensures facts.extraction.Some? <==> key.Some? && key.value in db.inputs
    ensures facts.extraction.Some? ==>
              && ViewMeans(db, key.value, facts.extraction.value)
              && ClaimedReasonsMean(db, paper, identity, key.value, facts.reasons)
              && (facts.extraction.value.quality.DocumentGate? <==> PassedInReview(db, key.value))
    ensures facts.extraction.None? ==> UnclaimedReasonsMean(facts.reasons) && (key.None? || !PassedInReview(db, key.value))
  {
    hide CurrentBodyOf;
    hide DbOk;
    if key.Some? && key.value in db.inputs {
      ViewIsRead(db, key.value);
      assert facts.extraction == ExtractionView(db, key.value).value;
      ClaimedReasonsAreMeant(db, paper, identity, key.value, ordinary, facts, body);
    } else {
      assert facts.extraction.None? by {
        if key.Some? { ViewOrNothing(db, key.value); }
      }
      UnclaimedReasonsAreMeant(db, paper, identity, key, ordinary, facts, body);
      if key.Some? {
        HasInput(db, key.value);
      }
    }
  }
}

/** When a paper is eligible for reading, stated on the tables. */
module BodyEligibility {
  import opened Prelude
  import opened Ledger
  import opened BodyModel
  import opened BodyQueries
  import opened BodyTransactions
  import opened BodyInvariant
  import opened BodyPreservation
  import opened ExtractionPreservation
  import opened BodyProtocol
  import opened BodySafety
  import opened BodyTheorems
  import opened BodyRows

  /** The decision in force for a paper. */
  function InForce(db: Db, paper: string): Option<DecisionRow>
    requires paper in db.papers
  {
    EffectiveDecision(paper, db.papers[paper], RowsOf(db.decisions, paper))
  }

  /** Accepted by hand, on screenings that all ran in production. */
  ghost predicate AcceptedInProduction(db: Db, d: DecisionRow) {
    && d.body.record.result.Accepted? && d.body.references != {}
    && forall r :: r in d.body.references ==> r in db.screenings && db.screenings[r].kind.PiRpc?
  }

  /** The paper's current PDF has this one successful extraction, and the newest sample froze exactly that PDF. */
  ghost predicate FrozenAndExtracted(db: Db, paper: string, f: Fingerprint)
    requires paper in db.papers
  {
    SoleSuccess(db, f) && exists pdf :: CurrentPdfRow(db, paper, pdf) && pdf.body.sha == f.pdf && FrozenFor(db, paper, pdf)
  }

  /** The paper's newest sample was frozen for this PDF. */
  ghost predicate FrozenFor(db: Db, paper: string, pdf: PdfRow) {
    exists e :: Newest(db.samples, paper, None, e) && e.version == pdf.version && e.body.sha == pdf.body.sha
  }

  /** Everything eligibility asks for, said of the rows of the tables. */
  ghost predicate Cleared(db: Db, paper: string, f: Fingerprint, identity: Option<Identity>, ordinary: bool)
    requires paper in db.papers
  {
    && db.roots != [] && db.roots[0].purpose.Experiment? && !ordinary
    && (exists d :: DecisionInForce(db, paper, d) && AcceptedInProduction(db, d))
    && FrozenAndExtracted(db, paper, f)
    && (identity.Some? ==> identity.value.fingerprint == f && PublishedRow(db, identity.value))
    && PassedInReview(db, f)
  }

  /** The same, as the queries answer it. */
  ghost predicate ClearedByQueries(db: Db, paper: string, f: Fingerprint, identity: Option<Identity>, ordinary: bool)
    requires paper in db.papers
  {
    var pdf, sample := CurrentPdf(db, paper, db.papers[paper].current), Latest(db.samples, paper, None);
    && RootFact(db).purpose.Experiment? && !ordinary
    && InForce(db, paper).Some? && AcceptedInProduction(db, InForce(db, paper).value)
    && pdf.Some? && pdf.value.body.sha == f.pdf && SuccessfulKeys(db, f.pdf) == {f}
    && sample.Some? && sample.value.version == pdf.value.version && sample.value.body.sha == pdf.value.body.sha
    && (identity.Some? ==> PublishedAs(db, f, identity.value))
    && Reviewed(db.reviews, f) && !ReviewFailed(db.reviews, f)
  }

  ghost predicate PublishedAs(db: Db, f: Fingerprint, identity: Identity) {
    AttemptsOf(db.attempts, f) != [] && LastPublication(db, f).Some?
    && identity == Identity(f, LastPublication(db, f).value.reading, LastPublication(db, f).value.evidenceMap)
  }

  lemma PublishedAsRow(db: Db, f: Fingerprint, identity: Identity)
    requires DbOk(db)
    ensures PublishedAs(db, f, identity) <==> identity.fingerprint == f && PublishedRow(db, identity)
  {
    hide DbOk;
    hide PublishedRow;
    HasInput(db, f);
    if f in db.inputs {
      PublicationIs(db, f);
    } else {
      NoRowsBeforeTheInput(db, f);
    }
  }

  lemma InForceIs(db: Db, paper: string)
    requires DbOk(db) && paper in db.papers
    ensures forall d :: InForce(db, paper) == Some(d) <==> DecisionInForce(db, paper, d)
  {
    hide DbOk;
    EffectiveDecisionIs(db, paper);
  }

  lemma ClearedIs(db: Db, paper: string, f: Fingerprint, identity: Option<Identity>, ordinary: bool)
    requires DbOk(db) && paper in db.papers
    ensures Cleared(db, paper, f, identity, ordinary) <==> ClearedByQueries(db, paper, f, identity, ordinary)
  {
    hide AcceptedInProduction;
    hide CurrentPdf;
    hide CurrentPdfRow;
    hide DbOk;
    hide DecisionInForce;
    hide InForce;
    hide Latest;
    hide Newest;
    hide PublishedAs;
    hide PublishedRow;
    hide ReviewFailed;
    hide Reviewed;
    hide RootFact;
    hide SoleSuccess;
    RootFactIs(db);
    InForceIs(db, paper);
    CurrentPdfIs(db, paper);
    LatestSampleIs(db, paper);
    SoleSuccessIs(db, f);
    ReviewsAre(db.reviews, f);
    if identity.Some? { PublishedAsRow(db, f, identity.value); }
  }

  // ----- the facts always assemble --------------------------------------------------------------

  lemma EventsOf(db: Db, paper: string)
    requires DbOk(db) && paper in db.papers
    ensures DecisionEvents(db, paper) == Ok(RowsOf(db.decisions, paper))
  {
    EventsAreTheRows(db, paper);
  }

  lemma SourceOf(db: Db, paper: string)
    requires DbOk(db) && paper in db.papers
    ensures ExecutionSourceOf(db, paper, InForce(db, paper)).Ok?
    ensures InForce(db, paper).Some? && InForce(db, paper).value.body.record.result.Accepted? ==>
              (ExecutionSourceOf(db, paper, InForce(db, paper)) == Ok(ProductionSource)
               <==> AcceptedInProduction(db, InForce(db, paper).value))
  {
    var d := InForce(db, paper);
    if d.Some? {
      assert DecisionOk(db.papers, db.screenings, d.value);
    }
  }

  lemma SuccessIsPublished(db: Db, f: Fingerprint)
    requires DbOk(db) && f in db.successes
    ensures f in db.inputs && AttemptsOf(db.attempts, f) != [] && LastPublication(db, f).Some?
  {
    hide ReviewsOk;
    assert Succeeded(db.attempts, db.outcomes, f, db.successes[f]);
    var a := Lookup(db.attempts, db.successes[f]).value;
    assert AttemptOk(db.inputs, a);
    SuccessIsLast(db, f);
  }

  lemma CurrentBodyByQueries(db: Db, paper: string)
    requires DbOk(db) && paper in db.papers
    ensures CurrentBodyOf(db, paper).Ok?
    ensures forall i :: CurrentBodyOf(db, paper) == Ok(CurrentBody(Some(i))) <==>
              var pdf := CurrentPdf(db, paper, db.papers[paper].current);
              pdf.Some? && SuccessfulKeys(db, pdf.value.body.sha) == {i.fingerprint} && PublishedAs(db, i.fingerprint, i)
  {
    hide DbOk;
    hide ExtractionView;
    var pdf := CurrentPdf(db, paper, db.papers[paper].current);
    if pdf.Some? {
      var keys := SuccessfulKeys(db, pdf.value.body.sha);
      if |keys| == 1 {
        var f :| f in keys;
        OnlyOne(keys, f);
        SuccessIsPublished(db, f);
        ViewIsSound(db, f);
      } else {
        assert forall f: Fingerprint :: |{f}| == 1;
      }
    }
  }

  /** The current body is the published identity of the one successful extraction of the current PDF. */
  lemma CurrentBodyIs(db: Db, paper: string)
    requires DbOk(db) && paper in db.papers
    ensures CurrentBodyOf(db, paper).Ok?
    ensures forall i :: CurrentBodyOf(db, paper) == Ok(CurrentBody(Some(i))) <==>
              && SoleSuccess(db, i.fingerprint) && PublishedRow(db, i)
              && exists pdf :: CurrentPdfRow(db, paper, pdf) && pdf.body.sha == i.fingerprint.pdf
  {
    hide *;
    CurrentBodyByQueries(db, paper);
    CurrentPdfIs(db, paper);
    var pdf := CurrentPdf(db, paper, db.papers[paper].current);
    forall i: Identity
      ensures pdf.Some? && SuccessfulKeys(db, pdf.value.body.sha) == {i.fingerprint} ==> pdf.value.body.sha == i.fingerprint.pdf
      ensures SuccessfulKeys(db, i.fingerprint.pdf) == {i.fingerprint} <==> SoleSuccess(db, i.fingerprint)
      ensures PublishedAs(db, i.fingerprint, i) <==> PublishedRow(db, i)
    {
      SoleSuccessIs(db, i.fingerprint);
      PublishedAsRow(db, i.fingerprint, i);
      if pdf.Some? { KeysNameThePdf(db, pdf.value.body.sha, i.fingerprint); }
    }
  }

  lemma KeysNameThePdf(db: Db, sha: Digest, f: Fingerprint)
    requires DbOk(db)
    ensures SuccessfulKeys(db, sha) == {f} ==> sha == f.pdf
  {
    hide DbOk;
    if SuccessfulKeys(db, sha) == {f} {
      assert f in SuccessfulKeys(db, sha);
      InputsNameTheirPdf(db, f);
    }
  }

  lemma OnlyOne<T>(keys: set<T>, x: T)
    requires |keys| == 1 && x in keys
    ensures keys == {x}
  {
    assert |keys - {x}| == 0;
  }

  /** On a coherent store the facts of a known paper always assemble, and no reference is reported corrupt. */
  lemma FactsAssemble(db: Db, paper: string, identity: Option<Identity>, fingerprint: Option<Fingerprint>, ordinary: bool)
    requires DbOk(db)
    ensures FactsOf(db, paper, identity, fingerprint, ordinary) == Err(PaperUnknown) <==> paper !in db.papers
    ensures FactsOf(db, paper, identity, fingerprint, ordinary).Ok? <==> paper in db.papers
  {
    hide DbOk;
    hide ExtractionView;
    if paper in db.papers {
      EventsOf(db, paper);
      SourceOf(db, paper);
      CurrentBodyIs(db, paper);
      var key := if identity.Some? then Some(identity.value.fingerprint) else fingerprint;
      if key.Some? { ViewOrNothing(db, key.value); }
    }
  }

  lemma ViewOrNothing(db: Db, f: Fingerprint)
    requires DbOk(db)
    ensures ExtractionView(db, f).Ok? && (ExtractionView(db, f).value.Some? <==> f in db.inputs)
  {
    hide DbOk;
    if f in db.inputs { ViewIsSound(db, f); }
  }

  // ----- what the facts are made of --------------------------------------------------------------

  function KeyOf(identity: Option<Identity>, fingerprint: Option<Fingerprint>): Option<Fingerprint> {
    if identity.Some? then Some(identity.value.fingerprint) else fingerprint
  }

  /** What the facts are made of; `body` is the identity of the current body when it is asked for. */
  ghost predicate Assembled(db: Db, paper: string, identity: Option<Identity>, key: Option<Fingerprint>, ordinary: bool,
                            facts: Facts, body: Option<Identity>)
    requires paper in db.papers
  {
    && facts.paper == paper && facts.version == db.papers[paper].current && facts.revision == db.papers[paper].revision
    && facts.root == RootFact(db) && facts.decision == InForce(db, paper)
    && ExecutionSourceOf(db, paper, facts.decision) == Ok(facts.source)
    && facts.pdf == CurrentPdf(db, paper, db.papers[paper].current) && facts.sample == Latest(db.samples, paper, None)
    && (if key.None? then facts.extraction.None? else ExtractionView(db, key.value) == Ok(facts.extraction))
    && facts.reasons == ReasonSet(facts.root, facts.decision, facts.source, facts.pdf, facts.extraction, body, facts.sample,
                                  identity, ordinary)
  }

  lemma FactsAreAssembled(db: Db, paper: string, identity: Option<Identity>, fingerprint: Option<Fingerprint>, ordinary: bool)
    returns (body: Option<Identity>)
    requires DbOk(db) && paper in db.papers && FactsOf(db, paper, identity, fingerprint, ordinary).Ok?
    ensures Assembled(db, paper, identity, KeyOf(identity, fingerprint), ordinary,
                      FactsOf(db, paper, identity, fingerprint, ordinary).value, body)
    ensures var v := FactsOf(db, paper, identity, fingerprint, ordinary).value.extraction;
            v.Some? && v.value.identity.Some? ==> CurrentBodyOf(db, paper) == Ok(CurrentBody(body))
  {
    hide DbOk;
    hide ExtractionView;
    hide ReasonSet;
    hide CurrentBodyOf;
    hide ExecutionSourceOf;
    hide DecisionEvents;
    hide EffectiveDecision;
    EventsOf(db, paper);
    var facts := FactsOf(db, paper, identity, fingerprint, ordinary).value;
    var needed := facts.extraction.Some? && facts.extraction.value.identity.Some?;
    body := if needed then CurrentBodyOf(db, paper).value.identity else None;
  }

  // ----- eligible means cleared -----------------------------------------------------------------

  /** Nothing about the extraction stands in the way. */
  ghost predicate Consumable(pdf: Option<PdfRow>, v: View, body: Option<Identity>, identity: Option<Identity>) {
    && pdf.Some? && pdf.value.body.sha == v.sha
    && v.artifact.Some? && (v.identity.Some? ==> body == v.identity) && (identity.Some? ==> v.identity == identity)
    && (v.attempts != [] ==> FailureOf(v.attempts[|v.attempts| - 1]).None?)
    && v.quality.DocumentGate?
  }

  /** None of the twelve reasons holds. */
  ghost predicate Spared(root: Root, decision: Option<DecisionRow>, source: ExecutionSource, pdf: Option<PdfRow>,
                         extraction: Option<View>, body: Option<Identity>, sample: Option<SampleRow>,
                         identity: Option<Identity>, ordinary: bool, reasons: set<Reason>)
  {
    forall r :: r in reasons ==> !ReasonHolds(r, root, decision, source, pdf, extraction, body, sample, identity, ordinary)
  }

  lemma EmptyReasons(root: Root, decision: Option<DecisionRow>, source: ExecutionSource, pdf: Option<PdfRow>,
                     extraction: Option<View>, body: Option<Identity>, sample: Option<SampleRow>,
                     identity: Option<Identity>, ordinary: bool)
    ensures ReasonSet(root, decision, source, pdf, extraction, body, sample, identity, ordinary) == {} <==>
            Spared(root, decision, source, pdf, extraction, body, sample, identity, ordinary, REFUSALS)
  {
    hide ReasonHolds;
    hide REFUSALS;
    var reasons := ReasonSet(root, decision, source, pdf, extraction, body, sample, identity, ordinary);
    forall r | reasons == {} && r in REFUSALS
      ensures !ReasonHolds(r, root, decision, source, pdf, extraction, body, sample, identity, ordinary)
    {
      assert r !in reasons;
    }
  }

  /** Without a formal gate only an experiment's sampled paper has no reason against it. */
  lemma NoReason(root: Root, decision: Option<DecisionRow>, source: ExecutionSource, pdf: Option<PdfRow>,
                 extraction: Option<View>, body: Option<Identity>, sample: Option<SampleRow>,
                 identity: Option<Identity>, ordinary: bool)
    requires extraction.Some? ==> !extraction.value.quality.FormalGate?
    ensures ReasonSet(root, decision, source, pdf, extraction, body, sample, identity, ordinary) == {} <==>
            && root.purpose.Experiment? && !ordinary
            && decision.Some? && decision.value.body.record.result.Accepted? && source.ProductionSource?
            && extraction.Some? && Consumable(pdf, extraction.value, body, identity)
            && sample.Some? && sample.value.version == pdf.value.version && sample.value.body.sha == pdf.value.body.sha
  {
    hide ReasonSet;
    EmptyReasons(root, decision, source, pdf, extraction, body, sample, identity, ordinary);
    if Spared(root, decision, source, pdf, extraction, body, sample, identity, ordinary, REFUSALS) {
      Listed();
      assert !ReasonHolds(DecisionNotAccepted, root, decision, source, pdf, extraction, body, sample, identity, ordinary);
      assert !ReasonHolds(ExtractionAbsent, root, decision, source, pdf, extraction, body, sample, identity, ordinary);
      assert !ReasonHolds(SampleMismatch, root, decision, source, pdf, extraction, body, sample, identity, ordinary);
      assert !ReasonHolds(OrdinaryConsumptionDenied, root, decision, source, pdf, extraction, body, sample, identity, ordinary);
      SparedExtraction(root, decision, source, pdf, extraction, body, sample, identity, ordinary);
    }
  }

  lemma SparedExtraction(root: Root, decision: Option<DecisionRow>, source: ExecutionSource, pdf: Option<PdfRow>,
                         extraction: Option<View>, body: Option<Identity>, sample: Option<SampleRow>,
                         identity: Option<Identity>, ordinary: bool)
    requires extraction.Some? && !extraction.value.quality.FormalGate?
    requires Spared(root, decision, source, pdf, extraction, body, sample, identity, ordinary, REFUSALS)
    ensures Consumable(pdf, extraction.value, body, identity) && !root.purpose.UnknownPurpose? && source.ProductionSource?
  {
    Listed();
    assert !ReasonHolds(RootUnknown, root, decision, source, pdf, extraction, body, sample, identity, ordinary);
    assert !ReasonHolds(ExecutionSourceUnknown, root, decision, source, pdf, extraction, body, sample, identity, ordinary);
    assert !ReasonHolds(TestExecutionSource, root, decision, source, pdf, extraction, body, sample, identity, ordinary);
    assert !ReasonHolds(PdfAbsent, root, decision, source, pdf, extraction, body, sample, identity, ordinary);
    assert !ReasonHolds(FactsChanged, root, decision, source, pdf, extraction, body, sample, identity, ordinary);
    assert !ReasonHolds(ExtractionFailed, root, decision, source, pdf, extraction, body, sample, identity, ordinary);
    assert !ReasonHolds(QualityFailed, root, decision, source, pdf, extraction, body, sample, identity, ordinary);
    assert !ReasonHolds(QualityAbsent, root, decision, source, pdf, extraction, body, sample, identity, ordinary);
  }

  lemma Listed()
    ensures {DecisionNotAccepted, RootUnknown, ExecutionSourceUnknown, TestExecutionSource, PdfAbsent, ExtractionAbsent} <= REFUSALS
    ensures {FactsChanged, ExtractionFailed, QualityFailed, QualityAbsent, SampleMismatch, OrdinaryConsumptionDenied} <= REFUSALS
  {
  }

  lemma ConsumableByQueries(db: Db, paper: string, f: Fingerprint, identity: Option<Identity>)
    requires DbOk(db) && paper in db.papers && f in db.inputs
    requires ExtractionView(db, f).Ok? && ExtractionView(db, f).value.Some?
    requires identity.Some? ==> identity.value.fingerprint == f
    ensures var pdf, view := CurrentPdf(db, paper, db.papers[paper].current), ExtractionView(db, f).value.value;
            var body := CurrentBodyOf(db, paper);
            body.Ok? && (
              Consumable(pdf, view, body.value.identity, identity) <==>
              && pdf.Some? && pdf.value.body.sha == f.pdf && SuccessfulKeys(db, f.pdf) == {f}
              && (identity.Some? ==> PublishedAs(db, f, identity.value))
              && Reviewed(db.reviews, f) && !ReviewFailed(db.reviews, f))
  {
    hide DbOk;
    hide CurrentBodyOf;
    CurrentBodyByQueries(db, paper);
    ViewIsSound(db, f);
    if Reviewed(db.reviews, f) { ReviewedSucceeded(db, f); }
    var view := ExtractionView(db, f).value.value;
    assert f in SuccessfulKeys(db, f.pdf) ==> f in db.successes;
    if view.identity.Some? {
      assert PublishedAs(db, f, view.identity.value);
    }
  }

  /** What stands in the way of an extraction, read off the rows. */
  lemma ConsumableMeans(db: Db, paper: string, f: Fingerprint, identity: Option<Identity>)
    requires DbOk(db) && paper in db.papers && f in db.inputs
    requires ExtractionView(db, f).Ok? && ExtractionView(db, f).value.Some?
    requires identity.Some? ==> identity.value.fingerprint == f
    ensures var pdf, view := CurrentPdf(db, paper, db.papers[paper].current), ExtractionView(db, f).value.value;
            var body := CurrentBodyOf(db, paper);
            body.Ok? && (
              Consumable(pdf, view, body.value.identity, identity) <==>
              && (exists pdf :: CurrentPdfRow(db, paper, pdf) && pdf.body.sha == f.pdf) && SoleSuccess(db, f)
              && (identity.Some? ==> PublishedRow(db, identity.value)) && PassedInReview(db, f))
  {
    hide CurrentBodyOf;
    hide DbOk;
    hide ExtractionView;
    hide PublishedAs;
    ConsumableByQueries(db, paper, f, identity);
    CurrentPdfIs(db, paper);
    SoleSuccessIs(db, f);
    ReviewsAre(db.reviews, f);
    if identity.Some? { PublishedAsRow(db, f, identity.value); }
  }

  lemma ReviewedSucceeded(db: Db, f: Fingerprint)
    requires DbOk(db) && Reviewed(db.reviews, f)
    ensures f in db.successes
  {
    var i :| 0 <= i < |db.reviews| && db.reviews[i].identity.fingerprint == f;
    assert ReviewOk(db.attempts, db.outcomes, db.successes, db.reviews[i]);
  }

  lemma ViewHasNoFormalGate(db: Db, f: Fingerprint)
    requires ExtractionView(db, f).Ok? && ExtractionView(db, f).value.Some?
    ensures !ExtractionView(db, f).value.value.quality.FormalGate?
  {
    FlawIsNoGate(JoinedRows(db, f));
  }

  lemma {:induction false} FlawIsNoGate(rows: seq<Joined>)
    ensures LastFlaw(rows).Failed? || LastFlaw(rows).AbsentQuality?
  {
    if rows != [] { FlawIsNoGate(rows[..|rows| - 1]); }
  }

  lemma EligibleByQueries(db: Db, paper: string, f: Fingerprint, identity: Option<Identity>, ordinary: bool)
    requires DbOk(db) && paper in db.papers
    requires identity.Some? ==> identity.value.fingerprint == f
    ensures var facts := FactsOf(db, paper, identity, Some(f), ordinary);
            facts.Ok? && (facts.value.Eligible() <==> ClearedByQueries(db, paper, f, identity, ordinary))
  {
    hide DbOk;
    hide CurrentBodyOf;
    FactsAssemble(db, paper, identity, Some(f), ordinary);
    EventsOf(db, paper);
    SourceOf(db, paper);
    ViewOrNothing(db, f);
    var facts := FactsOf(db, paper, identity, Some(f), ordinary).value;
    var needed := facts.extraction.Some? && facts.extraction.value.identity.Some?;
    var body := if needed then CurrentBodyOf(db, paper).value.identity else None;
    if f in db.inputs {
      ConsumableByQueries(db, paper, f, identity);
      ViewHasNoFormalGate(db, f);
      BodyOnlyMatters(facts.pdf, facts.extraction.value, body, CurrentBodyOf(db, paper).value.identity, identity);
    }
    NoReason(facts.root, facts.decision, facts.source, facts.pdf, facts.extraction, body, facts.sample, identity, ordinary);
  }

  /**
   * Eligible facts of a coherent store mean, and are meant by, an experiment root, consumption that is not ordinary,
   * a newest decision that accepts the paper on production screenings, a newest sample frozen for the newest PDF of the
   * current version, the one successful extraction of that PDF, and a layout review with no failed one.
   */
  lemma EligibleIsCleared(db: Db, paper: string, f: Fingerprint, identity: Option<Identity>, ordinary: bool)
    requires DbOk(db) && paper in db.papers
    requires identity.Some? ==> identity.value.fingerprint == f
    ensures var facts := FactsOf(db, paper, identity, Some(f), ordinary);
            facts.Ok? && (facts.value.Eligible() <==> Cleared(db, paper, f, identity, ordinary))
  {
    hide *;
    EligibleByQueries(db, paper, f, identity, ordinary);
    ClearedIs(db, paper, f, identity, ordinary);
  }

  lemma BodyOnlyMatters(pdf: Option<PdfRow>, v: View, body: Option<Identity>, other: Option<Identity>, identity: Option<Identity>)
    requires v.identity.Some? ==> body == other
    ensures Consumable(pdf, v, body, identity) <==> Consumable(pdf, v, other, identity)
  {
  }

  lemma NoKeyNoEligibility(db: Db, paper: string, ordinary: bool)
    requires DbOk(db) && paper in db.papers
    ensures FactsOf(db, paper, None, None, ordinary).Ok? && !FactsOf(db, paper, None, None, ordinary).value.Eligible()
  {
    hide DbOk;
    hide ReasonSet;
    FactsAssemble(db, paper, None, None, ordinary);
    var facts := FactsOf(db, paper, None, None, ordinary).value;
    NoReason(facts.root, facts.decision, facts.source, facts.pdf, None, None, facts.sample, None, ordinary);
  }

  /** In every reachable state: who is eligible, and that production roots and ordinary consumption never are. */
  lemma EligibleFacts(s: System, paper: string, identity: Option<Identity>, fingerprint: Option<Fingerprint>, ordinary: bool)
    requires Reachable(s) && paper in s.db.papers
    ensures var facts := FactsOf(s.db, paper, identity, fingerprint, ordinary);
            && facts.Ok?
            && (facts.value.Eligible() <==>
                  match identity
                  case Some(i) => Cleared(s.db, paper, i.fingerprint, identity, ordinary)
                  case None => fingerprint.Some? && Cleared(s.db, paper, fingerprint.value, None, ordinary))
            && (facts.value.Eligible() ==> s.db.roots != [] && s.db.roots[0].purpose.Experiment? && !ordinary)
  {
    hide SystemOk;
    hide FactsOf;
    ReachableIsOk(s);
    match identity {
      case Some(i) =>
        KeyOfIdentity(s.db, paper, i, fingerprint, ordinary);
        EligibleIsCleared(s.db, paper, i.fingerprint, identity, ordinary);
      case None =>
        if fingerprint.Some? {
          EligibleIsCleared(s.db, paper, fingerprint.value, None, ordinary);
        } else {
          NoKeyNoEligibility(s.db, paper, ordinary);
        }
    }
  }

  lemma KeyOfIdentity(db: Db, paper: string, i: Identity, fingerprint: Option<Fingerprint>, ordinary: bool)
    ensures FactsOf(db, paper, Some(i), fingerprint, ordinary) == FactsOf(db, paper, Some(i), Some(i.fingerprint), ordinary)
  {
  }
}

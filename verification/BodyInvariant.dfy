/** The invariant of the Body tables and its preservation by every transaction. */
module BodyInvariant {
  import opened Prelude
  import opened Ledger
  import opened BodyModel
  import opened BodyQueries
  import opened BodyTransactions

  // ----- table by table -------------------------------------------------------------------------

  ghost predicate PapersOk(papers: map<string, Paper>) {
    forall p :: p in papers ==> PaperOk(papers[p])
  }

  ghost predicate RootsOk(roots: seq<RootRow>) {
    |roots| <= 1 && forall r :: r in roots ==> !r.purpose.UnknownPurpose? && r.digest == (r.rootId, r.purpose, r.at)
  }

  ghost predicate PdfOk(papers: map<string, Paper>, store: set<Artifact>, e: PdfRow) {
    && e.paper in papers && e.version in papers[e.paper].versions
    && e.body.artifact in store && e.body.artifact.OriginalPdf?
    && ValidPdfBytes(e.body.artifact.payload, e.body.sha)
    && e.request == PdfRequest(e.paper, e.body.requestedVersion, e.body.sha)
    && (NamesVersion(e.body.requestedVersion) ==> e.body.requestedVersion.value == e.version)
  }

  ghost predicate PdfsOk(papers: map<string, Paper>, store: set<Artifact>, pdfs: seq<PdfRow>) {
    WellFormed(pdfs) && forall e :: e in pdfs ==> PdfOk(papers, store, e)
  }

  ghost predicate DecisionOk(papers: map<string, Paper>, screenings: map<string, Screening>, e: DecisionRow) {
    && e.paper in papers && DirectAndValid(e.body.record) && Required(e.body.actor)
    && e.request == DecisionRequest(e.paper, e.body.record, e.body.actor, e.body.references)
    && forall r :: r in e.body.references ==> r in screenings && screenings[r].paper == e.paper
  }

  ghost predicate DecisionsOk(papers: map<string, Paper>, screenings: map<string, Screening>, rows: seq<DecisionRow>) {
    WellFormed(rows) && forall e :: e in rows ==> DecisionOk(papers, screenings, e)
  }

  ghost predicate PdfKnown(pdfs: seq<PdfRow>, paper: string, version: string, sha: Digest) {
    exists e :: e in pdfs && e.paper == paper && e.version == version && e.body.sha == sha
  }

  ghost predicate SampleOk(papers: map<string, Paper>, pdfs: seq<PdfRow>, e: SampleRow) {
    && e.paper in papers && (e.body.feed, e.version) in papers[e.paper].discoveries
    && PdfKnown(pdfs, e.paper, e.version, e.body.sha) && Required(e.body.reason)
    && e.request == SampleRequest(e.paper, e.body.feed, e.body.sha, e.body.reason)
  }

  ghost predicate SamplesOk(papers: map<string, Paper>, roots: seq<RootRow>, pdfs: seq<PdfRow>, rows: seq<SampleRow>) {
    && WellFormed(rows)
    && (rows != [] ==> |roots| == 1 && roots[0].purpose.Experiment?)
    && forall e :: e in rows ==> SampleOk(papers, pdfs, e)
  }

  ghost predicate ShaKnown(pdfs: seq<PdfRow>, sha: Digest) {
    exists e :: e in pdfs && e.body.sha == sha
  }

  ghost predicate InputOk(snapshots: map<string, Semantics>, pdfs: seq<PdfRow>, fp: Fingerprint, row: InputRow) {
    && row.backend == fp.semantics.backend && row.sha == fp.pdf
    && row.snapshot in snapshots && snapshots[row.snapshot] == fp.semantics
    && ShaKnown(pdfs, row.sha)
  }

  ghost predicate InputsOk(snapshots: map<string, Semantics>, pdfs: seq<PdfRow>, inputs: map<Fingerprint, InputRow>) {
    forall f :: f in inputs ==> InputOk(snapshots, pdfs, f, inputs[f])
  }

  ghost predicate AttemptOk(inputs: map<Fingerprint, InputRow>, a: Attempt) {
    && a.fingerprint in inputs && a.backend == a.fingerprint.semantics.backend
    && (a.audit.Some? ==> a.audit.value.Matches(a.fingerprint.semantics))
  }

  /** A settled attempt that leaves room for another one. */
  ghost predicate Retriable(outcomes: map<string, Outcome>, id: string) {
    id in outcomes && outcomes[id].failure.Some? && !Permanent(outcomes[id].failure) && outcomes[id].published.None?
  }

  /** One or two attempts, numbered in order, all but the last one retriable. */
  ghost predicate ChainOk(rows: seq<Attempt>, outcomes: map<string, Outcome>) {
    && 1 <= |rows| <= 2
    && (forall i :: 0 <= i < |rows| ==> rows[i].ordinal == i + 1)
    && (forall i :: 0 <= i < |rows| - 1 ==> Retriable(outcomes, rows[i].id))
  }

  ghost predicate DistinctIds(attempts: seq<Attempt>) {
    forall i, j :: 0 <= i < j < |attempts| ==> attempts[i].id != attempts[j].id
  }

  ghost predicate AttemptsOk(inputs: map<Fingerprint, InputRow>, attempts: seq<Attempt>, outcomes: map<string, Outcome>) {
    && DistinctIds(attempts)
    && (forall a :: a in attempts ==> AttemptOk(inputs, a))
    && (forall f :: f in inputs ==> ChainOk(AttemptsOf(attempts, f), outcomes))
  }

  /** What a published artifact says about the attempt that published it. */
  ghost predicate ArtifactAgrees(store: set<Artifact>, a: Attempt, o: Outcome, p: Published) {
    && p.artifact in store && p.artifact.Extraction? && LayoutReview !in p.artifact.issues
    && var m := p.artifact.manifest;
       && m.identity == Identity(a.fingerprint, p.reading, p.evidenceMap)
       && m.configHash == a.fingerprint.semantics.configHash && m.modelsHash == a.fingerprint.semantics.modelsHash
       && m.audit == a.audit && m.peak == o.peak && m.elapsed <= o.elapsed
       && o.flaw == (if p.artifact.issues == [] then None else Some(p.artifact.issues[0]))
       && (o.flaw.None? ==> o.failure.None?)
       && (o.flaw.Some? ==> Permanent(o.failure))
  }

  ghost predicate OutcomeOk(store: set<Artifact>, a: Attempt, o: Outcome) {
    && o.elapsed >= 0 && o.peak >= 0
    && (o.published.None? ==> o.failure.Some? && o.flaw.None?)
    && (o.published.Some? ==> ArtifactAgrees(store, a, o, o.published.value))
  }

  ghost predicate OutcomesOk(store: set<Artifact>, attempts: seq<Attempt>, outcomes: map<string, Outcome>) {
    && (forall a :: a in attempts && a.id in outcomes ==> OutcomeOk(store, a, outcomes[a.id]))
    && (forall k :: k in outcomes ==> Lookup(attempts, k).Some?)
  }

  ghost predicate Succeeded(attempts: seq<Attempt>, outcomes: map<string, Outcome>, f: Fingerprint, id: string) {
    var a := Lookup(attempts, id);
    a.Some? && a.value.fingerprint == f && id in outcomes && outcomes[id].failure.None?
  }

  ghost predicate SuccessesOk(attempts: seq<Attempt>, outcomes: map<string, Outcome>, successes: map<Fingerprint, string>) {
    && (forall f :: f in successes ==> Succeeded(attempts, outcomes, f, successes[f]))
    && (forall a :: a in attempts && a.id in outcomes && outcomes[a.id].failure.None? ==>
          a.fingerprint in successes && successes[a.fingerprint] == a.id)
  }

  /** If the attempt published anything, it is what the identity names. */
  ghost predicate Reviews(outcomes: map<string, Outcome>, a: Attempt, identity: Identity) {
    a.id in outcomes && outcomes[a.id].published.Some? ==>
      identity == Identity(a.fingerprint, outcomes[a.id].published.value.reading,
                           outcomes[a.id].published.value.evidenceMap)
  }

  ghost predicate ReviewOk(attempts: seq<Attempt>, outcomes: map<string, Outcome>, successes: map<Fingerprint, string>,
                           r: ReviewRow) {
    && r.identity.fingerprint in successes
    && (forall a :: a in attempts && a.fingerprint == r.identity.fingerprint ==> Reviews(outcomes, a, r.identity))
    && r.checks.Keys == LAYOUT_CHECKS && (r.passed <==> AllPassed(r.checks))
    && Required(r.note) && Required(r.actor)
    && r.request == ReviewRequest(r.identity, r.passed, r.checks, r.note, r.actor)
  }

  /** Unique ids and requests, and no passing review after a failing one of the same extraction. */
  ghost predicate ReviewOrder(reviews: seq<ReviewRow>) {
    forall i, j :: 0 <= i < j < |reviews| ==>
      && reviews[i].id != reviews[j].id && reviews[i].requestId != reviews[j].requestId
      && (reviews[i].identity.fingerprint == reviews[j].identity.fingerprint && !reviews[i].passed ==> !reviews[j].passed)
  }

  ghost predicate ReviewsOk(attempts: seq<Attempt>, outcomes: map<string, Outcome>, successes: map<Fingerprint, string>,
                            reviews: seq<ReviewRow>) {
    ReviewOrder(reviews) && forall r :: r in reviews ==> ReviewOk(attempts, outcomes, successes, r)
  }

  ghost predicate ExtractionOk(db: Db) {
    && AttemptsOk(db.inputs, db.attempts, db.outcomes) && OutcomesOk(db.store, db.attempts, db.outcomes)
    && SuccessesOk(db.attempts, db.outcomes, db.successes)
    && ReviewsOk(db.attempts, db.outcomes, db.successes, db.reviews)
  }

  /** The invariant of the store. */
  ghost predicate DbOk(db: Db) {
    && PapersOk(db.papers) && RootsOk(db.roots) && PdfsOk(db.papers, db.store, db.pdfs)
    && DecisionsOk(db.papers, db.screenings, db.decisions) && SamplesOk(db.papers, db.roots, db.pdfs, db.samples)
    && InputsOk(db.snapshots, db.pdfs, db.inputs) && ExtractionOk(db)
  }

  // ----- attempts of one fingerprint ------------------------------------------------------------

  lemma AttemptsOfAppend(attempts: seq<Attempt>, a: Attempt, f: Fingerprint)
    ensures AttemptsOf(attempts + [a], f) == AttemptsOf(attempts, f) + (if a.fingerprint == f then [a] else [])
  {
  }

  lemma OrdinalOrderIsInsertionOrder(attempts: seq<Attempt>, f: Fingerprint, outcomes: map<string, Outcome>)
    requires ChainOk(AttemptsOf(attempts, f), outcomes)
    ensures InOrdinalOrder(attempts, f) == AttemptsOf(attempts, f)
  {
    SortKeepsAscending(AttemptsOf(attempts, f), (a: Attempt) => a.ordinal);
  }

  function LastOf(attempts: seq<Attempt>, f: Fingerprint): Attempt
    requires AttemptsOf(attempts, f) != []
  {
    AttemptsOf(attempts, f)[|AttemptsOf(attempts, f)| - 1]
  }

  /** Only the last attempt of a fingerprint can be unsettled, successful, published or permanently failed. */
  lemma NotRetriableIsLast(inputs: map<Fingerprint, InputRow>, attempts: seq<Attempt>, outcomes: map<string, Outcome>,
                           a: Attempt)
    requires AttemptsOk(inputs, attempts, outcomes) && a in attempts && !Retriable(outcomes, a.id)
    ensures AttemptsOf(attempts, a.fingerprint) != [] && a == LastOf(attempts, a.fingerprint)
  {
    var rows := AttemptsOf(attempts, a.fingerprint);
    assert AttemptOk(inputs, a);
    assert ChainOk(rows, outcomes);
    var i :| 0 <= i < |rows| && rows[i] == a;
  }

  lemma UnsettledHasNoSuccess(db: Db, a: Attempt)
    requires ExtractionOk(db) && a in db.attempts && a.id !in db.outcomes
    ensures a.fingerprint !in db.successes
  {
    if a.fingerprint in db.successes {
      var b := Lookup(db.attempts, db.successes[a.fingerprint]).value;
      NotRetriableIsLast(db.inputs, db.attempts, db.outcomes, a);
      NotRetriableIsLast(db.inputs, db.attempts, db.outcomes, b);
      assert false;
    }
  }

  lemma SameId(attempts: seq<Attempt>, a: Attempt, b: Attempt)
    requires DistinctIds(attempts) && a in attempts && b in attempts && a.id == b.id
    ensures a == b
  {
  }

  // ----- the view -------------------------------------------------------------------------------

  function LastOutcome(db: Db, f: Fingerprint): Option<Outcome>
    requires AttemptsOf(db.attempts, f) != []
  {
    Join(LastOf(db.attempts, f), db.outcomes).outcome
  }

  function LastPublication(db: Db, f: Fingerprint): Option<Published>
    requires AttemptsOf(db.attempts, f) != []
  {
    PublishedOf(Join(LastOf(db.attempts, f), db.outcomes))
  }

  function LastFailure(db: Db, f: Fingerprint): Option<Failure>
    requires AttemptsOf(db.attempts, f) != []
  {
    FailureOf(Join(LastOf(db.attempts, f), db.outcomes))
  }

  ghost predicate ViewAgrees(db: Db, f: Fingerprint, v: View)
    requires AttemptsOf(db.attempts, f) != []
  {
    var p := LastPublication(db, f);
    var failed := f in db.successes && ReviewFailed(db.reviews, f);
    && v.fingerprint == f && v.backend == f.semantics.backend && v.sha == f.pdf
    && v.attempts == JoinAll(AttemptsOf(db.attempts, f), db.outcomes)
    && v.artifact == (if p.None? then None else Some(p.value.artifact))
    && v.identity == (if p.None? then None else Some(Identity(f, p.value.reading, p.value.evidenceMap)))
    && v.permanent == (Permanent(LastFailure(db, f)) || failed)
    && (f in db.successes <==> LastOutcome(db, f).Some? && LastFailure(db, f).None?)
    && (f in db.successes ==> p.Some? && db.successes[f] == LastOf(db.attempts, f).id)
    && v.quality == (if failed then Failed(v.artifact.value, LayoutReview)
                     else if f in db.successes && Reviewed(db.reviews, f) then DocumentGate(v.artifact.value)
                     else if p.Some? && LastOutcome(db, f).value.flaw.Some?
                       then Failed(p.value.artifact, LastOutcome(db, f).value.flaw.value)
                     else AbsentQuality)
  }

  lemma ReviewsNameTheSuccess(db: Db, f: Fingerprint)
    requires ReviewsOk(db.attempts, db.outcomes, db.successes, db.reviews)
    requires AttemptsOf(db.attempts, f) != [] && LastPublication(db, f).Some?
    ensures ReviewsAgree(db.reviews, Identity(f, LastPublication(db, f).value.reading, LastPublication(db, f).value.evidenceMap))
  {
    var last := LastOf(db.attempts, f);
    assert last in db.attempts && last.fingerprint == f;
    forall i | 0 <= i < |db.reviews| && db.reviews[i].identity.fingerprint == f
      ensures db.reviews[i].identity == Identity(f, LastPublication(db, f).value.reading, LastPublication(db, f).value.evidenceMap)
    {
      assert ReviewOk(db.attempts, db.outcomes, db.successes, db.reviews[i]);
      assert Reviews(db.outcomes, last, db.reviews[i].identity);
    }
  }

  /** On a coherent store the view never reports corruption, and it is decided by the last attempt. */
  lemma ViewIsSound(db: Db, f: Fingerprint)
    requires DbOk(db) && f in db.inputs
    ensures ExtractionView(db, f).Ok? && ExtractionView(db, f).value.Some?
    ensures AttemptsOf(db.attempts, f) != [] && ViewAgrees(db, f, ExtractionView(db, f).value.value)
  {
    SuccessIsLast(db, f);
    if f in db.successes {
      ReviewsNameTheSuccess(db, f);
    }
    assert InputOk(db.snapshots, db.pdfs, f, db.inputs[f]);
    assert ChainOk(AttemptsOf(db.attempts, f), db.outcomes);
    ViewFromRows(db, f);
  }

  lemma ViewFromRows(db: Db, f: Fingerprint)
    requires f in db.inputs && db.inputs[f].backend == f.semantics.backend && db.inputs[f].sha == f.pdf
    requires ChainOk(AttemptsOf(db.attempts, f), db.outcomes)
    requires f in db.successes <==> LastOutcome(db, f).Some? && LastFailure(db, f).None?
    requires f in db.successes ==> LastPublication(db, f).Some? && db.successes[f] == LastOf(db.attempts, f).id
    requires f in db.successes ==>
               var p := LastPublication(db, f).value; ReviewsAgree(db.reviews, Identity(f, p.reading, p.evidenceMap))
    ensures ExtractionView(db, f).Ok? && ExtractionView(db, f).value.Some?
    ensures ViewAgrees(db, f, ExtractionView(db, f).value.value)
  {
    hide LastPublished;
    hide LastFlaw;
    hide AnyPermanent;
    hide JoinedRows;
    hide ReviewsAgree;
    hide ReviewFailed;
    hide Reviewed;
    RowsInOrder(db, f);
    OnlyLastCounts(AttemptsOf(db.attempts, f), db.outcomes);
  }

  lemma RowsInOrder(db: Db, f: Fingerprint)
    requires ChainOk(AttemptsOf(db.attempts, f), db.outcomes)
    ensures AttemptsOf(db.attempts, f) != []
    ensures var joined := JoinAll(AttemptsOf(db.attempts, f), db.outcomes);
            joined == JoinedRows(db, f) && joined[|joined| - 1] == Join(LastOf(db.attempts, f), db.outcomes)
  {
    OrdinalOrderIsInsertionOrder(db.attempts, f, db.outcomes);
  }

  lemma SuccessIsLast(db: Db, f: Fingerprint)
    requires ExtractionOk(db) && f in db.inputs
    ensures AttemptsOf(db.attempts, f) != []
    ensures f in db.successes <==> LastOutcome(db, f).Some? && LastFailure(db, f).None?
    ensures f in db.successes ==> LastPublication(db, f).Some? && db.successes[f] == LastOf(db.attempts, f).id
  {
    assert ChainOk(AttemptsOf(db.attempts, f), db.outcomes);
    var last := LastOf(db.attempts, f);
    assert last in db.attempts && last.fingerprint == f;
    if f in db.successes {
      var b := Lookup(db.attempts, db.successes[f]).value;
      NotRetriableIsLast(db.inputs, db.attempts, db.outcomes, b);
      assert OutcomeOk(db.store, b, db.outcomes[b.id]);
    }
  }

  lemma OnlyLastCounts(rows: seq<Attempt>, outcomes: map<string, Outcome>)
    requires ChainOk(rows, outcomes)
    ensures var joined := JoinAll(rows, outcomes); var last := joined[|joined| - 1];
            && LastPublished(joined) == PublishedOf(last)
            && LastFlaw(joined) == (if PublishedOf(last).Some? && last.outcome.value.flaw.Some?
                                    then Failed(PublishedOf(last).value.artifact, last.outcome.value.flaw.value)
                                    else AbsentQuality)
            && (AnyPermanent(joined) <==> Permanent(FailureOf(last)))
  {
    var joined := JoinAll(rows, outcomes);
    var front := joined[..|joined| - 1];
    if |rows| == 2 {
      assert Retriable(outcomes, rows[0].id);
      assert front == [joined[0]] && front[..0] == [];
    }
    assert LastPublished(front) == None && LastFlaw(front) == AbsentQuality;
  }
}

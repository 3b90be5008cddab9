/**
 * The closure checker that backup and restore run over the Body tables, written the way it reads them,
 * and the proof that every coherent store passes it.
 */
module BodyValidation {
  import opened Prelude
  import opened Ledger
  import opened BodyModel
  import opened BodyQueries
  import opened BodyTransactions
  import opened BodyInvariant
  import opened ExtractionPreservation
  import opened BodyPreservation

  // ----- the checker ----------------------------------------------------------------------------

  ghost predicate RootsValid(db: Db) {
    db.roots != [] ==> !RootFact(db).purpose.UnknownPurpose?
  }

  /** Every paper's sequence column, read in order, is 1..n. */
  ghost predicate HistoryValid<Q, B>(rows: seq<Entry<Q, B>>) {
    forall e :: e in rows ==>
      SequenceColumn(rows, e.paper) == CountingUp(|SequenceColumn(rows, e.paper)|)
  }

  ghost predicate EventValid(db: Db, paper: string, e: DecisionRow) {
    && Required(e.body.actor)
    && e.request == DecisionRequest(paper, e.body.record, e.body.actor, e.body.references)
    && ExecutionSourceOf(db, paper, Some(e)).Ok?
  }

  ghost predicate EventsValid(db: Db, paper: string) {
    && DecisionEvents(db, paper).Ok?
    && var events := DecisionEvents(db, paper).value;
       && (forall i :: 0 <= i < |events| ==> events[i].sequence == i + 1)
       && (forall i :: 0 <= i < |events| ==> EventValid(db, paper, events[i]))
  }

  ghost predicate DecisionsValid(db: Db) {
    forall d :: d in db.decisions ==> EventsValid(db, d.paper)
  }

  ghost predicate PdfRowValid(db: Db, e: PdfRow) {
    && e.paper in db.papers && e.version in db.papers[e.paper].versions
    && e.body.artifact in db.store && e.body.artifact.OriginalPdf?
    && ValidPdfBytes(e.body.artifact.payload, e.body.sha)
    && e.request == PdfRequest(e.paper, e.body.requestedVersion, e.body.sha)
    && e.body.requestedVersion in {None, Some(e.version)}
  }

  ghost predicate SampleRowValid(db: Db, e: SampleRow) {
    && (exists p :: p in db.pdfs && p.paper == e.paper && p.version == e.version && p.body.sha == e.body.sha)
    && e.paper in db.papers && (e.body.feed, e.version) in db.papers[e.paper].discoveries
    && Required(e.body.reason)
    && e.request == SampleRequest(e.paper, e.body.feed, e.body.sha, e.body.reason)
    && RootFact(db).purpose.Experiment?
  }

  /** Reading a published extraction back: its identity must be the expected one. */
  datatype Loaded = LoadRefused | QualityRefused(first: QualityFailure) | LoadedOk

  function Load(db: Db, artifact: Artifact, expected: Identity): Loaded {
    if artifact !in db.store || !artifact.Extraction? || artifact.manifest.identity != expected then LoadRefused
    else if artifact.issues != [] then QualityRefused(artifact.issues[0])
    else LoadedOk
  }

  ghost predicate PublicationValid(db: Db, f: Fingerprint, view: View, index: nat)
    requires index < |view.attempts| && PublishedOf(view.attempts[index]).Some?
  {
    var j := view.attempts[index];
    var artifact := PublishedOf(j).value.artifact;
    && index == |view.attempts| - 1 && view.identity.Some?
    && (match Load(db, artifact, view.identity.value)
        case LoadRefused => false
        case QualityRefused(first) =>
          view.quality.Failed? && view.quality.why == first && Permanent(FailureOf(j))
        case LoadedOk =>
          FailureOf(j).None? && f in db.successes && db.successes[f] == j.attempt.id)
    && artifact.Extraction?
    && var m := artifact.manifest;
       && m.configHash == f.semantics.configHash && m.modelsHash == f.semantics.modelsHash
       && m.audit == j.attempt.audit && m.peak == j.outcome.value.peak && m.elapsed <= j.outcome.value.elapsed
  }

  ghost predicate AttemptValid(db: Db, f: Fingerprint, view: View, index: nat)
    requires index < |view.attempts| && f in db.inputs
  {
    var j := view.attempts[index];
    && (j.attempt.audit.Some? ==> j.attempt.audit.value.Matches(f.semantics))
    && j.attempt.backend == db.inputs[f].backend
    && if j.outcome.None? then index == |view.attempts| - 1 else
         && j.outcome.value.elapsed >= 0 && j.outcome.value.peak >= 0
         && (if PublishedOf(j).None? then FailureOf(j).Some? else PublicationValid(db, f, view, index))
         && (Permanent(FailureOf(j)) ==> index == |view.attempts| - 1)
  }

  ghost predicate InputValid(db: Db, f: Fingerprint)
    requires f in db.inputs
  {
    var row := db.inputs[f];
    && row.snapshot in db.snapshots && f == Fingerprint(row.sha, db.snapshots[row.snapshot])
    && db.snapshots[row.snapshot].backend == row.backend
    && (exists p :: p in db.pdfs && p.body.sha == row.sha)
    && ExtractionView(db, f).Ok? && ExtractionView(db, f).value.Some?
    && var view := ExtractionView(db, f).value.value;
       && 1 <= |view.attempts| <= 2
       && (forall i :: 0 <= i < |view.attempts| ==> view.attempts[i].attempt.ordinal == i + 1)
       && (forall i :: 0 <= i < |view.attempts| ==> AttemptValid(db, f, view, i))
  }

  ghost predicate ReviewValid(db: Db, r: ReviewRow) {
    && ExtractionView(db, r.identity.fingerprint).Ok? && ExtractionView(db, r.identity.fingerprint).value.Some?
    && ExtractionView(db, r.identity.fingerprint).value.value.identity.Some?
    && ExtractionView(db, r.identity.fingerprint).value.value.artifact.Some?
    && r.checks.Keys == LAYOUT_CHECKS && (r.passed <==> AllPassed(r.checks))
    && Required(r.note) && Required(r.actor)
    && r.request == ReviewRequest(r.identity, r.passed, r.checks, r.note, r.actor)
  }

  ghost predicate BodyValid(db: Db) {
    && RootsValid(db) && HistoryValid(db.pdfs) && HistoryValid(db.samples) && DecisionsValid(db)
    && (forall e :: e in db.pdfs ==> PdfRowValid(db, e))
    && (forall e :: e in db.samples ==> SampleRowValid(db, e))
    && (forall f :: f in db.inputs ==> InputValid(db, f))
    && (forall r :: r in db.reviews ==> ReviewValid(db, r))
  }

  // ----- coherent stores pass -------------------------------------------------------------------

  lemma LedgerHistoryValid<Q, B>(rows: seq<Entry<Q, B>>)
    requires WellFormed(rows)
    ensures HistoryValid(rows) == true
  {
    forall e | e in rows ensures SequenceColumn(rows, e.paper) == CountingUp(|SequenceColumn(rows, e.paper)|) {
      OrderIsInsertionOrder(rows, e.paper);
    }
  }

  lemma EventsPass(db: Db, paper: string)
    requires DecisionsOk(db.papers, db.screenings, db.decisions) && paper in db.papers
    ensures EventsValid(db, paper) == true
  {
    hide DecisionEvents;
    EventsAreTheRows(db, paper);
    var rows, all := RowsOf(db.decisions, paper), History(db.decisions, paper);
    assert all == CountingUp(|all|);
    forall i | 0 <= i < |rows| ensures rows[i].sequence == i + 1 && EventValid(db, paper, rows[i]) {
      assert DecisionOk(db.papers, db.screenings, rows[i]);
    }
  }

  lemma DecisionsPass(db: Db)
    requires DecisionsOk(db.papers, db.screenings, db.decisions)
    ensures DecisionsValid(db) == true
  {
    forall d | d in db.decisions ensures EventsValid(db, d.paper) == true {
      assert DecisionOk(db.papers, db.screenings, d);
      EventsPass(db, d.paper);
    }
  }

  /** No PDF was attached under an empty version name, unless its version really is called that. */
  ghost predicate VersionsNamed(pdfs: seq<PdfRow>) {
    forall e :: e in pdfs && e.body.requestedVersion == Some("") ==> e.version == ""
  }

  lemma RowsPass(db: Db)
    requires DbOk(db)
    ensures RootsValid(db) && HistoryValid(db.pdfs) && HistoryValid(db.samples)
    ensures (forall e :: e in db.pdfs ==> PdfRowValid(db, e)) <==> VersionsNamed(db.pdfs)
    ensures forall e :: e in db.samples ==> SampleRowValid(db, e)
  {
    LedgerHistoryValid(db.pdfs);
    LedgerHistoryValid(db.samples);
    assert db.roots != [] ==> db.roots[0] in db.roots;
    forall e | e in db.pdfs ensures PdfRowValid(db, e) <==> e.body.requestedVersion in {None, Some(e.version)} {
      assert PdfOk(db.papers, db.store, e);
    }
    forall e | e in db.samples ensures SampleRowValid(db, e) {
      assert SampleOk(db.papers, db.pdfs, e);
    }
  }

  lemma AttemptRowOk(db: Db, f: Fingerprint, i: nat)
    requires DbOk(db) && f in db.inputs && i < |AttemptsOf(db.attempts, f)|
    ensures var a := AttemptsOf(db.attempts, f)[i];
            && a.fingerprint == f && AttemptOk(db.inputs, a)
            && (a.id in db.outcomes ==> OutcomeOk(db.store, a, db.outcomes[a.id]))
            && (i < |AttemptsOf(db.attempts, f)| - 1 ==> Retriable(db.outcomes, a.id))
  {
    assert AttemptsOf(db.attempts, f)[i] in AttemptsOf(db.attempts, f);
    assert ChainOk(AttemptsOf(db.attempts, f), db.outcomes);
  }

  lemma AttemptPasses(db: Db, f: Fingerprint, view: View, i: nat)
    requires DbOk(db) && f in db.inputs && AttemptsOf(db.attempts, f) != [] && ViewAgrees(db, f, view) && i < |view.attempts|
    requires db.inputs[f].backend == f.semantics.backend
    ensures AttemptValid(db, f, view, i) == true
  {
    hide DbOk;
    AttemptRowOk(db, f, i);
  }

  lemma InputPasses(db: Db, f: Fingerprint)
    requires DbOk(db) && f in db.inputs
    ensures InputValid(db, f) == true
  {
    hide DbOk;
    ViewIsSound(db, f);
    HasAttempts(db, f);
    InputRowOk(db, f);
    var view := ExtractionView(db, f).value.value;
    forall i | 0 <= i < |view.attempts| ensures AttemptValid(db, f, view, i) == true {
      AttemptPasses(db, f, view, i);
    }
  }

  lemma InputRowOk(db: Db, f: Fingerprint)
    requires DbOk(db) && f in db.inputs
    ensures InputOk(db.snapshots, db.pdfs, f, db.inputs[f]) == true
  {
  }

  lemma ReviewPasses(db: Db, r: ReviewRow)
    requires DbOk(db) && r in db.reviews
    ensures ReviewValid(db, r) == true
  {
    hide DbOk;
    ReviewRowOk(db, r);
    ViewIsSound(db, r.identity.fingerprint);
  }

  lemma ReviewRowOk(db: Db, r: ReviewRow)
    requires DbOk(db) && r in db.reviews
    ensures ReviewOk(db.attempts, db.outcomes, db.successes, r) && r.identity.fingerprint in db.inputs
  {
    var a := Lookup(db.attempts, db.successes[r.identity.fingerprint]);
    assert Succeeded(db.attempts, db.outcomes, r.identity.fingerprint, db.successes[r.identity.fingerprint]);
    assert AttemptOk(db.inputs, a.value);
  }

  /** The invariant implies everything the checker asks but that no attachment was requested with an empty version. */
  lemma CoherentStorePasses(db: Db)
    requires DbOk(db)
    ensures BodyValid(db) <==> VersionsNamed(db.pdfs)
  {
    hide DbOk;
    hide PdfRowValid;
    RowsPass(db);
    DecisionTablePasses(db);
    forall f | f in db.inputs ensures InputValid(db, f) == true { InputPasses(db, f); }
    forall r | r in db.reviews ensures ReviewValid(db, r) == true { ReviewPasses(db, r); }
  }

  lemma DecisionTablePasses(db: Db)
    requires DbOk(db)
    ensures DecisionsValid(db) == true
  {
    DecisionsPass(db);
  }
}

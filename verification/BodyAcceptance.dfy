/** When each request of the Body services is accepted, why it is refused, and which row it writes, said of the tables. */
module BodyAcceptance {
  import opened Prelude
  import opened Ledger
  import opened BodyModel
  import opened BodyQueries
  import opened BodyTransactions
  import opened BodyInvariant
  import opened BodyPreservation
  import opened ExtractionPreservation
  import opened BodySafety
  import opened BodyRequests
  import opened BodyRows
  import BodyReasons

  // ----- what every request ledger shares -------------------------------------------------------

  ghost predicate Unseen<Q, B>(rows: seq<Entry<Q, B>>, requestId: string) {
    forall e :: e in rows ==> e.requestId != requestId
  }

  ghost predicate IdUsed<Q, B>(rows: seq<Entry<Q, B>>, id: string) {
    exists e :: e in rows && e.id == id
  }

  /** A request seen before is answered with its row if it says the same, and refused if it does not. */
  ghost predicate SeenMeans<Q, B>(rows: seq<Entry<Q, B>>, requestId: string, request: Q, reply: Reply<Entry<Q, B>>) {
    forall e :: e in rows && e.requestId == requestId ==> reply == if e.request == request then Ok(e) else Err(RequestConflict)
  }

  /** One more than the greatest number of the paper so far; the first one is 1. */
  ghost predicate NextNumber<Q, B>(rows: seq<Entry<Q, B>>, paper: string, n: int) {
    && (forall e :: e in rows && e.paper == paper ==> 1 <= e.sequence < n)
    && (n == 1 || exists e :: e in rows && e.paper == paper && e.sequence == n - 1)
  }

  lemma NextIsNumber<Q, B>(rows: seq<Entry<Q, B>>, paper: string)
    requires Contiguous(rows)
    ensures NextNumber(rows, paper, NextSequence(rows, paper))
  {
    MaxIsLength(rows, paper);
    RowsAreTheEntries(rows, paper);
    var mine, all := RowsOf(rows, paper), History(rows, paper);
    assert all == CountingUp(|all|);
    if mine != [] { assert mine[|mine| - 1].sequence == |all|; }
  }

  lemma ReplayMeans<Q, B>(rows: seq<Entry<Q, B>>, requestId: string, request: Q)
    requires Distinct(rows)
    ensures Unseen(rows, requestId) <==> Replay(rows, requestId, request) == Ok(None)
    ensures forall e :: e in rows && e.requestId == requestId ==>
              Replay(rows, requestId, request) == if e.request == request then Ok(Some(e)) else Err(RequestConflict)
    ensures !Unseen(rows, requestId) ==> exists e :: e in rows && e.requestId == requestId
  {
    forall e | e in rows && e.requestId == requestId ensures Find(rows, requestId) == Some(e) { FindOfMember(rows, e); }
  }

  lemma AdmitsMeans<Q, B>(rows: seq<Entry<Q, B>>, e: Entry<Q, B>)
    ensures Admits(rows, e) <==> Unseen(rows, e.requestId) && !IdUsed(rows, e.id)
  {
  }

  lemma LedgersAreFormed(db: Db)
    requires DbOk(db)
    ensures WellFormed(db.pdfs) && WellFormed(db.decisions) && WellFormed(db.samples)
  {
  }

  // ----- the root -------------------------------------------------------------------------------

  /** The one root is registered at most once, with a known purpose, and answers every later request for that purpose. */
  ghost predicate RegisterMeans(db: Db, purpose: RootPurpose, id: string, now: int, t: Tx<Root>) {
    var first := db.roots == [];
    && (t.reply == Err(InvalidRequest) <==> purpose.UnknownPurpose?)
    && (t.reply == Err(RootConflict) <==> !purpose.UnknownPurpose? && !first && db.roots[0].purpose != purpose)
    && (t.reply.Ok? <==> !purpose.UnknownPurpose? && (first || db.roots[0].purpose == purpose))
    && t.db == (if t.reply.Ok? && first then db.(roots := [RootRow(id, purpose, now, (id, purpose, now))]) else db)
    && (t.reply.Ok? ==> t.db.roots != [] && t.reply.value == Root(Some(t.db.roots[0].rootId), purpose, Some(t.db.roots[0].at)))
  }

  lemma RegistersMean(db: Db, purpose: RootPurpose, id: string, now: int)
    requires DbOk(db)
    ensures RegisterMeans(db, purpose, id, now, RegisterRoot(db, purpose, id, now))
  {
    hide DbOk;
    hide RootFact;
    RootFactIs(db);
  }

  // ----- attachments ----------------------------------------------------------------------------

  /** What the first transaction of an attachment answers. */
  ghost predicate AttachReadMeans(db: Db, call: AttachCall, reply: Reply<AttachPlan>) {
    var texts := Required(call.paper) && Required(call.requestId);
    var unseen := Unseen(db.pdfs, call.requestId);
    && (reply == Err(InvalidRequest) <==> !texts)
    && (reply == Err(InvalidPdf) <==> texts && !PdfShaped(call.pdf))
    && (texts && PdfShaped(call.pdf) ==>
          && (forall e :: e in db.pdfs && e.requestId == call.requestId ==>
                reply == if e.request == PdfRequest(call.paper, call.version, Sha256(call.pdf)) then Ok(Already(e))
                         else Err(RequestConflict))
          && (unseen && call.paper !in db.papers ==> reply == Err(PaperUnknown))
          && (unseen && call.paper in db.papers ==>
                var selected := if call.version in {None, Some("")} then db.papers[call.paper].current else call.version.value;
                reply == if selected in db.papers[call.paper].versions then Ok(Attach(selected)) else Err(VersionMismatch)))
  }

  lemma AttachReadsMean(db: Db, call: AttachCall)
    requires DbOk(db)
    ensures AttachReadMeans(db, call, AttachRead(db, call))
  {
    hide DbOk;
    hide Required;
    LedgersAreFormed(db);
    ReplayMeans(db.pdfs, call.requestId, call.Request());
  }

  /** What the second transaction answers and writes: without a requested version the paper must not have moved on. */
  ghost predicate AttachMeans(db: Db, call: AttachCall, selected: string, id: string, now: int, t: Tx<PdfRow>) {
    var unseen := Unseen(db.pdfs, call.requestId);
    var unknown := call.version.None? && call.paper !in db.papers;
    var moved := call.version.None? && call.paper in db.papers && db.papers[call.paper].current != selected;
    var request := PdfRequest(call.paper, call.version, Sha256(call.pdf));
    && SeenMeans(db.pdfs, call.requestId, request, t.reply)
    && (t.reply.Err? || !unseen ==> t.db == db)
    && (unseen ==>
          && (t.reply == Err(PaperUnknown) <==> unknown)
          && (t.reply == Err(FactsChanged) <==> moved)
          && (t.reply == Err(DatabaseFailed) <==> !unknown && !moved && IdUsed(db.pdfs, id))
          && (t.reply.Ok? <==> !unknown && !moved && !IdUsed(db.pdfs, id))
          && (t.reply.Ok? ==>
                var row := t.reply.value;
                && row == Entry(id, call.requestId, request, call.paper, selected, row.sequence, now,
                                PdfBody(OriginalPdf(call.pdf), Sha256(call.pdf), call.version))
                && NextNumber(db.pdfs, call.paper, row.sequence)
                && t.db == db.(pdfs := db.pdfs + [row])))
  }

  /** The row of a new request is bound to the requested version, or else to the current one at the moment of writing. */
  ghost predicate AttachBinds(db: Db, call: AttachCall, selected: string, id: string, t: Tx<PdfRow>)
    requires call.paper in db.papers
  {
    && (t.db != db <==> !IdUsed(db.pdfs, id) && (call.version.Some? || db.papers[call.paper].current == selected))
    && (t.reply.Ok? ==> t.reply.value.version == match call.version
                                                 case None => db.papers[call.paper].current
                                                 case Some(v) => if v == "" then selected else v)
  }

  /** A row is added exactly for a new request and id whose version is asked for or still is the current one. */
  lemma AttachesMean(db: Db, call: AttachCall, selected: string, id: string, now: int)
    requires DbOk(db)
    ensures AttachMeans(db, call, selected, id, now, AttachWrite(db, call, selected, id, now))
    ensures AttachOk(db, call, selected) && Unseen(db.pdfs, call.requestId) ==>
              AttachBinds(db, call, selected, id, AttachWrite(db, call, selected, id, now))
  {
    hide DbOk;
    hide Required;
    hide Replay;
    hide Admits;
    LedgersAreFormed(db);
    ReplayMeans(db.pdfs, call.requestId, call.Request());
    AdmitsMeans(db.pdfs, PdfRowFor(db, call, selected, id, now));
    NextIsNumber(db.pdfs, call.paper);
    var t := AttachWrite(db, call, selected, id, now);
    if Unseen(db.pdfs, call.requestId) && t.reply.Ok? { assert |t.db.pdfs| == |db.pdfs| + 1; }
  }

  // ----- samples --------------------------------------------------------------------------------

  /** A PDF of the paper's current version that is its newest, has this content and came in by this feed. */
  ghost predicate Sampleable(db: Db, call: FreezeCall, pdf: PdfRow)
    requires call.paper in db.papers
  {
    && CurrentPdfRow(db, call.paper, pdf) && pdf.body.sha == call.sha
    && (call.feed, pdf.version) in db.papers[call.paper].discoveries
  }

  ghost predicate FreezeMeans(db: Db, call: FreezeCall, id: string, now: int, t: Tx<SampleRow>) {
    var texts := Required(call.paper) && Required(call.feed) && Required(call.reason) && Required(call.requestId);
    var unseen := Unseen(db.samples, call.requestId);
    var request := SampleRequest(call.paper, call.feed, call.sha, call.reason);
    var experiment := db.roots != [] && db.roots[0].purpose.Experiment?;
    && (t.reply == Err(InvalidRequest) <==> !texts)
    && (t.reply.Err? || !unseen ==> t.db == db)
    && (texts ==> SeenMeans(db.samples, call.requestId, request, t.reply))
    && (texts && unseen ==>
          && (t.reply == Err(PaperUnknown) <==> call.paper !in db.papers)
          && (t.reply == Err(RootUnknown) <==> call.paper in db.papers && !experiment)
          && (call.paper in db.papers && experiment ==> FrozenMeans(db, call, id, now, request, t)))
  }

  ghost predicate FrozenMeans(db: Db, call: FreezeCall, id: string, now: int, request: SampleRequest, t: Tx<SampleRow>)
    requires call.paper in db.papers
  {
    var fits := exists pdf :: Sampleable(db, call, pdf);
    && (t.reply == Err(SampleMismatch) <==> !fits)
    && (t.reply == Err(DatabaseFailed) <==> fits && IdUsed(db.samples, id))
    && (t.reply.Ok? <==> fits && !IdUsed(db.samples, id))
    && (t.reply.Ok? ==>
          var row := t.reply.value;
          && row == Entry(id, call.requestId, request, call.paper, db.papers[call.paper].current, row.sequence, now,
                          SampleBody(call.feed, call.sha, call.reason))
          && NextNumber(db.samples, call.paper, row.sequence)
          && t.db == db.(samples := db.samples + [row]))
  }

  /** A sample is frozen exactly in an experiment, for the newest PDF of the current version as the feed discovered it. */
  lemma FreezesMean(db: Db, call: FreezeCall, id: string, now: int)
    requires DbOk(db)
    ensures FreezeMeans(db, call, id, now, FreezeSample(db, call, id, now))
  {
    hide DbOk;
    hide FrozenMeans;
    LedgersAreFormed(db);
    ReplayMeans(db.samples, call.requestId, call.Request());
    RootFactIs(db);
    if call.paper in db.papers && Unseen(db.samples, call.requestId) { NewSampleMeans(db, call, id, now); }
  }

  lemma NewSampleMeans(db: Db, call: FreezeCall, id: string, now: int)
    requires DbOk(db) && call.paper in db.papers && Unseen(db.samples, call.requestId)
    ensures var t := FreezeSample(db, call, id, now);
            call.Acceptable() && RootFact(db).purpose.Experiment? ==>
              FrozenMeans(db, call, id, now, SampleRequest(call.paper, call.feed, call.sha, call.reason), t)
  {
    hide DbOk;
    hide WellFormed;
    LedgersAreFormed(db);
    ReplayMeans(db.samples, call.requestId, call.Request());
    CurrentPdfIs(db, call.paper);
    var pdf := CurrentPdf(db, call.paper, db.papers[call.paper].current);
    if pdf.Some? {
      assert Sampleable(db, call, pdf.value) <==>
             pdf.value.body.sha == call.sha && (call.feed, pdf.value.version) in db.papers[call.paper].discoveries;
      AdmitsMeans(db.samples, SampleRowFor(db, call, pdf.value.version, id, now));
    }
    NextIsNumber(db.samples, call.paper);
  }

  // ----- decisions ------------------------------------------------------------------------------

  ghost predicate DecideMeans(db: Db, call: DecideCall, id: string, now: int, t: Tx<DecisionRow>) {
    var texts := Required(call.paper) && Required(call.requestId) && Required(call.actor);
    var direct := call.record.source.DirectManualDecision?;
    var unseen := Unseen(db.decisions, call.requestId);
    && (t.reply == Err(InvalidRequest) <==> !texts || (direct && !call.record.valid))
    && (t.reply == Err(SourceRequiresDedicatedPath) <==> texts && !direct)
    && (t.reply.Err? || !unseen ==> t.db == db)
    && (texts && direct && call.record.valid ==>
          && SeenMeans(db.decisions, call.requestId, DecisionRequest(call.paper, call.record, call.actor, call.references), t.reply)
          && (unseen ==> DecidedMeans(db, call, id, now, t)))
  }

  ghost predicate DecidedMeans(db: Db, call: DecideCall, id: string, now: int, t: Tx<DecisionRow>) {
    var known := call.paper in db.papers;
    var referred := forall r :: r in call.references ==> r in db.screenings && db.screenings[r].paper == call.paper;
    && (t.reply == Err(PaperUnknown) <==> !known)
    && (t.reply == Err(ScreeningMismatch) <==> known && !referred)
    && (t.reply == Err(DatabaseFailed) <==> known && referred && IdUsed(db.decisions, id))
    && (t.reply.Ok? <==> known && referred && !IdUsed(db.decisions, id))
    && (t.reply.Ok? ==>
          var row := t.reply.value;
          && row == Entry(id, call.requestId, DecisionRequest(call.paper, call.record, call.actor, call.references), call.paper,
                          db.papers[call.paper].current, row.sequence, now,
                          DecisionBody(db.papers[call.paper].revision, call.record, call.actor, call.references))
          && NextNumber(db.decisions, call.paper, row.sequence)
          && t.db == db.(decisions := db.decisions + [row]))
  }

  lemma SeenDecisionMeans(db: Db, call: DecideCall, id: string, now: int)
    requires DbOk(db) && call.Acceptable()
    ensures SeenMeans(db.decisions, call.requestId, call.Request(), Decide(db, call, id, now).reply)
    ensures !Unseen(db.decisions, call.requestId) ==> Decide(db, call, id, now).db == db
  {
    hide DbOk;
    hide DecisionEvents;
    LedgersAreFormed(db);
    ReplayMeans(db.decisions, call.requestId, call.Request());
    if Find(db.decisions, call.requestId).Some? && Find(db.decisions, call.requestId).value.request == call.Request() {
      ReplayedDecision(db, call, id, now);
    }
  }

  lemma NewDecisionMeans(db: Db, call: DecideCall, id: string, now: int)
    requires DbOk(db) && call.Acceptable() && Unseen(db.decisions, call.requestId)
    ensures DecidedMeans(db, call, id, now, Decide(db, call, id, now))
  {
    hide Admits;
    hide Contiguous;
    hide DbOk;
    hide DecisionEvents;
    hide Distinct;
    hide FindId;
    hide History;
    hide IdUsed;
    hide NextNumber;
    hide NextSequence;
    hide Replay;
    hide Required;
    hide RowsOf;
    hide Unseen;
    hide WellFormed;
    LedgersAreFormed(db);
    ReplayMeans(db.decisions, call.requestId, call.Request());
    NextIsNumber(db.decisions, call.paper);
    if call.paper in db.papers {
      var row := DecisionRowFor(db, call, id, now);
      AdmitsMeans(db.decisions, row);
      if Admits(db.decisions, row) && ReferencesOk(db, call.paper, call.references) {
        NewDecisionIsLast(db, call, id, now);
      }
    }
  }

  lemma NewDecisionIsLast(db: Db, call: DecideCall, id: string, now: int)
    requires DbOk(db) && call.Acceptable() && call.paper in db.papers && ReferencesOk(db, call.paper, call.references)
    requires Admits(db.decisions, DecisionRowFor(db, call, id, now))
    ensures var row := DecisionRowFor(db, call, id, now);
            DecisionEvents(db.(decisions := db.decisions + [row]), call.paper) == Ok(RowsOf(db.decisions, call.paper) + [row])
  {
    hide DbOk;
    hide DecisionEvents;
    var row := DecisionRowFor(db, call, id, now);
    DecisionRowKeeps(db, row);
    AppendedEventIsLast(db, row);
  }

  /** A decision is added exactly for a direct, valid record on a known paper whose references are screenings of it. */
  lemma DecidesMean(db: Db, call: DecideCall, id: string, now: int)
    requires DbOk(db)
    ensures DecideMeans(db, call, id, now, Decide(db, call, id, now))
  {
    if call.Acceptable() {
    hide Admits;
    hide DbOk;
    hide DecisionEvents;
    hide DecisionRowFor;
    hide Distinct;
    hide FindId;
    hide IdUsed;
    hide NextNumber;
    hide ReferencesOk;
    hide Replay;
    hide Required;
    hide Unseen;
    hide WellFormed;
      SeenDecisionMeans(db, call, id, now);
      if Unseen(db.decisions, call.requestId) {
        NewDecisionMeans(db, call, id, now);
      } else {
        LedgersAreFormed(db);
        ReplayMeans(db.decisions, call.requestId, call.Request());
      }
    } else {
    }
  }

  // ----- jobs -----------------------------------------------------------------------------------

  /** What the read transaction and the preflight of an extraction answer. */
  ghost predicate PrepareMeans(db: Db, paper: string, snapshot: string, audit: Option<Audit>, reply: Reply<Job>) {
    var matching := snapshot in db.snapshots && (audit.None? || audit.value.semantics == db.snapshots[snapshot]);
    && (snapshot !in db.snapshots ==> reply == Err(InvalidRequest))
    && (snapshot in db.snapshots && paper !in db.papers ==> reply == Err(PaperUnknown))
    && (snapshot in db.snapshots && paper in db.papers ==>
          && ((forall pdf :: !CurrentPdfRow(db, paper, pdf)) ==> reply == Err(PdfAbsent))
          && forall pdf :: CurrentPdfRow(db, paper, pdf) ==>
               reply == if matching then Ok(Job(paper, snapshot, db.snapshots[snapshot], pdf, audit)) else Err(InvalidRequest))
  }

  /** A job is prepared for the newest PDF of the current version; stored material is never corrupt. */
  lemma PreparesMean(db: Db, paper: string, snapshot: string, audit: Option<Audit>)
    requires DbOk(db)
    ensures PrepareMeans(db, paper, snapshot, audit, PrepareJob(db, paper, snapshot, audit))
  {
    hide CurrentPdfRow;
    hide DbOk;
    if paper in db.papers {
      CurrentPdfIs(db, paper);
      var pdf := CurrentPdf(db, paper, db.papers[paper].current);
      if pdf.Some? { CurrentPdfIsStored(db, paper, pdf.value); }
    }
  }

  lemma CurrentPdfIsStored(db: Db, paper: string, pdf: PdfRow)
    requires DbOk(db) && paper in db.papers && CurrentPdfRow(db, paper, pdf)
    ensures pdf.body.artifact in db.store && pdf.body.artifact.OriginalPdf?
    ensures ValidPdfBytes(pdf.body.artifact.payload, pdf.body.sha)
  {
    assert PdfOk(db.papers, db.store, pdf);
  }

  // ----- layout reviews -------------------------------------------------------------------------

  ghost predicate ReviewIdUsed(db: Db, id: string) {
    exists r :: r in db.reviews && r.id == id
  }

  /** What a review call answers and writes. */
  ghost predicate ReviewMeans(db: Db, call: ReviewCall, id: string, now: int, t: Tx<View>) {
    var f := call.identity.fingerprint;
    var request := ReviewRequest(call.identity, call.passed, call.checks, call.note, call.actor);
    var sound := Required(call.note) && Required(call.actor) && Required(call.requestId) && call.checks.Keys == LAYOUT_CHECKS
                 && (call.passed <==> forall c :: c in call.checks ==> call.checks[c]);
    && (t.reply == Err(InvalidRequest) <==> !sound)
    && (t.reply.Err? ==> t.db == db)
    && (sound ==> forall r :: r in db.reviews && r.requestId == call.requestId ==>
          if r.request != request then t.reply == Err(RequestConflict)
          else t.db == db && t.reply.Ok? && ExtractionView(db, f) == Ok(Some(t.reply.value)))
    && (sound && (forall r :: r in db.reviews ==> r.requestId != call.requestId) ==> NewReviewMeans(db, call, id, now, t))
  }

  /**
   * A new review needs the published identity of a successful extraction, and one that passes needs that no review of
   * that extraction failed.
   */
  ghost predicate NewReviewMeans(db: Db, call: ReviewCall, id: string, now: int, t: Tx<View>) {
    var f := call.identity.fingerprint;
    var published := PublishedRow(db, call.identity);
    var barred := f !in db.successes || (call.passed && FailedInReview(db, f));
    && (t.reply == Err(CorruptReference) <==> !published)
    && (t.reply == Err(LayoutConflict) <==> published && barred)
    && (t.reply == Err(DatabaseFailed) <==> published && !barred && ReviewIdUsed(db, id))
    && (t.reply.Ok? <==> published && !barred && !ReviewIdUsed(db, id))
    && (t.reply.Ok? ==>
          && t.db == db.(reviews := db.reviews + [
                           ReviewRow(id, call.requestId, ReviewRequest(call.identity, call.passed, call.checks, call.note, call.actor),
                                     call.identity, call.passed, call.checks, call.note, call.actor, now)])
          && ExtractionView(t.db, f) == Ok(Some(t.reply.value)) && BodyReasons.ViewMeans(t.db, f, t.reply.value))
  }

  /** A published extraction is closed to a review when it did not succeed, or when it failed a review and this one passes. */
  lemma ConflictIs(db: Db, f: Fingerprint, v: View, passed: bool)
    requires DbOk(db) && f in db.inputs && ExtractionView(db, f) == Ok(Some(v)) && v.artifact.Some?
    ensures v.permanent && (passed || v.quality != Failed(v.artifact.value, LayoutReview)) <==>
            f !in db.successes || (passed && FailedInReview(db, f))
  {
    hide DbOk;
    hide ExtractionView;
    ViewIsSound(db, f);
    FlawIsAutomatic(db, f);
    ReviewsAre(db.reviews, f);
  }

  lemma IdentityIsViewed(db: Db, identity: Identity)
    requires DbOk(db)
    ensures var seen := ExtractionView(db, identity.fingerprint);
            && seen.Ok?
            && (PublishedRow(db, identity) <==>
                  seen.value.Some? && seen.value.value.identity == Some(identity) && seen.value.value.artifact.Some?)
            && (PublishedRow(db, identity) ==> identity.fingerprint in db.inputs)
  {
    hide DbOk;
    hide PassedInReview;
    HasInput(db, identity.fingerprint);
    if identity.fingerprint in db.inputs {
      BodyReasons.ViewIsRead(db, identity.fingerprint);
    } else {
      assert ExtractionView(db, identity.fingerprint) == Ok(None);
    }
  }

  lemma FindReviewIs(reviews: seq<ReviewRow>, requestId: string)
    requires ReviewOrder(reviews)
    ensures forall r :: r in reviews && r.requestId == requestId ==> FindReview(reviews, requestId) == Some(r)
    ensures FindReview(reviews, requestId).None? <==> forall r :: r in reviews ==> r.requestId != requestId
  {
    forall r | r in reviews && r.requestId == requestId ensures FindReview(reviews, requestId) == Some(r) {
      var found := FindReview(reviews, requestId).value;
      assert found in reviews && found.requestId == r.requestId;
    }
  }

  /** A stored review names what its extraction published. */
  lemma StoredReviewIsPublished(db: Db, r: ReviewRow)
    requires DbOk(db) && r in db.reviews
    ensures PublishedRow(db, r.identity) && r.request.identity == r.identity && ReviewOrder(db.reviews)
  {
    hide PublishedRow;
    assert ReviewOk(db.attempts, db.outcomes, db.successes, r);
    var f := r.identity.fingerprint;
    HasInput(db, f);
    PublicationIs(db, f);
    SuccessIsLast(db, f);
    var last := LastOf(db.attempts, f);
    assert last in AttemptsOf(db.attempts, f);
    assert Reviews(db.outcomes, last, r.identity);
  }

  lemma ReviewIdIs(db: Db, id: string)
    ensures ReviewIdTaken(db.reviews, id) <==> ReviewIdUsed(db, id)
  {
    if r :| r in db.reviews && r.id == id {
      var i :| 0 <= i < |db.reviews| && db.reviews[i] == r;
    }
  }

  /** The call, once it was accepted as well formed, not seen before and about a published extraction. */
  lemma PublishedReviewIs(db: Db, call: ReviewCall, id: string, now: int, view: View)
    requires call.Acceptable() && FindReview(db.reviews, call.requestId).None?
    requires ExtractionView(db, call.identity.fingerprint) == Ok(Some(view))
    requires view.identity == Some(call.identity) && view.artifact.Some?
    ensures var t, key := ReviewLayout(db, call, id, now), call.identity.fingerprint;
            var later := db.(reviews := db.reviews + [ReviewRowFor(call, id, now)]);
            if view.permanent && (call.passed || view.quality != Failed(view.artifact.value, LayoutReview))
            then t == Reject(db, LayoutConflict)
            else if key !in db.successes || ReviewIdTaken(db.reviews, id) then t == Reject(db, DatabaseFailed)
            else ExtractionView(later, key).Ok? && ExtractionView(later, key).value.Some? ==>
                   t == Tx(later, Ok(ExtractionView(later, key).value.value))
  {
    hide ExtractionView;
  }

  lemma NewReviewsMean(db: Db, call: ReviewCall, id: string, now: int)
    requires DbOk(db) && call.Acceptable() && FindReview(db.reviews, call.requestId).None?
    ensures NewReviewMeans(db, call, id, now, ReviewLayout(db, call, id, now))
  {
    hide DbOk;
    hide ExtractionView;
    IdentityIsViewed(db, call.identity);
    ReviewIdIs(db, id);
    var f, seen := call.identity.fingerprint, ExtractionView(db, call.identity.fingerprint);
    if PublishedRow(db, call.identity) {
      var view := seen.value.value;
      ConflictIs(db, f, view, call.passed);
      PublishedReviewIs(db, call, id, now, view);
      if !(f !in db.successes || (call.passed && FailedInReview(db, f))) && !ReviewIdTaken(db.reviews, id) {
        LandsAsMeant(db, call, view, id, now);
      }
    } else {
      assert ReviewLayout(db, call, id, now) == Reject(db, CorruptReference);
    }
  }

  lemma LandsAsMeant(db: Db, call: ReviewCall, view: View, id: string, now: int)
    requires DbOk(db) && call.Acceptable() && FindReview(db.reviews, call.requestId).None?
    requires call.identity.fingerprint in db.inputs && ExtractionView(db, call.identity.fingerprint) == Ok(Some(view))
    requires view.identity == Some(call.identity) && view.artifact.Some? && !ReviewIdTaken(db.reviews, id)
    requires !(view.permanent && (call.passed || view.quality != Failed(view.artifact.value, LayoutReview)))
    ensures var f := call.identity.fingerprint;
            var request := ReviewRequest(call.identity, call.passed, call.checks, call.note, call.actor);
            var later := db.(reviews := db.reviews + [ReviewRow(id, call.requestId, request, call.identity, call.passed, call.checks,
                                                                 call.note, call.actor, now)]);
            && later == db.(reviews := db.reviews + [ReviewRowFor(call, id, now)])
            && ExtractionView(later, f).Ok? && ExtractionView(later, f).value.Some?
            && BodyReasons.ViewMeans(later, f, ExtractionView(later, f).value.value)
  {
    hide DbOk;
    hide ExtractionView;
    ReviewLands(db, call, view, id, now);
    BodyReasons.ViewIsRead(db.(reviews := db.reviews + [ReviewRowFor(call, id, now)]), call.identity.fingerprint);
  }

  lemma ReviewsAreOrdered(db: Db)
    requires DbOk(db)
    ensures ReviewOrder(db.reviews)
  {
  }

  lemma RepeatedReviewIs(db: Db, call: ReviewCall, id: string, now: int)
    requires call.Acceptable() && FindReview(db.reviews, call.requestId).Some?
    ensures var r, t, seen := FindReview(db.reviews, call.requestId).value, ReviewLayout(db, call, id, now),
                              ExtractionView(db, call.identity.fingerprint);
            && (r.request != call.Request() ==> t == Reject(db, RequestConflict))
            && (r.request == call.Request() && seen.Ok? && seen.value.Some?
                && seen.value.value.identity == Some(call.identity) && seen.value.value.artifact.Some? ==>
                  t == Tx(db, Ok(seen.value.value)))
  {
    hide ExtractionView;
    hide FindReview;
  }

  lemma RepeatedReviewsMean(db: Db, call: ReviewCall, id: string, now: int)
    requires DbOk(db) && call.Acceptable() && FindReview(db.reviews, call.requestId).Some?
    ensures var r, t := FindReview(db.reviews, call.requestId).value, ReviewLayout(db, call, id, now);
            if r.request != call.Request() then t == Reject(db, RequestConflict)
            else t.db == db && t.reply.Ok? && ExtractionView(db, call.identity.fingerprint) == Ok(Some(t.reply.value))
  {
    hide DbOk;
    hide ReviewLayout;
    var r := FindReview(db.reviews, call.requestId).value;
    RepeatedReviewIs(db, call, id, now);
    if r.request == call.Request() {
      StoredReviewIsPublished(db, r);
      IdentityIsViewed(db, call.identity);
    }
  }

  /** A repeated review adds nothing and answers the present view; a new one is accepted exactly when nothing bars it. */
  lemma ReviewsMean(db: Db, call: ReviewCall, id: string, now: int)
    requires DbOk(db)
    ensures ReviewMeans(db, call, id, now, ReviewLayout(db, call, id, now))
  {
    hide DbOk;
    hide ExtractionView;
    if !call.Acceptable() {
      assert ReviewLayout(db, call, id, now) == Reject(db, InvalidRequest);
    } else {
      ReviewsAreOrdered(db);
      FindReviewIs(db.reviews, call.requestId);
      if FindReview(db.reviews, call.requestId).None? {
        ReviewKeeps(db, call, id, now);
        NewReviewsMean(db, call, id, now);
      } else {
        RepeatedReviewsMean(db, call, id, now);
      }
    }
  }
}

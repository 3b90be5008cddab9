/**
 * Every write transaction of the Body services as one atomic function of the database value.
 * A transaction that answers an error commits nothing; the unique, foreign-key and check constraints
 * that an insert can meet answer `DatabaseFailed`.
 */
module BodyTransactions {
  import opened Prelude
  import opened Ledger
  import opened BodyModel
  import opened BodyQueries

  function Reject<T>(db: Db, reason: Reason): Tx<T> {
    Tx(db, Err(reason))
  }

  // ----- root -----------------------------------------------------------------------------------

  function RegisterRoot(db: Db, purpose: RootPurpose, id: string, now: int): Tx<Root> {
    if purpose.UnknownPurpose? then Reject(db, InvalidRequest) else
      var previous := RootFact(db);
      if !previous.purpose.UnknownPurpose? then
        if previous.purpose != purpose then Reject(db, RootConflict) else Tx(db, Ok(previous))
      else if db.roots != [] then Reject(db, RootConflict)
      else Tx(db.(roots := [RootRow(id, purpose, now, (id, purpose, now))]), Ok(Root(Some(id), purpose, Some(now))))
  }

  // ----- request ledgers ------------------------------------------------------------------------

  /** `replay`: the row an earlier request left, or a conflict when that request said something else. */
  function Replay<Q(==), B>(rows: seq<Entry<Q, B>>, requestId: string, request: Q): Reply<Option<Entry<Q, B>>> {
    var prior := Find(rows, requestId);
    if prior.Some? && prior.value.request != request then Err(RequestConflict) else Ok(prior)
  }

  /** The unique constraints of a ledger table. */
  predicate Admits<Q, B>(rows: seq<Entry<Q, B>>, e: Entry<Q, B>) {
    Find(rows, e.requestId).None? && FindId(rows, e.id).None?
  }

  // ----- PDF attachment -------------------------------------------------------------------------

  datatype AttachCall = AttachCall(paper: string, pdf: Bytes, requestId: string, version: Option<string>) {
    function Request(): PdfRequest { PdfRequest(paper, version, Sha256(pdf)) }
    predicate Acceptable() { Required(paper) && Required(requestId) && PdfShaped(pdf) }
  }

  /** What the read transaction settles: an earlier row, or the version to attach to. */
  datatype AttachPlan = Already(row: PdfRow) | Attach(selected: string)

  function AttachRead(db: Db, call: AttachCall): Reply<AttachPlan> {
    if !Required(call.paper) || !Required(call.requestId) then Err(InvalidRequest)
    else if !PdfShaped(call.pdf) then Err(InvalidPdf)
    else
      var prior := Replay(db.pdfs, call.requestId, call.Request());
      if prior.Err? then Err(prior.error)
      else if prior.value.Some? then Ok(Already(prior.value.value))
      else if call.paper !in db.papers then Err(PaperUnknown)
      else
        var selected := if NamesVersion(call.version) then call.version.value else db.papers[call.paper].current;
        if selected !in db.papers[call.paper].versions then Err(VersionMismatch) else Ok(Attach(selected))
  }

  function PdfRowFor(db: Db, call: AttachCall, selected: string, id: string, now: int): PdfRow {
    Entry(id, call.requestId, call.Request(), call.paper, selected, NextSequence(db.pdfs, call.paper), now,
          PdfBody(OriginalPdf(call.pdf), Sha256(call.pdf), call.version))
  }

  function AttachWrite(db: Db, call: AttachCall, selected: string, id: string, now: int): Tx<PdfRow> {
    var prior := Replay(db.pdfs, call.requestId, call.Request());
    if prior.Err? then Reject(db, prior.error)
    else if prior.value.Some? then Tx(db, Ok(prior.value.value))
    else if call.version.None? && call.paper !in db.papers then Reject(db, PaperUnknown)
    else if call.version.None? && db.papers[call.paper].current != selected then Reject(db, FactsChanged)
    else
      var row := PdfRowFor(db, call, selected, id, now);
      if !Admits(db.pdfs, row) then Reject(db, DatabaseFailed) else Tx(db.(pdfs := db.pdfs + [row]), Ok(row))
  }

  // ----- decisions ------------------------------------------------------------------------------

  datatype DecideCall = DecideCall(paper: string, record: ReasonRecord, requestId: string, actor: string,
                                   references: set<string>) {
    function Request(): DecisionRequest { DecisionRequest(paper, record, actor, references) }
    predicate Acceptable() {
      Required(paper) && Required(requestId) && Required(actor) && record.source.DirectManualDecision? && record.valid
    }
  }

  function DecisionRowFor(db: Db, call: DecideCall, id: string, now: int): DecisionRow
    requires call.paper in db.papers
  {
    Entry(id, call.requestId, call.Request(), call.paper, db.papers[call.paper].current,
          NextSequence(db.decisions, call.paper), now,
          DecisionBody(db.papers[call.paper].revision, call.record, call.actor, call.references))
  }

  function Decide(db: Db, call: DecideCall, id: string, now: int): Tx<DecisionRow> {
    if !Required(call.paper) || !Required(call.requestId) || !Required(call.actor) then Reject(db, InvalidRequest)
    else if !call.record.source.DirectManualDecision? then Reject(db, SourceRequiresDedicatedPath)
    else if !call.record.valid then Reject(db, InvalidRequest)
    else
      var prior := Replay(db.decisions, call.requestId, call.Request());
      if prior.Err? then Reject(db, prior.error)
      else if prior.value.Some? then
        var events := DecisionEvents(db, call.paper);
        if events.Err? then Reject(db, events.error) else
          var row := FindId(events.value, prior.value.value.id);
          if row.None? then Reject(db, CorruptReference) else Tx(db, Ok(row.value))
      else if call.paper !in db.papers then Reject(db, PaperUnknown)
      else if !ReferencesOk(db, call.paper, call.references) then Reject(db, ScreeningMismatch)
      else
        var row := DecisionRowFor(db, call, id, now);
        if !Admits(db.decisions, row) then Reject(db, DatabaseFailed) else
          var db' := db.(decisions := db.decisions + [row]);
          var events := DecisionEvents(db', call.paper);
          if events.Err? then Reject(db, events.error)
          else if events.value == [] then Reject(db, CorruptReference)
          else Tx(db', Ok(events.value[|events.value| - 1]))
  }

  // ----- samples --------------------------------------------------------------------------------

  datatype FreezeCall = FreezeCall(paper: string, feed: string, sha: Digest, reason: string, requestId: string) {
    function Request(): SampleRequest { SampleRequest(paper, feed, sha, reason) }
    predicate Acceptable() { Required(paper) && Required(feed) && Required(reason) && Required(requestId) }
  }

  function SampleRowFor(db: Db, call: FreezeCall, version: string, id: string, now: int): SampleRow {
    Entry(id, call.requestId, call.Request(), call.paper, version, NextSequence(db.samples, call.paper), now,
          SampleBody(call.feed, call.sha, call.reason))
  }

  function FreezeSample(db: Db, call: FreezeCall, id: string, now: int): Tx<SampleRow> {
    if !call.Acceptable() then Reject(db, InvalidRequest) else
      var prior := Replay(db.samples, call.requestId, call.Request());
      if prior.Err? then Reject(db, prior.error)
      else if prior.value.Some? then Tx(db, Ok(prior.value.value))
      else if call.paper !in db.papers then Reject(db, PaperUnknown)
      else
        var pdf := CurrentPdf(db, call.paper, db.papers[call.paper].current);
        if !RootFact(db).purpose.Experiment? then Reject(db, RootUnknown)
        else if pdf.None? || pdf.value.body.sha != call.sha
                || (call.feed, pdf.value.version) !in db.papers[call.paper].discoveries
        then Reject(db, SampleMismatch)
        else
          var row := SampleRowFor(db, call, pdf.value.version, id, now);
          if !Admits(db.samples, row) then Reject(db, DatabaseFailed)
          else Tx(db.(samples := db.samples + [row]), Ok(row))
  }

  // ----- extraction -----------------------------------------------------------------------------

  /** What a caller of `extract` holds after its read transaction and preflight. */
  datatype Job = Job(paper: string, snapshot: string, semantics: Semantics, pdf: PdfRow, audit: Option<Audit>) {
    function Key(): Fingerprint { Fingerprint(pdf.body.sha, semantics) }
  }

  function PrepareJob(db: Db, paper: string, snapshot: string, audit: Option<Audit>): Reply<Job> {
    if snapshot !in db.snapshots then Err(InvalidRequest)
    else if paper !in db.papers then Err(PaperUnknown)
    else
      var pdf := CurrentPdf(db, paper, db.papers[paper].current);
      if pdf.None? then Err(PdfAbsent)
      else if pdf.value.body.artifact !in db.store || !pdf.value.body.artifact.OriginalPdf?
              || !ValidPdfBytes(pdf.value.body.artifact.payload, pdf.value.body.sha) then Err(CorruptReference)
      else if audit.Some? && !audit.value.Matches(db.snapshots[snapshot]) then Err(InvalidRequest)
      else Ok(Job(paper, snapshot, db.snapshots[snapshot], pdf.value, audit))
  }

  function UnknownOutcome(now: int): Outcome {
    Outcome(Some(OutcomeUnknown), None, None, 0, 0, now)
  }

  /** `settle_failure`, once per attempt of the view that has no outcome yet. */
  function SettleDeparted(outcomes: map<string, Outcome>, rows: seq<Joined>, now: int): map<string, Outcome> {
    if rows == [] then outcomes else
      var last := rows[|rows| - 1];
      var rest := SettleDeparted(outcomes, rows[..|rows| - 1], now);
      if last.outcome.None? then rest[last.attempt.id := UnknownOutcome(now)] else rest
  }

  /** The primary key, the ordinal check and the unique (backend, fingerprint, ordinal). */
  predicate AdmitsAttempt(attempts: seq<Attempt>, a: Attempt) {
    && a.ordinal in {1, 2}
    && forall i :: 0 <= i < |attempts| ==>
         && attempts[i].id != a.id
         && (attempts[i].backend, attempts[i].fingerprint, attempts[i].ordinal) != (a.backend, a.fingerprint, a.ordinal)
  }

  /** Either the extraction was already decided, or an attempt was claimed. */
  datatype ClaimReply = Decided(view: View) | ClaimedAttempt(attempt: Attempt)

  function ClaimOn(db: Db, before: Db, job: Job, ordinal: int, id: string, now: int): Tx<ClaimReply> {
    var row := Attempt(id, job.Key(), job.semantics.backend, ordinal, now, job.audit);
    if !AdmitsAttempt(db.attempts, row) then Reject(before, DatabaseFailed)
    else Tx(db.(attempts := db.attempts + [row]), Ok(ClaimedAttempt(row)))
  }

  predicate Spent(v: View) {
    v.artifact.Some? || v.permanent || 2 - |v.attempts| == 0
  }

  function Claim(db: Db, job: Job, id: string, now: int): Tx<ClaimReply> {
    if job.paper !in db.papers then Reject(db, PaperUnknown)
    else if CurrentPdf(db, job.paper, db.papers[job.paper].current) != Some(job.pdf) then Reject(db, FactsChanged)
    else
      var existing := ExtractionView(db, job.Key());
      if existing.Err? then Reject(db, existing.error)
      else if existing.value.None? then
        var row := InputRow(job.semantics.backend, job.pdf.body.sha, job.snapshot);
        ClaimOn(db.(inputs := db.inputs[job.Key() := row]), db, job, 1, id, now)
      else
        var view := existing.value.value;
        if view.backend != job.semantics.backend || view.sha != job.pdf.body.sha then Reject(db, CorruptReference)
        else
          var settled := db.(outcomes := SettleDeparted(db.outcomes, view.attempts, now));
          var again := ExtractionView(settled, job.Key());
          if again.Err? then Reject(db, again.error)
          else if again.value.None? then Reject(db, CorruptReference)
          else if Spent(again.value.value) then Tx(settled, Ok(Decided(again.value.value)))
          else ClaimOn(settled, db, job, |again.value.value.attempts| + 1, id, now)
  }

  /** Foreign key to the attempt, primary key of the outcome. */
  predicate AdmitsOutcome(db: Db, attempt: string) {
    attempt !in db.outcomes && exists i :: 0 <= i < |db.attempts| && db.attempts[i].id == attempt
  }

  function Max0(x: int): int { if x < 0 then 0 else x }

  function SettleFailure(db: Db, attempt: string, failure: Failure, elapsed: int, peak: int, now: int): Tx<()> {
    if !AdmitsOutcome(db, attempt) then Reject(db, DatabaseFailed)
    else Tx(db.(outcomes := db.outcomes[attempt := Outcome(Some(failure), None, None, elapsed, Max0(peak), now)]), Ok(()))
  }

  function PublishedOutcome(a: Artifact, elapsed: int, now: int): Outcome
    requires a.Extraction?
  {
    var flaw := if a.issues == [] then None else Some(a.issues[0]);
    Outcome(if flaw.None? then None else if flaw.value.PdfTextLayer? then Some(NoTextLayer) else Some(QualityGate),
            Some(Published(a, a.manifest.identity.reading, a.manifest.identity.evidenceMap)),
            flaw, elapsed, a.manifest.peak, now)
  }

  function SettlePublished(db: Db, fp: Fingerprint, attempt: string, a: Artifact, elapsed: int, now: int): Tx<()>
    requires a.Extraction?
  {
    if !AdmitsOutcome(db, attempt) || a !in db.store || (a.issues == [] && fp in db.successes) then Reject(db, DatabaseFailed)
    else
      var settled := db.(outcomes := db.outcomes[attempt := PublishedOutcome(a, elapsed, now)]);
      if a.issues == [] then Tx(settled.(successes := db.successes[fp := attempt]), Ok(())) else Tx(settled, Ok(()))
  }

  // ----- layout reviews -------------------------------------------------------------------------

  datatype ReviewCall = ReviewCall(identity: Identity, passed: bool, checks: map<string, bool>, note: string,
                                   actor: string, requestId: string) {
    function Request(): ReviewRequest { ReviewRequest(identity, passed, checks, note, actor) }
    predicate Acceptable() {
      && Required(note) && Required(actor) && Required(requestId)
      && checks.Keys == LAYOUT_CHECKS && (passed <==> AllPassed(checks))
    }
  }

  function FindReview(reviews: seq<ReviewRow>, requestId: string): (r: Option<ReviewRow>)
    ensures r.Some? ==> r.value in reviews && r.value.requestId == requestId
    ensures r.None? ==> forall e :: e in reviews ==> e.requestId != requestId
  {
    if reviews == [] then None
    else if reviews[0].requestId == requestId then Some(reviews[0])
    else FindReview(reviews[1..], requestId)
  }

  function ReviewRowFor(call: ReviewCall, id: string, now: int): ReviewRow {
    ReviewRow(id, call.requestId, call.Request(), call.identity, call.passed, call.checks, call.note, call.actor, now)
  }

  function ReviewLayout(db: Db, call: ReviewCall, id: string, now: int): Tx<View> {
    if !call.Acceptable() then Reject(db, InvalidRequest) else
      var prior := FindReview(db.reviews, call.requestId);
      if prior.Some? && prior.value.request != call.Request() then Reject(db, RequestConflict) else
        var key := call.identity.fingerprint;
        var seen := ExtractionView(db, key);
        if seen.Err? then Reject(db, seen.error)
        else if seen.value.None? || seen.value.value.identity != Some(call.identity) || seen.value.value.artifact.None?
        then Reject(db, CorruptReference)
        else if prior.Some? then Tx(db, Ok(seen.value.value))
        else
          var view := seen.value.value;
          if view.permanent && (call.passed || view.quality != Failed(view.artifact.value, LayoutReview)) then
            Reject(db, LayoutConflict)
          else if key !in db.successes || (exists i :: 0 <= i < |db.reviews| && db.reviews[i].id == id) then
            Reject(db, DatabaseFailed)
          else
            var db' := db.(reviews := db.reviews + [ReviewRowFor(call, id, now)]);
            var updated := ExtractionView(db', key);
            if updated.Err? then Reject(db, updated.error)
            else if updated.value.None? then Reject(db, CorruptReference)
            else Tx(db', Ok(updated.value.value))
  }
}

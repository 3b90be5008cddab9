/**
 * The Body store as the services update it: the tables of one database file, transactions that insert row by row
 * and roll back, and read operations that loop over the rows. Every method is tied to the transaction or query
 * function that the theorems are about; the write transactions also say what that means to a caller.
 */
module BodyDatabase {
  import opened Prelude
  import opened Ledger
  import opened BodyModel
  import opened BodyQueries
  import opened BodyInvariant
  import opened BodySafety
  import opened BodyAnswers
  import ExtractionPreservation
  import Acceptance = BodyAcceptance
  import Claims = BodyClaims
  import Eligibility = BodyEligibility
  import Reasons = BodyReasons
  import Rows = BodyRows
  import T = BodyTransactions

  class Database {
    var tables: Db

    constructor ()
      ensures tables == EMPTY_DB
    {
      tables := EMPTY_DB;
    }

    // ----- write transactions -------------------------------------------------------------------

    method RegisterRoot(purpose: RootPurpose, id: string, now: int) returns (reply: Reply<Root>)
      modifies this
      ensures Tx(tables, reply) == T.RegisterRoot(old(tables), purpose, id, now)
      ensures DbOk(old(tables)) ==> DbOk(tables) && Grows(old(tables), tables) && tables == old(tables).(roots := tables.roots)
      ensures DbOk(old(tables)) && (reply.Err? || old(tables.roots) != []) ==> tables == old(tables)
      ensures DbOk(old(tables)) ==>
                (reply.Ok? <==> !purpose.UnknownPurpose? && (old(tables.roots) == [] || RootFact(old(tables)).purpose == purpose))
      ensures DbOk(old(tables)) && reply.Ok? ==> RootFact(tables) == reply.value && reply.value.purpose == purpose
      ensures DbOk(old(tables)) ==> Acceptance.RegisterMeans(old(tables), purpose, id, now, Tx(tables, reply))
    {
      hide DbOk;
      hide Grows;
      hide Acceptance.RegisterMeans;
      if DbOk(tables) {
        Acceptance.RegistersMean(tables, purpose, id, now);
        RegisterAnswers(tables, purpose, id, now);
      }
      if purpose.UnknownPurpose? {
        return Err(InvalidRequest);
      }
      var previous := RootFact(tables);
      if !previous.purpose.UnknownPurpose? {
        if previous.purpose != purpose {
          return Err(RootConflict);
        }
        return Ok(previous);
      }
      if tables.roots != [] {
        return Err(RootConflict);
      }
      tables := tables.(roots := tables.roots + [RootRow(id, purpose, now, (id, purpose, now))]);
      return Ok(Root(Some(id), purpose, Some(now)));
    }

    method AttachPdf(call: T.AttachCall, selected: string, id: string, now: int) returns (reply: Reply<PdfRow>)
      modifies this
      ensures Tx(tables, reply) == T.AttachWrite(old(tables), call, selected, id, now)
      ensures DbOk(old(tables)) ==> Grows(old(tables), tables) && tables == old(tables).(pdfs := tables.pdfs)
      ensures DbOk(old(tables)) && AttachOk(old(tables), call, selected) ==> DbOk(tables)
      ensures DbOk(old(tables)) ==>
                Answered(old(tables.pdfs), tables.pdfs, call.paper, call.requestId, call.Request(), reply)
      ensures DbOk(old(tables)) ==> Acceptance.AttachMeans(old(tables), call, selected, id, now, Tx(tables, reply))
      ensures DbOk(old(tables)) && AttachOk(old(tables), call, selected) && Acceptance.Unseen(old(tables.pdfs), call.requestId) ==>
                call.paper in old(tables.papers) && Acceptance.AttachBinds(old(tables), call, selected, id, Tx(tables, reply))
    {
      hide DbOk;
      hide Grows;
      hide Answered;
      hide Acceptance.AttachMeans;
      hide Acceptance.AttachBinds;
      if DbOk(tables) {
        AttachAnswers(tables, call, selected, id, now);
        Acceptance.AttachesMean(tables, call, selected, id, now);
      }
      var previous := T.Replay(tables.pdfs, call.requestId, call.Request());
      if previous.Err? {
        return Err(previous.error);
      }
      if previous.value.Some? {
        return Ok(previous.value.value);
      }
      if call.version.None? {
        if call.paper !in tables.papers {
          return Err(PaperUnknown);
        }
        if tables.papers[call.paper].current != selected {
          return Err(FactsChanged);
        }
      }
      var saved := Entry(id, call.requestId, call.Request(), call.paper, selected, NextSequence(tables.pdfs, call.paper), now,
                         PdfBody(OriginalPdf(call.pdf), Sha256(call.pdf), call.version));
      if !T.Admits(tables.pdfs, saved) {
        return Err(DatabaseFailed);
      }
      tables := tables.(pdfs := tables.pdfs + [saved]);
      return Ok(saved);
    }

    method Decide(call: T.DecideCall, id: string, now: int) returns (reply: Reply<DecisionRow>)
      modifies this
      ensures Tx(tables, reply) == T.Decide(old(tables), call, id, now)
      ensures DbOk(old(tables)) ==> DbOk(tables) && Grows(old(tables), tables) && tables == old(tables).(decisions := tables.decisions)
      ensures DbOk(old(tables)) ==>
                Answered(old(tables.decisions), tables.decisions, call.paper, call.requestId, call.Request(), reply)
      ensures DbOk(old(tables)) ==> Acceptance.DecideMeans(old(tables), call, id, now, Tx(tables, reply))
    {
      hide DbOk;
      hide Grows;
      hide Answered;
      hide Acceptance.DecideMeans;
      if DbOk(tables) {
        DecideAnswered(tables, call, id, now);
        Acceptance.DecidesMean(tables, call, id, now);
      }
      if !Required(call.paper) || !Required(call.requestId) || !Required(call.actor) {
        return Err(InvalidRequest);
      }
      if !call.record.source.DirectManualDecision? {
        return Err(SourceRequiresDedicatedPath);
      }
      if !call.record.valid {
        return Err(InvalidRequest);
      }
      var began := tables;
      var previous := T.Replay(tables.decisions, call.requestId, call.Request());
      if previous.Err? {
        return Err(previous.error);
      }
      if previous.value.Some? {
        var stored := DecisionEvents(call.paper);
        if stored.Err? {
          return Err(stored.error);
        }
        var event := FindId(stored.value, previous.value.value.id);
        return if event.None? then Err(CorruptReference) else Ok(event.value);
      }
      if call.paper !in tables.papers {
        return Err(PaperUnknown);
      }
      var remaining := call.references;
      while remaining != {}
        invariant remaining <= call.references && tables == began
        invariant forall r :: r in call.references - remaining ==> r in tables.screenings && tables.screenings[r].paper == call.paper
        decreases remaining
      {
        var r :| r in remaining;
        if r !in tables.screenings || tables.screenings[r].paper != call.paper {
          return Err(ScreeningMismatch);
        }
        remaining := remaining - {r};
      }
      var row := T.DecisionRowFor(tables, call, id, now);
      if !T.Admits(tables.decisions, row) {
        return Err(DatabaseFailed);
      }
      tables := tables.(decisions := tables.decisions + [row]);
      var events := DecisionEvents(call.paper);
      if events.Err? {
        tables := began;
        return Err(events.error);
      }
      if events.value == [] {
        tables := began;
        return Err(CorruptReference);
      }
      return Ok(events.value[|events.value| - 1]);
    }

    method FreezeSample(call: T.FreezeCall, id: string, now: int) returns (reply: Reply<SampleRow>)
      modifies this
      ensures Tx(tables, reply) == T.FreezeSample(old(tables), call, id, now)
      ensures DbOk(old(tables)) ==> DbOk(tables) && Grows(old(tables), tables) && tables == old(tables).(samples := tables.samples)
      ensures DbOk(old(tables)) ==>
                Answered(old(tables.samples), tables.samples, call.paper, call.requestId, call.Request(), reply)
      ensures DbOk(old(tables)) ==> Acceptance.FreezeMeans(old(tables), call, id, now, Tx(tables, reply))
    {
      hide DbOk;
      hide Grows;
      hide Answered;
      hide Acceptance.FreezeMeans;
      if DbOk(tables) {
        FreezeAnswers(tables, call, id, now);
        Acceptance.FreezesMean(tables, call, id, now);
      }
      if !call.Acceptable() {
        return Err(InvalidRequest);
      }
      var previous := T.Replay(tables.samples, call.requestId, call.Request());
      if previous.Err? {
        return Err(previous.error);
      }
      if previous.value.Some? {
        return Ok(previous.value.value);
      }
      if call.paper !in tables.papers {
        return Err(PaperUnknown);
      }
      var pdf := CurrentPdf(tables, call.paper, tables.papers[call.paper].current);
      if !RootFact(tables).purpose.Experiment? {
        return Err(RootUnknown);
      }
      if pdf.None? || pdf.value.body.sha != call.sha
         || (call.feed, pdf.value.version) !in tables.papers[call.paper].discoveries
      {
        return Err(SampleMismatch);
      }
      var saved := Entry(id, call.requestId, call.Request(), call.paper, pdf.value.version,
                         NextSequence(tables.samples, call.paper), now, SampleBody(call.feed, call.sha, call.reason));
      if !T.Admits(tables.samples, saved) {
        return Err(DatabaseFailed);
      }
      tables := tables.(samples := tables.samples + [saved]);
      return Ok(saved);
    }

    /** Settle the departed under the lock, then claim an attempt if any budget is left. */
    method Claim(job: T.Job, id: string, now: int) returns (reply: Reply<T.ClaimReply>)
      modifies this
      ensures Tx(tables, reply) == T.Claim(old(tables), job, id, now)
      ensures DbOk(old(tables)) && ExtractionPreservation.JobOk(old(tables), job) ==>
                Claims.ClaimMeans(old(tables), job, id, now, Tx(tables, reply))
    {
      hide DbOk;
      hide Claims.ClaimMeans;
      hide ExtractionPreservation.JobOk;
      if DbOk(tables) && ExtractionPreservation.JobOk(tables, job) {
        Claims.ClaimsMean(tables, job, id, now);
      }
      var began := tables;
      if job.paper !in tables.papers {
        return Err(PaperUnknown);
      }
      if CurrentPdf(tables, job.paper, tables.papers[job.paper].current) != Some(job.pdf) {
        return Err(FactsChanged);
      }
      var existing := ExtractionView(job.Key());
      if existing.Err? {
        return Err(existing.error);
      }
      var ordinal := 1;
      if existing.value.Some? {
        var view := existing.value.value;
        if view.backend != job.semantics.backend || view.sha != job.pdf.body.sha {
          return Err(CorruptReference);
        }
        SettleDeparted(view.attempts, now);
        var again := ExtractionView(job.Key());
        if again.Err? || again.value.None? {
          tables := began;
          return Err(if again.Err? then again.error else CorruptReference);
        }
        if T.Spent(again.value.value) {
          return Ok(T.Decided(again.value.value));
        }
        ordinal := |again.value.value.attempts| + 1;
      } else {
        tables := tables.(inputs := tables.inputs[job.Key() := InputRow(job.semantics.backend, job.pdf.body.sha, job.snapshot)]);
      }
      var row := Attempt(id, job.Key(), job.semantics.backend, ordinal, now, job.audit);
      if !T.AdmitsAttempt(tables.attempts, row) {
        tables := began;
        return Err(DatabaseFailed);
      }
      tables := tables.(attempts := tables.attempts + [row]);
      return Ok(T.ClaimedAttempt(row));
    }

    method SettleDeparted(rows: seq<Joined>, now: int)
      modifies this
      ensures tables == old(tables).(outcomes := T.SettleDeparted(old(tables.outcomes), rows, now))
    {
      for i := 0 to |rows|
        invariant tables == old(tables).(outcomes := T.SettleDeparted(old(tables.outcomes), rows[..i], now))
      {
        assert rows[..i + 1][..i] == rows[..i];
        if rows[i].outcome.None? {
          tables := tables.(outcomes := tables.outcomes[rows[i].attempt.id := T.UnknownOutcome(now)]);
        }
      }
      assert rows[..|rows|] == rows;
    }

    method SettleFailure(attempt: string, failure: Failure, elapsed: int, peak: int, now: int) returns (reply: Reply<()>)
      modifies this
      ensures Tx(tables, reply) == T.SettleFailure(old(tables), attempt, failure, elapsed, peak, now)
      ensures Grows(old(tables), tables) && tables == old(tables).(outcomes := tables.outcomes)
      ensures DbOk(old(tables)) && elapsed >= 0 ==> DbOk(tables)
      ensures reply.Ok? <==> attempt !in old(tables.outcomes) && exists a :: a in tables.attempts && a.id == attempt
      ensures reply.Err? ==> tables == old(tables)
      ensures reply.Ok? ==>
                tables.outcomes == old(tables.outcomes)[attempt := Outcome(Some(failure), None, None, elapsed,
                                                                           if peak < 0 then 0 else peak, now)]
    {
      hide DbOk;
      hide Grows;
      FailureAnswers(tables, attempt, failure, elapsed, peak, now);
      if !T.AdmitsOutcome(tables, attempt) {
        return Err(DatabaseFailed);
      }
      var outcome := Outcome(Some(failure), None, None, elapsed, if peak < 0 then 0 else peak, now);
      tables := tables.(outcomes := tables.outcomes[attempt := outcome]);
      return Ok(());
    }

    method SettlePublished(fp: Fingerprint, attempt: string, published: Artifact, elapsed: int, now: int)
      returns (reply: Reply<()>)
      requires published.Extraction?
      modifies this
      ensures Tx(tables, reply) == T.SettlePublished(old(tables), fp, attempt, published, elapsed, now)
      ensures forall a :: DbOk(old(tables)) && a in old(tables.attempts) && a.id == attempt && a.fingerprint == fp
                          && published in old(tables.store) && ExtractionPreservation.BelongsTo(a, published, elapsed) ==>
                            PublicationRecorded(old(tables), tables, fp, attempt, published, elapsed, now, reply)
    {
      hide DbOk;
      hide Grows;
      hide PublicationRecorded;
      forall a | DbOk(tables) && a in tables.attempts && a.id == attempt && a.fingerprint == fp
                 && published in tables.store && ExtractionPreservation.BelongsTo(a, published, elapsed)
        ensures var t := T.SettlePublished(tables, fp, attempt, published, elapsed, now);
                PublicationRecorded(tables, t.db, fp, attempt, published, elapsed, now, t.reply)
      {
        PublicationAnswers(tables, a, published, elapsed, now);
      }
      var flaw := if published.issues == [] then None else Some(published.issues[0]);
      if !T.AdmitsOutcome(tables, attempt) || published !in tables.store || (flaw.None? && fp in tables.successes) {
        return Err(DatabaseFailed);
      }
      var failure := None;
      if flaw.Some? {
        failure := Some(if flaw.value.PdfTextLayer? then NoTextLayer else QualityGate);
      }
      var identity := published.manifest.identity;
      var outcome := Outcome(failure, Some(Published(published, identity.reading, identity.evidenceMap)), flaw, elapsed,
                             published.manifest.peak, now);
      tables := tables.(outcomes := tables.outcomes[attempt := outcome]);
      if flaw.None? {
        tables := tables.(successes := tables.successes[fp := attempt]);
      }
      return Ok(());
    }

    method ReviewLayout(call: T.ReviewCall, id: string, now: int) returns (reply: Reply<View>)
      modifies this
      ensures Tx(tables, reply) == T.ReviewLayout(old(tables), call, id, now)
      ensures DbOk(old(tables)) ==> DbOk(tables) && Grows(old(tables), tables)
      ensures DbOk(old(tables)) ==> Acceptance.ReviewMeans(old(tables), call, id, now, Tx(tables, reply))
    {
      hide DbOk;
      hide Grows;
      hide Acceptance.ReviewMeans;
      if DbOk(tables) {
        ExtractionPreservation.ReviewKeeps(tables, call, id, now);
        Acceptance.ReviewsMean(tables, call, id, now);
      }
      if !call.Acceptable() {
        return Err(InvalidRequest);
      }
      var began := tables;
      var previous := T.FindReview(tables.reviews, call.requestId);
      if previous.Some? && previous.value.request != call.Request() {
        return Err(RequestConflict);
      }
      var key := call.identity.fingerprint;
      var seen := ExtractionView(key);
      if seen.Err? {
        return Err(seen.error);
      }
      if seen.value.None? || seen.value.value.identity != Some(call.identity) || seen.value.value.artifact.None? {
        return Err(CorruptReference);
      }
      var view := seen.value.value;
      if previous.Some? {
        return Ok(view);
      }
      if view.permanent && (call.passed || view.quality != Failed(view.artifact.value, LayoutReview)) {
        return Err(LayoutConflict);
      }
      if key !in tables.successes || exists i :: 0 <= i < |tables.reviews| && tables.reviews[i].id == id {
        return Err(DatabaseFailed);
      }
      tables := tables.(reviews := tables.reviews + [T.ReviewRowFor(call, id, now)]);
      var updated := ExtractionView(key);
      if updated.Err? {
        tables := began;
        return Err(updated.error);
      }
      if updated.value.None? {
        tables := began;
        return Err(CorruptReference);
      }
      return Ok(updated.value.value);
    }

    // ----- queries ------------------------------------------------------------------------------

    /** The decisions of a paper in order, each one checked; two rows of one sequence number are corruption. */
    method DecisionEvents(paper: string) returns (reply: Reply<seq<DecisionRow>>)
      ensures reply == BodyQueries.DecisionEvents(tables, paper)
    {
      if paper !in tables.papers {
        return Err(PaperUnknown);
      }
      var rows := InSequence(tables.decisions, paper);
      var result: seq<DecisionRow> := [];
      for i := 0 to |rows|
        invariant result == rows[..i]
        invariant forall j :: 0 <= j < i ==> DirectAndValid(rows[j].body.record)
      {
        if !DirectAndValid(rows[i].body.record) {
          return Err(CorruptReference);
        }
        result := result + [rows[i]];
      }
      assert result == rows;
      if exists i, j :: 0 <= i < j < |result| && result[i].sequence == result[j].sequence {
        return Err(CorruptReference);
      }
      return Ok(result);
    }

    method ExecutionSource(paper: string, decision: Option<DecisionRow>) returns (reply: Reply<ExecutionSource>)
      ensures BodyQueries.ExecutionSourceOf(tables, paper, decision) == reply
    {
      if decision.None? || decision.value.body.references == {} {
        return Ok(UnknownSource);
      }
      var references := decision.value.body.references;
      var remaining, kinds := references, [];
      while remaining != {}
        invariant remaining <= references
        invariant forall r :: r in references - remaining ==> r in tables.screenings && tables.screenings[r].paper == paper
        invariant TestExecutor in kinds <==> exists r :: r in references - remaining && tables.screenings[r].kind.TestExecutor?
        decreases remaining
      {
        var r :| r in remaining;
        if r !in tables.screenings || tables.screenings[r].paper != paper {
          return Err(CorruptReference);
        }
        assert forall q :: q in references - (remaining - {r}) <==> q == r || q in references - remaining;
        kinds, remaining := kinds + [tables.screenings[r].kind], remaining - {r};
      }
      return Ok(if TestExecutor in kinds then TestSource else ProductionSource);
    }

    /** The fold over the attempts of one extraction, then its success row and its reviews. */
    method ExtractionView(fp: Fingerprint) returns (reply: Reply<Option<View>>)
      ensures reply == BodyQueries.ExtractionView(tables, fp)
      ensures DbOk(tables) ==>
                && reply.Ok? && (reply.value.Some? <==> fp in tables.inputs)
                && (reply.value.Some? ==> Reasons.ViewMeans(tables, fp, reply.value.value))
    {
      hide DbOk;
      hide Reasons.ViewMeans;
      if DbOk(tables) && fp in tables.inputs {
        Reasons.ViewIsRead(tables, fp);
      }
      if fp !in tables.inputs {
        return Ok(None);
      }
      var rows := JoinedRows(tables, fp);
      var published, quality, permanent := FoldAttempts(rows);
      var artifact, identity := None, None;
      if published.Some? {
        artifact, identity := Some(published.value.artifact),
                              Some(Identity(fp, published.value.reading, published.value.evidenceMap));
      }
      if fp in tables.successes {
        if rows == [] || rows[|rows| - 1].attempt.id != tables.successes[fp] || FailureOf(rows[|rows| - 1]).Some? || identity.None? {
          return Err(CorruptReference);
        }
        var agree, reviewed, failed := ReadReviews(fp, identity.value);
        if !agree {
          return Err(CorruptReference);
        }
        if failed {
          quality, permanent := Failed(artifact.value, LayoutReview), true;
        } else if reviewed {
          quality := DocumentGate(artifact.value);
        }
      }
      return Ok(Some(View(fp, tables.inputs[fp].backend, tables.inputs[fp].sha, rows, artifact, identity, quality, permanent)));
    }

    method ReadReviews(fp: Fingerprint, identity: Identity) returns (agree: bool, reviewed: bool, failed: bool)
      requires identity.fingerprint == fp
      ensures agree <==> ReviewsAgree(tables.reviews, identity)
      ensures agree ==> (reviewed <==> Reviewed(tables.reviews, fp)) && (failed <==> ReviewFailed(tables.reviews, fp))
    {
      var reviews := tables.reviews;
      agree, reviewed, failed := true, false, false;
      for i := 0 to |reviews|
        invariant agree && forall j :: 0 <= j < i && reviews[j].identity.fingerprint == fp ==> reviews[j].identity == identity
        invariant failed <==> exists j :: 0 <= j < i && reviews[j].identity.fingerprint == fp && !reviews[j].passed
        invariant reviewed <==> exists j :: 0 <= j < i && reviews[j].identity.fingerprint == fp
      {
        if reviews[i].identity.fingerprint == fp {
          if reviews[i].identity != identity {
            agree := false;
            return;
          }
          reviewed, failed := true, failed || !reviews[i].passed;
        }
      }
    }

    method CurrentBody(paper: string) returns (reply: Reply<CurrentBody>)
      ensures reply == CurrentBodyOf(tables, paper)
      ensures DbOk(tables) && paper in tables.papers ==>
                reply.Ok? && forall i :: reply == Ok(BodyQueries.CurrentBody(Some(i))) <==>
                  && Rows.SoleSuccess(tables, i.fingerprint) && Rows.PublishedRow(tables, i)
                  && exists pdf :: Rows.CurrentPdfRow(tables, paper, pdf) && pdf.body.sha == i.fingerprint.pdf
    {
      hide DbOk;
      if DbOk(tables) && paper in tables.papers {
        Eligibility.CurrentBodyIs(tables, paper);
      }
      if paper !in tables.papers {
        return Err(PaperUnknown);
      }
      var pdf := CurrentPdf(tables, paper, tables.papers[paper].current);
      if pdf.None? {
        return Ok(BodyQueries.CurrentBody(None));
      }
      var keys := SuccessfulKeys(tables, pdf.value.body.sha);
      if |keys| != 1 {
        return Ok(BodyQueries.CurrentBody(None));
      }
      var key :| key in keys;
      OnlyMember(keys, key);
      var view := ExtractionView(key);
      if view.Err? || view.value.None? || view.value.value.identity.None? {
        return Err(CorruptReference);
      }
      return Ok(BodyQueries.CurrentBody(view.value.value.identity));
    }

    /** The prerequisite facts of one paper, with every reason against reading it collected on the way. */
    method AssembleFacts(paper: string, identity: Option<Identity>, fingerprint: Option<Fingerprint>, ordinary: bool)
      returns (reply: Reply<Facts>)
      ensures reply == FactsOf(tables, paper, identity, fingerprint, ordinary)
      ensures DbOk(tables) && paper in tables.papers ==>
                reply.Ok? && Reasons.FactsMean(tables, paper, identity, Eligibility.KeyOf(identity, fingerprint), ordinary, reply.value)
    {
      hide DbOk;
      hide Reasons.FactsMean;
      if DbOk(tables) && paper in tables.papers {
        Reasons.FactsAreMeant(tables, paper, identity, fingerprint, ordinary);
      }
      var events := DecisionEvents(paper);
      if events.Err? {
        return Err(events.error);
      }
      var current := tables.papers[paper];
      var root := RootFact(tables);
      var chosen := EffectiveDecision(paper, current, events.value);
      var source := ExecutionSource(paper, chosen);
      if source.Err? {
        return Err(source.error);
      }
      var pdf := CurrentPdf(tables, paper, current.current);
      var key := if identity.Some? then Some(identity.value.fingerprint) else fingerprint;
      var extraction: Option<View> := None;
      if key.Some? {
        var view := ExtractionView(key.value);
        if view.Err? {
          return Err(view.error);
        }
        extraction := view.value;
      }
      var sample := Latest(tables.samples, paper, None);
      var body: Option<Identity> := None;
      if extraction.Some? && extraction.value.identity.Some? {
        var now := CurrentBody(paper);
        if now.Err? {
          return Err(now.error);
        }
        body := now.value.identity;
      }
      var reasons := CollectReasons(root, chosen, source.value, pdf, extraction, body, sample, identity, ordinary);
      return Ok(Facts(paper, current.current, current.revision, root, chosen, source.value, pdf, extraction, sample, reasons));
    }
  }

  lemma AnyPermanentAppend(rows: seq<Joined>, row: Joined)
    ensures AnyPermanent(rows + [row]) <==> AnyPermanent(rows) || Permanent(FailureOf(row))
  {
    if AnyPermanent(rows) {
      var i :| 0 <= i < |rows| && Permanent(FailureOf(rows[i]));
      assert (rows + [row])[i] == rows[i];
    }
    assert (rows + [row])[|rows|] == row;
  }

  method FoldAttempts(rows: seq<Joined>) returns (published: Option<Published>, quality: Quality, permanent: bool)
    ensures published == LastPublished(rows) && quality == LastFlaw(rows) && (permanent <==> AnyPermanent(rows))
  {
    published, quality, permanent := None, AbsentQuality, false;
    for i := 0 to |rows|
      invariant published == LastPublished(rows[..i]) && quality == LastFlaw(rows[..i])
      invariant permanent <==> AnyPermanent(rows[..i])
    {
      assert rows[..i + 1][..i] == rows[..i] && rows[..i + 1] == rows[..i] + [rows[i]];
      AnyPermanentAppend(rows[..i], rows[i]);
      permanent := permanent || Permanent(FailureOf(rows[i]));
      if PublishedOf(rows[i]).Some? {
        published := PublishedOf(rows[i]);
        if rows[i].outcome.value.flaw.Some? {
          quality := Failed(published.value.artifact, rows[i].outcome.value.flaw.value);
        }
      }
    }
    assert rows[..|rows|] == rows;
  }

  lemma OnlyMember<S>(keys: set<S>, x: S)
    requires |keys| == 1 && x in keys
    ensures forall y :: y in keys ==> y == x
  {
    assert |keys - {x}| == 0;
  }

  /** The `reasons` set, filled branch by branch. */
  method CollectReasons(root: Root, chosen: Option<DecisionRow>, source: ExecutionSource, pdf: Option<PdfRow>,
                        extraction: Option<View>, body: Option<Identity>, sample: Option<SampleRow>,
                        identity: Option<Identity>, ordinary: bool) returns (reasons: set<Reason>)
    ensures reasons == ReasonSet(root, chosen, source, pdf, extraction, body, sample, identity, ordinary)
  {
    var about := PaperReasons(root, chosen, source, pdf);
    var more := {ExtractionAbsent, QualityAbsent};
    if extraction.Some? {
      more := ExtractionReasons(root, pdf, extraction.value, body, identity);
    }
    var last := ExperimentReasons(root, pdf, sample, ordinary);
    reasons := about + more + last;
    forall r ensures r in reasons <==>
      r in REFUSALS && ReasonHolds(r, root, chosen, source, pdf, extraction, body, sample, identity, ordinary)
    {
      hide PaperSet;
      hide ExtractionSet;
      hide ExperimentSet;
      hide ReasonHolds;
      hide REFUSALS;
      ReasonByReason(r, about, more, last, root, chosen, source, pdf, extraction, body, sample, identity, ordinary);
    }
  }

  lemma ReasonByReason(r: Reason, about: set<Reason>, more: set<Reason>, last: set<Reason>,
                       root: Root, chosen: Option<DecisionRow>, source: ExecutionSource, pdf: Option<PdfRow>,
                       extraction: Option<View>, body: Option<Identity>, sample: Option<SampleRow>,
                       identity: Option<Identity>, ordinary: bool)
    requires PaperSet(about, root, chosen, source, pdf) && ExperimentSet(last, root, pdf, sample, ordinary)
    requires if extraction.Some? then ExtractionSet(more, root, pdf, extraction.value, body, identity)
             else more == {ExtractionAbsent, QualityAbsent}
    ensures r in about + more + last <==>
              r in REFUSALS && ReasonHolds(r, root, chosen, source, pdf, extraction, body, sample, identity, ordinary)
  {
    if r in {DecisionNotAccepted, RootUnknown, ExecutionSourceUnknown, TestExecutionSource, PdfAbsent} {
      PaperReason(r, about, root, chosen, source, pdf, extraction, body, sample, identity, ordinary);
    } else {
      assert r !in about;
      hide PaperSet;
      OtherReason(r, more, last, root, chosen, source, pdf, extraction, body, sample, identity, ordinary);
    }
  }

  lemma PaperReason(r: Reason, about: set<Reason>, root: Root, chosen: Option<DecisionRow>, source: ExecutionSource,
                    pdf: Option<PdfRow>, extraction: Option<View>, body: Option<Identity>, sample: Option<SampleRow>,
                    identity: Option<Identity>, ordinary: bool)
    requires r in {DecisionNotAccepted, RootUnknown, ExecutionSourceUnknown, TestExecutionSource, PdfAbsent}
    requires PaperSet(about, root, chosen, source, pdf)
    ensures r in REFUSALS
    ensures r in about <==> ReasonHolds(r, root, chosen, source, pdf, extraction, body, sample, identity, ordinary)
  {
  }

  lemma OtherReason(r: Reason, more: set<Reason>, last: set<Reason>,
                    root: Root, chosen: Option<DecisionRow>, source: ExecutionSource, pdf: Option<PdfRow>,
                    extraction: Option<View>, body: Option<Identity>, sample: Option<SampleRow>,
                    identity: Option<Identity>, ordinary: bool)
    requires r !in {DecisionNotAccepted, RootUnknown, ExecutionSourceUnknown, TestExecutionSource, PdfAbsent}
    requires ExperimentSet(last, root, pdf, sample, ordinary)
    requires if extraction.Some? then ExtractionSet(more, root, pdf, extraction.value, body, identity)
             else more == {ExtractionAbsent, QualityAbsent}
    ensures r in more + last <==>
              r in REFUSALS && ReasonHolds(r, root, chosen, source, pdf, extraction, body, sample, identity, ordinary)
  {
    if r == SampleMismatch || r == OrdinaryConsumptionDenied {
      SharedReason(r, more, last, root, chosen, source, pdf, extraction, body, sample, identity, ordinary);
    } else if r in {ExtractionAbsent, FactsChanged, ExtractionFailed, QualityFailed, QualityAbsent} {
      assert r !in last;
      hide ExperimentSet;
      ExtractionReason(r, more, root, chosen, source, pdf, extraction, body, sample, identity, ordinary);
    } else {
      hide ReasonHolds;
      assert r !in REFUSALS && r !in more + last;
    }
  }

  lemma SharedReason(r: Reason, more: set<Reason>, last: set<Reason>,
                     root: Root, chosen: Option<DecisionRow>, source: ExecutionSource, pdf: Option<PdfRow>,
                     extraction: Option<View>, body: Option<Identity>, sample: Option<SampleRow>,
                     identity: Option<Identity>, ordinary: bool)
    requires r == SampleMismatch || r == OrdinaryConsumptionDenied
    requires ExperimentSet(last, root, pdf, sample, ordinary)
    requires if extraction.Some? then ExtractionSet(more, root, pdf, extraction.value, body, identity)
             else more == {ExtractionAbsent, QualityAbsent}
    ensures r in REFUSALS
    ensures r in more + last <==> ReasonHolds(r, root, chosen, source, pdf, extraction, body, sample, identity, ordinary)
  {
  }

  lemma ExtractionReason(r: Reason, more: set<Reason>, root: Root, chosen: Option<DecisionRow>, source: ExecutionSource,
                         pdf: Option<PdfRow>, extraction: Option<View>, body: Option<Identity>,
                         sample: Option<SampleRow>, identity: Option<Identity>, ordinary: bool)
    requires r in {ExtractionAbsent, FactsChanged, ExtractionFailed, QualityFailed, QualityAbsent}
    requires if extraction.Some? then ExtractionSet(more, root, pdf, extraction.value, body, identity)
             else more == {ExtractionAbsent, QualityAbsent}
    ensures r in REFUSALS
    ensures r in more <==> ReasonHolds(r, root, chosen, source, pdf, extraction, body, sample, identity, ordinary)
  {
  }

  ghost predicate PaperSet(reasons: set<Reason>, root: Root, chosen: Option<DecisionRow>, source: ExecutionSource,
                           pdf: Option<PdfRow>)
  {
    && (DecisionNotAccepted in reasons <==> chosen.None? || !chosen.value.body.record.result.Accepted?)
    && (RootUnknown in reasons <==> root.purpose.UnknownPurpose?)
    && (ExecutionSourceUnknown in reasons <==> source.UnknownSource?)
    && (TestExecutionSource in reasons <==> source.TestSource?)
    && (PdfAbsent in reasons <==> pdf.None?)
    && reasons <= {DecisionNotAccepted, RootUnknown, ExecutionSourceUnknown, TestExecutionSource, PdfAbsent}
  }

  ghost predicate ExperimentSet(reasons: set<Reason>, root: Root, pdf: Option<PdfRow>, sample: Option<SampleRow>,
                                ordinary: bool)
  {
    && (SampleMismatch in reasons <==>
          root.purpose.Experiment? && (sample.None? || pdf.None? || sample.value.version != pdf.value.version
                                       || sample.value.body.sha != pdf.value.body.sha))
    && (OrdinaryConsumptionDenied in reasons <==> root.purpose.Experiment? && ordinary)
    && reasons <= {SampleMismatch, OrdinaryConsumptionDenied}
  }

  ghost predicate ExtractionSet(reasons: set<Reason>, root: Root, pdf: Option<PdfRow>, extraction: View,
                                body: Option<Identity>, identity: Option<Identity>)
  {
    && (FactsChanged in reasons <==> (
          || (extraction.identity.Some? && body != extraction.identity)
          || (identity.Some? && extraction.identity != identity)
          || pdf.None? || pdf.value.body.sha != extraction.sha))
    && (ExtractionFailed in reasons <==> (
          || extraction.artifact.None?
          || (extraction.attempts != [] && FailureOf(extraction.attempts[|extraction.attempts| - 1]).Some?)))
    && (QualityFailed in reasons <==> extraction.quality.Failed?)
    && (QualityAbsent in reasons <==> extraction.quality.AbsentQuality? || extraction.quality.UnknownQuality?)
    && (OrdinaryConsumptionDenied in reasons <==> root.purpose.Production? && extraction.quality.DocumentGate?)
    && reasons <= {FactsChanged, ExtractionFailed, QualityFailed, QualityAbsent, OrdinaryConsumptionDenied}
  }

  method PaperReasons(root: Root, chosen: Option<DecisionRow>, source: ExecutionSource, pdf: Option<PdfRow>)
    returns (reasons: set<Reason>)
    ensures PaperSet(reasons, root, chosen, source, pdf)
  {
    reasons := {};
    if chosen.None? || !chosen.value.body.record.result.Accepted? {
      reasons := reasons + {DecisionNotAccepted};
    }
    if root.purpose.UnknownPurpose? {
      reasons := reasons + {RootUnknown};
    }
    if source.UnknownSource? {
      reasons := reasons + {ExecutionSourceUnknown};
    } else if source.TestSource? {
      reasons := reasons + {TestExecutionSource};
    }
    if pdf.None? {
      reasons := reasons + {PdfAbsent};
    }
  }

  method ExperimentReasons(root: Root, pdf: Option<PdfRow>, sample: Option<SampleRow>, ordinary: bool)
    returns (reasons: set<Reason>)
    ensures ExperimentSet(reasons, root, pdf, sample, ordinary)
  {
    reasons := {};
    if root.purpose.Experiment? {
      if sample.None? || pdf.None? || sample.value.version != pdf.value.version || sample.value.body.sha != pdf.value.body.sha {
        reasons := reasons + {SampleMismatch};
      }
      if ordinary {
        reasons := reasons + {OrdinaryConsumptionDenied};
      }
    }
  }

  method ExtractionReasons(root: Root, pdf: Option<PdfRow>, extraction: View, body: Option<Identity>,
                           identity: Option<Identity>) returns (reasons: set<Reason>)
    ensures ExtractionSet(reasons, root, pdf, extraction, body, identity)
  {
    reasons := {};
    if extraction.identity.Some? && body != extraction.identity {
      reasons := reasons + {FactsChanged};
    }
    if identity.Some? && extraction.identity != identity {
      reasons := reasons + {FactsChanged};
    }
    if pdf.None? || pdf.value.body.sha != extraction.sha {
      reasons := reasons + {FactsChanged};
    }
    var last := extraction.attempts;
    if extraction.artifact.None? || (last != [] && FailureOf(last[|last| - 1]).Some?) {
      reasons := reasons + {ExtractionFailed};
    }
    if extraction.quality.Failed? {
      reasons := reasons + {QualityFailed};
    } else if extraction.quality.AbsentQuality? || extraction.quality.UnknownQuality? {
      reasons := reasons + {QualityAbsent};
    } else if root.purpose.Production? && !extraction.quality.FormalGate? {
      reasons := reasons + {OrdinaryConsumptionDenied};
    }
  }
}

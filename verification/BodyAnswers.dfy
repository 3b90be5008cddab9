/** What each write transaction means to its caller: what it adds, what it keeps, and what its answer says. */
module BodyAnswers {
  import opened Prelude
  import opened Ledger
  import opened BodyModel
  import opened BodyQueries
  import opened BodyTransactions
  import opened BodyInvariant
  import opened BodyPreservation
  import opened ExtractionPreservation
  import opened BodySafety
  import opened BodyRequests

  /**
   * A request adds at most one row, with the next number of its paper, and nothing when it is refused or was seen
   * before; a request that is answered is stored from then on, and what is stored is the answer.
   */
  ghost predicate Answered<Q, B>(rows: seq<Entry<Q, B>>, later: seq<Entry<Q, B>>, paper: string, requestId: string, request: Q,
                                 reply: Reply<Entry<Q, B>>)
  {
    && rows <= later && |later| <= |rows| + 1
    && (reply.Err? || Find(rows, requestId).Some? ==> later == rows)
    && (reply.Ok? ==> Find(later, requestId) == Some(reply.value) && reply.value.request == request)
    && (later != rows ==> later[|rows|].paper == paper && later[|rows|].sequence == |History(rows, paper)| + 1)
  }

  /** Either nothing is added, and an answer was stored before, or the answer is the row that is added. */
  ghost predicate Appends<Q, B>(rows: seq<Entry<Q, B>>, later: seq<Entry<Q, B>>, paper: string, requestId: string, request: Q,
                                reply: Reply<Entry<Q, B>>)
  {
    || (later == rows && (reply.Ok? ==> Find(rows, requestId) == Some(reply.value) && reply.value.request == request))
    || (reply.Ok? && later == rows + [reply.value] && NextRow(rows, reply.value)
        && reply.value.paper == paper && reply.value.requestId == requestId && reply.value.request == request)
  }

  lemma AppendsAnswers<Q, B>(rows: seq<Entry<Q, B>>, later: seq<Entry<Q, B>>, paper: string, requestId: string, request: Q,
                             reply: Reply<Entry<Q, B>>)
    requires WellFormed(rows) && Appends(rows, later, paper, requestId, request, reply)
    ensures Answered(rows, later, paper, requestId, request, reply)
  {
    if later != rows {
      AppendKeeps(rows, reply.value);
      FindOfMember(later, reply.value);
      MaxIsLength(rows, paper);
    }
  }

  lemma LedgersAreWellFormed(db: Db)
    requires DbOk(db)
    ensures WellFormed(db.pdfs) && WellFormed(db.decisions) && WellFormed(db.samples)
  {
  }

  lemma AttachAppends(db: Db, call: AttachCall, selected: string, id: string, now: int)
    ensures var t := AttachWrite(db, call, selected, id, now);
            t.db == db.(pdfs := t.db.pdfs) && Appends(db.pdfs, t.db.pdfs, call.paper, call.requestId, call.Request(), t.reply)
  {
    hide NextSequence;
  }

  lemma AttachAnswers(db: Db, call: AttachCall, selected: string, id: string, now: int)
    requires DbOk(db)
    ensures var t := AttachWrite(db, call, selected, id, now);
            && t.db == db.(pdfs := t.db.pdfs) && Grows(db, t.db) && (AttachOk(db, call, selected) ==> DbOk(t.db))
            && Answered(db.pdfs, t.db.pdfs, call.paper, call.requestId, call.Request(), t.reply)
  {
    hide AttachWrite;
    hide DbOk;
    hide Grows;
    hide Appends;
    hide Answered;
    hide WellFormed;
    LedgersAreWellFormed(db);
    AttachWriteGrows(db, call, selected, id, now);
    AttachAppends(db, call, selected, id, now);
    if AttachOk(db, call, selected) { AttachWriteKeeps(db, call, selected, id, now); }
    var t := AttachWrite(db, call, selected, id, now);
    AppendsAnswers(db.pdfs, t.db.pdfs, call.paper, call.requestId, call.Request(), t.reply);
  }

  lemma FreezeAppends(db: Db, call: FreezeCall, id: string, now: int)
    ensures var t := FreezeSample(db, call, id, now);
            t.db == db.(samples := t.db.samples) && Appends(db.samples, t.db.samples, call.paper, call.requestId, call.Request(), t.reply)
  {
    hide NextSequence;
    hide CurrentPdf;
    hide RootFact;
  }

  lemma FreezeAnswers(db: Db, call: FreezeCall, id: string, now: int)
    requires DbOk(db)
    ensures var t := FreezeSample(db, call, id, now);
            && t.db == db.(samples := t.db.samples) && Grows(db, t.db) && DbOk(t.db)
            && Answered(db.samples, t.db.samples, call.paper, call.requestId, call.Request(), t.reply)
  {
    hide FreezeSample;
    hide DbOk;
    hide Grows;
    hide Appends;
    hide Answered;
    hide WellFormed;
    LedgersAreWellFormed(db);
    FreezeGrows(db, call, id, now);
    FreezeAppends(db, call, id, now);
    FreezeKeeps(db, call, id, now);
    var t := FreezeSample(db, call, id, now);
    AppendsAnswers(db.samples, t.db.samples, call.paper, call.requestId, call.Request(), t.reply);
  }

  lemma DecideAppends(db: Db, call: DecideCall, id: string, now: int)
    ensures var t := Decide(db, call, id, now);
            && t.db == db.(decisions := t.db.decisions)
            && (t.db != db ==> t.reply.Ok? && call.paper in db.papers && NextRow(db.decisions, DecisionRowFor(db, call, id, now))
                               && t.db.decisions == db.decisions + [DecisionRowFor(db, call, id, now)])
  {
    hide NextSequence;
    hide DecisionEvents;
    hide ReferencesOk;
  }

  lemma DecideAnswered(db: Db, call: DecideCall, id: string, now: int)
    requires DbOk(db)
    ensures var t := Decide(db, call, id, now);
            && t.db == db.(decisions := t.db.decisions) && Grows(db, t.db) && DbOk(t.db)
            && Answered(db.decisions, t.db.decisions, call.paper, call.requestId, call.Request(), t.reply)
  {
    hide Decide;
    hide DbOk;
    hide Grows;
    hide Answered;
    hide WellFormed;
    LedgersAreWellFormed(db);
    DecideGrows(db, call, id, now);
    DecideAppends(db, call, id, now);
    DecideKeeps(db, call, id, now);
    var t := Decide(db, call, id, now);
    if t.reply.Ok? { DecisionIsStored(db, call, id, now); }
    if t.db != db {
      var row := DecisionRowFor(db, call, id, now);
      AppendKeeps(db.decisions, row);
      FindOfMember(t.db.decisions, row);
      AppendsAnswers(db.decisions, t.db.decisions, call.paper, call.requestId, call.Request(), t.reply);
    } else {
      AppendsAnswers(db.decisions, t.db.decisions, call.paper, call.requestId, call.Request(), t.reply);
    }
  }

  /** The root is registered once; an answer is the root fact from then on, and is refused exactly for another purpose. */
  lemma RegisterAnswers(db: Db, purpose: RootPurpose, id: string, now: int)
    requires DbOk(db)
    ensures var t := RegisterRoot(db, purpose, id, now);
            && t.db == db.(roots := t.db.roots) && Grows(db, t.db) && DbOk(t.db)
            && (t.reply.Err? || db.roots != [] ==> t.db == db)
            && (t.reply.Ok? <==> !purpose.UnknownPurpose? && (db.roots == [] || RootFact(db).purpose == purpose))
            && (t.reply.Ok? ==> RootFact(t.db) == t.reply.value && t.reply.value.purpose == purpose)
  {
    RegisterRootKeeps(db, purpose, id, now);
    RegisterRootGrows(db, purpose, id, now);
    assert db.roots != [] ==> db.roots[0] in db.roots;
  }

  /** A failure is recorded for an attempt that has no outcome yet, and for no other; outcomes are never rewritten. */
  lemma FailureAnswers(db: Db, attempt: string, failure: Failure, elapsed: int, peak: int, now: int)
    ensures var t := SettleFailure(db, attempt, failure, elapsed, peak, now);
            && t.db == db.(outcomes := t.db.outcomes) && Grows(db, t.db)
            && (t.reply.Ok? <==> attempt !in db.outcomes && exists a :: a in db.attempts && a.id == attempt)
            && (t.reply.Err? ==> t.db == db)
            && (t.reply.Ok? ==> t.db.outcomes == db.outcomes[attempt := Outcome(Some(failure), None, None, elapsed,
                                                                                if peak < 0 then 0 else peak, now)])
            && (DbOk(db) && elapsed >= 0 ==> DbOk(t.db))
  {
    hide DbOk;
    hide Grows;
    NothingChanges(db);
    if attempt !in db.outcomes && exists a :: a in db.attempts && a.id == attempt {
      var a :| a in db.attempts && a.id == attempt;
      AdmitsUnsettled(db, a);
      OutcomeAppended(db, attempt, Outcome(Some(failure), None, None, elapsed, Max0(peak), now));
      if DbOk(db) && elapsed >= 0 { SettleFailureKeeps(db, a, failure, elapsed, peak, now); }
    }
  }

  lemma OutcomeAppended(db: Db, attempt: string, o: Outcome)
    requires attempt !in db.outcomes
    ensures Grows(db, db.(outcomes := db.outcomes[attempt := o]))
  {
  }

  /**
   * A publication is recorded for an attempt that has no outcome yet: its outcome names the artifact, and a success
   * row is added together with it exactly when the artifact has no flaw. Nothing else changes.
   */
  ghost predicate PublicationRecorded(db: Db, later: Db, fp: Fingerprint, attempt: string, artifact: Artifact, elapsed: int, now: int,
                                      reply: Reply<()>)
    requires artifact.Extraction?
  {
    var identity, flaw := artifact.manifest.identity, if artifact.issues == [] then None else Some(artifact.issues[0]);
    && later == db.(outcomes := later.outcomes, successes := later.successes) && Grows(db, later) && DbOk(later)
    && (reply.Ok? <==> attempt !in db.outcomes)
    && (reply.Err? ==> later == db)
    && (reply.Ok? ==>
          && later.outcomes == db.outcomes[attempt := Outcome(
               if flaw.None? then None else if flaw == Some(PdfTextLayer) then Some(NoTextLayer) else Some(QualityGate),
               Some(Published(artifact, identity.reading, identity.evidenceMap)), flaw, elapsed, artifact.manifest.peak, now)]
          && fp !in db.successes
          && later.successes == if artifact.issues == [] then db.successes[fp := attempt] else db.successes)
  }

  lemma PublicationAnswers(db: Db, a: Attempt, artifact: Artifact, elapsed: int, now: int)
    requires DbOk(db) && a in db.attempts && artifact in db.store && BelongsTo(a, artifact, elapsed)
    ensures var t := SettlePublished(db, a.fingerprint, a.id, artifact, elapsed, now);
            PublicationRecorded(db, t.db, a.fingerprint, a.id, artifact, elapsed, now, t.reply)
  {
    hide DbOk;
    hide Grows;
    NothingChanges(db);
    if a.id !in db.outcomes {
      SettlePublishedKeeps(db, a, artifact, elapsed, now);
      NoSuccessYet(db, a);
    }
  }
}

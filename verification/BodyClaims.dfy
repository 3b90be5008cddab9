/** When a claim answers without another attempt, when it must make one, and what it writes, said of the tables. */
module BodyClaims {
  import opened Prelude
  import opened Ledger
  import opened BodyModel
  import opened BodyQueries
  import opened BodyTransactions
  import opened BodyInvariant
  import opened BodyPreservation
  import opened ExtractionPreservation
  import opened BodyRows

  /** An outcome that leaves nothing to retry: no failure, a failure of the document itself, or a published artifact. */
  ghost predicate Conclusive(o: Outcome) {
    o.failure.None? || o.failure.value in {NoTextLayer, QualityGate} || o.published.Some?
  }

  /** The input was claimed before, and its two attempts are used up or one of them was conclusive. */
  ghost predicate Final(db: Db, f: Fingerprint) {
    && f in db.inputs
    && (|AttemptsOf(db.attempts, f)| == 2
        || exists a :: a in db.attempts && a.fingerprint == f && a.id in db.outcomes && Conclusive(db.outcomes[a.id]))
  }

  /** Every unsettled attempt of the input is settled as unknown, and no other outcome is touched. */
  ghost predicate DepartedSettled(db: Db, later: map<string, Outcome>, f: Fingerprint, now: int) {
    && (forall k :: k in db.outcomes ==> k in later && later[k] == db.outcomes[k])
    && (forall a :: a in db.attempts && a.fingerprint == f && a.id !in db.outcomes ==>
          a.id in later && later[a.id] == Outcome(Some(OutcomeUnknown), None, None, 0, 0, now))
    && (forall k :: k in later && k !in db.outcomes ==> exists a :: a in db.attempts && a.fingerprint == f && a.id == k)
  }

  /** What a claim answers and writes. */
  ghost predicate ClaimMeans(db: Db, job: Job, id: string, now: int, t: Tx<ClaimReply>) {
    var f := job.Key();
    var current := job.paper in db.papers && CurrentPdfRow(db, job.paper, job.pdf);
    && (t.reply == Err(PaperUnknown) <==> job.paper !in db.papers)
    && (t.reply == Err(FactsChanged) <==> job.paper in db.papers && !current)
    && (t.reply == Err(DatabaseFailed) <==> current && !Final(db, f) && IdTaken(db.attempts, id))
    && (t.reply.Ok? <==> current && (Final(db, f) || !IdTaken(db.attempts, id)))
    && (t.reply.Err? ==> t.db == db)
    && (t.reply.Ok? ==> (t.reply.value.Decided? <==> Final(db, f)) && DepartedSettled(db, t.db.outcomes, f, now))
    && (t.reply.Ok? && t.reply.value.Decided? ==>
          t.db == db.(outcomes := t.db.outcomes) && ExtractionView(t.db, f) == Ok(Some(t.reply.value.view)))
    && (t.reply.Ok? && t.reply.value.ClaimedAttempt? ==>
          var a := Attempt(id, f, job.semantics.backend, |AttemptsOf(db.attempts, f)| + 1, now, job.audit);
          var input := InputRow(job.semantics.backend, job.pdf.body.sha, job.snapshot);
          && t.reply.value.attempt == a
          && t.db == db.(outcomes := t.db.outcomes, attempts := db.attempts + [a],
                         inputs := if f in db.inputs then db.inputs else db.inputs[f := input]))
  }

  // ----- which inputs are final -----------------------------------------------------------------

  /** An attempt that cannot be retried, or is not settled, is the last one of its input. */
  lemma OthersAreRetriable(db: Db, f: Fingerprint, a: Attempt)
    requires DbOk(db) && f in db.inputs && a in db.attempts && a.fingerprint == f
    ensures AttemptsOf(db.attempts, f) != [] && (a == LastOf(db.attempts, f) || Retriable(db.outcomes, a.id))
  {
    hide DbOk;
    HasAttempts(db, f);
    var rows := AttemptsOf(db.attempts, f);
    assert a in rows;
    var i :| 0 <= i < |rows| && rows[i] == a;
  }

  lemma LastIsMember(db: Db, f: Fingerprint)
    requires DbOk(db) && f in db.inputs
    ensures AttemptsOf(db.attempts, f) != []
    ensures LastOf(db.attempts, f) in db.attempts && LastOf(db.attempts, f).fingerprint == f
  {
    hide DbOk;
    HasAttempts(db, f);
    assert LastOf(db.attempts, f) in AttemptsOf(db.attempts, f);
  }

  lemma ConclusiveIsNotRetriable(outcomes: map<string, Outcome>, id: string)
    requires id in outcomes
    ensures Conclusive(outcomes[id]) <==> !Retriable(outcomes, id)
  {
  }

  /** On a coherent store only the last attempt can be conclusive. */
  lemma FinalByLast(db: Db, f: Fingerprint)
    requires DbOk(db) && f in db.inputs
    ensures AttemptsOf(db.attempts, f) != []
    ensures var last := LastOf(db.attempts, f);
            Final(db, f) <==> |AttemptsOf(db.attempts, f)| == 2 || (last.id in db.outcomes && !Retriable(db.outcomes, last.id))
  {
    hide DbOk;
    hide Retriable;
    hide Conclusive;
    hide LastOf;
    hide AttemptsOf;
    LastIsMember(db, f);
    var last := LastOf(db.attempts, f);
    if last.id in db.outcomes { ConclusiveIsNotRetriable(db.outcomes, last.id); }
    forall a | a in db.attempts && a.fingerprint == f && a.id in db.outcomes && Conclusive(db.outcomes[a.id]) ensures a == last {
      ConclusiveIsNotRetriable(db.outcomes, a.id);
      OthersAreRetriable(db, f, a);
    }
  }

  lemma AfterDepartedIs(db: Db, f: Fingerprint, now: int)
    requires AttemptsOf(db.attempts, f) != []
    ensures var last := LastOf(db.attempts, f);
            AfterDeparted(db, f, now) ==
              if last.id in db.outcomes then db
              else db.(outcomes := db.outcomes[last.id := Outcome(Some(OutcomeUnknown), None, None, 0, 0, now)])
  {
  }

  lemma UnknownIsRetriable(outcomes: map<string, Outcome>, id: string, now: int)
    ensures Retriable(outcomes[id := Outcome(Some(OutcomeUnknown), None, None, 0, 0, now)], id)
  {
  }

  lemma DepartedAreSettled(db: Db, f: Fingerprint, now: int)
    requires DbOk(db) && f in db.inputs
    ensures DepartedSettled(db, AfterDeparted(db, f, now).outcomes, f, now)
    ensures AfterDeparted(db, f, now) == db.(outcomes := AfterDeparted(db, f, now).outcomes)
    ensures AttemptsOf(db.attempts, f) != [] && LastOf(db.attempts, f).id in AfterDeparted(db, f, now).outcomes
    ensures Retriable(AfterDeparted(db, f, now).outcomes, LastOf(db.attempts, f).id) <==>
              LastOf(db.attempts, f).id !in db.outcomes || Retriable(db.outcomes, LastOf(db.attempts, f).id)
  {
    hide *;
    LastIsMember(db, f);
    AfterDepartedIs(db, f, now);
    var last := LastOf(db.attempts, f);
    UnknownIsRetriable(db.outcomes, last.id, now);
    forall a | a in db.attempts && a.fingerprint == f && a.id !in db.outcomes ensures a == last {
      OthersAreRetriable(db, f, a);
      RetriableIsSettled(db.outcomes, a.id);
    }
    LastAloneSettled(db, last, f, now);
  }

  lemma RetriableIsSettled(outcomes: map<string, Outcome>, id: string)
    ensures Retriable(outcomes, id) ==> id in outcomes
  {
  }

  lemma LastAloneSettled(db: Db, last: Attempt, f: Fingerprint, now: int)
    requires last in db.attempts && last.fingerprint == f
    requires forall a :: a in db.attempts && a.fingerprint == f && a.id !in db.outcomes ==> a == last
    ensures DepartedSettled(db, if last.id in db.outcomes then db.outcomes
                                else db.outcomes[last.id := Outcome(Some(OutcomeUnknown), None, None, 0, 0, now)], f, now)
  {
  }

  /** The view is spent exactly when nothing is left to retry. */
  lemma SpentIsFinal(db: Db, f: Fingerprint)
    requires DbOk(db) && f in db.inputs && LastSettled(db, f)
    ensures ExtractionView(db, f).Ok? && ExtractionView(db, f).value.Some?
    ensures Spent(ExtractionView(db, f).value.value) <==>
              |AttemptsOf(db.attempts, f)| == 2 || !Retriable(db.outcomes, LastOf(db.attempts, f).id)
    ensures |ExtractionView(db, f).value.value.attempts| == |AttemptsOf(db.attempts, f)|
  {
    hide DbOk;
    hide ExtractionView;
    HasAttempts(db, f);
    ViewIsSound(db, f);
    LastIsCoherent(db, f);
  }

  ghost predicate LastSettled(db: Db, f: Fingerprint) {
    AttemptsOf(db.attempts, f) != [] && LastOf(db.attempts, f).id in db.outcomes
  }

  // ----- claims ---------------------------------------------------------------------------------

  lemma CurrentIsKnown(db: Db, job: Job)
    requires DbOk(db) && job.paper in db.papers
    ensures CurrentPdf(db, job.paper, db.papers[job.paper].current) == Some(job.pdf) <==> CurrentPdfRow(db, job.paper, job.pdf)
    ensures CurrentPdfRow(db, job.paper, job.pdf) ==> job.pdf in db.pdfs
  {
    hide DbOk;
    CurrentPdfIs(db, job.paper);
  }

  lemma NotFinalYet(db: Db, f: Fingerprint)
    requires DbOk(db) && f !in db.inputs
    ensures !Final(db, f) && AttemptsOf(db.attempts, f) == [] && DepartedSettled(db, db.outcomes, f, 0)
    ensures forall now :: DepartedSettled(db, db.outcomes, f, now)
  {
    hide DbOk;
    NoRowsBeforeTheInput(db, f);
    forall a | a in db.attempts ensures a.fingerprint != f { assert a.fingerprint == f ==> a in AttemptsOf(db.attempts, f); }
  }

  lemma FirstClaimMeans(db: Db, job: Job, id: string, now: int)
    requires DbOk(db) && JobOk(db, job) && job.Key() !in db.inputs
    requires job.paper in db.papers && CurrentPdfRow(db, job.paper, job.pdf)
    ensures ClaimMeans(db, job, id, now, Claim(db, job, id, now))
  {
    hide DbOk;
    hide AdmitsAttempt;
    hide CurrentPdfRow;
    hide IdTaken;
    CurrentIsKnown(db, job);
    NotFinalYet(db, job.Key());
    OnlyTheIdCanClash(db.attempts, db.outcomes, Attempt(id, job.Key(), job.semantics.backend, 1, now, job.audit));
  }

  lemma AgainClaimMeans(db: Db, job: Job, id: string, now: int)
    requires DbOk(db) && JobOk(db, job) && job.Key() in db.inputs
    requires job.paper in db.papers && CurrentPdfRow(db, job.paper, job.pdf)
    ensures ClaimMeans(db, job, id, now, Claim(db, job, id, now))
  {
    hide DbOk;
    hide AdmitsAttempt;
    hide CurrentPdfRow;
    hide IdTaken;
    hide ExtractionView;
    hide Claim;
    hide Final;
    hide DepartedSettled;
    hide AfterDeparted;
    hide Spent;
    hide Retriable;
    var f, mid := job.Key(), AfterDeparted(db, job.Key(), now);
    CurrentIsKnown(db, job);
    ClaimAgainUnfolds(db, job, id, now);
    DepartedAreSettled(db, f, now);
    FinalByLast(db, f);
    SpentIsFinal(mid, f);
    var view := ExtractionView(mid, f).value.value;
    if !Spent(view) {
      var a := Attempt(id, f, job.semantics.backend, |view.attempts| + 1, now, job.audit);
      UnspentHasRoom(mid, f, a);
      OnlyTheIdCanClash(mid.attempts, mid.outcomes, a);
    }
  }

  /**
   * A claim of a current job answers with the decided extraction exactly when its attempts are used up or one of
   * them was conclusive, and with a new attempt in every other case, whatever became of earlier claimers; a fresh id
   * is never refused.
   */
  lemma ClaimsMean(db: Db, job: Job, id: string, now: int)
    requires DbOk(db) && JobOk(db, job)
    ensures ClaimMeans(db, job, id, now, Claim(db, job, id, now))
  {
    hide DbOk;
    if job.paper !in db.papers {
    } else if !CurrentPdfRow(db, job.paper, job.pdf) {
      CurrentIsKnown(db, job);
    } else if job.Key() !in db.inputs {
      FirstClaimMeans(db, job, id, now);
    } else {
      AgainClaimMeans(db, job, id, now);
    }
  }

  /** Said of the last attempt, once departed claimers are settled. */
  lemma DecidedExactly(db: Db, job: Job, id: string, now: int)
    requires DbOk(db) && JobOk(db, job) && job.paper in db.papers && CurrentPdfRow(db, job.paper, job.pdf)
    ensures var f, t := job.Key(), Claim(db, job, id, now);
            && (f in db.inputs ==> AttemptsOf(db.attempts, f) != [])
            && (t.reply.Ok? ==>
                  (t.reply.value.Decided? <==>
                     f in db.inputs && (|AttemptsOf(db.attempts, f)| == 2
                                        || !Retriable(AfterDeparted(db, f, now).outcomes, LastOf(db.attempts, f).id))))
            && (!IdTaken(db.attempts, id) ==> t.reply.Ok?)
  {
    hide DbOk;
    hide Claim;
    hide DepartedSettled;
    hide Retriable;
    hide AfterDeparted;
    ClaimsMean(db, job, id, now);
    if job.Key() in db.inputs {
      FinalByLast(db, job.Key());
      DepartedAreSettled(db, job.Key(), now);
    }
  }
}

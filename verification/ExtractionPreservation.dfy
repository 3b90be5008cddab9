/** Claiming, settling and reviewing extractions keep the invariant, only append, and hit no constraint. */
module ExtractionPreservation {
  import opened Prelude
  import opened Ledger
  import opened BodyModel
  import opened BodyQueries
  import opened BodyTransactions
  import opened BodyInvariant

  lemma {:induction false} LookupSurvives(attempts: seq<Attempt>, later: seq<Attempt>, id: string)
    requires attempts <= later && Lookup(attempts, id).Some?
    ensures Lookup(later, id) == Lookup(attempts, id)
  {
    if attempts[0].id != id {
      assert attempts[1..] <= later[1..];
      LookupSurvives(attempts[1..], later[1..], id);
    }
  }

  lemma LookupOfMember(attempts: seq<Attempt>, a: Attempt)
    requires DistinctIds(attempts) && a in attempts
    ensures Lookup(attempts, a.id) == Some(a)
  {
  }

  // ----- claiming -------------------------------------------------------------------------------

  /** Room for one more attempt: none yet, or exactly one that may be retried. */
  ghost predicate RoomFor(attempts: seq<Attempt>, outcomes: map<string, Outcome>, a: Attempt) {
    var rows := AttemptsOf(attempts, a.fingerprint);
    && a.ordinal == |rows| + 1 && |rows| <= 1 && (|rows| == 1 ==> rows[0].ordinal == 1 && Retriable(outcomes, rows[0].id))
  }

  lemma ChainAppend(attempts: seq<Attempt>, outcomes: map<string, Outcome>, a: Attempt, f: Fingerprint)
    requires if f == a.fingerprint then RoomFor(attempts, outcomes, a) else ChainOk(AttemptsOf(attempts, f), outcomes)
    ensures ChainOk(AttemptsOf(attempts + [a], f), outcomes)
  {
    AttemptsOfAppend(attempts, a, f);
    if f == a.fingerprint {
      OneMore(AttemptsOf(attempts, f), outcomes, a);
    }
  }

  lemma OneMore(rows: seq<Attempt>, outcomes: map<string, Outcome>, a: Attempt)
    requires a.ordinal == |rows| + 1 && |rows| <= 1
    requires |rows| == 1 ==> rows[0].ordinal == 1 && Retriable(outcomes, rows[0].id)
    ensures ChainOk(rows + [a], outcomes)
  {
  }

  lemma AppendAttempt(inputs: map<Fingerprint, InputRow>, later: map<Fingerprint, InputRow>, attempts: seq<Attempt>,
                      outcomes: map<string, Outcome>, a: Attempt)
    requires AttemptsOk(inputs, attempts, outcomes) && RoomFor(attempts, outcomes, a)
    requires forall b :: b in attempts ==> b.id != a.id
    requires later.Keys == inputs.Keys + {a.fingerprint} && AttemptOk(later, a)
    ensures AttemptsOk(later, attempts + [a], outcomes)
  {
    hide ChainOk;
    hide RoomFor;
    AppendAttemptChains(inputs, later, attempts, outcomes, a);
    forall b | b in attempts ensures AttemptOk(later, b) {
      assert AttemptOk(inputs, b);
    }
    forall i, j | 0 <= i < j < |attempts + [a]| ensures (attempts + [a])[i].id != (attempts + [a])[j].id {
      assert attempts[i] in attempts;
    }
  }

  lemma AppendAttemptChains(inputs: map<Fingerprint, InputRow>, later: map<Fingerprint, InputRow>,
                            attempts: seq<Attempt>, outcomes: map<string, Outcome>, a: Attempt)
    requires forall f :: f in inputs ==> ChainOk(AttemptsOf(attempts, f), outcomes)
    requires RoomFor(attempts, outcomes, a) && later.Keys == inputs.Keys + {a.fingerprint}
    ensures forall f :: f in later ==> ChainOk(AttemptsOf(attempts + [a], f), outcomes)
  {
    hide ChainOk;
    hide RoomFor;
    forall f | f in later ensures ChainOk(AttemptsOf(attempts + [a], f), outcomes) {
      assert f != a.fingerprint ==> f in inputs;
      ChainAppend(attempts, outcomes, a, f);
    }
  }

  lemma FreshIsUnsettled(db: Db, a: Attempt)
    requires OutcomesOk(db.store, db.attempts, db.outcomes)
    requires forall b :: b in db.attempts ==> b.id != a.id
    ensures a.id !in db.outcomes
    ensures OutcomesOk(db.store, db.attempts + [a], db.outcomes) == true
  {
  }

  lemma AppendAttemptSuccesses(db: Db, a: Attempt)
    requires SuccessesOk(db.attempts, db.outcomes, db.successes) && a.id !in db.outcomes
    ensures SuccessesOk(db.attempts + [a], db.outcomes, db.successes) == true
  {
  }

  lemma AppendAttemptReviews(db: Db, a: Attempt)
    requires ReviewsOk(db.attempts, db.outcomes, db.successes, db.reviews) && a.id !in db.outcomes
    ensures ReviewsOk(db.attempts + [a], db.outcomes, db.successes, db.reviews) == true
  {
  }

  // ----- settling -------------------------------------------------------------------------------

  /** The tables after an unsettled attempt gets its outcome (and its success row, if it did not fail). */
  function Settled(db: Db, a: Attempt, o: Outcome): Db {
    db.(outcomes := db.outcomes[a.id := o],
        successes := if o.failure.None? then db.successes[a.fingerprint := a.id] else db.successes)
  }

  lemma SettleAttempts(db: Db, a: Attempt, o: Outcome)
    requires AttemptsOk(db.inputs, db.attempts, db.outcomes) && a.id !in db.outcomes
    ensures AttemptsOk(db.inputs, db.attempts, db.outcomes[a.id := o])
  {
    var outcomes := db.outcomes[a.id := o];
    forall f | f in db.inputs ensures ChainOk(AttemptsOf(db.attempts, f), outcomes) {
      var rows := AttemptsOf(db.attempts, f);
      assert ChainOk(rows, db.outcomes);
      assert forall i :: 0 <= i < |rows| - 1 ==> Retriable(db.outcomes, rows[i].id) && Retriable(outcomes, rows[i].id);
    }
  }

  lemma SettleOutcomes(db: Db, a: Attempt, o: Outcome)
    requires OutcomesOk(db.store, db.attempts, db.outcomes) && DistinctIds(db.attempts)
    requires a in db.attempts && OutcomeOk(db.store, a, o)
    ensures OutcomesOk(db.store, db.attempts, db.outcomes[a.id := o])
  {
  }

  lemma SettleSuccesses(db: Db, a: Attempt, o: Outcome)
    requires SuccessesOk(db.attempts, db.outcomes, db.successes) && DistinctIds(db.attempts)
    requires a in db.attempts && a.id !in db.outcomes && a.fingerprint !in db.successes
    ensures SuccessesOk(db.attempts, Settled(db, a, o).outcomes, Settled(db, a, o).successes)
  {
    var t := Settled(db, a, o);
    LookupOfMember(db.attempts, a);
    forall f | f in t.successes ensures Succeeded(db.attempts, t.outcomes, f, t.successes[f]) {
      assert f in db.successes ==> Succeeded(db.attempts, db.outcomes, f, db.successes[f]);
    }
    forall b | b in db.attempts && b.id in t.outcomes && t.outcomes[b.id].failure.None?
      ensures b.fingerprint in t.successes && t.successes[b.fingerprint] == b.id
    {
      if b.id == a.id { SameId(db.attempts, a, b); }
    }
  }

  lemma SettleReviews(db: Db, a: Attempt, o: Outcome)
    requires ReviewsOk(db.attempts, db.outcomes, db.successes, db.reviews) && DistinctIds(db.attempts)
    requires a in db.attempts && a.id !in db.outcomes && a.fingerprint !in db.successes
    ensures ReviewsOk(db.attempts, Settled(db, a, o).outcomes, Settled(db, a, o).successes, db.reviews)
  {
  }

  /** Settling an unsettled attempt with a coherent outcome keeps every extraction table coherent. */
  lemma SettleKeeps(db: Db, a: Attempt, o: Outcome)
    requires ExtractionOk(db) && a in db.attempts && a.id !in db.outcomes && OutcomeOk(db.store, a, o)
    ensures ExtractionOk(Settled(db, a, o))
  {
    UnsettledHasNoSuccess(db, a);
    SettleAttempts(db, a, o);
    SettleOutcomes(db, a, o);
    SettleSuccesses(db, a, o);
    SettleReviews(db, a, o);
  }

  // ----- growing --------------------------------------------------------------------------------

  lemma AttemptAppended(db: Db, inputs: map<Fingerprint, InputRow>, row: Attempt)
    requires forall f :: f in db.inputs ==> f in inputs && inputs[f] == db.inputs[f]
    ensures Grows(db, db.(inputs := inputs, attempts := db.attempts + [row]))
  {
  }

  lemma OutcomeAdded(db: Db, a: Attempt, o: Outcome)
    requires a.id !in db.outcomes && (o.failure.None? ==> a.fingerprint !in db.successes)
    ensures Grows(db, Settled(db, a, o))
  {
  }

  lemma ReviewAppended(db: Db, row: ReviewRow)
    ensures Grows(db, db.(reviews := db.reviews + [row]))
  {
  }

  // ----- the claim transaction ------------------------------------------------------------------

  lemma SettleDepartedIsLast(rows: seq<Attempt>, outcomes: map<string, Outcome>, now: int)
    requires ChainOk(rows, outcomes)
    ensures var last := rows[|rows| - 1].id;
            SettleDeparted(outcomes, JoinAll(rows, outcomes), now) ==
            if last in outcomes then outcomes else outcomes[last := UnknownOutcome(now)]
  {
    var joined := JoinAll(rows, outcomes);
    var front := joined[..|joined| - 1];
    if |rows| == 2 {
      assert Retriable(outcomes, rows[0].id);
      assert front == [joined[0]] && front[..0] == [];
    }
    assert SettleDeparted(outcomes, front, now) == outcomes;
  }

  lemma FailureOutcomeOk(store: set<Artifact>, a: Attempt, o: Outcome)
    requires o.elapsed >= 0 && o.peak >= 0 && o.published.None? && o.failure.Some? && o.flaw.None?
    ensures OutcomeOk(store, a, o) == true
  {
  }

  lemma SettledDb(db: Db, a: Attempt, o: Outcome)
    requires DbOk(db) && a in db.attempts && a.id !in db.outcomes && OutcomeOk(db.store, a, o) == true
    ensures DbOk(Settled(db, a, o)) && Grows(db, Settled(db, a, o))
  {
    SettleKeeps(db, a, o);
    UnsettledHasNoSuccess(db, a);
    OutcomeAdded(db, a, o);
  }

  ghost predicate JobOk(db: Db, job: Job) {
    && job.snapshot in db.snapshots && db.snapshots[job.snapshot] == job.semantics
    && (job.audit.Some? ==> job.audit.value.Matches(job.semantics))
  }

  /** The store with every departed claimer of this fingerprint settled as unknown. */
  function AfterDeparted(db: Db, f: Fingerprint, now: int): Db {
    var rows := AttemptsOf(db.attempts, f);
    if rows == [] || rows[|rows| - 1].id in db.outcomes then db
    else Settled(db, rows[|rows| - 1], UnknownOutcome(now))
  }

  lemma HasAttempts(db: Db, f: Fingerprint)
    requires DbOk(db) && f in db.inputs
    ensures ChainOk(AttemptsOf(db.attempts, f), db.outcomes) && LastOf(db.attempts, f) in db.attempts
  {
  }

  lemma AfterDepartedKeeps(db: Db, f: Fingerprint, now: int)
    requires DbOk(db) && f in db.inputs
    ensures DbOk(AfterDeparted(db, f, now)) && Grows(db, AfterDeparted(db, f, now))
  {
    hide DbOk;
    hide Grows;
    HasAttempts(db, f);
    var last := LastOf(db.attempts, f);
    if last.id in db.outcomes {
      assert AfterDeparted(db, f, now) == db;
      NothingChanges(db);
    } else {
      FailureOutcomeOk(db.store, last, UnknownOutcome(now));
      SettledDb(db, last, UnknownOutcome(now));
      assert AfterDeparted(db, f, now) == Settled(db, last, UnknownOutcome(now));
    }
  }

  lemma NothingChanges(db: Db)
    ensures Grows(db, db)
  {
  }

  /** Appending the claimed attempt, with its input row when it is the first one. */
  lemma ClaimOnKeeps(db: Db, inputs: map<Fingerprint, InputRow>, a: Attempt)
    requires DbOk(db) && RoomFor(db.attempts, db.outcomes, a)
    requires forall b :: b in db.attempts ==> b.id != a.id
    requires inputs.Keys == db.inputs.Keys + {a.fingerprint} && AttemptOk(inputs, a)
    requires forall f :: f in db.inputs ==> inputs[f] == db.inputs[f]
    requires InputsOk(db.snapshots, db.pdfs, inputs)
    ensures var t := db.(inputs := inputs, attempts := db.attempts + [a]);
            DbOk(t) && Grows(db, t) && a.id !in db.outcomes
  {
    AppendAttempt(db.inputs, inputs, db.attempts, db.outcomes, a);
    FreshIsUnsettled(db, a);
    AppendAttemptSuccesses(db, a);
    AppendAttemptReviews(db, a);
    AttemptAppended(db, inputs, a);
  }

  predicate IdTaken(attempts: seq<Attempt>, id: string) {
    exists i :: 0 <= i < |attempts| && attempts[i].id == id
  }

  /** When there is room, only a reused attempt id can meet a constraint of the attempts table. */
  lemma OnlyTheIdCanClash(attempts: seq<Attempt>, outcomes: map<string, Outcome>, a: Attempt)
    requires RoomFor(attempts, outcomes, a)
    ensures AdmitsAttempt(attempts, a) <==> !IdTaken(attempts, a.id)
  {
  }

  lemma NoRowsBeforeTheInput(db: Db, f: Fingerprint)
    requires DbOk(db) && f !in db.inputs
    ensures AttemptsOf(db.attempts, f) == []
  {
    forall a | a in db.attempts ensures a.fingerprint != f {
      assert AttemptOk(db.inputs, a);
    }
    NoRowsOf(db.attempts, f);
  }

  lemma {:induction false} NoRowsOf(attempts: seq<Attempt>, f: Fingerprint)
    requires forall a :: a in attempts ==> a.fingerprint != f
    ensures AttemptsOf(attempts, f) == []
  {
    if attempts != [] {
      NoRowsOf(attempts[..|attempts| - 1], f);
    }
  }

  /** What the view must show for a settled fingerprint with budget left: exactly one retriable attempt. */
  lemma UnspentHasRoom(db: Db, f: Fingerprint, a: Attempt)
    requires DbOk(db) && f in db.inputs && AttemptsOf(db.attempts, f) != [] && LastOf(db.attempts, f).id in db.outcomes
    requires ExtractionView(db, f).Ok? && ExtractionView(db, f).value.Some? && !Spent(ExtractionView(db, f).value.value)
    requires a.fingerprint == f && a.ordinal == |ExtractionView(db, f).value.value.attempts| + 1
    ensures RoomFor(db.attempts, db.outcomes, a)
  {
    hide DbOk;
    ViewIsSound(db, f);
    HasAttempts(db, f);
    LastIsCoherent(db, f);
  }

  lemma LastIsCoherent(db: Db, f: Fingerprint)
    requires DbOk(db) && f in db.inputs && AttemptsOf(db.attempts, f) != [] && LastOf(db.attempts, f).id in db.outcomes
    ensures OutcomeOk(db.store, LastOf(db.attempts, f), db.outcomes[LastOf(db.attempts, f).id]) == true
  {
    assert LastOf(db.attempts, f) in AttemptsOf(db.attempts, f);
  }

  /** The settling loop of `extract` under the lock leaves the store `AfterDeparted` describes. */
  lemma SettlingTheDeparted(db: Db, f: Fingerprint, now: int)
    requires DbOk(db) && f in db.inputs
    ensures ExtractionView(db, f).Ok? && ExtractionView(db, f).value.Some?
    ensures db.(outcomes := SettleDeparted(db.outcomes, ExtractionView(db, f).value.value.attempts, now)) == AfterDeparted(db, f, now)
  {
    hide DbOk;
    hide ExtractionView;
    hide SettleDeparted;
    hide ChainOk;
    hide AttemptsOf;
    hide ReviewFailed;
    hide Reviewed;
    ViewIsSound(db, f);
    HasAttempts(db, f);
    SomeAttempt(db, f);
    SettleDepartedIsLast(AttemptsOf(db.attempts, f), db.outcomes, now);
  }

  lemma SomeAttempt(db: Db, f: Fingerprint)
    requires ChainOk(AttemptsOf(db.attempts, f), db.outcomes)
    ensures AttemptsOf(db.attempts, f) != []
  {
  }

  ghost predicate Claimed(before: Db, after: Db, job: Job, id: string, a: Attempt) {
    && a.id == id && a.fingerprint == job.Key() && a.audit == job.audit
    && after.attempts == before.attempts + [a] && id !in after.outcomes
    && RoomFor(before.attempts, after.outcomes, a)
  }

  lemma FirstClaim(db: Db, job: Job, id: string, now: int)
    requires DbOk(db) && JobOk(db, job) && job.Key() !in db.inputs && job.pdf in db.pdfs
    ensures var row := InputRow(job.semantics.backend, job.pdf.body.sha, job.snapshot);
            var t := ClaimOn(db.(inputs := db.inputs[job.Key() := row]), db, job, 1, id, now);
            && DbOk(t.db) && Grows(db, t.db)
            && (t.reply.Err? ==> t.db == db && t.reply.error.DatabaseFailed? && IdTaken(db.attempts, id))
            && (t.reply.Ok? ==> t.reply.value.ClaimedAttempt? && t.db.outcomes == db.outcomes
                                && Claimed(db, t.db, job, id, t.reply.value.attempt))
  {
    hide DbOk;
    hide Grows;
    var row := InputRow(job.semantics.backend, job.pdf.body.sha, job.snapshot);
    var a := Attempt(id, job.Key(), job.semantics.backend, 1, now, job.audit);
    NoRowsBeforeTheInput(db, job.Key());
    OnlyTheIdCanClash(db.attempts, db.outcomes, a);
    if IdTaken(db.attempts, id) {
      NothingChanges(db);
    } else {
      NewInputOk(db, job, row);
      ClaimOnKeeps(db, db.inputs[job.Key() := row], a);
    }
  }

  lemma NewInputOk(db: Db, job: Job, row: InputRow)
    requires DbOk(db) && JobOk(db, job) && job.pdf in db.pdfs
    requires row == InputRow(job.semantics.backend, job.pdf.body.sha, job.snapshot)
    ensures InputsOk(db.snapshots, db.pdfs, db.inputs[job.Key() := row]) == true
  {
  }

  lemma SecondClaim(db: Db, before: Db, job: Job, ordinal: int, id: string, now: int)
    requires DbOk(db) && JobOk(db, job) && job.Key() in db.inputs && before.attempts == db.attempts
    requires RoomFor(db.attempts, db.outcomes, Attempt(id, job.Key(), job.semantics.backend, ordinal, now, job.audit))
    ensures var t := ClaimOn(db, before, job, ordinal, id, now);
            && (t.reply.Err? ==> t.db == before && t.reply.error.DatabaseFailed? && IdTaken(before.attempts, id))
            && (t.reply.Ok? ==> DbOk(t.db) && Grows(db, t.db) && t.reply.value.ClaimedAttempt?)
            && (t.reply.Ok? ==> t.db.outcomes == db.outcomes && Claimed(before, t.db, job, id, t.reply.value.attempt))
  {
    hide DbOk;
    hide Grows;
    var a := Attempt(id, job.Key(), job.semantics.backend, ordinal, now, job.audit);
    OnlyTheIdCanClash(db.attempts, db.outcomes, a);
    if !IdTaken(db.attempts, id) {
      SameInputsOk(db, a);
      ClaimOnKeeps(db, db.inputs, a);
    }
  }

  lemma SameInputsOk(db: Db, a: Attempt)
    requires DbOk(db)
    ensures InputsOk(db.snapshots, db.pdfs, db.inputs) == true
  {
  }

  /**
   * One claim transaction: it never reports corruption, it refuses for a reused id only, it settles nobody but
   * the departed claimer of this fingerprint, and a new attempt is admitted only when no artifact and no
   * permanent failure exist and at most one attempt was made.
   */
  ghost predicate ClaimDoes(db: Db, job: Job, id: string, now: int, t: Tx<ClaimReply>) {
    match t.reply
    case Err(reason) =>
      t.db == db && reason in {PaperUnknown, FactsChanged, DatabaseFailed} && (reason.DatabaseFailed? ==> IdTaken(db.attempts, id))
    case Ok(Decided(view)) =>
      t.db == AfterDeparted(db, job.Key(), now) && Spent(view)
    case Ok(ClaimedAttempt(a)) =>
      t.db.outcomes == AfterDeparted(db, job.Key(), now).outcomes && Claimed(db, t.db, job, id, a)
  }

  lemma ClaimKeeps(db: Db, job: Job, id: string, now: int)
    requires DbOk(db) && JobOk(db, job)
    ensures var t := Claim(db, job, id, now); DbOk(t.db) && Grows(db, t.db) && ClaimDoes(db, job, id, now, t)
  {
    hide DbOk;
    hide Grows;
    NothingChanges(db);
    var key := job.Key();
    if job.paper in db.papers && CurrentPdf(db, job.paper, db.papers[job.paper].current) == Some(job.pdf) {
      if key !in db.inputs {
        NoRowsBeforeTheInput(db, key);
        FirstClaim(db, job, id, now);
      } else {
        ClaimAgain(db, job, id, now);
      }
    }
  }

  lemma ClaimAgainUnfolds(db: Db, job: Job, id: string, now: int)
    requires DbOk(db) && job.Key() in db.inputs
    requires job.paper in db.papers && CurrentPdf(db, job.paper, db.papers[job.paper].current) == Some(job.pdf)
    ensures var mid := AfterDeparted(db, job.Key(), now);
            && DbOk(mid) && Grows(db, mid) && mid.inputs == db.inputs && mid.attempts == db.attempts
            && ExtractionView(mid, job.Key()).Ok? && ExtractionView(mid, job.Key()).value.Some?
            && var view := ExtractionView(mid, job.Key()).value.value;
               Claim(db, job, id, now) == if Spent(view) then Tx(mid, Ok(Decided(view)))
                                          else ClaimOn(mid, db, job, |view.attempts| + 1, id, now)
  {
    hide DbOk;
    hide Grows;
    ViewIsSound(db, job.Key());
    SettlingTheDeparted(db, job.Key(), now);
    AfterDepartedKeeps(db, job.Key(), now);
    ViewIsSound(AfterDeparted(db, job.Key(), now), job.Key());
  }

  lemma ClaimAgain(db: Db, job: Job, id: string, now: int)
    requires DbOk(db) && JobOk(db, job) && job.Key() in db.inputs
    requires job.paper in db.papers && CurrentPdf(db, job.paper, db.papers[job.paper].current) == Some(job.pdf)
    ensures var t := Claim(db, job, id, now); DbOk(t.db) && Grows(db, t.db) && ClaimDoes(db, job, id, now, t)
  {
    hide DbOk;
    hide Grows;
    var key, mid := job.Key(), AfterDeparted(db, job.Key(), now);
    ClaimAgainUnfolds(db, job, id, now);
    var view := ExtractionView(mid, key).value.value;
    if !Spent(view) {
      var ordinal := |view.attempts| + 1;
      HasAttempts(db, key);
      UnspentHasRoom(mid, key, Attempt(id, key, job.semantics.backend, ordinal, now, job.audit));
      SecondClaim(mid, db, job, ordinal, id, now);
      ClaimOnGrows(db, mid, ClaimOn(mid, db, job, ordinal, id, now));
    }
  }

  lemma ClaimOnGrows(db: Db, mid: Db, t: Tx<ClaimReply>)
    requires DbOk(db) && Grows(db, mid) && (t.reply.Err? ==> t.db == db) && (t.reply.Ok? ==> DbOk(t.db) && Grows(mid, t.db))
    ensures DbOk(t.db) && Grows(db, t.db)
  {
    hide DbOk;
    hide Grows;
    if t.reply.Ok? { GrowsTransitive(db, mid, t.db); } else { NothingChanges(db); }
  }

  // ----- settling transactions ------------------------------------------------------------------

  lemma AdmitsUnsettled(db: Db, a: Attempt)
    requires a in db.attempts && a.id !in db.outcomes
    ensures AdmitsOutcome(db, a.id)
  {
  }

  lemma SettleFailureKeeps(db: Db, a: Attempt, failure: Failure, elapsed: int, peak: int, now: int)
    requires DbOk(db) && a in db.attempts && a.id !in db.outcomes && elapsed >= 0
    ensures var t := SettleFailure(db, a.id, failure, elapsed, peak, now);
            t == Tx(Settled(db, a, Outcome(Some(failure), None, None, elapsed, Max0(peak), now)), Ok(())) && DbOk(t.db) && Grows(db, t.db)
  {
    hide DbOk;
    hide Grows;
    AdmitsUnsettled(db, a);
    var o := Outcome(Some(failure), None, None, elapsed, Max0(peak), now);
    FailureOutcomeOk(db.store, a, o);
    SettledDb(db, a, o);
  }

  /** The artifact a conversion publishes for the attempt it belongs to. */
  ghost predicate BelongsTo(a: Attempt, artifact: Artifact, elapsed: int) {
    && artifact.Extraction? && LayoutReview !in artifact.issues
    && var m := artifact.manifest;
       && m.identity.fingerprint == a.fingerprint && m.audit == a.audit && m.peak >= 0 && 0 <= m.elapsed <= elapsed
       && m.configHash == a.fingerprint.semantics.configHash && m.modelsHash == a.fingerprint.semantics.modelsHash
  }

  lemma PublishedOutcomeOk(store: set<Artifact>, a: Attempt, artifact: Artifact, elapsed: int, now: int)
    requires artifact in store && BelongsTo(a, artifact, elapsed)
    ensures OutcomeOk(store, a, PublishedOutcome(artifact, elapsed, now)) == true
  {
  }

  lemma SettlePublishedKeeps(db: Db, a: Attempt, artifact: Artifact, elapsed: int, now: int)
    requires DbOk(db) && a in db.attempts && a.id !in db.outcomes
    requires artifact in db.store && BelongsTo(a, artifact, elapsed)
    ensures var t := SettlePublished(db, a.fingerprint, a.id, artifact, elapsed, now);
            t == Tx(Settled(db, a, PublishedOutcome(artifact, elapsed, now)), Ok(())) && DbOk(t.db) && Grows(db, t.db)
  {
    hide DbOk;
    hide Grows;
    AdmitsUnsettled(db, a);
    PublishedOutcomeOk(db.store, a, artifact, elapsed, now);
    SettledDb(db, a, PublishedOutcome(artifact, elapsed, now));
    NoSuccessYet(db, a);
  }

  lemma NoSuccessYet(db: Db, a: Attempt)
    requires DbOk(db) && a in db.attempts && a.id !in db.outcomes
    ensures a.fingerprint !in db.successes
  {
    UnsettledHasNoSuccess(db, a);
  }

  // ----- the review transaction -----------------------------------------------------------------

  predicate ReviewIdTaken(reviews: seq<ReviewRow>, id: string) {
    exists i :: 0 <= i < |reviews| && reviews[i].id == id
  }

  /** A review that may be appended: it names the published identity, and it does not pass after a failure. */
  ghost predicate NextReview(db: Db, r: ReviewRow) {
    && r.identity.fingerprint in db.successes
    && !ReviewIdTaken(db.reviews, r.id) && FindReview(db.reviews, r.requestId).None?
    && (ReviewFailed(db.reviews, r.identity.fingerprint) ==> !r.passed)
    && (forall a :: a in db.attempts && a.fingerprint == r.identity.fingerprint ==> Reviews(db.outcomes, a, r.identity))
    && r.checks.Keys == LAYOUT_CHECKS && (r.passed <==> AllPassed(r.checks)) && Required(r.note) && Required(r.actor)
    && r.request == ReviewRequest(r.identity, r.passed, r.checks, r.note, r.actor)
  }

  lemma ReviewsKeep(db: Db, r: ReviewRow)
    requires ReviewsOk(db.attempts, db.outcomes, db.successes, db.reviews) && NextReview(db, r)
    ensures ReviewsOk(db.attempts, db.outcomes, db.successes, db.reviews + [r]) == true
  {
  }

  lemma ReviewRowKeeps(db: Db, r: ReviewRow)
    requires DbOk(db) && NextReview(db, r)
    ensures DbOk(db.(reviews := db.reviews + [r]))
  {
    ReviewsKeep(db, r);
  }

  lemma PublishedIsTheView(db: Db, f: Fingerprint, identity: Identity)
    requires DbOk(db) && f in db.inputs && AttemptsOf(db.attempts, f) != []
    requires LastPublication(db, f).Some?
    requires identity == Identity(f, LastPublication(db, f).value.reading, LastPublication(db, f).value.evidenceMap)
    ensures forall a :: a in db.attempts && a.fingerprint == f ==> Reviews(db.outcomes, a, identity)
  {
    forall a | a in db.attempts && a.fingerprint == f ensures Reviews(db.outcomes, a, identity) {
      if !Retriable(db.outcomes, a.id) {
        NotRetriableIsLast(db.inputs, db.attempts, db.outcomes, a);
      }
    }
  }

  lemma FlawIsAutomatic(db: Db, f: Fingerprint)
    requires DbOk(db) && f in db.inputs && AttemptsOf(db.attempts, f) != [] && LastPublication(db, f).Some?
    ensures LastOutcome(db, f).value.flaw != Some(LayoutReview)
    ensures LastFailure(db, f).Some? ==> Permanent(LastFailure(db, f)) && LastOutcome(db, f).value.flaw.Some?
  {
    hide DbOk;
    LastIsCoherent(db, f);
  }

  /** The view already passed every test of `review_layout`, and the row is not a repeat. */
  ghost predicate Reviewable(db: Db, call: ReviewCall, view: View) {
    && call.Acceptable() && FindReview(db.reviews, call.requestId).None?
    && call.identity.fingerprint in db.inputs
    && ExtractionView(db, call.identity.fingerprint) == Ok(Some(view))
    && view.identity == Some(call.identity) && view.artifact.Some?
    && !(view.permanent && (call.passed || view.quality != Failed(view.artifact.value, LayoutReview)))
  }

  lemma ReviewableSucceeded(db: Db, call: ReviewCall, view: View, id: string, now: int)
    requires DbOk(db) && Reviewable(db, call, view)
    ensures call.identity.fingerprint in db.successes
    ensures !ReviewIdTaken(db.reviews, id) ==> NextReview(db, ReviewRowFor(call, id, now))
  {
    hide DbOk;
    var key := call.identity.fingerprint;
    ViewIsSound(db, key);
    FlawIsAutomatic(db, key);
    PublishedIsTheView(db, key, call.identity);
  }

  lemma ReviewLands(db: Db, call: ReviewCall, view: View, id: string, now: int)
    requires DbOk(db) && Reviewable(db, call, view) && !ReviewIdTaken(db.reviews, id)
    ensures var later := db.(reviews := db.reviews + [ReviewRowFor(call, id, now)]);
            && DbOk(later) && Grows(db, later)
            && ExtractionView(later, call.identity.fingerprint).Ok? && ExtractionView(later, call.identity.fingerprint).value.Some?
  {
    hide DbOk;
    hide Grows;
    ReviewableSucceeded(db, call, view, id, now);
    var row := ReviewRowFor(call, id, now);
    ReviewRowKeeps(db, row);
    ReviewAppended(db, row);
    ViewIsSound(db.(reviews := db.reviews + [row]), call.identity.fingerprint);
  }

  /** What a review call does to a coherent store. */
  ghost predicate ReviewDoes(db: Db, call: ReviewCall, id: string, now: int, t: Tx<View>) {
    && (t.reply.Err? ==> t.db == db)
    && (t.db != db ==> t.db == db.(reviews := db.reviews + [ReviewRowFor(call, id, now)]))
    && (t.reply == Err(DatabaseFailed) ==> ReviewIdTaken(db.reviews, id))
  }

  lemma ReviewUnfolds(db: Db, call: ReviewCall, id: string, now: int)
    ensures var t, seen := ReviewLayout(db, call, id, now), ExtractionView(db, call.identity.fingerprint);
            if seen.Ok? && seen.value.Some? && Reviewable(db, call, seen.value.value) then
              var key, later := call.identity.fingerprint, db.(reviews := db.reviews + [ReviewRowFor(call, id, now)]);
              if key !in db.successes || ReviewIdTaken(db.reviews, id) then t == Reject(db, DatabaseFailed)
              else ExtractionView(later, key).Ok? && ExtractionView(later, key).value.Some? ==>
                t == Tx(later, Ok(ExtractionView(later, key).value.value))
            else t.db == db && (t.reply == Err(DatabaseFailed) ==> seen == Err(DatabaseFailed))
  {
  }

  lemma ViewNeverRejects(db: Db, f: Fingerprint)
    ensures ExtractionView(db, f) != Err(DatabaseFailed)
  {
  }

  /** A review keeps the store coherent; it is refused by the database for a reused id only. */
  lemma ReviewKeeps(db: Db, call: ReviewCall, id: string, now: int)
    requires DbOk(db)
    ensures var t := ReviewLayout(db, call, id, now); DbOk(t.db) && Grows(db, t.db) && ReviewDoes(db, call, id, now, t)
  {
    hide DbOk;
    hide Grows;
    NothingChanges(db);
    ReviewUnfolds(db, call, id, now);
    ViewNeverRejects(db, call.identity.fingerprint);
    var seen := ExtractionView(db, call.identity.fingerprint);
    if seen.Ok? && seen.value.Some? && Reviewable(db, call, seen.value.value) {
      ReviewableSucceeded(db, call, seen.value.value, id, now);
      if !ReviewIdTaken(db.reviews, id) {
        ReviewLands(db, call, seen.value.value, id, now);
      }
    }
  }
}

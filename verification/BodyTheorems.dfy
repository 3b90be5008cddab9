/** What holds over every run of the Body protocol, whatever the interleaving and wherever processes crash. */
module BodyTheorems {
  import opened Prelude
  import opened Ledger
  import opened BodyModel
  import opened BodyQueries
  import opened BodyTransactions
  import opened BodyInvariant
  import opened BodyPreservation
  import opened ExtractionPreservation
  import opened BodyValidation
  import opened BodyProtocol
  import opened BodySafety

  // ----- runs -----------------------------------------------------------------------------------

  lemma InitialIsOk()
    ensures SystemOk(INITIAL)
  {
    assert forall pid :: PhaseOf(INITIAL, pid) == Idle;
    assert forall f :: AttemptsOf(INITIAL.db.attempts, f) == [];
  }

  /** The invariant holds along every run, and nothing recorded is ever lost or rewritten. */
  lemma {:induction false} RunKeeps(s: System, events: seq<Event>)
    requires SystemOk(s)
    ensures SystemOk(Run(s, events)) && Grows(s.db, Run(s, events).db)
  {
    hide SystemOk;
    hide Grows;
    hide Step;
    if events == [] {
      NothingChanges(s.db);
    } else {
      var front := events[..|events| - 1];
      RunKeeps(s, front);
      StepKeeps(Run(s, front), events[|events| - 1]);
      GrowsTransitive(s.db, Run(s, front).db, Run(s, events).db);
    }
  }

  ghost predicate Reachable(s: System) {
    exists events :: s == Run(INITIAL, events)
  }

  lemma ReachableIsOk(s: System)
    requires Reachable(s)
    ensures SystemOk(s) && DbOk(s.db)
  {
    hide SystemOk;
    hide DbOk;
    var events :| s == Run(INITIAL, events);
    InitialIsOk();
    RunKeeps(INITIAL, events);
    StoreOf(s);
  }

  /**
   * A reachable store passes the closure checker that backup and restore run, unless it holds a PDF that was attached
   * under an empty version name, which the checker does not accept.
   */
  lemma ReachableStorePasses(events: seq<Event>)
    ensures BodyValid(Run(INITIAL, events).db) <==> VersionsNamed(Run(INITIAL, events).db.pdfs)
  {
    hide SystemOk;
    hide DbOk;
    hide BodyValid;
    hide VersionsNamed;
    ReachableIsOk(Run(INITIAL, events));
    CoherentStorePasses(Run(INITIAL, events).db);
  }

  // ----- the budget -----------------------------------------------------------------------------

  lemma {:induction false} AttemptsOfPrefix(attempts: seq<Attempt>, later: seq<Attempt>, f: Fingerprint)
    requires attempts <= later
    ensures AttemptsOf(attempts, f) <= AttemptsOf(later, f)
  {
    if attempts != later {
      assert attempts <= later[..|later| - 1];
      AttemptsOfPrefix(attempts, later[..|later| - 1], f);
    }
  }

  lemma AtMostTwo(db: Db, f: Fingerprint)
    requires DbOk(db)
    ensures |AttemptsOf(db.attempts, f)| <= 2
  {
    hide DbOk;
    if f in db.inputs { HasAttempts(db, f); } else { NoRowsBeforeTheInput(db, f); }
  }

  /** Over all processes, retries and crashes, one extraction is started at most twice. */
  lemma ConversionBudget(events: seq<Event>, f: Fingerprint)
    ensures CountOf(Run(INITIAL, events).starts, f) <= 2
  {
    var s := Run(INITIAL, events);
    ReachableIsOk(s);
    AtMostTwo(s.db, f);
    assert CountOf(s.starts, f) + PendingStart(s, f) <= |AttemptsOf(s.db.attempts, f)|;
  }

  /** An artifact was published for the fingerprint, or its failure is permanent. */
  ghost predicate DecidedView(db: Db, f: Fingerprint) {
    var v := ExtractionView(db, f);
    v.Ok? && v.value.Some? && (v.value.value.artifact.Some? || v.value.value.permanent)
  }

  lemma WorkerIsUndecided(s: System, pid: string)
    requires SystemOk(s) && PhaseOf(s, pid).Working()
    ensures var f := PhaseOf(s, pid).job.Key(); f in s.db.inputs && !DecidedView(s.db, f)
  {
    hide DbOk;
    PhaseSound(s, pid);
    var p := PhaseOf(s, pid);
    InputOfAttempt(s.db, p.attempt);
    UnsettledIsUndecided(s.db, p.attempt);
  }

  lemma InputOfAttempt(db: Db, a: Attempt)
    requires DbOk(db) && a in db.attempts
    ensures a.fingerprint in db.inputs
  {
    assert AttemptOk(db.inputs, a);
  }

  lemma UnsettledIsLast(db: Db, a: Attempt)
    requires DbOk(db) && a in db.attempts && a.id !in db.outcomes
    ensures AttemptsOf(db.attempts, a.fingerprint) != [] && a == LastOf(db.attempts, a.fingerprint)
  {
    NotRetriableIsLast(db.inputs, db.attempts, db.outcomes, a);
  }

  lemma UnsettledIsUndecided(db: Db, a: Attempt)
    requires DbOk(db) && a in db.attempts && a.id !in db.outcomes && a.fingerprint in db.inputs
    ensures !DecidedView(db, a.fingerprint)
  {
    hide DbOk;
    hide ExtractionView;
    UnsettledIsLast(db, a);
    ViewIsSound(db, a.fingerprint);
    NoSuccessYet(db, a);
  }

  /**
   * A conversion starts only while nothing was published and no permanent failure is recorded, only for an attempt
   * nobody has settled, and while no other process works on any attempt of the data root.
   */
  lemma StartsAreExclusive(s: System, pid: string)
    requires Reachable(s) && Step(s, StartsConverting(pid)).starts != s.starts
    ensures PhaseOf(s, pid).Claiming? && !DecidedView(s.db, PhaseOf(s, pid).job.Key())
    ensures PhaseOf(s, pid).attempt in s.db.attempts && PhaseOf(s, pid).attempt.id !in s.db.outcomes
    ensures forall q :: q != pid ==> !PhaseOf(s, q).Working()
  {
    hide DbOk;
    hide DecidedView;
    ReachableIsOk(s);
    WorkerIsUndecided(s, pid);
    PhaseSound(s, pid);
    forall q | q != pid ensures !PhaseOf(s, q).Working() {
      assert PhaseOf(s, q).HoldsLock() <==> s.lock == Some(q);
      assert PhaseOf(s, pid).HoldsLock() <==> s.lock == Some(pid);
    }
  }

  // ----- absorbing outcomes ---------------------------------------------------------------------

  lemma GrowsKeepsInput(a: Db, b: Db, f: Fingerprint)
    requires Grows(a, b) && f in a.inputs
    ensures f in b.inputs && AttemptsOf(a.attempts, f) <= AttemptsOf(b.attempts, f)
    ensures f in a.successes ==> f in b.successes
  {
    AttemptsOfPrefix(a.attempts, b.attempts, f);
  }

  lemma GrowsKeepsOutcome(a: Db, b: Db, id: string)
    requires Grows(a, b) && id in a.outcomes
    ensures id in b.outcomes && b.outcomes[id] == a.outcomes[id]
  {
  }

  lemma OutcomesStay(a: Db, b: Db)
    requires Grows(a, b)
    ensures forall k :: k in a.outcomes ==> k in b.outcomes && b.outcomes[k] == a.outcomes[k]
  {
  }

  lemma FailedReviewStays(a: Db, b: Db, f: Fingerprint)
    requires Grows(a, b) && ReviewFailed(a.reviews, f)
    ensures ReviewFailed(b.reviews, f)
  {
  }

  lemma OnlyRetriesFollow(rows: seq<Attempt>, later: seq<Attempt>, outcomes: map<string, Outcome>)
    requires rows != [] && rows <= later && ChainOk(later, outcomes)
    ensures rows == later || Retriable(outcomes, rows[|rows| - 1].id)
  {
  }

  /** An attempt that is settled without leaving room for a retry stays the last one. */
  lemma LastStays(a: Db, b: Db, f: Fingerprint)
    requires DbOk(a) && DbOk(b) && Grows(a, b) && f in a.inputs
    requires AttemptsOf(a.attempts, f) != [] && LastOf(a.attempts, f).id in a.outcomes
    requires !Retriable(a.outcomes, LastOf(a.attempts, f).id)
    ensures AttemptsOf(b.attempts, f) == AttemptsOf(a.attempts, f)
  {
    hide DbOk;
    hide Grows;
    GrowsKeepsInput(a, b, f);
    GrowsKeepsOutcome(a, b, LastOf(a.attempts, f).id);
    HasAttempts(b, f);
    HasAttempts(a, f);
    OnlyRetriesFollow(AttemptsOf(a.attempts, f), AttemptsOf(b.attempts, f), b.outcomes);
  }

  /** Once decided, the attempts, the artifact, the identity and a permanent failure stay as they are. */
  lemma DecisionsStay(a: Db, b: Db, f: Fingerprint)
    requires DbOk(a) && DbOk(b) && Grows(a, b) && f in a.inputs && DecidedView(a, f)
    ensures DecidedView(b, f)
    ensures ExtractionView(b, f).value.value.attempts == ExtractionView(a, f).value.value.attempts
    ensures ExtractionView(b, f).value.value.artifact == ExtractionView(a, f).value.value.artifact
    ensures ExtractionView(b, f).value.value.identity == ExtractionView(a, f).value.value.identity
    ensures ExtractionView(a, f).value.value.permanent ==> ExtractionView(b, f).value.value.permanent
  {
    hide DbOk;
    hide Grows;
    hide ExtractionView;
    ViewIsSound(a, f);
    var last := LastOf(a.attempts, f);
    SuccessOrFailureIsFinal(a, f);
    LastStays(a, b, f);
    GrowsKeepsInput(a, b, f);
    ViewIsSound(b, f);
    JoinedRowsStay(a, b, f);
    if ReviewFailed(a.reviews, f) { FailedReviewStays(a, b, f); }
  }

  lemma SuccessOrFailureIsFinal(db: Db, f: Fingerprint)
    requires DbOk(db) && f in db.inputs && DecidedView(db, f)
    ensures AttemptsOf(db.attempts, f) != [] && LastOf(db.attempts, f).id in db.outcomes
    ensures !Retriable(db.outcomes, LastOf(db.attempts, f).id)
  {
    hide DbOk;
    hide ExtractionView;
    ViewIsSound(db, f);
  }

  lemma JoinedRowsStay(a: Db, b: Db, f: Fingerprint)
    requires DbOk(a) && Grows(a, b) && f in a.inputs
    requires AttemptsOf(b.attempts, f) == AttemptsOf(a.attempts, f)
    requires AttemptsOf(a.attempts, f) != [] && LastOf(a.attempts, f).id in a.outcomes
    ensures JoinAll(AttemptsOf(b.attempts, f), b.outcomes) == JoinAll(AttemptsOf(a.attempts, f), a.outcomes)
  {
    hide DbOk;
    hide AttemptsOf;
    hide Grows;
    HasAttempts(a, f);
    OutcomesStay(a, b);
    JoinsStay(AttemptsOf(a.attempts, f), a.outcomes, b.outcomes);
  }

  lemma JoinsStay(rows: seq<Attempt>, outcomes: map<string, Outcome>, later: map<string, Outcome>)
    requires ChainOk(rows, outcomes) && rows[|rows| - 1].id in outcomes
    requires forall k :: k in outcomes ==> k in later && later[k] == outcomes[k]
    ensures JoinAll(rows, later) == JoinAll(rows, outcomes)
  {
  }

  /** On every reachable store the view answers, and never with corruption. */
  lemma ViewNeverCorrupt(s: System, f: Fingerprint)
    requires Reachable(s)
    ensures ExtractionView(s.db, f).Ok?
    ensures f in s.db.inputs <==> ExtractionView(s.db, f).value.Some?
  {
    hide DbOk;
    hide SystemOk;
    ReachableIsOk(s);
    if f in s.db.inputs { ViewIsSound(s.db, f); }
  }

  /** The absorbing outcomes along a run: artifact, identity, attempts and a permanent failure are final. */
  lemma OutcomesAbsorb(s: System, events: seq<Event>, f: Fingerprint)
    requires Reachable(s) && DecidedView(s.db, f)
    ensures var v, w := ExtractionView(s.db, f).value.value, ExtractionView(Run(s, events).db, f);
            && w.Ok? && w.value.Some?
            && w.value.value.attempts == v.attempts && w.value.value.artifact == v.artifact
            && w.value.value.identity == v.identity && (v.permanent ==> w.value.value.permanent)
  {
    hide DbOk;
    hide SystemOk;
    hide Grows;
    ReachableIsOk(s);
    RunKeeps(s, events);
    StoreOf(Run(s, events));
    DecisionsStay(s.db, Run(s, events).db, f);
  }

  /** No reachable store holds a passing review that was added after a failing one of the same extraction. */
  lemma NoPassAfterFail(s: System, i: nat, j: nat)
    requires Reachable(s) && i < j < |s.db.reviews|
    requires s.db.reviews[i].identity.fingerprint == s.db.reviews[j].identity.fingerprint && !s.db.reviews[i].passed
    ensures !s.db.reviews[j].passed
  {
    hide SystemOk;
    ReachableIsOk(s);
    assert ReviewOrder(s.db.reviews);
  }

  /** After an artifact or a permanent failure exists, no process ever starts to convert that input again. */
  lemma {:induction false} DecidedNeverConverts(s: System, events: seq<Event>, f: Fingerprint)
    requires SystemOk(s) && DecidedView(s.db, f)
    ensures CountOf(Run(s, events).starts, f) == CountOf(s.starts, f)
  {
    hide DbOk;
    hide SystemOk;
    hide Grows;
    hide DecidedView;
    hide Step;
    if events != [] {
      var front := events[..|events| - 1];
      var mid := Run(s, front);
      DecidedNeverConverts(s, front, f);
      RunKeeps(s, front);
      StoreOf(s);
      StoreOf(mid);
      DecidedStays(s.db, mid.db, f);
      StartsOf(mid, events[|events| - 1], f);
    }
  }

  lemma DecidedStays(a: Db, b: Db, f: Fingerprint)
    requires DbOk(a) && DbOk(b) && Grows(a, b) && DecidedView(a, f)
    ensures DecidedView(b, f) == true
  {
    hide DbOk;
    hide Grows;
    assert f in a.inputs;
    DecisionsStay(a, b, f);
  }

  lemma StartsOf(s: System, e: Event, f: Fingerprint)
    requires SystemOk(s) && DecidedView(s.db, f)
    ensures CountOf(Step(s, e).starts, f) == CountOf(s.starts, f)
  {
    hide SystemOk;
    hide DecidedView;
    StepStarts(s, e);
    var t := Step(s, e);
    if t.starts != s.starts {
      WorkerIsUndecided(s, e.pid);
      assert t.starts[..|t.starts| - 1] == s.starts;
    }
  }

  lemma StepStarts(s: System, e: Event)
    ensures Step(s, e).starts == s.starts
            || (e.StartsConverting? && PhaseOf(s, e.pid).Claiming? && Step(s, e).starts == s.starts + [PhaseOf(s, e.pid).job.Key()])
  {
    hide Claim;
    hide AttachRead;
    hide SettleRaised;
    hide SettlePublished;
  }

  /** An attempt is settled at most once: its outcome is never rewritten, and the budget is never refunded. */
  lemma SettledOnce(s: System, events: seq<Event>)
    requires Reachable(s)
    ensures forall k :: k in s.db.outcomes ==>
              k in Run(s, events).db.outcomes && Run(s, events).db.outcomes[k] == s.db.outcomes[k]
    ensures forall f :: |AttemptsOf(s.db.attempts, f)| <= |AttemptsOf(Run(s, events).db.attempts, f)|
  {
    hide SystemOk;
    ReachableIsOk(s);
    RunKeeps(s, events);
    forall f ensures |AttemptsOf(s.db.attempts, f)| <= |AttemptsOf(Run(s, events).db.attempts, f)| {
      AttemptsOfPrefix(s.db.attempts, Run(s, events).db.attempts, f);
    }
  }
}

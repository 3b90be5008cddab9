/** The invariant of the whole system, kept by every event, and what it means over whole runs. */
module BodySafety {
  import opened Prelude
  import opened Ledger
  import opened BodyModel
  import opened BodyQueries
  import opened BodyTransactions
  import opened BodyInvariant
  import opened BodyPreservation
  import opened ExtractionPreservation
  import opened BodyValidation
  import opened BodyProtocol

  // ----- the invariant --------------------------------------------------------------------------

  ghost predicate AttachOk(db: Db, call: AttachCall, selected: string) {
    && call.Acceptable() && call.paper in db.papers && selected in db.papers[call.paper].versions
    && (NamesVersion(call.version) ==> call.version.value == selected) && OriginalPdf(call.pdf) in db.store
  }

  /** A claimed attempt that its process has not settled. */
  ghost predicate WorkOk(db: Db, mono: int, job: Job, a: Attempt, start: int) {
    && JobOk(db, job) && a in db.attempts && a.id !in db.outcomes
    && a.fingerprint == job.Key() && a.audit == job.audit && start <= mono
  }

  ghost predicate PhaseOk(db: Db, mono: int, p: Phase) {
    match p
    case Idle => true
    case Attaching(call, selected) => AttachOk(db, call, selected)
    case Prepared(job) => JobOk(db, job)
    case Holding(job) => JobOk(db, job)
    case Claiming(job, a, start) => WorkOk(db, mono, job, a, start)
    case Converting(job, a, start) => WorkOk(db, mono, job, a, start)
    case Refused(job, a, start, _) => WorkOk(db, mono, job, a, start)
    case Produced(job, a, start, artifact) =>
      WorkOk(db, mono, job, a, start) && artifact in db.store && BelongsTo(a, artifact, mono - start)
    case Finished(job) => JobOk(db, job)
  }

  ghost predicate PhasesOk(db: Db, mono: int, phases: map<string, Phase>) {
    forall pid :: pid in phases ==> PhaseOk(db, mono, phases[pid])
  }

  /** The root lock is held by exactly the process whose phase says so. */
  ghost predicate LockOk(s: System) {
    forall pid: string :: PhaseOf(s, pid).HoldsLock() <==> s.lock == Some(pid)
  }

  function CountOf(starts: seq<Fingerprint>, f: Fingerprint): nat {
    if starts == [] then 0 else CountOf(starts[..|starts| - 1], f) + (if starts[|starts| - 1] == f then 1 else 0)
  }

  /** 1 while the lock holder has claimed an attempt of this fingerprint and not yet started to convert. */
  function PendingStart(s: System, f: Fingerprint): nat {
    if s.lock.Some? && PhaseOf(s, s.lock.value).Claiming? && PhaseOf(s, s.lock.value).job.Key() == f then 1 else 0
  }

  ghost predicate StartsOk(s: System) {
    forall f :: CountOf(s.starts, f) + PendingStart(s, f) <= |AttemptsOf(s.db.attempts, f)|
  }

  ghost predicate TimesOk(db: Db, wall: int) {
    forall r :: r in db.reviews ==> r.at <= wall
  }

  /** The invariant of the system. */
  ghost predicate SystemOk(s: System) {
    DbOk(s.db) && PhasesOk(s.db, s.mono, s.phases) && LockOk(s) && StartsOk(s) && TimesOk(s.db, s.wall)
  }

  lemma StoreOf(s: System)
    requires SystemOk(s)
    ensures DbOk(s.db)
  {
    hide DbOk;
  }

  // ----- frames ---------------------------------------------------------------------------------

  /** A phase stays sound while the store grows, as long as nobody settles the attempt it is working on. */
  lemma PhaseSurvives(db: Db, later: Db, mono: int, now: int, p: Phase)
    requires Grows(db, later) && mono <= now && PhaseOk(db, mono, p)
    requires p.Working() ==> p.attempt.id !in later.outcomes
    ensures PhaseOk(later, now, p) == true
  {
    if p.Attaching? {
      assert PaperGrows(db.papers[p.call.paper], later.papers[p.call.paper]);
    }
  }

  /** Events that touch neither the extraction tables nor any process. */
  lemma OthersUntouched(s: System, later: Db)
    requires SystemOk(s) && DbOk(later) && Grows(s.db, later)
    requires later.outcomes == s.db.outcomes && later.attempts == s.db.attempts
    requires forall r :: r in later.reviews ==> r in s.db.reviews || r.at <= s.wall
    ensures SystemOk(s.(db := later))
  {
    hide DbOk;
    hide Grows;
    forall pid | pid in s.phases ensures PhaseOk(later, s.mono, s.phases[pid]) {
      PhaseSurvives(s.db, later, s.mono, s.mono, s.phases[pid]);
    }
    var t := s.(db := later);
    assert forall pid :: PhaseOf(t, pid) == PhaseOf(s, pid);
    assert forall f :: PendingStart(t, f) == PendingStart(s, f);
  }

  /** Moving one process to another phase without touching the tables or the lock. */
  lemma MovesPhase(s: System, pid: string, p: Phase)
    requires SystemOk(s) && PhaseOk(s.db, s.mono, p)
    requires p.HoldsLock() == PhaseOf(s, pid).HoldsLock()
    requires !p.Claiming?
    ensures SystemOk(Enter(s, pid, p))
  {
    hide DbOk;
    var t := Enter(s, pid, p);
    forall q: string ensures PhaseOf(t, q).HoldsLock() <==> t.lock == Some(q) {
      assert PhaseOf(s, q).HoldsLock() <==> s.lock == Some(q);
    }
    forall f ensures CountOf(t.starts, f) + PendingStart(t, f) <= |AttemptsOf(t.db.attempts, f)| {
      assert CountOf(s.starts, f) + PendingStart(s, f) <= |AttemptsOf(s.db.attempts, f)|;
      assert PendingStart(t, f) <= PendingStart(s, f);
    }
  }

  lemma Leaves(s: System, pid: string)
    requires SystemOk(s)
    ensures SystemOk(Leave(s, pid))
  {
    hide DbOk;
    var t := Leave(s, pid);
    forall q: string ensures PhaseOf(t, q).HoldsLock() <==> t.lock == Some(q) {
      assert PhaseOf(s, q).HoldsLock() <==> s.lock == Some(q);
    }
    forall f ensures CountOf(t.starts, f) + PendingStart(t, f) <= |AttemptsOf(t.db.attempts, f)| {
      assert CountOf(s.starts, f) + PendingStart(s, f) <= |AttemptsOf(s.db.attempts, f)|;
    }
  }

  // ----- the environment ------------------------------------------------------------------------

  ghost predicate PapersGrow(papers: map<string, Paper>, later: map<string, Paper>) {
    forall p :: p in papers ==> p in later && PaperGrows(papers[p], later[p])
  }

  lemma PdfsSurvive(papers: map<string, Paper>, later: map<string, Paper>, store: set<Artifact>, more: set<Artifact>,
                    pdfs: seq<PdfRow>)
    requires PdfsOk(papers, store, pdfs) && PapersGrow(papers, later) && store <= more
    ensures PdfsOk(later, more, pdfs) == true
  {
  }

  lemma DecisionsSurvive(papers: map<string, Paper>, later: map<string, Paper>, screenings: map<string, Screening>,
                         more: map<string, Screening>, rows: seq<DecisionRow>)
    requires DecisionsOk(papers, screenings, rows) && PapersGrow(papers, later)
    requires forall k :: k in screenings ==> k in more && more[k] == screenings[k]
    ensures DecisionsOk(later, more, rows) == true
  {
  }

  lemma SamplesSurvive(papers: map<string, Paper>, later: map<string, Paper>, roots: seq<RootRow>, pdfs: seq<PdfRow>,
                       rows: seq<SampleRow>)
    requires SamplesOk(papers, roots, pdfs, rows) && PapersGrow(papers, later)
    ensures SamplesOk(later, roots, pdfs, rows) == true
  {
  }

  lemma OutcomesSurvive(store: set<Artifact>, more: set<Artifact>, attempts: seq<Attempt>, outcomes: map<string, Outcome>)
    requires OutcomesOk(store, attempts, outcomes) && store <= more
    ensures OutcomesOk(more, attempts, outcomes) == true
  {
  }

  lemma PaperChangeKeeps(db: Db, paper: string, to: Paper)
    requires DbOk(db) && PaperOk(to)
    requires paper in db.papers ==> PaperGrows(db.papers[paper], to)
    ensures DbOk(db.(papers := db.papers[paper := to]))
  {
    var papers := db.papers[paper := to];
    PdfsSurvive(db.papers, papers, db.store, db.store, db.pdfs);
    DecisionsSurvive(db.papers, papers, db.screenings, db.screenings, db.decisions);
    SamplesSurvive(db.papers, papers, db.roots, db.pdfs, db.samples);
  }

  lemma PaperChangeGrows(db: Db, paper: string, to: Paper)
    requires paper in db.papers ==> PaperGrows(db.papers[paper], to)
    ensures Grows(db, db.(papers := db.papers[paper := to]))
  {
  }

  lemma ScreeningKeeps(db: Db, success: string, screening: Screening)
    requires DbOk(db) && success !in db.screenings
    ensures DbOk(db.(screenings := db.screenings[success := screening]))
  {
    DecisionsSurvive(db.papers, db.papers, db.screenings, db.screenings[success := screening], db.decisions);
  }

  lemma ScreeningGrows(db: Db, success: string, screening: Screening)
    requires success !in db.screenings
    ensures Grows(db, db.(screenings := db.screenings[success := screening]))
  {
  }

  lemma SnapshotKeeps(db: Db, snapshot: string, semantics: Semantics)
    requires DbOk(db) && snapshot !in db.snapshots
    ensures DbOk(db.(snapshots := db.snapshots[snapshot := semantics]))
  {
    forall f | f in db.inputs ensures InputOk(db.snapshots[snapshot := semantics], db.pdfs, f, db.inputs[f]) {
      assert InputOk(db.snapshots, db.pdfs, f, db.inputs[f]);
    }
  }

  lemma SnapshotGrows(db: Db, snapshot: string, semantics: Semantics)
    requires snapshot !in db.snapshots
    ensures Grows(db, db.(snapshots := db.snapshots[snapshot := semantics]))
  {
  }

  lemma StoreKeeps(db: Db, artifact: Artifact)
    requires DbOk(db)
    ensures DbOk(db.(store := db.store + {artifact}))
  {
    var store := db.store + {artifact};
    PdfsSurvive(db.papers, db.papers, db.store, store, db.pdfs);
    OutcomesSurvive(db.store, store, db.attempts, db.outcomes);
  }

  lemma StoreGrows(db: Db, artifact: Artifact)
    ensures Grows(db, db.(store := db.store + {artifact}))
  {
  }

  // ----- the lock holder ------------------------------------------------------------------------

  /** The holder of the lock changes the tables and moves on; nobody else can be working on an attempt. */
  lemma HolderMoves(s: System, pid: string, later: Db, p: Phase)
    requires SystemOk(s) && PhaseOf(s, pid).HoldsLock() && p.HoldsLock()
    requires DbOk(later) && Grows(s.db, later) && later.reviews == s.db.reviews && PhaseOk(later, s.mono, p)
    requires StartsOk(Enter(s.(db := later), pid, p))
    ensures SystemOk(Enter(s.(db := later), pid, p))
  {
    hide DbOk;
    hide Grows;
    var t := Enter(s.(db := later), pid, p);
    forall q | q in t.phases ensures PhaseOk(later, s.mono, t.phases[q]) {
      if q != pid {
        assert PhaseOf(s, pid).HoldsLock() <==> s.lock == Some(pid);
        assert PhaseOf(s, q).HoldsLock() <==> s.lock == Some(q);
        PhaseSurvives(s.db, later, s.mono, s.mono, s.phases[q]);
      }
    }
    forall q: string ensures PhaseOf(t, q).HoldsLock() <==> t.lock == Some(q) {
      assert PhaseOf(s, q).HoldsLock() <==> s.lock == Some(q);
      assert PhaseOf(s, pid).HoldsLock() <==> s.lock == Some(pid);
    }
  }

  lemma JobSurvives(db: Db, later: Db, job: Job)
    requires JobOk(db, job) && Grows(db, later)
    ensures JobOk(later, job) == true
  {
  }

  lemma ClaimFrame(db: Db, job: Job, id: string, now: int)
    ensures Claim(db, job, id, now).db.reviews == db.reviews
  {
    hide ExtractionView;
    hide SettleDeparted;
    hide AdmitsAttempt;
    hide CurrentPdf;
  }

  lemma PhaseSound(s: System, pid: string)
    requires SystemOk(s)
    ensures DbOk(s.db) && PhaseOk(s.db, s.mono, PhaseOf(s, pid)) == true
  {
    hide DbOk;
  }

  lemma HolderOf(s: System, pid: string)
    requires SystemOk(s) && PhaseOf(s, pid).HoldsLock()
    ensures s.lock == Some(pid) && pid in s.phases && PhaseOk(s.db, s.mono, PhaseOf(s, pid)) == true
  {
    hide DbOk;
  }

  /** A refused conversion is the work of a running one. */
  lemma RefusedWork(s: System, pid: string, raised: Raised)
    requires SystemOk(s) && PhaseOf(s, pid).Converting?
    ensures var p := PhaseOf(s, pid); PhaseOk(s.db, s.mono, Refused(p.job, p.attempt, p.start, raised))
  {
    hide DbOk;
    HolderOf(s, pid);
  }

  lemma ClaimedStarts(s: System, pid: string, job: Job, a: Attempt, later: Db)
    requires SystemOk(s) && PhaseOf(s, pid) == Holding(job) && a.fingerprint == job.Key()
    requires later.attempts == s.db.attempts + [a]
    ensures StartsOk(Enter(s.(db := later), pid, Claiming(job, a, s.mono))) == true
  {
    hide DbOk;
    HolderOf(s, pid);
    var t := Enter(s.(db := later), pid, Claiming(job, a, s.mono));
    forall f ensures CountOf(t.starts, f) + PendingStart(t, f) <= |AttemptsOf(t.db.attempts, f)| {
      assert CountOf(s.starts, f) + PendingStart(s, f) <= |AttemptsOf(s.db.attempts, f)|;
      AttemptsOfAppend(s.db.attempts, a, f);
    }
  }

  lemma SameStarts(s: System, pid: string, later: Db, p: Phase)
    requires SystemOk(s) && later.attempts == s.db.attempts && !p.Claiming?
    ensures StartsOk(Enter(s.(db := later), pid, p)) == true
  {
    hide DbOk;
    var t := Enter(s.(db := later), pid, p);
    forall f ensures CountOf(t.starts, f) + PendingStart(t, f) <= |AttemptsOf(t.db.attempts, f)| {
      assert CountOf(s.starts, f) + PendingStart(s, f) <= |AttemptsOf(s.db.attempts, f)|;
    }
  }

  lemma ClaimStepKeeps(s: System, pid: string, job: Job, id: string)
    requires SystemOk(s) && PhaseOf(s, pid) == Holding(job)
    ensures SystemOk(ClaimStep(s, pid, job, id)) && Grows(s.db, ClaimStep(s, pid, job, id).db)
  {
    hide DbOk;
    hide Grows;
    hide SystemOk;
    StoreOf(s);
    HolderOf(s, pid);
    var t := Claim(s.db, job, id, s.wall);
    ClaimKeeps(s.db, job, id, s.wall);
    ClaimFrame(s.db, job, id, s.wall);
    JobSurvives(s.db, t.db, job);
    match t.reply
    case Err(_) =>
      assert s.(db := t.db) == s;
      Leaves(s, pid);
    case Ok(Decided(_)) =>
      SameStarts(s, pid, t.db, Finished(job));
      HolderMoves(s, pid, t.db, Finished(job));
    case Ok(ClaimedAttempt(a)) =>
      ClaimedStarts(s, pid, job, a, t.db);
      HolderMoves(s, pid, t.db, Claiming(job, a, s.mono));
  }

  lemma SettleStepKeeps(s: System, pid: string)
    requires SystemOk(s)
    ensures SystemOk(SettleStep(s, pid)) && Grows(s.db, SettleStep(s, pid).db)
  {
    hide DbOk;
    hide Grows;
    hide SystemOk;
    NothingChanges(s.db);
    var p := PhaseOf(s, pid);
    if p.Refused? || p.Produced? {
      HolderOf(s, pid);
      SettleSucceeds(s, pid);
      var later := SettleStep(s, pid).db;
      JobSurvives(s.db, later, p.job);
      SameStarts(s, pid, later, Finished(p.job));
      HolderMoves(s, pid, later, Finished(p.job));
    }
  }

  /** What settling does: the process's own attempt, which nobody settled before, gets its outcome. */
  ghost predicate SettleDoes(s: System, pid: string) {
    var p, t := PhaseOf(s, pid), SettleStep(s, pid);
    && (p.Refused? || p.Produced?)
    && p.attempt in s.db.attempts && p.attempt.id !in s.db.outcomes
    && p.attempt.id in t.db.outcomes && t == Enter(s.(db := t.db), pid, Finished(p.job))
    && t.db == Settled(s.db, p.attempt, t.db.outcomes[p.attempt.id])
  }

  lemma RefusedUnfolds(s: System, pid: string)
    requires PhaseOf(s, pid).Refused?
    ensures var p, t := PhaseOf(s, pid), SettleRaised(s, PhaseOf(s, pid));
            t.reply.Ok? ==> SettleStep(s, pid) == Enter(s.(db := t.db), pid, Finished(p.job))
  {
  }

  lemma SettleRefused(s: System, pid: string)
    requires SystemOk(s) && PhaseOf(s, pid).Refused?
    ensures SettleDoes(s, pid) && DbOk(SettleStep(s, pid).db) && Grows(s.db, SettleStep(s, pid).db)
  {
    hide DbOk;
    hide Grows;
    hide SystemOk;
    PhaseSound(s, pid);
    RefusedUnfolds(s, pid);
    var p := PhaseOf(s, pid);
    SettleFailureKeeps(s.db, p.attempt, FailureRecorded(p.raised), Max0(s.mono - p.start), PeakRecorded(p.raised), s.wall);
  }

  lemma SettleProduced(s: System, pid: string)
    requires SystemOk(s) && PhaseOf(s, pid).Produced?
    ensures SettleDoes(s, pid) && DbOk(SettleStep(s, pid).db) && Grows(s.db, SettleStep(s, pid).db)
  {
    hide DbOk;
    hide Grows;
    hide SystemOk;
    PhaseSound(s, pid);
    var p := PhaseOf(s, pid);
    SettlePublishedKeeps(s.db, p.attempt, p.artifact, Max0(s.mono - p.start), s.wall);
  }

  /** Settlement never fails: the attempt has no outcome yet. */
  lemma SettleSucceeds(s: System, pid: string)
    requires SystemOk(s) && (PhaseOf(s, pid).Refused? || PhaseOf(s, pid).Produced?)
    ensures SettleDoes(s, pid) && DbOk(SettleStep(s, pid).db) && Grows(s.db, SettleStep(s, pid).db)
  {
    hide DbOk;
    hide Grows;
    hide SystemOk;
    if PhaseOf(s, pid).Refused? { SettleRefused(s, pid); } else { SettleProduced(s, pid); }
  }

  // ----- one step -------------------------------------------------------------------------------

  lemma LockStepKeeps(s: System, pid: string)
    requires SystemOk(s) && PhaseOf(s, pid).Prepared? && s.lock.None?
    ensures SystemOk(Enter(s.(lock := Some(pid)), pid, Holding(PhaseOf(s, pid).job)))
  {
    hide DbOk;
    var t := Enter(s.(lock := Some(pid)), pid, Holding(PhaseOf(s, pid).job));
    forall q: string ensures PhaseOf(t, q).HoldsLock() <==> t.lock == Some(q) {
      assert PhaseOf(s, q).HoldsLock() <==> s.lock == Some(q);
    }
    forall f ensures CountOf(t.starts, f) + PendingStart(t, f) <= |AttemptsOf(t.db.attempts, f)| {
      assert CountOf(s.starts, f) + PendingStart(s, f) <= |AttemptsOf(s.db.attempts, f)|;
    }
  }

  lemma StartStepKeeps(s: System, pid: string)
    requires SystemOk(s) && PhaseOf(s, pid).Claiming?
    ensures var p := PhaseOf(s, pid);
            SystemOk(Enter(s.(starts := s.starts + [p.job.Key()]), pid, Converting(p.job, p.attempt, p.start)))
  {
    hide DbOk;
    HolderOf(s, pid);
    var p := PhaseOf(s, pid);
    var t := Enter(s.(starts := s.starts + [p.job.Key()]), pid, Converting(p.job, p.attempt, p.start));
    forall q: string ensures PhaseOf(t, q).HoldsLock() <==> t.lock == Some(q) {
      assert PhaseOf(s, q).HoldsLock() <==> s.lock == Some(q);
    }
    forall f ensures CountOf(t.starts, f) + PendingStart(t, f) <= |AttemptsOf(t.db.attempts, f)| {
      assert CountOf(s.starts, f) + PendingStart(s, f) <= |AttemptsOf(s.db.attempts, f)|;
      assert t.starts[..|t.starts| - 1] == s.starts;
    }
  }

  lemma ClockStepKeeps(s: System, wall: nat, mono: nat)
    requires SystemOk(s)
    ensures SystemOk(s.(wall := s.wall + wall, mono := s.mono + mono))
  {
    hide DbOk;
    var t := s.(wall := s.wall + wall, mono := s.mono + mono);
    NothingChanges(s.db);
    forall pid | pid in s.phases ensures PhaseOk(s.db, t.mono, s.phases[pid]) {
      PhaseSurvives(s.db, s.db, s.mono, t.mono, s.phases[pid]);
    }
    assert forall pid :: PhaseOf(t, pid) == PhaseOf(s, pid);
    assert forall f :: PendingStart(t, f) == PendingStart(s, f);
  }

  lemma AttachReadOk(db: Db, call: AttachCall)
    requires AttachRead(db, call).Ok? && AttachRead(db, call).value.Attach?
    ensures AttachOk(db.(store := db.store + {OriginalPdf(call.pdf)}), call, AttachRead(db, call).value.selected) == true
  {
  }

  lemma AttachReadStepKeeps(s: System, pid: string, call: AttachCall)
    requires SystemOk(s) && PhaseOf(s, pid).Idle? && AttachRead(s.db, call).Ok? && AttachRead(s.db, call).value.Attach?
    ensures var t := Step(s, AttachReads(pid, call)); SystemOk(t) && Grows(s.db, t.db)
  {
    hide DbOk;
    hide Grows;
    hide SystemOk;
    StoreOf(s);
    var later := s.db.(store := s.db.store + {OriginalPdf(call.pdf)});
    StoreKeeps(s.db, OriginalPdf(call.pdf));
    StoreGrows(s.db, OriginalPdf(call.pdf));
    OthersUntouched(s, later);
    AttachReadOk(s.db, call);
    MovesPhase(s.(db := later), pid, Attaching(call, AttachRead(s.db, call).value.selected));
  }

  lemma AttachWriteStepKeeps(s: System, pid: string, id: string)
    requires SystemOk(s) && PhaseOf(s, pid).Attaching?
    ensures var t := Step(s, AttachWrites(pid, id)); SystemOk(t) && Grows(s.db, t.db)
  {
    hide DbOk;
    hide Grows;
    hide SystemOk;
    var p := PhaseOf(s, pid);
    PhaseSound(s, pid);
    var later := AttachWrite(s.db, p.call, p.selected, id, s.wall).db;
    AttachWriteKeeps(s.db, p.call, p.selected, id, s.wall);
    AttachWriteGrows(s.db, p.call, p.selected, id, s.wall);
    OthersUntouched(s, later);
    Leaves(s.(db := later), pid);
  }

  lemma PublishStepKeeps(s: System, pid: string, reading: Digest, evidenceMap: Digest, issues: seq<QualityFailure>, peak: int)
    requires SystemOk(s) && PhaseOf(s, pid).Converting? && peak >= 0 && LayoutReview !in issues
    ensures var t := Step(s, Publishes(pid, reading, evidenceMap, issues, peak)); SystemOk(t) && Grows(s.db, t.db)
  {
    hide DbOk;
    hide Grows;
    hide SystemOk;
    StoreOf(s);
    HolderOf(s, pid);
    var p := PhaseOf(s, pid);
    var artifact := Extraction(ManifestFor(s, p, reading, evidenceMap, peak), issues);
    var later := s.db.(store := s.db.store + {artifact});
    StoreKeeps(s.db, artifact);
    StoreGrows(s.db, artifact);
    OthersUntouched(s, later);
    PhaseSurvives(s.db, later, s.mono, s.mono, p);
    MovesPhase(s.(db := later), pid, Produced(p.job, p.attempt, p.start, artifact));
  }

  lemma PrepareOk(db: Db, mono: int, paper: string, snapshot: string, audit: Option<Audit>)
    requires PrepareJob(db, paper, snapshot, audit).Ok?
    ensures PhaseOk(db, mono, Prepared(PrepareJob(db, paper, snapshot, audit).value))
  {
  }

  lemma RegisterStepKeeps(s: System, purpose: RootPurpose, id: string)
    requires SystemOk(s)
    ensures var t := Step(s, RootRegistered(purpose, id)); SystemOk(t) && Grows(s.db, t.db)
  {
    hide DbOk;
    hide Grows;
    hide SystemOk;
    StoreOf(s);
    RegisterRootKeeps(s.db, purpose, id, s.wall);
    RegisterRootGrows(s.db, purpose, id, s.wall);
    OthersUntouched(s, RegisterRoot(s.db, purpose, id, s.wall).db);
  }

  lemma DecideStepKeeps(s: System, call: DecideCall, id: string)
    requires SystemOk(s)
    ensures var t := Step(s, Decides(call, id)); SystemOk(t) && Grows(s.db, t.db)
  {
    hide DbOk;
    hide Grows;
    hide SystemOk;
    StoreOf(s);
    DecideKeeps(s.db, call, id, s.wall);
    DecideGrows(s.db, call, id, s.wall);
    DecideFrame(s.db, call, id, s.wall);
    OthersUntouched(s, Decide(s.db, call, id, s.wall).db);
  }

  lemma DecideFrame(db: Db, call: DecideCall, id: string, now: int)
    ensures Decide(db, call, id, now).db == db.(decisions := Decide(db, call, id, now).db.decisions)
  {
  }

  lemma FreezeStepKeeps(s: System, call: FreezeCall, id: string)
    requires SystemOk(s)
    ensures var t := Step(s, Freezes(call, id)); SystemOk(t) && Grows(s.db, t.db)
  {
    hide DbOk;
    hide Grows;
    hide SystemOk;
    StoreOf(s);
    FreezeKeeps(s.db, call, id, s.wall);
    FreezeGrows(s.db, call, id, s.wall);
    OthersUntouched(s, FreezeSample(s.db, call, id, s.wall).db);
  }

  lemma ReviewStepKeeps(s: System, call: ReviewCall, id: string)
    requires SystemOk(s)
    ensures var t := Step(s, Reviews(call, id)); SystemOk(t) && Grows(s.db, t.db)
  {
    hide DbOk;
    hide Grows;
    hide SystemOk;
    StoreOf(s);
    ReviewKeeps(s.db, call, id, s.wall);
    OthersUntouched(s, ReviewLayout(s.db, call, id, s.wall).db);
  }

  lemma EnvironmentStepKeeps(s: System, e: Event)
    requires SystemOk(s)
    requires e.PaperChanges? || e.ScreeningSucceeds? || e.SnapshotAdded?
    ensures SystemOk(Step(s, e)) && Grows(s.db, Step(s, e).db)
  {
    hide DbOk;
    hide Grows;
    hide SystemOk;
    StoreOf(s);
    NothingChanges(s.db);
    if Step(s, e) != s {
      match e
      case PaperChanges(paper, to) =>
        PaperChangeKeeps(s.db, paper, to);
        PaperChangeGrows(s.db, paper, to);
        OthersUntouched(s, s.db.(papers := s.db.papers[paper := to]));
      case ScreeningSucceeds(success, screening) =>
        ScreeningKeeps(s.db, success, screening);
        ScreeningGrows(s.db, success, screening);
        OthersUntouched(s, s.db.(screenings := s.db.screenings[success := screening]));
      case SnapshotAdded(snapshot, semantics) =>
        SnapshotKeeps(s.db, snapshot, semantics);
        SnapshotGrows(s.db, snapshot, semantics);
        OthersUntouched(s, s.db.(snapshots := s.db.snapshots[snapshot := semantics]));
    }
  }

  /** Every event keeps the system invariant, and the store only grows. */
  lemma StepKeeps(s: System, e: Event)
    requires SystemOk(s)
    ensures SystemOk(Step(s, e)) && Grows(s.db, Step(s, e).db)
  {
    hide RegisterRoot;
    hide AttachRead;
    hide AttachWrite;
    hide Decide;
    hide FreezeSample;
    hide PrepareJob;
    hide ReviewLayout;
    hide ClaimStep;
    hide SettleStep;
    hide PhaseOk;
    hide PaperOk;
    hide DbOk;
    hide Grows;
    hide SystemOk;
    NothingChanges(s.db);
    match e
    case ClocksAdvance(wall, mono) => ClockStepKeeps(s, wall, mono);
    case PaperChanges(_, _) => EnvironmentStepKeeps(s, e);
    case ScreeningSucceeds(_, _) => EnvironmentStepKeeps(s, e);
    case SnapshotAdded(_, _) => EnvironmentStepKeeps(s, e);
    case RootRegistered(purpose, id) => RegisterStepKeeps(s, purpose, id);
    case Decides(call, id) => DecideStepKeeps(s, call, id);
    case Freezes(call, id) => FreezeStepKeeps(s, call, id);
    case Reviews(call, id) => ReviewStepKeeps(s, call, id);
    case AttachReads(pid, call) =>
      if PhaseOf(s, pid).Idle? && AttachRead(s.db, call).Ok? && AttachRead(s.db, call).value.Attach? {
        AttachReadStepKeeps(s, pid, call);
      }
    case AttachWrites(pid, id) => if PhaseOf(s, pid).Attaching? { AttachWriteStepKeeps(s, pid, id); }
    case Prepares(pid, paper, snapshot, audit) =>
      if PhaseOf(s, pid).Idle? && PrepareJob(s.db, paper, snapshot, audit).Ok? {
        PrepareOk(s.db, s.mono, paper, snapshot, audit);
        MovesPhase(s, pid, Prepared(PrepareJob(s.db, paper, snapshot, audit).value));
      }
    case Locks(pid) => if PhaseOf(s, pid).Prepared? && s.lock.None? { LockStepKeeps(s, pid); }
    case Claims(pid, id) => if PhaseOf(s, pid).Holding? { ClaimStepKeeps(s, pid, PhaseOf(s, pid).job, id); }
    case StartsConverting(pid) => if PhaseOf(s, pid).Claiming? { StartStepKeeps(s, pid); }
    case ConversionRaises(pid, raised) =>
      if PhaseOf(s, pid).Converting? {
        RefusedWork(s, pid, raised);
        MovesPhase(s, pid, Refused(PhaseOf(s, pid).job, PhaseOf(s, pid).attempt, PhaseOf(s, pid).start, raised));
      }
    case Publishes(pid, reading, evidenceMap, issues, peak) =>
      if PhaseOf(s, pid).Converting? {
        if peak < 0 {
          RefusedWork(s, pid, OtherRaised);
          MovesPhase(s, pid, Refused(PhaseOf(s, pid).job, PhaseOf(s, pid).attempt, PhaseOf(s, pid).start, OtherRaised));
        } else if LayoutReview !in issues {
          PublishStepKeeps(s, pid, reading, evidenceMap, issues, peak);
        }
      }
    case Settles(pid) => SettleStepKeeps(s, pid);
    case Unlocks(pid) => Leaves(s, pid);
    case Crashes(pid) => Leaves(s, pid);
  }
}

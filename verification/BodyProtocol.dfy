/**
 * The concurrent protocol: processes that run the Body services against one database and one data root.
 * Every transaction is one event; a process may crash between any two of them, the environment may add
 * papers, screening successes and configuration snapshots, and the clocks only move forward.
 */
module BodyProtocol {
  import opened Prelude
  import opened Ledger
  import opened BodyModel
  import opened BodyQueries
  import opened BodyTransactions
  import opened BodyInvariant
  import opened BodyPreservation
  import opened ExtractionPreservation
  import opened BodyValidation

  /** How a conversion can end without a published artifact. */
  datatype Raised =
    | FulltextRaised(peak: int)                   // the document was refused
    | ParserRaised(failure: Failure, peak: int)   // the parser reported a failure of its own choice
    | OtherRaised                                 // any other exception

  /** Where a process stands inside `attach_pdf` or `extract`. */
  datatype Phase =
    | Idle
    | Attaching(call: AttachCall, selected: string)                               // read done, artifact published
    | Prepared(job: Job)                                                          // waiting for the root lock
    | Holding(job: Job)                                                           // lock taken, nothing claimed
    | Claiming(job: Job, attempt: Attempt, start: int)                            // claim committed, not converting yet
    | Converting(job: Job, attempt: Attempt, start: int)
    | Refused(job: Job, attempt: Attempt, start: int, raised: Raised)
    | Produced(job: Job, attempt: Attempt, start: int, artifact: Artifact)        // artifact published, not settled
    | Finished(job: Job)                                                          // settled or decided, lock still held
  {
    predicate HoldsLock() { Holding? || Working() || Finished? }
    predicate Working() { Claiming? || Converting? || Refused? || Produced? }
  }

  /** `starts` is history: the fingerprint of every conversion that was started. */
  datatype System = System(db: Db, wall: int, mono: int, lock: Option<string>, phases: map<string, Phase>,
                           starts: seq<Fingerprint>)

  const INITIAL := System(EMPTY_DB, 0, 0, None, map[], [])

  datatype Event =
    | ClocksAdvance(wall: nat, mono: nat)
    | PaperChanges(paper: string, to: Paper)
    | ScreeningSucceeds(success: string, screening: Screening)
    | SnapshotAdded(snapshot: string, semantics: Semantics)
    | RootRegistered(purpose: RootPurpose, id: string)
    | AttachReads(pid: string, attach: AttachCall)
    | AttachWrites(pid: string, id: string)
    | Decides(decide: DecideCall, id: string)
    | Freezes(freeze: FreezeCall, id: string)
    | Prepares(pid: string, paper: string, snapshot: string, audit: Option<Audit>)
    | Locks(pid: string)
    | Claims(pid: string, id: string)
    | StartsConverting(pid: string)
    | ConversionRaises(pid: string, raised: Raised)
    | Publishes(pid: string, reading: Digest, evidenceMap: Digest, issues: seq<QualityFailure>, peak: int)
    | Settles(pid: string)
    | Unlocks(pid: string)
    | Reviews(review: ReviewCall, id: string)
    | Crashes(pid: string)

  function PhaseOf(s: System, pid: string): Phase {
    if pid in s.phases then s.phases[pid] else Idle
  }

  function Enter(s: System, pid: string, phase: Phase): System {
    s.(phases := s.phases[pid := phase])
  }

  /** Leaving `extract` by a return, an exception or a crash: the kernel drops the lock. */
  function Leave(s: System, pid: string): System {
    s.(phases := s.phases[pid := Idle], lock := if s.lock == Some(pid) then None else s.lock)
  }

  function ManifestFor(s: System, p: Phase, reading: Digest, evidenceMap: Digest, peak: int): Manifest
    requires p.Converting?
  {
    Manifest(Identity(p.job.Key(), reading, evidenceMap), p.job.semantics.configHash, p.job.semantics.modelsHash,
             Max0(s.mono - p.start), peak, p.job.audit)
  }

  /** The failure each `except` clause records, and the peak memory it knows of. */
  function FailureRecorded(raised: Raised): Failure {
    match raised
    case FulltextRaised(_) => QualityGate
    case ParserRaised(failure, _) => failure
    case OtherRaised => ExecutorError
  }

  function PeakRecorded(raised: Raised): int {
    if raised.OtherRaised? then 0 else raised.peak
  }

  function SettleRaised(s: System, p: Phase): Tx<()>
    requires p.Refused?
  {
    SettleFailure(s.db, p.attempt.id, FailureRecorded(p.raised), Max0(s.mono - p.start), PeakRecorded(p.raised), s.wall)
  }

  function ClaimStep(s: System, pid: string, job: Job, id: string): System {
    var t := Claim(s.db, job, id, s.wall);
    var next := s.(db := t.db);
    match t.reply
    case Err(_) => Leave(next, pid)
    case Ok(Decided(_)) => Enter(next, pid, Finished(job))
    case Ok(ClaimedAttempt(a)) => Enter(next, pid, Claiming(job, a, s.mono))
  }

  function SettleStep(s: System, pid: string): System {
    match PhaseOf(s, pid)
    case Refused(job, a, start, raised) =>
      var t := SettleRaised(s, PhaseOf(s, pid));
      if t.reply.Ok? then Enter(s.(db := t.db), pid, Finished(job)) else Leave(s.(db := t.db), pid)
    case Produced(job, a, start, artifact) =>
      if !artifact.Extraction? then s else
        var t := SettlePublished(s.db, job.Key(), a.id, artifact, Max0(s.mono - start), s.wall);
        if t.reply.Ok? then Enter(s.(db := t.db), pid, Finished(job)) else Leave(s.(db := t.db), pid)
    case _ => s
  }

  /** One event; an event that is not possible in this state changes nothing. */
  function Step(s: System, e: Event): System {
    match e
    case ClocksAdvance(wall, mono) => s.(wall := s.wall + wall, mono := s.mono + mono)
    case PaperChanges(paper, to) =>
      if !PaperOk(to) || (paper in s.db.papers && !(s.db.papers[paper].versions <= to.versions
                                                   && s.db.papers[paper].discoveries <= to.discoveries))
      then s else s.(db := s.db.(papers := s.db.papers[paper := to]))
    case ScreeningSucceeds(success, screening) =>
      if success in s.db.screenings then s else s.(db := s.db.(screenings := s.db.screenings[success := screening]))
    case SnapshotAdded(snapshot, semantics) =>
      if snapshot in s.db.snapshots then s else s.(db := s.db.(snapshots := s.db.snapshots[snapshot := semantics]))
    case RootRegistered(purpose, id) => s.(db := RegisterRoot(s.db, purpose, id, s.wall).db)
    case AttachReads(pid, call) =>
      if !PhaseOf(s, pid).Idle? then s else
        var plan := AttachRead(s.db, call);
        if plan.Err? || plan.value.Already? then s
        else Enter(s.(db := s.db.(store := s.db.store + {OriginalPdf(call.pdf)})), pid, Attaching(call, plan.value.selected))
    case AttachWrites(pid, id) =>
      var p := PhaseOf(s, pid);
      if !p.Attaching? then s else Leave(s.(db := AttachWrite(s.db, p.call, p.selected, id, s.wall).db), pid)
    case Decides(call, id) => s.(db := Decide(s.db, call, id, s.wall).db)
    case Freezes(call, id) => s.(db := FreezeSample(s.db, call, id, s.wall).db)
    case Prepares(pid, paper, snapshot, audit) =>
      if !PhaseOf(s, pid).Idle? then s else
        var job := PrepareJob(s.db, paper, snapshot, audit);
        if job.Err? then s else Enter(s, pid, Prepared(job.value))
    case Locks(pid) =>
      var p := PhaseOf(s, pid);
      if !p.Prepared? || s.lock.Some? then s else Enter(s.(lock := Some(pid)), pid, Holding(p.job))
    case Claims(pid, id) =>
      var p := PhaseOf(s, pid);
      if !p.Holding? then s else ClaimStep(s, pid, p.job, id)
    case StartsConverting(pid) =>
      var p := PhaseOf(s, pid);
      if !p.Claiming? then s
      else Enter(s.(starts := s.starts + [p.job.Key()]), pid, Converting(p.job, p.attempt, p.start))
    case ConversionRaises(pid, raised) =>
      var p := PhaseOf(s, pid);
      if !p.Converting? then s else Enter(s, pid, Refused(p.job, p.attempt, p.start, raised))
    case Publishes(pid, reading, evidenceMap, issues, peak) =>
      var p := PhaseOf(s, pid);
      if !p.Converting? then s
      else if peak < 0 then Enter(s, pid, Refused(p.job, p.attempt, p.start, OtherRaised)) // the manifest refuses it
      else if LayoutReview in issues then s // the automatic checks never report it
      else
        var artifact := Extraction(ManifestFor(s, p, reading, evidenceMap, peak), issues);
        Enter(s.(db := s.db.(store := s.db.store + {artifact})), pid, Produced(p.job, p.attempt, p.start, artifact))
    case Settles(pid) => SettleStep(s, pid)
    case Unlocks(pid) => if PhaseOf(s, pid).Finished? then Leave(s, pid) else s
    case Reviews(call, id) => s.(db := ReviewLayout(s.db, call, id, s.wall).db)
    case Crashes(pid) => Leave(s, pid)
  }

  /** The state after a run of events. */
  function Run(s: System, events: seq<Event>): System {
    if events == [] then s else Step(Run(s, events[..|events| - 1]), events[|events| - 1])
  }
}

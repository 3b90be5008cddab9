/** Who writes which outcome: the settlement of departed claimers, and when an unknown outcome is recorded. */
module BodySettlement {
  import opened Prelude
  import opened Ledger
  import opened BodyModel
  import opened BodyQueries
  import opened BodyTransactions
  import opened BodyInvariant
  import opened BodyPreservation
  import opened ExtractionPreservation
  import opened BodyProtocol
  import opened BodySafety
  import opened BodyTheorems
  import BodyAnswers

  /** The event records the outcome of this attempt. */
  ghost predicate Writes(s: System, e: Event, id: string) {
    id !in s.db.outcomes && id in Step(s, e).db.outcomes
  }

  lemma OnlyTwoEventsSettle(s: System, e: Event)
    ensures Step(s, e).db.outcomes == s.db.outcomes || e.Claims? || e.Settles?
  {
    hide ClaimStep;
    hide ManifestFor;
    hide PaperOk;
    hide RootFact;
    hide NextSequence;
    hide ReferencesOk;
    hide Claim;
    hide AttachRead;
    hide SettleStep;
    hide DecisionEvents;
    hide ExtractionView;
    hide CurrentPdf;
    hide PrepareJob;
    hide FindReview;
    hide Admits;
    hide Replay;
  }

  /** The attempts table grows by claims only, and the claimed attempt belongs to the process that claimed it. */
  lemma AttemptsComeFromClaims(s: System, e: Event)
    requires Reachable(s) && Step(s, e).db.attempts != s.db.attempts
    ensures e.Claims? && PhaseOf(s, e.pid).Holding? && PhaseOf(Step(s, e), e.pid).Claiming?
    ensures Step(s, e).db.attempts == s.db.attempts + [PhaseOf(Step(s, e), e.pid).attempt]
  {
    hide DbOk;
    hide SystemOk;
    hide Claim;
    hide Grows;
    ReachableIsOk(s);
    OnlyClaimsAppend(s, e);
    PhaseSound(s, e.pid);
    ClaimKeeps(s.db, PhaseOf(s, e.pid).job, e.id, s.wall);
    DepartedAttempts(s.db, PhaseOf(s, e.pid).job.Key(), s.wall);
  }

  lemma DepartedAttempts(db: Db, f: Fingerprint, now: int)
    ensures AfterDeparted(db, f, now).attempts == db.attempts
  {
  }

  lemma OnlyClaimsAppend(s: System, e: Event)
    ensures Step(s, e).db.attempts == s.db.attempts || (e.Claims? && PhaseOf(s, e.pid).Holding?)
  {
    hide Claim;
    hide AttachRead;
    hide DecisionEvents;
    hide ExtractionView;
    hide SettleStep;
    hide CurrentPdf;
    hide PrepareJob;
    hide FindReview;
    hide Admits;
    hide Replay;
    if e.Settles? { SettlesAppendNothing(s, e.pid); }
  }

  lemma SettlesAppendNothing(s: System, pid: string)
    ensures SettleStep(s, pid).db.attempts == s.db.attempts
  {
  }

  /** Nobody who could still settle this attempt is left: its claimer gave up the root lock without settling. */
  ghost predicate Departed(s: System, id: string) {
    forall q :: PhaseOf(s, q).Working() ==> PhaseOf(s, q).attempt.id != id
  }

  lemma HoldingMeansNobodyWorks(s: System, pid: string)
    requires SystemOk(s) && PhaseOf(s, pid).Holding?
    ensures forall q :: !PhaseOf(s, q).Working()
  {
    forall q ensures !PhaseOf(s, q).Working() {
      assert PhaseOf(s, q).HoldsLock() <==> s.lock == Some(q);
      assert PhaseOf(s, pid).HoldsLock() <==> s.lock == Some(pid);
    }
  }

  lemma ClaimWrites(s: System, pid: string, claim: string, id: string)
    requires SystemOk(s) && Writes(s, Claims(pid, claim), id)
    ensures Departed(s, id) && Step(s, Claims(pid, claim)).db.outcomes[id] == UnknownOutcome(s.wall)
  {
    hide DbOk;
    hide SystemOk;
    hide Claim;
    hide Grows;
    PhaseSound(s, pid);
    HoldingMeansNobodyWorks(s, pid);
    ClaimKeeps(s.db, PhaseOf(s, pid).job, claim, s.wall);
  }

  /** The conversion ended because the parser itself reported an unknown outcome. */
  predicate ParserReportsUnknown(p: Phase) {
    p.Refused? && p.raised.ParserRaised? && p.raised.failure.OutcomeUnknown?
  }

  lemma SettleWrites(s: System, pid: string, id: string)
    requires SystemOk(s) && Writes(s, Settles(pid), id)
    ensures PhaseOf(s, pid).Working() && PhaseOf(s, pid).attempt.id == id
    ensures Step(s, Settles(pid)).db.outcomes[id].failure == Some(OutcomeUnknown) <==> ParserReportsUnknown(PhaseOf(s, pid))
  {
    hide DbOk;
    hide SystemOk;
    hide Grows;
    SettleSucceeds(s, pid);
    SettleRecords(s, pid);
  }

  lemma SettleRecords(s: System, pid: string)
    requires PhaseOf(s, pid).Refused? || PhaseOf(s, pid).Produced?
    ensures var p := PhaseOf(s, pid);
            p.attempt.id !in s.db.outcomes && p.attempt.id in SettleStep(s, pid).db.outcomes ==>
              (SettleStep(s, pid).db.outcomes[p.attempt.id].failure == Some(OutcomeUnknown) <==> ParserReportsUnknown(p))
  {
  }

  /**
   * When an unknown outcome is recorded: exactly when a claim finds an attempt whose claimer left the lock
   * without settling, or when the parser reported the unknown outcome itself to a claimer that still holds it.
   */
  lemma UnknownOutcomes(s: System, e: Event, id: string)
    requires Reachable(s) && Writes(s, e, id)
    ensures e.Claims? || e.Settles?
    ensures Step(s, e).db.outcomes[id].failure == Some(OutcomeUnknown) <==> e.Claims? || ParserReportsUnknown(PhaseOf(s, e.pid))
    ensures e.Claims? ==> Departed(s, id)
    ensures e.Settles? ==> PhaseOf(s, e.pid).Working() && PhaseOf(s, e.pid).attempt.id == id
  {
    hide DbOk;
    hide SystemOk;
    hide Claim;
    ReachableIsOk(s);
    OnlyTwoEventsSettle(s, e);
    if e.Claims? { ClaimWrites(s, e.pid, e.id, id); } else { SettleWrites(s, e.pid, id); }
  }

  /** A claim that gets as far as the tables settles the departed claimer of its own input, and nobody else's. */
  lemma ClaimSettlesTheDeparted(s: System, pid: string, id: string)
    requires Reachable(s) && PhaseOf(s, pid).Holding?
    ensures var job, t := PhaseOf(s, pid).job, Step(s, Claims(pid, id));
            t.db == s.db || t.db.outcomes == AfterDeparted(s.db, job.Key(), s.wall).outcomes
  {
    hide DbOk;
    hide SystemOk;
    hide Claim;
    hide Grows;
    ReachableIsOk(s);
    PhaseSound(s, pid);
    ClaimKeeps(s.db, PhaseOf(s, pid).job, id, s.wall);
  }

  // ----- what is recorded -----------------------------------------------------------------------

  lemma RaisedRecords(s: System, pid: string)
    requires SystemOk(s) && PhaseOf(s, pid).Refused?
    ensures var p, t := PhaseOf(s, pid), Step(s, Settles(pid));
            var failure := match p.raised
                           case FulltextRaised(_) => QualityGate
                           case ParserRaised(given, _) => given
                           case OtherRaised => ExecutorError;
            var peak := if p.raised.OtherRaised? || p.raised.peak < 0 then 0 else p.raised.peak;
            && p.attempt.id !in s.db.outcomes && p.start <= s.mono
            && t.db == s.db.(outcomes := s.db.outcomes[p.attempt.id := Outcome(Some(failure), None, None, s.mono - p.start, peak, s.wall)])
  {
    hide SystemOk;
    hide DbOk;
    hide Step;
    PhaseSound(s, pid);
    var p := PhaseOf(s, pid);
    BodyAnswers.FailureAnswers(s.db, p.attempt.id, FailureRecorded(p.raised), Max0(s.mono - p.start), PeakRecorded(p.raised), s.wall);
    SettleStepRefused(s, pid);
  }

  lemma SettleStepRefused(s: System, pid: string)
    requires PhaseOf(s, pid).Refused?
    ensures Step(s, Settles(pid)).db == SettleRaised(s, PhaseOf(s, pid)).db
  {
    hide SettleRaised;
  }

  lemma RecordedIsAccepted(db: Db, later: Db, fp: Fingerprint, attempt: string, artifact: Artifact, elapsed: int, now: int,
                           reply: Reply<()>)
    requires artifact.Extraction? && attempt !in db.outcomes
    requires BodyAnswers.PublicationRecorded(db, later, fp, attempt, artifact, elapsed, now, reply)
    ensures reply == Ok(())
  {
    hide DbOk;
    hide Grows;
    assert reply.value == ();
  }

  lemma PublicationRecords(s: System, pid: string)
    requires SystemOk(s) && PhaseOf(s, pid).Produced?
    ensures var p, t := PhaseOf(s, pid), Step(s, Settles(pid));
            && p.attempt.id !in s.db.outcomes && p.start <= s.mono && p.artifact.Extraction?
            && BodyAnswers.PublicationRecorded(s.db, t.db, p.job.Key(), p.attempt.id, p.artifact, s.mono - p.start, s.wall, Ok(()))
  {
    hide SystemOk;
    hide DbOk;
    hide BodyAnswers.PublicationRecorded;
    hide SettlePublished;
    hide Step;
    PhaseSound(s, pid);
    var p := PhaseOf(s, pid);
    BodyAnswers.PublicationAnswers(s.db, p.attempt, p.artifact, s.mono - p.start, s.wall);
    var t := SettlePublished(s.db, p.job.Key(), p.attempt.id, p.artifact, s.mono - p.start, s.wall);
    RecordedIsAccepted(s.db, t.db, p.job.Key(), p.attempt.id, p.artifact, s.mono - p.start, s.wall, t.reply);
    SettleStepProduced(s, pid);
  }

  lemma SettleStepProduced(s: System, pid: string)
    requires var p := PhaseOf(s, pid); p.Produced? && p.artifact.Extraction? && p.start <= s.mono
    ensures var p := PhaseOf(s, pid);
            Step(s, Settles(pid)).db == SettlePublished(s.db, p.job.Key(), p.attempt.id, p.artifact, s.mono - p.start, s.wall).db
  {
    hide SettlePublished;
  }

  /**
   * Settling records one outcome, for the process's own attempt: a refused document as a quality gate, a parser's
   * failure as it is, anything else as an executor error, and a published artifact with its first flaw.
   */
  lemma SettlementRecords(s: System, pid: string)
    requires Reachable(s) && (PhaseOf(s, pid).Refused? || PhaseOf(s, pid).Produced?)
    ensures var p, t := PhaseOf(s, pid), Step(s, Settles(pid));
            && p.attempt.id !in s.db.outcomes && p.start <= s.mono
            && (p.Produced? ==> p.artifact.Extraction? && BodyAnswers.PublicationRecorded(
                  s.db, t.db, p.job.Key(), p.attempt.id, p.artifact, s.mono - p.start, s.wall, Ok(())))
            && (p.Refused? ==>
                  var failure := match p.raised
                                 case FulltextRaised(_) => QualityGate
                                 case ParserRaised(given, _) => given
                                 case OtherRaised => ExecutorError;
                  var peak := if p.raised.OtherRaised? || p.raised.peak < 0 then 0 else p.raised.peak;
                  t.db == s.db.(outcomes := s.db.outcomes[p.attempt.id :=
                            Outcome(Some(failure), None, None, s.mono - p.start, peak, s.wall)]))
  {
    hide *;
    ReachableIsOk(s);
    if PhaseOf(s, pid).Refused? { RaisedRecords(s, pid); } else { PublicationRecords(s, pid); }
  }

  // ----- the parser may report it too -----------------------------------------------------------

  const PDF: Bytes := PDF_SIGNATURE + seq(1019, (_: int) => 0 as Byte)
  const SEMANTICS := Semantics("docling", "config", "models")
  const PAPER := Paper({"v1"}, "v1", 1, {})
  const ATTACH := AttachCall("paper", PDF, "request", None)
  const PDF_ROW := Entry("pdf", "request", PdfRequest("paper", None, Sha256(PDF)), "paper", "v1", 1, 0,
                         PdfBody(OriginalPdf(PDF), Sha256(PDF), None))
  const JOB := Job("paper", "snapshot", SEMANTICS, PDF_ROW, None)
  const ATTEMPT := Attempt("attempt", Fingerprint(Sha256(PDF), SEMANTICS), "docling", 1, 0, None)

  const ATTACHED := EMPTY_DB.(papers := map["paper" := PAPER], snapshots := map["snapshot" := SEMANTICS],
                              store := {OriginalPdf(PDF)}, pdfs := [PDF_ROW])
  const CLAIMED := ATTACHED.(attempts := [ATTEMPT],
                             inputs := map[Fingerprint(Sha256(PDF), SEMANTICS) := InputRow("docling", Sha256(PDF), "snapshot")])

  lemma {:induction false} RunInTwo(s: System, before: seq<Event>, events: seq<Event>)
    ensures Run(s, before + events) == Run(Run(s, before), events)
  {
    hide Step;
    if events == [] {
      assert before + events == before;
    } else {
      assert (before + events)[..|before + events| - 1] == before + events[..|events| - 1];
      RunInTwo(s, before, events[..|events| - 1]);
    }
  }

  lemma RunTwo(s: System, d: Event, e: Event)
    ensures Run(s, [d, e]) == Step(Step(s, d), e)
  {
    hide Step;
    assert [d, e][..1] == [d] && [d][..0] == [];
    assert Run(s, [d]) == Step(Run(s, []), d);
  }

  lemma RequiredWords()
    ensures Required("paper") && Required("request")
  {
    assert "paper"[0] == 'p' && "request"[0] == 'r';
  }

  lemma PdfIsShaped()
    ensures PdfShaped(PDF)
  {
  }

  const READY := EMPTY_DB.(papers := map["paper" := PAPER], snapshots := map["snapshot" := SEMANTICS])

  lemma AttachmentReads()
    ensures AttachRead(READY, ATTACH) == Ok(Attach("v1"))
  {
    RequiredWords();
    PdfIsShaped();
  }

  lemma AttachmentWrites()
    ensures AttachWrite(READY.(store := {OriginalPdf(PDF)}), ATTACH, "v1", "pdf", 0).db == ATTACHED
  {
  }

  lemma PreparesTheJob()
    ensures PrepareJob(ATTACHED, "paper", "snapshot", None) == Ok(JOB)
    ensures CurrentPdf(ATTACHED, "paper", "v1") == Some(PDF_ROW)
  {
  }

  lemma ClaimsTheAttempt()
    ensures Claim(ATTACHED, JOB, "attempt", 0) == Tx(CLAIMED, Ok(ClaimedAttempt(ATTEMPT)))
  {
  }

  /** One paper, one PDF and one process, whose parser gives up with an unknown outcome. */
  const SETUP: seq<Event> := [PaperChanges("paper", PAPER), SnapshotAdded("snapshot", SEMANTICS)]
  const UPLOAD: seq<Event> := [AttachReads("p", ATTACH), AttachWrites("p", "pdf")]
  const WAIT: seq<Event> := [Prepares("p", "paper", "snapshot", None), Locks("p")]
  const CONVERT: seq<Event> := [Claims("p", "attempt"), StartsConverting("p")]
  const GIVE_UP: seq<Event> := [ConversionRaises("p", ParserRaised(OutcomeUnknown, 0)), Settles("p")]

  const UPLOADED := INITIAL.(db := ATTACHED, phases := map["p" := Idle])
  const HELD := System(ATTACHED, 0, 0, Some("p"), map["p" := Holding(JOB)], [])
  const BUSY := System(CLAIMED, 0, 0, Some("p"), map["p" := Converting(JOB, ATTEMPT, 0)], [JOB.Key()])
  const GAVE_UP := BUSY.(db := CLAIMED.(outcomes := map["attempt" := UnknownOutcome(0)]), phases := map["p" := Finished(JOB)])

  lemma SetsUp()
    ensures Run(INITIAL, SETUP) == INITIAL.(db := READY)
  {
    RunTwo(INITIAL, SETUP[0], SETUP[1]);
    assert Step(INITIAL, SETUP[0]) == INITIAL.(db := EMPTY_DB.(papers := map["paper" := PAPER]));
  }

  lemma Uploads()
    ensures Run(INITIAL.(db := READY), UPLOAD) == UPLOADED
  {
    hide AttachRead;
    hide AttachWrite;
    AttachmentReads();
    AttachmentWrites();
    var s := INITIAL.(db := READY);
    RunTwo(s, UPLOAD[0], UPLOAD[1]);
    assert READY.store + {OriginalPdf(PDF)} == {OriginalPdf(PDF)};
    assert Step(s, UPLOAD[0]) == s.(db := READY.(store := {OriginalPdf(PDF)}), phases := map["p" := Attaching(ATTACH, "v1")]);
  }

  lemma Waits()
    ensures Run(UPLOADED, WAIT) == HELD
  {
    hide PrepareJob;
    PreparesTheJob();
    RunTwo(UPLOADED, WAIT[0], WAIT[1]);
    assert Step(UPLOADED, WAIT[0]) == UPLOADED.(phases := map["p" := Prepared(JOB)]);
  }

  lemma StartsIt()
    ensures Run(HELD, CONVERT) == BUSY
  {
    hide Claim;
    ClaimsTheAttempt();
    RunTwo(HELD, CONVERT[0], CONVERT[1]);
    assert Step(HELD, CONVERT[0]) == HELD.(db := CLAIMED, phases := map["p" := Claiming(JOB, ATTEMPT, 0)]);
    assert [] + [JOB.Key()] == [JOB.Key()];
  }

  lemma GivesUp()
    ensures Run(BUSY, GIVE_UP) == GAVE_UP
  {
    RunTwo(BUSY, GIVE_UP[0], GIVE_UP[1]);
    assert CLAIMED.attempts[0] == ATTEMPT;
    assert Step(BUSY, GIVE_UP[0]) == BUSY.(phases := map["p" := Refused(JOB, ATTEMPT, 0, ParserRaised(OutcomeUnknown, 0))]);
  }

  /**
   * An unknown outcome does not imply a departed claimer: in this run the only process holds the lock from before
   * its claim until after the outcome is recorded.
   */
  lemma UnknownOutcomeOfALiveClaimer()
    ensures Run(INITIAL, SETUP + UPLOAD + WAIT) == HELD && HELD.lock == Some("p")
    ensures Run(INITIAL, SETUP + UPLOAD + WAIT + CONVERT) == BUSY && BUSY.lock == Some("p")
    ensures Run(INITIAL, SETUP + UPLOAD + WAIT + CONVERT + GIVE_UP) == GAVE_UP && GAVE_UP.lock == Some("p")
    ensures GAVE_UP.db.outcomes["attempt"].failure == Some(OutcomeUnknown)
  {
    hide Run;
    RunInTwo(INITIAL, SETUP, UPLOAD);
    RunInTwo(INITIAL, SETUP + UPLOAD, WAIT);
    RunInTwo(INITIAL, SETUP + UPLOAD + WAIT, CONVERT);
    RunInTwo(INITIAL, SETUP + UPLOAD + WAIT + CONVERT, GIVE_UP);
    SetsUp();
    Uploads();
    Waits();
    StartsIt();
    GivesUp();
  }
}

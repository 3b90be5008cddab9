/** The one request that leaves a store which the closure checker refuses: an attachment under an empty version name. */
module BodyVersions {
  import opened Prelude
  import opened Ledger
  import opened BodyModel
  import opened BodyQueries
  import opened BodyTransactions
  import opened BodyInvariant
  import opened BodyValidation
  import opened BodyProtocol
  import opened BodySafety
  import opened BodyTheorems
  import opened BodySettlement

  ghost predicate NamesNothing(e: Event) {
    e.AttachReads? && e.attach.version == Some("")
  }

  /** Neither a stored PDF nor an attachment in progress was asked for under an empty name. */
  ghost predicate Named(s: System) {
    && NamedRows(s.db.pdfs)
    && forall pid :: pid in s.phases && s.phases[pid].Attaching? ==> s.phases[pid].call.version != Some("")
  }

  ghost predicate NamedRows(pdfs: seq<PdfRow>) {
    forall e :: e in pdfs ==> e.body.requestedVersion != Some("")
  }

  /** Whoever attaches now attached before, and the same. */
  ghost predicate NoNewAttachment(s: System, t: System) {
    forall pid :: pid in t.phases && t.phases[pid].Attaching? ==> pid in s.phases && s.phases[pid] == t.phases[pid]
  }

  // ----- no other event adds a PDF --------------------------------------------------------------

  lemma SettlementKeepsPdfs(db: Db, fp: Fingerprint, id: string, a: Artifact, failure: Failure, elapsed: int, peak: int, now: int)
    ensures SettleFailure(db, id, failure, elapsed, peak, now).db.pdfs == db.pdfs
    ensures a.Extraction? ==> SettlePublished(db, fp, id, a, elapsed, now).db.pdfs == db.pdfs
  {
    hide AdmitsOutcome;
    hide PublishedOutcome;
  }

  lemma SettlingKeepsPdfs(s: System, pid: string)
    ensures SettleStep(s, pid).db.pdfs == s.db.pdfs
    ensures NoNewAttachment(s, SettleStep(s, pid))
  {
    hide SettleFailure;
    hide SettlePublished;
    match PhaseOf(s, pid) {
      case Refused(job, a, start, raised) =>
        SettlementKeepsPdfs(s.db, job.Key(), a.id, OriginalPdf([]), FailureRecorded(raised), Max0(s.mono - start),
                            PeakRecorded(raised), s.wall);
      case Produced(job, a, start, artifact) =>
        SettlementKeepsPdfs(s.db, job.Key(), a.id, artifact, Timeout, Max0(s.mono - start), 0, s.wall);
      case _ =>
    }
  }

  lemma ClaimingKeepsPdfs(db: Db, job: Job, id: string, now: int)
    ensures Claim(db, job, id, now).db.pdfs == db.pdfs
  {
    hide ExtractionView;
    hide SettleDeparted;
    hide AdmitsAttempt;
    hide CurrentPdf;
    hide Spent;
  }

  lemma ClaimKeepsPdfs(s: System, pid: string, job: Job, id: string)
    ensures ClaimStep(s, pid, job, id).db.pdfs == s.db.pdfs
    ensures NoNewAttachment(s, ClaimStep(s, pid, job, id))
  {
    hide Claim;
    ClaimingKeepsPdfs(s.db, job, id, s.wall);
  }

  lemma DecideKeepsPdfs(db: Db, call: DecideCall, id: string, now: int)
    ensures Decide(db, call, id, now).db.pdfs == db.pdfs
  {
    hide DecisionEvents;
    hide NextSequence;
  }

  lemma FreezeKeepsPdfs(db: Db, call: FreezeCall, id: string, now: int)
    ensures FreezeSample(db, call, id, now).db.pdfs == db.pdfs
  {
    hide CurrentPdf;
    hide NextSequence;
  }

  lemma ReviewKeepsPdfs(db: Db, call: ReviewCall, id: string, now: int)
    ensures ReviewLayout(db, call, id, now).db.pdfs == db.pdfs
  {
    hide ExtractionView;
  }

  lemma WritesAreNamed(db: Db, call: AttachCall, selected: string, id: string, now: int)
    requires NamedRows(db.pdfs) && call.version != Some("")
    ensures NamedRows(AttachWrite(db, call, selected, id, now).db.pdfs)
  {
    hide NextSequence;
  }

  lemma RowsStayNamed(s: System, e: Event)
    requires Named(s)
    ensures NamedRows(Step(s, e).db.pdfs)
  {
    hide NamedRows;
    hide AttachRead;
    hide AttachWrite;
    hide Decide;
    hide FreezeSample;
    hide PrepareJob;
    hide ReviewLayout;
    hide ClaimStep;
    hide SettleStep;
    hide ManifestFor;
    hide PaperOk;
    match e {
      case Decides(call, id) => DecideKeepsPdfs(s.db, call, id, s.wall);
      case Freezes(call, id) => FreezeKeepsPdfs(s.db, call, id, s.wall);
      case Reviews(call, id) => ReviewKeepsPdfs(s.db, call, id, s.wall);
      case Settles(pid) => SettlingKeepsPdfs(s, pid);
      case Claims(pid, id) => if PhaseOf(s, pid).Holding? { ClaimKeepsPdfs(s, pid, PhaseOf(s, pid).job, id); }
      case AttachWrites(pid, id) =>
        if PhaseOf(s, pid).Attaching? { WritesAreNamed(s.db, PhaseOf(s, pid).call, PhaseOf(s, pid).selected, id, s.wall); }
      case _ =>
    }
  }

  lemma AttachmentsStayNamed(s: System, e: Event)
    requires !NamesNothing(e)
    ensures e.AttachReads? && Step(s, e) != s ==> exists selected ::
              NoNewAttachment(s.(phases := s.phases[e.pid := Attaching(e.attach, selected)]), Step(s, e))
    ensures !e.AttachReads? ==> NoNewAttachment(s, Step(s, e))
  {
    hide AttachRead;
    hide AttachWrite;
    hide Decide;
    hide FreezeSample;
    hide PrepareJob;
    hide ReviewLayout;
    hide RegisterRoot;
    hide ClaimStep;
    hide SettleStep;
    hide ManifestFor;
    hide PaperOk;
    if e.Settles? {
      SettlingKeepsPdfs(s, e.pid);
    } else if e.Claims? && PhaseOf(s, e.pid).Holding? {
      ClaimKeepsPdfs(s, e.pid, PhaseOf(s, e.pid).job, e.id);
    }
  }

  lemma StepStaysNamed(s: System, e: Event)
    requires Named(s) && !NamesNothing(e)
    ensures Named(Step(s, e))
  {
    RowsStayNamed(s, e);
    hide Step;
    hide NamedRows;
    hide AttachRead;
    AttachmentsStayNamed(s, e);
  }

  lemma {:induction false} RunStaysNamed(s: System, events: seq<Event>)
    requires Named(s) && forall e :: e in events ==> !NamesNothing(e)
    ensures Named(Run(s, events))
  {
    hide Named;
    hide Step;
    if events != [] {
      RunStaysNamed(s, events[..|events| - 1]);
      StepStaysNamed(Run(s, events[..|events| - 1]), events[|events| - 1]);
    }
  }

  /** Without such a request every reachable store passes the checker. */
  lemma NamedVersionsPass(events: seq<Event>)
    requires forall e :: e in events ==> !NamesNothing(e)
    ensures BodyValid(Run(INITIAL, events).db)
  {
    hide BodyValid;
    hide Run;
    assert Named(INITIAL);
    RunStaysNamed(INITIAL, events);
    ReachableStorePasses(events);
  }

  // ----- with one it may not --------------------------------------------------------------------

  const UNNAMED := ATTACH.(version := Some(""))
  const UNNAMED_ROW := PDF_ROW.(request := PdfRequest("paper", Some(""), Sha256(PDF)),
                                body := PdfBody(OriginalPdf(PDF), Sha256(PDF), Some("")))
  const UNNAMED_UPLOAD: seq<Event> := [AttachReads("p", UNNAMED), AttachWrites("p", "pdf")]

  lemma UnnamedReads()
    ensures AttachRead(READY, UNNAMED) == Ok(Attach("v1"))
  {
    RequiredWords();
    PdfIsShaped();
  }

  lemma UnnamedWrites()
    ensures AttachWrite(READY.(store := {OriginalPdf(PDF)}), UNNAMED, "v1", "pdf", 0).db
              == ATTACHED.(pdfs := [UNNAMED_ROW])
  {
  }

  lemma UnnamedUploads()
    ensures Run(INITIAL.(db := READY), UNNAMED_UPLOAD).db.pdfs == [UNNAMED_ROW]
  {
    hide AttachRead;
    hide AttachWrite;
    UnnamedReads();
    UnnamedWrites();
    var s := INITIAL.(db := READY);
    RunTwo(s, UNNAMED_UPLOAD[0], UNNAMED_UPLOAD[1]);
    assert READY.store + {OriginalPdf(PDF)} == {OriginalPdf(PDF)};
    assert Step(s, UNNAMED_UPLOAD[0]) == s.(db := READY.(store := {OriginalPdf(PDF)}), phases := map["p" := Attaching(UNNAMED, "v1")]);
  }

  /** The request is accepted for the paper's current version, and the store it leaves is refused by the checker. */
  lemma EmptyVersionFails()
    ensures Run(INITIAL, SETUP + UNNAMED_UPLOAD).db.pdfs == [UNNAMED_ROW] && UNNAMED_ROW.version == "v1"
    ensures !BodyValid(Run(INITIAL, SETUP + UNNAMED_UPLOAD).db)
  {
    hide Run;
    hide BodyValid;
    RunInTwo(INITIAL, SETUP, UNNAMED_UPLOAD);
    SetsUp();
    UnnamedUploads();
    ReachableStorePasses(SETUP + UNNAMED_UPLOAD);
  }
}

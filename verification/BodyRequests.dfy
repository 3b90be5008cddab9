/** Requests are idempotent under every interleaving. */
module BodyRequests {
  import opened Prelude
  import opened Ledger
  import opened BodyModel
  import opened BodyQueries
  import opened BodyTransactions
  import opened BodyInvariant
  import opened BodyPreservation
  import opened ExtractionPreservation
  import opened BodyProtocol
  import opened BodySafety
  import opened BodyTheorems

  // ----- what a reachable store looks like ------------------------------------------------------

  /** At most one row per request id, and the sequences of a paper are 1..n in insertion order. */
  ghost predicate OneRowPerRequest<Q, B>(rows: seq<Entry<Q, B>>) {
    && (forall i, j :: 0 <= i < j < |rows| ==> rows[i].requestId != rows[j].requestId)
    && (forall p :: History(rows, p) == CountingUp(|History(rows, p)|))
  }

  lemma RequestsAreUnique(events: seq<Event>)
    ensures var db := Run(INITIAL, events).db;
            && |db.roots| <= 1
            && OneRowPerRequest(db.pdfs) && OneRowPerRequest(db.decisions) && OneRowPerRequest(db.samples)
            && forall i, j :: 0 <= i < j < |db.reviews| ==> db.reviews[i].requestId != db.reviews[j].requestId
  {
    ReachableIsOk(Run(INITIAL, events));
  }

  /** The state right after an event of a reachable state, and any later one. */
  lemma After(s: System, e: Event, events: seq<Event>)
    requires Reachable(s)
    ensures DbOk(s.db) && DbOk(Step(s, e).db) && DbOk(Run(Step(s, e), events).db)
    ensures Grows(Step(s, e).db, Run(Step(s, e), events).db)
  {
    hide DbOk;
    hide SystemOk;
    hide Grows;
    hide Step;
    ReachableIsOk(s);
    StepKeeps(s, e);
    RunKeeps(Step(s, e), events);
    StoreOf(Step(s, e));
    StoreOf(Run(Step(s, e), events));
  }

  lemma DecidesStep(s: System, call: DecideCall, id: string)
    ensures Step(s, Decides(call, id)).db == Decide(s.db, call, id, s.wall).db
  {
    hide Decide;
  }

  lemma FreezesStep(s: System, call: FreezeCall, id: string)
    ensures Step(s, Freezes(call, id)).db == FreezeSample(s.db, call, id, s.wall).db
  {
    hide FreezeSample;
  }

  lemma ReviewsStep(s: System, call: ReviewCall, id: string)
    ensures Step(s, Reviews(call, id)).db == ReviewLayout(s.db, call, id, s.wall).db
  {
    hide ReviewLayout;
  }

  lemma AttachStep(s: System, pid: string, id: string)
    requires PhaseOf(s, pid).Attaching?
    ensures Step(s, AttachWrites(pid, id)).db == AttachWrite(s.db, PhaseOf(s, pid).call, PhaseOf(s, pid).selected, id, s.wall).db
  {
    hide AttachWrite;
  }

  // ----- the root -------------------------------------------------------------------------------

  /** Once registered, the root keeps its id and its purpose, and registering again answers accordingly. */
  lemma RootPurposeIsFrozen(s: System, events: seq<Event>, purpose: RootPurpose, id: string, now: int)
    requires Reachable(s) && !RootFact(s.db).purpose.UnknownPurpose? && !purpose.UnknownPurpose?
    ensures var later := Run(s, events).db;
            && RootFact(later) == RootFact(s.db)
            && RegisterRoot(later, purpose, id, now) ==
               Tx(later, if purpose == RootFact(s.db).purpose then Ok(RootFact(s.db)) else Err(RootConflict))
  {
    hide DbOk;
    hide SystemOk;
    ReachableIsOk(s);
    RunKeeps(s, events);
    StoreOf(Run(s, events));
    RootStays(s.db, Run(s, events).db);
  }

  lemma RootStays(a: Db, b: Db)
    requires DbOk(b) && Grows(a, b) && !RootFact(a).purpose.UnknownPurpose?
    ensures RootFact(b) == RootFact(a)
  {
  }

  /** On a reachable store the root fact is unknown only when nothing was registered. */
  lemma RootIsKnown(s: System)
    requires Reachable(s)
    ensures RootFact(s.db).purpose.UnknownPurpose? <==> s.db.roots == []
  {
    ReachableIsOk(s);
    assert s.db.roots != [] ==> s.db.roots[0] in s.db.roots;
  }

  // ----- decisions ------------------------------------------------------------------------------

  /** The row a successful call answers with is the one stored under its request id. */
  lemma DecisionIsStored(db: Db, call: DecideCall, id: string, now: int)
    requires DbOk(db) && Decide(db, call, id, now).reply.Ok?
    ensures var t := Decide(db, call, id, now);
            Find(t.db.decisions, call.requestId) == Some(t.reply.value) && t.reply.value.request == call.Request()
  {
    hide DbOk;
    DecideKeeps(db, call, id, now);
    var t := Decide(db, call, id, now);
    OnlyRowOfRequest(t.db, t.reply.value);
    DecideAnswers(db, call, id, now);
  }

  lemma OnlyRowOfRequest(db: Db, row: DecisionRow)
    requires DbOk(db) && row in db.decisions
    ensures Find(db.decisions, row.requestId) == Some(row)
  {
    FindOfMember(db.decisions, row);
  }

  lemma FindOfMember<Q, B>(rows: seq<Entry<Q, B>>, e: Entry<Q, B>)
    requires Distinct(rows) && e in rows
    ensures Find(rows, e.requestId) == Some(e)
  {
  }

  lemma DecideAnswers(db: Db, call: DecideCall, id: string, now: int)
    requires DbOk(db) && Decide(db, call, id, now).reply.Ok?
    ensures Decide(db, call, id, now).reply.value.request == call.Request()
  {
    hide DbOk;
    if Find(db.decisions, call.requestId).Some? {
      ReplayedDecision(db, call, id, now);
    } else {
      var row := DecisionRowFor(db, call, id, now);
      DecideKeeps(db, call, id, now);
      assert Decide(db, call, id, now).db == db.(decisions := db.decisions + [row]);
      AppendedEventIsLast(db, row);
    }
  }

  /**
   * A decision that was answered once: in every later state the same call answers the same row and adds nothing,
   * and a call that says something else under the same request id changes nothing.
   */
  lemma DecisionsAreIdempotent(s: System, call: DecideCall, id: string, events: seq<Event>, again: DecideCall,
                               other: string, now: int)
    requires Reachable(s) && Decide(s.db, call, id, s.wall).reply.Ok? && again.requestId == call.requestId
    ensures var later := Run(Step(s, Decides(call, id)), events).db;
            var t := Decide(later, again, other, now);
            && t.db == later
            && (again == call ==> t.reply == Ok(Decide(s.db, call, id, s.wall).reply.value))
            && (again.Request() != call.Request() && again.Acceptable() ==> t.reply == Err(RequestConflict))
  {
    hide DbOk;
    hide Grows;
    hide Step;
    hide Decide;
    hide Run;
    var next := Step(s, Decides(call, id));
    After(s, Decides(call, id), events);
    DecidesStep(s, call, id);
    DecisionIsStored(s.db, call, id, s.wall);
    DecideIsAcceptable(s.db, call, id, s.wall);
    StoredDecisionAnswers(next.db, Run(next, events).db, call, again, other, now);
  }

  lemma DecideIsAcceptable(db: Db, call: DecideCall, id: string, now: int)
    requires Decide(db, call, id, now).reply.Ok?
    ensures call.Acceptable()
  {
  }

  lemma StoredDecisionAnswers(db: Db, later: Db, call: DecideCall, again: DecideCall, id: string, now: int)
    requires DbOk(later) && Grows(db, later) && call.Acceptable() && again.requestId == call.requestId
    requires Find(db.decisions, call.requestId).Some? && Find(db.decisions, call.requestId).value.request == call.Request()
    ensures var t := Decide(later, again, id, now);
            && t.db == later
            && (again == call ==> t.reply == Ok(Find(db.decisions, call.requestId).value))
            && (again.Request() != call.Request() && again.Acceptable() ==> t.reply == Err(RequestConflict))
  {
    hide DbOk;
    FindSurvives(db.decisions, later.decisions, call.requestId);
    if again.Request() == call.Request() {
      assert again == call;
      ReplayedDecision(later, call, id, now);
    } else {
      DifferentDecision(later, again, id, now);
    }
  }

  lemma DifferentDecision(db: Db, call: DecideCall, id: string, now: int)
    requires Find(db.decisions, call.requestId).Some? && Find(db.decisions, call.requestId).value.request != call.Request()
    ensures var t := Decide(db, call, id, now); t.db == db && (call.Acceptable() ==> t.reply == Err(RequestConflict))
  {
  }

  // ----- samples --------------------------------------------------------------------------------

  lemma SampleIsStored(db: Db, call: FreezeCall, id: string, now: int)
    requires DbOk(db) && FreezeSample(db, call, id, now).reply.Ok?
    ensures var t := FreezeSample(db, call, id, now);
            call.Acceptable() && Find(t.db.samples, call.requestId) == Some(t.reply.value) && t.reply.value.request == call.Request()
  {
    hide DbOk;
    FreezeKeeps(db, call, id, now);
    SampleOfRequest(FreezeSample(db, call, id, now).db, FreezeSample(db, call, id, now).reply.value);
  }

  lemma SampleOfRequest(db: Db, row: SampleRow)
    requires DbOk(db) && row in db.samples
    ensures Find(db.samples, row.requestId) == Some(row)
  {
    FindOfMember(db.samples, row);
  }

  lemma StoredSampleAnswers(db: Db, later: Db, call: FreezeCall, again: FreezeCall, id: string, now: int)
    requires Grows(db, later) && call.Acceptable() && again.requestId == call.requestId
    requires Find(db.samples, call.requestId).Some? && Find(db.samples, call.requestId).value.request == call.Request()
    ensures var t := FreezeSample(later, again, id, now);
            && t.db == later
            && (again == call ==> t.reply == Ok(Find(db.samples, call.requestId).value))
            && (again.Request() != call.Request() && again.Acceptable() ==> t.reply == Err(RequestConflict))
  {
    FindSurvives(db.samples, later.samples, call.requestId);
  }

  /** Freezing a sample again: the same row whatever moved since, or a conflict, and never another row. */
  lemma SamplesAreIdempotent(s: System, call: FreezeCall, id: string, events: seq<Event>, again: FreezeCall,
                             other: string, now: int)
    requires Reachable(s) && FreezeSample(s.db, call, id, s.wall).reply.Ok? && again.requestId == call.requestId
    ensures var later := Run(Step(s, Freezes(call, id)), events).db;
            var t := FreezeSample(later, again, other, now);
            && t.db == later
            && (again == call ==> t.reply == Ok(FreezeSample(s.db, call, id, s.wall).reply.value))
            && (again.Request() != call.Request() && again.Acceptable() ==> t.reply == Err(RequestConflict))
  {
    hide DbOk;
    hide Step;
    hide Run;
    var next := Step(s, Freezes(call, id));
    After(s, Freezes(call, id), events);
    FreezesStep(s, call, id);
    SampleIsStored(s.db, call, id, s.wall);
    StoredSampleAnswers(next.db, Run(next, events).db, call, again, other, now);
  }

  // ----- attachments ----------------------------------------------------------------------------

  /** What `attach_pdf` leaves: the write transaction answered with the row stored under the request id. */
  lemma AttachmentIsStored(db: Db, call: AttachCall, selected: string, id: string, now: int)
    requires DbOk(db) && AttachOk(db, call, selected) && AttachWrite(db, call, selected, id, now).reply.Ok?
    ensures var t := AttachWrite(db, call, selected, id, now);
            Find(t.db.pdfs, call.requestId) == Some(t.reply.value) && t.reply.value.request == call.Request()
  {
    hide DbOk;
    AttachWriteKeeps(db, call, selected, id, now);
    PdfOfRequest(AttachWrite(db, call, selected, id, now).db, AttachWrite(db, call, selected, id, now).reply.value);
  }

  lemma PdfOfRequest(db: Db, row: PdfRow)
    requires DbOk(db) && row in db.pdfs
    ensures Find(db.pdfs, row.requestId) == Some(row)
  {
    FindOfMember(db.pdfs, row);
  }

  /**
   * Attaching again: the read transaction already answers, with the stored row even after the current version
   * moved, or with a conflict; a write transaction that was already under way answers the same and adds nothing.
   */
  lemma AttachmentsAreIdempotent(s: System, pid: string, id: string, events: seq<Event>, again: AttachCall,
                                 selected: string, other: string, now: int)
    requires Reachable(s) && PhaseOf(s, pid).Attaching? && again.requestId == PhaseOf(s, pid).call.requestId
    requires AttachWrite(s.db, PhaseOf(s, pid).call, PhaseOf(s, pid).selected, id, s.wall).reply.Ok?
    ensures var call := PhaseOf(s, pid).call;
            var row := AttachWrite(s.db, call, PhaseOf(s, pid).selected, id, s.wall).reply.value;
            var later := Run(Step(s, AttachWrites(pid, id)), events).db;
            && (again.Request() == call.Request() && again.Acceptable() ==> AttachRead(later, again) == Ok(Already(row)))
            && (again.Request() == call.Request() ==> AttachWrite(later, again, selected, other, now) == Tx(later, Ok(row)))
            && (again.Request() != call.Request() && again.Acceptable() ==> AttachRead(later, again) == Err(RequestConflict))
            && (again.Request() != call.Request() ==>
                  AttachWrite(later, again, selected, other, now) == Tx(later, Err(RequestConflict)))
  {
    hide DbOk;
    hide SystemOk;
    hide Step;
    hide Run;
    ReachableIsOk(s);
    PhaseSound(s, pid);
    var next := Step(s, AttachWrites(pid, id));
    After(s, AttachWrites(pid, id), events);
    AttachStep(s, pid, id);
    AttachmentIsStored(s.db, PhaseOf(s, pid).call, PhaseOf(s, pid).selected, id, s.wall);
    FindSurvives(next.db.pdfs, Run(next, events).db.pdfs, again.requestId);
  }

  // ----- reviews --------------------------------------------------------------------------------

  lemma {:induction false} FindReviewSurvives(reviews: seq<ReviewRow>, later: seq<ReviewRow>, requestId: string)
    requires reviews <= later && FindReview(reviews, requestId).Some?
    ensures FindReview(later, requestId) == FindReview(reviews, requestId)
  {
    if reviews[0].requestId != requestId {
      assert reviews[1..] <= later[1..];
      FindReviewSurvives(reviews[1..], later[1..], requestId);
    }
  }

  lemma ReviewIsStored(db: Db, call: ReviewCall, id: string, now: int)
    requires ReviewLayout(db, call, id, now).reply.Ok?
    ensures var found := FindReview(ReviewLayout(db, call, id, now).db.reviews, call.requestId);
            call.Acceptable() && found.Some? && found.value.request == call.Request()
  {
    hide ExtractionView;
    if FindReview(db.reviews, call.requestId).None? {
      NewReviewIsFound(db.reviews, ReviewRowFor(call, id, now));
    }
  }

  lemma {:induction false} NewReviewIsFound(reviews: seq<ReviewRow>, r: ReviewRow)
    requires FindReview(reviews, r.requestId).None?
    ensures FindReview(reviews + [r], r.requestId) == Some(r)
  {
  }

  /** Repeating a review adds nothing and answers with the view of the moment; saying something else is a conflict. */
  lemma ReviewsAreIdempotent(s: System, call: ReviewCall, id: string, events: seq<Event>, again: ReviewCall,
                             other: string, now: int)
    requires Reachable(s) && ReviewLayout(s.db, call, id, s.wall).reply.Ok? && again.requestId == call.requestId
    ensures var later := Run(Step(s, Reviews(call, id)), events).db;
            var t := ReviewLayout(later, again, other, now);
            var seen := ExtractionView(later, call.identity.fingerprint);
            && t.db == later
            && (again == call ==> seen.Ok? && seen.value.Some? && t.reply == Ok(seen.value.value))
            && (again.Request() != call.Request() && again.Acceptable() ==> t.reply == Err(RequestConflict))
  {
    hide DbOk;
    hide Grows;
    hide Step;
    hide Run;
    hide ReviewLayout;
    var next := Step(s, Reviews(call, id));
    After(s, Reviews(call, id), events);
    ReviewsStep(s, call, id);
    ReviewIsStored(s.db, call, id, s.wall);
    ReviewedIsDecided(s.db, call, id, s.wall);
    StoredReviewAnswers(next.db, Run(next, events).db, call, again, other, now);
  }

  lemma StoredReviewAnswers(db: Db, later: Db, call: ReviewCall, again: ReviewCall, id: string, now: int)
    requires DbOk(db) && DbOk(later) && Grows(db, later) && call.Acceptable() && again.requestId == call.requestId
    requires FindReview(db.reviews, call.requestId).Some? && FindReview(db.reviews, call.requestId).value.request == call.Request()
    requires call.identity.fingerprint in db.inputs && DecidedView(db, call.identity.fingerprint)
    requires ExtractionView(db, call.identity.fingerprint).value.value.identity == Some(call.identity)
    ensures var t, seen := ReviewLayout(later, again, id, now), ExtractionView(later, call.identity.fingerprint);
            && t.db == later
            && (again == call ==> seen.Ok? && seen.value.Some? && t.reply == Ok(seen.value.value))
            && (again.Request() != call.Request() && again.Acceptable() ==> t.reply == Err(RequestConflict))
  {
    hide DbOk;
    hide ExtractionView;
    LaterReviews(db, later);
    FindReviewSurvives(db.reviews, later.reviews, call.requestId);
    IdentityIsPublished(db, call.identity.fingerprint);
    DecisionsStay(db, later, call.identity.fingerprint);
  }

  lemma LaterReviews(a: Db, b: Db)
    requires Grows(a, b)
    ensures a.reviews <= b.reviews
  {
  }

  lemma IdentityIsPublished(db: Db, f: Fingerprint)
    requires ExtractionView(db, f).Ok? && ExtractionView(db, f).value.Some?
    ensures ExtractionView(db, f).value.value.identity.Some? <==> ExtractionView(db, f).value.value.artifact.Some?
  {
  }

  lemma ReviewedIsDecided(db: Db, call: ReviewCall, id: string, now: int)
    requires DbOk(db) && ReviewLayout(db, call, id, now).reply.Ok?
    ensures var f, later := call.identity.fingerprint, ReviewLayout(db, call, id, now).db;
            && f in later.inputs && DecidedView(later, f)
            && ExtractionView(later, f).value.value.identity == Some(call.identity)
  {
    hide DbOk;
    hide Grows;
    ReviewKeeps(db, call, id, now);
    var f := call.identity.fingerprint;
    SeenBeforeReview(db, call, id, now);
    DecisionsStay(db, ReviewLayout(db, call, id, now).db, f);
    assert f in ReviewLayout(db, call, id, now).db.inputs;
  }

  lemma SeenBeforeReview(db: Db, call: ReviewCall, id: string, now: int)
    requires ReviewLayout(db, call, id, now).reply.Ok?
    ensures call.identity.fingerprint in db.inputs && DecidedView(db, call.identity.fingerprint)
    ensures ExtractionView(db, call.identity.fingerprint).value.value.identity == Some(call.identity)
  {
  }
}

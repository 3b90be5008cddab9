/** What the closure checker refuses: together with the constraints of the schema it accepts exactly the coherent stores. */
module BodyCompleteness {
  import opened Prelude
  import opened Ledger
  import opened BodyModel
  import opened BodyQueries
  import opened BodyInvariant
  import opened BodyPreservation
  import opened ExtractionPreservation
  import opened BodyValidation

  // ----- what the schema enforces ---------------------------------------------------------------

  /** The null columns of an outcome go together, and a flaw goes with a permanent failure. */
  ghost predicate OutcomeColumns(o: Outcome) {
    && o.elapsed >= 0 && o.peak >= 0
    && (o.published.None? ==> o.failure.Some? && o.flaw.None?)
    && (o.published.Some? ==> if o.flaw.None? then o.failure.None? else Permanent(o.failure))
  }

  ghost predicate ReviewKeys(db: Db) {
    && (forall r :: r in db.reviews ==> r.identity.fingerprint in db.successes)
    && forall i, j :: 0 <= i < j < |db.reviews| ==>
         db.reviews[i].id != db.reviews[j].id && db.reviews[i].requestId != db.reviews[j].requestId
  }

  /** The unique, foreign-key and check constraints of the Body tables. */
  ghost predicate SchemaOk(db: Db) {
    && Distinct(db.pdfs) && Distinct(db.decisions) && Distinct(db.samples)
    && DistinctIds(db.attempts) && (forall a :: a in db.attempts ==> a.fingerprint in db.inputs)
    && (forall k :: k in db.outcomes ==> Lookup(db.attempts, k).Some? && OutcomeColumns(db.outcomes[k]))
    && (forall f :: f in db.successes ==> f in db.inputs)
    && ReviewKeys(db)
  }

  /** The rows of one paper stand in the order of their numbers. */
  ghost predicate InOrder<Q, B>(rows: seq<Entry<Q, B>>) {
    forall p, i, j :: 0 <= i < j < |History(rows, p)| ==> History(rows, p)[i] <= History(rows, p)[j]
  }

  /** A table has no order of its own: the rows are listed by their numbers. */
  ghost predicate Listed(db: Db) {
    && InOrder(db.pdfs) && InOrder(db.decisions) && InOrder(db.samples)
    && forall f, i, j :: 0 <= i < j < |AttemptsOf(db.attempts, f)| ==>
         AttemptsOf(db.attempts, f)[i].ordinal <= AttemptsOf(db.attempts, f)[j].ordinal
  }

  predicate SameExtraction(r: ReviewRow, s: ReviewRow) {
    r.identity.fingerprint == s.identity.fingerprint
  }

  /** What neither the schema nor the checker looks at. */
  ghost predicate Unchecked(db: Db) {
    && (forall i, j :: 0 <= i < j < |db.reviews| && SameExtraction(db.reviews[i], db.reviews[j]) && !db.reviews[i].passed ==>
          !db.reviews[j].passed)
    && (forall k :: k in db.outcomes && db.outcomes[k].published.Some? ==>
          var a := db.outcomes[k].published.value.artifact; a.Extraction? ==> LayoutReview !in a.issues)
  }

  // ----- ledgers --------------------------------------------------------------------------------

  lemma {:induction false} NoHistory<Q, B>(rows: seq<Entry<Q, B>>, p: string)
    requires forall e :: e in rows ==> e.paper != p
    ensures History(rows, p) == []
  {
    if rows != [] { NoHistory(rows[..|rows| - 1], p); }
  }

  lemma ValidIsContiguous<Q, B>(rows: seq<Entry<Q, B>>)
    requires HistoryValid(rows) && InOrder(rows)
    ensures Contiguous(rows)
  {
    forall p ensures History(rows, p) == CountingUp(|History(rows, p)|) {
      if e :| e in rows && e.paper == p {
        SortKeepsAscending(History(rows, p), (s: int) => s);
      } else {
        NoHistory(rows, p);
      }
    }
  }

  lemma ContiguousIsInOrder<Q, B>(rows: seq<Entry<Q, B>>)
    requires Contiguous(rows)
    ensures InOrder(rows)
  {
    forall p, i, j | 0 <= i < j < |History(rows, p)| ensures History(rows, p)[i] <= History(rows, p)[j] {
      var all := History(rows, p);
      assert all == CountingUp(|all|);
    }
  }

  lemma EventsAreRows(db: Db, p: string)
    requires InOrder(db.decisions) && DecisionEvents(db, p).Ok?
    ensures p in db.papers && DecisionEvents(db, p).value == RowsOf(db.decisions, p)
    ensures forall i :: 0 <= i < |RowsOf(db.decisions, p)| ==> DirectAndValid(RowsOf(db.decisions, p)[i].body.record)
  {
    SortKeepsAscending(RowsOf(db.decisions, p), (e: DecisionRow) => e.sequence);
  }

  lemma EventsInOrder(db: Db, p: string)
    requires InOrder(db.decisions) && EventsValid(db, p)
    ensures History(db.decisions, p) == CountingUp(|History(db.decisions, p)|)
    ensures forall d :: d in db.decisions && d.paper == p ==> DecisionOk(db.papers, db.screenings, d)
  {
    hide ExecutionSourceOf;
    hide DecisionEvents;
    hide InOrder;
    hide DirectAndValid;
    EventsAreRows(db, p);
    var mine := RowsOf(db.decisions, p);
    forall d | d in db.decisions && d.paper == p ensures DecisionOk(db.papers, db.screenings, d) {
      var i :| 0 <= i < |mine| && mine[i] == d;
      assert EventValid(db, p, mine[i]);
      SourceIsOfThePaper(db, p, d);
    }
  }

  lemma SourceIsOfThePaper(db: Db, p: string, d: DecisionRow)
    requires ExecutionSourceOf(db, p, Some(d)).Ok?
    ensures forall r :: r in d.body.references ==> r in db.screenings && db.screenings[r].paper == p
  {
  }

  lemma DecisionsAreOk(db: Db)
    requires Distinct(db.decisions) && InOrder(db.decisions) && DecisionsValid(db)
    ensures DecisionsOk(db.papers, db.screenings, db.decisions)
  {
    hide EventsValid;
    hide DecisionOk;
    forall p ensures History(db.decisions, p) == CountingUp(|History(db.decisions, p)|) {
      if d :| d in db.decisions && d.paper == p {
        EventsInOrder(db, p);
      } else {
        NoHistory(db.decisions, p);
      }
    }
    forall d | d in db.decisions ensures DecisionOk(db.papers, db.screenings, d) { EventsInOrder(db, d.paper); }
  }

  lemma LedgersAreOk(db: Db)
    requires SchemaOk(db) && Listed(db) && BodyValid(db)
    ensures RootsOk(db.roots) && PdfsOk(db.papers, db.store, db.pdfs) && VersionsNamed(db.pdfs)
    ensures DecisionsOk(db.papers, db.screenings, db.decisions) && SamplesOk(db.papers, db.roots, db.pdfs, db.samples)
  {
    hide InputValid;
    hide ReviewValid;
    hide DecisionsValid;
    hide Contiguous;
    hide InOrder;
    hide ReviewKeys;
    hide DistinctIds;
    DecisionsAreOk(db);
    ValidIsContiguous(db.pdfs);
    ValidIsContiguous(db.samples);
    forall e | e in db.pdfs ensures PdfOk(db.papers, db.store, e) && (e.body.requestedVersion == Some("") ==> e.version == "") {
      assert PdfRowValid(db, e);
    }
    forall e | e in db.samples ensures SampleOk(db.papers, db.pdfs, e) && RootFact(db).purpose.Experiment? {
      assert SampleRowValid(db, e);
    }
    if db.samples != [] { assert db.samples[0] in db.samples; }
    forall r | r in db.roots ensures r == db.roots[0] && |db.roots| == 1 { assert RootsValid(db); }
  }

  // ----- extractions ----------------------------------------------------------------------------

  lemma InputIsOk(db: Db, f: Fingerprint)
    requires f in db.inputs && InputValid(db, f)
    ensures InputOk(db.snapshots, db.pdfs, f, db.inputs[f]) && db.inputs[f].backend == f.semantics.backend
  {
    hide ExtractionView;
    hide AttemptValid;
  }

  /** The view of an input whose attempts are listed by ordinal joins its rows as they stand. */
  lemma ViewOfListed(db: Db, f: Fingerprint)
    requires f in db.inputs && Listed(db) && ExtractionView(db, f).Ok?
    ensures ExtractionView(db, f).value.Some?
    ensures var rows := AttemptsOf(db.attempts, f);
            var joined := JoinAll(rows, db.outcomes);
            var v := ExtractionView(db, f).value.value;
            && v.attempts == joined
            && (v.identity.Some? <==> LastPublished(joined).Some?)
            && (v.identity.Some? ==> var p := LastPublished(joined).value; v.identity.value == Identity(f, p.reading, p.evidenceMap))
            && (f in db.successes ==> SuccessCoherent(joined, db.successes[f], LastPublished(joined)) && v.identity.Some?
                                      && ReviewsAgree(db.reviews, v.identity.value))
            && (f !in db.successes ==> v.quality == LastFlaw(joined))
  {
    hide LastFlaw;
    hide AnyPermanent;
    SortKeepsAscending(AttemptsOf(db.attempts, f), (a: Attempt) => a.ordinal);
  }

  lemma AttemptIsValid(db: Db, f: Fingerprint, i: nat)
    requires f in db.inputs && Listed(db) && InputValid(db, f) && i < |AttemptsOf(db.attempts, f)|
    ensures ExtractionView(db, f).Ok? && ExtractionView(db, f).value.Some? && i < |ExtractionView(db, f).value.value.attempts|
    ensures AttemptValid(db, f, ExtractionView(db, f).value.value, i)
    ensures ExtractionView(db, f).value.value.attempts[i] == Join(AttemptsOf(db.attempts, f)[i], db.outcomes)
  {
    hide ExtractionView;
    hide AttemptValid;
    ViewOfListed(db, f);
  }

  lemma ValidAttemptIs(db: Db, f: Fingerprint, view: View, i: nat)
    requires f in db.inputs && i < |view.attempts| && AttemptValid(db, f, view, i)
    ensures var j := view.attempts[i];
            && j.attempt.backend == db.inputs[f].backend && (j.attempt.audit.Some? ==> j.attempt.audit.value.Matches(f.semantics))
            && (i < |view.attempts| - 1 ==>
                  j.outcome.Some? && PublishedOf(j).None? && FailureOf(j).Some? && !Permanent(FailureOf(j)))
  {
  }

  lemma RowIsOk(db: Db, f: Fingerprint, i: nat)
    requires f in db.inputs && Listed(db) && InputValid(db, f) && i < |AttemptsOf(db.attempts, f)|
    ensures var rows := AttemptsOf(db.attempts, f);
            AttemptOk(db.inputs, rows[i]) && (i < |rows| - 1 ==> Retriable(db.outcomes, rows[i].id))
  {
    hide AttemptValid;
    hide ExtractionView;
    var rows := AttemptsOf(db.attempts, f);
    assert rows[i] in rows;
    ViewOfListed(db, f);
    InputIsOk(db, f);
    AttemptIsValid(db, f, i);
    ValidAttemptIs(db, f, ExtractionView(db, f).value.value, i);
  }

  /** The attempts of a valid input form a chain, and each of them agrees with its input. */
  lemma ChainIsOk(db: Db, f: Fingerprint)
    requires f in db.inputs && Listed(db) && InputValid(db, f)
    ensures ChainOk(AttemptsOf(db.attempts, f), db.outcomes)
    ensures forall a :: a in AttemptsOf(db.attempts, f) ==> AttemptOk(db.inputs, a)
  {
    hide AttemptValid;
    hide ExtractionView;
    var rows := AttemptsOf(db.attempts, f);
    ViewOfListed(db, f);
    forall i | 0 <= i < |rows| ensures AttemptOk(db.inputs, rows[i]) && (i < |rows| - 1 ==> Retriable(db.outcomes, rows[i].id)) {
      RowIsOk(db, f, i);
    }
    forall i | 0 <= i < |rows| ensures rows[i].ordinal == i + 1 {
      assert ExtractionView(db, f).value.value.attempts[i].attempt == rows[i];
    }
  }

  // ----- outcomes -------------------------------------------------------------------------------

  /** Of the attempts of a valid input only the last can have published; it is what the view shows. */
  lemma LastIsShown(rows: seq<Attempt>, outcomes: map<string, Outcome>)
    requires ChainOk(rows, outcomes)
    ensures var joined := JoinAll(rows, outcomes); var last := joined[|joined| - 1];
            && LastPublished(joined) == PublishedOf(last)
            && LastFlaw(joined) == (if PublishedOf(last).Some? && last.outcome.value.flaw.Some?
                                    then Failed(PublishedOf(last).value.artifact, last.outcome.value.flaw.value)
                                    else AbsentQuality)
  {
    OnlyLastCounts(rows, outcomes);
  }

  lemma ValidPublicationIs(db: Db, f: Fingerprint, view: View, i: nat)
    requires f in db.inputs && i < |view.attempts| && AttemptValid(db, f, view, i) && PublishedOf(view.attempts[i]).Some?
    ensures PublicationValid(db, f, view, i) && i == |view.attempts| - 1 && view.identity.Some?
  {
  }

  /** The published outcome of a valid input agrees with its attempt. */
  lemma PublicationIsOk(db: Db, f: Fingerprint, view: View, a: Attempt, o: Outcome)
    requires view.attempts != [] && view.attempts[|view.attempts| - 1] == Joined(a, Some(o)) && o.published.Some?
    requires a.fingerprint == f && OutcomeColumns(o) && PublicationValid(db, f, view, |view.attempts| - 1)
    requires view.identity == Some(Identity(f, o.published.value.reading, o.published.value.evidenceMap))
    requires f !in db.successes ==> view.quality == if o.flaw.Some? then Failed(o.published.value.artifact, o.flaw.value) else AbsentQuality
    requires f in db.successes ==> o.failure.None?
    requires o.published.value.artifact.Extraction? ==> LayoutReview !in o.published.value.artifact.issues
    ensures ArtifactAgrees(db.store, a, o, o.published.value)
    ensures o.failure.None? ==> f in db.successes && db.successes[f] == a.id
  {
  }

  lemma LastPublisher(db: Db, a: Attempt)
    requires Listed(db) && a in db.attempts && a.fingerprint in db.inputs && InputValid(db, a.fingerprint)
    requires a.id in db.outcomes && db.outcomes[a.id].published.Some?
    ensures ChainOk(AttemptsOf(db.attempts, a.fingerprint), db.outcomes)
    ensures a == LastOf(db.attempts, a.fingerprint)
    ensures var view := ExtractionView(db, a.fingerprint);
            && view.Ok? && view.value.Some? && view.value.value.attempts == JoinAll(AttemptsOf(db.attempts, a.fingerprint), db.outcomes)
            && PublicationValid(db, a.fingerprint, view.value.value, |view.value.value.attempts| - 1)
  {
    hide AttemptValid;
    hide ExtractionView;
    hide Listed;
    hide PublicationValid;
    hide LastPublished;
    hide LastFlaw;
    hide SuccessCoherent;
    hide ReviewsAgree;
    hide AttemptOk;
    hide Retriable;
    var f := a.fingerprint;
    ChainIsOk(db, f);
    ViewOfListed(db, f);
    var rows := AttemptsOf(db.attempts, f);
    assert a in rows;
    var i :| 0 <= i < |rows| && rows[i] == a;
    AttemptIsValid(db, f, i);
    ValidPublicationIs(db, f, ExtractionView(db, f).value.value, i);
  }

  lemma OutcomeIsOk(db: Db, a: Attempt)
    requires SchemaOk(db) && Listed(db) && Unchecked(db) && a in db.attempts && a.id in db.outcomes
    requires a.fingerprint in db.inputs && InputValid(db, a.fingerprint)
    ensures OutcomeOk(db.store, a, db.outcomes[a.id])
    ensures db.outcomes[a.id].failure.None? ==> a.fingerprint in db.successes && db.successes[a.fingerprint] == a.id
  {
    hide ArtifactAgrees;
    hide AttemptsOf;
    hide ChainOk;
    hide Distinct;
    hide DistinctIds;
    hide ExtractionView;
    hide InputValid;
    hide JoinAll;
    hide LastFlaw;
    hide LastPublished;
    hide Listed;
    hide Lookup;
    hide PublicationValid;
    hide ReviewKeys;
    hide ReviewsAgree;
    var f, o := a.fingerprint, db.outcomes[a.id];
    assert OutcomeColumns(o);
    if o.published.Some? {
      LastPublisher(db, a);
      ViewOfListed(db, f);
      LastIsShown(AttemptsOf(db.attempts, f), db.outcomes);
      assert o.published.value.artifact.Extraction? ==> LayoutReview !in o.published.value.artifact.issues;
      PublicationIsOk(db, f, ExtractionView(db, f).value.value, a, o);
    }
  }

  lemma SuccessIsOk(db: Db, f: Fingerprint)
    requires SchemaOk(db) && Listed(db) && f in db.successes && f in db.inputs && InputValid(db, f)
    ensures Succeeded(db.attempts, db.outcomes, f, db.successes[f])
  {
    hide AttemptValid;
    hide ChainOk;
    hide ExtractionView;
    hide Listed;
    ViewOfListed(db, f);
    ChainIsOk(db, f);
    LastIsShown(AttemptsOf(db.attempts, f), db.outcomes);
    var rows := AttemptsOf(db.attempts, f);
    var last := rows[|rows| - 1];
    assert last in rows;
    assert DistinctIds(db.attempts);
    LookupOfMember(db.attempts, last);
  }

  lemma ReviewIsOk(db: Db, r: ReviewRow)
    requires Listed(db) && r in db.reviews && ReviewValid(db, r) && r.identity.fingerprint in db.successes
    requires r.identity.fingerprint in db.inputs && InputValid(db, r.identity.fingerprint)
    ensures ReviewOk(db.attempts, db.outcomes, db.successes, r)
  {
    hide AttemptValid;
    hide ExtractionView;
    hide Listed;
    hide PublicationValid;
    var f := r.identity.fingerprint;
    ViewOfListed(db, f);
    ChainIsOk(db, f);
    LastIsShown(AttemptsOf(db.attempts, f), db.outcomes);
    var i :| 0 <= i < |db.reviews| && db.reviews[i] == r;
    var rows := AttemptsOf(db.attempts, f);
    forall a | a in db.attempts && a.fingerprint == f ensures Reviews(db.outcomes, a, r.identity) {
      if a.id in db.outcomes && db.outcomes[a.id].published.Some? { LastPublisher(db, a); }
    }
  }

  lemma ExtractionsAreOk(db: Db)
    requires SchemaOk(db) && Listed(db) && Unchecked(db)
    requires forall f :: f in db.inputs ==> InputValid(db, f)
    requires forall r :: r in db.reviews ==> ReviewValid(db, r)
    ensures InputsOk(db.snapshots, db.pdfs, db.inputs) && ExtractionOk(db)
  {
    hide AttemptOk;
    hide AttemptsOf;
    hide ChainOk;
    hide Distinct;
    hide DistinctIds;
    hide InputOk;
    hide InputValid;
    hide Listed;
    hide Lookup;
    hide OutcomeColumns;
    hide OutcomeOk;
    hide ReviewOk;
    hide ReviewValid;
    hide Succeeded;
    forall f | f in db.inputs ensures InputOk(db.snapshots, db.pdfs, f, db.inputs[f]) { InputIsOk(db, f); }
    forall f | f in db.inputs ensures ChainOk(AttemptsOf(db.attempts, f), db.outcomes) { ChainIsOk(db, f); }
    forall a | a in db.attempts ensures AttemptOk(db.inputs, a) {
      ChainIsOk(db, a.fingerprint);
      assert a in AttemptsOf(db.attempts, a.fingerprint);
    }
    forall a | a in db.attempts && a.id in db.outcomes
      ensures OutcomeOk(db.store, a, db.outcomes[a.id])
      ensures db.outcomes[a.id].failure.None? ==> a.fingerprint in db.successes && db.successes[a.fingerprint] == a.id
    {
      OutcomeIsOk(db, a);
    }
    forall f | f in db.successes ensures Succeeded(db.attempts, db.outcomes, f, db.successes[f]) { SuccessIsOk(db, f); }
    forall r | r in db.reviews ensures ReviewOk(db.attempts, db.outcomes, db.successes, r) { ReviewIsOk(db, r); }
    assert ReviewOrder(db.reviews);
  }

  // ----- coherent stores have all of it -----------------------------------------------------------

  lemma ColumnsHold(db: Db, k: string)
    requires DbOk(db) && k in db.outcomes
    ensures Lookup(db.attempts, k).Some? && OutcomeColumns(db.outcomes[k])
  {
    assert OutcomeOk(db.store, Lookup(db.attempts, k).value, db.outcomes[k]);
  }

  lemma KeysHold(db: Db)
    requires DbOk(db)
    ensures forall a :: a in db.attempts ==> a.fingerprint in db.inputs
    ensures forall f :: f in db.successes ==> f in db.inputs
    ensures Distinct(db.pdfs) && Distinct(db.decisions) && Distinct(db.samples) && DistinctIds(db.attempts)
  {
    forall a | a in db.attempts ensures a.fingerprint in db.inputs { assert AttemptOk(db.inputs, a); }
    forall f | f in db.successes ensures f in db.inputs {
      assert Succeeded(db.attempts, db.outcomes, f, db.successes[f]);
    }
  }

  lemma ReviewKeysHold(db: Db)
    requires DbOk(db)
    ensures ReviewKeys(db)
  {
    forall r | r in db.reviews ensures r.identity.fingerprint in db.successes {
      assert ReviewOk(db.attempts, db.outcomes, db.successes, r);
    }
  }

  lemma SchemaHolds(db: Db)
    requires DbOk(db)
    ensures SchemaOk(db)
  {
    hide DbOk;
    hide ReviewKeys;
    KeysHold(db);
    ReviewKeysHold(db);
    forall k | k in db.outcomes ensures Lookup(db.attempts, k).Some? && OutcomeColumns(db.outcomes[k]) { ColumnsHold(db, k); }
  }

  lemma ListedHolds(db: Db)
    requires DbOk(db)
    ensures Listed(db)
  {
    hide DbOk;
    hide Contiguous;
    LedgersInOrder(db);
    forall f, i, j | 0 <= i < j < |AttemptsOf(db.attempts, f)|
      ensures AttemptsOf(db.attempts, f)[i].ordinal <= AttemptsOf(db.attempts, f)[j].ordinal
    {
      assert AttemptsOf(db.attempts, f)[i] in AttemptsOf(db.attempts, f);
      AttemptsChain(db, AttemptsOf(db.attempts, f)[i]);
    }
  }

  lemma LedgersInOrder(db: Db)
    requires DbOk(db)
    ensures InOrder(db.pdfs) && InOrder(db.decisions) && InOrder(db.samples)
  {
    ContiguousIsInOrder(db.pdfs);
    ContiguousIsInOrder(db.decisions);
    ContiguousIsInOrder(db.samples);
  }

  lemma AttemptsChain(db: Db, a: Attempt)
    requires DbOk(db) && a in db.attempts
    ensures ChainOk(AttemptsOf(db.attempts, a.fingerprint), db.outcomes)
  {
    assert AttemptOk(db.inputs, a);
  }

  lemma UncheckedHolds(db: Db)
    requires DbOk(db)
    ensures Unchecked(db)
  {
    forall k | k in db.outcomes && db.outcomes[k].published.Some?
      ensures var a := db.outcomes[k].published.value.artifact; a.Extraction? ==> LayoutReview !in a.issues
    {
      assert OutcomeOk(db.store, Lookup(db.attempts, k).value, db.outcomes[k]);
    }
  }

  lemma BodyValidParts(db: Db)
    requires BodyValid(db)
    ensures forall f :: f in db.inputs ==> InputValid(db, f)
    ensures forall r :: r in db.reviews ==> ReviewValid(db, r)
  {
  }

  /**
   * The checker, the schema and the coherence of the papers accept exactly the coherent stores, up to what neither
   * of them looks at: a passing review after a failing one, and an automatic report of a layout flaw.
   */
  lemma CheckerIsExact(db: Db)
    ensures DbOk(db) && VersionsNamed(db.pdfs) <==>
            PapersOk(db.papers) && SchemaOk(db) && Listed(db) && BodyValid(db) && Unchecked(db)
  {
    hide BodyValid;
    hide ExtractionOk;
    if DbOk(db) && VersionsNamed(db.pdfs) {
      SchemaHolds(db);
      ListedHolds(db);
      UncheckedHolds(db);
      CoherentStorePasses(db);
      assert PapersOk(db.papers);
    }
    if PapersOk(db.papers) && SchemaOk(db) && Listed(db) && BodyValid(db) && Unchecked(db) {
      LedgersAreOk(db);
      BodyValidParts(db);
      ExtractionsAreOk(db);
      assert DbOk(db);
    }
  }

  // ----- what it overlooks ------------------------------------------------------------------------

  function WithReview(db: Db, r: ReviewRow): Db {
    db.(reviews := db.reviews + [r])
  }

  /** Once an extraction failed a review, one more review of what it published does not change any view. */
  lemma ViewUnmoved(db: Db, r: ReviewRow, g: Fingerprint)
    requires ReviewFailed(db.reviews, r.identity.fingerprint) && ReviewsAgree(db.reviews, r.identity)
    ensures ExtractionView(WithReview(db, r), g) == ExtractionView(db, g)
  {
    hide InOrdinalOrder;
    hide LastPublished;
    hide LastFlaw;
    hide AnyPermanent;
    var some :| 0 <= some < |db.reviews| && db.reviews[some].identity.fingerprint == r.identity.fingerprint && !db.reviews[some].passed;
    assert forall i :: 0 <= i < |db.reviews| ==> (db.reviews + [r])[i] == db.reviews[i];
    assert ReviewFailed(db.reviews + [r], g) <==> ReviewFailed(db.reviews, g);
    assert Reviewed(db.reviews + [r], g) <==> Reviewed(db.reviews, g);
    forall identity: Identity | identity.fingerprint == g
      ensures ReviewsAgree(db.reviews + [r], identity) <==> ReviewsAgree(db.reviews, identity)
    {
      assert db.reviews[some].identity == r.identity;
      if ReviewsAgree(db.reviews + [r], identity) {
        forall i | 0 <= i < |db.reviews| && db.reviews[i].identity.fingerprint == g ensures db.reviews[i].identity == identity {
          assert (db.reviews + [r])[i] == db.reviews[i];
        }
      }
    }
  }

  lemma AttemptStaysValid(db: Db, r: ReviewRow, f: Fingerprint, view: View, i: nat)
    requires f in db.inputs && i < |view.attempts| && AttemptValid(db, f, view, i)
    ensures AttemptValid(WithReview(db, r), f, view, i)
  {
    if PublishedOf(view.attempts[i]).Some? && view.identity.Some? {
      SameLoad(db, r, PublishedOf(view.attempts[i]).value.artifact, view.identity.value);
    }
  }

  lemma SameLoad(db: Db, r: ReviewRow, artifact: Artifact, expected: Identity)
    ensures Load(WithReview(db, r), artifact, expected) == Load(db, artifact, expected)
  {
  }

  lemma InputStaysValid(db: Db, r: ReviewRow, f: Fingerprint)
    requires ReviewFailed(db.reviews, r.identity.fingerprint) && ReviewsAgree(db.reviews, r.identity)
    requires f in db.inputs && InputValid(db, f)
    ensures InputValid(WithReview(db, r), f)
  {
    hide ExtractionView;
    hide AttemptValid;
    ViewUnmoved(db, r, f);
    var later, view := WithReview(db, r), ExtractionView(db, f).value.value;
    assert later.pdfs == db.pdfs && later.inputs == db.inputs && later.snapshots == db.snapshots;
    forall i | 0 <= i < |view.attempts| ensures AttemptValid(later, f, view, i) { AttemptStaysValid(db, r, f, view, i); }
  }

  /** The stored tables other than the reviews are judged as before. */
  lemma OthersStayValid(db: Db, r: ReviewRow)
    requires BodyValid(db)
    ensures var later := WithReview(db, r);
            && RootsValid(later) && HistoryValid(later.pdfs) && HistoryValid(later.samples) && DecisionsValid(later)
            && (forall e :: e in later.pdfs ==> PdfRowValid(later, e)) && (forall e :: e in later.samples ==> SampleRowValid(later, e))
  {
    hide InputValid;
    hide ReviewValid;
    hide ExecutionSourceOf;
    hide DecisionEvents;
    var later := WithReview(db, r);
    forall d | d in later.decisions ensures EventsValid(later, d.paper) {
      assert EventsValid(db, d.paper);
      SameEvents(db, r, d.paper);
    }
    forall e | e in later.pdfs ensures PdfRowValid(later, e) { assert PdfRowValid(db, e); }
    forall e | e in later.samples ensures SampleRowValid(later, e) { assert SampleRowValid(db, e); }
  }

  lemma SameEvents(db: Db, r: ReviewRow, paper: string)
    ensures DecisionEvents(WithReview(db, r), paper) == DecisionEvents(db, paper)
    ensures forall e: DecisionRow :: ExecutionSourceOf(WithReview(db, r), paper, Some(e)) == ExecutionSourceOf(db, paper, Some(e))
  {
  }

  /**
   * Neither the schema nor the checker looks at the order of the verdicts: appended to a coherent store, a passing
   * review of an extraction that failed one before is accepted by both, although no service writes it.
   */
  lemma PassAfterFailIsAccepted(db: Db, r: ReviewRow)
    requires DbOk(db) && VersionsNamed(db.pdfs) && r.passed && ReviewFailed(db.reviews, r.identity.fingerprint)
    requires ReviewsAgree(db.reviews, r.identity)
    requires r.checks.Keys == LAYOUT_CHECKS && AllPassed(r.checks) && Required(r.note) && Required(r.actor)
    requires r.request == ReviewRequest(r.identity, r.passed, r.checks, r.note, r.actor)
    requires forall s :: s in db.reviews ==> s.id != r.id && s.requestId != r.requestId
    ensures SchemaOk(WithReview(db, r)) && BodyValid(WithReview(db, r)) && !DbOk(WithReview(db, r))
  {
    hide DbOk;
    hide InputValid;
    CoherentStorePasses(db);
    BodyValidParts(db);
    OthersStayValid(db, r);
    var later := WithReview(db, r);
    forall f | f in later.inputs ensures InputValid(later, f) { InputStaysValid(db, r, f); }
    forall s | s in later.reviews ensures ReviewValid(later, s) { ReviewStaysValid(db, r, s); }
    assert BodyValid(later);
    OutOfOrder(db, r);
    SchemaHolds(db);
    SchemaStays(db, r);
  }

  lemma SchemaStays(db: Db, r: ReviewRow)
    requires SchemaOk(db) && ReviewFailed(db.reviews, r.identity.fingerprint)
    requires forall s :: s in db.reviews ==> s.id != r.id && s.requestId != r.requestId
    ensures SchemaOk(WithReview(db, r))
  {
    hide Distinct;
    hide DistinctIds;
    var later := db.reviews + [r];
    forall i, j | 0 <= i < j < |later| ensures later[i].id != later[j].id && later[i].requestId != later[j].requestId {
      assert db.reviews[i] in db.reviews;
    }
  }

  lemma ReviewStaysValid(db: Db, r: ReviewRow, s: ReviewRow)
    requires ReviewFailed(db.reviews, r.identity.fingerprint) && ReviewsAgree(db.reviews, r.identity)
    requires r.checks.Keys == LAYOUT_CHECKS && (r.passed <==> AllPassed(r.checks)) && Required(r.note) && Required(r.actor)
    requires r.request == ReviewRequest(r.identity, r.passed, r.checks, r.note, r.actor)
    requires forall o :: o in db.reviews ==> ReviewValid(db, o)
    requires s in db.reviews || s == r
    ensures ReviewValid(WithReview(db, r), s)
  {
    hide ExtractionView;
    hide Required;
    ViewUnmoved(db, r, s.identity.fingerprint);
    var some :| 0 <= some < |db.reviews| && db.reviews[some].identity.fingerprint == r.identity.fingerprint && !db.reviews[some].passed;
    assert ReviewValid(db, db.reviews[some]);
  }

  lemma OutOfOrder(db: Db, r: ReviewRow)
    requires r.passed && ReviewFailed(db.reviews, r.identity.fingerprint)
    ensures !DbOk(WithReview(db, r))
  {
    var some :| 0 <= some < |db.reviews| && db.reviews[some].identity.fingerprint == r.identity.fingerprint && !db.reviews[some].passed;
    var later := db.reviews + [r];
    assert later[some] == db.reviews[some] && later[|db.reviews|] == r;
    assert !ReviewOrder(later);
  }
}

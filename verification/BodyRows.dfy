/** What the queries over the Body tables answer on a coherent store, read off the rows themselves. */
module BodyRows {
  import opened Prelude
  import opened Ledger
  import opened BodyModel
  import opened BodyQueries
  import opened BodyTransactions
  import opened BodyInvariant
  import opened BodyPreservation

  // ----- the newest row -------------------------------------------------------------------------

  ghost predicate Concerns<Q, B>(e: Entry<Q, B>, paper: string, version: Option<string>) {
    e.paper == paper && (version.None? || version == Some(e.version))
  }

  /** The row of the paper, and of the version if one is named, with the greatest sequence number. */
  ghost predicate Newest<Q, B>(rows: seq<Entry<Q, B>>, paper: string, version: Option<string>, e: Entry<Q, B>) {
    && e in rows && Concerns(e, paper, version)
    && forall o :: o in rows && Concerns(o, paper, version) ==> o.sequence <= e.sequence
  }

  lemma {:induction false} HistoryGrows<Q, B>(rows: seq<Entry<Q, B>>, later: seq<Entry<Q, B>>, paper: string)
    requires rows <= later
    ensures |History(rows, paper)| <= |History(later, paper)|
  {
    if rows != later {
      assert rows <= later[..|later| - 1];
      HistoryGrows(rows, later[..|later| - 1], paper);
    }
  }

  lemma {:induction false} PrefixesContiguous<Q, B>(rows: seq<Entry<Q, B>>, n: nat)
    requires Contiguous(rows) && n <= |rows|
    ensures Contiguous(rows[..n])
    decreases |rows|
  {
    if n == |rows| {
      assert rows[..n] == rows;
    } else {
      PrefixContiguous(rows);
      assert rows[..|rows| - 1][..n] == rows[..n];
      PrefixesContiguous(rows[..|rows| - 1], n);
    }
  }

  /** Of two rows of one paper the later one has the greater sequence number. */
  lemma LaterIsGreater<Q, B>(rows: seq<Entry<Q, B>>, i: nat, j: nat)
    requires Contiguous(rows) && i < j < |rows| && rows[i].paper == rows[j].paper
    ensures rows[i].sequence < rows[j].sequence
  {
    SequenceIsPosition(rows, i);
    SequenceIsPosition(rows, j);
    assert rows[..i + 1] <= rows[..j];
    HistoryGrows(rows[..i + 1], rows[..j], rows[i].paper);
    assert rows[..j + 1] == rows[..j] + [rows[j]];
    HistoryOfAppend(rows[..j], rows[j], rows[j].paper);
  }

  lemma SequenceIsPosition<Q, B>(rows: seq<Entry<Q, B>>, i: nat)
    requires Contiguous(rows) && i < |rows|
    ensures rows[i].sequence == |History(rows[..i + 1], rows[i].paper)|
  {
    PrefixesContiguous(rows, i + 1);
    var all := History(rows[..i + 1], rows[i].paper);
    assert rows[..i + 1] == rows[..i] + [rows[i]];
    HistoryOfAppend(rows[..i], rows[i], rows[i].paper);
    assert all == CountingUp(|all|);
    assert all[|all| - 1] == rows[i].sequence;
  }

  lemma OneNewest<Q, B>(rows: seq<Entry<Q, B>>, paper: string, version: Option<string>, a: Entry<Q, B>, b: Entry<Q, B>)
    requires Contiguous(rows) && Newest(rows, paper, version, a) && Newest(rows, paper, version, b)
    ensures a == b
  {
    var i :| 0 <= i < |rows| && rows[i] == a;
    var j :| 0 <= j < |rows| && rows[j] == b;
    if i < j { LaterIsGreater(rows, i, j); } else if j < i { LaterIsGreater(rows, j, i); }
  }

  /** The query for the latest row finds the newest one, and nothing exactly when there is none. */
  lemma LatestIsNewest<Q, B>(rows: seq<Entry<Q, B>>, paper: string, version: Option<string>)
    requires Contiguous(rows)
    ensures forall e :: Latest(rows, paper, version) == Some(e) <==> Newest(rows, paper, version, e)
    ensures Latest(rows, paper, version).None? <==> forall e :: e in rows ==> !Concerns(e, paper, version)
  {
    var found := Latest(rows, paper, version);
    assert forall e :: e in rows ==> (Selected(e, paper, version) <==> Concerns(e, paper, version));
    if found.Some? {
      assert Newest(rows, paper, version, found.value);
    }
    forall e | Newest(rows, paper, version, e) ensures found == Some(e) {
      OneNewest(rows, paper, version, found.value, e);
    }
  }

  /** The last row of a paper is its newest. */
  lemma LastIsNewest<Q, B>(rows: seq<Entry<Q, B>>, paper: string)
    requires Contiguous(rows) && RowsOf(rows, paper) != []
    ensures Newest(rows, paper, None, RowsOf(rows, paper)[|RowsOf(rows, paper)| - 1])
  {
    var mine, all := RowsOf(rows, paper), History(rows, paper);
    assert all == CountingUp(|all|);
    forall o | o in rows && Concerns(o, paper, None) ensures o.sequence <= mine[|mine| - 1].sequence {
      var k :| 0 <= k < |mine| && mine[k] == o;
      assert all[k] == k + 1 && all[|mine| - 1] == |mine|;
    }
  }

  // ----- the root -------------------------------------------------------------------------------

  /** The root fact is the one registered row. */
  lemma RootFactIs(db: Db)
    requires DbOk(db)
    ensures RootFact(db) == if db.roots == [] then Root(None, UnknownPurpose, None)
                            else Root(Some(db.roots[0].rootId), db.roots[0].purpose, Some(db.roots[0].at))
    ensures |db.roots| <= 1 && (db.roots != [] ==> !db.roots[0].purpose.UnknownPurpose?)
  {
    assert db.roots != [] ==> db.roots[0] in db.roots;
  }

  // ----- PDFs -----------------------------------------------------------------------------------

  /** The newest PDF of the paper's current version. */
  ghost predicate CurrentPdfRow(db: Db, paper: string, pdf: PdfRow)
    requires paper in db.papers
  {
    Newest(db.pdfs, paper, Some(db.papers[paper].current), pdf)
  }

  lemma CurrentPdfIs(db: Db, paper: string)
    requires DbOk(db) && paper in db.papers
    ensures forall pdf :: CurrentPdf(db, paper, db.papers[paper].current) == Some(pdf) <==> CurrentPdfRow(db, paper, pdf)
    ensures CurrentPdf(db, paper, db.papers[paper].current).None? <==>
              forall e :: e in db.pdfs ==> !(e.paper == paper && e.version == db.papers[paper].current)
  {
    LatestIsNewest(db.pdfs, paper, Some(db.papers[paper].current));
    forall e | e in db.pdfs
      ensures Concerns(e, paper, Some(db.papers[paper].current)) <==> e.paper == paper && e.version == db.papers[paper].current
    {
    }
  }

  /** The newest sample of the paper, whatever its version. */
  lemma LatestSampleIs(db: Db, paper: string)
    requires DbOk(db)
    ensures forall e :: Latest(db.samples, paper, None) == Some(e) <==> Newest(db.samples, paper, None, e)
  {
    LatestIsNewest(db.samples, paper, None);
  }

  // ----- decisions ------------------------------------------------------------------------------

  /**
   * The decision in force: the newest one of the paper. None is in force for a paper without a name or a current
   * version, or one that has a decision without an id.
   */
  ghost predicate DecisionInForce(db: Db, paper: string, d: DecisionRow)
    requires paper in db.papers
  {
    && paper != "" && db.papers[paper].current != "" && (forall e :: e in db.decisions && e.paper == paper ==> e.id != "")
    && Newest(db.decisions, paper, None, d)
  }

  lemma RowsAreTheEntries<Q, B>(rows: seq<Entry<Q, B>>, paper: string)
    requires Contiguous(rows)
    ensures forall e :: e in RowsOf(rows, paper) <==> e in rows && e.paper == paper
    ensures forall i :: 0 <= i < |RowsOf(rows, paper)| ==> RowsOf(rows, paper)[i].sequence >= 1
    ensures RowsOf(rows, paper) != [] ==> Newest(rows, paper, None, RowsOf(rows, paper)[|RowsOf(rows, paper)| - 1])
  {
    var mine, all := RowsOf(rows, paper), History(rows, paper);
    assert all == CountingUp(|all|);
    forall i | 0 <= i < |mine| ensures mine[i].sequence >= 1 { assert all[i] == i + 1; }
    if mine != [] { LastIsNewest(rows, paper); }
  }

  lemma DecisionsAreContiguous(db: Db, paper: string)
    requires DbOk(db) && paper in db.papers
    ensures Contiguous(db.decisions) && db.papers[paper].revision >= 1
  {
    assert PaperOk(db.papers[paper]);
  }

  lemma EffectiveDecisionIs(db: Db, paper: string)
    requires DbOk(db) && paper in db.papers
    ensures forall d ::
      EffectiveDecision(paper, db.papers[paper], RowsOf(db.decisions, paper)) == Some(d) <==> DecisionInForce(db, paper, d)
  {
    hide DbOk;
    hide RowsOf;
    hide Contiguous;
    hide Newest;
    DecisionsAreContiguous(db, paper);
    RowsAreTheEntries(db.decisions, paper);
    var rows := RowsOf(db.decisions, paper);
    var found := EffectiveDecision(paper, db.papers[paper], rows);
    forall d | DecisionInForce(db, paper, d) ensures found == Some(d) {
      NewestIsAnEntry(db.decisions, paper, d);
      OneNewest(db.decisions, paper, None, d, rows[|rows| - 1]);
    }
  }

  lemma NewestIsAnEntry<Q, B>(rows: seq<Entry<Q, B>>, paper: string, e: Entry<Q, B>)
    requires Newest(rows, paper, None, e)
    ensures e in rows && e.paper == paper
  {
  }

  // ----- extractions ----------------------------------------------------------------------------

  ghost predicate Names(o: Outcome, identity: Identity) {
    o.published.Some? && o.published.value.reading == identity.reading && o.published.value.evidenceMap == identity.evidenceMap
  }

  /** Some settled attempt of the extraction published what the identity names. */
  ghost predicate PublishedRow(db: Db, identity: Identity) {
    exists a :: a in db.attempts && a.fingerprint == identity.fingerprint && a.id in db.outcomes && Names(db.outcomes[a.id], identity)
  }

  /** This extraction succeeded, and no other one of its PDF did. */
  ghost predicate SoleSuccess(db: Db, f: Fingerprint) {
    f in db.successes && forall g :: g in db.successes && g.pdf == f.pdf ==> g == f
  }

  ghost predicate FailedInReview(db: Db, f: Fingerprint) {
    exists r :: r in db.reviews && r.identity.fingerprint == f && !r.passed
  }

  /** Reviewed at least once, and never failed. */
  ghost predicate PassedInReview(db: Db, f: Fingerprint) {
    (exists r :: r in db.reviews && r.identity.fingerprint == f) && !FailedInReview(db, f)
  }

  /** Some settled attempt of the extraction published an artifact with a flaw. */
  ghost predicate FlawPublished(db: Db, f: Fingerprint) {
    exists a :: a in db.attempts && a.fingerprint == f && a.id in db.outcomes && db.outcomes[a.id].flaw.Some?
  }

  /** Only the last attempt of an extraction can have published anything. */
  lemma PublisherIsLast(db: Db, a: Attempt)
    requires DbOk(db) && a in db.attempts && a.id in db.outcomes
    requires db.outcomes[a.id].published.Some? || db.outcomes[a.id].flaw.Some?
    ensures AttemptsOf(db.attempts, a.fingerprint) != [] && a == LastOf(db.attempts, a.fingerprint)
    ensures db.outcomes[a.id].published.Some? && a.fingerprint in db.inputs
  {
    assert OutcomeOk(db.store, a, db.outcomes[a.id]) && AttemptOk(db.inputs, a);
    NotRetriableIsLast(db.inputs, db.attempts, db.outcomes, a);
  }

  /** What an extraction published, if it published anything. */
  lemma PublicationIs(db: Db, f: Fingerprint)
    requires DbOk(db) && f in db.inputs
    ensures AttemptsOf(db.attempts, f) != []
    ensures var p := LastPublication(db, f);
            && (forall i: Identity :: p.Some? && i == Identity(f, p.value.reading, p.value.evidenceMap) <==>
                  i.fingerprint == f && PublishedRow(db, i))
            && (p.Some? && LastOutcome(db, f).value.flaw.Some? <==> FlawPublished(db, f))
  {
    hide DbOk;
    HasRows(db, f);
    var last := LastOf(db.attempts, f);
    assert last in AttemptsOf(db.attempts, f);
    forall i: Identity | i.fingerprint == f && PublishedRow(db, i)
      ensures LastPublication(db, f).Some? && Names(db.outcomes[last.id], i)
    {
      var a :| a in db.attempts && a.fingerprint == f && a.id in db.outcomes && Names(db.outcomes[a.id], i);
      PublisherIsLast(db, a);
    }
    if FlawPublished(db, f) {
      var a :| a in db.attempts && a.fingerprint == f && a.id in db.outcomes && db.outcomes[a.id].flaw.Some?;
      PublisherIsLast(db, a);
    }
  }

  lemma HasRows(db: Db, f: Fingerprint)
    requires DbOk(db) && f in db.inputs
    ensures AttemptsOf(db.attempts, f) != []
  {
    assert ChainOk(AttemptsOf(db.attempts, f), db.outcomes);
  }

  /** An extraction that published, succeeded or was reviewed has an input row. */
  lemma HasInput(db: Db, f: Fingerprint)
    requires DbOk(db)
    ensures forall i: Identity :: PublishedRow(db, i) ==> i.fingerprint in db.inputs
    ensures f in db.successes ==> f in db.inputs
    ensures FlawPublished(db, f) ==> f in db.inputs
    ensures forall r :: r in db.reviews ==> r.identity.fingerprint in db.successes
  {
    forall a | a in db.attempts ensures a.fingerprint in db.inputs { assert AttemptOk(db.inputs, a); }
    if f in db.successes { assert Succeeded(db.attempts, db.outcomes, f, db.successes[f]); }
    forall r | r in db.reviews ensures r.identity.fingerprint in db.successes {
      assert ReviewOk(db.attempts, db.outcomes, db.successes, r);
    }
  }

  lemma InputsNameTheirPdf(db: Db, g: Fingerprint)
    requires DbOk(db) && g in db.inputs
    ensures db.inputs[g].sha == g.pdf
  {
    assert InputOk(db.snapshots, db.pdfs, g, db.inputs[g]);
  }

  lemma SoleSuccessIs(db: Db, f: Fingerprint)
    requires DbOk(db)
    ensures SuccessfulKeys(db, f.pdf) == {f} <==> SoleSuccess(db, f)
  {
    hide DbOk;
    forall g | g in db.successes ensures g in SuccessfulKeys(db, f.pdf) <==> g.pdf == f.pdf {
      HasInput(db, g);
      InputsNameTheirPdf(db, g);
    }
    if SuccessfulKeys(db, f.pdf) == {f} {
      forall g | g in db.successes && g.pdf == f.pdf ensures g == f { assert g in SuccessfulKeys(db, f.pdf); }
      assert f in SuccessfulKeys(db, f.pdf);
    }
  }

  lemma ReviewsAre(reviews: seq<ReviewRow>, f: Fingerprint)
    ensures Reviewed(reviews, f) <==> exists r :: r in reviews && r.identity.fingerprint == f
    ensures ReviewFailed(reviews, f) <==> exists r :: r in reviews && r.identity.fingerprint == f && !r.passed
  {
    if r :| r in reviews && r.identity.fingerprint == f {
      var i :| 0 <= i < |reviews| && reviews[i] == r;
    }
    if r :| r in reviews && r.identity.fingerprint == f && !r.passed {
      var i :| 0 <= i < |reviews| && reviews[i] == r;
    }
  }
}

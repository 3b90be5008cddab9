/** Every transaction keeps the invariant and only appends. */
module BodyPreservation {
  import opened Prelude
  import opened Ledger
  import opened BodyModel
  import opened BodyQueries
  import opened BodyTransactions
  import opened BodyInvariant

  // ----- appending only --------------------------------------------------------------------------

  lemma NothingGrows(db: Db)
    ensures Grows(db, db)
  {
  }

  lemma RootAppended(db: Db, row: RootRow)
    requires db.roots == []
    ensures Grows(db, db.(roots := [row]))
  {
  }

  lemma PdfAppended(db: Db, row: PdfRow)
    ensures Grows(db, db.(pdfs := db.pdfs + [row]))
  {
  }

  lemma DecisionAppended(db: Db, row: DecisionRow)
    ensures Grows(db, db.(decisions := db.decisions + [row]))
  {
  }

  lemma SampleAppended(db: Db, row: SampleRow)
    ensures Grows(db, db.(samples := db.samples + [row]))
  {
  }

  // ----- root, attachments, decisions, samples ---------------------------------------------------

  lemma RegisterRootKeeps(db: Db, purpose: RootPurpose, id: string, now: int)
    requires DbOk(db)
    ensures DbOk(RegisterRoot(db, purpose, id, now).db)
  {
    if db.samples != [] {
      assert db.roots[0] in db.roots;
    }
  }

  lemma RegisterRootGrows(db: Db, purpose: RootPurpose, id: string, now: int)
    ensures Grows(db, RegisterRoot(db, purpose, id, now).db)
  {
    hide Grows;
    NothingGrows(db);
    if RegisterRoot(db, purpose, id, now).db != db {
      RootAppended(db, RootRow(id, purpose, now, (id, purpose, now)));
    }
  }

  lemma AttachWriteGrows(db: Db, call: AttachCall, selected: string, id: string, now: int)
    ensures Grows(db, AttachWrite(db, call, selected, id, now).db)
  {
    hide Grows;
    NothingGrows(db);
    PdfAppended(db, PdfRowFor(db, call, selected, id, now));
  }

  lemma DecideGrows(db: Db, call: DecideCall, id: string, now: int)
    ensures Grows(db, Decide(db, call, id, now).db)
  {
    hide Grows;
    NothingGrows(db);
    if call.paper in db.papers {
      DecisionAppended(db, DecisionRowFor(db, call, id, now));
    }
  }

  lemma FreezeGrows(db: Db, call: FreezeCall, id: string, now: int)
    ensures Grows(db, FreezeSample(db, call, id, now).db)
  {
    hide Grows;
    NothingGrows(db);
    var t := FreezeSample(db, call, id, now);
    if t.db != db {
      SampleAppended(db, t.reply.value);
    }
  }

  /** A row `Admits` lets in, with the next sequence number of its paper. */
  ghost predicate NextRow<Q, B>(rows: seq<Entry<Q, B>>, e: Entry<Q, B>) {
    Admits(rows, e) && e.sequence == NextSequence(rows, e.paper)
  }

  lemma AttachWriteKeeps(db: Db, call: AttachCall, selected: string, id: string, now: int)
    requires DbOk(db) && call.Acceptable()
    requires call.paper in db.papers && selected in db.papers[call.paper].versions
    requires NamesVersion(call.version) ==> call.version.value == selected
    requires OriginalPdf(call.pdf) in db.store
    ensures var t := AttachWrite(db, call, selected, id, now);
            DbOk(t.db) && (t.reply.Ok? ==> t.reply.value in t.db.pdfs && t.reply.value.requestId == call.requestId)
  {
    hide DbOk;
    var t, row := AttachWrite(db, call, selected, id, now), PdfRowFor(db, call, selected, id, now);
    if t.db != db {
      PdfRowKeeps(db, row);
    }
  }

  lemma PdfRowKeeps(db: Db, row: PdfRow)
    requires DbOk(db) && NextRow(db.pdfs, row) && PdfOk(db.papers, db.store, row)
    ensures DbOk(db.(pdfs := db.pdfs + [row]))
  {
    AppendKeeps(db.pdfs, row);
    PdfsOnlyAdd(db, db.pdfs + [row]);
  }

  lemma DecisionRowKeeps(db: Db, row: DecisionRow)
    requires DbOk(db) && NextRow(db.decisions, row) && DecisionOk(db.papers, db.screenings, row)
    ensures DbOk(db.(decisions := db.decisions + [row]))
  {
    AppendKeeps(db.decisions, row);
  }

  lemma SampleRowKeeps(db: Db, row: SampleRow)
    requires DbOk(db) && NextRow(db.samples, row) && SampleOk(db.papers, db.pdfs, row)
    requires |db.roots| == 1 && db.roots[0].purpose.Experiment?
    ensures DbOk(db.(samples := db.samples + [row]))
  {
    AppendKeeps(db.samples, row);
  }

  /** Rows that rest on a PDF row keep resting on it when more PDFs are attached. */
  lemma PdfsOnlyAdd(db: Db, pdfs: seq<PdfRow>)
    requires db.pdfs <= pdfs
    requires SamplesOk(db.papers, db.roots, db.pdfs, db.samples) && InputsOk(db.snapshots, db.pdfs, db.inputs)
    ensures SamplesOk(db.papers, db.roots, pdfs, db.samples) && InputsOk(db.snapshots, pdfs, db.inputs)
  {
  }

  lemma EventsAreTheRows(db: Db, paper: string)
    requires paper in db.papers && DecisionsOk(db.papers, db.screenings, db.decisions)
    ensures DecisionEvents(db, paper) == Ok(RowsOf(db.decisions, paper))
  {
    OrderIsInsertionOrder(db.decisions, paper);
    var events, all := RowsOf(db.decisions, paper), History(db.decisions, paper);
    assert all == CountingUp(|all|);
    forall i | 0 <= i < |events| ensures DirectAndValid(events[i].body.record) {
      assert DecisionOk(db.papers, db.screenings, events[i]);
    }
  }

  lemma RowsOfAppend<Q, B>(rows: seq<Entry<Q, B>>, e: Entry<Q, B>)
    ensures RowsOf(rows + [e], e.paper) == RowsOf(rows, e.paper) + [e]
  {
  }

  lemma DecideKeeps(db: Db, call: DecideCall, id: string, now: int)
    requires DbOk(db)
    ensures var t := Decide(db, call, id, now);
            DbOk(t.db) && (t.reply.Ok? ==> t.reply.value in t.db.decisions && t.reply.value.requestId == call.requestId)
  {
    hide DbOk;
    var t := Decide(db, call, id, now);
    if call.Acceptable() && Find(db.decisions, call.requestId).Some? {
      if Find(db.decisions, call.requestId).value.request == call.Request() {
        ReplayedDecision(db, call, id, now);
      }
    } else if call.Acceptable() && call.paper in db.papers && ReferencesOk(db, call.paper, call.references) {
      var row := DecisionRowFor(db, call, id, now);
      if Admits(db.decisions, row) {
        DecisionRowKeeps(db, row);
        AppendedEventIsLast(db, row);
      }
    }
  }

  lemma AppendedEventIsLast(db: Db, row: DecisionRow)
    requires DbOk(db.(decisions := db.decisions + [row])) && row.paper in db.papers
    ensures DecisionEvents(db.(decisions := db.decisions + [row]), row.paper) == Ok(RowsOf(db.decisions, row.paper) + [row])
  {
    EventsAreTheRows(db.(decisions := db.decisions + [row]), row.paper);
    RowsOfAppend(db.decisions, row);
  }

  /** Repeating a decision adds nothing and answers with the stored row. */
  lemma ReplayedDecision(db: Db, call: DecideCall, id: string, now: int)
    requires DbOk(db) && call.Acceptable()
    requires Find(db.decisions, call.requestId).Some? && Find(db.decisions, call.requestId).value.request == call.Request()
    ensures Decide(db, call, id, now) == Tx(db, Ok(Find(db.decisions, call.requestId).value))
  {
    var row := Find(db.decisions, call.requestId).value;
    assert DecisionOk(db.papers, db.screenings, row);
    EventsAreTheRows(db, call.paper);
    var events := RowsOf(db.decisions, call.paper);
    RowsOfDistinct(db.decisions, call.paper);
    FindIdOfMember(events, row);
  }

  lemma {:induction false} RowsOfDistinct<Q, B>(rows: seq<Entry<Q, B>>, paper: string)
    requires Distinct(rows)
    ensures Distinct(RowsOf(rows, paper))
  {
    if rows != [] {
      var front := rows[..|rows| - 1];
      RowsOfDistinct(front, paper);
      forall e | e in RowsOf(front, paper)
        ensures e.id != rows[|rows| - 1].id && e.requestId != rows[|rows| - 1].requestId
      {
        var i :| 0 <= i < |front| && front[i] == e;
      }
    }
  }

  lemma FreezeKeeps(db: Db, call: FreezeCall, id: string, now: int)
    requires DbOk(db)
    ensures var t := FreezeSample(db, call, id, now);
            DbOk(t.db) && (t.reply.Ok? ==> t.reply.value in t.db.samples && t.reply.value.requestId == call.requestId)
  {
    hide DbOk;
    var t := FreezeSample(db, call, id, now);
    if t.db != db {
      var pdf := CurrentPdf(db, call.paper, db.papers[call.paper].current).value;
      assert PdfKnown(db.pdfs, call.paper, pdf.version, call.sha);
      SampleRowKeeps(db, SampleRowFor(db, call, pdf.version, id, now));
    }
  }
}

/** The failure sidecar beside the receipt: what the hooks write and what the reader accepts. */
module FailureSidecar {
  import opened Prelude
  import opened TextOrder
  import opened TestReceipt

  /** A module that failed, and the phase in which. */
  type Failure = (string, string)

  const PHASES: set<string> := {"setup", "call", "teardown", "collection"}

  predicate Precedes(a: Failure, b: Failure) {
    Less(a.0, b.0) || (a.0 == b.0 && Less(a.1, b.1))
  }

  predicate Ascending(rows: seq<Failure>) {
    forall i, j :: 0 <= i < j < |rows| ==> Precedes(rows[i], rows[j])
  }

  /** `sorted(failures)` of a set. */
  ghost predicate Lists(rows: seq<Failure>, failures: set<Failure>) {
    Ascending(rows) && forall f :: f in rows <==> f in failures
  }

  lemma PrecedesIsOrder(a: Failure, b: Failure, c: Failure)
    ensures Precedes(a, b) && Precedes(b, c) ==> Precedes(a, c)
    ensures a == b || Precedes(a, b) || Precedes(b, a)
    ensures !Precedes(a, a)
  {
    if Less(a.0, b.0) && Less(b.0, c.0) { LessIsTransitive(a.0, b.0, c.0); }
    if Less(a.1, b.1) && Less(b.1, c.1) { LessIsTransitive(a.1, b.1, c.1); }
    LessIsTotal(a.0, b.0);
    LessIsTotal(a.1, b.1);
    LessIsStrict(a.0, a.0);
    LessIsStrict(a.1, a.1);
  }

  function Insert(x: Failure, rows: seq<Failure>): seq<Failure> {
    if rows == [] then [x] else if Precedes(x, rows[0]) then [x] + rows else [rows[0]] + Insert(x, rows[1..])
  }

  lemma {:induction false} InsertLists(x: Failure, rows: seq<Failure>, failures: set<Failure>)
    requires Lists(rows, failures) && x !in failures
    ensures Lists(Insert(x, rows), failures + {x})
    decreases |rows|
  {
    hide Precedes;
    if rows != [] {
      assert rows[0] in failures;
      if Precedes(x, rows[0]) {
        forall j | 0 <= j < |rows| ensures Precedes(x, rows[j]) { PrecedesIsOrder(x, rows[0], rows[j]); }
      } else {
        PrecedesIsOrder(x, rows[0], x);
        TailLists(rows, failures);
        InsertLists(x, rows[1..], failures - {rows[0]});
        var rest := Insert(x, rows[1..]);
        forall j | 0 <= j < |rest| ensures Precedes(rows[0], rest[j]) {
          assert rest[j] in rest;
          if rest[j] != x {
            var k :| 0 <= k < |rows[1..]| && rows[1..][k] == rest[j];
            assert rows[k + 1] == rest[j];
          }
        }
      }
    }
  }

  lemma TailLists(rows: seq<Failure>, failures: set<Failure>)
    requires rows != [] && Lists(rows, failures)
    ensures Lists(rows[1..], failures - {rows[0]})
  {
    hide Precedes;
    forall f ensures f in rows[1..] <==> f in failures - {rows[0]} {
      if f in rows[1..] {
        var i :| 0 <= i < |rows[1..]| && rows[1..][i] == f;
        assert rows[i + 1] == f && Precedes(rows[0], rows[i + 1]);
        PrecedesIsOrder(f, f, f);
      }
      assert rows == [rows[0]] + rows[1..];
    }
    forall i, j | 0 <= i < j < |rows[1..]| ensures Precedes(rows[1..][i], rows[1..][j]) {
      assert rows[1..][i] == rows[i + 1] && rows[1..][j] == rows[j + 1];
    }
  }

  method Sort(failures: set<Failure>) returns (rows: seq<Failure>)
    ensures Lists(rows, failures)
  {
    rows := [];
    var left := failures;
    while left != {}
      invariant left <= failures && Lists(rows, failures - left)
      decreases left
    {
      var x :| x in left;
      InsertLists(x, rows, failures - left);
      rows, left := Insert(x, rows), left - {x};
      assert failures - left == failures - (left + {x}) + {x};
    }
  }

  // ----- the files ------------------------------------------------------------------------------

  /** The receipt; its SHA-256 stands for its bytes, and equal bytes mean equal receipts. */
  datatype ReceiptFile = ReceiptFile(version: int, runId: string, completed: bool, exitCode: Option<int>,
                                     modules: map<string, Counters>)

  /** A row of the failure list as JSON gives it: two texts, or anything else. */
  datatype Row = Pair(name: string, phase: string) | OtherRow

  /** A sidecar: unreadable, or with the four keys, or with other ones. */
  datatype Sidecar =
    | NoSidecar
    | Unreadable
    | OtherKeys
    | Document(version: int, runId: string, receipt: ReceiptFile, rows: seq<Row>)

  function Rows(failures: seq<Failure>): (r: seq<Row>)
    ensures |r| == |failures| && forall i :: 0 <= i < |r| ==> r[i] == Pair(failures[i].0, failures[i].1)
  {
    seq(|failures|, i requires 0 <= i < |failures| => Pair(failures[i].0, failures[i].1))
  }

  // ----- the reader -----------------------------------------------------------------------------

  predicate RowOk(r: Row, allowed: set<string>) {
    r.Pair? && r.name in allowed && r.phase in PHASES
  }

  /** Everything the reader asks of a sidecar. */
  predicate Acceptable(receipt: Option<ReceiptFile>, sidecar: Sidecar, runId: string, allowed: set<string>) {
    && receipt.Some? && receipt.value.runId == runId && receipt.value.version == 1
    && sidecar.Document? && sidecar.version == 1 && sidecar.runId == runId && sidecar.receipt == receipt.value
    && sidecar.rows != [] && |sidecar.rows| <= 4 * |allowed|
    && (forall i :: 0 <= i < |sidecar.rows| ==> RowOk(sidecar.rows[i], allowed))
    && forall i, j :: 0 <= i < j < |sidecar.rows| ==>
         Precedes((sidecar.rows[i].name, sidecar.rows[i].phase), (sidecar.rows[j].name, sidecar.rows[j].phase))
  }

  method ReadDiagnostics(receipt: Option<ReceiptFile>, sidecar: Sidecar, runId: string, allowed: set<string>)
    returns (result: seq<Failure>)
    ensures Acceptable(receipt, sidecar, runId, allowed) ==> result != [] && Rows(result) == sidecar.rows
    ensures !Acceptable(receipt, sidecar, runId, allowed) ==> result == []
    ensures Ascending(result) && forall f :: f in result ==> f.0 in allowed && f.1 in PHASES
  {
    hide Precedes;
    if receipt.None? || receipt.value.runId != runId || receipt.value.version != 1
       || !sidecar.Document? || sidecar.version != 1 || sidecar.runId != runId || sidecar.receipt != receipt.value
    {
      return [];
    }
    var rows := sidecar.rows;
    if rows == [] || |rows| > 4 * |allowed| {
      return [];
    }
    result := [];
    for i := 0 to |rows|
      invariant |result| == i && forall k :: 0 <= k < i ==> RowOk(rows[k], allowed) && result[k] == (rows[k].name, rows[k].phase)
    {
      if !RowOk(rows[i], allowed) {
        return [];
      }
      result := result + [(rows[i].name, rows[i].phase)];
    }
    if !Ascending(result) {
      NotAscending(result, rows);
      return [];
    }
    assert Rows(result) == rows;
  }

  lemma NotAscending(result: seq<Failure>, rows: seq<Row>)
    requires |result| == |rows| && !Ascending(result)
    requires forall k :: 0 <= k < |rows| ==> rows[k].Pair? && result[k] == (rows[k].name, rows[k].phase)
    ensures exists i, j :: 0 <= i < j < |rows| && !Precedes((rows[i].name, rows[i].phase), (rows[j].name, rows[j].phase))
  {
  }

  // ----- sequences of hooks ---------------------------------------------------------------------

  /** What a hook does: replace the receipt and then the sidecar, or record a failed report. */
  datatype Hook =
    | Replaces(completed: bool, exitCode: Option<int>, modules: map<string, Counters>, works: bool)
    | Fails(nodeid: string, phase: string, works: bool)

  /** What a failed report records. */
  function RecordedOne(h: Hook, allowed: set<string>): set<Failure> {
    if h.Fails? && ModuleOf(h.nodeid) in allowed && h.phase in PHASES then {(ModuleOf(h.nodeid), h.phase)} else {}
  }

  function RecordedBy(hooks: seq<Hook>, allowed: set<string>): set<Failure> {
    if hooks == [] then {} else RecordedBy(hooks[..|hooks| - 1], allowed) + RecordedOne(hooks[|hooks| - 1], allowed)
  }

  /** Since some hook replaced the receipt, no write of the sidecar failed. */
  ghost predicate WrittenSince(hooks: seq<Hook>) {
    exists i :: 0 <= i < |hooks| && hooks[i].Replaces? && forall j :: i <= j < |hooks| ==> hooks[j].works
  }

  lemma NothingWritten()
    ensures !WrittenSince([])
  {
  }

  lemma RecordedMore(hooks: seq<Hook>, k: nat, allowed: set<string>)
    requires k < |hooks|
    ensures RecordedBy(hooks[..k + 1], allowed) == RecordedBy(hooks[..k], allowed) + RecordedOne(hooks[k], allowed)
  {
    assert hooks[..k + 1][..k] == hooks[..k];
  }

  lemma WrittenBefore(hooks: seq<Hook>, k: nat)
    requires k < |hooks| && WrittenSince(hooks[..k + 1])
    ensures hooks[k].works && (hooks[k].Fails? ==> WrittenSince(hooks[..k]))
  {
    var before, now := hooks[..k], hooks[..k + 1];
    assert now == before + [hooks[k]];
    var i :| 0 <= i < |now| && now[i].Replaces? && forall j :: i <= j < |now| ==> now[j].works;
    assert now[k] == hooks[k];
    if hooks[k].Fails? {
      assert before[i] == now[i];
      forall j | i <= j < |before| ensures before[j].works { assert now[j] == before[j]; }
    }
  }

  // ----- the writer -----------------------------------------------------------------------------

  /** The receipt and its diagnostics, with the two files they keep. */
  class Diagnostics {
    const runId: string
    const allowed: set<string>
    var failures: set<Failure>
    var receipt: Option<ReceiptFile>
    var sidecar: Sidecar

    constructor (runId: string, allowed: set<string>)
      ensures Valid() && this.runId == runId && this.allowed == allowed && failures == {}
    {
      this.runId, this.allowed, failures, receipt, sidecar := runId, allowed, {}, None, NoSidecar;
    }

    /** Only failures of allowed modules are kept, and whatever the sidecar says was recorded. */
    ghost predicate Valid()
      reads this
    {
      && (forall f :: f in failures ==> f.0 in allowed && f.1 in PHASES)
      && (sidecar.NoSidecar? || (sidecar.Document? && forall r :: r in sidecar.rows ==> r.Pair? && (r.name, r.phase) in failures))
      && (receipt.Some? ==> receipt.value.runId == runId && receipt.value.version == 1)
    }

    /** The sidecar belongs to the present receipt and lists every recorded failure once, in order. */
    ghost predicate Bound()
      reads this
    {
      failures != {} ==>
        && receipt.Some?
        && exists rows :: Lists(rows, failures) && sidecar == Document(1, runId, receipt.value, Rows(rows))
    }

    /** Write the sidecar; a failure to write is silent and leaves the old one. */
    method Write(works: bool)
      requires Valid()
      modifies `sidecar
      ensures Valid() && (works && receipt.Some? ==> Bound())
    {
      if failures == {} {
        return;
      }
      if receipt.None? || !works {
        return;
      }
      var rows := Sort(failures);
      sidecar := Document(1, runId, receipt.value, Rows(rows));
      forall r | r in sidecar.rows ensures r.Pair? && (r.name, r.phase) in failures {
        var i :| 0 <= i < |sidecar.rows| && sidecar.rows[i] == r;
        assert rows[i] in rows;
      }
    }

    /** A failed report: kept if its module is allowed. */
    method Record(nodeid: string, phase: string, works: bool)
      requires Valid()
      modifies `failures, `sidecar
      ensures Valid()
      ensures failures == old(failures) + if ModuleOf(nodeid) in allowed && phase in PHASES then {(ModuleOf(nodeid), phase)} else {}
      ensures works && receipt.Some? && old(Bound()) ==> Bound()
    {
      var name := ModuleOf(nodeid);
      if name in allowed && phase in PHASES {
        failures := failures + {(name, phase)};
        Write(works);
      }
    }

    /** Every hook that changes the counters replaces the receipt, and then the sidecar. */
    method WriteReceipt(completed: bool, exitCode: Option<int>, modules: map<string, Counters>, works: bool)
      requires Valid()
      modifies `receipt, `sidecar
      ensures Valid() && receipt == Some(ReceiptFile(1, runId, completed, exitCode, modules))
      ensures works ==> Bound()
    {
      receipt := Some(ReceiptFile(1, runId, completed, exitCode, modules));
      Write(works);
    }

    /** Reading back at any moment yields nothing but recorded failures; while the sidecar is bound, all of them. */
    method ReadBack() returns (result: seq<Failure>)
      requires Valid()
      ensures forall f :: f in result ==> f in failures
      ensures Bound() ==> Lists(result, failures)
    {
      hide Precedes;
      result := ReadDiagnostics(receipt, sidecar, runId, allowed);
      if Acceptable(receipt, sidecar, runId, allowed) {
        forall f | f in result ensures f in failures {
          var i :| 0 <= i < |result| && result[i] == f;
          assert Rows(result)[i] in sidecar.rows;
        }
      }
      if Bound() && failures != {} {
        BoundIsAcceptable(failures, allowed, receipt, sidecar, runId);
        var rows :| Lists(rows, failures) && sidecar == Document(1, runId, receipt.value, Rows(rows));
        SameRows(rows, result);
      }
    }

    /**
     * Any sequence of hooks, read back at its end, and so after each of them: whatever is read was recorded, and
     * if no sidecar write failed since some hook replaced the receipt, everything recorded is read.
     */
    method RunHooks(hooks: seq<Hook>) returns (result: seq<Failure>)
      requires Valid() && failures == {}
      modifies `failures, `receipt, `sidecar
      ensures Valid() && failures == RecordedBy(hooks, allowed)
      ensures forall f :: f in result ==> f in failures
      ensures WrittenSince(hooks) ==> Bound() && Lists(result, failures)
    {
      hide Bound;
      hide Lists;
      hide WrittenSince;
      NothingWritten();
      for k := 0 to |hooks|
        invariant Valid() && failures == RecordedBy(hooks[..k], allowed)
        invariant WrittenSince(hooks[..k]) ==> receipt.Some? && Bound()
      {
        RecordedMore(hooks, k, allowed);
        if WrittenSince(hooks[..k + 1]) {
          WrittenBefore(hooks, k);
        }
        match hooks[k] {
          case Replaces(completed, exitCode, modules, works) => WriteReceipt(completed, exitCode, modules, works);
          case Fails(nodeid, phase, works) => Record(nodeid, phase, works);
        }
      }
      assert hooks[..|hooks|] == hooks;
      result := ReadBack();
    }
  }

  lemma SameRows(a: seq<Failure>, b: seq<Failure>)
    requires Rows(a) == Rows(b)
    ensures a == b
  {
  }

  /** There are at most four failures to an allowed module. */
  lemma FourPerModule(failures: set<Failure>, allowed: set<string>)
    requires forall f :: f in failures ==> f.0 in allowed && f.1 in PHASES
    ensures |failures| <= 4 * |allowed|
    decreases allowed
  {
    if allowed == {} {
      assert failures == {};
    } else {
      var m :| m in allowed;
      var here := set f | f in failures && f.0 == m;
      var all := {(m, "setup"), (m, "call"), (m, "teardown"), (m, "collection")};
      assert here <= all;
      SmallerSet(here, all);
      FourPerModule(failures - here, allowed - {m});
    }
  }

  lemma {:induction false} SmallerSet(a: set<Failure>, b: set<Failure>)
    requires a <= b
    ensures |a| <= |b|
    decreases a
  {
    if a != {} {
      var x :| x in a;
      SmallerSet(a - {x}, b - {x});
    }
  }

  lemma {:induction false} AscendingLength(rows: seq<Failure>, failures: set<Failure>)
    requires Lists(rows, failures)
    ensures |rows| == |failures|
    decreases |rows|
  {
    if rows == [] {
      assert failures == {};
    } else {
      assert rows[0] in failures;
      TailLists(rows, failures);
      AscendingLength(rows[1..], failures - {rows[0]});
    }
  }

  /** The reader never refuses a bound sidecar: its row limit cannot be exceeded. */
  lemma BoundIsAcceptable(failures: set<Failure>, allowed: set<string>, receipt: Option<ReceiptFile>, sidecar: Sidecar, runId: string)
    requires forall f :: f in failures ==> f.0 in allowed && f.1 in PHASES
    requires failures != {} && receipt.Some? && receipt.value.runId == runId && receipt.value.version == 1
    requires exists rows :: Lists(rows, failures) && sidecar == Document(1, runId, receipt.value, Rows(rows))
    ensures Acceptable(receipt, sidecar, runId, allowed)
  {
    hide Precedes;
    var rows :| Lists(rows, failures) && sidecar == Document(1, runId, receipt.value, Rows(rows));
    FourPerModule(failures, allowed);
    AscendingLength(rows, failures);
    forall i | 0 <= i < |sidecar.rows| ensures RowOk(sidecar.rows[i], allowed) {
      assert rows[i] in rows;
    }
  }
}

/**
 * The shape shared by the append-only request tables (PDF attachments, decisions, samples): every row
 * carries its own id, the id and the digest of the request that made it, and a per-paper sequence number.
 */
module Ledger {
  import opened Prelude

  datatype Entry<Q, B> = Entry(id: string, requestId: string, request: Q, paper: string, version: string,
                               sequence: int, at: int, body: B)

  /** The sequence column of one paper, in insertion order. */
  function History<Q, B>(rows: seq<Entry<Q, B>>, paper: string): (r: seq<int>)
    ensures |r| <= |rows|
  {
    if rows == [] then [] else
      var last := rows[|rows| - 1];
      History(rows[..|rows| - 1], paper) + (if last.paper == paper then [last.sequence] else [])
  }

  /** `coalesce(max(sequence), 0)` over one paper. */
  function MaxSequence<Q, B>(rows: seq<Entry<Q, B>>, paper: string): int {
    if rows == [] then 0 else
      var last, rest := rows[|rows| - 1], MaxSequence(rows[..|rows| - 1], paper);
      if last.paper == paper && last.sequence > rest then last.sequence else rest
  }

  function NextSequence<Q, B>(rows: seq<Entry<Q, B>>, paper: string): int {
    MaxSequence(rows, paper) + 1
  }

  function Find<Q, B>(rows: seq<Entry<Q, B>>, requestId: string): (r: Option<Entry<Q, B>>)
    ensures r.Some? ==> r.value in rows && r.value.requestId == requestId
    ensures r.None? ==> forall e :: e in rows ==> e.requestId != requestId
  {
    if rows == [] then None
    else if rows[0].requestId == requestId then Some(rows[0])
    else Find(rows[1..], requestId)
  }

  function FindId<Q, B>(rows: seq<Entry<Q, B>>, id: string): (r: Option<Entry<Q, B>>)
    ensures r.Some? ==> r.value in rows && r.value.id == id
    ensures r.None? ==> forall e :: e in rows ==> e.id != id
  {
    if rows == [] then None
    else if rows[0].id == id then Some(rows[0])
    else FindId(rows[1..], id)
  }

  /** Whether a row belongs to the paper and, when one is asked for, to the version. */
  predicate Selected<Q, B>(e: Entry<Q, B>, paper: string, version: Option<string>) {
    e.paper == paper && (version.Some? ==> e.version == version.value)
  }

  /** `ORDER BY sequence DESC`, first row. */
  function Latest<Q, B>(rows: seq<Entry<Q, B>>, paper: string, version: Option<string>): (r: Option<Entry<Q, B>>)
    ensures r.Some? ==> r.value in rows && Selected(r.value, paper, version)
    ensures forall e :: e in rows && Selected(e, paper, version) ==> r.Some? && e.sequence <= r.value.sequence
  {
    if rows == [] then None else
      var last, rest := rows[|rows| - 1], Latest(rows[..|rows| - 1], paper, version);
      assert rows == rows[..|rows| - 1] + [last];
      if Selected(last, paper, version) && (rest.None? || rest.value.sequence <= last.sequence)
      then Some(last) else rest
  }

  /** The rows of one paper, in insertion order. */
  function RowsOf<Q, B>(rows: seq<Entry<Q, B>>, paper: string): (r: seq<Entry<Q, B>>)
    ensures |r| == |History(rows, paper)|
    ensures forall i :: 0 <= i < |r| ==> r[i] in rows && r[i].paper == paper && r[i].sequence == History(rows, paper)[i]
    ensures forall e :: e in rows && e.paper == paper ==> e in r
  {
    if rows == [] then [] else
      var last := rows[|rows| - 1];
      assert rows == rows[..|rows| - 1] + [last];
      RowsOf(rows[..|rows| - 1], paper) + (if last.paper == paper then [last] else [])
  }

  /** `WHERE paper_id = ? ORDER BY sequence`. */
  function InSequence<Q, B>(rows: seq<Entry<Q, B>>, paper: string): seq<Entry<Q, B>> {
    SortBy(RowsOf(rows, paper), (e: Entry<Q, B>) => e.sequence)
  }

  /** `SELECT sequence ... ORDER BY sequence` over one paper. */
  function SequenceColumn<Q, B>(rows: seq<Entry<Q, B>>, paper: string): seq<int> {
    SortBy(History(rows, paper), (s: int) => s)
  }

  /** Per-paper sequences are 1..n in the order the rows were appended. */
  ghost predicate Contiguous<Q, B>(rows: seq<Entry<Q, B>>) {
    forall p :: History(rows, p) == CountingUp(|History(rows, p)|)
  }

  ghost predicate Distinct<Q, B>(rows: seq<Entry<Q, B>>) {
    forall i, j :: 0 <= i < j < |rows| ==> rows[i].requestId != rows[j].requestId && rows[i].id != rows[j].id
  }

  ghost predicate WellFormed<Q, B>(rows: seq<Entry<Q, B>>) {
    Contiguous(rows) && Distinct(rows)
  }

  /** Appended in order, the rows of a paper already are in sequence order. */
  lemma OrderIsInsertionOrder<Q, B>(rows: seq<Entry<Q, B>>, paper: string)
    requires Contiguous(rows)
    ensures InSequence(rows, paper) == RowsOf(rows, paper)
    ensures SequenceColumn(rows, paper) == History(rows, paper)
  {
    var all, mine := History(rows, paper), RowsOf(rows, paper);
    assert all == CountingUp(|all|);
    assert forall i :: 0 <= i < |mine| ==> mine[i].sequence == all[i];
    SortKeepsAscending(mine, (e: Entry<Q, B>) => e.sequence);
    SortKeepsAscending(all, (s: int) => s);
  }

  lemma {:induction false} MaxIsLength<Q, B>(rows: seq<Entry<Q, B>>, paper: string)
    requires Contiguous(rows)
    ensures MaxSequence(rows, paper) == |History(rows, paper)|
  {
    if rows != [] {
      PrefixContiguous(rows);
      MaxIsLength(rows[..|rows| - 1], paper);
      var all, n := History(rows, paper), |History(rows[..|rows| - 1], paper)|;
      assert all == CountingUp(|all|);
      assert |all| > n ==> all[n] == n + 1;
    }
  }

  lemma PrefixContiguous<Q, B>(rows: seq<Entry<Q, B>>)
    requires rows != [] && Contiguous(rows)
    ensures Contiguous(rows[..|rows| - 1])
  {
    var init := rows[..|rows| - 1];
    forall p ensures History(init, p) == CountingUp(|History(init, p)|) {
      var all, front := History(rows, p), History(init, p);
      assert all == CountingUp(|all|);
      assert forall i :: 0 <= i < |front| ==> front[i] == all[i];
    }
  }

  lemma HistoryOfAppend<Q, B>(rows: seq<Entry<Q, B>>, e: Entry<Q, B>, p: string)
    ensures History(rows + [e], p) == History(rows, p) + (if e.paper == p then [e.sequence] else [])
  {
  }

  /** Appending the row the services build keeps sequences contiguous and request ids unique. */
  lemma AppendKeeps<Q, B>(rows: seq<Entry<Q, B>>, e: Entry<Q, B>)
    requires WellFormed(rows)
    requires Find(rows, e.requestId).None? && FindId(rows, e.id).None?
    requires e.sequence == NextSequence(rows, e.paper)
    ensures WellFormed(rows + [e])
  {
    forall p ensures History(rows + [e], p) == CountingUp(|History(rows + [e], p)|) {
      HistoryOfAppend(rows, e, p);
      assert History(rows, p) == CountingUp(|History(rows, p)|);
      MaxIsLength(rows, p);
    }
    forall i, j | 0 <= i < j < |rows + [e]|
      ensures (rows + [e])[i].requestId != (rows + [e])[j].requestId && (rows + [e])[i].id != (rows + [e])[j].id
    {
      assert rows[i] in rows;
    }
  }

  /** A stored request keeps answering with the same row however much is appended after it. */
  lemma {:induction false} FindSurvives<Q, B>(rows: seq<Entry<Q, B>>, later: seq<Entry<Q, B>>, requestId: string)
    requires rows <= later && Find(rows, requestId).Some?
    ensures Find(later, requestId) == Find(rows, requestId)
  {
    if rows[0].requestId != requestId {
      assert rows[1..] <= later[1..];
      FindSurvives(rows[1..], later[1..], requestId);
    }
  }

  lemma {:induction false} FindIdSurvives<Q, B>(rows: seq<Entry<Q, B>>, later: seq<Entry<Q, B>>, id: string)
    requires rows <= later && FindId(rows, id).Some?
    ensures FindId(later, id) == FindId(rows, id)
  {
    if rows[0].id != id {
      assert rows[1..] <= later[1..];
      FindIdSurvives(rows[1..], later[1..], id);
    }
  }

  /** Ids are unique, so a row is the one its id finds. */
  lemma {:induction false} FindIdOfMember<Q, B>(rows: seq<Entry<Q, B>>, e: Entry<Q, B>)
    requires Distinct(rows) && e in rows
    ensures FindId(rows, e.id) == Some(e)
  {
  }
}

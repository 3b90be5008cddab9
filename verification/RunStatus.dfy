/** What a passed answer says about the run that wrote the terminal record. */
module RunStatus {
  import opened Prelude
  import opened RunDocuments
  import opened StatusReader
  import R = VerificationRun

  /** The record a run writes at its end, from the files in `dir`. */
  ghost predicate Closes(io: Reader, dir: Directory, runId: string, baseline: RunIdentity, evidenceFile: string,
                         evidence: Fields, groups: seq<R.Group>, conclusions: map<string, R.Conclusion>, interrupted: bool,
                         terminal: Fields)
  {
    && (forall i :: 0 <= i < |groups| ==> groups[i].name in conclusions)
    && terminal == R.TerminalFor(io, dir, runId, baseline, evidenceFile, evidence, groups, conclusions, interrupted)
  }

  /** The file has the very bytes the run left, and they are the document it returned. */
  ghost predicate Unchanged(io: Reader, dir: Directory, later: Directory, name: string, document: Fields) {
    name in dir && name in later && later[name] == dir[name] && ObjectIn(io, later, name) == Some(document)
  }

  lemma GroupIsUnchanged(io: Reader, dir: Directory, later: Directory, runId: string, g: R.Group, c: R.Conclusion,
                         taken: set<string>)
    requires NoCollision(io, dir, later) && SameRunDocument(io, dir, c.file, runId, g.suffix, c.document)
    requires GroupOk(io, later, runId, R.GroupRecord(io, dir, g, c), taken)
    ensures Unchanged(io, dir, later, runId + g.suffix, c.document)
    ensures GroupDocument(io, later, runId, R.GroupRecord(io, dir, g, c)) == c.document
  {
  }

  /**
   * If a later directory holds the terminal record of a run and the reader confirms it, then the run passed: no
   * interrupt, every required group concluded with passed, the evidence shows all six checks with exit code 0, the
   * receipt completed, and evidence, receipt and every conclusion are byte for byte what the run left.
   */
  lemma ConfirmedMeansPassed(io: Reader, dir: Directory, later: Directory, runId: string, baseline: RunIdentity,
                             evidenceFile: string, evidence: Fields, groups: seq<R.Group>,
                             conclusions: map<string, R.Conclusion>, interrupted: bool, terminal: Fields)
    requires NoCollision(io, dir, later)
    requires Closes(io, dir, runId, baseline, evidenceFile, evidence, groups, conclusions, interrupted, terminal)
    requires Confirms(io, later, runId, terminal)
    ensures R.Passed(groups, conclusions, interrupted)
    ensures Unchanged(io, dir, later, runId + ".json", evidence) && PassedChecks(evidence)
    ensures runId + ".pytest.json" in later && runId + ".pytest.json" in dir && later[runId + ".pytest.json"] == dir[runId + ".pytest.json"]
    ensures DocumentOf(io, later, runId + ".pytest.json", runId).Some?
            && ReceiptCompleted(DocumentOf(io, later, runId + ".pytest.json", runId).value, runId)
    ensures forall i :: 0 <= i < |groups| ==> Unchanged(io, dir, later, runId + groups[i].suffix, conclusions[groups[i].name].document)
  {
    hide Bound;
    hide GroupsOk;
    hide LinksOk;
    hide IdentityMatches;
    hide Summarised;
    hide PassedChecks;
    hide ReceiptCompleted;
    hide NoCollision;
    hide R.TerminalFor;
    hide R.Passed;
    hide R.GroupRecords;
    hide DocumentOf;
    ConfirmedHead(io, dir, later, runId, baseline, evidenceFile, evidence, groups, conclusions, interrupted, terminal);
    HeadIsPinned(io, dir, later, runId, evidenceFile, evidence, terminal);
    GroupsArePinned(io, dir, later, runId, groups, conclusions);
  }

  /** What the record says besides its digests. */
  lemma ConfirmedHead(io: Reader, dir: Directory, later: Directory, runId: string, baseline: RunIdentity,
                      evidenceFile: string, evidence: Fields, groups: seq<R.Group>, conclusions: map<string, R.Conclusion>,
                      interrupted: bool, terminal: Fields)
    requires Closes(io, dir, runId, baseline, evidenceFile, evidence, groups, conclusions, interrupted, terminal)
    requires Confirms(io, later, runId, terminal)
    ensures R.Passed(groups, conclusions, interrupted)
    ensures R.Consistent(io, dir, runId, evidenceFile, evidence, groups, conclusions)
    ensures Get(terminal, "evidence_sha256") == R.Sha(io, dir, evidenceFile)
    ensures Get(terminal, "pytest_receipt_sha256") == R.Sha(io, dir, runId + ".pytest.json")
    ensures Get(terminal, "groups") == Arr(R.GroupRecords(io, dir, groups, conclusions))
  {
    hide Bound;
    hide GroupsOk;
    hide LinksOk;
    hide IdentityMatches;
    hide Summarised;
    hide PassedChecks;
    hide ReceiptCompleted;
    hide R.Passed;
    hide R.Consistent;
    hide R.GroupRecords;
    hide R.Sha;
  }

  lemma HeadIsPinned(io: Reader, dir: Directory, later: Directory, runId: string, evidenceFile: string, evidence: Fields,
                     terminal: Fields)
    requires NoCollision(io, dir, later) && Get(terminal, "evidence_sha256") == R.Sha(io, dir, evidenceFile)
    requires Get(terminal, "pytest_receipt_sha256") == R.Sha(io, dir, runId + ".pytest.json")
    requires Bound(io, later, runId, ".json", Get(terminal, "evidence_sha256"))
    requires Bound(io, later, runId, ".pytest.json", Get(terminal, "pytest_receipt_sha256"))
    requires SameRunDocument(io, dir, evidenceFile, runId, ".json", evidence)
    ensures Unchanged(io, dir, later, runId + ".json", evidence)
    ensures DocumentOf(io, later, runId + ".json", runId) == Some(evidence)
    ensures runId + ".pytest.json" in later && runId + ".pytest.json" in dir && later[runId + ".pytest.json"] == dir[runId + ".pytest.json"]
    ensures DocumentOf(io, later, runId + ".pytest.json", runId).Some?
  {
  }

  lemma GroupsArePinned(io: Reader, dir: Directory, later: Directory, runId: string, groups: seq<R.Group>,
                        conclusions: map<string, R.Conclusion>)
    requires NoCollision(io, dir, later) && forall i :: 0 <= i < |groups| ==> groups[i].name in conclusions
    requires forall i :: 0 <= i < |groups| ==>
               SameRunDocument(io, dir, conclusions[groups[i].name].file, runId, groups[i].suffix, conclusions[groups[i].name].document)
    requires var records := R.GroupRecords(io, dir, groups, conclusions); GroupsOk(io, later, runId, records, |records|)
    ensures forall i :: 0 <= i < |groups| ==> Unchanged(io, dir, later, runId + groups[i].suffix, conclusions[groups[i].name].document)
  {
    hide GroupOk;
    hide NoCollision;
    hide SameRunDocument;
    var records := R.GroupRecords(io, dir, groups, conclusions);
    forall i | 0 <= i < |groups|
      ensures Unchanged(io, dir, later, runId + groups[i].suffix, conclusions[groups[i].name].document)
    {
      assert GroupOk(io, later, runId, records[i], SuffixesOf(records[..i]));
      GroupIsUnchanged(io, dir, later, runId, groups[i], conclusions[groups[i].name], SuffixesOf(records[..i]));
    }
  }

  /** Any later change of a byte of the evidence, the receipt or a conclusion, or a missing one, prevents a passed answer. */
  lemma ChangesPreventPassed(io: Reader, dir: Directory, later: Directory, runId: string, baseline: RunIdentity,
                             evidenceFile: string, evidence: Fields, groups: seq<R.Group>,
                             conclusions: map<string, R.Conclusion>, interrupted: bool, terminal: Fields, suffix: string)
    requires NoCollision(io, dir, later)
    requires Closes(io, dir, runId, baseline, evidenceFile, evidence, groups, conclusions, interrupted, terminal)
    requires suffix in {".json", ".pytest.json"} || exists i :: 0 <= i < |groups| && groups[i].suffix == suffix
    requires runId + suffix !in later || runId + suffix !in dir || later[runId + suffix] != dir[runId + suffix]
    ensures !Confirms(io, later, runId, terminal)
  {
    hide Confirms;
    hide NoCollision;
    hide R.TerminalFor;
    hide PassedChecks;
    hide ReceiptCompleted;
    if Confirms(io, later, runId, terminal) {
      ConfirmedMeansPassed(io, dir, later, runId, baseline, evidenceFile, evidence, groups, conclusions, interrupted, terminal);
    }
  }

  // ----- the record of a run, read at once -----------------------------------------------------------

  function SuffixSet(groups: seq<R.Group>, n: nat): set<string>
    requires n <= |groups|
  {
    set i | 0 <= i < n :: groups[i].suffix
  }

  lemma SuffixOfRecord(io: Reader, dir: Directory, g: R.Group, c: R.Conclusion)
    ensures SuffixAt(R.GroupRecord(io, dir, g, c)) == g.suffix
  {
  }

  /** The suffixes taken by the records before one are the reserved ones and those of the groups before it. */
  lemma {:induction false} SuffixesOfRecords(io: Reader, dir: Directory, groups: seq<R.Group>,
                                             conclusions: map<string, R.Conclusion>, n: nat)
    requires n <= |groups| && forall i :: 0 <= i < |groups| ==> groups[i].name in conclusions
    ensures SuffixesOf(R.GroupRecords(io, dir, groups, conclusions)[..n]) == RESERVED + SuffixSet(groups, n)
  {
    hide SuffixAt;
    hide R.GroupRecord;
    var records := R.GroupRecords(io, dir, groups, conclusions);
    if n > 0 {
      var g := groups[n - 1];
      SuffixesOfRecords(io, dir, groups, conclusions, n - 1);
      assert records[..n] == records[..n - 1] + [R.GroupRecord(io, dir, g, conclusions[g.name])];
      assert records[..n][..n - 1] == records[..n - 1];
      SuffixOfRecord(io, dir, g, conclusions[g.name]);
      assert SuffixSet(groups, n) == SuffixSet(groups, n - 1) + {g.suffix};
    }
  }

  /** The conclusion can be read in the one format that is supported for its suffix. */
  predicate Readable(g: R.Group, c: R.Conclusion) {
    g.suffix in SUPPORTED && Get(c.document, "format_version") == Int(SUPPORTED[g.suffix])
  }

  lemma RecordIsOk(io: Reader, dir: Directory, runId: string, g: R.Group, c: R.Conclusion, taken: set<string>)
    requires SameRunDocument(io, dir, c.file, runId, g.suffix, c.document) && Hex(io.hash(dir[c.file]), 64)
    requires SuffixShape(g.suffix) && g.suffix !in taken
    ensures GroupOk(io, dir, runId, R.GroupRecord(io, dir, g, c), taken) <==> Readable(g, c)
    ensures GroupDocument(io, dir, runId, R.GroupRecord(io, dir, g, c)) == c.document
  {
    hide SuffixShape;
    hide Hex;
    var record := R.GroupRecord(io, dir, g, c);
    assert Get(record.fields, "suffix") == Str(g.suffix) && Get(record.fields, "required") == Bool(g.required);
    assert Get(record.fields, "sha256") == Str(io.hash(dir[c.file]));
    assert Get(record.fields, "format_version") == Get(c.document, "format_version");
    assert DocumentOf(io, dir, runId + g.suffix, runId) == Some(c.document);
  }

  lemma RecordsAreOk(io: Reader, dir: Directory, runId: string, groups: seq<R.Group>, conclusions: map<string, R.Conclusion>)
    requires R.RegisteredUpTo(groups, |groups|) && AllSame(io, dir, runId, groups, conclusions)
    requires forall n :: n in dir ==> Hex(io.hash(dir[n]), 64)
    ensures var records := R.GroupRecords(io, dir, groups, conclusions);
            GroupsOk(io, dir, runId, records, |records|) <==>
              forall i :: 0 <= i < |groups| ==> Readable(groups[i], conclusions[groups[i].name])
  {
    hide GroupOk;
    hide Readable;
    hide SameRunDocument;
    hide Hex;
    hide SuffixShape;
    hide SuffixesOf;
    var records := R.GroupRecords(io, dir, groups, conclusions);
    forall i | 0 <= i < |groups|
      ensures GroupOk(io, dir, runId, records[i], SuffixesOf(records[..i])) <==> Readable(groups[i], conclusions[groups[i].name])
    {
      SuffixesOfRecords(io, dir, groups, conclusions, i);
      assert groups[i].suffix !in RESERVED + SuffixSet(groups, i);
      InDirectory(io, dir, runId, groups[i], conclusions[groups[i].name]);
      RecordIsOk(io, dir, runId, groups[i], conclusions[groups[i].name], SuffixesOf(records[..i]));
    }
  }

  lemma InDirectory(io: Reader, dir: Directory, runId: string, g: R.Group, c: R.Conclusion)
    requires SameRunDocument(io, dir, c.file, runId, g.suffix, c.document)
    ensures c.file in dir
  {
  }

  /** Every conclusion is the document in its file. */
  ghost predicate AllSame(io: Reader, dir: Directory, runId: string, groups: seq<R.Group>, conclusions: map<string, R.Conclusion>) {
    forall i :: 0 <= i < |groups| ==>
      && groups[i].name in conclusions
      && SameRunDocument(io, dir, conclusions[groups[i].name].file, runId, groups[i].suffix, conclusions[groups[i].name].document)
  }

  /** The documents of the required groups, in order. */
  function RequiredOf(groups: seq<R.Group>, conclusions: map<string, R.Conclusion>): seq<Fields>
    requires forall i :: 0 <= i < |groups| ==> groups[i].name in conclusions
  {
    if groups == [] then [] else
      var last := groups[|groups| - 1];
      RequiredOf(groups[..|groups| - 1], conclusions) + if last.required then [conclusions[last.name].document] else []
  }

  lemma {:induction false} RequiredDocumentsOf(io: Reader, dir: Directory, runId: string, groups: seq<R.Group>,
                                               conclusions: map<string, R.Conclusion>)
    requires AllSame(io, dir, runId, groups, conclusions)
    ensures RequiredDocuments(io, dir, runId, R.GroupRecords(io, dir, groups, conclusions)) == RequiredOf(groups, conclusions)
  {
    hide SameRunDocument;
    hide GroupDocument;
    hide IsRequired;
    hide R.GroupRecord;
    var records := R.GroupRecords(io, dir, groups, conclusions);
    if groups != [] {
      var n := |groups| - 1;
      var g := groups[n];
      assert records[..n] == R.GroupRecords(io, dir, groups[..n], conclusions);
      RequiredDocumentsOf(io, dir, runId, groups[..n], conclusions);
      RecordDocument(io, dir, runId, g, conclusions[g.name]);
      assert records == records[..n] + [R.GroupRecord(io, dir, g, conclusions[g.name])];
    }
  }

  lemma RecordDocument(io: Reader, dir: Directory, runId: string, g: R.Group, c: R.Conclusion)
    requires SameRunDocument(io, dir, c.file, runId, g.suffix, c.document)
    ensures GroupDocument(io, dir, runId, R.GroupRecord(io, dir, g, c)) == c.document
    ensures IsRequired(R.GroupRecord(io, dir, g, c)) <==> g.required
  {
    var fields := R.GroupRecord(io, dir, g, c).fields;
    assert Get(fields, "suffix") == Str(g.suffix) && Get(fields, "required") == Bool(g.required);
  }

  lemma PassedMore(groups: seq<R.Group>, conclusions: map<string, R.Conclusion>)
    requires groups != [] && forall i :: 0 <= i < |groups| ==> groups[i].name in conclusions
    ensures var front, last := groups[..|groups| - 1], groups[|groups| - 1];
            && (R.Passed(groups, conclusions, false) <==>
                  R.Passed(front, conclusions, false)
                  && (last.required ==> Get(conclusions[last.name].document, "status") == Str("passed")))
            && ((exists i :: 0 <= i < |groups| && groups[i].required) <==>
                  last.required || exists i :: 0 <= i < |front| && front[i].required)
  {
    var n := |groups| - 1;
    var front := groups[..n];
    assert groups == front + [groups[n]];
    if i :| 0 <= i < |groups| && groups[i].required && i < n { assert front[i] == groups[i]; }
    if i :| 0 <= i < |front| && front[i].required { assert groups[i] == front[i]; }
    forall i | 0 <= i < |front| ensures front[i] == groups[i] { }
  }

  lemma AllPassedMore(before: seq<Fields>, d: Fields)
    ensures AllPassed(before + [d]) <==> AllPassed(before) && Get(d, "status") == Str("passed")
  {
    var now := before + [d];
    assert now[|before|] == d;
    assert forall k :: 0 <= k < |before| ==> now[k] == before[k];
  }

  lemma {:induction false} RequiredStatuses(groups: seq<R.Group>, conclusions: map<string, R.Conclusion>)
    requires forall i :: 0 <= i < |groups| ==> groups[i].name in conclusions
    ensures R.Passed(groups, conclusions, false) <==>
              AllPassed(RequiredOf(groups, conclusions))
    ensures RequiredOf(groups, conclusions) != [] <==> exists i :: 0 <= i < |groups| && groups[i].required
  {
    if groups != [] {
      hide R.Passed;
      hide AllPassed;
      var front, last := groups[..|groups| - 1], groups[|groups| - 1];
      RequiredStatuses(front, conclusions);
      PassedMore(groups, conclusions);
      AllPassedMore(RequiredOf(front, conclusions), conclusions[last.name].document);
      assert RequiredOf(groups, conclusions) ==
             RequiredOf(front, conclusions) + if last.required then [conclusions[last.name].document] else [];
      assert RequiredOf(front, conclusions) + [] == RequiredOf(front, conclusions);
    }
  }

  /**
   * The record a run has just written, read before anything changed: it is confirmed exactly when the run passed,
   * its conclusions can be read and its documents link to each other, all checks ran with exit code 0, the receipt
   * completed, and one complete identity is in all of them.
   */
  lemma ConfirmedAtOnce(io: Reader, dir: Directory, runId: string, baseline: RunIdentity, evidenceFile: string, evidence: Fields,
                        groups: seq<R.Group>, conclusions: map<string, R.Conclusion>, interrupted: bool, terminal: Fields,
                        receipt: Fields)
    requires Closes(io, dir, runId, baseline, evidenceFile, evidence, groups, conclusions, interrupted, terminal)
    requires R.RegisteredUpTo(groups, |groups|) && R.Consistent(io, dir, runId, evidenceFile, evidence, groups, conclusions)
    requires DocumentOf(io, dir, runId + ".pytest.json", runId) == Some(receipt)
    requires forall n :: n in dir ==> Hex(io.hash(dir[n]), 64)
    ensures var records := R.GroupRecords(io, dir, groups, conclusions);
            Confirms(io, dir, runId, terminal) <==>
              && R.Passed(groups, conclusions, interrupted) && (exists i :: 0 <= i < |groups| && groups[i].required)
              && (forall i :: 0 <= i < |groups| ==> Readable(groups[i], conclusions[groups[i].name]))
              && LinksOk(io, dir, runId, BoundNames(runId, records), true, [evidence, receipt] + GroupDocuments(io, dir, runId, records))
              && PassedChecks(evidence) && ReceiptCompleted(receipt, runId) && Summarised(receipt)
              && baseline.commit.Str? && baseline.dirty.Bool? && IdentityMatches(baseline, evidence, RequiredOf(groups, conclusions))
  {
    hide Hex;
    hide R.RegisteredUpTo;
    hide SameRunDocument;
    hide R.GroupRecords;
    hide R.Passed;
    hide GroupsOk;
    hide LinksOk;
    hide PassedChecks;
    hide ReceiptCompleted;
    hide Summarised;
    hide IdentityMatches;
    hide Bound;
    hide Readable;
    hide RequiredDocuments;
    hide RequiredOf;
    hide GroupDocuments;
    hide BoundNames;
    hide DocumentOf;
    assert AllSame(io, dir, runId, groups, conclusions);
    RecordsAreOk(io, dir, runId, groups, conclusions);
    RequiredDocumentsOf(io, dir, runId, groups, conclusions);
    RequiredStatuses(groups, conclusions);
    HeadIsBound(io, dir, runId, evidenceFile, evidence, receipt);
    HeadOfRecord(io, dir, runId, baseline, evidenceFile, evidence, groups, conclusions, interrupted);
    PassedOrInterrupted(groups, conclusions, interrupted);
    CompletedIsVersionOne(receipt, runId);
  }

  lemma HeadIsBound(io: Reader, dir: Directory, runId: string, evidenceFile: string, evidence: Fields, receipt: Fields)
    requires SameRunDocument(io, dir, evidenceFile, runId, ".json", evidence)
    requires DocumentOf(io, dir, runId + ".pytest.json", runId) == Some(receipt)
    requires forall n :: n in dir ==> Hex(io.hash(dir[n]), 64)
    ensures DocumentOf(io, dir, runId + ".json", runId) == Some(evidence)
    ensures Bound(io, dir, runId, ".json", R.Sha(io, dir, evidenceFile))
    ensures Bound(io, dir, runId, ".pytest.json", R.Sha(io, dir, runId + ".pytest.json"))
  {
  }

  lemma HeadOfRecord(io: Reader, dir: Directory, runId: string, baseline: RunIdentity, evidenceFile: string, evidence: Fields,
                     groups: seq<R.Group>, conclusions: map<string, R.Conclusion>, interrupted: bool)
    requires forall i :: 0 <= i < |groups| ==> groups[i].name in conclusions
    ensures var t := R.TerminalFor(io, dir, runId, baseline, evidenceFile, evidence, groups, conclusions, interrupted);
            && Get(t, "evidence_sha256") == R.Sha(io, dir, evidenceFile)
            && Get(t, "pytest_receipt_sha256") == R.Sha(io, dir, runId + ".pytest.json")
            && Get(t, "groups") == Arr(R.GroupRecords(io, dir, groups, conclusions))
            && Get(t, "materials_consistent") == Bool(R.Consistent(io, dir, runId, evidenceFile, evidence, groups, conclusions))
            && Get(t, "interrupted") == Bool(interrupted)
            && Get(t, "exit_code") == Int(if R.Passed(groups, conclusions, interrupted) then 0 else 1)
            && (WellTyped(t) <==> groups != [])
            && IdentityOf(t) == if baseline.commit.Str? && baseline.dirty.Bool? then Some(baseline) else None
  {
    hide R.Sha;
    hide R.Passed;
    hide R.Consistent;
    var t := R.TerminalFor(io, dir, runId, baseline, evidenceFile, evidence, groups, conclusions, interrupted);
    assert Get(t, "code") == Obj(map["commit" := baseline.commit, "dirty" := baseline.dirty]);
    assert Get(t, "worktree_sha256") == baseline.worktree && Get(t, "lockfile_sha256") == baseline.lockfile;
    assert Get(t, "format_version") == Int(1);
  }

  lemma PassedOrInterrupted(groups: seq<R.Group>, conclusions: map<string, R.Conclusion>, interrupted: bool)
    ensures R.Passed(groups, conclusions, interrupted) <==> !interrupted && R.Passed(groups, conclusions, false)
  {
  }

  lemma CompletedIsVersionOne(receipt: Fields, runId: string)
    ensures ReceiptCompleted(receipt, runId) ==> VersionOne(receipt)
  {
  }
}

/** One offline plan, the acceptance groups in their order, and the terminal record that closes the run. */
module VerificationRun {
  import opened Prelude
  import opened RunDocuments

  datatype Group = Group(name: string, suffix: string, required: bool, dependencies: seq<string>, recovers: bool,
                         propagates: bool)

  /** A conclusion: the file it was published to, and the document returned. */
  datatype Conclusion = Conclusion(file: string, document: Fields)

  /** How the writer of a group ends: with a conclusion, or interrupted, perhaps with a recovered one. */
  datatype Written = Wrote(conclusion: Conclusion) | InterruptedWriting(recovered: Conclusion)

  // ----- registration ---------------------------------------------------------------------------

  /** Names and suffixes are new, suffixes are well formed, dependencies come earlier. */
  ghost predicate RegisteredUpTo(groups: seq<Group>, n: nat)
    requires n <= |groups|
  {
    forall i :: 0 <= i < n ==>
      && (forall j :: 0 <= j < i ==> groups[j].name != groups[i].name && groups[j].suffix != groups[i].suffix)
      && SuffixShape(groups[i].suffix) && groups[i].suffix !in RESERVED
      && forall d :: d in groups[i].dependencies ==> exists j :: 0 <= j < i && groups[j].name == d
  }

  method CheckRegistration(groups: seq<Group>) returns (ok: bool)
    ensures ok <==> RegisteredUpTo(groups, |groups|)
  {
    var names: set<string>, suffixes: set<string> := {}, {};
    for i := 0 to |groups|
      invariant RegisteredUpTo(groups, i)
      invariant forall n :: n in names <==> exists j :: 0 <= j < i && groups[j].name == n
      invariant forall s :: s in suffixes <==> exists j :: 0 <= j < i && groups[j].suffix == s
    {
      var g := groups[i];
      if g.name in names || g.suffix in suffixes || !SuffixShape(g.suffix) || g.suffix in RESERVED
         || exists k :: 0 <= k < |g.dependencies| && g.dependencies[k] !in names
      {
        if k :| 0 <= k < |g.dependencies| && g.dependencies[k] !in names {
          assert g.dependencies[k] in g.dependencies;
        }
        return false;
      }
      names, suffixes := names + {g.name}, suffixes + {g.suffix};
    }
    return true;
  }

  // ----- the run --------------------------------------------------------------------------------

  /** Every required group has a conclusion that passed, and nothing was interrupted. */
  predicate Passed(groups: seq<Group>, conclusions: map<string, Conclusion>, interrupted: bool) {
    && !interrupted
    && forall i :: 0 <= i < |groups| && groups[i].required ==>
         groups[i].name in conclusions && Get(conclusions[groups[i].name].document, "status") == Str("passed")
  }

  function Sha(io: Reader, dir: Directory, name: string): Json {
    if name in dir then Str(io.hash(dir[name])) else Null
  }

  function GroupRecord(io: Reader, dir: Directory, g: Group, c: Conclusion): Json {
    Obj(map["suffix" := Str(g.suffix), "required" := Bool(g.required), "sha256" := Sha(io, dir, c.file),
            "format_version" := Get(c.document, "format_version")])
  }

  function GroupRecords(io: Reader, dir: Directory, groups: seq<Group>, conclusions: map<string, Conclusion>): seq<Json>
    requires forall i :: 0 <= i < |groups| ==> groups[i].name in conclusions
  {
    seq(|groups|, i requires 0 <= i < |groups| => GroupRecord(io, dir, groups[i], conclusions[groups[i].name]))
  }

  predicate Consistent(io: Reader, dir: Directory, runId: string, evidenceFile: string, evidence: Fields, groups: seq<Group>,
                       conclusions: map<string, Conclusion>)
    requires forall i :: 0 <= i < |groups| ==> groups[i].name in conclusions
  {
    && SameRunDocument(io, dir, evidenceFile, runId, ".json", evidence)
    && forall i :: 0 <= i < |groups| ==>
         SameRunDocument(io, dir, conclusions[groups[i].name].file, runId, groups[i].suffix, conclusions[groups[i].name].document)
  }

  /** The terminal record, built from the files as they are at one moment. */
  function TerminalFor(io: Reader, dir: Directory, runId: string, baseline: RunIdentity, evidenceFile: string,
                       evidence: Fields, groups: seq<Group>, conclusions: map<string, Conclusion>, interrupted: bool): Fields
    requires forall i :: 0 <= i < |groups| ==> groups[i].name in conclusions
  {
    map["format_version" := Int(1), "run_id" := Str(runId),
        "exit_code" := Int(if Passed(groups, conclusions, interrupted) then 0 else 1),
        "interrupted" := Bool(interrupted), "code" := baseline.Code(),
        "worktree_sha256" := baseline.worktree, "lockfile_sha256" := baseline.lockfile,
        "evidence_sha256" := Sha(io, dir, evidenceFile),
        "pytest_receipt_sha256" := Sha(io, dir, runId + ".pytest.json"),
        "materials_consistent" := Bool(Consistent(io, dir, runId, evidenceFile, evidence, groups, conclusions)),
        "groups" := Arr(GroupRecords(io, dir, groups, conclusions))]
  }

  class Run {
    const groups: seq<Group>
    const runId: string
    const baseline: RunIdentity
    const evidenceFile: string
    const evidence: Fields
    var conclusions: map<string, Conclusion>
    var interrupted: bool

    constructor (groups: seq<Group>, runId: string, baseline: RunIdentity, evidenceFile: string, evidence: Fields)
      ensures this.groups == groups && this.runId == runId && this.baseline == baseline
      ensures this.evidenceFile == evidenceFile && this.evidence == evidence && conclusions == map[] && !interrupted
    {
      this.groups, this.runId, this.baseline := groups, runId, baseline;
      this.evidenceFile, this.evidence, conclusions, interrupted := evidenceFile, evidence, map[], false;
    }

    /**
     * The group loop: conclusions in registration order; an interrupt is passed on if the group says so, recovered
     * if it can be, and otherwise ends the run without a terminal record.
     */
    method RunGroups(written: seq<Written>) returns (raised: bool)
      requires RegisteredUpTo(groups, |groups|) && |written| == |groups| && conclusions == map[] && !interrupted
      modifies this
      ensures raised <==> exists i :: 0 <= i < |groups| && written[i].InterruptedWriting? && !groups[i].recovers
      ensures !raised ==> forall i :: 0 <= i < |groups| ==>
                groups[i].name in conclusions
                && conclusions[groups[i].name] == if written[i].Wrote? then written[i].conclusion else written[i].recovered
      ensures !raised ==> (interrupted <==> exists i :: 0 <= i < |groups| && written[i].InterruptedWriting? && groups[i].propagates)
    {
      for i := 0 to |groups|
        invariant !exists k :: 0 <= k < i && written[k].InterruptedWriting? && !groups[k].recovers
        invariant forall k :: 0 <= k < i ==>
          groups[k].name in conclusions
          && conclusions[groups[k].name] == if written[k].Wrote? then written[k].conclusion else written[k].recovered
        invariant interrupted <==> exists k :: 0 <= k < i && written[k].InterruptedWriting? && groups[k].propagates
      {
        assert forall k :: 0 <= k < i ==> groups[k].name != groups[i].name;
        match written[i] {
          case Wrote(conclusion) =>
            conclusions := conclusions[groups[i].name := conclusion];
          case InterruptedWriting(recovered) =>
            if groups[i].propagates {
              interrupted := true;
            }
            if !groups[i].recovers {
              return true;
            }
            conclusions := conclusions[groups[i].name := recovered];
        }
      }
      return false;
    }

    /** The exit decision and the digests of what was published, as one document. */
    method Publish(io: Reader, dir: Directory) returns (terminal: Fields)
      requires forall i :: 0 <= i < |groups| ==> groups[i].name in conclusions
      ensures terminal == TerminalFor(io, dir, runId, baseline, evidenceFile, evidence, groups, conclusions, interrupted)
    {
      var records: seq<Json> := [];
      var consistent := SameRunDocument(io, dir, evidenceFile, runId, ".json", evidence);
      for i := 0 to |groups|
        invariant records == GroupRecords(io, dir, groups, conclusions)[..i]
        invariant consistent <==> (
          && SameRunDocument(io, dir, evidenceFile, runId, ".json", evidence)
          && forall k :: 0 <= k < i ==>
               SameRunDocument(io, dir, conclusions[groups[k].name].file, runId, groups[k].suffix, conclusions[groups[k].name].document))
      {
        var c := conclusions[groups[i].name];
        records := records + [GroupRecord(io, dir, groups[i], c)];
        consistent := consistent && SameRunDocument(io, dir, c.file, runId, groups[i].suffix, c.document);
      }
      assert records == GroupRecords(io, dir, groups, conclusions);
      terminal := map["format_version" := Int(1), "run_id" := Str(runId),
                      "exit_code" := Int(if Passed(groups, conclusions, interrupted) then 0 else 1),
                      "interrupted" := Bool(interrupted), "code" := baseline.Code(),
                      "worktree_sha256" := baseline.worktree, "lockfile_sha256" := baseline.lockfile,
                      "evidence_sha256" := Sha(io, dir, evidenceFile),
                      "pytest_receipt_sha256" := Sha(io, dir, runId + ".pytest.json"),
                      "materials_consistent" := Bool(consistent), "groups" := Arr(records)];
    }
  }
}

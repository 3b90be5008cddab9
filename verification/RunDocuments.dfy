/** The JSON documents of one verification run, and the tests that are made on single documents. */
module RunDocuments {
  import opened Prelude
  import BodyModel

  /** A number that is not an integer keeps only its kind; kind 0 is zero. */
  datatype Json =
    | Null | Bool(b: bool) | Int(n: int) | OtherNumber(kind: int) | Str(s: string)
    | Arr(items: seq<Json>) | Obj(fields: map<string, Json>)

  type Fields = map<string, Json>

  type Bytes = BodyModel.Bytes

  /** The content of the files of the output directory, by name. */
  type Directory = map<string, Bytes>

  /** How the content of a file is read: SHA-256 in hexadecimal, and the JSON value, if it is one. */
  datatype Reader = Reader(hash: Bytes -> string, parse: Bytes -> Option<Json>)

  /** No two different contents of these files have the same digest. */
  ghost predicate NoCollision(io: Reader, dir: Directory, later: Directory) {
    forall a, b :: a in dir && b in later && io.hash(dir[a]) == io.hash(later[b]) ==> dir[a] == later[b]
  }

  /** `value.get(key)`. */
  function Get(v: Fields, key: string): Json {
    if key in v then v[key] else Null
  }

  predicate Hex(s: string, n: nat) {
    |s| == n && forall i :: 0 <= i < |s| ==> '0' <= s[i] <= '9' || 'a' <= s[i] <= 'f'
  }

  /** The object a file holds. */
  function ObjectIn(io: Reader, dir: Directory, name: string): Option<Fields> {
    if name !in dir then None else
      var value := io.parse(dir[name]);
      if value.Some? && value.value.Obj? then Some(value.value.fields) else None
  }

  /** An object of this run. */
  function DocumentOf(io: Reader, dir: Directory, name: string, runId: string): Option<Fields> {
    var found := ObjectIn(io, dir, name);
    if found.Some? && Get(found.value, "run_id") == Str(runId) then found else None
  }

  /** Python's truth value. */
  predicate Truthy(v: Json) {
    v !in {Null, Bool(false), Int(0), OtherNumber(0), Str(""), Arr([]), Obj(map[])}
  }

  predicate VersionOne(v: Fields) { Get(v, "format_version") == Int(1) }

  const CHECK_IDS: seq<string> := ["lockfile", "format", "lint", "types", "tests", "contracts"]

  /** The six planned checks, in their order, each with a known status. */
  predicate ChecksOk(evidence: Fields) {
    && Get(evidence, "checks").Arr? && |Get(evidence, "checks").items| == |CHECK_IDS|
    && forall i :: 0 <= i < |CHECK_IDS| ==>
         var item := Get(evidence, "checks").items[i];
         item.Obj? && Get(item.fields, "id") == Str(CHECK_IDS[i])
         && Get(item.fields, "status") in {Str("passed"), Str("failed"), Str("not_run")}
  }

  /** Completed and passed, and every planned check ran with exit code 0. */
  predicate PassedChecks(evidence: Fields) {
    && Get(evidence, "completed") == Bool(true) && Get(evidence, "overall") == Str("passed") && ChecksOk(evidence)
    && forall i :: 0 <= i < |CHECK_IDS| ==>
         var item := Get(evidence, "checks").items[i].fields;
         Get(item, "status") == Str("passed") && Get(item, "reason") == Str("none") && Get(item, "exit_code") == Int(0)
  }

  /** The receipt head of a run that completed successfully. */
  predicate ReceiptCompleted(receipt: Fields, runId: string) {
    && VersionOne(receipt) && Get(receipt, "run_id") == Str(runId)
    && Get(receipt, "completed") == Bool(true) && Get(receipt, "exit_code") == Int(0)
  }

  const COUNTERS: set<string> := {"collected", "passed", "failed", "skipped", "deselected", "incomplete"}

  /** The receipt lists modules, each with six counts. */
  predicate Summarised(receipt: Fields) {
    && Get(receipt, "modules").Obj? && Get(receipt, "modules").fields != map[]
    && forall name :: name in Get(receipt, "modules").fields ==>
         var counts := Get(receipt, "modules").fields[name];
         counts.Obj? && forall c :: c in COUNTERS ==> Get(counts.fields, c).Int? && Get(counts.fields, c).n >= 0
  }

  /** The identity of the code a run was made on. */
  datatype RunIdentity = RunIdentity(commit: Json, dirty: Json, worktree: Json, lockfile: Json) {
    function Code(): Json { Obj(map["commit" := commit, "dirty" := dirty]) }
    predicate Complete() { !commit.Null? && !dirty.Null? && !worktree.Null? && !lockfile.Null? }
  }

  predicate SameIdentity(id: RunIdentity, d: Fields) {
    Get(d, "code") == id.Code() && Get(d, "worktree_sha256") == id.worktree && Get(d, "lockfile_sha256") == id.lockfile
  }

  /** `identity_matches`: complete, and the same in the evidence and in every conclusion. */
  predicate IdentityMatches(id: RunIdentity, evidence: Fields, conclusions: seq<Fields>) {
    && id.Complete() && Get(evidence, "code") == id.Code() && Get(evidence, "lockfile_sha256") == id.lockfile
    && forall i :: 0 <= i < |conclusions| ==> SameIdentity(id, conclusions[i])
  }

  /** `\.[a-z0-9-]+\.json`. */
  predicate SuffixShape(s: string) {
    && |s| > 6 && s[0] == '.' && s[|s| - 5..] == ".json"
    && forall i :: 1 <= i < |s| - 5 ==> 'a' <= s[i] <= 'z' || '0' <= s[i] <= '9' || s[i] == '-'
  }

  const RESERVED: set<string> := {".terminal.json", ".pytest.json"}

  /** The file holds the returned document and carries its run in name and content. */
  predicate SameRunDocument(io: Reader, dir: Directory, name: string, runId: string, suffix: string, returned: Fields) {
    name == runId + suffix && Get(returned, "run_id") == Str(runId) && ObjectIn(io, dir, name) == Some(returned)
  }
}

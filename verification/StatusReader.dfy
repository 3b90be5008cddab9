/** The status reader: it trusts a terminal record only together with the very files the record binds. */
module StatusReader {
  import opened Prelude
  import opened RunDocuments
  import R = VerificationRun

  datatype Status = Passed | Failed | IncompleteRun | Unavailable | Unconfirmed

  datatype Reason =
    | Verified | TerminalMissing | MaterialUnavailable | InvalidDocument | UnsupportedFormat | RunIdMismatch
    | BindingMismatch | ChecksNotPassed | GroupNotPassed | ReceiptNotPassed | ExitNonzero | WasInterrupted

  type Verdict = Result<(Status, Reason), Reason>

  /** The formats of the conclusions that can be read. */
  const SUPPORTED: map<string, int> :=
    map[".a1.json" := 1, ".a2.json" := 1, ".a2-full.json" := 2, ".a3.json" := 1, ".a4.json" := 1, ".a5.json" := 1,
        ".a6.json" := 1, ".a7.json" := 1, ".a8.json" := 1, ".a9.json" := 1, ".a10.json" := 1]

  // ----- bound documents ------------------------------------------------------------------------

  /** The file has exactly the recorded digest and is an object of this run. */
  predicate Bound(io: Reader, dir: Directory, runId: string, suffix: string, digest: Json) {
    && digest.Str? && Hex(digest.s, 64) && runId + suffix in dir && io.hash(dir[runId + suffix]) == digest.s
    && DocumentOf(io, dir, runId + suffix, runId).Some?
  }

  /** Why a file is not bound. */
  predicate UnboundFor(io: Reader, dir: Directory, runId: string, suffix: string, digest: Json, why: Reason) {
    var name, wellFormed := runId + suffix, digest.Str? && Hex(digest.s, 64);
    var same := wellFormed && name in dir && io.hash(dir[name]) == digest.s;
    match why
    case BindingMismatch => !wellFormed || (name in dir && !same)
    case MaterialUnavailable => wellFormed && name !in dir
    case InvalidDocument => same && ObjectIn(io, dir, name).None?
    case RunIdMismatch => same && ObjectIn(io, dir, name).Some? && Get(ObjectIn(io, dir, name).value, "run_id") != Str(runId)
    case _ => false
  }

  /** Reading a bound document, with the reasons in the order they are found. */
  function Read(io: Reader, dir: Directory, runId: string, suffix: string, digest: Json): (r: Result<Fields, Reason>)
    ensures r.Ok? <==> Bound(io, dir, runId, suffix, digest)
    ensures r.Ok? ==> DocumentOf(io, dir, runId + suffix, runId) == Some(r.value)
    ensures r.Err? ==> UnboundFor(io, dir, runId, suffix, digest, r.error)
  {
    if !digest.Str? || !Hex(digest.s, 64) then Err(BindingMismatch)
    else if runId + suffix !in dir then Err(MaterialUnavailable)
    else if io.hash(dir[runId + suffix]) != digest.s then Err(BindingMismatch)
    else if ObjectIn(io, dir, runId + suffix).None? then Err(InvalidDocument)
    else if DocumentOf(io, dir, runId + suffix, runId).None? then Err(RunIdMismatch)
    else Ok(DocumentOf(io, dir, runId + suffix, runId).value)
  }

  /** One entry of the terminal's group list, after earlier ones. */
  predicate GroupOk(io: Reader, dir: Directory, runId: string, group: Json, taken: set<string>) {
    && group.Obj? && Get(group.fields, "suffix").Str?
    && var suffix := Get(group.fields, "suffix").s;
       && SuffixShape(suffix) && suffix !in taken && Get(group.fields, "required").Bool?
       && Bound(io, dir, runId, suffix, Get(group.fields, "sha256"))
       && suffix in SUPPORTED && Get(group.fields, "format_version") == Int(SUPPORTED[suffix])
       && Get(DocumentOf(io, dir, runId + suffix, runId).value, "format_version") == Get(group.fields, "format_version")
  }

  /** Why an entry of the group list is refused: what it says, the file it names, or the formats of the two. */
  ghost predicate GroupRefusedFor(io: Reader, dir: Directory, runId: string, group: Json, taken: set<string>, why: Reason) {
    if !EntryOk(group, taken) then why == InvalidDocument else
      var suffix, digest := Get(group.fields, "suffix").s, Get(group.fields, "sha256");
      if !Bound(io, dir, runId, suffix, digest) then UnboundFor(io, dir, runId, suffix, digest, why)
      else !GroupOk(io, dir, runId, group, taken) && why == UnsupportedFormat
  }

  predicate EntryOk(group: Json, taken: set<string>) {
    && group.Obj? && Get(group.fields, "suffix").Str? && Get(group.fields, "required").Bool?
    && SuffixShape(Get(group.fields, "suffix").s) && Get(group.fields, "suffix").s !in taken
  }

  /** The first entry that is refused decides. */
  ghost predicate GroupsRefusedFor(io: Reader, dir: Directory, runId: string, groups: seq<Json>, why: Reason) {
    exists i :: 0 <= i < |groups| && GroupsOk(io, dir, runId, groups, i)
                && GroupRefusedFor(io, dir, runId, groups[i], SuffixesOf(groups[..i]), why)
  }

  /** The suffixes that a list of groups leaves for no other. */
  function SuffixesOf(groups: seq<Json>): set<string> {
    if groups == [] then RESERVED else SuffixesOf(groups[..|groups| - 1]) + {SuffixAt(groups[|groups| - 1])}
  }

  ghost predicate GroupsOk(io: Reader, dir: Directory, runId: string, groups: seq<Json>, n: nat)
    requires n <= |groups|
  {
    forall i :: 0 <= i < n ==> GroupOk(io, dir, runId, groups[i], SuffixesOf(groups[..i]))
  }

  function SuffixAt(group: Json): string {
    if group.Obj? && Get(group.fields, "suffix").Str? then Get(group.fields, "suffix").s else ""
  }

  function GroupDocument(io: Reader, dir: Directory, runId: string, group: Json): Fields {
    var d := DocumentOf(io, dir, runId + SuffixAt(group), runId);
    if d.Some? then d.value else map[]
  }

  predicate IsRequired(group: Json) {
    group.Obj? && Get(group.fields, "required") == Bool(true)
  }

  /** The documents of the groups, in order. */
  function GroupDocuments(io: Reader, dir: Directory, runId: string, groups: seq<Json>): (r: seq<Fields>)
    ensures |r| == |groups| && forall i :: 0 <= i < |r| ==> r[i] == GroupDocument(io, dir, runId, groups[i])
  {
    seq(|groups|, i requires 0 <= i < |groups| => GroupDocument(io, dir, runId, groups[i]))
  }

  /** The required ones among them. */
  function RequiredDocuments(io: Reader, dir: Directory, runId: string, groups: seq<Json>): seq<Fields> {
    if groups == [] then [] else
      var last := groups[|groups| - 1];
      RequiredDocuments(io, dir, runId, groups[..|groups| - 1]) + if IsRequired(last) then [GroupDocument(io, dir, runId, last)] else []
  }

  // ----- links between documents ------------------------------------------------------------------

  predicate EndsWith(s: string, tail: string) {
    |s| >= |tail| && s[|s| - |tail|..] == tail
  }

  /** A file link names a bound file and repeats its digest; only a missing receipt may be left blank. */
  predicate LinkOk(io: Reader, dir: Directory, runId: string, bound: set<string>, hasReceipt: bool, d: Fields, key: string)
    requires key in d && EndsWith(key, "_file")
  {
    var digest := Get(d, key[..|key| - 5] + "_sha256");
    || (d[key] == Str(runId + ".pytest.json") && !hasReceipt && digest.Null?)
    || (d[key].Str? && d[key].s in bound && d[key].s in dir && digest == Str(io.hash(dir[d[key].s])))
  }

  predicate LinksOk(io: Reader, dir: Directory, runId: string, bound: set<string>, hasReceipt: bool, documents: seq<Fields>) {
    forall i :: 0 <= i < |documents| ==>
      forall key :: key in documents[i] && EndsWith(key, "_file") ==> LinkOk(io, dir, runId, bound, hasReceipt, documents[i], key)
  }

  // ----- when a run is confirmed ------------------------------------------------------------------

  predicate WellTyped(t: Fields) {
    && VersionOne(t) && Get(t, "exit_code").Int? && Get(t, "interrupted").Bool? && Get(t, "materials_consistent").Bool?
    && Get(t, "groups").Arr? && Get(t, "groups").items != []
  }

  function IdentityOf(t: Fields): Option<RunIdentity> {
    var code := Get(t, "code");
    if code.Obj? && Get(code.fields, "commit").Str? && Get(code.fields, "dirty").Bool?
    then Some(RunIdentity(Get(code.fields, "commit"), Get(code.fields, "dirty"), Get(t, "worktree_sha256"), Get(t, "lockfile_sha256")))
    else None
  }

  function BoundNames(runId: string, groups: seq<Json>): set<string> {
    {runId + ".json", runId + ".pytest.json"} + NamesOf(runId, groups)
  }

  /** Everything a passed answer rests on. */
  ghost predicate Confirms(io: Reader, dir: Directory, runId: string, t: Fields) {
    && WellTyped(t)
    && var groups := Get(t, "groups").items;
       && Bound(io, dir, runId, ".json", Get(t, "evidence_sha256"))
       && Bound(io, dir, runId, ".pytest.json", Get(t, "pytest_receipt_sha256"))
       && GroupsOk(io, dir, runId, groups, |groups|)
       && var evidence := DocumentOf(io, dir, runId + ".json", runId).value;
          var receipt := DocumentOf(io, dir, runId + ".pytest.json", runId).value;
          var required := RequiredDocuments(io, dir, runId, groups);
          && VersionOne(receipt) && required != []
          && LinksOk(io, dir, runId, BoundNames(runId, groups), true, [evidence, receipt] + GroupDocuments(io, dir, runId, groups))
          && Get(t, "materials_consistent").b && !Get(t, "interrupted").b && Get(t, "exit_code") == Int(0)
          && PassedChecks(evidence)
          && (forall i :: 0 <= i < |required| ==> Get(required[i], "status") == Str("passed"))
          && ReceiptCompleted(receipt, runId) && Summarised(receipt)
          && IdentityOf(t).Some? && IdentityMatches(IdentityOf(t).value, evidence, required)
  }

  // ----- reading a terminal record ----------------------------------------------------------------

  /** One group entry; the suffixes taken before it may not be used again. */
  method ReadGroup(io: Reader, dir: Directory, runId: string, group: Json, taken: set<string>)
    returns (r: Result<Fields, Reason>)
    ensures r.Ok? <==> GroupOk(io, dir, runId, group, taken)
    ensures r.Ok? ==> r.value == GroupDocument(io, dir, runId, group)
    ensures r.Err? ==> GroupRefusedFor(io, dir, runId, group, taken, r.error)
  {
    hide Bound;
    hide UnboundFor;
    hide SuffixShape;
    if !group.Obj? || !Get(group.fields, "suffix").Str? {
      return Err(InvalidDocument);
    }
    var suffix := Get(group.fields, "suffix").s;
    if !SuffixShape(suffix) || suffix in taken || !Get(group.fields, "required").Bool? {
      return Err(InvalidDocument);
    }
    var value := Read(io, dir, runId, suffix, Get(group.fields, "sha256"));
    if value.Err? {
      return Err(value.error);
    }
    if suffix !in SUPPORTED || Get(group.fields, "format_version") != Int(SUPPORTED[suffix])
       || Get(value.value, "format_version") != Get(group.fields, "format_version")
    {
      return Err(UnsupportedFormat);
    }
    return Ok(value.value);
  }

  function NamesOf(runId: string, groups: seq<Json>): set<string> {
    if groups == [] then {} else NamesOf(runId, groups[..|groups| - 1]) + {runId + SuffixAt(groups[|groups| - 1])}
  }

  lemma NoGroups(io: Reader, dir: Directory, runId: string, groups: seq<Json>)
    ensures GroupsOk(io, dir, runId, groups, 0) && SuffixesOf(groups[..0]) == RESERVED && NamesOf(runId, groups[..0]) == {}
    ensures GroupDocuments(io, dir, runId, groups[..0]) == [] && RequiredDocuments(io, dir, runId, groups[..0]) == []
  {
  }

  lemma OneMoreGroup(io: Reader, dir: Directory, runId: string, groups: seq<Json>, i: nat)
    requires i < |groups| && GroupsOk(io, dir, runId, groups, i)
    ensures GroupsOk(io, dir, runId, groups, i + 1) <==> GroupOk(io, dir, runId, groups[i], SuffixesOf(groups[..i]))
    ensures GroupsOk(io, dir, runId, groups, |groups|) ==> GroupsOk(io, dir, runId, groups, i + 1)
  {
    hide GroupOk;
    hide SuffixesOf;
  }

  lemma OneMoreRead(io: Reader, dir: Directory, runId: string, front: seq<Json>, g: Json)
    ensures SuffixesOf(front + [g]) == SuffixesOf(front) + {SuffixAt(g)}
    ensures NamesOf(runId, front + [g]) == NamesOf(runId, front) + {runId + SuffixAt(g)}
    ensures GroupDocuments(io, dir, runId, front + [g]) == GroupDocuments(io, dir, runId, front) + [GroupDocument(io, dir, runId, g)]
    ensures RequiredDocuments(io, dir, runId, front + [g]) ==
            RequiredDocuments(io, dir, runId, front) + if IsRequired(g) then [GroupDocument(io, dir, runId, g)] else []
  {
    hide GroupDocument;
    hide IsRequired;
    hide SuffixAt;
    assert (front + [g])[..|front|] == front;
  }

  /** The group list: bound, supported, without repetition. */
  method ReadGroups(io: Reader, dir: Directory, runId: string, groups: seq<Json>)
    returns (r: Result<(set<string>, seq<Fields>, seq<Fields>), Reason>)
    ensures r.Ok? <==> GroupsOk(io, dir, runId, groups, |groups|)
    ensures r.Ok? ==> r.value == (NamesOf(runId, groups), GroupDocuments(io, dir, runId, groups), RequiredDocuments(io, dir, runId, groups))
    ensures r.Err? ==> GroupsRefusedFor(io, dir, runId, groups, r.error)
  {
    hide GroupOk;
    hide GroupRefusedFor;
    hide GroupsOk;
    hide SuffixesOf;
    hide NamesOf;
    hide GroupDocuments;
    hide RequiredDocuments;
    hide GroupDocument;
    hide IsRequired;
    hide SuffixAt;
    NoGroups(io, dir, runId, groups);
    var names: set<string>, documents: seq<Fields>, required: seq<Fields> := {}, [], [];
    var taken := RESERVED;
    for i := 0 to |groups|
      invariant GroupsOk(io, dir, runId, groups, i) && taken == SuffixesOf(groups[..i]) && names == NamesOf(runId, groups[..i])
      invariant documents == GroupDocuments(io, dir, runId, groups[..i]) && required == RequiredDocuments(io, dir, runId, groups[..i])
    {
      OneMoreGroup(io, dir, runId, groups, i);
      OneMoreRead(io, dir, runId, groups[..i], groups[i]);
      assert groups[..i + 1] == groups[..i] + [groups[i]];
      var value := ReadGroup(io, dir, runId, groups[i], taken);
      if value.Err? {
        return Err(value.error);
      }
      taken, names := taken + {SuffixAt(groups[i])}, names + {runId + SuffixAt(groups[i])};
      documents := documents + [value.value];
      if IsRequired(groups[i]) {
        required := required + [value.value];
      }
    }
    assert groups[..|groups|] == groups;
    return Ok((names, documents, required));
  }

  predicate AnyIncomplete(required: seq<Fields>) {
    exists i :: 0 <= i < |required| && Get(required[i], "status") == Str("incomplete")
  }

  predicate AllPassed(required: seq<Fields>) {
    forall i :: 0 <= i < |required| ==> Get(required[i], "status") == Str("passed")
  }

  /** The run did not come to its end: its terminal record, its evidence or a required conclusion says so. */
  ghost predicate Stopped(t: Fields, evidence: Fields, required: seq<Fields>) {
    || Get(t, "interrupted") == Bool(true)
    || Get(evidence, "overall") == Str("incomplete")
    || exists d :: d in required && Get(d, "status") == Str("incomplete")
  }

  /** What the answer says, each answer exactly when it is due. */
  ghost predicate Judged(t: Fields, runId: string, evidence: Fields, receipt: Option<Fields>, required: seq<Fields>, r: Verdict) {
    var ran := !Stopped(t, evidence, required);
    var exited := ran && Get(t, "exit_code") == Int(0);
    var checked := exited && PassedChecks(evidence);
    var grouped := checked && forall d :: d in required ==> Get(d, "status") == Str("passed");
    var received := grouped && receipt.Some? && ReceiptCompleted(receipt.value, runId) && Summarised(receipt.value);
    var same := received && IdentityOf(t).Some? && IdentityMatches(IdentityOf(t).value, evidence, required);
    && (r == Ok((IncompleteRun, WasInterrupted)) <==> !ran)
    && (r == Ok((Failed, ExitNonzero)) <==> ran && !exited)
    && (r == Ok((Failed, ChecksNotPassed)) <==> exited && !checked)
    && (r == Ok((Failed, GroupNotPassed)) <==> checked && !grouped)
    && (r == Ok((Failed, ReceiptNotPassed)) <==> grouped && !received)
    && (r == Err(BindingMismatch) <==> received && !same)
    && (r == Ok((Passed, Verified)) <==> same)
  }

  /** What the bound documents say, once all bindings hold. */
  method Judge(t: Fields, runId: string, evidence: Fields, receipt: Option<Fields>, required: seq<Fields>) returns (r: Verdict)
    requires WellTyped(t) && ChecksOk(evidence)
    ensures Judged(t, runId, evidence, receipt, required, r)
  {
    hide IdentityMatches;
    hide Summarised;
    hide ReceiptCompleted;
    hide PassedChecks;
    if Get(t, "interrupted").b || Get(evidence, "overall") == Str("incomplete") || AnyIncomplete(required) {
      return Ok((IncompleteRun, WasInterrupted));
    }
    assert forall d :: d in required ==> Get(d, "status") != Str("incomplete");
    if Get(t, "exit_code") != Int(0) {
      return Ok((Failed, ExitNonzero));
    }
    if !PassedChecks(evidence) {
      return Ok((Failed, ChecksNotPassed));
    }
    if !AllPassed(required) {
      return Ok((Failed, GroupNotPassed));
    }
    assert forall d :: d in required ==> Get(d, "status") == Str("passed");
    if receipt.None? || !ReceiptCompleted(receipt.value, runId) {
      return Ok((Failed, ReceiptNotPassed));
    }
    if !Summarised(receipt.value) {
      return Ok((Failed, ReceiptNotPassed));
    }
    var id := IdentityOf(t);
    if id.None? || !IdentityMatches(id.value, evidence, required) {
      return Err(BindingMismatch);
    }
    return Ok((Passed, Verified));
  }

  function ReceiptIn(io: Reader, dir: Directory, runId: string, t: Fields): Option<Fields> {
    if Get(t, "pytest_receipt_sha256").Null? then None else DocumentOf(io, dir, runId + ".pytest.json", runId)
  }

  function EvidenceIn(io: Reader, dir: Directory, runId: string): Fields {
    var d := DocumentOf(io, dir, runId + ".json", runId);
    if d.Some? then d.value else map[]
  }

  /** The receipt a terminal record binds, if it binds one. */
  ghost predicate ReceiptOk(io: Reader, dir: Directory, runId: string, t: Fields) {
    var digest := Get(t, "pytest_receipt_sha256");
    digest.Null? || (Bound(io, dir, runId, ".pytest.json", digest) && VersionOne(ReceiptIn(io, dir, runId, t).value))
  }

  function BoundHere(runId: string, hasReceipt: bool, groups: seq<Json>): set<string> {
    {runId + ".json"} + (if hasReceipt then {runId + ".pytest.json"} else {}) + NamesOf(runId, groups)
  }

  function DocumentsHere(io: Reader, dir: Directory, runId: string, receipt: Option<Fields>, groups: seq<Json>): seq<Fields> {
    [EvidenceIn(io, dir, runId)] + (if receipt.Some? then [receipt.value] else []) + GroupDocuments(io, dir, runId, groups)
  }

  /** Every link between the bound documents holds, and the record calls the materials consistent. */
  ghost predicate Linked(io: Reader, dir: Directory, runId: string, t: Fields, groups: seq<Json>) {
    var receipt := ReceiptIn(io, dir, runId, t);
    && LinksOk(io, dir, runId, BoundHere(runId, receipt.Some?, groups), receipt.Some?, DocumentsHere(io, dir, runId, receipt, groups))
    && Get(t, "materials_consistent") == Bool(true)
  }

  /** Everything the terminal record binds is there as bound. */
  ghost predicate Sound(io: Reader, dir: Directory, runId: string, t: Fields) {
    && WellTyped(t)
    && var groups := Get(t, "groups").items;
       && Bound(io, dir, runId, ".json", Get(t, "evidence_sha256")) && ReceiptOk(io, dir, runId, t)
       && GroupsOk(io, dir, runId, groups, |groups|) && RequiredDocuments(io, dir, runId, groups) != []
       && Linked(io, dir, runId, t, groups)
  }

  /** Why a terminal record that is not sound is refused. */
  ghost predicate RefusedFor(io: Reader, dir: Directory, runId: string, t: Fields, why: Reason) {
    if !VersionOne(t) then why == UnsupportedFormat
    else if !WellTyped(t) then why == InvalidDocument
    else if !Bound(io, dir, runId, ".json", Get(t, "evidence_sha256"))
      then UnboundFor(io, dir, runId, ".json", Get(t, "evidence_sha256"), why)
    else if !ReceiptOk(io, dir, runId, t) then
      if Bound(io, dir, runId, ".pytest.json", Get(t, "pytest_receipt_sha256")) then why == UnsupportedFormat
      else UnboundFor(io, dir, runId, ".pytest.json", Get(t, "pytest_receipt_sha256"), why)
    else
      var groups := Get(t, "groups").items;
      if !GroupsOk(io, dir, runId, groups, |groups|) then GroupsRefusedFor(io, dir, runId, groups, why)
      else if RequiredDocuments(io, dir, runId, groups) == [] then why == InvalidDocument
      else !Linked(io, dir, runId, t, groups) && why == BindingMismatch
  }

  /** A record confirms its run exactly when its bindings hold and what they say is judged as passed. */
  lemma ConfirmedMeansJudged(io: Reader, dir: Directory, runId: string, t: Fields, r: Verdict)
    requires Sound(io, dir, runId, t)
    requires Judged(t, runId, EvidenceIn(io, dir, runId), ReceiptIn(io, dir, runId, t),
                    RequiredDocuments(io, dir, runId, Get(t, "groups").items), r)
    ensures r == Ok((Passed, Verified)) <==> Confirms(io, dir, runId, t)
  {
    hide PassedChecks;
    hide Bound;
    hide GroupsOk;
    hide LinksOk;
    var required, groups := RequiredDocuments(io, dir, runId, Get(t, "groups").items), Get(t, "groups").items;
    assert (forall i :: 0 <= i < |required| ==> Get(required[i], "status") == Str("passed")) <==>
           forall d :: d in required ==> Get(d, "status") == Str("passed");
    BoundIsRead(io, dir, runId, t);
    if !Get(t, "pytest_receipt_sha256").Null? {
      ReceiptIsListed(io, dir, runId, ReceiptIn(io, dir, runId, t).value, groups);
    } else {
      NullIsUnbound(io, dir, runId, ".pytest.json");
    }
    PassedIsNotIncomplete(EvidenceIn(io, dir, runId));
  }

  lemma PassedIsNotIncomplete(evidence: Fields)
    ensures PassedChecks(evidence) ==> Get(evidence, "overall") == Str("passed")
  {
  }

  lemma BoundIsRead(io: Reader, dir: Directory, runId: string, t: Fields)
    ensures Bound(io, dir, runId, ".json", Get(t, "evidence_sha256")) ==>
              DocumentOf(io, dir, runId + ".json", runId) == Some(EvidenceIn(io, dir, runId))
    ensures Bound(io, dir, runId, ".pytest.json", Get(t, "pytest_receipt_sha256")) ==>
              ReceiptIn(io, dir, runId, t) == DocumentOf(io, dir, runId + ".pytest.json", runId)
              && ReceiptIn(io, dir, runId, t).Some? && !Get(t, "pytest_receipt_sha256").Null?
  {
  }

  lemma ReceiptIsListed(io: Reader, dir: Directory, runId: string, receipt: Fields, groups: seq<Json>)
    ensures BoundHere(runId, true, groups) == BoundNames(runId, groups)
    ensures DocumentsHere(io, dir, runId, Some(receipt), groups) ==
            [EvidenceIn(io, dir, runId), receipt] + GroupDocuments(io, dir, runId, groups)
  {
  }

  lemma ConfirmedIsSound(io: Reader, dir: Directory, runId: string, t: Fields)
    requires Confirms(io, dir, runId, t)
    ensures Sound(io, dir, runId, t)
  {
    hide PassedChecks;
    hide Bound;
    hide GroupsOk;
    hide LinksOk;
    BoundIsRead(io, dir, runId, t);
    ReceiptIsListed(io, dir, runId, ReceiptIn(io, dir, runId, t).value, Get(t, "groups").items);
  }

  /** What reading a terminal record answers. */
  ghost predicate TerminalMeans(io: Reader, dir: Directory, runId: string, t: Fields, r: Verdict) {
    if Sound(io, dir, runId, t) then
      Judged(t, runId, EvidenceIn(io, dir, runId), ReceiptIn(io, dir, runId, t),
             RequiredDocuments(io, dir, runId, Get(t, "groups").items), r)
    else r.Err? && RefusedFor(io, dir, runId, t, r.error)
  }

  /** `_terminal`: an unsound record is refused for its first defect, a sound one is judged by what it binds. */
  method ReadTerminal(io: Reader, dir: Directory, runId: string, t: Fields) returns (r: Verdict)
    requires DocumentOf(io, dir, runId + ".json", runId).Some? && ChecksOk(DocumentOf(io, dir, runId + ".json", runId).value)
    ensures TerminalMeans(io, dir, runId, t, r)
    ensures r == Ok((Passed, Verified)) <==> Confirms(io, dir, runId, t)
  {
    hide IdentityMatches;
    hide Summarised;
    hide ReceiptCompleted;
    hide PassedChecks;
    hide ChecksOk;
    hide Bound;
    hide UnboundFor;
    hide GroupsOk;
    hide GroupsRefusedFor;
    hide LinksOk;
    hide Judged;
    hide Confirms;
    hide BoundNames;
    hide Hex;
    BoundIsRead(io, dir, runId, t);
    if Confirms(io, dir, runId, t) { ConfirmedIsSound(io, dir, runId, t); }
    if !VersionOne(t) {
      return Err(UnsupportedFormat);
    }
    if !WellTyped(t) {
      return Err(InvalidDocument);
    }
    var groups := Get(t, "groups").items;
    var evidence := Read(io, dir, runId, ".json", Get(t, "evidence_sha256"));
    if evidence.Err? {
      return Err(evidence.error);
    }
    var receipt: Option<Fields> := None;
    if !Get(t, "pytest_receipt_sha256").Null? {
      var value := Read(io, dir, runId, ".pytest.json", Get(t, "pytest_receipt_sha256"));
      if value.Err? {
        return Err(value.error);
      }
      if !VersionOne(value.value) {
        return Err(UnsupportedFormat);
      }
      receipt := Some(value.value);
    }
    assert ReceiptOk(io, dir, runId, t) && receipt == ReceiptIn(io, dir, runId, t);
    var read := ReadGroups(io, dir, runId, groups);
    if read.Err? {
      return Err(read.error);
    }
    var (names, documents, required) := read.value;
    if required == [] {
      return Err(InvalidDocument);
    }
    var all := [evidence.value] + (if receipt.Some? then [receipt.value] else []) + documents;
    var bound := {runId + ".json"} + (if receipt.Some? then {runId + ".pytest.json"} else {}) + names;
    if !LinksOk(io, dir, runId, bound, receipt.Some?, all) {
      return Err(BindingMismatch);
    }
    if !Get(t, "materials_consistent").b {
      return Err(BindingMismatch);
    }
    r := Judge(t, runId, evidence.value, receipt, required);
    ConfirmedMeansJudged(io, dir, runId, t, r);
  }

  lemma NullIsUnbound(io: Reader, dir: Directory, runId: string, suffix: string)
    ensures !Bound(io, dir, runId, suffix, Null)
  {
  }

  /** The evidence of the run can be read: there, of this run, of a known format and with the planned checks. */
  ghost predicate Readable(io: Reader, dir: Directory, runId: string) {
    && Hex(runId, 32) && DocumentOf(io, dir, runId + ".json", runId).Some?
    && VersionOne(DocumentOf(io, dir, runId + ".json", runId).value) && ChecksOk(DocumentOf(io, dir, runId + ".json", runId).value)
  }

  /** An evidence that was finished although the run did not come to its end. */
  ghost predicate BrokenOff(evidence: Fields) {
    Get(evidence, "overall") == Str("incomplete") && Truthy(Get(evidence, "finished_at"))
  }

  /** What the answer for one run says, each status exactly when it is due. */
  ghost predicate Answers(io: Reader, dir: Directory, runId: string, status: Status, reason: Reason) {
    var evidence, name := EvidenceIn(io, dir, runId), runId + ".terminal.json";
    var missing := Readable(io, dir, runId) && name !in dir;
    var terminal := DocumentOf(io, dir, name, runId);
    var told := Readable(io, dir, runId) && terminal.Some?;
    var sound := told && Sound(io, dir, runId, terminal.value);
    && (status.Passed? <==> told && Confirms(io, dir, runId, terminal.value))
    && (status.Unconfirmed? <==> missing && !BrokenOff(evidence))
    && (status.IncompleteRun? <==>
          || (missing && BrokenOff(evidence))
          || (sound && Stopped(terminal.value, evidence, RequiredDocuments(io, dir, runId, Get(terminal.value, "groups").items))))
    && (status.Unavailable? <==>
          || !Hex(runId, 32) || runId + ".json" !in dir
          || (told && !sound && RefusedFor(io, dir, runId, terminal.value, MaterialUnavailable)))
    && (status.Passed? ==> reason.Verified?) && (status.Unconfirmed? ==> reason.TerminalMissing?)
    && (status.IncompleteRun? ==> reason.WasInterrupted?)
    && (status.Unavailable? ==> reason == if Hex(runId, 32) then MaterialUnavailable else RunIdMismatch)
    && (status.Failed? ==> FailedFor(io, dir, runId, reason))
  }

  lemma UnboundOnce(io: Reader, dir: Directory, runId: string, suffix: string, digest: Json, a: Reason, b: Reason)
    requires UnboundFor(io, dir, runId, suffix, digest, a) && UnboundFor(io, dir, runId, suffix, digest, b)
    ensures a == b
  {
  }

  lemma GroupsRefusedOnce(io: Reader, dir: Directory, runId: string, groups: seq<Json>, a: Reason, b: Reason)
    requires GroupsRefusedFor(io, dir, runId, groups, a) && GroupsRefusedFor(io, dir, runId, groups, b)
    ensures a == b
  {
    hide GroupOk;
    hide GroupRefusedFor;
    hide SuffixesOf;
    var i :| 0 <= i < |groups| && GroupsOk(io, dir, runId, groups, i)
             && GroupRefusedFor(io, dir, runId, groups[i], SuffixesOf(groups[..i]), a);
    var j :| 0 <= j < |groups| && GroupsOk(io, dir, runId, groups, j)
             && GroupRefusedFor(io, dir, runId, groups[j], SuffixesOf(groups[..j]), b);
    RefusedIsNotOk(io, dir, runId, groups[i], SuffixesOf(groups[..i]), a);
    RefusedIsNotOk(io, dir, runId, groups[j], SuffixesOf(groups[..j]), b);
    assert i == j;
    GroupRefusedOnce(io, dir, runId, groups[i], SuffixesOf(groups[..i]), a, b);
  }

  lemma RefusedIsNotOk(io: Reader, dir: Directory, runId: string, group: Json, taken: set<string>, why: Reason)
    requires GroupRefusedFor(io, dir, runId, group, taken, why)
    ensures !GroupOk(io, dir, runId, group, taken)
  {
    hide Bound;
    hide UnboundFor;
    hide SuffixShape;
  }

  lemma GroupRefusedOnce(io: Reader, dir: Directory, runId: string, group: Json, taken: set<string>, a: Reason, b: Reason)
    requires GroupRefusedFor(io, dir, runId, group, taken, a) && GroupRefusedFor(io, dir, runId, group, taken, b)
    ensures a == b
  {
    hide Bound;
    hide GroupOk;
    hide SuffixShape;
    hide UnboundFor;
    if EntryOk(group, taken) && !Bound(io, dir, runId, Get(group.fields, "suffix").s, Get(group.fields, "sha256")) {
      UnboundOnce(io, dir, runId, Get(group.fields, "suffix").s, Get(group.fields, "sha256"), a, b);
    }
  }

  /** A record that is not sound is refused for one reason. */
  lemma RefusedOnce(io: Reader, dir: Directory, runId: string, t: Fields, a: Reason, b: Reason)
    requires RefusedFor(io, dir, runId, t, a) && RefusedFor(io, dir, runId, t, b)
    ensures a == b
  {
    hide Bound;
    hide GroupsOk;
    hide GroupsRefusedFor;
    hide Linked;
    hide ReceiptOk;
    hide RequiredDocuments;
    hide UnboundFor;
    hide VersionOne;
    if a != b {
      if !Bound(io, dir, runId, ".json", Get(t, "evidence_sha256")) {
        UnboundOnce(io, dir, runId, ".json", Get(t, "evidence_sha256"), a, b);
      } else if !ReceiptOk(io, dir, runId, t) {
        UnboundOnce(io, dir, runId, ".pytest.json", Get(t, "pytest_receipt_sha256"), a, b);
      } else {
        GroupsRefusedOnce(io, dir, runId, Get(t, "groups").items, a, b);
      }
    }
  }

  lemma JudgedIsOne(t: Fields, runId: string, evidence: Fields, receipt: Option<Fields>, required: seq<Fields>, r: Verdict)
    requires Judged(t, runId, evidence, receipt, required, r)
    ensures r.Ok? ==> (r.value.0.Passed? && r.value.1.Verified?) || (r.value.0.IncompleteRun? && r.value.1.WasInterrupted?) || r.value.0.Failed?
    ensures r.Ok? && r.value.0.IncompleteRun? <==> Stopped(t, evidence, required)
    ensures r != Err(MaterialUnavailable)
  {
    hide IdentityMatches;
    hide PassedChecks;
    hide Stopped;
    hide Summarised;
  }

  /** A verdict that reads as incomplete, unavailable or failed does so for one cause. */
  lemma VerdictsAreOne(io: Reader, dir: Directory, runId: string, t: Fields, r: Verdict)
    requires TerminalMeans(io, dir, runId, t, r)
    ensures r.Ok? ==> (r.value.0.Passed? && r.value.1.Verified?) || (r.value.0.IncompleteRun? && r.value.1.WasInterrupted?) || r.value.0.Failed?
    ensures r.Ok? && r.value.0.IncompleteRun? <==>
              Sound(io, dir, runId, t)
              && Stopped(t, EvidenceIn(io, dir, runId), RequiredDocuments(io, dir, runId, Get(t, "groups").items))
    ensures r == Err(MaterialUnavailable) <==> !Sound(io, dir, runId, t) && RefusedFor(io, dir, runId, t, MaterialUnavailable)
  {
    hide GroupsOk;
    hide Judged;
    hide Linked;
    hide RefusedFor;
    if Sound(io, dir, runId, t) {
      assert WellTyped(t);
      JudgedIsOne(t, runId, EvidenceIn(io, dir, runId), ReceiptIn(io, dir, runId, t),
                  RequiredDocuments(io, dir, runId, Get(t, "groups").items), r);
    } else if RefusedFor(io, dir, runId, t, MaterialUnavailable) {
      RefusedOnce(io, dir, runId, t, r.error, MaterialUnavailable);
    }
  }

  /** Why the answer is a failure: the evidence, the terminal record, what it binds, or what that says. */
  ghost predicate FailedFor(io: Reader, dir: Directory, runId: string, reason: Reason) {
    var name := runId + ".terminal.json";
    if !Readable(io, dir, runId) then
      reason == if ObjectIn(io, dir, runId + ".json").None? then InvalidDocument
                else if DocumentOf(io, dir, runId + ".json", runId).None? then RunIdMismatch
                else if !VersionOne(EvidenceIn(io, dir, runId)) then UnsupportedFormat else InvalidDocument
    else if DocumentOf(io, dir, name, runId).None? then
      reason == if ObjectIn(io, dir, name).None? then InvalidDocument else RunIdMismatch
    else
      var t := DocumentOf(io, dir, name, runId).value;
      TerminalMeans(io, dir, runId, t, Ok((Failed, reason))) || TerminalMeans(io, dir, runId, t, Err(reason))
  }

  /** `query_status`: the answer for one run, read from the files as they are. */
  method QueryStatus(io: Reader, dir: Directory, runId: string) returns (status: Status, reason: Reason)
    ensures Answers(io, dir, runId, status, reason)
  {
    hide Confirms;
    hide ChecksOk;
    hide TerminalMeans;
    hide Sound;
    hide RefusedFor;
    hide Stopped;
    hide RequiredDocuments;
    if !Hex(runId, 32) {
      return Unavailable, RunIdMismatch;
    }
    var evidence := DocumentOf(io, dir, runId + ".json", runId);
    if runId + ".json" !in dir {
      return Unavailable, MaterialUnavailable;
    }
    if evidence.None? {
      return Failed, if ObjectIn(io, dir, runId + ".json").Some? then RunIdMismatch else InvalidDocument;
    }
    if !VersionOne(evidence.value) {
      return Failed, UnsupportedFormat;
    }
    if !ChecksOk(evidence.value) {
      return Failed, InvalidDocument;
    }
    var name := runId + ".terminal.json";
    if name !in dir {
      if Get(evidence.value, "overall") == Str("incomplete") && Truthy(Get(evidence.value, "finished_at")) {
        return IncompleteRun, WasInterrupted;
      }
      return Unconfirmed, TerminalMissing;
    }
    var terminal := DocumentOf(io, dir, name, runId);
    if terminal.None? {
      return Failed, if ObjectIn(io, dir, name).Some? then RunIdMismatch else InvalidDocument;
    }
    var verdict := ReadTerminal(io, dir, runId, terminal.value);
    VerdictsAreOne(io, dir, runId, terminal.value, verdict);
    match verdict
    case Ok(answer) => return answer.0, answer.1;
    case Err(why) => return if why.MaterialUnavailable? then Unavailable else Failed, why;
  }
}

/** Matching confirmations against the sensitive changes that require one. */
module Confirmations {
  import opened Prelude

  /** A value of a confirmation document. */
  datatype Cell = Text(text: string) | Null | OtherCell(kind: int)

  type Document = map<string, Cell>

  datatype Origin = BaselineDrift | CurrentChange

  datatype Change = Change(path: string, origin: Origin, sensitive: bool, category: string, oldSha: Option<string>,
                           newSha: Option<string>, oldEntry: string, newEntry: string, affected: seq<string>,
                           confirmed: seq<string>)

  datatype TreeIdentity = TreeIdentity(base: string, head: string, target: string, commit: string, worktree: string)

  datatype Issue = InvalidConfirmation | ConfirmationRequired(group: string, path: string)

  function Sha(s: Option<string>): Cell { if s.Some? then Text(s.value) else Null }

  function OriginText(o: Origin): string { if o.CurrentChange? then "current_change" else "baseline_drift" }

  /** What a confirmation of one group for one change has to say, apart from its reason. */
  function EntryOf(identity: TreeIdentity, c: Change, group: string): Document {
    map["base" := Text(identity.base), "head" := Text(identity.head), "integration_target" := Text(identity.target),
        "target_commit" := Text(identity.commit), "worktree_sha256" := Text(identity.worktree),
        "group" := Text(group), "path" := Text(c.path), "origin" := Text(OriginText(c.origin)),
        "category" := Text(c.category), "old_sha256" := Sha(c.oldSha), "new_sha256" := Sha(c.newSha),
        "old_entry_sha256" := Text(c.oldEntry), "new_entry_sha256" := Text(c.newEntry)]
  }

  /** A required confirmation: which change, for which group, and what it says. */
  datatype Expected = Expected(change: nat, group: string, entry: Document)

  predicate Sensitive(c: Change) { c.origin.CurrentChange? && c.sensitive }

  function ForGroups(identity: TreeIdentity, c: Change, i: nat, groups: seq<string>): (r: seq<Expected>)
    ensures |r| == |groups| && forall k :: 0 <= k < |r| ==> r[k] == Expected(i, groups[k], EntryOf(identity, c, groups[k]))
  {
    seq(|groups|, k requires 0 <= k < |groups| => Expected(i, groups[k], EntryOf(identity, c, groups[k])))
  }

  /** The sensitive current changes with each of their affected groups, change by change. */
  function RequiredBy(identity: TreeIdentity, changes: seq<Change>): seq<Expected> {
    if changes == [] then [] else
      var i := |changes| - 1;
      RequiredBy(identity, changes[..i])
      + if Sensitive(changes[i]) then ForGroups(identity, changes[i], i, changes[i].affected) else []
  }

  /** One current change to a path, and every affected group listed once. */
  ghost predicate DistinctChanges(changes: seq<Change>) {
    && (forall i, j :: 0 <= i < j < |changes| && Sensitive(changes[i]) && Sensitive(changes[j]) ==> changes[i].path != changes[j].path)
    && (forall i :: 0 <= i < |changes| ==> DistinctGroups(changes[i].affected))
  }

  ghost predicate DistinctGroups(groups: seq<string>) {
    forall i, j :: 0 <= i < j < |groups| ==> groups[i] != groups[j]
  }

  ghost predicate DistinctEntries(required: seq<Expected>) {
    forall i, j :: 0 <= i < j < |required| ==> required[i].entry != required[j].entry
  }

  lemma {:induction false} RequiredIsSound(identity: TreeIdentity, changes: seq<Change>, k: nat)
    requires k < |RequiredBy(identity, changes)|
    ensures var r := RequiredBy(identity, changes)[k];
            r.change < |changes| && Sensitive(changes[r.change]) && r.group in changes[r.change].affected
            && r.entry == EntryOf(identity, changes[r.change], r.group)
  {
    var i := |changes| - 1;
    var front := RequiredBy(identity, changes[..i]);
    if k < |front| {
      RequiredIsSound(identity, changes[..i], k);
      assert RequiredBy(identity, changes)[k] == front[k];
    } else {
      assert RequiredBy(identity, changes)[k] == ForGroups(identity, changes[i], i, changes[i].affected)[k - |front|];
    }
  }

  lemma EntriesDiffer(identity: TreeIdentity, c: Change, d: Change, g: string, h: string)
    requires c.path != d.path || g != h
    ensures EntryOf(identity, c, g) != EntryOf(identity, d, h)
  {
    assert EntryOf(identity, c, g)["path"] == Text(c.path) && EntryOf(identity, d, h)["path"] == Text(d.path);
    assert EntryOf(identity, c, g)["group"] == Text(g) && EntryOf(identity, d, h)["group"] == Text(h);
  }

  lemma {:induction false} RequiredIsDistinct(identity: TreeIdentity, changes: seq<Change>)
    requires DistinctChanges(changes)
    ensures DistinctEntries(RequiredBy(identity, changes))
  {
    if changes != [] {
      var i := |changes| - 1;
      var front, back := RequiredBy(identity, changes[..i]), ForGroups(identity, changes[i], i, changes[i].affected);
      RequiredIsDistinct(identity, changes[..i]);
      var all := RequiredBy(identity, changes);
      forall a, b | 0 <= a < b < |all| ensures all[a].entry != all[b].entry {
        if b < |front| {
        } else if a < |front| {
          RequiredIsSound(identity, changes[..i], a);
          EntriesDiffer(identity, changes[front[a].change], changes[i], front[a].group, changes[i].affected[b - |front|]);
        } else {
          EntriesDiffer(identity, changes[i], changes[i], changes[i].affected[a - |front|], changes[i].affected[b - |front|]);
        }
      }
    }
  }

  // ----- one confirmation -----------------------------------------------------------------------

  /** A reason that is text, not blank, and printable. */
  predicate ReasonOk(c: Cell) {
    && c.Text? && (exists i :: 0 <= i < |c.text| && c.text[i] != ' ')
    && forall i :: 0 <= i < |c.text| ==> ' ' <= c.text[i] <= '~'
  }

  /** The document is the entry with a valid reason added, and nothing else. */
  predicate Matches(document: Option<Document>, entry: Document) {
    && document.Some? && document.value.Keys == entry.Keys + {"reason"}
    && (forall k :: k in entry ==> k in document.value && document.value[k] == entry[k])
    && "reason" in document.value && ReasonOk(document.value["reason"])
  }

  lemma MatchIsUnique(document: Option<Document>, required: seq<Expected>, i: nat, j: nat)
    requires DistinctEntries(required) && i < |required| && j < |required|
    requires "reason" !in required[i].entry && "reason" !in required[j].entry
    requires Matches(document, required[i].entry) && Matches(document, required[j].entry)
    ensures i == j
  {
  }

  /** One of the first k confirmations says what the entry requires. */
  ghost predicate Covered(documents: seq<Option<Document>>, k: nat, entry: Document)
    requires k <= |documents|
  {
    exists j :: 0 <= j < k && Matches(documents[j], entry)
  }

  /** The confirmation fits no entry, or only one that an earlier confirmation already took. */
  ghost predicate Bad(documents: seq<Option<Document>>, required: seq<Expected>, j: nat)
    requires j < |documents|
  {
    forall i :: 0 <= i < |required| && Matches(documents[j], required[i].entry) ==> Covered(documents, j, required[i].entry)
  }

  ghost function InvalidOnes(documents: seq<Option<Document>>, required: seq<Expected>, k: nat): seq<Issue>
    requires k <= |documents|
  {
    if k == 0 then [] else
      InvalidOnes(documents, required, k - 1) + if Bad(documents, required, k - 1) then [InvalidConfirmation] else []
  }

  ghost function MissingOnes(documents: seq<Option<Document>>, changes: seq<Change>, required: seq<Expected>, n: nat): seq<Issue>
    requires n <= |required| && forall i :: 0 <= i < |required| ==> required[i].change < |changes|
  {
    if n == 0 then [] else
      MissingOnes(documents, changes, required, n - 1)
      + if Covered(documents, |documents|, required[n - 1].entry) then []
        else [ConfirmationRequired(required[n - 1].group, changes[required[n - 1].change].path)]
  }

  ghost predicate Fits(document: Option<Document>, required: seq<Expected>) {
    exists i :: 0 <= i < |required| && Matches(document, required[i].entry)
  }

  ghost predicate AtMostOnce(documents: seq<Option<Document>>, entry: Document) {
    forall j, k :: 0 <= j < k < |documents| ==> !Matches(documents[j], entry) || !Matches(documents[k], entry)
  }

  ghost predicate ExactlyOnce(documents: seq<Option<Document>>, entry: Document) {
    Covered(documents, |documents|, entry) && AtMostOnce(documents, entry)
  }

  /** Confirmations and required entries pair off: each confirmation fits one entry, each entry has one confirmation. */
  ghost predicate PairOff(documents: seq<Option<Document>>, required: seq<Expected>) {
    && (forall j :: 0 <= j < |documents| ==> Fits(documents[j], required))
    && forall i :: 0 <= i < |required| ==> ExactlyOnce(documents, required[i].entry)
  }

  // ----- the loop -------------------------------------------------------------------------------

  ghost predicate NoReason(required: seq<Expected>) {
    forall i :: 0 <= i < |required| ==> "reason" !in required[i].entry
  }

  lemma RequiredHasNoReason(identity: TreeIdentity, changes: seq<Change>)
    ensures NoReason(RequiredBy(identity, changes))
    ensures forall i :: 0 <= i < |RequiredBy(identity, changes)| ==> RequiredBy(identity, changes)[i].change < |changes|
  {
  }

  /** The indices of the entries a document matches. */
  method FindMatches(document: Option<Document>, required: seq<Expected>) returns (matches: seq<nat>)
    ensures forall i :: i in matches <==> 0 <= i < |required| && Matches(document, required[i].entry)
    ensures forall a, b :: 0 <= a < b < |matches| ==> matches[a] < matches[b]
  {
    hide Matches;
    matches := [];
    for i := 0 to |required|
      invariant forall k :: k in matches <==> 0 <= k < i && Matches(document, required[k].entry)
      invariant forall a, b :: 0 <= a < b < |matches| ==> matches[a] < matches[b]
    {
      if Matches(document, required[i].entry) {
        forall a | 0 <= a < |matches| ensures matches[a] < i { assert matches[a] in matches; }
        matches := matches + [i];
      }
    }
  }

  /** With distinct entries a document matches at most one of them. */
  lemma OneMatch(document: Option<Document>, required: seq<Expected>, matches: seq<nat>)
    requires DistinctEntries(required) && NoReason(required)
    requires forall i :: i in matches <==> 0 <= i < |required| && Matches(document, required[i].entry)
    requires forall a, b :: 0 <= a < b < |matches| ==> matches[a] < matches[b]
    ensures |matches| <= 1
  {
    hide Matches;
    if |matches| > 1 {
      assert matches[0] in matches && matches[1] in matches;
      MatchIsUnique(document, required, matches[0], matches[1]);
    }
  }

  lemma CoveredOn(documents: seq<Option<Document>>, k: nat, entry: Document)
    requires k < |documents|
    ensures Covered(documents, k + 1, entry) <==> Covered(documents, k, entry) || Matches(documents[k], entry)
  {
  }

  /** The changes differ in their confirmed groups only. */
  ghost predicate OnlyConfirms(before: seq<Change>, after: seq<Change>) {
    |after| == |before| && forall i :: 0 <= i < |before| ==> after[i] == before[i].(confirmed := after[i].confirmed)
  }

  /** The groups confirmed for change c by the first k documents. */
  ghost predicate ConfirmsExactly(documents: seq<Option<Document>>, k: nat, required: seq<Expected>, c: nat, groups: seq<string>)
    requires k <= |documents|
  {
    && DistinctGroups(groups)
    && forall g :: g in groups <==> exists i :: 0 <= i < |required| && Wants(required[i], c, g) && Covered(documents, k, required[i].entry)
  }

  ghost predicate Wants(r: Expected, c: nat, g: string) { r.change == c && r.group == g }

  ghost predicate Confirmed(documents: seq<Option<Document>>, k: nat, required: seq<Expected>, before: seq<Change>, after: seq<Change>)
    requires k <= |documents|
  {
    && OnlyConfirms(before, after)
    && forall c :: 0 <= c < |before| ==>
         before[c].confirmed <= after[c].confirmed
         && ConfirmsExactly(documents, k, required, c, after[c].confirmed[|before[c].confirmed|..])
  }

  lemma NothingConfirmed(documents: seq<Option<Document>>, required: seq<Expected>, changes: seq<Change>)
    ensures Confirmed(documents, 0, required, changes, changes)
  {
  }

  /** Two required confirmations of one group for one change are the same one. */
  lemma SameWish(identity: TreeIdentity, changes: seq<Change>, i: nat, j: nat, c: nat, g: string)
    requires DistinctChanges(changes) && i < |RequiredBy(identity, changes)| && j < |RequiredBy(identity, changes)|
    requires Wants(RequiredBy(identity, changes)[i], c, g) && Wants(RequiredBy(identity, changes)[j], c, g)
    ensures i == j
  {
    RequiredIsSound(identity, changes, i);
    RequiredIsSound(identity, changes, j);
    RequiredIsDistinct(identity, changes);
  }

  lemma GroupsOn(documents: seq<Option<Document>>, k: nat, required: seq<Expected>, idx: nat, c: nat, groups: seq<string>)
    requires k < |documents| && idx < |required| && ConfirmsExactly(documents, k, required, c, groups)
    requires !Covered(documents, k, required[idx].entry)
    requires forall i :: 0 <= i < |required| ==> (Matches(documents[k], required[i].entry) <==> i == idx)
    requires forall i :: 0 <= i < |required| && Wants(required[i], required[idx].change, required[idx].group) ==> i == idx
    ensures ConfirmsExactly(documents, k + 1, required, c,
                            if c == required[idx].change then groups + [required[idx].group] else groups)
  {
    hide Matches;
    hide Covered;
    var g := required[idx].group;
    var after := if c == required[idx].change then groups + [g] else groups;
    forall i | 0 <= i < |required|
      ensures Covered(documents, k + 1, required[i].entry) <==> Covered(documents, k, required[i].entry) || i == idx
    {
      CoveredOn(documents, k, required[i].entry);
    }
    if c == required[idx].change { assert Wants(required[idx], c, g); }
    forall h
      ensures h in after <==>
                exists i :: 0 <= i < |required| && Wants(required[i], c, h) && Covered(documents, k + 1, required[i].entry)
    {
      if i :| 0 <= i < |required| && Wants(required[i], c, h) && Covered(documents, k, required[i].entry) {
        assert Covered(documents, k + 1, required[i].entry);
      }
    }
    if c == required[idx].change { assert g !in groups; }
  }

  lemma ConfirmedStays(documents: seq<Option<Document>>, k: nat, required: seq<Expected>, before: seq<Change>, after: seq<Change>)
    requires k < |documents| && Confirmed(documents, k, required, before, after)
    requires forall i :: 0 <= i < |required| && Matches(documents[k], required[i].entry) ==> Covered(documents, k, required[i].entry)
    ensures Confirmed(documents, k + 1, required, before, after)
  {
  }

  function Append(changes: seq<Change>, c: nat, group: string): seq<Change>
    requires c < |changes|
  {
    changes[c := changes[c].(confirmed := changes[c].confirmed + [group])]
  }

  lemma ConfirmedGrows(documents: seq<Option<Document>>, k: nat, required: seq<Expected>, before: seq<Change>, after: seq<Change>, idx: nat)
    requires k < |documents| && idx < |required| && Confirmed(documents, k, required, before, after)
    requires required[idx].change < |before| && !Covered(documents, k, required[idx].entry)
    requires forall i :: 0 <= i < |required| ==> (Matches(documents[k], required[i].entry) <==> i == idx)
    requires forall i :: 0 <= i < |required| && Wants(required[i], required[idx].change, required[idx].group) ==> i == idx
    ensures Confirmed(documents, k + 1, required, before, Append(after, required[idx].change, required[idx].group))
  {
    hide Matches;
    hide Covered;
    hide ConfirmsExactly;
    var later := Append(after, required[idx].change, required[idx].group);
    forall c | 0 <= c < |before|
      ensures before[c].confirmed <= later[c].confirmed
              && ConfirmsExactly(documents, k + 1, required, c, later[c].confirmed[|before[c].confirmed|..])
    {
      var groups := after[c].confirmed[|before[c].confirmed|..];
      GroupsOn(documents, k, required, idx, c, groups);
      assert c == required[idx].change ==>
        later[c].confirmed[|before[c].confirmed|..] == groups + [required[idx].group];
    }
  }

  class Baseline {
    const identity: TreeIdentity
    var changes: seq<Change>
    var issues: seq<Issue>

    constructor (identity: TreeIdentity, changes: seq<Change>, issues: seq<Issue>)
      ensures this.identity == identity && this.changes == changes && this.issues == issues
    {
      this.identity, this.changes, this.issues := identity, changes, issues;
    }

    /** The first loop: every confirmation is recorded, or reported as invalid. */
    method TakeConfirmations(given: seq<Option<Document>>, required: seq<Expected>) returns (seen: set<nat>)
      requires DistinctChanges(changes) && required == RequiredBy(identity, changes)
      modifies this
      ensures forall i :: 0 <= i < |required| ==> (i in seen <==> Covered(given, |given|, required[i].entry))
      ensures issues == old(issues) + InvalidOnes(given, required, |given|)
      ensures Confirmed(given, |given|, required, old(changes), changes)
    {
      hide Matches;
      hide Covered;
      hide Confirmed;
      hide DistinctChanges;
      hide EntryOf;
      RequiredHasNoReason(identity, changes);
      RequiredIsDistinct(identity, changes);
      NothingConfirmed(given, required, changes);
      NothingCovered(given, required);
      seen := {};
      for k := 0 to |given|
        invariant forall i :: 0 <= i < |required| ==> (i in seen <==> Covered(given, k, required[i].entry))
        invariant issues == old(issues) + InvalidOnes(given, required, k)
        invariant Confirmed(given, k, required, old(changes), changes) && |changes| == |old(changes)|
      {
        hide DistinctEntries;
        var matches := FindMatches(given[k], required);
        OneMatch(given[k], required, matches);
        SeenOn(given, k, required, matches);
        if |matches| != 1 || matches[0] in seen {
          assert forall i :: i in matches ==> i == matches[0];
          ConfirmedStays(given, k, required, old(changes), changes);
          issues := issues + [InvalidConfirmation];
        } else {
          var index := matches[0];
          assert index in matches && forall i :: i in matches ==> i == index;
          seen := seen + {index};
          OnlyWish(identity, old(changes), index);
          ConfirmedGrows(given, k, required, old(changes), changes, index);
          changes := Append(changes, required[index].change, required[index].group);
        }
      }
    }

    /** The second loop: every requirement nobody confirmed is reported. */
    method RequireRest(given: seq<Option<Document>>, required: seq<Expected>, seen: set<nat>)
      requires forall i :: 0 <= i < |required| ==> required[i].change < |changes|
      requires forall i :: 0 <= i < |required| ==> (i in seen <==> Covered(given, |given|, required[i].entry))
      modifies `issues
      ensures issues == old(issues) + MissingOnes(given, changes, required, |required|)
    {
      hide Covered;
      for n := 0 to |required|
        invariant issues == old(issues) + MissingOnes(given, changes, required, n)
      {
        if n !in seen {
          issues := issues + [ConfirmationRequired(required[n].group, changes[required[n].change].path)];
        }
      }
    }

    /** `_confirm`: record what is confirmed, and an issue for every confirmation or requirement left over. */
    method Confirm(documents: Option<seq<Option<Document>>>)
      requires DistinctChanges(changes)
      modifies this
      ensures documents.None? ==> changes == old(changes) && issues == old(issues) + [InvalidConfirmation]
      ensures documents.Some? ==>
                var required := RequiredBy(identity, old(changes));
                && (forall i :: 0 <= i < |required| ==> required[i].change < |old(changes)|)
                && issues == old(issues) + Leftovers(documents.value, old(changes), required)
                && Confirmed(documents.value, |documents.value|, required, old(changes), changes)
    {
      hide Matches;
      hide Covered;
      hide DistinctChanges;
      hide ConfirmsExactly;
      hide MissingOnes;
      hide InvalidOnes;
      if documents.None? {
        issues := issues + [InvalidConfirmation];
        return;
      }
      var given := documents.value;
      var required := RequiredBy(identity, changes);
      RequiredHasNoReason(identity, changes);
      var seen := TakeConfirmations(given, required);
      RequireRest(given, required, seen);
      SamePaths(given, required, old(changes), changes, |required|);
    }
  }

  /** The issues a confirmation run adds. */
  ghost function Leftovers(documents: seq<Option<Document>>, changes: seq<Change>, required: seq<Expected>): seq<Issue>
    requires forall i :: 0 <= i < |required| ==> required[i].change < |changes|
  {
    InvalidOnes(documents, required, |documents|) + MissingOnes(documents, changes, required, |required|)
  }

  lemma SeenOn(documents: seq<Option<Document>>, k: nat, required: seq<Expected>, matches: seq<nat>)
    requires k < |documents| && forall i :: i in matches <==> 0 <= i < |required| && Matches(documents[k], required[i].entry)
    ensures forall i :: 0 <= i < |required| ==>
              (Covered(documents, k + 1, required[i].entry) <==> Covered(documents, k, required[i].entry) || i in matches)
  {
  }

  lemma OnlyWish(identity: TreeIdentity, changes: seq<Change>, index: nat)
    requires DistinctChanges(changes) && index < |RequiredBy(identity, changes)|
    ensures var required := RequiredBy(identity, changes);
            forall i :: 0 <= i < |required| && Wants(required[i], required[index].change, required[index].group) ==> i == index
  {
    var required := RequiredBy(identity, changes);
    forall i | 0 <= i < |required| && Wants(required[i], required[index].change, required[index].group) ensures i == index {
      SameWish(identity, changes, i, index, required[index].change, required[index].group);
    }
  }

  /** Recording confirmations does not change what is reported as missing. */
  lemma {:induction false} SamePaths(documents: seq<Option<Document>>, required: seq<Expected>, before: seq<Change>, after: seq<Change>,
                                      n: nat)
    requires n <= |required| && |after| == |before| && forall i :: 0 <= i < |required| ==> required[i].change < |before|
    requires forall c :: 0 <= c < |before| ==> after[c] == before[c].(confirmed := after[c].confirmed)
    ensures MissingOnes(documents, after, required, n) == MissingOnes(documents, before, required, n)
  {
    if n > 0 { SamePaths(documents, required, before, after, n - 1); }
  }

  lemma NothingCovered(documents: seq<Option<Document>>, required: seq<Expected>)
    ensures forall i :: 0 <= i < |required| ==> !Covered(documents, 0, required[i].entry)
  {
  }

  // ----- the verdict ----------------------------------------------------------------------------

  lemma {:induction false} NoneInvalid(documents: seq<Option<Document>>, required: seq<Expected>, k: nat)
    requires k <= |documents|
    ensures InvalidOnes(documents, required, k) == [] <==> forall j :: 0 <= j < k ==> !Bad(documents, required, j)
  {
    hide Bad;
    if k > 0 { NoneInvalid(documents, required, k - 1); }
  }

  lemma {:induction false} NoneMissing(documents: seq<Option<Document>>, changes: seq<Change>, required: seq<Expected>, n: nat)
    requires n <= |required| && forall i :: 0 <= i < |required| ==> required[i].change < |changes|
    ensures MissingOnes(documents, changes, required, n) == [] <==>
              forall i :: 0 <= i < n ==> Covered(documents, |documents|, required[i].entry)
  {
    hide Covered;
    if n > 0 { NoneMissing(documents, changes, required, n - 1); }
  }

  lemma NotBadMeansFirst(documents: seq<Option<Document>>, required: seq<Expected>)
    requires DistinctEntries(required) && NoReason(required)
    ensures (forall j :: 0 <= j < |documents| ==> !Bad(documents, required, j)) <==>
              (forall j :: 0 <= j < |documents| ==> Fits(documents[j], required))
              && forall i :: 0 <= i < |required| ==> AtMostOnce(documents, required[i].entry)
  {
    hide Matches;
    if forall j :: 0 <= j < |documents| ==> !Bad(documents, required, j) {
      forall i | 0 <= i < |required| ensures AtMostOnce(documents, required[i].entry) {
        forall j, k | 0 <= j < k < |documents|
          ensures !Matches(documents[j], required[i].entry) || !Matches(documents[k], required[i].entry)
        {
          FirstTakesIt(documents, required, i, j, k);
        }
      }
      forall j | 0 <= j < |documents| ensures Fits(documents[j], required) {
        assert !Bad(documents, required, j);
      }
    }
    if (forall j :: 0 <= j < |documents| ==> Fits(documents[j], required))
       && forall i :: 0 <= i < |required| ==> AtMostOnce(documents, required[i].entry)
    {
      forall j | 0 <= j < |documents| ensures !Bad(documents, required, j) {
        assert Fits(documents[j], required);
        var i :| 0 <= i < |required| && Matches(documents[j], required[i].entry);
        assert AtMostOnce(documents, required[i].entry);
      }
    }
  }

  /** A second document for an entry that is taken already is bad. */
  lemma FirstTakesIt(documents: seq<Option<Document>>, required: seq<Expected>, i: nat, j: nat, k: nat)
    requires DistinctEntries(required) && NoReason(required) && i < |required| && j < k < |documents|
    ensures Matches(documents[j], required[i].entry) && Matches(documents[k], required[i].entry) ==> Bad(documents, required, k)
  {
  }

  /** No issue is added exactly when confirmations and required pairs match one to one. */
  lemma NoIssueMeansPairing(identity: TreeIdentity, changes: seq<Change>, documents: seq<Option<Document>>)
    requires DistinctChanges(changes)
    ensures var required := RequiredBy(identity, changes);
            && (forall i :: 0 <= i < |required| ==> required[i].change < |changes|)
            && (Leftovers(documents, changes, required) == [] <==> PairOff(documents, required))
  {
    hide Matches;
    hide Covered;
    hide Bad;
    hide Fits;
    hide AtMostOnce;
    hide DistinctChanges;
    hide EntryOf;
    var required := RequiredBy(identity, changes);
    RequiredHasNoReason(identity, changes);
    RequiredIsDistinct(identity, changes);
    NoneInvalid(documents, required, |documents|);
    NoneMissing(documents, changes, required, |required|);
    NotBadMeansFirst(documents, required);
  }

  // ----- the order of confirmations does not matter ------------------------------------------------

  lemma CoveredByMember(documents: seq<Option<Document>>, entry: Document)
    ensures Covered(documents, |documents|, entry) <==> exists d :: d in documents && Matches(d, entry)
  {
  }

  function Times<T(==)>(items: seq<T>, x: T): nat {
    if items == [] then 0 else Times(items[..|items| - 1], x) + if items[|items| - 1] == x then 1 else 0
  }

  lemma {:induction false} TimesIsMultiplicity<T>(items: seq<T>, x: T)
    ensures Times(items, x) == multiset(items)[x]
  {
    if items != [] {
      TimesIsMultiplicity(items[..|items| - 1], x);
      assert items == items[..|items| - 1] + [items[|items| - 1]];
    }
  }

  lemma {:induction false} TwicePositions<T>(items: seq<T>, x: T, j: nat, k: nat)
    requires j < k < |items| && items[j] == x && items[k] == x
    ensures Times(items, x) >= 2
  {
    var front := items[..|items| - 1];
    if k == |items| - 1 {
      OncePosition(front, x, j);
    } else {
      TwicePositions(front, x, j, k);
    }
  }

  lemma {:induction false} OncePosition<T>(items: seq<T>, x: T, j: nat)
    requires j < |items| && items[j] == x
    ensures Times(items, x) >= 1
  {
    if j < |items| - 1 { OncePosition(items[..|items| - 1], x, j); }
  }

  lemma {:induction false} TwoPositions<T>(items: seq<T>, x: T) returns (j: nat, k: nat)
    requires Times(items, x) >= 2
    ensures j < k < |items| && items[j] == x && items[k] == x
  {
    var front := items[..|items| - 1];
    if items[|items| - 1] == x {
      j := OnePosition(front, x);
      k := |items| - 1;
    } else {
      j, k := TwoPositions(front, x);
    }
  }

  lemma {:induction false} OnePosition<T>(items: seq<T>, x: T) returns (j: nat)
    requires Times(items, x) >= 1
    ensures j < |items| && items[j] == x
  {
    if items[|items| - 1] == x { j := |items| - 1; } else { j := OnePosition(items[..|items| - 1], x); }
  }

  /** Two documents that both match an entry sit at two places in every rearrangement. */
  lemma PermutedAtMostOnce(documents: seq<Option<Document>>, others: seq<Option<Document>>, entry: Document)
    requires multiset(documents) == multiset(others) && AtMostOnce(documents, entry)
    ensures AtMostOnce(others, entry)
  {
    hide Matches;
    forall j, k | 0 <= j < k < |others| ensures !Matches(others[j], entry) || !Matches(others[k], entry) {
      if Matches(others[j], entry) && Matches(others[k], entry) {
        assert others[j] in multiset(documents) && others[k] in multiset(documents);
        if others[j] == others[k] {
          TwicePositions(others, others[j], j, k);
          TimesIsMultiplicity(others, others[j]);
          TimesIsMultiplicity(documents, others[j]);
          var a, b := TwoPositions(documents, others[j]);
        }
      }
    }
  }

  lemma PermutedPairing(documents: seq<Option<Document>>, others: seq<Option<Document>>, required: seq<Expected>)
    requires multiset(documents) == multiset(others) && PairOff(documents, required)
    ensures PairOff(others, required)
  {
    hide Matches;
    hide Covered;
    hide AtMostOnce;
    hide Fits;
    forall d ensures d in documents <==> d in others {
      assert d in multiset(documents) <==> d in multiset(others);
    }
    forall i | 0 <= i < |required| ensures ExactlyOnce(others, required[i].entry) {
      assert ExactlyOnce(documents, required[i].entry);
      CoveredByMember(documents, required[i].entry);
      CoveredByMember(others, required[i].entry);
      PermutedAtMostOnce(documents, others, required[i].entry);
    }
    forall j | 0 <= j < |others| ensures Fits(others[j], required) {
      assert others[j] in documents;
    }
  }

  /** Rearranging the confirmations never changes the verdict. */
  lemma OrderDoesNotMatter(identity: TreeIdentity, changes: seq<Change>, documents: seq<Option<Document>>, others: seq<Option<Document>>)
    requires DistinctChanges(changes) && multiset(documents) == multiset(others)
    ensures var required := RequiredBy(identity, changes);
            && (forall i :: 0 <= i < |required| ==> required[i].change < |changes|)
            && (Leftovers(documents, changes, required) == [] <==> Leftovers(others, changes, required) == [])
  {
    hide Leftovers;
    hide PairOff;
    NoIssueMeansPairing(identity, changes, documents);
    NoIssueMeansPairing(identity, changes, others);
    if PairOff(documents, RequiredBy(identity, changes)) { PermutedPairing(documents, others, RequiredBy(identity, changes)); }
    if PairOff(others, RequiredBy(identity, changes)) { PermutedPairing(others, documents, RequiredBy(identity, changes)); }
  }

  /** Confirmed groups are affected groups of the change they were confirmed for. */
  lemma ConfirmedGroupsAreAffected(identity: TreeIdentity, changes: seq<Change>, documents: seq<Option<Document>>, c: nat,
                                   groups: seq<string>, g: string)
    requires c < |changes| && ConfirmsExactly(documents, |documents|, RequiredBy(identity, changes), c, groups) && g in groups
    ensures Sensitive(changes[c]) && g in changes[c].affected
  {
    hide Covered;
    var required := RequiredBy(identity, changes);
    var i :| 0 <= i < |required| && Wants(required[i], c, g) && Covered(documents, |documents|, required[i].entry);
    RequiredIsSound(identity, changes, i);
  }
}

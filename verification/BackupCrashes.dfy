/** The steps of a backup or restore run, and what holds at every point where the run may crash. */
module BackupCrashes {
  import opened Prelude
  import opened FileTree
  import opened TextOrder
  import opened BackupManifest
  import opened BackupVerification
  import opened BackupDisk
  import opened BackupFill
  import opened BackupService

  // ----- steps that disturb nobody ----------------------------------------------------------------

  /** Our steps only made absent directories on the way to the staging tree, or changed something inside it. */
  ghost predicate Harmless(steps: seq<Step>, staging: Path) {
    forall i :: 0 <= i < |steps| && steps[i].own ==>
      Adds(steps[i], staging) || Inside(steps[i].before, steps[i].after, staging)
  }

  lemma HarmlessTwice(a: seq<Step>, b: seq<Step>, staging: Path)
    requires Harmless(a, staging) && Harmless(b, staging)
    ensures Harmless(a + b, staging)
  {
  }

  lemma MakingIsHarmless(steps: seq<Step>, p: Path, staging: Path)
    requires OnlyMakes(steps, p) && p <= staging
    ensures Harmless(steps, staging)
  {
  }

  lemma StayingInsideIsHarmless(steps: seq<Step>, staging: Path)
    requires Confined(steps, staging)
    ensures Harmless(steps, staging)
  {
  }

  lemma NobodyIsHarmed(steps: seq<Step>, staging: Path)
    requires forall i :: 0 <= i < |steps| ==> !steps[i].own
    ensures Harmless(steps, staging)
  {
  }

  /** Harmless, one operation later. */
  lemma HarmlessOn(past: seq<Step>, middle: seq<Step>, last: seq<Step>, staging: Path)
    requires past <= middle <= last && Harmless(middle[|past|..], staging) && Harmless(last[|middle|..], staging)
    ensures Harmless(last[|past|..], staging)
  {
  }

  // ----- publication ------------------------------------------------------------------------------

  /** The last step published a complete batch under a name that was free, and everything before disturbed nobody. */
  ghost predicate PublishedLast(codec: Codec, steps: seq<Step>, staging: Path, destination: Path, m: Manifest, replace: bool) {
    && steps != [] && Harmless(steps[..|steps| - 1], staging)
    && Renames(steps[|steps| - 1], staging, destination, replace)
    && AsPublished(codec, Subtree(steps[|steps| - 1].before, staging), m)
  }

  /** The steps of a run: harmless ones, and possibly the publication at the end. */
  ghost predicate RunOf(codec: Codec, steps: seq<Step>, staging: Path, destination: Path, m: Manifest, replace: bool) {
    Harmless(steps, staging) || PublishedLast(codec, steps, staging, destination, m, replace)
  }

  /** A publication disturbs somebody: the destination was not there before. */
  lemma HarmlessIsNotPublished(codec: Codec, steps: seq<Step>, staging: Path, destination: Path, m: Manifest, replace: bool)
    requires Harmless(steps, staging) && Apart(staging, destination)
    ensures !PublishedLast(codec, steps, staging, destination, m, replace)
  {
    hide DatabaseAgrees;
    hide Expected;
    if PublishedLast(codec, steps, staging, destination, m, replace) {
      RenameIsSeen(codec, steps[|steps| - 1], staging, destination, m, replace);
    }
  }

  /** A publication neither makes a single directory nor stays inside the staging tree. */
  lemma RenameIsSeen(codec: Codec, s: Step, staging: Path, destination: Path, m: Manifest, replace: bool)
    requires Renames(s, staging, destination, replace) && AsPublished(codec, Subtree(s.before, staging), m)
    requires Apart(staging, destination)
    ensures !Adds(s, staging) && !Inside(s.before, s.after, staging)
  {
    hide DatabaseAgrees;
    hide Expected;
    var inside := destination + [MANIFEST_FILE];
    assert staging + [] == staging && [] in Subtree(s.before, staging);
    assert staging in s.before && staging !in s.after;
    assert [MANIFEST_FILE] in Subtree(s.after, destination) && destination < inside;
    if staging <= inside { BothPrefixes(staging, destination, inside); }
    assert !Same(s.before, s.after, inside);
  }

  lemma SiblingsApart(parent: Path, a: string, b: string)
    requires a != b
    ensures Apart(parent + [a], parent + [b])
    ensures (parent + [a])[..|parent + [a]| - 1] == parent && (parent + [b])[..|parent + [b]| - 1] == parent
  {
    assert (parent + [a])[|parent|] == a && (parent + [b])[|parent|] == b;
  }

  // ----- at every crash point ---------------------------------------------------------------------

  lemma HarmlessLeaves(s: Step, staging: Path, x: Path)
    requires s.own && (Adds(s, staging) || Inside(s.before, s.after, staging)) && Apart(x, staging)
    ensures Subtree(s.after, x) == Subtree(s.before, x)
  {
    if Adds(s, staging) {
      var q :| q <= staging && AddsDirectory(s, q);
      SubtreeElsewhere(s.before, q, Directory(OWNER_ALL), x);
    } else {
      var a, b := Subtree(s.after, x), Subtree(s.before, x);
      forall r ensures (r in a <==> r in b) && (r in a ==> a[r] == b[r]) {
        Suffix(x, r);
        if staging <= x + r { BothPrefixes(staging, x, x + r); }
        assert Same(s.before, s.after, x + r);
      }
    }
  }

  lemma RenameLeaves(s: Step, staging: Path, destination: Path, replace: bool, x: Path)
    requires Renames(s, staging, destination, replace) && Apart(x, staging) && Apart(x, destination)
    ensures Subtree(s.after, x) == Subtree(s.before, x)
  {
    var a, b := Subtree(s.after, x), Subtree(s.before, x);
    forall r ensures (r in a <==> r in b) && (r in a ==> a[r] == b[r]) {
      Suffix(x, r);
      if staging <= x + r { BothPrefixes(staging, x, x + r); }
      if destination <= x + r { BothPrefixes(destination, x, x + r); }
      assert Same(s.before, s.after, x + r);
    }
  }

  /** Nobody else touched the tree at x in the first k steps. */
  ghost predicate LeftAlone(steps: seq<Step>, k: nat, x: Path)
    requires k <= |steps|
  {
    forall i :: 0 <= i < k && !steps[i].own ==> Subtree(steps[i].after, x) == Subtree(steps[i].before, x)
  }

  /** The state a crash after k steps leaves. */
  function CrashState(steps: seq<Step>, k: nat): Nodes
    requires steps != [] && k <= |steps|
  {
    if k == 0 then steps[0].before else steps[k - 1].after
  }

  /** An existing batch that nobody else touches is unchanged wherever the run stops. */
  lemma {:induction false} ExistingBatchesStay(codec: Codec, steps: seq<Step>, staging: Path, destination: Path, m: Manifest,
                                                replace: bool, x: Path, k: nat)
    requires RunOf(codec, steps, staging, destination, m, replace) && steps != [] && Chained(steps, steps[|steps| - 1].after)
    requires Apart(x, staging) && Apart(x, destination) && k <= |steps| && LeftAlone(steps, k, x)
    ensures Subtree(CrashState(steps, k), x) == Subtree(CrashState(steps, 0), x)
    decreases k
  {
    hide Subtree;
    hide AsPublished;
    if k > 0 {
      ExistingBatchesStay(codec, steps, staging, destination, m, replace, x, k - 1);
      assert steps[k - 1].before == CrashState(steps, k - 1);
      if steps[k - 1].own {
        if k < |steps| || Harmless(steps, staging) {
          assert k < |steps| ==> steps[..|steps| - 1][k - 1] == steps[k - 1];
          HarmlessLeaves(steps[k - 1], staging, x);
        } else {
          RenameLeaves(steps[k - 1], staging, destination, replace, x);
        }
      }
    }
  }

  /**
   * A destination that nobody else touches is, wherever the run stops, as it was before (so absent, if it was) or a
   * tree that passed the whole check, and the latter only after the last step.
   */
  lemma {:induction false} DestinationIsAbsentOrVerified(codec: Codec, steps: seq<Step>, staging: Path, destination: Path,
                                                          m: Manifest, replace: bool, k: nat)
    requires RunOf(codec, steps, staging, destination, m, replace) && steps != [] && Chained(steps, steps[|steps| - 1].after)
    requires Apart(destination, staging) && k <= |steps| && LeftAlone(steps, k, destination)
    ensures k < |steps| ==> Subtree(CrashState(steps, k), destination) == Subtree(CrashState(steps, 0), destination)
    ensures Subtree(CrashState(steps, k), destination) == Subtree(CrashState(steps, 0), destination)
            || AsPublished(codec, Subtree(CrashState(steps, k), destination), m)
    decreases k
  {
    hide Subtree;
    hide AsPublished;
    if k > 0 {
      DestinationIsAbsentOrVerified(codec, steps, staging, destination, m, replace, k - 1);
      assert steps[k - 1].before == CrashState(steps, k - 1);
      if steps[k - 1].own {
        if k < |steps| || Harmless(steps, staging) {
          assert k < |steps| ==> steps[..|steps| - 1][k - 1] == steps[k - 1];
          HarmlessLeaves(steps[k - 1], staging, destination);
        }
      }
    }
  }

  /** Publishing takes nothing away: whatever is lost was an empty directory, and only a restore may replace one. */
  lemma PublishingLosesNothing(codec: Codec, steps: seq<Step>, staging: Path, destination: Path, m: Manifest, replace: bool, i: nat,
                               p: Path)
    requires RunOf(codec, steps, staging, destination, m, replace) && i < |steps| && steps[i].own
    requires p in steps[i].before && !(staging <= p)
    ensures Same(steps[i].before, steps[i].after, p)
            || (replace && p == destination && steps[i].before[p].Directory? && forall q :: p < q ==> q !in steps[i].before)
  {
    hide Subtree;
    hide AsPublished;
    if i < |steps| - 1 || Harmless(steps, staging) {
      assert i < |steps| - 1 ==> steps[..|steps| - 1][i] == steps[i];
      if Adds(steps[i], staging) {
        var q :| q <= staging && AddsDirectory(steps[i], q);
      }
    } else {
      assert Renames(steps[i], staging, destination, replace);
      assert destination <= p && p != destination ==> destination < p;
    }
  }

  /** Wherever the run stops: other batches are unchanged, and the destination is as it was or complete. */
  ghost predicate CrashSafe(codec: Codec, steps: seq<Step>, staging: Path, destination: Path, m: Manifest) {
    forall k: nat :: steps != [] && k <= |steps| ==>
      && (forall x :: Apart(x, staging) && Apart(x, destination) && LeftAlone(steps, k, x) ==>
            Subtree(CrashState(steps, k), x) == Subtree(CrashState(steps, 0), x))
      && (LeftAlone(steps, k, destination) ==>
            || Subtree(CrashState(steps, k), destination) == Subtree(CrashState(steps, 0), destination)
            || AsPublished(codec, Subtree(CrashState(steps, k), destination), m))
  }

  lemma RunsAreCrashSafe(codec: Codec, steps: seq<Step>, staging: Path, destination: Path, m: Manifest, replace: bool)
    requires RunOf(codec, steps, staging, destination, m, replace) && Apart(destination, staging)
    requires steps != [] ==> Chained(steps, steps[|steps| - 1].after)
    ensures CrashSafe(codec, steps, staging, destination, m)
  {
    hide Subtree;
    hide AsPublished;
    hide RunOf;
    hide LeftAlone;
    hide Chained;
    forall k: nat, x | steps != [] && k <= |steps| && Apart(x, staging) && Apart(x, destination) && LeftAlone(steps, k, x)
      ensures Subtree(CrashState(steps, k), x) == Subtree(CrashState(steps, 0), x)
    {
      ExistingBatchesStay(codec, steps, staging, destination, m, replace, x, k);
    }
    forall k: nat | steps != [] && k <= |steps| && LeftAlone(steps, k, destination)
      ensures || Subtree(CrashState(steps, k), destination) == Subtree(CrashState(steps, 0), destination)
              || AsPublished(codec, Subtree(CrashState(steps, k), destination), m)
    {
      DestinationIsAbsentOrVerified(codec, steps, staging, destination, m, replace, k);
    }
  }

  lemma SinceIsChained(past: seq<Step>, trace: seq<Step>, now: Nodes)
    requires past <= trace && Chained(trace, now)
    ensures var steps := trace[|past|..]; steps != [] ==> steps[|steps| - 1].after == now && Chained(steps, now)
  {
  }
}

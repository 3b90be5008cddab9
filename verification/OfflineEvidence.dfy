/** The offline check run as a state machine: evidence is rewritten after every step, and an interrupt may come anywhere. */
module OfflineEvidence {
  import opened Prelude

  datatype Status = NotRun | Passed | Failed

  datatype Reason = NotStarted | NoReason | Skipped | PriorFailure | Interrupted | LaunchError | ExitNonzero

  datatype Item = Item(id: string, status: Status, reason: Reason, exit: Option<int>)

  datatype Check = Check(id: string, enabled: bool)

  datatype Overall = Incomplete | OverallPassed | OverallFailed

  /** A persisted evidence document. */
  datatype Document = Document(items: seq<Item>, finished: bool, completed: bool, overall: Overall)

  /** How the process of one check ends. */
  datatype Ending = Exit(code: int) | LaunchFails | InterruptedWhileRunning

  // ----- what a document may say ----------------------------------------------------------------

  /** Done with: it ran with exit code 0, or the plan skips it. */
  predicate Good(item: Item, check: Check) {
    || (item.status.Passed? && item.reason.NoReason? && item.exit == Some(0) && check.enabled)
    || (item.status.NotRun? && item.reason.Skipped? && item.exit.None? && !check.enabled)
  }

  predicate Untouched(item: Item) {
    item.status.NotRun? && item.reason in {NotStarted, PriorFailure, Interrupted} && item.exit.None?
  }

  /** The one check that stopped the run, or that an interrupt caught before its result was recorded. */
  predicate Stopper(item: Item) {
    || (item.status.Failed? && item.reason in {Interrupted, LaunchError, ExitNonzero} && item.exit != Some(0))
    || (item.status.NotRun? && item.reason in {NotStarted, PriorFailure, Interrupted})
  }

  /** `k` checks are done with, one may have stopped the run, and the rest did not run. */
  ghost predicate Shape(items: seq<Item>, checks: seq<Check>, k: nat) {
    && |items| == |checks| && k <= |checks|
    && (forall i :: 0 <= i < |items| ==> items[i].id == checks[i].id)
    && (forall i :: 0 <= i < k ==> Good(items[i], checks[i]))
    && (k < |checks| ==> Stopper(items[k]))
    && forall i :: k < i < |items| ==> Untouched(items[i])
  }

  ghost predicate Shaped(items: seq<Item>, checks: seq<Check>) {
    exists k :: Shape(items, checks, k)
  }

  predicate AllPassed(items: seq<Item>) {
    forall i :: 0 <= i < |items| ==> items[i].status.Passed?
  }

  /** Every document a run persists, at whatever moment: its shape, and an overall verdict only at the end. */
  ghost predicate Sound(d: Document, checks: seq<Check>) {
    && Shaped(d.items, checks)
    && d.overall == (if !d.completed then Incomplete else if AllPassed(d.items) then OverallPassed else OverallFailed)
    && (d.completed ==> d.finished)
  }

  /** A passed verdict means that every planned check was enabled and exited with 0. */
  lemma PassedMeansAllExitedZero(d: Document, checks: seq<Check>, i: nat)
    requires Sound(d, checks) && d.overall.OverallPassed? && i < |checks|
    ensures i < |d.items| && d.items[i].id == checks[i].id && checks[i].enabled && d.items[i].exit == Some(0)
  {
    var k :| Shape(d.items, checks, k);
    assert d.items[i].status.Passed?;
  }

  /** At most one item failed, and nothing ran after it. */
  lemma AtMostOneFailure(d: Document, checks: seq<Check>, i: nat, j: nat)
    requires Sound(d, checks) && i < j < |d.items| && d.items[i].status.Failed?
    ensures d.items[j].status.NotRun? && d.items[j].exit.None?
  {
    var k :| Shape(d.items, checks, k);
  }

  // ----- what a run records ---------------------------------------------------------------------

  /** The item of an enabled check after its ending was recorded. */
  function Recorded(check: Check, ending: Ending): Item {
    match ending
    case InterruptedWhileRunning => Item(check.id, Failed, Interrupted, None)
    case LaunchFails => Item(check.id, Failed, LaunchError, None)
    case Exit(code) =>
      if code == 0 then Item(check.id, Passed, NoReason, Some(0))
      else Item(check.id, Failed, if code < 0 then Interrupted else ExitNonzero, Some(code))
  }

  predicate Interrupting(ending: Ending) {
    ending.InterruptedWhileRunning? || (ending.Exit? && ending.code < 0)
  }

  /** The first enabled check that does not exit with 0 stops the run; `f` counts the checks before it. */
  ghost predicate StopsAt(checks: seq<Check>, endings: seq<Ending>, f: nat)
    requires |checks| == |endings|
  {
    && f <= |checks|
    && (forall i :: 0 <= i < f ==> !checks[i].enabled || endings[i] == Exit(0))
    && (f < |checks| ==> checks[f].enabled && endings[f] != Exit(0))
  }

  /** Every check before the stop passed or was skipped, the one that stopped the run says how, and the rest say why not. */
  ghost predicate AsRun(items: seq<Item>, checks: seq<Check>, endings: seq<Ending>, f: nat)
    requires |checks| == |endings| && f <= |checks|
  {
    && |items| == |checks|
    && (forall i :: 0 <= i < f ==>
          items[i] == if checks[i].enabled then Item(checks[i].id, Passed, NoReason, Some(0))
                      else Item(checks[i].id, NotRun, Skipped, None))
    && (f < |checks| ==> items[f] == Recorded(checks[f], endings[f]))
    && (forall i :: f < i < |checks| ==>
          items[i] == Item(checks[i].id, NotRun, if Interrupting(endings[f]) then Interrupted else PriorFailure, None))
  }

  /** The run came to its stop or its end, and the items say how. */
  ghost predicate Concluded(items: seq<Item>, checks: seq<Check>, endings: seq<Ending>, interrupted: bool)
    requires |checks| == |endings|
  {
    exists f: nat :: StopsAt(checks, endings, f) && AsRun(items, checks, endings, f)
                     && (interrupted <==> f < |checks| && Interrupting(endings[f]))
  }

  lemma StoppedRun(items: seq<Item>, checks: seq<Check>, endings: seq<Ending>, k: nat, interrupted: bool)
    requires |checks| == |endings| && k < |checks| && Shape(items, checks, k)
    requires checks[k].enabled && endings[k] != Exit(0) && items[k] == Recorded(checks[k], endings[k])
    requires interrupted <==> Interrupting(endings[k])
    requires forall i :: 0 <= i < k ==> (checks[i].enabled ==> endings[i] == Exit(0))
    requires forall i :: k < i < |checks| ==>
               items[i] == Item(checks[i].id, NotRun, if interrupted then Interrupted else PriorFailure, None)
    ensures Concluded(items, checks, endings, interrupted)
  {
    assert StopsAt(checks, endings, k) && AsRun(items, checks, endings, k);
  }

  lemma FinishedRun(items: seq<Item>, checks: seq<Check>, endings: seq<Ending>)
    requires |checks| == |endings| && Shape(items, checks, |checks|)
    requires forall i :: 0 <= i < |checks| ==> (checks[i].enabled ==> endings[i] == Exit(0))
    ensures Concluded(items, checks, endings, false)
  {
    assert StopsAt(checks, endings, |checks|) && AsRun(items, checks, endings, |checks|);
  }

  /** Everything passed exactly when every check is enabled and exits with 0. */
  lemma ConcludedMeans(items: seq<Item>, checks: seq<Check>, endings: seq<Ending>, interrupted: bool)
    requires |checks| == |endings| && Concluded(items, checks, endings, interrupted)
    ensures AllPassed(items) <==> forall i :: 0 <= i < |checks| ==> checks[i].enabled && endings[i] == Exit(0)
  {
    var f: nat :| StopsAt(checks, endings, f) && AsRun(items, checks, endings, f);
    if f < |checks| { assert !items[f].status.Passed?; }
    if AllPassed(items) {
      forall i | 0 <= i < |checks| ensures checks[i].enabled && endings[i] == Exit(0) { assert items[i].status.Passed?; }
    }
  }

  // ----- the run --------------------------------------------------------------------------------

  class Evidence {
    const checks: seq<Check>
    var items: seq<Item>
    var finished: bool
    var completed: bool
    var overall: Overall
    ghost var persisted: seq<Document>

    constructor (checks: seq<Check>)
      ensures this.checks == checks && Running(0) && persisted == []
    {
      this.checks := checks;
      items := seq(|checks|, i requires 0 <= i < |checks| => Item(checks[i].id, NotRun, NotStarted, None));
      finished, completed, overall, persisted := false, false, Incomplete, [];
    }

    /** The first k checks are done with and nothing else was touched. */
    ghost predicate Running(k: nat)
      reads this
    {
      && Shape(items, checks, k) && !finished && !completed && overall.Incomplete?
      && forall i :: k <= i < |items| ==> items[i] == Item(checks[i].id, NotRun, NotStarted, None)
    }

    /** Every document persisted so far is sound, and none gives a verdict. */
    ghost predicate NoVerdictYet()
      reads this
    {
      forall d :: d in persisted ==> Sound(d, checks) && !d.completed && d.overall.Incomplete?
    }

    method Persist()
      requires Shaped(items, checks) && !completed && overall.Incomplete? && NoVerdictYet()
      modifies `persisted
      ensures NoVerdictYet() && persisted == old(persisted) + [Document(items, finished, completed, overall)]
    {
      persisted := persisted + [Document(items, finished, completed, overall)];
    }

    /** What one check's ending records; an interrupt may fall between any two updates. */
    method RecordEnding(k: nat, ending: Ending) returns (stopped: bool, interrupted: bool, raised: bool)
      requires k < |checks| && Running(k) && checks[k].enabled && NoVerdictYet()
      modifies `items
      ensures NoVerdictYet() && !finished && !completed && overall.Incomplete?
      ensures |items| == |checks| && forall i :: 0 <= i < |items| && i != k ==> items[i] == old(items)[i]
      ensures items[k].id == checks[k].id
      ensures raised ==> Good(items[k], checks[k]) || Stopper(items[k])
      ensures !raised && !stopped ==> Good(items[k], checks[k]) && !interrupted
      ensures !raised && stopped ==> Stopper(items[k]) && items[k].status.Failed?
      ensures !raised ==> (interrupted <==> Interrupting(ending))
      ensures !raised ==> (stopped <==> ending != Exit(0)) && items[k] == Recorded(checks[k], ending)
    {
      stopped, interrupted, raised := false, false, false;
      match ending
      case InterruptedWhileRunning =>
        items := items[k := items[k].(status := Failed, reason := Interrupted)];
        stopped, interrupted := true, true;
      case LaunchFails =>
        items := items[k := items[k].(status := Failed, reason := LaunchError)];
        stopped := true;
      case Exit(code) =>
        items := items[k := items[k].(exit := Some(code))];
        if * {
          raised := true; // the interrupt falls between the exit code and the status
          return;
        }
        if code == 0 {
          items := items[k := items[k].(status := Passed, reason := NoReason)];
        } else if code < 0 {
          items := items[k := items[k].(status := Failed, reason := Interrupted)];
          stopped, interrupted := true, true;
        } else {
          items := items[k := items[k].(status := Failed, reason := ExitNonzero)];
          stopped := true;
        }
      if * {
        raised := true;
      }
    }

    /** `_run_checks`: check by check, persisting after each; `raised` is an interrupt outside of a check. */
    method RunChecks(endings: seq<Ending>) returns (interrupted: bool, raised: bool)
      requires |endings| == |checks| && Running(0) && NoVerdictYet()
      modifies `items, `persisted
      ensures NoVerdictYet() && Shaped(items, checks) && !finished && !completed && overall.Incomplete?
      ensures !raised && !interrupted ==>
                (AllPassed(items) <==> forall i :: 0 <= i < |checks| ==> checks[i].enabled && endings[i] == Exit(0))
      ensures !raised ==> Concluded(items, checks, endings, interrupted)
    {
      hide Concluded;
      hide Recorded;
      hide Interrupting;
      hide AllPassed;
      hide Good;
      hide Stopper;
      hide Untouched;
      hide Sound;
      interrupted, raised := false, false;
      var k := 0;
      while k < |checks|
        invariant 0 <= k <= |checks| && Running(k) && NoVerdictYet()
        invariant forall i :: 0 <= i < k ==> (checks[i].enabled ==> endings[i] == Exit(0))
        invariant !interrupted && !raised
      {
        ghost var before := items;
        if !checks[k].enabled {
          items := items[k := items[k].(reason := Skipped)];
          SkippedIsGood(checks[k]);
        } else {
          var stopped;
          stopped, interrupted, raised := RecordEnding(k, endings[k]);
          if raised {
            ShapedAt(items, checks, k);
            interrupted := false;
            return;
          }
          if stopped {
            ShapedAt(items, checks, k);
            Persist();
            raised := SkipTheRest(k, interrupted);
            if !raised {
              StoppedRun(items, checks, endings, k, interrupted);
              ConcludedMeans(items, checks, endings, interrupted);
            }
            return;
          }
        }
        OneMoreGood(before, items, checks, k);
        if * {
          raised := true;
          return;
        }
        Persist();
        k := k + 1;
        if * {
          raised := true;
          return;
        }
      }
      FinishedRun(items, checks, endings);
      ConcludedMeans(items, checks, endings, false);
    }

    /** After the run has stopped every later check only gets its reason. */
    method SkipTheRest(k: nat, interrupted: bool) returns (raised: bool)
      requires k < |checks| && Shape(items, checks, k) && !finished && !completed && overall.Incomplete? && NoVerdictYet()
      requires !items[k].status.Passed?
      modifies `items, `persisted
      ensures NoVerdictYet() && Shape(items, checks, k) && items[..k + 1] == old(items)[..k + 1]
      ensures !raised ==> forall i :: k < i < |checks| ==>
                items[i] == Item(checks[i].id, NotRun, if interrupted then Interrupted else PriorFailure, None)
    {
      raised := false;
      for i := k + 1 to |checks|
        invariant NoVerdictYet() && Shape(items, checks, k) && items[..k + 1] == old(items)[..k + 1]
        invariant forall j :: k < j < i ==>
          items[j] == Item(checks[j].id, NotRun, if interrupted then Interrupted else PriorFailure, None)
      {
        items := items[i := items[i].(reason := if interrupted then Interrupted else PriorFailure)];
        assert Shape(items, checks, k);
        if * {
          return true;
        }
        Persist();
      }
    }

    /** The handler of an interrupt: whatever had not started is marked. */
    method MarkInterrupted()
      requires Shaped(items, checks)
      modifies `items
      ensures Shaped(items, checks)
    {
      var k: nat;
      ghost var shape :| Shape(items, checks, shape);
      k := 0;
      while k < |items|
        invariant 0 <= k <= |items| && Shape(items, checks, shape)
      {
        if items[k].status.NotRun? && items[k].reason.NotStarted? {
          items := items[k := items[k].(reason := Interrupted)];
        }
        k := k + 1;
      }
    }

    /**
     * `run_offline_verification`: an interrupt before, between or inside the checks leaves an incomplete document;
     * otherwise the last document, and only that one, gives the verdict.
     */
    method Run(endings: seq<Ending>) returns (interrupted: bool)
      requires |endings| == |checks| && |checks| > 0 && Running(0) && persisted == []
      modifies this
      ensures forall d :: d in persisted ==> Sound(d, checks)
      ensures persisted != [] && persisted[|persisted| - 1] == Document(items, finished, completed, overall)
      ensures interrupted ==> forall d :: d in persisted ==> !d.completed && d.overall.Incomplete?
      ensures !interrupted ==> completed && finished
      ensures !interrupted ==> (overall.OverallPassed? <==> forall i :: 0 <= i < |checks| ==> checks[i].enabled && endings[i] == Exit(0))
      ensures forall i :: 0 <= i < |persisted| - 1 ==> !persisted[i].completed && persisted[i].overall.Incomplete?
      ensures !interrupted ==> Concluded(items, checks, endings, false)
    {
      hide Concluded;
      interrupted := false;
      var raised := false;
      if * {
        raised := true; // before anything was persisted
      } else {
        ShapedAt(items, checks, 0);
        Persist();
        if * {
          raised := true; // while the metadata is collected
        } else {
          Persist();
          interrupted, raised := RunChecks(endings);
        }
      }
      if raised {
        interrupted := true;
        MarkInterrupted();
      }
      finished := true;
      completed := !interrupted;
      if !interrupted {
        overall := if AllPassed(items) then OverallPassed else OverallFailed;
      }
      persisted := persisted + [Document(items, finished, completed, overall)];
    }
  }

  lemma SkippedIsGood(check: Check)
    ensures !check.enabled ==> Good(Item(check.id, NotRun, Skipped, None), check)
  {
  }

  lemma OneMoreGood(before: seq<Item>, items: seq<Item>, checks: seq<Check>, k: nat)
    requires k < |checks| && Shape(before, checks, k) && |items| == |before|
    requires forall i :: 0 <= i < |items| && i != k ==> items[i] == before[i]
    requires items[k].id == checks[k].id && Good(items[k], checks[k])
    requires forall i :: k < i < |before| ==> before[i] == Item(checks[i].id, NotRun, NotStarted, None)
    ensures Shape(items, checks, k + 1)
  {
  }

  lemma ShapedAt(items: seq<Item>, checks: seq<Check>, k: nat)
    requires |items| == |checks| && k <= |checks|
    requires forall i :: 0 <= i < |items| ==> items[i].id == checks[i].id
    requires forall i :: 0 <= i < k ==> Good(items[i], checks[i])
    requires k < |checks| ==> Good(items[k], checks[k]) || Stopper(items[k])
    requires forall i :: k < i < |items| ==> Untouched(items[i])
    ensures Shaped(items, checks)
  {
    if k < |checks| && Good(items[k], checks[k]) && !Stopper(items[k]) {
      assert k + 1 < |checks| ==> Stopper(items[k + 1]);
      assert Shape(items, checks, k + 1);
    } else {
      assert Shape(items, checks, k);
    }
  }
}

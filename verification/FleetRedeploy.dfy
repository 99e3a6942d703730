/** The fleet-wide redeploy: every app with an attempt is either queued or counted as skipped, once. */
module FleetRedeploy {
  import opened Common

  datatype JobStatus = Idle | DeployPending | Deploying | RemovalPending | Removing

  datatype App = App(
    jobStatus: JobStatus,
    removalFailed: bool,
    hasAttempt: bool,
    environmentReady: bool,
    isDeployed: bool,
    lastError: string
  )

  datatype Reason = PendingRemoval | Busy | RemovalFailed | NotRedeployable | EnvironmentNotReady | FailedNotIncluded

  function SkipReason(app: App): Option<Reason> {
    if app.jobStatus == RemovalPending || app.jobStatus == Removing then Some(PendingRemoval)
    else if app.jobStatus != Idle then Some(Busy)
    else if app.removalFailed then Some(RemovalFailed)
    else if !app.hasAttempt then Some(NotRedeployable)
    else if !app.environmentReady then Some(EnvironmentNotReady)
    else None
  }

  /** How the snapshot files an app that has an attempt. */
  datatype Class = Healthy | Unhealthy | SkippedFor(reason: Reason)

  function Classify(app: App): Class {
    if SkipReason(app).Some? then SkippedFor(SkipReason(app).value)
    else if app.isDeployed && app.lastError == "" then Healthy
    else Unhealthy
  }

  function WithAttempt(fleet: seq<App>): nat {
    if fleet == [] then 0 else WithAttempt(fleet[..|fleet| - 1]) + if fleet[|fleet| - 1].hasAttempt then 1 else 0
  }

  function CountOf(fleet: seq<App>, c: Class): nat {
    if fleet == [] then 0
    else
      var app := fleet[|fleet| - 1];
      CountOf(fleet[..|fleet| - 1], c) + if app.hasAttempt && Classify(app) == c then 1 else 0
  }

  // --------------------------------------------------------------------- counters

  type Counter = map<Reason, nat>

  function Get(c: Counter, r: Reason): nat {
    if r in c then c[r] else 0
  }

  function Sum(c: Counter): nat {
    Get(c, PendingRemoval) + Get(c, Busy) + Get(c, RemovalFailed) + Get(c, NotRedeployable) +
    Get(c, EnvironmentNotReady) + Get(c, FailedNotIncluded)
  }

  function Bump(c: Counter, r: Reason, n: nat): Counter {
    c[r := Get(c, r) + n]
  }

  datatype Candidates = Candidates(succeeded: seq<App>, failed: seq<App>, skipped: Counter)

  method CollectCandidates(fleet: seq<App>) returns (c: Candidates)
    ensures |c.succeeded| == CountOf(fleet, Healthy) && |c.failed| == CountOf(fleet, Unhealthy)
    ensures forall r :: Get(c.skipped, r) == CountOf(fleet, SkippedFor(r))
    ensures c.succeeded == Select(fleet, (app: App) => app.hasAttempt && Classify(app) == Healthy)
    ensures c.failed == Select(fleet, (app: App) => app.hasAttempt && Classify(app) == Unhealthy)
  {
    ghost var healthy := (app: App) => app.hasAttempt && Classify(app) == Healthy;
    ghost var unhealthy := (app: App) => app.hasAttempt && Classify(app) == Unhealthy;
    var succeeded: seq<App>, failed: seq<App>, skipped: Counter := [], [], map[];
    for i := 0 to |fleet|
      invariant |succeeded| == CountOf(fleet[..i], Healthy) && |failed| == CountOf(fleet[..i], Unhealthy)
      invariant forall r :: Get(skipped, r) == CountOf(fleet[..i], SkippedFor(r))
      invariant succeeded == Select(fleet[..i], healthy) && failed == Select(fleet[..i], unhealthy)
    {
      var app := fleet[i];
      assert fleet[..i + 1][..i] == fleet[..i] && fleet[..i + 1] == fleet[..i] + [app];
      SelectAppend(fleet[..i], app, healthy);
      SelectAppend(fleet[..i], app, unhealthy);
      if !app.hasAttempt {
        continue;
      }
      var reason := SkipReason(app);
      if reason.Some? {
        skipped := Bump(skipped, reason.value, 1);
      } else if app.isDeployed && app.lastError == "" {
        succeeded := succeeded + [app];
      } else {
        failed := failed + [app];
      }
    }
    assert fleet[..|fleet|] == fleet;
    c := Candidates(succeeded, failed, skipped);
  }

  // -------------------------------------------------------------------- admission

  /** What admission did with one app: it was queued, it was refused and looks like this afterwards, or it had been
      deleted meanwhile, which raises. */
  datatype Admission = Queued | Refused(now: App) | Gone

  function RefusalReason(now: App): Reason {
    if SkipReason(now).Some? then SkipReason(now).value else Busy
  }

  function QueuedAmong(admit: nat -> Admission, n: nat): nat {
    if n == 0 then 0 else QueuedAmong(admit, n - 1) + if admit(n - 1).Queued? then 1 else 0
  }

  function RefusedAmong(admit: nat -> Admission, n: nat, r: Reason): nat {
    if n == 0 then 0
    else RefusedAmong(admit, n - 1, r) + if admit(n - 1).Refused? && RefusalReason(admit(n - 1).now) == r then 1 else 0
  }

  /** How many apps are offered to admission. */
  function Selected(fleet: seq<App>, includeFailed: bool): nat {
    CountOf(fleet, Healthy) + if includeFailed then CountOf(fleet, Unhealthy) else 0
  }

  /** The reasons of the snapshot, of the refusals, and of the failed apps left out. */
  function SkipsFor(fleet: seq<App>, includeFailed: bool, admit: nat -> Admission, r: Reason): nat {
    CountOf(fleet, SkippedFor(r)) + RefusedAmong(admit, Selected(fleet, includeFailed), r) +
    if r == FailedNotIncluded && !includeFailed then CountOf(fleet, Unhealthy) else 0
  }

  datatype Outcome = Finished(queued: nat, skipped: Counter) | Raised(queued: nat)

  ghost predicate NoneGone(admit: nat -> Admission, n: nat) {
    forall i: nat | i < n :: !admit(i).Gone?
  }

  /** The loop ends early only at an app that is gone; what was queued before stays queued. `admit` answers for the
      apps in the order in which they are offered: the healthy ones, then, if included, the others. */
  method QueueRedeployAll(fleet: seq<App>, includeFailed: bool, admit: nat -> Admission)
    returns (r: Outcome, ghost offered: seq<App>)
    // Offered is who has an attempt, no job, no failed removal and a ready environment, and is deployed without an
    // error unless failed apps are included; the others are skipped unseen.
    ensures |offered| == Selected(fleet, includeFailed)
    ensures forall app :: app in offered <==>
              && app in fleet && app.hasAttempt && app.jobStatus == Idle && !app.removalFailed && app.environmentReady
              && (includeFailed || (app.isDeployed && app.lastError == ""))
    ensures r.Finished? <==> NoneGone(admit, Selected(fleet, includeFailed))
    ensures r.Finished? ==>
              && r.queued == QueuedAmong(admit, Selected(fleet, includeFailed))
              && forall reason :: Get(r.skipped, reason) == SkipsFor(fleet, includeFailed, admit, reason)
    ensures r.Raised? ==>
              exists i: nat :: i < Selected(fleet, includeFailed) && admit(i).Gone? && NoneGone(admit, i) &&
                               r.queued == QueuedAmong(admit, i)
  {
    var c := CollectCandidates(fleet);
    var selected, skipped := c.succeeded, c.skipped;
    if includeFailed {
      selected := selected + c.failed;
    } else if c.failed != [] {
      skipped := Bump(skipped, FailedNotIncluded, |c.failed|);
    }
    OfferedIff(fleet, includeFailed, c.succeeded, c.failed);
    offered := selected;
    r := OfferInTurn(|selected|, admit, skipped);
  }

  /** The loop over the selected apps. */
  method OfferInTurn(count: nat, admit: nat -> Admission, before: Counter) returns (r: Outcome)
    ensures r.Finished? <==> NoneGone(admit, count)
    ensures r.Finished? ==>
              && r.queued == QueuedAmong(admit, count)
              && forall reason :: Get(r.skipped, reason) == Get(before, reason) + RefusedAmong(admit, count, reason)
    ensures r.Raised? ==>
              exists i: nat :: i < count && admit(i).Gone? && NoneGone(admit, i) && r.queued == QueuedAmong(admit, i)
  {
    var queued, skipped := 0, before;
    for i := 0 to count
      invariant queued == QueuedAmong(admit, i) && NoneGone(admit, i)
      invariant forall reason :: Get(skipped, reason) == Get(before, reason) + RefusedAmong(admit, i, reason)
    {
      match admit(i)
      case Gone => return Raised(queued);
      case Refused(now) => skipped := Bump(skipped, RefusalReason(now), 1);
      case Queued => queued := queued + 1;
    }
    r := Finished(queued, skipped);
  }

  lemma OfferedIff(fleet: seq<App>, includeFailed: bool, succeeded: seq<App>, failed: seq<App>)
    requires succeeded == Select(fleet, (app: App) => app.hasAttempt && Classify(app) == Healthy)
    requires failed == Select(fleet, (app: App) => app.hasAttempt && Classify(app) == Unhealthy)
    ensures forall app :: app in (if includeFailed then succeeded + failed else succeeded) <==>
              && app in fleet && app.hasAttempt && app.jobStatus == Idle && !app.removalFailed && app.environmentReady
              && (includeFailed || (app.isDeployed && app.lastError == ""))
  {
    SelectMembers(fleet, (app: App) => app.hasAttempt && Classify(app) == Healthy);
    SelectMembers(fleet, (app: App) => app.hasAttempt && Classify(app) == Unhealthy);
  }

  /** The preview's eligible and skipped counts. */
  method BuildPreview(fleet: seq<App>) returns (eligible: nat, skipped: Counter)
    ensures eligible == CountOf(fleet, Healthy) + CountOf(fleet, Unhealthy)
    ensures forall r :: Get(skipped, r) == CountOf(fleet, SkippedFor(r))
  {
    var c := CollectCandidates(fleet);
    eligible, skipped := |c.succeeded| + |c.failed|, c.skipped;
  }

  // ----------------------------------------------------------------- conservation

  lemma {:induction false} ClassesPartition(fleet: seq<App>)
    ensures WithAttempt(fleet) ==
            CountOf(fleet, Healthy) + CountOf(fleet, Unhealthy) +
            CountOf(fleet, SkippedFor(PendingRemoval)) + CountOf(fleet, SkippedFor(Busy)) +
            CountOf(fleet, SkippedFor(RemovalFailed)) + CountOf(fleet, SkippedFor(NotRedeployable)) +
            CountOf(fleet, SkippedFor(EnvironmentNotReady)) + CountOf(fleet, SkippedFor(FailedNotIncluded))
  {
    if fleet == [] {
    } else {
      ClassesPartition(fleet[..|fleet| - 1]);
    }
  }

  function GoneAmong(admit: nat -> Admission, n: nat): nat {
    if n == 0 then 0 else GoneAmong(admit, n - 1) + if admit(n - 1).Gone? then 1 else 0
  }

  lemma {:induction false} AdmissionPartitions(admit: nat -> Admission, n: nat)
    ensures QueuedAmong(admit, n) + GoneAmong(admit, n) +
            RefusedAmong(admit, n, PendingRemoval) + RefusedAmong(admit, n, Busy) +
            RefusedAmong(admit, n, RemovalFailed) +
            RefusedAmong(admit, n, NotRedeployable) + RefusedAmong(admit, n, EnvironmentNotReady) +
            RefusedAmong(admit, n, FailedNotIncluded) == n
  {
    if n == 0 {
    } else {
      AdmissionPartitions(admit, n - 1);
    }
  }

  lemma {:induction false} GoneAmongIff(admit: nat -> Admission, n: nat)
    ensures GoneAmong(admit, n) == 0 <==> NoneGone(admit, n)
  {
    if n == 0 {
    } else {
      GoneAmongIff(admit, n - 1);
      assert NoneGone(admit, n) <==> NoneGone(admit, n - 1) && !admit(n - 1).Gone?;
    }
  }

  /** Whatever admission does to each app in turn, and whether or not failed apps are included, the counts cover
      everybody with an attempt, once, exactly when no app was gone: then the call finishes, else it raises. */
  lemma RedeployConserves(fleet: seq<App>, includeFailed: bool, admit: nat -> Admission, skipped: Counter)
    requires forall r :: Get(skipped, r) == SkipsFor(fleet, includeFailed, admit, r)
    ensures QueuedAmong(admit, Selected(fleet, includeFailed)) + Sum(skipped) == WithAttempt(fleet) <==>
            NoneGone(admit, Selected(fleet, includeFailed))
  {
    ClassesPartition(fleet);
    AdmissionPartitions(admit, Selected(fleet, includeFailed));
    GoneAmongIff(admit, Selected(fleet, includeFailed));
  }

  /** The preview covers the same fleet. */
  lemma PreviewConserves(fleet: seq<App>, skipped: Counter)
    requires forall r :: Get(skipped, r) == CountOf(fleet, SkippedFor(r))
    ensures CountOf(fleet, Healthy) + CountOf(fleet, Unhealthy) + Sum(skipped) == WithAttempt(fleet)
  {
    ClassesPartition(fleet);
  }

  /** Queued counts the apps that admission queued. */
  lemma {:induction false} QueuedCounts(admit: nat -> Admission, n: nat)
    ensures QueuedAmong(admit, n) == |set i: nat | i < n && admit(i) == Queued|
  {
    var queued := set i: nat | i < n && admit(i) == Queued;
    if n == 0 {
      assert queued == {};
    } else {
      QueuedCounts(admit, n - 1);
      var before := set i: nat | i < n - 1 && admit(i) == Queued;
      if admit(n - 1) == Queued {
        assert queued == before + {n - 1};
      } else {
        assert queued == before;
      }
    }
  }

  /** Which of the first `n` apps were refused for `r`. */
  ghost function RefusedFor(admit: nat -> Admission, n: nat, r: Reason): set<nat> {
    set i: nat | i < n && admit(i).Refused? && RefusalReason(admit(i).now) == r
  }

  lemma RefusedForOneMore(admit: nat -> Admission, n: nat, r: Reason)
    ensures RefusedFor(admit, n + 1, r) ==
            RefusedFor(admit, n, r) +
            if admit(n).Refused? && RefusalReason(admit(n).now) == r then {n} else {}
  {}

  /** Refused counts, for each reason, the apps that admission refused for it. */
  lemma {:induction false} RefusedCounts(admit: nat -> Admission, n: nat, r: Reason)
    ensures RefusedAmong(admit, n, r) == |RefusedFor(admit, n, r)|
  {
    if n == 0 {
      assert RefusedFor(admit, n, r) == {};
    } else {
      RefusedCounts(admit, n - 1, r);
      RefusedForOneMore(admit, n - 1, r);
      assert n - 1 !in RefusedFor(admit, n - 1, r);
    }
  }

  /** The reason an app is skipped for: removal before any other job, a job before a failed removal, that before a
      missing attempt, and the environment last. */
  lemma SkipReasonIff(app: App)
    ensures SkipReason(app) == Some(PendingRemoval) <==> app.jobStatus == RemovalPending || app.jobStatus == Removing
    ensures SkipReason(app) == Some(Busy) <==> app.jobStatus == DeployPending || app.jobStatus == Deploying
    ensures SkipReason(app) == Some(RemovalFailed) <==> app.jobStatus == Idle && app.removalFailed
    ensures SkipReason(app) == Some(NotRedeployable) <==>
            app.jobStatus == Idle && !app.removalFailed && !app.hasAttempt
    ensures SkipReason(app) == Some(EnvironmentNotReady) <==>
            app.jobStatus == Idle && !app.removalFailed && app.hasAttempt && !app.environmentReady
    ensures SkipReason(app) == None <==>
            app.jobStatus == Idle && !app.removalFailed && app.hasAttempt && app.environmentReady
  {}

  /** An app refused although nothing stands against it any more counts as busy. */
  lemma RefusalReasonIff(now: App, r: Reason)
    ensures RefusalReason(now) == r <==> SkipReason(now) == Some(r) || (SkipReason(now) == None && r == Busy)
  {}
}

/** The migrations that leave at most one active row per target before a unique constraint is added. */
module SerializedJobs {

  datatype Status = Pending | Running | Applying | Failed | Settled

  /** A job or request row; `target` stands for the columns the migration groups by. */
  datatype Job = Job(id: int, target: string, status: Status, message: string, updatedAt: int, createdAt: int)

  /** Permission applies keep the newest applying row; removals and cost refreshes keep a running row
      before a pending one, and then the oldest. */
  datatype Rule = NewestApplying | RunningThenOldest

  predicate Active(rule: Rule, j: Job) {
    match rule
    case NewestApplying => j.status == Applying
    case RunningThenOldest => j.status == Pending || j.status == Running
  }

  /** `a` sorts strictly before `b` in the query that picks the row to keep. */
  predicate Before(rule: Rule, a: Job, b: Job) {
    match rule
    case NewestApplying =>
      a.updatedAt > b.updatedAt || (a.updatedAt == b.updatedAt && a.createdAt > b.createdAt)
    case RunningThenOldest =>
      var p, q := if a.status == Running then 0 else 1, if b.status == Running then 0 else 1;
      p < q || (p == q && (a.updatedAt < b.updatedAt || (a.updatedAt == b.updatedAt && a.createdAt < b.createdAt)))
  }

  predicate ActiveFor(rule: Rule, j: Job, target: string) {
    j.target == target && Active(rule, j)
  }

  function Superseded(j: Job, message: string, now: int): Job {
    j.(status := Failed, message := message, updatedAt := now)
  }

  /** Targets with more than one active row. */
  function Duplicated(rows: seq<Job>, rule: Rule): set<string> {
    set i, j | 0 <= i < j < |rows| && ActiveFor(rule, rows[j], rows[i].target) && Active(rule, rows[i])
      :: rows[i].target
  }

  ghost predicate IsKept(rows: seq<Job>, rule: Rule, target: string, i: nat) {
    i < |rows| && ActiveFor(rule, rows[i], target) &&
    forall j | 0 <= j < |rows| && ActiveFor(rule, rows[j], target) :: !Before(rule, rows[j], rows[i])
  }

  /** `after` differs from `before` only in superseded active rows, and every target that had active rows
      keeps exactly one: an unchanged row that sorts first among them. */
  ghost predicate IsSerialized(before: seq<Job>, after: seq<Job>, rule: Rule, message: string, now: int) {
    && |after| == |before|
    && (forall i | 0 <= i < |before| ::
          after[i] == before[i] || (Active(rule, before[i]) && after[i] == Superseded(before[i], message, now)))
    && (forall i | 0 <= i < |before| && Active(rule, before[i]) ::
          exists k :: IsKept(before, rule, before[i].target, k) && OnlyActive(after, rule, before[i].target, k))
  }

  ghost predicate OnlyActive(rows: seq<Job>, rule: Rule, target: string, k: nat) {
    k < |rows| && ActiveFor(rule, rows[k], target) &&
    forall j | 0 <= j < |rows| && j != k :: !ActiveFor(rule, rows[j], target)
  }

  class JobTable {
    var rows: seq<Job>

    constructor (rows: seq<Job>)
      ensures this.rows == rows
    {
      this.rows := rows;
    }

    method PickKept(rule: Rule, target: string) returns (k: nat)
      requires exists i :: 0 <= i < |rows| && ActiveFor(rule, rows[i], target)
      ensures IsKept(rows, rule, target, k)
    {
      var found := false;
      k := 0;
      for i := 0 to |rows|
        invariant found <==> exists j :: 0 <= j < i && ActiveFor(rule, rows[j], target)
        invariant found ==> k < i && ActiveFor(rule, rows[k], target)
        invariant found ==> forall j | 0 <= j < i && ActiveFor(rule, rows[j], target) :: !Before(rule, rows[j], rows[k])
      {
        if ActiveFor(rule, rows[i], target) && (!found || Before(rule, rows[i], rows[k])) {
          found, k := true, i;
        }
      }
    }

    method SupersedeOthers(rule: Rule, target: string, k: nat, message: string, now: int)
      requires k < |rows|
      modifies this
      ensures |rows| == |old(rows)|
      ensures forall i | 0 <= i < |rows| ::
                rows[i] == if i != k && ActiveFor(rule, old(rows)[i], target)
                           then Superseded(old(rows)[i], message, now) else old(rows)[i]
    {
      for i := 0 to |rows|
        invariant |rows| == |old(rows)|
        invariant forall j | 0 <= j < i ::
                    rows[j] == if j != k && ActiveFor(rule, old(rows)[j], target)
                               then Superseded(old(rows)[j], message, now) else old(rows)[j]
        invariant forall j | i <= j < |rows| :: rows[j] == old(rows)[j]
      {
        if i != k && ActiveFor(rule, rows[i], target) {
          rows := rows[i := Superseded(rows[i], message, now)];
        }
      }
    }

    /** One duplicated target: keep the first row in the order, supersede the others. */
    method ResolveTarget(rule: Rule, target: string, message: string, now: int, ghost before: seq<Job>,
                         ghost done: set<string>)
      requires target in Duplicated(before, rule) && target !in done
      requires Resolved(before, rows, rule, message, now, done)
      modifies this
      ensures Resolved(before, rows, rule, message, now, done + {target})
    {
      ghost var current := rows;
      TargetUntouched(before, rows, rule, message, now, done, target);
      var k := PickKept(rule, target);
      SupersedeOthers(rule, target, k, message, now);
      StepResolves(before, current, rows, rule, message, now, done, target, k);
    }

    method FailDuplicates(rule: Rule, message: string, now: int)
      modifies this
      ensures IsSerialized(old(rows), rows, rule, message, now)
      ensures forall i | 0 <= i < |rows| && old(rows)[i].target !in Duplicated(old(rows), rule) ::
                rows[i] == old(rows)[i]
    {
      var remaining := Duplicated(rows, rule);
      ghost var done: set<string> := {};
      while remaining != {}
        invariant done + remaining == Duplicated(old(rows), rule) && done !! remaining
        invariant Resolved(old(rows), rows, rule, message, now, done)
        decreases remaining
      {
        var target :| target in remaining;
        ResolveTarget(rule, target, message, now, old(rows), done);
        done := done + {target};
        remaining := remaining - {target};
      }
      AllResolved(old(rows), rows, rule, message, now);
    }
  }

  /** The duplicated targets in `done` have been settled and nothing else has been touched. */
  ghost predicate Resolved(before: seq<Job>, rows: seq<Job>, rule: Rule, message: string, now: int, done: set<string>) {
    && |rows| == |before|
    && (forall i | 0 <= i < |rows| ::
          rows[i] == before[i] ||
          (before[i].target in done && Active(rule, before[i]) && rows[i] == Superseded(before[i], message, now)))
    && (forall t | t in done :: exists k :: IsKept(before, rule, t, k) && OnlyActive(rows, rule, t, k))
  }

  lemma TargetUntouched(before: seq<Job>, rows: seq<Job>, rule: Rule, message: string, now: int, done: set<string>,
                        target: string)
    requires Resolved(before, rows, rule, message, now, done) && target !in done && target in Duplicated(before, rule)
    ensures forall i | 0 <= i < |rows| :: ActiveFor(rule, rows[i], target) == ActiveFor(rule, before[i], target)
    ensures forall i | 0 <= i < |rows| && before[i].target == target :: rows[i] == before[i]
    ensures exists i :: 0 <= i < |rows| && ActiveFor(rule, rows[i], target)
  {
    var i, j :| 0 <= i < j < |before| && ActiveFor(rule, before[j], before[i].target) && Active(rule, before[i]) &&
                before[i].target == target;
    assert ActiveFor(rule, rows[i], target);
  }

  lemma StepResolves(before: seq<Job>, current: seq<Job>, rows: seq<Job>, rule: Rule, message: string, now: int,
                     done: set<string>, target: string, k: nat)
    requires Resolved(before, current, rule, message, now, done)
    requires target !in done && target in Duplicated(before, rule)
    requires IsKept(current, rule, target, k) && |rows| == |current|
    requires forall i | 0 <= i < |rows| ::
               rows[i] == if i != k && ActiveFor(rule, current[i], target) then Superseded(current[i], message, now)
                          else current[i]
    ensures Resolved(before, rows, rule, message, now, done + {target})
  {
    TargetUntouched(before, current, rule, message, now, done, target);
    assert IsKept(before, rule, target, k) && OnlyActive(rows, rule, target, k);
    forall t | t in done ensures exists m :: IsKept(before, rule, t, m) && OnlyActive(rows, rule, t, m) {
      var m :| IsKept(before, rule, t, m) && OnlyActive(current, rule, t, m);
      assert OnlyActive(rows, rule, t, m);
    }
  }

  lemma AllResolved(before: seq<Job>, rows: seq<Job>, rule: Rule, message: string, now: int)
    requires Resolved(before, rows, rule, message, now, Duplicated(before, rule))
    ensures IsSerialized(before, rows, rule, message, now)
  {
    forall i | 0 <= i < |rows| && Active(rule, before[i])
      ensures exists k :: IsKept(before, rule, before[i].target, k) && OnlyActive(rows, rule, before[i].target, k)
    {
      if before[i].target !in Duplicated(before, rule) {
        LoneActiveIsKept(before, rule, i);
        assert OnlyActive(rows, rule, before[i].target, i);
      }
    }
  }

  lemma LoneActiveIsKept(rows: seq<Job>, rule: Rule, i: nat)
    requires i < |rows| && Active(rule, rows[i]) && rows[i].target !in Duplicated(rows, rule)
    ensures IsKept(rows, rule, rows[i].target, i) && OnlyActive(rows, rule, rows[i].target, i)
  {
    assert forall j | 0 <= j < |rows| && j != i :: !ActiveFor(rule, rows[j], rows[i].target);
  }

  /** The unique constraint the migration adds next. */
  ghost predicate OneActivePerTarget(rows: seq<Job>, rule: Rule) {
    forall i, j | 0 <= i < j < |rows| && Active(rule, rows[i]) && Active(rule, rows[j]) ::
      rows[i].target != rows[j].target
  }

  ghost predicate HasActive(rows: seq<Job>, rule: Rule, target: string) {
    exists i :: 0 <= i < |rows| && ActiveFor(rule, rows[i], target)
  }

  /** After the migration the constraint can be added, no target with active rows has lost them all, and a
      second run finds nothing to do. */
  lemma SerializedTablesMeetConstraint(before: seq<Job>, after: seq<Job>, rule: Rule, message: string, now: int)
    requires IsSerialized(before, after, rule, message, now)
    ensures OneActivePerTarget(after, rule) && Duplicated(after, rule) == {}
    ensures forall target :: HasActive(before, rule, target) <==> HasActive(after, rule, target)
  {
    forall i | 0 <= i < |after| && Active(rule, after[i]) ensures after[i] == before[i] {}
    forall i, j | 0 <= i < j < |after| && Active(rule, after[i]) && Active(rule, after[j])
      ensures after[i].target != after[j].target
    {
      var k :| IsKept(before, rule, before[i].target, k) && OnlyActive(after, rule, before[i].target, k);
    }
    forall target | HasActive(before, rule, target) ensures HasActive(after, rule, target)
    {
      var i :| 0 <= i < |before| && ActiveFor(rule, before[i], target);
      var k :| IsKept(before, rule, before[i].target, k) && OnlyActive(after, rule, before[i].target, k);
    }
  }

  /** "Sorts before" is a strict weak order, so the kept row is first: nothing it ties with beats another row either. */
  lemma BeforeIsStrictWeakOrder(rule: Rule, a: Job, b: Job, c: Job)
    ensures !Before(rule, a, a)
    ensures Before(rule, a, b) && Before(rule, b, c) ==> Before(rule, a, c)
    ensures Before(rule, a, b) ==> Before(rule, a, c) || Before(rule, c, b)
  {}

  // ------------------------------------------------------- the meaning, written out

  /** The row that survives for the target of an active row, and what becomes of the others. */
  lemma Survivor(before: seq<Job>, after: seq<Job>, rule: Rule, message: string, now: int, i: nat) returns (k: nat)
    requires IsSerialized(before, after, rule, message, now) && i < |before| && Active(rule, before[i])
    ensures |after| == |before| && k < |before| && ActiveFor(rule, before[k], before[i].target) && after[k] == before[k]
    ensures forall j | 0 <= j < |before| && ActiveFor(rule, before[j], before[i].target) ::
              && !Before(rule, before[j], before[k])
              && (j == k || after[j] == before[j].(status := Failed, message := message, updatedAt := now))
  {
    var target := before[i].target;
    k :| IsKept(before, rule, target, k) && OnlyActive(after, rule, target, k);
    forall j | 0 <= j < |before| && ActiveFor(rule, before[j], target)
      ensures j == k || after[j] == Superseded(before[j], message, now)
    {
      assert j != k ==> !ActiveFor(rule, after[j], target);
    }
  }

  /** Permission applies: of a target's applying rows the one updated last survives, at a tie the one created last;
      the others are marked failed, with the message and the time; no other row changes. */
  lemma NewestApplySurvives(before: seq<Job>, after: seq<Job>, message: string, now: int, i: nat) returns (k: nat)
    requires IsSerialized(before, after, NewestApplying, message, now) && i < |before|
    ensures |after| == |before|
    ensures before[i].status != Applying ==> after[i] == before[i]
    ensures before[i].status == Applying ==>
              && k < |before| && before[k].target == before[i].target && before[k].status == Applying
              && after[k] == before[k]
              && forall j | 0 <= j < |before| && before[j].target == before[i].target &&
                            before[j].status == Applying ::
                   && (before[j].updatedAt < before[k].updatedAt ||
                       (before[j].updatedAt == before[k].updatedAt && before[j].createdAt <= before[k].createdAt))
                   && (j == k || after[j] == before[j].(status := Failed, message := message, updatedAt := now))
  {
    k := i;
    if before[i].status == Applying {
      k := Survivor(before, after, NewestApplying, message, now, i);
      forall j | 0 <= j < |before| && before[j].target == before[i].target && before[j].status == Applying
        ensures ActiveFor(NewestApplying, before[j], before[i].target)
      {}
    }
  }

  /** Removals and cost refreshes: of a target's pending and running rows a running one survives if there is one, and
      the one updated first among those, at a tie the one created first; else the pending one likewise. */
  lemma RunningThenOldestSurvives(before: seq<Job>, after: seq<Job>, message: string, now: int, i: nat)
    returns (k: nat)
    requires IsSerialized(before, after, RunningThenOldest, message, now) && i < |before|
    ensures |after| == |before|
    ensures before[i].status != Pending && before[i].status != Running ==> after[i] == before[i]
    ensures before[i].status == Pending || before[i].status == Running ==>
              && k < |before| && before[k].target == before[i].target
              && (before[k].status == Pending || before[k].status == Running)
              && after[k] == before[k]
              && forall j | 0 <= j < |before| && before[j].target == before[i].target &&
                            (before[j].status == Pending || before[j].status == Running) ::
                   && (before[j].status == Running ==> before[k].status == Running)
                   && (before[j].status == before[k].status ==>
                         before[k].updatedAt < before[j].updatedAt ||
                         (before[k].updatedAt == before[j].updatedAt && before[k].createdAt <= before[j].createdAt))
                   && (j == k || after[j] == before[j].(status := Failed, message := message, updatedAt := now))
  {
    k := i;
    if before[i].status == Pending || before[i].status == Running {
      k := Survivor(before, after, RunningThenOldest, message, now, i);
      forall j | 0 <= j < |before| && before[j].target == before[i].target &&
                 (before[j].status == Pending || before[j].status == Running)
        ensures ActiveFor(RunningThenOldest, before[j], before[i].target)
      {}
    }
  }
}

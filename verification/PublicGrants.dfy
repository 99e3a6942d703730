/** Public-access grants: transactions on the grant table, interleaved in every way the database allows.

    A publish that finds a row locks it, looks whether it is live, and commits later; one that waits for a row
    somebody else closes comes back without one. A first publish finds no row to lock: it takes the opening time of
    its row, and the insert comes later, can lose a race and is retried once. A revoke reads its row without locking
    it, takes its time, and writes later. Every step happens at one moment; time passes in between and never runs
    backwards. */
module PublicGrants {
  import opened Common

  datatype Grant = Grant(
    app: int,
    slug: string,
    grantedBy: int,
    createdAt: int,
    expiresAt: Option<int>,  // None: public until revoked
    revokedAt: Option<int>,
    revokedBy: Option<int>
  )

  datatype Request = Request(app: int, slug: string, admin: int, expiresAt: Option<int>)

  predicate LiveAt(g: Grant, t: int) {
    g.revokedAt.None? && (g.expiresAt.None? || g.expiresAt.value > t)
  }

  predicate SameHost(g: Grant, h: Grant) {
    g.app == h.app && g.slug == h.slug
  }

  predicate IsUnrevoked(g: Grant, app: int, slug: string) {
    g.app == app && g.slug == slug && g.revokedAt.None?
  }

  /** The row a publish would lock. */
  function FindUnrevoked(rows: seq<Grant>, app: int, slug: string): (found: Option<nat>)
    ensures found.Some? ==> found.value < |rows| && IsUnrevoked(rows[found.value], app, slug)
    ensures found.None? ==> forall i | 0 <= i < |rows| :: !IsUnrevoked(rows[i], app, slug)
  {
    if rows == [] then None
    else if IsUnrevoked(rows[|rows| - 1], app, slug) then Some(|rows| - 1)
    else FindUnrevoked(rows[..|rows| - 1], app, slug)
  }

  function Fresh(req: Request, at: int): Grant {
    Grant(req.app, req.slug, req.admin, at, req.expiresAt, None, None)
  }

  function Extended(rows: seq<Grant>, i: nat, req: Request): seq<Grant>
    requires i < |rows|
  {
    rows[i := rows[i].(expiresAt := req.expiresAt)]
  }

  function Replaced(rows: seq<Grant>, i: nat, req: Request, stampedAt: int, createdAt: int): seq<Grant>
    requires i < |rows|
  {
    rows[i := rows[i].(revokedAt := Some(stampedAt))] + [Fresh(req, createdAt)]
  }

  /** A publish that found the unrevoked row `i`: extend it while it is live, else close it and open a new window. */
  function Published(rows: seq<Grant>, i: nat, req: Request, checkedAt: int, stampedAt: int, createdAt: int): seq<Grant>
    requires i < |rows|
  {
    if LiveAt(rows[i], checkedAt) then Extended(rows, i, req) else Replaced(rows, i, req, stampedAt, createdAt)
  }

  function Revoked(rows: seq<Grant>, i: nat, admin: int, at: int): seq<Grant>
    requires i < |rows|
  {
    rows[i := rows[i].(revokedAt := Some(at), revokedBy := Some(admin))]
  }

  /** The anonymous decision: some live grant covers the host. */
  predicate PdpAllows(rows: seq<Grant>, app: int, slug: string, t: int) {
    exists i :: 0 <= i < |rows| && rows[i].app == app && rows[i].slug == slug && LiveAt(rows[i], t)
  }

  // ------------------------------------------------------------ the transactions

  datatype Outcome = Saved | Absent | IntegrityError

  class GrantTable {
    var rows: seq<Grant>

    constructor ()
      ensures rows == []
    {
      rows := [];
    }

    /** The locked part of a publish. With no row to lock it changes nothing and goes on to insert. */
    method LockAndPublish(req: Request, checkedAt: int, stampedAt: int, createdAt: int) returns (outcome: Outcome)
      modifies this
      ensures outcome == if FindUnrevoked(old(rows), req.app, req.slug).Some? then Saved else Absent
      ensures rows == match FindUnrevoked(old(rows), req.app, req.slug)
                      case Some(i) => Published(old(rows), i, req, checkedAt, stampedAt, createdAt)
                      case None => old(rows)
      // A public host: its one open row runs until the requested expiry, and that is all that changes.
      ensures OneUnrevokedPerHost(old(rows)) && PdpAllows(old(rows), req.app, req.slug, checkedAt) ==>
                && |rows| == |old(rows)|
                && forall i | 0 <= i < |rows| ::
                     rows[i] == if IsUnrevoked(old(rows)[i], req.app, req.slug)
                                then old(rows)[i].(expiresAt := req.expiresAt) else old(rows)[i]
      // A lapsed one: its open row is closed, by nobody, and one new window is opened by whoever asked.
      ensures OneUnrevokedPerHost(old(rows)) && !PdpAllows(old(rows), req.app, req.slug, checkedAt) &&
              (exists i :: 0 <= i < |old(rows)| && IsUnrevoked(old(rows)[i], req.app, req.slug)) ==>
                && |rows| == |old(rows)| + 1
                && (forall i | 0 <= i < |old(rows)| ::
                      rows[i] == if IsUnrevoked(old(rows)[i], req.app, req.slug)
                                 then old(rows)[i].(revokedAt := Some(stampedAt)) else old(rows)[i])
                && rows[|old(rows)|] == Grant(req.app, req.slug, req.admin, createdAt, req.expiresAt, None, None)
    {
      ghost var found := FindUnrevoked(rows, req.app, req.slug);
      forall i | found.Some? && OneUnrevokedPerHost(rows) && 0 <= i < |rows| && i != found.value
        ensures !IsUnrevoked(rows[i], req.app, req.slug)
      {
        if IsUnrevoked(rows[i], req.app, req.slug) {
          assert SameHost(rows[i], rows[found.value]);
        }
      }
      var existing := FindUnrevoked(rows, req.app, req.slug);
      if existing.Some? && LiveAt(rows[existing.value], checkedAt) {
        rows := rows[existing.value := rows[existing.value].(expiresAt := req.expiresAt)];
        return Saved;
      }
      if existing.None? {
        return Absent;
      }
      rows := rows[existing.value := rows[existing.value].(revokedAt := Some(stampedAt))];
      rows := rows + [Fresh(req, createdAt)];
      return Saved;
    }

    /** The insert, under the partial unique constraint on unrevoked rows. */
    method Insert(req: Request, createdAt: int) returns (outcome: Outcome)
      modifies this
      ensures outcome == if FindUnrevoked(old(rows), req.app, req.slug).None? then Saved else IntegrityError
      ensures rows == if outcome == Saved then old(rows) + [Fresh(req, createdAt)] else old(rows)
    {
      if FindUnrevoked(rows, req.app, req.slug).Some? {
        return IntegrityError;
      }
      rows := rows + [Fresh(req, createdAt)];
      return Saved;
    }

    /** The write of a revoke: it stamps whatever the row holds by now. The row is live never again and keeps its
        host, opening and expiry; no other row changes. So nobody is admitted who was not, and if the row was the
        open one of its host, nobody is. */
    method SaveRevocation(i: nat, admin: int, at: int)
      requires i < |rows|
      modifies this
      ensures rows == Revoked(old(rows), i, admin, at)
      ensures |rows| == |old(rows)| && forall j | 0 <= j < |rows| && j != i :: rows[j] == old(rows)[j]
      ensures rows[i].(revokedAt := None, revokedBy := None) == old(rows)[i].(revokedAt := None, revokedBy := None)
      ensures rows[i].revokedAt == Some(at) && rows[i].revokedBy == Some(admin)
      ensures forall t :: !LiveAt(rows[i], t)
      ensures forall app, slug, t :: PdpAllows(rows, app, slug, t) ==> PdpAllows(old(rows), app, slug, t)
      ensures OneUnrevokedPerHost(old(rows)) && old(rows)[i].revokedAt.None? ==>
                forall t :: !PdpAllows(rows, rows[i].app, rows[i].slug, t)
    {
      rows := rows[i := rows[i].(revokedAt := Some(at), revokedBy := Some(admin))];
      forall app, slug, t | PdpAllows(rows, app, slug, t) ensures PdpAllows(old(rows), app, slug, t) {
        var j :| 0 <= j < |rows| && rows[j].app == app && rows[j].slug == slug && LiveAt(rows[j], t);
        assert old(rows)[j] == rows[j];
      }
      if OneUnrevokedPerHost(old(rows)) && old(rows)[i].revokedAt.None? {
        forall j | 0 <= j < |rows| && j != i && SameHost(rows[i], rows[j]) ensures rows[j].revokedAt.Some? {
          assert SameHost(old(rows)[i], old(rows)[j]);
        }
      }
    }
  }

  // ------------------------------------------------------------------- the system

  datatype Phase =
    | Ready(req: Request, attempt: nat)
    | Waiting(req: Request, attempt: nat, row: nat)
    | Extending(req: Request, row: nat, checkedAt: int)
    | Replacing(req: Request, row: nat, checkedAt: int)
    | SawNone(req: Request, attempt: nat)
    | Inserting(req: Request, attempt: nat, createdAt: int)
    | SawUnrevoked(row: nat, admin: int)
    | Revoking(row: nat, admin: int, at: int)

  datatype State = State(now: int, rows: seq<Grant>, phases: map<nat, Phase>)

  datatype Event =
    | Tick(to: int)
    | Submit(worker: nat, req: Request)
    | Wait(worker: nat)
    | Lock(worker: nat)
    | Commit(worker: nat, stampedAt: int, createdAt: int)
    | StampInsert(worker: nat)
    | Insert(worker: nat)
    | ReadForRevoke(worker: nat, row: nat, admin: int)
    | StampRevoke(worker: nat)
    | SaveRevoke(worker: nat)

  predicate Init(s: State) {
    s.rows == [] && s.phases == map[]
  }

  predicate HoldsLock(p: Phase, row: nat) {
    (p.Extending? || p.Replacing?) && p.row == row
  }

  ghost predicate IsLocked(s: State, row: nat) {
    exists w :: w in s.phases && HoldsLock(s.phases[w], row)
  }

  /** The row a publish gets to lock: after a wait, only the row it waited for, if that is still unrevoked. */
  function Target(rows: seq<Grant>, p: Phase): Option<nat>
    requires p.Ready? || p.Waiting?
  {
    match p
    case Ready(req, _) => FindUnrevoked(rows, req.app, req.slug)
    case Waiting(_, _, row) => if row < |rows| && rows[row].revokedAt.None? then Some(row) else None
  }

  /** What a publish goes on to do with the row it locked at `now`. */
  function AfterLock(rows: seq<Grant>, req: Request, row: nat, now: int): Phase
    requires row < |rows|
  {
    if LiveAt(rows[row], now) then Extending(req, row, now) else Replacing(req, row, now)
  }

  ghost predicate LockStep(s: State, w: nat, s': State) {
    && w in s.phases && (s.phases[w].Ready? || s.phases[w].Waiting?)
    && s'.rows == s.rows
    && var p := s.phases[w];
       match Target(s.rows, p)
       case Some(i) =>
         i < |s.rows| && !IsLocked(s, i) && s'.phases == s.phases[w := AfterLock(s.rows, p.req, i, s.now)]
       case None => s'.phases == s.phases[w := SawNone(p.req, p.attempt)]
  }

  /** The times a replacement writes are taken after its check and before its commit. */
  predicate CommitStep(s: State, w: nat, stampedAt: int, createdAt: int, s': State) {
    && w in s.phases && (s.phases[w].Extending? || s.phases[w].Replacing?) && s.phases[w].row < |s.rows|
    && s'.phases == s.phases - {w}
    && match s.phases[w]
       case Extending(req, row, _) => s'.rows == Extended(s.rows, row, req)
       case Replacing(req, row, checkedAt) =>
         checkedAt <= stampedAt <= createdAt <= s.now && s'.rows == Replaced(s.rows, row, req, stampedAt, createdAt)
  }

  predicate InsertStep(s: State, w: nat, s': State) {
    && w in s.phases && s.phases[w].Inserting?
    && var p := s.phases[w];
       if FindUnrevoked(s.rows, p.req.app, p.req.slug).None? then
         s'.rows == s.rows + [Fresh(p.req, p.createdAt)] && s'.phases == s.phases - {w}
       else
         s'.rows == s.rows && s'.phases == if p.attempt == 1 then s.phases[w := Ready(p.req, 2)] else s.phases - {w}
  }

  ghost predicate Step(s: State, e: Event, s': State) {
    s'.now == (if e.Tick? then e.to else s.now) &&
    match e
    case Tick(to) => s.now <= to && s'.rows == s.rows && s'.phases == s.phases
    case Submit(w, req) =>
      w !in s.phases && s'.rows == s.rows && s'.phases == s.phases[w := Ready(req, 1)]
    case Wait(w) =>
      && w in s.phases && s.phases[w].Ready?
      && var p := s.phases[w];
         var found := FindUnrevoked(s.rows, p.req.app, p.req.slug);
         found.Some? && s'.rows == s.rows && s'.phases == s.phases[w := Waiting(p.req, p.attempt, found.value)]
    case Lock(w) => LockStep(s, w, s')
    case Commit(w, stampedAt, createdAt) => CommitStep(s, w, stampedAt, createdAt, s')
    case StampInsert(w) =>
      && w in s.phases && s.phases[w].SawNone? && s'.rows == s.rows
      && s'.phases == s.phases[w := Inserting(s.phases[w].req, s.phases[w].attempt, s.now)]
    case Insert(w) => InsertStep(s, w, s')
    case ReadForRevoke(w, row, admin) =>
      && w !in s.phases && row < |s.rows| && s.rows[row].revokedAt.None?
      && s'.rows == s.rows && s'.phases == s.phases[w := SawUnrevoked(row, admin)]
    case StampRevoke(w) =>
      && w in s.phases && s.phases[w].SawUnrevoked? && s'.rows == s.rows
      && s'.phases == s.phases[w := Revoking(s.phases[w].row, s.phases[w].admin, s.now)]
    case SaveRevoke(w) =>
      && w in s.phases && s.phases[w].Revoking? && s.phases[w].row < |s.rows| && !IsLocked(s, s.phases[w].row)
      && s'.rows == Revoked(s.rows, s.phases[w].row, s.phases[w].admin, s.phases[w].at)
      && s'.phases == s.phases - {w}
  }

  ghost predicate IsRun(states: seq<State>, events: seq<Event>) {
    && |states| == |events| + 1
    && Init(states[0])
    && forall n | 0 <= n < |events| :: Step(states[n], events[n], states[n + 1])
  }

  // ------------------------------------------------------------------- invariants

  ghost predicate OneUnrevokedPerHost(rows: seq<Grant>) {
    forall i, j | 0 <= i < j < |rows| && SameHost(rows[i], rows[j]) ::
      rows[i].revokedAt.Some? || rows[j].revokedAt.Some?
  }

  /** Once a later row exists for a host, the earlier ones are closed for good. */
  ghost predicate EarlierRevoked(rows: seq<Grant>) {
    forall i, j | 0 <= i < j < |rows| && SameHost(rows[i], rows[j]) :: rows[i].revokedAt.Some?
  }

  ghost predicate StampsInPast(rows: seq<Grant>, now: int) {
    forall i | 0 <= i < |rows| ::
      rows[i].createdAt <= now && (rows[i].revokedAt.Some? ==> rows[i].revokedAt.value <= now)
  }

  /** What an open transaction has seen is still there, what it has locked is as it found it, and the times it has
      taken are past. */
  ghost predicate PhaseHolds(s: State, p: Phase) {
    match p
    case Waiting(req, _, row) => row < |s.rows| && s.rows[row].app == req.app && s.rows[row].slug == req.slug
    case Extending(req, row, checkedAt) =>
      && checkedAt <= s.now && row < |s.rows| && IsUnrevoked(s.rows[row], req.app, req.slug)
      && LiveAt(s.rows[row], checkedAt)
      && forall j | 0 <= j < |s.rows| && SameHost(s.rows[row], s.rows[j]) :: s.rows[j].createdAt <= checkedAt
    case Replacing(req, row, checkedAt) =>
      && checkedAt <= s.now && row < |s.rows| && IsUnrevoked(s.rows[row], req.app, req.slug)
      && !LiveAt(s.rows[row], checkedAt)
    case Inserting(_, _, createdAt) => createdAt <= s.now
    case SawUnrevoked(row, _) => row < |s.rows|
    case Revoking(row, _, at) => row < |s.rows| && at <= s.now
    case _ => true
  }

  ghost predicate LocksExclusive(phases: map<nat, Phase>) {
    forall v, w, row | v in phases && w in phases && HoldsLock(phases[v], row) && HoldsLock(phases[w], row) :: v == w
  }

  ghost predicate Inv(s: State) {
    && EarlierRevoked(s.rows)
    && StampsInPast(s.rows, s.now)
    && (forall w | w in s.phases :: PhaseHolds(s, s.phases[w]))
    && LocksExclusive(s.phases)
  }

  /** No row disappears or changes its host, author or opening time; a closed row is never reopened. */
  ghost predicate Continues(before: seq<Grant>, after: seq<Grant>) {
    && |before| <= |after|
    && forall i | 0 <= i < |before| ::
         && SameHost(before[i], after[i])
         && before[i].grantedBy == after[i].grantedBy && before[i].createdAt == after[i].createdAt
         && (before[i].revokedAt.Some? ==> after[i].revokedAt.Some?)
  }

  /** A row dead at one moment is dead at every later one. */
  ghost predicate DeathIsFinal(before: State, after: State) {
    forall i | 0 <= i < |before.rows| && i < |after.rows| && !LiveAt(before.rows[i], before.now) ::
      !LiveAt(after.rows[i], after.now)
  }

  /** A publish that may lock a row locks the only unrevoked row of its host. */
  lemma TargetIsOnlyUnrevoked(s: State, w: nat)
    requires Inv(s) && w in s.phases && (s.phases[w].Ready? || s.phases[w].Waiting?)
    requires Target(s.rows, s.phases[w]).Some?
    ensures var i, req := Target(s.rows, s.phases[w]).value, s.phases[w].req;
            && i < |s.rows| && IsUnrevoked(s.rows[i], req.app, req.slug)
            && forall j | 0 <= j < |s.rows| && j != i :: !IsUnrevoked(s.rows[j], req.app, req.slug)
  {
    assert PhaseHolds(s, s.phases[w]);
    var i, req := Target(s.rows, s.phases[w]).value, s.phases[w].req;
    forall j | 0 <= j < |s.rows| && j != i ensures !IsUnrevoked(s.rows[j], req.app, req.slug) {
      if IsUnrevoked(s.rows[j], req.app, req.slug) {
        assert SameHost(s.rows[i], s.rows[j]);
      }
    }
  }

  /** An unrevoked row is the only one of its host. */
  lemma UnrevokedIsOnly(rows: seq<Grant>, i: nat, j: nat)
    requires EarlierRevoked(rows) && i < |rows| && j < |rows| && SameHost(rows[i], rows[j])
    requires rows[i].revokedAt.None? && rows[j].revokedAt.None?
    ensures i == j
  {}

  /** The rows that others have locked are unchanged, and none of their hosts has got another row. */
  ghost predicate SparesLocked(s: State, w: nat, after: seq<Grant>) {
    forall v, k: nat | v in s.phases && v != w && HoldsLock(s.phases[v], k) && k < |s.rows| && k < |after| ::
      after[k] == s.rows[k] && forall j | |s.rows| <= j < |after| :: !SameHost(s.rows[k], after[j])
  }

  /** Rows grow and keep their hosts, so what other open transactions hold on to stays put. */
  lemma PhasesStay(s: State, w: nat, s': State)
    requires Inv(s) && s.now == s'.now && Continues(s.rows, s'.rows) && SparesLocked(s, w, s'.rows)
    requires s'.phases == s.phases - {w}
    ensures forall v | v in s'.phases :: PhaseHolds(s', s'.phases[v])
    ensures LocksExclusive(s'.phases)
  {
    forall v | v in s'.phases ensures PhaseHolds(s', s'.phases[v]) {
      assert PhaseHolds(s, s.phases[v]);
      if s.phases[v].Extending? || s.phases[v].Replacing? {
        assert HoldsLock(s.phases[v], s.phases[v].row);
      }
    }
  }

  /** The host of a row another transaction has locked differs from a host without an unrevoked row, and from the
      host of any other unrevoked row. */
  lemma LockedHostsDiffer(s: State, v: nat, k: nat)
    requires Inv(s) && v in s.phases && HoldsLock(s.phases[v], k)
    ensures k < |s.rows| && s.rows[k].revokedAt.None?
    ensures forall i | 0 <= i < |s.rows| && i != k && s.rows[i].revokedAt.None? :: !SameHost(s.rows[k], s.rows[i])
  {
    assert PhaseHolds(s, s.phases[v]);
    forall i | 0 <= i < |s.rows| && i != k && s.rows[i].revokedAt.None? ensures !SameHost(s.rows[k], s.rows[i]) {
      if SameHost(s.rows[k], s.rows[i]) {
        UnrevokedIsOnly(s.rows, k, i);
      }
    }
  }

  lemma CommitKeepsInvariant(s: State, w: nat, stampedAt: int, createdAt: int, s': State)
    requires Inv(s) && Step(s, Commit(w, stampedAt, createdAt), s')
    ensures Inv(s') && Continues(s.rows, s'.rows)
  {
    var p := s.phases[w];
    assert PhaseHolds(s, p);
    assert HoldsLock(p, p.row);
    forall v, k: nat | v in s.phases && v != w && HoldsLock(s.phases[v], k)
      ensures k < |s.rows| && k != p.row && !SameHost(s.rows[k], s.rows[p.row])
    {
      LockedHostsDiffer(s, v, k);
    }
    forall j | 0 <= j < |s.rows| && SameHost(s.rows[j], s.rows[p.row]) && j != p.row ensures s.rows[j].revokedAt.Some? {
      if s.rows[j].revokedAt.None? {
        UnrevokedIsOnly(s.rows, j, p.row);
      }
    }
    PhasesStay(s, w, s');
  }

  lemma InsertKeepsInvariant(s: State, w: nat, s': State)
    requires Inv(s) && Step(s, Insert(w), s')
    ensures Inv(s') && Continues(s.rows, s'.rows)
  {
    var p := s.phases[w];
    assert PhaseHolds(s, p);
    if FindUnrevoked(s.rows, p.req.app, p.req.slug).None? {
      forall v, k: nat | v in s.phases && HoldsLock(s.phases[v], k)
        ensures k < |s.rows| && !SameHost(s.rows[k], Fresh(p.req, p.createdAt))
      {
        LockedHostsDiffer(s, v, k);
      }
      PhasesStay(s, w, s');
    } else {
      QuietPhasesStay(s, w, s');
    }
  }

  lemma RevokeKeepsInvariant(s: State, w: nat, s': State)
    requires Inv(s) && Step(s, SaveRevoke(w), s')
    ensures Inv(s') && Continues(s.rows, s'.rows)
  {
    assert PhaseHolds(s, s.phases[w]);
    PhasesStay(s, w, s');
  }

  /** Steps that leave the rows alone change one phase at most. */
  lemma QuietPhasesStay(s: State, w: nat, s': State)
    requires Inv(s) && s.now <= s'.now && s'.rows == s.rows
    requires forall v | v in s'.phases && v != w :: v in s.phases && s'.phases[v] == s.phases[v]
    ensures forall v | v in s'.phases && v != w :: PhaseHolds(s', s'.phases[v])
  {
    forall v | v in s'.phases && v != w ensures PhaseHolds(s', s'.phases[v]) {
      assert PhaseHolds(s, s.phases[v]);
    }
  }

  lemma LockKeepsInvariant(s: State, w: nat, s': State)
    requires Inv(s) && Step(s, Lock(w), s')
    ensures Inv(s') && Continues(s.rows, s'.rows)
  {
    QuietPhasesStay(s, w, s');
    if Target(s.rows, s.phases[w]).Some? {
      TargetIsOnlyUnrevoked(s, w);
      var i := Target(s.rows, s.phases[w]).value;
      forall v | v in s.phases ensures !HoldsLock(s.phases[v], i) {}
    }
  }

  lemma QuietStepKeepsInvariant(s: State, e: Event, s': State)
    requires Inv(s) && Step(s, e, s') && (e.Submit? || e.Wait? || e.StampInsert? || e.ReadForRevoke? || e.StampRevoke?)
    ensures Inv(s') && Continues(s.rows, s'.rows)
  {
    QuietPhasesStay(s, e.worker, s');
    if e.worker in s.phases {
      assert PhaseHolds(s, s.phases[e.worker]);
    }
  }

  lemma StepKeepsInvariant(s: State, e: Event, s': State)
    requires Inv(s) && Step(s, e, s')
    ensures Inv(s') && Continues(s.rows, s'.rows)
  {
    match e
    case Tick(to) =>
      forall v | v in s'.phases ensures PhaseHolds(s', s'.phases[v]) {
        assert PhaseHolds(s, s.phases[v]);
      }
    case Lock(w) => LockKeepsInvariant(s, w, s');
    case Commit(w, stampedAt, createdAt) => CommitKeepsInvariant(s, w, stampedAt, createdAt, s');
    case Insert(w) => InsertKeepsInvariant(s, w, s');
    case SaveRevoke(w) => RevokeKeepsInvariant(s, w, s');
    case _ => QuietStepKeepsInvariant(s, e, s');
  }

  lemma {:induction false} RunKeepsInvariant(states: seq<State>, events: seq<Event>, n: nat)
    requires IsRun(states, events) && n < |states|
    ensures Inv(states[n])
    ensures OneUnrevokedPerHost(states[n].rows)
  {
    if n == 0 {
    } else {
      RunKeepsInvariant(states, events, n - 1);
      StepKeepsInvariant(states[n - 1], events[n - 1], states[n]);
    }
  }

  /** Between any two moments of a run: nothing is deleted, nothing closed is reopened, time has not run back. */
  lemma {:induction false} HistoryIsMonotone(states: seq<State>, events: seq<Event>, m: nat, n: nat)
    requires IsRun(states, events) && m <= n < |states|
    ensures Continues(states[m].rows, states[n].rows) && states[m].now <= states[n].now
    decreases n - m
  {
    if m == n {
    } else {
      HistoryIsMonotone(states, events, m, n - 1);
      RunKeepsInvariant(states, events, n - 1);
      StepKeepsInvariant(states[n - 1], events[n - 1], states[n]);
    }
  }

  /** The one write that brings a dead row back: an extension whose row lapsed after it was found live, for a request
      that has not lapsed itself. */
  predicate Revives(s: State, e: Event) {
    e.Commit? && e.worker in s.phases && s.phases[e.worker].Extending? && s.phases[e.worker].row < |s.rows| &&
    var p := s.phases[e.worker];
    !LiveAt(s.rows[p.row], s.now) && (p.req.expiresAt.None? || p.req.expiresAt.value > s.now)
  }

  lemma StepRevivesIff(s: State, e: Event, s': State)
    requires Inv(s) && Step(s, e, s')
    ensures DeathIsFinal(s, s') <==> !Revives(s, e)
  {
    if e.Commit? {
      var p := s.phases[e.worker];
      assert PhaseHolds(s, p);
      if p.Extending? {
        assert LiveAt(s'.rows[p.row], s'.now) <==> p.req.expiresAt.None? || p.req.expiresAt.value > s.now;
      }
    }
  }

  /** No row of the first `n` states comes back from the dead. */
  ghost predicate DeathsAreFinal(states: seq<State>, n: nat)
    requires n < |states|
  {
    forall m: nat, k: nat | m <= k <= n :: DeathIsFinal(states[m], states[k])
  }

  /** It is enough to look at one more step. */
  lemma DeathsAreFinalStep(states: seq<State>, events: seq<Event>, n: nat)
    requires IsRun(states, events) && n + 1 < |states|
    ensures DeathsAreFinal(states, n + 1) <==> DeathsAreFinal(states, n) && DeathIsFinal(states[n], states[n + 1])
  {
    if DeathsAreFinal(states, n) && DeathIsFinal(states[n], states[n + 1]) {
      forall m: nat | m <= n ensures DeathIsFinal(states[m], states[n + 1]) {
        assert DeathIsFinal(states[m], states[n]);
        HistoryIsMonotone(states, events, m, n);
      }
      assert DeathIsFinal(states[n + 1], states[n + 1]);
    }
  }

  /** Over a run: a row dead at one moment is dead at every later one, up to `n`, if and only if no step before `n`
      revives one. */
  lemma {:induction false} DeathStaysFinalIff(states: seq<State>, events: seq<Event>, n: nat)
    requires IsRun(states, events) && n < |states|
    ensures DeathsAreFinal(states, n) <==> forall k | 0 <= k < n :: !Revives(states[k], events[k])
  {
    if n == 0 {
      assert DeathIsFinal(states[0], states[0]);
    } else {
      DeathStaysFinalIff(states, events, n - 1);
      DeathsAreFinalStep(states, events, n - 1);
      RunKeepsInvariant(states, events, n - 1);
      StepRevivesIff(states[n - 1], events[n - 1], states[n]);
    }
  }

  /** When a publish extends: at once, exactly when the host is public; after a wait, exactly when the row it waited
      for is live. A retry follows the same rule, whoever won the race. */
  lemma LockExtendsIff(s: State, w: nat, s': State)
    requires Inv(s) && Step(s, Lock(w), s')
    ensures var p := s.phases[w];
            w in s'.phases &&
            (s'.phases[w].Extending? <==>
             if p.Ready? then PdpAllows(s.rows, p.req.app, p.req.slug, s.now)
             else p.row < |s.rows| && LiveAt(s.rows[p.row], s.now))
  {
    var p := s.phases[w];
    if Target(s.rows, p).Some? {
      TargetIsOnlyUnrevoked(s, w);
    }
  }

  /** At every moment of every run, the host is public exactly when exactly one grant row is live. */
  lemma PublicIffExactlyOneLive(states: seq<State>, events: seq<Event>, n: nat, app: int, slug: string)
    requires IsRun(states, events) && n < |states|
    ensures var rows, t := states[n].rows, states[n].now;
            PdpAllows(rows, app, slug, t) <==>
            exists i ::
              && 0 <= i < |rows| && IsUnrevoked(rows[i], app, slug) && LiveAt(rows[i], t)
              && forall j | 0 <= j < |rows| && j != i && rows[j].app == app && rows[j].slug == slug ::
                   !LiveAt(rows[j], t)
  {
    var rows, t := states[n].rows, states[n].now;
    RunKeepsInvariant(states, events, n);
    if PdpAllows(rows, app, slug, t) {
      var i :| 0 <= i < |rows| && rows[i].app == app && rows[i].slug == slug && LiveAt(rows[i], t);
      forall j | 0 <= j < |rows| && j != i && rows[j].app == app && rows[j].slug == slug ensures !LiveAt(rows[j], t) {
        assert SameHost(rows[i], rows[j]);
      }
      assert IsUnrevoked(rows[i], app, slug);
    }
  }

  /** Exposures succeed one another: once a later row for a host exists, the earlier row is live never again. */
  lemma ExposuresAreSuccessive(states: seq<State>, events: seq<Event>, m: nat, n: nat, i: nat, j: nat)
    requires IsRun(states, events) && m <= n < |states|
    requires i < j < |states[m].rows| && SameHost(states[m].rows[i], states[m].rows[j])
    ensures i < |states[n].rows| && !LiveAt(states[n].rows[i], states[n].now)
  {
    RunKeepsInvariant(states, events, m);
    HistoryIsMonotone(states, events, m, n);
  }

  // ---------------------------------------------------- what each step does to a host

  /** The request whose host a step opens or extends: a publish that commits, or an insert that wins. */
  function Exposes(s: State, e: Event): Option<Request> {
    if e.Commit? && e.worker in s.phases && (s.phases[e.worker].Extending? || s.phases[e.worker].Replacing?) then
      Some(s.phases[e.worker].req)
    else if e.Insert? && e.worker in s.phases && s.phases[e.worker].Inserting? then
      var req := s.phases[e.worker].req;
      if FindUnrevoked(s.rows, req.app, req.slug).None? then Some(req) else None
    else None
  }

  /** The row a step adds to the table. */
  function Opens(s: State, e: Event): Option<Grant> {
    if Exposes(s, e).None? || s.phases[e.worker].Extending? then None
    else Some(Fresh(Exposes(s, e).value, if e.Commit? then e.createdAt else s.phases[e.worker].createdAt))
  }

  /** A locked row is the only unrevoked one of its host. */
  lemma LockedIsOnlyUnrevoked(s: State, w: nat)
    requires Inv(s) && w in s.phases && (s.phases[w].Extending? || s.phases[w].Replacing?)
    ensures var p := s.phases[w];
            && p.row < |s.rows| && IsUnrevoked(s.rows[p.row], p.req.app, p.req.slug)
            && forall j | 0 <= j < |s.rows| && j != p.row :: !IsUnrevoked(s.rows[j], p.req.app, p.req.slug)
  {
    var p := s.phases[w];
    assert PhaseHolds(s, p);
    forall j | 0 <= j < |s.rows| && j != p.row ensures !IsUnrevoked(s.rows[j], p.req.app, p.req.slug) {
      if IsUnrevoked(s.rows[j], p.req.app, p.req.slug) {
        UnrevokedIsOnly(s.rows, j, p.row);
      }
    }
  }

  /** A publish that goes through leaves the host public exactly until the requested expiry, whether it
      extended a live grant, replaced a lapsed one or inserted the first. */
  lemma PublishSetsExposure(s: State, e: Event, s': State, t: int)
    requires Inv(s) && Step(s, e, s') && Exposes(s, e).Some?
    ensures var req := Exposes(s, e).value;
            PdpAllows(s'.rows, req.app, req.slug, t) <==> req.expiresAt.None? || t < req.expiresAt.value
  {
    var p := s.phases[e.worker];
    if e.Commit? {
      LockedIsOnlyUnrevoked(s, e.worker);
      var last := if p.Extending? then p.row else |s.rows|;
      assert s'.rows[last].app == p.req.app && s'.rows[last].slug == p.req.slug;
      assert s'.rows[last].expiresAt == p.req.expiresAt;
    } else {
      assert s'.rows[|s.rows|] == Fresh(p.req, p.createdAt);
    }
  }

  /** The host a step may affect. */
  predicate Touches(s: State, e: Event, app: int, slug: string) {
    match e
    case Commit(w, _, _) =>
      && w in s.phases && (s.phases[w].Extending? || s.phases[w].Replacing?)
      && s.phases[w].req.app == app && s.phases[w].req.slug == slug
    case Insert(w) =>
      w in s.phases && s.phases[w].Inserting? && s.phases[w].req.app == app && s.phases[w].req.slug == slug
    case SaveRevoke(w) =>
      && w in s.phases && s.phases[w].Revoking? && s.phases[w].row < |s.rows|
      && s.rows[s.phases[w].row].app == app && s.rows[s.phases[w].row].slug == slug
    case _ => false
  }

  lemma OtherHostsUnaffected(s: State, e: Event, s': State, app: int, slug: string, t: int)
    requires Inv(s) && Step(s, e, s') && !Touches(s, e, app, slug)
    ensures PdpAllows(s'.rows, app, slug, t) == PdpAllows(s.rows, app, slug, t)
  {
    if e.Commit? {
      LockedIsOnlyUnrevoked(s, e.worker);
    }
    assert |s.rows| <= |s'.rows|;
    forall i | 0 <= i < |s.rows| && s.rows[i].app == app && s.rows[i].slug == slug ensures s'.rows[i] == s.rows[i] {}
    forall i | 0 <= i < |s'.rows| && s'.rows[i].app == app && s'.rows[i].slug == slug
      ensures i < |s.rows| && s'.rows[i] == s.rows[i]
    {}
  }

  /** The write of a revoke that read its row before somebody else closed it. */
  predicate IsStaleSave(s: State, e: Event) {
    e.SaveRevoke? && e.worker in s.phases && s.phases[e.worker].Revoking? &&
    s.phases[e.worker].row < |s.rows| && s.rows[s.phases[e.worker].row].revokedAt.Some?
  }

  /** A revoke closes its host for good, unless it is stale: then it changes nothing about who is admitted, and a
      host published again in the meantime stays public. */
  lemma RevokeClosesUnlessStale(s: State, e: Event, s': State, t: int)
    requires Inv(s) && Step(s, e, s') && e.SaveRevoke?
    ensures var g := s.rows[s.phases[e.worker].row];
            PdpAllows(s'.rows, g.app, g.slug, t) <==> IsStaleSave(s, e) && PdpAllows(s.rows, g.app, g.slug, t)
  {
    var row := s.phases[e.worker].row;
    var g := s.rows[row];
    if IsStaleSave(s, e) {
      forall i | 0 <= i < |s.rows|
        ensures LiveAt(s'.rows[i], t) == LiveAt(s.rows[i], t) && SameHost(s'.rows[i], s.rows[i])
      {}
    } else {
      forall i | 0 <= i < |s'.rows| && s'.rows[i].app == g.app && s'.rows[i].slug == g.slug
        ensures !LiveAt(s'.rows[i], t)
      {
        assert SameHost(s.rows[i], g);
        assert i < row ==> s.rows[i].revokedAt.Some?;
      }
    }
  }

  // ------------------------------------------------------------- recorded windows

  function Earlier(a: Option<int>, b: int): int {
    if a.Some? && a.value < b then a.value else b
  }

  /** When the columns of a row say its exposure ended. */
  function RecordedEnd(g: Grant): Option<int> {
    if g.revokedAt.Some? then Some(Earlier(g.expiresAt, g.revokedAt.value)) else g.expiresAt
  }

  predicate WindowContains(g: Grant, t: int) {
    g.createdAt <= t && (RecordedEnd(g).None? || t < RecordedEnd(g).value)
  }

  /** No moment lies in the recorded windows of two rows of one host. */
  ghost predicate WindowsDisjoint(rows: seq<Grant>) {
    forall i, j, t | 0 <= i < j < |rows| && SameHost(rows[i], rows[j]) ::
      !(WindowContains(rows[i], t) && WindowContains(rows[j], t))
  }

  /** The moments from `from` on, before `until`, reach into the recorded window of `g`. */
  predicate ReachesInto(from: int, until: Option<int>, g: Grant) {
    && (until.None? || (from < until.value && g.createdAt < until.value))
    && (RecordedEnd(g).None? || (from < RecordedEnd(g).value && g.createdAt < RecordedEnd(g).value))
  }

  predicate Apart(g: Grant, h: Grant) {
    !ReachesInto(g.createdAt, RecordedEnd(g), h)
  }

  ghost predicate AllApart(rows: seq<Grant>) {
    forall i, j | 0 <= i < j < |rows| && SameHost(rows[i], rows[j]) :: Apart(rows[i], rows[j])
  }

  /** Disjointness is a comparison of endpoints. */
  lemma DisjointIffAllApart(rows: seq<Grant>)
    ensures WindowsDisjoint(rows) <==> AllApart(rows)
  {
    if WindowsDisjoint(rows) {
      forall i, j | 0 <= i < j < |rows| && SameHost(rows[i], rows[j]) ensures Apart(rows[i], rows[j]) {
        var t := if rows[i].createdAt < rows[j].createdAt then rows[j].createdAt else rows[i].createdAt;
        assert !(WindowContains(rows[i], t) && WindowContains(rows[j], t));
      }
    }
  }

  /** The writes that can make recorded windows overlap, both of a time taken before the write: a new row that opens
      before an earlier grant of the host ended, and a stale revoke that moves the end of a closed grant past the
      opening of another. */
  predicate Intrudes(s: State, e: Event) {
    || (Opens(s, e).Some? && exists i ::
          && 0 <= i < |s.rows| && SameHost(Opens(s, e).value, s.rows[i])
          && ReachesInto(Opens(s, e).value.createdAt, Opens(s, e).value.expiresAt, s.rows[i]))
    || (IsStaleSave(s, e) && exists i ::
          && 0 <= i < |s.rows| && i != s.phases[e.worker].row && SameHost(s.rows[s.phases[e.worker].row], s.rows[i])
          && ReachesInto(s.rows[s.phases[e.worker].row].createdAt, Some(NewEnd(s, e)), s.rows[i]))
  }

  /** Where a stale revoke moves the end of its row to. */
  function NewEnd(s: State, e: Event): int
    requires IsStaleSave(s, e)
  {
    Earlier(s.rows[s.phases[e.worker].row].expiresAt, s.phases[e.worker].at)
  }

  predicate WasEverOpen(g: Grant) {
    RecordedEnd(g).None? || g.createdAt < RecordedEnd(g).value
  }

  /** When a row is added to a host, every grant of the host has ended: it is revoked, or it is the lapsed one that
      is being replaced. */
  lemma OthersHaveEnded(s: State, e: Event, s': State, i: nat)
    requires Inv(s) && Step(s, e, s') && Opens(s, e).Some?
    requires i < |s.rows| && SameHost(Opens(s, e).value, s.rows[i])
    ensures RecordedEnd(s.rows[i]).Some? && RecordedEnd(s.rows[i]).value <= s.now
    ensures Opens(s, e).value.createdAt <= s.now && s.rows[i].createdAt <= s.now
  {
    var p := s.phases[e.worker];
    assert PhaseHolds(s, p);
    if e.Commit? {
      LockedIsOnlyUnrevoked(s, e.worker);
      assert i != p.row ==> !IsUnrevoked(s.rows[i], p.req.app, p.req.slug);
    } else {
      assert !IsUnrevoked(s.rows[i], p.req.app, p.req.slug);
    }
  }

  /** For a request that has not expired itself, a new row intrudes exactly when some grant of the host that was ever
      open ended only after the row's opening time was taken. */
  lemma OpeningIntrudesIff(s: State, e: Event, s': State)
    requires Inv(s) && Step(s, e, s') && Opens(s, e).Some?
    requires var until := Opens(s, e).value.expiresAt; until.None? || until.value > s.now
    ensures Intrudes(s, e) <==>
            exists i ::
              && 0 <= i < |s.rows| && SameHost(Opens(s, e).value, s.rows[i]) && WasEverOpen(s.rows[i])
              && RecordedEnd(s.rows[i]).Some? && Opens(s, e).value.createdAt < RecordedEnd(s.rows[i]).value
  {
    var g := Opens(s, e).value;
    forall i | 0 <= i < |s.rows| && SameHost(g, s.rows[i])
      ensures ReachesInto(g.createdAt, g.expiresAt, s.rows[i]) <==>
              WasEverOpen(s.rows[i]) && RecordedEnd(s.rows[i]).Some? && g.createdAt < RecordedEnd(s.rows[i]).value
    {
      OthersHaveEnded(s, e, s', i);
    }
  }

  /** A stale revoke of a grant that was ever open intrudes exactly when some other grant of the host that was ever
      open opened between the grant's old end and its new one. */
  lemma StaleRevokeIntrudesIff(s: State, e: Event)
    requires Inv(s) && AllApart(s.rows) && IsStaleSave(s, e)
    requires WasEverOpen(s.rows[s.phases[e.worker].row])
    ensures var row := s.phases[e.worker].row;
            Intrudes(s, e) <==>
            exists i ::
              && 0 <= i < |s.rows| && i != row && SameHost(s.rows[row], s.rows[i]) && WasEverOpen(s.rows[i])
              && RecordedEnd(s.rows[row]).value <= s.rows[i].createdAt < NewEnd(s, e)
  {
    var row := s.phases[e.worker].row;
    forall i | 0 <= i < |s.rows| && i != row && SameHost(s.rows[row], s.rows[i])
      ensures ReachesInto(s.rows[row].createdAt, Some(NewEnd(s, e)), s.rows[i]) <==>
              WasEverOpen(s.rows[i]) && RecordedEnd(s.rows[row]).value <= s.rows[i].createdAt < NewEnd(s, e)
    {
      assert Apart(s.rows[row], s.rows[i]) == Apart(s.rows[i], s.rows[row]);
    }
  }

  /** Where times are taken together with their writes nothing intrudes: windows overlap only through a write that
      lags behind its time. */
  lemma PromptWritesDoNotIntrude(s: State, e: Event, s': State)
    requires Inv(s) && Step(s, e, s')
    requires Opens(s, e).Some? ==> Opens(s, e).value.createdAt == s.now
    requires !IsStaleSave(s, e)
    ensures !Intrudes(s, e)
  {
    if Opens(s, e).Some? {
      var g := Opens(s, e).value;
      forall i | 0 <= i < |s.rows| && SameHost(g, s.rows[i]) ensures !ReachesInto(g.createdAt, g.expiresAt, s.rows[i]) {
        OthersHaveEnded(s, e, s', i);
      }
    }
  }

  /** Extending never makes windows overlap, not even a row that lapsed meanwhile: it was live when the last row of
      its host had been added. */
  lemma ExtensionKeepsApart(s: State, w: nat, stampedAt: int, createdAt: int, s': State)
    requires Inv(s) && AllApart(s.rows) && Step(s, Commit(w, stampedAt, createdAt), s') && s.phases[w].Extending?
    ensures AllApart(s'.rows)
  {
    var i := s.phases[w].row;
    assert PhaseHolds(s, s.phases[w]);
    LockedIsOnlyUnrevoked(s, w);
    forall j | 0 <= j < |s.rows| && j != i && SameHost(s.rows[i], s.rows[j])
      ensures Apart(s'.rows[i], s.rows[j]) && Apart(s.rows[j], s'.rows[i])
    {
      assert Apart(s.rows[i], s.rows[j]) == Apart(s.rows[j], s.rows[i]);
      assert !IsUnrevoked(s.rows[j], s.phases[w].req.app, s.phases[w].req.slug);
    }
    forall j, k | 0 <= j < k < |s.rows| && SameHost(s.rows[j], s.rows[k]) ensures Apart(s'.rows[j], s'.rows[k]) {
      assert Apart(s.rows[j], s.rows[k]);
    }
  }

  /** A step that only adds a row, and leaves the ends of the others, keeps windows apart iff it does not intrude. */
  lemma OpeningKeepsApartIff(s: State, e: Event, s': State)
    requires Inv(s) && AllApart(s.rows) && Step(s, e, s') && Opens(s, e).Some?
    requires |s'.rows| == |s.rows| + 1 && s'.rows[|s.rows|] == Opens(s, e).value
    requires forall i | 0 <= i < |s.rows| :: s'.rows[i].createdAt == s.rows[i].createdAt &&
               RecordedEnd(s'.rows[i]) == RecordedEnd(s.rows[i]) && SameHost(s'.rows[i], s.rows[i])
    ensures AllApart(s'.rows) <==> !Intrudes(s, e)
  {
    var g, last := Opens(s, e).value, |s.rows|;
    assert RecordedEnd(g) == g.expiresAt;
    forall i | 0 <= i < last && SameHost(g, s.rows[i])
      ensures Apart(s'.rows[i], s'.rows[last]) <==> !ReachesInto(g.createdAt, g.expiresAt, s.rows[i])
    {}
    forall i, j | 0 <= i < j < last && SameHost(s.rows[i], s.rows[j]) ensures Apart(s'.rows[i], s'.rows[j]) {
      assert Apart(s.rows[i], s.rows[j]);
    }
    assert !IsStaleSave(s, e);
  }

  lemma CommitKeepsApartIff(s: State, w: nat, stampedAt: int, createdAt: int, s': State)
    requires Inv(s) && AllApart(s.rows) && Step(s, Commit(w, stampedAt, createdAt), s')
    ensures AllApart(s'.rows) <==> !Intrudes(s, Commit(w, stampedAt, createdAt))
  {
    assert PhaseHolds(s, s.phases[w]);
    if s.phases[w].Extending? {
      ExtensionKeepsApart(s, w, stampedAt, createdAt, s');
    } else {
      OpeningKeepsApartIff(s, Commit(w, stampedAt, createdAt), s');
    }
  }

  lemma InsertKeepsApartIff(s: State, w: nat, s': State)
    requires Inv(s) && AllApart(s.rows) && Step(s, Insert(w), s')
    ensures AllApart(s'.rows) <==> !Intrudes(s, Insert(w))
  {
    if Opens(s, Insert(w)).Some? {
      OpeningKeepsApartIff(s, Insert(w), s');
    }
  }

  lemma RevokeKeepsApartIff(s: State, w: nat, s': State)
    requires Inv(s) && AllApart(s.rows) && Step(s, SaveRevoke(w), s')
    ensures AllApart(s'.rows) <==> !Intrudes(s, SaveRevoke(w))
  {
    var row, at := s.phases[w].row, s.phases[w].at;
    assert RecordedEnd(s'.rows[row]) == Some(Earlier(s.rows[row].expiresAt, at));
    forall i | 0 <= i < |s.rows| && i != row && SameHost(s.rows[row], s.rows[i])
      ensures Apart(s'.rows[row], s'.rows[i]) == Apart(s'.rows[i], s'.rows[row])
      ensures Apart(s'.rows[row], s'.rows[i]) <==>
              !ReachesInto(s.rows[row].createdAt, Some(Earlier(s.rows[row].expiresAt, at)), s.rows[i])
      ensures Apart(s.rows[row], s.rows[i]) == Apart(s.rows[i], s.rows[row])
    {}
    forall i, j | 0 <= i < j < |s.rows| && i != row && j != row && SameHost(s.rows[i], s.rows[j])
      ensures Apart(s'.rows[i], s'.rows[j])
    {}
  }

  /** A step keeps the recorded windows of every host disjoint if and only if it does not intrude. */
  lemma StepKeepsWindowsIff(s: State, e: Event, s': State)
    requires Inv(s) && WindowsDisjoint(s.rows) && Step(s, e, s')
    ensures WindowsDisjoint(s'.rows) <==> !Intrudes(s, e)
  {
    DisjointIffAllApart(s.rows);
    DisjointIffAllApart(s'.rows);
    match e
    case Commit(w, stampedAt, createdAt) => CommitKeepsApartIff(s, w, stampedAt, createdAt, s');
    case Insert(w) => InsertKeepsApartIff(s, w, s');
    case SaveRevoke(w) => RevokeKeepsApartIff(s, w, s');
    case _ =>
  }

  /** Over a run: the recorded windows are disjoint at every moment up to `n` if and only if no step before `n`
      intrudes. */
  lemma {:induction false} WindowsStayDisjointIff(states: seq<State>, events: seq<Event>, n: nat)
    requires IsRun(states, events) && n < |states|
    ensures (forall m | 0 <= m <= n :: WindowsDisjoint(states[m].rows)) <==>
            (forall k | 0 <= k < n :: !Intrudes(states[k], events[k]))
  {
    if n == 0 {
    } else {
      WindowsStayDisjointIff(states, events, n - 1);
      RunKeepsInvariant(states, events, n - 1);
      if WindowsDisjoint(states[n - 1].rows) {
        StepKeepsWindowsIff(states[n - 1], events[n - 1], states[n]);
      }
    }
  }

  // ------------------------------------------------ the transactions are the system's

  /** A publish that locks at once and commits, with nothing but time passing in between, leaves the rows that the
      transaction method leaves. */
  lemma LockThenCommitPublishes(s: State, w: nat, locked: State, later: State, stampedAt: int, createdAt: int,
                                s': State)
    requires Inv(s) && w in s.phases && s.phases[w].Ready? && Step(s, Lock(w), locked)
    requires later == locked.(now := later.now) && locked.now <= later.now
    requires Step(later, Commit(w, stampedAt, createdAt), s')
    ensures var req := s.phases[w].req;
            var found := FindUnrevoked(s.rows, req.app, req.slug);
            found.Some? && s'.rows == Published(s.rows, found.value, req, s.now, stampedAt, createdAt)
  {}

  /** Without a row to lock, a publish that stamps and inserts leaves the rows that the insert method leaves, and
      goes back to try again exactly where the method raises. */
  lemma StampThenInsertInserts(s: State, w: nat, stamped: State, later: State, s': State)
    requires w in s.phases && s.phases[w].SawNone? && Step(s, StampInsert(w), stamped)
    requires later.phases == stamped.phases && Step(later, Insert(w), s')
    ensures var p := s.phases[w];
            var free := FindUnrevoked(later.rows, p.req.app, p.req.slug).None?;
            var row := Grant(p.req.app, p.req.slug, p.req.admin, s.now, p.req.expiresAt, None, None);
            && s'.rows == (if free then later.rows + [row] else later.rows)
            && (w in s'.phases <==> !free && p.attempt == 1)
            && (w in s'.phases ==> s'.phases[w] == Ready(p.req, 2))
  {}
}

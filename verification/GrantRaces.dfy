/** Runs of the grant protocol in which something the code or its documentation expects does not happen. */
module GrantRaces {
  import opened Common
  import opened PublicGrants

  const DEMO := Request(7, "demo", 1, None)
  const FIRST := Fresh(DEMO, 0)
  const SECOND := Fresh(DEMO, 2)

  function Closed(g: Grant, at: int, admin: int): Grant {
    g.(revokedAt := Some(at), revokedBy := Some(admin))
  }

  // ---------------------------------------------------------------- a stale revoke

  const STALE_REVOKE := [
    Submit(0, DEMO), Lock(0), StampInsert(0), Insert(0), ReadForRevoke(1, 0, 9),
    ReadForRevoke(2, 0, 8), Tick(1), StampRevoke(2), SaveRevoke(2), Submit(0, DEMO),
    Lock(0), Tick(2), StampInsert(0), Insert(0), Tick(3),
    StampRevoke(1), SaveRevoke(1)
  ]

  function StaleRevokeState(n: nat): State {
    var waiting := SawUnrevoked(0, 9);
    var closed := Closed(FIRST, 1, 8);
    if n == 0 then State(0, [], map[])
    else if n == 1 then State(0, [], map[0 := Ready(DEMO, 1)])
    else if n == 2 then State(0, [], map[0 := SawNone(DEMO, 1)])
    else if n == 3 then State(0, [], map[0 := Inserting(DEMO, 1, 0)])
    else if n == 4 then State(0, [FIRST], map[])
    else if n == 5 then State(0, [FIRST], map[1 := waiting])
    else if n == 6 then State(0, [FIRST], map[1 := waiting, 2 := SawUnrevoked(0, 8)])
    else if n == 7 then State(1, [FIRST], map[1 := waiting, 2 := SawUnrevoked(0, 8)])
    else if n == 8 then State(1, [FIRST], map[1 := waiting, 2 := Revoking(0, 8, 1)])
    else if n == 9 then State(1, [closed], map[1 := waiting])
    else if n == 10 then State(1, [closed], map[1 := waiting, 0 := Ready(DEMO, 1)])
    else if n == 11 then State(1, [closed], map[1 := waiting, 0 := SawNone(DEMO, 1)])
    else if n == 12 then State(2, [closed], map[1 := waiting, 0 := SawNone(DEMO, 1)])
    else if n == 13 then State(2, [closed], map[1 := waiting, 0 := Inserting(DEMO, 1, 2)])
    else if n == 14 then State(2, [closed, SECOND], map[1 := waiting])
    else if n == 15 then State(3, [closed, SECOND], map[1 := waiting])
    else if n == 16 then State(3, [closed, SECOND], map[1 := Revoking(0, 9, 3)])
    else State(3, [Closed(FIRST, 3, 9), SECOND], map[])
  }

  lemma StaleRevokeStart(n: nat)
    requires n < 8
    ensures Step(StaleRevokeState(n), STALE_REVOKE[n], StaleRevokeState(n + 1))
  {}

  lemma StaleRevokeFinish(n: nat)
    requires 8 <= n < 17
    ensures Step(StaleRevokeState(n), STALE_REVOKE[n], StaleRevokeState(n + 1))
  {}

  /** Two admins open the revoke of one grant; the first finishes, the host is published again, and then the second
      finishes. */
  lemma StaleRevokeOverlapsWindows() returns (states: seq<State>, events: seq<Event>)
    ensures IsRun(states, events)
    ensures var rows := states[|states| - 1].rows;
            |rows| == 2 && SameHost(rows[0], rows[1]) && WindowContains(rows[0], 2) && WindowContains(rows[1], 2)
    ensures !WindowsDisjoint(states[|states| - 1].rows)
  {
    states, events := seq(18, (n: nat) => StaleRevokeState(n)), STALE_REVOKE;
    forall n | 0 <= n < 17 ensures Step(states[n], events[n], states[n + 1]) {
      if n < 8 { StaleRevokeStart(n); } else { StaleRevokeFinish(n); }
    }
    var rows := states[17].rows;
    assert SameHost(rows[0], rows[1]) && WindowContains(rows[0], 2) && WindowContains(rows[1], 2);
  }

  // ----------------------------------------------------------------- a late insert

  const LATE_INSERT := [
    Submit(0, DEMO), Lock(0), StampInsert(0), Submit(1, DEMO), Lock(1),
    Tick(2), StampInsert(1), Insert(1), ReadForRevoke(2, 0, 9), Tick(3),
    StampRevoke(2), SaveRevoke(2), Insert(0)
  ]

  function LateInsertState(n: nat): State {
    var late := Inserting(DEMO, 1, 0);
    if n == 0 then State(0, [], map[])
    else if n == 1 then State(0, [], map[0 := Ready(DEMO, 1)])
    else if n == 2 then State(0, [], map[0 := SawNone(DEMO, 1)])
    else if n == 3 then State(0, [], map[0 := late])
    else if n == 4 then State(0, [], map[0 := late, 1 := Ready(DEMO, 1)])
    else if n == 5 then State(0, [], map[0 := late, 1 := SawNone(DEMO, 1)])
    else if n == 6 then State(2, [], map[0 := late, 1 := SawNone(DEMO, 1)])
    else if n == 7 then State(2, [], map[0 := late, 1 := Inserting(DEMO, 1, 2)])
    else if n == 8 then State(2, [SECOND], map[0 := late])
    else if n == 9 then State(2, [SECOND], map[0 := late, 2 := SawUnrevoked(0, 9)])
    else if n == 10 then State(3, [SECOND], map[0 := late, 2 := SawUnrevoked(0, 9)])
    else if n == 11 then State(3, [SECOND], map[0 := late, 2 := Revoking(0, 9, 3)])
    else if n == 12 then State(3, [Closed(SECOND, 3, 9)], map[0 := late])
    else State(3, [Closed(SECOND, 3, 9), FIRST], map[])
  }

  lemma LateInsertStart(n: nat)
    requires n < 7
    ensures Step(LateInsertState(n), LATE_INSERT[n], LateInsertState(n + 1))
  {}

  lemma LateInsertFinish(n: nat)
    requires 7 <= n < 13
    ensures Step(LateInsertState(n), LATE_INSERT[n], LateInsertState(n + 1))
  {}

  /** A first publish takes its opening time and stalls; the host is published and revoked by others, and then its
      insert goes through. No revoke is stale here. */
  lemma LateInsertOverlapsWindows() returns (states: seq<State>, events: seq<Event>)
    ensures IsRun(states, events)
    ensures forall k | 0 <= k < |events| :: !IsStaleSave(states[k], events[k])
    ensures var rows := states[|states| - 1].rows;
            |rows| == 2 && SameHost(rows[0], rows[1]) && WindowContains(rows[0], 2) && WindowContains(rows[1], 2)
    ensures !WindowsDisjoint(states[|states| - 1].rows)
  {
    states, events := seq(14, (n: nat) => LateInsertState(n)), LATE_INSERT;
    forall n | 0 <= n < 13 ensures Step(states[n], events[n], states[n + 1]) {
      if n < 7 { LateInsertStart(n); } else { LateInsertFinish(n); }
    }
    forall k | 0 <= k < 13 ensures !IsStaleSave(states[k], events[k]) {
      assert events[k].SaveRevoke? ==> k == 11;
    }
    var rows := states[13].rows;
    assert SameHost(rows[0], rows[1]) && WindowContains(rows[0], 2) && WindowContains(rows[1], 2);
  }

  // ---------------------------------------------------- a retry that finds nothing

  const RETRY := [
    Submit(0, DEMO), Lock(0), StampInsert(0), Submit(1, DEMO), Lock(1),
    StampInsert(1), Insert(1), Insert(0), ReadForRevoke(2, 0, 9), StampRevoke(2),
    SaveRevoke(2), Lock(0)
  ]

  function RetryState(n: nat): State {
    var inserting := Inserting(DEMO, 1, 0);
    var again := Ready(DEMO, 2);
    if n == 0 then State(0, [], map[])
    else if n == 1 then State(0, [], map[0 := Ready(DEMO, 1)])
    else if n == 2 then State(0, [], map[0 := SawNone(DEMO, 1)])
    else if n == 3 then State(0, [], map[0 := inserting])
    else if n == 4 then State(0, [], map[0 := inserting, 1 := Ready(DEMO, 1)])
    else if n == 5 then State(0, [], map[0 := inserting, 1 := SawNone(DEMO, 1)])
    else if n == 6 then State(0, [], map[0 := inserting, 1 := inserting])
    else if n == 7 then State(0, [FIRST], map[0 := inserting])
    else if n == 8 then State(0, [FIRST], map[0 := again])
    else if n == 9 then State(0, [FIRST], map[0 := again, 2 := SawUnrevoked(0, 9)])
    else if n == 10 then State(0, [FIRST], map[0 := again, 2 := Revoking(0, 9, 0)])
    else if n == 11 then State(0, [Closed(FIRST, 0, 9)], map[0 := again])
    else State(0, [Closed(FIRST, 0, 9)], map[0 := SawNone(DEMO, 2)])
  }

  lemma RetryStart(n: nat)
    requires n < 6
    ensures Step(RetryState(n), RETRY[n], RetryState(n + 1))
  {}

  lemma RetryFinish(n: nat)
    requires 6 <= n < 12
    ensures Step(RetryState(n), RETRY[n], RetryState(n + 1))
  {}

  /** Two first publishes race; the loser retries, but the winner's grant has been revoked by then, so the retry finds
      no row and has to insert after all. */
  lemma RetryNeedNotExtend() returns (states: seq<State>, events: seq<Event>)
    ensures IsRun(states, events)
    ensures exists k | 0 <= k < |events| ::
              && events[k] == Lock(0) && 0 in states[k].phases && states[k].phases[0] == Ready(DEMO, 2)
              && 0 in states[k + 1].phases && states[k + 1].phases[0] == SawNone(DEMO, 2)
  {
    states, events := seq(13, (n: nat) => RetryState(n)), RETRY;
    forall n | 0 <= n < 12 ensures Step(states[n], events[n], states[n + 1]) {
      if n < 6 { RetryStart(n); } else { RetryFinish(n); }
    }
    assert events[11] == Lock(0) && states[11].phases[0] == Ready(DEMO, 2) && states[12].phases[0] == SawNone(DEMO, 2);
  }

  // -------------------------------------------------------------- a late extension

  const BRIEF := Request(7, "demo", 1, Some(5))
  const LONGER := Request(7, "demo", 1, Some(100))

  const LATE_EXTENSION := [
    Submit(0, BRIEF), Lock(0), StampInsert(0), Insert(0), Submit(1, LONGER),
    Tick(4), Lock(1), Tick(6), Commit(1, 6, 6)
  ]

  function LateExtensionState(n: nat): State {
    var brief := Fresh(BRIEF, 0);
    var extending := Extending(LONGER, 0, 4);
    if n == 0 then State(0, [], map[])
    else if n == 1 then State(0, [], map[0 := Ready(BRIEF, 1)])
    else if n == 2 then State(0, [], map[0 := SawNone(BRIEF, 1)])
    else if n == 3 then State(0, [], map[0 := Inserting(BRIEF, 1, 0)])
    else if n == 4 then State(0, [brief], map[])
    else if n == 5 then State(0, [brief], map[1 := Ready(LONGER, 1)])
    else if n == 6 then State(4, [brief], map[1 := Ready(LONGER, 1)])
    else if n == 7 then State(4, [brief], map[1 := extending])
    else if n == 8 then State(6, [brief], map[1 := extending])
    else State(6, [brief.(expiresAt := Some(100))], map[])
  }

  lemma LateExtensionStart(n: nat)
    requires n < 5
    ensures Step(LateExtensionState(n), LATE_EXTENSION[n], LateExtensionState(n + 1))
  {}

  lemma LateExtensionFinish(n: nat)
    requires 5 <= n < 9
    ensures Step(LateExtensionState(n), LATE_EXTENSION[n], LateExtensionState(n + 1))
  {}

  /** A grant is found live, lapses while its extension is open, and is extended all the same: the host is closed for
      a moment and then public again through the same row. */
  lemma LateExtensionRevives() returns (states: seq<State>, events: seq<Event>)
    ensures IsRun(states, events)
    ensures exists k | 0 <= k < |events| ::
              && |states[k].rows| == |states[k + 1].rows| == 1
              && !LiveAt(states[k].rows[0], states[k].now) && !PdpAllows(states[k].rows, 7, "demo", states[k].now)
              && LiveAt(states[k + 1].rows[0], states[k + 1].now)
              && PdpAllows(states[k + 1].rows, 7, "demo", states[k + 1].now)
  {
    states, events := seq(10, (n: nat) => LateExtensionState(n)), LATE_EXTENSION;
    forall n | 0 <= n < 9 ensures Step(states[n], events[n], states[n + 1]) {
      if n < 5 { LateExtensionStart(n); } else { LateExtensionFinish(n); }
    }
    assert !PdpAllows(states[8].rows, 7, "demo", states[8].now);
    assert LiveAt(states[9].rows[0], states[9].now) && PdpAllows(states[9].rows, 7, "demo", states[9].now);
  }
}

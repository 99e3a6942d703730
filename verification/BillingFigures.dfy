/** The figures of the billing snapshot, written out over the rows of the tables they are taken from. */
module BillingFigures {
  import opened Common
  import opened Totals
  import opened BillingQueries
  import opened BillingSnapshot

  // ------------------------------------------------------------- totals, row by row

  /** A total to which some rows contribute one each is the number of those rows. */
  lemma {:induction false} TotalCounts<T>(rows: seq<T>, keep: T -> bool, items: seq<Item>, f: Filter)
    requires |items| == |rows|
    requires forall i | 0 <= i < |rows| :: Share(f, items[i]) == if keep(rows[i]) then 1 else 0
    ensures Total(items, f) == |Select(rows, keep)|
  {
    if rows == [] {
    } else {
      var n := |rows| - 1;
      TotalCounts(rows[..n], keep, items[..n], f);
      assert rows == rows[..n] + [rows[n]];
      SelectAppend(rows[..n], rows[n], keep);
    }
  }

  function SumAmounts(entries: seq<LedgerEntry>): int {
    if entries == [] then 0 else SumAmounts(entries[..|entries| - 1]) + entries[|entries| - 1].amount
  }

  /** A total to which some entries contribute their amounts is the sum of those amounts. */
  lemma {:induction false} TotalSums(ledger: seq<LedgerEntry>, keep: LedgerEntry -> bool, items: seq<Item>, f: Filter)
    requires |items| == |ledger|
    requires forall i | 0 <= i < |ledger| :: Share(f, items[i]) == if keep(ledger[i]) then ledger[i].amount else 0
    ensures Total(items, f) == SumAmounts(Select(ledger, keep))
  {
    if ledger == [] {
    } else {
      var n := |ledger| - 1;
      TotalSums(ledger[..n], keep, items[..n], f);
      assert ledger == ledger[..n] + [ledger[n]];
      SelectAppend(ledger[..n], ledger[n], keep);
      if keep(ledger[n]) {
        SumSnoc(Select(ledger[..n], keep), ledger[n]);
      } else {
        assert Select(ledger, keep) == Select(ledger[..n], keep);
      }
    }
  }

  /** And one to which they contribute with the opposite sign is the sum with that sign. */
  lemma {:induction false} TotalOwes(ledger: seq<LedgerEntry>, keep: LedgerEntry -> bool, items: seq<Item>, f: Filter)
    requires |items| == |ledger|
    requires forall i | 0 <= i < |ledger| :: Share(f, items[i]) == if keep(ledger[i]) then -ledger[i].amount else 0
    ensures Total(items, f) == -SumAmounts(Select(ledger, keep))
  {
    if ledger == [] {
    } else {
      var n := |ledger| - 1;
      TotalOwes(ledger[..n], keep, items[..n], f);
      assert ledger == ledger[..n] + [ledger[n]];
      SelectAppend(ledger[..n], ledger[n], keep);
      if keep(ledger[n]) {
        SumSnoc(Select(ledger[..n], keep), ledger[n]);
      } else {
        assert Select(ledger, keep) == Select(ledger[..n], keep);
      }
    }
  }

  lemma SumSnoc(entries: seq<LedgerEntry>, e: LedgerEntry)
    ensures SumAmounts(entries + [e]) == SumAmounts(entries) + e.amount
  {
    assert (entries + [e])[..|entries|] == entries;
  }

  // -------------------------------------------------------------------- the summary

  /** The summary counts the events that occurred from the start of the window on, or all if it has none; the unrated
      events of all time; and those of them received before the age limit. */
  lemma SummaryCountsEvents(db: Database, scope: Scope, s: Snapshot)
    requires IsSnapshot(db, scope, s)
    ensures scope.startsAt.None? ==> s.counts.used == |db.events|
    ensures forall t | scope.startsAt == Some(t) ::
              s.counts.used == |Select(db.events, (e: UsageEvent) => e.occurredAt >= t)|
    ensures s.counts.pending == |Select(db.events, (e: UsageEvent) => !e.rated)|
    ensures s.counts.aged == |Select(db.events, (e: UsageEvent) => !e.rated && e.createdAt < scope.agedBefore)|
  {
    if scope.startsAt.None? {
      TotalCounts(db.events, (e: UsageEvent) => true, UsageItems(db.events, scope, Used), All);
      SelectAllIff(db.events, (e: UsageEvent) => true);
    } else {
      var t := scope.startsAt.value;
      TotalCounts(db.events, (e: UsageEvent) => e.occurredAt >= t, UsageItems(db.events, scope, Used), All);
    }
    TotalCounts(db.events, (e: UsageEvent) => !e.rated, UsageItems(db.events, scope, Pending), All);
    TotalCounts(db.events, (e: UsageEvent) => !e.rated && e.createdAt < scope.agedBefore,
                UsageItems(db.events, scope, Aged), All);
  }

  /** It counts each organization once that has such an event in the window. */
  lemma SummaryCountsReporters(db: Database, scope: Scope, s: Snapshot)
    requires IsSnapshot(db, scope, s)
    ensures s.reporting ==
            |set e | e in db.events && (scope.startsAt.None? || e.occurredAt >= scope.startsAt.value) :: e.key.0|
  {
    SelectMembers(db.events, (e: UsageEvent) => InWindow(scope, e.occurredAt));
    assert OrganizationsOf(InWindowEvents(db.events, scope)) ==
           set e | e in db.events && (scope.startsAt.None? || e.occurredAt >= scope.startsAt.value) :: e.key.0;
  }

  /** The credits charged are what the charges posted from the start of the window on took away. */
  lemma SummarySumsCharges(db: Database, scope: Scope, s: Snapshot)
    requires WellFormed(db) && IsSnapshot(db, scope, s)
    ensures s.charged ==
            -SumAmounts(Select(db.ledger, (e: LedgerEntry) =>
              e.kind == Charge && (scope.startsAt.None? || e.createdAt >= scope.startsAt.value)))
  {
    GroupsAddUpToSummary(db, scope, s);
    TotalOwes(db.ledger, (e: LedgerEntry) =>
                e.kind == Charge && (scope.startsAt.None? || e.createdAt >= scope.startsAt.value),
              LedgerItems(db.ledger, scope, Charged), All);
  }

  // ----------------------------------------------------------------- groups and rows

  /** Every organization has a group, and its usage figures count its own events in the same way. */
  lemma GroupsCountEvents(db: Database, scope: Scope, s: Snapshot, o: Id)
    requires IsSnapshot(db, scope, s) && o in db.organizations
    ensures o in s.groups
    ensures var c := s.groups[o].counts;
            && c.used == |Select(db.events, (e: UsageEvent) =>
                            e.key.0 == o && (scope.startsAt.None? || e.occurredAt >= scope.startsAt.value))|
            && c.pending == |Select(db.events, (e: UsageEvent) => e.key.0 == o && !e.rated)|
            && c.aged == |Select(db.events, (e: UsageEvent) =>
                            e.key.0 == o && !e.rated && e.createdAt < scope.agedBefore)|
  {
    TotalCounts(db.events, (e: UsageEvent) =>
                  e.key.0 == o && (scope.startsAt.None? || e.occurredAt >= scope.startsAt.value),
                UsageItems(db.events, scope, Used), OfOrg(o));
    TotalCounts(db.events, (e: UsageEvent) => e.key.0 == o && !e.rated,
                UsageItems(db.events, scope, Pending), OfOrg(o));
    TotalCounts(db.events, (e: UsageEvent) => e.key.0 == o && !e.rated && e.createdAt < scope.agedBefore,
                UsageItems(db.events, scope, Aged), OfOrg(o));
  }

  /** Its ledger figures are about its own entries posted in the window: their number, the sum of their amounts, and
      what the charges among them took away. */
  lemma GroupsSumEntries(db: Database, scope: Scope, s: Snapshot, o: Id)
    requires IsSnapshot(db, scope, s) && o in s.groups
    ensures var l := s.groups[o].ledger;
            && l.count == |Select(db.ledger, (e: LedgerEntry) =>
                             e.key.0 == o && (scope.startsAt.None? || e.createdAt >= scope.startsAt.value))|
            && l.moved == SumAmounts(Select(db.ledger, (e: LedgerEntry) =>
                            e.key.0 == o && (scope.startsAt.None? || e.createdAt >= scope.startsAt.value)))
            && l.charged == -SumAmounts(Select(db.ledger, (e: LedgerEntry) =>
                              e.key.0 == o && e.kind == Charge &&
                              (scope.startsAt.None? || e.createdAt >= scope.startsAt.value)))
  {
    TotalCounts(db.ledger, (e: LedgerEntry) =>
                  e.key.0 == o && (scope.startsAt.None? || e.createdAt >= scope.startsAt.value),
                LedgerItems(db.ledger, scope, Posted), OfOrg(o));
    TotalSums(db.ledger, (e: LedgerEntry) =>
                e.key.0 == o && (scope.startsAt.None? || e.createdAt >= scope.startsAt.value),
              LedgerItems(db.ledger, scope, Moved), OfOrg(o));
    TotalOwes(db.ledger, (e: LedgerEntry) =>
                e.key.0 == o && e.kind == Charge && (scope.startsAt.None? || e.createdAt >= scope.startsAt.value),
              LedgerItems(db.ledger, scope, Charged), OfOrg(o));
  }

  /** A group has one row for each of its apps that is current or has ever reported an event, and no other. */
  lemma GroupsListApps(db: Database, scope: Scope, s: Snapshot, o: Id)
    requires IsSnapshot(db, scope, s) && o in s.groups
    ensures var rows := s.groups[o].rows;
            && (forall i, j | 0 <= i < j < |rows| :: rows[i].key != rows[j].key)
            && (forall k :: (exists i :: 0 <= i < |rows| && rows[i].key == k) <==>
                              k.0 == o && (k in db.apps || exists e :: e in db.events && e.key == k))
            && (forall i | 0 <= i < |rows| :: rows[i].isRemoved <==> rows[i].key !in db.apps)
  {
    var rows := s.groups[o].rows;
    assert Lists(db, scope, rows, Known(db), o);
    forall i, j | 0 <= i < j < |rows| ensures rows[i].key != rows[j].key {
      assert RowKeys(rows)[i] != RowKeys(rows)[j];
    }
    forall k ensures (exists i :: 0 <= i < |rows| && rows[i].key == k) <==> k in RowKeys(rows) {
      if i :| 0 <= i < |rows| && rows[i].key == k {
        assert RowKeys(rows)[i] == k;
      }
    }
    forall k ensures k in Known(db) <==> k in db.apps || exists e :: e in db.events && e.key == k {}
  }

  lemma RowIsItsApps(db: Database, scope: Scope, s: Snapshot, o: Id, i: nat)
    requires IsSnapshot(db, scope, s) && o in s.groups && i < |s.groups[o].rows|
    ensures var row := s.groups[o].rows[i]; row == RowFor(db, scope, row.key)
  {
    assert Lists(db, scope, s.groups[o].rows, Known(db), o);
  }

  /** A row's usage figures are about its own app's events. */
  lemma RowsCountEvents(db: Database, scope: Scope, s: Snapshot, o: Id, i: nat)
    requires IsSnapshot(db, scope, s) && o in s.groups && i < |s.groups[o].rows|
    ensures var row := s.groups[o].rows[i];
            && row.counts.used == |Select(db.events, (e: UsageEvent) =>
                 e.key == row.key && (scope.startsAt.None? || e.occurredAt >= scope.startsAt.value))|
            && row.counts.pending == |Select(db.events, (e: UsageEvent) => e.key == row.key && !e.rated)|
            && row.counts.aged == |Select(db.events, (e: UsageEvent) =>
                 e.key == row.key && !e.rated && e.createdAt < scope.agedBefore)|
  {
    RowIsItsApps(db, scope, s, o, i);
    var k := s.groups[o].rows[i].key;
    TotalCounts(db.events, (e: UsageEvent) =>
                  e.key == k && (scope.startsAt.None? || e.occurredAt >= scope.startsAt.value),
                UsageItems(db.events, scope, Used), OfApp(k));
    TotalCounts(db.events, (e: UsageEvent) => e.key == k && !e.rated, UsageItems(db.events, scope, Pending), OfApp(k));
    TotalCounts(db.events, (e: UsageEvent) => e.key == k && !e.rated && e.createdAt < scope.agedBefore,
                UsageItems(db.events, scope, Aged), OfApp(k));
  }

  /** And its credits are what its own app's charges in the window took away. */
  lemma RowsSumCharges(db: Database, scope: Scope, s: Snapshot, o: Id, i: nat)
    requires IsSnapshot(db, scope, s) && o in s.groups && i < |s.groups[o].rows|
    ensures var row := s.groups[o].rows[i];
            row.charged == -SumAmounts(Select(db.ledger, (e: LedgerEntry) =>
              e.key == row.key && e.kind == Charge && (scope.startsAt.None? || e.createdAt >= scope.startsAt.value)))
  {
    RowIsItsApps(db, scope, s, o, i);
    var k := s.groups[o].rows[i].key;
    TotalOwes(db.ledger, (e: LedgerEntry) =>
                e.key == k && e.kind == Charge && (scope.startsAt.None? || e.createdAt >= scope.startsAt.value),
              LedgerItems(db.ledger, scope, Charged), OfApp(k));
  }
}

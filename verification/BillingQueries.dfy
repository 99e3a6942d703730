/** The billing tables and the grouped queries over usage events, joined by app and by organization. */
module BillingQueries {
  import opened Common
  import opened Totals

  datatype UsageEvent = UsageEvent(key: AppKey, occurredAt: int, createdAt: int, rated: bool)

  datatype EntryKind = Grant | Charge | Adjustment | Expiry

  /** A movement of whole credits; `key.1` is the app named by a charge's metadata. */
  datatype LedgerEntry = LedgerEntry(key: AppKey, kind: EntryKind, amount: int, createdAt: int)

  datatype Database = Database(
    organizations: seq<Id>,
    apps: seq<AppKey>,
    events: seq<UsageEvent>,
    ledger: seq<LedgerEntry>
  )

  /** Foreign keys and primary keys. */
  ghost predicate WellFormed(db: Database) {
    && Distinct(db.organizations) && Distinct(db.apps)
    && (forall a | a in db.apps :: a.0 in db.organizations)
    && (forall e | e in db.events :: e.key.0 in db.organizations)
    && (forall e | e in db.ledger :: e.key.0 in db.organizations)
  }

  /** The chosen window and the age at which a pending event counts as aged. */
  datatype Scope = Scope(startsAt: Option<int>, agedBefore: int)

  predicate InWindow(scope: Scope, t: int) {
    scope.startsAt.None? || t >= scope.startsAt.value
  }

  // ------------------------------------------------------------- what is counted

  /** In-window usage; all-time unrated usage; the part of it that is old. */
  datatype UsageMeasure = Used | Pending | Aged

  function UsageItem(scope: Scope, m: UsageMeasure, e: UsageEvent): Item {
    var counted := match m
      case Used => InWindow(scope, e.occurredAt)
      case Pending => !e.rated
      case Aged => !e.rated && e.createdAt < scope.agedBefore;
    Item(e.key, if counted then 1 else 0)
  }

  function UsageItems(events: seq<UsageEvent>, scope: Scope, m: UsageMeasure): seq<Item> {
    seq(|events|, i requires 0 <= i < |events| => UsageItem(scope, m, events[i]))
  }

  /** Credits charged, net movement and number of entries, all in the window. */
  datatype LedgerMeasure = Charged | Moved | Posted

  function LedgerItem(scope: Scope, m: LedgerMeasure, e: LedgerEntry): Item {
    var weight := match m
      case Charged => if e.kind == Charge then -e.amount else 0
      case Moved => e.amount
      case Posted => 1;
    Item(e.key, if InWindow(scope, e.createdAt) then weight else 0)
  }

  function LedgerItems(ledger: seq<LedgerEntry>, scope: Scope, m: LedgerMeasure): seq<Item> {
    seq(|ledger|, i requires 0 <= i < |ledger| => LedgerItem(scope, m, ledger[i]))
  }

  // ---------------------------------------------------------------- the aggregates

  /** In-window usage, all-time pending usage and the aged part of it. */
  datatype Counts = Counts(used: int, pending: int, aged: int)

  /** What the counts of a group should be: one pass over all events. */
  function UsageCounts(db: Database, scope: Scope, f: Filter): Counts {
    Counts(Total(UsageItems(db.events, scope, Used), f),
           Total(UsageItems(db.events, scope, Pending), f),
           Total(UsageItems(db.events, scope, Aged), f))
  }

  function InWindowEvents(events: seq<UsageEvent>, scope: Scope): seq<UsageEvent> {
    Select(events, (e: UsageEvent) => InWindow(scope, e.occurredAt))
  }

  function PendingEvents(events: seq<UsageEvent>): seq<UsageEvent> {
    Select(events, (e: UsageEvent) => !e.rated)
  }

  function AgedEvents(pending: seq<UsageEvent>, scope: Scope): seq<UsageEvent> {
    Select(pending, (e: UsageEvent) => e.createdAt < scope.agedBefore)
  }

  /** The number of selected rows in one group. */
  function CountIn(rows: seq<UsageEvent>, f: Filter): nat {
    if rows == [] then 0 else CountIn(rows[..|rows| - 1], f) + if Takes(f, rows[|rows| - 1].key) then 1 else 0
  }

  function AppsOf(rows: seq<UsageEvent>): set<AppKey> {
    set e | e in rows :: e.key
  }

  function OrganizationsOf(rows: seq<UsageEvent>): set<Id> {
    set e | e in rows :: e.key.0
  }

  function InWindowByApp(db: Database, scope: Scope): map<AppKey, int> {
    var rows := InWindowEvents(db.events, scope);
    map k | k in AppsOf(rows) :: CountIn(rows, OfApp(k))
  }

  function InWindowByOrganization(db: Database, scope: Scope): map<Id, int> {
    var rows := InWindowEvents(db.events, scope);
    map o | o in OrganizationsOf(rows) :: CountIn(rows, OfOrg(o))
  }

  datatype PendingMetrics = PendingMetrics(count: int, aged: int)

  function PendingMetricsOf(pending: seq<UsageEvent>, scope: Scope, f: Filter): PendingMetrics {
    PendingMetrics(CountIn(pending, f), CountIn(AgedEvents(pending, scope), f))
  }

  function PendingByApp(db: Database, scope: Scope): map<AppKey, PendingMetrics> {
    var pending := PendingEvents(db.events);
    map k | k in AppsOf(pending) :: PendingMetricsOf(pending, scope, OfApp(k))
  }

  function PendingByOrganization(db: Database, scope: Scope): map<Id, PendingMetrics> {
    var pending := PendingEvents(db.events);
    map o | o in OrganizationsOf(pending) :: PendingMetricsOf(pending, scope, OfOrg(o))
  }

  // ---------------------------------------------------------------------- the join

  /** Every key either query returned; what the other did not return counts as zero. */
  function JoinUsage<K>(inWindow: map<K, int>, pending: map<K, PendingMetrics>): map<K, Counts> {
    map k | k in inWindow.Keys + pending.Keys ::
      Counts(if k in inWindow then inWindow[k] else 0,
             if k in pending then pending[k].count else 0,
             if k in pending then pending[k].aged else 0)
  }

  function UsageByApp(db: Database, scope: Scope): map<AppKey, Counts> {
    JoinUsage(InWindowByApp(db, scope), PendingByApp(db, scope))
  }

  function UsageByOrganization(db: Database, scope: Scope): map<Id, Counts> {
    JoinUsage(InWindowByOrganization(db, scope), PendingByOrganization(db, scope))
  }

  /** The two ungrouped aggregates of the summary. */
  function SummaryCounts(db: Database, scope: Scope): Counts {
    var pending := PendingMetricsOf(PendingEvents(db.events), scope, All);
    Counts(CountIn(InWindowEvents(db.events, scope), All), pending.count, pending.aged)
  }

  function CountsOr0<K>(m: map<K, Counts>, k: K): Counts {
    if k in m then m[k] else Counts(0, 0, 0)
  }

  // -------------------------------------------------------------------- completeness

  lemma CountSnoc(rows: seq<UsageEvent>, e: UsageEvent, f: Filter)
    ensures CountIn(rows + [e], f) == CountIn(rows, f) + if Takes(f, e.key) then 1 else 0
  {
    assert (rows + [e])[..|rows|] == rows;
  }

  /** Selecting rows and counting a group is totalling weights of one over all rows. */
  lemma {:induction false} CountIsTotal(events: seq<UsageEvent>, keep: UsageEvent -> bool, items: seq<Item>, f: Filter)
    requires |items| == |events|
    requires forall i | 0 <= i < |events| :: items[i].key == events[i].key
    requires forall i | 0 <= i < |events| :: items[i].weight == if keep(events[i]) then 1 else 0
    ensures CountIn(Select(events, keep), f) == Total(items, f)
  {
    if events == [] {
    } else {
      var n := |events| - 1;
      CountIsTotal(events[..n], keep, items[..n], f);
      assert events == events[..n] + [events[n]];
      SelectAppend(events[..n], events[n], keep);
      if keep(events[n]) {
        CountSnoc(Select(events[..n], keep), events[n], f);
      } else {
        assert Select(events, keep) == Select(events[..n], keep);
      }
    }
  }

  /** The three queries, on any group, count what they should. */
  lemma QueriesCount(db: Database, scope: Scope, f: Filter)
    ensures var pending := PendingMetricsOf(PendingEvents(db.events), scope, f);
            UsageCounts(db, scope, f) ==
            Counts(CountIn(InWindowEvents(db.events, scope), f), pending.count, pending.aged)
  {
    CountIsTotal(db.events, (e: UsageEvent) => InWindow(scope, e.occurredAt), UsageItems(db.events, scope, Used), f);
    CountIsTotal(db.events, (e: UsageEvent) => !e.rated, UsageItems(db.events, scope, Pending), f);
    CountIsTotal(db.events, (e: UsageEvent) => !e.rated && e.createdAt < scope.agedBefore,
                 UsageItems(db.events, scope, Aged), f);
    SelectTwice(db.events, (e: UsageEvent) => !e.rated, (e: UsageEvent) => e.createdAt < scope.agedBefore);
    SelectAgrees(db.events, (e: UsageEvent) => !e.rated && e.createdAt < scope.agedBefore,
                 Both((e: UsageEvent) => !e.rated, (e: UsageEvent) => e.createdAt < scope.agedBefore));
  }

  lemma SummaryIsComplete(db: Database, scope: Scope)
    ensures SummaryCounts(db, scope) == UsageCounts(db, scope, All)
  {
    QueriesCount(db, scope, All);
  }

  lemma {:induction false} CountsSomethingIff(rows: seq<UsageEvent>, f: Filter)
    ensures CountIn(rows, f) > 0 <==> exists e :: e in rows && Takes(f, e.key)
  {
    if rows == [] {
    } else {
      var front, last := rows[..|rows| - 1], rows[|rows| - 1];
      CountsSomethingIff(front, f);
      assert rows == front + [last];
    }
  }

  /** A group the pending query does not return has no aged events either. */
  lemma NothingPendingNothingAged(events: seq<UsageEvent>, scope: Scope, f: Filter)
    requires CountIn(PendingEvents(events), f) == 0
    ensures CountIn(AgedEvents(PendingEvents(events), scope), f) == 0
  {
    var pending := PendingEvents(events);
    CountsSomethingIff(pending, f);
    CountsSomethingIff(AgedEvents(pending, scope), f);
    SelectMembers(pending, (e: UsageEvent) => e.createdAt < scope.agedBefore);
  }

  /** The join loses nothing and invents nothing: for every app, whichever queries return it. */
  lemma UsageByAppIsComplete(db: Database, scope: Scope, k: AppKey)
    ensures CountsOr0(UsageByApp(db, scope), k) == UsageCounts(db, scope, OfApp(k))
  {
    QueriesCount(db, scope, OfApp(k));
    CountsSomethingIff(InWindowEvents(db.events, scope), OfApp(k));
    CountsSomethingIff(PendingEvents(db.events), OfApp(k));
    if k !in PendingByApp(db, scope) {
      NothingPendingNothingAged(db.events, scope, OfApp(k));
    }
  }

  lemma UsageByOrganizationIsComplete(db: Database, scope: Scope, o: Id)
    ensures CountsOr0(UsageByOrganization(db, scope), o) == UsageCounts(db, scope, OfOrg(o))
  {
    QueriesCount(db, scope, OfOrg(o));
    CountsSomethingIff(InWindowEvents(db.events, scope), OfOrg(o));
    CountsSomethingIff(PendingEvents(db.events), OfOrg(o));
    if o !in PendingByOrganization(db, scope) {
      NothingPendingNothingAged(db.events, scope, OfOrg(o));
    }
  }

  /** The organizations with usage in the window are those whose joined count is positive. */
  lemma ReportingIff(db: Database, scope: Scope, o: Id)
    ensures o in OrganizationsOf(InWindowEvents(db.events, scope)) <==> UsageCounts(db, scope, OfOrg(o)).used > 0
  {
    QueriesCount(db, scope, OfOrg(o));
    CountsSomethingIff(InWindowEvents(db.events, scope), OfOrg(o));
  }
}

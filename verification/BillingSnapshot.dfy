/** The platform billing snapshot: aggregates computed apart, joined into one row per app, and the totals
    that survive the join. */
module BillingSnapshot {
  import opened Common
  import opened Totals
  import opened BillingQueries

  // -------------------------------------------------------------- the ledger fold

  datatype LedgerMetrics = LedgerMetrics(charged: int, moved: int, count: int)

  function OrganizationLedger(ledger: seq<LedgerEntry>, scope: Scope, o: Id): LedgerMetrics {
    LedgerMetrics(Total(LedgerItems(ledger, scope, Charged), OfOrg(o)),
                  Total(LedgerItems(ledger, scope, Moved), OfOrg(o)),
                  Total(LedgerItems(ledger, scope, Posted), OfOrg(o)))
  }

  function ValueOr0<K>(m: map<K, int>, k: K): int {
    if k in m then m[k] else 0
  }

  ghost predicate TracksOrgs(m: map<Id, int>, items: seq<Item>) {
    forall o :: ValueOr0(m, o) == Total(items, OfOrg(o))
  }

  ghost predicate TracksApps(m: map<AppKey, int>, items: seq<Item>) {
    forall k :: ValueOr0(m, k) == Total(items, OfApp(k))
  }

  lemma TracksOrgsSnoc(m: map<Id, int>, items: seq<Item>, item: Item)
    requires TracksOrgs(m, items)
    ensures TracksOrgs(m[item.key.0 := ValueOr0(m, item.key.0) + item.weight], items + [item])
    ensures item.weight == 0 ==> TracksOrgs(m, items + [item])
  {
    forall o ensures Total(items + [item], OfOrg(o)) == Total(items, OfOrg(o)) + Share(OfOrg(o), item) {
      TotalSnoc(items, item, OfOrg(o));
    }
  }

  lemma TracksAppsSnoc(m: map<AppKey, int>, items: seq<Item>, item: Item)
    requires TracksApps(m, items)
    ensures TracksApps(m[item.key := ValueOr0(m, item.key) + item.weight], items + [item])
    ensures item.weight == 0 ==> TracksApps(m, items + [item])
  {
    forall k ensures Total(items + [item], OfApp(k)) == Total(items, OfApp(k)) + Share(OfApp(k), item) {
      TotalSnoc(items, item, OfApp(k));
    }
  }

  /** The organizations with an entry in the window, and the apps with a charge in it. */
  function PostedOrgs(ledger: seq<LedgerEntry>, scope: Scope): set<Id> {
    set e | e in ledger && InWindow(scope, e.createdAt) :: e.key.0
  }

  function ChargedApps(ledger: seq<LedgerEntry>, scope: Scope): set<AppKey> {
    set e | e in ledger && InWindow(scope, e.createdAt) && e.kind == Charge :: e.key
  }

  /** One more entry: its organization's figure moves by the entry's weight, if the dictionary was updated so. */
  lemma OrgStep(ledger: seq<LedgerEntry>, i: nat, scope: Scope, m: LedgerMeasure, before: map<Id, int>,
                after: map<Id, int>)
    requires i < |ledger| && TracksOrgs(before, LedgerItems(ledger[..i], scope, m))
    requires var item := LedgerItem(scope, m, ledger[i]);
             after == before[item.key.0 := ValueOr0(before, item.key.0) + item.weight] ||
             (item.weight == 0 && after == before)
    ensures TracksOrgs(after, LedgerItems(ledger[..i + 1], scope, m))
  {
    TracksOrgsSnoc(before, LedgerItems(ledger[..i], scope, m), LedgerItem(scope, m, ledger[i]));
    assert LedgerItems(ledger[..i + 1], scope, m) ==
           LedgerItems(ledger[..i], scope, m) + [LedgerItem(scope, m, ledger[i])];
  }

  lemma AppStep(ledger: seq<LedgerEntry>, i: nat, scope: Scope, before: map<AppKey, int>, after: map<AppKey, int>)
    requires i < |ledger| && TracksApps(before, LedgerItems(ledger[..i], scope, Charged))
    requires var item := LedgerItem(scope, Charged, ledger[i]);
             after == before[item.key := ValueOr0(before, item.key) + item.weight] ||
             (item.weight == 0 && after == before)
    ensures TracksApps(after, LedgerItems(ledger[..i + 1], scope, Charged))
  {
    TracksAppsSnoc(before, LedgerItems(ledger[..i], scope, Charged), LedgerItem(scope, Charged, ledger[i]));
    assert LedgerItems(ledger[..i + 1], scope, Charged) ==
           LedgerItems(ledger[..i], scope, Charged) + [LedgerItem(scope, Charged, ledger[i])];
  }

  lemma KeysStep(ledger: seq<LedgerEntry>, i: nat, scope: Scope)
    requires i < |ledger|
    ensures PostedOrgs(ledger[..i + 1], scope) ==
            PostedOrgs(ledger[..i], scope) + if InWindow(scope, ledger[i].createdAt) then {ledger[i].key.0} else {}
    ensures ChargedApps(ledger[..i + 1], scope) ==
            ChargedApps(ledger[..i], scope) +
            if InWindow(scope, ledger[i].createdAt) && ledger[i].kind == Charge then {ledger[i].key} else {}
  {
    assert ledger[..i + 1] == ledger[..i] + [ledger[i]];
  }

  ghost predicate IsLedgerMetrics(ledger: seq<LedgerEntry>, scope: Scope, byOrganization: map<Id, LedgerMetrics>) {
    && byOrganization.Keys == PostedOrgs(ledger, scope)
    && forall o | o in byOrganization :: byOrganization[o] == OrganizationLedger(ledger, scope, o)
  }

  datatype Ledgers = Ledgers(credits: map<Id, int>, moved: map<Id, int>, counts: map<Id, int>, byApp: map<AppKey, int>)

  /** The four dictionaries after a prefix of the ledger. */
  ghost predicate Folded(d: Ledgers, prefix: seq<LedgerEntry>, scope: Scope) {
    && TracksOrgs(d.credits, LedgerItems(prefix, scope, Charged))
    && TracksOrgs(d.moved, LedgerItems(prefix, scope, Moved))
    && TracksOrgs(d.counts, LedgerItems(prefix, scope, Posted))
    && TracksApps(d.byApp, LedgerItems(prefix, scope, Charged))
    && HasKeysOf(d, prefix, scope)
  }

  function FoldEntry(d: Ledgers, e: LedgerEntry, scope: Scope): Ledgers {
    if !InWindow(scope, e.createdAt) then d
    else
      var posted := d.(moved := d.moved[e.key.0 := ValueOr0(d.moved, e.key.0) + e.amount],
                       counts := d.counts[e.key.0 := ValueOr0(d.counts, e.key.0) + 1]);
      if e.kind != Charge then posted
      else posted.(credits := d.credits[e.key.0 := ValueOr0(d.credits, e.key.0) - e.amount],
                   byApp := d.byApp[e.key := ValueOr0(d.byApp, e.key) - e.amount])
  }

  lemma CreditsStep(d: Ledgers, ledger: seq<LedgerEntry>, i: nat, scope: Scope)
    requires i < |ledger| && TracksOrgs(d.credits, LedgerItems(ledger[..i], scope, Charged))
    ensures TracksOrgs(FoldEntry(d, ledger[i], scope).credits, LedgerItems(ledger[..i + 1], scope, Charged))
  {
    OrgStep(ledger, i, scope, Charged, d.credits, FoldEntry(d, ledger[i], scope).credits);
  }

  lemma MovedStep(d: Ledgers, ledger: seq<LedgerEntry>, i: nat, scope: Scope)
    requires i < |ledger| && TracksOrgs(d.moved, LedgerItems(ledger[..i], scope, Moved))
    ensures TracksOrgs(FoldEntry(d, ledger[i], scope).moved, LedgerItems(ledger[..i + 1], scope, Moved))
  {
    OrgStep(ledger, i, scope, Moved, d.moved, FoldEntry(d, ledger[i], scope).moved);
  }

  lemma CountsStep(d: Ledgers, ledger: seq<LedgerEntry>, i: nat, scope: Scope)
    requires i < |ledger| && TracksOrgs(d.counts, LedgerItems(ledger[..i], scope, Posted))
    ensures TracksOrgs(FoldEntry(d, ledger[i], scope).counts, LedgerItems(ledger[..i + 1], scope, Posted))
  {
    OrgStep(ledger, i, scope, Posted, d.counts, FoldEntry(d, ledger[i], scope).counts);
  }

  lemma ByAppStep(d: Ledgers, ledger: seq<LedgerEntry>, i: nat, scope: Scope)
    requires i < |ledger| && TracksApps(d.byApp, LedgerItems(ledger[..i], scope, Charged))
    ensures TracksApps(FoldEntry(d, ledger[i], scope).byApp, LedgerItems(ledger[..i + 1], scope, Charged))
  {
    AppStep(ledger, i, scope, d.byApp, FoldEntry(d, ledger[i], scope).byApp);
  }

  ghost predicate HasKeysOf(d: Ledgers, prefix: seq<LedgerEntry>, scope: Scope) {
    d.moved.Keys == d.counts.Keys == PostedOrgs(prefix, scope) && d.byApp.Keys == ChargedApps(prefix, scope)
  }

  lemma HasKeysStep(d: Ledgers, ledger: seq<LedgerEntry>, i: nat, scope: Scope)
    requires i < |ledger| && HasKeysOf(d, ledger[..i], scope)
    ensures HasKeysOf(FoldEntry(d, ledger[i], scope), ledger[..i + 1], scope)
  {
    KeysStep(ledger, i, scope);
    var e, after := ledger[i], FoldEntry(d, ledger[i], scope);
    assert after.moved.Keys == after.counts.Keys ==
           d.moved.Keys + if InWindow(scope, e.createdAt) then {e.key.0} else {};
    assert after.byApp.Keys == d.byApp.Keys + if InWindow(scope, e.createdAt) && e.kind == Charge then {e.key} else {};
  }

  lemma FoldStep(d: Ledgers, ledger: seq<LedgerEntry>, i: nat, scope: Scope)
    requires i < |ledger| && Folded(d, ledger[..i], scope)
    ensures Folded(FoldEntry(d, ledger[i], scope), ledger[..i + 1], scope)
  {
    HasKeysStep(d, ledger, i, scope);
    CreditsStep(d, ledger, i, scope);
    MovedStep(d, ledger, i, scope);
    CountsStep(d, ledger, i, scope);
    ByAppStep(d, ledger, i, scope);
  }

  ghost function FoldAll(ledger: seq<LedgerEntry>, scope: Scope): Ledgers {
    if ledger == [] then Ledgers(map[], map[], map[], map[])
    else FoldEntry(FoldAll(ledger[..|ledger| - 1], scope), ledger[|ledger| - 1], scope)
  }

  /** Folding the whole ledger gives every group its total and no group it does not have. */
  lemma {:induction false} FoldAllIsFolded(ledger: seq<LedgerEntry>, scope: Scope)
    ensures Folded(FoldAll(ledger, scope), ledger, scope)
  {
    if ledger == [] {
    } else {
      var last := |ledger| - 1;
      FoldAllIsFolded(ledger[..last], scope);
      FoldStep(FoldAll(ledger[..last], scope), ledger, last, scope);
      assert ledger[..last + 1] == ledger;
    }
  }

  /** One entry of the window, posted to the four dictionaries. */
  method PostEntry(before: Ledgers, e: LedgerEntry, ghost scope: Scope) returns (d: Ledgers)
    requires InWindow(scope, e.createdAt)
    ensures d == FoldEntry(before, e, scope)
  {
    var moved := before.moved[e.key.0 := ValueOr0(before.moved, e.key.0) + e.amount];
    var counts := before.counts[e.key.0 := ValueOr0(before.counts, e.key.0) + 1];
    d := before.(moved := moved, counts := counts);
    if e.kind != Charge {
      return;
    }
    var credits := before.credits[e.key.0 := ValueOr0(before.credits, e.key.0) - e.amount];
    var byApp := before.byApp[e.key := ValueOr0(before.byApp, e.key) - e.amount];
    d := d.(credits := credits, byApp := byApp);
  }

  /** The loop over the entries of the window. */
  method FoldLedger(ledger: seq<LedgerEntry>, scope: Scope) returns (d: Ledgers)
    ensures d == FoldAll(ledger, scope)
  {
    d := Ledgers(map[], map[], map[], map[]);
    for i := 0 to |ledger|
      invariant d == FoldAll(ledger[..i], scope)
    {
      FoldAllSnoc(ledger, i, scope);
      if InWindow(scope, ledger[i].createdAt) {
        d := PostEntry(d, ledger[i], scope);
      }
    }
    assert ledger[..|ledger|] == ledger;
  }

  lemma FoldAllSnoc(ledger: seq<LedgerEntry>, i: nat, scope: Scope)
    requires i < |ledger|
    ensures FoldAll(ledger[..i + 1], scope) == FoldEntry(FoldAll(ledger[..i], scope), ledger[i], scope)
  {
    assert ledger[..i + 1][..i] == ledger[..i];
  }

  method WindowLedgerMetrics(ledger: seq<LedgerEntry>, scope: Scope)
    returns (byOrganization: map<Id, LedgerMetrics>, byApp: map<AppKey, int>)
    ensures IsLedgerMetrics(ledger, scope, byOrganization)
    ensures TracksApps(byApp, LedgerItems(ledger, scope, Charged)) && byApp.Keys == ChargedApps(ledger, scope)
  {
    var d := FoldLedger(ledger, scope);
    FoldAllIsFolded(ledger, scope);
    byOrganization := map o | o in d.moved :: LedgerMetrics(ValueOr0(d.credits, o), d.moved[o], d.counts[o]);
    byApp := d.byApp;
  }

  /** The per-app charges of an organization, listed without repetition, add up to its charged credits. */
  lemma AppChargesAddUp(ledger: seq<LedgerEntry>, scope: Scope, o: Id, ks: seq<AppKey>)
    requires Distinct(ks)
    requires forall k :: k in ks <==> k.0 == o && k in ChargedApps(ledger, scope)
    ensures SumOverApps(ks, LedgerItems(ledger, scope, Charged)) == OrganizationLedger(ledger, scope, o).charged
  {
    var items := LedgerItems(ledger, scope, Charged);
    AppsAddUp(ks, items);
    forall x | x in items && x.weight != 0 ensures x.key in ks <==> x.key.0 == o {
      var i :| 0 <= i < |items| && items[i] == x;
      assert ledger[i] in ledger;
    }
    TotalAgrees(items, InApps(set k | k in ks), OfOrg(o));
  }

  // ----------------------------------------------------------------- the snapshot

  datatype Row = Row(key: AppKey, counts: Counts, charged: int, isRemoved: bool)

  datatype Group = Group(counts: Counts, ledger: LedgerMetrics, rows: seq<Row>)

  /** `reporting` is the number of organizations with usage in the window. */
  datatype Snapshot = Snapshot(counts: Counts, reporting: nat, charged: int, groups: map<Id, Group>)

  function CurrentKeys(db: Database): set<AppKey> {
    set k | k in db.apps
  }

  function ReportedKeys(db: Database): set<AppKey> {
    set e | e in db.events :: e.key
  }

  /** Every app that is current or ever reported usage. */
  function Known(db: Database): set<AppKey> {
    CurrentKeys(db) + ReportedKeys(db)
  }

  ghost function RowFor(db: Database, scope: Scope, k: AppKey): Row {
    Row(k, UsageCounts(db, scope, OfApp(k)), Total(LedgerItems(db.ledger, scope, Charged), OfApp(k)), k !in db.apps)
  }

  ghost function RowKeys(rows: seq<Row>): seq<AppKey> {
    seq(|rows|, i requires 0 <= i < |rows| => rows[i].key)
  }

  /** `rows` holds exactly one row for each key of organization `o` in `keys`. */
  ghost predicate Lists(db: Database, scope: Scope, rows: seq<Row>, keys: set<AppKey>, o: Id) {
    && Distinct(RowKeys(rows))
    && (forall k :: k in RowKeys(rows) <==> k in keys && k.0 == o)
    && (forall i | 0 <= i < |rows| :: rows[i] == RowFor(db, scope, rows[i].key))
  }

  ghost predicate ListsAll(db: Database, scope: Scope, groups: map<Id, Group>, keys: set<AppKey>) {
    forall o | o in groups :: Lists(db, scope, groups[o].rows, keys, o)
  }

  ghost predicate SameHeads(a: map<Id, Group>, b: map<Id, Group>) {
    a.Keys == b.Keys && forall o | o in a :: a[o].counts == b[o].counts && a[o].ledger == b[o].ledger
  }

  ghost predicate HeadsAreRight(db: Database, scope: Scope, groups: map<Id, Group>) {
    && groups.Keys == (set o | o in db.organizations)
    && forall o | o in groups ::
         groups[o].counts == UsageCounts(db, scope, OfOrg(o)) &&
         groups[o].ledger == OrganizationLedger(db.ledger, scope, o)
  }

  ghost predicate IsSnapshot(db: Database, scope: Scope, s: Snapshot) {
    && s.counts == UsageCounts(db, scope, All)
    && s.reporting == |OrganizationsOf(InWindowEvents(db.events, scope))|
    && s.charged == SumOverOrgs(db.organizations, LedgerItems(db.ledger, scope, Charged))
    && HeadsAreRight(db, scope, s.groups)
    && ListsAll(db, scope, s.groups, Known(db))
  }

  lemma OneMoreRow(db: Database, scope: Scope, rows: seq<Row>, keys: set<AppKey>, o: Id, k: AppKey)
    requires Lists(db, scope, rows, keys, o) && k !in keys
    ensures k.0 == o ==> Lists(db, scope, rows + [RowFor(db, scope, k)], keys + {k}, o)
    ensures k.0 != o ==> Lists(db, scope, rows, keys + {k}, o)
  {
    var more := rows + [RowFor(db, scope, k)];
    assert RowKeys(more) == RowKeys(rows) + [k];
  }

  method AppendRow(ghost db: Database, ghost scope: Scope, ghost keys: set<AppKey>, groups: map<Id, Group>, row: Row)
    returns (more: map<Id, Group>)
    requires row.key.0 in groups && row.key !in keys && row == RowFor(db, scope, row.key)
    requires ListsAll(db, scope, groups, keys)
    ensures SameHeads(more, groups)
    ensures ListsAll(db, scope, more, keys + {row.key})
  {
    var g := groups[row.key.0];
    more := groups[row.key.0 := g.(rows := g.rows + [row])];
    forall o | o in more ensures Lists(db, scope, more[o].rows, keys + {row.key}, o) {
      OneMoreRow(db, scope, groups[o].rows, keys, o, row.key);
    }
  }

  method EmptyGroups(db: Database, scope: Scope, ledgerByOrganization: map<Id, LedgerMetrics>)
    returns (groups: map<Id, Group>)
    requires IsLedgerMetrics(db.ledger, scope, ledgerByOrganization)
    ensures HeadsAreRight(db, scope, groups)
    ensures ListsAll(db, scope, groups, {})
  {
    var usage := UsageByOrganization(db, scope);
    groups := map o | o in db.organizations ::
      Group(CountsOr0(usage, o),
            if o in ledgerByOrganization then ledgerByOrganization[o] else LedgerMetrics(0, 0, 0), []);
    forall o | o in groups
      ensures groups[o].counts == UsageCounts(db, scope, OfOrg(o))
      ensures groups[o].ledger == OrganizationLedger(db.ledger, scope, o)
    {
      UsageByOrganizationIsComplete(db, scope, o);
      if o !in ledgerByOrganization {
        forall m: LedgerMeasure ensures Total(LedgerItems(db.ledger, scope, m), OfOrg(o)) == 0 {
          TotalZero(LedgerItems(db.ledger, scope, m), OfOrg(o));
        }
      }
    }
  }

  /** The row of one app, from the joined usage and the charges, with zero for what neither knows. */
  method AddRow(ghost db: Database, ghost scope: Scope, ghost covered: set<AppKey>, usage: map<AppKey, Counts>,
                chargedByApp: map<AppKey, int>, before: map<Id, Group>, k: AppKey, isRemoved: bool)
    returns (groups: map<Id, Group>)
    requires usage == UsageByApp(db, scope) && TracksApps(chargedByApp, LedgerItems(db.ledger, scope, Charged))
    requires k.0 in before && k !in covered && isRemoved == (k !in db.apps)
    requires ListsAll(db, scope, before, covered)
    ensures SameHeads(groups, before) && ListsAll(db, scope, groups, covered + {k})
  {
    UsageByAppIsComplete(db, scope, k);
    var row := Row(k, CountsOr0(usage, k), ValueOr0(chargedByApp, k), isRemoved);
    groups := AppendRow(db, scope, covered, before, row);
  }

  /** Current apps first. */
  method AddCurrentRows(db: Database, scope: Scope, usage: map<AppKey, Counts>, chargedByApp: map<AppKey, int>,
                        empty: map<Id, Group>)
    returns (groups: map<Id, Group>, currentKeys: set<AppKey>)
    requires WellFormed(db) && usage == UsageByApp(db, scope)
    requires TracksApps(chargedByApp, LedgerItems(db.ledger, scope, Charged))
    requires empty.Keys == (set o | o in db.organizations) && ListsAll(db, scope, empty, {})
    ensures currentKeys == CurrentKeys(db)
    ensures SameHeads(groups, empty) && ListsAll(db, scope, groups, currentKeys)
  {
    groups, currentKeys := empty, {};
    for i := 0 to |db.apps|
      invariant forall k :: k in currentKeys <==> k in db.apps[..i]
      invariant SameHeads(groups, empty) && ListsAll(db, scope, groups, currentKeys)
    {
      var k := db.apps[i];
      assert db.apps[..i + 1] == db.apps[..i] + [k];
      groups := AddRow(db, scope, currentKeys, usage, chargedByApp, groups, k, false);
      currentKeys := currentKeys + {k};
    }
    assert db.apps[..|db.apps|] == db.apps;
  }

  /** Then the apps that only billing history remembers. */
  method AddRemovedRows(db: Database, scope: Scope, usage: map<AppKey, Counts>, chargedByApp: map<AppKey, int>,
                        before: map<Id, Group>, currentKeys: set<AppKey>)
    returns (groups: map<Id, Group>)
    requires WellFormed(db) && usage == UsageByApp(db, scope)
    requires TracksApps(chargedByApp, LedgerItems(db.ledger, scope, Charged))
    requires before.Keys == (set o | o in db.organizations)
    requires currentKeys == CurrentKeys(db) && ListsAll(db, scope, before, currentKeys)
    ensures SameHeads(groups, before) && ListsAll(db, scope, groups, Known(db))
  {
    groups := before;
    var remaining := ReportedKeys(db);
    ghost var covered := currentKeys;
    while remaining != {}
      invariant remaining <= ReportedKeys(db)
      invariant forall k :: k in covered <==> k in currentKeys || (k in ReportedKeys(db) && k !in remaining)
      invariant SameHeads(groups, before) && ListsAll(db, scope, groups, covered)
      decreases remaining
    {
      var k :| k in remaining;
      remaining := remaining - {k};
      if k in currentKeys {
        continue;
      }
      groups := AddRow(db, scope, covered, usage, chargedByApp, groups, k, true);
      covered := covered + {k};
    }
    assert covered == Known(db);
  }

  /** The summary adds the charges of the organizations with ledger activity. */
  method SumCharged(ghost db: Database, ghost scope: Scope, ledgerByOrganization: map<Id, LedgerMetrics>)
    returns (charged: int)
    requires WellFormed(db) && IsLedgerMetrics(db.ledger, scope, ledgerByOrganization)
    ensures charged == SumOverOrgs(db.organizations, LedgerItems(db.ledger, scope, Charged))
  {
    ghost var items := LedgerItems(db.ledger, scope, Charged);
    charged := 0;
    ghost var listed: seq<Id> := [];
    var remaining := ledgerByOrganization.Keys;
    while remaining != {}
      invariant remaining <= ledgerByOrganization.Keys
      invariant Distinct(listed) && forall o :: o in listed <==> o in ledgerByOrganization && o !in remaining
      invariant charged == SumOverOrgs(listed, items)
      decreases remaining
    {
      var o :| o in remaining;
      charged := charged + ledgerByOrganization[o].charged;
      assert (listed + [o])[..|listed|] == listed;
      listed := listed + [o];
      remaining := remaining - {o};
    }
    ActiveOrganizationsSuffice(db, scope, listed);
  }

  /** Organizations without an entry in the window add nothing. */
  lemma ActiveOrganizationsSuffice(db: Database, scope: Scope, active: seq<Id>)
    requires WellFormed(db) && Distinct(active) && forall o :: o in active <==> o in PostedOrgs(db.ledger, scope)
    ensures SumOverOrgs(active, LedgerItems(db.ledger, scope, Charged)) ==
            SumOverOrgs(db.organizations, LedgerItems(db.ledger, scope, Charged))
  {
    var items := LedgerItems(db.ledger, scope, Charged);
    OrgsAddUp(active, items);
    OrgsAddUp(db.organizations, items);
    forall x | x in items && x.weight != 0 ensures x.key.0 in active && x.key.0 in db.organizations {
      var i :| 0 <= i < |items| && items[i] == x;
      assert db.ledger[i] in db.ledger;
    }
    TotalAgrees(items, InOrgs(set o | o in active), InOrgs(set o | o in db.organizations));
  }

  method BuildSnapshot(db: Database, scope: Scope) returns (s: Snapshot)
    requires WellFormed(db)
    ensures IsSnapshot(db, scope, s)
  {
    var ledgerByOrganization, chargedByApp := WindowLedgerMetrics(db.ledger, scope);
    var empty := EmptyGroups(db, scope, ledgerByOrganization);
    var usage := UsageByApp(db, scope);
    var current, currentKeys := AddCurrentRows(db, scope, usage, chargedByApp, empty);
    var groups := AddRemovedRows(db, scope, usage, chargedByApp, current, currentKeys);
    var charged := SumCharged(db, scope, ledgerByOrganization);
    SummaryIsComplete(db, scope);
    var reporting := |OrganizationsOf(InWindowEvents(db.events, scope))|;
    s := Snapshot(SummaryCounts(db, scope), reporting, charged, groups);
  }

  // ----------------------------------------------------------------- conservation

  /** The sums of the rows' columns. */
  function RowCounts(rows: seq<Row>): Counts {
    if rows == [] then Counts(0, 0, 0)
    else
      var rest, last := RowCounts(rows[..|rows| - 1]), rows[|rows| - 1].counts;
      Counts(rest.used + last.used, rest.pending + last.pending, rest.aged + last.aged)
  }

  function RowCredits(rows: seq<Row>): int {
    if rows == [] then 0 else RowCredits(rows[..|rows| - 1]) + rows[|rows| - 1].charged
  }

  lemma {:induction false} RowSumsFollowKeys(db: Database, scope: Scope, rows: seq<Row>)
    requires forall i | 0 <= i < |rows| :: rows[i] == RowFor(db, scope, rows[i].key)
    ensures RowCounts(rows) == Counts(SumOverApps(RowKeys(rows), UsageItems(db.events, scope, Used)),
                                      SumOverApps(RowKeys(rows), UsageItems(db.events, scope, Pending)),
                                      SumOverApps(RowKeys(rows), UsageItems(db.events, scope, Aged)))
    ensures RowCredits(rows) == SumOverApps(RowKeys(rows), LedgerItems(db.ledger, scope, Charged))
  {
    if rows == [] {
    } else {
      var front, last := rows[..|rows| - 1], rows[|rows| - 1];
      RowSumsFollowKeys(db, scope, front);
      assert RowKeys(rows)[..|rows| - 1] == RowKeys(front);
      assert last == RowFor(db, scope, last.key);
    }
  }

  /** Rows that list every known app of `o` account for every event of `o`. */
  lemma UsageOfListedApps(db: Database, scope: Scope, rows: seq<Row>, o: Id, m: UsageMeasure)
    requires Lists(db, scope, rows, Known(db), o)
    ensures SumOverApps(RowKeys(rows), UsageItems(db.events, scope, m)) ==
            Total(UsageItems(db.events, scope, m), OfOrg(o))
  {
    var items, ks := UsageItems(db.events, scope, m), RowKeys(rows);
    AppsAddUp(ks, items);
    forall x | x in items ensures x.key in ks <==> x.key.0 == o {
      var i :| 0 <= i < |items| && items[i] == x;
      assert db.events[i] in db.events;
      assert x.key in ReportedKeys(db);
    }
    TotalAgrees(items, InApps(set k | k in ks), OfOrg(o));
  }

  /** Each organization's rows account for all of its in-window, pending and aged events: neither the join
      of the aggregates nor the removal of apps loses or repeats one. */
  lemma RowsAddUpToGroup(db: Database, scope: Scope, s: Snapshot, o: Id)
    requires IsSnapshot(db, scope, s) && o in s.groups
    ensures RowCounts(s.groups[o].rows) == s.groups[o].counts
  {
    var rows := s.groups[o].rows;
    RowSumsFollowKeys(db, scope, rows);
    UsageOfListedApps(db, scope, rows, o, Used);
    UsageOfListedApps(db, scope, rows, o, Pending);
    UsageOfListedApps(db, scope, rows, o, Aged);
  }

  /** The sums of the group heads over the organizations. */
  function GroupCounts(os: seq<Id>, groups: map<Id, Group>): Counts {
    if os == [] then Counts(0, 0, 0)
    else
      var rest, last := GroupCounts(os[..|os| - 1], groups), os[|os| - 1];
      var head := if last in groups then groups[last].counts else Counts(0, 0, 0);
      Counts(rest.used + head.used, rest.pending + head.pending, rest.aged + head.aged)
  }

  function GroupCredits(os: seq<Id>, groups: map<Id, Group>): int {
    if os == [] then 0
    else
      var last := os[|os| - 1];
      GroupCredits(os[..|os| - 1], groups) + if last in groups then groups[last].ledger.charged else 0
  }

  lemma {:induction false} GroupSumsFollowOrganizations(db: Database, scope: Scope, os: seq<Id>, groups: map<Id, Group>)
    requires HeadsAreRight(db, scope, groups) && forall o | o in os :: o in groups
    ensures GroupCounts(os, groups) == Counts(SumOverOrgs(os, UsageItems(db.events, scope, Used)),
                                              SumOverOrgs(os, UsageItems(db.events, scope, Pending)),
                                              SumOverOrgs(os, UsageItems(db.events, scope, Aged)))
    ensures GroupCredits(os, groups) == SumOverOrgs(os, LedgerItems(db.ledger, scope, Charged))
  {
    if os == [] {
    } else {
      GroupSumsFollowOrganizations(db, scope, os[..|os| - 1], groups);
    }
  }

  lemma OrganizationsCover(os: seq<Id>, items: seq<Item>)
    requires Distinct(os) && forall x | x in items :: x.key.0 in os
    ensures SumOverOrgs(os, items) == Total(items, All)
  {
    OrgsAddUp(os, items);
    TotalAgrees(items, InOrgs(set o | o in os), All);
  }

  /** The summary's figures are the sums over the organization groups, and count every event and charge. */
  lemma GroupsAddUpToSummary(db: Database, scope: Scope, s: Snapshot)
    requires WellFormed(db) && IsSnapshot(db, scope, s)
    ensures GroupCounts(db.organizations, s.groups) == s.counts
    ensures GroupCredits(db.organizations, s.groups) == s.charged == Total(LedgerItems(db.ledger, scope, Charged), All)
  {
    GroupSumsFollowOrganizations(db, scope, db.organizations, s.groups);
    forall m: UsageMeasure
      ensures SumOverOrgs(db.organizations, UsageItems(db.events, scope, m)) ==
              Total(UsageItems(db.events, scope, m), All)
    {
      OrganizationsCover(db.organizations, UsageItems(db.events, scope, m));
    }
    OrganizationsCover(db.organizations, LedgerItems(db.ledger, scope, Charged));
  }

  /** The apps of `o` charged in the window that the snapshot has no row for. */
  function Unlisted(db: Database, scope: Scope, o: Id): set<AppKey> {
    set k | k in ChargedApps(db.ledger, scope) && k.0 == o && k !in Known(db)
  }

  /** An organization's charged credits are its rows' credits plus what was charged to apps that are neither
      current nor represented in usage. */
  lemma CreditsAddUpToGroup(db: Database, scope: Scope, s: Snapshot, o: Id)
    requires IsSnapshot(db, scope, s) && o in s.groups
    ensures s.groups[o].ledger.charged ==
            RowCredits(s.groups[o].rows) + Total(LedgerItems(db.ledger, scope, Charged), InApps(Unlisted(db, scope, o)))
  {
    var rows, items := s.groups[o].rows, LedgerItems(db.ledger, scope, Charged);
    var ks, listed := RowKeys(rows), (set k | k in RowKeys(rows));
    var unlisted := Unlisted(db, scope, o);
    RowSumsFollowKeys(db, scope, rows);
    AppsAddUp(ks, items);
    TotalSplits(items, InApps(listed), InApps(unlisted), InApps(listed + unlisted));
    forall x | x in items && x.weight != 0 ensures x.key in listed + unlisted <==> x.key.0 == o {
      ChargedItemIsPosted(db, scope, x);
    }
    TotalAgrees(items, InApps(listed + unlisted), OfOrg(o));
  }

  lemma ChargedItemIsPosted(db: Database, scope: Scope, x: Item)
    requires x in LedgerItems(db.ledger, scope, Charged) && x.weight != 0
    ensures x.key in ChargedApps(db.ledger, scope)
  {
    var i :| 0 <= i < |db.ledger| && LedgerItem(scope, Charged, db.ledger[i]) == x;
    assert db.ledger[i] in db.ledger;
  }

  /** Charges are posted for the app of a rated usage event, and usage events are never deleted. */
  ghost predicate ChargesComeFromUsage(db: Database) {
    forall e | e in db.ledger && e.kind == Charge :: exists u :: u in db.events && u.key == e.key
  }

  /** On such a database every charge shows in a row: each organization's rows add up to its charged credits. */
  lemma RowCreditsAddUpToGroup(db: Database, scope: Scope, s: Snapshot, o: Id)
    requires IsSnapshot(db, scope, s) && o in s.groups && ChargesComeFromUsage(db)
    ensures RowCredits(s.groups[o].rows) == s.groups[o].ledger.charged
  {
    forall k | k in ChargedApps(db.ledger, scope) ensures k in Known(db) {
      var e :| e in db.ledger && e.kind == Charge && e.key == k;
      var u :| u in db.events && u.key == e.key;
      assert u.key in ReportedKeys(db);
    }
    assert Unlisted(db, scope, o) == {};
    CreditsAddUpToGroup(db, scope, s, o);
    TotalZero(LedgerItems(db.ledger, scope, Charged), InApps({}));
  }

  /** The summary's number of reporting organizations is the number of groups that show usage. */
  lemma ReportingCountsActiveGroups(db: Database, scope: Scope, s: Snapshot)
    requires WellFormed(db) && IsSnapshot(db, scope, s)
    ensures s.reporting == |set o | o in s.groups && s.groups[o].counts.used > 0|
  {
    var rows := InWindowEvents(db.events, scope);
    SelectMembers(db.events, (e: UsageEvent) => InWindow(scope, e.occurredAt));
    forall o ensures o in OrganizationsOf(rows) <==> o in s.groups && s.groups[o].counts.used > 0 {
      ReportingIff(db, scope, o);
    }
    assert OrganizationsOf(rows) == set o | o in s.groups && s.groups[o].counts.used > 0;
  }
}

# Verified model of the HumanityRules control plane

HumanityRules deploys agents for organizations and decides who may do what with them. This project models
the parts of it whose correctness spans many functions, rows or moments in time, and proves what they keep:

- **The policy engine** (`Conditions`, `Policies`, `ResourceFilter`, `SharedCredentials`, `Tags`). A policy
  matches by joining identity attributes with resource tags, admin actions imply lower ones, and denials
  override. Each evaluator is a loop over accumulators, proved against one relational meaning (`Allows`,
  `AllowsUnscoped`, `AllowsUse`); the laws are then about that meaning. The optimised list filter is compared
  with the per-resource evaluator, and the exact condition under which the two agree is proved.
- **The key rename** (`KeyRename`): a migration over stored policies and credential tags that has to leave
  every decision of that engine as it was, and whose reverse has to undo it.
- **Two protocols over shared tables** (`PublicGrants`, `GrantRaces`, `SandboxSlugs`): transactions, split where
  the database lets others in, interleaved in every order. Invariants are inductive over all runs;
  promises that do not hold in every run are pinned to the exact condition under which they do.
- **Billing** (`Totals`, `BillingQueries`, `BillingSnapshot`, `BillingFigures`, `UsageIngest`): conservation across
  aggregates that are computed apart and joined, every figure as a count or sum over table rows, and an
  all-or-nothing, first-report-wins event store over any history of reports.
- **Permission statements** (`PermissionPolicy`, `PermissionStatements`): what a statement list grants once it
  is applied, and what every edit and merge does to that.
- **Smaller cores**: three deduplicating migrations (`SerializedJobs`), fresh slugs (`FreshSlugs`), the
  model-preset migration (`LlmPreset`), zone resolution (`ZoneResolver`), fleet redeploy accounting
  (`FleetRedeploy`) and deploy-time overrides (`TemplateOverrides`).

Code that changes rows or accumulators is a class or a method with loops; its contract equates the new state
with a function of the old one, and the lemmas are about that function. `Common` holds `Option`,
`Select` and its laws. Where a method and its laws share a definition, a further law says what the definition means in
the terms of the data alone: literal names, comparisons and rows.
`dafny verify dfyconfig.toml` checks everything.

## What the model found

- `filter_permitted_resources` takes its early return without consulting a denial whose resource side is the
  wildcard and whose identity side refers to `$resource`. It can then list a resource that
  `evaluate_policies` denies (`ShortcutCanMissADenial`); `FilterExactEverywhereIff` says precisely when.
- Public grants take times before the write that stores them: a publish that opens a row takes its opening time
  before the insert, and a revoke takes its end before its update, on a row it read without a lock. When such a
  write lags behind, the recorded windows of one host can overlap (`GrantRaces` has a run for each), although the
  model docstring promises one continuous window per row. `WindowsStayDisjointIff` gives the exact condition over
  whole runs: windows are disjoint at every moment if and only if no write intrudes, which `OpeningIntrudesIff` and
  `StaleRevokeIntrudesIff` put as a comparison of the time the write carries with the columns of other rows.
- A publish that finds a grant live extends it even if it lapses before the commit, so a row that was dead for a
  moment is live again (`LateExtensionRevives`). `DeathStaysFinalIff`: over a run, dead rows stay dead if and only
  if no such extension commits.
- The comment that a retried first publish takes the extend path does not always hold. A publish extends exactly
  when the host is public as it locks, or, after a wait, when the row it waited for is live (`LockExtendsIff`); in
  `RetryNeedNotExtend` the winner's grant is revoked before the retry, which finds no row at all.
- The sandbox slug claim does not by itself keep two organizations apart: a deploy that reuses its own claim
  holds no lock on it while its older App is removed. What closes the gap is the hostname-label check, which
  is skipped when the environment has no hosted zone (`ExclusiveIffEveryZoneSet`).
- Removing the last resource of a permission statement does not take its access away: a statement without
  resources is applied to `*`. `RemovalGrantsNothingNewIff` says exactly when a removal grants a draft something
  new, and `RemovalCanGrantEverything` is such an edit.

## Model

| member | source | states |
|---|---|---|
| Conditions.ParseReferenceIff | humanityrules_app/services/abac_service.py:37-37 | a value parses to a reference exactly when it is that side's prefix followed by a non-empty name of letters, digits, `_` and `-`; text and reference determine each other |
| Conditions.BuildSideMap | humanityrules_app/services/abac_service.py:224-229 | the grouped map holds exactly the given pairs and no empty group |
| Conditions.ConditionsMatch | humanityrules_app/services/abac_service.py:187-221 | the clause loop with its early returns and side maps decides the relational meaning: sole wildcard, or every clause a literal membership or a join on a shared value |
| Conditions.ConditionsMonotone | humanityrules_app/services/abac_service.py:187-221 | more pairs on the own side or any other side never stop a match |
| Conditions.ConditionsOrderIrrelevant | humanityrules_app/services/abac_service.py:187-221 | permuting a condition list never changes whether it matches |
| Conditions.UnreferencedSideIrrelevant | humanityrules_app/services/abac_service.py:381-400 | a list without references to a side reads nothing of that side, which is what lets policies be decided before a resource is in hand |
| Conditions.ListMeaning | humanityrules_app/services/abac_service.py:172-174 | a list matches always if it is the wildcard alone, else iff all its clauses hold, a wildcard among others read as a literal |
| Conditions.ReferenceMeaning | humanityrules_app/services/abac_service.py:211-220 | `$identity.k`, `$resource.k` and `$app.k` each hold iff the clause's key and k share a value across the own and that side |
| Conditions.LiteralMeaning | humanityrules_app/services/abac_service.py:204-211 | any other clause holds iff key and value are texts and the pair is on the own side |
| Policies.CollectActions | humanityrules_app/services/abac_service.py:274-279 | one matched policy adds exactly its literal grants and its stripped denials to the accumulators |
| Policies.AllowedActions | humanityrules_app/services/abac_service.py:281-289 | hierarchy expansion minus denials is: some matched policy grants the action or an admin action above it, and none denies it literally |
| Policies.EvaluatePolicies | humanityrules_app/services/abac_service.py:232-289 | an action is returned iff some matching policy grants it or a parent of it and no matching policy denies it |
| Policies.EvaluatePoliciesUnscoped | humanityrules_app/services/abac_service.py:292-329 | the same for policies with a wildcard resource side whose identity side matches with no other side in hand |
| Policies.DecisionIgnoresOrder | humanityrules_app/services/abac_service.py:232-289 | reordering or repeating policies, clauses or actions changes no decision |
| Policies.MatchesMonotone | humanityrules_app/services/abac_service.py:187-221 | a matching policy keeps matching when attributes and tags are added |
| Policies.AddedPairsLoseOnlyToDenials | humanityrules_app/services/abac_service.py:232-289 | adding attributes or tags loses an action iff a denial of that action then matches; without denials nothing is lost |
| Policies.UnscopedMatchesEveryResource | humanityrules_app/services/abac_service.py:292-314 | a policy that counts without a resource matches on every resource |
| Policies.UnscopedLosesOnlyToDenials | humanityrules_app/services/abac_service.py:292-329 | an action allowed without a resource is allowed on a resource iff no policy matching there denies it |
| Policies.GrantsIff | humanityrules_app/services/abac_service.py:43-46 | an action is granted by its own name without an exclamation mark, or by workspace:admin for view and edit, or by environment:admin for view, deploy and approve |
| Policies.AllowsIff | humanityrules_app/services/abac_service.py:232-289 | an action is allowed iff some policy grants it whose identity side holds with the resource's tags and whose resource side holds with the user's attributes, and none such lists it behind an exclamation mark |
| Policies.AllowsUnscopedIff | humanityrules_app/services/abac_service.py:292-329 | the same without a resource: sole wildcard on the resource side, no side to refer to |
| Policies.AdminBringsLowerActions | humanityrules_app/services/abac_service.py:281-289 | an admin action of a matching policy brings each of its lower actions unless a matching policy denies that one by name |
| ResourceFilter.PreFilter | humanityrules_app/services/abac_service.py:381-400 | keeps exactly the policies whose identity side matches alone or must wait for the resource |
| ResourceFilter.PreFilterLosesNoMatch | humanityrules_app/services/abac_service.py:381-400 | on any resource, the kept policies match exactly as all policies do |
| ResourceFilter.CheckShortcut | humanityrules_app/services/abac_service.py:405-443 | the early return is taken iff the settled wildcard policies decide for the action and no kept scoped policy denies anything |
| ResourceFilter.EvaluateKept | humanityrules_app/services/abac_service.py:447-480 | evaluating one resource against the kept policies gives the core engine's decision over all policies |
| ResourceFilter.FilterPermittedResources | humanityrules_app/services/abac_service.py:363-483 | equals per-resource evaluation, in queryset order, whenever a scoped policy that may match the user denies any action at all, no policy open to the user on all resources grants the action, or one of those denies it; otherwise returns the whole queryset |
| ResourceFilter.RefersToResourceIff | humanityrules_app/services/abac_service.py:387-391 | a policy is deferred iff some identity clause's value is `$resource.` followed by a well-formed key |
| ResourceFilter.EarlyReturnIff | humanityrules_app/services/abac_service.py:405-443 | the early return is taken iff some policy open to the user on all resources grants the action, none of those denies it, and no kept scoped policy denies any action |
| ResourceFilter.ShortcutMissesExactlyDeferredDenials | humanityrules_app/services/abac_service.py:411-443 | on the early return, a resource is really allowed iff no wildcard denial deferred for a `$resource` reference fires on it |
| ResourceFilter.FilterNeverHides | humanityrules_app/services/abac_service.py:363-483 | every resource the core engine allows is returned, and nothing outside the queryset is |
| ResourceFilter.FilterExactIff | humanityrules_app/services/abac_service.py:363-483 | on one queryset the filter equals per-resource evaluation iff not: early return taken and a deferred denial fires on some row |
| ResourceFilter.FilterExactEverywhereIff | humanityrules_app/services/abac_service.py:363-483 | for given policies and attributes the filter is exact on every queryset iff the early return is not taken or no deferred denial is reachable with those attributes, a condition on policies and attributes alone |
| ResourceFilter.ReachableIff | humanityrules_app/services/abac_service.py:381-394 | that reachability test is right: it succeeds iff some tag set makes the policy's identity side match |
| ResourceFilter.ShortcutCanMissADenial | humanityrules_app/services/abac_service.py:411-443 | concrete policies, user and resource on which the filter returns a resource the core engine denies |
| SharedCredentials.FilterPermittedCredentials | humanityrules_app/services/abac_service.py:486-538 | returns, in order, exactly the credentials whose use is allowed with the app's own tags as the third side, and with no tags on it when there is no app |
| SharedCredentials.AllowsUseIff | humanityrules_app/services/abac_service.py:516-536 | use is allowed iff a policy lists credential:use whose identity side holds over tags and app and whose resource side holds over attributes and app, and none such lists !credential:use |
| SharedCredentials.WorkspaceSharingNeedsTheApp | humanityrules_app/services/abac_service.py:718-724 | with the seeded policies a credential shared with a workspace is usable iff the app or its own workspace carries that workspace's name, and never without an app |
| SharedCredentials.AppLosesOnlyToDenials | humanityrules_app/services/abac_service.py:486-538 | what is usable without an app is usable through an app iff no denial matches with it |
| SharedCredentials.TagTable.SyncSharedCredentialTags | humanityrules_app/services/abac_service.py:801-833 | a save replaces the credential's tag rows by those of its sharing columns and leaves all other rows in place |
| SharedCredentials.SyncedTags | humanityrules_app/services/abac_service.py:801-833 | after a save the credential carries exactly the tags of its sharing, and every other resource the tags it had |
| SharedCredentials.SharingTagsByScope | humanityrules_app/services/abac_service.py:811-833 | the tag names and values written for everyone, a user and a workspace |
| SharedCredentials.TagsAfterSaves | humanityrules_app/services/abac_service.py:801-833 | after any history of saves every credential carries the tags of its own last save, every other resource its old tags |
| SharedCredentials.SeededPolicyMeanings | humanityrules_app/services/abac_service.py:699-724 | each of the three seeded policies matches exactly the sharing scope and target it is written for |
| SharedCredentials.SeededSharingIsExact | humanityrules_app/services/abac_service.py:486-538 | with the seeded policies a credential is usable iff it is shared with everyone, with one of the user's usernames, or with a workspace name of the app |
| SharedCredentials.OnlyTheLastTargetCounts | humanityrules_app/services/abac_service.py:801-833 | after any history of re-targeting only the last sharing grants use; workspace sharing never without an app |
| KeyRename.RenameIsClean | humanityrules_app/migrations/0007_rename_shared_credential_keys.py:16-20 | the renaming is injective, its old and new names are disjoint, and all are reference key names |
| KeyRename.RewriteReference | humanityrules_app/migrations/0007_rename_shared_credential_keys.py:33-38 | trying every side with every old name rewrites a reference to an old name and nothing else |
| KeyRename.RewriteConditions | humanityrules_app/migrations/0007_rename_shared_credential_keys.py:24-39 | rewrites a condition list in place, every clause to its renamed form, and reports a change iff an old name occurred |
| KeyRename.Store.UpdateTags | humanityrules_app/migrations/0007_rename_shared_credential_keys.py:43-45 | one update per old name, in any order, renames every credential tag once and no other row |
| KeyRename.Store.ApplyRename | humanityrules_app/migrations/0007_rename_shared_credential_keys.py:42-52 | the whole migration: all credential tags and both condition lists of all policies renamed, saves skipped only where nothing changed |
| KeyRename.ClausePreserved | humanityrules_app/migrations/0007_rename_shared_credential_keys.py:24-39 | a renamed clause holds over renamed pairs iff the clause held before, literal or reference |
| KeyRename.MatchPreserved | humanityrules_app/migrations/0007_rename_shared_credential_keys.py:24-39 | renaming a policy with every side it reads never changes whether it matches |
| KeyRename.MigrationPreservesDecisions | humanityrules_app/migrations/0007_rename_shared_credential_keys.py:42-56 | when the new names are unused and the old ones occur only in policies and credential tags, every decision on a single resource, app or shared credential is unchanged |
| KeyRename.MigrationPreservesUnscoped | humanityrules_app/migrations/0007_rename_shared_credential_keys.py:42-56 | so is every decision without a resource |
| KeyRename.ShortcutPreserved | humanityrules_app/services/abac_service.py:405-443 | the renamed policies take the list filter's early return for a user and an action iff the stored ones did |
| KeyRename.MigrationPreservesFilter | humanityrules_app/services/abac_service.py:363-483 | over renamed policies and tags the list filter returns the same keys in the same order, early return included |
| KeyRename.MigrationPreservesUsable | humanityrules_app/services/abac_service.py:486-538 | so does the credential filter, for any requesting app |
| KeyRename.MigrationPreservesLists | humanityrules_app/migrations/0007_rename_shared_credential_keys.py:42-56 | on the migrated tables both list queries return the same rows in the same order for every resource type, app and credential |
| KeyRename.RenamedAttributeLosesAccess | humanityrules_app/migrations/0007_rename_shared_credential_keys.py:42-56 | the hypothesis on attributes is needed: a user whose attribute uses an old name loses an action |
| KeyRename.OldNamesAreGone | humanityrules_app/migrations/0007_rename_shared_credential_keys.py:1-11 | afterwards no policy and no credential tag uses an old name |
| KeyRename.BackwardUndoesForwardIff | humanityrules_app/migrations/0007_rename_shared_credential_keys.py:55-60 | backward after forward restores all policies, and all tags, iff no policy, and no credential tag, used a new name beforehand |
| KeyRename.LegacyRowsBecomeCurrent | humanityrules_app/migrations/0007_rename_shared_credential_keys.py:7-10 | tag rows stored before the rename become exactly the rows a save writes today |
| PublicGrants.GrantTable.LockAndPublish | humanityrules_app/views/webapp_public_access.py:122-145 | if the host is public its one open row runs until the requested expiry and nothing else changes; if it is not but has an open row, that is closed by nobody and one row with the request's author and expiry is added; with none nothing changes |
| PublicGrants.LockThenCommitPublishes | humanityrules_app/views/webapp_public_access.py:127-145 | a lock step and its commit, with only time in between, leave exactly the rows this transaction leaves |
| PublicGrants.StampThenInsertInserts | humanityrules_app/views/webapp_public_access.py:140-175 | stamp and insert add one row of the request with that opening time iff no unrevoked row stands, else the first attempt is retried and the second given up |
| PublicGrants.GrantTable.Insert | humanityrules_app/models.py:2163-2169 | an insert appends its row iff no unrevoked row of the host exists, else it fails and changes nothing |
| PublicGrants.GrantTable.SaveRevocation | humanityrules_app/views/webapp_public_access.py:310-313 | the row carries time and author, is live at no time, and keeps everything else; no other row changes; nobody is admitted who was not, and nobody at all to a host whose open row it was |
| PublicGrants.TargetIsOnlyUnrevoked | humanityrules_app/views/webapp_public_access.py:128-139 | a publish that gets a row to lock, at once or after waiting, has the only unrevoked row of its host |
| PublicGrants.StepKeepsInvariant | humanityrules_app/views/webapp_public_access.py:122-175 | each step of publish (wait, lock and check, commit), insert, retry and revoke keeps earlier rows of a host closed, locked rows as found, locks exclusive, deletes nothing and reopens nothing closed |
| PublicGrants.RunKeepsInvariant | humanityrules_app/models.py:2163-2169 | so in every reachable state at most one unrevoked row exists per app and slug, and it is the newest of its host |
| PublicGrants.HistoryIsMonotone | humanityrules_app/models.py:2137-2142 | between any two moments of a run no row is deleted or rewritten in host, author or opening time, no closed row is reopened, and time has not run back |
| PublicGrants.StepRevivesIff | humanityrules_app/views/webapp_public_access.py:133-136 | a step brings a dead row back iff it commits an extension, for an unexpired request, of a row that lapsed after it was found live |
| PublicGrants.DeathStaysFinalIff | humanityrules_app/models.py:2139-2142 | over any run: a row dead at one moment is dead at every later one iff no step of the run revives one |
| PublicGrants.LockExtendsIff | humanityrules_app/views/webapp_public_access.py:133-175 | a publish, first try or retry, extends iff the host is public when it locks, or, after a wait, iff the row it waited for is live |
| PublicGrants.PublicIffExactlyOneLive | humanityrules_app/views/pdp.py:54-60 | at every moment of every run the host is admitted iff exactly one of its rows is live |
| PublicGrants.ExposuresAreSuccessive | humanityrules_app/models.py:2139-2142 | once a later row of a host exists, the earlier one is live at no later moment |
| PublicGrants.LockedIsOnlyUnrevoked | humanityrules_app/views/webapp_public_access.py:127-139 | until its commit, a locked row is the only unrevoked row of its host |
| PublicGrants.PublishSetsExposure | humanityrules_app/views/webapp_public_access.py:122-145 | a publish that commits leaves its host public exactly until the requested expiry, on all three paths |
| PublicGrants.OtherHostsUnaffected | humanityrules_app/views/webapp_public_access.py:122-145 | a step changes the decision for no host but its own |
| PublicGrants.RevokeClosesUnlessStale | humanityrules_app/views/webapp_public_access.py:310-313 | a revoke closes its host for good, except one whose row was closed meanwhile, which changes no decision |
| PublicGrants.DisjointIffAllApart | humanityrules_app/models.py:2139-2142 | the recorded windows of each host share no moment iff their endpoints compare so |
| PublicGrants.StepKeepsWindowsIff | humanityrules_app/views/webapp_public_access.py:122-175 | a step of a reachable state keeps recorded windows disjoint iff it does not intrude; extending, even late, and timely revoking never do |
| PublicGrants.WindowsStayDisjointIff | humanityrules_app/models.py:2139-2142 | over any run: recorded windows of one host are pairwise disjoint at every moment iff no new row and no stale revoke of the run intrudes |
| PublicGrants.OpeningIntrudesIff | humanityrules_app/views/webapp_public_access.py:137-145 | a new row of an unexpired request intrudes iff some grant of the host that was ever open ended after the row's opening time was taken |
| PublicGrants.StaleRevokeIntrudesIff | humanityrules_app/views/webapp_public_access.py:310-313 | a stale revoke of a grant that was ever open intrudes iff another such grant of the host opened between its old recorded end and its new one |
| PublicGrants.ExtensionKeepsApart | humanityrules_app/views/webapp_public_access.py:133-136 | extending a locked row never makes windows overlap, whatever was stamped meanwhile |
| PublicGrants.PromptWritesDoNotIntrude | humanityrules_app/views/webapp_public_access.py:137-145 | a new row whose opening time is the present, and a revoke whose row is still unrevoked, never intrude |
| GrantRaces.StaleRevokeOverlapsWindows | humanityrules_app/views/webapp_public_access.py:310-313 | a run with a stale revoke after which one moment lies in two windows of a host |
| GrantRaces.LateInsertOverlapsWindows | humanityrules_app/views/webapp_public_access.py:140-145 | a run without stale revokes in which a late first insert does the same |
| GrantRaces.RetryNeedNotExtend | humanityrules_app/views/webapp_public_access.py:169-175 | a run in which the retry after a lost first publish finds no row to extend |
| GrantRaces.LateExtensionRevives | humanityrules_app/views/webapp_public_access.py:133-136 | a run in which a grant lapses, the host is closed, and the same row is live again |
| SandboxSlugs.Tables.ClaimSandboxAppSlug | humanityrules_app/services/sandbox_service.py:73-100 | raises iff the environment is the sandbox and an App or a claim of another organization has the slug; after a claim that goes through every App of the slug is the organization's, and adding its App keeps one organization per slug |
| SandboxSlugs.ClaimRaisesIffDropped | humanityrules_app/services/sandbox_service.py:85-100 | it raises exactly when the pre-check and claim steps of the interleaved system drop the deploy |
| SandboxSlugs.Tables.ReleaseSandboxAppSlug | humanityrules_app/services/sandbox_service.py:103-105 | the slug is free of the organization's claim, every other claim is untouched, and a slug freed so is open to any organization no other organization's App stands against |
| SandboxSlugs.ReleaseUndoesClaim | humanityrules_app/services/sandbox_service.py:95-105 | releasing undoes a claim that created its row, leaves another organization's claim alone, and never leaves the organization its own |
| SandboxSlugs.StepKeepsInvariant | humanityrules_app/services/template_deploy_service.py:236-283 | with hosted zones set, each step of interleaved deploys, aborts and removals keeps one organization per slug, an App behind every claim, and what each open deploy relies on |
| SandboxSlugs.RunKeepsInvariant | humanityrules_app/services/template_deploy_service.py:236-283 | so every reachable state satisfies it, including Apps older than the claim table |
| SandboxSlugs.RaceRun | humanityrules_app/services/template_deploy_service.py:196-203 | if one organization's sandbox environment has no hosted zone there is a run, with any other organization and with every caller's existence check passed, that ends with two organizations on one slug |
| SandboxSlugs.ExclusiveIffEveryZoneSet | humanityrules_app/models.py:934-945 | all runs keep sandbox slugs exclusive to one organization iff every organization's sandbox environment has a hosted zone |
| Totals.AppsAddUp | humanityrules_app/services/billing_admin_service.py:431-441 | per-app group sums over distinct apps equal one sum over the rows of those apps |
| Totals.OrgsAddUp | humanityrules_app/services/billing_admin_service.py:456-466 | the same for organizations |
| BillingQueries.QueriesCount | humanityrules_app/services/billing_admin_service.py:427-474 | filtering rows and counting a group, aged ones by a filtered count, gives that group's in-window, pending and aged totals over all events |
| BillingQueries.SummaryIsComplete | humanityrules_app/services/billing_admin_service.py:174-183 | the ungrouped aggregates count every event of their kind |
| BillingQueries.UsageByAppIsComplete | humanityrules_app/services/billing_admin_service.py:352-387 | the in-window and the pending map, joined on the union of their keys with zero for a missing side, read with zero for a missing key, give every app its true three counts |
| BillingQueries.UsageByOrganizationIsComplete | humanityrules_app/services/billing_admin_service.py:390-424 | the same join per organization |
| BillingQueries.ReportingIff | humanityrules_app/services/billing_admin_service.py:270-270 | an organization has a row in the window iff its true in-window count is positive |
| BillingSnapshot.FoldAllIsFolded | humanityrules_app/services/billing_admin_service.py:486-498 | the four dictionaries of the ledger fold hold each organization's movement, entries and charges and each app's charges, for exactly the keys with entries |
| BillingSnapshot.FoldLedger | humanityrules_app/services/billing_admin_service.py:481-498 | the loop over the window's entries, posting charges and other entries differently, computes that fold |
| BillingSnapshot.WindowLedgerMetrics | humanityrules_app/services/billing_admin_service.py:477-508 | per organization: charged is minus the sum of its charges, movement the sum of its amounts, count its entries; per app: its charges |
| BillingSnapshot.AppChargesAddUp | humanityrules_app/services/billing_admin_service.py:494-498 | the per-app charges of an organization sum to its charged credits |
| BillingSnapshot.AddRow | humanityrules_app/services/billing_admin_service.py:227-243 | one app's row, from the joined usage and the charges with zero for the unknown, carries its true figures and is appended to its organization's group only |
| BillingSnapshot.AddCurrentRows | humanityrules_app/services/billing_admin_service.py:222-243 | gives every current app exactly one row with its own figures, in its organization's group |
| BillingSnapshot.AddRemovedRows | humanityrules_app/services/billing_admin_service.py:245-263 | then gives every app that only usage history knows exactly one row, and no current app a second |
| BillingSnapshot.SumCharged | humanityrules_app/services/billing_admin_service.py:275-278 | the summary's charge, summed over organizations with entries, is the sum over all organizations |
| BillingSnapshot.BuildSnapshot | humanityrules_app/services/billing_admin_service.py:170-284 | from aggregates and joins computed apart: true summary and group figures and exactly one row per app that is current or ever reported usage |
| BillingSnapshot.RowsAddUpToGroup | humanityrules_app/services/billing_admin_service.py:210-263 | each group's rows sum to its in-window, pending and aged event counts |
| BillingSnapshot.GroupsAddUpToSummary | humanityrules_app/services/billing_admin_service.py:268-284 | the groups sum to the summary's event, pending and aged counts and to its charged credits, which are all charges in the window |
| BillingSnapshot.CreditsAddUpToGroup | humanityrules_app/services/billing_admin_service.py:230-263 | on any ledger a group's charged credits are its rows' credits plus the charges of apps without a row |
| BillingSnapshot.RowCreditsAddUpToGroup | humanityrules_app/services/billing/rating.py:209-218 | since charges are posted for apps of usage events, which are kept, each group's rows sum to its charged credits |
| BillingSnapshot.ReportingCountsActiveGroups | humanityrules_app/services/billing_admin_service.py:268-270 | the summary's number of reporting organizations is the number of groups that show usage |
| BillingFigures.SummaryCountsEvents | humanityrules_app/services/billing_admin_service.py:336-341 | the summary counts the events occurred from the window's start on, or all; the unrated; and the unrated received before the age limit |
| BillingFigures.SummaryCountsReporters | humanityrules_app/services/billing_admin_service.py:268-270 | it counts each organization with such an event once |
| BillingFigures.SummarySumsCharges | humanityrules_app/services/billing_admin_service.py:275-278 | its credits are minus the sum of the charges posted from the window's start on |
| BillingFigures.GroupsCountEvents | humanityrules_app/services/billing_admin_service.py:390-424 | every organization has a group, whose usage figures count its own events in the same way |
| BillingFigures.GroupsSumEntries | humanityrules_app/services/billing_admin_service.py:345-349 | its ledger figures number and sum its own entries posted from the window's start on, and minus the charges among them |
| BillingFigures.GroupsListApps | humanityrules_app/services/billing_admin_service.py:222-263 | it has one row per own app that is current or ever reported, and no other; removed are those not current |
| BillingFigures.RowsCountEvents | humanityrules_app/services/billing_admin_service.py:352-387 | a row's usage figures count its own app's events |
| BillingFigures.RowsSumCharges | humanityrules_app/services/billing_admin_service.py:494-498 | a row's credits are minus its own app's charges in the window |
| UsageIngest.ReadQuantities | humanityrules_app/views/billing_usage.py:80-85 | succeeds iff all five quantities, absent ones read as 0, are non-negative integers and not booleans; then holds exactly those |
| UsageIngest.ValidIffBillable | humanityrules_app/views/billing_usage.py:62-100 | an event is valid iff: key text of 1 to 128 characters, source llm, subkey text of at most 255, quantities an object of only the five names with non-negative integers, and a zoned timestamp at most five minutes ahead |
| UsageIngest.ValidIsStoredAsReported | humanityrules_app/views/billing_usage.py:80-100 | a valid event is stored with its key, subkey, moment and quantities as reported, 0 for an absent quantity |
| UsageIngest.SkippedIff | humanityrules_app/views/billing_usage.py:64-69 | an event is skipped iff its key is legal and its source is a scalar other than llm |
| UsageIngest.RaisesIff | humanityrules_app/views/billing_usage.py:67-89 | an event makes the endpoint fail iff its source is a list or object, or all else is in order and its timestamp is an impossible date |
| UsageIngest.ValidEventsAreComplete | humanityrules_app/views/billing_usage.py:62-100 | a valid event carries exactly the five quantities, none negative, and respects every length and clock limit |
| UsageIngest.LaterParsesTheSame | humanityrules_app/views/billing_usage.py:92-93 | at any later time only a too-far-in-the-future verdict can change |
| UsageIngest.ReadEvents | humanityrules_app/views/billing_usage.py:128-145 | the batch loop yields the facts in order and the skipped count, or the index of the first unacceptable event |
| UsageIngest.AcceptedIff | humanityrules_app/views/billing_usage.py:130-138 | a report is accepted iff every event is an object that is valid or of an unknown source |
| UsageIngest.FirstBadEventDecides | humanityrules_app/views/billing_usage.py:130-138 | the first event that is neither valid nor of an unknown source rejects the report at its index, or fails it if it raises |
| UsageIngest.NextEvent | humanityrules_app/views/billing_usage.py:136-145 | a valid event adds its fact at the end, one of unknown source adds to the skipped count |
| UsageIngest.FactsKeepOrder | humanityrules_app/views/billing_usage.py:128-145 | the facts of a report stand in the order of its events |
| UsageIngest.AcceptedCountsAddUp | humanityrules_app/views/billing_usage.py:128-155 | parsed rows plus skipped events equal the report's length |
| UsageIngest.AcceptedForGood | humanityrules_app/views/billing_usage.py:126-145 | an accepted report reads the same at any later time |
| UsageIngest.UsageStore.BulkCreate | humanityrules_app/views/billing_usage.py:152-152 | inserts all rows in order under the unique key, ignoring conflicts with the store and inside the batch, or, on a text with a NUL character, none |
| UsageIngest.UsageStore.Receive | humanityrules_app/views/billing_usage.py:120-157 | answers ok with the skipped count and stores, or answers 400 and stores nothing, or fails and stores nothing, also at the insert |
| UsageIngest.ReportAcceptedIff | humanityrules_app/views/billing_usage.py:120-152 | a report takes effect iff it is a list of at most 500 objects, each of unknown source or valid with storable texts |
| UsageIngest.BadRequestIff | humanityrules_app/views/billing_usage.py:120-135 | a report is answered 400 iff its events are no list, more than 500, or its first unacceptable event is no object or malformed |
| UsageIngest.OneBadEventStoresNothing | humanityrules_app/views/billing_usage.py:130-135 | one unacceptable event anywhere keeps the whole report out of the store |
| UsageIngest.FirstAcceptedWins | humanityrules_app/views/billing_usage.py:152-152 | after any sequence of reports the store maps each key to its first accepted event and holds nothing else |
| UsageIngest.ReplayChangesNothing | humanityrules_app/views/billing_usage.py:103-157 | replaying an accepted report any time later, even from another app, is accepted and changes nothing |
| PermissionPolicy.ExpandWholeBuckets | humanityrules_app/services/infra_customer/iam_utils.py:271-285 | the result holds exactly the given resources and the objects of every whole bucket among them |
| PermissionPolicy.BuildPolicyDocument | humanityrules_app/services/infra_customer/iam_utils.py:288-320 | the document allows exactly what the statement list grants, which no effect, sid or order changes; none of its statements lacks levels or resources |
| PermissionPolicy.ReachIff | humanityrules_app/services/infra_customer/iam_utils.py:271-285 | a resource stands for itself and, for S3, a bucket ARN without a key for its objects |
| PermissionPolicy.GrantedByIff | humanityrules_app/services/infra_customer/iam_utils.py:295-314 | a statement with a service grants each level on `*` if it names no resource, else on what its resources stand for |
| PermissionPolicy.FewerResourcesGrantLessIff | humanityrules_app/services/infra_customer/iam_utils.py:310-314 | dropping resources grants nothing new iff some remain, or the statement already applied to everything or to nothing |
| PermissionPolicy.GrantsOfResources | humanityrules_app/services/infra_customer/iam_utils.py:271-314 | resources add up as long as both lists have some |
| PermissionStatements.PermissionRequest.EnsureSids | humanityrules_app/services/permissions_service.py:40-47 | fills exactly the missing sids, keeps the others, and reports whether any was missing |
| PermissionStatements.BackfillIsHarmless | humanityrules_app/services/permissions_service.py:58-62 | backfilling fresh ids makes all sids unique if the given ones were, is invisible to the comparison without sids, grants nothing, and repeating it changes nothing |
| PermissionStatements.StatementsEqualIff | humanityrules_app/services/permissions_service.py:58-62 | lists compare equal iff they agree statement by statement in all but the sids |
| PermissionStatements.BackfillGrantsTheSame | humanityrules_app/services/permissions_service.py:40-47 | it changes no applied permission |
| PermissionStatements.PermissionRequest.UpdateStatements | humanityrules_app/services/permissions_service.py:109-154 | all six actions: the new list is the edit of the backfilled old list, and the affected sid is the new or the targeted one |
| PermissionStatements.PermissionRequest.ApplyStatementAction | humanityrules_app/services/permissions_service.py:157-177 | composes the S3 prefix on add, drops a bucket on remove, delegates otherwise |
| PermissionStatements.PermissionRequest.Upsert | humanityrules_app/services/permissions_service.py:180-201 | merges levels into the first statement of the same service and resource set, else appends one |
| PermissionStatements.PermissionRequest.Cancel | humanityrules_app/services/permissions_service.py:242-247 | resets the draft to the baseline, equal to it up to sids |
| PermissionStatements.OtherStatementsUntouched | humanityrules_app/services/permissions_service.py:109-177 | an edit aimed at one sid leaves every other statement unchanged and in order; only adding a service appends one; a removed service is gone |
| PermissionStatements.EditGrantsExactly | humanityrules_app/services/permissions_service.py:132-150 | what the target grants once applied, after each edit of a level or resource, with empty fields included: levels and further resources add or take exactly theirs, the first resource narrows, the last one removed widens to everything |
| PermissionStatements.EditKeepsTheRest | humanityrules_app/services/permissions_service.py:132-150 | an edit keeps sid, service and effect of its target; a level edit its resources, a resource edit its levels; what is added comes last |
| PermissionStatements.AddedServiceGrantsNothing | humanityrules_app/services/permissions_service.py:124-127 | adding a service appends an empty Allow statement, which grants nothing yet |
| PermissionStatements.UntargetedEditChangesNothing | humanityrules_app/services/permissions_service.py:119-150 | an edit aimed at no statement changes nothing |
| PermissionStatements.PrefixedAdditionGrants | humanityrules_app/services/permissions_service.py:165-166 | an S3 addition adds bucket, slash and prefix, and the target comes to grant its levels on that |
| PermissionStatements.TargetGrantsNothingNewIff | humanityrules_app/services/permissions_service.py:147-174 | the target alone gains nothing from a removal iff a resource remains, or it already applied to everything or to nothing |
| PermissionStatements.RemovalGrantsNothingNewIff | humanityrules_app/services/permissions_service.py:147-174 | the draft grants nothing new after removing a resource or bucket iff a resource of the target remains, it had none, it names no service, or the draft already granted each of its levels on everything |
| PermissionStatements.RemovalCanGrantEverything | humanityrules_app/services/permissions_service.py:147-150 | a one-statement draft and a removal after which a level applies to every resource |
| PermissionStatements.BucketRemovalIsExact | humanityrules_app/services/permissions_service.py:167-175 | the target keeps exactly what its resources outside the bucket reach, for a bucket's own ARN exactly its permissions outside the bucket, and everything if none is left; other statements keep theirs |
| PermissionStatements.BucketRemovalKeepsOthers | humanityrules_app/services/permissions_service.py:170-172 | the target keeps exactly the resources that are neither the bucket nor below it; a bucket with a longer name stays |
| PermissionStatements.BucketRemovalUndoesAddition | humanityrules_app/services/permissions_service.py:165-175 | removing a bucket undoes adding a prefix of it to a statement with nothing in the bucket |
| PermissionStatements.UpsertGrantsExactly | humanityrules_app/services/permissions_service.py:180-201 | the permissions applied afterwards are those before plus the given levels on the given resources, without exception |
| PermissionStatements.UpsertKeepsTheRest | humanityrules_app/services/permissions_service.py:187-199 | merging changes the levels of one statement of the same service and resource set, or, if there is none, appends one |
| PermissionStatements.UpsertKeepsOnePerScope | humanityrules_app/services/permissions_service.py:183-186 | at most one statement per service and resource set, and unique sids, are kept |
| PermissionStatements.UpsertIsIdempotent | humanityrules_app/services/permissions_service.py:187-201 | merging the same scope again changes nothing |
| SerializedJobs.JobTable.PickKept | humanityrules_app/migrations/0014_serialize_app_permission_applies.py:22-32 | the picked row is active for the target and no active row of the target sorts before it |
| SerializedJobs.JobTable.SupersedeOthers | humanityrules_app/migrations/0014_serialize_app_permission_applies.py:33-41 | exactly the other active rows of the target fail, with the message and time |
| SerializedJobs.JobTable.FailDuplicates | humanityrules_app/migrations/0015_serialize_app_removals.py:12-47 | every target with active rows keeps exactly one, unchanged and first in the order; only superseded duplicates change; targets without duplicates are untouched |
| SerializedJobs.SerializedTablesMeetConstraint | humanityrules_app/migrations/0016_serialize_cost_refreshes.py:12-47 | afterwards at most one active row per target, none lost altogether, and nothing left for a second run |
| SerializedJobs.NewestApplySurvives | humanityrules_app/migrations/0014_serialize_app_permission_applies.py:21-41 | of a target's applying rows the last updated, then last created, survives unchanged; the others fail with message and time; no other row changes |
| SerializedJobs.RunningThenOldestSurvives | humanityrules_app/migrations/0015_serialize_app_removals.py:22-47 | of a target's active rows a running one survives if any runs, and among its like the first updated, then first created; the others fail; no other row changes |
| SerializedJobs.BeforeIsStrictWeakOrder | humanityrules_app/migrations/0016_serialize_cost_refreshes.py:29-36 | both query orders are strict weak orders, so "first" means what it says |
| FreshSlugs.DecimalInjective | humanityrules_app/views/onboarding.py:77-77 | different counters print differently |
| FreshSlugs.CandidatesDiffer | humanityrules_app/views/onboarding.py:73-78 | no candidate slug is tried twice |
| FreshSlugs.TriesAreBounded | humanityrules_app/views/workspaces.py:70-72 | candidates that are all taken are no more than the taken slugs |
| FreshSlugs.UniqueSlug | humanityrules_app/views/onboarding.py:72-78 | terminates for every set of taken slugs, after at most as many rejected candidates as there are taken slugs, at the base or the least free numbered slug |
| FreshSlugs.DecimalReadsBack | humanityrules_app/views/onboarding.py:77-77 | a printed counter reads back as itself, in digits, without a leading zero |
| FreshSlugs.CandidateReadsBack | humanityrules_app/views/onboarding.py:74-78 | a numbered candidate is the base, a hyphen and its number |
| LlmPreset.ReplaceModelVariables | humanityrules_app/migrations/0017_hermes_llm_preset_environment.py:31-43 | the kept entries in order, with the replacement at the first removed position, or in front if none was removed |
| LlmPreset.PatchContainers | humanityrules_app/migrations/0017_hermes_llm_preset_environment.py:46-71 | replaces inside hermes containers and changes nothing else of any container |
| LlmPreset.OnlyHermesIsPatched | humanityrules_app/migrations/0017_hermes_llm_preset_environment.py:46-71 | only containers named hermes change, and only in their variables, which then hold the replacement |
| LlmPreset.ReplacementIsExact | humanityrules_app/migrations/0017_hermes_llm_preset_environment.py:31-43 | exactly one removable entry remains, the replacement; all others keep their order and those before the first removed one their place |
| LlmPreset.OnlyThePresetRemains | humanityrules_app/migrations/0017_hermes_llm_preset_environment.py:31-43 | none of the six legacy names is left, and only the replacement carries the preset's name |
| LlmPreset.OthersRemain | humanityrules_app/migrations/0017_hermes_llm_preset_environment.py:36-41 | every entry of another name, or of none, stays |
| LlmPreset.ReplacementPlace | humanityrules_app/migrations/0017_hermes_llm_preset_environment.py:42-42 | the replacement stands where the first removed entry stood, or in front of all if none was |
| LlmPreset.LastReplacementWins | humanityrules_app/migrations/0017_hermes_llm_preset_environment.py:31-43 | replacing twice is replacing once with the later entry |
| LlmPreset.PatchingIsIdempotent | humanityrules_app/migrations/0017_hermes_llm_preset_environment.py:46-71 | patching patched containers changes nothing |
| ZoneResolver.ResolveEnvironment | humanityrules_app/views/auth_env_sso.py:97-121 | none unless the URL is https with a host; then none iff no zone matches, else the first environment scanned with a longest matching zone |
| ZoneResolver.OwnsIff | humanityrules_app/views/auth_env_sso.py:114-117 | an environment owns a host that ends in its non-empty zone, as a whole or right after a dot |
| ZoneResolver.LowerIff | humanityrules_app/views/auth_env_sso.py:107-114 | comparison ignores the case of letters and nothing else |
| ZoneResolver.EquallyLongMatchesAgree | humanityrules_app/views/auth_env_sso.py:117-120 | zones of one length that match a host are the same zone |
| ZoneResolver.ZoneIgnoresScanOrder | humanityrules_app/views/auth_env_sso.py:113-121 | the chosen zone does not depend on scan order or repetition |
| ZoneResolver.ChosenZoneIsInnermost | humanityrules_app/views/auth_env_sso.py:98-103 | the chosen zone lies inside every other zone that matches |
| FleetRedeploy.CollectCandidates | humanityrules_app/services/fleet_service.py:139-164 | lists the healthy and the failed apps with an attempt in fleet order, and counts each other one under its skip reason |
| FleetRedeploy.SkipReasonIff | humanityrules_app/services/fleet_service.py:117-129 | which state has which skip reason, and that an app without one is idle, not removal-failed, attempted and in a ready environment |
| FleetRedeploy.RefusalReasonIff | humanityrules_app/services/fleet_service.py:132-136 | a refused app counts under its present reason, or as busy if it has none |
| FleetRedeploy.QueueRedeployAll | humanityrules_app/services/fleet_service.py:210-234 | offers exactly the idle, attempted apps without a failed removal in a ready environment that are healthy or, if included, failed; finishes iff none of them was deleted meanwhile, with queued the admitted and each reason the snapshot's, the refused and the left-out failed; else raises at the first deleted one |
| FleetRedeploy.QueuedCounts | humanityrules_app/services/fleet_service.py:221-228 | queued is the number of offered apps that admission queued |
| FleetRedeploy.RefusedCounts | humanityrules_app/services/fleet_service.py:225-226 | and each reason's refusals the number it refused for it |
| FleetRedeploy.BuildPreview | humanityrules_app/services/fleet_service.py:167-174 | eligible and skipped counts of the same snapshot |
| FleetRedeploy.RedeployConserves | humanityrules_app/services/fleet_service.py:210-234 | whatever admission does, queued plus all skipped equals the apps with an attempt iff none of the offered apps was gone |
| FleetRedeploy.PreviewConserves | humanityrules_app/services/fleet_service.py:167-174 | eligible plus all skipped equals the same number |
| TemplateOverrides.ApplyVariableOverrides | humanityrules_app/services/template_deploy_service.py:67-82 | every named variable of every container gets the override's value and nothing else changes, also on the empty-override shortcut |
| TemplateOverrides.OverridingKeepsTheRest | humanityrules_app/services/template_deploy_service.py:74-82 | containers and variables keep place and number, and a variable all but an overridden value |
| TemplateOverrides.LaterOverridesWin | humanityrules_app/services/template_deploy_service.py:231-233 | preset then explicit overrides equal one round in which explicit ones win |
| TemplateOverrides.MaterializeEnvironmentVariables | humanityrules_app/services/template_deploy_service.py:21-35 | emits, in order, the config variables with a usable value |
| TemplateOverrides.MaterializedConcat | humanityrules_app/services/template_deploy_service.py:23-35 | emitted variables stand in the order of the template |
| TemplateOverrides.DeployedVariablesAreEffective | humanityrules_app/services/template_deploy_service.py:228-234 | a container receives a variable iff some config variable has it as its usable effective value: explicit, else preset, else the template's |

## Left out

- Inputs to the engine: users' direct and group attributes, tags and policies arrive as sets and sequences already restricted to one organization and resource type; the lookups, and the errors for resources of another organization, are not modelled.
- Conditions whose key or value is a JSON list or object (the engine raises on them), and a trailing newline in a reference, which the original pattern's end anchor tolerates.
- `materialize_membership`, the other bootstrap seeds and policy validation on save.
- Grants: request validation and rendering; clocks of all servers are taken to agree and never run back; transactions that roll back for other reasons than a lost insert leave no trace and are not steps.
- Sandbox slugs: environment locks and teardown appear only as the order of steps they permit; each organization has one sandbox environment, and a claim is released only in the transaction that deletes its App.
- Billing: labels, timestamps, row order, balances and the counters about them, integrity issues, and charges whose metadata lacks an app; credits are whole numbers. Ledger writing, rating, plans and payment are not part of this model.
- Ingest: authentication, the entitlement snapshot in the answer and the text of error messages; the timestamp parser is a parameter. Of the texts a database refuses only those with a NUL character are modelled, not lone surrogates.
- Statements: entries without access levels or resources keys, approval, descriptions and the calls to AWS; new sids are parameters. An access level stands for its actions: levels the action catalogue does not know, whose statements are dropped from the document, are not modelled.
- Deduplicating migrations: the groups are computed once, while the original reads them from an open cursor.
- Model preset: the loops that read and save templates and blueprints and the error for an unsupported preset.
- Slugs: `slugify`, and other requests that take the slug between check and insert.
- Zones: URL parsing and lower-casing beyond ASCII.
- Overrides: secrets, conversion of non-text values, container selection and plan limits.
- Fleet: what `queue_deploy` does; each admission is an arbitrary outcome: queued, refused, or an app that no longer exists. An environment deleted together with its app counts as the latter; other exceptions are not outcomes here.
- HTTP views, sign-in, job workers, CDK stacks, admin pages and command-line tools.

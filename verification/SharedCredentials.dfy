/** Organization-shared credentials: who may use one, and how its tags follow its sharing columns. */
module SharedCredentials {
  import opened Common
  import opened Conditions
  import opened Policies
  import opened Tags

  const USE := "credential:use"

  datatype Credential = Credential(id: int, tags: set<Pair>)

  /** Both sides may also refer to the tags of the requesting app. */
  ghost predicate MatchesFor(p: Policy, attributes: set<Pair>, tags: set<Pair>, app: set<Pair>) {
    ConditionsHold(p.identityConditions, attributes, Sides({}, tags, app)) &&
    ConditionsHold(p.resourceConditions, tags, Sides(attributes, {}, app))
  }

  ghost function MatchingFor(policies: seq<Policy>, attributes: set<Pair>, tags: set<Pair>, app: set<Pair>)
    : set<Policy>
  {
    set p | p in policies && MatchesFor(p, attributes, tags, app)
  }

  ghost predicate AllowsUse(policies: seq<Policy>, attributes: set<Pair>, tags: set<Pair>, app: set<Pair>) {
    Decides(MatchingFor(policies, attributes, tags, app), USE)
  }

  /** No app in hand offers no app tags. */
  function AppTags(app: Option<set<Pair>>): set<Pair> {
    if app.Some? then app.value else {}
  }

  lemma NothingAboveUse(p: Policy)
    ensures Grants(p, USE) <==> GrantsLiterally(p, USE)
  {
    assert !IsDeny(USE);
    if GrantsLiterally(p, USE) {
      assert USE in p.actions;
    }
  }

  /** The credentials of `queryset` that the user may use through the app, in their order. */
  ghost function Usable(policies: seq<Policy>, attributes: set<Pair>, app: set<Pair>, queryset: seq<Credential>)
    : seq<Credential>
  {
    Select(queryset, (c: Credential) => AllowsUse(policies, attributes, c.tags, app))
  }

  method FilterPermittedCredentials(policies: seq<Policy>, attributes: set<Pair>, app: Option<set<Pair>>,
                                    queryset: seq<Credential>)
    returns (permitted: seq<Credential>)
    ensures permitted == Usable(policies, attributes, AppTags(app), queryset)
    ensures app.None? ==>
              permitted == Select(queryset, (c: Credential) => AllowsUse(policies, attributes, c.tags, {}))
    ensures forall tags | app == Some(tags) ::
              permitted == Select(queryset, (c: Credential) => AllowsUse(policies, attributes, c.tags, tags))
  {
    ghost var keep := (c: Credential) => AllowsUse(policies, attributes, c.tags, AppTags(app));
    if policies == [] {
      assert forall tags :: MatchingFor(policies, attributes, tags, AppTags(app)) == {};
      SelectNone(queryset, keep);
      return [];
    }
    var attributeMap := BuildSideMap(attributes);
    var appMap: SideMap := map[];
    if app.Some? {
      appMap := BuildSideMap(app.value);
    }
    assert PairsOf(appMap) == AppTags(app);
    permitted := [];
    for i := 0 to |queryset|
      invariant permitted == Select(queryset[..i], keep)
    {
      assert queryset[..i + 1] == queryset[..i] + [queryset[i]];
      SelectAppend(queryset[..i], queryset[i], keep);
      var use := MayUse(policies, attributes, attributeMap, queryset[i].tags, appMap);
      if use {
        permitted := permitted + [queryset[i]];
      }
    }
    assert queryset[..|queryset|] == queryset;
  }

  method MayUse(policies: seq<Policy>, attributes: set<Pair>, attributeMap: SideMap, tags: set<Pair>, appMap: SideMap)
    returns (use: bool)
    requires PairsOf(attributeMap) == attributes
    ensures use == AllowsUse(policies, attributes, tags, PairsOf(appMap))
  {
    ghost var app := PairsOf(appMap);
    var tagMap := BuildSideMap(tags);
    var grants: set<string>, denials: set<string> := {}, {};
    ghost var matched: set<Policy> := {};
    for i := 0 to |policies|
      invariant matched == MatchingFor(policies[..i], attributes, tags, app)
      invariant Accumulates(matched, grants, denials)
    {
      var p := policies[i];
      assert policies[..i + 1] == policies[..i] + [p];
      var identityMatch := ConditionsMatch(p.identityConditions, attributes, map[Resource := tagMap, App := appMap]);
      if !identityMatch {
        continue;
      }
      var resourceMatch := ConditionsMatch(p.resourceConditions, tags, map[Identity := attributeMap, App := appMap]);
      if !resourceMatch {
        continue;
      }
      grants, denials := CollectActions(p, matched, grants, denials);
      matched := matched + {p};
    }
    assert policies[..|policies|] == policies;
    forall p { NothingAboveUse(p); }
    use := USE in grants - denials;
  }

  /** Resolving the app can take a credential away only through a denial that then matches; without
      deny policies, what is permitted without an app is permitted for every app. */
  lemma AppLosesOnlyToDenials(policies: seq<Policy>, attributes: set<Pair>, tags: set<Pair>, app: set<Pair>)
    requires AllowsUse(policies, attributes, tags, AppTags(None))
    ensures AllowsUse(policies, attributes, tags, app) <==>
            !exists p | p in policies :: Denies(p, USE) && MatchesFor(p, attributes, tags, app)
  {
    var p :| p in MatchingFor(policies, attributes, tags, {}) && Grants(p, USE);
    ConditionsMonotone(p.identityConditions, attributes, attributes, Sides({}, tags, {}), Sides({}, tags, app));
    ConditionsMonotone(p.resourceConditions, tags, tags, Sides(attributes, {}, {}), Sides(attributes, {}, app));
    assert p in MatchingFor(policies, attributes, tags, app);
    assert forall q | q in policies ::
        MatchesFor(q, attributes, tags, app) <==> q in MatchingFor(policies, attributes, tags, app);
  }

  // --------------------------------------------------------------- sharing columns

  datatype Scope = Everyone | User | Workspace

  /** The sharing columns of a credential row. */
  datatype Sharing = Sharing(scope: Scope, targetUser: Option<string>, targetWorkspace: Option<string>)

  function ScopeValue(scope: Scope): string {
    match scope
    case Everyone => "everyone"
    case User => "user"
    case Workspace => "workspace"
  }

  /** The tags a credential shared this way should carry, and no others. */
  function SharingTags(s: Sharing): set<Pair> {
    {("sharing-scope", ScopeValue(s.scope))} +
    (if s.scope == User && s.targetUser.Some? then {("shared-with-user", s.targetUser.value)} else {}) +
    (if s.scope == Workspace && s.targetWorkspace.Some? then {("shared-with-workspace", s.targetWorkspace.value)}
     else {})
  }

  /** The tag rows written for a credential shared this way, in the order they are created. */
  function SharingRows(credential: int, s: Sharing): seq<TagRow> {
    [TagRow("credential", credential, "sharing-scope", ScopeValue(s.scope))] +
    if s.scope == User && s.targetUser.Some? then
      [TagRow("credential", credential, "shared-with-user", s.targetUser.value)]
    else if s.scope == Workspace && s.targetWorkspace.Some? then
      [TagRow("credential", credential, "shared-with-workspace", s.targetWorkspace.value)]
    else []
  }

  ghost predicate BelongsTo(row: TagRow, resourceType: string, resourceId: int) {
    row.resourceType == resourceType && row.resourceId == resourceId
  }

  ghost function Synced(rows: seq<TagRow>, credential: int, s: Sharing): seq<TagRow> {
    Select(rows, (row: TagRow) => !BelongsTo(row, "credential", credential)) + SharingRows(credential, s)
  }

  class TagTable {
    var rows: seq<TagRow>

    constructor ()
      ensures rows == []
    {
      rows := [];
    }

    method DeleteTagsOf(resourceType: string, resourceId: int)
      modifies this
      ensures rows == Select(old(rows), (row: TagRow) => !BelongsTo(row, resourceType, resourceId))
    {
      ghost var keep := (row: TagRow) => !BelongsTo(row, resourceType, resourceId);
      var kept: seq<TagRow> := [];
      for i := 0 to |rows|
        invariant rows == old(rows)
        invariant kept == Select(rows[..i], keep)
      {
        assert rows[..i + 1] == rows[..i] + [rows[i]];
        SelectAppend(rows[..i], rows[i], keep);
        if !(rows[i].resourceType == resourceType && rows[i].resourceId == resourceId) {
          kept := kept + [rows[i]];
        }
      }
      assert rows[..|rows|] == rows;
      rows := kept;
    }

    method CreateTag(row: TagRow)
      modifies this
      ensures rows == old(rows) + [row]
    {
      rows := rows + [row];
    }

    /** Runs on every save of a shared credential: clears its tags and writes them again. */
    method SyncSharedCredentialTags(credential: int, sharing: Sharing)
      modifies this
      ensures rows == Synced(old(rows), credential, sharing)
    {
      DeleteTagsOf("credential", credential);
      CreateTag(TagRow("credential", credential, "sharing-scope", ScopeValue(sharing.scope)));
      if sharing.scope == User && sharing.targetUser.Some? {
        CreateTag(TagRow("credential", credential, "shared-with-user", sharing.targetUser.value));
      } else if sharing.scope == Workspace && sharing.targetWorkspace.Some? {
        CreateTag(TagRow("credential", credential, "shared-with-workspace", sharing.targetWorkspace.value));
      }
    }
  }

  /** One save leaves its credential with exactly the tags of the sharing, and every other resource as it was. */
  lemma SyncedTags(rows: seq<TagRow>, credential: int, s: Sharing, resourceType: string, resourceId: int)
    ensures TagsOf(Synced(rows, credential, s), resourceType, resourceId) ==
            if (resourceType, resourceId) == ("credential", credential) then SharingTags(s)
            else TagsOf(rows, resourceType, resourceId)
  {
    var keep := (row: TagRow) => !BelongsTo(row, "credential", credential);
    SelectMembers(rows, keep);
    var after, added := Synced(rows, credential, s), SharingRows(credential, s);
    assert forall row :: row in after <==> (row in rows && keep(row)) || row in added;
    if (resourceType, resourceId) == ("credential", credential) {
      assert TagsOf(after, resourceType, resourceId) == set row | row in added :: (row.key, row.value);
    }
  }

  /** A history of saves, each re-targeting some credential. */
  ghost function AfterSaves(rows: seq<TagRow>, saves: seq<(int, Sharing)>): seq<TagRow> {
    if saves == [] then rows
    else
      var last := |saves| - 1;
      Synced(AfterSaves(rows, saves[..last]), saves[last].0, saves[last].1)
  }

  /** The latest save of `credential`, if it was ever saved. */
  ghost function LastSharing(saves: seq<(int, Sharing)>, credential: int): Option<Sharing> {
    if saves == [] then None
    else
      var last := |saves| - 1;
      if saves[last].0 == credential then Some(saves[last].1) else LastSharing(saves[..last], credential)
  }

  lemma {:induction false} TagsAfterSaves(rows: seq<TagRow>, saves: seq<(int, Sharing)>, resourceType: string,
                                          resourceId: int)
    ensures TagsOf(AfterSaves(rows, saves), resourceType, resourceId) ==
            if resourceType == "credential" && LastSharing(saves, resourceId).Some?
            then SharingTags(LastSharing(saves, resourceId).value)
            else TagsOf(rows, resourceType, resourceId)
  {
    if saves == [] {
    } else {
      var last := |saves| - 1;
      TagsAfterSaves(rows, saves[..last], resourceType, resourceId);
      SyncedTags(AfterSaves(rows, saves[..last]), saves[last].0, saves[last].1, resourceType, resourceId);
    }
  }

  // -------------------------------------------------------------- seeded policies

  const EVERYONE_POLICY := Policy("credential",
    [Condition(Text("authenticated"), Text("true"))], [Condition(Text("sharing-scope"), Text("everyone"))], [USE])
  const USER_POLICY := Policy("credential",
    [Condition(Text("username"), Text(ReferenceText(Resource, "shared-with-user")))],
    [Condition(Text("sharing-scope"), Text("user"))], [USE])
  const WORKSPACE_POLICY := Policy("credential",
    [Condition(Text("authenticated"), Text("true"))],
    [Condition(Text("shared-with-workspace"), Text(ReferenceText(App, "workspace-name")))], [USE])
  const SEEDED := [EVERYONE_POLICY, USER_POLICY, WORKSPACE_POLICY]

  /** Every user is authenticated; direct and group attributes come on top. */
  function EffectiveAttributes(direct: set<Pair>, inherited: set<Pair>): set<Pair> {
    {("authenticated", "true")} + direct + inherited
  }

  /** Whom a sharing is meant for. */
  ghost predicate SharedWith(s: Sharing, attributes: set<Pair>, app: set<Pair>) {
    match s.scope
    case Everyone => true
    case User => s.targetUser.Some? && ("username", s.targetUser.value) in attributes
    case Workspace => s.targetWorkspace.Some? && ("workspace-name", s.targetWorkspace.value) in app
  }

  lemma ReferenceParses(side: Side, key: string)
    requires IsKeyName(key)
    ensures ParseReference(Text(ReferenceText(side, key))) == Some(Reference(side, key))
  {
    ParseReferenceIff(Text(ReferenceText(side, key)), Reference(side, key));
  }

  lemma UserReference()
    ensures ParseReference(Text(ReferenceText(Resource, "shared-with-user"))) ==
            Some(Reference(Resource, "shared-with-user"))
  {
    assert IsKeyName("shared-with-user");
    ReferenceParses(Resource, "shared-with-user");
  }

  lemma WorkspaceReference()
    ensures ParseReference(Text(ReferenceText(App, "workspace-name"))) == Some(Reference(App, "workspace-name"))
  {
    assert IsKeyName("workspace-name");
    ReferenceParses(App, "workspace-name");
  }

  lemma PlainValue(text: string)
    requires |text| > 0 && text[0] != '$'
    ensures ParseReference(Text(text)) == None
  {
    assert SidePrefix(Identity)[0] == SidePrefix(Resource)[0] == SidePrefix(App)[0] == '$';
  }

  lemma SingleClause(c: Condition, self: set<Pair>, sides: Sides)
    requires c != WILDCARD
    ensures ConditionsHold([c], self, sides) == ClauseHolds(c, self, sides)
  {
    assert c in [c];
  }

  /** Each seeded policy matches exactly the sharing it was written for. */
  lemma SeededPolicyMeanings(s: Sharing, attributes: set<Pair>, app: set<Pair>)
    requires ("authenticated", "true") in attributes
    ensures MatchesFor(EVERYONE_POLICY, attributes, SharingTags(s), app) <==> s.scope == Everyone
    ensures MatchesFor(USER_POLICY, attributes, SharingTags(s), app) <==>
            s.scope == User && s.targetUser.Some? && ("username", s.targetUser.value) in attributes
    ensures MatchesFor(WORKSPACE_POLICY, attributes, SharingTags(s), app) <==>
            s.scope == Workspace && s.targetWorkspace.Some? && ("workspace-name", s.targetWorkspace.value) in app
  {
    UserReference();
    WorkspaceReference();
    PlainValue("everyone");
    PlainValue("user");
    PlainValue("true");
    var tags := SharingTags(s);
    SingleClause(EVERYONE_POLICY.identityConditions[0], attributes, Sides({}, tags, app));
    SingleClause(EVERYONE_POLICY.resourceConditions[0], tags, Sides(attributes, {}, app));
    SingleClause(USER_POLICY.identityConditions[0], attributes, Sides({}, tags, app));
    SingleClause(USER_POLICY.resourceConditions[0], tags, Sides(attributes, {}, app));
    SingleClause(WORKSPACE_POLICY.identityConditions[0], attributes, Sides({}, tags, app));
    SingleClause(WORKSPACE_POLICY.resourceConditions[0], tags, Sides(attributes, {}, app));
    if s.scope == User && s.targetUser.Some? && ("username", s.targetUser.value) in attributes {
      assert ("shared-with-user", s.targetUser.value) in tags;
    }
    if s.scope == Workspace && s.targetWorkspace.Some? && ("workspace-name", s.targetWorkspace.value) in app {
      assert ("shared-with-workspace", s.targetWorkspace.value) in tags;
    }
  }

  /** With the seeded policies, a credential tagged by its sharing is usable exactly by whom it is shared with. */
  lemma SeededSharingIsExact(s: Sharing, direct: set<Pair>, inherited: set<Pair>, app: Option<set<Pair>>)
    ensures AllowsUse(SEEDED, EffectiveAttributes(direct, inherited), SharingTags(s), AppTags(app)) <==>
            SharedWith(s, EffectiveAttributes(direct, inherited), AppTags(app))
  {
    var attributes, tags, side := EffectiveAttributes(direct, inherited), SharingTags(s), AppTags(app);
    SeededPolicyMeanings(s, attributes, side);
    forall p | p in SEEDED ensures Grants(p, USE) && !Denies(p, USE) {
      assert USE in p.actions && !IsDeny(USE);
      assert ("!" + USE)[0] == '!' && USE[0] == 'c';
    }
    var matched := MatchingFor(SEEDED, attributes, tags, side);
    assert EVERYONE_POLICY in SEEDED && USER_POLICY in SEEDED && WORKSPACE_POLICY in SEEDED;
    assert forall p :: p in SEEDED <==> p == EVERYONE_POLICY || p == USER_POLICY || p == WORKSPACE_POLICY;
    assert forall p :: p in matched <==> p in SEEDED && MatchesFor(p, attributes, tags, side);
    assert SharedWith(s, attributes, side) <==>
           EVERYONE_POLICY in matched || USER_POLICY in matched || WORKSPACE_POLICY in matched;
  }

  /** After any history of saves, with the seeded policies, only a credential's last sharing counts: no
      earlier target keeps access, and without an app in hand no workspace sharing resolves. */
  lemma OnlyTheLastTargetCounts(rows: seq<TagRow>, saves: seq<(int, Sharing)>, credential: int,
                                direct: set<Pair>, inherited: set<Pair>, app: Option<set<Pair>>)
    requires LastSharing(saves, credential).Some?
    ensures AllowsUse(SEEDED, EffectiveAttributes(direct, inherited),
                      TagsOf(AfterSaves(rows, saves), "credential", credential), AppTags(app)) <==>
            SharedWith(LastSharing(saves, credential).value, EffectiveAttributes(direct, inherited), AppTags(app))
    ensures app == None && LastSharing(saves, credential).value.scope == Workspace ==>
            !AllowsUse(SEEDED, EffectiveAttributes(direct, inherited),
                       TagsOf(AfterSaves(rows, saves), "credential", credential), AppTags(app))
  {
    TagsAfterSaves(rows, saves, "credential", credential);
    SeededSharingIsExact(LastSharing(saves, credential).value, direct, inherited, app);
  }

  // ------------------------------------------------------- the meaning, written out

  /** A use decision: each side may refer to the other and to the app; the grant is literal. */
  lemma AllowsUseIff(policies: seq<Policy>, attributes: set<Pair>, tags: set<Pair>, app: set<Pair>)
    ensures AllowsUse(policies, attributes, tags, app) <==>
            && (exists p :: p in policies && "credential:use" in p.actions &&
                            ConditionsHold(p.identityConditions, attributes, Sides({}, tags, app)) &&
                            ConditionsHold(p.resourceConditions, tags, Sides(attributes, {}, app)))
            && (forall p :: p in policies && "!credential:use" in p.actions ==>
                            !(ConditionsHold(p.identityConditions, attributes, Sides({}, tags, app)) &&
                              ConditionsHold(p.resourceConditions, tags, Sides(attributes, {}, app))))
  {
    assert "!" + USE == "!credential:use" && !IsDeny(USE);
    forall p ensures p in MatchingFor(policies, attributes, tags, app) <==>
                     p in policies && ConditionsHold(p.identityConditions, attributes, Sides({}, tags, app)) &&
                     ConditionsHold(p.resourceConditions, tags, Sides(attributes, {}, app))
    {}
    forall p { NothingAboveUse(p); }
  }

  /** With the seeded policies, a credential shared with a workspace is usable through exactly the apps that carry
      the workspace's name, themselves or by their own workspace, and never without an app. */
  lemma WorkspaceSharingNeedsTheApp(rows: seq<TagRow>, workspace: string, direct: set<Pair>, inherited: set<Pair>,
                                    app: int, home: int)
    ensures var tags := SharingTags(Sharing(Workspace, None, Some(workspace)));
            var attributes := EffectiveAttributes(direct, inherited);
            && (AllowsUse(SEEDED, attributes, tags, EffectiveAppTags(rows, app, home)) <==>
                exists row :: row in rows && row.key == "workspace-name" && row.value == workspace &&
                  ((row.resourceType == "app" && row.resourceId == app) ||
                   (row.resourceType == "workspace" && row.resourceId == home)))
            && !AllowsUse(SEEDED, attributes, tags, {})
  {
    var s, side := Sharing(Workspace, None, Some(workspace)), EffectiveAppTags(rows, app, home);
    SeededSharingIsExact(s, direct, inherited, Some(side));
    SeededSharingIsExact(s, direct, inherited, None);
    if ("workspace-name", workspace) in side {
      var row :| row in rows && (row.key, row.value) == ("workspace-name", workspace) &&
                 ((row.resourceType == "app" && row.resourceId == app) ||
                  (row.resourceType == "workspace" && row.resourceId == home));
    }
  }

  /** The tags of each sharing, by name. */
  lemma SharingTagsByScope(user: string, workspace: string)
    ensures SharingTags(Sharing(Everyone, None, None)) == {("sharing-scope", "everyone")}
    ensures SharingTags(Sharing(User, Some(user), None)) == {("sharing-scope", "user"), ("shared-with-user", user)}
    ensures SharingTags(Sharing(Workspace, None, Some(workspace))) ==
            {("sharing-scope", "workspace"), ("shared-with-workspace", workspace)}
  {}
}

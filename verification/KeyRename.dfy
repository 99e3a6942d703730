/** The migration that renames the shared-credential keys in stored policies and credential tags,
    and what it preserves of the policy engine's decisions. */
module KeyRename {
  import opened Common
  import opened Conditions
  import opened Policies
  import opened ResourceFilter
  import opened SharedCredentials
  import opened Tags

  type Rename = map<string, string>

  const RENAME: Rename := map[
    "shared-scope" := "sharing-scope",
    "shared-user" := "shared-with-user",
    "shared-workspace" := "shared-with-workspace"
  ]

  /** What both directions satisfy: key names onto different, unshared key names. */
  ghost predicate Clean(rename: Rename) {
    && rename.Keys !! rename.Values
    && (forall k | k in rename :: IsKeyName(k) && IsKeyName(rename[k]))
    && (forall a, b | a in rename && b in rename && rename[a] == rename[b] :: a == b)
  }

  function Inverse(rename: Rename): Rename
    requires Clean(rename)
  {
    map k | k in rename :: rename[k] := k
  }

  lemma InverseIsClean(rename: Rename)
    requires Clean(rename)
    ensures Clean(Inverse(rename))
    ensures Inverse(rename).Keys == rename.Values && Inverse(rename).Values == rename.Keys
  {
    var inverse := Inverse(rename);
    forall n ensures n in inverse.Keys <==> n in rename.Values {
      if n in rename.Values {
        var k :| k in rename && rename[k] == n;
        assert inverse[rename[k]] == k;
      }
    }
    forall o ensures o in inverse.Values <==> o in rename.Keys {
      if o in rename.Keys {
        assert inverse[rename[o]] == o;
      }
    }
  }

  /** Three key names onto three further ones, all different: a clean renaming. */
  lemma TripleIsClean(a: string, b: string, c: string, x: string, y: string, z: string)
    requires a != b && a != c && b != c && x != y && x != z && y != z
    requires {a, b, c} !! {x, y, z}
    requires IsKeyName(a) && IsKeyName(b) && IsKeyName(c) && IsKeyName(x) && IsKeyName(y) && IsKeyName(z)
    ensures Clean(map[a := x, b := y, c := z])
    ensures var r: Rename := map[a := x, b := y, c := z]; r.Keys == {a, b, c} && r.Values == {x, y, z}
  {
    var r: Rename := map[a := x, b := y, c := z];
    assert r[a] == x && r[b] == y && r[c] == z;
    forall v ensures v in r.Values <==> v in {x, y, z} {
      assert r[a] in r.Values && r[b] in r.Values && r[c] in r.Values;
    }
  }

  lemma NamesAreKeyNames()
    ensures IsKeyName("shared-scope") && IsKeyName("shared-user") && IsKeyName("shared-workspace")
    ensures IsKeyName("sharing-scope") && IsKeyName("shared-with-user") && IsKeyName("shared-with-workspace")
  {}

  lemma RenameIsClean()
    ensures Clean(RENAME)
    ensures RENAME.Keys == {"shared-scope", "shared-user", "shared-workspace"}
    ensures RENAME.Values == {"sharing-scope", "shared-with-user", "shared-with-workspace"}
  {
    NamesAreKeyNames();
    assert |"shared-scope"| == 12 && |"shared-user"| == 11 && |"shared-workspace"| == 16;
    assert |"sharing-scope"| == 13 && |"shared-with-user"| == 16 && |"shared-with-workspace"| == 21;
    assert "shared-workspace"[8] != "shared-with-user"[8];
    TripleIsClean("shared-scope", "shared-user", "shared-workspace",
                  "sharing-scope", "shared-with-user", "shared-with-workspace");
  }

  // ------------------------------------------------------------ what is rewritten

  function NewKey(rename: Rename, key: string): string {
    if key in rename then rename[key] else key
  }

  function RewriteKey(rename: Rename, key: Field): Field {
    if key.Text? then Text(NewKey(rename, key.text)) else key
  }

  function RewriteValue(rename: Rename, value: Field): Field {
    if value.NonText? then value
    else
      match SplitReference(value.text)
      case Some(ref) => if ref.key in rename then Text(ReferenceText(ref.side, rename[ref.key])) else value
      case None => value
  }

  function RewriteCondition(rename: Rename, c: Condition): Condition {
    Condition(RewriteKey(rename, c.key), RewriteValue(rename, c.value))
  }

  function RewriteAll(rename: Rename, conditions: seq<Condition>): seq<Condition> {
    seq(|conditions|, i requires 0 <= i < |conditions| => RewriteCondition(rename, conditions[i]))
  }

  function RewritePolicy(rename: Rename, p: Policy): Policy {
    p.(identityConditions := RewriteAll(rename, p.identityConditions),
       resourceConditions := RewriteAll(rename, p.resourceConditions))
  }

  function RewritePolicies(rename: Rename, policies: seq<Policy>): seq<Policy> {
    seq(|policies|, i requires 0 <= i < |policies| => RewritePolicy(rename, policies[i]))
  }

  function RenameRow(rename: Rename, row: TagRow): TagRow {
    if row.resourceType == "credential" then row.(key := NewKey(rename, row.key)) else row
  }

  function RenameTags(rename: Rename, rows: seq<TagRow>): seq<TagRow> {
    seq(|rows|, i requires 0 <= i < |rows| => RenameRow(rename, rows[i]))
  }

  // --------------------------------------------------------------- the migration

  /** Tries every side with every old name, as the nested loops do. */
  method RewriteReference(text: string, rename: Rename) returns (value: Field, changed: bool)
    ensures value == RewriteValue(rename, Text(text))
    ensures changed <==> SplitReference(text).Some? && SplitReference(text).value.key in rename
  {
    value, changed := Text(text), false;
    var sides := [Identity, Resource, App];
    ghost var ref := SplitReference(text);
    ghost var target := ref.Some? && ref.value.key in rename;
    for s := 0 to |sides|
      invariant changed <==> target && ref.value.side in sides[..s]
      invariant value == if changed then RewriteValue(rename, Text(text)) else Text(text)
    {
      assert sides[..s + 1] == sides[..s] + [sides[s]];
      var remaining := rename.Keys;
      while remaining != {}
        invariant remaining <= rename.Keys
        invariant changed <==> target && (ref.value.side in sides[..s] ||
                                          (ref.value.side == sides[s] && ref.value.key !in remaining))
        invariant value == if changed then RewriteValue(rename, Text(text)) else Text(text)
        decreases remaining
      {
        var name :| name in remaining;
        SplitReferenceIff(text, Reference(sides[s], name));
        if text == ReferenceText(sides[s], name) {
          value := Text(ReferenceText(sides[s], rename[name]));
          changed := true;
        }
        remaining := remaining - {name};
      }
    }
    assert ref.Some? ==> ref.value.side in sides;
  }

  /** Applies the renaming to a condition list in place and reports whether an old name occurred in it. */
  method RewriteConditions(conditions: array<Condition>, rename: Rename) returns (changed: bool)
    modifies conditions
    ensures conditions[..] == RewriteAll(rename, old(conditions[..]))
    ensures changed <==> exists c :: c in old(conditions[..]) && !ConditionAvoids(c, rename.Keys)
    ensures !changed ==> conditions[..] == old(conditions[..])
  {
    changed := false;
    assert forall c :: c in conditions[..] <==> exists j :: 0 <= j < conditions.Length && conditions[j] == c;
    for i := 0 to conditions.Length
      invariant forall j | 0 <= j < i :: conditions[j] == RewriteCondition(rename, old(conditions[j]))
      invariant forall j | i <= j < conditions.Length :: conditions[j] == old(conditions[j])
      invariant changed <==> exists j :: 0 <= j < i && !ConditionAvoids(old(conditions[j]), rename.Keys)
      invariant !changed ==> conditions[..] == old(conditions[..])
    {
      var key := conditions[i].key;
      if key.Text? && key.text in rename {
        conditions[i] := conditions[i].(key := Text(rename[key.text]));
        changed := true;
      }
      var value := conditions[i].value;
      if value.Text? {
        var rewritten, hit := RewriteReference(value.text, rename);
        if hit {
          conditions[i] := conditions[i].(value := rewritten);
          changed := true;
        }
      }
    }
  }

  /** One UPDATE of the migration on one row. */
  function UpdateKey(row: TagRow, name: string, newName: string): TagRow {
    if row.resourceType == "credential" && row.key == name then row.(key := newName) else row
  }

  /** Updating one more old name on top of the names done: no row is renamed twice. */
  lemma OneMoreName(rename: Rename, done: Rename, name: string, start: seq<TagRow>, before: seq<TagRow>,
                    after: seq<TagRow>)
    requires Clean(rename) && name in rename && name !in done
    requires forall k | k in done :: k in rename && done[k] == rename[k]
    requires before == RenameTags(done, start) && |after| == |before|
    requires forall i | 0 <= i < |before| :: after[i] == UpdateKey(before[i], name, rename[name])
    ensures after == RenameTags(done[name := rename[name]], start)
  {
    forall i | 0 <= i < |start| ensures after[i] == RenameRow(done[name := rename[name]], start[i]) {
      if start[i].key in done {
        assert done[start[i].key] in rename.Values;
      }
    }
  }

  class Store {
    var tags: seq<TagRow>
    var policies: seq<Policy>

    constructor (tags: seq<TagRow>, policies: seq<Policy>)
      ensures this.tags == tags && this.policies == policies
    {
      this.tags, this.policies := tags, policies;
    }

    /** Updates the credential tags one old name at a time, then rewrites and saves the policies that change. */
    method ApplyRename(rename: Rename)
      requires Clean(rename)
      modifies this
      ensures tags == RenameTags(rename, old(tags))
      ensures policies == RewritePolicies(rename, old(policies))
    {
      UpdateTags(rename);
      for i := 0 to |policies|
        invariant |policies| == |old(policies)|
        invariant tags == RenameTags(rename, old(tags))
        invariant forall j | 0 <= j < i :: policies[j] == RewritePolicy(rename, old(policies)[j])
        invariant forall j | i <= j < |policies| :: policies[j] == old(policies)[j]
      {
        var p := policies[i];
        var identity := new Condition[|p.identityConditions|](
          k requires 0 <= k < |p.identityConditions| => p.identityConditions[k]);
        var resource := new Condition[|p.resourceConditions|](
          k requires 0 <= k < |p.resourceConditions| => p.resourceConditions[k]);
        assert identity[..] == p.identityConditions && resource[..] == p.resourceConditions;
        var identityChanged := RewriteConditions(identity, rename);
        var resourceChanged := RewriteConditions(resource, rename);
        if identityChanged || resourceChanged {
          policies := policies[i := p.(identityConditions := identity[..], resourceConditions := resource[..])];
        }
      }
    }

    method UpdateTags(rename: Rename)
      requires Clean(rename)
      modifies this`tags
      ensures tags == RenameTags(rename, old(tags))
    {
      var remaining := rename.Keys;
      ghost var done: Rename := map[];
      while remaining != {}
        invariant remaining <= rename.Keys
        invariant done.Keys == rename.Keys - remaining && forall k | k in done :: done[k] == rename[k]
        invariant tags == RenameTags(done, old(tags))
        decreases remaining
      {
        var name :| name in remaining;
        var before := tags;
        tags := seq(|before|, i requires 0 <= i < |before| => UpdateKey(before[i], name, rename[name]));
        OneMoreName(rename, done, name, old(tags), before, tags);
        done := done[name := rename[name]];
        remaining := remaining - {name};
      }
      assert done == rename;
    }
  }

  // -------------------------------------------------- where the names may occur

  ghost predicate PairsAvoid(pairs: set<Pair>, names: set<string>) {
    forall p | p in pairs :: p.0 !in names
  }

  predicate ConditionAvoids(c: Condition, names: set<string>) {
    && (c.key.Text? ==> c.key.text !in names)
    && (c.value.Text? && SplitReference(c.value.text).Some? ==> SplitReference(c.value.text).value.key !in names)
  }

  ghost predicate PolicyAvoids(p: Policy, names: set<string>) {
    && (forall c | c in p.identityConditions :: ConditionAvoids(c, names))
    && (forall c | c in p.resourceConditions :: ConditionAvoids(c, names))
  }

  ghost predicate PoliciesAvoid(policies: seq<Policy>, names: set<string>) {
    forall p | p in policies :: PolicyAvoids(p, names)
  }

  ghost predicate CredentialTagsAvoid(rows: seq<TagRow>, names: set<string>) {
    forall row | row in rows && row.resourceType == "credential" :: row.key !in names
  }

  ghost predicate OtherTagsAvoid(rows: seq<TagRow>, names: set<string>) {
    forall row | row in rows && row.resourceType != "credential" :: row.key !in names
  }

  /** The new names are unused, and the old ones occur in policies and credential tags only. */
  ghost predicate ReadyFor(rename: Rename, rows: seq<TagRow>, policies: seq<Policy>, attributes: set<Pair>) {
    && PairsAvoid(attributes, rename.Keys + rename.Values)
    && CredentialTagsAvoid(rows, rename.Values)
    && OtherTagsAvoid(rows, rename.Keys + rename.Values)
    && PoliciesAvoid(policies, rename.Values)
  }

  // --------------------------------------------------------- decisions preserved

  ghost function RenamePairs(rename: Rename, pairs: set<Pair>): set<Pair> {
    set p | p in pairs :: (NewKey(rename, p.0), p.1)
  }

  ghost function RenameSides(rename: Rename, sides: Sides): Sides {
    Sides(RenamePairs(rename, sides.identity), RenamePairs(rename, sides.resource), RenamePairs(rename, sides.app))
  }

  lemma RenamedMember(rename: Rename, pairs: set<Pair>, k: string, v: string)
    requires Clean(rename) && PairsAvoid(pairs, rename.Values) && k !in rename.Values
    ensures (NewKey(rename, k), v) in RenamePairs(rename, pairs) <==> (k, v) in pairs
  {
    if (k, v) in pairs {
      assert (NewKey(rename, (k, v).0), (k, v).1) in RenamePairs(rename, pairs);
    }
    if p :| p in pairs && (NewKey(rename, p.0), p.1) == (NewKey(rename, k), v) {
      assert p == (p.0, p.1);
    }
  }

  lemma RenamedUnused(rename: Rename, pairs: set<Pair>)
    requires PairsAvoid(pairs, rename.Keys)
    ensures RenamePairs(rename, pairs) == pairs
  {
    forall p | p in pairs ensures (NewKey(rename, p.0), p.1) == p {}
  }

  lemma RewrittenReference(rename: Rename, value: Field)
    requires Clean(rename)
    ensures ParseReference(value).Some? ==>
            ParseReference(RewriteValue(rename, value)) ==
            Some(Reference(ParseReference(value).value.side, NewKey(rename, ParseReference(value).value.key)))
    ensures ParseReference(value).None? ==> RewriteValue(rename, value) == value
  {
    if value.Text? {
      match SplitReference(value.text)
      case Some(ref) =>
        SplitReferenceIff(value.text, ref);
        if ref.key in rename {
          ParseReferenceIff(value, ref);
          ParseReferenceIff(RewriteValue(rename, value), Reference(ref.side, rename[ref.key]));
        }
      case None =>
    }
  }

  lemma ClausePreserved(rename: Rename, c: Condition, self: set<Pair>, sides: Sides)
    requires Clean(rename) && ConditionAvoids(c, rename.Values) && PairsAvoid(self, rename.Values)
    requires forall side :: PairsAvoid(sides.On(side), rename.Values)
    ensures ClauseHolds(RewriteCondition(rename, c), RenamePairs(rename, self), RenameSides(rename, sides)) ==
            ClauseHolds(c, self, sides)
  {
    if c.key.Text? {
      RewrittenReference(rename, c.value);
      match ParseReference(c.value)
      case None =>
        if c.value.Text? {
          RenamedMember(rename, self, c.key.text, c.value.text);
        }
      case Some(ref) =>
        var offered := sides.On(ref.side);
        assert RenameSides(rename, sides).On(ref.side) == RenamePairs(rename, offered);
        forall v ensures (NewKey(rename, ref.key), v) in RenamePairs(rename, offered) <==> (ref.key, v) in offered {
          RenamedMember(rename, offered, ref.key, v);
        }
        forall v ensures (NewKey(rename, c.key.text), v) in RenamePairs(rename, self) <==> (c.key.text, v) in self {
          RenamedMember(rename, self, c.key.text, v);
        }
    }
  }

  lemma WildcardPreserved(rename: Rename, conditions: seq<Condition>)
    requires Clean(rename)
    ensures IsWildcard(RewriteAll(rename, conditions)) == IsWildcard(conditions)
  {
    assert !IsKeyName("*") by { assert !IsKeyChar("*"[0]); }
    if |conditions| == 1 {
      RewrittenReference(rename, conditions[0].value);
      if ParseReference(conditions[0].value).Some? {
        var ref := ParseReference(conditions[0].value).value;
        ParseReferenceIff(conditions[0].value, ref);
        var value := RewriteValue(rename, conditions[0].value);
        ParseReferenceIff(value, ParseReference(value).value);
      }
    }
  }

  lemma ConditionsPreserved(rename: Rename, conditions: seq<Condition>, self: set<Pair>, sides: Sides)
    requires Clean(rename) && PairsAvoid(self, rename.Values)
    requires forall c | c in conditions :: ConditionAvoids(c, rename.Values)
    requires forall side :: PairsAvoid(sides.On(side), rename.Values)
    ensures ConditionsHold(RewriteAll(rename, conditions), RenamePairs(rename, self), RenameSides(rename, sides)) ==
            ConditionsHold(conditions, self, sides)
  {
    WildcardPreserved(rename, conditions);
    var rewritten := RewriteAll(rename, conditions);
    forall i | 0 <= i < |conditions|
      ensures ClauseHolds(rewritten[i], RenamePairs(rename, self), RenameSides(rename, sides)) ==
              ClauseHolds(conditions[i], self, sides)
    {
      ClausePreserved(rename, conditions[i], self, sides);
    }
  }

  /** Renaming a policy together with every side it reads never changes whether it matches. */
  lemma MatchPreserved(rename: Rename, p: Policy, attributes: set<Pair>, tags: set<Pair>, app: set<Pair>)
    requires Clean(rename) && PolicyAvoids(p, rename.Values)
    requires PairsAvoid(attributes, rename.Values) && PairsAvoid(tags, rename.Values) && PairsAvoid(app, rename.Values)
    ensures MatchesFor(RewritePolicy(rename, p), RenamePairs(rename, attributes), RenamePairs(rename, tags),
                       RenamePairs(rename, app)) ==
            MatchesFor(p, attributes, tags, app)
  {
    assert RenamePairs(rename, {}) == {};
    ConditionsPreserved(rename, p.identityConditions, attributes, Sides({}, tags, app));
    ConditionsPreserved(rename, p.resourceConditions, tags, Sides(attributes, {}, app));
  }

  /** Matched policies that correspond one to one, with the same actions, decide the same. */
  lemma ImageDecides(rename: Rename, before: set<Policy>, after: set<Policy>, action: string)
    requires after == set p | p in before :: RewritePolicy(rename, p)
    ensures Decides(after, action) == Decides(before, action)
  {
    forall p | p in before
      ensures RewritePolicy(rename, p) in after
      ensures Grants(RewritePolicy(rename, p), action) == Grants(p, action)
      ensures Denies(RewritePolicy(rename, p), action) == Denies(p, action)
    {}
  }

  lemma RewrittenMembers(rename: Rename, policies: seq<Policy>)
    ensures forall q :: q in RewritePolicies(rename, policies) <==>
                        exists p | p in policies :: q == RewritePolicy(rename, p)
  {
    var rewritten := RewritePolicies(rename, policies);
    forall p | p in policies ensures RewritePolicy(rename, p) in rewritten {
      var i :| 0 <= i < |policies| && policies[i] == p;
      assert rewritten[i] == RewritePolicy(rename, p);
    }
  }

  lemma UseDecisionPreserved(rename: Rename, policies: seq<Policy>, attributes: set<Pair>, tags: set<Pair>,
                             app: set<Pair>, action: string)
    requires Clean(rename) && PoliciesAvoid(policies, rename.Values)
    requires PairsAvoid(attributes, rename.Values) && PairsAvoid(tags, rename.Values) && PairsAvoid(app, rename.Values)
    ensures Decides(MatchingFor(RewritePolicies(rename, policies), RenamePairs(rename, attributes),
                                RenamePairs(rename, tags), RenamePairs(rename, app)), action) ==
            Decides(MatchingFor(policies, attributes, tags, app), action)
  {
    var before := MatchingFor(policies, attributes, tags, app);
    var after := MatchingFor(RewritePolicies(rename, policies), RenamePairs(rename, attributes),
                             RenamePairs(rename, tags), RenamePairs(rename, app));
    RewrittenMembers(rename, policies);
    forall p | p in policies { MatchPreserved(rename, p, attributes, tags, app); }
    assert forall p | p in policies :: RewritePolicy(rename, p) in after <==> p in before;
    ImageDecides(rename, before, after, action);
  }

  /** An app-less match is the plain engine's match. */
  lemma PlainMatching(policies: seq<Policy>, attributes: set<Pair>, tags: set<Pair>)
    ensures MatchingPolicies(policies, attributes, tags) == MatchingFor(policies, attributes, tags, {})
  {}

  lemma MigratedTags(rename: Rename, rows: seq<TagRow>, resourceType: string, resourceId: int)
    requires OtherTagsAvoid(rows, rename.Keys)
    ensures TagsOf(RenameTags(rename, rows), resourceType, resourceId) ==
            RenamePairs(rename, TagsOf(rows, resourceType, resourceId))
  {
    var after := RenameTags(rename, rows);
    forall pair | pair in RenamePairs(rename, TagsOf(rows, resourceType, resourceId))
      ensures pair in TagsOf(after, resourceType, resourceId)
    {
      var p :| p in TagsOf(rows, resourceType, resourceId) && pair == (NewKey(rename, p.0), p.1);
      var row :| row in rows && row.resourceType == resourceType && row.resourceId == resourceId &&
                 (row.key, row.value) == p;
      var i :| 0 <= i < |rows| && rows[i] == row;
      assert after[i] in after;
    }
    forall pair | pair in TagsOf(after, resourceType, resourceId)
      ensures pair in RenamePairs(rename, TagsOf(rows, resourceType, resourceId))
    {
      var row :| row in after && row.resourceType == resourceType && row.resourceId == resourceId &&
                 (row.key, row.value) == pair;
      var i :| 0 <= i < |after| && after[i] == row;
      assert rows[i] in rows;
      assert (rows[i].key, rows[i].value) in TagsOf(rows, resourceType, resourceId);
    }
  }

  /** The migration preserves every decision of the engine: on any resource of any type, without a resource,
      and for a shared credential requested by any app. */
  lemma MigrationPreservesDecisions(rename: Rename, rows: seq<TagRow>, policies: seq<Policy>, attributes: set<Pair>,
                                    resourceType: string, resourceId: int, app: int, workspace: int, action: string)
    requires Clean(rename) && ReadyFor(rename, rows, policies, attributes)
    ensures Allows(RewritePolicies(rename, policies), attributes,
                   TagsOf(RenameTags(rename, rows), resourceType, resourceId), action) ==
            Allows(policies, attributes, TagsOf(rows, resourceType, resourceId), action)
    ensures Allows(RewritePolicies(rename, policies), attributes,
                   EffectiveAppTags(RenameTags(rename, rows), app, workspace), action) ==
            Allows(policies, attributes, EffectiveAppTags(rows, app, workspace), action)
    ensures AllowsUse(RewritePolicies(rename, policies), attributes,
                      TagsOf(RenameTags(rename, rows), resourceType, resourceId),
                      EffectiveAppTags(RenameTags(rename, rows), app, workspace)) ==
            AllowsUse(policies, attributes, TagsOf(rows, resourceType, resourceId),
                      EffectiveAppTags(rows, app, workspace))
  {
    var tags, appTags := TagsOf(rows, resourceType, resourceId), EffectiveAppTags(rows, app, workspace);
    RenamedUnused(rename, attributes);
    MigratedTags(rename, rows, resourceType, resourceId);
    MigratedTags(rename, rows, "app", app);
    MigratedTags(rename, rows, "workspace", workspace);
    assert EffectiveAppTags(RenameTags(rename, rows), app, workspace) == RenamePairs(rename, appTags);
    assert RenamePairs(rename, {}) == {};
    UseDecisionPreserved(rename, policies, attributes, tags, {}, action);
    UseDecisionPreserved(rename, policies, attributes, appTags, {}, action);
    UseDecisionPreserved(rename, policies, attributes, tags, appTags, USE);
    PlainMatching(policies, attributes, tags);
    PlainMatching(policies, attributes, appTags);
    PlainMatching(RewritePolicies(rename, policies), attributes, RenamePairs(rename, tags));
    PlainMatching(RewritePolicies(rename, policies), attributes, RenamePairs(rename, appTags));
  }

  lemma MigrationPreservesUnscoped(rename: Rename, policies: seq<Policy>, attributes: set<Pair>, action: string)
    requires Clean(rename) && PoliciesAvoid(policies, rename.Values)
    requires PairsAvoid(attributes, rename.Keys + rename.Values)
    ensures AllowsUnscoped(RewritePolicies(rename, policies), attributes, action) ==
            AllowsUnscoped(policies, attributes, action)
  {
    var rewritten := RewritePolicies(rename, policies);
    var before := set p | p in policies && MatchesUnscoped(p, attributes);
    var after := set p | p in rewritten && MatchesUnscoped(p, attributes);
    RenamedUnused(rename, attributes);
    RewrittenMembers(rename, policies);
    assert RenameSides(rename, NO_SIDES) == NO_SIDES;
    forall p | p in policies
      ensures MatchesUnscoped(RewritePolicy(rename, p), attributes) == MatchesUnscoped(p, attributes)
    {
      ConditionsPreserved(rename, p.identityConditions, attributes, NO_SIDES);
      WildcardPreserved(rename, p.resourceConditions);
    }
    assert forall p | p in policies :: RewritePolicy(rename, p) in after <==> p in before;
    ImageDecides(rename, before, after, action);
  }

  // -------------------------------------------------------------- lists preserved

  lemma ResourceReferencePreserved(rename: Rename, conditions: seq<Condition>)
    requires Clean(rename)
    ensures HasResourceReference(RewriteAll(rename, conditions)) == HasResourceReference(conditions)
  {
    var rewritten := RewriteAll(rename, conditions);
    forall i | 0 <= i < |conditions| ensures RefersTo(rewritten[i], Resource) == RefersTo(conditions[i], Resource) {
      RewrittenReference(rename, conditions[i].value);
    }
    if c :| c in conditions && RefersTo(c, Resource) {
      var i :| 0 <= i < |conditions| && conditions[i] == c;
      assert rewritten[i] in rewritten;
    }
    if c :| c in rewritten && RefersTo(c, Resource) {
      var i :| 0 <= i < |rewritten| && rewritten[i] == c;
      assert conditions[i] in conditions;
    }
  }

  /** The pre-filter and the wildcard test treat a policy and its renamed form alike. */
  lemma KeptPreserved(rename: Rename, p: Policy, attributes: set<Pair>)
    requires Clean(rename) && PolicyAvoids(p, rename.Values) && PairsAvoid(attributes, rename.Keys + rename.Values)
    ensures Kept(RewritePolicy(rename, p), attributes) == Kept(p, attributes)
    ensures SettledWildcard(RewritePolicy(rename, p), attributes) == SettledWildcard(p, attributes)
    ensures IsWildcard(RewritePolicy(rename, p).resourceConditions) == IsWildcard(p.resourceConditions)
  {
    RenamedUnused(rename, attributes);
    assert RenameSides(rename, NO_SIDES) == NO_SIDES;
    ResourceReferencePreserved(rename, p.identityConditions);
    ConditionsPreserved(rename, p.identityConditions, attributes, NO_SIDES);
    WildcardPreserved(rename, p.resourceConditions);
  }

  lemma ShortcutPreserved(rename: Rename, policies: seq<Policy>, attributes: set<Pair>, action: string)
    requires Clean(rename) && PoliciesAvoid(policies, rename.Values)
    requires PairsAvoid(attributes, rename.Keys + rename.Values)
    ensures TakesShortcut(RewritePolicies(rename, policies), attributes, action) ==
            TakesShortcut(policies, attributes, action)
  {
    var rewritten := RewritePolicies(rename, policies);
    var before := set p | p in policies && SettledWildcard(p, attributes);
    var after := set p | p in rewritten && SettledWildcard(p, attributes);
    RewrittenMembers(rename, policies);
    forall p | p in policies { KeptPreserved(rename, p, attributes); }
    assert forall p | p in policies :: RewritePolicy(rename, p) in after <==> p in before;
    ImageDecides(rename, before, after, action);
  }

  /** The resources with the given keys, as the filter sees them. */
  ghost function Tagged(pks: seq<int>, tagsOf: int -> set<Pair>): seq<TaggedResource> {
    seq(|pks|, i requires 0 <= i < |pks| => TaggedResource(pks[i], tagsOf(pks[i])))
  }

  ghost function KeysOf(resources: seq<TaggedResource>): seq<int> {
    seq(|resources|, i requires 0 <= i < |resources| => resources[i].pk)
  }

  /** Selecting tagged resources by their tags is selecting their keys. */
  lemma {:induction false} KeysOfSelected(pks: seq<int>, tagsOf: int -> set<Pair>, keep: set<Pair> -> bool)
    ensures KeysOf(Select(Tagged(pks, tagsOf), (r: TaggedResource) => keep(r.tags))) ==
            Select(pks, (pk: int) => keep(tagsOf(pk)))
  {
    if pks == [] {
    } else {
      KeysOfSelected(pks[1..], tagsOf, keep);
      assert Tagged(pks, tagsOf)[1..] == Tagged(pks[1..], tagsOf);
    }
  }

  /** The list filter returns the same resources in the same order before and after the migration, its early
      return included. */
  lemma MigrationPreservesFilter(rename: Rename, policies: seq<Policy>, attributes: set<Pair>, pks: seq<int>,
                                 tagsOf: int -> set<Pair>, renamedTagsOf: int -> set<Pair>, action: string)
    requires Clean(rename) && PoliciesAvoid(policies, rename.Values)
    requires PairsAvoid(attributes, rename.Keys + rename.Values)
    requires forall pk :: PairsAvoid(tagsOf(pk), rename.Values) && renamedTagsOf(pk) == RenamePairs(rename, tagsOf(pk))
    ensures KeysOf(FilterResult(RewritePolicies(rename, policies), attributes, Tagged(pks, renamedTagsOf), action)) ==
            KeysOf(FilterResult(policies, attributes, Tagged(pks, tagsOf), action))
  {
    var rewritten := RewritePolicies(rename, policies);
    ShortcutPreserved(rename, policies, attributes, action);
    if TakesShortcut(policies, attributes, action) {
      assert KeysOf(Tagged(pks, renamedTagsOf)) == pks == KeysOf(Tagged(pks, tagsOf));
    } else {
      RenamedUnused(rename, attributes);
      assert RenamePairs(rename, {}) == {};
      forall pk ensures Allows(rewritten, attributes, renamedTagsOf(pk), action) ==
                        Allows(policies, attributes, tagsOf(pk), action)
      {
        UseDecisionPreserved(rename, policies, attributes, tagsOf(pk), {}, action);
        PlainMatching(policies, attributes, tagsOf(pk));
        PlainMatching(rewritten, attributes, renamedTagsOf(pk));
      }
      SelectedBefore(policies, attributes, pks, tagsOf, action);
      SelectedBefore(rewritten, attributes, pks, renamedTagsOf, action);
      SelectAgrees(pks, (pk: int) => Allows(policies, attributes, tagsOf(pk), action),
                   (pk: int) => Allows(rewritten, attributes, renamedTagsOf(pk), action));
    }
  }

  lemma SelectedBefore(policies: seq<Policy>, attributes: set<Pair>, pks: seq<int>, tagsOf: int -> set<Pair>,
                       action: string)
    ensures KeysOf(Permitted(policies, attributes, Tagged(pks, tagsOf), action)) ==
            Select(pks, (pk: int) => Allows(policies, attributes, tagsOf(pk), action))
  {
    var keep := (tags: set<Pair>) => Allows(policies, attributes, tags, action);
    KeysOfSelected(pks, tagsOf, keep);
    SelectAgrees(Tagged(pks, tagsOf), (r: TaggedResource) => keep(r.tags),
                 (r: TaggedResource) => Allows(policies, attributes, r.tags, action));
    SelectAgrees(pks, (pk: int) => keep(tagsOf(pk)),
                 (pk: int) => Allows(policies, attributes, tagsOf(pk), action));
  }

  /** The credentials with the given ids, as the credential filter sees them. */
  ghost function CredentialsOf(ids: seq<int>, tagsOf: int -> set<Pair>): seq<Credential> {
    seq(|ids|, i requires 0 <= i < |ids| => Credential(ids[i], tagsOf(ids[i])))
  }

  ghost function IdsOf(credentials: seq<Credential>): seq<int> {
    seq(|credentials|, i requires 0 <= i < |credentials| => credentials[i].id)
  }

  lemma {:induction false} IdsOfUsable(policies: seq<Policy>, attributes: set<Pair>, app: set<Pair>, ids: seq<int>,
                                       tagsOf: int -> set<Pair>)
    ensures IdsOf(Usable(policies, attributes, app, CredentialsOf(ids, tagsOf))) ==
            Select(ids, (id: int) => AllowsUse(policies, attributes, tagsOf(id), app))
  {
    if ids == [] {
    } else {
      IdsOfUsable(policies, attributes, app, ids[1..], tagsOf);
      assert CredentialsOf(ids, tagsOf)[1..] == CredentialsOf(ids[1..], tagsOf);
    }
  }

  /** So does the credential filter, for any app. */
  lemma MigrationPreservesUsable(rename: Rename, policies: seq<Policy>, attributes: set<Pair>, app: set<Pair>,
                                 ids: seq<int>, tagsOf: int -> set<Pair>, renamedTagsOf: int -> set<Pair>)
    requires Clean(rename) && PoliciesAvoid(policies, rename.Values)
    requires PairsAvoid(attributes, rename.Keys + rename.Values) && PairsAvoid(app, rename.Values)
    requires forall id :: PairsAvoid(tagsOf(id), rename.Values) && renamedTagsOf(id) == RenamePairs(rename, tagsOf(id))
    ensures IdsOf(Usable(RewritePolicies(rename, policies), attributes, RenamePairs(rename, app),
                         CredentialsOf(ids, renamedTagsOf))) ==
            IdsOf(Usable(policies, attributes, app, CredentialsOf(ids, tagsOf)))
  {
    var rewritten, renamedApp := RewritePolicies(rename, policies), RenamePairs(rename, app);
    RenamedUnused(rename, attributes);
    forall id ensures AllowsUse(rewritten, attributes, renamedTagsOf(id), renamedApp) ==
                      AllowsUse(policies, attributes, tagsOf(id), app)
    {
      UseDecisionPreserved(rename, policies, attributes, tagsOf(id), app, USE);
    }
    IdsOfUsable(policies, attributes, app, ids, tagsOf);
    IdsOfUsable(rewritten, attributes, renamedApp, ids, renamedTagsOf);
    SelectAgrees(ids, (id: int) => AllowsUse(policies, attributes, tagsOf(id), app),
                 (id: int) => AllowsUse(rewritten, attributes, renamedTagsOf(id), renamedApp));
  }

  lemma TagsAvoidNewNames(rename: Rename, rows: seq<TagRow>, policies: seq<Policy>, attributes: set<Pair>,
                          resourceType: string, resourceId: int)
    requires ReadyFor(rename, rows, policies, attributes)
    ensures PairsAvoid(TagsOf(rows, resourceType, resourceId), rename.Values)
  {}

  /** On the migrated tables, both list queries return the same rows in the same order: workspaces and
      environments by their own tags, apps by their effective tags, credentials for any requesting app. */
  lemma MigrationPreservesLists(rename: Rename, rows: seq<TagRow>, policies: seq<Policy>, attributes: set<Pair>,
                                resourceType: string, pks: seq<int>, workspaceOf: int -> int, app: int, action: string)
    requires Clean(rename) && ReadyFor(rename, rows, policies, attributes)
    ensures var after, migrated := RenameTags(rename, rows), RewritePolicies(rename, policies);
            && KeysOf(FilterResult(migrated, attributes, Tagged(pks, pk => TagsOf(after, resourceType, pk)), action)) ==
               KeysOf(FilterResult(policies, attributes, Tagged(pks, pk => TagsOf(rows, resourceType, pk)), action))
            && KeysOf(FilterResult(migrated, attributes,
                                   Tagged(pks, pk => EffectiveAppTags(after, pk, workspaceOf(pk))), action)) ==
               KeysOf(FilterResult(policies, attributes,
                                   Tagged(pks, pk => EffectiveAppTags(rows, pk, workspaceOf(pk))), action))
            && IdsOf(Usable(migrated, attributes, EffectiveAppTags(after, app, workspaceOf(app)),
                            CredentialsOf(pks, pk => TagsOf(after, "credential", pk)))) ==
               IdsOf(Usable(policies, attributes, EffectiveAppTags(rows, app, workspaceOf(app)),
                            CredentialsOf(pks, pk => TagsOf(rows, "credential", pk))))
  {
    var after := RenameTags(rename, rows);
    forall t, pk ensures PairsAvoid(TagsOf(rows, t, pk), rename.Values)
                 ensures TagsOf(after, t, pk) == RenamePairs(rename, TagsOf(rows, t, pk))
    {
      TagsAvoidNewNames(rename, rows, policies, attributes, t, pk);
      MigratedTags(rename, rows, t, pk);
    }
    forall pk, workspace ensures PairsAvoid(EffectiveAppTags(rows, pk, workspace), rename.Values)
                         ensures EffectiveAppTags(after, pk, workspace) ==
                                 RenamePairs(rename, EffectiveAppTags(rows, pk, workspace))
    {}
    MigrationPreservesFilter(rename, policies, attributes, pks, pk => TagsOf(rows, resourceType, pk),
                             pk => TagsOf(after, resourceType, pk), action);
    MigrationPreservesFilter(rename, policies, attributes, pks, pk => EffectiveAppTags(rows, pk, workspaceOf(pk)),
                             pk => EffectiveAppTags(after, pk, workspaceOf(pk)), action);
    MigrationPreservesUsable(rename, policies, attributes, EffectiveAppTags(rows, app, workspaceOf(app)), pks,
                             pk => TagsOf(rows, "credential", pk), pk => TagsOf(after, "credential", pk));
  }

  /** A policy of one literal identity clause, granting one action on every resource. */
  function LiteralPolicy(key: string, value: string, action: string): Policy {
    Policy("app", [Condition(Text(key), Text(value))], [WILDCARD], [action])
  }

  lemma LiteralPolicyIff(key: string, value: string, action: string, attributes: set<Pair>)
    requires ParseReference(Text(value)) == None && key != "*" && !IsDeny(action)
    ensures Allows([LiteralPolicy(key, value, action)], attributes, {}, action) <==> (key, value) in attributes
  {
    var p := LiteralPolicy(key, value, action);
    SingleClause(p.identityConditions[0], attributes, Sides({}, {}, {}));
    assert Matches(p, attributes, {}) <==> (key, value) in attributes;
    assert action in p.actions && Grants(p, action);
    assert |"!" + action| > |action| && !Denies(p, action);
    assert forall q :: q in MatchingPolicies([p], attributes, {}) <==> q == p && (key, value) in attributes;
  }

  /** An identity attribute stored under an old name is left behind: the policy that read it stops matching. */
  lemma RenamedAttributeLosesAccess()
    returns (policies: seq<Policy>, attributes: set<Pair>)
    ensures PoliciesAvoid(policies, RENAME.Values) && PairsAvoid(attributes, RENAME.Values)
    ensures Allows(policies, attributes, {}, "app:use")
    ensures !Allows(RewritePolicies(RENAME, policies), attributes, {}, "app:use")
  {
    RenameIsClean();
    var p := LiteralPolicy("shared-user", "eve", "app:use");
    var renamed := LiteralPolicy("shared-with-user", "eve", "app:use");
    policies, attributes := [p], {("shared-user", "eve")};
    PlainValue("eve");
    LiteralPolicyIff("shared-user", "eve", "app:use", attributes);
    LiteralPolicyIff("shared-with-user", "eve", "app:use", attributes);
    StarIsPlain();
    assert |"shared-with-user"| != |"shared-user"|;
    assert "shared-user" in RENAME && "shared-user" !in RENAME.Values;
    assert RewritePolicy(RENAME, p) == renamed by {
      assert RewriteAll(RENAME, p.identityConditions) == renamed.identityConditions;
      assert RewriteAll(RENAME, p.resourceConditions) == renamed.resourceConditions;
    }
    assert RewritePolicies(RENAME, policies) == [renamed];
  }

  lemma StarIsPlain()
    ensures "*" !in RENAME && "*" !in RENAME.Values && SplitReference("*") == None && SplitReference("eve") == None
  {
    RenameIsClean();
    assert !IsKeyChar("*"[0]) && !IsKeyName("*");
    PlainValue("*");
    assert SidePrefix(Identity)[0] == SidePrefix(Resource)[0] == SidePrefix(App)[0] == '$';
  }

  // --------------------------------------------------------- the old names are gone

  lemma RewrittenConditionAvoids(rename: Rename, c: Condition)
    requires Clean(rename)
    ensures ConditionAvoids(RewriteCondition(rename, c), rename.Keys)
  {
    if c.key.Text? && c.key.text in rename {
      assert rename[c.key.text] in rename.Values;
    }
    if c.value.Text? && SplitReference(c.value.text).Some? {
      var ref := SplitReference(c.value.text).value;
      if ref.key in rename {
        assert rename[ref.key] in rename.Values;
        SplitReferenceIff(ReferenceText(ref.side, rename[ref.key]), Reference(ref.side, rename[ref.key]));
      }
    }
  }

  /** After the migration no policy and no credential tag uses an old name. */
  lemma OldNamesAreGone(rename: Rename, rows: seq<TagRow>, policies: seq<Policy>)
    requires Clean(rename)
    ensures PoliciesAvoid(RewritePolicies(rename, policies), rename.Keys)
    ensures CredentialTagsAvoid(RenameTags(rename, rows), rename.Keys)
  {
    forall c { RewrittenConditionAvoids(rename, c); }
    forall row | row in RenameTags(rename, rows) && row.resourceType == "credential" ensures row.key !in rename.Keys {
      var i :| 0 <= i < |rows| && RenameRow(rename, rows[i]) == row;
      if rows[i].key in rename {
        assert rename[rows[i].key] in rename.Values;
      }
    }
  }

  // ------------------------------------------------------------------ round trip

  lemma KeyRoundTripIff(rename: Rename, key: string)
    requires Clean(rename)
    ensures NewKey(Inverse(rename), NewKey(rename, key)) == key <==> key !in rename.Values
  {
    InverseIsClean(rename);
    if key in rename {
      assert Inverse(rename)[rename[key]] == key;
    } else if key in rename.Values {
      assert Inverse(rename)[key] in rename.Keys;
    }
  }

  lemma ValueRoundTripIff(rename: Rename, value: Field)
    requires Clean(rename)
    ensures RewriteValue(Inverse(rename), RewriteValue(rename, value)) == value <==>
            !(value.Text? && SplitReference(value.text).Some? && SplitReference(value.text).value.key in rename.Values)
  {
    InverseIsClean(rename);
    if value.Text? && SplitReference(value.text).Some? {
      var ref := SplitReference(value.text).value;
      SplitReferenceIff(value.text, ref);
      KeyRoundTripIff(rename, ref.key);
      var once := Reference(ref.side, NewKey(rename, ref.key));
      SplitReferenceIff(ReferenceText(once.side, once.key), once);
      var twice := Reference(ref.side, NewKey(Inverse(rename), once.key));
      SplitReferenceIff(ReferenceText(twice.side, twice.key), twice);
    }
  }

  lemma ConditionsRoundTripIff(rename: Rename, conditions: seq<Condition>)
    requires Clean(rename)
    ensures RewriteAll(Inverse(rename), RewriteAll(rename, conditions)) == conditions <==>
            forall c | c in conditions :: ConditionAvoids(c, rename.Values)
  {
    var back := RewriteAll(Inverse(rename), RewriteAll(rename, conditions));
    forall i | 0 <= i < |conditions|
      ensures back[i] == conditions[i] <==> ConditionAvoids(conditions[i], rename.Values)
    {
      ValueRoundTripIff(rename, conditions[i].value);
      if conditions[i].key.Text? {
        KeyRoundTripIff(rename, conditions[i].key.text);
      }
    }
    if back == conditions {
      forall c | c in conditions ensures ConditionAvoids(c, rename.Values) {
        var i :| 0 <= i < |conditions| && conditions[i] == c;
        assert back[i] == conditions[i];
      }
    }
  }

  lemma PolicyRoundTripIff(rename: Rename, p: Policy)
    requires Clean(rename)
    ensures RewritePolicy(Inverse(rename), RewritePolicy(rename, p)) == p <==> PolicyAvoids(p, rename.Values)
  {
    ConditionsRoundTripIff(rename, p.identityConditions);
    ConditionsRoundTripIff(rename, p.resourceConditions);
  }

  /** Migrating back restores every policy and tag exactly when no policy and no credential tag used a
      new name beforehand. */
  lemma BackwardUndoesForwardIff(rename: Rename, rows: seq<TagRow>, policies: seq<Policy>)
    requires Clean(rename)
    ensures RewritePolicies(Inverse(rename), RewritePolicies(rename, policies)) == policies <==>
            PoliciesAvoid(policies, rename.Values)
    ensures RenameTags(Inverse(rename), RenameTags(rename, rows)) == rows <==> CredentialTagsAvoid(rows, rename.Values)
  {
    var policiesBack := RewritePolicies(Inverse(rename), RewritePolicies(rename, policies));
    forall i | 0 <= i < |policies|
      ensures policiesBack[i] == policies[i] <==> PolicyAvoids(policies[i], rename.Values)
    {
      PolicyRoundTripIff(rename, policies[i]);
    }
    if policiesBack == policies {
      forall p | p in policies ensures PolicyAvoids(p, rename.Values) {
        var i :| 0 <= i < |policies| && policies[i] == p;
        assert policiesBack[i] == policies[i];
      }
    }
    var rowsBack := RenameTags(Inverse(rename), RenameTags(rename, rows));
    forall i | 0 <= i < |rows|
      ensures rowsBack[i] == rows[i] <==> !(rows[i].resourceType == "credential" && rows[i].key in rename.Values)
    {
      KeyRoundTripIff(rename, rows[i].key);
    }
    if rowsBack == rows {
      forall row | row in rows && row.resourceType == "credential" ensures row.key !in rename.Values {
        var i :| 0 <= i < |rows| && rows[i] == row;
        assert rowsBack[i] == rows[i];
      }
    }
  }

  // ------------------------------------------------- databases older than the rename

  lemma RenameEntries()
    ensures NewKey(RENAME, "shared-scope") == "sharing-scope"
    ensures NewKey(RENAME, "shared-user") == "shared-with-user"
    ensures NewKey(RENAME, "shared-workspace") == "shared-with-workspace"
  {
    assert |"shared-scope"| == 12 && |"shared-user"| == 11 && |"shared-workspace"| == 16;
  }

  /** The tag rows of a shared credential under the old names. */
  function LegacyRows(credential: int, s: Sharing): seq<TagRow> {
    [TagRow("credential", credential, "shared-scope", ScopeValue(s.scope))] +
    if s.scope == User && s.targetUser.Some? then
      [TagRow("credential", credential, "shared-user", s.targetUser.value)]
    else if s.scope == Workspace && s.targetWorkspace.Some? then
      [TagRow("credential", credential, "shared-workspace", s.targetWorkspace.value)]
    else []
  }

  /** Migrated tags are the tags a save would write today. */
  lemma LegacyRowsBecomeCurrent(credential: int, s: Sharing)
    ensures RenameTags(RENAME, LegacyRows(credential, s)) == SharingRows(credential, s)
  {
    RenameEntries();
    var rows, current := LegacyRows(credential, s), SharingRows(credential, s);
    forall i | 0 <= i < |rows| ensures RenameRow(RENAME, rows[i]) == current[i] {}
  }
}

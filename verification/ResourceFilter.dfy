/** The optimised list filter, and exactly how far it agrees with the per-resource evaluator. */
module ResourceFilter {
  import opened Common
  import opened Conditions
  import opened Policies

  datatype TaggedResource = TaggedResource(pk: int, tags: set<Pair>)

  ghost predicate UniqueKeys(queryset: seq<TaggedResource>) {
    forall i, j | 0 <= i < j < |queryset| :: queryset[i].pk != queryset[j].pk
  }

  predicate HasResourceReference(conditions: seq<Condition>) {
    exists c :: c in conditions && RefersTo(c, Resource)
  }

  // ------------------------------------------------------ what the filter decides by

  /** The pre-filter keeps policies decided by identity alone and those it must defer. */
  ghost predicate Kept(p: Policy, attributes: set<Pair>) {
    HasResourceReference(p.identityConditions) || ConditionsHold(p.identityConditions, attributes, NO_SIDES)
  }

  ghost predicate SettledWildcard(p: Policy, attributes: set<Pair>) {
    Kept(p, attributes) && IsWildcard(p.resourceConditions) && !HasResourceReference(p.identityConditions)
  }

  predicate HasDenial(p: Policy) {
    exists a :: a in p.actions && IsDeny(a)
  }

  /** The early return is taken: some wildcard policy settles the action and no scoped policy denies anything. */
  ghost predicate TakesShortcut(policies: seq<Policy>, attributes: set<Pair>, action: string) {
    Decides((set p | p in policies && SettledWildcard(p, attributes)), action) &&
    forall p | p in policies && Kept(p, attributes) :: IsWildcard(p.resourceConditions) || !HasDenial(p)
  }

  ghost function Permitted(policies: seq<Policy>, attributes: set<Pair>, queryset: seq<TaggedResource>, action: string)
    : seq<TaggedResource>
  {
    Select(queryset, (r: TaggedResource) => Allows(policies, attributes, r.tags, action))
  }

  ghost function FilterResult(policies: seq<Policy>, attributes: set<Pair>, queryset: seq<TaggedResource>,
                              action: string)
    : seq<TaggedResource>
  {
    if TakesShortcut(policies, attributes, action) then queryset
    else Permitted(policies, attributes, queryset, action)
  }

  // ------------------------------------------------------------- the computation

  method PreFilter(policies: seq<Policy>, attributes: set<Pair>) returns (kept: seq<Policy>)
    ensures forall p :: p in kept <==> p in policies && Kept(p, attributes)
  {
    kept := [];
    for i := 0 to |policies|
      invariant forall p :: p in kept <==> p in policies[..i] && Kept(p, attributes)
    {
      var p := policies[i];
      assert policies[..i + 1] == policies[..i] + [p];
      if HasResourceReference(p.identityConditions) {
        kept := kept + [p];
      } else {
        var matched := ConditionsMatch(p.identityConditions, attributes, map[]);
        if matched {
          kept := kept + [p];
        }
      }
    }
  }

  method CheckShortcut(kept: seq<Policy>, ghost policies: seq<Policy>, attributes: set<Pair>, action: string)
    returns (taken: bool)
    requires forall p :: p in kept <==> p in policies && Kept(p, attributes)
    ensures taken == TakesShortcut(policies, attributes, action)
  {
    ghost var settled := set p | p in policies && SettledWildcard(p, attributes);
    if !exists p :: p in kept && IsWildcard(p.resourceConditions) {
      assert settled == {};
      return false;
    }
    var grants: set<string>, denials: set<string> := {}, {};
    ghost var matched: set<Policy> := {};
    for i := 0 to |kept|
      invariant matched == set p | p in kept[..i] && SettledWildcard(p, attributes)
      invariant Accumulates(matched, grants, denials)
    {
      var p := kept[i];
      assert kept[..i + 1] == kept[..i] + [p];
      if !IsWildcard(p.resourceConditions) || HasResourceReference(p.identityConditions) {
        continue;
      }
      grants, denials := CollectActions(p, matched, grants, denials);
      matched := matched + {p};
    }
    assert kept[..|kept|] == kept;
    assert matched == settled;
    var allowed := AllowedActions(matched, grants, denials);
    var hasScopedDenials := exists p :: p in kept && !IsWildcard(p.resourceConditions) && HasDenial(p);
    taken := action in allowed && !hasScopedDenials;
  }

  /** One resource evaluated against the kept policies only. */
  method EvaluateKept(kept: seq<Policy>, ghost policies: seq<Policy>, attributes: set<Pair>, attributeMap: SideMap,
                      tags: set<Pair>)
    returns (allowed: set<string>)
    requires forall p :: p in kept <==> p in policies && Kept(p, attributes)
    requires PairsOf(attributeMap) == attributes
    ensures forall a :: a in allowed <==> Allows(policies, attributes, tags, a)
  {
    var tagMap := BuildSideMap(tags);
    var grants: set<string>, denials: set<string> := {}, {};
    ghost var matched: set<Policy> := {};
    for i := 0 to |kept|
      invariant matched == MatchingPolicies(kept[..i], attributes, tags)
      invariant Accumulates(matched, grants, denials)
    {
      var p := kept[i];
      assert kept[..i + 1] == kept[..i] + [p];
      var identityMatch := ConditionsMatch(p.identityConditions, attributes, map[Resource := tagMap]);
      if !identityMatch {
        continue;
      }
      var resourceMatch := ConditionsMatch(p.resourceConditions, tags, map[Identity := attributeMap]);
      if !resourceMatch {
        continue;
      }
      grants, denials := CollectActions(p, matched, grants, denials);
      matched := matched + {p};
    }
    assert kept[..|kept|] == kept;
    PreFilterLosesNoMatch(kept, policies, attributes, tags);
    allowed := AllowedActions(matched, grants, denials);
  }

  method FilterPermittedResources(policies: seq<Policy>, attributes: set<Pair>, queryset: seq<TaggedResource>,
                                  action: string)
    returns (permitted: seq<TaggedResource>)
    requires UniqueKeys(queryset)
    ensures permitted == FilterResult(policies, attributes, queryset, action)
    // A scoped policy that may match this user and denies any action at all: every resource is evaluated.
    ensures (exists p ::
              p in policies && p.resourceConditions != [Condition(Text("*"), Text("*"))] &&
              (RefersToResource(p) || ConditionsHold(p.identityConditions, attributes, Sides({}, {}, {}))) &&
              exists a :: a in p.actions && a != "" && a[0] == '!') ==>
              permitted == Permitted(policies, attributes, queryset, action)
    // So it is if no policy open to this user on all resources grants the action, or one denies it.
    ensures (forall p | p in policies && p.resourceConditions == [Condition(Text("*"), Text("*"))] &&
                        !RefersToResource(p) &&
                        ConditionsHold(p.identityConditions, attributes, Sides({}, {}, {})) :: !Grants(p, action)) ==>
              permitted == Permitted(policies, attributes, queryset, action)
    ensures (exists p ::
              p in policies && p.resourceConditions == [Condition(Text("*"), Text("*"))] &&
              !RefersToResource(p) && ConditionsHold(p.identityConditions, attributes, Sides({}, {}, {})) &&
              "!" + action in p.actions) ==>
              permitted == Permitted(policies, attributes, queryset, action)
    // Otherwise everything is returned unseen.
    ensures && (exists p ::
                  p in policies && p.resourceConditions == [Condition(Text("*"), Text("*"))] &&
                  !RefersToResource(p) &&
                  ConditionsHold(p.identityConditions, attributes, Sides({}, {}, {})) && Grants(p, action))
            && (forall p | p in policies && p.resourceConditions == [Condition(Text("*"), Text("*"))] &&
                           !RefersToResource(p) &&
                           ConditionsHold(p.identityConditions, attributes, Sides({}, {}, {})) ::
                  "!" + action !in p.actions)
            && (forall p, a | p in policies && p.resourceConditions != [Condition(Text("*"), Text("*"))] &&
                              (RefersToResource(p) ||
                               ConditionsHold(p.identityConditions, attributes, Sides({}, {}, {}))) &&
                              a in p.actions && a != "" :: a[0] != '!') ==>
              permitted == queryset
  {
    EarlyReturnIff(policies, attributes, action);
    var attributeMap := BuildSideMap(attributes);
    var kept := PreFilter(policies, attributes);
    if kept == [] {
      NothingKeptNothingAllowed(policies, attributes, queryset, action);
      return [];
    }
    var shortcut := CheckShortcut(kept, policies, attributes, action);
    if shortcut {
      return queryset;
    }
    var permittedKeys: set<int> := {};
    for i := 0 to |queryset|
      invariant forall k :: k in permittedKeys <==>
                exists j | 0 <= j < i :: queryset[j].pk == k && Allows(policies, attributes, queryset[j].tags, action)
    {
      var r := queryset[i];
      var allowed := EvaluateKept(kept, policies, attributes, attributeMap, r.tags);
      if action in allowed {
        permittedKeys := permittedKeys + {r.pk};
      }
    }
    permitted := KeepKeys(queryset, permittedKeys);
    SelectAgrees(queryset, (r: TaggedResource) => r.pk in permittedKeys,
                 (r: TaggedResource) => Allows(policies, attributes, r.tags, action));
  }

  method KeepKeys(queryset: seq<TaggedResource>, keys: set<int>) returns (rows: seq<TaggedResource>)
    ensures rows == Select(queryset, (r: TaggedResource) => r.pk in keys)
  {
    rows := [];
    for i := 0 to |queryset|
      invariant rows == Select(queryset[..i], (r: TaggedResource) => r.pk in keys)
    {
      assert queryset[..i + 1] == queryset[..i] + [queryset[i]];
      SelectAppend(queryset[..i], queryset[i], (r: TaggedResource) => r.pk in keys);
      if queryset[i].pk in keys {
        rows := rows + [queryset[i]];
      }
    }
    assert queryset[..|queryset|] == queryset;
  }

  // ------------------------------------------------------- soundness of the steps

  lemma UndeferredIdentityIgnoresTags(p: Policy, attributes: set<Pair>, tags: set<Pair>)
    requires !HasResourceReference(p.identityConditions)
    ensures IdentityMatches(p, attributes, tags) == ConditionsHold(p.identityConditions, attributes, NO_SIDES)
  {
    UnreferencedSideIrrelevant(p.identityConditions, attributes, Sides({}, tags, {}), NO_SIDES);
  }

  /** Dropping the policies the pre-filter rejects changes no per-resource match. */
  lemma PreFilterLosesNoMatch(kept: seq<Policy>, policies: seq<Policy>, attributes: set<Pair>, tags: set<Pair>)
    requires forall p :: p in kept <==> p in policies && Kept(p, attributes)
    ensures MatchingPolicies(kept, attributes, tags) == MatchingPolicies(policies, attributes, tags)
  {
    forall p | p in policies && Matches(p, attributes, tags) ensures Kept(p, attributes) {
      if !HasResourceReference(p.identityConditions) {
        UndeferredIdentityIgnoresTags(p, attributes, tags);
      }
    }
  }

  lemma NothingKeptNothingAllowed(policies: seq<Policy>, attributes: set<Pair>, queryset: seq<TaggedResource>,
                                  action: string)
    requires forall p | p in policies :: !Kept(p, attributes)
    ensures FilterResult(policies, attributes, queryset, action) == []
  {
    assert (set p | p in policies && SettledWildcard(p, attributes)) == {};
    var keep := (r: TaggedResource) => Allows(policies, attributes, r.tags, action);
    forall r | r in queryset ensures !keep(r) {
      PreFilterLosesNoMatch([], policies, attributes, r.tags);
    }
    SelectNone(queryset, keep);
  }

  // ------------------------------------------------------------------ the theorem

  /** A wildcard-resource policy whose identity side waits for the resource and which denies `action`:
      the one kind of policy the early return does not consult. */
  predicate IsDeferredDenial(p: Policy, action: string) {
    IsWildcard(p.resourceConditions) && HasResourceReference(p.identityConditions) && Denies(p, action)
  }

  /** Behind the shortcut, a resource is really allowed exactly when no deferred denial fires on it. */
  lemma ShortcutMissesExactlyDeferredDenials(policies: seq<Policy>, attributes: set<Pair>, tags: set<Pair>,
                                             action: string)
    requires TakesShortcut(policies, attributes, action)
    ensures Allows(policies, attributes, tags, action) <==>
            !exists p | p in policies :: IsDeferredDenial(p, action) && IdentityMatches(p, attributes, tags)
  {
    var matched := MatchingPolicies(policies, attributes, tags);
    var settled := set p | p in policies && SettledWildcard(p, attributes);
    forall p | p in settled ensures p in matched {
      UndeferredIdentityIgnoresTags(p, attributes, tags);
    }
    var g :| g in settled && Grants(g, action);
    assert g in matched;
    forall p | p in matched && Denies(p, action)
      ensures IsDeferredDenial(p, action) && IdentityMatches(p, attributes, tags)
    {
      if !HasResourceReference(p.identityConditions) {
        UndeferredIdentityIgnoresTags(p, attributes, tags);
      }
      assert Kept(p, attributes);
      assert ("!" + action)[0] == '!';
      assert HasDenial(p);
      assert IsWildcard(p.resourceConditions);
      assert p !in settled;
    }
    forall p | p in policies && IsDeferredDenial(p, action) && IdentityMatches(p, attributes, tags)
      ensures p in matched && Denies(p, action)
    {}
  }

  /** Some identity clause of `p` has a reference to the resource side for its value. */
  predicate RefersToResource(p: Policy) {
    exists c :: c in p.identityConditions &&
                ParseReference(c.value).Some? && ParseReference(c.value).value.side == Resource
  }

  /** In the text of the policy: "$resource." followed by letters, digits, underscores and hyphens. */
  lemma RefersToResourceIff(p: Policy)
    ensures RefersToResource(p) <==>
            exists c, key: string ::
              && c in p.identityConditions && c.value == Text("$resource." + key) && |key| > 0
              && forall i | 0 <= i < |key| ::
                   'a' <= key[i] <= 'z' || 'A' <= key[i] <= 'Z' || '0' <= key[i] <= '9' || key[i] in "_-"
  {
    forall c: Condition, key: string ensures ParseReference(c.value) == Some(Reference(Resource, key)) <==>
                                  IsKeyName(key) && c.value == Text("$resource." + key)
    {
      ParseReferenceIff(c.value, Reference(Resource, key));
    }
    if RefersToResource(p) {
      var c :| c in p.identityConditions &&
               ParseReference(c.value).Some? && ParseReference(c.value).value.side == Resource;
      var key := ParseReference(c.value).value.key;
      assert c.value == Text("$resource." + key) && IsKeyName(key);
    }
  }

  /** When the early return is taken, policy by policy. */
  lemma EarlyReturnIff(policies: seq<Policy>, attributes: set<Pair>, action: string)
    ensures TakesShortcut(policies, attributes, action) <==>
            && (exists p ::
                  p in policies && p.resourceConditions == [Condition(Text("*"), Text("*"))] &&
                  !RefersToResource(p) &&
                  ConditionsHold(p.identityConditions, attributes, Sides({}, {}, {})) && Grants(p, action))
            && (forall p | p in policies && p.resourceConditions == [Condition(Text("*"), Text("*"))] &&
                           !RefersToResource(p) &&
                           ConditionsHold(p.identityConditions, attributes, Sides({}, {}, {})) ::
                  "!" + action !in p.actions)
            && (forall p, a | p in policies && p.resourceConditions != [Condition(Text("*"), Text("*"))] &&
                              (RefersToResource(p) ||
                               ConditionsHold(p.identityConditions, attributes, Sides({}, {}, {}))) &&
                              a in p.actions && a != "" :: a[0] != '!')
  {
    forall p: Policy
      ensures HasResourceReference(p.identityConditions) == RefersToResource(p)
      ensures IsWildcard(p.resourceConditions) <==> p.resourceConditions == [Condition(Text("*"), Text("*"))]
    {
      forall c ensures RefersTo(c, Resource) <==>
                       ParseReference(c.value).Some? && ParseReference(c.value).value.side == Resource
      {}
    }
    var settled := set p | p in policies && SettledWildcard(p, attributes);
    forall p ensures p in settled <==>
                     p in policies && p.resourceConditions == [Condition(Text("*"), Text("*"))] &&
                     !RefersToResource(p) && ConditionsHold(p.identityConditions, attributes, Sides({}, {}, {}))
    {}
    forall p: Policy ensures HasDenial(p) <==> exists a :: a in p.actions && a != "" && a[0] == '!' {}
  }

  /** The filter never hides a resource the evaluator allows, and keeps the queryset's order. */
  lemma FilterNeverHides(policies: seq<Policy>, attributes: set<Pair>, queryset: seq<TaggedResource>, action: string)
    ensures forall r | r in queryset && Allows(policies, attributes, r.tags, action) ::
              r in FilterResult(policies, attributes, queryset, action)
    ensures forall r | r in FilterResult(policies, attributes, queryset, action) :: r in queryset
  {
    SelectMembers(queryset, (r: TaggedResource) => Allows(policies, attributes, r.tags, action));
  }

  /** On one queryset, the filter equals per-resource evaluation except precisely when the shortcut is
      taken while a deferred denial fires on one of the resources. */
  lemma FilterExactIff(policies: seq<Policy>, attributes: set<Pair>, queryset: seq<TaggedResource>, action: string)
    ensures FilterResult(policies, attributes, queryset, action) ==
            Permitted(policies, attributes, queryset, action) <==>
            !(TakesShortcut(policies, attributes, action) &&
              exists r, p | r in queryset && p in policies ::
                IsDeferredDenial(p, action) && IdentityMatches(p, attributes, r.tags))
  {
    if TakesShortcut(policies, attributes, action) {
      var keep := (r: TaggedResource) => Allows(policies, attributes, r.tags, action);
      SelectAllIff(queryset, keep);
      forall r | r in queryset
        ensures keep(r) <==>
                !exists p | p in policies :: IsDeferredDenial(p, action) && IdentityMatches(p, attributes, r.tags)
      {
        ShortcutMissesExactlyDeferredDenials(policies, attributes, r.tags, action);
      }
    }
  }

  const OPEN := Policy("app", [WILDCARD], [WILDCARD], ["app:use"])
  const BANNED := Condition(Text("username"), Text(ReferenceText(Resource, "banned")))
  const BAN := Policy("app", [BANNED], [WILDCARD], ["!app:use"])

  lemma OpenAndBan()
    ensures ParseReference(BANNED.value) == Some(Reference(Resource, "banned"))
    ensures HasResourceReference(BAN.identityConditions) && !HasResourceReference(OPEN.identityConditions)
    ensures Grants(OPEN, "app:use") && !Denies(OPEN, "app:use") && !HasDenial(OPEN) && Denies(BAN, "app:use")
  {
    ParseReferenceIff(BANNED.value, Reference(Resource, "banned"));
    assert BANNED in BAN.identityConditions;
    assert SidePrefix(Identity)[0] == SidePrefix(Resource)[0] == SidePrefix(App)[0] == '$';
    assert ParseReference(WILDCARD.value) == None;
    assert "!" + "app:use" == "!app:use";
    assert "app:use" in OPEN.actions && "!app:use" in BAN.actions;
  }

  /** The two forms do differ: everybody may use an app unless its "banned" tag names them. */
  lemma ShortcutCanMissADenial()
    returns (policies: seq<Policy>, attributes: set<Pair>, r: TaggedResource)
    ensures r in FilterResult(policies, attributes, [r], "app:use")
    ensures !Allows(policies, attributes, r.tags, "app:use")
  {
    OpenAndBan();
    policies, attributes := [OPEN, BAN], {("authenticated", "true"), ("username", "eve")};
    r := TaggedResource(1, {("banned", "eve")});
    assert forall p :: p in policies <==> p == OPEN || p == BAN;
    assert SettledWildcard(OPEN, attributes) && !SettledWildcard(BAN, attributes);
    assert TakesShortcut(policies, attributes, "app:use");
    assert ClauseHolds(BANNED, attributes, Sides({}, r.tags, {})) by {
      assert ("banned", "eve") in r.tags && ("username", "eve") in attributes;
    }
    assert IdentityMatches(BAN, attributes, r.tags);
    assert BAN in MatchingPolicies(policies, attributes, r.tags);
  }

  // ------------------------------------- a condition on policies and attributes alone

  /** The tags under which every $resource clause of `conditions` joins with `attributes`. */
  ghost function JoiningTags(conditions: seq<Condition>, attributes: set<Pair>): set<Pair> {
    set c, pair | c in conditions && pair in attributes && RefersTo(c, Resource) && c.key == Text(pair.0)
      :: (ParseReference(c.value).value.key, pair.1)
  }

  /** Some resource could satisfy the identity side of `p`: decided without looking at any resource. */
  ghost predicate Reachable(p: Policy, attributes: set<Pair>) {
    IdentityMatches(p, attributes, JoiningTags(p.identityConditions, attributes))
  }

  lemma ReachableIff(p: Policy, attributes: set<Pair>)
    ensures Reachable(p, attributes) <==> exists tags :: IdentityMatches(p, attributes, tags)
  {
    forall tags: set<Pair> | IdentityMatches(p, attributes, tags) ensures Reachable(p, attributes) {
      var joining := JoiningTags(p.identityConditions, attributes);
      if !IsWildcard(p.identityConditions) {
        forall c | c in p.identityConditions ensures ClauseHolds(c, attributes, Sides({}, joining, {})) {
          assert ClauseHolds(c, attributes, Sides({}, tags, {}));
          match ParseReference(c.value)
          case None =>
          case Some(ref) =>
            var v :| (ref.key, v) in Sides({}, tags, {}).On(ref.side) && (c.key.text, v) in attributes;
            assert RefersTo(c, Resource);
            assert (ref.key, v) in joining by {
              var pair := (c.key.text, v);
              assert pair in attributes && c.key == Text(pair.0);
            }
        }
      }
    }
  }

  /** For a given user and policy set, the filter is exact on every queryset if and only if the shortcut
      is not taken or no deferred denial is reachable with the user's attributes. */
  lemma FilterExactEverywhereIff(policies: seq<Policy>, attributes: set<Pair>, action: string)
    ensures (forall queryset: seq<TaggedResource> ::
              FilterResult(policies, attributes, queryset, action) == Permitted(policies, attributes, queryset, action))
            <==>
            !(TakesShortcut(policies, attributes, action) &&
              exists p | p in policies :: IsDeferredDenial(p, action) && Reachable(p, attributes))
  {
    forall p ensures Reachable(p, attributes) <==> exists tags :: IdentityMatches(p, attributes, tags) {
      ReachableIff(p, attributes);
    }
    forall queryset: seq<TaggedResource>
      ensures FilterResult(policies, attributes, queryset, action) ==
              Permitted(policies, attributes, queryset, action) <==>
              !(TakesShortcut(policies, attributes, action) &&
                exists r, p | r in queryset && p in policies ::
                  IsDeferredDenial(p, action) && IdentityMatches(p, attributes, r.tags))
    {
      FilterExactIff(policies, attributes, queryset, action);
    }
    if TakesShortcut(policies, attributes, action) {
      if p :| p in policies && IsDeferredDenial(p, action) && Reachable(p, attributes) {
        var tags :| IdentityMatches(p, attributes, tags);
        var r := TaggedResource(0, tags);
        assert r in [r];
        assert FilterResult(policies, attributes, [r], action) != Permitted(policies, attributes, [r], action);
      }
    }
  }
}

/** The core evaluator: which actions the policies of one resource type allow. */
module Policies {
  import opened Conditions

  datatype Policy = Policy(
    resourceType: string,
    identityConditions: seq<Condition>,
    resourceConditions: seq<Condition>,
    actions: seq<string>
  )

  // -------------------------------------------------------------------- actions

  predicate IsDeny(action: string) {
    |action| > 0 && action[0] == '!'
  }

  /** The lower-level actions an admin action brings with it. */
  function ImpliedActions(action: string): set<string> {
    if action == "workspace:admin" then {"workspace:view", "workspace:edit"}
    else if action == "environment:admin" then {"environment:view", "environment:deploy", "environment:approve"}
    else {}
  }

  ghost predicate GrantsLiterally(p: Policy, action: string) {
    action in p.actions && !IsDeny(action)
  }

  /** `p` grants `action` itself or an admin action above it. */
  ghost predicate Grants(p: Policy, action: string) {
    exists g | g in p.actions :: !IsDeny(g) && (action == g || action in ImpliedActions(g))
  }

  /** Denials are literal: a denied admin action takes nothing below it away. */
  predicate Denies(p: Policy, action: string) {
    "!" + action in p.actions
  }

  /** Deny-overrides over the policies that matched. */
  ghost predicate Decides(matched: set<Policy>, action: string) {
    (exists p | p in matched :: Grants(p, action)) && (forall p | p in matched :: !Denies(p, action))
  }

  // --------------------------------------------------------- meaning of a decision

  ghost predicate IdentityMatches(p: Policy, attributes: set<Pair>, tags: set<Pair>) {
    ConditionsHold(p.identityConditions, attributes, Sides({}, tags, {}))
  }

  ghost predicate ResourceMatches(p: Policy, attributes: set<Pair>, tags: set<Pair>) {
    ConditionsHold(p.resourceConditions, tags, Sides(attributes, {}, {}))
  }

  ghost predicate Matches(p: Policy, attributes: set<Pair>, tags: set<Pair>) {
    IdentityMatches(p, attributes, tags) && ResourceMatches(p, attributes, tags)
  }

  ghost function MatchingPolicies(policies: seq<Policy>, attributes: set<Pair>, tags: set<Pair>): set<Policy> {
    set p | p in policies && Matches(p, attributes, tags)
  }

  /** The user with `attributes` has `action` on a resource tagged `tags`. */
  ghost predicate Allows(policies: seq<Policy>, attributes: set<Pair>, tags: set<Pair>, action: string) {
    Decides(MatchingPolicies(policies, attributes, tags), action)
  }

  /** Without a resource in hand only wildcard-resource policies count and no reference resolves. */
  ghost predicate MatchesUnscoped(p: Policy, attributes: set<Pair>) {
    ConditionsHold(p.identityConditions, attributes, NO_SIDES) && IsWildcard(p.resourceConditions)
  }

  ghost predicate AllowsUnscoped(policies: seq<Policy>, attributes: set<Pair>, action: string) {
    Decides((set p | p in policies && MatchesUnscoped(p, attributes)), action)
  }

  // ------------------------------------------------------------- the computation

  /** The accumulators hold exactly what the matched policies grant and deny. */
  ghost predicate Accumulates(matched: set<Policy>, grants: set<string>, denials: set<string>) {
    (forall g :: g in grants <==> exists p | p in matched :: GrantsLiterally(p, g)) &&
    (forall d :: d in denials <==> exists p | p in matched :: Denies(p, d))
  }

  /** Adds one matched policy's actions to the accumulators. */
  method CollectActions(p: Policy, ghost matched: set<Policy>, grants0: set<string>, denials0: set<string>)
    returns (grants: set<string>, denials: set<string>)
    requires Accumulates(matched, grants0, denials0)
    ensures Accumulates(matched + {p}, grants, denials)
  {
    grants, denials := grants0, denials0;
    for i := 0 to |p.actions|
      invariant forall g :: g in grants <==> g in grants0 || (g in p.actions[..i] && !IsDeny(g))
      invariant forall d :: d in denials <==> d in denials0 || "!" + d in p.actions[..i]
    {
      var action := p.actions[i];
      assert p.actions[..i + 1] == p.actions[..i] + [action];
      if IsDeny(action) {
        forall d ensures "!" + d == action <==> d == action[1..] {
          assert "!" + action[1..] == action;
          assert ("!" + d)[1..] == d;
        }
        denials := denials + {action[1..]};
      } else {
        forall d ensures "!" + d != action {
          assert ("!" + d)[0] == '!';
        }
        grants := grants + {action};
      }
    }
    assert p.actions[..|p.actions|] == p.actions;
    forall g ensures g in grants <==> exists q | q in matched + {p} :: GrantsLiterally(q, g) {
      assert GrantsLiterally(p, g) <==> g in p.actions && !IsDeny(g);
    }
    forall d ensures d in denials <==> exists q | q in matched + {p} :: Denies(q, d) {
      assert Denies(p, d) <==> "!" + d in p.actions;
    }
  }

  /** `action` is one of `granted` or is implied by one of them. */
  ghost predicate Expands(granted: set<string>, action: string) {
    exists g | g in granted :: action == g || action in ImpliedActions(g)
  }

  lemma ExpandsOneMore(granted: set<string>, g: string, action: string)
    ensures Expands(granted + {g}, action) <==>
            Expands(granted, action) || action == g || action in ImpliedActions(g)
  {
    if Expands(granted, action) {
      var h :| h in granted && (action == h || action in ImpliedActions(h));
      assert h in granted + {g};
    }
    if action == g || action in ImpliedActions(g) {
      assert g in granted + {g};
    }
  }

  lemma ExpandsIffGranted(matched: set<Policy>, grants: set<string>, denials: set<string>, action: string)
    requires Accumulates(matched, grants, denials)
    ensures Expands(grants, action) <==> exists p | p in matched :: Grants(p, action)
  {
    if Expands(grants, action) {
      var g :| g in grants && (action == g || action in ImpliedActions(g));
      var p :| p in matched && GrantsLiterally(p, g);
      assert Grants(p, action);
    }
    if p :| p in matched && Grants(p, action) {
      var g :| g in p.actions && !IsDeny(g) && (action == g || action in ImpliedActions(g));
      assert GrantsLiterally(p, g);
      assert g in grants;
    }
  }

  /** Expands the hierarchy, then lets every denial override. */
  method AllowedActions(ghost matched: set<Policy>, grants: set<string>, denials: set<string>)
    returns (allowed: set<string>)
    requires Accumulates(matched, grants, denials)
    ensures forall a :: a in allowed <==> Decides(matched, a)
  {
    var expanded: set<string> := {};
    var remaining := grants;
    while remaining != {}
      invariant remaining <= grants
      invariant forall a :: a in expanded <==> Expands(grants - remaining, a)
      decreases remaining
    {
      var g :| g in remaining;
      assert grants - (remaining - {g}) == (grants - remaining) + {g};
      forall a { ExpandsOneMore(grants - remaining, g, a); }
      expanded := expanded + {g} + ImpliedActions(g);
      remaining := remaining - {g};
    }
    assert grants - remaining == grants;
    allowed := expanded - denials;
    forall a { ExpandsIffGranted(matched, grants, denials, a); }
  }

  /** The core engine, for one user and one resource. */
  method EvaluatePolicies(policies: seq<Policy>, attributes: set<Pair>, tags: set<Pair>)
    returns (allowed: set<string>)
    ensures forall a :: a in allowed <==> Allows(policies, attributes, tags, a)
  {
    var attributeMap := BuildSideMap(attributes);
    var tagMap := BuildSideMap(tags);
    var grants: set<string>, denials: set<string> := {}, {};
    ghost var matched: set<Policy> := {};
    for i := 0 to |policies|
      invariant matched == MatchingPolicies(policies[..i], attributes, tags)
      invariant Accumulates(matched, grants, denials)
    {
      var p := policies[i];
      assert policies[..i + 1] == policies[..i] + [p];
      var identityMatch := ConditionsMatch(p.identityConditions, attributes, map[Resource := tagMap]);
      var resourceMatch := ConditionsMatch(p.resourceConditions, tags, map[Identity := attributeMap]);
      if identityMatch && resourceMatch {
        grants, denials := CollectActions(p, matched, grants, denials);
        matched := matched + {p};
      }
    }
    assert policies[..|policies|] == policies;
    allowed := AllowedActions(matched, grants, denials);
  }

  method EvaluatePoliciesUnscoped(policies: seq<Policy>, attributes: set<Pair>) returns (allowed: set<string>)
    ensures forall a :: a in allowed <==> AllowsUnscoped(policies, attributes, a)
  {
    var grants: set<string>, denials: set<string> := {}, {};
    ghost var matched: set<Policy> := {};
    for i := 0 to |policies|
      invariant matched == set p | p in policies[..i] && MatchesUnscoped(p, attributes)
      invariant Accumulates(matched, grants, denials)
    {
      var p := policies[i];
      assert policies[..i + 1] == policies[..i] + [p];
      var identityMatch := ConditionsMatch(p.identityConditions, attributes, map[]);
      if identityMatch && IsWildcard(p.resourceConditions) {
        grants, denials := CollectActions(p, matched, grants, denials);
        matched := matched + {p};
      }
    }
    assert policies[..|policies|] == policies;
    allowed := AllowedActions(matched, grants, denials);
  }

  // ------------------------------------------------------------------ properties

  datatype Shape = Shape(identity: multiset<Condition>, resource: multiset<Condition>, actions: set<string>)

  /** A policy up to the order of its clauses and the order and repetition of its actions. */
  ghost function ShapeOf(p: Policy): Shape {
    Shape(multiset(p.identityConditions), multiset(p.resourceConditions), set a | a in p.actions)
  }

  ghost function Shapes(policies: seq<Policy>): set<Shape> {
    set p | p in policies :: ShapeOf(p)
  }

  lemma ShapeDecides(p: Policy, q: Policy, attributes: set<Pair>, tags: set<Pair>, action: string)
    requires ShapeOf(p) == ShapeOf(q)
    ensures Matches(p, attributes, tags) == Matches(q, attributes, tags)
    ensures Grants(p, action) == Grants(q, action) && Denies(p, action) == Denies(q, action)
  {
    ConditionsOrderIrrelevant(p.identityConditions, q.identityConditions, attributes, Sides({}, tags, {}));
    ConditionsOrderIrrelevant(p.resourceConditions, q.resourceConditions, tags, Sides(attributes, {}, {}));
    forall a ensures a in p.actions <==> a in q.actions {
      assert a in p.actions <==> a in ShapeOf(p).actions;
      assert a in q.actions <==> a in ShapeOf(q).actions;
    }
  }

  lemma SameShapeWitness(a: seq<Policy>, b: seq<Policy>, attributes: set<Pair>, tags: set<Pair>, action: string,
                         p: Policy)
    returns (q: Policy)
    requires Shapes(a) == Shapes(b) && p in MatchingPolicies(a, attributes, tags)
    ensures q in MatchingPolicies(b, attributes, tags)
    ensures Grants(p, action) == Grants(q, action) && Denies(p, action) == Denies(q, action)
  {
    assert ShapeOf(p) in Shapes(b);
    q :| q in b && ShapeOf(q) == ShapeOf(p);
    ShapeDecides(p, q, attributes, tags, action);
  }

  /** Reordering or repeating policies, and reordering the clauses inside them, never changes a decision. */
  lemma DecisionIgnoresOrder(a: seq<Policy>, b: seq<Policy>, attributes: set<Pair>, tags: set<Pair>, action: string)
    requires Shapes(a) == Shapes(b)
    ensures Allows(a, attributes, tags, action) == Allows(b, attributes, tags, action)
  {
    forall p | p in MatchingPolicies(a, attributes, tags)
      ensures exists q | q in MatchingPolicies(b, attributes, tags) ::
                Grants(p, action) == Grants(q, action) && Denies(p, action) == Denies(q, action)
    {
      var q := SameShapeWitness(a, b, attributes, tags, action, p);
    }
    forall p | p in MatchingPolicies(b, attributes, tags)
      ensures exists q | q in MatchingPolicies(a, attributes, tags) ::
                Grants(p, action) == Grants(q, action) && Denies(p, action) == Denies(q, action)
    {
      var q := SameShapeWitness(b, a, attributes, tags, action, p);
    }
  }

  /** A policy that matches keeps matching when attributes and tags are added. */
  lemma MatchesMonotone(p: Policy, attributes: set<Pair>, tags: set<Pair>, moreAttributes: set<Pair>,
                        moreTags: set<Pair>)
    requires attributes <= moreAttributes && tags <= moreTags
    requires Matches(p, attributes, tags)
    ensures Matches(p, moreAttributes, moreTags)
  {
    ConditionsMonotone(p.identityConditions, attributes, moreAttributes, Sides({}, tags, {}), Sides({}, moreTags, {}));
    ConditionsMonotone(p.resourceConditions, tags, moreTags, Sides(attributes, {}, {}), Sides(moreAttributes, {}, {}));
  }

  /** Adding attributes or tags loses an action exactly when it lets a denial of that action match;
      so without deny policies nothing is ever lost. */
  lemma AddedPairsLoseOnlyToDenials(policies: seq<Policy>, attributes: set<Pair>, tags: set<Pair>,
                                    moreAttributes: set<Pair>, moreTags: set<Pair>, action: string)
    requires attributes <= moreAttributes && tags <= moreTags
    requires Allows(policies, attributes, tags, action)
    ensures Allows(policies, moreAttributes, moreTags, action) <==>
            !exists p | p in policies :: Denies(p, action) && Matches(p, moreAttributes, moreTags)
  {
    var p :| p in MatchingPolicies(policies, attributes, tags) && Grants(p, action);
    MatchesMonotone(p, attributes, tags, moreAttributes, moreTags);
    assert p in MatchingPolicies(policies, moreAttributes, moreTags);
    assert forall q | q in policies :: Matches(q, moreAttributes, moreTags) <==>
                                       q in MatchingPolicies(policies, moreAttributes, moreTags);
  }

  /** What is allowed without a resource is allowed on every resource that no matching policy denies it on. */
  lemma UnscopedLosesOnlyToDenials(policies: seq<Policy>, attributes: set<Pair>, tags: set<Pair>, action: string)
    requires AllowsUnscoped(policies, attributes, action)
    ensures Allows(policies, attributes, tags, action) <==>
            !exists p | p in policies :: Denies(p, action) && Matches(p, attributes, tags)
  {
    var p :| p in policies && MatchesUnscoped(p, attributes) && Grants(p, action);
    UnscopedMatchesEveryResource(p, attributes, tags);
    assert p in MatchingPolicies(policies, attributes, tags);
    assert forall q | q in policies ::
        Matches(q, attributes, tags) <==> q in MatchingPolicies(policies, attributes, tags);
  }

  lemma UnscopedMatchesEveryResource(p: Policy, attributes: set<Pair>, tags: set<Pair>)
    requires MatchesUnscoped(p, attributes)
    ensures Matches(p, attributes, tags)
  {
    ConditionsMonotone(p.identityConditions, attributes, attributes, NO_SIDES, Sides({}, tags, {}));
  }

  // ------------------------------------------------------- the meaning, written out

  /** `p` lists `action`, or the admin action that brings it along. */
  lemma GrantsIff(p: Policy, action: string)
    ensures Grants(p, action) <==>
            || (action in p.actions && (action == "" || action[0] != '!'))
            || ("workspace:admin" in p.actions && (action == "workspace:view" || action == "workspace:edit"))
            || ("environment:admin" in p.actions &&
                (action == "environment:view" || action == "environment:deploy" || action == "environment:approve"))
  {
    assert !IsDeny("workspace:admin") && !IsDeny("environment:admin");
    assert {"workspace:view", "workspace:edit"} <= ImpliedActions("workspace:admin");
    assert {"environment:view", "environment:deploy", "environment:approve"} <= ImpliedActions("environment:admin");
  }

  /** A decision: the identity side reads the resource's tags, the resource side the user's attributes; somebody
      grants, and nobody lists the action with an exclamation mark in front. */
  lemma AllowsIff(policies: seq<Policy>, attributes: set<Pair>, tags: set<Pair>, action: string)
    ensures Allows(policies, attributes, tags, action) <==>
            && (exists p :: p in policies && Grants(p, action) &&
                            ConditionsHold(p.identityConditions, attributes, Sides({}, tags, {})) &&
                            ConditionsHold(p.resourceConditions, tags, Sides(attributes, {}, {})))
            && (forall p :: p in policies && "!" + action in p.actions ==>
                            !(ConditionsHold(p.identityConditions, attributes, Sides({}, tags, {})) &&
                              ConditionsHold(p.resourceConditions, tags, Sides(attributes, {}, {}))))
  {
    var matched := MatchingPolicies(policies, attributes, tags);
    forall p ensures p in matched <==>
                     p in policies && ConditionsHold(p.identityConditions, attributes, Sides({}, tags, {})) &&
                     ConditionsHold(p.resourceConditions, tags, Sides(attributes, {}, {}))
    {}
  }

  /** Without a resource: only policies with a sole wildcard on the resource side, and no other side to refer to. */
  lemma AllowsUnscopedIff(policies: seq<Policy>, attributes: set<Pair>, action: string)
    ensures AllowsUnscoped(policies, attributes, action) <==>
            && (exists p :: p in policies && Grants(p, action) &&
                            p.resourceConditions == [Condition(Text("*"), Text("*"))] &&
                            ConditionsHold(p.identityConditions, attributes, Sides({}, {}, {})))
            && (forall p :: p in policies && "!" + action in p.actions ==>
                            !(p.resourceConditions == [Condition(Text("*"), Text("*"))] &&
                              ConditionsHold(p.identityConditions, attributes, Sides({}, {}, {}))))
  {
    forall p: Policy ensures IsWildcard(p.resourceConditions) <==>
                             p.resourceConditions == [Condition(Text("*"), Text("*"))]
    {}
    var matched := set p | p in policies && MatchesUnscoped(p, attributes);
    forall p ensures p in matched <==>
                     p in policies && p.resourceConditions == [Condition(Text("*"), Text("*"))] &&
                     ConditionsHold(p.identityConditions, attributes, Sides({}, {}, {}))
    {}
  }

  /** An admin action that a matching policy lists brings exactly its own lower actions, each unless denied by name. */
  lemma AdminBringsLowerActions(policies: seq<Policy>, attributes: set<Pair>, tags: set<Pair>, p: Policy,
                                action: string)
    requires p in policies && Matches(p, attributes, tags)
    requires
      || ("workspace:admin" in p.actions && action in {"workspace:admin", "workspace:view", "workspace:edit"})
      || ("environment:admin" in p.actions &&
          action in {"environment:admin", "environment:view", "environment:deploy", "environment:approve"})
    ensures Allows(policies, attributes, tags, action) <==>
            !exists q :: q in policies && Matches(q, attributes, tags) && "!" + action in q.actions
  {
    GrantsIff(p, action);
    assert p in MatchingPolicies(policies, attributes, tags);
    assert forall q | q in policies ::
        Matches(q, attributes, tags) <==> q in MatchingPolicies(policies, attributes, tags);
  }
}

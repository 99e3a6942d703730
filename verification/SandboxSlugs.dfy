/** App slugs in the shared sandbox: one namespace across organizations, filled by deploy transactions
    that interleave with each other and with removals.

    A deploy is requested for a slug its organization has no App with, and begins later. It locks its own
    organization's environment only, so deploys of different organizations run side
    by side. Its claim row and App row become visible together at commit; until then the claim blocks other
    inserts of the slug but no other transaction can read it. A removal deletes claim and App together. */
module SandboxSlugs {

  datatype SandboxApp = SandboxApp(org: int, slug: string)

  datatype ClaimResult = Created | AlreadyOwn | Taken

  /** Another organization's committed App holds the slug. */
  predicate HeldByOther(apps: set<SandboxApp>, org: int, slug: string) {
    exists a :: a in apps && a.slug == slug && a.org != org
  }

  function TryClaim(claims: map<string, int>, org: int, slug: string): ClaimResult {
    if slug !in claims then Created
    else if claims[slug] == org then AlreadyOwn
    else Taken
  }

  /** `org` may own `slug`: no App and no claim of another organization stands against it. */
  predicate Claimable(apps: set<SandboxApp>, claims: map<string, int>, org: int, slug: string) {
    !HeldByOther(apps, org, slug) && (slug in claims ==> claims[slug] == org)
  }

  class Tables {
    var apps: set<SandboxApp>
    var claims: map<string, int>

    constructor ()
      ensures apps == {} && claims == map[]
    {
      apps, claims := {}, map[];
    }

    /** Reserves a slug, or raises when another organization holds it. Customer environments are exempt. */
    method ClaimSandboxAppSlug(org: int, slug: string, isSandbox: bool) returns (raised: bool)
      modifies this`claims
      ensures raised <==> isSandbox && !Claimable(apps, old(claims), org, slug)
      ensures claims == if isSandbox && !raised then old(claims)[slug := org] else old(claims)
      // An App older than the claim table stands against the claim like a claim does.
      ensures raised <==> isSandbox && ((exists a :: a in apps && a.slug == slug && a.org != org) ||
                                        (slug in old(claims) && old(claims)[slug] != org))
      // So once a claim goes through, the organization can add its App without a conflict.
      ensures isSandbox && !raised ==> forall a | a in apps && a.slug == slug :: a.org == org
      ensures isSandbox && !raised && OneOrganizationPerSlug(apps) ==>
                OneOrganizationPerSlug(apps + {SandboxApp(org, slug)})
    {
      if !isSandbox {
        return false;
      }
      if HeldByOther(apps, org, slug) {
        return true;
      }
      match TryClaim(claims, org, slug)
      case Created =>
        claims := claims[slug := org];
        return false;
      case AlreadyOwn =>
        assert claims == claims[slug := org];
        return false;
      case Taken =>
        return true;
    }

    /** Frees a slug the organization holds; nobody else's claim changes. Once no App of another organization has the
        slug, everyone may own it again. */
    method ReleaseSandboxAppSlug(org: int, slug: string)
      modifies this`claims
      ensures claims == Released(old(claims), org, slug)
      ensures forall s | s in old(claims) :: s in claims <==> !(s == slug && old(claims)[s] == org)
      ensures forall s | s in claims :: s in old(claims) && claims[s] == old(claims)[s]
      ensures forall o | slug in old(claims) && old(claims)[slug] == org && !HeldByOther(apps, o, slug) ::
                Claimable(apps, claims, o, slug)
    {
      if slug in claims && claims[slug] == org {
        claims := claims - {slug};
      }
    }
  }

  function Released(claims: map<string, int>, org: int, slug: string): map<string, int> {
    if slug in claims && claims[slug] == org then claims - {slug} else claims
  }

  /** Releasing undoes claiming a free slug, and gives nothing away that another organization holds. */
  lemma ReleaseUndoesClaim(claims: map<string, int>, org: int, slug: string)
    ensures TryClaim(claims, org, slug) == Created ==> Released(claims[slug := org], org, slug) == claims
    ensures TryClaim(claims, org, slug) == Taken ==> Released(claims, org, slug) == claims
    ensures TryClaim(Released(claims, org, slug), org, slug) != AlreadyOwn
  {
    if TryClaim(claims, org, slug) == Created {
      assert claims[slug := org] - {slug} == claims;
    }
  }

  // ------------------------------------------------------------------- the system

  /** How far an organization's deploy has come; `Reserved` holds an uncommitted claim, `Reused` none of its own. */
  datatype Deploy =
    | Locked(slug: string)
    | LabelFree(slug: string)
    | PreChecked(slug: string)
    | Reserved(slug: string)
    | Reused(slug: string)

  /** `requests` are deploys that passed the existence check of their caller and have not begun. */
  datatype State = State(
    apps: set<SandboxApp>,
    claims: map<string, int>,
    requests: set<SandboxApp>,
    deploys: map<int, Deploy>
  )

  datatype Event =
    | Request(org: int, slug: string)
    | Begin(org: int, slug: string)
    | CheckLabel(org: int)
    | PreCheck(org: int)
    | Claim(org: int)
    | Commit(org: int)
    | Abort(org: int)
    | Remove(org: int, slug: string)

  /** The hosted zone of each organization's sandbox environment; "" when none is configured. */
  type Zones = int -> string

  /** The hostname check: some App on the same hosted zone already has this label. It is skipped without a zone. */
  predicate LabelTaken(zones: Zones, apps: set<SandboxApp>, org: int, slug: string) {
    zones(org) != "" && exists a :: a in apps && a.slug == slug && zones(a.org) == zones(org)
  }

  ghost predicate SlugReservedByOther(s: State, org: int, slug: string) {
    exists o :: o in s.deploys && o != org && s.deploys[o] == Reserved(slug)
  }

  ghost predicate Step(zones: Zones, s: State, e: Event, s': State) {
    match e
    case Request(o, slug) =>
      SandboxApp(o, slug) !in s.apps && s' == s.(requests := s.requests + {SandboxApp(o, slug)})
    case Begin(o, slug) =>
      && SandboxApp(o, slug) in s.requests && o !in s.deploys
      && s' == s.(requests := s.requests - {SandboxApp(o, slug)}, deploys := s.deploys[o := Locked(slug)])
    case CheckLabel(o) =>
      && o in s.deploys && s.deploys[o].Locked?
      && s' == if LabelTaken(zones, s.apps, o, s.deploys[o].slug) then s.(deploys := s.deploys - {o})
               else s.(deploys := s.deploys[o := LabelFree(s.deploys[o].slug)])
    case PreCheck(o) =>
      && o in s.deploys && s.deploys[o].LabelFree?
      && s' == if HeldByOther(s.apps, o, s.deploys[o].slug) then s.(deploys := s.deploys - {o})
               else s.(deploys := s.deploys[o := PreChecked(s.deploys[o].slug)])
    case Claim(o) =>
      && o in s.deploys && s.deploys[o].PreChecked?
      && var slug := s.deploys[o].slug;
         (match TryClaim(s.claims, o, slug)
          case Created => !SlugReservedByOther(s, o, slug) && s' == s.(deploys := s.deploys[o := Reserved(slug)])
          case AlreadyOwn => s' == s.(deploys := s.deploys[o := Reused(slug)])
          case Taken => s' == s.(deploys := s.deploys - {o}))
    case Commit(o) =>
      && o in s.deploys && (s.deploys[o].Reserved? || s.deploys[o].Reused?)
      && SandboxApp(o, s.deploys[o].slug) !in s.apps
      && s' == s.(apps := s.apps + {SandboxApp(o, s.deploys[o].slug)},
                  claims := if s.deploys[o].Reserved? then s.claims[s.deploys[o].slug := o] else s.claims,
                  deploys := s.deploys - {o})
    case Abort(o) =>
      o in s.deploys && s' == s.(deploys := s.deploys - {o})
    case Remove(o, slug) =>
      && SandboxApp(o, slug) in s.apps
      && s' == s.(apps := s.apps - {SandboxApp(o, slug)}, claims := Released(s.claims, o, slug))
  }

  ghost predicate OneOrganizationPerSlug(apps: set<SandboxApp>) {
    forall a, b | a in apps && b in apps && a.slug == b.slug :: a.org == b.org
  }

  /** Every claim has its App. Apps older than the claim table have none of their own. */
  ghost predicate ClaimsHaveApps(s: State) {
    forall slug | slug in s.claims :: SandboxApp(s.claims[slug], slug) in s.apps
  }

  ghost predicate Init(s: State) {
    OneOrganizationPerSlug(s.apps) && ClaimsHaveApps(s) && s.requests == {} && s.deploys == map[]
  }

  ghost predicate IsRun(zones: Zones, states: seq<State>, events: seq<Event>) {
    && |states| == |events| + 1
    && Init(states[0])
    && forall n | 0 <= n < |events| :: Step(zones, states[n], events[n], states[n + 1])
  }

  // ------------------------------------------------------------------- invariants

  /** What each stage of a deploy of `org` has established and still relies on. */
  ghost predicate StageHolds(s: State, org: int) {
    org in s.deploys ==>
      var slug := s.deploys[org].slug;
      match s.deploys[org]
      case Locked(_) => true
      case LabelFree(_) => SandboxApp(org, slug) !in s.apps
      case PreChecked(_) =>
        && SandboxApp(org, slug) !in s.apps
        && forall a | a in s.apps && a.slug == slug :: slug in s.claims && s.claims[slug] == a.org
      case Reserved(_) =>
        slug !in s.claims && (forall a | a in s.apps :: a.slug != slug) && !SlugReservedByOther(s, org, slug)
      case Reused(_) => false
  }

  ghost predicate Inv(s: State) {
    && OneOrganizationPerSlug(s.apps)
    && ClaimsHaveApps(s)
    && forall o :: StageHolds(s, o)
  }

  ghost predicate EveryZoneSet(zones: Zones) {
    forall o :: zones(o) != ""
  }

  lemma StepKeepsInvariant(zones: Zones, s: State, e: Event, s': State)
    requires EveryZoneSet(zones) && Inv(s) && Step(zones, s, e, s')
    ensures Inv(s')
  {
    assert StageHolds(s, e.org);
    forall o ensures StageHolds(s', o) {
      assert StageHolds(s, o);
      if o in s'.deploys && o != e.org {
        assert s'.deploys[o] == s.deploys[o];
      }
    }
  }

  lemma {:induction false} RunKeepsInvariant(zones: Zones, states: seq<State>, events: seq<Event>, n: nat)
    requires EveryZoneSet(zones) && IsRun(zones, states, events) && n < |states|
    ensures Inv(states[n])
  {
    if n == 0 {
    } else {
      RunKeepsInvariant(zones, states, events, n - 1);
      StepKeepsInvariant(zones, states[n - 1], events[n - 1], states[n]);
    }
  }

  /** The method raises exactly when the system's pre-check or claim drops the deploy, if nothing else happens in
      between, and stores a claim exactly when the system reserves one. */
  lemma ClaimRaisesIffDropped(zones: Zones, s: State, o: int, checked: State, s': State)
    requires o in s.deploys && s.deploys[o].LabelFree? && Step(zones, s, PreCheck(o), checked)
    requires o in checked.deploys ==> Step(zones, checked, Claim(o), s')
    ensures var slug := s.deploys[o].slug;
            && (!Claimable(s.apps, s.claims, o, slug) <==> o !in checked.deploys || o !in s'.deploys)
            && (o in checked.deploys && o in s'.deploys ==>
                  s'.deploys[o] == if slug in s.claims then Reused(slug) else Reserved(slug))
  {}

  // -------------------------------------------------- what happens without a zone

  /** An organization asks twice for one slug. The second deploy, without a hosted zone, reuses the claim of the first
      unlocked; the App is removed meanwhile, another organization takes the slug, and the second deploy still
      commits. */
  function RaceState(a: int, b: int, n: nat): State {
    var slug := "demo";
    var own, other := SandboxApp(a, slug), SandboxApp(b, slug);
    if n == 0 then State({}, map[], {}, map[])
    else if n == 1 then State({}, map[], {own}, map[])
    else if n == 2 then State({}, map[], {}, map[a := Locked(slug)])
    else if n == 3 then State({}, map[], {own}, map[a := Locked(slug)])
    else if n == 4 then State({}, map[], {own}, map[a := LabelFree(slug)])
    else if n == 5 then State({}, map[], {own}, map[a := PreChecked(slug)])
    else if n == 6 then State({}, map[], {own}, map[a := Reserved(slug)])
    else if n == 7 then State({own}, map[slug := a], {own}, map[])
    else if n == 8 then State({own}, map[slug := a], {}, map[a := Locked(slug)])
    else if n == 9 then State({own}, map[slug := a], {}, map[a := LabelFree(slug)])
    else if n == 10 then State({own}, map[slug := a], {}, map[a := PreChecked(slug)])
    else if n == 11 then State({own}, map[slug := a], {}, map[a := Reused(slug)])
    else if n == 12 then State({}, map[], {}, map[a := Reused(slug)])
    else if n == 13 then State({}, map[], {other}, map[a := Reused(slug)])
    else if n == 14 then State({}, map[], {}, map[a := Reused(slug), b := Locked(slug)])
    else if n == 15 then State({}, map[], {}, map[a := Reused(slug), b := LabelFree(slug)])
    else if n == 16 then State({}, map[], {}, map[a := Reused(slug), b := PreChecked(slug)])
    else if n == 17 then State({}, map[], {}, map[a := Reused(slug), b := Reserved(slug)])
    else if n == 18 then State({other}, map[slug := b], {}, map[a := Reused(slug)])
    else State({own, other}, map[slug := b], {}, map[])
  }

  function RaceEvents(a: int, b: int): seq<Event> {
    [Request(a, "demo"), Begin(a, "demo"), Request(a, "demo"), CheckLabel(a), PreCheck(a), Claim(a), Commit(a),
     Begin(a, "demo"), CheckLabel(a), PreCheck(a), Claim(a), Remove(a, "demo"),
     Request(b, "demo"), Begin(b, "demo"), CheckLabel(b), PreCheck(b), Claim(b), Commit(b), Commit(a)]
  }

  lemma RaceStart(zones: Zones, a: int, b: int, n: nat)
    requires a != b && zones(a) == "" && n < 7
    ensures Step(zones, RaceState(a, b, n), RaceEvents(a, b)[n], RaceState(a, b, n + 1))
  {
    var s, s' := RaceState(a, b, n), RaceState(a, b, n + 1);
    if n == 6 {
      assert s.deploys - {a} == s'.deploys;
    }
  }

  lemma RaceMiddle(zones: Zones, a: int, b: int, n: nat)
    requires a != b && zones(a) == "" && 7 <= n < 12
    ensures Step(zones, RaceState(a, b, n), RaceEvents(a, b)[n], RaceState(a, b, n + 1))
  {
    var s := RaceState(a, b, n);
    if n == 11 {
      assert s.claims - {"demo"} == map[];
    }
  }

  lemma RaceFinish(zones: Zones, a: int, b: int, n: nat)
    requires a != b && zones(a) == "" && 12 <= n < 19
    ensures Step(zones, RaceState(a, b, n), RaceEvents(a, b)[n], RaceState(a, b, n + 1))
  {
    var s, s' := RaceState(a, b, n), RaceState(a, b, n + 1);
    assert s'.deploys.Keys <= {a, b};
    if n == 17 || n == 18 {
      assert s.deploys - {RaceEvents(a, b)[n].org} == s'.deploys;
    }
  }

  lemma RaceRun(zones: Zones, a: int, b: int)
    returns (states: seq<State>, events: seq<Event>)
    requires a != b && zones(a) == ""
    ensures IsRun(zones, states, events)
    ensures !OneOrganizationPerSlug(states[|states| - 1].apps)
  {
    states, events := seq(20, (n: nat) => RaceState(a, b, n)), RaceEvents(a, b);
    forall n | 0 <= n < 19 ensures Step(zones, states[n], events[n], states[n + 1]) {
      if n < 7 {
        RaceStart(zones, a, b, n);
      } else if n < 12 {
        RaceMiddle(zones, a, b, n);
      } else {
        RaceFinish(zones, a, b, n);
      }
    }
    var last := states[19].apps;
    assert SandboxApp(a, "demo") in last && SandboxApp(b, "demo") in last;
  }

  ghost predicate AlwaysExclusive(zones: Zones) {
    forall states: seq<State>, events: seq<Event>, n: nat | IsRun(zones, states, events) && n < |states| ::
      OneOrganizationPerSlug(states[n].apps)
  }

  /** In every run, any two sandbox Apps with one slug belong to one organization, if and only if every
      organization's sandbox environment has a hosted zone: the claim table alone does not suffice. */
  lemma ExclusiveIffEveryZoneSet(zones: Zones)
    ensures AlwaysExclusive(zones) <==> EveryZoneSet(zones)
  {
    if EveryZoneSet(zones) {
      forall states: seq<State>, events: seq<Event>, n: nat | IsRun(zones, states, events) && n < |states|
        ensures OneOrganizationPerSlug(states[n].apps)
      {
        RunKeepsInvariant(zones, states, events, n);
      }
    } else {
      var a :| zones(a) == "";
      var states, events := RaceRun(zones, a, a + 1);
      assert !OneOrganizationPerSlug(states[|states| - 1].apps);
    }
  }
}

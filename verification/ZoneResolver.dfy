/** Matching a redirect host to the environment that owns it, by longest parent zone. */
module ZoneResolver {
  import opened Common

  /** An environment and its hosted zone; "" when it has none. */
  datatype Environment = Environment(id: int, zone: string)

  /** ASCII lower case. */
  function Lower(s: string): string {
    seq(|s|, i requires 0 <= i < |s| => if 'A' <= s[i] <= 'Z' then s[i] - 'A' + 'a' else s[i])
  }

  predicate EndsWith(s: string, suffix: string) {
    |suffix| <= |s| && s[|s| - |suffix|..] == suffix
  }

  /** `host` is the zone itself or a name below it. */
  predicate LabelMatches(host: string, zone: string) {
    zone != "" && (host == zone || EndsWith(host, "." + zone))
  }

  predicate Owns(env: Environment, host: string) {
    LabelMatches(host, Lower(env.zone))
  }

  /** `r` is an owner of `host` with a longest zone, or there is no owner. */
  ghost predicate IsResolution(envs: seq<Environment>, host: string, r: Option<Environment>) {
    match r
    case None => forall e | e in envs :: !Owns(e, host)
    case Some(best) =>
      && best in envs && Owns(best, host)
      && forall e | e in envs && Owns(e, host) :: |Lower(e.zone)| <= |Lower(best.zone)|
  }

  /** Every owner scanned before `best` has a shorter zone. */
  ghost predicate IsFirstLongest(envs: seq<Environment>, host: string, best: Environment) {
    exists i :: 0 <= i < |envs| && envs[i] == best &&
                forall j | 0 <= j < i && Owns(envs[j], host) :: |Lower(envs[j].zone)| < |Lower(best.zone)|
  }

  method ResolveEnvironment(envs: seq<Environment>, scheme: string, hostname: string) returns (r: Option<Environment>)
    ensures scheme != "https" || hostname == "" ==> r == None
    ensures scheme == "https" && hostname != "" ==> IsResolution(envs, Lower(hostname), r)
    ensures r.Some? ==> IsFirstLongest(envs, Lower(hostname), r.value)
  {
    if scheme != "https" {
      return None;
    }
    var host := Lower(hostname);
    if host == "" {
      return None;
    }
    var best: Option<Environment> := None;
    var bestLength := -1;
    for i := 0 to |envs|
      invariant best.None? ==> bestLength == -1
      invariant best.Some? ==> bestLength == |Lower(best.value.zone)|
      invariant IsResolution(envs[..i], host, best)
      invariant best.Some? ==> IsFirstLongest(envs, host, best.value)
    {
      assert envs[..i + 1] == envs[..i] + [envs[i]];
      var zone := Lower(envs[i].zone);
      if zone == "" {
        continue;
      }
      if host == zone || EndsWith(host, "." + zone) {
        if |zone| > bestLength {
          best := Some(envs[i]);
          bestLength := |zone|;
        }
      }
    }
    assert envs[..|envs|] == envs;
    return best;
  }

  /** A matching zone is the tail of the host of its own length, so equally long matches are the same zone. */
  lemma EquallyLongMatchesAgree(host: string, a: string, b: string)
    requires LabelMatches(host, a) && LabelMatches(host, b) && |a| == |b|
    ensures a == b
  {
    MatchIsTail(host, a);
    MatchIsTail(host, b);
  }

  lemma MatchIsTail(host: string, zone: string)
    requires LabelMatches(host, zone)
    ensures |zone| <= |host| && host[|host| - |zone|..] == zone
  {
    if host != zone {
      var dotted := "." + zone;
      assert host[|host| - |zone|..] == host[|host| - |dotted|..][1..] == dotted[1..] == zone;
    }
  }

  /** The chosen zone does not depend on the order, or repetition, in which environments are scanned. */
  lemma ZoneIgnoresScanOrder(a: seq<Environment>, b: seq<Environment>, host: string, r: Option<Environment>,
                             s: Option<Environment>)
    requires forall e :: e in a <==> e in b
    requires IsResolution(a, host, r) && IsResolution(b, host, s)
    ensures r.Some? == s.Some?
    ensures r.Some? ==> Lower(r.value.zone) == Lower(s.value.zone)
  {
    if r.Some? && s.Some? {
      EquallyLongMatchesAgree(host, Lower(r.value.zone), Lower(s.value.zone));
    }
  }

  /** Nested zones resolve inward: the owner chosen lies inside every other zone that matches the host. */
  lemma ChosenZoneIsInnermost(envs: seq<Environment>, host: string, r: Option<Environment>, e: Environment)
    requires IsResolution(envs, host, r) && e in envs && Owns(e, host)
    ensures r.Some? && LabelMatches(Lower(r.value.zone), Lower(e.zone))
  {
    var inner, outer := Lower(r.value.zone), Lower(e.zone);
    MatchIsTail(host, inner);
    MatchIsTail(host, outer);
    if |inner| == |outer| {
      EquallyLongMatchesAgree(host, inner, outer);
    } else {
      var dotted := "." + outer;
      assert host != outer;
      assert inner[|inner| - |dotted|..] == host[|host| - |dotted|..] == dotted;
    }
  }

  // ------------------------------------------------------- the meaning, written out

  /** An environment owns a host that ends in its zone, at the start of the host or right after a dot. */
  lemma OwnsIff(env: Environment, host: string)
    ensures var zone := Lower(env.zone);
            Owns(env, host) <==>
            && zone != "" && |zone| <= |host| && host[|host| - |zone|..] == zone
            && (|zone| == |host| || host[|host| - |zone| - 1] == '.')
  {
    var zone := Lower(env.zone);
    if zone != "" && |zone| < |host| {
      var tail := host[|host| - |zone| - 1..];
      assert tail[1..] == host[|host| - |zone|..];
      assert tail == [tail[0]] + tail[1..];
      assert ("." + zone)[0] == '.' && ("." + zone)[1..] == zone;
    }
    if |zone| == |host| {
      assert host[|host| - |zone|..] == host;
    }
  }

  /** Hosts and zones are compared letter by letter, whatever their case. */
  lemma LowerIff(s: string, i: nat)
    requires i < |s|
    ensures |Lower(s)| == |s| && Lower(Lower(s)) == Lower(s)
    ensures !('A' <= Lower(s)[i] <= 'Z')
    ensures 'A' <= s[i] <= 'Z' <==> Lower(s)[i] != s[i]
    ensures 'A' <= s[i] <= 'Z' ==> Lower(s)[i] as int - 'a' as int == s[i] as int - 'A' as int
  {}
}

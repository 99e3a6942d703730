/** What a list of permission statements grants once it is applied: the IAM policy document built from it. */
module PermissionPolicy {
  import opened Common

  /** One statement of a draft. `sid` is "" while none has been assigned; statements read back from AWS carry
      no effect, and no reader of a statement looks at it. */
  datatype Statement = Statement(
    sid: string,
    service: string,
    effect: Option<string>,
    levels: seq<string>,
    resources: seq<string>
  )

  /** One granted (service, access level, resource pattern). */
  datatype Permission = Permission(service: string, level: string, resource: string)

  const S3 := "s3"
  const EVERYTHING := "*"
  const BUCKET_ARN := "arn:aws:s3:::"

  predicate IsWholeBucket(arn: string) {
    BUCKET_ARN <= arn && '/' !in arn[|BUCKET_ARN|..]
  }

  /** The resource patterns one stored resource stands for: a whole bucket includes its objects. */
  function Reach(service: string, resource: string): set<string> {
    if service == S3 && IsWholeBucket(resource) then {resource, resource + "/*"} else {resource}
  }

  /** A statement without resources applies to all of them. */
  ghost function AppliesTo(service: string, resources: seq<string>): set<string> {
    if resources == [] then {EVERYTHING} else set r, x | r in resources && x in Reach(service, r) :: x
  }

  ghost function Grants(service: string, levels: seq<string>, resources: seq<string>): set<Permission> {
    if service == "" then {}
    else set level, x | level in levels && x in AppliesTo(service, resources) :: Permission(service, level, x)
  }

  ghost function GrantedBy(s: Statement): set<Permission> {
    Grants(s.service, s.levels, s.resources)
  }

  ghost function Granted(statements: seq<Statement>): set<Permission> {
    set s, p | s in statements && p in GrantedBy(s) :: p
  }

  // ----------------------------------------------------------------- the document

  /** A statement of the IAM document; its actions are those of the access levels of the service. */
  datatype PolicyStatement = PolicyStatement(service: string, levels: seq<string>, resources: seq<string>)

  ghost function StatementAllows(d: PolicyStatement): set<Permission> {
    set level, x | level in d.levels && x in d.resources :: Permission(d.service, level, x)
  }

  ghost function DocumentAllows(document: seq<PolicyStatement>): set<Permission> {
    set d, p | d in document && p in StatementAllows(d) :: p
  }

  /** Adds the object pattern of every whole bucket that is not listed yet. */
  method ExpandWholeBuckets(resources: seq<string>) returns (expanded: seq<string>)
    ensures expanded == [] <==> resources == []
    ensures resources != [] ==> forall x :: x in expanded <==> x in AppliesTo(S3, resources)
  {
    expanded := resources;
    for i := 0 to |resources|
      invariant forall x :: x in expanded <==> x in resources || exists r | r in resources[..i] :: x in Reach(S3, r)
      invariant |resources| <= |expanded| && (i == 0 ==> expanded == resources)
    {
      var arn := resources[i];
      assert resources[..i + 1] == resources[..i] + [arn];
      ghost var before := expanded;
      if IsWholeBucket(arn) {
        var objects := arn + "/*";
        if objects !in expanded {
          expanded := expanded + [objects];
        }
      }
      assert arn in resources;
      assert forall x :: x in expanded <==> x in before || x in Reach(S3, arn);
    }
    assert resources[..|resources|] == resources;
    forall x | x in resources ensures x in Reach(S3, x) {}
  }

  /** The document allows exactly what the statements grant, whatever their order, sids and effects; every
      statement in it names actions and resources. */
  method BuildPolicyDocument(statements: seq<Statement>) returns (document: seq<PolicyStatement>)
    ensures DocumentAllows(document) == Granted(statements)
    ensures forall d | d in document :: d.service != "" && d.levels != [] && d.resources != []
  {
    document := [];
    for i := 0 to |statements|
      invariant DocumentAllows(document) == Granted(statements[..i])
      invariant forall d | d in document :: d.service != "" && d.levels != [] && d.resources != []
    {
      var s := statements[i];
      assert statements[..i + 1] == statements[..i] + [s];
      GrantedAfterAppend(statements[..i], s);
      if s.service == "" || s.levels == [] {
        assert GrantedBy(s) == {};
        continue;
      }
      var resources := s.resources;
      if s.service == S3 {
        resources := ExpandWholeBuckets(s.resources);
      }
      var d := PolicyStatement(s.service, s.levels, if resources != [] then resources else [EVERYTHING]);
      assert StatementAllows(d) == GrantedBy(s) by {
        forall x ensures x in d.resources <==> x in AppliesTo(s.service, s.resources) {
          if s.resources != [] && s.service != S3 && x in s.resources {
            assert x in Reach(s.service, x);
          }
        }
      }
      DocumentAfterAppend(document, d);
      document := document + [d];
    }
    assert statements[..|statements|] == statements;
  }

  lemma DocumentAfterAppend(document: seq<PolicyStatement>, d: PolicyStatement)
    ensures DocumentAllows(document + [d]) == DocumentAllows(document) + StatementAllows(d)
  {
    var after := document + [d];
    assert forall t :: t in after <==> t in document || t == d;
    forall p ensures p in DocumentAllows(after) <==> p in DocumentAllows(document) || p in StatementAllows(d) {}
  }

  // ------------------------------------------------------- how grants follow a list

  lemma GrantedAfterAppend(statements: seq<Statement>, s: Statement)
    ensures Granted(statements + [s]) == Granted(statements) + GrantedBy(s)
  {
    var after := statements + [s];
    assert forall t :: t in after <==> t in statements || t == s;
    forall p ensures p in Granted(after) <==> p in Granted(statements) || p in GrantedBy(s) {}
  }

  lemma GrantedAfterUpdate(statements: seq<Statement>, i: nat, s: Statement, extra: set<Permission>)
    requires i < |statements| && GrantedBy(s) == GrantedBy(statements[i]) + extra
    ensures Granted(statements[i := s]) == Granted(statements) + extra
  {
    var after := statements[i := s];
    forall p ensures p in Granted(after) <==> p in Granted(statements) || p in extra {
      if p in Granted(statements) {
        var t :| t in statements && p in GrantedBy(t);
        var j :| 0 <= j < |statements| && statements[j] == t;
        assert after[j] in after && p in GrantedBy(after[j]);
      }
      if p in extra {
        assert after[i] in after && p in GrantedBy(after[i]);
      }
      if p in Granted(after) {
        var t :| t in after && p in GrantedBy(t);
        var j :| 0 <= j < |after| && after[j] == t;
        assert statements[j] in statements;
      }
    }
  }

  /** Access levels add up. */
  lemma GrantsOfLevels(service: string, levels: seq<string>, more: seq<string>, all: seq<string>,
                       resources: seq<string>)
    requires forall l :: l in all <==> l in levels || l in more
    ensures Grants(service, all, resources) == Grants(service, levels, resources) + Grants(service, more, resources)
  {}

  /** Resources add up, as long as there are some on both sides. */
  lemma GrantsOfResources(service: string, levels: seq<string>, a: seq<string>, b: seq<string>, all: seq<string>)
    requires a != [] && b != [] && forall r :: r in all <==> r in a || r in b
    ensures Grants(service, levels, all) == Grants(service, levels, a) + Grants(service, levels, b)
  {
    assert a[0] in all;
    forall x ensures x in AppliesTo(service, all) <==> x in AppliesTo(service, a) || x in AppliesTo(service, b) {}
  }

  lemma SameResourcesGrantTheSame(service: string, levels: seq<string>, a: seq<string>, b: seq<string>)
    requires forall r :: r in a <==> r in b
    ensures Grants(service, levels, a) == Grants(service, levels, b)
  {
    assert (a == []) == (b == []) by {
      assert a != [] ==> a[0] in b;
      assert b != [] ==> b[0] in a;
    }
    forall x ensures x in AppliesTo(service, a) <==> x in AppliesTo(service, b) {}
  }

  lemma NoResourcesMeanEverything(service: string, levels: seq<string>)
    ensures Grants(service, levels, []) == Grants(service, levels, [EVERYTHING])
  {
    assert EVERYTHING in [EVERYTHING] && Reach(service, EVERYTHING) == {EVERYTHING};
    assert AppliesTo(service, [EVERYTHING]) == {EVERYTHING};
  }

  /** Everything is applied to only by an empty list or by naming it. */
  lemma EverythingIff(service: string, resources: seq<string>)
    ensures EVERYTHING in AppliesTo(service, resources) <==> resources == [] || EVERYTHING in resources
  {
    forall r | EVERYTHING in Reach(service, r) ensures r == EVERYTHING {
      assert |r + "/*"| != |EVERYTHING|;
    }
    assert EVERYTHING in Reach(service, EVERYTHING);
  }

  /** Two resource lists, one with a part of the other's resources: what is granted shrinks, except exactly when
      the list is emptied, which widens a statement to everything. */
  lemma FewerResourcesGrantLessIff(service: string, levels: seq<string>, before: seq<string>, after: seq<string>)
    requires forall r | r in after :: r in before
    ensures Grants(service, levels, after) <= Grants(service, levels, before) <==>
            after != [] || before == [] || EVERYTHING in before || levels == [] || service == ""
  {
    EverythingIff(service, before);
    if after != [] {
      assert after[0] in before;
      forall x | x in AppliesTo(service, after) ensures x in AppliesTo(service, before) {}
    } else if service != "" && levels != [] {
      assert Permission(service, levels[0], EVERYTHING) in Grants(service, levels, after);
    }
  }

  // ------------------------------------------------------- the meaning, written out

  /** What one resource stands for: itself and, for S3, the objects of a bucket named without a key. */
  lemma ReachIff(service: string, r: string, x: string)
    ensures x in Reach(service, r) <==>
            || x == r
            || (service == "s3" && "arn:aws:s3:::" <= r && '/' !in r[|"arn:aws:s3:::"|..] && x == r + "/*")
  {}

  /** A statement of a service grants each of its levels on everything if it names no resource, else on what each
      resource it names stands for. */
  lemma GrantedByIff(s: Statement, p: Permission)
    ensures p in GrantedBy(s) <==>
            && s.service != "" && p.service == s.service && p.level in s.levels
            && if s.resources == [] then p.resource == "*"
               else exists r | r in s.resources :: p.resource in Reach(s.service, r)
  {
    if p in GrantedBy(s) {
      var level, x :| level in s.levels && x in AppliesTo(s.service, s.resources) &&
                      p == Permission(s.service, level, x);
    }
    if s.service != "" && p.service == s.service && p.level in s.levels &&
       p.resource in AppliesTo(s.service, s.resources) {
      assert p == Permission(s.service, p.level, p.resource);
    }
  }
}

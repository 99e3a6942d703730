/** The permission-statement editor: edits aimed at one statement, and merging a requested scope. */
module PermissionStatements {
  import opened Common
  import opened PermissionPolicy

  // ------------------------------------------------------------------------- sids

  /** The ids a backfill may hand out: none empty, none twice, none in use. */
  ghost predicate FreshIds(ids: nat -> string, statements: seq<Statement>) {
    && (forall i: nat :: ids(i) != "")
    && (forall i: nat, j: nat | ids(i) == ids(j) :: i == j)
    && (forall i: nat, s | s in statements :: s.sid != ids(i))
  }

  function WithSid(s: Statement, id: string): Statement {
    if s.sid == "" then s.(sid := id) else s
  }

  function WithSids(statements: seq<Statement>, ids: nat -> string): seq<Statement> {
    seq(|statements|, i requires 0 <= i < |statements| => WithSid(statements[i], ids(i)))
  }

  ghost predicate UniqueSids(statements: seq<Statement>) {
    && (forall i | 0 <= i < |statements| :: statements[i].sid != "")
    && (forall i, j | 0 <= i < j < |statements| :: statements[i].sid != statements[j].sid)
  }

  /** Equality up to the sid, which never reaches AWS. */
  predicate StatementsEqual(a: seq<Statement>, b: seq<Statement>) {
    |a| == |b| && forall i | 0 <= i < |a| :: a[i].(sid := "") == b[i].(sid := "")
  }

  /** Backfilling makes every sid usable as a target and leaves what is granted alone. */
  lemma BackfillIsHarmless(statements: seq<Statement>, ids: nat -> string)
    requires FreshIds(ids, statements)
    requires forall i, j | 0 <= i < j < |statements| && statements[i].sid != "" ::
               statements[i].sid != statements[j].sid
    ensures UniqueSids(WithSids(statements, ids))
    ensures StatementsEqual(WithSids(statements, ids), statements)
    ensures Granted(WithSids(statements, ids)) == Granted(statements)
    ensures WithSids(WithSids(statements, ids), ids) == WithSids(statements, ids)
  {
    var filled := WithSids(statements, ids);
    forall i, j | 0 <= i < j < |filled| ensures filled[i].sid != filled[j].sid {
      assert statements[i] in statements && statements[j] in statements;
    }
    BackfillGrantsTheSame(statements, ids);
  }

  lemma BackfillGrantsTheSame(statements: seq<Statement>, ids: nat -> string)
    ensures Granted(WithSids(statements, ids)) == Granted(statements)
  {
    var filled := WithSids(statements, ids);
    forall p | p in Granted(statements) ensures p in Granted(filled) {
      var s :| s in statements && p in GrantedBy(s);
      var i :| 0 <= i < |statements| && statements[i] == s;
      assert filled[i] == WithSid(statements[i], ids(i)) && GrantedBy(filled[i]) == GrantedBy(statements[i]);
      assert filled[i] in filled;
    }
    forall p | p in Granted(filled) ensures p in Granted(statements) {
      var s :| s in filled && p in GrantedBy(s);
      var i :| 0 <= i < |filled| && filled[i] == s;
      assert filled[i] == WithSid(statements[i], ids(i)) && GrantedBy(filled[i]) == GrantedBy(statements[i]);
      assert statements[i] in statements;
    }
  }

  // ------------------------------------------------------------------ single edits

  datatype Action = AddService | RemoveService | AddLevel | RemoveLevel | AddResource | RemoveResource | Unsupported

  datatype Edit = Edit(action: Action, service: string, target: string, level: string, arn: string)

  function Without(items: seq<string>, x: string): seq<string> {
    Select(items, (y: string) => y != x)
  }

  function WithOne(items: seq<string>, x: string): seq<string> {
    if x in items then items else items + [x]
  }

  /** The first statement carrying `sid`. */
  function Find(statements: seq<Statement>, sid: string): (found: Option<nat>)
    ensures found.Some? ==> found.value < |statements| && statements[found.value].sid == sid
    ensures found.None? ==> forall s | s in statements :: s.sid != sid
  {
    if statements == [] then None
    else if statements[0].sid == sid then Some(0)
    else
      match Find(statements[1..], sid)
      case Some(i) => Some(i + 1)
      case None => None
  }

  /** What an edit makes of the statement it is aimed at. */
  function EditOne(s: Statement, e: Edit): Statement {
    match e.action
    case AddLevel => if e.level == "" then s else s.(levels := WithOne(s.levels, e.level))
    case RemoveLevel => if e.level == "" then s else s.(levels := Without(s.levels, e.level))
    case AddResource => if e.arn == "" then s else s.(resources := WithOne(s.resources, e.arn))
    case RemoveResource => if e.arn == "" then s else s.(resources := Without(s.resources, e.arn))
    case _ => s
  }

  function NewStatement(sid: string, service: string): Statement {
    Statement(sid, service, Some("Allow"), [], [])
  }

  function DropSid(statements: seq<Statement>, sid: string): seq<Statement> {
    Select(statements, (s: Statement) => s.sid != sid)
  }

  function Edited(statements: seq<Statement>, e: Edit, newSid: string): seq<Statement> {
    match e.action
    case AddService => if e.service == "" then statements else statements + [NewStatement(newSid, e.service)]
    case RemoveService => if e.target == "" then statements else DropSid(statements, e.target)
    case _ =>
      match Find(statements, e.target)
      case Some(i) => if e.target == "" then statements else statements[i := EditOne(statements[i], e)]
      case None => statements
  }

  /** `r` is the bucket itself or a key prefix inside it. */
  predicate InBucket(r: string, bucket: string) {
    r == bucket || bucket + "/" <= r
  }

  function OutsideBucket(resources: seq<string>, bucket: string): seq<string> {
    Select(resources, (r: string) => !InBucket(r, bucket))
  }

  function DropBucket(s: Statement, sid: string, bucket: string): Statement {
    if s.sid == sid then s.(resources := OutsideBucket(s.resources, bucket)) else s
  }

  function BucketDropped(statements: seq<Statement>, sid: string, bucket: string): seq<Statement> {
    seq(|statements|, i requires 0 <= i < |statements| => DropBucket(statements[i], sid, bucket))
  }

  /** An edit from the editor: S3 resources are composed from a bucket and a key prefix, and removed by bucket. */
  function Applied(statements: seq<Statement>, e: Edit, s3Prefix: string, newSid: string): seq<Statement> {
    if e.service == S3 && e.action == AddResource && s3Prefix != "" then
      Edited(statements, e.(arn := e.arn + "/" + s3Prefix), newSid)
    else if e.service == S3 && e.action == RemoveResource then BucketDropped(statements, e.target, e.arn)
    else Edited(statements, e, newSid)
  }

  // ----------------------------------------------------------------------- merging

  function ResourceSet(resources: seq<string>): set<string> {
    set r | r in resources
  }

  predicate SameResources(s: Statement, service: string, resources: seq<string>) {
    s.service == service && ResourceSet(s.resources) == ResourceSet(resources)
  }

  function FindScope(statements: seq<Statement>, service: string, resources: seq<string>): (found: Option<nat>)
    ensures found.Some? ==> found.value < |statements| && SameResources(statements[found.value], service, resources)
    ensures found.None? ==> forall s | s in statements :: !SameResources(s, service, resources)
  {
    if statements == [] then None
    else if SameResources(statements[0], service, resources) then Some(0)
    else
      match FindScope(statements[1..], service, resources)
      case Some(i) => Some(i + 1)
      case None => None
  }

  function AddLevels(levels: seq<string>, more: seq<string>): seq<string> {
    if more == [] then levels else WithOne(AddLevels(levels, more[..|more| - 1]), more[|more| - 1])
  }

  function Upserted(statements: seq<Statement>, service: string, levels: seq<string>, resources: seq<string>,
                    newSid: string)
    : seq<Statement>
  {
    match FindScope(statements, service, resources)
    case Some(i) => statements[i := statements[i].(levels := AddLevels(statements[i].levels, levels))]
    case None => statements + [Statement(newSid, service, Some("Allow"), AddLevels([], levels), resources)]
  }

  // ------------------------------------------------------------------ the request

  class PermissionRequest {
    var statements: seq<Statement>

    constructor (statements: seq<Statement>)
      ensures this.statements == statements
    {
      this.statements := statements;
    }

    method EnsureSids(ids: nat -> string) returns (changed: bool)
      modifies this
      ensures statements == WithSids(old(statements), ids)
      ensures changed <==> exists s | s in old(statements) :: s.sid == ""
      ensures |statements| == |old(statements)|
      ensures forall i | 0 <= i < |statements| ::
                statements[i] == if old(statements)[i].sid != "" then old(statements)[i]
                                 else old(statements)[i].(sid := ids(i))
    {
      changed := false;
      for i := 0 to |statements|
        invariant |statements| == |old(statements)|
        invariant forall j | 0 <= j < i :: statements[j] == WithSid(old(statements)[j], ids(j))
        invariant forall j | i <= j < |statements| :: statements[j] == old(statements)[j]
        invariant changed <==> exists j :: 0 <= j < i && old(statements)[j].sid == ""
      {
        if statements[i].sid == "" {
          statements := statements[i := statements[i].(sid := ids(i))];
          changed := true;
        }
      }
    }

    method UpdateStatements(e: Edit, ids: nat -> string, newSid: string) returns (affected: string)
      modifies this
      ensures statements == Edited(WithSids(old(statements), ids), e, newSid)
      ensures affected == if e.action == AddService && e.service != "" then newSid else e.target
    {
      var _ := EnsureSids(ids);
      affected := e.target;
      if e.action == AddService && e.service != "" {
        statements := statements + [NewStatement(newSid, e.service)];
        affected := newSid;
      } else if e.action == RemoveService && e.target != "" {
        statements := DropSid(statements, e.target);
      } else if e.action == AddLevel && e.target != "" && e.level != "" {
        var i := Find(statements, e.target);
        if i.Some? && e.level !in statements[i.value].levels {
          statements := statements[i.value := statements[i.value].(levels := statements[i.value].levels + [e.level])];
        }
      } else if e.action == RemoveLevel && e.target != "" && e.level != "" {
        var i := Find(statements, e.target);
        if i.Some? {
          var s := statements[i.value];
          statements := statements[i.value := s.(levels := Without(s.levels, e.level))];
        }
      } else if e.action == AddResource && e.target != "" && e.arn != "" {
        var i := Find(statements, e.target);
        if i.Some? && e.arn !in statements[i.value].resources {
          var s := statements[i.value];
          statements := statements[i.value := s.(resources := s.resources + [e.arn])];
        }
      } else if e.action == RemoveResource && e.target != "" && e.arn != "" {
        var i := Find(statements, e.target);
        if i.Some? {
          var s := statements[i.value];
          statements := statements[i.value := s.(resources := Without(s.resources, e.arn))];
        }
      }
    }

    method ApplyStatementAction(e: Edit, s3Prefix: string, ids: nat -> string, newSid: string)
      returns (affected: string)
      modifies this
      ensures statements == Applied(WithSids(old(statements), ids), e, s3Prefix, newSid)
      ensures affected == if e.action == AddService && e.service != "" then newSid else e.target
    {
      if e.service == S3 && e.action == AddResource && s3Prefix != "" {
        affected := UpdateStatements(e.(arn := e.arn + "/" + s3Prefix), ids, newSid);
      } else if e.service == S3 && e.action == RemoveResource {
        var _ := EnsureSids(ids);
        ghost var filled := statements;
        for i := 0 to |statements|
          invariant |statements| == |filled|
          invariant forall j | 0 <= j < i :: statements[j] == DropBucket(filled[j], e.target, e.arn)
          invariant forall j | i <= j < |statements| :: statements[j] == filled[j]
        {
          if statements[i].sid == e.target {
            statements := statements[i := statements[i].(resources := OutsideBucket(statements[i].resources, e.arn))];
          }
        }
        affected := e.target;
      } else {
        affected := UpdateStatements(e, ids, newSid);
      }
    }

    method Upsert(service: string, levels: seq<string>, resources: seq<string>, ids: nat -> string, newSid: string)
      modifies this
      ensures statements == Upserted(WithSids(old(statements), ids), service, levels, resources, newSid)
    {
      var _ := EnsureSids(ids);
      ghost var filled := statements;
      var found := FindScope(statements, service, resources);
      var i := if found.Some? then found.value else |statements|;
      if found.None? {
        statements := statements + [Statement(newSid, service, Some("Allow"), [], resources)];
      }
      ghost var start := statements;
      for n := 0 to |levels|
        invariant i < |statements| && |statements| == |start|
        invariant statements == start[i := start[i].(levels := AddLevels(start[i].levels, levels[..n]))]
      {
        assert levels[..n + 1][..n] == levels[..n];
        if levels[n] !in statements[i].levels {
          statements := statements[i := statements[i].(levels := statements[i].levels + [levels[n]])];
        }
      }
      assert levels[..|levels|] == levels;
    }

    /** Resets the draft to the applied baseline. */
    method Cancel(baseline: seq<Statement>, ids: nat -> string)
      modifies this
      ensures statements == WithSids(baseline, ids) && StatementsEqual(statements, baseline)
    {
      statements := baseline;
      var _ := EnsureSids(ids);
      forall i | 0 <= i < |baseline| ensures statements[i].(sid := "") == baseline[i].(sid := "") {
        assert statements[i] == WithSid(baseline[i], ids(i));
      }
    }
  }

  // ------------------------------------------------------------------- properties

  lemma {:induction false} AddLevelsMembers(levels: seq<string>, more: seq<string>)
    ensures forall l :: l in AddLevels(levels, more) <==> l in levels || l in more
  {
    if more == [] {
    } else {
      AddLevelsMembers(levels, more[..|more| - 1]);
      assert more == more[..|more| - 1] + [more[|more| - 1]];
    }
  }

  lemma {:induction false} AddLevelsTwice(levels: seq<string>, more: seq<string>)
    requires forall l | l in more :: l in levels
    ensures AddLevels(levels, more) == levels
  {
    if more == [] {
    } else {
      AddLevelsTwice(levels, more[..|more| - 1]);
    }
  }

  lemma {:induction false} SelectUpdateOutside(statements: seq<Statement>, i: nat, s: Statement, sid: string)
    requires i < |statements| && statements[i].sid == sid == s.sid
    ensures Select(statements[i := s], (x: Statement) => x.sid != sid) ==
            Select(statements, (x: Statement) => x.sid != sid)
  {
    if i == 0 {
      assert statements[i := s][1..] == statements[1..];
    } else {
      SelectUpdateOutside(statements[1..], i - 1, s, sid);
      assert statements[i := s][1..] == statements[1..][i - 1 := s];
    }
  }

  lemma {:induction false} SelectBucketDropped(statements: seq<Statement>, sid: string, bucket: string)
    ensures Select(BucketDropped(statements, sid, bucket), (x: Statement) => x.sid != sid) ==
            Select(statements, (x: Statement) => x.sid != sid)
  {
    if statements == [] {
    } else {
      SelectBucketDropped(statements[1..], sid, bucket);
      assert BucketDropped(statements, sid, bucket)[1..] == BucketDropped(statements[1..], sid, bucket);
    }
  }

  /** An edit aimed at one sid keeps every other statement, in place and unchanged; only adding a service
      appends a statement, under its own new sid. */
  lemma OtherStatementsUntouched(statements: seq<Statement>, e: Edit, s3Prefix: string, newSid: string)
    requires e.target != newSid
    ensures e.action == RemoveService && e.target != "" ==>
              forall s | s in Applied(statements, e, s3Prefix, newSid) :: s.sid != e.target
    ensures var others := (x: Statement) => x.sid != e.target;
            Select(Applied(statements, e, s3Prefix, newSid), others) ==
            Select(statements, others) +
            if e.action == AddService && e.service != "" then [NewStatement(newSid, e.service)] else []
  {
    var others := (x: Statement) => x.sid != e.target;
    var prefixed := e.service == S3 && e.action == AddResource && s3Prefix != "";
    var composed := if prefixed then e.(arn := e.arn + "/" + s3Prefix) else e;
    if e.service == S3 && e.action == RemoveResource {
      SelectBucketDropped(statements, e.target, e.arn);
    } else if e.action == AddService {
      if e.service != "" {
        SelectAppend(statements, NewStatement(newSid, e.service), others);
      }
    } else if e.action == RemoveService {
      if e.target != "" {
        SelectMembers(statements, others);
        SelectAllIff(Select(statements, others), others);
      }
    } else {
      var found := Find(statements, e.target);
      if found.Some? && e.target != "" {
        SelectUpdateOutside(statements, found.value, EditOne(statements[found.value], composed), e.target);
      }
    }
  }

  lemma {:induction false} FindUnique(statements: seq<Statement>, i: nat)
    requires UniqueSids(statements) && i < |statements|
    ensures Find(statements, statements[i].sid) == Some(i)
  {
    if i == 0 {
    } else {
      FindUnique(statements[1..], i - 1);
    }
  }

  /** What one edit of a level or a resource does to the permissions of the statement it is aimed at. The first
      resource narrows a statement that applied to everything; removing the last one widens it to everything. */
  lemma EditGrantsExactly(statements: seq<Statement>, e: Edit, newSid: string, i: nat)
    requires UniqueSids(statements) && i < |statements| && statements[i].sid == e.target
    ensures var s, after := statements[i], Edited(statements, e, newSid);
            match e.action
            case AddLevel =>
              |after| == |statements| &&
              GrantedBy(after[i]) ==
              GrantedBy(s) + if e.level == "" then {} else Grants(s.service, [e.level], s.resources)
            case RemoveLevel =>
              |after| == |statements| &&
              forall p :: p in GrantedBy(after[i]) <==> p in GrantedBy(s) && (e.level == "" || p.level != e.level)
            case AddResource =>
              |after| == |statements| &&
              GrantedBy(after[i]) == if e.arn == "" then GrantedBy(s)
                                     else if s.resources == [] then Grants(s.service, s.levels, [e.arn])
                                     else GrantedBy(s) + Grants(s.service, s.levels, [e.arn])
            case RemoveResource =>
              |after| == |statements| &&
              GrantsRemaining(s, after[i], (r: string) => e.arn != "" && r == e.arn)
            case _ => true
  {
    FindUnique(statements, i);
    var s := statements[i];
    match e.action
    case AddLevel =>
      GrantsOfLevels(s.service, s.levels, [e.level], WithOne(s.levels, e.level), s.resources);
    case RemoveLevel =>
      SelectMembers(s.levels, (y: string) => y != e.level);
    case AddResource =>
      if s.resources != [] {
        GrantsOfResources(s.service, s.levels, s.resources, [e.arn], WithOne(s.resources, e.arn));
      }
    case RemoveResource =>
      if e.arn != "" {
        SelectMembers(s.resources, (y: string) => y != e.arn);
        RemainingGrants(s, Without(s.resources, e.arn), (r: string) => e.arn != "" && r == e.arn);
      } else {
        RemainingGrants(s, s.resources, (r: string) => e.arn != "" && r == e.arn);
      }
    case _ =>
  }

  /** `after` grants what `s` grants through a resource that was not removed; if all were, every level on everything. */
  ghost predicate GrantsRemaining(s: Statement, after: Statement, removed: string -> bool) {
    if s.resources != [] && forall r | r in s.resources :: removed(r) then
      GrantedBy(after) == Grants(s.service, s.levels, [EVERYTHING])
    else
      forall p :: p in GrantedBy(after) <==>
        p in GrantedBy(s) &&
        (s.resources == [] || exists r | r in s.resources :: !removed(r) && p.resource in Reach(s.service, r))
  }

  lemma RemainingGrants(s: Statement, kept: seq<string>, removed: string -> bool)
    requires forall r :: r in kept <==> r in s.resources && !removed(r)
    ensures GrantsRemaining(s, s.(resources := kept), removed)
  {
    if kept != [] {
      assert kept[0] in kept;
    } else if s.resources != [] {
      NoResourcesMeanEverything(s.service, s.levels);
    } else {
      assert s.(resources := kept) == s;
    }
  }

  /** Which of a statement's resources an edit removes. */
  predicate Removes(e: Edit, r: string) {
    e.action == RemoveResource && if e.service == S3 then InBucket(r, e.arn) else e.arn != "" && r == e.arn
  }

  /** Removing a bucket leaves its target exactly what other resources reach; seen through a bucket's own ARN, exactly
      what lies outside the bucket. Removing the last resource widens it to everything. */
  lemma BucketRemovalIsExact(statements: seq<Statement>, e: Edit, s3Prefix: string, newSid: string, i: nat)
    requires e.service == S3 && e.action == RemoveResource && i < |statements|
    ensures var s, after := statements[i], Applied(statements, e, s3Prefix, newSid);
            |after| == |statements| &&
            if s.sid != e.target then after[i] == s
            else
              && after[i].sid == s.sid
              && GrantsRemaining(s, after[i], (r: string) => InBucket(r, e.arn))
              && (IsWholeBucket(e.arn) && (exists r :: r in s.resources && !InBucket(r, e.arn)) ==>
                    forall p :: p in GrantedBy(after[i]) <==> p in GrantedBy(s) && !InBucket(p.resource, e.arn))
  {
    var s := statements[i];
    SelectMembers(s.resources, (r: string) => !InBucket(r, e.arn));
    RemainingGrants(s, OutsideBucket(s.resources, e.arn), (r: string) => InBucket(r, e.arn));
    if IsWholeBucket(e.arn) {
      forall r, x | x in Reach(s.service, r) ensures InBucket(x, e.arn) == InBucket(r, e.arn) {
        ReachStaysInBucket(s.service, r, x, e.arn);
      }
    }
  }

  /** What a resource reaches is inside a whole bucket exactly when the resource is. */
  lemma ReachStaysInBucket(service: string, r: string, x: string, bucket: string)
    requires IsWholeBucket(bucket) && x in Reach(service, r)
    ensures InBucket(x, bucket) == InBucket(r, bucket)
  {
    NoSlash(bucket);
    if x != r && InBucket(x, bucket) {
      NoSlash(r);
      assert x == r + "/*" && x[|r|] == '/';
      assert (bucket + "/")[|bucket|] == '/';
      assert r == x[..|r|];
      assert x[|r|] in x && x != bucket;
      assert bucket == x[..|bucket|] && x[|bucket|] == '/';
      assert |bucket| == |r|;
    }
  }

  lemma NoSlash(arn: string)
    requires IsWholeBucket(arn)
    ensures '/' !in arn
  {
    assert arn == BUCKET_ARN + arn[|BUCKET_ARN|..];
  }

  /** A removal changes the resources of its target and nothing else of the draft. */
  lemma RemovalChangesTarget(statements: seq<Statement>, e: Edit, s3Prefix: string, newSid: string, i: nat)
    requires UniqueSids(statements) && i < |statements| && statements[i].sid == e.target && e.action == RemoveResource
    ensures var after := Applied(statements, e, s3Prefix, newSid);
            && |after| == |statements|
            && after == statements[i := statements[i].(resources := after[i].resources)]
            && forall r :: r in after[i].resources <==> r in statements[i].resources && !Removes(e, r)
  {
    FindUnique(statements, i);
    SelectMembers(statements[i].resources, (r: string) => !InBucket(r, e.arn));
    SelectMembers(statements[i].resources, (y: string) => y != e.arn);
    var after := Applied(statements, e, s3Prefix, newSid);
    forall j | 0 <= j < |statements| && j != i ensures after[j] == statements[j] {
      assert statements[j].sid != e.target;
    }
  }

  /** The target alone: a removal grants it nothing new, unless it takes the last resource of a statement that was
      confined to resources and grants some level. Then the statement comes to apply to everything. */
  lemma TargetGrantsNothingNewIff(statements: seq<Statement>, e: Edit, s3Prefix: string, newSid: string, i: nat)
    requires UniqueSids(statements) && i < |statements| && statements[i].sid == e.target && e.action == RemoveResource
    ensures var s, after := statements[i], Applied(statements, e, s3Prefix, newSid);
            |after| == |statements| &&
            (GrantedBy(after[i]) <= GrantedBy(s) <==>
             (exists r :: r in s.resources && !Removes(e, r)) || s.resources == [] || EVERYTHING in s.resources ||
             s.levels == [] || s.service == "")
  {
    var s, after := statements[i], Applied(statements, e, s3Prefix, newSid);
    RemovalChangesTarget(statements, e, s3Prefix, newSid, i);
    assert after[i].resources != [] ==> after[i].resources[0] in s.resources && !Removes(e, after[i].resources[0]);
    FewerResourcesGrantLessIff(s.service, s.levels, s.resources, after[i].resources);
  }

  lemma EmptyIff(items: seq<string>)
    ensures items == [] <==> forall x :: x !in items
  {
    if items == [] {
    } else {
      assert items[0] in items;
    }
  }

  /** Changing one statement of a draft grants nothing new exactly when the draft granted what it now grants. */
  lemma UpdateGrantsNothingNewIff(statements: seq<Statement>, i: nat, s: Statement)
    requires i < |statements|
    ensures Granted(statements[i := s]) <= Granted(statements) <==> GrantedBy(s) <= Granted(statements)
  {
    var after := statements[i := s];
    assert after[i] in after;
    forall t | t in after ensures t == s || t in statements {}
  }

  /** Removing a resource from a draft grants nothing new if and only if some resource of the target remains, it had
      none, it names no service, or the draft already granted each of its levels on everything. */
  lemma RemovalGrantsNothingNewIff(statements: seq<Statement>, e: Edit, s3Prefix: string, newSid: string, i: nat)
    requires UniqueSids(statements) && i < |statements| && statements[i].sid == e.target && e.action == RemoveResource
    ensures var s := statements[i];
            Granted(Applied(statements, e, s3Prefix, newSid)) <= Granted(statements) <==>
            || (exists r :: r in s.resources && !Removes(e, r))
            || s.resources == []
            || s.service == ""
            || forall level | level in s.levels :: Permission(s.service, level, EVERYTHING) in Granted(statements)
  {
    var s, after := statements[i], Applied(statements, e, s3Prefix, newSid);
    RemovalChangesTarget(statements, e, s3Prefix, newSid, i);
    UpdateGrantsNothingNewIff(statements, i, after[i]);
    assert GrantedBy(s) <= Granted(statements);
    if (exists r :: r in s.resources && !Removes(e, r)) || s.resources == [] || s.service == "" {
      TargetGrantsNothingNewIff(statements, e, s3Prefix, newSid, i);
    } else {
      EmptyIff(after[i].resources);
      assert AppliesTo(s.service, []) == {EVERYTHING};
      forall level ensures level in s.levels <==> Permission(s.service, level, EVERYTHING) in GrantedBy(after[i]) {}
    }
  }

  /** Such a removal exists: one table, one level, and the table is taken away. */
  lemma RemovalCanGrantEverything() returns (statements: seq<Statement>, e: Edit)
    ensures UniqueSids(statements) && |statements| == 1 && e.action == RemoveResource
    ensures Permission("dynamodb", "Read", EVERYTHING) !in Granted(statements)
    ensures Permission("dynamodb", "Read", EVERYTHING) in Granted(Applied(statements, e, "", ""))
  {
    var s := Statement("a", "dynamodb", Some("Allow"), ["Read"], ["table"]);
    statements, e := [s], Edit(RemoveResource, "dynamodb", "a", "", "table");
    FindUnique(statements, 0);
    SelectNone(s.resources, (y: string) => y != e.arn);
    var after := s.(resources := []);
    assert Applied(statements, e, "", "") == [after];
    assert "Read" in after.levels && EVERYTHING in AppliesTo("dynamodb", []);
    assert Permission("dynamodb", "Read", EVERYTHING) in GrantedBy(after);
    EverythingIff("dynamodb", s.resources);
  }

  /** Removing a bucket undoes adding a key prefix of it to a statement that had nothing in the bucket. */
  lemma BucketRemovalUndoesAddition(statements: seq<Statement>, add: Edit, s3Prefix: string, newSid: string)
    requires UniqueSids(statements)
    requires add.service == S3 && add.action == AddResource && add.target != "" && add.arn != ""
    requires forall s | s in statements && s.sid == add.target :: forall r | r in s.resources :: !InBucket(r, add.arn)
    ensures Applied(Applied(statements, add, s3Prefix, newSid), add.(action := RemoveResource), s3Prefix, newSid) ==
            statements
  {
    var arn := if s3Prefix != "" then add.arn + "/" + s3Prefix else add.arn;
    assert InBucket(arn, add.arn);
    var added := Applied(statements, add, s3Prefix, newSid);
    forall i | 0 <= i < |statements| ensures DropBucket(added[i], add.target, add.arn) == statements[i] {
      assert statements[i] in statements;
      if statements[i].sid == add.target {
        FindUnique(statements, i);
        AddedThenDropped(statements[i], arn, add.arn);
      }
    }
  }

  lemma AddedThenDropped(s: Statement, arn: string, bucket: string)
    requires InBucket(arn, bucket) && forall r | r in s.resources :: !InBucket(r, bucket)
    ensures OutsideBucket(WithOne(s.resources, arn), bucket) == s.resources
  {
    SelectAllIff(s.resources, (r: string) => !InBucket(r, bucket));
    SelectAppend(s.resources, arn, (r: string) => !InBucket(r, bucket));
  }

  lemma SameResourceMembers(s: Statement, service: string, resources: seq<string>)
    requires SameResources(s, service, resources)
    ensures forall r :: r in s.resources <==> r in resources
  {
    forall r ensures r in s.resources <==> r in resources {
      assert r in s.resources <==> r in ResourceSet(s.resources);
      assert r in resources <==> r in ResourceSet(resources);
    }
  }

  /** Merging a scope grants exactly its levels on its resources, on top of what was granted. */
  lemma UpsertGrantsExactly(statements: seq<Statement>, service: string, levels: seq<string>, resources: seq<string>,
                            newSid: string)
    ensures Granted(Upserted(statements, service, levels, resources, newSid)) ==
            Granted(statements) + Grants(service, levels, resources)
  {
    match FindScope(statements, service, resources)
    case Some(i) =>
      var s := statements[i];
      var merged := s.(levels := AddLevels(s.levels, levels));
      AddLevelsMembers(s.levels, levels);
      GrantsOfLevels(service, s.levels, levels, merged.levels, s.resources);
      SameResourceMembers(s, service, resources);
      SameResourcesGrantTheSame(service, levels, s.resources, resources);
      GrantedAfterUpdate(statements, i, merged, Grants(service, levels, resources));
    case None =>
      var s := Statement(newSid, service, Some("Allow"), AddLevels([], levels), resources);
      AddLevelsMembers([], levels);
      GrantsOfLevels(service, [], levels, s.levels, resources);
      GrantedAfterAppend(statements, s);
  }

  /** No two statements share a service and a resource set. */
  ghost predicate OnePerScope(statements: seq<Statement>) {
    forall i, j | 0 <= i < j < |statements| ::
      !SameResources(statements[i], statements[j].service, statements[j].resources)
  }

  /** Merging keeps one statement per scope and keeps the sids unique. */
  lemma UpsertKeepsOnePerScope(statements: seq<Statement>, service: string, levels: seq<string>, resources: seq<string>,
                               newSid: string)
    requires newSid != "" && forall s | s in statements :: s.sid != newSid
    ensures OnePerScope(statements) ==> OnePerScope(Upserted(statements, service, levels, resources, newSid))
    ensures UniqueSids(statements) ==> UniqueSids(Upserted(statements, service, levels, resources, newSid))
  {
    var after := Upserted(statements, service, levels, resources, newSid);
    forall i | 0 <= i < |statements|
      ensures after[i].service == statements[i].service && after[i].resources == statements[i].resources
      ensures after[i].sid == statements[i].sid && statements[i].sid != newSid
    {
      assert statements[i] in statements;
    }
    if FindScope(statements, service, resources).None? {
      forall i | 0 <= i < |statements| ensures !SameResources(statements[i], service, resources) {
        assert statements[i] in statements;
      }
    }
  }

  lemma {:induction false} FindScopeAppended(statements: seq<Statement>, s: Statement, service: string,
                                             resources: seq<string>)
    requires FindScope(statements, service, resources).None? && SameResources(s, service, resources)
    ensures FindScope(statements + [s], service, resources) == Some(|statements|)
  {
    if statements == [] {
    } else {
      assert (statements + [s])[1..] == statements[1..] + [s];
      FindScopeAppended(statements[1..], s, service, resources);
    }
  }

  lemma {:induction false} FindScopeUpdated(statements: seq<Statement>, i: nat, s: Statement, service: string,
                                            resources: seq<string>)
    requires FindScope(statements, service, resources) == Some(i)
    requires s.service == statements[i].service && s.resources == statements[i].resources
    ensures FindScope(statements[i := s], service, resources) == Some(i)
  {
    if i == 0 {
    } else {
      assert statements[i := s][1..] == statements[1..][i - 1 := s];
      FindScopeUpdated(statements[1..], i - 1, s, service, resources);
    }
  }

  /** Merging the same scope again changes nothing. */
  lemma UpsertIsIdempotent(statements: seq<Statement>, service: string, levels: seq<string>, resources: seq<string>,
                           a: string, b: string)
    ensures var once := Upserted(statements, service, levels, resources, a);
            Upserted(once, service, levels, resources, b) == once
  {
    var once := Upserted(statements, service, levels, resources, a);
    match FindScope(statements, service, resources)
    case Some(i) =>
      FindScopeUpdated(statements, i, once[i], service, resources);
      AddLevelsMembers(statements[i].levels, levels);
      AddLevelsTwice(once[i].levels, levels);
    case None =>
      FindScopeAppended(statements, once[|statements|], service, resources);
      AddLevelsMembers([], levels);
      AddLevelsTwice(once[|statements|].levels, levels);
  }

  // -------------------------------------------------------- the edits, field by field

  /** Adding a service appends an empty statement, which grants nothing yet. */
  lemma AddedServiceGrantsNothing(statements: seq<Statement>, e: Edit, s3Prefix: string, newSid: string)
    requires e.action == AddService
    ensures Applied(statements, e, s3Prefix, newSid) ==
            statements + if e.service == "" then [] else [Statement(newSid, e.service, Some("Allow"), [], [])]
    ensures Granted(Applied(statements, e, s3Prefix, newSid)) == Granted(statements)
  {
    GrantedAfterAppend(statements, Statement(newSid, e.service, Some("Allow"), [], []));
  }

  /** An edit of a level or a resource keeps the sid, service and effect of its target; a level edit keeps its
      resources and adds or drops the level, a resource edit the other way round. */
  lemma EditKeepsTheRest(statements: seq<Statement>, e: Edit, newSid: string, i: nat)
    requires UniqueSids(statements) && i < |statements| && statements[i].sid == e.target
    requires e.action != AddService && e.action != RemoveService
    ensures var s, after := statements[i], Edited(statements, e, newSid);
            && |after| == |statements|
            && after[i].(levels := s.levels, resources := s.resources) == s
            && match e.action
               case AddLevel =>
                 after[i].resources == s.resources &&
                 after[i].levels == s.levels + if e.level == "" || e.level in s.levels then [] else [e.level]
               case RemoveLevel =>
                 after[i].resources == s.resources &&
                 forall l :: l in after[i].levels <==> l in s.levels && (l != e.level || e.level == "")
               case AddResource =>
                 after[i].levels == s.levels &&
                 after[i].resources == s.resources + if e.arn == "" || e.arn in s.resources then [] else [e.arn]
               case RemoveResource =>
                 after[i].levels == s.levels &&
                 forall r :: r in after[i].resources <==> r in s.resources && (r != e.arn || e.arn == "")
               case Unsupported => after[i] == s
               case _ => true
  {
    FindUnique(statements, i);
    SelectMembers(statements[i].levels, (y: string) => y != e.level);
    SelectMembers(statements[i].resources, (y: string) => y != e.arn);
  }

  /** An S3 bucket picked in the editor is added with the key prefix typed beside it; a first resource narrows. */
  lemma PrefixedAdditionGrants(statements: seq<Statement>, e: Edit, s3Prefix: string, newSid: string, i: nat)
    requires UniqueSids(statements) && i < |statements| && statements[i].sid == e.target
    requires e.service == "s3" && e.action == AddResource && e.arn != ""
    ensures var s, after := statements[i], Applied(statements, e, s3Prefix, newSid);
            var arn := if s3Prefix == "" then e.arn else e.arn + "/" + s3Prefix;
            && |after| == |statements|
            && after[i] == s.(resources := s.resources + if arn in s.resources then [] else [arn])
            && GrantedBy(after[i]) ==
               (if s.resources == [] then {} else GrantedBy(s)) + Grants(s.service, s.levels, [arn])
  {
    var composed := if s3Prefix == "" then e else e.(arn := e.arn + "/" + s3Prefix);
    assert Applied(statements, e, s3Prefix, newSid) == Edited(statements, composed, newSid);
    EditGrantsExactly(statements, composed, newSid, i);
    EditKeepsTheRest(statements, composed, newSid, i);
    assert {} + Grants(statements[i].service, statements[i].levels, [composed.arn]) ==
           Grants(statements[i].service, statements[i].levels, [composed.arn]);
  }

  /** Removing an S3 bucket takes away the bucket itself and the keys below it, and no bucket with a longer name. */
  lemma BucketRemovalKeepsOthers(statements: seq<Statement>, e: Edit, s3Prefix: string, newSid: string, i: nat)
    requires e.service == "s3" && e.action == RemoveResource && i < |statements| && statements[i].sid == e.target
    ensures var s, after := statements[i], Applied(statements, e, s3Prefix, newSid);
            && |after| == |statements|
            && after[i] == s.(resources := after[i].resources)
            && forall r :: r in after[i].resources <==> r in s.resources && r != e.arn && !(e.arn + "/" <= r)
  {
    SelectMembers(statements[i].resources, (r: string) => !InBucket(r, e.arn));
  }

  /** An edit aimed at no statement changes nothing. */
  lemma UntargetedEditChangesNothing(statements: seq<Statement>, e: Edit, s3Prefix: string, newSid: string)
    requires e.action != AddService && forall s | s in statements :: s.sid != e.target
    ensures Applied(statements, e, s3Prefix, newSid) == statements
  {
    SelectAllIff(statements, (s: Statement) => s.sid != e.target);
    forall i | 0 <= i < |statements| ensures DropBucket(statements[i], e.target, e.arn) == statements[i] {
      assert statements[i] in statements;
    }
  }

  /** Merging changes the levels of one statement, the first of its scope, or appends one of exactly this scope. */
  lemma UpsertKeepsTheRest(statements: seq<Statement>, service: string, levels: seq<string>, resources: seq<string>,
                           newSid: string)
    ensures var after := Upserted(statements, service, levels, resources, newSid);
            || (exists i :: && 0 <= i < |statements| && statements[i].service == service
                            && (forall r :: r in statements[i].resources <==> r in resources)
                            && |after| == |statements|
                            && after == statements[i := statements[i].(levels := after[i].levels)])
            || (&& (forall s | s in statements && s.service == service ::
                      exists r :: (r in s.resources) != (r in resources))
                && |after| == |statements| + 1 && after[..|statements|] == statements
                && after[|statements|] ==
                   Statement(newSid, service, Some("Allow"), after[|statements|].levels, resources))
  {
    match FindScope(statements, service, resources)
    case Some(i) => SameResourceMembers(statements[i], service, resources);
    case None =>
      forall s | s in statements && s.service == service
        ensures exists r :: (r in s.resources) != (r in resources)
      {
        SameResourcesIff(s, service, resources);
      }
  }

  lemma SameResourcesIff(s: Statement, service: string, resources: seq<string>)
    ensures SameResources(s, service, resources) <==>
            s.service == service && forall r :: r in s.resources <==> r in resources
  {
    if SameResources(s, service, resources) {
      SameResourceMembers(s, service, resources);
    } else if forall r :: r in s.resources <==> r in resources {
      assert ResourceSet(s.resources) == ResourceSet(resources);
    }
  }

  /** Two lists compare equal when they agree, statement by statement, in everything but the sids. */
  lemma StatementsEqualIff(a: seq<Statement>, b: seq<Statement>)
    ensures StatementsEqual(a, b) <==>
            && |a| == |b|
            && forall i | 0 <= i < |a| ::
                 && a[i].service == b[i].service && a[i].effect == b[i].effect
                 && a[i].levels == b[i].levels && a[i].resources == b[i].resources
  {}
}

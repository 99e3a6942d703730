/** Matching one condition list of an ABAC policy against identity attributes or resource tags.

    A clause either names a literal (key, value) pair or joins its key with the values another
    side carries under a referenced key ("$identity.k", "$resource.k", "$app.k"). */
module Conditions {
  import opened Common

  type Pair = (string, string)

  datatype Side = Identity | Resource | App

  datatype Reference = Reference(side: Side, key: string)

  /** One field of a condition as stored in JSON. `NonText` stands for an absent field or a JSON
      number, boolean or null: such a value is never a reference and never equals a stored key. */
  datatype Field = Text(text: string) | NonText(json: int)

  datatype Condition = Condition(key: Field, value: Field)

  const WILDCARD := Condition(Text("*"), Text("*"))

  predicate IsWildcard(conditions: seq<Condition>) {
    |conditions| == 1 && conditions[0] == WILDCARD
  }

  // ---------------------------------------------------------------- references

  predicate IsKeyChar(c: char) {
    'a' <= c <= 'z' || 'A' <= c <= 'Z' || '0' <= c <= '9' || c == '_' || c == '-'
  }

  predicate IsKeyName(s: string) {
    |s| > 0 && forall i | 0 <= i < |s| :: IsKeyChar(s[i])
  }

  function SidePrefix(side: Side): string {
    match side
    case Identity => "$identity."
    case Resource => "$resource."
    case App => "$app."
  }

  function ReferenceText(side: Side, key: string): string {
    SidePrefix(side) + key
  }

  /** Splits "$side.rest" into its side and rest, whatever the rest is. */
  function SplitReference(text: string): Option<Reference> {
    if SidePrefix(Identity) <= text then Some(Reference(Identity, text[|SidePrefix(Identity)|..]))
    else if SidePrefix(Resource) <= text then Some(Reference(Resource, text[|SidePrefix(Resource)|..]))
    else if SidePrefix(App) <= text then Some(Reference(App, text[|SidePrefix(App)|..]))
    else None
  }

  function ParseReference(value: Field): Option<Reference> {
    if value.NonText? then None
    else
      match SplitReference(value.text)
      case Some(ref) => if IsKeyName(ref.key) then Some(ref) else None
      case None => None
  }

  lemma SplitReferenceIff(text: string, ref: Reference)
    ensures SplitReference(text) == Some(ref) <==> text == ReferenceText(ref.side, ref.key)
  {
    var whole := ReferenceText(ref.side, ref.key);
    assert whole[1] == SidePrefix(ref.side)[1];
    assert SidePrefix(ref.side) <= whole;
    assert whole[|SidePrefix(ref.side)|..] == ref.key;
    match SplitReference(text)
    case Some(got) =>
      assert text == SidePrefix(got.side) + text[|SidePrefix(got.side)|..];
      assert text[1] == SidePrefix(got.side)[1];
    case None =>
  }

  /** Parsing is the exact inverse of writing a reference to a well-formed key. */
  lemma ParseReferenceIff(value: Field, ref: Reference)
    ensures ParseReference(value) == Some(ref) <==>
            IsKeyName(ref.key) && value == Text(ReferenceText(ref.side, ref.key))
  {
    if value.Text? {
      SplitReferenceIff(value.text, ref);
    }
  }

  // ------------------------------------------------------- the relational meaning

  /** What a condition may refer to: the pairs each side offers. A side that is not in hand and a
      side without pairs are the same thing, since references to either fail. */
  datatype Sides = Sides(identity: set<Pair>, resource: set<Pair>, app: set<Pair>) {
    function On(side: Side): set<Pair> {
      match side
      case Identity => identity
      case Resource => resource
      case App => app
    }

    ghost predicate Within(other: Sides) {
      identity <= other.identity && resource <= other.resource && app <= other.app
    }
  }

  const NO_SIDES := Sides({}, {}, {})

  /** `key` joins `self` with the values that `offered` carries under `refKey`. */
  ghost predicate Joins(self: set<Pair>, key: string, offered: set<Pair>, refKey: string) {
    exists v :: (refKey, v) in offered && (key, v) in self
  }

  ghost predicate ClauseHolds(c: Condition, self: set<Pair>, sides: Sides) {
    c.key.Text? &&
    match ParseReference(c.value)
    case Some(ref) => Joins(self, c.key.text, sides.On(ref.side), ref.key)
    case None => c.value.Text? && (c.key.text, c.value.text) in self
  }

  ghost predicate ConditionsHold(conditions: seq<Condition>, self: set<Pair>, sides: Sides) {
    IsWildcard(conditions) || forall c | c in conditions :: ClauseHolds(c, self, sides)
  }

  // ------------------------------------------------------------- the computation

  type SideMap = map<string, set<string>>

  function PairsOf(m: SideMap): set<Pair> {
    set k, v | k in m && v in m[k] :: (k, v)
  }

  function Offered(others: map<Side, SideMap>): Sides {
    Sides(if Identity in others then PairsOf(others[Identity]) else {},
          if Resource in others then PairsOf(others[Resource]) else {},
          if App in others then PairsOf(others[App]) else {})
  }

  /** Groups pairs by key; nothing is lost, nothing is invented, and no key has an empty group. */
  method BuildSideMap(pairs: set<Pair>) returns (result: SideMap)
    ensures PairsOf(result) == pairs
    ensures forall k | k in result :: result[k] != {}
  {
    result := map[];
    var remaining := pairs;
    while remaining != {}
      invariant remaining <= pairs
      invariant PairsOf(result) == pairs - remaining
      invariant forall k | k in result :: result[k] != {}
      decreases remaining
    {
      var pair :| pair in remaining;
      var (k, v) := pair;
      ghost var before := result;
      result := result[k := (if k in result then result[k] else {}) + {v}];
      remaining := remaining - {pair};
      assert PairsOf(result) == PairsOf(before) + {pair} by {
        forall p: Pair ensures p in PairsOf(result) <==> p in PairsOf(before) || p == pair {
          assert p == (p.0, p.1);
        }
      }
    }
  }

  /** The loop over clauses, with its early exits, decides the relational meaning. */
  method ConditionsMatch(conditions: seq<Condition>, self: set<Pair>, others: map<Side, SideMap>)
    returns (matched: bool)
    ensures matched <==> ConditionsHold(conditions, self, Offered(others))
  {
    if IsWildcard(conditions) {
      return true;
    }
    for i := 0 to |conditions|
      invariant forall j | 0 <= j < i :: ClauseHolds(conditions[j], self, Offered(others))
    {
      var c := conditions[i];
      assert c in conditions;
      match ParseReference(c.value)
      case None =>
        if !(c.key.Text? && c.value.Text? && (c.key.text, c.value.text) in self) {
          return false;
        }
      case Some(ref) =>
        if ref.side !in others || others[ref.side] == map[] {
          return false;
        }
        var sideMap := others[ref.side];
        assert Offered(others).On(ref.side) == PairsOf(sideMap);
        if ref.key !in sideMap || sideMap[ref.key] == {} {
          return false;
        }
        if !(c.key.Text? && exists v :: v in sideMap[ref.key] && (c.key.text, v) in self) {
          return false;
        }
        assert exists v :: v in sideMap[ref.key] && (c.key.text, v) in self;
        var v :| v in sideMap[ref.key] && (c.key.text, v) in self;
        assert (ref.key, v) in PairsOf(sideMap);
    }
    return true;
  }

  // ------------------------------------------------------------------ properties

  /** More pairs on either side never stop a condition list from matching. */
  lemma ConditionsMonotone(conditions: seq<Condition>, self: set<Pair>, more: set<Pair>, sides: Sides, wider: Sides)
    requires self <= more && sides.Within(wider)
    requires ConditionsHold(conditions, self, sides)
    ensures ConditionsHold(conditions, more, wider)
  {
    if !IsWildcard(conditions) {
      forall c | c in conditions ensures ClauseHolds(c, more, wider) {
        assert ClauseHolds(c, self, sides);
        match ParseReference(c.value)
        case None =>
        case Some(ref) =>
          var v :| (ref.key, v) in sides.On(ref.side) && (c.key.text, v) in self;
          assert (ref.key, v) in wider.On(ref.side) && (c.key.text, v) in more;
      }
    }
  }

  /** Reordering the clauses of a list never changes its meaning. */
  lemma ConditionsOrderIrrelevant(a: seq<Condition>, b: seq<Condition>, self: set<Pair>, sides: Sides)
    requires multiset(a) == multiset(b)
    ensures ConditionsHold(a, self, sides) == ConditionsHold(b, self, sides)
  {
    assert |a| == |multiset(a)| == |multiset(b)| == |b|;
    forall c ensures c in a <==> c in b {
      assert c in a <==> c in multiset(a);
      assert c in b <==> c in multiset(b);
    }
    if |a| == 1 {
      assert a[0] in b && b[0] in a;
    }
  }

  predicate RefersTo(c: Condition, side: Side) {
    ParseReference(c.value).Some? && ParseReference(c.value).value.side == side
  }

  /** A list without references to one side reads nothing of that side. */
  lemma UnreferencedSideIrrelevant(conditions: seq<Condition>, self: set<Pair>, a: Sides, b: Sides)
    requires forall c, side | c in conditions && RefersTo(c, side) :: a.On(side) == b.On(side)
    ensures ConditionsHold(conditions, self, a) == ConditionsHold(conditions, self, b)
  {
    forall c | c in conditions ensures ClauseHolds(c, self, a) == ClauseHolds(c, self, b) {
      match ParseReference(c.value)
      case None =>
      case Some(ref) => assert RefersTo(c, ref.side);
    }
  }

  // -------------------------------------------------- the meaning, clause by clause

  /** A sole wildcard matches anything; every other list, also one with a wildcard among other clauses, matches when
      all its clauses do; the empty list does. */
  lemma ListMeaning(conditions: seq<Condition>, self: set<Pair>, sides: Sides)
    ensures conditions == [Condition(Text("*"), Text("*"))] ==> ConditionsHold(conditions, self, sides)
    ensures conditions != [Condition(Text("*"), Text("*"))] ==>
              (ConditionsHold(conditions, self, sides) <==>
               forall i | 0 <= i < |conditions| :: ClauseHolds(conditions[i], self, sides))
  {
    if conditions == [Condition(Text("*"), Text("*"))] {
    } else {
      assert !IsWildcard(conditions) by {
        assert |conditions| == 1 && conditions[0] == Condition(Text("*"), Text("*")) ==>
                 conditions == [Condition(Text("*"), Text("*"))];
      }
      forall i | 0 <= i < |conditions| ensures conditions[i] in conditions {}
    }
  }

  /** A reference to a key of letters, digits, underscores and hyphens joins on a value both sides carry. */
  lemma ReferenceMeaning(key: string, refKey: string, self: set<Pair>, sides: Sides)
    requires |refKey| > 0
    requires forall i | 0 <= i < |refKey| ::
               'a' <= refKey[i] <= 'z' || 'A' <= refKey[i] <= 'Z' || '0' <= refKey[i] <= '9' || refKey[i] in "_-"
    ensures ClauseHolds(Condition(Text(key), Text("$identity." + refKey)), self, sides) <==>
            exists v :: (refKey, v) in sides.identity && (key, v) in self
    ensures ClauseHolds(Condition(Text(key), Text("$resource." + refKey)), self, sides) <==>
            exists v :: (refKey, v) in sides.resource && (key, v) in self
    ensures ClauseHolds(Condition(Text(key), Text("$app." + refKey)), self, sides) <==>
            exists v :: (refKey, v) in sides.app && (key, v) in self
  {
    ParseReferenceIff(Text("$identity." + refKey), Reference(Identity, refKey));
    ParseReferenceIff(Text("$resource." + refKey), Reference(Resource, refKey));
    ParseReferenceIff(Text("$app." + refKey), Reference(App, refKey));
  }

  /** Any other text is literal, and a field without text never matches. */
  lemma LiteralMeaning(c: Condition, self: set<Pair>, sides: Sides)
    requires forall side: Side, refKey: string | c.value == Text(ReferenceText(side, refKey)) ::
               refKey == "" || exists i | 0 <= i < |refKey| ::
                 !('a' <= refKey[i] <= 'z' || 'A' <= refKey[i] <= 'Z' || '0' <= refKey[i] <= '9' || refKey[i] in "_-")
    ensures ClauseHolds(c, self, sides) <==> c.key.Text? && c.value.Text? && (c.key.text, c.value.text) in self
  {
    if ParseReference(c.value).Some? {
      var ref := ParseReference(c.value).value;
      ParseReferenceIff(c.value, ref);
    }
  }
}

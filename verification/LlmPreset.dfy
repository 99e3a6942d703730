/** The migration that replaces the legacy model variables of Hermes containers by one preset entry. */
module LlmPreset {
  import opened Common

  /** A variable entry; its name may be missing. `rest` stands for its other fields. */
  datatype Entry = Entry(name: Option<string>, rest: string)

  datatype Container = Container(name: Option<string>, variables: seq<Entry>, rest: string)

  const HERMES := "hermes"
  const PRESET := "HUMR_LLM_PRESET"
  const REMOVABLE := {
    "HUMR_LLM_PROVIDER", "HUMR_LLM_MODEL", "HUMR_LLM_BASE_URL",
    "HUMR_AUX_PROVIDER", "HUMR_AUX_MODEL", "HUMR_AUX_BASE_URL",
    PRESET
  }

  predicate IsRemovable(e: Entry) {
    e.name.Some? && e.name.value in REMOVABLE
  }

  predicate IsKept(e: Entry) {
    !IsRemovable(e)
  }

  /** The index of the first removable entry, or the length when there is none. */
  function FirstRemovable(entries: seq<Entry>): (k: nat)
    ensures k <= |entries| && (k < |entries| ==> IsRemovable(entries[k]))
    ensures forall i | 0 <= i < k :: IsKept(entries[i])
  {
    if entries == [] || IsRemovable(entries[0]) then 0 else 1 + FirstRemovable(entries[1..])
  }

  /** Where the preset goes: at the first removed entry, else in front. */
  function InsertionPoint(entries: seq<Entry>): nat {
    if FirstRemovable(entries) < |entries| then FirstRemovable(entries) else 0
  }

  ghost predicate IsReplacement(entries: seq<Entry>, replacement: Entry, result: seq<Entry>) {
    var k, kept := InsertionPoint(entries), Select(entries, IsKept);
    k <= |kept| && result == kept[..k] + [replacement] + kept[k..]
  }

  lemma {:induction false} KeptPrefix(entries: seq<Entry>, k: nat)
    requires k <= |entries| && forall i | 0 <= i < k :: IsKept(entries[i])
    ensures k <= |Select(entries, IsKept)| && Select(entries, IsKept)[..k] == entries[..k]
  {
    if k == 0 {
    } else {
      KeptPrefix(entries[1..], k - 1);
      assert entries[..k] == [entries[0]] + entries[1..][..k - 1];
      assert Select(entries, IsKept) == [entries[0]] + Select(entries[1..], IsKept);
    }
  }

  lemma InsertionPointPrefix(entries: seq<Entry>, i: nat)
    requires i < |entries| && IsRemovable(entries[i]) && forall j | 0 <= j < i :: IsKept(entries[j])
    ensures InsertionPoint(entries) == i
  {
    var k := FirstRemovable(entries);
    assert !(k < i) && !(i < k);
  }

  method ReplaceModelVariables(entries: seq<Entry>, replacement: Entry) returns (result: seq<Entry>)
    ensures IsReplacement(entries, replacement, result)
  {
    result := [];
    var insertionIndex: Option<nat> := None;
    for i := 0 to |entries|
      invariant result == Select(entries[..i], IsKept)
      invariant insertionIndex.None? ==> forall j | 0 <= j < i :: IsKept(entries[j])
      invariant insertionIndex.Some? ==> insertionIndex.value == InsertionPoint(entries) <= |result|
    {
      var e := entries[i];
      assert entries[..i + 1] == entries[..i] + [e];
      SelectAppend(entries[..i], e, IsKept);
      if IsRemovable(e) {
        if insertionIndex == None {
          InsertionPointPrefix(entries, i);
          KeptPrefix(entries[..i], i);
          SelectAllIff(entries[..i], IsKept);
          insertionIndex := Some(|result|);
        }
        continue;
      }
      result := result + [e];
    }
    assert entries[..|entries|] == entries;
    assert insertionIndex.None? ==> FirstRemovable(entries) == |entries|;
    var at := if insertionIndex.Some? then insertionIndex.value else 0;
    result := result[..at] + [replacement] + result[at..];
  }

  /** Containers with the preset entry replaced in those named hermes. */
  ghost predicate IsPatched(before: seq<Container>, replacement: Entry, after: seq<Container>) {
    |after| == |before| &&
    forall i | 0 <= i < |before| ::
      && after[i].name == before[i].name && after[i].rest == before[i].rest
      && if before[i].name == Some(HERMES) then IsReplacement(before[i].variables, replacement, after[i].variables)
         else after[i] == before[i]
  }

  method PatchContainers(containers: seq<Container>, replacement: Entry) returns (result: seq<Container>)
    ensures IsPatched(containers, replacement, result)
  {
    result := [];
    for i := 0 to |containers|
      invariant IsPatched(containers[..i], replacement, result)
    {
      var updated := containers[i];
      if updated.name == Some(HERMES) {
        var variables := ReplaceModelVariables(updated.variables, replacement);
        updated := updated.(variables := variables);
      }
      result := result + [updated];
    }
    assert containers[..|containers|] == containers;
  }

  // ------------------------------------------------------------------- properties

  lemma KeptAreNotRemovable(entries: seq<Entry>)
    requires forall e | e in entries :: IsKept(e)
    ensures Select(entries, IsRemovable) == [] && Select(entries, IsKept) == entries
  {
    SelectNone(entries, IsRemovable);
    SelectAllIff(entries, IsKept);
  }

  lemma {:induction false} OneAmongKept(front: seq<Entry>, e: Entry, back: seq<Entry>)
    requires IsRemovable(e) && (forall x | x in front :: IsKept(x)) && (forall x | x in back :: IsKept(x))
    ensures Select(front + [e] + back, IsRemovable) == [e]
    ensures Select(front + [e] + back, IsKept) == front + back
  {
    var all := front + [e] + back;
    if front == [] {
      KeptAreNotRemovable(back);
      assert all[0] == e && all[1..] == back;
      assert front + back == back;
    } else {
      OneAmongKept(front[1..], e, back);
      assert all[0] == front[0] && all[1..] == front[1..] + [e] + back;
      assert front[0] in front;
      assert front + back == [front[0]] + (front[1..] + back);
    }
  }

  lemma PointAmongKept(front: seq<Entry>, e: Entry, back: seq<Entry>)
    requires IsRemovable(e) && forall i | 0 <= i < |front| :: IsKept(front[i])
    ensures InsertionPoint(front + [e] + back) == |front|
  {
    var all := front + [e] + back;
    assert forall i | 0 <= i < |front| :: all[i] == front[i];
    assert all[|front|] == e;
    InsertionPointPrefix(all, |front|);
  }

  /** The kept entries, cut where the first removed entry stood. */
  lemma KeptParts(entries: seq<Entry>) returns (front: seq<Entry>, back: seq<Entry>)
    ensures Select(entries, IsKept) == front + back
    ensures |front| == InsertionPoint(entries) <= |entries| && front == entries[..|front|]
    ensures (forall x | x in front :: IsKept(x)) && (forall x | x in back :: IsKept(x))
  {
    var k, kept := InsertionPoint(entries), Select(entries, IsKept);
    KeptPrefix(entries, k);
    SelectMembers(entries, IsKept);
    front, back := kept[..k], kept[k..];
    assert kept == front + back;
  }

  /** Exactly one preset entry remains and no legacy name; all other entries keep their order; and what
      stood in front of the first removed entry still stands in front of the preset. */
  lemma ReplacementIsExact(entries: seq<Entry>, replacement: Entry, result: seq<Entry>)
    requires replacement.name == Some(PRESET) && IsReplacement(entries, replacement, result)
    ensures Select(result, IsRemovable) == [replacement]
    ensures Select(result, IsKept) == Select(entries, IsKept)
    ensures InsertionPoint(result) == InsertionPoint(entries) < |result|
    ensures result[..InsertionPoint(entries)] == entries[..InsertionPoint(entries)]
    ensures result[InsertionPoint(entries)] == replacement
  {
    var front, back := KeptParts(entries);
    assert (front + back)[..|front|] == front && (front + back)[|front|..] == back;
    assert result == front + [replacement] + back;
    OneAmongKept(front, replacement, back);
    PointAmongKept(front, replacement, back);
    assert result[..|front|] == front;
  }

  /** Replacing again gives what replacing once with the later entry gives; so patching is idempotent. */
  lemma LastReplacementWins(entries: seq<Entry>, first: Entry, second: Entry, once: seq<Entry>, twice: seq<Entry>)
    requires first.name == Some(PRESET)
    requires IsReplacement(entries, first, once) && IsReplacement(once, second, twice)
    ensures IsReplacement(entries, second, twice)
  {
    ReplacementIsExact(entries, first, once);
  }

  lemma PatchingIsIdempotent(before: seq<Container>, replacement: Entry, once: seq<Container>, twice: seq<Container>)
    requires replacement.name == Some(PRESET)
    requires IsPatched(before, replacement, once) && IsPatched(once, replacement, twice)
    ensures twice == once
  {
    forall i | 0 <= i < |before| ensures twice[i] == once[i] {
      if before[i].name == Some(HERMES) {
        LastReplacementWins(before[i].variables, replacement, replacement, once[i].variables, twice[i].variables);
      }
    }
  }

  // ------------------------------------------------------- the meaning, written out

  /** No legacy model variable is left, and exactly the preset carries the preset's name. */
  lemma OnlyThePresetRemains(entries: seq<Entry>, replacement: Entry, result: seq<Entry>, e: Entry)
    requires replacement.name == Some("HUMR_LLM_PRESET") && IsReplacement(entries, replacement, result)
    ensures e in result && e != replacement ==> e in entries
    ensures e in result && e != replacement ==>
              && e.name != Some("HUMR_LLM_PROVIDER") && e.name != Some("HUMR_LLM_MODEL")
              && e.name != Some("HUMR_LLM_BASE_URL") && e.name != Some("HUMR_AUX_PROVIDER")
              && e.name != Some("HUMR_AUX_MODEL") && e.name != Some("HUMR_AUX_BASE_URL")
              && e.name != Some("HUMR_LLM_PRESET")
    ensures replacement in result
  {
    var kept := Select(entries, IsKept);
    SelectMembers(entries, IsKept);
    NotRemovableIff(e);
    assert forall x :: x in result <==> x in kept || x == replacement by {
      var k := InsertionPoint(entries);
      assert kept == kept[..k] + kept[k..];
    }
  }

  /** Every other entry stays. */
  lemma OthersRemain(entries: seq<Entry>, replacement: Entry, result: seq<Entry>, e: Entry)
    requires IsReplacement(entries, replacement, result) && e in entries
    requires
      && e.name != Some("HUMR_LLM_PROVIDER") && e.name != Some("HUMR_LLM_MODEL")
      && e.name != Some("HUMR_LLM_BASE_URL") && e.name != Some("HUMR_AUX_PROVIDER")
      && e.name != Some("HUMR_AUX_MODEL") && e.name != Some("HUMR_AUX_BASE_URL")
      && e.name != Some("HUMR_LLM_PRESET")
    ensures e in result
  {
    var kept := Select(entries, IsKept);
    SelectMembers(entries, IsKept);
    NotRemovableIff(e);
    var k := InsertionPoint(entries);
    assert kept == kept[..k] + kept[k..];
  }

  lemma NotRemovableIff(e: Entry)
    ensures IsKept(e) <==>
            && e.name != Some("HUMR_LLM_PROVIDER") && e.name != Some("HUMR_LLM_MODEL")
            && e.name != Some("HUMR_LLM_BASE_URL") && e.name != Some("HUMR_AUX_PROVIDER")
            && e.name != Some("HUMR_AUX_MODEL") && e.name != Some("HUMR_AUX_BASE_URL")
            && e.name != Some("HUMR_LLM_PRESET")
  {}

  /** Patching touches the variables of containers named hermes, and nothing else. */
  lemma OnlyHermesIsPatched(before: seq<Container>, replacement: Entry, after: seq<Container>, i: nat)
    requires IsPatched(before, replacement, after) && i < |before|
    ensures |after| == |before| && after[i].(variables := before[i].variables) == before[i]
    ensures before[i].name != Some("hermes") ==> after[i] == before[i]
    ensures before[i].name == Some("hermes") ==> replacement in after[i].variables
  {}

  /** The replacement stands where the first removed entry stood, behind what stood before it, or else in front. */
  lemma ReplacementPlace(entries: seq<Entry>, replacement: Entry, result: seq<Entry>, i: nat)
    requires IsReplacement(entries, replacement, result)
    requires i <= |entries| && (forall j | 0 <= j < i :: IsKept(entries[j])) && (i < |entries| ==> !IsKept(entries[i]))
    ensures i < |entries| ==> i < |result| && result[..i] == entries[..i] && result[i] == replacement
    ensures i == |entries| ==> result == [replacement] + entries
  {
    var kept := Select(entries, IsKept);
    if i < |entries| {
      InsertionPointPrefix(entries, i);
      KeptPrefix(entries, i);
    } else {
      assert forall e | e in entries :: IsKept(e);
      SelectAllIff(entries, IsKept);
      assert InsertionPoint(entries) == 0;
      assert kept[..0] == [] && kept[0..] == entries;
    }
  }
}

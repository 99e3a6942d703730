/** Deploy-time variables: overrides merged into template containers, then materialized. */
module TemplateOverrides {

  /** A variable's value: no entry, an explicit null, or text. */
  datatype Value = Missing | Null | Text(text: string)

  datatype Category = Config | Secret | OtherCategory

  datatype Variable = Variable(name: string, category: Category, value: Value, allowEmpty: bool)

  datatype Container = Container(name: string, variables: seq<Variable>)

  type Overrides = map<string, string>

  function OverrideOne(v: Variable, overrides: Overrides): Variable {
    if v.name in overrides then v.(value := Text(overrides[v.name])) else v
  }

  function OverrideAll(variables: seq<Variable>, overrides: Overrides): seq<Variable> {
    seq(|variables|, i requires 0 <= i < |variables| => OverrideOne(variables[i], overrides))
  }

  function Overridden(containers: seq<Container>, overrides: Overrides): seq<Container> {
    seq(|containers|, i requires 0 <= i < |containers| =>
      containers[i].(variables := OverrideAll(containers[i].variables, overrides)))
  }

  method ApplyVariableOverrides(containers: seq<Container>, overrides: Overrides) returns (result: seq<Container>)
    ensures result == Overridden(containers, overrides)
  {
    if overrides == map[] {
      forall i | 0 <= i < |containers| ensures Overridden(containers, overrides)[i] == containers[i] {
        assert OverrideAll(containers[i].variables, overrides) == containers[i].variables;
      }
      return containers;
    }
    result := [];
    for i := 0 to |containers|
      invariant result == Overridden(containers[..i], overrides)
    {
      var c := containers[i];
      var variables: seq<Variable> := [];
      for j := 0 to |c.variables|
        invariant variables == OverrideAll(c.variables[..j], overrides)
      {
        var v := c.variables[j];
        if v.name in overrides {
          variables := variables + [v.(value := Text(overrides[v.name]))];
        } else {
          variables := variables + [v];
        }
      }
      assert c.variables[..|c.variables|] == c.variables;
      result := result + [c.(variables := variables)];
    }
    assert containers[..|containers|] == containers;
  }

  /** Two rounds of overrides are one round in which the later values win. */
  lemma LaterOverridesWin(containers: seq<Container>, preset: Overrides, explicit: Overrides)
    ensures Overridden(Overridden(containers, preset), explicit) == Overridden(containers, preset + explicit)
  {
    var twice, once := Overridden(Overridden(containers, preset), explicit), Overridden(containers, preset + explicit);
    forall i | 0 <= i < |containers| ensures twice[i] == once[i] {
      assert twice[i].variables == once[i].variables;
    }
  }

  // -------------------------------------------------------------- materialization

  datatype EnvironmentVariable = EnvironmentVariable(name: string, value: string)

  /** A config variable reaches the container when it has a value, and an empty one only when that is allowed. */
  predicate Emitted(v: Variable) {
    v.category == Config && v.value.Text? && (v.value.text != "" || v.allowEmpty)
  }

  function Materialized(variables: seq<Variable>): seq<EnvironmentVariable> {
    if variables == [] then []
    else
      var last := variables[|variables| - 1];
      Materialized(variables[..|variables| - 1]) +
      if Emitted(last) then [EnvironmentVariable(last.name, last.value.text)] else []
  }

  method MaterializeEnvironmentVariables(variables: seq<Variable>) returns (env: seq<EnvironmentVariable>)
    ensures env == Materialized(variables)
  {
    env := [];
    for i := 0 to |variables|
      invariant env == Materialized(variables[..i])
    {
      assert variables[..i + 1][..i] == variables[..i];
      var v := variables[i];
      if v.category != Config {
        continue;
      }
      if v.value.Missing? {
        continue;
      }
      if v.value.Null? {
        continue;
      }
      if v.value.text == "" && !v.allowEmpty {
        continue;
      }
      env := env + [EnvironmentVariable(v.name, v.value.text)];
    }
    assert variables[..|variables|] == variables;
  }

  lemma {:induction false} MaterializedMembers(variables: seq<Variable>)
    ensures forall e :: e in Materialized(variables) <==>
              exists v | v in variables :: Emitted(v) && e == EnvironmentVariable(v.name, v.value.text)
  {
    if variables == [] {
    } else {
      var front, last := variables[..|variables| - 1], variables[|variables| - 1];
      MaterializedMembers(front);
      assert variables == front + [last];
    }
  }

  /** The value a variable is deployed with: the explicit override, else the preset, else the template's own. */
  function Effective(v: Variable, preset: Overrides, explicit: Overrides): Value {
    if v.name in explicit then Text(explicit[v.name])
    else if v.name in preset then Text(preset[v.name])
    else v.value
  }

  function WithEffective(v: Variable, preset: Overrides, explicit: Overrides): Variable {
    v.(value := Effective(v, preset, explicit))
  }

  lemma OverriddenMembers(variables: seq<Variable>, preset: Overrides, explicit: Overrides)
    ensures forall w :: w in OverrideAll(OverrideAll(variables, preset), explicit) <==>
              exists v | v in variables :: w == WithEffective(v, preset, explicit)
  {
    var after := OverrideAll(OverrideAll(variables, preset), explicit);
    forall i | 0 <= i < |variables|
      ensures after[i] == WithEffective(variables[i], preset, explicit)
      ensures after[i] in after && variables[i] in variables
    {}
  }

  /** What a deploy hands to a container: exactly its config variables with a usable value, which is the explicit
      override, else the preset, else the template's own; an empty one is usable only where that is allowed. */
  lemma DeployedVariablesAreEffective(variables: seq<Variable>, preset: Overrides, explicit: Overrides,
                                      e: EnvironmentVariable)
    ensures e in Materialized(OverrideAll(OverrideAll(variables, preset), explicit)) <==>
            exists v | v in variables ::
              && v.category == Config && e.name == v.name && (e.value != "" || v.allowEmpty)
              && if v.name in explicit then e.value == explicit[v.name]
                 else if v.name in preset then e.value == preset[v.name]
                 else v.value == Text(e.value)
  {
    MaterializedMembers(OverrideAll(OverrideAll(variables, preset), explicit));
    OverriddenMembers(variables, preset, explicit);
    forall v | v in variables
      ensures Emitted(WithEffective(v, preset, explicit)) &&
              e == EnvironmentVariable(v.name, WithEffective(v, preset, explicit).value.text) <==>
              && v.category == Config && e.name == v.name && (e.value != "" || v.allowEmpty)
              && if v.name in explicit then e.value == explicit[v.name]
                 else if v.name in preset then e.value == preset[v.name]
                 else v.value == Text(e.value)
    {}
  }

  /** Overriding keeps every container and every variable in its place, and of a variable all but the value. */
  lemma OverridingKeepsTheRest(containers: seq<Container>, overrides: Overrides, i: nat, j: nat)
    requires i < |containers| && j < |containers[i].variables|
    ensures var after := Overridden(containers, overrides);
            && |after| == |containers| && after[i].name == containers[i].name
            && |after[i].variables| == |containers[i].variables|
            && var v := containers[i].variables[j];
               after[i].variables[j] == if v.name in overrides then v.(value := Text(overrides[v.name])) else v
  {}

  /** Variables reach the container in the order of the template. */
  lemma MaterializedConcat(a: seq<Variable>, b: seq<Variable>)
    ensures Materialized(a + b) == Materialized(a) + Materialized(b)
  {
    if b == [] {
      assert a + b == a;
    } else {
      var front, last := b[..|b| - 1], b[|b| - 1];
      MaterializedConcat(a, front);
      assert (a + b)[..|a + b| - 1] == a + front;
      assert (a + b)[|a + b| - 1] == last;
    }
  }
}

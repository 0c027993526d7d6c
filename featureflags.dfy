/** Feature flags read from the parameter store: every parameter under the path prefix
    with a name and a value becomes a flag, true exactly when its value is "true" in any
    letter case. Any failure yields no flags. */
module FeatureFlagsStore {
  import opened Types
  import opened Strings

  const ParameterPath: string := "/todoapp/dev/"

  /** One entry of the response's `Parameters`; `None` is an absent key. */
  datatype Parameter = Parameter(name: Option<string>, value: Option<string>)

  /** `parameter.Name && parameter.Value`: both present and non-empty. */
  predicate Contributes(p: Parameter) {
    p.name.Some? && p.name.value != "" && p.value.Some? && p.value.value != ""
  }

  /** `Name.replace(PARAMETER_PATH, '')`: the first occurrence of the path is removed,
      wherever it is. */
  function FlagName(name: string): string {
    RemoveFirst(name, ParameterPath)
  }

  /** `Value.toLowerCase() === 'true'`. */
  predicate IsTrueValue(value: string) {
    AsciiLower(value) == "true"
  }

  /** The one key a plain object literal does not store: `obj['__proto__'] = b` calls the
      inherited `__proto__` setter, which ignores a value that is not an object. */
  const ProtoKey: string := "__proto__"

  /** `featureFlags[name] = value` on the object literal `{}`. */
  function Assign(flags: FeatureFlags, name: string, value: bool): (r: FeatureFlags)
    ensures name == ProtoKey ==> r == flags
    ensures name != ProtoKey ==> name in r && r[name] == value
    ensures forall k :: k != name ==> (k in r <==> k in flags)
    ensures forall k :: k != name && k in flags ==> r[k] == flags[k]
  {
    if name == ProtoKey then flags else flags[name := value]
  }

  /** The flags a list of parameters defines, later entries overwriting earlier ones. */
  function FlagsOf(ps: seq<Parameter>): (flags: FeatureFlags)
    decreases |ps|
  {
    if |ps| == 0 then map[]
    else
      var p := ps[|ps| - 1];
      if Contributes(p) then Assign(FlagsOf(ps[..|ps| - 1]), FlagName(p.name.value), IsTrueValue(p.value.value))
      else FlagsOf(ps[..|ps| - 1])
  }

  /** The keys are exactly the flag names of the contributing parameters, except
      `__proto__`, which is never stored. */
  lemma {:induction false} FlagsOfKeys(ps: seq<Parameter>, key: string)
    ensures key in FlagsOf(ps) <==>
      (key != ProtoKey && exists i :: 0 <= i < |ps| && Contributes(ps[i]) && FlagName(ps[i].name.value) == key)
  {
    if |ps| > 0 {
      var front := ps[..|ps| - 1];
      FlagsOfKeys(front, key);
      if key in FlagsOf(front) {
        var i :| 0 <= i < |front| && Contributes(front[i]) && FlagName(front[i].name.value) == key;
        assert ps[i] == front[i];
      }
      if exists i :: 0 <= i < |ps| && Contributes(ps[i]) && FlagName(ps[i].name.value) == key {
        var i :| 0 <= i < |ps| && Contributes(ps[i]) && FlagName(ps[i].name.value) == key;
        if i < |front| { assert front[i] == ps[i]; }
      }
    }
  }

  /** A flag's value comes from the last contributing parameter with that name. */
  lemma {:induction false} FlagsOfLastWins(ps: seq<Parameter>, i: nat)
    requires i < |ps| && Contributes(ps[i]) && FlagName(ps[i].name.value) != ProtoKey
    requires forall j :: i < j < |ps| && Contributes(ps[j]) ==> FlagName(ps[j].name.value) != FlagName(ps[i].name.value)
    ensures FlagName(ps[i].name.value) in FlagsOf(ps)
    ensures FlagsOf(ps)[FlagName(ps[i].name.value)] == IsTrueValue(ps[i].value.value)
  {
    var front := ps[..|ps| - 1];
    if i < |ps| - 1 {
      forall j | i < j < |front| && Contributes(front[j])
        ensures FlagName(front[j].name.value) != FlagName(front[i].name.value)
      {
        assert front[j] == ps[j];
      }
      assert front[i] == ps[i];
      FlagsOfLastWins(front, i);
    }
  }

  /** `fetchFeatureFlags`. `response` is the outcome of the one `GetParametersByPath`
      call: its `Parameters` (`None` when absent) or the value it throws. */
  method FetchFeatureFlags(response: Result<Option<seq<Parameter>>, Thrown>) returns (flags: FeatureFlags)
    ensures response.Failure? ==> flags == map[]
    ensures response.Success? && response.value.None? ==> flags == map[]
    ensures response.Success? && response.value.Some? ==> flags == FlagsOf(response.value.value)
  {
    flags := map[];
    if response.Failure? {
      return;
    }
    if response.value.Some? {
      var ps := response.value.value;
      var i := 0;
      while i < |ps|
        invariant 0 <= i <= |ps|
        invariant flags == FlagsOf(ps[..i])
      {
        var p := ps[i];
        assert ps[..i + 1][..i] == ps[..i];
        if Contributes(p) {
          flags := Assign(flags, FlagName(p.name.value), IsTrueValue(p.value.value));
        }
        i := i + 1;
      }
      assert ps[..|ps|] == ps;
    }
  }

  /** A parameter named `/todoapp/dev/__proto__` leaves no flag behind. */
  lemma ProtoParameterIgnored(ps: seq<Parameter>)
    requires ps == [Parameter(Some(ParameterPath + ProtoKey), Some("true"))]
    ensures FlagsOf(ps) == map[]
  {
    FlagNameUnderPath(ProtoKey);
    assert ps[..0] == [];
  }

  /** "true" in any letter case enables a flag; near misses do not. */
  lemma TrueValueCases()
    ensures IsTrueValue("true") && IsTrueValue("TRUE") && IsTrueValue("True")
    ensures !IsTrueValue("yes") && !IsTrueValue("1") && !IsTrueValue("true ") && !IsTrueValue("false")
  {
    assert AsciiLower("TRUE") == "true";
    assert AsciiLower("True") == "true";
    assert AsciiLower("true ")[4] == ' ';
  }

  /** A name under the path loses exactly the path prefix. */
  lemma FlagNameUnderPath(flag: string)
    ensures FlagName(ParameterPath + flag) == flag
  {
    RemoveFirstPrefix(ParameterPath, flag);
  }

  /** The path is removed wherever it first occurs, not only at the start. */
  lemma FlagNameNotAnchored()
    ensures FlagName("x/todoapp/dev/y") == "xy"
  {
    var s := "x/todoapp/dev/y";
    assert !OccursAt(s, ParameterPath, 0) by { assert s[0] != ParameterPath[0]; }
    assert OccursAt(s, ParameterPath, 1);
  }

  /** Only the first occurrence is removed. */
  lemma FlagNameRemovesOnce(flag: string)
    ensures FlagName(ParameterPath + ParameterPath + flag) == ParameterPath + flag
  {
    assert ParameterPath + ParameterPath + flag == ParameterPath + (ParameterPath + flag);
    RemoveFirstPrefix(ParameterPath, ParameterPath + flag);
  }
}

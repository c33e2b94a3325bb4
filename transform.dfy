/** The Transform object of ardent/transform.py: collecting the registration
    parameters, layering them over a preset, and the lifecycle of the result
    attributes across construction, register and load. The LDDMM solver is a
    parameter of `Register`: a function from its inputs to its output
    dictionary. */
module Transform {
  import opened Outcomes
  import opened Presets

  /** The named parameters of `register`; Python never puts these in `**kwargs`. */
  const NamedParameters: set<string> :=
    {"self", "template", "target", "template_resolution", "target_resolution", "preset",
     "sigmaR", "eV", "eL", "eT", "A", "v"}

  /** `dict(sigmaR=sigmaR, eV=eV, eL=eL, eT=eT, **kwargs)`. */
  function ExplicitArguments(sigmaR: Value, eV: Value, eL: Value, eT: Value, kwargs: Params): Params
  {
    map["sigmaR" := sigmaR, "eV" := eV, "eL" := eL, "eT" := eT] + kwargs
  }

  /** The explicit parameters of `register` with every None dropped. */
  function CollectParameters(sigmaR: Value, eV: Value, eL: Value, eT: Value, kwargs: Params): (r: Params)
    requires NamedParameters !! kwargs.Keys
    ensures ("sigmaR" in r <==> sigmaR != NoneValue) && ("sigmaR" in r ==> r["sigmaR"] == sigmaR)
    ensures ("eV" in r <==> eV != NoneValue) && ("eV" in r ==> r["eV"] == eV)
    ensures ("eL" in r <==> eL != NoneValue) && ("eL" in r ==> r["eL"] == eL)
    ensures ("eT" in r <==> eT != NoneValue) && ("eT" in r ==> r["eT"] == eT)
    ensures forall k :: k in kwargs ==> (k in r <==> kwargs[k] != NoneValue)
    ensures forall k :: k in kwargs && k in r ==> r[k] == kwargs[k]
    ensures forall k :: k in r ==> k in kwargs || k in {"sigmaR", "eV", "eL", "eT"}
    ensures NoneValue !in r.Values
  {
    var explicit := ExplicitArguments(sigmaR, eV, eL, eT, kwargs);
    map k | k in explicit && explicit[k] != NoneValue :: explicit[k]
  }

  /** `defaults.update(overrides)` as a value: the overrides win. */
  function Merge(defaults: Params, overrides: Params): (r: Params)
    ensures r.Keys == defaults.Keys + overrides.Keys
    ensures forall k :: k in overrides ==> r[k] == overrides[k]
    ensures forall k :: k in defaults && k !in overrides ==> r[k] == defaults[k]
  {
    defaults + overrides
  }

  /** _handle_registration_parameters, on a copy of the preset: the preset's
      parameters superseded by the caller's. The preset table is not changed. */
  function HandleRegistrationParameters(table: map<string, Params>, preset: string, params: Params): (r: Result<Params>)
    ensures r.Ok? <==> Normalize(preset) in table
    ensures r.Err? ==> r.error == UnknownPreset(Normalize(preset), table.Keys)
    ensures r.Ok? ==> r.value.Keys == table[Normalize(preset)].Keys + params.Keys
    ensures r.Ok? ==> forall k :: k in params ==> r.value[k] == params[k]
    ensures r.Ok? ==> forall k :: k in table[Normalize(preset)] && k !in params ==> r.value[k] == table[Normalize(preset)][k]
  {
    match GetRegistrationPresets(table, preset)
    case Ok(defaults) => Ok(Merge(defaults, params))
    case Err(e) => Err(e)
  }

  /** The preset table after _handle_registration_parameters as written: the
      stored entry itself has been updated with the caller's parameters. */
  function InPlaceTable(table: map<string, Params>, preset: string, params: Params): (after: map<string, Params>)
    ensures after.Keys == table.Keys
    ensures Normalize(preset) in table ==> after[Normalize(preset)] == Merge(table[Normalize(preset)], params)
    ensures forall name :: name in table && name != Normalize(preset) ==> after[name] == table[name]
  {
    var key := Normalize(preset);
    if key in table then table[key := Merge(table[key], params)] else table
  }

  /** _handle_registration_parameters as written: `update` is called on the
      dictionary the lookup returns, which is the entry stored in the module's
      preset table, so the caller's parameters are written into the table. */
  method HandleRegistrationParametersInPlace(registry: PresetRegistry, preset: string, params: Params)
    returns (r: Result<Params>)
    modifies registry
    ensures r == HandleRegistrationParameters(old(registry.table), preset, params)
    ensures registry.table == InPlaceTable(old(registry.table), preset, params)
  {
    var looked := GetRegistrationPresets(registry.table, preset);
    if looked.Err? {
      return Err(looked.error);
    }
    var entry := Merge(looked.value, params);
    registry.table := registry.table[Normalize(preset) := entry];
    r := Ok(entry);
  }

  /** The consequence of the in-place update: a `register` with preset
      "clarity" and sigmaR=5.0, followed by a `register` with the same preset
      and no explicit parameters, hands the second call sigmaR=5.0 instead of
      the preset's own 1.0. */
  lemma InPlaceMergeLeaksIntoLaterCalls()
    ensures var table := map["clarity" := map["sigmaR" := Number(1.0)]];
            var after := InPlaceTable(table, "clarity", map["sigmaR" := Number(5.0)]);
            HandleRegistrationParameters(table, "clarity", map[]) == Ok(map["sigmaR" := Number(1.0)])
            && HandleRegistrationParameters(after, "clarity", map[]) == Ok(map["sigmaR" := Number(5.0)])
  {
    var table := map["clarity" := map["sigmaR" := Number(1.0)]];
    var overrides := map["sigmaR" := Number(5.0)];
    assert Trimmed("clarity");
    NormalizeKeepsTrimmedLowerCase("clarity");
    assert Merge(table["clarity"], overrides) == overrides;
    var after := InPlaceTable(table, "clarity", overrides);
    assert after == map["clarity" := overrides];
    assert Merge(table["clarity"], map[]) == table["clarity"];
    assert Merge(after["clarity"], map[]) == overrides;
  }

  /** Lines 91-95 of `register`: drop the Nones, then, when a preset is named,
      fill in its parameters under the caller's. */
  function RegistrationParameters(table: map<string, Params>, preset: Option<string>,
                                  sigmaR: Value, eV: Value, eL: Value, eT: Value, kwargs: Params): (r: Result<Params>)
    requires NamedParameters !! kwargs.Keys
    // no preset: exactly the caller's parameters, whatever the table holds
    ensures preset.None? ==> r == Ok(CollectParameters(sigmaR, eV, eL, eT, kwargs))
    ensures preset.Some? ==> (r.Ok? <==> Normalize(preset.value) in table)
    ensures preset.Some? && r.Err? ==> r.error == UnknownPreset(Normalize(preset.value), table.Keys)
    // explicit values always win
    ensures r.Ok? ==> forall k :: k in CollectParameters(sigmaR, eV, eL, eT, kwargs) ==>
                       k in r.value && r.value[k] == CollectParameters(sigmaR, eV, eL, eT, kwargs)[k]
    // preset values fill in the rest
    ensures r.Ok? && preset.Some? ==>
      forall k :: k in table[Normalize(preset.value)] && k !in CollectParameters(sigmaR, eV, eL, eT, kwargs) ==>
        k in r.value && r.value[k] == table[Normalize(preset.value)][k]
    // nothing but the preset's keys and the caller's
    ensures r.Ok? && preset.Some? ==>
      forall k :: k in r.value ==> k in table[Normalize(preset.value)] || k in CollectParameters(sigmaR, eV, eL, eT, kwargs)
    // sigmaR is present exactly when the caller or the preset supplies it
    ensures r.Ok? ==> ("sigmaR" in r.value <==>
                       sigmaR != NoneValue || (preset.Some? && "sigmaR" in table[Normalize(preset.value)]))
  {
    var params := CollectParameters(sigmaR, eV, eL, eT, kwargs);
    if preset.None? then Ok(params) else HandleRegistrationParameters(table, preset.value, params)
  }

  /** Everything the solver (`Transformer(...)` then `torch_register(...)`) is given. */
  datatype SolverCall = SolverCall(template: Value, target: Value,
                                   templateResolution: Value, targetResolution: Value,
                                   previous: Value, sigmaR: Value,
                                   initialAffine: Value, initialVelocity: Value,
                                   parameters: Params)

  /** The solver's output keys, read in this order, and the attribute each one sets. */
  const OutputKeys: seq<string> := ["phis", "phiinvs", "Aphis", "phiinvAinvs", "A", "transformer"]
  const AttributeNames: seq<string> := ["phis", "phiinvs", "Aphis", "phiinvAinvs", "affine", "transformer"]
  const ResultAttributes: set<string> := {"phis", "phiinvs", "Aphis", "phiinvAinvs", "affine", "transformer"}

  /** The six result attributes, in the order of AttributeNames. */
  type Fields = s: seq<Value> | |s| == 6 witness [NoneValue, NoneValue, NoneValue, NoneValue, NoneValue, NoneValue]

  /** An object's `__dict__`: its other attributes and the six result attributes. */
  function AttributeMap(fields: Fields, extra: Params): Params
  {
    extra + map["phis" := fields[0], "phiinvs" := fields[1], "Aphis" := fields[2],
                "phiinvAinvs" := fields[3], "affine" := fields[4], "transformer" := fields[5]]
  }

  /** Index of the first output key from i on that the solver's output lacks
      (6 when it has them all). */
  function FirstMissing(out: Params, i: nat): (j: nat)
    requires i <= 6
    ensures i <= j <= 6
    ensures forall m :: i <= m < j ==> OutputKeys[m] in out
    ensures j < 6 ==> OutputKeys[j] !in out
    decreases 6 - i
  {
    if i == 6 || OutputKeys[i] !in out then i else FirstMissing(out, i + 1)
  }

  /** The first missing output is the one after an unbroken run of present ones. */
  lemma {:induction false} FirstMissingAt(out: Params, i: nat, k: nat)
    requires i <= k <= 6
    requires forall m :: i <= m < k ==> OutputKeys[m] in out
    requires k < 6 ==> OutputKeys[k] !in out
    ensures FirstMissing(out, i) == k
    decreases 6 - i
  {
    if i < k {
      FirstMissingAt(out, i + 1, k);
    }
  }

  /** Lines 114-120 stopped at output j: the attributes before it come from
      the output, the others keep their values. */
  function Overwritten(fields: Fields, out: Params, j: nat): (r: Fields)
    requires j <= 6 && forall m :: 0 <= m < j ==> OutputKeys[m] in out
  {
    seq(6, m requires 0 <= m < 6 => if m < j then out[OutputKeys[m]] else fields[m])
  }

  /** The outcome of lines 114-120: a KeyError naming the first missing output, if any. */
  function PopulateError(out: Params): (e: Option<Error>)
    ensures e.None? <==> forall m :: 0 <= m < 6 ==> OutputKeys[m] in out
    ensures e.Some? ==> e.value.MissingKey? && e.value.key in OutputKeys && e.value.key !in out
    ensures e.Some? ==> e.value == MissingKey(OutputKeys[FirstMissing(out, 0)])
  {
    var j := FirstMissing(out, 0);
    if j < 6 then Some(MissingKey(OutputKeys[j])) else None
  }

  /** When the solver returns all six outputs, `register` changes exactly the
      six result attributes of `__dict__`, each to its output; all other
      attributes keep their values. */
  lemma RegisterOverwritesResults(fields: Fields, extra: Params, out: Params)
    requires forall m :: 0 <= m < 6 ==> OutputKeys[m] in out
    ensures FirstMissing(out, 0) == 6
    ensures AttributeMap(Overwritten(fields, out, 6), extra).Keys == AttributeMap(fields, extra).Keys
    ensures forall m :: 0 <= m < 6 ==> AttributeMap(Overwritten(fields, out, 6), extra)[AttributeNames[m]] == out[OutputKeys[m]]
    ensures forall k :: k in extra && k !in ResultAttributes ==> AttributeMap(Overwritten(fields, out, 6), extra)[k] == extra[k]
  {
  }

  /** The six result attributes after `__dict__.update(loaded)`. */
  function LoadedFields(fields: Fields, loaded: Params): Fields
  {
    seq(6, m requires 0 <= m < 6 => if AttributeNames[m] in loaded then loaded[AttributeNames[m]] else fields[m])
  }

  lemma LoadedResultAttribute(fields: Fields, extra: Params, loaded: Params, m: nat)
    requires extra.Keys !! ResultAttributes && m < 6
    ensures var k := AttributeNames[m];
            AttributeMap(LoadedFields(fields, loaded), extra + (loaded - ResultAttributes))[k]
            == (AttributeMap(fields, extra) + loaded)[k]
  {
  }

  lemma LoadedOtherAttribute(fields: Fields, extra: Params, loaded: Params, k: string)
    requires extra.Keys !! ResultAttributes && k !in ResultAttributes
    ensures k in AttributeMap(LoadedFields(fields, loaded), extra + (loaded - ResultAttributes))
            <==> k in AttributeMap(fields, extra) + loaded
    ensures k in AttributeMap(fields, extra) + loaded ==>
            AttributeMap(LoadedFields(fields, loaded), extra + (loaded - ResultAttributes))[k]
            == (AttributeMap(fields, extra) + loaded)[k]
  {
  }

  /** Splitting `loaded` between the result attributes and the others is
      exactly `__dict__.update(loaded)`. */
  lemma LoadIsDictUpdate(fields: Fields, extra: Params, loaded: Params)
    requires extra.Keys !! ResultAttributes
    ensures (extra + (loaded - ResultAttributes)).Keys !! ResultAttributes
    ensures AttributeMap(LoadedFields(fields, loaded), extra + (loaded - ResultAttributes))
            == AttributeMap(fields, extra) + loaded
  {
    var lhs := AttributeMap(LoadedFields(fields, loaded), extra + (loaded - ResultAttributes));
    var rhs := AttributeMap(fields, extra) + loaded;
    forall k | k in lhs.Keys + rhs.Keys
      ensures k in lhs && k in rhs && lhs[k] == rhs[k]
    {
      if k in ResultAttributes {
        var m :| 0 <= m < 6 && AttributeNames[m] == k;
        LoadedResultAttribute(fields, extra, loaded, m);
      } else {
        LoadedOtherAttribute(fields, extra, loaded, k);
      }
    }
    assert lhs == rhs;
  }

  /** Stores the deformation computed by a registration. Besides the six
      result attributes, `extra` holds any other attribute a `load` brings in. */
  class Transform {
    var phis: Value
    var phiinvs: Value
    var Aphis: Value
    var phiinvAinvs: Value
    var affine: Value
    var transformer: Value
    var extra: Params

    ghost predicate Valid()
      reads this
    {
      extra.Keys !! ResultAttributes
    }

    function ResultFields(): Fields
      reads this
    {
      var fields := [phis, phiinvs, Aphis, phiinvAinvs, affine, transformer];
      assert |fields| == 6;
      fields
    }

    /** The object's `__dict__`. */
    function Attributes(): Params
      reads this
    {
      AttributeMap(ResultFields(), extra)
    }

    /** `Transform()`: every result attribute is None and there is no other attribute. */
    constructor()
      ensures Valid()
      ensures Attributes() == map["phis" := NoneValue, "phiinvs" := NoneValue, "Aphis" := NoneValue,
                                  "phiinvAinvs" := NoneValue, "affine" := NoneValue, "transformer" := NoneValue]
    {
      phis, phiinvs, Aphis, phiinvAinvs, affine, transformer := NoneValue, NoneValue, NoneValue, NoneValue, NoneValue, NoneValue;
      extra := map[];
    }

    /** `register`: collect and merge the parameters, require sigmaR, run the
        solver with the previous solver state, then set the result attributes
        one by one from its output, up to the first output it lacks. This is
        the corrected register: the preset is merged as a copy
        (HandleRegistrationParameters), so the preset table is only read.
        As written, line 51 writes the caller's parameters into the stored
        preset entry (HandleRegistrationParametersInPlace). */
    method Register(registry: PresetRegistry, template: Value, target: Value,
                    templateResolution: Value, targetResolution: Value, preset: Option<string>,
                    sigmaR: Value, eV: Value, eL: Value, eT: Value,
                    initialAffine: Value, initialVelocity: Value, kwargs: Params,
                    solve: SolverCall -> Params)
      returns (err: Option<Error>)
      requires Valid()
      requires NamedParameters !! kwargs.Keys
      modifies this
      ensures Valid() && extra == old(extra)
      ensures registry.table == old(registry.table)
      ensures match RegistrationParameters(registry.table, preset, sigmaR, eV, eL, eT, kwargs)
              case Err(e) => err == Some(e) && ResultFields() == old(ResultFields())
              case Ok(p) =>
                if "sigmaR" !in p then err == Some(MissingKey("sigmaR")) && ResultFields() == old(ResultFields())
                else
                  var out := solve(SolverCall(template, target, templateResolution, targetResolution,
                                              old(transformer), p["sigmaR"], initialAffine, initialVelocity, p));
                  err == PopulateError(out) && ResultFields() == Overwritten(old(ResultFields()), out, FirstMissing(out, 0))
    {
      var collected := RegistrationParameters(registry.table, preset, sigmaR, eV, eL, eT, kwargs);
      if collected.Err? {
        return Some(collected.error);
      }
      var parameters := collected.value;
      if "sigmaR" !in parameters {
        return Some(MissingKey("sigmaR"));
      }
      var out := solve(SolverCall(template, target, templateResolution, targetResolution,
                                  transformer, parameters["sigmaR"], initialAffine, initialVelocity, parameters));
      err := Populate(out);
    }

    /** Lines 114-120: copy the solver's outputs into the result attributes in
        order; the first output missing raises KeyError and leaves the later
        attributes as they were. */
    method Populate(out: Params) returns (err: Option<Error>)
      modifies this
      ensures extra == old(extra)
      ensures err == PopulateError(out)
      ensures ResultFields() == Overwritten(old(ResultFields()), out, FirstMissing(out, 0))
    {
      ghost var before := ResultFields();
      if "phis" !in out {
        FirstMissingAt(out, 0, 0);
        assert Overwritten(before, out, 0) == before;
        return Some(MissingKey("phis"));
      }
      phis := out["phis"];
      if "phiinvs" !in out {
        FirstMissingAt(out, 0, 1);
        assert Overwritten(before, out, 1) == ResultFields();
        return Some(MissingKey("phiinvs"));
      }
      phiinvs := out["phiinvs"];
      if "Aphis" !in out {
        FirstMissingAt(out, 0, 2);
        assert Overwritten(before, out, 2) == ResultFields();
        return Some(MissingKey("Aphis"));
      }
      Aphis := out["Aphis"];
      if "phiinvAinvs" !in out {
        FirstMissingAt(out, 0, 3);
        assert Overwritten(before, out, 3) == ResultFields();
        return Some(MissingKey("phiinvAinvs"));
      }
      phiinvAinvs := out["phiinvAinvs"];
      if "A" !in out {
        FirstMissingAt(out, 0, 4);
        assert Overwritten(before, out, 4) == ResultFields();
        return Some(MissingKey("A"));
      }
      affine := out["A"];
      if "transformer" !in out {
        FirstMissingAt(out, 0, 5);
        assert Overwritten(before, out, 5) == ResultFields();
        return Some(MissingKey("transformer"));
      }
      transformer := out["transformer"];
      FirstMissingAt(out, 0, 6);
      assert Overwritten(before, out, 6) == ResultFields();
      err := None;
    }

    /** Sets the six result attributes at once. */
    method SetResultFields(fields: Fields)
      modifies this
      ensures ResultFields() == fields && extra == old(extra)
    {
      phis, phiinvs, Aphis := fields[0], fields[1], fields[2];
      phiinvAinvs, affine, transformer := fields[3], fields[4], fields[5];
      assert ResultFields() == fields;
    }

    /** `load`: `self.__dict__.update(loaded.__dict__)` for the attribute
        dictionary of the unpickled object. */
    method Load(loaded: Params)
      requires Valid()
      modifies this
      ensures Valid()
      ensures ResultFields() == LoadedFields(old(ResultFields()), loaded)
      ensures extra == old(extra) + (loaded - ResultAttributes)
      ensures Attributes() == old(Attributes()) + loaded
    {
      var updated := LoadedFields(ResultFields(), loaded);
      LoadIsDictUpdate(ResultFields(), extra, loaded);
      ghost var after := AttributeMap(updated, extra + (loaded - ResultAttributes));
      assert after == Attributes() + loaded;
      SetResultFields(updated);
      extra := extra + (loaded - ResultAttributes);
      assert Attributes() == after;
    }
  }
}

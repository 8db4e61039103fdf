/** The per-parameter configuration of the injection engine: how one method
    parameter is looked up in the input store (`InputConfig.resolve`), and
    the method decorator that attaches such configurations to a function
    (`input_config`). */
module Config {
  import opened Wrappers
  import opened Values
  import opened Dicts
  import opened Foreign
  import opened Lookup

  /** A configured default, or none: the sentinel `_MISSING`, which differs
      from an explicit default of `None`. */
  datatype Default = Unset | DefaultTo(value: Value)

  /** `InputConfig`: the decoding flags (with `allow_none`) and the
      coercion flags are grouped as `decode_input` and `get_input` take them. */
  datatype InputConfig = InputConfig(
    parameterName: string,
    sourceName: Option<string>,
    required: bool,
    default: Default,
    dec: Decoding,
    co: Coercions)

  const NoDecoding := Decoding(false, false, false, true)

  /** `InputConfig(parameter_name=name)`, every other field at its default. */
  function Plain(name: string): InputConfig {
    InputConfig(name, None, false, Unset, NoDecoding, NoCoercions)
  }

  /** The outcome of resolving one parameter: `_MISSING`, or a value. */
  datatype Resolution = Missing | Resolved(value: Value)

  /** `source_name or parameter_name`: an empty source name counts as none. */
  function ResolveKey(cfg: InputConfig): (k: string)
    ensures cfg.sourceName.Some? && cfg.sourceName.value != [] ==> k == cfg.sourceName.value
    ensures cfg.sourceName.None? || cfg.sourceName.value == [] ==> k == cfg.parameterName
  {
    if cfg.sourceName.Some? && cfg.sourceName.value != [] then cfg.sourceName.value else cfg.parameterName
  }

  /** The default handed to the store: `None` when none was configured. */
  function DefaultValue(d: Default): Value {
    if d.Unset? then Null else d.value
  }

  predicate Decodes(dec: Decoding) {
    dec.fromJson || dec.fromYaml || dec.fromBase64
  }

  /** The store call `resolve` makes: `decode_input` when a decoding flag is
      set, `get_input` with the coercion flags otherwise. */
  function Looked(cfg: InputConfig, store: Entries<Value>, lib: Library): Outcome<Value> {
    var key := ResolveKey(cfg);
    var dv := DefaultValue(cfg.default);
    if Decodes(cfg.dec) then DecodeInputOf(store, key, dv, cfg.required, cfg.dec, lib)
    else GetInputOf(store, key, dv, cfg.required, cfg.co, lib)
  }

  /** `InputConfig.resolve` against the entries of the store. */
  function ResolveOf(cfg: InputConfig, store: Entries<Value>, lib: Library): (r: Outcome<Resolution>)
    ensures r.Err? <==> Looked(cfg, store, lib).Err?
    ensures r.Err? ==> r.error == Looked(cfg, store, lib).error
    ensures r == Ok(Missing) <==>
            && Looked(cfg, store, lib) == Ok(Null)
            && !Has(store, ResolveKey(cfg), true)
            && cfg.default.Unset?
            && !cfg.required
    ensures r.Ok? && r.value.Resolved? ==> Looked(cfg, store, lib) == Ok(r.value.value)
  {
    var value :- Looked(cfg, store, lib);
    if value.Null? && !Has(store, ResolveKey(cfg), true) && cfg.default.Unset? && !cfg.required then Ok(Missing)
    else Ok(Resolved(value))
  }

  // ---------------------------------------------------------------------
  // Properties of resolve

  /** A parameter whose key the store lacks, with no default and not
      required, is left to the method's own default. */
  lemma AbsentOptionalIsMissing(cfg: InputConfig, store: Entries<Value>, lib: Library)
    requires Sane(lib)
    requires !Has(store, ResolveKey(cfg), true)
    requires cfg.default.Unset? && !cfg.required && !(cfg.co.isBool && !Decodes(cfg.dec))
    ensures ResolveOf(cfg, store, lib) == Ok(Missing)
  {
    var key := ResolveKey(cfg);
    NoneNotConverted(store, key, Null, if Decodes(cfg.dec) then NoCoercions else cfg.co, lib);
    DecodeMissingKey(store, key, Null, false, cfg.dec, lib);
  }

  /** A required parameter whose key the store lacks raises, whatever the
      decoding flags. */
  lemma RequiredAbsentRaises(cfg: InputConfig, store: Entries<Value>, lib: Library)
    requires Sane(lib)
    requires !Has(store, ResolveKey(cfg), true)
    requires cfg.default.Unset? && cfg.required && !(cfg.co.isBool && !Decodes(cfg.dec))
    ensures ResolveOf(cfg, store, lib) == Err(RequiredInputMissing(ResolveKey(cfg)))
  {
    var key := ResolveKey(cfg);
    NoneNotConverted(store, key, Null, if Decodes(cfg.dec) then NoCoercions else cfg.co, lib);
  }

  /** `_MISSING` is never the result for a key the store holds, for a
      configured default, or for a required parameter. */
  lemma MissingOnlyWhenUnconfigured(cfg: InputConfig, store: Entries<Value>, lib: Library)
    requires Has(store, ResolveKey(cfg), true) || cfg.default.DefaultTo? || cfg.required
    ensures ResolveOf(cfg, store, lib) != Ok(Missing)
  {
  }

  /** An unset default reaches the store as `None`: apart from the
      `_MISSING` case, resolving is the same as with an explicit `None`. */
  lemma UnsetDefaultPassedAsNone(cfg: InputConfig, store: Entries<Value>, lib: Library)
    requires cfg.default.Unset?
    ensures var explicit := ResolveOf(cfg.(default := DefaultTo(Null)), store, lib);
            if ResolveOf(cfg, store, lib) == Ok(Missing) then explicit == Ok(Resolved(Null))
            else explicit == ResolveOf(cfg, store, lib)
  {
    assert Looked(cfg.(default := DefaultTo(Null)), store, lib) == Looked(cfg, store, lib);
  }

  /** With a decoding flag set the coercion flags are ignored; without one
      the decoding options are. */
  lemma ResolveRoutes(cfg: InputConfig, store: Entries<Value>, lib: Library, co: Coercions, dec: Decoding)
    ensures Decodes(cfg.dec) ==> ResolveOf(cfg.(co := co), store, lib) == ResolveOf(cfg, store, lib)
    ensures !Decodes(cfg.dec) && !Decodes(dec) ==> ResolveOf(cfg.(dec := dec), store, lib) == ResolveOf(cfg, store, lib)
    ensures Decodes(cfg.dec) ==>
              (Looked(cfg, store, lib) ==
               DecodeInputOf(store, ResolveKey(cfg), DefaultValue(cfg.default), cfg.required, cfg.dec, lib))
    ensures !Decodes(cfg.dec) ==>
              (Looked(cfg, store, lib) ==
               GetInputOf(store, ResolveKey(cfg), DefaultValue(cfg.default), cfg.required, cfg.co, lib))
  {
  }

  /** A non-empty source name decides the key: the parameter's own name then
      plays no part, and without one the parameter's name is looked up. */
  lemma SourceNameKey(cfg: InputConfig, other: string, store: Entries<Value>, lib: Library)
    ensures cfg.sourceName.Some? && cfg.sourceName.value != [] ==>
            ResolveOf(cfg.(parameterName := other), store, lib) == ResolveOf(cfg, store, lib)
    ensures ResolveOf(cfg.(sourceName := None), store, lib) ==
            ResolveOf(cfg.(sourceName := Some(cfg.parameterName)), store, lib)
  {
  }

  /** A plain configuration resolves a present key to its value, looked up
      regardless of case. */
  lemma PlainResolvesStored(name: string, store: Entries<Value>, lib: Library, v: Value)
    requires Get(store, name, true) == Some(v) && !lib.isNothing(v)
    ensures ResolveOf(Plain(name), store, lib) == Ok(Resolved(v))
  {
    PlainGetInput(store, name, Null, false, lib);
  }

  // ---------------------------------------------------------------------
  // input_config

  /** `input_config(parameter_name, default=..., **rest)` applied to a
      function whose configurations are `configs`: a copy of the map with
      the entry for that parameter added or replaced. */
  function WithInputConfig(configs: map<string, InputConfig>, parameterName: string, default: Default,
                           sourceName: Option<string>, required: bool, dec: Decoding, co: Coercions): (r: map<string, InputConfig>)
    ensures parameterName in r && r[parameterName] == InputConfig(parameterName, sourceName, required, default, dec, co)
    ensures r.Keys == configs.Keys + {parameterName}
    ensures forall n :: n in configs && n != parameterName ==> r[n] == configs[n]
  {
    configs[parameterName := InputConfig(parameterName, sourceName, required, default, dec, co)]
  }

  /** Configurations for two different parameters do not interfere: the
      order in which the decorators are stacked does not matter. */
  lemma StackedConfigsCommute(configs: map<string, InputConfig>, a: InputConfig, b: InputConfig)
    requires a.parameterName != b.parameterName
    ensures WithInputConfig(WithInputConfig(configs, a.parameterName, a.default, a.sourceName, a.required, a.dec, a.co),
                            b.parameterName, b.default, b.sourceName, b.required, b.dec, b.co) ==
            WithInputConfig(WithInputConfig(configs, b.parameterName, b.default, b.sourceName, b.required, b.dec, b.co),
                            a.parameterName, a.default, a.sourceName, a.required, a.dec, a.co)
  {
  }

  /** The outermost (last applied) of two configurations of one parameter wins. */
  lemma LaterConfigWins(configs: map<string, InputConfig>, a: InputConfig, b: InputConfig)
    requires a.parameterName == b.parameterName
    ensures WithInputConfig(WithInputConfig(configs, a.parameterName, a.default, a.sourceName, a.required, a.dec, a.co),
                            b.parameterName, b.default, b.sourceName, b.required, b.dec, b.co) ==
            WithInputConfig(configs, b.parameterName, b.default, b.sourceName, b.required, b.dec, b.co)
  {
  }
}

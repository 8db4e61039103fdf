/** `InputContext`: the options a store is built from, and the store itself,
    built on first use and discarded whenever the options change. */
module Context {
  import opened Wrappers
  import opened Values
  import opened Dicts
  import opened Foreign
  import opened Sources
  import opened Store
  import opened Config

  /** The five constructor options; `None` is an option set to `None`. */
  datatype Options = Options(
    inputs: Option<Entries<Value>>,
    fromEnvironment: Option<bool>,
    fromStdin: Option<bool>,
    envPrefix: Option<string>,
    stripEnvPrefix: Option<bool>)

  /** The keyword arguments of `refresh`: `None` for an option not named,
      `Some(x)` for an option set to `x` (which may itself be `None`). */
  datatype Overrides = Overrides(
    inputs: Option<Option<Entries<Value>>>,
    fromEnvironment: Option<Option<bool>>,
    fromStdin: Option<Option<bool>>,
    envPrefix: Option<Option<string>>,
    stripEnvPrefix: Option<Option<bool>>)

  const NoOverrides := Overrides(None, None, None, None, None)

  function Override<T>(current: Option<T>, given: Option<Option<T>>): Option<T> {
    if given.Some? then given.value else current
  }

  /** `options.update(overrides)`. */
  function Updated(o: Options, ov: Overrides): (r: Options)
    ensures ov == NoOverrides ==> r == o
  {
    Options(Override(o.inputs, ov.inputs),
            Override(o.fromEnvironment, ov.fromEnvironment),
            Override(o.fromStdin, ov.fromStdin),
            Override(o.envPrefix, ov.envPrefix),
            Override(o.stripEnvPrefix, ov.stripEnvPrefix))
  }

  /** The constructor arguments, once the options set to `None` are dropped
      and the constructor's own defaults take their place. */
  datatype Arguments = Arguments(inputs: Option<Entries<Value>>, fromEnvironment: bool, fromStdin: bool,
                                 envPrefix: Option<string>, stripEnvPrefix: bool)

  function InstanceArguments(o: Options): (a: Arguments)
    ensures o.fromEnvironment.None? ==> a.fromEnvironment
    ensures o.fromStdin.None? ==> !a.fromStdin
    ensures o.stripEnvPrefix.None? ==> !a.stripEnvPrefix
    ensures o.fromEnvironment.Some? ==> a.fromEnvironment == o.fromEnvironment.value
    ensures o.fromStdin.Some? ==> a.fromStdin == o.fromStdin.value
    ensures o.stripEnvPrefix.Some? ==> a.stripEnvPrefix == o.stripEnvPrefix.value
    ensures a.inputs == o.inputs && a.envPrefix == o.envPrefix
  {
    Arguments(o.inputs, o.fromEnvironment.GetOr(true), o.fromStdin.GetOr(false), o.envPrefix,
              o.stripEnvPrefix.GetOr(false))
  }

  /** The entries of the store `_ensure_instance` builds from the options. */
  function Built(o: Options, world: World, lib: Library): Outcome<Entries<Value>> {
    var a := InstanceArguments(o);
    var current :- Layered(a.inputs, a.fromEnvironment, a.fromStdin, a.envPrefix, a.stripEnvPrefix, world, lib);
    Ok(Collapse(current))
  }

  /** Options given at construction: inputs that are empty count as none. */
  function InitialOptions(inputs: Option<Entries<Value>>, fromEnvironment: bool, fromStdin: bool,
                          envPrefix: Option<string>, stripEnvPrefix: bool): (o: Options)
    ensures o.inputs.Some? <==> inputs.Some? && inputs.value != []
    ensures o.inputs.Some? ==> o.inputs == inputs
    ensures InstanceArguments(o) == Arguments(o.inputs, fromEnvironment, fromStdin, envPrefix, stripEnvPrefix)
  {
    Options(if inputs.Some? && inputs.value != [] then inputs else None,
            Some(fromEnvironment), Some(fromStdin), envPrefix, Some(stripEnvPrefix))
  }

  class InputContext {
    var options: Options
    var instance: DirectedInputsClass?

    constructor (inputs: Option<Entries<Value>>, fromEnvironment: bool, fromStdin: bool,
                 envPrefix: Option<string>, stripEnvPrefix: bool)
      ensures options == InitialOptions(inputs, fromEnvironment, fromStdin, envPrefix, stripEnvPrefix)
      ensures instance == null
    {
      options := InitialOptions(inputs, fromEnvironment, fromStdin, envPrefix, stripEnvPrefix);
      instance := null;
    }

    /** The entries every resolution sees: the cached store's, or those of
        the store the options would build. */
    ghost function Source(world: World, lib: Library): Outcome<Entries<Value>>
      reads this, instance
    {
      if instance != null then Ok(instance.inputs) else Built(options, world, lib)
    }

    /** `refresh(**overrides)`: the named options change, the cached store
        is discarded. */
    method Refresh(ov: Overrides)
      modifies this
      ensures options == Updated(old(options), ov) && instance == null
      ensures forall world, lib :: Source(world, lib) == Built(options, world, lib)
    {
      options := Updated(options, ov);
      instance := null;
    }

    /** The `options` property. */
    method GetOptions() returns (r: Options)
      ensures r == options
    {
      r := options;
    }

    /** `_ensure_instance`: the cached store, or a store built now from the
        options and kept; a failed build leaves nothing cached. */
    method EnsureInstance(world: World, lib: Library) returns (r: Outcome<DirectedInputsClass>)
      modifies this
      ensures options == old(options)
      ensures old(instance) != null ==> instance == old(instance) && r == Ok(instance)
      ensures old(instance) == null ==>
                match Built(options, world, lib)
                case Err(e) => r == Err(e) && instance == null
                case Ok(store) =>
                  && r.Ok? && instance == r.value && fresh(instance) && instance.Valid()
                  && instance.inputs == store && instance.frozenInputs == []
                  && instance.fromStdin == InstanceArguments(options).fromStdin
      ensures r.Ok? <==> old(Source(world, lib)).Ok?
      ensures r.Ok? ==> Ok(r.value.inputs) == old(Source(world, lib)) && instance == r.value
      ensures r.Err? ==> r.error == old(Source(world, lib)).error && instance == null
    {
      if instance == null {
        var a := InstanceArguments(options);
        var built := DirectedInputsClass.Create(a.inputs, a.fromEnvironment, a.fromStdin, a.envPrefix,
                                                a.stripEnvPrefix, world, lib);
        if built.Err? {
          return Err(built.error);
        }
        instance := built.value;
      }
      r := Ok(instance);
    }

    /** `resolve(config)`: the configuration resolved against the store,
        which is built first if need be. */
    method Resolve(cfg: InputConfig, world: World, lib: Library) returns (r: Outcome<Resolution>)
      modifies this
      ensures options == old(options)
      ensures old(instance) != null ==> instance == old(instance)
      ensures old(Source(world, lib)).Ok? ==> instance != null && Ok(instance.inputs) == old(Source(world, lib))
      ensures old(Source(world, lib)).Err? ==> instance == null
      ensures r.Ok? ==> Source(world, lib) == old(Source(world, lib))
      ensures r == match old(Source(world, lib))
                   case Err(e) => Err(e)
                   case Ok(store) => ResolveOf(cfg, store, lib)
    {
      var provider :- EnsureInstance(world, lib);
      r := ResolveOf(cfg, provider.inputs, lib);
    }
  }

  // ---------------------------------------------------------------------
  // Properties

  /** `refresh` changes exactly the options it names. */
  lemma RefreshNamedOnly(o: Options, ov: Overrides)
    ensures ov.inputs.None? ==> Updated(o, ov).inputs == o.inputs
    ensures ov.inputs.Some? ==> Updated(o, ov).inputs == ov.inputs.value
    ensures ov.fromEnvironment.None? ==> Updated(o, ov).fromEnvironment == o.fromEnvironment
    ensures ov.fromEnvironment.Some? ==> Updated(o, ov).fromEnvironment == ov.fromEnvironment.value
    ensures ov.fromStdin.None? ==> Updated(o, ov).fromStdin == o.fromStdin
    ensures ov.fromStdin.Some? ==> Updated(o, ov).fromStdin == ov.fromStdin.value
    ensures ov.envPrefix.None? ==> Updated(o, ov).envPrefix == o.envPrefix
    ensures ov.envPrefix.Some? ==> Updated(o, ov).envPrefix == ov.envPrefix.value
    ensures ov.stripEnvPrefix.None? ==> Updated(o, ov).stripEnvPrefix == o.stripEnvPrefix
    ensures ov.stripEnvPrefix.Some? ==> Updated(o, ov).stripEnvPrefix == ov.stripEnvPrefix.value
  {
  }

  /** Two refreshes amount to one with the later overrides winning. */
  lemma RefreshTwice(o: Options, ov1: Overrides, ov2: Overrides)
    ensures Updated(Updated(o, ov1), ov2) ==
            Updated(o, Overrides(if ov2.inputs.Some? then ov2.inputs else ov1.inputs,
                                 if ov2.fromEnvironment.Some? then ov2.fromEnvironment else ov1.fromEnvironment,
                                 if ov2.fromStdin.Some? then ov2.fromStdin else ov1.fromStdin,
                                 if ov2.envPrefix.Some? then ov2.envPrefix else ov1.envPrefix,
                                 if ov2.stripEnvPrefix.Some? then ov2.stripEnvPrefix else ov1.stripEnvPrefix))
  {
  }

  /** After `refresh(inputs=m)`, a plain parameter named after a key of `m`
      whose value is a scalar resolves to that value, whatever the store
      held before, provided no source spells the key another way. */
  lemma RefreshedInputsVisible(o: Options, ov: Overrides, m: Entries<Value>, k: string, v: Value,
                               world: World, lib: Library)
    requires Sane(lib)
    requires ov.inputs == Some(Some(m))
    requires Distinct(m, false) && Distinct(world.environ, false) && OneSpelling(m, k)
    requires Get(m, k, false) == Some(v) && !(v.List? || v.Dict? || v.Set?) && !lib.isNothing(v)
    requires var a := InstanceArguments(Updated(o, ov));
             && (a.fromEnvironment ==> OneSpelling(AsValues(FilteredEnvironment(world.environ, a.envPrefix, a.stripEnvPrefix)), k))
             && (StdinLayer(a.fromStdin, world, lib).Ok? && StdinLayer(a.fromStdin, world, lib).value.Some? ==>
                   var b := StdinLayer(a.fromStdin, world, lib).value.value; Distinct(b, false) && OneSpelling(b, k))
    requires Built(Updated(o, ov), world, lib).Ok?
    ensures ResolveOf(Plain(k), Built(Updated(o, ov), world, lib).value, lib) == Ok(Resolved(v))
  {
    var a := InstanceArguments(Updated(o, ov));
    var current := Layered(a.inputs, a.fromEnvironment, a.fromStdin, a.envPrefix, a.stripEnvPrefix, world, lib).value;
    ExplicitScalarWins(a.inputs, a.fromEnvironment, a.fromStdin, a.envPrefix, a.stripEnvPrefix, world, lib, k);
    LayeredSpelling(a.inputs, a.fromEnvironment, a.fromStdin, a.envPrefix, a.stripEnvPrefix, world, lib, k);
    CollapseGetUnique(current, k);
    PlainResolvesStored(k, Collapse(current), lib, v);
  }
}

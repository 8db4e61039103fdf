/** The sources a store is built from (explicit inputs, the environment and
    standard input) and the order in which the constructor layers them. */
module Sources {
  import opened Wrappers
  import opened Values
  import opened Dicts
  import opened DeepMerge
  import opened Foreign

  /** `_normalize_inputs`: no inputs, or inputs that are nothing, become `{}`. */
  function NormalizeInputs(inputs: Option<Entries<Value>>, lib: Library): (r: Entries<Value>)
    ensures inputs.None? ==> r == []
    ensures r == [] || r == inputs.value
  {
    if inputs.None? || lib.isNothing(Dict(inputs.value)) then [] else inputs.value
  }

  predicate StartsWith(s: string, prefix: string) {
    |prefix| <= |s| && s[..|prefix|] == prefix
  }

  /** The entries whose key starts with `prefix`, in order, each key losing
      the prefix when `strip` is set. */
  function FilterPrefix<V>(env: Entries<V>, prefix: string, strip: bool): Entries<V> {
    if env == [] then []
    else
      var rest := FilterPrefix(env[1..], prefix, strip);
      var key := env[0].0;
      if StartsWith(key, prefix) then [(if strip then key[|prefix|..] else key, env[0].1)] + rest
      else rest
  }

  /** `_filtered_environment`. */
  function FilteredEnvironment<V>(env: Entries<V>, prefix: Option<string>, strip: bool): (r: Entries<V>)
    ensures prefix.None? ==> r == env
  {
    match prefix
    case None => env
    case Some(p) => FilterPrefix(env, p, strip)
  }

  /** The environment's text values as input values. */
  function AsValues(env: Entries<string>): (r: Entries<Value>)
    ensures |r| == |env|
    ensures forall i :: 0 <= i < |env| ==> r[i] == (env[i].0, Str(env[i].1))
  {
    if env == [] then [] else [(env[0].0, Str(env[0].1))] + AsValues(env[1..])
  }

  /** `_merge_inputs`: the incoming dict merged into the base, unless it is
      nothing. */
  function MergeInputsOf(base: Entries<Value>, incoming: Entries<Value>, lib: Library): (r: Entries<Value>)
    ensures lib.isNothing(Dict(incoming)) ==> r == base
  {
    if lib.isNothing(Dict(incoming)) then base else MergeDicts(base, incoming, false)
  }

  /** `dict(payload)` for a decoded standard-input payload. */
  function AsMapping(payload: Value): (r: Outcome<Entries<Value>>)
    ensures r.Ok? <==> payload.Dict? || payload == List([]) || payload == Str("")
    ensures r.Ok? ==> r.value == if payload.Dict? then payload.entries else []
    ensures r.Err? ==> r.error == NotAMapping
  {
    match payload
    case Dict(d) => Ok(d)
    case List(items) => if items == [] then Ok([]) else Err(NotAMapping)
    case Str(text) => if text == "" then Ok([]) else Err(NotAMapping)
    case _ => Err(NotAMapping)
  }

  /** `_load_from_stdin` on the text standard input yields. */
  function LoadFromStdin(payload: string, lib: Library): (r: Outcome<Value>)
    ensures lib.isNothing(Str(payload)) ==> r == Ok(Dict([]))
    ensures r.Err? <==> !lib.isNothing(Str(payload)) && lib.jsonLoads(payload).None?
    ensures r.Err? ==> r.error == StdinDecodeFailed
    ensures r.Ok? && !lib.isNothing(Str(payload)) ==> lib.jsonLoads(payload) == Some(r.value)
  {
    if lib.isNothing(Str(payload)) then Ok(Dict([]))
    else match lib.jsonLoads(payload)
      case None => Err(StdinDecodeFailed)
      case Some(v) => Ok(v)
  }

  /** Whether standard input is read: only when asked for and `OVERRIDE_STDIN`
      (default "False") does not parse as a true flag. */
  function ReadsStdin(fromStdin: bool, world: World, lib: Library): (r: Outcome<bool>)
    ensures !fromStdin ==> r == Ok(false)
  {
    if !fromStdin then Ok(false)
    else
      var flag := Get(world.environ, "OVERRIDE_STDIN", false).GetOr("False");
      match lib.strToBool(Str(flag))
      case None => Err(OverrideFlagInvalid)
      case Some(b) => Ok(!Truthy(b))
  }

  /** The mapping standard input contributes, if it is read at all. */
  function StdinLayer(fromStdin: bool, world: World, lib: Library): Outcome<Option<Entries<Value>>> {
    var consulted :- ReadsStdin(fromStdin, world, lib);
    if !consulted then Ok(None)
    else
      var payload :- LoadFromStdin(world.stdin, lib);
      var base :- AsMapping(payload);
      Ok(Some(base))
  }

  /** The explicit inputs with the environment merged underneath them. */
  function EnvLayered(inputs: Option<Entries<Value>>, fromEnvironment: bool, envPrefix: Option<string>,
                      stripEnvPrefix: bool, world: World, lib: Library): Entries<Value> {
    var explicit := NormalizeInputs(inputs, lib);
    if fromEnvironment then
      MergeInputsOf(AsValues(FilteredEnvironment(world.environ, envPrefix, stripEnvPrefix)), explicit, lib)
    else explicit
  }

  /** The plain dict the constructor hands to `CaseInsensitiveDict`. */
  function Layered(inputs: Option<Entries<Value>>, fromEnvironment: bool, fromStdin: bool,
                   envPrefix: Option<string>, stripEnvPrefix: bool, world: World, lib: Library): Outcome<Entries<Value>> {
    var current := EnvLayered(inputs, fromEnvironment, envPrefix, stripEnvPrefix, world, lib);
    var stdin :- StdinLayer(fromStdin, world, lib);
    match stdin
    case None => Ok(current)
    case Some(base) => Ok(MergeInputsOf(base, current, lib))
  }

  // ---------------------------------------------------------------------
  // Properties

  /** Normalising keeps a given mapping as it is. */
  lemma NormalizeKeepsMapping(inputs: Option<Entries<Value>>, lib: Library)
    requires Sane(lib)
    ensures NormalizeInputs(inputs, lib) == inputs.GetOr([])
  {
  }

  lemma PrefixOfConcat(p: string, k: string)
    ensures StartsWith(p + k, p) && (p + k)[|p|..] == k
  {
    assert (p + k)[..|p|] == p;
  }

  /** With a prefix, the filtered environment holds exactly the keys that
      start with it; when stripping, key `k` holds what `prefix + k` held. */
  lemma {:induction false} GetFilterPrefix<V>(env: Entries<V>, prefix: string, strip: bool, k: string)
    ensures Get(FilterPrefix(env, prefix, strip), k, false) ==
            if strip then Get(env, prefix + k, false)
            else if StartsWith(k, prefix) then Get(env, k, false) else None
  {
    PrefixOfConcat(prefix, k);
    if env != [] {
      var rest := FilterPrefix(env[1..], prefix, strip);
      var key := env[0].0;
      GetFilterPrefix(env[1..], prefix, strip, k);
      GetCons(env[0], env[1..], prefix + k, false);
      GetCons(env[0], env[1..], k, false);
      assert [env[0]] + env[1..] == env;
      if StartsWith(key, prefix) {
        var e := (if strip then key[|prefix|..] else key, env[0].1);
        GetCons(e, rest, k, false);
        if strip {
          assert key == key[..|prefix|] + key[|prefix|..];
          assert key[|prefix|..] == k <==> key == prefix + k;
        }
      }
    }
  }

  /** The environment filtered by a prefix is again a dict. */
  lemma {:induction false} FilterPrefixDistinct<V>(env: Entries<V>, prefix: string, strip: bool)
    requires Distinct(env, false)
    ensures Distinct(FilterPrefix(env, prefix, strip), false)
  {
    if env != [] {
      var rest := FilterPrefix(env[1..], prefix, strip);
      var key := env[0].0;
      DistinctCons(env[0], env[1..], false);
      assert [env[0]] + env[1..] == env;
      FilterPrefixDistinct(env[1..], prefix, strip);
      if StartsWith(key, prefix) {
        var e := (if strip then key[|prefix|..] else key, env[0].1);
        GetFilterPrefix(env[1..], prefix, strip, e.0);
        if strip {
          assert key == prefix + e.0 by {
            assert key == key[..|prefix|] + key[|prefix|..];
          }
        }
        DistinctCons(e, rest, false);
      }
    }
  }

  /** `_filtered_environment`, key by key. */
  lemma FilteredEnvironmentGet<V>(env: Entries<V>, prefix: Option<string>, strip: bool, k: string)
    ensures prefix.Some? && strip ==>
              Get(FilteredEnvironment(env, prefix, strip), k, false) == Get(env, prefix.value + k, false)
    ensures prefix.Some? && !strip ==>
              Get(FilteredEnvironment(env, prefix, strip), k, false) ==
              if StartsWith(k, prefix.value) then Get(env, k, false) else None
    ensures prefix.None? ==> Get(FilteredEnvironment(env, prefix, strip), k, false) == Get(env, k, false)
  {
    if prefix.Some? {
      GetFilterPrefix(env, prefix.value, strip, k);
    }
  }

  lemma {:induction false} GetAsValues(env: Entries<string>, k: string)
    ensures Get(AsValues(env), k, false) == match Get(env, k, false) case None => None case Some(s) => Some(Str(s))
  {
    if env != [] {
      GetAsValues(env[1..], k);
      GetCons((env[0].0, Str(env[0].1)), AsValues(env[1..]), k, false);
      GetCons(env[0], env[1..], k, false);
      assert [env[0]] + env[1..] == env;
    }
  }

  lemma AsValuesDistinct(env: Entries<string>)
    requires Distinct(env, false)
    ensures Distinct(AsValues(env), false)
  {
    var r := AsValues(env);
    forall a, b | 0 <= a < b < |r| ensures !SameKey(false, r[a].0, r[b].0) {
      assert r[a].0 == env[a].0 && r[b].0 == env[b].0;
    }
  }

  /** `_merge_inputs` key by key: every key of either side is present, a key
      on one side keeps its value, a key on both sides takes the deep merge
      with the incoming side winning scalar clashes. */
  lemma MergeInputsGet(base: Entries<Value>, incoming: Entries<Value>, lib: Library, k: string)
    requires Sane(lib) && Distinct(incoming, false)
    ensures Get(MergeInputsOf(base, incoming, lib), k, false) == Combine(Get(base, k, false), Get(incoming, k, false))
    ensures Has(MergeInputsOf(base, incoming, lib), k, false) <==> Has(base, k, false) || Has(incoming, k, false)
  {
    GetMergeDicts(base, incoming, k, false);
  }

  lemma MergeInputsDistinct(base: Entries<Value>, incoming: Entries<Value>, lib: Library)
    requires Distinct(base, false)
    ensures Distinct(MergeInputsOf(base, incoming, lib), false)
  {
    MergeDictsDistinct(base, incoming, false);
  }

  /** What the layered dict holds under `k`: explicit inputs over the
      environment over standard input. */
  function ExpectedLayer(explicit: Option<Value>, env: Option<Value>, stdin: Option<Value>): Option<Value> {
    Combine(stdin, Combine(env, explicit))
  }

  /** The lookup of `k` in each source the constructor consults. */
  function ExplicitAt(inputs: Option<Entries<Value>>, k: string): Option<Value> {
    Get(inputs.GetOr([]), k, false)
  }

  function EnvAt(fromEnvironment: bool, envPrefix: Option<string>, strip: bool, world: World, k: string): Option<Value> {
    if fromEnvironment then Get(AsValues(FilteredEnvironment(world.environ, envPrefix, strip)), k, false) else None
  }

  lemma EnvLayeredGet(inputs: Option<Entries<Value>>, fromEnvironment: bool, envPrefix: Option<string>,
                      strip: bool, world: World, lib: Library, k: string)
    requires Sane(lib)
    requires Distinct(inputs.GetOr([]), false) && Distinct(world.environ, false)
    ensures Distinct(EnvLayered(inputs, fromEnvironment, envPrefix, strip, world, lib), false)
    ensures Get(EnvLayered(inputs, fromEnvironment, envPrefix, strip, world, lib), k, false) ==
            Combine(EnvAt(fromEnvironment, envPrefix, strip, world, k), ExplicitAt(inputs, k))
  {
    var explicit := NormalizeInputs(inputs, lib);
    if fromEnvironment {
      var env := FilteredEnvironment(world.environ, envPrefix, strip);
      if envPrefix.Some? {
        FilterPrefixDistinct(world.environ, envPrefix.value, strip);
      }
      AsValuesDistinct(env);
      MergeInputsGet(AsValues(env), explicit, lib, k);
      MergeInputsDistinct(AsValues(env), explicit, lib);
    }
  }

  /** Construction precedence: on a shared key explicit inputs beat the
      environment, and both beat standard input (containers of the same
      kind are merged instead). */
  lemma LayeredGet(inputs: Option<Entries<Value>>, fromEnvironment: bool, fromStdin: bool,
                   envPrefix: Option<string>, strip: bool, world: World, lib: Library, k: string)
    requires Sane(lib)
    requires Distinct(inputs.GetOr([]), false) && Distinct(world.environ, false)
    requires Layered(inputs, fromEnvironment, fromStdin, envPrefix, strip, world, lib).Ok?
    ensures StdinLayer(fromStdin, world, lib).Ok?
    ensures var stdin := match StdinLayer(fromStdin, world, lib).value case None => None case Some(b) => Get(b, k, false);
            Get(Layered(inputs, fromEnvironment, fromStdin, envPrefix, strip, world, lib).value, k, false) ==
            ExpectedLayer(ExplicitAt(inputs, k), EnvAt(fromEnvironment, envPrefix, strip, world, k), stdin)
  {
    EnvLayeredGet(inputs, fromEnvironment, envPrefix, strip, world, lib, k);
    var current := EnvLayered(inputs, fromEnvironment, envPrefix, strip, world, lib);
    match StdinLayer(fromStdin, world, lib).value {
      case None =>
      case Some(b) => MergeInputsGet(b, current, lib, k);
    }
  }

  /** An explicit input that is not a list, dict or set is what the layered
      dict holds, whatever the other sources say. */
  lemma ExplicitScalarWins(inputs: Option<Entries<Value>>, fromEnvironment: bool, fromStdin: bool,
                           envPrefix: Option<string>, strip: bool, world: World, lib: Library, k: string)
    requires Sane(lib)
    requires Distinct(inputs.GetOr([]), false) && Distinct(world.environ, false)
    requires Layered(inputs, fromEnvironment, fromStdin, envPrefix, strip, world, lib).Ok?
    requires ExplicitAt(inputs, k).Some?
    requires var v := ExplicitAt(inputs, k).value; !(v.List? || v.Dict? || v.Set?)
    ensures Get(Layered(inputs, fromEnvironment, fromStdin, envPrefix, strip, world, lib).value, k, false) == ExplicitAt(inputs, k)
  {
    LayeredGet(inputs, fromEnvironment, fromStdin, envPrefix, strip, world, lib, k);
  }

  /** A key the explicit inputs lack but the environment has takes the
      environment's text, even over standard input. */
  lemma EnvBeatsStdin(inputs: Option<Entries<Value>>, fromStdin: bool,
                      envPrefix: Option<string>, strip: bool, world: World, lib: Library, k: string)
    requires Sane(lib)
    requires Distinct(inputs.GetOr([]), false) && Distinct(world.environ, false)
    requires Layered(inputs, true, fromStdin, envPrefix, strip, world, lib).Ok?
    requires ExplicitAt(inputs, k).None? && EnvAt(true, envPrefix, strip, world, k).Some?
    ensures Get(Layered(inputs, true, fromStdin, envPrefix, strip, world, lib).value, k, false) == EnvAt(true, envPrefix, strip, world, k)
  {
    LayeredGet(inputs, true, fromStdin, envPrefix, strip, world, lib, k);
    var env := FilteredEnvironment(world.environ, envPrefix, strip);
    GetAsValues(env, k);
  }

  /** Standard input is consulted only when asked for and not overridden:
      otherwise the result does not depend on it at all. */
  lemma StdinIgnoredUnlessEnabled(inputs: Option<Entries<Value>>, fromEnvironment: bool, fromStdin: bool,
                                  envPrefix: Option<string>, strip: bool, environ: Entries<string>,
                                  stdin1: string, stdin2: string, lib: Library)
    requires !fromStdin || (var flag := Get(environ, "OVERRIDE_STDIN", false).GetOr("False");
                            lib.strToBool(Str(flag)).Some? && Truthy(lib.strToBool(Str(flag)).value))
    ensures Layered(inputs, fromEnvironment, fromStdin, envPrefix, strip, World(environ, stdin1), lib) ==
            Layered(inputs, fromEnvironment, fromStdin, envPrefix, strip, World(environ, stdin2), lib)
    ensures Layered(inputs, fromEnvironment, fromStdin, envPrefix, strip, World(environ, stdin1), lib) ==
            Ok(EnvLayered(inputs, fromEnvironment, envPrefix, strip, World(environ, stdin1), lib))
  {
  }

  /** Malformed standard input is an error, never an empty mapping. */
  lemma MalformedStdinFails(inputs: Option<Entries<Value>>, fromEnvironment: bool,
                            envPrefix: Option<string>, strip: bool, world: World, lib: Library)
    requires ReadsStdin(true, world, lib) == Ok(true)
    requires !lib.isNothing(Str(world.stdin)) && lib.jsonLoads(world.stdin).None?
    ensures Layered(inputs, fromEnvironment, true, envPrefix, strip, world, lib) == Err(StdinDecodeFailed)
  {
  }

  /** An empty standard input contributes nothing. */
  lemma EmptyStdinContributesNothing(inputs: Option<Entries<Value>>, fromEnvironment: bool,
                                     envPrefix: Option<string>, strip: bool, environ: Entries<string>, lib: Library)
    requires Sane(lib)
    requires ReadsStdin(true, World(environ, ""), lib) == Ok(true)
    requires Distinct(inputs.GetOr([]), false) && Distinct(environ, false)
    ensures Layered(inputs, fromEnvironment, true, envPrefix, strip, World(environ, ""), lib).Ok?
    ensures forall k :: Get(Layered(inputs, fromEnvironment, true, envPrefix, strip, World(environ, ""), lib).value, k, false) ==
                        Get(EnvLayered(inputs, fromEnvironment, envPrefix, strip, World(environ, ""), lib), k, false)
  {
    var world := World(environ, "");
    forall k ensures Get(Layered(inputs, fromEnvironment, true, envPrefix, strip, world, lib).value, k, false) ==
                     Get(EnvLayered(inputs, fromEnvironment, envPrefix, strip, world, lib), k, false) {
      LayeredGet(inputs, fromEnvironment, true, envPrefix, strip, world, lib, k);
      EnvLayeredGet(inputs, fromEnvironment, envPrefix, strip, world, lib, k);
    }
  }

  /** The layered dict has distinct keys and a single spelling of `k` when
      every source it merges has. */
  lemma LayeredSpelling(inputs: Option<Entries<Value>>, fromEnvironment: bool, fromStdin: bool,
                        envPrefix: Option<string>, strip: bool, world: World, lib: Library, k: string)
    requires Sane(lib)
    requires Distinct(inputs.GetOr([]), false) && Distinct(world.environ, false)
    requires OneSpelling(inputs.GetOr([]), k)
    requires fromEnvironment ==> OneSpelling(AsValues(FilteredEnvironment(world.environ, envPrefix, strip)), k)
    requires StdinLayer(fromStdin, world, lib).Ok? && StdinLayer(fromStdin, world, lib).value.Some? ==>
             var b := StdinLayer(fromStdin, world, lib).value.value; Distinct(b, false) && OneSpelling(b, k)
    requires Layered(inputs, fromEnvironment, fromStdin, envPrefix, strip, world, lib).Ok?
    ensures var current := Layered(inputs, fromEnvironment, fromStdin, envPrefix, strip, world, lib).value;
            Distinct(current, false) && OneSpelling(current, k)
  {
    EnvLayeredGet(inputs, fromEnvironment, envPrefix, strip, world, lib, k);
    var explicit := NormalizeInputs(inputs, lib);
    var current := EnvLayered(inputs, fromEnvironment, envPrefix, strip, world, lib);
    if fromEnvironment && !lib.isNothing(Dict(explicit)) {
      var env := AsValues(FilteredEnvironment(world.environ, envPrefix, strip));
      MergeEntriesOneSpelling(env, Dict(explicit), |explicit|, k);
    }
    match StdinLayer(fromStdin, world, lib).value {
      case None =>
      case Some(b) =>
        MergeInputsDistinct(b, current, lib);
        if !lib.isNothing(Dict(current)) {
          MergeEntriesOneSpelling(b, Dict(current), |current|, k);
        }
    }
  }
}

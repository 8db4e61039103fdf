/** `_prepare_bound`, the heart of the method wrapper: the caller's
    arguments are bound, every parameter the caller left out is resolved from
    the instance's input context, and then the declared defaults are
    applied. */
module Injection {
  import opened Wrappers
  import opened Values
  import opened Dicts
  import opened Foreign
  import opened Config
  import opened Context
  import opened Binding

  /** `fn_configs.get(name) or InputConfig(parameter_name=name)`. */
  function ConfigFor(configs: map<string, InputConfig>, name: string): (cfg: InputConfig)
    ensures name in configs ==> cfg == configs[name]
    ensures name !in configs ==> cfg == Plain(name)
  {
    if name in configs then configs[name] else Plain(name)
  }

  /** Whether the loop leaves a parameter alone: `self`, a parameter already
      bound, or a variadic one. */
  predicate Skipped(p: Param, bound: Entries<Value>) {
    p.name == "self" || Has(bound, p.name, false) || Variadic(p.kind)
  }

  /** The loop of `_prepare_bound` from parameter `i` on, given whether the
      instance has a context and the entries that context resolves against. */
  function Inject(sig: Signature, i: nat, bound: Entries<Value>, configs: map<string, InputConfig>,
                  hasContext: bool, src: Outcome<Entries<Value>>, lib: Library): Outcome<Entries<Value>>
    requires i <= |sig|
    decreases |sig| - i
  {
    if i == |sig| then Ok(bound)
    else
      var p := sig[i];
      if Skipped(p, bound) then Inject(sig, i + 1, bound, configs, hasContext, src, lib)
      else if !hasContext then Err(ContextMissing)
      else match src
        case Err(e) => Err(e)
        case Ok(store) =>
          var res :- ResolveOf(ConfigFor(configs, p.name), store, lib);
          match res
          case Missing => Inject(sig, i + 1, bound, configs, hasContext, src, lib)
          case Resolved(v) => Inject(sig, i + 1, Put(bound, p.name, v, false), configs, hasContext, src, lib)
  }

  /** `_prepare_bound(instance, args, kwargs)`. */
  function PrepareBoundOf(sig: Signature, configs: map<string, InputConfig>, instance: Value, args: seq<Value>,
                          kwargs: Entries<Value>, hasContext: bool, src: Outcome<Entries<Value>>, lib: Library): Outcome<Entries<Value>> {
    var bound :- BindPartial(sig, [instance] + args, kwargs);
    var injected :- Inject(sig, 0, bound, configs, hasContext, src, lib);
    Ok(ApplyDefaults(sig, injected))
  }

  /** `_prepare_bound` on an instance whose context is `ctx` (null when the
      instance has none). */
  method PrepareBound(ctx: InputContext?, sig: Signature, configs: map<string, InputConfig>, instance: Value,
                      args: seq<Value>, kwargs: Entries<Value>, world: World, lib: Library)
    returns (r: Outcome<Entries<Value>>)
    modifies ctx
    ensures ctx != null ==> r == PrepareBoundOf(sig, configs, instance, args, kwargs, true, old(ctx.Source(world, lib)), lib)
    ensures ctx != null ==> ctx.options == old(ctx.options)
    ensures ctx != null && old(ctx.instance) != null ==> ctx.instance == old(ctx.instance)
    ensures ctx != null && r.Ok? ==> ctx.Source(world, lib) == old(ctx.Source(world, lib))
    ensures ctx == null ==> r == PrepareBoundOf(sig, configs, instance, args, kwargs, false, Ok([]), lib)
  {
    var bound :- BindPartial(sig, [instance] + args, kwargs);
    ghost var bound0 := bound;
    ghost var src := if ctx != null then ctx.Source(world, lib) else Ok([]);
    var i := 0;
    while i < |sig|
      invariant i <= |sig|
      invariant ctx != null ==> ctx.Source(world, lib) == src
      invariant ctx != null ==> ctx.options == old(ctx.options)
      invariant ctx != null && old(ctx.instance) != null ==> ctx.instance == old(ctx.instance)
      invariant Inject(sig, i, bound, configs, ctx != null, src, lib) == Inject(sig, 0, bound0, configs, ctx != null, src, lib)
      decreases |sig| - i
    {
      var p := sig[i];
      if !Skipped(p, bound) {
        var config := ConfigFor(configs, p.name);
        if ctx == null {
          return Err(ContextMissing);
        }
        var value := ctx.Resolve(config, world, lib);
        if value.Err? {
          return Err(value.error);
        }
        if value.value.Resolved? {
          bound := Put(bound, p.name, value.value.value, false);
        }
      }
      i := i + 1;
    }
    r := Ok(ApplyDefaults(sig, bound));
  }

  // ---------------------------------------------------------------------
  // Properties

  /** What a parameter holds once the loop is done: its bound value if it
      is skipped, else the resolved value, or nothing for `_MISSING`. */
  function InjectedAt(p: Param, bound: Entries<Value>, configs: map<string, InputConfig>,
                      store: Entries<Value>, lib: Library): Option<Value> {
    if Skipped(p, bound) then Get(bound, p.name, false)
    else match ResolveOf(ConfigFor(configs, p.name), store, lib)
      case Ok(Resolved(v)) => Some(v)
      case _ => None
  }

  /** Binding another parameter does not change what a parameter gets. */
  lemma InjectedAtPut(p: Param, bound: Entries<Value>, k: string, v: Value, configs: map<string, InputConfig>,
                      store: Entries<Value>, lib: Library)
    requires p.name != k
    ensures InjectedAt(p, Put(bound, k, v, false), configs, store, lib) == InjectedAt(p, bound, configs, store, lib)
  {
    GetPut(bound, k, v, p.name, false);
  }

  /** A key no parameter from `i` on is named keeps its bound value. */
  lemma {:induction false} InjectUntouched(sig: Signature, i: nat, bound: Entries<Value>, configs: map<string, InputConfig>,
                                           store: Entries<Value>, lib: Library, n: string)
    requires i <= |sig|
    requires Inject(sig, i, bound, configs, true, Ok(store), lib).Ok?
    requires forall t :: i <= t < |sig| ==> sig[t].name != n
    ensures Get(Inject(sig, i, bound, configs, true, Ok(store), lib).value, n, false) == Get(bound, n, false)
    decreases |sig| - i
  {
    if i < |sig| {
      var p := sig[i];
      if Skipped(p, bound) {
        InjectUntouched(sig, i + 1, bound, configs, store, lib, n);
      } else {
        match ResolveOf(ConfigFor(configs, p.name), store, lib).value {
          case Missing =>
            InjectUntouched(sig, i + 1, bound, configs, store, lib, n);
          case Resolved(v) =>
            InjectUntouched(sig, i + 1, Put(bound, p.name, v, false), configs, store, lib, n);
            GetPut(bound, p.name, v, n, false);
        }
      }
    }
  }

  /** The parameter at `t`, at or after `i`, ends up with what `InjectedAt` says. */
  lemma {:induction false} InjectNamed(sig: Signature, i: nat, t: nat, bound: Entries<Value>, configs: map<string, InputConfig>,
                                       store: Entries<Value>, lib: Library)
    requires UniqueNames(sig) && i <= t < |sig|
    requires Inject(sig, i, bound, configs, true, Ok(store), lib).Ok?
    ensures Get(Inject(sig, i, bound, configs, true, Ok(store), lib).value, sig[t].name, false)
            == InjectedAt(sig[t], bound, configs, store, lib)
    decreases |sig| - i
  {
    var p := sig[i];
    var n := sig[t].name;
    if Skipped(p, bound) {
      if t == i {
        InjectUntouched(sig, i + 1, bound, configs, store, lib, n);
      } else {
        InjectNamed(sig, i + 1, t, bound, configs, store, lib);
      }
    } else {
      match ResolveOf(ConfigFor(configs, p.name), store, lib).value {
        case Missing =>
          if t == i {
            InjectUntouched(sig, i + 1, bound, configs, store, lib, n);
            assert Get(bound, n, false).None?;
          } else {
            InjectNamed(sig, i + 1, t, bound, configs, store, lib);
          }
        case Resolved(v) =>
          var bound' := Put(bound, p.name, v, false);
          if t == i {
            InjectUntouched(sig, i + 1, bound', configs, store, lib, n);
            GetPut(bound, p.name, v, n, false);
          } else {
            InjectNamed(sig, i + 1, t, bound', configs, store, lib);
            InjectedAtPut(sig[t], bound, p.name, v, configs, store, lib);
          }
      }
    }
  }

  /** The loop parameter by parameter: each parameter from `i` on ends up
      with what `InjectedAt` says, and every other key is untouched. */
  lemma InjectGet(sig: Signature, i: nat, bound: Entries<Value>, configs: map<string, InputConfig>,
                  store: Entries<Value>, lib: Library, n: string)
    requires UniqueNames(sig) && i <= |sig|
    requires Inject(sig, i, bound, configs, true, Ok(store), lib).Ok?
    ensures var r := Inject(sig, i, bound, configs, true, Ok(store), lib).value;
            && (forall t :: i <= t < |sig| && sig[t].name == n ==> Get(r, n, false) == InjectedAt(sig[t], bound, configs, store, lib))
            && ((forall t :: i <= t < |sig| ==> sig[t].name != n) ==> Get(r, n, false) == Get(bound, n, false))
  {
    forall t | i <= t < |sig| && sig[t].name == n
      ensures Get(Inject(sig, i, bound, configs, true, Ok(store), lib).value, n, false) == InjectedAt(sig[t], bound, configs, store, lib)
    {
      InjectNamed(sig, i, t, bound, configs, store, lib);
    }
    if forall t :: i <= t < |sig| ==> sig[t].name != n {
      InjectUntouched(sig, i, bound, configs, store, lib, n);
    }
  }


  /** Without a context the loop succeeds only if it has nothing to resolve. */
  lemma {:induction false} InjectNeedsContext(sig: Signature, i: nat, bound: Entries<Value>, configs: map<string, InputConfig>,
                                              src: Outcome<Entries<Value>>, lib: Library)
    requires i <= |sig|
    requires Inject(sig, i, bound, configs, false, src, lib).Ok?
    ensures forall t :: i <= t < |sig| ==> Skipped(sig[t], bound)
    ensures Inject(sig, i, bound, configs, false, src, lib) == Ok(bound)
    decreases |sig| - i
  {
    if i < |sig| {
      InjectNeedsContext(sig, i + 1, bound, configs, src, lib);
    }
  }

  /** A failed resolution or a context that cannot be built makes the call
      raise: if the loop succeeds, every parameter it resolves resolved. */
  lemma {:induction false} InjectResolvesAll(sig: Signature, i: nat, bound: Entries<Value>, configs: map<string, InputConfig>,
                                             src: Outcome<Entries<Value>>, lib: Library)
    requires UniqueNames(sig) && i <= |sig|
    requires Inject(sig, i, bound, configs, true, src, lib).Ok?
    ensures forall t :: i <= t < |sig| && !Skipped(sig[t], bound) ==>
                        src.Ok? && ResolveOf(ConfigFor(configs, sig[t].name), src.value, lib).Ok?
    decreases |sig| - i
  {
    if i < |sig| {
      var p := sig[i];
      if Skipped(p, bound) {
        InjectResolvesAll(sig, i + 1, bound, configs, src, lib);
      } else {
        match ResolveOf(ConfigFor(configs, p.name), src.value, lib).value {
          case Missing =>
            InjectResolvesAll(sig, i + 1, bound, configs, src, lib);
          case Resolved(v) =>
            var bound' := Put(bound, p.name, v, false);
            InjectResolvesAll(sig, i + 1, bound', configs, src, lib);
            forall t | i < t < |sig| ensures Skipped(sig[t], bound') == Skipped(sig[t], bound) {
              GetPut(bound, p.name, v, sig[t].name, false);
            }
        }
      }
    }
  }

  /** `_prepare_bound` parameter by parameter: an argument the caller gave is
      never replaced; `self` and variadic parameters are never resolved; a
      `_MISSING` result leaves the declared default in force; any other
      resolved value is injected; and every parameter with a declared default
      ends up bound. */
  lemma PrepareBoundParameters(sig: Signature, configs: map<string, InputConfig>, instance: Value, args: seq<Value>,
                               kwargs: Entries<Value>, store: Entries<Value>, lib: Library, t: nat)
    requires UniqueNames(sig) && t < |sig|
    requires PrepareBoundOf(sig, configs, instance, args, kwargs, true, Ok(store), lib).Ok?
    ensures var bound := BindPartial(sig, [instance] + args, kwargs).value;
            var r := PrepareBoundOf(sig, configs, instance, args, kwargs, true, Ok(store), lib).value;
            var p := sig[t];
            var res := ResolveOf(ConfigFor(configs, p.name), store, lib);
            && (Has(bound, p.name, false) ==> Get(r, p.name, false) == Get(bound, p.name, false))
            && (p.name == "self" || Variadic(p.kind) ==> Get(r, p.name, false) == Defaulted(p, bound))
            && (!Skipped(p, bound) ==> res.Ok?)
            && (!Skipped(p, bound) && res == Ok(Missing) ==> Get(r, p.name, false) == p.default)
            && (!Skipped(p, bound) && res.Ok? && res.value.Resolved? ==> Get(r, p.name, false) == Some(res.value.value))
            && (p.default.Some? ==> Has(r, p.name, false))
  {
    var bound := BindPartial(sig, [instance] + args, kwargs).value;
    var injected := Inject(sig, 0, bound, configs, true, Ok(store), lib).value;
    var p := sig[t];
    InjectGet(sig, 0, bound, configs, store, lib, p.name);
    InjectResolvesAll(sig, 0, bound, configs, Ok(store), lib);
    ApplyDefaultsGet(sig, injected, p.name);
  }

  /** Without a context a method whose parameters the caller all supplied
      still runs; one with a parameter left to resolve raises. */
  lemma ContextMissingRaises(sig: Signature, configs: map<string, InputConfig>, instance: Value, args: seq<Value>,
                             kwargs: Entries<Value>, lib: Library, t: nat)
    requires t < |sig| && BindPartial(sig, [instance] + args, kwargs).Ok?
    requires !Skipped(sig[t], BindPartial(sig, [instance] + args, kwargs).value)
    ensures PrepareBoundOf(sig, configs, instance, args, kwargs, false, Ok([]), lib) == Err(ContextMissing)
  {
    var bound := BindPartial(sig, [instance] + args, kwargs).value;
    if Inject(sig, 0, bound, configs, false, Ok([]), lib).Ok? {
      InjectNeedsContext(sig, 0, bound, configs, Ok([]), lib);
    }
    InjectErrorIsContextMissing(sig, 0, bound, configs, lib);
  }

  lemma {:induction false} InjectErrorIsContextMissing(sig: Signature, i: nat, bound: Entries<Value>,
                                                       configs: map<string, InputConfig>, lib: Library)
    requires i <= |sig|
    ensures Inject(sig, i, bound, configs, false, Ok([]), lib).Err? ==>
            Inject(sig, i, bound, configs, false, Ok([]), lib) == Err(ContextMissing)
    decreases |sig| - i
  {
    if i < |sig| {
      InjectErrorIsContextMissing(sig, i + 1, bound, configs, lib);
    }
  }
}

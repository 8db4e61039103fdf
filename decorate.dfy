/** The class decorator `directed_inputs`: it marks a class as enabled,
    records its options, replaces `__init__` with one that gives every
    instance an input context, adds the proxy attributes the class lacks,
    and wraps its public plain functions so that missing arguments are
    resolved from that context. */
module Decorate {
  import opened Wrappers
  import opened Values
  import opened Dicts
  import opened Config
  import opened Context
  import opened Binding

  /** Which code a function object runs. */
  datatype Code =
    | Defined(id: nat)        // a function written in the class body
    | RefreshProxy            // the injected `refresh_inputs`
    | InitWrapper             // the `__init__` installed by the decorator
    | Wrap(inner: Code)       // the method wrapper around `inner`

  /** A function object: its code, its signature, the configurations
      `input_config` attached to it, and whether it is a coroutine function. */
  datatype FunctionDef = FunctionDef(code: Code, sig: Signature, configs: map<string, InputConfig>, coroutine: bool)

  /** What a name in a class namespace is bound to. */
  datatype Attribute =
    | Function(def: FunctionDef)
    | StaticMethod
    | ClassMethod
    | Property
    | Metadata(options: Options)
    | Data(value: Value)

  type Namespace = Entries<Attribute>

  const EnabledFlag := "__directed_inputs_enabled__"
  const MetadataName := "__directed_inputs_metadata__"

  /** `_should_skip_method`: only a plain function whose name does not start
      with an underscore is wrapped. */
  function ShouldSkipMethod(name: string, attribute: Attribute): (skip: bool)
    ensures !skip <==> attribute.Function? && (name == [] || name[0] != '_')
  {
    (|name| > 0 && name[0] == '_') || attribute.StaticMethod? || attribute.ClassMethod? || attribute.Property? ||
    !attribute.Function?
  }

  /** The wrapper `_create_wrapper` returns: `functools.wraps` keeps the
      configurations and the signature, and a coroutine stays a coroutine. */
  function Wrapped(def: FunctionDef): (w: FunctionDef)
    ensures w.sig == def.sig && w.configs == def.configs && w.coroutine == def.coroutine
    ensures w.code == Wrap(def.code)
  {
    def.(code := Wrap(def.code))
  }

  function WrapEntry(e: (string, Attribute)): (string, Attribute) {
    if ShouldSkipMethod(e.0, e.1) then e else (e.0, Function(Wrapped(e.1.def)))
  }

  /** `_wrap_instance_methods` on a namespace. */
  function WrapAll(t: Namespace): (r: Namespace)
    ensures |r| == |t|
  {
    seq(|t|, i requires 0 <= i < |t| => WrapEntry(t[i]))
  }

  /** `getattr(cls, name)`: the class's own namespace first, then what it
      inherits. */
  function LookupIn(t: Namespace, inherited: Namespace, name: string): Option<Attribute> {
    match Get(t, name, false)
    case Some(a) => Some(a)
    case None => Get(inherited, name, false)
  }

  /** Whether an attribute is true: only data can be false. */
  predicate AttributeTruthy(a: Attribute) {
    a.Data? ==> Truthy(a.value)
  }

  /** `getattr(cls, "__directed_inputs_enabled__", False)` is true. */
  predicate EnabledIn(t: Namespace, inherited: Namespace) {
    var a := LookupIn(t, inherited, EnabledFlag);
    a.Some? && AttributeTruthy(a.value)
  }

  /** The metadata options: the decorator options that are not `None`. */
  function MetadataOf(base: Arguments): (o: Options)
    ensures InstanceArguments(o) == base
  {
    Options(base.inputs, Some(base.fromEnvironment), Some(base.fromStdin), base.envPrefix, Some(base.stripEnvPrefix))
  }

  const RefreshSignature: Signature :=
    [Param("self", PositionalOrKeyword, None), Param("overrides", VarKeyword, None)]
  const InitSignature: Signature :=
    [Param("self", PositionalOrKeyword, None), Param("args", VarPositional, None), Param("kwargs", VarKeyword, None)]
  const RefreshAttribute := Function(FunctionDef(RefreshProxy, RefreshSignature, map[], false))
  const InitAttribute := Function(FunctionDef(InitWrapper, InitSignature, map[], false))

  /** `_inject_proxies` on a namespace. */
  function ProxiesOf(t: Namespace, inherited: Namespace): Namespace {
    var t1 := if LookupIn(t, inherited, "directed_inputs").Some? then t else Put(t, "directed_inputs", Property, false);
    if LookupIn(t1, inherited, "refresh_inputs").Some? then t1 else Put(t1, "refresh_inputs", RefreshAttribute, false)
  }

  /** The three attributes the decorator sets before injecting the proxies. */
  function Marked(t: Namespace, base: Arguments): Namespace {
    var t1 := Put(t, EnabledFlag, Data(Bool(true)), false);
    var t2 := Put(t1, MetadataName, Metadata(MetadataOf(base)), false);
    Put(t2, "__init__", InitAttribute, false)
  }

  /** What the decorator makes of a class that is not yet enabled. */
  function Decorated(t: Namespace, inherited: Namespace, base: Arguments): Namespace {
    WrapAll(ProxiesOf(Marked(t, base), inherited))
  }

  /** `directed_inputs(...)(cls)` on a namespace. */
  function DecorateOf(t: Namespace, inherited: Namespace, base: Arguments): Namespace {
    if EnabledIn(t, inherited) then t else Decorated(t, inherited, base)
  }

  /** The per-instance options of `wrapped_init`: the decorator's options
      with every override that is not `None` put in their place. */
  function InstanceOptions(base: Arguments, overrides: Options): (m: Arguments)
    ensures overrides == Options(None, None, None, None, None) ==> m == base
  {
    Arguments(if overrides.inputs.Some? then overrides.inputs else base.inputs,
              overrides.fromEnvironment.GetOr(base.fromEnvironment),
              overrides.fromStdin.GetOr(base.fromStdin),
              if overrides.envPrefix.Some? then overrides.envPrefix else base.envPrefix,
              overrides.stripEnvPrefix.GetOr(base.stripEnvPrefix))
  }

  /** The input context `wrapped_init` gives a new instance. */
  method WrappedInit(base: Arguments, overrides: Options) returns (ctx: InputContext)
    ensures fresh(ctx) && ctx.instance == null
    ensures var m := InstanceOptions(base, overrides);
            ctx.options == InitialOptions(m.inputs, m.fromEnvironment, m.fromStdin, m.envPrefix, m.stripEnvPrefix)
  {
    var m := InstanceOptions(base, overrides);
    ctx := new InputContext(m.inputs, m.fromEnvironment, m.fromStdin, m.envPrefix, m.stripEnvPrefix);
  }

  /** A class: its own namespace, which the decorator changes, and the
      attributes it inherits. */
  class PyClass {
    var table: Namespace
    const inherited: Namespace

    ghost predicate Valid()
      reads this
    {
      Distinct(table, false)
    }

    constructor (table: Namespace, inherited: Namespace)
      requires Distinct(table, false)
      ensures Valid() && this.table == table && this.inherited == inherited
    {
      this.table := table;
      this.inherited := inherited;
    }

    function Lookup(name: string): Option<Attribute>
      reads this
    {
      LookupIn(table, inherited, name)
    }

    predicate IsEnabled()
      reads this
    {
      EnabledIn(table, inherited)
    }

    /** `setattr(cls, name, attribute)`. */
    method SetAttribute(name: string, attribute: Attribute)
      requires Valid()
      modifies this
      ensures Valid() && table == Put(old(table), name, attribute, false)
    {
      PutDistinct(table, name, attribute, false);
      table := Put(table, name, attribute, false);
    }

    /** `_inject_proxies(cls)`. */
    method InjectProxies()
      requires Valid()
      modifies this
      ensures Valid() && table == ProxiesOf(old(table), inherited)
    {
      if Lookup("directed_inputs").None? {
        SetAttribute("directed_inputs", Property);
      }
      if Lookup("refresh_inputs").None? {
        SetAttribute("refresh_inputs", RefreshAttribute);
      }
    }

    /** `_wrap_instance_methods(cls)`: every entry of the namespace, in
        order, is replaced by its wrapper unless it is skipped. */
    method WrapInstanceMethods()
      requires Valid()
      modifies this
      ensures Valid() && table == WrapAll(old(table))
    {
      var items := table;
      for i := 0 to |items|
        invariant Valid() && |table| == |items|
        invariant forall j :: 0 <= j < |items| ==> table[j].0 == items[j].0
        invariant forall j :: 0 <= j < i ==> table[j] == WrapEntry(items[j])
        invariant forall j :: i <= j < |items| ==> table[j] == items[j]
      {
        var (name, attribute) := items[i];
        if !ShouldSkipMethod(name, attribute) {
          FindDistinct(table, i, false);
          SetAttribute(name, Function(Wrapped(attribute.def)));
        }
      }
    }

    /** `directed_inputs(...)(cls)`: nothing happens to a class that is
        already enabled, itself or through a base. */
    method DirectedInputs(base: Arguments)
      requires Valid()
      modifies this
      ensures Valid() && table == DecorateOf(old(table), inherited, base)
      ensures old(IsEnabled()) ==> table == old(table)
    {
      if IsEnabled() {
        return;
      }
      SetAttribute(EnabledFlag, Data(Bool(true)));
      SetAttribute(MetadataName, Metadata(MetadataOf(base)));
      SetAttribute("__init__", InitAttribute);
      InjectProxies();
      WrapInstanceMethods();
    }
  }

  // ---------------------------------------------------------------------
  // Properties

  /** Wrapping keeps every name in its place, leaves every skipped entry as
      it is, and replaces exactly the plain public functions by wrappers
      with the same signature and configurations. */
  lemma WrapAllEntries(t: Namespace, n: string)
    ensures forall i :: 0 <= i < |t| ==> WrapAll(t)[i].0 == t[i].0
    ensures forall i :: 0 <= i < |t| && ShouldSkipMethod(t[i].0, t[i].1) ==> WrapAll(t)[i] == t[i]
    ensures forall i :: 0 <= i < |t| && !ShouldSkipMethod(t[i].0, t[i].1) ==>
                        t[i].1.Function? && WrapAll(t)[i].1 == Function(Wrapped(t[i].1.def))
    ensures Get(WrapAll(t), n, false) == match Get(t, n, false)
                                         case None => None
                                         case Some(a) => Some(WrapEntry((n, a)).1)
  {
    FindSameKeys(WrapAll(t), t, n, false);
  }

  /** The marking step sets the flag, the metadata and `__init__`, and
      nothing else. */
  lemma {:induction false} MarkedGet(t: Namespace, base: Arguments, n: string)
    ensures Get(Marked(t, base), n, false) ==
            if n == "__init__" then Some(InitAttribute)
            else if n == MetadataName then Some(Metadata(MetadataOf(base)))
            else if n == EnabledFlag then Some(Data(Bool(true)))
            else Get(t, n, false)
  {
    var t1 := Put(t, EnabledFlag, Data(Bool(true)), false);
    var t2 := Put(t1, MetadataName, Metadata(MetadataOf(base)), false);
    GetPut(t, EnabledFlag, Data(Bool(true)), n, false);
    GetPut(t1, MetadataName, Metadata(MetadataOf(base)), n, false);
    GetPut(t2, "__init__", InitAttribute, n, false);
  }

  /** Decorating is idempotent: a second application, with any options,
      leaves the decorated class as it is. */
  lemma DecorateIdempotent(t: Namespace, inherited: Namespace, b1: Arguments, b2: Arguments)
    ensures EnabledIn(DecorateOf(t, inherited, b1), inherited)
    ensures DecorateOf(DecorateOf(t, inherited, b1), inherited, b2) == DecorateOf(t, inherited, b1)
  {
    if !EnabledIn(t, inherited) {
      MarkedGet(t, b1, EnabledFlag);
      ProxiesKeep(Marked(t, b1), inherited, EnabledFlag);
      WrapAllEntries(ProxiesOf(Marked(t, b1), inherited), EnabledFlag);
    }
  }

  /** `_inject_proxies` adds a proxy only where the class has none, and
      touches no other name. */
  lemma ProxiesKeep(t: Namespace, inherited: Namespace, n: string)
    ensures n != "directed_inputs" && n != "refresh_inputs" ==> Get(ProxiesOf(t, inherited), n, false) == Get(t, n, false)
    ensures LookupIn(t, inherited, "directed_inputs").Some? ==>
              Get(ProxiesOf(t, inherited), "directed_inputs", false) == Get(t, "directed_inputs", false)
    ensures LookupIn(t, inherited, "directed_inputs").None? ==>
              Get(ProxiesOf(t, inherited), "directed_inputs", false) == Some(Property)
    ensures LookupIn(t, inherited, "refresh_inputs").Some? ==>
              Get(ProxiesOf(t, inherited), "refresh_inputs", false) == Get(t, "refresh_inputs", false)
    ensures LookupIn(t, inherited, "refresh_inputs").None? ==>
              Get(ProxiesOf(t, inherited), "refresh_inputs", false) == Some(RefreshAttribute)
  {
    var t1 := if LookupIn(t, inherited, "directed_inputs").Some? then t else Put(t, "directed_inputs", Property, false);
    if LookupIn(t, inherited, "directed_inputs").None? {
      GetPut(t, "directed_inputs", Property, n, false);
      GetPut(t, "directed_inputs", Property, "directed_inputs", false);
      GetPut(t, "directed_inputs", Property, "refresh_inputs", false);
    }
    if LookupIn(t1, inherited, "refresh_inputs").None? {
      GetPut(t1, "refresh_inputs", RefreshAttribute, n, false);
      GetPut(t1, "refresh_inputs", RefreshAttribute, "directed_inputs", false);
      GetPut(t1, "refresh_inputs", RefreshAttribute, "refresh_inputs", false);
    }
  }

  /** On a class not yet enabled, every name the decorator does not set
      keeps its attribute, wrapped exactly when it is a plain public
      function; the proxies appear only where missing, and the injected
      `refresh_inputs` is itself wrapped. */
  lemma DecoratedEntries(t: Namespace, inherited: Namespace, base: Arguments, n: string)
    requires !EnabledIn(t, inherited)
    ensures n != EnabledFlag && n != MetadataName && n != "__init__" && n != "directed_inputs" && n != "refresh_inputs" ==>
            Get(DecorateOf(t, inherited, base), n, false) ==
              match Get(t, n, false)
              case None => None
              case Some(a) => Some(WrapEntry((n, a)).1)
    ensures LookupIn(t, inherited, "refresh_inputs").None? ==>
            Get(DecorateOf(t, inherited, base), "refresh_inputs", false) ==
              Some(Function(Wrapped(RefreshAttribute.def)))
    ensures LookupIn(t, inherited, "directed_inputs").None? ==>
            Get(DecorateOf(t, inherited, base), "directed_inputs", false) == Some(Property)
    ensures Get(DecorateOf(t, inherited, base), MetadataName, false) == Some(Metadata(MetadataOf(base)))
  {
    var t3 := Marked(t, base);
    MarkedGet(t, base, n);
    MarkedGet(t, base, MetadataName);
    MarkedGet(t, base, "directed_inputs");
    MarkedGet(t, base, "refresh_inputs");
    ProxiesKeep(t3, inherited, n);
    ProxiesKeep(t3, inherited, MetadataName);
    WrapAllEntries(ProxiesOf(t3, inherited), n);
    WrapAllEntries(ProxiesOf(t3, inherited), "refresh_inputs");
    WrapAllEntries(ProxiesOf(t3, inherited), "directed_inputs");
    WrapAllEntries(ProxiesOf(t3, inherited), MetadataName);
  }

  /** Per-instance overrides: a value given replaces the decorator's, an
      override of `None` is ignored, and applying the same overrides twice
      changes nothing more. */
  lemma InstanceOptionsOverride(base: Arguments, overrides: Options)
    ensures overrides.inputs.Some? ==> InstanceOptions(base, overrides).inputs == overrides.inputs
    ensures overrides.inputs.None? ==> InstanceOptions(base, overrides).inputs == base.inputs
    ensures overrides.fromEnvironment.Some? ==> InstanceOptions(base, overrides).fromEnvironment == overrides.fromEnvironment.value
    ensures overrides.fromEnvironment.None? ==> InstanceOptions(base, overrides).fromEnvironment == base.fromEnvironment
    ensures overrides.fromStdin.Some? ==> InstanceOptions(base, overrides).fromStdin == overrides.fromStdin.value
    ensures overrides.fromStdin.None? ==> InstanceOptions(base, overrides).fromStdin == base.fromStdin
    ensures overrides.envPrefix.Some? ==> InstanceOptions(base, overrides).envPrefix == overrides.envPrefix
    ensures overrides.envPrefix.None? ==> InstanceOptions(base, overrides).envPrefix == base.envPrefix
    ensures overrides.stripEnvPrefix.Some? ==> InstanceOptions(base, overrides).stripEnvPrefix == overrides.stripEnvPrefix.value
    ensures overrides.stripEnvPrefix.None? ==> InstanceOptions(base, overrides).stripEnvPrefix == base.stripEnvPrefix
    ensures InstanceOptions(InstanceOptions(base, overrides), overrides) == InstanceOptions(base, overrides)
  {
  }
}

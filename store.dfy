/** `DirectedInputsClass`: the input store, its construction from layered
    sources, its lookups, and the freeze/thaw state machine over its two
    case-insensitive dicts. */
module Store {
  import opened Wrappers
  import opened Values
  import opened Dicts
  import opened DeepMerge
  import opened Foreign
  import opened Sources
  import opened Lookup

  /** The two fields the state machine drives: the live inputs and the
      frozen ones. */
  datatype Stores = Stores(inputs: Entries<Value>, frozen: Entries<Value>)

  /** Both sides are case-insensitive dicts. */
  ghost predicate WellFormed(s: Stores) {
    Distinct(s.inputs, true) && Distinct(s.frozen, true)
  }

  /** At most one side holds anything. */
  predicate OneSided(s: Stores) {
    s.inputs == [] || s.frozen == []
  }

  /** `freeze_inputs`. */
  function FreezeOf(s: Stores, lib: Library): Stores {
    if lib.isNothing(Dict(s.frozen)) then Stores([], s.inputs) else s
  }

  /** `thaw_inputs`; on the live side's keys the merge is case-insensitive. */
  function ThawOf(s: Stores, lib: Library): Stores {
    if lib.isNothing(Dict(s.inputs)) then Stores(s.frozen, [])
    else Stores(MergeDicts(s.inputs, s.frozen, true), [])
  }

  /** `merge_inputs`: a plain-dict merge, then collapsed into a
      case-insensitive dict again. */
  function MergeOf(s: Stores, newInputs: Option<Entries<Value>>, lib: Library): Stores {
    Stores(Collapse(MergeInputsOf(s.inputs, NormalizeInputs(newInputs, lib), lib)), s.frozen)
  }

  /** `shift_inputs`. */
  function ShiftOf(s: Stores, lib: Library): Stores {
    if lib.isNothing(Dict(s.frozen)) then FreezeOf(s, lib) else ThawOf(s, lib)
  }

  // ---------------------------------------------------------------------
  // The state machine

  /** Freezing moves the live inputs aside when nothing is frozen yet and
      otherwise changes nothing. */
  lemma FreezeProtocol(s: Stores, lib: Library)
    requires Sane(lib)
    ensures s.frozen == [] ==> FreezeOf(s, lib) == Stores([], s.inputs)
    ensures s.frozen != [] ==> FreezeOf(s, lib) == s
  {
  }

  /** Freezing twice is freezing once. */
  lemma FreezeIdempotent(s: Stores, lib: Library)
    requires Sane(lib)
    ensures FreezeOf(FreezeOf(s, lib), lib) == FreezeOf(s, lib)
  {
  }

  /** Thawing always empties the frozen side; into empty live inputs it
      copies the frozen ones, otherwise it merges them in with the frozen
      side winning scalar clashes. */
  lemma ThawProtocol(s: Stores, lib: Library, k: string)
    requires Sane(lib) && WellFormed(s)
    ensures ThawOf(s, lib).frozen == []
    ensures s.inputs == [] ==> ThawOf(s, lib).inputs == s.frozen
    ensures s.inputs != [] ==>
              Get(ThawOf(s, lib).inputs, k, true) == Combine(Get(s.inputs, k, true), Get(s.frozen, k, true))
    ensures WellFormed(ThawOf(s, lib))
  {
    if s.inputs != [] {
      GetMergeDicts(s.inputs, s.frozen, k, true);
      MergeDictsDistinct(s.inputs, s.frozen, true);
    }
  }

  /** Freezing and then thawing restores the live inputs. */
  lemma FreezeThawRestores(s: Stores, lib: Library)
    requires Sane(lib) && s.frozen == []
    ensures ThawOf(FreezeOf(s, lib), lib) == s
  {
  }

  /** Shifting freezes exactly when nothing is frozen, and thaws otherwise. */
  lemma ShiftProtocol(s: Stores, lib: Library)
    requires Sane(lib)
    ensures s.frozen == [] ==> ShiftOf(s, lib) == FreezeOf(s, lib) && ShiftOf(s, lib) == Stores([], s.inputs)
    ensures s.frozen != [] ==> ShiftOf(s, lib) == ThawOf(s, lib) && ShiftOf(s, lib).frozen == []
  {
  }

  /** Freeze, thaw and shift keep at most one side non-empty. */
  lemma OneSidedPreserved(s: Stores, lib: Library)
    requires Sane(lib) && OneSided(s)
    ensures OneSided(FreezeOf(s, lib)) && OneSided(ThawOf(s, lib)) && OneSided(ShiftOf(s, lib))
  {
  }

  /** On a one-sided store, shifting twice changes nothing. */
  lemma ShiftTwice(s: Stores, lib: Library)
    requires Sane(lib) && OneSided(s)
    ensures ShiftOf(ShiftOf(s, lib), lib) == s
  {
    if s.frozen == [] {
      assert ShiftOf(s, lib) == Stores([], s.inputs);
    } else {
      assert ShiftOf(s, lib) == Stores(s.frozen, []);
    }
  }

  /** Merging nothing leaves the store as it is. */
  lemma MergeNothingKeeps(s: Stores, lib: Library)
    requires WellFormed(s)
    ensures MergeOf(s, None, lib) == s
  {
    MergeEmptyIdentity(s.inputs, false);
    CollapseIdentity(s.inputs);
  }

  /** A key none of whose spellings is merged in keeps its value. */
  lemma MergeLeavesOtherKeys(s: Stores, newInputs: Entries<Value>, lib: Library, k: string)
    requires WellFormed(s)
    requires !Has(newInputs, k, true)
    ensures Get(MergeOf(s, Some(newInputs), lib).inputs, k, true) == Get(s.inputs, k, true)
    ensures MergeOf(s, Some(newInputs), lib).frozen == s.frozen
  {
    var incoming := NormalizeInputs(Some(newInputs), lib);
    var merged := MergeInputsOf(s.inputs, incoming, lib);
    CollapseGet(merged, k);
    CollapseGet(s.inputs, k);
    CollapseIdentity(s.inputs);
    if !lib.isNothing(Dict(incoming)) {
      LastMatchMergeEntries(s.inputs, Dict(newInputs), |newInputs|, k);
    }
  }

  /** New values win: when `k` has one spelling on both sides, it maps to
      the merge of the old and the new value, which is the new value unless
      both are containers of the same kind. */
  lemma MergeNewWins(s: Stores, newInputs: Entries<Value>, lib: Library, k: string)
    requires Sane(lib) && WellFormed(s) && Distinct(newInputs, false)
    requires OneSpelling(s.inputs, k) && OneSpelling(newInputs, k)
    ensures Get(MergeOf(s, Some(newInputs), lib).inputs, k, true) == Combine(Get(s.inputs, k, true), Get(newInputs, k, false))
  {
    var merged := MergeInputsOf(s.inputs, newInputs, lib);
    DistinctWeaken(s.inputs);
    MergeDictsDistinct(s.inputs, newInputs, false);
    MergeEntriesOneSpelling(s.inputs, Dict(newInputs), |newInputs|, k);
    CollapseGet(merged, k);
    LastMatchUnique(merged, k);
    GetMergeDicts(s.inputs, newInputs, k, false);
    FindOneSpelling(s.inputs, k);
  }

  /** A key the store holds under another spelling, or not at all, takes
      the new value outright: the merge appends the new spelling after the
      old one, and the collapse keeps the later of the two. */
  lemma MergeRespelledReplaces(s: Stores, newInputs: Entries<Value>, lib: Library, k: string, v: Value)
    requires Sane(lib) && Distinct(newInputs, false) && OneSpelling(newInputs, k)
    requires Get(newInputs, k, false) == Some(v)
    requires !Has(s.inputs, k, false)
    ensures Get(MergeOf(s, Some(newInputs), lib).inputs, k, true) == Some(v)
  {
    var j := Find(newInputs, k, false).value;
    LastMatchMergeEntriesAdded(s.inputs, Dict(newInputs), |newInputs|, j, k);
    CollapseGet(MergeInputsOf(s.inputs, newInputs, lib), k);
  }

  // ---------------------------------------------------------------------
  // The class

  class DirectedInputsClass {
    var inputs: Entries<Value>
    var frozenInputs: Entries<Value>
    var fromStdin: bool

    ghost predicate Valid()
      reads this
    {
      Distinct(inputs, true) && Distinct(frozenInputs, true)
    }

    function State(): Stores
      reads this
    {
      Stores(inputs, frozenInputs)
    }

    /** The fields of a store built from the layered plain dict `current`. */
    constructor FromLayered(current: Entries<Value>, fromStdin: bool)
      ensures Valid()
      ensures inputs == Collapse(current) && frozenInputs == [] && this.fromStdin == fromStdin
    {
      CollapseDistinct(current);
      inputs := Collapse(current);
      frozenInputs := [];
      this.fromStdin := fromStdin;
    }

    /** `DirectedInputsClass(...)`: the explicit inputs, the environment
        underneath them, and standard input underneath both. */
    static method Create(inputs: Option<Entries<Value>>, fromEnvironment: bool, fromStdin: bool,
                         envPrefix: Option<string>, stripEnvPrefix: bool, world: World, lib: Library)
      returns (r: Outcome<DirectedInputsClass>)
      ensures var layered := Layered(inputs, fromEnvironment, fromStdin, envPrefix, stripEnvPrefix, world, lib);
              match layered
              case Err(e) => r == Err(e)
              case Ok(current) =>
                && r.Ok? && fresh(r.value) && r.value.Valid()
                && r.value.inputs == Collapse(current) && r.value.frozenInputs == [] && r.value.fromStdin == fromStdin
    {
      var current := NormalizeInputs(inputs, lib);
      if fromEnvironment {
        var env := FilteredEnvironment(world.environ, envPrefix, stripEnvPrefix);
        current := MergeInputsOf(AsValues(env), current, lib);
      }
      if fromStdin {
        var flag := Get(world.environ, "OVERRIDE_STDIN", false).GetOr("False");
        var overridden := lib.strToBool(Str(flag));
        if overridden.None? {
          return Err(OverrideFlagInvalid);
        }
        if !Truthy(overridden.value) {
          var payload := LoadFromStdin(world.stdin, lib);
          if payload.Err? {
            return Err(payload.error);
          }
          var base := AsMapping(payload.value);
          if base.Err? {
            return Err(base.error);
          }
          current := MergeInputsOf(base.value, current, lib);
        }
      }
      var store := new DirectedInputsClass.FromLayered(current, fromStdin);
      return Ok(store);
    }

    /** `get_input`. */
    method GetInput(k: string, default: Value, required: bool, co: Coercions, lib: Library) returns (r: Outcome<Value>)
      ensures r == GetInputOf(inputs, k, default, required, co, lib)
    {
      // `inputs.get(k, default)`, a value that is nothing replaced by the default
      var inp := Fetched(inputs, k, default, lib);
      ConvertFromSteps(inp, k, co, lib);
      if co.isBool && !inp.Bool? {
        var c := lib.strToBool(inp);
        if c.None? {
          return Err(BoolParseFailed(k));
        }
        inp := c.value;
      }
      if co.isInteger && !inp.Null? && !IsPyInt(inp) {
        var c := lib.strToInt(inp);
        if c.None? {
          return Err(ConversionFailed(k, ToInteger));
        }
        inp := c.value;
      }
      if co.isFloat && !inp.Null? && !inp.Float? {
        var c := lib.strToFloat(lib.str(inp));
        if c.None? {
          return Err(ConversionFailed(k, ToFloat));
        }
        inp := c.value;
      }
      if co.isPath && !inp.Null? {
        var c := lib.strToPath(lib.str(inp));
        if c.None? {
          return Err(ConversionFailed(k, ToPath));
        }
        inp := c.value;
      }
      if co.isDatetime && !inp.Null? {
        var c := lib.strToDatetime(lib.str(inp));
        if c.None? {
          return Err(ConversionFailed(k, ToDatetime));
        }
        inp := c.value;
      }
      assert Converted(inputs, k, default, co, lib) == Ok(inp);
      if lib.isNothing(inp) && required {
        return Err(RequiredInputMissing(k));
      }
      return Ok(inp);
    }

    /** `decode_input`. */
    method DecodeInput(k: string, default: Value, required: bool, dec: Decoding, lib: Library) returns (r: Outcome<Value>)
      ensures r == DecodeInputOf(inputs, k, default, required, dec, lib)
    {
      var fetched := GetInput(k, default, required, NoCoercions, lib);
      if fetched.Err? {
        return Err(fetched.error);
      }
      var conf := fetched.value;
      if conf.Null? || conf == default {
        return Ok(conf);
      }
      var text := CoerceText(conf, lib);
      if text.Err? {
        return Err(text.error);
      }
      conf := text.value;
      if !conf.Str? {
        return Ok(conf);
      }
      if dec.fromBase64 {
        var raw := lib.base64Decode(conf.s, dec.fromJson || dec.fromYaml, if dec.fromJson then Json else Yaml);
        if raw.None? {
          return Err(Base64DecodeFailed);
        }
        conf := raw.value;
      }
      if dec.fromYaml {
        var decoded := lib.decodeYaml(conf);
        if decoded.None? {
          return Err(YamlDecodeFailed);
        }
        conf := decoded.value;
      } else if dec.fromJson {
        var decoded := lib.decodeJson(conf);
        if decoded.None? {
          return Err(JsonDecodeFailed);
        }
        conf := decoded.value;
      }
      if conf.Null? && !dec.allowNone {
        return Ok(default);
      }
      return Ok(conf);
    }

    /** `freeze_inputs`; returns the frozen inputs. */
    method FreezeInputs(lib: Library) returns (r: Entries<Value>)
      requires Valid()
      modifies this
      ensures Valid() && State() == FreezeOf(old(State()), lib)
      ensures r == frozenInputs && fromStdin == old(fromStdin)
    {
      if lib.isNothing(Dict(frozenInputs)) {
        frozenInputs := inputs;
        inputs := [];
      }
      r := frozenInputs;
    }

    /** `thaw_inputs`; returns the live inputs. */
    method ThawInputs(lib: Library) returns (r: Entries<Value>)
      requires Valid()
      modifies this
      ensures Valid() && State() == ThawOf(old(State()), lib)
      ensures r == inputs && fromStdin == old(fromStdin)
    {
      if lib.isNothing(Dict(inputs)) {
        inputs := frozenInputs;
        frozenInputs := [];
        return inputs;
      }
      MergeDictsDistinct(inputs, frozenInputs, true);
      inputs := MergeDicts(inputs, frozenInputs, true);
      frozenInputs := [];
      r := inputs;
    }

    /** `merge_inputs`; returns the live inputs. */
    method MergeInputs(newInputs: Option<Entries<Value>>, lib: Library) returns (r: Entries<Value>)
      requires Valid()
      modifies this
      ensures Valid() && State() == MergeOf(old(State()), newInputs, lib)
      ensures r == inputs && fromStdin == old(fromStdin)
    {
      var merged := MergeInputsOf(inputs, NormalizeInputs(newInputs, lib), lib);
      CollapseDistinct(merged);
      inputs := Collapse(merged);
      r := inputs;
    }

    /** `shift_inputs`. */
    method ShiftInputs(lib: Library) returns (r: Entries<Value>)
      requires Valid()
      modifies this
      ensures Valid() && State() == ShiftOf(old(State()), lib)
      ensures r == (if lib.isNothing(Dict(old(frozenInputs))) then frozenInputs else inputs)
      ensures fromStdin == old(fromStdin)
    {
      if lib.isNothing(Dict(frozenInputs)) {
        r := FreezeInputs(lib);
      } else {
        r := ThawInputs(lib);
      }
    }
  }
}

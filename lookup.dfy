/** What `get_input` and `decode_input` compute from the store's entries:
    the fetch with its fallback, the chain of conversions, the required
    check, and the decoding pipeline. */
module Lookup {
  import opened Wrappers
  import opened Values
  import opened Dicts
  import opened Foreign

  /** The conversion flags of `get_input`. */
  datatype Coercions = Coercions(isBool: bool, isInteger: bool, isFloat: bool, isPath: bool, isDatetime: bool)

  const NoCoercions := Coercions(false, false, false, false, false)

  /** The decoding flags of `decode_input`. */
  datatype Decoding = Decoding(fromJson: bool, fromYaml: bool, fromBase64: bool, allowNone: bool)

  /** `inputs.get(k, default)`, a value that is nothing replaced by the default. */
  function Fetched(store: Entries<Value>, k: string, default: Value, lib: Library): (r: Value)
    ensures r == default || (Get(store, k, true) == Some(r) && !lib.isNothing(r))
    ensures Get(store, k, true).None? ==> r == default
    ensures Get(store, k, true).Some? && lib.isNothing(Get(store, k, true).value) ==> r == default
    ensures Get(store, k, true).Some? && !lib.isNothing(Get(store, k, true).value) ==> r == Get(store, k, true).value
  {
    var inp := Get(store, k, true).GetOr(default);
    if lib.isNothing(inp) then default else inp
  }

  function Enabled(co: Coercions, t: Target): bool {
    match t
    case ToBool => co.isBool
    case ToInteger => co.isInteger
    case ToFloat => co.isFloat
    case ToPath => co.isPath
    case ToDatetime => co.isDatetime
  }

  /** Whether a value is handed to the conversion for `t` at all: a bool is
      already a bool, an int (a bool included) already an int, a float
      already a float, and `None` is converted only to a bool. */
  predicate Needs(t: Target, v: Value) {
    match t
    case ToBool => !v.Bool?
    case ToInteger => !v.Null? && !IsPyInt(v)
    case ToFloat => !v.Null? && !v.Float?
    case ToPath => !v.Null?
    case ToDatetime => !v.Null?
  }

  /** The library call behind each conversion; the last three go through `str`. */
  function Convert(t: Target, v: Value, lib: Library): Option<Value> {
    match t
    case ToBool => lib.strToBool(v)
    case ToInteger => lib.strToInt(v)
    case ToFloat => lib.strToFloat(lib.str(v))
    case ToPath => lib.strToPath(lib.str(v))
    case ToDatetime => lib.strToDatetime(lib.str(v))
  }

  /** The error a failed conversion raises; only the bool conversion's is
      not wrapped with the key's name. */
  function Failure(t: Target, k: string): Error {
    if t == ToBool then BoolParseFailed(k) else ConversionFailed(k, t)
  }

  /** One step of the conversion chain. */
  function Stage(t: Target, on: bool, k: string, v: Value, lib: Library): (r: Outcome<Value>)
    ensures !(on && Needs(t, v)) ==> r == Ok(v)
    ensures on && Needs(t, v) ==> (r.Ok? <==> Convert(t, v, lib).Some?)
    ensures on && Needs(t, v) && r.Ok? ==> r.value == Convert(t, v, lib).value
    ensures r.Err? ==> r.error == Failure(t, k)
  {
    if on && Needs(t, v) then
      match Convert(t, v, lib)
      case None => Err(Failure(t, k))
      case Some(w) => Ok(w)
    else Ok(v)
  }

  /** A value after the bool, int, float, path and datetime conversions, in
      that order. */
  function ConvertFrom(v0: Value, k: string, co: Coercions, lib: Library): Outcome<Value> {
    var v1 :- Stage(ToBool, co.isBool, k, v0, lib);
    var v2 :- Stage(ToInteger, co.isInteger, k, v1, lib);
    var v3 :- Stage(ToFloat, co.isFloat, k, v2, lib);
    var v4 :- Stage(ToPath, co.isPath, k, v3, lib);
    Stage(ToDatetime, co.isDatetime, k, v4, lib)
  }

  /** The conversion chain as the sequence of its steps: a step that fails
      ends it with that step's error. */
  lemma ConvertFromSteps(v0: Value, k: string, co: Coercions, lib: Library)
    ensures var s1 := Stage(ToBool, co.isBool, k, v0, lib);
            s1.Err? ==> ConvertFrom(v0, k, co, lib) == s1
    ensures var s1 := Stage(ToBool, co.isBool, k, v0, lib);
            s1.Ok? ==> var s2 := Stage(ToInteger, co.isInteger, k, s1.value, lib);
            s2.Err? ==> ConvertFrom(v0, k, co, lib) == s2
    ensures var s1 := Stage(ToBool, co.isBool, k, v0, lib);
            s1.Ok? ==> var s2 := Stage(ToInteger, co.isInteger, k, s1.value, lib);
            s2.Ok? ==> var s3 := Stage(ToFloat, co.isFloat, k, s2.value, lib);
            s3.Err? ==> ConvertFrom(v0, k, co, lib) == s3
    ensures var s1 := Stage(ToBool, co.isBool, k, v0, lib);
            s1.Ok? ==> var s2 := Stage(ToInteger, co.isInteger, k, s1.value, lib);
            s2.Ok? ==> var s3 := Stage(ToFloat, co.isFloat, k, s2.value, lib);
            s3.Ok? ==> var s4 := Stage(ToPath, co.isPath, k, s3.value, lib);
            s4.Err? ==> ConvertFrom(v0, k, co, lib) == s4
    ensures var s1 := Stage(ToBool, co.isBool, k, v0, lib);
            s1.Ok? ==> var s2 := Stage(ToInteger, co.isInteger, k, s1.value, lib);
            s2.Ok? ==> var s3 := Stage(ToFloat, co.isFloat, k, s2.value, lib);
            s3.Ok? ==> var s4 := Stage(ToPath, co.isPath, k, s3.value, lib);
            s4.Ok? ==> ConvertFrom(v0, k, co, lib) == Stage(ToDatetime, co.isDatetime, k, s4.value, lib)
  {
  }

  /** The fetched value after the conversions. */
  function Converted(store: Entries<Value>, k: string, default: Value, co: Coercions, lib: Library): Outcome<Value> {
    ConvertFrom(Fetched(store, k, default, lib), k, co, lib)
  }

  /** `get_input`. */
  function GetInputOf(store: Entries<Value>, k: string, default: Value, required: bool, co: Coercions, lib: Library): (r: Outcome<Value>)
    ensures !required ==> r == Converted(store, k, default, co, lib)
    ensures r.Ok? ==> r == Converted(store, k, default, co, lib) && !(required && lib.isNothing(r.value))
    ensures r == Err(RequiredInputMissing(k)) <==>
            required && Converted(store, k, default, co, lib).Ok? && lib.isNothing(Converted(store, k, default, co, lib).value)
  {
    var v :- Converted(store, k, default, co, lib);
    if lib.isNothing(v) && required then Err(RequiredInputMissing(k)) else Ok(v)
  }

  /** `_coerce_text`: bytes become their UTF-8 text, anything else stays. */
  function CoerceText(v: Value, lib: Library): (r: Outcome<Value>)
    ensures !v.Bytes? ==> r == Ok(v)
    ensures v.Bytes? ==> (r.Ok? <==> lib.utf8Decode(v.data).Some?)
    ensures v.Bytes? && r.Ok? ==> r.value == Str(lib.utf8Decode(v.data).value)
    ensures r.Err? ==> r.error == TextDecodeFailed
  {
    if v.Bytes? then
      match lib.utf8Decode(v.data)
      case None => Err(TextDecodeFailed)
      case Some(s) => Ok(Str(s))
    else Ok(v)
  }

  /** The optional base64 step; the payload is unwrapped when a JSON or YAML
      step follows. */
  function Base64Stage(s: string, dec: Decoding, lib: Library): Outcome<Value> {
    match lib.base64Decode(s, dec.fromJson || dec.fromYaml, if dec.fromJson then Json else Yaml)
    case None => Err(Base64DecodeFailed)
    case Some(v) => Ok(v)
  }

  /** The structured decoding step: YAML when asked for, else JSON when asked
      for, else nothing. */
  function FormatStage(v: Value, dec: Decoding, lib: Library): Outcome<Value> {
    if dec.fromYaml then
      match lib.decodeYaml(v)
      case None => Err(YamlDecodeFailed)
      case Some(w) => Ok(w)
    else if dec.fromJson then
      match lib.decodeJson(v)
      case None => Err(JsonDecodeFailed)
      case Some(w) => Ok(w)
    else Ok(v)
  }

  /** The decoding of a text value. */
  function DecodeText(s: string, dec: Decoding, lib: Library): Outcome<Value> {
    var raw :- if dec.fromBase64 then Base64Stage(s, dec, lib) else Ok(Str(s));
    FormatStage(raw, dec, lib)
  }

  /** `decode_input`. */
  function DecodeInputOf(store: Entries<Value>, k: string, default: Value, required: bool, dec: Decoding, lib: Library): Outcome<Value> {
    var conf :- GetInputOf(store, k, default, required, NoCoercions, lib);
    if conf.Null? || conf == default then Ok(conf)
    else
      var text :- CoerceText(conf, lib);
      if !text.Str? then Ok(text)
      else
        var decoded :- DecodeText(text.s, dec, lib);
        if decoded.Null? && !dec.allowNone then Ok(default) else Ok(decoded)
  }

  // ---------------------------------------------------------------------
  // Properties of get_input

  /** With no conversion asked for, `get_input` is the fetch plus the
      required check. */
  lemma PlainGetInput(store: Entries<Value>, k: string, default: Value, required: bool, lib: Library)
    ensures var v := Fetched(store, k, default, lib);
            GetInputOf(store, k, default, required, NoCoercions, lib) ==
            if required && lib.isNothing(v) then Err(RequiredInputMissing(k)) else Ok(v)
  {
  }

  /** An absent key yields the default, or raises when the default is
      nothing and the input is required. */
  lemma AbsentKeyYieldsDefault(store: Entries<Value>, k: string, default: Value, required: bool, lib: Library)
    requires !Has(store, k, true)
    ensures GetInputOf(store, k, default, required, NoCoercions, lib) ==
            if required && lib.isNothing(default) then Err(RequiredInputMissing(k)) else Ok(default)
  {
    PlainGetInput(store, k, default, required, lib);
  }

  /** The key only names a failed step's error. */
  lemma StageKey(t: Target, on: bool, k1: string, k2: string, v: Value, lib: Library)
    ensures Stage(t, on, k1, v, lib).Ok? <==> Stage(t, on, k2, v, lib).Ok?
    ensures Stage(t, on, k1, v, lib).Ok? ==> Stage(t, on, k1, v, lib).value == Stage(t, on, k2, v, lib).value
  {
  }

  /** The key named in a conversion error does not affect what converts. */
  lemma ConvertFromKey(v: Value, k1: string, k2: string, co: Coercions, lib: Library)
    ensures ConvertFrom(v, k1, co, lib).Ok? <==> ConvertFrom(v, k2, co, lib).Ok?
    ensures ConvertFrom(v, k1, co, lib).Ok? ==> ConvertFrom(v, k1, co, lib).value == ConvertFrom(v, k2, co, lib).value
  {
    ConvertFromSteps(v, k1, co, lib);
    ConvertFromSteps(v, k2, co, lib);
    StageKey(ToBool, co.isBool, k1, k2, v, lib);
    var a := Stage(ToBool, co.isBool, k1, v, lib);
    if a.Ok? {
      StageKey(ToInteger, co.isInteger, k1, k2, a.value, lib);
      var b := Stage(ToInteger, co.isInteger, k1, a.value, lib);
      if b.Ok? {
        StageKey(ToFloat, co.isFloat, k1, k2, b.value, lib);
        var c := Stage(ToFloat, co.isFloat, k1, b.value, lib);
        if c.Ok? {
          StageKey(ToPath, co.isPath, k1, k2, c.value, lib);
          var d := Stage(ToPath, co.isPath, k1, c.value, lib);
          if d.Ok? {
            StageKey(ToDatetime, co.isDatetime, k1, k2, d.value, lib);
          }
        }
      }
    }
  }

  /** Lookup is case-insensitive: two spellings of a key give the same value
      and fail together (the error names the spelling asked for). */
  lemma CaseInsensitiveLookup(store: Entries<Value>, k1: string, k2: string, default: Value, required: bool,
                              co: Coercions, lib: Library)
    requires Fold(k1) == Fold(k2)
    ensures GetInputOf(store, k1, default, required, co, lib).Ok? <==> GetInputOf(store, k2, default, required, co, lib).Ok?
    ensures GetInputOf(store, k1, default, required, co, lib).Ok? ==>
            GetInputOf(store, k1, default, required, co, lib).value == GetInputOf(store, k2, default, required, co, lib).value
  {
    GetFolded(store, k1, k2, true);
    ConvertFromKey(Fetched(store, k1, default, lib), k1, k2, co, lib);
  }

  function Only(t: Target): Coercions {
    Coercions(t == ToBool, t == ToInteger, t == ToFloat, t == ToPath, t == ToDatetime)
  }

  function RequiredCheck(v: Value, k: string, required: bool, lib: Library): Outcome<Value> {
    if required && lib.isNothing(v) then Err(RequiredInputMissing(k)) else Ok(v)
  }

  /** A single conversion: a value that needs it is converted or the call
      raises (the default is never substituted); any other value passes
      through unchanged; then the required check runs on the result. */
  lemma SingleConversion(store: Entries<Value>, k: string, default: Value, required: bool, t: Target, lib: Library)
    ensures var v := Fetched(store, k, default, lib);
            GetInputOf(store, k, default, required, Only(t), lib) ==
            if !Needs(t, v) then RequiredCheck(v, k, required, lib)
            else match Convert(t, v, lib)
              case None => Err(Failure(t, k))
              case Some(w) => RequiredCheck(w, k, required, lib)
  {
    var v := Fetched(store, k, default, lib);
    var co := Only(t);
    assert forall u :: u != t ==> !Enabled(co, u);
    match t {
      case ToBool =>
      case ToInteger =>
      case ToFloat =>
      case ToPath =>
      case ToDatetime =>
    }
  }

  /** An int (a bool included) passes the integer conversion unchanged, and a
      bool passes the bool conversion unchanged. */
  lemma IntAndBoolPassThrough(store: Entries<Value>, k: string, default: Value, required: bool, lib: Library)
    ensures var v := Fetched(store, k, default, lib);
            IsPyInt(v) ==> GetInputOf(store, k, default, required, Only(ToInteger), lib) == RequiredCheck(v, k, required, lib)
    ensures var v := Fetched(store, k, default, lib);
            v.Bool? ==> GetInputOf(store, k, default, required, Only(ToBool), lib) == RequiredCheck(v, k, required, lib)
  {
    SingleConversion(store, k, default, required, ToInteger, lib);
    SingleConversion(store, k, default, required, ToBool, lib);
  }

  /** `None` is never handed to the int, float, path or datetime conversions;
      only the bool conversion sees it. */
  lemma NoneNotConverted(store: Entries<Value>, k: string, default: Value, co: Coercions, lib: Library)
    requires Fetched(store, k, default, lib) == Null && !co.isBool
    ensures Converted(store, k, default, co, lib) == Ok(Null)
  {
  }

  /** A failed conversion raises instead of falling back to the default. */
  lemma FailedConversionRaises(store: Entries<Value>, k: string, default: Value, required: bool, t: Target, lib: Library)
    requires var v := Fetched(store, k, default, lib); Needs(t, v) && Convert(t, v, lib).None?
    ensures GetInputOf(store, k, default, required, Only(t), lib) == Err(Failure(t, k))
  {
    SingleConversion(store, k, default, required, t, lib);
  }

  /** The conversions run in order: a value the bool conversion produced is
      a Python int, so a following integer conversion keeps it. */
  lemma BoolThenInteger(store: Entries<Value>, k: string, default: Value, lib: Library)
    requires var v := Fetched(store, k, default, lib); !v.Bool? && lib.strToBool(v).Some? && lib.strToBool(v).value.Bool?
    ensures Converted(store, k, default, Coercions(true, true, false, false, false), lib) ==
            Ok(lib.strToBool(Fetched(store, k, default, lib)).value)
  {
  }

  // ---------------------------------------------------------------------
  // Properties of decode_input

  /** A value that is `None` or equal to the default is returned untouched. */
  lemma DecodeShortCircuits(store: Entries<Value>, k: string, default: Value, required: bool, dec: Decoding, lib: Library)
    requires GetInputOf(store, k, default, required, NoCoercions, lib).Ok?
    requires var c := GetInputOf(store, k, default, required, NoCoercions, lib).value; c.Null? || c == default
    ensures DecodeInputOf(store, k, default, required, dec, lib) == GetInputOf(store, k, default, required, NoCoercions, lib)
  {
  }

  /** So a missing key returns the raw default, whatever the decoding flags. */
  lemma DecodeMissingKey(store: Entries<Value>, k: string, default: Value, required: bool, dec: Decoding, lib: Library)
    requires !Has(store, k, true) && !(required && lib.isNothing(default))
    ensures DecodeInputOf(store, k, default, required, dec, lib) == Ok(default)
  {
    AbsentKeyYieldsDefault(store, k, default, required, lib);
  }

  /** A value that is not text after the bytes-to-text step is returned
      unchanged. */
  lemma DecodeNonTextPassThrough(store: Entries<Value>, k: string, default: Value, required: bool, dec: Decoding, lib: Library)
    requires GetInputOf(store, k, default, required, NoCoercions, lib).Ok?
    requires var c := GetInputOf(store, k, default, required, NoCoercions, lib).value;
             !c.Null? && c != default && !c.Str? && !c.Bytes?
    ensures DecodeInputOf(store, k, default, required, dec, lib) == GetInputOf(store, k, default, required, NoCoercions, lib)
  {
  }

  /** YAML takes priority: with the YAML flag set the JSON flag only chooses
      the base64 payload encoding, and without base64 it changes nothing. */
  lemma YamlOverJson(s: string, dec: Decoding, lib: Library)
    requires dec.fromYaml
    ensures !dec.fromBase64 ==> DecodeText(s, dec, lib) == DecodeText(s, dec.(fromJson := false), lib)
    ensures DecodeText(s, dec, lib) ==
            var raw := if dec.fromBase64 then Base64Stage(s, dec, lib) else Ok(Str(s));
            if raw.Err? then Err(raw.error)
            else match lib.decodeYaml(raw.value)
              case None => Err(YamlDecodeFailed)
              case Some(w) => Ok(w)
  {
  }

  /** When decoding yields `None` and `None` is not allowed, the default is
      returned; a failed decoding step raises. */
  lemma DecodeNoneOrFailure(store: Entries<Value>, k: string, default: Value, required: bool, dec: Decoding, lib: Library, s: string)
    requires GetInputOf(store, k, default, required, NoCoercions, lib).Ok?
    requires var c := GetInputOf(store, k, default, required, NoCoercions, lib).value;
             !c.Null? && c != default && CoerceText(c, lib) == Ok(Str(s))
    ensures DecodeText(s, dec, lib) == Ok(Null) && !dec.allowNone ==> DecodeInputOf(store, k, default, required, dec, lib) == Ok(default)
    ensures DecodeText(s, dec, lib).Err? ==> DecodeInputOf(store, k, default, required, dec, lib) == Err(DecodeText(s, dec, lib).error)
    ensures DecodeText(s, dec, lib).Ok? && !(DecodeText(s, dec, lib).value.Null? && !dec.allowNone) ==>
            DecodeInputOf(store, k, default, required, dec, lib) == DecodeText(s, dec, lib)
  {
  }
}

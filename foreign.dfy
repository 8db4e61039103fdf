/** What the store depends on but does not define: the conversion and
    decoding helpers of the data-types library, the JSON and YAML decoders,
    and the process environment and standard input. */
module Foreign {
  import opened Wrappers
  import opened Values
  import opened Dicts

  /** The payload encoding handed to the base64 decoder. */
  datatype Format = Json | Yaml

  /** The conversions `get_input` can apply, in the order it applies them. */
  datatype Target = ToBool | ToInteger | ToFloat | ToPath | ToDatetime

  /** Every way an operation of the core can fail. */
  datatype Error =
    | ConversionFailed(key: string, target: Target)
    | BoolParseFailed(key: string)
    | RequiredInputMissing(key: string)
    | TextDecodeFailed
    | Base64DecodeFailed
    | YamlDecodeFailed
    | JsonDecodeFailed
    | StdinDecodeFailed
    | NotAMapping
    | OverrideFlagInvalid
    | ContextMissing
    | TooManyPositional
    | MultipleValues(name: string)
    | PositionalOnlyAsKeyword(name: string)
    | UnexpectedKeyword(name: string)

  type Outcome<T> = Result<T, Error>

  /** The library helpers as total functions; `None` stands for a call that
      raised. */
  datatype Library = Library(
    isNothing: Value -> bool,
    strToBool: Value -> Option<Value>,
    strToInt: Value -> Option<Value>,
    strToFloat: string -> Option<Value>,
    strToPath: string -> Option<Value>,
    strToDatetime: string -> Option<Value>,
    str: Value -> string,
    utf8Decode: seq<byte> -> Option<string>,
    base64Decode: (string, bool, Format) -> Option<Value>,
    decodeYaml: Value -> Option<Value>,
    decodeJson: Value -> Option<Value>,
    jsonLoads: string -> Option<Value>)

  /** What the lemmas take for granted of `is_nothing`: `None` and the
      empty string are nothing, and a mapping is nothing exactly when it is
      empty. */
  ghost predicate Sane(lib: Library) {
    && lib.isNothing(Null)
    && lib.isNothing(Str(""))
    && forall d: Entries<Value> :: lib.isNothing(Dict(d)) <==> d == []
  }

  /** The process environment and the text standard input would yield. */
  datatype World = World(environ: Entries<string>, stdin: string)
}

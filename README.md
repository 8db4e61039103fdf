# directed-inputs-class, modelled in Dafny

`directed_inputs_class` gathers runtime inputs from three layered sources into one
case-insensitive store:

- an explicit mapping;
- the process environment, optionally filtered by a prefix and stripped of it;
- a JSON document on standard input.

It answers typed lookups (`get_input`) and decoding lookups (`decode_input`) on that
store, and can freeze, thaw, merge and shift its contents. The decorator layer on top
does three things:

- `@directed_inputs` gives every instance of a class a lazily built store, the
  `InputContext`;
- `@input_config` attaches per-parameter configurations to a method;
- the wrapper around every public method binds the caller's arguments and fills each
  parameter the caller left out from the store.

The model follows the two core files, module by module:

| module | file | models |
|---|---|---|
| `Wrappers` | `wrappers.dfy` | `Option` and `Result`; an exception is an `Err` |
| `Values` | `values.dfy` | the Python values the store holds, and Python truthiness |
| `Dicts` | `dicts.dfy` | insertion-ordered dicts as association lists; `CaseInsensitiveDict` as `Collapse` |
| `DeepMerge` | `merge.dfy` | the `Merger` strategies: lists append, dicts merge, sets union, anything else is overridden |
| `Foreign` | `foreign.dfy` | the library helpers (`is_nothing`, `strtobool`, decoders, …) as a record of total functions, and the environment and standard input as a `World` value |
| `Sources` | `sources.dfy` | `_normalize_inputs`, `_filtered_environment`, `_merge_inputs`, `_load_from_stdin`, and the constructor's layering |
| `Lookup` | `lookup.dfy` | `get_input`, `_coerce_text`, `decode_input` as functions of the store |
| `Store` | `store.dfy` | `DirectedInputsClass` as a class with `inputs`, `frozen_inputs` and `from_stdin` fields; its methods are proved against the functions of `Lookup` and against the state machine `FreezeOf`/`ThawOf`/`MergeOf`/`ShiftOf` |
| `Config` | `config.dfy` | `InputConfig.resolve` and `input_config` |
| `Context` | `context.dfy` | `InputContext` as a class with `options` and a cached store |
| `Binding` | `binding.dfy` | `Signature.bind_partial` and `BoundArguments.apply_defaults` |
| `Injection` | `injection.dfy` | `_prepare_bound`: a loop proved against the recursive specification `Inject` |
| `Decorate` | `decorate.dfy` | `directed_inputs`, `_inject_proxies`, `_wrap_instance_methods` and `_should_skip_method`, on a class whose namespace the decorator updates in place |

Calls into code outside the two core files are parameters of the model:

- Library helpers are the fields of `Foreign.Library`. A helper that raises returns
  `None`.
- `os.environ` and the text `sys.stdin.read()` returns are `Foreign.World`.

Lemmas that need `is_nothing` to behave as documented take `Sane(lib)` as a hypothesis:
`None`, `""` and `{}` are nothing, and a non-empty mapping is not.

Three behaviours of the code are worth knowing:

- **Standard input has the lowest precedence, not the highest.** The constructor merges
  the explicit-plus-environment dict *into* the standard-input dict (`_merge_inputs(stdin_inputs,
  current_inputs)`), so explicit inputs and the environment win scalar clashes. See
  `Sources.LayeredGet` and `Sources.EnvBeatsStdin`.
- **A second spelling in a lower layer can beat an explicit input.** The layers are merged
  as case-sensitive dicts and only then collapsed into a `CaseInsensitiveDict`, with the
  later spelling winning. Suppose the environment holds `domain=s` and, after it,
  `DOMAIN=t`, and the explicit inputs hold `domain=y`. The store then answers `t`. With
  `DOMAIN` before `domain` in the environment it answers `y`. This is why
  `Sources.ExplicitScalarWins` speaks of the case-sensitive layered dict, and
  `Context.RefreshedInputsVisible` assumes that no source spells the key two ways.
- **`is_bool` is applied even to `None`.** `get_input(k, is_bool=True)` on an absent key
  hands `None` to `strtobool`. A resolution that would otherwise be `_MISSING` therefore
  depends on what `strtobool(None)` does. `Config.AbsentOptionalIsMissing` excludes
  that case from its hypothesis.

## Model

| member | source | states |
|---|---|---|
| Sources.NormalizeInputs | src/directed_inputs_class/__main__.py:92-97 | no inputs give `{}`; otherwise the result is `{}` or the given mapping itself |
| Sources.NormalizeKeepsMapping | src/directed_inputs_class/__main__.py:92-97 | with a sane `is_nothing`, a given mapping is kept as it is and `None` becomes `{}` |
| Sources.FilteredEnvironment | src/directed_inputs_class/__main__.py:100-107 | without a prefix the environment is taken whole |
| Sources.FilteredEnvironmentGet | src/directed_inputs_class/__main__.py:100-113 | key by key: with prefix and stripping, `k` holds what `prefix+k` held; with a prefix only, a key is kept exactly when it starts with the prefix; without a prefix everything is kept |
| Sources.GetFilterPrefix | src/directed_inputs_class/__main__.py:109-113 | the comprehension's lookup: each kept key maps to its environment value, a dropped key to nothing |
| Sources.FilterPrefixDistinct | src/directed_inputs_class/__main__.py:109-113 | filtering a dict yields a dict: stripped keys never collide |
| Sources.AsValues | src/directed_inputs_class/__main__.py:79-82 | environment strings enter the store as text values, one for one, in order |
| Sources.GetAsValues | src/directed_inputs_class/__main__.py:79-82 | a lookup in the converted environment is the text of the lookup in the environment |
| Sources.AsValuesDistinct | src/directed_inputs_class/__main__.py:79-82 | converting keeps the keys distinct |
| Sources.PrefixOfConcat | src/directed_inputs_class/__main__.py:110-112 | `prefix + k` starts with the prefix, and stripping it gives `k` back |
| Sources.MergeInputsOf | src/directed_inputs_class/__main__.py:115-124 | an incoming dict that is nothing leaves the base as it is |
| Sources.MergeInputsGet | src/directed_inputs_class/__main__.py:115-124 | key by key: a key present on either side is present after; a key on one side keeps its value; a key on both takes the deep merge with the incoming side winning scalars |
| Sources.MergeInputsDistinct | src/directed_inputs_class/__main__.py:115-124 | the merge of a dict is a dict |
| Sources.AsMapping | src/directed_inputs_class/__main__.py:121 | `dict(payload)` succeeds exactly on a JSON object, an empty array or an empty string, giving the object's entries or nothing, and otherwise raises |
| Sources.LoadFromStdin | src/directed_inputs_class/__main__.py:127-138 | empty standard input gives `{}`; otherwise the call fails exactly when `json.loads` fails, with the stdin decoding error, and returns its result when it succeeds |
| Sources.ReadsStdin | src/directed_inputs_class/__main__.py:84 | standard input is never read unless `from_stdin` is set |
| Sources.StdinLayer | src/directed_inputs_class/__main__.py:84-86 | defines what standard input contributes: nothing when it is not read, else the decoded payload as a mapping; a decoding or `dict()` failure is the error (see `Sources.MalformedStdinFails`, `Sources.StdinIgnoredUnlessEnabled`) |
| Sources.EnvLayered | src/directed_inputs_class/__main__.py:76-82 | defines the explicit inputs merged over the filtered environment when `from_environment` is set (see `Sources.EnvLayeredGet`) |
| Sources.Layered | src/directed_inputs_class/__main__.py:76-89 | defines the constructor's plain dict: the environment step merged over the standard-input layer, failing as that layer fails (see `Sources.LayeredGet`) |
| Sources.EnvLayeredGet | src/directed_inputs_class/__main__.py:76-82 | after the environment step the dict is distinct and each key holds the environment value merged with the explicit one |
| Sources.LayeredGet | src/directed_inputs_class/__main__.py:76-89 | a built store is a layered merge: each key holds standard input's value merged with the environment's merged with the explicit one: explicit inputs win scalar clashes over the environment, and both over standard input |
| Sources.ExplicitScalarWins | src/directed_inputs_class/__main__.py:76-89 | an explicit scalar input is what the layered dict holds under its key, whatever the environment and standard input say |
| Sources.EnvBeatsStdin | src/directed_inputs_class/__main__.py:78-86 | with no explicit value, an environment value beats standard input |
| Sources.StdinIgnoredUnlessEnabled | src/directed_inputs_class/__main__.py:84-86 | when `from_stdin` is off or `OVERRIDE_STDIN` is true, the contents of standard input do not affect the result |
| Sources.MalformedStdinFails | src/directed_inputs_class/__main__.py:84-138 | non-empty standard input that is not JSON makes construction fail |
| Sources.EmptyStdinContributesNothing | src/directed_inputs_class/__main__.py:84-131 | empty standard input succeeds and leaves every key as the other layers set it |
| Sources.LayeredSpelling | src/directed_inputs_class/__main__.py:76-89 | when no layer spells `k` two ways, the layered dict does not either, and it stays a dict |
| DeepMerge.MergeValue | src/directed_inputs_class/__main__.py:70-74 | the merged value always has the incoming value's kind, and an incoming value that is no list, dict or set is the result |
| DeepMerge.MergeDicts | src/directed_inputs_class/__main__.py:70-74 | defines the `merge` strategy on two dicts, incoming entries in order (see `DeepMerge.GetMergeDicts`) |
| DeepMerge.GetMergeDicts | src/directed_inputs_class/__main__.py:70-74 | the merge key by key: presence on either side, and `Combine` of the two values (lists appended, dicts merged, sets united, otherwise the incoming value) |
| DeepMerge.GetMergeEntries | src/directed_inputs_class/__main__.py:70-74 | merging the first `n` incoming entries gives each key the combination of its base value with its value among those entries |
| DeepMerge.GetUpsert | src/directed_inputs_class/__main__.py:70-74 | merging one entry changes only that key, to the merge of old and new |
| DeepMerge.UpsertDistinct | src/directed_inputs_class/__main__.py:70-74 | merging one entry keeps a dict a dict |
| DeepMerge.MergeEntriesDistinct | src/directed_inputs_class/__main__.py:70-74 | merging a prefix of the incoming entries keeps a dict a dict |
| DeepMerge.MergeDictsDistinct | src/directed_inputs_class/__main__.py:70-74 | the merge of a dict is a dict |
| DeepMerge.IncomingScalarWins | src/directed_inputs_class/__main__.py:70-74 | where the two values are not containers of one kind, the incoming value wins |
| DeepMerge.NestedDictsMerge | src/directed_inputs_class/__main__.py:70-74 | two dict values merge recursively, key by key |
| DeepMerge.MergeEmptyIdentity | src/directed_inputs_class/__main__.py:70-74 | merging `{}` changes nothing |
| DeepMerge.MergeAssociativeOnDisjointKeys | src/directed_inputs_class/__main__.py:70-74 | for dicts with pairwise disjoint keys the order of grouping does not matter |
| DeepMerge.LastMatchMergeEntries | src/directed_inputs_class/__main__.py:319-332 | merging entries none of which is `k` up to case leaves the last-written spelling of `k` alone |
| DeepMerge.MergeEntriesOneSpelling | src/directed_inputs_class/__main__.py:115-124 | merging two dicts that each spell `k` one way keeps it so |
| DeepMerge.MergeEntriesAbsent | src/directed_inputs_class/__main__.py:115-124 | a merge adds no entry spelt exactly `k` when neither side has one |
| DeepMerge.LastMatchMergeEntriesAdded | src/directed_inputs_class/__main__.py:319-332 | an incoming entry spelt `k`, with no exact `k` in the base and no other spelling of `k` after it, is the last case-insensitive match of `k`, value unmerged |
| Dicts.Collapse | src/directed_inputs_class/__main__.py:89 | `CaseInsensitiveDict(d)` is empty exactly when `d` is, and never larger (see `Dicts.CollapseGet`) |
| Dicts.LastMatch | src/directed_inputs_class/__main__.py:89 | the last match of `k` is absent exactly when no entry of `d` is `k` up to case |
| Dicts.CollapseGet | src/directed_inputs_class/__main__.py:89 | `CaseInsensitiveDict(d)` answers every key with the value of the last entry of `d` that matches it up to case |
| Dicts.CollapseDistinct | src/directed_inputs_class/__main__.py:89 | the store has one entry per key up to case |
| Dicts.CollapseIdentity | src/directed_inputs_class/__main__.py:89 | a dict whose keys already differ up to case is stored as it is |
| Dicts.CollapseGetUnique | src/directed_inputs_class/__main__.py:89 | with one spelling of `k` and no duplicate keys, the case-insensitive lookup in the store is the exact lookup in the dict |
| Dicts.GetFolded | src/directed_inputs_class/__main__.py:183 | lookups in a case-insensitive dict depend only on the folded key |
| Lookup.Fetched | src/directed_inputs_class/__main__.py:183-186 | a stored value that is not nothing is exactly the fetched value; an absent key or a stored nothing gives the default |
| Lookup.Stage | src/directed_inputs_class/__main__.py:188-220 | a conversion runs only when its flag is on and the value needs it; it then succeeds exactly when the library call does, with its result, and fails with that conversion's error |
| Lookup.ConvertFrom | src/directed_inputs_class/__main__.py:188-220 | defines the conversion chain bool, int, float, path, datetime, the first failure ending it (see `Lookup.SingleConversion`, `Lookup.FailedConversionRaises`) |
| Lookup.Converted | src/directed_inputs_class/__main__.py:183-220 | defines `get_input` before the required check: the fetched value put through the chain (see `Lookup.GetInputOf`) |
| Lookup.GetInputOf | src/directed_inputs_class/__main__.py:154-224 | without `required` the result is the converted value; a success is the converted value and is never nothing when required; it raises the required-input error exactly when required and the converted value is nothing |
| Lookup.PlainGetInput | src/directed_inputs_class/__main__.py:183-224 | with no conversion, `get_input` is the fetch followed by the required check |
| Lookup.AbsentKeyYieldsDefault | src/directed_inputs_class/__main__.py:183-224 | an absent key yields the default, or raises when required and the default is nothing |
| Lookup.StageKey | src/directed_inputs_class/__main__.py:188-220 | one conversion step succeeds or fails whatever key it is for, with the same value |
| Lookup.ConvertFromKey | src/directed_inputs_class/__main__.py:188-220 | the key only appears in error messages: conversion outcomes do not depend on it |
| Lookup.CaseInsensitiveLookup | src/directed_inputs_class/__main__.py:183 | two spellings of a key give the same result |
| Lookup.SingleConversion | src/directed_inputs_class/__main__.py:188-224 | with one flag set: a value that needs it is converted or the call raises (no fallback to the default); any other value passes unchanged; then the required check applies |
| Lookup.IntAndBoolPassThrough | src/directed_inputs_class/__main__.py:188-196 | an int or bool passes `is_integer`, and a bool passes `is_bool`, unchanged |
| Lookup.NoneNotConverted | src/directed_inputs_class/__main__.py:194-220 | `None` is never handed to the int, float, path or datetime conversions |
| Lookup.FailedConversionRaises | src/directed_inputs_class/__main__.py:194-220 | a failed conversion raises that conversion's error |
| Lookup.BoolThenInteger | src/directed_inputs_class/__main__.py:188-199 | a value `strtobool` turned into a bool passes the integer step unchanged |
| Lookup.CoerceText | src/directed_inputs_class/__main__.py:141-152 | bytes become their UTF-8 text or raise the text-decoding error; anything else is returned unchanged |
| Lookup.DecodeInputOf | src/directed_inputs_class/__main__.py:226-288 | defines `decode_input` (see `Lookup.DecodeShortCircuits`, `Lookup.DecodeMissingKey`, `Lookup.DecodeNonTextPassThrough`, `Lookup.YamlOverJson`, `Lookup.DecodeNoneOrFailure`) |
| Lookup.DecodeShortCircuits | src/directed_inputs_class/__main__.py:251-254 | a fetched `None` or a value equal to the default is returned as is |
| Lookup.DecodeMissingKey | src/directed_inputs_class/__main__.py:251-254 | an absent key returns the raw default under any decoding flags |
| Lookup.DecodeNonTextPassThrough | src/directed_inputs_class/__main__.py:256-259 | a value that is not text after `_coerce_text` is returned unchanged |
| Lookup.YamlOverJson | src/directed_inputs_class/__main__.py:261-281 | with the YAML flag the JSON flag only picks the base64 payload encoding, and YAML decoding follows the optional base64 step |
| Lookup.DecodeNoneOrFailure | src/directed_inputs_class/__main__.py:261-288 | a failed decoding step raises; a decoded `None` with `allow_none` off gives the default; otherwise the decoded value is returned |
| Store.FreezeOf | src/directed_inputs_class/__main__.py:290-300 | defines the state after `freeze_inputs` (see `Store.FreezeProtocol`) |
| Store.ThawOf | src/directed_inputs_class/__main__.py:302-317 | defines the state after `thaw_inputs` (see `Store.ThawProtocol`) |
| Store.MergeOf | src/directed_inputs_class/__main__.py:319-332 | defines the state after `merge_inputs` (see `Store.MergeNewWins`, `Store.MergeRespelledReplaces`) |
| Store.ShiftOf | src/directed_inputs_class/__main__.py:334-343 | defines the state after `shift_inputs` (see `Store.ShiftProtocol`) |
| Store.FreezeProtocol | src/directed_inputs_class/__main__.py:290-300 | freezing moves the live inputs aside when nothing is frozen, and otherwise changes nothing |
| Store.FreezeIdempotent | src/directed_inputs_class/__main__.py:290-300 | freezing twice is freezing once |
| Store.ThawProtocol | src/directed_inputs_class/__main__.py:302-317 | thawing empties the frozen side; into empty live inputs it copies the frozen ones, otherwise it deep-merges them in key by key with the frozen side winning scalars; both sides stay case-insensitive dicts |
| Store.FreezeThawRestores | src/directed_inputs_class/__main__.py:290-317 | freeze then thaw restores the live inputs |
| Store.ShiftProtocol | src/directed_inputs_class/__main__.py:334-343 | shift freezes exactly when nothing is frozen, and thaws otherwise |
| Store.OneSidedPreserved | src/directed_inputs_class/__main__.py:290-343 | freeze, thaw and shift keep at most one side non-empty |
| Store.ShiftTwice | src/directed_inputs_class/__main__.py:334-343 | on a one-sided store two shifts change nothing |
| Store.MergeNothingKeeps | src/directed_inputs_class/__main__.py:319-332 | merging `None` leaves the store as it is |
| Store.MergeLeavesOtherKeys | src/directed_inputs_class/__main__.py:319-332 | a key none of whose spellings is merged in keeps its value, and the frozen side is untouched |
| Store.MergeNewWins | src/directed_inputs_class/__main__.py:319-332 | a key spelt one way on both sides maps to the deep merge of old and new values |
| Store.MergeRespelledReplaces | src/directed_inputs_class/__main__.py:319-332 | a key the store holds only under another spelling, or not at all, maps to the new value outright after the merge |
| Store.DirectedInputsClass.FromLayered | src/directed_inputs_class/__main__.py:88-90 | the store holds the case-insensitive image of the layered dict, nothing is frozen, and the flag is recorded |
| Store.DirectedInputsClass.Create | src/directed_inputs_class/__main__.py:51-90 | construction fails exactly as the layering does; otherwise a fresh, valid store holds the collapsed layered dict, with nothing frozen |
| Store.DirectedInputsClass.GetInput | src/directed_inputs_class/__main__.py:154-224 | the method's result is `GetInputOf` of the current inputs |
| Store.DirectedInputsClass.DecodeInput | src/directed_inputs_class/__main__.py:226-288 | the method's result is `DecodeInputOf` of the current inputs |
| Store.DirectedInputsClass.FreezeInputs | src/directed_inputs_class/__main__.py:290-300 | the new state is `FreezeOf` of the old; it returns the frozen inputs |
| Store.DirectedInputsClass.ThawInputs | src/directed_inputs_class/__main__.py:302-317 | the new state is `ThawOf` of the old; it returns the live inputs |
| Store.DirectedInputsClass.MergeInputs | src/directed_inputs_class/__main__.py:319-332 | the new state is `MergeOf` of the old; it returns the live inputs |
| Store.DirectedInputsClass.ShiftInputs | src/directed_inputs_class/__main__.py:334-343 | the new state is `ShiftOf` of the old; it returns the frozen side after a freeze and the live side after a thaw |
| Config.ResolveKey | src/directed_inputs_class/decorators.py:70 | a non-empty source name is the key; otherwise the parameter name is |
| Config.ResolveOf | src/directed_inputs_class/decorators.py:68-104 | resolve fails exactly when the store lookup fails, with its error; it yields `_MISSING` exactly when the lookup gave `None`, the key is absent, no default is configured and the parameter is optional; otherwise it yields the lookup's value |
| Config.AbsentOptionalIsMissing | src/directed_inputs_class/decorators.py:68-104 | an optional parameter with no default and an absent key resolves to `_MISSING` |
| Config.RequiredAbsentRaises | src/directed_inputs_class/decorators.py:68-104 | a required parameter with an absent key raises the required-input error for that key |
| Config.MissingOnlyWhenUnconfigured | src/directed_inputs_class/decorators.py:96-102 | `_MISSING` never results for a present key, a configured default or a required parameter |
| Config.UnsetDefaultPassedAsNone | src/directed_inputs_class/decorators.py:71-104 | an unset default is handed on as `None`: apart from `_MISSING` the result equals that of an explicit `None` default |
| Config.ResolveRoutes | src/directed_inputs_class/decorators.py:74-94 | a decoding flag routes to `decode_input` and the coercion flags are ignored; otherwise `get_input` with the coercion flags runs |
| Config.SourceNameKey | src/directed_inputs_class/decorators.py:70 | with a source name the parameter name plays no part; no source name is the same as a source name equal to the parameter name |
| Config.PlainResolvesStored | src/directed_inputs_class/decorators.py:68-104 | a plain configuration resolves a stored value to that value, looked up regardless of case |
| Config.WithInputConfig | src/directed_inputs_class/decorators.py:161-179 | the function's configuration map gains or replaces the entry for that parameter, with the given fields, and keeps every other entry |
| Config.StackedConfigsCommute | src/directed_inputs_class/decorators.py:161-179 | configurations of two different parameters can be stacked in either order |
| Config.LaterConfigWins | src/directed_inputs_class/decorators.py:161-179 | of two configurations of one parameter, the one applied last wins |
| Context.Updated | src/directed_inputs_class/decorators.py:135-138 | a refresh with no overrides leaves the options as they are |
| Context.InstanceArguments | src/directed_inputs_class/decorators.py:154-157 | options set to `None` are dropped, so the constructor's defaults (environment on, stdin off, no stripping) apply; the others pass through |
| Context.InitialOptions | src/directed_inputs_class/decorators.py:117-133 | empty inputs are stored as `None`, non-empty ones as given; the constructor then sees exactly the arguments passed |
| Context.InputContext.constructor | src/directed_inputs_class/decorators.py:117-133 | the options are the initial options and no store is cached |
| Context.InputContext.Refresh | src/directed_inputs_class/decorators.py:135-138 | the options are updated with the named overrides and the cached store is dropped, so the next resolution sees a store built from the new options |
| Context.InputContext.GetOptions | src/directed_inputs_class/decorators.py:140-143 | returns the current options |
| Context.InputContext.EnsureInstance | src/directed_inputs_class/decorators.py:154-158 | a cached store is returned as is; otherwise a fresh store is built from the options and cached, or the build error is returned and nothing is cached; success matches the store the options describe |
| Context.InputContext.Resolve | src/directed_inputs_class/decorators.py:145-147 | the result is the build error or `InputConfig.resolve` against the store the context describes; a successful build leaves that store cached, a failed one caches nothing; the options are kept |
| Context.RefreshNamedOnly | src/directed_inputs_class/decorators.py:135-138 | refresh changes exactly the options it names |
| Context.RefreshTwice | src/directed_inputs_class/decorators.py:135-138 | two refreshes are one with the later overrides winning |
| Context.RefreshedInputsVisible | src/directed_inputs_class/decorators.py:135-158 | after `refresh(inputs=m)` a plain parameter named after a scalar key of `m` resolves to that value |
| Binding.BindPositional | src/directed_inputs_class/decorators.py:284 | the positional phase stops at a parameter index no smaller than where it started and no larger than the signature |
| Binding.BindKeywords | src/directed_inputs_class/decorators.py:284 | defines the keyword phase of `bind_partial` (see `Binding.BindKeywordsShape`, `Binding.UnknownKeywordRaises`) |
| Binding.BindPartial | src/directed_inputs_class/decorators.py:284 | defines `bind_partial` as the positional phase then the keyword phase (see `Binding.BindPartialBinds`) |
| Binding.BindPositionalValues | src/directed_inputs_class/decorators.py:284 | positional arguments bind, in order, to the parameters by position, and a `*args` parameter takes all the rest |
| Binding.BindPositionalKinds | src/directed_inputs_class/decorators.py:284 | the positional phase passes only positional parameters (and a final `*args`), stops at the last argument or after `*args`, and binds no parameter by position that is also given by keyword |
| Binding.BindKeywordsKeeps | src/directed_inputs_class/decorators.py:284 | the keyword phase keeps the arguments bound by position as a prefix and keeps all arguments distinct |
| Binding.BindKeywordsShape | src/directed_inputs_class/decorators.py:284 | the keyword phase keeps what is bound, binds every named parameter from a keyword argument, and keeps the arguments distinct |
| Binding.PositionalPhase | src/directed_inputs_class/decorators.py:284 | after the positional phase the arguments are distinct; each argument before any `*args` is on its parameter; no parameter bound by position is named by a keyword it accepts |
| Binding.BindPartialBinds | src/directed_inputs_class/decorators.py:284 | `bind_partial` gives distinct arguments; positional arguments before any `*args` land on their parameters; keyword arguments land on the parameters they name |
| Binding.TooManyPositionalFrom | src/directed_inputs_class/decorators.py:284 | from any parameter on, surplus positional arguments with no `*args` left fail |
| Binding.TooManyPositionalRaises | src/directed_inputs_class/decorators.py:284 | more positional arguments than parameters, with no `*args`, make `bind_partial` raise, with the too-many-positional error when there are no keyword arguments |
| Binding.UnknownKeywordRaises | src/directed_inputs_class/decorators.py:284 | a keyword naming no parameter, with no `**kwargs`, makes the keyword phase fail |
| Binding.UnknownKeywordFails | src/directed_inputs_class/decorators.py:284 | so `bind_partial` raises for such a keyword |
| Binding.ApplyDefaults | src/directed_inputs_class/decorators.py:305 | defines `apply_defaults` (see `Binding.ApplyDefaultsGet`, `Binding.DefaultsBound`) |
| Binding.ApplyDefaultsGet | src/directed_inputs_class/decorators.py:305 | `apply_defaults` keeps bound values, gives unbound parameters their declared default or an empty `*args`/`**kwargs`, adds nothing else, and keeps the arguments distinct |
| Binding.DefaultsBound | src/directed_inputs_class/decorators.py:305 | after `apply_defaults` every parameter with a declared default, every variadic one and every bound one is present; bound values are kept; unbound ones take their default |
| Injection.ConfigFor | src/directed_inputs_class/decorators.py:294-296 | the function's configuration for the parameter, or a plain one |
| Injection.Inject | src/directed_inputs_class/decorators.py:285-303 | defines the loop of `_prepare_bound` from a parameter on (see `Injection.InjectGet`, `Injection.InjectResolvesAll`) |
| Injection.PrepareBoundOf | src/directed_inputs_class/decorators.py:281-306 | defines `_prepare_bound`: bind, inject, apply defaults (see `Injection.PrepareBoundParameters`) |
| Injection.PrepareBound | src/directed_inputs_class/decorators.py:281-306 | the loop's result is `PrepareBoundOf` with the store the context described on entry; the context keeps its options and any cached store, and a success leaves the store it describes as it was; an instance without a context is modelled too |
| Injection.InjectUntouched | src/directed_inputs_class/decorators.py:285-303 | the loop never changes a key that no remaining parameter is named |
| Injection.InjectNamed | src/directed_inputs_class/decorators.py:285-303 | each remaining parameter ends up with what `InjectedAt` says |
| Injection.InjectGet | src/directed_inputs_class/decorators.py:285-303 | after the loop each parameter holds what `InjectedAt` says: its bound value if skipped, else its resolved value or nothing; every other key is untouched |
| Injection.InjectNeedsContext | src/directed_inputs_class/decorators.py:297-299 | without a context the loop succeeds only when every parameter is skipped, and then changes nothing |
| Injection.InjectResolvesAll | src/directed_inputs_class/decorators.py:297-303 | when the loop succeeds, every parameter it did not skip resolved successfully |
| Injection.InjectErrorIsContextMissing | src/directed_inputs_class/decorators.py:297-299 | without a context the only error the loop raises is the context-missing one |
| Injection.PrepareBoundParameters | src/directed_inputs_class/decorators.py:281-306 | per parameter: a caller's argument is never replaced; `self` and variadics are never resolved; a parameter left to resolve resolved; `_MISSING` leaves the declared default; a resolved value is injected; every parameter with a default ends up bound |
| Injection.ContextMissingRaises | src/directed_inputs_class/decorators.py:297-299 | a parameter left to resolve on an instance without a context raises the context-missing error |
| Decorate.ShouldSkipMethod | src/directed_inputs_class/decorators.py:328-336 | an attribute is wrapped exactly when it is a plain function whose name does not start with `_` |
| Decorate.Wrapped | src/directed_inputs_class/decorators.py:309-325 | the wrapper keeps the signature, the configurations and the coroutine kind, and runs the wrapped code |
| Decorate.WrapAll | src/directed_inputs_class/decorators.py:264-325 | wrapping keeps the number of attributes |
| Decorate.WrapAllEntries | src/directed_inputs_class/decorators.py:264-325 | wrapping keeps every name in place, leaves skipped attributes as they are, and replaces each public plain function by its wrapper; lookups follow |
| Decorate.MetadataOf | src/directed_inputs_class/decorators.py:203-205 | the recorded options, with the `None` ones dropped, give back the decorator's arguments |
| Decorate.InstanceOptions | src/directed_inputs_class/decorators.py:216-218 | with no overrides the instance gets the decorator's options |
| Decorate.InstanceOptionsOverride | src/directed_inputs_class/decorators.py:216-218 | each override that is not `None` replaces the decorator's option and each `None` one is ignored; applying the same overrides twice changes nothing more |
| Decorate.WrappedInit | src/directed_inputs_class/decorators.py:211-220 | a new instance gets a fresh context, with no store cached, built from the merged options |
| Decorate.Marked | src/directed_inputs_class/decorators.py:204-229 | defines the three attributes the decorator writes (see `Decorate.MarkedGet`) |
| Decorate.MarkedGet | src/directed_inputs_class/decorators.py:204-229 | the decorator sets the enabled flag, the metadata and `__init__`, and nothing else |
| Decorate.ProxiesOf | src/directed_inputs_class/decorators.py:239-261 | defines the namespace after `_inject_proxies` (see `Decorate.ProxiesKeep`) |
| Decorate.ProxiesKeep | src/directed_inputs_class/decorators.py:239-261 | a proxy is added only where the class has none, own or inherited, and no other name changes |
| Decorate.DecorateOf | src/directed_inputs_class/decorators.py:199-232 | defines the namespace after the decorator (see `Decorate.DecorateIdempotent`, `Decorate.DecoratedEntries`) |
| Decorate.DecorateIdempotent | src/directed_inputs_class/decorators.py:199-201 | a decorated class is enabled, and decorating it again with any options changes nothing |
| Decorate.DecoratedEntries | src/directed_inputs_class/decorators.py:199-232 | on a class not yet enabled: every other name keeps its attribute, wrapped exactly when it is a public plain function; a missing `directed_inputs` becomes the property; a missing `refresh_inputs` becomes the injected function, itself wrapped; the metadata holds the options |
| Decorate.PyClass.constructor | src/directed_inputs_class/decorators.py:264-268 | a class with the given namespace and bases |
| Decorate.PyClass.SetAttribute | src/directed_inputs_class/decorators.py:325 | `setattr` writes one name of the namespace and keeps it a dict |
| Decorate.PyClass.InjectProxies | src/directed_inputs_class/decorators.py:239-261 | the new namespace is `ProxiesOf` of the old |
| Decorate.PyClass.WrapInstanceMethods | src/directed_inputs_class/decorators.py:264-325 | the loop over the namespace leaves it equal to `WrapAll` of the old |
| Decorate.PyClass.DirectedInputs | src/directed_inputs_class/decorators.py:197-232 | the new namespace is `DecorateOf` of the old; an already enabled class is left untouched |

## Left out

- I/O: reading `os.environ` and `sys.stdin` is not modelled. Their contents are the
  `World` parameter.
- Library helpers are not modelled: `is_nothing`, `strtobool`, `strtoint`, `strtofloat`,
  `strtopath`, `strtodatetime`, `str`, the UTF-8 decoder, `base64_decode`,
  `decode_yaml`, `decode_json` and `json.loads`. Their code is outside the two core
  files, so each is an arbitrary total function in `Library`. The only assumption is
  `Sane(lib)`, and only where a lemma needs it.
- `CaseInsensitiveDict`'s internals are not modelled. It is taken to fold keys by ASCII
  lower-casing, keep the last-written spelling and keep first-insertion order. Unicode
  case folding is not modelled.
- Float numerics are not modelled. A float is a real number, and the exact text-to-float
  rules belong to the library.
- Python equality is modelled as structural equality of `Value`, as in `conf == default`.
  Cross-type quirks such as `1 == True` and `1 == 1.0` are not modelled.
- Deep copies (`deepcopy`) are implicit: values are immutable, so aliasing between the
  two stores and the caller's mapping is not modelled.
- `thaw_inputs` merges two `CaseInsensitiveDict`s. It is modelled as a case-insensitive
  deep merge, because how `deepmerge` treats a non-`dict` mapping is outside the core.
- `dict()` of a JSON array of key/value pairs is not modelled. A decoded stdin payload
  that is an array counts as a mapping only when it is empty. A string counts only when
  it is empty: `dict()` of a non-empty string fails, since its characters are not pairs.
- `decode_input` on a `memoryview` that is not UTF-8 raises an unwrapped
  `UnicodeDecodeError`; the model gives it the bytes error.
- `Decorate.Wrapped`: the coroutine (`async`) wrapper is the synchronous one with the
  flag recorded. Awaiting is not modelled.
- The call of the wrapped function with `bound.args` and `bound.kwargs` is not modelled.
  The model stops at the bound arguments `_prepare_bound` returns.
- `Binding.BindPartial` follows CPython 3.11's `Signature._bind(partial=True)`. Two
  things in it are not modelled:
  - version differences in its error messages;
  - the order in which it reports an error when several errors apply at once.
- A `*args` value is modelled as a list, not a tuple.
- The wrapped `__init__`'s reserved logging and settings keyword arguments are not
  modelled: `_directed_inputs_runtime_logging` and `_directed_inputs_runtime_settings`.
  Neither is the chaining to the original `__init__`.
- Overrides naming an unknown option are not modelled, and neither are options of the
  wrong type. Python raises a `TypeError` for both.
- `input_config` with a keyword argument that `InputConfig` does not accept is not
  modelled. Python raises a `TypeError` when the decorator is applied; the typed
  configuration record cannot express such an argument.
- The `directed_inputs` property and `_get_context` are represented only by their
  presence in the namespace. Their error message when no context exists is not
  modelled.
- Attributes of metaclasses, and `__dict__` contents other than plain functions,
  static and class methods, properties and data, are not modelled.
- `Config.AbsentOptionalIsMissing` and `Config.RequiredAbsentRaises` exclude the
  `is_bool` route without decoding. There `strtobool(None)` decides the outcome, and
  that is library behaviour.
- `Context.RefreshedInputsVisible` assumes that each source spells the key one way. With
  two spellings, the collapse described above can let a lower layer win.

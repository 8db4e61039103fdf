/** Signatures and the binding of a call's arguments to them: what
    `Signature.bind_partial` and `BoundArguments.apply_defaults` compute
    for the wrapper of a decorated method. */
module Binding {
  import opened Wrappers
  import opened Values
  import opened Dicts
  import opened Foreign

  datatype ParamKind = PositionalOnly | PositionalOrKeyword | VarPositional | KeywordOnly | VarKeyword

  /** A parameter; `default` is `None` for a parameter declared without one. */
  datatype Param = Param(name: string, kind: ParamKind, default: Option<Value>)

  /** The parameters of a signature, in declaration order. */
  type Signature = seq<Param>

  /** In a signature no two parameters share a name. */
  predicate UniqueNames(sig: Signature) {
    forall i, j :: 0 <= i < j < |sig| ==> sig[i].name != sig[j].name
  }

  predicate IsPositional(k: ParamKind) {
    k == PositionalOnly || k == PositionalOrKeyword
  }

  predicate Variadic(k: ParamKind) {
    k == VarPositional || k == VarKeyword
  }

  /** The positional phase of binding, at parameter `i` with argument `i`
      next: the arguments bound so far and the parameter the keyword phase
      starts at. A `*args` parameter met after the last argument is where
      the keyword phase starts, which skips it. */
  function BindPositional(sig: Signature, args: seq<Value>, kwargs: Entries<Value>, i: nat,
                          acc: Entries<Value>): (r: Outcome<(Entries<Value>, nat)>)
    requires i <= |sig| && i <= |args|
    ensures r.Ok? ==> i <= r.value.1 <= |sig|
    decreases |sig| - i
  {
    if i == |args| then
      if i < |sig| && sig[i].kind == PositionalOnly && Has(kwargs, sig[i].name, false) then
        Err(PositionalOnlyAsKeyword(sig[i].name))
      else Ok((acc, i))
    else if i == |sig| || sig[i].kind == VarKeyword || sig[i].kind == KeywordOnly then
      Err(TooManyPositional)
    else if sig[i].kind == VarPositional then
      Ok((acc + [(sig[i].name, List(args[i..]))], i + 1))
    else if Has(kwargs, sig[i].name, false) && sig[i].kind != PositionalOnly then
      Err(MultipleValues(sig[i].name))
    else
      BindPositional(sig, args, kwargs, i + 1, acc + [(sig[i].name, args[i])])
  }

  /** The keyword phase from parameter `i`: each named parameter takes its
      keyword argument, which is popped; what is left goes to the `**kwargs`
      parameter (`kwParam`, the index of the one met so far) or is an error. */
  function BindKeywords(sig: Signature, i: nat, kwargs: Entries<Value>, acc: Entries<Value>,
                        kwParam: Option<nat>): Outcome<Entries<Value>>
    requires i <= |sig|
    requires kwParam.Some? ==> kwParam.value < i
    decreases |sig| - i
  {
    if i == |sig| then
      if kwargs == [] then Ok(acc)
      else if kwParam.Some? then Ok(acc + [(sig[kwParam.value].name, Dict(kwargs))])
      else Err(UnexpectedKeyword(kwargs[0].0))
    else
      var p := sig[i];
      if p.kind == VarKeyword then BindKeywords(sig, i + 1, kwargs, acc, Some(i))
      else if p.kind == VarPositional then BindKeywords(sig, i + 1, kwargs, acc, kwParam)
      else match Get(kwargs, p.name, false)
        case None => BindKeywords(sig, i + 1, kwargs, acc, kwParam)
        case Some(v) =>
          if p.kind == PositionalOnly then Err(PositionalOnlyAsKeyword(p.name))
          else BindKeywords(sig, i + 1, Remove(kwargs, p.name, false), acc + [(p.name, v)], kwParam)
  }

  /** `sig.bind_partial(*args, **kwargs).arguments`. */
  function BindPartial(sig: Signature, args: seq<Value>, kwargs: Entries<Value>): Outcome<Entries<Value>> {
    var pos :- BindPositional(sig, args, kwargs, 0, []);
    BindKeywords(sig, pos.1, kwargs, pos.0, None)
  }

  /** The value `apply_defaults` gives a parameter: its bound value, else its
      declared default, else an empty `*args` or `**kwargs`, else none. */
  function Defaulted(p: Param, bound: Entries<Value>): Option<Value> {
    match Get(bound, p.name, false)
    case Some(v) => Some(v)
    case None =>
      if p.default.Some? then p.default
      else if p.kind == VarPositional then Some(List([]))
      else if p.kind == VarKeyword then Some(Dict([]))
      else None
  }

  /** `bound.apply_defaults()`: the arguments rebuilt in signature order. */
  function ApplyDefaults(sig: Signature, bound: Entries<Value>): Entries<Value> {
    if sig == [] then []
    else
      var rest := ApplyDefaults(sig[1..], bound);
      match Defaulted(sig[0], bound)
      case Some(v) => [(sig[0].name, v)] + rest
      case None => rest
  }

  // ---------------------------------------------------------------------
  // Properties of bind_partial

  /** The positional phase binds parameter `t` to argument `t`, in order,
      and a `*args` parameter to all remaining arguments. */
  lemma {:induction false} BindPositionalValues(sig: Signature, args: seq<Value>, kwargs: Entries<Value>, i: nat,
                                                acc: Entries<Value>)
    requires i <= |sig| && i <= |args|
    requires |acc| == i && forall t :: 0 <= t < i ==> acc[t].0 == sig[t].name
    ensures var r := BindPositional(sig, args, kwargs, i, acc);
            r.Ok? ==>
              var b := r.value.0; var s := r.value.1;
              && |b| == s && b[..i] == acc
              && (forall t :: 0 <= t < s ==> b[t].0 == sig[t].name)
              && (forall t :: i <= t < s && sig[t].kind != VarPositional ==> t < |args| && b[t].1 == args[t])
              && (forall t :: i <= t < s && sig[t].kind == VarPositional ==> t < |args| && b[t].1 == List(args[t..]))
    decreases |sig| - i
  {
    if i < |args| && i < |sig| && IsPositional(sig[i].kind) && !(Has(kwargs, sig[i].name, false) && sig[i].kind != PositionalOnly) {
      var acc' := acc + [(sig[i].name, args[i])];
      BindPositionalValues(sig, args, kwargs, i + 1, acc');
      var r := BindPositional(sig, args, kwargs, i + 1, acc');
      if r.Ok? {
        var b := r.value.0;
        assert b[..i] == acc by {
          assert b[..i + 1] == acc';
          assert acc'[..i] == acc;
          assert b[..i] == b[..i + 1][..i];
        }
      }
    }
  }

  /** The parameters the positional phase passes are positional, save a
      final `*args`; it stops at the last argument or at that `*args`; and
      it binds by position no parameter that is also given by keyword,
      unless positional-only. */
  lemma {:induction false} BindPositionalKinds(sig: Signature, args: seq<Value>, kwargs: Entries<Value>, i: nat,
                                               acc: Entries<Value>)
    requires i <= |sig| && i <= |args|
    ensures var r := BindPositional(sig, args, kwargs, i, acc);
            r.Ok? ==>
              var s := r.value.1;
              && (forall t :: i <= t < s && sig[t].kind == PositionalOrKeyword ==> !Has(kwargs, sig[t].name, false))
              && (forall t :: i <= t < s ==> IsPositional(sig[t].kind) || sig[t].kind == VarPositional)
              && ((s == |args| && forall t :: i <= t < s ==> sig[t].kind != VarPositional) ||
                  (i < s && s - 1 < |args| && sig[s - 1].kind == VarPositional &&
                   forall t :: i <= t < s - 1 ==> sig[t].kind != VarPositional))
    decreases |sig| - i
  {
    if i < |args| && i < |sig| && IsPositional(sig[i].kind) && !(Has(kwargs, sig[i].name, false) && sig[i].kind != PositionalOnly) {
      BindPositionalKinds(sig, args, kwargs, i + 1, acc + [(sig[i].name, args[i])]);
    }
  }

  /** The keyword phase keeps what is bound and keeps the arguments distinct. */
  lemma {:induction false} BindKeywordsKeeps(sig: Signature, i: nat, kwargs: Entries<Value>, acc: Entries<Value>,
                                             kwParam: Option<nat>)
    requires i <= |sig| && UniqueNames(sig) && Distinct(acc, false)
    requires kwParam.Some? ==> kwParam.value < i && !Has(acc, sig[kwParam.value].name, false)
    requires forall j :: i <= j < |sig| ==> !Has(acc, sig[j].name, false)
    ensures var r := BindKeywords(sig, i, kwargs, acc, kwParam);
            r.Ok? ==> Distinct(r.value, false) && |acc| <= |r.value| && r.value[..|acc|] == acc
    decreases |sig| - i
  {
    var r := BindKeywords(sig, i, kwargs, acc, kwParam);
    if i == |sig| {
      if kwargs != [] && kwParam.Some? {
        DistinctSnoc(acc, (sig[kwParam.value].name, Dict(kwargs)), false);
        assert r.value[..|acc|] == acc;
      }
    } else {
      var p := sig[i];
      if p.kind == VarKeyword {
        BindKeywordsKeeps(sig, i + 1, kwargs, acc, Some(i));
      } else if p.kind == VarPositional {
        BindKeywordsKeeps(sig, i + 1, kwargs, acc, kwParam);
      } else {
        match Get(kwargs, p.name, false) {
          case None =>
            BindKeywordsKeeps(sig, i + 1, kwargs, acc, kwParam);
          case Some(v) =>
            if p.kind != PositionalOnly {
              var acc' := acc + [(p.name, v)];
              DistinctSnoc(acc, (p.name, v), false);
              forall j | i + 1 <= j < |sig| ensures !Has(acc', sig[j].name, false) {
                GetSuffix(acc, [(p.name, v)], sig[j].name, false);
              }
              if kwParam.Some? {
                GetSuffix(acc, [(p.name, v)], sig[kwParam.value].name, false);
              }
              BindKeywordsKeeps(sig, i + 1, Remove(kwargs, p.name, false), acc', kwParam);
              if r.Ok? {
                var b := r.value;
                assert b[..|acc|] == acc by {
                  assert b[..|acc'|] == acc';
                  assert b[..|acc|] == b[..|acc'|][..|acc|];
                }
              }
            }
        }
      }
    }
  }

  /** The keyword phase keeps what is bound, binds each named parameter from
      `i` on to its keyword argument, and keeps the arguments distinct. */
  lemma {:induction false} BindKeywordsShape(sig: Signature, i: nat, kwargs: Entries<Value>, acc: Entries<Value>,
                                             kwParam: Option<nat>)
    requires i <= |sig| && UniqueNames(sig) && Distinct(kwargs, false) && Distinct(acc, false)
    requires kwParam.Some? ==> kwParam.value < i && !Has(acc, sig[kwParam.value].name, false)
    requires forall j :: i <= j < |sig| ==> !Has(acc, sig[j].name, false)
    ensures var r := BindKeywords(sig, i, kwargs, acc, kwParam);
            r.Ok? ==>
              && Distinct(r.value, false) && |acc| <= |r.value| && r.value[..|acc|] == acc
              && forall t :: i <= t < |sig| && (sig[t].kind == PositionalOrKeyword || sig[t].kind == KeywordOnly) &&
                             Has(kwargs, sig[t].name, false) ==>
                             Get(r.value, sig[t].name, false) == Get(kwargs, sig[t].name, false)
    decreases |sig| - i
  {
    BindKeywordsKeeps(sig, i, kwargs, acc, kwParam);
    if i < |sig| {
      var p := sig[i];
      if p.kind == VarKeyword {
        BindKeywordsShape(sig, i + 1, kwargs, acc, Some(i));
      } else if p.kind == VarPositional {
        BindKeywordsShape(sig, i + 1, kwargs, acc, kwParam);
      } else {
        match Get(kwargs, p.name, false) {
          case None =>
            BindKeywordsShape(sig, i + 1, kwargs, acc, kwParam);
          case Some(v) =>
            if p.kind != PositionalOnly {
              BindKeywordsPopped(sig, i, kwargs, acc, kwParam, v);
            }
        }
      }
    }
  }

  /** The step of `BindKeywordsShape` where parameter `i` takes its keyword argument `v`. */
  lemma {:induction false} BindKeywordsPopped(sig: Signature, i: nat, kwargs: Entries<Value>, acc: Entries<Value>,
                                              kwParam: Option<nat>, v: Value)
    requires i < |sig| && UniqueNames(sig) && Distinct(kwargs, false) && Distinct(acc, false)
    requires kwParam.Some? ==> kwParam.value < i && !Has(acc, sig[kwParam.value].name, false)
    requires forall j :: i <= j < |sig| ==> !Has(acc, sig[j].name, false)
    requires sig[i].kind == PositionalOrKeyword || sig[i].kind == KeywordOnly
    requires Get(kwargs, sig[i].name, false) == Some(v)
    ensures var r := BindKeywords(sig, i, kwargs, acc, kwParam);
            r.Ok? ==>
              forall t :: i <= t < |sig| && (sig[t].kind == PositionalOrKeyword || sig[t].kind == KeywordOnly) &&
                          Has(kwargs, sig[t].name, false) ==>
                          Get(r.value, sig[t].name, false) == Get(kwargs, sig[t].name, false)
    decreases |sig| - i, 0
  {
    var p := sig[i];
    var r := BindKeywords(sig, i, kwargs, acc, kwParam);
    var kw' := Remove(kwargs, p.name, false);
    var acc' := acc + [(p.name, v)];
    assert r == BindKeywords(sig, i + 1, kw', acc', kwParam);
    GetRemove(kwargs, p.name, p.name);
    DistinctSnoc(acc, (p.name, v), false);
    forall j | i + 1 <= j < |sig| ensures !Has(acc', sig[j].name, false) {
      GetSuffix(acc, [(p.name, v)], sig[j].name, false);
    }
    if kwParam.Some? {
      GetSuffix(acc, [(p.name, v)], sig[kwParam.value].name, false);
    }
    BindKeywordsShape(sig, i + 1, kw', acc', kwParam);
    if r.Ok? {
      var b := r.value;
      forall t | i <= t < |sig| && (sig[t].kind == PositionalOrKeyword || sig[t].kind == KeywordOnly) &&
                 Has(kwargs, sig[t].name, false)
        ensures Get(b, sig[t].name, false) == Get(kwargs, sig[t].name, false)
      {
        if t == i {
          GetSuffix(acc, [(p.name, v)], p.name, false);
          assert b == acc' + b[|acc'|..];
          GetPrefix(acc', b[|acc'|..], p.name, false);
        } else {
          GetRemove(kwargs, p.name, sig[t].name);
        }
      }
    }
  }

  /** What the positional phase of `bind_partial` leaves for the keyword
      phase: distinct arguments, none under a parameter the keyword phase
      visits; each argument before any `*args` on its parameter; and no
      parameter bound by position that accepts the keyword it is given. */
  lemma PositionalPhase(sig: Signature, args: seq<Value>, kwargs: Entries<Value>)
    requires UniqueNames(sig)
    requires BindPositional(sig, args, kwargs, 0, []).Ok?
    ensures var b0 := BindPositional(sig, args, kwargs, 0, []).value.0;
            var s := BindPositional(sig, args, kwargs, 0, []).value.1;
            && Distinct(b0, false)
            && (forall j :: s <= j < |sig| ==> !Has(b0, sig[j].name, false))
            && (forall t :: 0 <= t < |args| && t < |sig| && sig[t].kind != VarPositional &&
                            (forall u :: 0 <= u < t ==> sig[u].kind != VarPositional) ==>
                            Get(b0, sig[t].name, false) == Some(args[t]))
            && (forall t :: (0 <= t < |sig| && (sig[t].kind == PositionalOrKeyword || sig[t].kind == KeywordOnly) &&
                             Has(kwargs, sig[t].name, false)) ==> s <= t)
  {
    BindPositionalValues(sig, args, kwargs, 0, []);
    BindPositionalKinds(sig, args, kwargs, 0, []);
    var pos := BindPositional(sig, args, kwargs, 0, []).value;
    var b0: Entries<Value>, s: nat := pos.0, pos.1;
    assert Distinct(b0, false);
    forall j | s <= j < |sig| ensures !Has(b0, sig[j].name, false) {
      forall t | 0 <= t < |b0| ensures b0[t].0 != sig[j].name {
        assert b0[t].0 == sig[t].name;
      }
    }
    forall t | 0 <= t < |args| && t < |sig| && sig[t].kind != VarPositional &&
               (forall u :: 0 <= u < t ==> sig[u].kind != VarPositional)
      ensures Get(b0, sig[t].name, false) == Some(args[t])
    {
      assert t < s by {
        if !(s == |args| && forall u :: 0 <= u < s ==> sig[u].kind != VarPositional) {
          assert sig[s - 1].kind == VarPositional;
        }
      }
      assert b0[t] == (sig[t].name, args[t]);
      FindIs(b0, sig[t].name, false, Some(t));
    }
  }

  /** What `bind_partial` binds: the arguments are distinct; each argument
      before any `*args` lands on its parameter by position; each keyword
      argument naming a parameter that accepts keywords lands on it. */
  lemma BindPartialBinds(sig: Signature, args: seq<Value>, kwargs: Entries<Value>)
    requires UniqueNames(sig) && Distinct(kwargs, false)
    requires BindPartial(sig, args, kwargs).Ok?
    ensures var b := BindPartial(sig, args, kwargs).value;
            && Distinct(b, false)
            && (forall t :: 0 <= t < |args| && t < |sig| && sig[t].kind != VarPositional &&
                            (forall u :: 0 <= u < t ==> sig[u].kind != VarPositional) ==>
                            Get(b, sig[t].name, false) == Some(args[t]))
            && (forall t :: 0 <= t < |sig| && (sig[t].kind == PositionalOrKeyword || sig[t].kind == KeywordOnly) &&
                            Has(kwargs, sig[t].name, false) ==>
                            Get(b, sig[t].name, false) == Get(kwargs, sig[t].name, false))
  {
    PositionalPhase(sig, args, kwargs);
    var pos := BindPositional(sig, args, kwargs, 0, []).value;
    var b0: Entries<Value>, s: nat := pos.0, pos.1;
    BindKeywordsShape(sig, s, kwargs, b0, None);
    var b := BindPartial(sig, args, kwargs).value;
    assert b == b0 + b[|b0|..];
    forall t | 0 <= t < |args| && t < |sig| && sig[t].kind != VarPositional &&
               (forall u :: 0 <= u < t ==> sig[u].kind != VarPositional)
      ensures Get(b, sig[t].name, false) == Some(args[t])
    {
      GetPrefix(b0, b[|b0|..], sig[t].name, false);
    }
  }

  lemma {:induction false} TooManyPositionalFrom(sig: Signature, args: seq<Value>, kwargs: Entries<Value>, i: nat,
                                                 acc: Entries<Value>)
    requires i <= |sig| && |args| > |sig| && forall t :: i <= t < |sig| ==> sig[t].kind != VarPositional
    ensures BindPositional(sig, args, kwargs, i, acc).Err?
    ensures kwargs == [] ==> BindPositional(sig, args, kwargs, i, acc) == Err(TooManyPositional)
    decreases |sig| - i
  {
    if i < |sig| && IsPositional(sig[i].kind) {
      TooManyPositionalFrom(sig, args, kwargs, i + 1, acc + [(sig[i].name, args[i])]);
    }
  }

  /** More positional arguments than parameters, with no `*args`, raise:
      too many positional arguments, or sooner a parameter given twice. */
  lemma TooManyPositionalRaises(sig: Signature, args: seq<Value>, kwargs: Entries<Value>)
    requires |args| > |sig| && forall t :: 0 <= t < |sig| ==> sig[t].kind != VarPositional
    ensures BindPartial(sig, args, kwargs).Err?
    ensures kwargs == [] ==> BindPartial(sig, args, kwargs) == Err(TooManyPositional)
  {
    TooManyPositionalFrom(sig, args, kwargs, 0, []);
  }

  /** A keyword argument that names no parameter raises unless there is a
      `**kwargs` parameter. */
  lemma {:induction false} UnknownKeywordRaises(sig: Signature, i: nat, kwargs: Entries<Value>, acc: Entries<Value>,
                                                kwParam: Option<nat>, n: string)
    requires i <= |sig| && kwParam.None? && Has(kwargs, n, false)
    requires forall t :: 0 <= t < |sig| ==> sig[t].name != n && sig[t].kind != VarKeyword
    requires Distinct(kwargs, false)
    ensures BindKeywords(sig, i, kwargs, acc, kwParam).Err?
    decreases |sig| - i
  {
    if i < |sig| {
      var p := sig[i];
      if p.kind != VarPositional && Get(kwargs, p.name, false).Some? && p.kind != PositionalOnly {
        GetRemove(kwargs, p.name, n);
        UnknownKeywordRaises(sig, i + 1, Remove(kwargs, p.name, false), acc + [(p.name, Get(kwargs, p.name, false).value)], kwParam, n);
      } else if p.kind == VarPositional || Get(kwargs, p.name, false).None? {
        UnknownKeywordRaises(sig, i + 1, kwargs, acc, kwParam, n);
      }
    }
  }

  /** So `bind_partial` with an unknown keyword and no `**kwargs` raises. */
  lemma UnknownKeywordFails(sig: Signature, args: seq<Value>, kwargs: Entries<Value>, n: string)
    requires Has(kwargs, n, false) && Distinct(kwargs, false)
    requires forall t :: 0 <= t < |sig| ==> sig[t].name != n && sig[t].kind != VarKeyword
    ensures BindPartial(sig, args, kwargs).Err?
  {
    var pos := BindPositional(sig, args, kwargs, 0, []);
    if pos.Ok? {
      UnknownKeywordRaises(sig, pos.value.1, kwargs, pos.value.0, None, n);
    }
  }

  // ---------------------------------------------------------------------
  // Properties of apply_defaults

  /** `apply_defaults` keeps every bound parameter's value, gives each
      unbound parameter its declared default (an empty `*args` or
      `**kwargs` for those), leaves out nothing else, and keeps the
      arguments distinct. */
  lemma {:induction false} ApplyDefaultsGet(sig: Signature, bound: Entries<Value>, n: string)
    requires UniqueNames(sig)
    ensures Distinct(ApplyDefaults(sig, bound), false)
    ensures forall t :: 0 <= t < |sig| && sig[t].name == n ==>
                        Get(ApplyDefaults(sig, bound), n, false) == Defaulted(sig[t], bound)
    ensures (forall t :: 0 <= t < |sig| ==> sig[t].name != n) ==> !Has(ApplyDefaults(sig, bound), n, false)
  {
    if sig != [] {
      var rest := ApplyDefaults(sig[1..], bound);
      assert UniqueNames(sig[1..]) by {
        forall i, j | 0 <= i < j < |sig[1..]| ensures sig[1..][i].name != sig[1..][j].name {
          assert sig[1..][i] == sig[i + 1] && sig[1..][j] == sig[j + 1];
        }
      }
      ApplyDefaultsGet(sig[1..], bound, n);
      ApplyDefaultsGet(sig[1..], bound, sig[0].name);
      assert forall t :: 1 <= t < |sig| ==> sig[1..][t - 1] == sig[t];
      match Defaulted(sig[0], bound) {
        case Some(v) =>
          DistinctCons((sig[0].name, v), rest, false);
          GetCons((sig[0].name, v), rest, n, false);
        case None =>
      }
    }
  }

  /** In particular every parameter with a declared default is bound after
      `apply_defaults`, and an argument bound before keeps its value. */
  lemma DefaultsBound(sig: Signature, bound: Entries<Value>, t: nat)
    requires UniqueNames(sig) && t < |sig|
    ensures sig[t].default.Some? || Variadic(sig[t].kind) || Has(bound, sig[t].name, false) ==>
            Has(ApplyDefaults(sig, bound), sig[t].name, false)
    ensures Has(bound, sig[t].name, false) ==>
            Get(ApplyDefaults(sig, bound), sig[t].name, false) == Get(bound, sig[t].name, false)
    ensures !Has(bound, sig[t].name, false) && sig[t].default.Some? ==>
            Get(ApplyDefaults(sig, bound), sig[t].name, false) == sig[t].default
  {
    ApplyDefaultsGet(sig, bound, sig[t].name);
  }
}

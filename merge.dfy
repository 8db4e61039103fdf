/** The deep merge the input store is built with: lists are appended, dicts
    merged key by key, sets united, and any other clash (two scalars, or two
    values of different kinds) is won by the incoming value. */
module DeepMerge {
  import opened Wrappers
  import opened Values
  import opened Dicts

  /** The merge of one incoming value into the value already present. */
  function MergeValue(base: Value, inc: Value): (r: Value)
    ensures r.List? == inc.List? && r.Dict? == inc.Dict? && r.Set? == inc.Set?
    ensures !inc.List? && !inc.Dict? && !inc.Set? ==> r == inc
    decreases inc, 1
  {
    if base.List? && inc.List? then List(base.items + inc.items)
    else if base.Dict? && inc.Dict? then Dict(MergeEntries(base.entries, inc, |inc.entries|, false))
    else if base.Set? && inc.Set? then Set(base.members + inc.members)
    else inc
  }

  /** The first `n` incoming entries of the dict `inc` merged, in order, into `base`. */
  function MergeEntries(base: Entries<Value>, inc: Value, n: nat, ci: bool): Entries<Value>
    requires inc.Dict? && n <= |inc.entries|
    decreases inc, 0, n
  {
    if n == 0 then base
    else
      var e := inc.entries[n - 1];
      Upsert(MergeEntries(base, inc, n - 1, ci), e.0, e.1, ci)
  }

  /** One incoming entry merged into a dict: into the entry already under
      that key, or appended. */
  function Upsert(d: Entries<Value>, k: string, v: Value, ci: bool): Entries<Value>
    decreases v, 2
  {
    match Find(d, k, ci)
    case Some(i) => d[i := (k, MergeValue(d[i].1, v))]
    case None => d + [(k, v)]
  }

  /** The merge of the dict `inc` into the dict `base`. */
  function MergeDicts(base: Entries<Value>, inc: Entries<Value>, ci: bool): Entries<Value> {
    MergeEntries(base, Dict(inc), |inc|, ci)
  }

  /** What a key maps to after a merge, given what it maps to on each side. */
  function Combine(b: Option<Value>, i: Option<Value>): Option<Value> {
    match (b, i)
    case (Some(x), Some(y)) => Some(MergeValue(x, y))
    case (None, Some(y)) => Some(y)
    case (_, None) => b
  }

  lemma GetUpsert(d: Entries<Value>, k: string, v: Value, k2: string, ci: bool)
    ensures Get(Upsert(d, k, v, ci), k2, ci) ==
            if SameKey(ci, k, k2) then Combine(Get(d, k2, ci), Some(v)) else Get(d, k2, ci)
  {
    match Find(d, k, ci) {
      case Some(i) =>
        assert Upsert(d, k, v, ci) == Put(d, k, MergeValue(d[i].1, v), ci);
        GetPut(d, k, MergeValue(d[i].1, v), k2, ci);
      case None =>
        assert Upsert(d, k, v, ci) == Put(d, k, v, ci);
        GetPut(d, k, v, k2, ci);
    }
  }

  lemma UpsertDistinct(d: Entries<Value>, k: string, v: Value, ci: bool)
    requires Distinct(d, ci)
    ensures Distinct(Upsert(d, k, v, ci), ci)
  {
    match Find(d, k, ci) {
      case Some(i) =>
        PutDistinct(d, k, MergeValue(d[i].1, v), ci);
        assert Upsert(d, k, v, ci) == Put(d, k, MergeValue(d[i].1, v), ci);
      case None =>
        PutDistinct(d, k, v, ci);
        assert Upsert(d, k, v, ci) == Put(d, k, v, ci);
    }
  }

  /** Merging a prefix of the incoming dict: the lookup combines the base with
      that prefix. */
  lemma {:induction false} GetMergeEntries(base: Entries<Value>, inc: Value, n: nat, k: string, ci: bool)
    requires inc.Dict? && n <= |inc.entries| && Distinct(inc.entries, ci)
    ensures Get(MergeEntries(base, inc, n, ci), k, ci) == Combine(Get(base, k, ci), Get(inc.entries[..n], k, ci))
  {
    var pre := inc.entries[..n];
    if n == 0 {
      assert Get(pre, k, ci) == None;
    } else {
      var e := inc.entries[n - 1];
      var pre' := inc.entries[..n - 1];
      GetMergeEntries(base, inc, n - 1, k, ci);
      GetUpsert(MergeEntries(base, inc, n - 1, ci), e.0, e.1, k, ci);
      assert pre == pre' + [e];
      FindAppend(pre', e, k, ci);
      if SameKey(ci, e.0, k) {
        assert Find(pre', k, ci) == None by {
          forall j | 0 <= j < n - 1 ensures !SameKey(ci, pre'[j].0, k) {
            assert pre'[j] == inc.entries[j];
            assert !SameKey(ci, inc.entries[j].0, inc.entries[n - 1].0);
          }
        }
      }
    }
  }

  /** The key-level meaning of a merge: a key on one side only keeps its value,
      a key on both sides maps to the merge of the two values, and no other key
      appears. */
  lemma GetMergeDicts(base: Entries<Value>, inc: Entries<Value>, k: string, ci: bool)
    requires Distinct(inc, ci)
    ensures Get(MergeDicts(base, inc, ci), k, ci) == Combine(Get(base, k, ci), Get(inc, k, ci))
    ensures Has(MergeDicts(base, inc, ci), k, ci) <==> Has(base, k, ci) || Has(inc, k, ci)
  {
    GetMergeEntries(base, Dict(inc), |inc|, k, ci);
    assert inc[..|inc|] == inc;
  }

  lemma {:induction false} MergeEntriesDistinct(base: Entries<Value>, inc: Value, n: nat, ci: bool)
    requires inc.Dict? && n <= |inc.entries| && Distinct(base, ci)
    ensures Distinct(MergeEntries(base, inc, n, ci), ci)
  {
    if n > 0 {
      var e := inc.entries[n - 1];
      MergeEntriesDistinct(base, inc, n - 1, ci);
      UpsertDistinct(MergeEntries(base, inc, n - 1, ci), e.0, e.1, ci);
    }
  }

  /** A merge of two dicts is again a dict: no key appears twice. */
  lemma MergeDictsDistinct(base: Entries<Value>, inc: Entries<Value>, ci: bool)
    requires Distinct(base, ci)
    ensures Distinct(MergeDicts(base, inc, ci), ci)
  {
    MergeEntriesDistinct(base, Dict(inc), |inc|, ci);
  }

  /** For conflicting keys the incoming side wins whenever its value is not a
      container of the same kind as the value it meets. */
  lemma IncomingScalarWins(base: Entries<Value>, inc: Entries<Value>, k: string, ci: bool)
    requires Distinct(inc, ci)
    requires Get(inc, k, ci).Some?
    requires var b := Get(base, k, ci); var i := Get(inc, k, ci).value;
             b.None? || !((b.value.List? && i.List?) || (b.value.Dict? && i.Dict?) || (b.value.Set? && i.Set?))
    ensures Get(MergeDicts(base, inc, ci), k, ci) == Get(inc, k, ci)
  {
    GetMergeDicts(base, inc, k, ci);
  }

  /** Nested dicts merge recursively: inside a merged dict value every inner
      key obeys the same rule again. */
  lemma NestedDictsMerge(b: Value, i: Value, k: string)
    requires b.Dict? && i.Dict? && Distinct(i.entries, false)
    ensures MergeValue(b, i).Dict?
    ensures Get(MergeValue(b, i).entries, k, false) == Combine(Get(b.entries, k, false), Get(i.entries, k, false))
  {
    GetMergeDicts(b.entries, i.entries, k, false);
  }

  /** Merging nothing changes nothing. */
  lemma MergeEmptyIdentity(base: Entries<Value>, ci: bool)
    ensures MergeDicts(base, [], ci) == base
  {
  }

  /** For dicts with pairwise disjoint keys the deep merge is associative,
      key for key. */
  lemma MergeAssociativeOnDisjointKeys(a: Entries<Value>, b: Entries<Value>, c: Entries<Value>, k: string, ci: bool)
    requires Distinct(a, ci) && Distinct(b, ci) && Distinct(c, ci)
    requires forall x :: !(Has(a, x, ci) && Has(b, x, ci)) && !(Has(b, x, ci) && Has(c, x, ci)) && !(Has(a, x, ci) && Has(c, x, ci))
    ensures Get(MergeDicts(a, MergeDicts(b, c, ci), ci), k, ci) == Get(MergeDicts(MergeDicts(a, b, ci), c, ci), k, ci)
  {
    MergeDictsDistinct(b, c, ci);
    GetMergeDicts(a, MergeDicts(b, c, ci), k, ci);
    GetMergeDicts(b, c, k, ci);
    GetMergeDicts(MergeDicts(a, b, ci), c, k, ci);
    GetMergeDicts(a, b, k, ci);
  }

  /** A merge whose incoming keys all differ from `k` up to case leaves the
      last case-insensitive match of `k` alone. */
  lemma {:induction false} LastMatchMergeEntries(base: Entries<Value>, inc: Value, n: nat, k: string)
    requires inc.Dict? && n <= |inc.entries|
    requires forall j :: 0 <= j < n ==> !SameKey(true, inc.entries[j].0, k)
    ensures LastMatch(MergeEntries(base, inc, n, false), k, true) == LastMatch(base, k, true)
  {
    if n > 0 {
      var e := inc.entries[n - 1];
      var d := MergeEntries(base, inc, n - 1, false);
      LastMatchMergeEntries(base, inc, n - 1, k);
      match Find(d, e.0, false) {
        case Some(i) =>
          LastMatchUpdate(d, i, (e.0, MergeValue(d[i].1, e.1)), k);
        case None =>
          assert (d + [(e.0, e.1)])[..|d|] == d;
      }
    }
  }

  /** A merge of plain dicts adds no entry spelled `k` when neither side has one. */
  lemma {:induction false} MergeEntriesAbsent(base: Entries<Value>, inc: Value, n: nat, k: string)
    requires inc.Dict? && n <= |inc.entries|
    requires !Has(base, k, false)
    requires forall j :: 0 <= j < n ==> inc.entries[j].0 != k
    ensures !Has(MergeEntries(base, inc, n, false), k, false)
  {
    if n > 0 {
      var e := inc.entries[n - 1];
      var d := MergeEntries(base, inc, n - 1, false);
      MergeEntriesAbsent(base, inc, n - 1, k);
      var r := Upsert(d, e.0, e.1, false);
      assert forall j :: 0 <= j < |r| ==> r[j].0 != k by {
        match Find(d, e.0, false) {
          case Some(i) =>
            assert r == d[i := (e.0, MergeValue(d[i].1, e.1))];
          case None =>
            assert r == d + [(e.0, e.1)];
        }
      }
    }
  }

  /** An incoming entry spelled `k`, merged into a plain dict with no entry
      spelled exactly `k` and followed by no other spelling of `k`, is the
      last case-insensitive match of `k`: its value is taken as it is. */
  lemma {:induction false} LastMatchMergeEntriesAdded(base: Entries<Value>, inc: Value, n: nat, j: nat, k: string)
    requires inc.Dict? && j < n <= |inc.entries| && inc.entries[j].0 == k
    requires !Has(base, k, false)
    requires forall i :: 0 <= i < j ==> inc.entries[i].0 != k
    requires forall i :: j < i < n ==> !SameKey(true, inc.entries[i].0, k)
    ensures LastMatch(MergeEntries(base, inc, n, false), k, true) == Some(inc.entries[j].1)
  {
    var e := inc.entries[n - 1];
    var d := MergeEntries(base, inc, n - 1, false);
    if n - 1 == j {
      MergeEntriesAbsent(base, inc, j, k);
      assert Upsert(d, k, e.1, false) == d + [(k, e.1)];
    } else {
      LastMatchMergeEntriesAdded(base, inc, n - 1, j, k);
      match Find(d, e.0, false) {
        case Some(i) =>
          LastMatchUpdate(d, i, (e.0, MergeValue(d[i].1, e.1)), k);
        case None =>
          assert (d + [(e.0, e.1)])[..|d|] == d;
      }
    }
  }

  /** A merge of two plain dicts in which `k` has one spelling keeps it so. */
  lemma {:induction false} MergeEntriesOneSpelling(base: Entries<Value>, inc: Value, n: nat, k: string)
    requires inc.Dict? && n <= |inc.entries|
    requires OneSpelling(base, k) && OneSpelling(inc.entries, k)
    ensures OneSpelling(MergeEntries(base, inc, n, false), k)
  {
    if n > 0 {
      var e := inc.entries[n - 1];
      var d := MergeEntries(base, inc, n - 1, false);
      MergeEntriesOneSpelling(base, inc, n - 1, k);
      var r := Upsert(d, e.0, e.1, false);
      match Find(d, e.0, false) {
        case Some(i) =>
          assert r == d[i := (e.0, MergeValue(d[i].1, e.1))];
        case None =>
          assert r == d + [(e.0, e.1)];
      }
    }
  }
}

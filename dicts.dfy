/** Python dicts as insertion-ordered association lists, looked up either
    exactly (a plain dict) or case-insensitively (a CaseInsensitiveDict). */
module Dicts {
  import opened Wrappers

  /** The entries of a dict, in insertion order. */
  type Entries<V> = seq<(string, V)>

  /** Lower-casing of one character; only ASCII letters are folded. */
  function Lower(c: char): char {
    if 'A' <= c <= 'Z' then (c as int + 32) as char else c
  }

  /** The canonical form a CaseInsensitiveDict stores a key under. */
  function Fold(k: string): string {
    seq(|k|, i requires 0 <= i < |k| => Lower(k[i]))
  }

  /** Whether two keys name the same entry: exactly (`ci` false) or up to case. */
  predicate SameKey(ci: bool, a: string, b: string) {
    if ci then Fold(a) == Fold(b) else a == b
  }

  /** The index of the first entry whose key is the same as `k`. */
  function Find<V>(d: Entries<V>, k: string, ci: bool): (r: Option<nat>)
    ensures r.Some? ==> r.value < |d| && SameKey(ci, d[r.value].0, k)
    ensures r.Some? ==> forall j :: 0 <= j < r.value ==> !SameKey(ci, d[j].0, k)
    ensures r.None? ==> forall j :: 0 <= j < |d| ==> !SameKey(ci, d[j].0, k)
  {
    if d == [] then None
    else if SameKey(ci, d[0].0, k) then Some(0)
    else match Find(d[1..], k, ci)
      case None => None
      case Some(j) => Some(j + 1)
  }

  /** `d.get(k)`: the value stored under `k`, if any. */
  function Get<V>(d: Entries<V>, k: string, ci: bool): Option<V> {
    match Find(d, k, ci)
    case None => None
    case Some(i) => Some(d[i].1)
  }

  /** `k in d`. */
  predicate Has<V>(d: Entries<V>, k: string, ci: bool) {
    Find(d, k, ci).Some?
  }

  /** `d[k] = v`: an existing entry keeps its position and takes the new
      spelling and value; a new key is appended. */
  function Put<V>(d: Entries<V>, k: string, v: V, ci: bool): Entries<V> {
    match Find(d, k, ci)
    case Some(i) => d[i := (k, v)]
    case None => d + [(k, v)]
  }

  /** No two entries name the same key: the invariant of every dict. */
  predicate Distinct<V>(d: Entries<V>, ci: bool) {
    forall i, j :: 0 <= i < j < |d| ==> !SameKey(ci, d[i].0, d[j].0)
  }

  /** `CaseInsensitiveDict(d)`: the entries of `d` written in order into an
      empty case-insensitive dict, so that a later spelling of a key wins. */
  function Collapse<V>(d: Entries<V>): (r: Entries<V>)
    ensures |r| <= |d| && (r == [] <==> d == [])
  {
    if d == [] then []
    else Put(Collapse(d[..|d| - 1]), d[|d| - 1].0, d[|d| - 1].1, true)
  }

  /** The value of the last entry of `d` whose key is the same as `k`.
      An independent reference for what `Collapse` keeps. */
  function LastMatch<V>(d: Entries<V>, k: string, ci: bool): (r: Option<V>)
    ensures r.None? <==> forall i :: 0 <= i < |d| ==> !SameKey(ci, d[i].0, k)
  {
    if d == [] then None
    else if SameKey(ci, d[|d| - 1].0, k) then Some(d[|d| - 1].1)
    else LastMatch(d[..|d| - 1], k, ci)
  }

  /** Lookups in a case-insensitive dict depend only on the folded key. */
  lemma {:induction false} FindFolded<V>(d: Entries<V>, k1: string, k2: string, ci: bool)
    requires SameKey(ci, k1, k2)
    ensures Find(d, k1, ci) == Find(d, k2, ci)
  {
    if d != [] {
      FindFolded(d[1..], k1, k2, ci);
    }
  }

  lemma GetFolded<V>(d: Entries<V>, k1: string, k2: string, ci: bool)
    requires SameKey(ci, k1, k2)
    ensures Get(d, k1, ci) == Get(d, k2, ci)
    ensures Has(d, k1, ci) == Has(d, k2, ci)
  {
    FindFolded(d, k1, k2, ci);
  }

  /** `Find` is the first matching index: any index that is one is it. */
  lemma FindIs<V>(d: Entries<V>, k: string, ci: bool, m: Option<nat>)
    requires m.Some? ==> m.value < |d| && SameKey(ci, d[m.value].0, k)
    requires m.Some? ==> forall j :: 0 <= j < m.value ==> !SameKey(ci, d[j].0, k)
    requires m.None? ==> forall j :: 0 <= j < |d| ==> !SameKey(ci, d[j].0, k)
    ensures Find(d, k, ci) == m
  {
  }

  /** Writing `k` changes the lookup of `k` and of nothing else. */
  lemma GetPut<V>(d: Entries<V>, k: string, v: V, k2: string, ci: bool)
    ensures Get(Put(d, k, v, ci), k2, ci) == if SameKey(ci, k, k2) then Some(v) else Get(d, k2, ci)
  {
    if SameKey(ci, k, k2) {
      GetPutSame(d, k, v, k2, ci);
    } else {
      GetPutOther(d, k, v, k2, ci);
    }
  }

  lemma GetPutSame<V>(d: Entries<V>, k: string, v: V, k2: string, ci: bool)
    requires SameKey(ci, k, k2)
    ensures Get(Put(d, k, v, ci), k2, ci) == Some(v)
  {
    var r := Put(d, k, v, ci);
    FindFolded(r, k, k2, ci);
    match Find(d, k, ci) {
      case Some(i) =>
        assert r == d[i := (k, v)];
        FindIs(r, k, ci, Some(i));
      case None =>
        assert r == d + [(k, v)];
        FindIs(r, k, ci, Some(|d|));
    }
  }

  lemma GetPutOther<V>(d: Entries<V>, k: string, v: V, k2: string, ci: bool)
    requires !SameKey(ci, k, k2)
    ensures Get(Put(d, k, v, ci), k2, ci) == Get(d, k2, ci)
  {
    var r := Put(d, k, v, ci);
    match Find(d, k, ci) {
      case Some(i) =>
        assert r == d[i := (k, v)];
        assert !SameKey(ci, d[i].0, k2);
        FindIs(r, k2, ci, Find(d, k2, ci));
      case None =>
        assert r == d + [(k, v)];
        FindIs(r, k2, ci, Find(d, k2, ci));
    }
  }

  /** Looking up in a dict extended by one entry. */
  lemma {:induction false} FindAppend<V>(d: Entries<V>, e: (string, V), k: string, ci: bool)
    ensures Find(d + [e], k, ci) ==
            if Find(d, k, ci).Some? then Find(d, k, ci)
            else if SameKey(ci, e.0, k) then Some(|d|) else None
  {
    if d != [] {
      assert (d + [e])[1..] == d[1..] + [e];
      FindAppend(d[1..], e, k, ci);
    }
  }

  /** Looking up in a dict whose first entry is `e`. */
  lemma GetCons<V>(e: (string, V), d: Entries<V>, k: string, ci: bool)
    ensures Get([e] + d, k, ci) == if SameKey(ci, e.0, k) then Some(e.1) else Get(d, k, ci)
  {
    assert ([e] + d)[1..] == d;
  }

  /** A dict with a first entry `e` is well formed exactly when the rest is
      and does not hold the key of `e`. */
  lemma DistinctCons<V>(e: (string, V), d: Entries<V>, ci: bool)
    ensures Distinct([e] + d, ci) <==> Distinct(d, ci) && !Has(d, e.0, ci)
  {
    var r := [e] + d;
    assert forall j :: 0 <= j < |d| ==> r[j + 1] == d[j];
    if Distinct(r, ci) {
      forall a, b | 0 <= a < b < |d| ensures !SameKey(ci, d[a].0, d[b].0) {
        assert r[a + 1] == d[a] && r[b + 1] == d[b];
      }
      assert !Has(d, e.0, ci) by {
        forall j | 0 <= j < |d| ensures !SameKey(ci, d[j].0, e.0) {
          assert r[0] == e && r[j + 1] == d[j];
        }
      }
    }
    if Distinct(d, ci) && !Has(d, e.0, ci) {
      forall a, b | 0 <= a < b < |r| ensures !SameKey(ci, r[a].0, r[b].0) {
        if a == 0 {
          assert r[b] == d[b - 1];
          assert !SameKey(ci, d[b - 1].0, e.0);
        } else {
          assert r[a] == d[a - 1] && r[b] == d[b - 1];
        }
      }
    }
  }

  lemma PutDistinct<V>(d: Entries<V>, k: string, v: V, ci: bool)
    requires Distinct(d, ci)
    ensures Distinct(Put(d, k, v, ci), ci)
    ensures Has(Put(d, k, v, ci), k, ci)
  {
    var r := Put(d, k, v, ci);
    match Find(d, k, ci) {
      case Some(i) =>
        forall a, b | 0 <= a < b < |r| ensures !SameKey(ci, r[a].0, r[b].0) {
          assert a != i ==> r[a] == d[a];
          assert b != i ==> r[b] == d[b];
        }
      case None =>
        forall a, b | 0 <= a < b < |r| ensures !SameKey(ci, r[a].0, r[b].0) {
          assert r[a] == d[a];
          assert b < |d| ==> r[b] == d[b];
        }
    }
    GetPut(d, k, v, k, ci);
  }

  /** The store built from a dict holds, for every key, the value of the last
      entry spelled like it in any case. */
  lemma {:induction false} CollapseGet<V>(d: Entries<V>, k: string)
    ensures Get(Collapse(d), k, true) == LastMatch(d, k, true)
  {
    if d != [] {
      var init := d[..|d| - 1];
      CollapseGet(init, k);
      GetPut(Collapse(init), d[|d| - 1].0, d[|d| - 1].1, k, true);
    }
  }

  /** The store built from a dict has one entry per folded key. */
  lemma {:induction false} CollapseDistinct<V>(d: Entries<V>)
    ensures Distinct(Collapse(d), true)
  {
    if d != [] {
      CollapseDistinct(d[..|d| - 1]);
      PutDistinct(Collapse(d[..|d| - 1]), d[|d| - 1].0, d[|d| - 1].1, true);
    }
  }

  /** A dict whose keys already differ in more than case is stored as it is. */
  lemma {:induction false} CollapseIdentity<V>(d: Entries<V>)
    requires Distinct(d, true)
    ensures Collapse(d) == d
  {
    if d != [] {
      var init := d[..|d| - 1];
      assert Distinct(init, true) by {
        forall a, b | 0 <= a < b < |init| ensures !SameKey(true, init[a].0, init[b].0) {
          assert init[a] == d[a] && init[b] == d[b];
        }
      }
      CollapseIdentity(init);
      assert Find(init, d[|d| - 1].0, true).None? by {
        forall j | 0 <= j < |init| ensures !SameKey(true, init[j].0, d[|d| - 1].0) {
          assert init[j] == d[j];
        }
      }
      assert init + [d[|d| - 1]] == d;
    }
  }

  /** Every key of `d` that is `k` up to case is spelled exactly `k`. */
  predicate OneSpelling<V>(d: Entries<V>, k: string) {
    forall i :: 0 <= i < |d| && SameKey(true, d[i].0, k) ==> d[i].0 == k
  }

  /** A dict whose keys differ up to case has keys that differ exactly. */
  lemma DistinctWeaken<V>(d: Entries<V>)
    requires Distinct(d, true)
    ensures Distinct(d, false)
  {
  }

  /** With one spelling of `k`, the case-insensitive lookup is the exact one. */
  lemma {:induction false} FindOneSpelling<V>(d: Entries<V>, k: string)
    requires OneSpelling(d, k)
    ensures Find(d, k, true) == Find(d, k, false)
  {
    if d != [] {
      assert OneSpelling(d[1..], k) by {
        forall i | 0 <= i < |d[1..]| && SameKey(true, d[1..][i].0, k) ensures d[1..][i].0 == k {
          assert d[1..][i] == d[i + 1];
        }
      }
      FindOneSpelling(d[1..], k);
    }
  }

  /** Replacing an entry that is not `k` up to case by another such entry
      leaves the last match of `k` alone. */
  lemma {:induction false} LastMatchUpdate<V>(d: Entries<V>, i: nat, x: (string, V), k: string)
    requires i < |d| && !SameKey(true, d[i].0, k) && !SameKey(true, x.0, k)
    ensures LastMatch(d[i := x], k, true) == LastMatch(d, k, true)
  {
    var r := d[i := x];
    if i < |d| - 1 {
      assert r[..|r| - 1] == d[..|d| - 1][i := x];
      LastMatchUpdate(d[..|d| - 1], i, x, k);
    } else {
      assert r[..|r| - 1] == d[..|d| - 1];
    }
  }

  /** When `k` is the only spelling of its folded key in a plain dict, the
      last case-insensitive match is the exact lookup. */
  lemma {:induction false} LastMatchUnique<V>(d: Entries<V>, k: string)
    requires Distinct(d, false)
    requires OneSpelling(d, k)
    ensures LastMatch(d, k, true) == Get(d, k, false)
  {
    if d != [] {
      var init := d[..|d| - 1];
      var last := d[|d| - 1];
      assert forall i :: 0 <= i < |init| ==> init[i] == d[i];
      assert Distinct(init, false);
      LastMatchUnique(init, k);
      if SameKey(true, last.0, k) {
        assert last.0 == k;
        assert Find(d, k, false) == Some(|d| - 1) by {
          forall j | 0 <= j < |d| - 1 ensures !SameKey(false, d[j].0, k) {
            assert !SameKey(false, d[j].0, d[|d| - 1].0);
          }
        }
      } else {
        assert last.0 != k;
        match Find(init, k, false) {
          case Some(m) => assert Find(d, k, false) == Some(m);
          case None => assert Find(d, k, false) == None;
        }
      }
    }
  }

  /** Where no key clashes with another and `k` has a single spelling, the
      case-insensitive dict answers a lookup of `k` as the plain dict does. */
  lemma CollapseGetUnique<V>(d: Entries<V>, k: string)
    requires Distinct(d, false) && OneSpelling(d, k)
    ensures Get(Collapse(d), k, true) == Get(d, k, false)
  {
    CollapseGet(d, k);
    LastMatchUnique(d, k);
  }

  /** `d.pop(k)` for its effect on `d`: the first entry under `k` goes. */
  function Remove<V>(d: Entries<V>, k: string, ci: bool): (r: Entries<V>)
    ensures |r| <= |d|
  {
    if d == [] then []
    else if SameKey(ci, d[0].0, k) then d[1..]
    else [d[0]] + Remove(d[1..], k, ci)
  }

  /** Popping `k` from a dict removes `k` and changes nothing else. */
  lemma {:induction false} GetRemove<V>(d: Entries<V>, k: string, k2: string)
    requires Distinct(d, false)
    ensures Get(Remove(d, k, false), k2, false) == if k == k2 then None else Get(d, k2, false)
    ensures Distinct(Remove(d, k, false), false)
  {
    if d != [] {
      DistinctCons(d[0], d[1..], false);
      assert [d[0]] + d[1..] == d;
      GetCons(d[0], d[1..], k2, false);
      if d[0].0 == k {
        if k == k2 {
          assert !Has(d[1..], k2, false);
        }
      } else {
        GetRemove(d[1..], k, k2);
        GetRemove(d[1..], k, d[0].0);
        GetCons(d[0], Remove(d[1..], k, false), k2, false);
        DistinctCons(d[0], Remove(d[1..], k, false), false);
      }
    }
  }

  /** A lookup that succeeds in `d` is not disturbed by what follows `d`. */
  lemma {:induction false} GetPrefix<V>(d: Entries<V>, e: Entries<V>, k: string, ci: bool)
    requires Has(d, k, ci)
    ensures Get(d + e, k, ci) == Get(d, k, ci)
  {
    if !SameKey(ci, d[0].0, k) {
      assert (d + e)[1..] == d[1..] + e;
      GetPrefix(d[1..], e, k, ci);
    }
  }

  /** A lookup that fails in `d` continues in what follows. */
  lemma {:induction false} GetSuffix<V>(d: Entries<V>, e: Entries<V>, k: string, ci: bool)
    requires !Has(d, k, ci)
    ensures Get(d + e, k, ci) == Get(e, k, ci)
  {
    if d == [] {
      assert d + e == e;
    } else {
      assert (d + e)[1..] == d[1..] + e;
      GetSuffix(d[1..], e, k, ci);
    }
  }

  /** A dict extended by one entry is well formed exactly when the entry's
      key is new. */
  lemma DistinctSnoc<V>(d: Entries<V>, e: (string, V), ci: bool)
    ensures Distinct(d + [e], ci) <==> Distinct(d, ci) && !Has(d, e.0, ci)
  {
    var r := d + [e];
    assert forall j :: 0 <= j < |d| ==> r[j] == d[j];
    if Distinct(r, ci) {
      assert !Has(d, e.0, ci) by {
        forall j | 0 <= j < |d| ensures !SameKey(ci, d[j].0, e.0) {
          assert r[|d|] == e;
        }
      }
    }
  }

  /** In a dict each entry is found under its own key. */
  lemma FindDistinct<V>(d: Entries<V>, i: nat, ci: bool)
    requires Distinct(d, ci) && i < |d|
    ensures Find(d, d[i].0, ci) == Some(i)
  {
  }

  /** Lookups only look at keys: two dicts with the same keys in the same
      order find every key at the same place. */
  lemma {:induction false} FindSameKeys<V, W>(a: Entries<V>, b: Entries<W>, k: string, ci: bool)
    requires |a| == |b| && forall i :: 0 <= i < |a| ==> a[i].0 == b[i].0
    ensures Find(a, k, ci) == Find(b, k, ci)
  {
    if a != [] {
      FindSameKeys(a[1..], b[1..], k, ci);
    }
  }
}

/** Python dictionaries: an association list in insertion order. Assigning to an
    existing key keeps its place; assigning to a new key appends it. */
module Dicts {
  import opened Wrappers

  type Dict<K, V> = seq<(K, V)>

  function Keys<K, V>(d: Dict<K, V>): (ks: seq<K>)
    ensures |ks| == |d|
    ensures forall i :: 0 <= i < |d| ==> ks[i] == d[i].0
  {
    if d == [] then [] else [d[0].0] + Keys(d[1..])
  }

  function Values<K, V>(d: Dict<K, V>): (vs: seq<V>)
    ensures |vs| == |d|
    ensures forall i :: 0 <= i < |d| ==> vs[i] == d[i].1
  {
    if d == [] then [] else [d[0].1] + Values(d[1..])
  }

  /** `{k: v for k, v in d.items() if v is not None}`. */
  function Present<K, V>(d: Dict<K, Option<V>>): (r: Dict<K, V>)
    ensures forall i :: 0 <= i < |r| ==> (r[i].0, Some(r[i].1)) in d
    ensures forall i :: 0 <= i < |d| && d[i].1.Some? ==> (d[i].0, d[i].1.value) in r
    ensures |r| <= |d|
  {
    if d == [] then []
    else if d[0].1.Some? then [(d[0].0, d[0].1.value)] + Present(d[1..])
    else Present(d[1..])
  }

  /** `d.get(k)`: the value of the first entry under `k`. */
  function Get<K(==), V>(d: Dict<K, V>, k: K): Option<V>
  {
    if d == [] then None
    else if d[0].0 == k then Some(d[0].1)
    else Get(d[1..], k)
  }

  /** A key is found exactly when the dictionary has it, and then with a value it
      holds under that key. */
  lemma {:induction false} GetKeys<K, V>(d: Dict<K, V>, k: K)
    ensures Get(d, k).None? <==> k !in Keys(d)
    ensures Get(d, k).Some? ==> (k, Get(d, k).value) in d
  {
    if d != [] {
      GetKeys(d[1..], k);
      assert Keys(d) == [d[0].0] + Keys(d[1..]);
      if d[0].0 != k && Get(d, k).Some? {
        assert (k, Get(d, k).value) in d[1..];
      }
    }
  }

  /** `d[k] = v`. */
  function Set<K(==), V>(d: Dict<K, V>, k: K, v: V): Dict<K, V>
  {
    if d == [] then [(k, v)]
    else if d[0].0 == k then [(k, v)] + d[1..]
    else [d[0]] + Set(d[1..], k, v)
  }

  /** Assignment keeps the keys in place and appends a key the dictionary lacks. */
  lemma {:induction false} SetKeys<K, V>(d: Dict<K, V>, k: K, v: V)
    ensures Keys(Set(d, k, v)) == if k in Keys(d) then Keys(d) else Keys(d) + [k]
  {
    if d != [] && d[0].0 != k {
      SetKeys(d[1..], k, v);
      assert Keys([d[0]] + Set(d[1..], k, v)) == [d[0].0] + Keys(Set(d[1..], k, v));
      assert Keys(d) == [d[0].0] + Keys(d[1..]);
    }
  }

  /** On distinct keys, each entry's key maps to its value. */
  lemma {:induction false} GetAt<K, V>(d: Dict<K, V>, i: nat)
    requires UniqueKeys(d) && i < |d|
    ensures Get(d, d[i].0) == Some(d[i].1)
  {
    if i > 0 {
      assert UniqueKeys(d[1..]) by {
        forall m, n | 0 <= m < n < |d| - 1 ensures d[1..][m].0 != d[1..][n].0 {
          assert d[1..][m] == d[m + 1] && d[1..][n] == d[n + 1];
        }
      }
      GetAt(d[1..], i - 1);
    }
  }

  /** On distinct keys, the filtered dictionary maps a key to its value exactly when
      the value is not `None`. */
  lemma {:induction false} GetPresent<K, V>(d: Dict<K, Option<V>>, k: K)
    requires UniqueKeys(d)
    ensures Get(Present(d), k) == if Get(d, k).Some? then Get(d, k).value else None
  {
    if d != [] {
      assert UniqueKeys(d[1..]) by {
        forall i, j | 0 <= i < j < |d| - 1 ensures d[1..][i].0 != d[1..][j].0 {
          assert d[1..][i] == d[i + 1] && d[1..][j] == d[j + 1];
        }
      }
      GetPresent(d[1..], k);
      if d[0].0 == k {
        forall i | 0 <= i < |d| - 1 ensures Keys(d[1..])[i] != k {
          assert d[1..][i] == d[i + 1];
        }
        GetKeys(d[1..], k);
      }
    }
  }

  /** After `d[k] = v`, `k` maps to `v` and every other key to what it mapped to. */
  lemma {:induction false} GetSet<K, V>(d: Dict<K, V>, k: K, v: V, k': K)
    ensures Get(Set(d, k, v), k') == if k' == k then Some(v) else Get(d, k')
  {
    if d != [] && d[0].0 != k {
      GetSet(d[1..], k, v, k');
    }
  }

  predicate UniqueKeys<K(==), V>(d: Dict<K, V>)
  {
    forall i, j :: 0 <= i < j < |d| ==> d[i].0 != d[j].0
  }

  /** Assignment keeps the keys distinct. */
  lemma SetUnique<K, V>(d: Dict<K, V>, k: K, v: V)
    requires UniqueKeys(d)
    ensures UniqueKeys(Set(d, k, v))
  {
    var r := Set(d, k, v);
    SetKeys(d, k, v);
    forall i, j | 0 <= i < j < |r| ensures r[i].0 != r[j].0 {
      assert Keys(r)[i] == r[i].0 && Keys(r)[j] == r[j].0;
      if k !in Keys(d) && j == |d| {
        assert Keys(d)[i] == d[i].0;
      } else {
        assert Keys(d)[i] == d[i].0 && Keys(d)[j] == d[j].0;
      }
    }
  }

  /** The dictionary after `d[k] = v` for every entry `(k, v)` of `es` in turn. */
  function SetAll<K(==), V>(d: Dict<K, V>, es: seq<(K, V)>): Dict<K, V>
  {
    if es == [] then d else Set(SetAll(d, es[..|es| - 1]), es[|es| - 1].0, es[|es| - 1].1)
  }

  lemma SetAllSnoc<K, V>(d: Dict<K, V>, es: seq<(K, V)>, n: nat)
    requires n < |es|
    ensures SetAll(d, es[..n + 1]) == Set(SetAll(d, es[..n]), es[n].0, es[n].1)
  {
    assert es[..n + 1][..n] == es[..n];
  }

  /** A key that no entry of `es` sets keeps its value. */
  lemma {:induction false} GetSetAllOther<K, V>(d: Dict<K, V>, es: seq<(K, V)>, key: K)
    requires forall n :: 0 <= n < |es| ==> es[n].0 != key
    ensures Get(SetAll(d, es), key) == Get(d, key)
  {
    if es != [] {
      assert forall n :: 0 <= n < |es| - 1 ==> es[..|es| - 1][n] == es[n];
      GetSetAllOther(d, es[..|es| - 1], key);
      GetSet(SetAll(d, es[..|es| - 1]), es[|es| - 1].0, es[|es| - 1].1, key);
    }
  }

  /** No entry of `es` after entry `n` sets the same key. */
  predicate LastSetting<K(==), V>(es: seq<(K, V)>, n: nat)
  {
    n < |es| && forall m :: n < m < |es| ==> es[m].0 != es[n].0
  }

  lemma LastSettingInit<K, V>(es: seq<(K, V)>, n: nat)
    requires LastSetting(es, n) && n < |es| - 1
    ensures LastSetting(es[..|es| - 1], n)
  {
    var init := es[..|es| - 1];
    forall m | n < m < |init| ensures init[m].0 != init[n].0 {
      assert init[m] == es[m];
    }
  }

  lemma GetSetLast<K, V>(d: Dict<K, V>, es: seq<(K, V)>)
    requires es != []
    ensures Get(SetAll(d, es), es[|es| - 1].0) == Some(es[|es| - 1].1)
  {
    GetSet(SetAll(d, es[..|es| - 1]), es[|es| - 1].0, es[|es| - 1].1, es[|es| - 1].0);
  }

  lemma GetSetEarlier<K, V>(d: Dict<K, V>, es: seq<(K, V)>, k: K)
    requires es != [] && es[|es| - 1].0 != k
    ensures Get(SetAll(d, es), k) == Get(SetAll(d, es[..|es| - 1]), k)
  {
    GetSet(SetAll(d, es[..|es| - 1]), es[|es| - 1].0, es[|es| - 1].1, k);
  }

  /** A key set by entry `n` and by no later entry holds that entry's value. */
  lemma {:induction false} GetSetAllLast<K, V>(d: Dict<K, V>, es: seq<(K, V)>, n: nat)
    requires LastSetting(es, n)
    ensures Get(SetAll(d, es), es[n].0) == Some(es[n].1)
  {
    if n == |es| - 1 {
      GetSetLast(d, es);
    } else {
      LastSettingInit(es, n);
      GetSetAllLast(d, es[..|es| - 1], n);
      assert es[..|es| - 1][n] == es[n];
      GetSetEarlier(d, es, es[n].0);
    }
  }

  /** Assigning to a key the dictionary does not have appends an entry. */
  lemma {:induction false} SetNew<K, V>(d: Dict<K, V>, k: K, v: V)
    requires forall j :: 0 <= j < |d| ==> d[j].0 != k
    ensures Set(d, k, v) == d + [(k, v)]
  {
    if d != [] {
      assert forall j :: 0 <= j < |d| - 1 ==> d[1..][j] == d[j + 1];
      SetNew(d[1..], k, v);
      assert [d[0]] + (d[1..] + [(k, v)]) == d + [(k, v)];
    }
  }

  /** `out[k] = f(k, v)` for every item of `d` in order, stopping at the first
      exception. */
  function MapItems<K(==), V, W>(d: Dict<K, V>, f: (K, V) -> Result<W>): Result<Dict<K, W>>
  {
    if d == [] then Ok([])
    else
      var n := |d| - 1;
      var init :- MapItems(d[..n], f);
      var last :- f(d[n].0, d[n].1);
      Ok(Set(init, d[n].0, last))
  }

  lemma MapItemsSnoc<K, V, W>(d: Dict<K, V>, f: (K, V) -> Result<W>, i: nat, init: Dict<K, W>)
    requires i < |d| && MapItems(d[..i], f) == Ok(init) && f(d[i].0, d[i].1).Ok?
    ensures MapItems(d[..i + 1], f) == Ok(Set(init, d[i].0, f(d[i].0, d[i].1).value))
  {
    assert d[..i + 1][..i] == d[..i];
  }

  lemma {:induction false} MapItemsFailFrom<K, V, W>(d: Dict<K, V>, f: (K, V) -> Result<W>, i: nat)
    requires i < |d| && MapItems(d[..i], f).Ok? && f(d[i].0, d[i].1).Fail?
    ensures MapItems(d, f) == Fail(f(d[i].0, d[i].1).exc)
    decreases |d|
  {
    if i < |d| - 1 {
      assert d[..|d| - 1][..i] == d[..i];
      MapItemsFailFrom(d[..|d| - 1], f, i);
    } else {
      assert d[..|d| - 1] == d[..i];
    }
  }

  /** The mapping succeeds exactly when every item maps to `Ok`. */
  lemma {:induction false} MapItemsOk<K, V, W>(d: Dict<K, V>, f: (K, V) -> Result<W>)
    ensures MapItems(d, f).Ok? <==> forall i :: 0 <= i < |d| ==> f(d[i].0, d[i].1).Ok?
    decreases |d|
  {
    if d != [] {
      var n := |d| - 1;
      MapItemsOk(d[..n], f);
      assert forall i :: 0 <= i < n ==> d[..n][i] == d[i];
    }
  }

  /** The last step of `MapItems`: the items before the last, then the last. */
  lemma MapItemsLast<K, V, W>(d: Dict<K, V>, f: (K, V) -> Result<W>)
    requires d != [] && MapItems(d, f).Ok?
    ensures var n := |d| - 1;
      && MapItems(d[..n], f).Ok? && f(d[n].0, d[n].1).Ok?
      && MapItems(d, f).value == Set(MapItems(d[..n], f).value, d[n].0, f(d[n].0, d[n].1).value)
  {
    var n := |d| - 1;
    assert forall i :: 0 <= i < n ==> d[..n][i] == d[i];
  }

  /** On a dictionary with distinct keys, the result keeps every key in its place,
      each with the value its item maps to. */
  lemma {:induction false} MapItemsEntries<K, V, W>(d: Dict<K, V>, f: (K, V) -> Result<W>)
    requires UniqueKeys(d) && MapItems(d, f).Ok?
    ensures |MapItems(d, f).value| == |d|
    ensures forall i :: 0 <= i < |d| ==>
      MapItems(d, f).value[i].0 == d[i].0 && f(d[i].0, d[i].1) == Ok(MapItems(d, f).value[i].1)
    decreases |d|
  {
    if d != [] {
      var n := |d| - 1;
      var init := d[..n];
      MapItemsLast(d, f);
      assert UniqueKeys(init) by {
        assert forall j :: 0 <= j < n ==> init[j] == d[j];
      }
      MapItemsEntries(init, f);
      var prev := MapItems(init, f).value;
      var v := f(d[n].0, d[n].1).value;
      var r := MapItems(d, f).value;
      assert r == prev + [(d[n].0, v)] by {
        assert forall j :: 0 <= j < n ==> prev[j].0 == d[j].0 by {
          assert forall j :: 0 <= j < n ==> init[j] == d[j];
        }
        SetNew(prev, d[n].0, v);
      }
      forall i | 0 <= i < |d| ensures r[i].0 == d[i].0 && f(d[i].0, d[i].1) == Ok(r[i].1) {
        if i < n {
          assert r[i] == prev[i] && init[i] == d[i];
        }
      }
    }
  }

  /** On distinct keys, a dictionary whose every value maps to `Ok` maps to the
      dictionary of the mapped values. */
  lemma MapItemsValues<K, V, W>(d: Dict<K, V>, f: (K, V) -> Result<W>, out: Dict<K, W>)
    requires UniqueKeys(d) && |out| == |d|
    requires forall i :: 0 <= i < |d| ==> out[i].0 == d[i].0 && f(d[i].0, d[i].1) == Ok(out[i].1)
    ensures MapItems(d, f) == Ok(out)
  {
    MapItemsOk(d, f);
    MapItemsEntries(d, f);
    var m := MapItems(d, f).value;
    assert m == out by {
      assert forall i :: 0 <= i < |d| ==> m[i].0 == out[i].0 && Ok(m[i].1) == Ok(out[i].1);
    }
  }


  /** `del d[k]` for a key the dictionary has: its entry is dropped. */
  function Remove<K(==), V>(d: Dict<K, V>, k: K): (r: Dict<K, V>)
    ensures |r| <= |d|
  {
    if d == [] then []
    else if d[0].0 == k then d[1..]
    else [d[0]] + Remove(d[1..], k)
  }

  lemma TailUnique<K, V>(d: Dict<K, V>)
    requires UniqueKeys(d) && d != []
    ensures UniqueKeys(d[1..])
    ensures d[0].0 !in Keys(d[1..])
  {
    forall i, j | 0 <= i < j < |d| - 1 ensures d[1..][i].0 != d[1..][j].0 {
      assert d[1..][i] == d[i + 1] && d[1..][j] == d[j + 1];
    }
    forall i | 0 <= i < |d| - 1 ensures Keys(d[1..])[i] != d[0].0 {
      assert d[1..][i] == d[i + 1];
    }
  }

  /** Removal keeps only entries of the dictionary. */
  lemma {:induction false} RemoveKeys<K, V>(d: Dict<K, V>, k: K, k': K)
    requires k' in Keys(Remove(d, k))
    ensures k' in Keys(d)
  {
    if d != [] && d[0].0 != k {
      var r := Remove(d, k);
      assert Keys(r) == [d[0].0] + Keys(Remove(d[1..], k));
      assert Keys(d) == [d[0].0] + Keys(d[1..]);
      if k' != d[0].0 {
        RemoveKeys(d[1..], k, k');
      }
    }
  }

  /** After `del d[k]`, `k` is gone and every other key keeps its value; the keys
      stay distinct. */
  lemma {:induction false} GetRemove<K, V>(d: Dict<K, V>, k: K, k': K)
    requires UniqueKeys(d)
    ensures Get(Remove(d, k), k') == if k' == k then None else Get(d, k')
    ensures UniqueKeys(Remove(d, k))
  {
    if d != [] {
      TailUnique(d);
      if d[0].0 == k {
        GetKeys(d[1..], k);
      } else {
        GetRemove(d[1..], k, k');
        var r := Remove(d, k);
        forall i, j | 0 <= i < j < |r| ensures r[i].0 != r[j].0 {
          if i == 0 {
            assert r[j] == Remove(d[1..], k)[j - 1];
            assert Keys(Remove(d[1..], k))[j - 1] == r[j].0;
            if r[j].0 == d[0].0 {
              RemoveKeys(d[1..], k, d[0].0);
            }
          } else {
            assert r[i] == Remove(d[1..], k)[i - 1] && r[j] == Remove(d[1..], k)[j - 1];
          }
        }
      }
    }
  }

  /** The keys after `del d[k]` are the keys before, less `k`. */
  lemma RemoveHas<K, V>(d: Dict<K, V>, k: K, k': K)
    requires UniqueKeys(d)
    ensures k' in Keys(Remove(d, k)) <==> k' in Keys(d) && k' != k
  {
    GetRemove(d, k, k');
    GetKeys(d, k');
    GetKeys(Remove(d, k), k');
  }

  /** Appending an entry: earlier entries win. */
  lemma {:induction false} GetSnoc<K, V>(d: Dict<K, V>, e: (K, V), k: K)
    ensures Get(d + [e], k) == if Get(d, k).Some? then Get(d, k) else if e.0 == k then Some(e.1) else None
  {
    if d != [] {
      assert (d + [e])[1..] == d[1..] + [e];
      GetSnoc(d[1..], e, k);
    }
  }

  /** After `d[k] = v` every entry is an entry of `d` or the new one. */
  lemma {:induction false} SetEntries<K, V>(d: Dict<K, V>, k: K, v: V, e: (K, V))
    requires e in Set(d, k, v)
    ensures e in d || e == (k, v)
  {
    if d != [] && d[0].0 != k && e != d[0] {
      assert e in Set(d[1..], k, v);
      SetEntries(d[1..], k, v, e);
    }
  }

  lemma SetAtCons<K, V>(d: Dict<K, V>, i: nat, v: V)
    requires 0 < i < |d|
    ensures d[i := (d[i].0, v)] == [d[0]] + d[1..][i - 1 := (d[i].0, v)]
  {
  }

  /** On distinct keys, setting the key of an entry replaces that entry in place. */
  lemma {:induction false} SetAt<K, V>(d: Dict<K, V>, i: nat, v: V)
    requires UniqueKeys(d) && i < |d|
    ensures Set(d, d[i].0, v) == d[i := (d[i].0, v)]
  {
    if i > 0 {
      assert d[0].0 != d[i].0;
      TailUnique(d);
      SetAt(d[1..], i - 1, v);
      SetAtCons(d, i, v);
    }
  }

  /** The keys after a run of settings: the old keys and the keys set. */
  lemma {:induction false} SetAllKeys<K, V>(d: Dict<K, V>, es: seq<(K, V)>, k: K)
    ensures k in Keys(SetAll(d, es)) <==> k in Keys(d) || k in Keys(es)
  {
    if es != [] {
      var n := |es| - 1;
      SetAllKeys(d, es[..n], k);
      SetKeys(SetAll(d, es[..n]), es[n].0, es[n].1);
      KeysSnoc(es);
    }
  }

  lemma KeysSnoc<K, V>(es: seq<(K, V)>)
    requires es != []
    ensures Keys(es) == Keys(es[..|es| - 1]) + [es[|es| - 1].0]
  {
  }

  /** `{**d, **es}` for a dictionary `es`: a key of `es` takes its value there, any
      other key keeps its value in `d`. */
  lemma {:induction false} GetSetAll<K, V>(d: Dict<K, V>, es: Dict<K, V>, k: K)
    requires UniqueKeys(es)
    ensures Get(SetAll(d, es), k) == if Get(es, k).Some? then Get(es, k) else Get(d, k)
  {
    if es != [] {
      var n := |es| - 1;
      var init := es[..n];
      assert UniqueKeys(init) by {
        forall i, j | 0 <= i < j < |init| ensures init[i].0 != init[j].0 {
          assert init[i] == es[i] && init[j] == es[j];
        }
      }
      GetSetAll(d, init, k);
      GetSet(SetAll(d, init), es[n].0, es[n].1, k);
      assert es == init + [es[n]];
      GetSnoc(init, es[n], k);
      if k == es[n].0 {
        GetKeys(init, k);
      }
    }
  }

  /** Assignments into a dictionary with distinct keys keep the keys distinct. */
  lemma {:induction false} SetAllUnique<K, V>(d: Dict<K, V>, es: seq<(K, V)>)
    requires UniqueKeys(d)
    ensures UniqueKeys(SetAll(d, es))
  {
    if es != [] {
      SetAllUnique(d, es[..|es| - 1]);
      SetUnique(SetAll(d, es[..|es| - 1]), es[|es| - 1].0, es[|es| - 1].1);
    }
  }
}

/** Python's insertion-ordered `dict`, as a sequence of key/value pairs.

    Lookups find the first pair with the key; assignment to an existing key keeps
    its position and replaces the value, assignment to a new key appends, and
    `pop` removes the pair. Every dict the modelled code builds has distinct keys
    (`DistinctKeys`), and the operations here preserve that. */
module Dicts {
  import opened Wrappers

  type Dict<K, V> = seq<(K, V)>

  /** The keys in insertion order, as `list(d.keys())`. */
  function Keys<K, V>(d: Dict<K, V>): (ks: seq<K>)
    ensures |ks| == |d|
    ensures forall i {:trigger ks[i]} :: 0 <= i < |d| ==> ks[i] == d[i].0
  {
    if |d| == 0 then [] else [d[0].0] + Keys(d[1..])
  }

  /** The values in insertion order, as `list(d.values())`. */
  function Values<K, V>(d: Dict<K, V>): (vs: seq<V>)
    ensures |vs| == |d|
    ensures forall i {:trigger vs[i]} :: 0 <= i < |d| ==> vs[i] == d[i].1
  {
    if |d| == 0 then [] else [d[0].1] + Values(d[1..])
  }

  ghost predicate DistinctKeys<K, V>(d: Dict<K, V>) {
    forall i, j :: 0 <= i < j < |d| ==> d[i].0 != d[j].0
  }

  predicate HasKey<K(==), V>(d: Dict<K, V>, k: K) {
    k in Keys(d)
  }

  /** `d.get(k)`: the value of the first pair with key `k`. */
  function Lookup<K(==), V>(d: Dict<K, V>, k: K): (r: Option<V>)
    ensures r.None? <==> k !in Keys(d)
    ensures r.Some? ==> (k, r.value) in d
  {
    if |d| == 0 then None
    else if d[0].0 == k then Some(d[0].1)
    else Lookup(d[1..], k)
  }

  /** `d[k]`, raising KeyError when the key is absent. */
  function Get<K(==), V>(d: Dict<K, V>, k: K, name: string): (r: Result<V>)
    ensures r.Ok? <==> k in Keys(d)
    ensures r.Ok? ==> Lookup(d, k) == Some(r.value)
    ensures r.Err? ==> r.error == KeyError(name)
  {
    match Lookup(d, k)
    case Some(v) => Ok(v)
    case None => Err(KeyError(name))
  }

  /** Looking up in a dict with one more pair in front. */
  lemma LookupCons<K, V>(x: (K, V), rest: Dict<K, V>, j: K)
    ensures Lookup([x] + rest, j) == if x.0 == j then Some(x.1) else Lookup(rest, j)
  {
    assert ([x] + rest)[1..] == rest;
  }

  /** The keys of a dict with one more pair in front. */
  lemma KeysCons<K, V>(x: (K, V), rest: Dict<K, V>)
    ensures Keys([x] + rest) == [x.0] + Keys(rest)
  {
    assert ([x] + rest)[1..] == rest;
  }

  /** `d[k] = v`. */
  function Set<K(!new, ==), V>(d: Dict<K, V>, k: K, v: V): (r: Dict<K, V>)
    ensures Lookup(r, k) == Some(v)
    ensures forall j :: j != k ==> Lookup(r, j) == Lookup(d, j)
    ensures k in Keys(d) ==> Keys(r) == Keys(d)
    ensures k !in Keys(d) ==> Keys(r) == Keys(d) + [k]
  {
    if |d| == 0 then [(k, v)]
    else if d[0].0 == k then
      var r := [(k, v)] + d[1..];
      forall j ensures Lookup(r, j) == if k == j then Some(v) else Lookup(d[1..], j) {
        LookupCons((k, v), d[1..], j);
      }
      KeysCons((k, v), d[1..]);
      r
    else
      var rest := Set(d[1..], k, v);
      SetCons(d, k, v, rest);
      [d[0]] + rest
  }

  /** The step of `Set` past a first pair with another key. */
  lemma SetCons<K, V>(d: Dict<K, V>, k: K, v: V, rest: Dict<K, V>)
    requires |d| > 0 && d[0].0 != k
    requires Lookup(rest, k) == Some(v)
    requires forall j :: j != k ==> Lookup(rest, j) == Lookup(d[1..], j)
    requires k in Keys(d[1..]) ==> Keys(rest) == Keys(d[1..])
    requires k !in Keys(d[1..]) ==> Keys(rest) == Keys(d[1..]) + [k]
    ensures Lookup([d[0]] + rest, k) == Some(v)
    ensures forall j :: j != k ==> Lookup([d[0]] + rest, j) == Lookup(d, j)
    ensures k in Keys(d) ==> Keys([d[0]] + rest) == Keys(d)
    ensures k !in Keys(d) ==> Keys([d[0]] + rest) == Keys(d) + [k]
  {
    var r := [d[0]] + rest;
    forall j ensures Lookup(r, j) == if d[0].0 == j then Some(d[0].1) else Lookup(rest, j) {
      LookupCons(d[0], rest, j);
    }
    KeysCons(d[0], rest);
    assert Keys(d) == [d[0].0] + Keys(d[1..]);
    if k !in Keys(d) {
      assert k !in Keys(d[1..]);
      assert [d[0].0] + (Keys(d[1..]) + [k]) == ([d[0].0] + Keys(d[1..])) + [k];
    }
  }

  lemma SetKeys<K(!new), V>(d: Dict<K, V>, k: K, v: V)
    ensures forall j :: j in Keys(Set(d, k, v)) <==> j in Keys(d) || j == k
  {
  }

  /** `d.pop(k, None)` on a dict with distinct keys: the pair goes, nothing else moves. */
  function Remove<K(!new, ==), V>(d: Dict<K, V>, k: K): (r: Dict<K, V>)
    ensures k !in Keys(d) ==> r == d
    ensures forall j :: j != k ==> Lookup(r, j) == Lookup(d, j)
    ensures forall j :: j != k ==> (j in Keys(r) <==> j in Keys(d))
    ensures |r| == if k in Keys(d) then |d| - 1 else |d|
  {
    if |d| == 0 then []
    else if d[0].0 == k then d[1..]
    else [d[0]] + Remove(d[1..], k)
  }

  /** `{k: f(v) for k, v in d.items()}` and in-place replacement of every value. */
  function MapValues<K, V, W>(d: Dict<K, V>, f: V -> W): (r: Dict<K, W>)
    ensures Keys(r) == Keys(d)
    ensures forall i :: 0 <= i < |d| ==> r[i] == (d[i].0, f(d[i].1))
  {
    if |d| == 0 then [] else [(d[0].0, f(d[0].1))] + MapValues(d[1..], f)
  }

  /** `dst.update(src)`: each pair of `src`, in order, assigned into `dst`. */
  function Update<K(!new, ==), V>(dst: Dict<K, V>, src: Dict<K, V>): (r: Dict<K, V>)
    ensures DistinctKeys(src) ==> forall j :: j in Keys(src) ==> Lookup(r, j) == Lookup(src, j)
    ensures forall j :: j !in Keys(src) ==> Lookup(r, j) == Lookup(dst, j)
    ensures forall j :: j in Keys(r) <==> j in Keys(dst) || j in Keys(src)
    decreases |src|
  {
    if |src| == 0 then dst
    else
      var d1 := Set(dst, src[0].0, src[0].1);
      var r := Update(d1, src[1..]);
      UpdateStep(dst, src, d1, r);
      r
  }

  /** One step of `Update`: what assigning the first pair and then updating
      from the rest gives, in terms of the whole source. */
  lemma UpdateStep<K(!new), V>(dst: Dict<K, V>, src: Dict<K, V>, d1: Dict<K, V>, r: Dict<K, V>)
    requires |src| > 0 && d1 == Set(dst, src[0].0, src[0].1)
    requires DistinctKeys(src[1..]) ==> forall j :: j in Keys(src[1..]) ==> Lookup(r, j) == Lookup(src[1..], j)
    requires forall j :: j !in Keys(src[1..]) ==> Lookup(r, j) == Lookup(d1, j)
    requires forall j :: j in Keys(r) <==> j in Keys(d1) || j in Keys(src[1..])
    ensures DistinctKeys(src) ==> forall j :: j in Keys(src) ==> Lookup(r, j) == Lookup(src, j)
    ensures forall j :: j !in Keys(src) ==> Lookup(r, j) == Lookup(dst, j)
    ensures forall j :: j in Keys(r) <==> j in Keys(dst) || j in Keys(src)
  {
    assert Keys(src) == [src[0].0] + Keys(src[1..]);
    SetKeys(dst, src[0].0, src[0].1);
    if DistinctKeys(src) {
      TailDistinct(src);
      forall j | j in Keys(src) ensures Lookup(r, j) == Lookup(src, j) {
        if j != src[0].0 {
          assert j in Keys(src[1..]);
        }
      }
    }
  }

  /** A dict with distinct keys splits into a first key absent from the rest
      and a rest with distinct keys. */
  lemma TailDistinct<K, V>(d: Dict<K, V>)
    requires |d| > 0 && DistinctKeys(d)
    ensures DistinctKeys(d[1..]) && d[0].0 !in Keys(d[1..])
  {
    forall j | 0 <= j < |d[1..]| ensures Keys(d[1..])[j] != d[0].0 {
      assert d[1..][j] == d[j + 1];
    }
  }

  /** A new first key before a rest with distinct keys keeps them distinct. */
  lemma ConsDistinct<K, V>(x: (K, V), rest: Dict<K, V>)
    requires DistinctKeys(rest) && x.0 !in Keys(rest)
    ensures DistinctKeys([x] + rest)
  {
    var r := [x] + rest;
    forall i, j | 0 <= i < j < |r| ensures r[i].0 != r[j].0 {
      if i == 0 {
        assert r[j].0 == Keys(rest)[j - 1];
      } else {
        assert r[i] == rest[i - 1] && r[j] == rest[j - 1];
      }
    }
  }

  lemma {:induction false} SetKeepsDistinct<K(!new), V>(d: Dict<K, V>, k: K, v: V)
    requires DistinctKeys(d)
    ensures DistinctKeys(Set(d, k, v))
  {
    if |d| > 0 {
      TailDistinct(d);
      if d[0].0 == k {
        ConsDistinct((k, v), d[1..]);
      } else {
        SetKeepsDistinct(d[1..], k, v);
        SetKeys(d[1..], k, v);
        ConsDistinct(d[0], Set(d[1..], k, v));
      }
    }
  }

  lemma {:induction false} RemoveKeepsDistinct<K(!new), V>(d: Dict<K, V>, k: K)
    requires DistinctKeys(d)
    ensures DistinctKeys(Remove(d, k))
    ensures Lookup(Remove(d, k), k) == None
  {
    if |d| > 0 {
      RemoveKeepsDistinct(d[1..], k);
      var rest := Remove(d[1..], k);
      if d[0].0 != k {
        var r := [d[0]] + rest;
        forall i, j | 0 <= i < j < |r| ensures r[i].0 != r[j].0 {
          if i == 0 {
            assert r[j].0 == Keys(rest)[j - 1];
            assert r[j].0 in Keys(d[1..]);
          }
        }
      } else {
        assert k !in Keys(d[1..]);
      }
    }
  }

  /** `RemoveKeepsDistinct` for a dict whose keys may or may not be distinct. */
  lemma RemoveKeepsDistinctIf<K(!new), V>(d: Dict<K, V>, k: K)
    ensures DistinctKeys(d) ==> DistinctKeys(Remove(d, k)) && k !in Keys(Remove(d, k))
  {
    if DistinctKeys(d) {
      RemoveKeepsDistinct(d, k);
    }
  }

  /** `dst.update(src)` keeps the keys of `dst` distinct. */
  lemma {:induction false} UpdateKeepsDistinct<K(!new), V>(dst: Dict<K, V>, src: Dict<K, V>)
    ensures DistinctKeys(dst) ==> DistinctKeys(Update(dst, src))
    decreases |src|
  {
    if |src| > 0 && DistinctKeys(dst) {
      SetKeepsDistinct(dst, src[0].0, src[0].1);
      UpdateKeepsDistinct(Set(dst, src[0].0, src[0].1), src[1..]);
    }
  }
}

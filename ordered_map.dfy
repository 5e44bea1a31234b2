/**
  A JavaScript `Map` with string keys, as `groupAndSortRepos` uses it: the
  entries in insertion order, `get`, and `set`, which keeps an existing key's
  position and appends a new key at the end.
*/
module OrderedMap {
  import opened Wrappers

  predicate DistinctKeys<V>(m: seq<(string, V)>) {
    forall i, j :: 0 <= i < j < |m| ==> m[i].0 != m[j].0
  }

  /** The keys, `new Set(map.keys())`. */
  function KeySet<V>(m: seq<(string, V)>): set<string> {
    set i | 0 <= i < |m| :: m[i].0
  }

  lemma KeySetCons<V>(m: seq<(string, V)>)
    requires |m| > 0
    ensures KeySet(m) == {m[0].0} + KeySet(m[1..])
  {
    forall x | x in KeySet(m) ensures x in {m[0].0} + KeySet(m[1..]) {
      var i :| 0 <= i < |m| && m[i].0 == x;
      if i > 0 { assert m[1..][i - 1].0 == x; }
    }
    forall x | x in KeySet(m[1..]) ensures x in KeySet(m) {
      var i :| 0 <= i < |m[1..]| && m[1..][i].0 == x;
      assert m[i + 1].0 == x;
    }
  }

  /** `map.get(k)`: the value of the first entry with key `k`. */
  function Get<V>(m: seq<(string, V)>, k: string): (r: Option<V>)
    ensures r.None? <==> k !in KeySet(m)
    ensures r.Some? ==> (k, r.value) in m
  {
    if |m| == 0 then None
    else
      KeySetCons(m);
      if m[0].0 == k then Some(m[0].1) else Get(m[1..], k)
  }

  /** With distinct keys, every entry is what `get` finds for its key. */
  lemma {:induction false} GetEntry<V>(m: seq<(string, V)>, i: int)
    requires DistinctKeys(m) && 0 <= i < |m|
    ensures Get(m, m[i].0) == Some(m[i].1)
  {
    if i > 0 {
      assert m[0].0 != m[i].0;
      assert m[1..][i - 1] == m[i];
      GetEntry(m[1..], i - 1);
    }
  }

  /** `map.set(k, v)` */
  function Set<V>(m: seq<(string, V)>, k: string, v: V): (r: seq<(string, V)>)
    ensures |r| == if k in KeySet(m) then |m| else |m| + 1
  {
    if |m| == 0 then [(k, v)]
    else
      KeySetCons(m);
      if m[0].0 == k then [(k, v)] + m[1..] else [m[0]] + Set(m[1..], k, v)
  }

  /** After `set`, `get` finds the new value for `k` and the old ones elsewhere. */
  lemma {:induction false} GetOfSet<V>(m: seq<(string, V)>, k: string, v: V, j: string)
    ensures Get(Set(m, k, v), j) == if j == k then Some(v) else Get(m, j)
  {
    if |m| > 0 && m[0].0 != k {
      GetOfSet(m[1..], k, v, j);
    }
  }

  /** An existing key keeps its place; a new key goes at the end. */
  lemma {:induction false} SetPlacement<V>(m: seq<(string, V)>, k: string, v: V)
    ensures k in KeySet(m) ==> forall i :: 0 <= i < |m| ==> Set(m, k, v)[i].0 == m[i].0
    ensures k !in KeySet(m) ==> Set(m, k, v) == m + [(k, v)]
  {
    if |m| > 0 {
      KeySetCons(m);
      if m[0].0 != k {
        SetPlacement(m[1..], k, v);
        var rest := Set(m[1..], k, v);
        assert Set(m, k, v) == [m[0]] + rest;
        if k in KeySet(m) {
          forall i | 0 < i < |m| ensures Set(m, k, v)[i].0 == m[i].0 {
            assert Set(m, k, v)[i] == rest[i - 1];
          }
        }
      }
    }
  }

  lemma {:induction false} KeySetOfSet<V>(m: seq<(string, V)>, k: string, v: V)
    ensures KeySet(Set(m, k, v)) == KeySet(m) + {k}
  {
    if |m| > 0 {
      KeySetCons(m);
      KeySetCons(Set(m, k, v));
      if m[0].0 != k {
        KeySetOfSet(m[1..], k, v);
        assert Set(m, k, v)[1..] == Set(m[1..], k, v);
      } else {
        assert Set(m, k, v)[1..] == m[1..];
      }
    } else {
      assert Set(m, k, v)[0].0 == k;
      assert KeySet(Set(m, k, v)) == {k};
    }
  }

  /** `set` never duplicates a key. */
  lemma {:induction false} SetKeepsDistinct<V>(m: seq<(string, V)>, k: string, v: V)
    requires DistinctKeys(m)
    ensures DistinctKeys(Set(m, k, v))
  {
    if |m| > 0 {
      KeySetCons(m);
      var r := Set(m, k, v);
      if m[0].0 != k {
        assert DistinctKeys(m[1..]);
        SetKeepsDistinct(m[1..], k, v);
        KeySetOfSet(m[1..], k, v);
        var rest := Set(m[1..], k, v);
        assert r == [m[0]] + rest;
        assert m[0].0 !in KeySet(m[1..]) by {
          forall i | 0 <= i < |m[1..]| ensures m[1..][i].0 != m[0].0 {
            assert m[1..][i] == m[i + 1];
          }
        }
        forall i | 0 < i < |r| ensures r[0].0 != r[i].0 {
          assert r[i] == rest[i - 1];
          assert rest[i - 1].0 in KeySet(rest);
        }
      } else {
        assert r[1..] == m[1..];
      }
    }
  }

  /** With distinct keys, the map has as many entries as keys (`map.size`). */
  lemma {:induction false} SizeIsKeyCount<V>(m: seq<(string, V)>)
    requires DistinctKeys(m)
    ensures |KeySet(m)| == |m|
  {
    if |m| > 0 {
      assert DistinctKeys(m[1..]);
      SizeIsKeyCount(m[1..]);
      KeySetCons(m);
      assert m[0].0 !in KeySet(m[1..]) by {
        forall i | 0 <= i < |m[1..]| ensures m[1..][i].0 != m[0].0 {
          assert m[1..][i] == m[i + 1];
        }
      }
    }
  }

  /** The sum of `f` over the entries' values. */
  function SumValues<V>(m: seq<(string, V)>, f: V -> int): int {
    if |m| == 0 then 0 else f(m[0].1) + SumValues(m[1..], f)
  }

  /** `set` replaces the key's old contribution to the sum by the new value's. */
  lemma {:induction false} SumValuesOfSet<V>(m: seq<(string, V)>, k: string, v: V, f: V -> int)
    ensures Get(m, k).Some? ==> SumValues(Set(m, k, v), f) == SumValues(m, f) - f(Get(m, k).value) + f(v)
    ensures Get(m, k).None? ==> SumValues(Set(m, k, v), f) == SumValues(m, f) + f(v)
  {
    if |m| > 0 {
      if m[0].0 != k {
        SumValuesOfSet(m[1..], k, v, f);
        assert Set(m, k, v)[1..] == Set(m[1..], k, v);
      } else {
        assert Set(m, k, v)[1..] == m[1..];
      }
    }
  }
}

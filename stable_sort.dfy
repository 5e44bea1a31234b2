/**
  `Array.prototype.sort` with a comparator `(a, b) => key(b) - key(a)`: a
  stable sort into non-increasing `key` order (stability is required of the
  method since ECMAScript 2019). Written as insertion into a sorted list.
*/
module StableSort {

  predicate SortedDesc<T>(s: seq<T>, key: T -> int) {
    forall i, j :: 0 <= i < j < |s| ==> key(s[i]) >= key(s[j])
  }

  /** No two elements share an image under `f`. */
  predicate DistinctBy<T, K(==)>(s: seq<T>, f: T -> K) {
    forall i, j :: 0 <= i < j < |s| ==> f(s[i]) != f(s[j])
  }

  function SumBy<T>(s: seq<T>, f: T -> int): int {
    if |s| == 0 then 0 else f(s[0]) + SumBy(s[1..], f)
  }

  /** Puts `x` before the first element whose key is not above its own. */
  function Insert<T>(x: T, s: seq<T>, key: T -> int): (r: seq<T>)
    ensures |r| == |s| + 1
    ensures multiset(r) == multiset(s) + multiset{x}
  {
    if |s| == 0 || key(x) >= key(s[0]) then [x] + s
    else
      assert s == [s[0]] + s[1..];
      [s[0]] + Insert(x, s[1..], key)
  }

  /** A head at least as large as every key of a sorted tail. */
  lemma SortedCons<T>(h: T, t: seq<T>, key: T -> int)
    requires SortedDesc(t, key)
    requires forall j :: 0 <= j < |t| ==> key(t[j]) <= key(h)
    ensures SortedDesc([h] + t, key)
  {
    var r := [h] + t;
    forall i, j | 0 <= i < j < |r| ensures key(r[i]) >= key(r[j]) {
      assert r[j] == t[j - 1];
      if i > 0 {
        assert r[i] == t[i - 1];
      }
    }
  }

  /** Every key of an insertion is bounded by what bounds its parts. */
  lemma InsertBelow<T>(x: T, s: seq<T>, key: T -> int, b: int)
    requires key(x) <= b
    requires forall j :: 0 <= j < |s| ==> key(s[j]) <= b
    ensures forall j :: 0 <= j < |Insert(x, s, key)| ==> key(Insert(x, s, key)[j]) <= b
  {
    var r := Insert(x, s, key);
    forall j | 0 <= j < |r| ensures key(r[j]) <= b {
      assert r[j] in multiset(r);
      if r[j] != x {
        assert r[j] in multiset(s);
        var k :| 0 <= k < |s| && s[k] == r[j];
      }
    }
  }

  /** Insertion into a sorted list keeps it sorted. */
  lemma {:induction false} InsertSorted<T>(x: T, s: seq<T>, key: T -> int)
    requires SortedDesc(s, key)
    ensures SortedDesc(Insert(x, s, key), key)
  {
    if |s| == 0 || key(x) >= key(s[0]) {
      SortedCons(x, s, key);
    } else {
      var t := s[1..];
      assert SortedDesc(t, key);
      InsertSorted(x, t, key);
      InsertBelow(x, t, key, key(s[0]));
      SortedCons(s[0], Insert(x, t, key), key);
    }
  }

  /** The sort: sorted, and a permutation of its input. */
  function SortDesc<T>(s: seq<T>, key: T -> int): (r: seq<T>)
    ensures |r| == |s|
    ensures multiset(r) == multiset(s)
    ensures SortedDesc(r, key)
  {
    if |s| == 0 then []
    else
      assert s == [s[0]] + s[1..];
      var t := SortDesc(s[1..], key);
      InsertSorted(s[0], t, key);
      Insert(s[0], t, key)
  }

  lemma {:induction false} InsertSum<T>(x: T, s: seq<T>, key: T -> int, f: T -> int)
    ensures SumBy(Insert(x, s, key), f) == f(x) + SumBy(s, f)
  {
    if |s| == 0 || key(x) >= key(s[0]) {
      assert Insert(x, s, key)[1..] == s;
    } else {
      InsertSum(x, s[1..], key, f);
      assert Insert(x, s, key)[1..] == Insert(x, s[1..], key);
    }
  }

  /** Sorting does not change a sum over the elements. */
  lemma {:induction false} SortSum<T>(s: seq<T>, key: T -> int, f: T -> int)
    ensures SumBy(SortDesc(s, key), f) == SumBy(s, f)
  {
    if |s| > 0 {
      SortSum(s[1..], key, f);
      InsertSum(s[0], SortDesc(s[1..], key), key, f);
    }
  }

  /** Where `Insert` puts `x`. */
  function InsertPos<T>(x: T, s: seq<T>, key: T -> int): (p: nat)
    ensures p <= |s|
  {
    if |s| == 0 || key(x) >= key(s[0]) then 0 else 1 + InsertPos(x, s[1..], key)
  }

  lemma {:induction false} InsertAt<T>(x: T, s: seq<T>, key: T -> int)
    ensures Insert(x, s, key) == s[..InsertPos(x, s, key)] + [x] + s[InsertPos(x, s, key)..]
  {
    if |s| == 0 || key(x) >= key(s[0]) {
      assert InsertPos(x, s, key) == 0;
      assert s[..0] + [x] + s[0..] == [x] + s;
    } else {
      InsertAt(x, s[1..], key);
      var p := InsertPos(x, s[1..], key);
      var t := s[1..];
      assert InsertPos(x, s, key) == p + 1;
      assert Insert(x, s, key) == [s[0]] + Insert(x, t, key);
      assert s[..p + 1] == [s[0]] + t[..p];
      assert s[p + 1..] == t[p..];
      assert [s[0]] + (t[..p] + [x] + t[p..]) == ([s[0]] + t[..p]) + [x] + t[p..];
    }
  }

  /** Splicing in an element whose image is new keeps the images distinct. */
  lemma SpliceKeepsDistinct<T, K>(s: seq<T>, p: nat, x: T, f: T -> K)
    requires p <= |s|
    requires DistinctBy(s, f)
    requires forall i :: 0 <= i < |s| ==> f(s[i]) != f(x)
    ensures DistinctBy(s[..p] + [x] + s[p..], f)
  {
    var r := s[..p] + [x] + s[p..];
    forall i, j | 0 <= i < j < |r| ensures f(r[i]) != f(r[j]) {
      if j < p {
        assert r[i] == s[i] && r[j] == s[j];
      } else if j == p {
        assert r[i] == s[i] && r[j] == x;
      } else if i < p {
        assert r[i] == s[i] && r[j] == s[j - 1];
      } else if i == p {
        assert r[i] == x && r[j] == s[j - 1];
      } else {
        assert r[i] == s[i - 1] && r[j] == s[j - 1];
      }
    }
  }

  /** Inserting an element whose image is new keeps the images distinct. */
  lemma InsertKeepsDistinct<T, K>(x: T, s: seq<T>, key: T -> int, f: T -> K)
    requires DistinctBy(s, f)
    requires forall i :: 0 <= i < |s| ==> f(s[i]) != f(x)
    ensures DistinctBy(Insert(x, s, key), f)
  {
    InsertAt(x, s, key);
    SpliceKeepsDistinct(s, InsertPos(x, s, key), x, f);
  }

  /** Sorting keeps elements with distinct images distinct. */
  lemma {:induction false} SortKeepsDistinct<T, K>(s: seq<T>, key: T -> int, f: T -> K)
    requires DistinctBy(s, f)
    ensures DistinctBy(SortDesc(s, key), f)
  {
    if |s| > 0 {
      assert DistinctBy(s[1..], f);
      SortKeepsDistinct(s[1..], key, f);
      var t := SortDesc(s[1..], key);
      forall i | 0 <= i < |t| ensures f(t[i]) != f(s[0]) {
        assert t[i] in multiset(s[1..]);
        var k :| 0 <= k < |s[1..]| && s[1..][k] == t[i];
        assert s[k + 1] == t[i];
      }
      InsertKeepsDistinct(s[0], t, key, f);
    }
  }
}

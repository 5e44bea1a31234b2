/**
  A URL query as `URLSearchParams` holds it: an ordered list of name/value
  pairs, with the `get`, `has`, `set` and `delete` operations of the WHATWG URL
  Standard. Percent-encoding is not modelled; what the client calls
  `window.location.search` is this list.
*/
module SearchParams {
  import opened Wrappers

  datatype Param = Param(name: string, value: string)

  type Query = seq<Param>

  /** `params.has(name)` */
  predicate Has(q: Query, name: string) {
    exists k :: 0 <= k < |q| && q[k].name == name
  }

  /** `params.get(name)`: the value of the first pair with that name. */
  function Get(q: Query, name: string): (r: Option<string>)
    ensures r.None? <==> !Has(q, name)
    ensures r.Some? ==> Param(name, r.value) in q
  {
    if |q| == 0 then None
    else if q[0].name == name then Some(q[0].value)
    else Get(q[1..], name)
  }

  /** `params.delete(name)`: every pair with that name removed. */
  function Delete(q: Query, name: string): (r: Query)
    ensures !Has(r, name)
    ensures forall m :: m != name ==> Get(r, m) == Get(q, m)
  {
    if |q| == 0 then []
    else if q[0].name == name then Delete(q[1..], name)
    else [q[0]] + Delete(q[1..], name)
  }

  /** `params.set(name, value)`: the first pair with that name gets the value and
      the later ones are removed; with no such pair, one is appended. */
  function Set(q: Query, name: string, value: string): (r: Query)
    ensures Get(r, name) == Some(value)
    ensures forall m :: m != name ==> Get(r, m) == Get(q, m)
  {
    if Has(q, name) then SetFirst(q, name, value)
    else
      GetAppend(q, Param(name, value));
      q + [Param(name, value)]
  }

  /** `get` after appending a pair. */
  lemma {:induction false} GetAppend(q: Query, p: Param)
    ensures forall m :: (Get(q + [p], m)
                         == if Has(q, m) then Get(q, m) else if p.name == m then Some(p.value) else None)
  {
    if |q| > 0 {
      assert (q + [p])[1..] == q[1..] + [p];
      GetAppend(q[1..], p);
      forall m ensures Has(q, m) <==> q[0].name == m || Has(q[1..], m) {
        if Has(q, m) && q[0].name != m {
          var k :| 0 <= k < |q| && q[k].name == m;
          assert q[1..][k - 1].name == m;
        }
      }
    } else {
      assert q + [p] == [p];
    }
  }

  function SetFirst(q: Query, name: string, value: string): (r: Query)
    requires Has(q, name)
    ensures Get(r, name) == Some(value)
    ensures forall m :: m != name ==> Get(r, m) == Get(q, m)
  {
    if q[0].name == name then [Param(name, value)] + Delete(q[1..], name)
    else [q[0]] + SetFirst(q[1..], name, value)
  }

  /** The pairs whose names are not in `names`, in their order. */
  function Others(q: Query, names: set<string>): Query {
    if |q| == 0 then []
    else if q[0].name in names then Others(q[1..], names)
    else [q[0]] + Others(q[1..], names)
  }

  /** Appending a pair with a name in `names` changes nothing outside them. */
  lemma {:induction false} OthersAppend(q: Query, p: Param, names: set<string>)
    requires p.name in names
    ensures Others(q + [p], names) == Others(q, names)
  {
    if |q| == 0 {
      assert Others([p], names) == Others([], names);
    } else {
      assert (q + [p])[1..] == q[1..] + [p];
      OthersAppend(q[1..], p, names);
    }
  }

  /** `delete` of a name in `names` leaves the other pairs, in order. */
  lemma {:induction false} OthersDelete(q: Query, name: string, names: set<string>)
    requires name in names
    ensures Others(Delete(q, name), names) == Others(q, names)
  {
    if |q| > 0 {
      OthersDelete(q[1..], name, names);
    }
  }

  /** `set` of a name in `names` leaves the other pairs, in order. */
  lemma {:induction false} OthersSet(q: Query, name: string, value: string, names: set<string>)
    requires name in names
    ensures Others(Set(q, name, value), names) == Others(q, names)
  {
    if Has(q, name) {
      OthersSetFirst(q, name, value, names);
    } else {
      OthersAppend(q, Param(name, value), names);
    }
  }

  lemma {:induction false} OthersSetFirst(q: Query, name: string, value: string, names: set<string>)
    requires name in names && Has(q, name)
    ensures Others(SetFirst(q, name, value), names) == Others(q, names)
  {
    if q[0].name == name {
      OthersDelete(q[1..], name, names);
    } else {
      assert Has(q[1..], name) by {
        var k :| 0 <= k < |q| && q[k].name == name;
        assert q[1..][k - 1].name == name;
      }
      OthersSetFirst(q[1..], name, value, names);
    }
  }

  /** `get` of a name outside `names` looks only at the other pairs. */
  lemma {:induction false} GetOthers(q: Query, names: set<string>, m: string)
    requires m !in names
    ensures Get(Others(q, names), m) == Get(q, m)
  {
    if |q| > 0 {
      GetOthers(q[1..], names, m);
    }
  }
}

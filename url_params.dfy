/**
  The query codec and the URL rewrite of `src/shared/utils/urlParams.ts`:
  languages as a comma list, the stars filter as the pair `stars`/`starsOp`,
  sort orders as `field:type` tokens, the state read back from a query, and
  the process-wide bridge that rewrites the address bar, raises the
  "self-update" flag and notifies its subscribers.
*/
module UrlParams {
  import opened Wrappers
  import opened Text
  import opened JsNumber
  import opened SearchParams
  import opened Types

  /** A `string | null` used as a condition: `null` and `""` are falsy. */
  predicate Truthy(p: Option<string>) {
    p.Some? && p.value != ""
  }

  // ---------------------------------------------------------------- languages

  /** A list the comma encoding can carry: no empty element, no comma. */
  predicate CleanList(ls: seq<string>) {
    forall k :: 0 <= k < |ls| ==> ls[k] != "" && ',' !in ls[k]
  }

  /** `serializeLanguages` */
  function SerializeLanguages(languages: seq<string>): (r: Option<string>)
    ensures r.None? <==> languages == []
  {
    if |languages| > 0 then Some(Join(languages, ',')) else None
  }

  /** `.filter(Boolean)` on strings: the empty ones dropped, order kept. */
  function DropEmpty(parts: seq<string>): (r: seq<string>)
    ensures forall k :: 0 <= k < |r| ==> r[k] != "" && r[k] in parts
    ensures (forall k :: 0 <= k < |parts| ==> parts[k] != "") ==> r == parts
  {
    if |parts| == 0 then []
    else if parts[0] == "" then DropEmpty(parts[1..])
    else [parts[0]] + DropEmpty(parts[1..])
  }

  /** `deserializeLanguages` */
  function DeserializeLanguages(param: Option<string>): (r: seq<string>)
    ensures !Truthy(param) ==> r == []
    ensures CleanList(r)
  {
    if !Truthy(param) then [] else DropEmpty(Split(param.value, ','))
  }

  /** Decoding what was encoded gives the list back, for lists of non-empty,
      comma-free names; the empty list travels as `null`. */
  lemma LanguagesRoundTrip(languages: seq<string>)
    requires CleanList(languages)
    ensures DeserializeLanguages(SerializeLanguages(languages)) == languages
  {
    if |languages| > 0 {
      JoinNonEmpty(languages, ',');
      SplitJoin(languages, ',');
    }
  }

  // ---------------------------------------------------------------- stars

  /** The `{ stars, starsOp }` pair of strings. */
  datatype StarsParams = StarsParams(stars: Option<string>, starsOp: Option<string>)

  /** `serializeStarsFilter` */
  function SerializeStarsFilter(filter: Option<Stars>): (r: StarsParams)
    ensures r.stars.None? <==> filter.None?
    ensures r.starsOp.None? <==> filter.None?
    ensures filter.Some? ==> Truthy(r.stars) && Truthy(r.starsOp)
  {
    if filter.None? then StarsParams(None, None)
    else StarsParams(Some(IntToString(filter.value.value)), Some(StarsOperatorToken(filter.value.operator)))
  }

  /** `starsOp === 'GREATER'` or `'LESS'`. */
  function ParseStarsOperator(token: string): (r: Option<StarsOperator>)
    ensures r.Some? <==> token == "GREATER" || token == "LESS"
    ensures r.Some? ==> StarsOperatorToken(r.value) == token
  {
    if token == "GREATER" then Some(Greater)
    else if token == "LESS" then Some(Less)
    else None
  }

  /** `deserializeStarsFilter` */
  function DeserializeStarsFilter(stars: Option<string>, starsOp: Option<string>): (r: Option<Stars>)
    ensures !Truthy(stars) || !Truthy(starsOp) ==> r.None?
    ensures Truthy(stars) && ParseInt(stars.value).None? ==> r.None?
    ensures Truthy(starsOp) && starsOp.value != "GREATER" && starsOp.value != "LESS" ==> r.None?
    ensures r.Some? ==> (Some(r.value.value) == ParseInt(stars.value)
                         && StarsOperatorToken(r.value.operator) == starsOp.value)
  {
    if !Truthy(stars) || !Truthy(starsOp) then None
    else
      var value := ParseInt(stars.value);
      if value.None? then None
      else
        var op := ParseStarsOperator(starsOp.value);
        if op.None? then None else Some(Stars(value.value, op.value))
  }

  /** Decoding an encoded stars filter gives it back, for every integer value
      and both operators, and `null` gives `null`. */
  lemma StarsRoundTrip(filter: Option<Stars>)
    ensures var p := SerializeStarsFilter(filter); DeserializeStarsFilter(p.stars, p.starsOp) == filter
  {
    if filter.Some? {
      var f := filter.value;
      var p := SerializeStarsFilter(filter);
      assert p.stars == Some(IntToString(f.value));
      ParseIntOfIntToString(f.value);
      assert ParseStarsOperator(StarsOperatorToken(f.operator)) == Some(f.operator);
    }
  }

  // ---------------------------------------------------------------- sort orders

  /** `const [field, type] = part.split(':')`, kept when `field` is non-empty and
      `type` is `asc` or `desc`; anything after a second `:` is ignored. */
  function ParseOrderToken(part: string): (r: Option<Order>)
    ensures r.Some? ==> r.value.field != "" && ':' !in r.value.field
    ensures r.Some? ==> r.value.field == Split(part, ':')[0]
  {
    var pieces := Split(part, ':');
    var field := pieces[0];
    var sortType := if |pieces| > 1 then Some(pieces[1]) else None;
    if field == "" then None
    else if sortType == Some("asc") then Some(Order(field, Asc))
    else if sortType == Some("desc") then Some(Order(field, Desc))
    else None
  }

  /** The valid tokens' orders, in the order of the tokens. */
  function DecodeSortTokens(parts: seq<string>): seq<Order> {
    if |parts| == 0 then []
    else
      var last := ParseOrderToken(parts[|parts| - 1]);
      DecodeSortTokens(parts[..|parts| - 1]) + (if last.Some? then [last.value] else [])
  }

  /** What `deserializeSortOrders(param)` returns. */
  function SortOrdersOf(param: Option<string>): (r: seq<Order>)
    ensures |r| >= 1
    ensures !Truthy(param) ==> r == [DefaultOrder]
    ensures Truthy(param) && DecodeSortTokens(Split(param.value, ',')) == [] ==> r == [DefaultOrder]
    ensures Truthy(param) && DecodeSortTokens(Split(param.value, ',')) != [] ==> r == DecodeSortTokens(Split(param.value, ','))
  {
    if !Truthy(param) then [DefaultOrder]
    else
      var orders := DecodeSortTokens(Split(param.value, ','));
      if |orders| > 0 then orders else [DefaultOrder]
  }

  /** `deserializeSortOrders`: the loop over the comma-separated tokens. */
  method DeserializeSortOrders(param: Option<string>) returns (orders: seq<Order>)
    ensures orders == SortOrdersOf(param)
    ensures |orders| >= 1
  {
    if !Truthy(param) {
      return [DefaultOrder];
    }
    orders := [];
    var parts := Split(param.value, ',');
    for i := 0 to |parts|
      invariant orders == DecodeSortTokens(parts[..i])
    {
      assert parts[..i + 1][..i] == parts[..i];
      var order := ParseOrderToken(parts[i]);
      if order.Some? {
        orders := orders + [order.value];
      }
    }
    assert parts[..|parts|] == parts;
    if |orders| == 0 {
      orders := [DefaultOrder];
    }
  }

  /** Token decoding distributes over concatenation: order is kept and each
      token is judged on its own. */
  lemma {:induction false} DecodeSortTokensAppend(a: seq<string>, b: seq<string>)
    ensures DecodeSortTokens(a + b) == DecodeSortTokens(a) + DecodeSortTokens(b)
    decreases |b|
  {
    if |b| > 0 {
      var b' := b[..|b| - 1];
      assert (a + b)[..|a + b| - 1] == a + b';
      DecodeSortTokensAppend(a, b');
    } else {
      assert a + b == a;
    }
  }

  /** Every decoded order has a non-empty field. */
  lemma {:induction false} DecodedOrdersHaveFields(parts: seq<string>)
    ensures forall k :: 0 <= k < |DecodeSortTokens(parts)| ==> DecodeSortTokens(parts)[k].field != ""
  {
    if |parts| > 0 {
      DecodedOrdersHaveFields(parts[..|parts| - 1]);
    }
  }

  /** One order's token `field:type`. */
  function OrderToken(o: Order): string {
    o.field + ":" + SortTypeToken(o.sortType)
  }

  function OrderTokens(orders: seq<Order>): (r: seq<string>)
    ensures |r| == |orders|
    ensures forall k :: 0 <= k < |orders| ==> r[k] == OrderToken(orders[k])
  {
    seq(|orders|, k requires 0 <= k < |orders| => OrderToken(orders[k]))
  }

  /** `serializeSortOrders` */
  function SerializeSortOrders(orders: seq<Order>): (r: Option<string>)
    ensures r.None? <==> orders == []
  {
    if |orders| == 0 then None else Some(Join(OrderTokens(orders), ','))
  }

  /** An order the token encoding can carry: a non-empty field without `,` or `:`. */
  predicate CleanOrder(o: Order) {
    o.field != "" && ',' !in o.field && ':' !in o.field
  }

  lemma OrderTokenRoundTrip(o: Order)
    requires CleanOrder(o)
    ensures ParseOrderToken(OrderToken(o)) == Some(o)
    ensures ',' !in OrderToken(o) && OrderToken(o) != ""
  {
    var t := SortTypeToken(o.sortType);
    assert OrderToken(o) == Join([o.field, t], ':');
    SplitJoin([o.field, t], ':');
  }

  lemma {:induction false} DecodeOrderTokens(orders: seq<Order>)
    requires forall k :: 0 <= k < |orders| ==> CleanOrder(orders[k])
    ensures DecodeSortTokens(OrderTokens(orders)) == orders
  {
    if |orders| > 0 {
      var n := |orders| - 1;
      assert OrderTokens(orders)[..n] == OrderTokens(orders[..n]);
      DecodeOrderTokens(orders[..n]);
      OrderTokenRoundTrip(orders[n]);
      assert orders[..n] + [orders[n]] == orders;
    }
  }

  /** Decoding encoded sort orders gives them back, for a non-empty list whose
      fields are non-empty and free of `,` and `:`. */
  lemma SortOrdersRoundTrip(orders: seq<Order>)
    requires |orders| >= 1
    requires forall k :: 0 <= k < |orders| ==> CleanOrder(orders[k])
    ensures SortOrdersOf(SerializeSortOrders(orders)) == orders
  {
    var tokens := OrderTokens(orders);
    forall k | 0 <= k < |tokens| ensures ',' !in tokens[k] && tokens[k] != "" {
      OrderTokenRoundTrip(orders[k]);
    }
    JoinNonEmpty(tokens, ',');
    SplitJoin(tokens, ',');
    DecodeOrderTokens(orders);
  }

  // ---------------------------------------------------------------- reading the whole state

  /** What `readStateFromUrl` returns. It has no licenses. */
  datatype UrlState = UrlState(languages: seq<string>, starsFilter: Option<Stars>, sortOrders: seq<Order>)

  /** `readStateFromUrl`, with `window.location.search` passed in. */
  function ReadStateFromUrl(q: Query): (r: UrlState)
    ensures !Has(q, "languages") ==> r.languages == []
    ensures !Has(q, "stars") || !Has(q, "starsOp") ==> r.starsFilter.None?
    ensures |r.sortOrders| >= 1
    ensures !Has(q, "sort") ==> r.sortOrders == [DefaultOrder]
  {
    UrlState(
      DeserializeLanguages(Get(q, "languages")),
      DeserializeStarsFilter(Get(q, "stars"), Get(q, "starsOp")),
      SortOrdersOf(Get(q, "sort")))
  }

  // ---------------------------------------------------------------- the rewrite

  /** The keys `updateUrlParams` writes or deletes. */
  const WrittenKeys: set<string> := {"languages", "stars", "starsOp", "sort", "utm_source"}

  function WriteLanguages(q: Query, languages: seq<string>): Query {
    var p := SerializeLanguages(languages);
    if Truthy(p) then Set(q, "languages", p.value) else Delete(q, "languages")
  }

  function WriteStars(q: Query, starsFilter: Option<Stars>): Query {
    var p := SerializeStarsFilter(starsFilter);
    if Truthy(p.stars) && Truthy(p.starsOp) then Set(Set(q, "stars", p.stars.value), "starsOp", p.starsOp.value)
    else Delete(Delete(q, "stars"), "starsOp")
  }

  function WriteSort(q: Query, sortOrders: seq<Order>): Query {
    var p := SerializeSortOrders(sortOrders);
    if Truthy(p) then Set(q, "sort", p.value) else Delete(q, "sort")
  }

  /** `params.set('utm_source', params.get('utm_source'))` when that value is non-empty. */
  function KeepUtmSource(q: Query): Query {
    var utm := Get(q, "utm_source");
    if Truthy(utm) then Set(q, "utm_source", utm.value) else q
  }

  /** The query `updateUrlParams` writes, given the one in the address bar. */
  function RewriteQuery(q: Query, languages: seq<string>, starsFilter: Option<Stars>, sortOrders: seq<Order>): Query {
    KeepUtmSource(WriteSort(WriteStars(WriteLanguages(q, languages), starsFilter), sortOrders))
  }

  /** The body of `updateUrlParams` that edits `params`, one key after the other. */
  method RewriteParams(q: Query, languages: seq<string>, starsFilter: Option<Stars>, sortOrders: seq<Order>)
    returns (params: Query)
    ensures params == RewriteQuery(q, languages, starsFilter, sortOrders)
  {
    params := q;
    var languagesParam := SerializeLanguages(languages);
    if Truthy(languagesParam) {
      params := Set(params, "languages", languagesParam.value);
    } else {
      params := Delete(params, "languages");
    }
    var starsParams := SerializeStarsFilter(starsFilter);
    if Truthy(starsParams.stars) && Truthy(starsParams.starsOp) {
      params := Set(params, "stars", starsParams.stars.value);
      params := Set(params, "starsOp", starsParams.starsOp.value);
    } else {
      params := Delete(params, "stars");
      params := Delete(params, "starsOp");
    }
    var sortParam := SerializeSortOrders(sortOrders);
    if Truthy(sortParam) {
      params := Set(params, "sort", sortParam.value);
    } else {
      params := Delete(params, "sort");
    }
    var existingUtmSource := Get(params, "utm_source");
    if Truthy(existingUtmSource) {
      params := Set(params, "utm_source", existingUtmSource.value);
    }
  }

  /** The rewrite touches no key but its own: the other pairs stay, in order,
      and `get` of any other key is unchanged. */
  lemma RewriteKeepsOtherKeys(q: Query, languages: seq<string>, starsFilter: Option<Stars>, sortOrders: seq<Order>)
    ensures Others(RewriteQuery(q, languages, starsFilter, sortOrders), WrittenKeys) == Others(q, WrittenKeys)
    ensures forall m :: m !in WrittenKeys ==> Get(RewriteQuery(q, languages, starsFilter, sortOrders), m) == Get(q, m)
  {
    var q1 := WriteLanguages(q, languages);
    var q2 := WriteStars(q1, starsFilter);
    var q3 := WriteSort(q2, sortOrders);
    var ls := SerializeLanguages(languages);
    if Truthy(ls) { OthersSet(q, "languages", ls.value, WrittenKeys); } else { OthersDelete(q, "languages", WrittenKeys); }
    var sp := SerializeStarsFilter(starsFilter);
    if Truthy(sp.stars) && Truthy(sp.starsOp) {
      OthersSet(q1, "stars", sp.stars.value, WrittenKeys);
      OthersSet(Set(q1, "stars", sp.stars.value), "starsOp", sp.starsOp.value, WrittenKeys);
    } else {
      OthersDelete(q1, "stars", WrittenKeys);
      OthersDelete(Delete(q1, "stars"), "starsOp", WrittenKeys);
    }
    var so := SerializeSortOrders(sortOrders);
    if Truthy(so) { OthersSet(q2, "sort", so.value, WrittenKeys); } else { OthersDelete(q2, "sort", WrittenKeys); }
    var utm := Get(q3, "utm_source");
    if Truthy(utm) { OthersSet(q3, "utm_source", utm.value, WrittenKeys); }
  }

  /** `getUtmSource`, with `window.location.search` passed in. */
  function GetUtmSource(q: Query): Option<string> {
    Get(q, "utm_source")
  }

  /** What `getUtmSource` reads is the same before and after the rewrite. */
  lemma RewriteKeepsUtmSource(q: Query, languages: seq<string>, starsFilter: Option<Stars>, sortOrders: seq<Order>)
    ensures GetUtmSource(RewriteQuery(q, languages, starsFilter, sortOrders)) == GetUtmSource(q)
  {
  }

  /** After the rewrite `stars` and `starsOp` are both present or both absent. */
  lemma RewritePairsStars(q: Query, languages: seq<string>, starsFilter: Option<Stars>, sortOrders: seq<Order>)
    ensures var r := RewriteQuery(q, languages, starsFilter, sortOrders);
      (Has(r, "stars") <==> Has(r, "starsOp")) && (Has(r, "stars") <==> starsFilter.Some?)
  {
    var q1 := WriteLanguages(q, languages);
    var q2 := WriteStars(q1, starsFilter);
    var q3 := WriteSort(q2, sortOrders);
    var r := KeepUtmSource(q3);
    assert Get(q2, "stars").Some? <==> starsFilter.Some?;
    assert Get(q2, "starsOp").Some? <==> starsFilter.Some?;
    assert Get(q3, "stars") == Get(q2, "stars") && Get(q3, "starsOp") == Get(q2, "starsOp");
    assert Get(r, "stars") == Get(q3, "stars") && Get(r, "starsOp") == Get(q3, "starsOp");
  }

  /** A non-empty list of orders serializes to a non-empty string. */
  lemma SortParamTruthy(orders: seq<Order>)
    requires |orders| >= 1
    ensures Truthy(SerializeSortOrders(orders))
  {
    var tokens := OrderTokens(orders);
    assert tokens[0] == OrderToken(orders[0]);
    assert |OrderToken(orders[0])| > 0;
    JoinNonEmpty(tokens, ',');
  }

  lemma WriteLanguagesGet(q: Query, languages: seq<string>)
    requires Truthy(SerializeLanguages(languages)) || languages == []
    ensures Get(WriteLanguages(q, languages), "languages") == SerializeLanguages(languages)
    ensures forall m :: m != "languages" ==> Get(WriteLanguages(q, languages), m) == Get(q, m)
  {
  }

  lemma WriteStarsGet(q: Query, starsFilter: Option<Stars>)
    ensures Get(WriteStars(q, starsFilter), "stars") == SerializeStarsFilter(starsFilter).stars
    ensures Get(WriteStars(q, starsFilter), "starsOp") == SerializeStarsFilter(starsFilter).starsOp
    ensures forall m :: m != "stars" && m != "starsOp" ==> Get(WriteStars(q, starsFilter), m) == Get(q, m)
  {
    assert "stars" != "starsOp";
  }

  lemma WriteSortGet(q: Query, sortOrders: seq<Order>)
    requires |sortOrders| >= 1
    ensures Get(WriteSort(q, sortOrders), "sort") == SerializeSortOrders(sortOrders)
    ensures forall m :: m != "sort" ==> Get(WriteSort(q, sortOrders), m) == Get(q, m)
  {
    SortParamTruthy(sortOrders);
  }

  lemma KeepUtmSourceGet(q: Query)
    ensures forall m :: Get(KeepUtmSource(q), m) == Get(q, m)
  {
  }

  /** What the rewrite leaves under the three keys it serializes. */
  lemma RewriteWrites(q: Query, languages: seq<string>, starsFilter: Option<Stars>, sortOrders: seq<Order>)
    requires CleanList(languages)
    requires |sortOrders| >= 1
    ensures var r := RewriteQuery(q, languages, starsFilter, sortOrders);
      && Get(r, "languages") == SerializeLanguages(languages)
      && Get(r, "stars") == SerializeStarsFilter(starsFilter).stars
      && Get(r, "starsOp") == SerializeStarsFilter(starsFilter).starsOp
      && Get(r, "sort") == SerializeSortOrders(sortOrders)
  {
    if |languages| > 0 {
      JoinNonEmpty(languages, ',');
    }
    var q1 := WriteLanguages(q, languages);
    var q2 := WriteStars(q1, starsFilter);
    var q3 := WriteSort(q2, sortOrders);
    WriteLanguagesGet(q, languages);
    WriteStarsGet(q1, starsFilter);
    WriteSortGet(q2, sortOrders);
    KeepUtmSourceGet(q3);
    assert "languages" != "stars" && "languages" != "starsOp" && "languages" != "sort";
    assert "stars" != "sort" && "starsOp" != "sort";
  }

  /** Reading back what the rewrite wrote gives the state that was written:
      the codec round trip on a whole query. */
  lemma RewriteRoundTrip(q: Query, languages: seq<string>, starsFilter: Option<Stars>, sortOrders: seq<Order>)
    requires CleanList(languages)
    requires |sortOrders| >= 1 && forall k :: 0 <= k < |sortOrders| ==> CleanOrder(sortOrders[k])
    ensures ReadStateFromUrl(RewriteQuery(q, languages, starsFilter, sortOrders)) == UrlState(languages, starsFilter, sortOrders)
  {
    RewriteWrites(q, languages, starsFilter, sortOrders);
    LanguagesRoundTrip(languages);
    StarsRoundTrip(starsFilter);
    SortOrdersRoundTrip(sortOrders);
  }

  // ---------------------------------------------------------------- the bridge

  /** One call of a registered callback: which one, and the flag and the
      address bar it could observe when it ran. */
  datatype Invocation = Invocation(callback: nat, isUpdatingUrl: bool, location: Query)

  /** The module state of `urlParams.ts` (`isUpdatingUrl`, `urlUpdateCallbacks`)
      together with the address bar it writes. Callbacks are named by the
      number `onUrlUpdate` hands out; the set keeps insertion order, as a
      JavaScript `Set` iterates. `pendingClears` counts the 50 ms timers that
      have been started and have not fired. */
  class UrlBridge {
    var location: Query
    var isUpdatingUrl: bool
    var pendingClears: nat
    var callbacks: seq<nat>
    var nextCallback: nat

    ghost predicate Valid()
      reads this
    {
      && Distinct(callbacks)
      && (forall k :: 0 <= k < |callbacks| ==> callbacks[k] < nextCallback)
      && (isUpdatingUrl ==> pendingClears > 0)
    }

    /** Page load: the address bar holds `location`, the flag is clear and no
        callback is registered. */
    constructor (location: Query)
      ensures Valid()
      ensures this.location == location && !isUpdatingUrl && pendingClears == 0 && callbacks == []
    {
      this.location := location;
      isUpdatingUrl := false;
      pendingClears := 0;
      callbacks := [];
      nextCallback := 0;
    }

    /** `updateUrlParams`: raise the flag, rewrite the query step by step, push
        it to the address bar, call every registered callback once in
        registration order, and start the timer that will clear the flag. */
    method UpdateUrlParams(languages: seq<string>, starsFilter: Option<Stars>, sortOrders: seq<Order>)
      returns (invoked: seq<Invocation>)
      requires Valid()
      modifies this
      ensures Valid()
      ensures location == RewriteQuery(old(location), languages, starsFilter, sortOrders)
      ensures isUpdatingUrl && pendingClears == old(pendingClears) + 1
      ensures callbacks == old(callbacks) && nextCallback == old(nextCallback)
      ensures |invoked| == |callbacks|
      ensures forall k :: 0 <= k < |invoked| ==> invoked[k] == Invocation(callbacks[k], true, location)
    {
      isUpdatingUrl := true;
      location := RewriteParams(location, languages, starsFilter, sortOrders);
      invoked := NotifyAll();
      pendingClears := pendingClears + 1;
    }

    /** `urlUpdateCallbacks.forEach(callback => callback())`: each registered
        callback runs once, in registration order, and sees the current flag and
        address bar. */
    method NotifyAll() returns (invoked: seq<Invocation>)
      ensures |invoked| == |callbacks|
      ensures forall k :: 0 <= k < |invoked| ==> invoked[k] == Invocation(callbacks[k], isUpdatingUrl, location)
    {
      invoked := [];
      for k := 0 to |callbacks|
        invariant |invoked| == k
        invariant forall j :: 0 <= j < k ==> invoked[j] == Invocation(callbacks[j], isUpdatingUrl, location)
      {
        invoked := invoked + [Invocation(callbacks[k], isUpdatingUrl, location)];
      }
    }

    /** `onUrlUpdate`: register a new callback; the number returned stands for
        the unsubscribe function. */
    method OnUrlUpdate() returns (id: nat)
      requires Valid()
      modifies this
      ensures Valid()
      ensures id !in old(callbacks) && callbacks == old(callbacks) + [id]
      ensures location == old(location) && isUpdatingUrl == old(isUpdatingUrl) && pendingClears == old(pendingClears)
      ensures nextCallback == old(nextCallback) + 1
    {
      id := nextCallback;
      callbacks := callbacks + [id];
      nextCallback := nextCallback + 1;
    }

    /** The function `onUrlUpdate` returned: removes that callback and no other. */
    method Unsubscribe(id: nat)
      requires Valid()
      modifies this
      ensures Valid()
      ensures callbacks == Without(old(callbacks), id)
      ensures location == old(location) && isUpdatingUrl == old(isUpdatingUrl) && pendingClears == old(pendingClears)
      ensures nextCallback == old(nextCallback)
    {
      WithoutKeepsDistinct(callbacks, id);
      var kept := Without(callbacks, id);
      assert forall k :: 0 <= k < |kept| ==> kept[k] in callbacks;
      callbacks := kept;
    }

    /** `getIsUpdatingUrl` */
    method GetIsUpdatingUrl() returns (b: bool)
      ensures b == isUpdatingUrl
    {
      b := isUpdatingUrl;
    }

    /** A 50 ms timer fires and clears the flag (whichever update started it). */
    method ClearFlag()
      requires Valid()
      modifies this
      ensures Valid()
      ensures old(pendingClears) > 0 ==> !isUpdatingUrl && pendingClears == old(pendingClears) - 1
      ensures old(pendingClears) == 0 ==> isUpdatingUrl == old(isUpdatingUrl) && pendingClears == 0
      ensures location == old(location) && callbacks == old(callbacks)
    {
      if pendingClears > 0 {
        pendingClears := pendingClears - 1;
        isUpdatingUrl := false;
      }
    }

    /** The address bar changes by other means (back/forward navigation, another
        script): no callback runs and the flag is untouched. */
    method Navigate(q: Query)
      requires Valid()
      modifies this
      ensures Valid()
      ensures location == q
      ensures isUpdatingUrl == old(isUpdatingUrl) && pendingClears == old(pendingClears) && callbacks == old(callbacks)
    {
      location := q;
    }
  }

  /** `s` with every occurrence of `x` removed, order kept. */
  function Without(s: seq<nat>, x: nat): (r: seq<nat>)
    ensures forall y :: y in r <==> y in s && y != x
    ensures |r| <= |s|
    ensures SubsequenceOf(r, s)
  {
    if |s| == 0 then []
    else
      var rest := Without(s[1..], x);
      if s[0] == x then rest
      else
        assert ([s[0]] + rest)[1..] == rest;
        [s[0]] + rest
  }

  predicate Distinct(s: seq<nat>) {
    forall i, j :: 0 <= i < j < |s| ==> s[i] != s[j]
  }

  lemma {:induction false} WithoutKeepsDistinct(s: seq<nat>, x: nat)
    requires Distinct(s)
    ensures Distinct(Without(s, x))
  {
    if |s| > 0 {
      WithoutKeepsDistinct(s[1..], x);
      assert s[0] !in s[1..];
      assert s[0] !in Without(s[1..], x);
    }
  }
}

/**
  The sort store of `src/features/hooks/useSorting.ts`: the order list, its
  four handlers (pure maps over the previous list) and the check that adopts
  the address bar's sort when someone else changed it.
*/
module Sorting {
  import opened Wrappers
  import opened SearchParams
  import opened Types
  import opened UrlParams

  /** Initial orders: the caller's `initialSortOrders` whenever supplied (the
      `??` keeps even an empty list), otherwise the address bar's decoding. */
  function InitialSortOrders(location: Query, initialSortOrders: Option<seq<Order>>): (r: seq<Order>)
    ensures initialSortOrders.Some? ==> r == initialSortOrders.value
    ensures initialSortOrders.None? ==> r == SortOrdersOf(Get(location, "sort")) && |r| >= 1
  {
    initialSortOrders.GetOr(ReadStateFromUrl(location).sortOrders)
  }

  /** `handleAddSortField`: the default criterion is appended. */
  function AddSortField(orders: seq<Order>): (r: seq<Order>)
    ensures |r| == |orders| + 1 && r[..|orders|] == orders
    ensures r[|orders|] == Order(DefaultSortField, Desc)
  {
    orders + [Order(DefaultSortField, Desc)]
  }

  /** `prev.filter((_, i) => i !== index)`, written from the last element back. */
  function DropIndex(orders: seq<Order>, index: int): seq<Order>
  {
    if |orders| == 0 then []
    else DropIndex(orders[..|orders| - 1], index)
         + (if |orders| - 1 == index then [] else [orders[|orders| - 1]])
  }

  /** Dropping an index in range removes exactly that entry; any other index
      keeps the list. */
  lemma {:induction false} DropIndexSpec(orders: seq<Order>, index: int)
    ensures 0 <= index < |orders| ==> DropIndex(orders, index) == orders[..index] + orders[index + 1..]
    ensures !(0 <= index < |orders|) ==> DropIndex(orders, index) == orders
    decreases |orders|
  {
    if |orders| == 0 {
    } else {
      var init := orders[..|orders| - 1];
      DropIndexSpec(init, index);
      if index == |orders| - 1 {
        assert init == orders[..index];
        assert orders[index + 1..] == [];
      } else if 0 <= index < |orders| - 1 {
        assert init[..index] == orders[..index];
        assert init[index + 1..] + [orders[|orders| - 1]] == orders[index + 1..];
      } else {
        assert init + [orders[|orders| - 1]] == orders;
      }
    }
  }

  /** `handleRemoveSortField`: with more than one entry, the entry at `index`
      is removed (nothing when out of range); a single entry is never removed. */
  function RemoveSortField(orders: seq<Order>, index: int): (r: seq<Order>)
    ensures |orders| <= 1 ==> r == orders
    ensures |orders| > 1 && 0 <= index < |orders| ==> r == orders[..index] + orders[index + 1..]
    ensures |orders| > 1 && !(0 <= index < |orders|) ==> r == orders
    ensures |orders| >= 1 ==> |r| >= 1
  {
    DropIndexSpec(orders, index);
    if |orders| > 1 then DropIndex(orders, index) else orders
  }

  /** The handlers' `map((o, i) => i === index ? … : o)`: `change` applies
      to the entry at `index` only. */
  function ChangeAt(orders: seq<Order>, index: int, change: Order -> Order): (r: seq<Order>)
    ensures |r| == |orders|
    ensures forall i :: 0 <= i < |orders| && i != index ==> r[i] == orders[i]
    ensures 0 <= index < |orders| ==> r[index] == change(orders[index])
  {
    seq(|orders|, i requires 0 <= i < |orders| => if i == index then change(orders[i]) else orders[i])
  }

  /** `handleSortFieldChange`: only the entry at `index` gets the new field. */
  function SortFieldChanged(orders: seq<Order>, index: int, field: string): (r: seq<Order>)
    ensures |r| == |orders|
    ensures forall i :: 0 <= i < |orders| && i != index ==> r[i] == orders[i]
    ensures 0 <= index < |orders| ==> r[index] == orders[index].(field := field)
  {
    ChangeAt(orders, index, (o: Order) => o.(field := field))
  }

  /** `handleSortTypeChange`: only the entry at `index` gets the new direction. */
  function SortTypeChanged(orders: seq<Order>, index: int, sortType: SortType): (r: seq<Order>)
    ensures |r| == |orders|
    ensures forall i :: 0 <= i < |orders| && i != index ==> r[i] == orders[i]
    ensures 0 <= index < |orders| ==> r[index] == orders[index].(sortType := sortType)
  {
    ChangeAt(orders, index, (o: Order) => o.(sortType := sortType))
  }

  /** An index out of range leaves the list as it is under both changes. */
  lemma OutOfRangeChangeIsIdentity(orders: seq<Order>, index: int, field: string, sortType: SortType)
    requires !(0 <= index < |orders|)
    ensures SortFieldChanged(orders, index, field) == orders
    ensures SortTypeChanged(orders, index, sortType) == orders
  {
    assert SortFieldChanged(orders, index, field) == orders;
    assert SortTypeChanged(orders, index, sortType) == orders;
  }

  /** A non-empty order list stays non-empty under all four handlers. */
  lemma HandlersKeepNonEmpty(orders: seq<Order>, index: int, field: string, sortType: SortType)
    requires |orders| >= 1
    ensures |AddSortField(orders)| >= 1
    ensures |RemoveSortField(orders, index)| >= 1
    ensures |SortFieldChanged(orders, index, field)| >= 1
    ensures |SortTypeChanged(orders, index, sortType)| >= 1
  {
  }

  /** `checkUrlChange` on (orders, lastUrl): adopt the address bar's sort only
      when it differs from `lastUrl` and the bridge is not writing; remember it always. */
  function AfterSortUrlCheck(orders: seq<Order>, lastUrl: Query, currentUrl: Query, isUpdatingUrl: bool)
    : (r: (seq<Order>, Query))
    ensures r.1 == currentUrl
    ensures currentUrl != lastUrl && !isUpdatingUrl ==> r.0 == SortOrdersOf(Get(currentUrl, "sort"))
    ensures currentUrl == lastUrl || isUpdatingUrl ==> r.0 == orders
    ensures |orders| >= 1 ==> |r.0| >= 1
  {
    if currentUrl != lastUrl && !isUpdatingUrl then (ReadStateFromUrl(currentUrl).sortOrders, currentUrl)
    else (orders, currentUrl)
  }

  /** The `useSorting` hook instance; `subscription` as in the filter store. */
  class SortStore {
    var sortOrders: seq<Order>
    var lastUrl: Query
    var subscription: Option<nat>
    const syncFromUrl: bool

    constructor (location: Query, initialSortOrders: Option<seq<Order>>, syncFromUrl: bool)
      ensures sortOrders == InitialSortOrders(location, initialSortOrders)
      ensures lastUrl == location && subscription.None? && this.syncFromUrl == syncFromUrl
    {
      sortOrders := InitialSortOrders(location, initialSortOrders);
      lastUrl := location;
      subscription := None;
      this.syncFromUrl := syncFromUrl;
    }

    /** The effect: with `syncFromUrl`, register the `lastUrl` callback. */
    method Mount(bridge: UrlBridge)
      requires bridge.Valid()
      modifies this, bridge
      ensures bridge.Valid() && bridge.location == old(bridge.location) && bridge.isUpdatingUrl == old(bridge.isUpdatingUrl)
      ensures bridge.pendingClears == old(bridge.pendingClears)
      ensures syncFromUrl ==> subscription.Some? && bridge.callbacks == old(bridge.callbacks) + [subscription.value]
      ensures !syncFromUrl ==> subscription == old(subscription) && unchanged(bridge)
      ensures sortOrders == old(sortOrders) && lastUrl == old(lastUrl)
    {
      if syncFromUrl {
        var id := bridge.OnUrlUpdate();
        subscription := Some(id);
      }
    }

    /** The effect's cleanup. */
    method Unmount(bridge: UrlBridge)
      requires bridge.Valid()
      modifies this, bridge
      ensures bridge.Valid() && bridge.location == old(bridge.location)
      ensures bridge.isUpdatingUrl == old(bridge.isUpdatingUrl) && bridge.pendingClears == old(bridge.pendingClears)
      ensures bridge.nextCallback == old(bridge.nextCallback)
      ensures old(subscription).Some? ==> bridge.callbacks == Without(old(bridge.callbacks), old(subscription).value)
      ensures old(subscription).None? ==> unchanged(bridge)
      ensures subscription.None? && sortOrders == old(sortOrders) && lastUrl == old(lastUrl)
    {
      if subscription.Some? {
        bridge.Unsubscribe(subscription.value);
        subscription := None;
      }
    }

    /** The registered callback: `lastUrl` becomes the address bar just written. */
    method OnUrlUpdate(call: Invocation)
      modifies this
      ensures subscription == Some(call.callback) ==> lastUrl == call.location
      ensures subscription != Some(call.callback) ==> lastUrl == old(lastUrl)
      ensures sortOrders == old(sortOrders) && subscription == old(subscription)
    {
      if subscription == Some(call.callback) {
        lastUrl := call.location;
      }
    }

    /** `checkUrlChange` on a `popstate` event or a poll tick. */
    method CheckUrlChange(bridge: UrlBridge)
      modifies this
      ensures syncFromUrl ==> (sortOrders, lastUrl) == AfterSortUrlCheck(old(sortOrders), old(lastUrl), bridge.location, bridge.isUpdatingUrl)
      ensures !syncFromUrl ==> sortOrders == old(sortOrders) && lastUrl == old(lastUrl)
      ensures subscription == old(subscription)
    {
      if !syncFromUrl {
        return;
      }
      var currentUrl := bridge.location;
      if currentUrl != lastUrl && !bridge.isUpdatingUrl {
        var newUrlState := ReadStateFromUrl(currentUrl);
        sortOrders := newUrlState.sortOrders;
      }
      lastUrl := currentUrl;
    }

    method HandleAddSortField()
      modifies this
      ensures sortOrders == AddSortField(old(sortOrders)) && lastUrl == old(lastUrl)
      ensures subscription == old(subscription)
    {
      sortOrders := AddSortField(sortOrders);
    }

    method HandleRemoveSortField(index: int)
      modifies this
      ensures sortOrders == RemoveSortField(old(sortOrders), index) && lastUrl == old(lastUrl)
      ensures subscription == old(subscription)
    {
      sortOrders := RemoveSortField(sortOrders, index);
    }

    method HandleSortFieldChange(index: int, field: string)
      modifies this
      ensures sortOrders == SortFieldChanged(old(sortOrders), index, field) && lastUrl == old(lastUrl)
      ensures subscription == old(subscription)
    {
      sortOrders := SortFieldChanged(sortOrders, index, field);
    }

    method HandleSortTypeChange(index: int, sortType: SortType)
      modifies this
      ensures sortOrders == SortTypeChanged(old(sortOrders), index, sortType) && lastUrl == old(lastUrl)
      ensures subscription == old(subscription)
    {
      sortOrders := SortTypeChanged(sortOrders, index, sortType);
    }
  }
}

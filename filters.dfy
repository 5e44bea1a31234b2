/**
  The filter store of `src/features/hooks/useFilters.ts`: four state cells
  (languages, licenses, licenses operator, stars filter), their handlers, and
  the check that adopts an address bar changed by someone else, guarded by
  `lastUrl` and the bridge's self-update flag.
*/
module Filters {
  import opened Wrappers
  import opened JsNumber
  import opened SearchParams
  import opened Types
  import opened UrlParams

  /** `readStateFromUrl` returns no licenses, yet the hook reads
      `urlState.licenses` and `urlState.licensesOperator`; what those reads
      yield is passed in. */
  datatype LicenseReading = LicenseReading(licenses: seq<string>, operator: SetOperator)

  /** The four state cells. */
  datatype FilterState = FilterState(
    languages: seq<string>,
    licenses: seq<string>,
    licensesOperator: SetOperator,
    starsFilter: Option<Stars>)

  /** The state together with `lastUrlRef.current`. */
  datatype Tracked = Tracked(state: FilterState, lastUrl: Query)

  /** The filter state the address bar `q` stands for. */
  function UrlFilterState(q: Query, urlLicenses: LicenseReading): FilterState {
    var urlState := ReadStateFromUrl(q);
    FilterState(urlState.languages, urlLicenses.licenses, urlLicenses.operator, urlState.starsFilter)
  }

  /** Initial languages: the URL's when the `languages` key is present (even if
      empty), otherwise the caller's `initialLanguages`, otherwise none. */
  function InitialLanguages(location: Query, initialLanguages: Option<seq<string>>): (r: seq<string>)
    ensures Has(location, "languages") ==> r == DeserializeLanguages(Get(location, "languages"))
    ensures !Has(location, "languages") && initialLanguages.Some? ==> r == initialLanguages.value
    ensures !Has(location, "languages") && initialLanguages.None? ==> r == []
  {
    var urlState := ReadStateFromUrl(location);
    if Has(location, "languages") then urlState.languages else initialLanguages.GetOr(urlState.languages)
  }

  /** Initial stars filter: the URL's decoding when both `stars` and `starsOp`
      are present, even if it decodes to null; otherwise `initialStarsFilter`,
      whose default (`None`: the argument was omitted) is `{10, GREATER}`;
      `Some(None)` is an explicit null. */
  function InitialStarsFilter(location: Query, initialStarsFilter: Option<Option<Stars>>): (r: Option<Stars>)
    ensures Has(location, "stars") && Has(location, "starsOp")
      ==> r == DeserializeStarsFilter(Get(location, "stars"), Get(location, "starsOp"))
    ensures !(Has(location, "stars") && Has(location, "starsOp")) && initialStarsFilter.Some?
      ==> r == initialStarsFilter.value
    ensures !(Has(location, "stars") && Has(location, "starsOp")) && initialStarsFilter.None?
      ==> r == Some(DefaultStarsFilter)
  {
    var hasStarsInUrl := Has(location, "stars") && Has(location, "starsOp");
    if hasStarsInUrl then ReadStateFromUrl(location).starsFilter
    else initialStarsFilter.GetOr(Some(DefaultStarsFilter))
  }

  /** The stars filter `handleStarsValueChange` sets for the input text: null for
      `''`; otherwise `parseInt` of it (0 for NaN), with the current operator,
      or `GREATER` when there was no filter. */
  function StarsAfterValueInput(current: Option<Stars>, input: string): (r: Option<Stars>)
    ensures r.None? <==> input == ""
    ensures r.Some? ==> r.value.value == ParseInt(input).GetOr(0)
    ensures r.Some? ==> r.value.operator == (if current.Some? then current.value.operator else Greater)
  {
    if input == "" then None
    else
      var value := ParseInt(input);
      var v := if value.None? then 0 else value.value;
      if current.Some? then Some(current.value.(value := v)) else Some(Stars(v, Greater))
  }

  /** `checkUrlChange` on the tracked state: adopt the address bar only when it
      differs from `lastUrl` and the bridge is not writing; remember it always. */
  function AfterUrlCheck(t: Tracked, currentUrl: Query, isUpdatingUrl: bool, urlLicenses: LicenseReading): (r: Tracked)
    ensures r.lastUrl == currentUrl
    ensures currentUrl != t.lastUrl && !isUpdatingUrl ==> r.state == UrlFilterState(currentUrl, urlLicenses)
    ensures currentUrl == t.lastUrl || isUpdatingUrl ==> r.state == t.state
  {
    var state := if currentUrl != t.lastUrl && !isUpdatingUrl then UrlFilterState(currentUrl, urlLicenses) else t.state;
    Tracked(state, currentUrl)
  }

  /** An address bar first seen while the flag was up is never adopted later:
      the first check records it, so the next one finds nothing new. */
  lemma UrlSeenDuringSelfUpdateIsDropped(t: Tracked, q: Query, l1: LicenseReading, l2: LicenseReading)
    ensures AfterUrlCheck(AfterUrlCheck(t, q, true, l1), q, false, l2) == Tracked(t.state, q)
  {
  }

  /** A check that finds the address bar the subscription callback just
      recorded changes nothing, whatever the flag. */
  lemma SelfWrittenUrlIsNotAdopted(t: Tracked, q: Query, flag: bool, l: LicenseReading)
    ensures AfterUrlCheck(t.(lastUrl := q), q, flag, l) == Tracked(t.state, q)
  {
  }

  /** The `useFilters` hook instance. `subscription` is the callback number
      of the `onUrlUpdate` registration made by the effect. */
  class FilterStore {
    var selectedLanguages: seq<string>
    var selectedLicenses: seq<string>
    var licensesOperator: SetOperator
    var starsFilter: Option<Stars>
    var lastUrl: Query
    var subscription: Option<nat>
    const syncFromUrl: bool

    function State(): FilterState
      reads this
    {
      FilterState(selectedLanguages, selectedLicenses, licensesOperator, starsFilter)
    }

    function Current(): Tracked
      reads this
    {
      Tracked(State(), lastUrl)
    }

    /** First render: each cell takes its initial value by the priority rules,
        `lastUrl` is the address bar at mount. */
    constructor (location: Query, initialLanguages: Option<seq<string>>, initialStarsFilter: Option<Option<Stars>>,
                 syncFromUrl: bool, urlLicenses: LicenseReading)
      ensures State() == FilterState(InitialLanguages(location, initialLanguages), urlLicenses.licenses,
                                     urlLicenses.operator, InitialStarsFilter(location, initialStarsFilter))
      ensures lastUrl == location && subscription.None? && this.syncFromUrl == syncFromUrl
    {
      selectedLanguages := InitialLanguages(location, initialLanguages);
      selectedLicenses := urlLicenses.licenses;
      licensesOperator := urlLicenses.operator;
      starsFilter := InitialStarsFilter(location, initialStarsFilter);
      lastUrl := location;
      subscription := None;
      this.syncFromUrl := syncFromUrl;
    }

    /** The effect: with `syncFromUrl`, register the callback that records the
        address bar after the bridge writes it. */
    method Mount(bridge: UrlBridge)
      requires bridge.Valid()
      modifies this, bridge
      ensures bridge.Valid() && bridge.location == old(bridge.location) && bridge.isUpdatingUrl == old(bridge.isUpdatingUrl)
      ensures bridge.pendingClears == old(bridge.pendingClears)
      ensures syncFromUrl ==> subscription.Some? && bridge.callbacks == old(bridge.callbacks) + [subscription.value]
      ensures !syncFromUrl ==> subscription == old(subscription) && unchanged(bridge)
      ensures Current() == old(Current())
    {
      if syncFromUrl {
        var id := bridge.OnUrlUpdate();
        subscription := Some(id);
      }
    }

    /** The effect's cleanup: unregister the callback. */
    method Unmount(bridge: UrlBridge)
      requires bridge.Valid()
      modifies this, bridge
      ensures bridge.Valid() && bridge.location == old(bridge.location)
      ensures bridge.isUpdatingUrl == old(bridge.isUpdatingUrl) && bridge.pendingClears == old(bridge.pendingClears)
      ensures bridge.nextCallback == old(bridge.nextCallback)
      ensures old(subscription).Some? ==> bridge.callbacks == Without(old(bridge.callbacks), old(subscription).value)
      ensures old(subscription).None? ==> unchanged(bridge)
      ensures subscription.None? && Current() == old(Current())
    {
      if subscription.Some? {
        bridge.Unsubscribe(subscription.value);
        subscription := None;
      }
    }

    /** The registered callback, when the bridge calls it: `lastUrl` becomes the
        address bar the bridge just wrote. Calls of other callbacks do nothing here. */
    method OnUrlUpdate(call: Invocation)
      modifies this
      ensures subscription == Some(call.callback) ==> lastUrl == call.location
      ensures subscription != Some(call.callback) ==> lastUrl == old(lastUrl)
      ensures State() == old(State()) && subscription == old(subscription)
    {
      if subscription == Some(call.callback) {
        lastUrl := call.location;
      }
    }

    /** `checkUrlChange`, run by a `popstate` event or by the 100 ms poll; without
        `syncFromUrl` neither is listened to. */
    method CheckUrlChange(bridge: UrlBridge, urlLicenses: LicenseReading)
      modifies this
      ensures syncFromUrl ==> Current() == AfterUrlCheck(old(Current()), bridge.location, bridge.isUpdatingUrl, urlLicenses)
      ensures !syncFromUrl ==> Current() == old(Current())
      ensures subscription == old(subscription)
    {
      if !syncFromUrl {
        return;
      }
      var currentUrl := bridge.location;
      if currentUrl != lastUrl && !bridge.isUpdatingUrl {
        var newUrlState := ReadStateFromUrl(currentUrl);
        selectedLanguages := newUrlState.languages;
        selectedLicenses := urlLicenses.licenses;
        licensesOperator := urlLicenses.operator;
        starsFilter := newUrlState.starsFilter;
      }
      lastUrl := currentUrl;
    }

    /** `handleLanguageChange`: only the languages change. */
    method HandleLanguageChange(languages: seq<string>)
      modifies this
      ensures State() == old(State()).(languages := languages)
      ensures lastUrl == old(lastUrl) && subscription == old(subscription)
    {
      selectedLanguages := languages;
    }

    /** `handleLicenseChange`: only the licenses change. */
    method HandleLicenseChange(licenses: seq<string>)
      modifies this
      ensures State() == old(State()).(licenses := licenses)
      ensures lastUrl == old(lastUrl) && subscription == old(subscription)
    {
      selectedLicenses := licenses;
    }

    /** `handleLicensesOperatorChange`: only the operator changes. */
    method HandleLicensesOperatorChange(operator: SetOperator)
      modifies this
      ensures State() == old(State()).(licensesOperator := operator)
      ensures lastUrl == old(lastUrl) && subscription == old(subscription)
    {
      licensesOperator := operator;
    }

    /** `handleStarsValueChange` with the input's text. */
    method HandleStarsValueChange(inputValue: string)
      modifies this
      ensures State() == old(State()).(starsFilter := StarsAfterValueInput(old(starsFilter), inputValue))
      ensures lastUrl == old(lastUrl) && subscription == old(subscription)
    {
      if inputValue == "" {
        starsFilter := None;
        return;
      }
      var value := ParseInt(inputValue);
      var v := if value.None? then 0 else value.value;
      if starsFilter.Some? {
        starsFilter := Some(starsFilter.value.(value := v));
      } else {
        starsFilter := Some(Stars(v, Greater));
      }
    }

    /** `handleStarsOperatorChange`: the value is kept, or 0 when there was no filter. */
    method HandleStarsOperatorChange(operator: StarsOperator)
      modifies this
      ensures starsFilter == Some(Stars(if old(starsFilter).Some? then old(starsFilter).value.value else 0, operator))
      ensures State() == old(State()).(starsFilter := starsFilter)
      ensures lastUrl == old(lastUrl) && subscription == old(subscription)
    {
      if starsFilter.Some? {
        starsFilter := Some(starsFilter.value.(operator := operator));
      } else {
        starsFilter := Some(Stars(0, operator));
      }
    }

    /** `handleRemoveStarsFilter` */
    method HandleRemoveStarsFilter()
      modifies this
      ensures State() == old(State()).(starsFilter := None)
      ensures lastUrl == old(lastUrl) && subscription == old(subscription)
    {
      starsFilter := None;
    }

    /** `handleAddStarsFilter`: `{100, GREATER}`. */
    method HandleAddStarsFilter()
      modifies this
      ensures State() == old(State()).(starsFilter := Some(Stars(100, Greater)))
      ensures lastUrl == old(lastUrl) && subscription == old(subscription)
    {
      starsFilter := Some(Stars(100, Greater));
    }

    /** `handleResetLanguages`: the languages only. */
    method HandleResetLanguages()
      modifies this
      ensures State() == old(State()).(languages := [])
      ensures lastUrl == old(lastUrl) && subscription == old(subscription)
    {
      selectedLanguages := [];
    }

    /** `handleResetLicenses`: licenses cleared, operator back to `IN`, nothing else. */
    method HandleResetLicenses()
      modifies this
      ensures State() == old(State()).(licenses := [], licensesOperator := In)
      ensures lastUrl == old(lastUrl) && subscription == old(subscription)
    {
      selectedLicenses := [];
      licensesOperator := In;
    }

    /** `handleResetAll`: every cell back to empty, `IN`, no stars filter. */
    method HandleResetAll()
      modifies this
      ensures State() == FilterState([], [], In, None)
      ensures lastUrl == old(lastUrl) && subscription == old(subscription)
    {
      selectedLanguages := [];
      selectedLicenses := [];
      licensesOperator := In;
      starsFilter := None;
    }
  }
}

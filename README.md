# yagfi-front: client state machinery, modelled in Dafny

This project models the client-side core of yagfi-front. yagfi-front is a
React front end that helps people find "good first issues" on GitHub. The
model covers these parts:

- **The query codec** (`UrlParams`). It writes the filter and sort state into
  the address bar and reads it back:
  - languages as a comma list;
  - the stars filter as the `stars`/`starsOp` pair;
  - the sort orders as `field:type` tokens.
- **The URL bridge** (`UrlParams.UrlBridge`). This is the module state of
  `urlParams.ts`: the self-update flag, its 50 ms timers, and the callbacks
  it notifies after each rewrite.
- **The filter and sort stores** (`Filters.FilterStore`, `Sorting.SortStore`).
  These hold the hooks' state cells and handlers, and the check that adopts
  an address bar someone else changed.
- **The request builder** (`RequestBuilder`). It turns the seven selection
  criteria into the request payload.
- **The paginated fetch controller** (`InfiniteIssues.Controller`):
  - the first-page reset effect;
  - `loadMore` with its `cancelled` flags;
  - completions that arrive in any order.
- **The random issue picker** (`RandomIssue.Picker`). It makes up to five
  random probes, then one fallback request.
- **The feed view grouping** (`FeedView`). It groups feed items by source
  repository and finds each group's top five dependencies, over an
  insertion-ordered map (`OrderedMap`) and a stable sort (`StableSort`).
- **The feed sign-up form** (`FeedForm`). It holds the email pattern, the
  nickname check against GitHub, and the order of the checks on submit.
- **The language picker options** (`FiltersSection`). It filters the
  options by what the user has typed.
- **The string helpers**: `GitHubAvatar`, `GitHubUserAvatar`, `GitHubRepo`
  and `FormatLanguage`.

Two supporting modules model the JavaScript built-ins this code relies on:

- `Text`: `trim` with ECMAScript white space, ASCII case mapping, `split`,
  `join`, `indexOf` and `startsWith`.
- `JsNumber`: `parseInt(s, 10)` and integer `toString()`.

A third module, `SearchParams`, models `URLSearchParams` as an ordered list
of pairs.

Where the source changes state step by step, the model is imperative. The
hooks' `useState` cells and the module-level flag and callback set become
classes whose methods say what the new state is. The `Map`-filling loops, the
sort-token loop and the probe loop become methods with loop invariants. The
pure helpers are functions, with lemmas that relate each operation to a
partner:

- an inverse (the codec round trips);
- a reference definition (the recursive `Search` for the picker's loop, the
  specification functions for the grouping loops);
- or the invariant it keeps.

## Model

| member | source | states |
|---|---|---|
| UrlParams.SerializeLanguages | src/shared/utils/urlParams.ts:9-11 | An empty list is encoded as null, and only an empty list is. |
| UrlParams.DeserializeLanguages | src/shared/utils/urlParams.ts:13-16 | A null or empty parameter decodes to no languages. Every decoded name is non-empty and free of commas. |
| UrlParams.DropEmpty | src/shared/utils/urlParams.ts:15 | `filter(Boolean)` keeps only non-empty pieces taken from the input, and keeps a list without empty pieces unchanged. |
| UrlParams.LanguagesRoundTrip | src/shared/utils/urlParams.ts:9-16 | Decoding an encoded list of non-empty, comma-free names gives the list back. |
| UrlParams.SerializeStarsFilter | src/shared/utils/urlParams.ts:19-29 | Both parameters are null exactly when there is no filter. Otherwise both are non-empty strings. |
| UrlParams.ParseStarsOperator | src/shared/utils/urlParams.ts:38 | Only `GREATER` and `LESS` are accepted, and each maps back to its own token. |
| UrlParams.DeserializeStarsFilter | src/shared/utils/urlParams.ts:31-40 | The result is null when either parameter is falsy, when `parseInt` gives NaN, or when the operator is unknown. A result carries the parsed value and the given operator. |
| UrlParams.StarsRoundTrip | src/shared/utils/urlParams.ts:19-40 | Decoding an encoded stars filter gives it back, for every integer value and both operators. |
| UrlParams.ParseOrderToken | src/shared/utils/urlParams.ts:53-56 | An accepted token yields an order whose field is the non-empty text before the first colon. |
| UrlParams.SortOrdersOf | src/shared/utils/urlParams.ts:48-59 | The result is never empty. A missing parameter, or one with no valid token, falls back to the default order. Otherwise the result is the valid tokens' orders, in token order. |
| UrlParams.DeserializeSortOrders | src/shared/utils/urlParams.ts:48-59 | The token loop returns what `SortOrdersOf` specifies, and never an empty list. |
| UrlParams.DecodeSortTokensAppend | src/shared/utils/urlParams.ts:52-57 | Each token is judged on its own, and the order of the tokens is kept. |
| UrlParams.DecodedOrdersHaveFields | src/shared/utils/urlParams.ts:54 | Every decoded order has a non-empty field. |
| UrlParams.SerializeSortOrders | src/shared/utils/urlParams.ts:43-46 | An empty list is encoded as null, and only an empty list is. |
| UrlParams.OrderTokenRoundTrip | src/shared/utils/urlParams.ts:45-56 | A `field:type` token whose field is non-empty and has no `,` or `:` decodes to its order. |
| UrlParams.DecodeOrderTokens | src/shared/utils/urlParams.ts:45-57 | Decoding the tokens of clean orders gives the orders back. |
| UrlParams.SortOrdersRoundTrip | src/shared/utils/urlParams.ts:43-59 | A non-empty list of clean orders survives encoding and decoding unchanged. |
| UrlParams.SortParamTruthy | src/shared/utils/urlParams.ts:122-124 | A non-empty order list always serializes to a truthy string, so `sort` is set and not deleted. |
| UrlParams.ReadStateFromUrl | src/shared/utils/urlParams.ts:72-84 | Missing keys give no languages, no stars filter, and the default sort. The sort is never empty. |
| UrlParams.RewriteParams | src/shared/utils/urlParams.ts:101-133 | The step-by-step edits of `params` produce the specified rewritten query. |
| UrlParams.WriteLanguagesGet | src/shared/utils/urlParams.ts:104-109 | After the languages step, `languages` reads as the encoding and every other key is unchanged. |
| UrlParams.WriteStarsGet | src/shared/utils/urlParams.ts:112-119 | After the stars step, `stars` and `starsOp` read as the encoding and every other key is unchanged. |
| UrlParams.WriteSortGet | src/shared/utils/urlParams.ts:122-127 | After the sort step, `sort` reads as the encoding and every other key is unchanged. |
| UrlParams.KeepUtmSourceGet | src/shared/utils/urlParams.ts:130-133 | Re-setting `utm_source` changes no key's `get`. |
| UrlParams.RewriteWrites | src/shared/utils/urlParams.ts:101-133 | After the whole rewrite, the four written keys read exactly as their encodings. |
| UrlParams.RewriteRoundTrip | src/shared/utils/urlParams.ts:72-133 | Reading back the rewritten query gives the state that was written. |
| UrlParams.RewriteKeepsOtherKeys | src/shared/utils/urlParams.ts:101-133 | Pairs under keys the rewrite does not own stay, in their order, and their `get` is unchanged. |
| UrlParams.RewriteKeepsUtmSource | src/shared/utils/urlParams.ts:64-133 | `getUtmSource` reads the same value before and after the rewrite. |
| UrlParams.RewritePairsStars | src/shared/utils/urlParams.ts:112-119 | After the rewrite, `stars` and `starsOp` are both present exactly when there is a stars filter. |
| UrlParams.UrlBridge.constructor | src/shared/utils/urlParams.ts:87-89 | At page load the flag is clear and no callback is registered. |
| UrlParams.UrlBridge.UpdateUrlParams | src/shared/utils/urlParams.ts:94-146 | The method raises the flag, pushes the rewritten query and calls every callback once, in registration order. Each callback sees the flag up and the new address. One more clearing timer is pending. |
| UrlParams.UrlBridge.NotifyAll | src/shared/utils/urlParams.ts:140 | There is one invocation per registered callback, in registration order, each seeing the current flag and address. |
| UrlParams.UrlBridge.OnUrlUpdate | src/shared/utils/urlParams.ts:151-152 | A fresh callback is appended, and nothing else changes. |
| UrlParams.UrlBridge.Unsubscribe | src/shared/utils/urlParams.ts:153-155 | Exactly that callback is removed, the others keep their order, and they stay distinct. |
| UrlParams.UrlBridge.GetIsUpdatingUrl | src/shared/utils/urlParams.ts:161-163 | Returns the flag. |
| UrlParams.UrlBridge.ClearFlag | src/shared/utils/urlParams.ts:143-145 | A pending timer fires and clears the flag, even while a later update's timer is still pending. |
| UrlParams.UrlBridge.Navigate | src/shared/utils/urlParams.ts:87-89 | An outside change of the address bar runs no callback and leaves the flag alone. |
| UrlParams.Without | src/shared/utils/urlParams.ts:154 | `Set.delete` keeps exactly the other elements, in their order. |
| UrlParams.WithoutKeepsDistinct | src/shared/utils/urlParams.ts:89-154 | Removal keeps the callback set free of duplicates. |
| Filters.InitialLanguages | src/features/hooks/useFilters.ts:39-45 | The URL's languages win whenever the key is present, even when empty. Otherwise the caller's list is used, otherwise none. |
| Filters.InitialStarsFilter | src/features/hooks/useFilters.ts:31-59 | With both keys present the URL's decoding wins, even when it is null. Otherwise the caller's value is used, which defaults to `{10, GREATER}`. |
| Filters.StarsAfterValueInput | src/features/hooks/useFilters.ts:110-122 | Empty text clears the filter. Otherwise the value is `parseInt` of the text, or 0 for NaN, and the operator is kept, or `GREATER` when there was no filter. |
| Filters.AfterUrlCheck | src/features/hooks/useFilters.ts:68-78 | The address is always remembered. The state is adopted only when the address differs from the last one and the bridge is not writing. |
| Filters.UrlSeenDuringSelfUpdateIsDropped | src/features/hooks/useFilters.ts:68-78 | An address first seen while the flag is up is never adopted by a later check. |
| Filters.SelfWrittenUrlIsNotAdopted | src/features/hooks/useFilters.ts:70-83 | After the callback has recorded the bridge's write, a check changes nothing, whatever the flag is. |
| Filters.FilterStore.constructor | src/features/hooks/useFilters.ts:36-62 | The cells take their initial values by the priority rules, and `lastUrl` is the address at mount. |
| Filters.FilterStore.Mount | src/features/hooks/useFilters.ts:65-83 | With `syncFromUrl`, one callback is registered, and the flag and the pending timers are unchanged. Without it, the bridge is unchanged. No state cell changes. |
| Filters.FilterStore.Unmount | src/features/hooks/useFilters.ts:91-95 | Only this store's callback is unregistered. The location, the flag and the pending timers are unchanged. |
| Filters.FilterStore.OnUrlUpdate | src/features/hooks/useFilters.ts:81-83 | Its own callback records the written address, and the state cells are untouched. |
| Filters.FilterStore.CheckUrlChange | src/features/hooks/useFilters.ts:66-78 | The new state is `AfterUrlCheck` of the old one. Without `syncFromUrl`, nothing changes. |
| Filters.FilterStore.HandleLanguageChange | src/features/hooks/useFilters.ts:98-100 | Only the languages change. |
| Filters.FilterStore.HandleLicenseChange | src/features/hooks/useFilters.ts:102-104 | Only the licenses change. |
| Filters.FilterStore.HandleLicensesOperatorChange | src/features/hooks/useFilters.ts:106-108 | Only the licenses operator changes. |
| Filters.FilterStore.HandleStarsValueChange | src/features/hooks/useFilters.ts:110-122 | Only the stars filter changes, to `StarsAfterValueInput` of the text. |
| Filters.FilterStore.HandleStarsOperatorChange | src/features/hooks/useFilters.ts:124-130 | The operator is set, and the value is kept, or 0 when there was no filter. Nothing else changes. |
| Filters.FilterStore.HandleRemoveStarsFilter | src/features/hooks/useFilters.ts:132-134 | Only the stars filter is cleared. |
| Filters.FilterStore.HandleAddStarsFilter | src/features/hooks/useFilters.ts:136-138 | Only the stars filter changes, to `{100, GREATER}`. |
| Filters.FilterStore.HandleResetLanguages | src/features/hooks/useFilters.ts:140-142 | Only the languages are cleared. |
| Filters.FilterStore.HandleResetLicenses | src/features/hooks/useFilters.ts:144-147 | The licenses are cleared and the operator is set back to `IN`. Nothing else changes. |
| Filters.FilterStore.HandleResetAll | src/features/hooks/useFilters.ts:149-154 | Every cell goes back to empty, `IN`, and no stars filter. |
| Sorting.InitialSortOrders | src/features/hooks/useSorting.ts:24-27 | The caller's orders win whenever they are supplied, even when empty. Otherwise the URL's non-empty decoding is used. |
| Sorting.AddSortField | src/features/hooks/useSorting.ts:63-65 | The old list is followed by the default criterion. |
| Sorting.DropIndexSpec | src/features/hooks/useSorting.ts:70 | Filtering out an index in range removes exactly that entry. Any other index keeps the list. |
| Sorting.RemoveSortField | src/features/hooks/useSorting.ts:67-74 | A single entry is never removed. With more entries, exactly the indexed one goes. A non-empty list stays non-empty. |
| Sorting.ChangeAt | src/features/hooks/useSorting.ts:76-86 | The index-checking `map` changes only the entry at the index. The length and the other entries are unchanged. |
| Sorting.SortFieldChanged | src/features/hooks/useSorting.ts:76-80 | Only the indexed entry gets the new field. The length and the other entries are unchanged. |
| Sorting.SortTypeChanged | src/features/hooks/useSorting.ts:82-86 | Only the indexed entry gets the new direction. The length and the other entries are unchanged. |
| Sorting.OutOfRangeChangeIsIdentity | src/features/hooks/useSorting.ts:76-86 | An index out of range changes nothing. |
| Sorting.HandlersKeepNonEmpty | src/features/hooks/useSorting.ts:63-86 | All four handlers keep a non-empty order list non-empty. |
| Sorting.AfterSortUrlCheck | src/features/hooks/useSorting.ts:36-43 | The URL's sort is adopted only for a new address while the bridge is not writing. The address is always remembered. |
| Sorting.SortStore.constructor | src/features/hooks/useSorting.ts:24-30 | The initial orders follow `InitialSortOrders`, and `lastUrl` is the address at mount. |
| Sorting.SortStore.Mount | src/features/hooks/useSorting.ts:33-48 | With `syncFromUrl`, one callback is registered, and the flag and the pending timers are unchanged. Without it, the bridge is unchanged. |
| Sorting.SortStore.Unmount | src/features/hooks/useSorting.ts:56-60 | Only this store's callback is unregistered. The location, the flag and the pending timers are unchanged. |
| Sorting.SortStore.OnUrlUpdate | src/features/hooks/useSorting.ts:46-48 | Its own callback records the written address. |
| Sorting.SortStore.CheckUrlChange | src/features/hooks/useSorting.ts:34-43 | The new state is `AfterSortUrlCheck` of the old one. |
| Sorting.SortStore.HandleAddSortField | src/features/hooks/useSorting.ts:63-65 | The orders become `AddSortField` of the old ones. `lastUrl` and the subscription are kept. |
| Sorting.SortStore.HandleRemoveSortField | src/features/hooks/useSorting.ts:67-74 | The orders become `RemoveSortField` of the old ones. `lastUrl` and the subscription are kept. |
| Sorting.SortStore.HandleSortFieldChange | src/features/hooks/useSorting.ts:76-80 | The orders become `SortFieldChanged` of the old ones. `lastUrl` and the subscription are kept. |
| Sorting.SortStore.HandleSortTypeChange | src/features/hooks/useSorting.ts:82-86 | The orders become `SortTypeChanged` of the old ones. `lastUrl` and the subscription are kept. |
| RequestBuilder.BuildRequest | src/features/hooks/useIssuesRequest.ts:24-59 | The limit is the page size. Each filter key is present exactly when its list is non-empty, and carries its values and operator. Languages always use `IN`. `filter` is undefined exactly when no criterion is active. `orders` is undefined exactly when the list is empty. |
| RequestBuilder.CriteriaRoundTrip | src/features/hooks/useIssuesRequest.ts:24-59 | Reading the criteria back out of the payload gives the effective criteria, so nothing sent is lost. |
| RequestBuilder.SamePayloadIff | src/features/hooks/useIssuesRequest.ts:24-59 | Two parameter sets give equal payloads exactly when their effective criteria agree. |
| RequestBuilder.WithOffset | src/features/hooks/useRandomIssue.ts:22-26 | The spread keeps filter and orders, with the given limit and offset. |
| InfiniteIssues.ErrorOf | src/features/hooks/useInfiniteIssues.ts:63-66 | An `Error` keeps its message. Anything else becomes "Unknown error". |
| InfiniteIssues.CancelAt | src/features/hooks/useInfiniteIssues.ts:77-80 | A cleanup sets one request's `cancelled` flag and touches no other request. |
| InfiniteIssues.Controller.constructor | src/features/hooks/useInfiniteIssues.ts:19-29 | The initial state cells and refs: empty, page 0, loading, has more. |
| InfiniteIssues.Controller.CleanupReset | src/features/hooks/useInfiniteIssues.ts:77-80 | The mounted reload is cancelled and `isLoadingRef` is cleared. The visible state is kept. |
| InfiniteIssues.Controller.RunResetEffect | src/features/hooks/useInfiniteIssues.ts:37-75 | The previous run is cleaned up, the list is cleared, and page 0 of the current base request is requested. Only the newest reload is left uncancelled. |
| InfiniteIssues.Controller.CompleteReset | src/features/hooks/useInfiniteIssues.ts:56-71 | A cancelled or superseded reload changes nothing. Otherwise success replaces the list with page 0, and failure shows the error. Either way loading ends. |
| InfiniteIssues.Controller.LoadMore | src/features/hooks/useInfiniteIssues.ts:94-111 | The call is refused while loading, while a more-load is running, or after the last page. Otherwise page `currentPageRef + 1` is requested and the error is cleared. |
| InfiniteIssues.Controller.CompleteMore | src/features/hooks/useInfiniteIssues.ts:113-128 | A cancelled request changes nothing. Otherwise success appends the page's issues and advances the page, and failure shows the error. Either way the more-load ends. |
| InfiniteIssues.Controller.CancelMore | src/features/hooks/useInfiniteIssues.ts:134-137 | That request is cancelled and `isLoadingRef` is cleared. |
| InfiniteIssues.Controller.Reset | src/features/hooks/useInfiniteIssues.ts:140-147 | The list, page, error and last response are reset. `loading`, `loadingMore` and `totalElements` stay. |
| InfiniteIssues.Controller.Render | src/features/hooks/useInfiniteIssues.ts:32-92 | The refs follow the new base request and the committed page. The reset effect does not re-run. |
| InfiniteIssues.ResetKeysMissFilterChange | src/features/hooks/useInfiniteIssues.ts:81-85 | The listed keys (`ResetKeys`, defined as undefined three times) are the same for a filtered and an unfiltered request. |
| InfiniteIssues.FetchIdentityTracksPayload | src/features/hooks/useInfiniteIssues.ts:50-85 | The corrected key (`FetchIdentity`, the request's filter and orders) changes exactly when the fetched page request changes. |
| InfiniteIssues.Controller.RenderCorrected | src/features/hooks/useInfiniteIssues.ts:32-92 | With the corrected key, a changed filter or order restarts from page 0 of the new request. When the key is unchanged, the state is kept. |
| InfiniteIssues.FailedFirstLoad | src/features/hooks/useInfiniteIssues.ts:37-71 | Mount followed by a failed first load leaves an empty list, the error, and loading off. |
| InfiniteIssues.TwoPages | src/features/hooks/useInfiniteIssues.ts:37-138 | Two pages in sequence are concatenated in order, the page becomes 1, and the second request asks for page 1. |
| RandomIssue.RandomOffset | src/features/hooks/useRandomIssue.ts:21 | `Math.floor(r * maxOffset)` lies below `maxOffset` and is the floor of the product. |
| RandomIssue.Offsets | src/features/hooks/useRandomIssue.ts:20-21 | Every probe offset is below `maxOffset`. |
| RandomIssue.Planned | src/features/hooks/useRandomIssue.ts:20-43 | There is one request per probe offset, then the fallback at offset 0, each with limit 1 and the base filter and orders. |
| RandomIssue.Search | src/features/hooks/useRandomIssue.ts:20-54 | Between one request and all of the probes plus the fallback are issued. |
| RandomIssue.SearchMeaning | src/features/hooks/useRandomIssue.ts:20-54 | Every request before the last one issued was answered with no issue. The last one decides: a failure alerts, a hit opens its first issue, and "no match" happens only at the fallback. |
| RandomIssue.NoMatchIff | src/features/hooks/useRandomIssue.ts:30-51 | "No issues found" happens exactly when every request was answered, none with an issue. |
| RandomIssue.Picker.constructor | src/features/hooks/useRandomIssue.ts:12 | `pickingRandom` starts false. |
| RandomIssue.Picker.PickRandom | src/features/hooks/useRandomIssue.ts:14-58 | The loop's outcome and request count are those of `Search`. The requests issued are a prefix of the plan, at most six. `pickingRandom` ends false. |
| OrderedMap.Get | src/features/pages/FeedViewPage.tsx:25-34 | `get` finds nothing exactly for keys that are absent, and otherwise finds an entry of the map. |
| OrderedMap.GetEntry | src/features/pages/FeedViewPage.tsx:25-34 | With distinct keys, every entry is what `get` returns for its key. |
| OrderedMap.Set | src/features/pages/FeedViewPage.tsx:27-35 | `set` adds an entry exactly for a new key. |
| OrderedMap.GetOfSet | src/features/pages/FeedViewPage.tsx:27-35 | After `set`, `get` sees the new value at that key and the old values elsewhere. |
| OrderedMap.SetPlacement | src/features/pages/FeedViewPage.tsx:27-31 | An existing key keeps its position, and a new key goes at the end (insertion order). |
| OrderedMap.KeySetOfSet | src/features/pages/FeedViewPage.tsx:27-35 | `set` adds its key to the key set. |
| OrderedMap.SetKeepsDistinct | src/features/pages/FeedViewPage.tsx:27-35 | `set` never duplicates a key. |
| OrderedMap.SizeIsKeyCount | src/features/pages/FeedViewPage.tsx:44 | `size` is the number of distinct keys. |
| OrderedMap.SumValuesOfSet | src/features/pages/FeedViewPage.tsx:26-27 | `set` replaces the key's old contribution to a sum with the new one. |
| StableSort.Insert | src/features/pages/FeedViewPage.tsx:39-53 | The result is the input plus the element, as a multiset. |
| StableSort.InsertSorted | src/features/pages/FeedViewPage.tsx:39-53 | Inserting into a list sorted by non-increasing key keeps it sorted. |
| StableSort.SortDesc | src/features/pages/FeedViewPage.tsx:39-53 | The comparator `b - a` sorts by non-increasing key, as a permutation of the input. |
| StableSort.SortSum | src/features/pages/FeedViewPage.tsx:49-53 | Sorting keeps any sum over the elements. |
| StableSort.InsertAt | src/features/pages/FeedViewPage.tsx:39-53 | An insertion is a splice at `InsertPos`. |
| StableSort.SortKeepsDistinct | src/features/pages/FeedViewPage.tsx:37-39 | Sorting keeps elements with distinct keys distinct. |
| FeedView.ItemsOf | src/features/pages/FeedViewPage.tsx:24-28 | Every item kept has the given source. The list is non-empty exactly when some input item has that source. |
| FeedView.BySourceDistinct | src/features/pages/FeedViewPage.tsx:23-28 | `bySource` never holds a source twice. |
| FeedView.BySourceGet | src/features/pages/FeedViewPage.tsx:23-28 | `bySource.get(k)` is exactly the items of source `k`, in input order. |
| FeedView.BySourceKeys | src/features/pages/FeedViewPage.tsx:23-28 | The keys of `bySource` are exactly the items' sources. |
| FeedView.BySourceSums | src/features/pages/FeedViewPage.tsx:23-28 | The group sizes and issue totals add up to the input's. |
| FeedView.MaxStars | src/features/pages/FeedViewPage.tsx:33-35 | The result is at least 0 and at least the stars of every item for that URL. When positive, some item for that URL has exactly those stars. |
| FeedView.DepTableSpec | src/features/pages/FeedViewPage.tsx:32-36 | `byDep` maps each URL that has positive stars to its maximum stars, and nothing else. |
| FeedView.DependencyCountSpec | src/features/pages/FeedViewPage.tsx:32-44 | `dependencyCount` counts the distinct URLs that have positive stars. |
| FeedView.SortedEntryIsMaximum | src/features/pages/FeedViewPage.tsx:37-39 | Every sorted entry carries its URL's maximum, which is positive. |
| FeedView.StarredUrlIsSorted | src/features/pages/FeedViewPage.tsx:32-39 | Every URL that has positive stars appears among the sorted entries. |
| FeedView.TopDependenciesSpec | src/features/pages/FeedViewPage.tsx:37-40 | There are at most five entries, by non-increasing stars, with distinct URLs, each at its URL's maximum. |
| FeedView.TopDependenciesAreBest | src/features/pages/FeedViewPage.tsx:37-40 | No dependency left out of the top five has more stars than one that was kept. |
| FeedView.Groups | src/features/pages/FeedViewPage.tsx:31-47 | There is one group per `bySource` entry, in its order. |
| FeedView.MaxItemStars | src/features/pages/FeedViewPage.tsx:50-51 | The reduce gives the best item's stars, floored at 0. |
| FeedView.GroupsSum | src/features/pages/FeedViewPage.tsx:41-46 | The group sizes add up to the entries' sizes. |
| FeedView.GroupsAreDistinct | src/features/pages/FeedViewPage.tsx:22-56 | There is one group per distinct source, and no two groups share a source. |
| FeedView.GroupHoldsItsItems | src/features/pages/FeedViewPage.tsx:22-56 | Each group holds exactly its source's items, in input order, and is never empty. |
| FeedView.ItemHasGroup | src/features/pages/FeedViewPage.tsx:22-56 | Every item has a group for its source. |
| FeedView.GroupOrderAndTotals | src/features/pages/FeedViewPage.tsx:49-53 | The groups come by non-increasing best stars, and their sizes and issue totals add up to the input's. |
| FeedView.GroupDependencies | src/features/pages/FeedViewPage.tsx:32-45 | A group's dependency count is the number of starred URLs. Its top list holds min(5, that count) entries with distinct URLs, by non-increasing stars, each at its URL's positive maximum. |
| FeedView.FillBySource | src/features/pages/FeedViewPage.tsx:23-28 | The loop builds exactly the `bySource` map. |
| FeedView.FillByDep | src/features/pages/FeedViewPage.tsx:32-36 | The inner loop builds exactly the `byDep` map. |
| FeedView.GroupAndSort | src/features/pages/FeedViewPage.tsx:22-56 | The page's loops compute `GroupAndSortRepos`. |
| FeedForm.ValidEmailIff | src/features/pages/FeedPage.tsx:56-59 | The executable email check accepts exactly what `/^[^\s@]+@[^\s@]+\.[^\s@]+$/` accepts. |
| FeedForm.EmailExamples | src/features/pages/FeedPage.tsx:57 | `a@b.c` is accepted. `a@b` and `@b.c` are rejected. |
| FeedForm.EmailChangeError | src/features/pages/FeedPage.tsx:64-68 | An error is shown exactly when the value is not blank and not a valid email. |
| FeedForm.ValidFormHasValidEmail | src/features/pages/FeedPage.tsx:61-146 | An enabled submit button implies a valid, non-blank email and a non-blank nickname. |
| FeedForm.EnabledFormReachesNicknameCheck | src/features/pages/FeedPage.tsx:112-146 | A form with the button enabled passes every submit check before the nickname lookup. |
| FeedForm.ErrorOf | src/features/pages/FeedPage.tsx:139-140 | An `Error` gives its message. Anything else gives "Failed to generate feed". |
| FeedForm.NicknameCheckError | src/features/pages/FeedPage.tsx:91-100 | There is no error exactly when the user exists. A missing user and a failed check have different messages. |
| FeedForm.Form.constructor | src/features/pages/FeedPage.tsx:146 | The form starts empty with no errors. |
| FeedForm.Form.HandleEmailChange | src/features/pages/FeedPage.tsx:61-69 | The email and its error are set, and nothing else changes. |
| FeedForm.Form.HandleNicknameChange | src/features/pages/FeedPage.tsx:71-75 | The nickname is set and its error is cleared. |
| FeedForm.Form.ValidateNickname | src/features/pages/FeedPage.tsx:83-104 | The result is true exactly for a non-blank nickname that exists. A blank one fails without a lookup. Otherwise the error follows the lookup. `checkingNickname` ends false. |
| FeedForm.Form.HandleNicknameBlur | src/features/pages/FeedPage.tsx:77-81 | A blank nickname changes nothing. Otherwise the nickname is validated. |
| FeedForm.Form.CheckEmailOnSubmit | src/features/pages/FeedPage.tsx:112-120 | A blank email gives "required". Otherwise an invalid untrimmed email gives "invalid". Only a pass clears the error. |
| FeedForm.Form.HandleSubmit | src/features/pages/FeedPage.tsx:106-144 | The checks run in this order: email required, email valid, nickname required, nickname exists. Each failure leaves its own message and stops. Only a form that passes them all generates a feed. A failed nickname check leaves that check's message. A failed generation leaves its error and keeps the fields. A generation that succeeds clears the fields and leaves the reload's error, if any. `loading` ends false. |
| FeedForm.Form.GenerateFeed | src/features/pages/FeedPage.tsx:128-143 | Success clears the fields and marks success, and a failed reload only sets the error. Failure keeps the fields and shows the error. `loading` ends false. |
| FiltersSection.CleanOptions | src/features/components/FiltersSection.tsx:47 | The options are exactly the loaded names that are present and not blank. |
| FiltersSection.CleanOptionsKeepOrder | src/features/components/FiltersSection.tsx:47 | The options keep the order of the loaded names. |
| Wrappers.SubsequenceOfItself | src/features/components/FiltersSection.tsx:57-58 | Blank input keeps the option list as it is. |
| FiltersSection.StartingWith | src/features/components/FiltersSection.tsx:60-62 | The options kept are exactly those whose lowered name starts with the needle, in their order. |
| FiltersSection.FilterOptions | src/features/components/FiltersSection.tsx:55-63 | Blank input keeps every option. Otherwise the options kept are exactly those whose lowered name starts with the lowered, trimmed input, in their order. |
| FiltersSection.TypedPrefixExample | src/features/components/FiltersSection.tsx:55-63 | Typing ` ja` keeps `Java` and `JavaScript` and drops `Go`. |
| FiltersSection.BlankInputExample | src/features/components/FiltersSection.tsx:57-58 | White-space input keeps every option. |
| GitHubAvatar.GetGitHubAvatar | src/shared/utils/getGitHubAvatar.ts:6-24 | There is no avatar for an empty title, for a title without `/`, or for a blank owner. Otherwise it is the avatar of the trimmed text before the first `/`. |
| GitHubAvatar.RepoNameIgnored | src/shared/utils/getGitHubAvatar.ts:12-20 | The text after the first `/` never changes the result. |
| GitHubAvatar.AvatarExample | src/shared/utils/getGitHubAvatar.ts:6-24 | ` a /b` gives the avatar of `a`. `  /b` and `ab` give none. |
| GitHubUserAvatar.GetGitHubUserAvatar | src/shared/utils/getGitHubUserAvatar.ts:6-18 | There is no avatar exactly for a blank name. Otherwise it is the avatar of the trimmed name. |
| GitHubUserAvatar.TrimmedNameSameAvatar | src/shared/utils/getGitHubUserAvatar.ts:11 | Trimming the name first changes nothing. |
| GitHubUserAvatar.EmbeddedNameIsTrimmed | src/shared/utils/getGitHubUserAvatar.ts:11-17 | The name inside the address is non-empty and neither starts nor ends with white space. |
| GitHubRepo.StripHost | src/shared/utils/githubRepo.ts:5 | An `https://github.com/` or `http://github.com/` prefix, in any case, is removed once. Anything else is kept. |
| GitHubRepo.PrefixesExclusive | src/shared/utils/githubRepo.ts:5 | The two host prefixes never both match. |
| GitHubRepo.StripSlash | src/shared/utils/githubRepo.ts:5 | One trailing `/` is removed. |
| GitHubRepo.GetRepoDisplayName | src/shared/utils/githubRepo.ts:4-6 | An address with no host prefix and no trailing slash is kept as it is. The result is never longer. |
| GitHubRepo.DisplayNameIsInner | src/shared/utils/githubRepo.ts:4-6 | The display name is a contiguous piece of the address. |
| GitHubRepo.PrefixRemovedOnce | src/shared/utils/githubRepo.ts:5 | Only the first copy of the prefix goes. |
| GitHubRepo.DisplayNameExamples | src/shared/utils/githubRepo.ts:4-6 | A full `https` address and an upper-case `HTTP` address with a trailing slash both give `owner/repo`. |
| FormatLanguage.FormatLanguage | src/shared/utils/formatLanguage.ts:5-9 | The empty name stays empty. Otherwise the first character is upper-cased and the rest lower-cased, with the length kept. |
| FormatLanguage.FormatIdempotent | src/shared/utils/formatLanguage.ts:5-9 | Formatting twice is the same as formatting once. |
| FormatLanguage.FormatIgnoresCase | src/shared/utils/formatLanguage.ts:5-9 | Names that differ only in letter case format alike. |
| FormatLanguage.FormatExamples | src/shared/utils/formatLanguage.ts:3 | `FRENCH` gives `French` and `java` gives `Java`. |
| Text.TrimEmptyIffBlank | src/features/pages/FeedPage.tsx:64-146 | `s.trim()` is empty exactly when `s` is all white space. |
| Text.TrimIdempotent | src/shared/utils/getGitHubUserAvatar.ts:11 | Trimming twice is the same as trimming once. |
| Text.SplitJoin | src/shared/utils/urlParams.ts:10-15 | Splitting a join of comma-free pieces gives the pieces back. |
| Text.JoinSplit | src/shared/utils/urlParams.ts:10-15 | Joining the pieces of a split gives the string back. |
| JsNumber.ParseInt | src/shared/utils/urlParams.ts:36 | NaN exactly when no digit follows the white space and sign. Otherwise the signed value of the longest digit run. |
| JsNumber.ParseIntOfIntToString | src/shared/utils/urlParams.ts:26-36 | `parseInt(String(i), 10)` is `i` for every integer. |
| JsNumber.ParseIntStopsAtNonDigit | src/features/hooks/useFilters.ts:116 | The digits before a non-digit are read, and the rest is ignored. |
| SearchParams.Set | src/shared/utils/urlParams.ts:106-132 | `set` makes its key read the new value and changes no other key. |
| SearchParams.Delete | src/shared/utils/urlParams.ts:108-126 | `delete` removes the key and changes no other key. |
| SearchParams.OthersSet | src/shared/utils/urlParams.ts:101-133 | `set` of an owned key leaves the other pairs in place and in order. |
| SearchParams.OthersDelete | src/shared/utils/urlParams.ts:101-133 | `delete` of an owned key leaves the other pairs in place and in order. |

## Left out

- `readStateFromUrl` returns no licenses, yet `useFilters.ts:49,52,73-74` reads `urlState.licenses` and `urlState.licensesOperator`. What those reads yield is a parameter of the filter store (`LicenseReading`). The `hasLicensesInUrl` branch picks the same value on both sides.
- The exact layout of the issues response is left out. Only `content`, `last` and `totalElements` are read, and `issues` for the random picker.
- Which page passes which hook parameters, and whether a caller runs the cleanup that `loadMore` returns. `CancelMore` models that cleanup when it is run.
- The two stores' initial-value priorities differ: the URL wins for filters and the caller wins for sorting. Each is modelled as written.
- Percent-encoding, the path part of the address, and `history.pushState` entries are left out. The address bar is the query's pair list, and the query comparison in `checkUrlChange` compares pair lists.
- Timers, `setInterval`, `popstate` and the browser's history are not modelled. They become explicit events: `UrlBridge.ClearFlag`, `CheckUrlChange` and `UrlBridge.Navigate`.
- React batching and re-rendering are not modelled. Each setter applies at once, and `Controller.Render` stands for a re-render followed by its effects.
- StableSort.SortDesc: stability, the order of equal keys, is not stated, and the sort is on a sequence rather than in place.
- FormatLanguage.FormatLanguage: the length is kept only because case mapping is ASCII. JavaScript's full Unicode `toUpperCase` can lengthen a string (`ß` gives `SS`).
- Text: `toLowerCase` and `toUpperCase` are modelled on ASCII letters only. The case-insensitive prefix test in `githubRepo.ts` is exact because both prefixes are ASCII.
- JsNumber.IntToString: exponent notation for magnitudes of 10^21 and above, and negative zero, are not modelled.
- JsNumber.ParseInt: the digit run is not limited by floating-point precision. Very long runs are read exactly.
- `Math.random`, `window.open`, `alert`, the network calls `fetchIssues`, `checkGitHubUserExists`, `generateFeed` and `fetchFeedUsers`, and `console.error` become inputs and outcomes.
- The feed page's user list (its load effect and `setUsers`) and the payload sent to `generateFeed` are not modelled.
- Rendering, styling and the other components and pages are not modelled.

## Findings

| source | as written | input that shows it | evidently intended | confidence | as-written member | corrected member |
|---|---|---|---|---|---|---|
| src/features/hooks/useInfiniteIssues.ts:81-85 | The reset effect's dependencies are `baseRequest.filter?.language`, `baseRequest.order?.field` and `baseRequest.order?.type`. A request has `filter.languages` and `orders`, so all three read `undefined` on every render, and the list is never reloaded when the filters or the sort change. | A first render with no filter, then a render with the languages filter `["Go"]`: the keys are equal, so the first page of the new request is never fetched. | The list reloads from page 0 whenever the request's filter or orders change. | not executed | InfiniteIssues.ResetKeysMissFilterChange, InfiniteIssues.Controller.Render | InfiniteIssues.FetchIdentityTracksPayload, InfiniteIssues.Controller.RenderCorrected |

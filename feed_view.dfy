/**
  `groupAndSortRepos` of `src/features/pages/FeedViewPage.tsx`: the feed's
  repository items grouped by source repository (a `Map` in first-seen
  order), each group's dependencies deduplicated by maximum stars with the
  five best kept, and the groups sorted by their best item's stars; plus the
  issue totals the page displays.
*/
module FeedView {
  import opened Wrappers
  import opened OrderedMap
  import opened StableSort

  /** The fields of a feed repository item the page reads. */
  datatype FeedItem = FeedItem(sourceRepo: string, dependencyUrl: string, stars: int, issueCnt: int)

  /** `{ url, stars }` */
  datatype Dependency = Dependency(url: string, stars: int)

  /** `GroupedRepo` */
  datatype GroupedRepo = GroupedRepo(
    sourceRepo: string,
    items: seq<FeedItem>,
    dependencyCount: nat,
    topDependencies: seq<Dependency>)

  /** `.slice(0, 5)` */
  const TopCount: nat := 5

  function Last<T>(s: seq<T>): T
    requires |s| > 0
  {
    s[|s| - 1]
  }

  function Init<T>(s: seq<T>): seq<T>
    requires |s| > 0
  {
    s[..|s| - 1]
  }

  // ---- the displayed totals

  /** `items.reduce((a, i) => a + i.issueCnt, 0)` */
  function IssueTotal(items: seq<FeedItem>): int {
    if |items| == 0 then 0 else IssueTotal(Init(items)) + Last(items).issueCnt
  }

  function Count(items: seq<FeedItem>): int {
    |items|
  }

  /** The items of one source repository, in input order. */
  function ItemsOf(items: seq<FeedItem>, source: string): (r: seq<FeedItem>)
    ensures forall i :: 0 <= i < |r| ==> r[i].sourceRepo == source
    ensures |r| > 0 <==> exists i :: 0 <= i < |items| && items[i].sourceRepo == source
  {
    if |items| == 0 then []
    else
      var rest := ItemsOf(Init(items), source);
      assert forall i :: 0 <= i < |items| - 1 ==> Init(items)[i] == items[i];
      rest + (if Last(items).sourceRepo == source then [Last(items)] else [])
  }

  function Sources(items: seq<FeedItem>): set<string> {
    set i | 0 <= i < |items| :: items[i].sourceRepo
  }

  // ---- first loop: `bySource`

  function BySource(items: seq<FeedItem>): seq<(string, seq<FeedItem>)> {
    if |items| == 0 then []
    else
      var bySource := BySource(Init(items));
      var item := Last(items);
      Set(bySource, item.sourceRepo, Get(bySource, item.sourceRepo).GetOr([]) + [item])
  }

  /** `bySource` never holds a source twice. */
  lemma {:induction false} BySourceDistinct(items: seq<FeedItem>)
    ensures DistinctKeys(BySource(items))
  {
    if |items| > 0 {
      var m := BySource(Init(items));
      var item := Last(items);
      BySourceDistinct(Init(items));
      SetKeepsDistinct(m, item.sourceRepo, Get(m, item.sourceRepo).GetOr([]) + [item]);
    }
  }

  /** `bySource.get(k)` is exactly the items of source `k`, in input order, and
      undefined for a source no item has. */
  lemma {:induction false} BySourceGet(items: seq<FeedItem>, k: string)
    ensures Get(BySource(items), k) == if |ItemsOf(items, k)| > 0 then Some(ItemsOf(items, k)) else None
  {
    if |items| > 0 {
      var init := Init(items);
      var item := Last(items);
      var m := BySource(init);
      BySourceGet(init, k);
      BySourceGet(init, item.sourceRepo);
      var v := Get(m, item.sourceRepo).GetOr([]) + [item];
      GetOfSet(m, item.sourceRepo, v, k);
      if k != item.sourceRepo {
        assert ItemsOf(items, k) == ItemsOf(init, k);
      }
    }
  }

  /** The keys of `bySource` are the sources of the items. */
  lemma BySourceKeys(items: seq<FeedItem>)
    ensures KeySet(BySource(items)) == Sources(items)
  {
    forall k ensures k in KeySet(BySource(items)) <==> k in Sources(items) {
      BySourceGet(items, k);
      if k in Sources(items) {
        var i :| 0 <= i < |items| && items[i].sourceRepo == k;
      }
    }
  }

  /** The entries' lengths and issue totals add up to the input's. */
  lemma {:induction false} BySourceSums(items: seq<FeedItem>)
    ensures SumValues(BySource(items), Count) == |items|
    ensures SumValues(BySource(items), IssueTotal) == IssueTotal(items)
  {
    if |items| > 0 {
      var init := Init(items);
      var item := Last(items);
      var m := BySource(init);
      BySourceSums(init);
      var old_ := Get(m, item.sourceRepo).GetOr([]);
      var v := old_ + [item];
      SumValuesOfSet(m, item.sourceRepo, v, Count);
      SumValuesOfSet(m, item.sourceRepo, v, IssueTotal);
      assert Init(v) == old_ && Last(v) == item;
    }
  }

  // ---- inner loop: `byDep`

  /** The highest stars among the items for `url`, floored at 0. */
  function MaxStars(items: seq<FeedItem>, url: string): (r: int)
    ensures r >= 0
    ensures forall i :: 0 <= i < |items| && items[i].dependencyUrl == url ==> items[i].stars <= r
    ensures r > 0 ==> exists i :: 0 <= i < |items| && items[i].dependencyUrl == url && items[i].stars == r
  {
    if |items| == 0 then 0
    else
      var m := MaxStars(Init(items), url);
      assert forall i :: 0 <= i < |items| - 1 ==> Init(items)[i] == items[i];
      if Last(items).dependencyUrl == url && Last(items).stars > m then Last(items).stars else m
  }

  /** `byDep`: a dependency is entered when an item beats the stars seen so far
      (0 when none). */
  function DepTable(items: seq<FeedItem>): seq<(string, int)> {
    if |items| == 0 then []
    else
      var byDep := DepTable(Init(items));
      var item := Last(items);
      var existing := Get(byDep, item.dependencyUrl).GetOr(0);
      if item.stars > existing then Set(byDep, item.dependencyUrl, item.stars) else byDep
  }

  /** The URLs of the items with positive stars. */
  function StarredUrls(items: seq<FeedItem>): set<string> {
    set i | 0 <= i < |items| && items[i].stars > 0 :: items[i].dependencyUrl
  }

  /** `byDep` maps each URL to its maximum stars when that is positive, and
      holds no other URL. */
  lemma {:induction false} DepTableSpec(items: seq<FeedItem>)
    ensures DistinctKeys(DepTable(items))
    ensures forall u :: Get(DepTable(items), u) == if MaxStars(items, u) > 0 then Some(MaxStars(items, u)) else None
  {
    if |items| > 0 {
      var init := Init(items);
      var item := Last(items);
      var t := DepTable(init);
      DepTableSpec(init);
      var existing := Get(t, item.dependencyUrl).GetOr(0);
      if item.stars > existing {
        SetKeepsDistinct(t, item.dependencyUrl, item.stars);
        forall u ensures Get(DepTable(items), u) == if MaxStars(items, u) > 0 then Some(MaxStars(items, u)) else None {
          GetOfSet(t, item.dependencyUrl, item.stars, u);
        }
      }
    }
  }

  /** `dependencyCount` (`byDep.size`) counts the distinct URLs that have an
      item with positive stars. */
  lemma DependencyCountSpec(items: seq<FeedItem>)
    ensures |DepTable(items)| == |StarredUrls(items)|
  {
    DepTableSpec(items);
    var t := DepTable(items);
    SizeIsKeyCount(t);
    forall u ensures u in KeySet(t) <==> u in StarredUrls(items) {
      if u in StarredUrls(items) {
        var i :| 0 <= i < |items| && items[i].stars > 0 && items[i].dependencyUrl == u;
        assert MaxStars(items, u) >= items[i].stars;
      }
      if u in KeySet(t) {
        var i :| 0 <= i < |items| && items[i].dependencyUrl == u && items[i].stars == MaxStars(items, u);
      }
    }
    assert KeySet(t) == StarredUrls(items);
  }

  // ---- top dependencies

  function Entries(t: seq<(string, int)>): (r: seq<Dependency>)
    ensures |r| == |t| && forall i :: 0 <= i < |t| ==> r[i] == Dependency(t[i].0, t[i].1)
  {
    seq(|t|, i requires 0 <= i < |t| => Dependency(t[i].0, t[i].1))
  }

  function DepStars(d: Dependency): int {
    d.stars
  }

  function DepUrl(d: Dependency): string {
    d.url
  }

  function Min(a: int, b: int): int {
    if a < b then a else b
  }

  /** `Array.from(byDep.entries()).map(...).sort((a, b) => b.stars - a.stars).slice(0, 5)` */
  function TopDependencies(items: seq<FeedItem>): seq<Dependency> {
    var sorted := SortedDeps(items);
    sorted[..Min(TopCount, |sorted|)]
  }

  /** The dependency entries by non-increasing stars. */
  function SortedDeps(items: seq<FeedItem>): seq<Dependency> {
    SortDesc(Entries(DepTable(items)), DepStars)
  }

  /** Every sorted dependency entry carries its URL's maximum stars, which is positive. */
  lemma SortedEntryIsMaximum(items: seq<FeedItem>, i: int)
    requires 0 <= i < |SortedDeps(items)|
    ensures SortedDeps(items)[i].stars == MaxStars(items, SortedDeps(items)[i].url) > 0
  {
    var t := DepTable(items);
    DepTableSpec(items);
    var entries := Entries(t);
    var sorted := SortedDeps(items);
    assert sorted[i] in multiset(entries);
    var k :| 0 <= k < |entries| && entries[k] == sorted[i];
    GetEntry(t, k);
  }

  /** Every URL with positive stars appears among the sorted entries. */
  lemma StarredUrlIsSorted(items: seq<FeedItem>, u: string) returns (p: nat)
    requires MaxStars(items, u) > 0
    ensures p < |SortedDeps(items)| && SortedDeps(items)[p].url == u
  {
    var t := DepTable(items);
    DepTableSpec(items);
    var entries := Entries(t);
    var sorted := SortDesc(entries, DepStars);
    assert u in KeySet(t);
    var k :| 0 <= k < |t| && t[k].0 == u;
    assert entries[k] in multiset(sorted);
    p :| 0 <= p < |sorted| && sorted[p] == entries[k];
  }

  /** At most five entries, by non-increasing stars, with distinct URLs, each
      carrying its URL's maximum stars. */
  lemma TopDependenciesSpec(items: seq<FeedItem>)
    ensures var top := TopDependencies(items);
      && |top| == Min(TopCount, |StarredUrls(items)|)
      && SortedDesc(top, DepStars)
      && DistinctBy(top, DepUrl)
      && (forall i :: 0 <= i < |top| ==> top[i].stars == MaxStars(items, top[i].url) > 0)
  {
    var t := DepTable(items);
    DepTableSpec(items);
    DependencyCountSpec(items);
    var entries := Entries(t);
    var sorted := SortDesc(entries, DepStars);
    assert DistinctBy(entries, DepUrl);
    SortKeepsDistinct(entries, DepStars, DepUrl);
    var top := TopDependencies(items);
    forall i | 0 <= i < |top| ensures top[i].stars == MaxStars(items, top[i].url) > 0 {
      assert top[i] == sorted[i];
      SortedEntryIsMaximum(items, i);
    }
  }

  /** No dependency left out of the top five has more stars than one kept. */
  lemma TopDependenciesAreBest(items: seq<FeedItem>, u: string, i: int)
    requires MaxStars(items, u) > 0
    requires forall j :: 0 <= j < |TopDependencies(items)| ==> TopDependencies(items)[j].url != u
    requires 0 <= i < |TopDependencies(items)|
    ensures TopDependencies(items)[i].stars >= MaxStars(items, u)
  {
    var sorted := SortedDeps(items);
    var top := TopDependencies(items);
    var p := StarredUrlIsSorted(items, u);
    SortedEntryIsMaximum(items, p);
    assert p >= |top| by {
      assert forall j :: 0 <= j < |top| ==> top[j] == sorted[j];
    }
    assert top[i] == sorted[i];
  }

  // ---- groups and their order

  function MakeGroup(source: string, items: seq<FeedItem>): GroupedRepo {
    GroupedRepo(source, items, |DepTable(items)|, TopDependencies(items))
  }

  function Groups(bySource: seq<(string, seq<FeedItem>)>): (r: seq<GroupedRepo>)
    ensures |r| == |bySource| && forall i :: 0 <= i < |r| ==> r[i] == MakeGroup(bySource[i].0, bySource[i].1)
  {
    seq(|bySource|, i requires 0 <= i < |bySource| => MakeGroup(bySource[i].0, bySource[i].1))
  }

  /** `items.reduce((m, i) => Math.max(m, i.stars), 0)`: the best item's stars, floored at 0. */
  function MaxItemStars(items: seq<FeedItem>): (r: int)
    ensures r >= 0
    ensures forall i :: 0 <= i < |items| ==> items[i].stars <= r
    ensures r > 0 ==> exists i :: 0 <= i < |items| && items[i].stars == r
  {
    if |items| == 0 then 0
    else
      var m := MaxItemStars(Init(items));
      assert forall i :: 0 <= i < |items| - 1 ==> Init(items)[i] == items[i];
      if Last(items).stars > m then Last(items).stars else m
  }

  function GroupStars(g: GroupedRepo): int {
    MaxItemStars(g.items)
  }

  function GroupSource(g: GroupedRepo): string {
    g.sourceRepo
  }

  function GroupCount(g: GroupedRepo): int {
    |g.items|
  }

  function GroupIssues(g: GroupedRepo): int {
    IssueTotal(g.items)
  }

  /** The result of `groupAndSortRepos`. */
  function GroupAndSortRepos(items: seq<FeedItem>): seq<GroupedRepo> {
    SortDesc(Groups(BySource(items)), GroupStars)
  }

  lemma {:induction false} GroupsSum(m: seq<(string, seq<FeedItem>)>)
    ensures SumBy(Groups(m), GroupCount) == SumValues(m, Count)
    ensures SumBy(Groups(m), GroupIssues) == SumValues(m, IssueTotal)
  {
    if |m| > 0 {
      GroupsSum(m[1..]);
      assert Groups(m)[1..] == Groups(m[1..]);
    }
  }

  /** One group per distinct source repository, and no two with the same source. */
  lemma GroupsAreDistinct(items: seq<FeedItem>)
    ensures |GroupAndSortRepos(items)| == |Sources(items)|
    ensures DistinctBy(GroupAndSortRepos(items), GroupSource)
  {
    var m := BySource(items);
    BySourceDistinct(items);
    BySourceKeys(items);
    SizeIsKeyCount(m);
    var groups := Groups(m);
    assert DistinctBy(groups, GroupSource);
    SortKeepsDistinct(groups, GroupStars, GroupSource);
  }

  /** Each group holds exactly its source's items, in input order; none is empty. */
  lemma GroupHoldsItsItems(items: seq<FeedItem>, i: int)
    requires 0 <= i < |GroupAndSortRepos(items)|
    ensures var g := GroupAndSortRepos(items)[i];
      g == MakeGroup(g.sourceRepo, ItemsOf(items, g.sourceRepo)) && |g.items| > 0
  {
    var m := BySource(items);
    BySourceDistinct(items);
    var groups := Groups(m);
    var r := GroupAndSortRepos(items);
    assert r[i] in multiset(groups);
    var k :| 0 <= k < |groups| && groups[k] == r[i];
    GetEntry(m, k);
    BySourceGet(items, m[k].0);
  }

  /** Every item has the group of its source. */
  lemma ItemHasGroup(items: seq<FeedItem>, k: int) returns (i: nat)
    requires 0 <= k < |items|
    ensures i < |GroupAndSortRepos(items)| && GroupAndSortRepos(items)[i].sourceRepo == items[k].sourceRepo
  {
    var m := BySource(items);
    BySourceKeys(items);
    var groups := Groups(m);
    var r := GroupAndSortRepos(items);
    assert items[k].sourceRepo in KeySet(m);
    var e :| 0 <= e < |m| && m[e].0 == items[k].sourceRepo;
    assert groups[e] in multiset(r);
    i :| 0 <= i < |r| && r[i] == groups[e];
  }

  /** Groups come by non-increasing best stars; their sizes add up to the
      input's length and their issue totals to the overall total. */
  lemma GroupOrderAndTotals(items: seq<FeedItem>)
    ensures SortedDesc(GroupAndSortRepos(items), GroupStars)
    ensures SumBy(GroupAndSortRepos(items), GroupCount) == |items|
    ensures SumBy(GroupAndSortRepos(items), GroupIssues) == IssueTotal(items)
  {
    var m := BySource(items);
    BySourceSums(items);
    GroupsSum(m);
    SortSum(Groups(m), GroupStars, GroupCount);
    SortSum(Groups(m), GroupStars, GroupIssues);
  }

  /** A group's dependency figures: `dependencyCount` is the number of URLs
      with positive stars, and `topDependencies` is as `TopDependenciesSpec` says. */
  lemma GroupDependencies(source: string, items: seq<FeedItem>)
    ensures MakeGroup(source, items).dependencyCount == |StarredUrls(items)|
    ensures var top := MakeGroup(source, items).topDependencies;
      && |top| == Min(TopCount, |StarredUrls(items)|) <= TopCount
      && SortedDesc(top, DepStars)
      && DistinctBy(top, DepUrl)
      && (forall i :: 0 <= i < |top| ==> top[i].stars == MaxStars(items, top[i].url) > 0)
  {
    DependencyCountSpec(items);
    TopDependenciesSpec(items);
  }

  /** The first loop: `bySource` filled item by item. */
  method FillBySource(items: seq<FeedItem>) returns (bySource: seq<(string, seq<FeedItem>)>)
    ensures bySource == BySource(items)
  {
    bySource := [];
    for i := 0 to |items|
      invariant bySource == BySource(items[..i])
    {
      var item := items[i];
      assert Init(items[..i + 1]) == items[..i] && Last(items[..i + 1]) == item;
      var existing := Get(bySource, item.sourceRepo).GetOr([]);
      existing := existing + [item];
      bySource := Set(bySource, item.sourceRepo, existing);
    }
    assert items[..|items|] == items;
  }

  /** The inner loop: `byDep` filled over one group's items. */
  method FillByDep(repoItems: seq<FeedItem>) returns (byDep: seq<(string, int)>)
    ensures byDep == DepTable(repoItems)
  {
    byDep := [];
    for j := 0 to |repoItems|
      invariant byDep == DepTable(repoItems[..j])
    {
      var item := repoItems[j];
      assert Init(repoItems[..j + 1]) == repoItems[..j] && Last(repoItems[..j + 1]) == item;
      var existing := Get(byDep, item.dependencyUrl).GetOr(0);
      if item.stars > existing {
        byDep := Set(byDep, item.dependencyUrl, item.stars);
      }
    }
    assert repoItems[..|repoItems|] == repoItems;
  }

  /** `groupAndSortRepos` as the page runs it: the `Map`-filling loops, the
      group list, then the sort. */
  method GroupAndSort(items: seq<FeedItem>) returns (groups: seq<GroupedRepo>)
    ensures groups == GroupAndSortRepos(items)
  {
    var bySource := FillBySource(items);
    var unsorted: seq<GroupedRepo> := [];
    for e := 0 to |bySource|
      invariant unsorted == Groups(bySource)[..e]
    {
      var sourceRepo := bySource[e].0;
      var repoItems := bySource[e].1;
      var byDep := FillByDep(repoItems);
      var sortedDeps := SortDesc(Entries(byDep), DepStars);
      var topDependencies := sortedDeps[..Min(TopCount, |sortedDeps|)];
      assert GroupedRepo(sourceRepo, repoItems, |byDep|, topDependencies) == Groups(bySource)[e];
      assert Groups(bySource)[..e + 1] == Groups(bySource)[..e] + [Groups(bySource)[e]];
      unsorted := unsorted + [GroupedRepo(sourceRepo, repoItems, |byDep|, topDependencies)];
    }
    assert Groups(bySource)[..|bySource|] == Groups(bySource);
    groups := SortDesc(unsorted, GroupStars);
  }
}

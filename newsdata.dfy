/** The news-list hook of the web client (web/src/hooks/useNewsData.ts): the loaded items
    narrowed by site, source and search text, shown a page at a time, and the item count of
    each source of the selected site. */
module NewsData {
  import opened Wrappers
  import opened Strings
  import opened Sorting
  import opened OrderedMaps

  const PAGE_SIZE: nat := 50
  /** The filter value that selects everything. */
  const ALL := "all"
  const DEFAULT_SITE := "opmlrss"

  /** The fields of a payload item the hook reads. */
  datatype NewsItem = NewsItem(siteId: string, source: string, title: string, titleZh: Option<string>)

  /** `'24h' | '7d'` */
  datatype TimeRange = Day | Week

  /** `{ source, count }` */
  datatype SourceStat = SourceStat(source: string, count: nat)

  // ----- the list -----

  function FromSite(site: string): NewsItem -> bool {
    (item: NewsItem) => item.siteId == site
  }

  function FromSource(source: string): NewsItem -> bool {
    (item: NewsItem) => item.source == source
  }

  /** The lower-cased title, source or (when non-empty) Chinese title contains `q`. */
  predicate Mentions(item: NewsItem, q: string) {
    Contains(Lower(item.title), q) || Contains(Lower(item.source), q)
    || (item.titleZh.Some? && item.titleZh.value != [] && Contains(Lower(item.titleZh.value), q))
  }

  function MentionsQuery(q: string): NewsItem -> bool {
    (item: NewsItem) => Mentions(item, q)
  }

  /** The filter chain of `filteredItems` and `totalFiltered`, one `filter` per selection
      in the order the source applies them; the query is lower-cased but not trimmed. */
  function Narrowed(items: seq<NewsItem>, site: string, source: string, query: string): seq<NewsItem> {
    var bySite := if site != ALL then Filter(items, FromSite(site)) else items;
    var bySource := if source != ALL then Filter(bySite, FromSource(source)) else bySite;
    if !IsBlank(query) then Filter(bySource, MentionsQuery(Lower(query))) else bySource
  }

  /** An item is selected: from the site and the source, unless these are "all", and
      mentioning the query, unless it is blank. */
  predicate Selected(item: NewsItem, site: string, source: string, query: string) {
    (site == ALL || item.siteId == site)
    && (source == ALL || item.source == source)
    && (IsBlank(query) || Mentions(item, Lower(query)))
  }

  function Selection(site: string, source: string, query: string): NewsItem -> bool {
    (item: NewsItem) => Selected(item, site, source, query)
  }

  /** The test when `on`, else a test that always holds. */
  function When<T>(on: bool, p: T -> bool): T -> bool {
    x => !on || p(x)
  }

  /** A filter applied only when `on` is a filter by `When(on, p)`. */
  lemma FilterWhen<T>(s: seq<T>, on: bool, p: T -> bool)
    ensures (if on then Filter(s, p) else s) == Filter(s, When(on, p))
  {
    if on {
      FilterCongruent(s, p, When(on, p));
    } else {
      FilterAll(s);
      FilterCongruent(s, x => true, When(on, p));
    }
  }

  /** The chain is one order-preserving filter by the whole selection. */
  lemma NarrowedIsFilter(items: seq<NewsItem>, site: string, source: string, query: string)
    ensures Narrowed(items, site, source, query) == Filter(items, Selection(site, source, query))
  {
    var p := When(site != ALL, FromSite(site));
    var q := When(source != ALL, FromSource(source));
    var r := When(!IsBlank(query), MentionsQuery(Lower(query)));
    var bySite := if site != ALL then Filter(items, FromSite(site)) else items;
    var bySource := if source != ALL then Filter(bySite, FromSource(source)) else bySite;
    FilterWhen(items, site != ALL, FromSite(site));
    FilterWhen(bySite, source != ALL, FromSource(source));
    FilterWhen(bySource, !IsBlank(query), MentionsQuery(Lower(query)));
    FilterFilter(items, p, q);
    FilterFilter(items, Both(p, q), r);
    forall i | 0 <= i < |items|
      ensures Both(Both(p, q), r)(items[i]) == Selection(site, source, query)(items[i])
    {
      var x := items[i];
      assert Both(Both(p, q), r)(x) == (p(x) && q(x) && r(x));
    }
    FilterCongruent(items, Both(Both(p, q), r), Selection(site, source, query));
  }

  /** `filteredItems`: no items before data has loaded, else the first `displayCount` of
      the narrowed list. */
  function FilteredItems(data: Option<seq<NewsItem>>, site: string, source: string, query: string,
                         displayCount: nat): seq<NewsItem>
  {
    if data.None? then []
    else
      var items := Narrowed(data.value, site, source, query);
      items[..if displayCount < |items| then displayCount else |items|]
  }

  /** `totalFiltered` */
  function TotalFiltered(data: Option<seq<NewsItem>>, site: string, source: string, query: string): nat {
    if data.None? then 0 else |Narrowed(data.value, site, source, query)|
  }

  /** `hasMore` */
  predicate HasMore(displayCount: nat, total: nat) {
    displayCount < total
  }

  /** The page is a prefix of the selected items in their loaded order, as long as the page
      allows, and there is more to show exactly when the page is shorter than the total. */
  lemma PageOfSelection(data: Option<seq<NewsItem>>, site: string, source: string, query: string, displayCount: nat)
    ensures var page := FilteredItems(data, site, source, query, displayCount);
      var total := TotalFiltered(data, site, source, query);
      |page| == (if displayCount < total then displayCount else total)
      && (data.Some? ==> (|page| <= |Filter(data.value, Selection(site, source, query))|
            && page == Filter(data.value, Selection(site, source, query))[..|page|]))
      && (forall i | 0 <= i < |page| :: Selected(page[i], site, source, query))
      && (HasMore(displayCount, total) <==> |page| < total)
  {
    if data.Some? {
      NarrowedIsFilter(data.value, site, source, query);
    }
  }

  /** Loading more keeps the page shown and appends to it. */
  lemma LoadMoreExtends(data: Option<seq<NewsItem>>, site: string, source: string, query: string, displayCount: nat)
    ensures var page := FilteredItems(data, site, source, query, displayCount);
      var next := FilteredItems(data, site, source, query, displayCount + PAGE_SIZE);
      var total := TotalFiltered(data, site, source, query);
      next[..|page|] == page
      && |next| == (if displayCount + PAGE_SIZE < total then displayCount + PAGE_SIZE else total)
  {
  }

  // ----- source counts -----

  /** Counts per source, in first-seen order. */
  type Counts = m: OrderedMap<string, nat> | m.Valid() witness OrderedMap([], map[])

  /** `sourceMap.set(src, (sourceMap.get(src) || 0) + 1)`. */
  function Bump(counts: Counts, src: string): Counts {
    counts.Set(src, (if src in counts.entries then counts.entries[src] else 0) + 1)
  }

  /** The counts after one `Bump` for each item's source in turn. */
  function Tally(items: seq<NewsItem>): Counts
    decreases |items|
  {
    if items == [] then Empty() else Bump(Tally(items[..|items| - 1]), items[|items| - 1].source)
  }

  /** The sources of some items. */
  function SourcesOf(items: seq<NewsItem>): set<string> {
    set x | x in items :: x.source
  }

  lemma SourcesOfSnoc(items: seq<NewsItem>)
    requires items != []
    ensures SourcesOf(items) == SourcesOf(items[..|items| - 1]) + {items[|items| - 1].source}
  {
    assert items == items[..|items| - 1] + [items[|items| - 1]];
  }

  /** A source is counted exactly when an item has it. */
  lemma {:induction false} TallySources(items: seq<NewsItem>)
    ensures Tally(items).entries.Keys == SourcesOf(items)
    decreases |items|
  {
    if items != [] {
      TallySources(items[..|items| - 1]);
      SourcesOfSnoc(items);
    }
  }

  /** The count of a source is the number of its items. */
  lemma {:induction false} TallyExact(items: seq<NewsItem>, src: string)
    requires src in Tally(items).entries
    ensures Tally(items).entries[src] == Count(items, FromSource(src))
    decreases |items|
  {
    var init := items[..|items| - 1];
    var last := items[|items| - 1].source;
    var before := Tally(init);
    assert Count(items, FromSource(src)) == Count(init, FromSource(src)) + (if last == src then 1 else 0);
    if src in before.entries {
      TallyExact(init, src);
    } else {
      assert src == last;
      TallySources(init);
      forall i | 0 <= i < |init| ensures !FromSource(src)(init[i]) {
        assert init[i] in init;
      }
      CountNone(init, FromSource(src));
    }
  }

  /** `{ source, count }` for each entry of the map, in key order. */
  function StatsOf(counts: Counts): (r: seq<SourceStat>)
    ensures |r| == |counts.keys|
    ensures forall i | 0 <= i < |r| :: r[i] == SourceStat(counts.keys[i], counts.entries[counts.keys[i]])
  {
    seq(|counts.keys|, i requires 0 <= i < |counts.keys| => SourceStat(counts.keys[i], counts.entries[counts.keys[i]]))
  }

  function BySource(): SourceStat -> string {
    (s: SourceStat) => s.source
  }

  function StatCount(): SourceStat -> int {
    (s: SourceStat) => s.count
  }

  function ByCountDesc(): (SourceStat, SourceStat) -> bool {
    KeyDesc(StatCount())
  }

  /** `sourceStats`: nothing before data has loaded or when every site is shown; else the
      counts of the site's sources, largest first, ties in first-seen order. */
  function SourceStats(data: Option<seq<NewsItem>>, site: string): seq<SourceStat> {
    if data.None? || site == ALL then []
    else SortBy(StatsOf(Tally(Filter(data.value, FromSite(site)))), ByCountDesc())
  }

  /** Sum of the counts. */
  function Total(stats: seq<SourceStat>): nat
    decreases |stats|
  {
    if stats == [] then 0 else Total(stats[..|stats| - 1]) + stats[|stats| - 1].count
  }

  lemma {:induction false} TotalAppend(a: seq<SourceStat>, b: seq<SourceStat>)
    ensures Total(a + b) == Total(a) + Total(b)
    decreases |b|
  {
    if b == [] {
      assert a + b == a;
    } else {
      assert (a + b)[..|a + b| - 1] == a + b[..|b| - 1];
      TotalAppend(a, b[..|b| - 1]);
    }
  }

  /** Taking one entry out of a list. */
  lemma MultisetRemove(b: seq<SourceStat>, i: nat)
    requires i < |b|
    ensures multiset(b[..i] + b[i + 1..]) == multiset(b) - multiset{b[i]}
  {
    assert b == b[..i] + [b[i]] + b[i + 1..];
    assert multiset(b) == multiset(b[..i]) + multiset{b[i]} + multiset(b[i + 1..]);
  }

  /** Taking one entry out of a list takes its count out of the sum. */
  lemma TotalRemove(b: seq<SourceStat>, i: nat)
    requires i < |b|
    ensures Total(b) == Total(b[..i] + b[i + 1..]) + b[i].count
  {
    var pre, post := b[..i], b[i + 1..];
    assert b == pre + [b[i]] + post;
    TotalAppend(pre + [b[i]], post);
    TotalAppend(pre, [b[i]]);
    assert Total([b[i]]) == b[i].count by {
      assert [b[i]][..0] == [];
    }
    TotalAppend(pre, post);
  }

  /** Reordering keeps the sum. */
  lemma {:induction false} TotalPermutation(a: seq<SourceStat>, b: seq<SourceStat>)
    requires multiset(a) == multiset(b)
    ensures Total(a) == Total(b)
    decreases |a|
  {
    if a != [] {
      var x := a[|a| - 1];
      var init := a[..|a| - 1];
      assert a == init + [x];
      assert x in multiset(b);
      var i :| 0 <= i < |b| && b[i] == x;
      MultisetRemove(b, i);
      assert multiset(init) == multiset(a) - multiset{x};
      TotalPermutation(init, b[..i] + b[i + 1..]);
      TotalRemove(b, i);
    }
  }

  /** Changing one count changes the sum by the difference. */
  lemma TotalUpdate(s: seq<SourceStat>, j: nat, x: SourceStat)
    requires j < |s|
    ensures Total(s[j := x]) + s[j].count == Total(s) + x.count
  {
    assert s == s[..j] + [s[j]] + s[j + 1..];
    assert s[j := x] == s[..j] + [x] + s[j + 1..];
    TotalAppend(s[..j] + [s[j]], s[j + 1..]);
    TotalAppend(s[..j], [s[j]]);
    TotalAppend(s[..j] + [x], s[j + 1..]);
    TotalAppend(s[..j], [x]);
    assert [s[j]][..0] == [] && [x][..0] == [];
  }

  /** Setting a new source appends its entry. */
  lemma StatsOfNew(m: Counts, k: string, v: nat)
    requires k !in m.entries
    ensures StatsOf(m.Set(k, v)) == StatsOf(m) + [SourceStat(k, v)]
  {
  }

  /** Setting a counted source changes its entry in place. */
  lemma StatsOfExisting(m: Counts, k: string, v: nat, j: nat)
    requires j < |m.keys| && m.keys[j] == k
    ensures StatsOf(m.Set(k, v)) == StatsOf(m)[j := SourceStat(k, v)]
  {
  }

  /** Changing the count at one position of the order changes the sum by the
      difference. */
  lemma TotalSetAt(m: Counts, j: nat, k: string, v: nat)
    requires j < |m.keys| && m.keys[j] == k
    ensures Total(StatsOf(m.Set(k, v))) + m.entries[k] == Total(StatsOf(m)) + v
  {
    var stats := StatsOf(m);
    StatsOfExisting(m, k, v, j);
    TotalUpdate(stats, j, SourceStat(k, v));
  }

  /** Counting a new source appends an entry of one. */
  lemma TallyStepNew(before: Counts, src: string)
    requires src !in before.entries
    ensures Total(StatsOf(before.Set(src, 1))) == Total(StatsOf(before)) + 1
  {
    StatsOfNew(before, src, 1);
    TotalAppend(StatsOf(before), [SourceStat(src, 1)]);
    assert [SourceStat(src, 1)][..0] == [];
  }

  /** Counting one more item adds one to the sum. */
  lemma TallyStep(before: Counts, src: string)
    ensures Total(StatsOf(Bump(before, src))) == Total(StatsOf(before)) + 1
  {
    if src in before.entries {
      // a source seen before: its entry grows by one in place
      var j := KeyIndex(before, src);
      var v := before.entries[src] + 1;
      assert Bump(before, src) == before.Set(src, v);
      TotalSetAt(before, j, src, v);
    } else {
      assert Bump(before, src) == before.Set(src, 1);
      TallyStepNew(before, src);
    }
  }

  /** The counts add up to the number of items counted. */
  lemma {:induction false} TallyTotal(items: seq<NewsItem>)
    ensures Total(StatsOf(Tally(items))) == |items|
    decreases |items|
  {
    if items != [] {
      TallyTotal(items[..|items| - 1]);
      TallyStep(Tally(items[..|items| - 1]), items[|items| - 1].source);
    }
  }

  /** The sources of some entries. */
  function StatSources(stats: seq<SourceStat>): set<string> {
    set x | x in stats :: x.source
  }

  /** The entries of a map of counts, in key order: one per key, with its count. */
  lemma StatsOfEntries(counts: Counts)
    ensures var unsorted := StatsOf(counts);
      KeysDistinct(unsorted, BySource())
      && StatSources(unsorted) == counts.entries.Keys
      && (forall x | x in unsorted :: x.source in counts.entries && x.count == counts.entries[x.source])
  {
    var unsorted := StatsOf(counts);
    var key := BySource();
    forall i, j | 0 <= i < j < |unsorted| ensures key(unsorted[i]) != key(unsorted[j]) {
      assert unsorted[i].source == counts.keys[i] && unsorted[j].source == counts.keys[j];
    }
    forall src | src in counts.entries ensures src in StatSources(unsorted) {
      assert src in counts.keys;
      var k :| 0 <= k < |counts.keys| && counts.keys[k] == src;
      assert unsorted[k] in unsorted;
    }
  }

  /** Reordering keeps the entries and so their sources. */
  lemma PermutedSources(a: seq<SourceStat>, b: seq<SourceStat>)
    requires multiset(a) == multiset(b)
    ensures forall x | x in b :: x in a
    ensures StatSources(a) == StatSources(b)
  {
    assert forall x :: x in a <==> x in multiset(a);
    assert forall x :: x in b <==> x in multiset(b);
  }

  /** Sorting the entries of a map of counts: ordered by count, one entry per key with its
      count, and the same sum. */
  lemma {:induction false} SortedStats(counts: Counts)
    ensures var stats := SortBy(StatsOf(counts), ByCountDesc());
      SortedBy(stats, ByCountDesc())
      && KeysDistinct(stats, BySource())
      && StatSources(stats) == counts.entries.Keys
      && (forall j | 0 <= j < |stats| :: stats[j].source in counts.entries && stats[j].count == counts.entries[stats[j].source])
      && Total(stats) == Total(StatsOf(counts))
  {
    var unsorted := StatsOf(counts);
    var stats := SortBy(unsorted, ByCountDesc());
    KeyDescIsStrictOrder(StatCount());
    SortBySorted(unsorted, ByCountDesc());
    TotalPermutation(unsorted, stats);
    StatsOfEntries(counts);
    PermutationKeysDistinct(unsorted, stats, BySource());
    PermutedSources(unsorted, stats);
    forall j | 0 <= j < |stats|
      ensures stats[j].source in counts.entries && stats[j].count == counts.entries[stats[j].source]
    {
      assert stats[j] in stats;
    }
  }

  /** The counts of a list of items: one per source that occurs, each the number of its
      items. */
  lemma TallyMeaning(items: seq<NewsItem>)
    ensures Tally(items).entries.Keys == SourcesOf(items)
    ensures forall src | src in Tally(items).entries :: Tally(items).entries[src] == Count(items, FromSource(src))
  {
    TallySources(items);
    forall src | src in Tally(items).entries ensures Tally(items).entries[src] == Count(items, FromSource(src)) {
      TallyExact(items, src);
    }
  }

  /** The sorted counts of a list of items: one entry per distinct source, each with the
      number of its items, the counts adding up to the number of items, largest first. */
  lemma {:induction false} SortedTally(items: seq<NewsItem>)
    ensures var stats := SortBy(StatsOf(Tally(items)), ByCountDesc());
      SortedBy(stats, ByCountDesc())
      && KeysDistinct(stats, BySource())
      && StatSources(stats) == SourcesOf(items)
      && (forall j | 0 <= j < |stats| :: stats[j].count == Count(items, FromSource(stats[j].source)))
      && Total(stats) == |items|
  {
    TallyMeaning(items);
    TallyTotal(items);
    SortedStats(Tally(items));
  }

  /** For a site other than "all": one entry per distinct source of the site's items, each
      with the number of its items, the counts adding up to the site's item count, largest
      count first. */
  lemma {:induction false} SourceStatsMeaning(items: seq<NewsItem>, site: string)
    requires site != ALL
    ensures var siteItems := Filter(items, FromSite(site));
      var stats := SourceStats(Some(items), site);
      SortedBy(stats, ByCountDesc())
      && KeysDistinct(stats, BySource())
      && StatSources(stats) == SourcesOf(siteItems)
      && (forall j | 0 <= j < |stats| :: stats[j].count == Count(siteItems, FromSource(stats[j].source)))
      && Total(stats) == |siteItems|
  {
    SortedTally(Filter(items, FromSite(site)));
  }

  /** Counting one more item of a list. */
  lemma TallyPrefix(items: seq<NewsItem>, i: nat)
    requires i < |items|
    ensures Tally(items[..i + 1]) == Bump(Tally(items[..i]), items[i].source)
  {
    assert items[..i + 1][..i] == items[..i];
  }

  /** One step of the loop counts one more item. */
  lemma CountStep(items: seq<NewsItem>, i: nat, counts: Counts, seen: nat)
    requires i < |items| && counts == Tally(items[..i])
    requires seen == if items[i].source in counts.entries then counts.entries[items[i].source] else 0
    ensures counts.Set(items[i].source, seen + 1) == Tally(items[..i + 1])
  {
    var src := items[i].source;
    var next := Bump(counts, src);
    assert next == counts.Set(src, seen + 1);
    TallyPrefix(items, i);
  }

  /** The counting loop of `sourceStats`. */
  method CountSources(siteItems: seq<NewsItem>) returns (counts: Counts)
    ensures counts == Tally(siteItems)
  {
    counts := Empty();
    var i := 0;
    while i < |siteItems|
      invariant 0 <= i <= |siteItems|
      invariant counts == Tally(siteItems[..i])
    {
      var src := siteItems[i].source;
      var seen := if src in counts.entries then counts.entries[src] else 0;
      CountStep(siteItems, i, counts, seen);
      counts := counts.Set(src, seen + 1);
      assert counts == Tally(siteItems[..i + 1]);
      i := i + 1;
    }
    assert siteItems[..i] == siteItems;
  }

  /** `sourceStats`, computed with the counting loop. */
  method ComputeSourceStats(data: Option<seq<NewsItem>>, site: string) returns (stats: seq<SourceStat>)
    ensures stats == SourceStats(data, site)
  {
    if data.None? || site == ALL {
      return [];
    }
    var counts := CountSources(Filter(data.value, FromSite(site)));
    stats := SortBy(StatsOf(counts), ByCountDesc());
  }

  // ----- the hook's state -----

  class NewsDataHook {
    /** `data?.items`, `None` until a payload has loaded. */
    var data: Option<seq<NewsItem>>
    var searchQuery: string
    var selectedSite: string
    var selectedSource: string
    var displayCount: nat
    var timeRange: TimeRange

    /** The initial state. */
    constructor ()
      ensures data.None? && searchQuery == "" && selectedSite == DEFAULT_SITE && selectedSource == ALL
      ensures displayCount == PAGE_SIZE && timeRange == Day
    {
      data := None;
      searchQuery := "";
      selectedSite := DEFAULT_SITE;
      selectedSource := ALL;
      displayCount := PAGE_SIZE;
      timeRange := Day;
    }

    /** A payload arrives (`setData(json)`). */
    method Receive(items: seq<NewsItem>)
      modifies this
      ensures data == Some(items)
      ensures searchQuery == old(searchQuery) && selectedSite == old(selectedSite)
      ensures selectedSource == old(selectedSource) && displayCount == old(displayCount)
      ensures timeRange == old(timeRange)
    {
      data := Some(items);
    }

    /** `loadMore` */
    method LoadMore()
      modifies this
      ensures displayCount == old(displayCount) + PAGE_SIZE
      ensures data == old(data) && searchQuery == old(searchQuery) && selectedSite == old(selectedSite)
      ensures selectedSource == old(selectedSource) && timeRange == old(timeRange)
    {
      displayCount := displayCount + PAGE_SIZE;
    }

    /** `setSearchQuery`; a changed query resets the page (the effect on the query). */
    method SetSearchQuery(query: string)
      modifies this
      ensures searchQuery == query
      ensures displayCount == if query != old(searchQuery) then PAGE_SIZE else old(displayCount)
      ensures data == old(data) && selectedSite == old(selectedSite)
      ensures selectedSource == old(selectedSource) && timeRange == old(timeRange)
    {
      if query != searchQuery {
        searchQuery := query;
        displayCount := PAGE_SIZE;
      }
    }

    /** `setSelectedSite`; a changed site resets the page and the source (the two effects
        on the site). */
    method SetSelectedSite(site: string)
      modifies this
      ensures selectedSite == site
      ensures site != old(selectedSite) ==> displayCount == PAGE_SIZE && selectedSource == ALL
      ensures site == old(selectedSite) ==> displayCount == old(displayCount) && selectedSource == old(selectedSource)
      ensures data == old(data) && searchQuery == old(searchQuery) && timeRange == old(timeRange)
    {
      if site != selectedSite {
        selectedSite := site;
        selectedSource := ALL;
        displayCount := PAGE_SIZE;
      }
    }

    /** `setSelectedSource`; a changed source resets the page. */
    method SetSelectedSource(source: string)
      modifies this
      ensures selectedSource == source
      ensures displayCount == if source != old(selectedSource) then PAGE_SIZE else old(displayCount)
      ensures data == old(data) && searchQuery == old(searchQuery) && selectedSite == old(selectedSite)
      ensures timeRange == old(timeRange)
    {
      if source != selectedSource {
        selectedSource := source;
        displayCount := PAGE_SIZE;
      }
    }

    /** `setTimeRange` (`handleTimeRangeChange`): every selection goes back to its default. */
    method SetTimeRange(range: TimeRange)
      modifies this
      ensures timeRange == range && displayCount == PAGE_SIZE && selectedSite == DEFAULT_SITE
      ensures selectedSource == ALL && searchQuery == ""
      ensures data == old(data)
    {
      timeRange := range;
      displayCount := PAGE_SIZE;
      selectedSite := DEFAULT_SITE;
      selectedSource := ALL;
      searchQuery := "";
    }

    /** `refresh`: back to the first page (the reload itself is not modelled). */
    method Refresh()
      modifies this
      ensures displayCount == PAGE_SIZE
      ensures data == old(data) && searchQuery == old(searchQuery) && selectedSite == old(selectedSite)
      ensures selectedSource == old(selectedSource) && timeRange == old(timeRange)
    {
      displayCount := PAGE_SIZE;
    }
  }
}

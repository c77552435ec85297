/** The deduplicator (`src/filters/dedupe.ts`): one record per (title, URL) group for the
    payloads, and the URL-only pass over AI HubToday records for the window selection. */
module Dedupe {
  import opened Strings
  import opened Sorting
  import opened OrderedMaps
  import opened Grouping
  import opened Records
  import Urls
  import Hubtoday

  // ----- the group key -----

  /** `item.title_original || item.title || ''` */
  function TitleText(r: Record): string {
    if r.bilingual.Some? && r.bilingual.value.titleOriginal != [] then r.bilingual.value.titleOriginal else r.title
  }

  const URL_KEY_PREFIX: string := "url::"
  const KEY_SEPARATOR: string := "||"

  /** The key of `dedupeItemsByTitleUrl`: the normalised URL alone for AI HubToday (site id
      compared case-insensitively), the lower-cased title and the normalised URL otherwise. */
  function DedupeKey(r: Record, parse: Urls.Parser): string {
    var url := Urls.NormalizeUrl(r.url, parse);
    if Lower(r.siteId) == Hubtoday.SITE_ID then URL_KEY_PREFIX + url
    else Lower(TitleText(r)) + KEY_SEPARATOR + url
  }

  function KeyOf(parse: Urls.Parser): Record -> string {
    (r: Record) => DedupeKey(r, parse)
  }

  /** Two AI HubToday records share a group exactly when their normalised URLs agree. */
  lemma HubtodayKeysFollowUrls(a: Record, b: Record, parse: Urls.Parser)
    requires Lower(a.siteId) == Hubtoday.SITE_ID && Lower(b.siteId) == Hubtoday.SITE_ID
    ensures DedupeKey(a, parse) == DedupeKey(b, parse)
        <==> Urls.NormalizeUrl(a.url, parse) == Urls.NormalizeUrl(b.url, parse)
  {
    if DedupeKey(a, parse) == DedupeKey(b, parse) {
      PrefixCancel(URL_KEY_PREFIX, Urls.NormalizeUrl(a.url, parse), Urls.NormalizeUrl(b.url, parse));
    }
  }

  /** Other records with the same normalised URL share a group exactly when their titles
      agree up to case. */
  lemma TitleKeysSameUrl(a: Record, b: Record, parse: Urls.Parser)
    requires Lower(a.siteId) != Hubtoday.SITE_ID && Lower(b.siteId) != Hubtoday.SITE_ID
    requires Urls.NormalizeUrl(a.url, parse) == Urls.NormalizeUrl(b.url, parse)
    ensures DedupeKey(a, parse) == DedupeKey(b, parse) <==> Lower(TitleText(a)) == Lower(TitleText(b))
  {
    var q := KEY_SEPARATOR + Urls.NormalizeUrl(a.url, parse);
    assert DedupeKey(a, parse) == Lower(TitleText(a)) + q;
    assert DedupeKey(b, parse) == Lower(TitleText(b)) + q;
    if DedupeKey(a, parse) == DedupeKey(b, parse) {
      SuffixCancel(Lower(TitleText(a)), Lower(TitleText(b)), q);
    }
  }

  /** Other records with the same title up to case share a group exactly when their
      normalised URLs agree. */
  lemma TitleKeysSameTitle(a: Record, b: Record, parse: Urls.Parser)
    requires Lower(a.siteId) != Hubtoday.SITE_ID && Lower(b.siteId) != Hubtoday.SITE_ID
    requires Lower(TitleText(a)) == Lower(TitleText(b))
    ensures DedupeKey(a, parse) == DedupeKey(b, parse)
        <==> Urls.NormalizeUrl(a.url, parse) == Urls.NormalizeUrl(b.url, parse)
  {
    var p := Lower(TitleText(a)) + KEY_SEPARATOR;
    assert DedupeKey(a, parse) == p + Urls.NormalizeUrl(a.url, parse);
    assert DedupeKey(b, parse) == p + Urls.NormalizeUrl(b.url, parse);
    if DedupeKey(a, parse) == DedupeKey(b, parse) {
      PrefixCancel(p, Urls.NormalizeUrl(a.url, parse), Urls.NormalizeUrl(b.url, parse));
    }
  }

  // ----- the latest-mode choice -----

  /** `a` is kept over `b`: a time beats no time, a later time beats an earlier one, and
      otherwise the greater id wins. */
  predicate Beats(a: Record, b: Record) {
    var ta, tb := EventTime(a), EventTime(b);
    (ta.Some? && tb.None?)
    || (ta.Some? && tb.Some? && ta.value > tb.value)
    || (ta == tb && LexLess(b.id, a.id))
  }

  /** The `reduce` callback `(best, current) => ...` as written. */
  function Choose(best: Record, current: Record): (r: Record)
    ensures r == if Beats(best, current) then best else current
  {
    var bestTime, currentTime := EventTime(best), EventTime(current);
    if bestTime.None? && currentTime.None? then (if LexLess(current.id, best.id) then best else current)
    else if bestTime.None? then current
    else if currentTime.None? then best
    else if currentTime.value > bestTime.value then current
    else if currentTime.value < bestTime.value then best
    else if LexLess(current.id, best.id) then best else current
  }

  lemma BeatsIrreflexive(a: Record)
    ensures !Beats(a, a)
  {
    LexLessIrreflexive(a.id);
  }

  lemma BeatsAsymmetric(a: Record, b: Record)
    requires Beats(a, b)
    ensures !Beats(b, a)
  {
    LexLessAsymmetric(b.id, a.id);
  }

  /** "Not beaten by" is transitive: `Beats` compares (has a time, time, id) lexicographically. */
  lemma NotBeatsTransitive(a: Record, b: Record, c: Record)
    requires !Beats(a, b) && !Beats(b, c)
    ensures !Beats(a, c)
  {
    if EventTime(a) == EventTime(b) && EventTime(b) == EventTime(c) {
      NotLexLessChain(a.id, b.id, c.id);
    }
  }

  /** `values.reduce(choose)`: folds from the first member. */
  function Representative(s: seq<Record>): (r: Record)
    requires |s| > 0
    ensures r in s
    decreases |s|
  {
    if |s| == 1 then s[0] else Choose(Representative(s[..|s| - 1]), s[|s| - 1])
  }

  /** No member beats the representative. */
  lemma {:induction false} RepresentativeMaximal(s: seq<Record>)
    requires |s| > 0
    ensures forall m | m in s :: !Beats(m, Representative(s))
    decreases |s|
  {
    if |s| == 1 {
      BeatsIrreflexive(s[0]);
    } else {
      var init := s[..|s| - 1];
      var x := s[|s| - 1];
      var best := Representative(init);
      RepresentativeMaximal(init);
      assert s == init + [x];
      if Beats(best, x) {
        BeatsAsymmetric(best, x);
      } else {
        BeatsIrreflexive(x);
        forall m | m in init ensures !Beats(m, x) {
          NotBeatsTransitive(m, best, x);
        }
      }
    }
  }

  /** What the latest mode promises about its pick: if any member has a time, the pick has one
      and no member is later; among members with the pick's time, none has a greater id. */
  lemma RepresentativeIsLatest(s: seq<Record>)
    requires |s| > 0
    ensures var r := Representative(s);
      forall m | m in s ::
        (EventTime(m).Some? ==> EventTime(r).Some? && EventTime(m).value <= EventTime(r).value)
        && (EventTime(m) == EventTime(r) ==> !LexLess(r.id, m.id))
  {
    RepresentativeMaximal(s);
  }

  // ----- one pick per group -----

  /** The latest-mode picks: the representative of each non-empty group. */
  function LatestPicks(gs: seq<seq<Record>>): (r: seq<Record>)
    ensures ChoiceOf(r, gs)
    decreases |gs|
  {
    if gs == [] then []
    else
      var init := LatestPicks(gs[..|gs| - 1]);
      var last := gs[|gs| - 1];
      if last == [] then init
      else
        assert (init + [Representative(last)])[..|init|] == init;
        init + [Representative(last)]
  }

  /** The latest picks of one more group. */
  lemma LatestPicksStep(gs: seq<seq<Record>>, j: nat)
    requires j < |gs|
    ensures LatestPicks(gs[..j + 1])
      == if gs[j] == [] then LatestPicks(gs[..j]) else LatestPicks(gs[..j]) + [Representative(gs[j])]
  {
    assert gs[..j + 1][..j] == gs[..j];
  }

  /** With no empty group, the latest picks are the groups' representatives. */
  lemma {:induction false} LatestPicksAreRepresentatives(gs: seq<seq<Record>>)
    requires forall i | 0 <= i < |gs| :: gs[i] != []
    ensures |LatestPicks(gs)| == |gs|
    ensures forall i | 0 <= i < |gs| :: LatestPicks(gs)[i] == Representative(gs[i])
    decreases |gs|
  {
    if gs != [] {
      var init := gs[..|gs| - 1];
      assert forall i | 0 <= i < |init| :: init[i] == gs[i];
      LatestPicksAreRepresentatives(init);
    }
  }

  /** `dedupeItemsByTitleUrl(items, randomPick)`: group by key, take one member per group (a
      nondeterministic one in random mode, the representative otherwise), sort newest first.
      The ghost `picks` is the list before sorting. */
  method DedupeItemsByTitleUrl(items: seq<Record>, randomPick: bool, parse: Urls.Parser)
    returns (result: seq<Record>, ghost picks: seq<Record>)
    ensures ChoiceOf(picks, GroupBy(items, KeyOf(parse)).Values())
    ensures !randomPick ==> picks == LatestPicks(GroupBy(items, KeyOf(parse)).Values())
    ensures result == SortBy(picks, NewestFirst())
  {
    var groups := GroupInto(items, KeyOf(parse));
    var values := groups.Values();
    var chosen: seq<Record> := [];
    var j := 0;
    while j < |values|
      invariant 0 <= j <= |values|
      invariant ChoiceOf(chosen, values[..j])
      invariant !randomPick ==> chosen == LatestPicks(values[..j])
    {
      LatestPicksStep(values, j);
      var group := values[j];
      if |group| == 0 {
        ChoiceSkip(chosen, values, j);
        j := j + 1;
        continue;
      }
      var pick;
      if randomPick {
        var k :| 0 <= k < |group|;
        pick := group[k];
      } else {
        pick := Representative(group);
      }
      ChoiceAppend(chosen, values, j, pick);
      chosen := chosen + [pick];
      j := j + 1;
    }
    assert values[..j] == values;
    picks := chosen;
    result := SortBy(chosen, NewestFirst());
  }

  /** Both modes: the output is sorted newest first and holds input records with pairwise
      distinct keys, one for every key of the input. */
  lemma {:induction false} DedupeOnePerKey(items: seq<Record>, parse: Urls.Parser, picks: seq<Record>)
    requires ChoiceOf(picks, GroupBy(items, KeyOf(parse)).Values())
    ensures var out := SortBy(picks, NewestFirst());
      SortedBy(out, NewestFirst())
      && (forall j | 0 <= j < |out| :: out[j] in items)
      && KeysDistinct(out, KeyOf(parse))
      && (forall i | 0 <= i < |items| :: exists j | 0 <= j < |out| :: KeyOf(parse)(out[j]) == KeyOf(parse)(items[i]))
  {
    PermutedChoice(items, KeyOf(parse), picks, SortBy(picks, NewestFirst()));
    KeyDescIsStrictOrder(TimeOrZero);
    SortBySorted(picks, NewestFirst());
  }

  /** Latest mode: no record of the input beats the output record of its group. */
  lemma {:induction false} DedupeLatestIsMaximal(items: seq<Record>, parse: Urls.Parser)
    ensures var out := SortBy(LatestPicks(GroupBy(items, KeyOf(parse)).Values()), NewestFirst());
      forall i, j | 0 <= i < |items| && 0 <= j < |out| && KeyOf(parse)(items[i]) == KeyOf(parse)(out[j]) ::
        !Beats(items[i], out[j])
  {
    var values := GroupBy(items, KeyOf(parse)).Values();
    var picks := LatestPicks(values);
    var out := SortBy(picks, NewestFirst());
    forall i, j | 0 <= i < |items| && 0 <= j < |out| && KeyOf(parse)(items[i]) == KeyOf(parse)(out[j])
      ensures !Beats(items[i], out[j])
    {
      SortByMembers(picks, NewestFirst(), out[j]);
      var p :| 0 <= p < |picks| && picks[p] == out[j];
      assert items[i] in items;
      LatestPickMaximal(items, parse, values, picks, p, items[i]);
    }
  }

  /** The `p`-th latest pick is not beaten by any input record with its key. */
  lemma LatestPickMaximal(items: seq<Record>, parse: Urls.Parser, values: seq<seq<Record>>, picks: seq<Record>,
                          p: int, x: Record)
    requires values == GroupBy(items, KeyOf(parse)).Values() && picks == LatestPicks(values)
    requires 0 <= p < |picks| && x in items && KeyOf(parse)(x) == KeyOf(parse)(picks[p])
    ensures !Beats(x, picks[p])
  {
    ChoiceGroupHoldsKey(items, KeyOf(parse), picks, p, x);
    GroupValuesNonEmpty(items, KeyOf(parse));
    LatestPicksAreRepresentatives(values);
    RepresentativeMaximal(values[p]);
  }

  // ----- the AI HubToday pass -----

  /** `item.site_id !== 'aihubtoday'`: compared exactly here, unlike the key above. */
  predicate IsHub(r: Record) {
    r.siteId == Hubtoday.SITE_ID
  }

  function NotHub(): Record -> bool {
    (r: Record) => !IsHub(r)
  }

  function HubSite(): Record -> bool {
    (r: Record) => IsHub(r)
  }

  function UrlKey(parse: Urls.Parser): Record -> string {
    (r: Record) => Urls.NormalizeUrl(r.url, parse)
  }

  /** The AI HubToday records that reach `byUrl`: those with a non-empty normalised URL. */
  function HubWithUrl(parse: Urls.Parser): Record -> bool {
    (r: Record) => IsHub(r) && Urls.NormalizeUrl(r.url, parse) != []
  }

  function NotGeneric(): Record -> bool {
    (r: Record) => !Hubtoday.IsGenericAnchorTitle(r.title)
  }

  /** `preferred.length > 0 ? preferred : group` */
  function Pool(group: seq<Record>): (p: seq<Record>)
    ensures group != [] ==> p != []
  {
    var preferred := Filter(group, NotGeneric());
    if preferred != [] then preferred else group
  }

  /** The picks of the second loop: the representative of each non-empty group's pool. */
  function HubPicks(gs: seq<seq<Record>>): seq<Record>
    decreases |gs|
  {
    if gs == [] then []
    else
      var init := HubPicks(gs[..|gs| - 1]);
      var last := gs[|gs| - 1];
      if last == [] then init else init + [Representative(Pool(last))]
  }

  /** The picks are one member of each non-empty group, in group order. */
  lemma {:induction false} HubPicksChoose(gs: seq<seq<Record>>)
    ensures ChoiceOf(HubPicks(gs), gs)
    decreases |gs|
  {
    if gs != [] {
      var init := gs[..|gs| - 1];
      HubPicksChoose(init);
      var last := gs[|gs| - 1];
      if last != [] {
        var before := HubPicks(init);
        var pick := Representative(Pool(last));
        assert (before + [pick])[..|before|] == before;
      }
    }
  }

  /** A non-empty last group adds its pick at the end. */
  lemma HubPicksSnoc(gs: seq<seq<Record>>)
    requires gs != [] && gs[|gs| - 1] != []
    ensures HubPicks(gs) == HubPicks(gs[..|gs| - 1]) + [Representative(Pool(gs[|gs| - 1]))]
  {
  }

  lemma {:induction false} HubPicksAreRepresentatives(gs: seq<seq<Record>>)
    requires forall i | 0 <= i < |gs| :: gs[i] != []
    ensures |HubPicks(gs)| == |gs|
    ensures forall i | 0 <= i < |gs| :: HubPicks(gs)[i] == Representative(Pool(gs[i]))
    decreases |gs|
  {
    if gs != [] {
      var init := gs[..|gs| - 1];
      var last := gs[|gs| - 1];
      assert forall i | 0 <= i < |init| :: init[i] == gs[i];
      HubPicksAreRepresentatives(init);
      HubPicksSnoc(gs);
      var before := HubPicks(init);
      forall i | 0 <= i < |gs| ensures HubPicks(gs)[i] == Representative(Pool(gs[i])) {
        if i < |init| {
          assert HubPicks(gs)[i] == before[i];
        } else {
          assert i == |before| && gs[i] == last;
        }
      }
    }
  }

  /** `byUrl` after the first loop. */
  function HubGroups(items: seq<Record>, parse: Urls.Parser): OrderedMap<string, seq<Record>> {
    GroupBy(Filter(items, HubWithUrl(parse)), UrlKey(parse))
  }

  /** What `normalizeAihubTodayRecords` returns. */
  function NormalizeSpec(items: seq<Record>, parse: Urls.Parser): seq<Record> {
    SortBy(Filter(items, NotHub()) + HubPicks(HubGroups(items, parse).Values()), NewestFirst())
  }

  /** `normalizeAihubTodayRecords(items)` */
  method NormalizeAihubTodayRecords(items: seq<Record>, parse: Urls.Parser) returns (keep: seq<Record>)
    ensures keep == NormalizeSpec(items, parse)
  {
    var others, byUrl := SplitHubRecords(items, parse);
    keep := AppendHubPicks(others, byUrl.Values());
    keep := SortBy(keep, NewestFirst());
  }

  /** The first loop: other sites' records go straight to `keep`, AI HubToday records with a
      non-empty normalised URL are grouped by it in `byUrl`, the rest are dropped. */
  method SplitHubRecords(items: seq<Record>, parse: Urls.Parser)
    returns (keep: seq<Record>, byUrl: OrderedMap<string, seq<Record>>)
    ensures keep == Filter(items, NotHub())
    ensures byUrl == HubGroups(items, parse)
  {
    byUrl := Empty();
    keep := [];
    var i := 0;
    while i < |items|
      invariant 0 <= i <= |items|
      invariant keep == Filter(items[..i], NotHub())
      invariant byUrl == GroupBy(Filter(items[..i], HubWithUrl(parse)), UrlKey(parse))
    {
      var item := items[i];
      assert items[..i + 1] == items[..i] + [item];
      FilterSnoc(items[..i], item, NotHub());
      FilterSnoc(items[..i], item, HubWithUrl(parse));
      if !IsHub(item) {
        keep := keep + [item];
        i := i + 1;
        continue;
      }
      var url := Urls.NormalizeUrl(item.url, parse);
      if url == [] {
        i := i + 1;
        continue;
      }
      GroupBySnoc(Filter(items[..i], HubWithUrl(parse)), item, UrlKey(parse));
      var members := if url in byUrl.entries then byUrl.entries[url] else [];
      byUrl := byUrl.Set(url, members + [item]);
      i := i + 1;
    }
    assert items[..i] == items;
  }

  /** The second loop: the representative of each non-empty group's pool is appended. */
  method AppendHubPicks(others: seq<Record>, values: seq<seq<Record>>) returns (keep: seq<Record>)
    ensures keep == others + HubPicks(values)
  {
    keep := others;
    var j := 0;
    while j < |values|
      invariant 0 <= j <= |values|
      invariant keep == others + HubPicks(values[..j])
    {
      assert values[..j + 1][..j] == values[..j];
      var group := values[j];
      if |group| == 0 {
        j := j + 1;
        continue;
      }
      keep := keep + [Representative(Pool(group))];
      j := j + 1;
    }
    assert values[..j] == values;
  }

  /** Records of other sites pass through: each occurs in the output as often as in the input. */
  lemma {:induction false} NormalizeKeepsOthers(items: seq<Record>, parse: Urls.Parser, r: Record)
    requires !IsHub(r)
    ensures multiset(NormalizeSpec(items, parse))[r] == multiset(items)[r]
  {
    var picks := HubPicks(HubGroups(items, parse).Values());
    HubPicksAreHub(items, parse);
    FilterMultiplicity(items, NotHub(), r);
    assert r !in picks;
  }

  /** Every output record is an input record. */
  lemma NormalizeOutputsAreInputs(items: seq<Record>, parse: Urls.Parser, x: Record)
    requires x in NormalizeSpec(items, parse)
    ensures x in items
  {
    var others := Filter(items, NotHub());
    var picks := HubPicks(HubGroups(items, parse).Values());
    SortByMembers(others + picks, NewestFirst(), x);
    if x in picks {
      HubPicksAreHub(items, parse);
    }
  }

  /** Every pick of the second loop is an AI HubToday input record with a non-empty URL, and
      no two share a normalised URL. */
  lemma {:induction false} HubPicksAreHub(items: seq<Record>, parse: Urls.Parser)
    ensures var picks := HubPicks(HubGroups(items, parse).Values());
      (forall j | 0 <= j < |picks| :: picks[j] in items && HubWithUrl(parse)(picks[j]))
      && KeysDistinct(picks, UrlKey(parse))
  {
    HubPicksChoose(HubGroups(items, parse).Values());
    FilteredChoice(items, HubWithUrl(parse), UrlKey(parse), HubPicks(HubGroups(items, parse).Values()));
  }

  /** An AI HubToday record of the output is one of the picks. */
  lemma HubOutputIsPick(items: seq<Record>, parse: Urls.Parser, x: Record)
    requires x in NormalizeSpec(items, parse) && IsHub(x)
    ensures x in HubPicks(HubGroups(items, parse).Values())
  {
    var others := Filter(items, NotHub());
    var picks := HubPicks(HubGroups(items, parse).Values());
    SortByMembers(others + picks, NewestFirst(), x);
    assert x !in others;
  }

  /** The AI HubToday records of the output are inputs with a non-empty normalised URL. */
  lemma {:induction false} NormalizeHubInputs(items: seq<Record>, parse: Urls.Parser)
    ensures var out := NormalizeSpec(items, parse);
      forall j | 0 <= j < |out| && IsHub(out[j]) :: out[j] in items && Urls.NormalizeUrl(out[j].url, parse) != []
  {
    var out := NormalizeSpec(items, parse);
    var picks := HubPicks(HubGroups(items, parse).Values());
    HubPicksAreHub(items, parse);
    forall j | 0 <= j < |out| && IsHub(out[j]) ensures out[j] in items && Urls.NormalizeUrl(out[j].url, parse) != [] {
      HubOutputIsPick(items, parse, out[j]);
      var p :| 0 <= p < |picks| && picks[p] == out[j];
      assert HubWithUrl(parse)(picks[p]);
    }
  }

  /** No two AI HubToday records of the output share a normalised URL. */
  lemma {:induction false} HubOutputsDistinctUrls(items: seq<Record>, parse: Urls.Parser)
    ensures var out := NormalizeSpec(items, parse);
      forall i, j | 0 <= i < j < |out| && HubSite()(out[i]) && HubSite()(out[j]) ::
        UrlKey(parse)(out[i]) != UrlKey(parse)(out[j])
  {
    var others := Filter(items, NotHub());
    var picks := HubPicks(HubGroups(items, parse).Values());
    HubPicksAreHub(items, parse);
    MarkedKeysDistinct(NormalizeSpec(items, parse), others, picks, HubSite(), UrlKey(parse));
  }

  /** The `p`-th pick against a record `m` of its URL: a non-generic title is preferred, and
      among records of the pick's title class none beats the pick. */
  lemma HubPickPreferred(items: seq<Record>, parse: Urls.Parser, p: int, m: Record)
    requires 0 <= p < |HubPicks(HubGroups(items, parse).Values())|
    requires m in items && IsHub(m)
    requires Urls.NormalizeUrl(m.url, parse) == Urls.NormalizeUrl(HubPicks(HubGroups(items, parse).Values())[p].url, parse)
    ensures var r := HubPicks(HubGroups(items, parse).Values())[p];
      (!Hubtoday.IsGenericAnchorTitle(m.title) ==> !Hubtoday.IsGenericAnchorTitle(r.title))
      && (Hubtoday.IsGenericAnchorTitle(m.title) == Hubtoday.IsGenericAnchorTitle(r.title) ==> !Beats(m, r))
  {
    var hubs := Filter(items, HubWithUrl(parse));
    var g := HubGroups(items, parse);
    var picks := HubPicks(g.Values());
    HubPicksAreHub(items, parse);
    assert HubWithUrl(parse)(picks[p]);
    FilterComplete(items, HubWithUrl(parse));
    assert m in hubs;
    HubPicksChoose(g.Values());
    ChoiceGroupHoldsKey(hubs, UrlKey(parse), picks, p, m);
    GroupValuesNonEmpty(hubs, UrlKey(parse));
    HubPicksAreRepresentatives(g.Values());
    var group := g.Values()[p];
    RepresentativeMaximal(Pool(group));
    MemberOfPool(group, m, picks[p]);
  }

  /** The output is sorted newest first. */
  lemma NormalizeSorted(items: seq<Record>, parse: Urls.Parser)
    ensures SortedBy(NormalizeSpec(items, parse), NewestFirst())
  {
    KeyDescIsStrictOrder(TimeOrZero);
    SortBySorted(Filter(items, NotHub()) + HubPicks(HubGroups(items, parse).Values()), NewestFirst());
  }

  /** Each AI HubToday record of the output, against any AI HubToday input of its URL: it has
      a non-generic title when that input has one, and that input does not beat it when their
      titles are of the same class. */
  lemma {:induction false} NormalizeHubPreferred(items: seq<Record>, parse: Urls.Parser)
    ensures var out := NormalizeSpec(items, parse);
      forall j, m | 0 <= j < |out| && IsHub(out[j]) && m in items && IsHub(m)
          && Urls.NormalizeUrl(m.url, parse) == Urls.NormalizeUrl(out[j].url, parse) ::
        (!Hubtoday.IsGenericAnchorTitle(m.title) ==> !Hubtoday.IsGenericAnchorTitle(out[j].title))
        && (Hubtoday.IsGenericAnchorTitle(m.title) == Hubtoday.IsGenericAnchorTitle(out[j].title) ==> !Beats(m, out[j]))
  {
    var out := NormalizeSpec(items, parse);
    var picks := HubPicks(HubGroups(items, parse).Values());
    forall j, m | 0 <= j < |out| && IsHub(out[j]) && m in items && IsHub(m)
        && Urls.NormalizeUrl(m.url, parse) == Urls.NormalizeUrl(out[j].url, parse)
      ensures !Hubtoday.IsGenericAnchorTitle(m.title) ==> !Hubtoday.IsGenericAnchorTitle(out[j].title)
      ensures Hubtoday.IsGenericAnchorTitle(m.title) == Hubtoday.IsGenericAnchorTitle(out[j].title) ==> !Beats(m, out[j])
    {
      HubOutputIsPick(items, parse, out[j]);
      var p :| 0 <= p < |picks| && picks[p] == out[j];
      HubPickPreferred(items, parse, p, m);
    }
  }

  /** A group member of the same title class as a pool member is in the pool. */
  lemma MemberOfPool(group: seq<Record>, m: Record, r: Record)
    requires m in group && r in Pool(group)
    ensures !NotGeneric()(m) || NotGeneric()(r)
    ensures NotGeneric()(m) == NotGeneric()(r) ==> m in Pool(group)
  {
    var preferred := Filter(group, NotGeneric());
    FilterComplete(group, NotGeneric());
    if preferred == [] {
      assert Pool(group) == group;
    }
  }
}

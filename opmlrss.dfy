/** The OPML feed adapter (`src/fetchers/opml-rss.ts`): the subscription list read out of
    the OPML outline tree, the mapping of each feed to its official RSS address (or a
    reason to skip it), one feed's entries and status, and the summary over all feeds.
    The XML parser, the feed reader, the clock and the configuration are parameters. */
module OpmlRss {
  import opened Wrappers
  import opened Strings
  import opened Sorting
  import opened OrderedMaps
  import opened Records
  import opened Text
  import Dates
  import Urls
  import Hash

  // ----- parseOpmlSubscriptions -----

  /** One `<outline>` element: its attributes (absent ones `None`) and its nested outlines
      (a single nested outline is a list of one). */
  datatype Outline = Outline(xmlUrl: Option<string>, title: Option<string>, text: Option<string>,
                             htmlUrl: Option<string>, children: seq<Outline>)

  /** One subscription (`OpmlFeed`). */
  datatype OpmlFeed = OpmlFeed(title: string, xmlUrl: string, htmlUrl: string)

  /** `String(obj['@_xmlUrl'] || '').trim()` */
  function XmlUrlOf(o: Outline): string {
    Trim(OrText(o.xmlUrl, ""))
  }

  /** The feed an outline with a non-blank address describes. */
  function FeedOf(o: Outline, xmlUrl: string, parse: Urls.Parser): OpmlFeed {
    OpmlFeed(FirstNonEmpty([o.title, o.text, Some(Urls.GetHost(xmlUrl, parse)), Some(xmlUrl)]), xmlUrl,
             Trim(OrText(o.htmlUrl, "")))
  }

  /** The outline's own feed, when its address is not blank. */
  function OwnFeed(o: Outline, parse: Urls.Parser): Option<OpmlFeed> {
    var xmlUrl := XmlUrlOf(o);
    if xmlUrl == [] then None else Some(FeedOf(o, xmlUrl, parse))
  }

  /** Every outline's own feed in depth-first, document order, repeats included. */
  function Candidates(outlines: seq<Outline>, parse: Urls.Parser): seq<OpmlFeed>
    decreases outlines
  {
    if outlines == [] then []
    else
      var o := outlines[0];
      OwnFeeds(o, parse) + Candidates(o.children, parse) + Candidates(outlines[1..], parse)
  }

  /** The outline's own feed as a list of none or one. */
  function OwnFeeds(o: Outline, parse: Urls.Parser): seq<OpmlFeed> {
    match OwnFeed(o, parse)
    case None => []
    case Some(f) => [f]
  }

  /** An outline's own step: its feed is added unless its address is blank or seen. */
  function Admit(o: Outline, feeds: seq<OpmlFeed>, seen: set<string>, parse: Urls.Parser): (seq<OpmlFeed>, set<string>) {
    var xmlUrl := XmlUrlOf(o);
    if xmlUrl != [] && xmlUrl !in seen then (feeds + [FeedOf(o, xmlUrl, parse)], seen + {xmlUrl})
    else (feeds, seen)
  }

  /** `processOutline` over a list of outlines, as a transformer of `feeds` and `seen`. */
  function Visit(outlines: seq<Outline>, feeds: seq<OpmlFeed>, seen: set<string>, parse: Urls.Parser)
    : (seq<OpmlFeed>, set<string>)
    decreases outlines
  {
    if outlines == [] then (feeds, seen)
    else
      var o := outlines[0];
      var own := Admit(o, feeds, seen, parse);
      var inner := Visit(o.children, own.0, own.1, parse);
      Visit(outlines[1..], inner.0, inner.1, parse)
  }

  /** `parseOpmlSubscriptions`: the feeds of the body's outlines. */
  function ParseOpmlSubscriptions(body: seq<Outline>, parse: Urls.Parser): seq<OpmlFeed> {
    Visit(body, [], {}, parse).0
  }

  function UrlKey(): OpmlFeed -> string {
    (f: OpmlFeed) => f.xmlUrl
  }

  /** The state `Visit` keeps describes the first feed per address of what it has seen:
      `feeds` are those feeds in order and `seen` their addresses. */
  predicate Describes(done: seq<OpmlFeed>, feeds: seq<OpmlFeed>, seen: set<string>) {
    var m := FirstByKey(done, UrlKey());
    feeds == m.Values() && seen == m.entries.Keys
  }

  /** One outline's own step extends the description by its own feed. */
  lemma AdmitDescribes(o: Outline, done: seq<OpmlFeed>, feeds: seq<OpmlFeed>, seen: set<string>, parse: Urls.Parser)
    requires Describes(done, feeds, seen)
    ensures var own := Admit(o, feeds, seen, parse);
      Describes(done + OwnFeeds(o, parse), own.0, own.1)
  {
    var xmlUrl := XmlUrlOf(o);
    if xmlUrl != [] {
      var m := FirstByKey(done, UrlKey());
      var x := FeedOf(o, xmlUrl, parse);
      FirstByKeySnoc(done, x, UrlKey());
      if xmlUrl !in seen {
        SetNewValues(m, xmlUrl, x);
      }
    } else {
      assert done + [] == done;
    }
  }

  lemma Regroup<T>(d: seq<T>, a: seq<T>, b: seq<T>, c: seq<T>)
    ensures d + a + b + c == d + (a + b + c)
  {
  }

  /** Visiting outlines extends the description by their candidates. */
  lemma {:induction false} VisitDescribes(outlines: seq<Outline>, done: seq<OpmlFeed>, feeds: seq<OpmlFeed>,
                                          seen: set<string>, parse: Urls.Parser)
    requires Describes(done, feeds, seen)
    ensures var r := Visit(outlines, feeds, seen, parse);
      Describes(done + Candidates(outlines, parse), r.0, r.1)
    decreases outlines
  {
    if outlines == [] {
      assert done + [] == done;
    } else {
      var o := outlines[0];
      var own := Admit(o, feeds, seen, parse);
      var done1 := done + OwnFeeds(o, parse);
      AdmitDescribes(o, done, feeds, seen, parse);
      VisitDescribes(o.children, done1, own.0, own.1, parse);
      var inner := Visit(o.children, own.0, own.1, parse);
      var done2 := done1 + Candidates(o.children, parse);
      VisitDescribes(outlines[1..], done2, inner.0, inner.1, parse);
      var a, b, c := OwnFeeds(o, parse), Candidates(o.children, parse), Candidates(outlines[1..], parse);
      assert Candidates(outlines, parse) == a + b + c;
      Regroup(done, a, b, c);
    }
  }

  /** The subscriptions are the first feed for each address, in depth-first document
      order: no address twice, every address of a non-blank outline listed, and each
      listed feed the one of the address's first outline. */
  lemma OpmlIsFirstPerAddress(body: seq<Outline>, parse: Urls.Parser)
    ensures ParseOpmlSubscriptions(body, parse) == FirstByKey(Candidates(body, parse), UrlKey()).Values()
    ensures KeysDistinct(ParseOpmlSubscriptions(body, parse), UrlKey())
    ensures var cands := Candidates(body, parse);
      forall j | 0 <= j < |cands| && FirstKeyAt(cands, j, UrlKey()) :: cands[j] in ParseOpmlSubscriptions(body, parse)
    ensures forall f | f in ParseOpmlSubscriptions(body, parse) :: f in Candidates(body, parse)
  {
    var cands := Candidates(body, parse);
    assert FirstByKey([], UrlKey()) == Empty();
    assert Describes([], [], {});
    VisitDescribes(body, [], [], {}, parse);
    assert [] + cands == cands;
    FirstByKeyValues(cands, UrlKey());
  }

  /** A non-blank, trimmed address and a non-empty title. */
  predicate Shaped(f: OpmlFeed) {
    f.xmlUrl != [] && IsTrimmed(f.xmlUrl) && f.title != []
  }

  /** Every candidate has a non-blank, trimmed address and a non-empty title. */
  lemma {:induction false} CandidatesShape(outlines: seq<Outline>, parse: Urls.Parser)
    ensures forall f | f in Candidates(outlines, parse) :: Shaped(f)
    decreases outlines
  {
    if outlines != [] {
      var o := outlines[0];
      OwnFeedsShape(o, parse);
      CandidatesShape(o.children, parse);
      CandidatesShape(outlines[1..], parse);
      var a, b, c := OwnFeeds(o, parse), Candidates(o.children, parse), Candidates(outlines[1..], parse);
      assert Candidates(outlines, parse) == a + b + c;
    }
  }

  /** An outline's own feed is shaped. */
  lemma OwnFeedsShape(o: Outline, parse: Urls.Parser)
    ensures forall f | f in OwnFeeds(o, parse) :: Shaped(f)
  {
    var xmlUrl := XmlUrlOf(o);
    if xmlUrl != [] {
      var vs := [o.title, o.text, Some(Urls.GetHost(xmlUrl, parse)), Some(xmlUrl)];
      assert !Blank(vs[3]) by {
        TrimOfTrimmed(xmlUrl);
      }
      assert FirstNonEmpty(vs) != [];
      assert OwnFeeds(o, parse) == [FeedOf(o, xmlUrl, parse)];
    }
  }

  /** The recursive `processOutline`: each outline's own feed unless its address was seen,
      then its nested outlines. */
  method ProcessOutline(outlines: seq<Outline>, feeds: seq<OpmlFeed>, seen: set<string>, parse: Urls.Parser)
    returns (outFeeds: seq<OpmlFeed>, outSeen: set<string>)
    ensures (outFeeds, outSeen) == Visit(outlines, feeds, seen, parse)
    decreases outlines
  {
    outFeeds, outSeen := feeds, seen;
    var i := 0;
    while i < |outlines|
      invariant 0 <= i <= |outlines|
      invariant Visit(outlines, feeds, seen, parse) == Visit(outlines[i..], outFeeds, outSeen, parse)
    {
      var o := outlines[i];
      assert outlines[i..][0] == o && outlines[i..][1..] == outlines[i + 1..];
      var xmlUrl := Trim(OrText(o.xmlUrl, ""));
      assert Admit(o, outFeeds, outSeen, parse).1 == if xmlUrl != [] && xmlUrl !in outSeen then outSeen + {xmlUrl} else outSeen;
      if xmlUrl != [] && xmlUrl !in outSeen {
        outSeen := outSeen + {xmlUrl};
        outFeeds := outFeeds + [FeedOf(o, xmlUrl, parse)];
      }
      if o.children != [] {
        outFeeds, outSeen := ProcessOutline(o.children, outFeeds, outSeen, parse);
      }
      i := i + 1;
    }
  }

  // ----- resolveOfficialRssUrl -----

  /** The feed settings of the configuration. */
  datatype RssConfig = RssConfig(skipExact: set<string>, skipPrefixes: seq<string>, replacements: map<string, string>)

  /** `{ url, skipReason }` */
  datatype Resolution = Resolution(url: Option<string>, skipReason: Option<string>)

  const EMPTY_URL: string := "empty_url"
  const NO_OFFICIAL_RSS: string := "no_official_rss_or_unreachable"
  const NO_RSS_FOR_TYPE: string := "no_official_rss_for_source_type"

  predicate HasSkipPrefix(src: string, prefixes: seq<string>) {
    exists i | 0 <= i < |prefixes| :: StartsWith(src, prefixes[i])
  }

  /** A configured replacement for the address (`replacements[src]` being truthy). */
  predicate Replaced(src: string, cfg: RssConfig) {
    src in cfg.replacements && cfg.replacements[src] != []
  }

  /** `resolveOfficialRssUrl(feedUrl)` */
  function ResolveOfficialRssUrl(feedUrl: string, cfg: RssConfig): (r: Resolution)
    ensures r.url.Some? <==> r.skipReason.None?
    ensures r.url.Some? ==> r.url.value != []
  {
    var src := Trim(feedUrl);
    if src == [] then Resolution(None, Some(EMPTY_URL))
    else if src in cfg.skipExact then Resolution(None, Some(NO_OFFICIAL_RSS))
    else if HasSkipPrefix(src, cfg.skipPrefixes) then Resolution(None, Some(NO_RSS_FOR_TYPE))
    else if Replaced(src, cfg) then Resolution(Some(cfg.replacements[src]), None)
    else Resolution(Some(src), None)
  }

  /** The rules apply in order: a blank address, an exact skip, a skip prefix, a
      replacement, and otherwise the trimmed address itself. */
  lemma ResolvePrecedence(feedUrl: string, cfg: RssConfig)
    ensures var r := ResolveOfficialRssUrl(feedUrl, cfg);
      var src := Trim(feedUrl);
      (r.skipReason == Some(EMPTY_URL) <==> src == [])
      && (r.skipReason == Some(NO_OFFICIAL_RSS) <==> src != [] && src in cfg.skipExact)
      && (r.skipReason == Some(NO_RSS_FOR_TYPE) <==>
            src != [] && src !in cfg.skipExact && HasSkipPrefix(src, cfg.skipPrefixes))
      && (r.url.Some? ==> r.url.value == if Replaced(src, cfg) then cfg.replacements[src] else src)
  {
  }

  // ----- fetchSingleFeed -----

  const SITE_NAME: string := "OPML RSS"
  const SKIPPED: string := "skipped"

  /** One entry of a parsed feed; absent dates are `NoValue`. */
  datatype FeedEntry = FeedEntry(title: Option<string>, link: Option<string>, pubDate: Dates.DateInput,
                                 isoDate: Dates.DateInput)

  /** What the feed reader returns for a feed. */
  datatype ParsedFeed = ParsedFeed(title: Option<string>, items: seq<FeedEntry>)

  /** `parser.parseURL(url)`: the parsed feed, or the message of what it throws. */
  type FeedReader = string -> Result<ParsedFeed>

  /** A feed after resolution: the subscription, its original address and the one to
      fetch. */
  datatype ResolvedFeed = ResolvedFeed(feed: OpmlFeed, original: string, url: string)

  /** The environment of a run: the reader, the clock in milliseconds, the local offset,
      the general date parser, the URL parser, the SHA-1 digest and each fetch's duration. */
  datatype Env = Env(read: FeedReader, now: int, offset: int, general: Dates.GeneralParser, parse: Urls.Parser,
                     sha1: Hash.Digest, elapsed: ResolvedFeed -> nat)

  /** `opmlrss:` and the first ten digits of the address's digest. */
  function FeedSiteId(url: string, sha1: Hash.Digest): string {
    "opmlrss:" + Prefix(Hash.HashString(url, sha1), 10)
  }

  /** `parseDate(entry.pubDate, now) || parseDate(entry.isoDate, now) || null` */
  function EntryTime(entry: FeedEntry, env: Env): Option<int> {
    OrElse(Dates.ParseDate(entry.pubDate, env.now, env.offset, env.general),
           Dates.ParseDate(entry.isoDate, env.now, env.offset, env.general))
  }

  /** The candidate of one entry: kept only with a title, a link and a date. */
  function EntryItem(entry: FeedEntry, sourceName: string, env: Env): Option<RawItem> {
    var title := Trim(OrText(entry.title, ""));
    var url := Trim(OrText(entry.link, ""));
    if title == [] || url == [] then None
    else match EntryTime(entry, env)
      case None => None
      case Some(t) => Some(RawItem(OPMLRSS, SITE_NAME, sourceName, title, url, Some(t)))
  }

  function EntryItemFn(sourceName: string, env: Env): FeedEntry -> Option<RawItem> {
    entry => EntryItem(entry, sourceName, env)
  }

  /** The feed's source name: the subscription title, the feed's own title, the host. */
  function FeedSourceName(rf: ResolvedFeed, parsed: ParsedFeed, env: Env): string {
    FirstNonEmpty([Some(rf.feed.title), parsed.title, Some(Urls.GetHost(rf.url, env.parse))])
  }

  /** The candidates of a fetched feed. */
  function FeedItems(rf: ResolvedFeed, env: Env): seq<RawItem> {
    match env.read(rf.url)
    case Err(_) => []
    case Ok(parsed) => FilterMap(parsed.items, EntryItemFn(FeedSourceName(rf, parsed, env), env))
  }

  /** `fetchSingleFeed(feed)`: its candidates and its status. */
  function SingleFeedSpec(rf: ResolvedFeed, env: Env): (seq<RawItem>, FeedStatus) {
    var items := FeedItems(rf, env);
    var error := match env.read(rf.url) case Err(msg) => Some(msg) case Ok(_) => None;
    var original := if rf.original != [] then rf.original else rf.url;
    (items, FeedStatus(FetchStatus(FeedSiteId(rf.url, env.sha1), SITE_NAME, error.None?, |items|, env.elapsed(rf), error),
                       Some(rf.feed.title), Some(original), Some(rf.url), false, None, original != rf.url))
  }

  /** An entry yields a candidate iff it has a non-blank title and link and a parseable
      date; the candidate carries them trimmed, with the feed's source name. */
  lemma EntryItemCases(entry: FeedEntry, sourceName: string, env: Env)
    ensures EntryItem(entry, sourceName, env).Some? <==>
      Trim(OrText(entry.title, "")) != [] && Trim(OrText(entry.link, "")) != [] && EntryTime(entry, env).Some?
    ensures var r := EntryItem(entry, sourceName, env);
      r.Some? ==> (r.value.siteId == OPMLRSS && r.value.source == sourceName
        && r.value.title == Trim(OrText(entry.title, "")) && r.value.url == Trim(OrText(entry.link, ""))
        && r.value.publishedAt == EntryTime(entry, env))
    ensures EntryTime(entry, env).Some? <==>
      Dates.ParseDate(entry.pubDate, env.now, env.offset, env.general).Some?
      || Dates.ParseDate(entry.isoDate, env.now, env.offset, env.general).Some?
  {
  }

  /** A feed that cannot be read contributes nothing and reports its error; a read one is
      ok with one candidate per kept entry. Either way it is not skipped, and it is
      replaced exactly when the address fetched differs from the original. */
  lemma SingleFeedStatus(rf: ResolvedFeed, env: Env)
    requires rf.original != []
    ensures var (items, st) := SingleFeedSpec(rf, env);
      st.status.itemCount == |items| && !st.skipped && st.skipReason.None?
      && st.effectiveFeedUrl == Some(rf.url) && st.feedUrl == Some(rf.original)
      && (st.replaced <==> rf.original != rf.url)
      && (env.read(rf.url).Err? ==> items == [] && !st.status.ok && st.status.error == Some(env.read(rf.url).message))
      && (env.read(rf.url).Ok? ==> (st.status.ok && st.status.error.None?
            && |items| == Count(env.read(rf.url).value.items,
                                Yields(EntryItemFn(FeedSourceName(rf, env.read(rf.url).value, env), env)))))
  {
    if env.read(rf.url).Ok? {
      var parsed := env.read(rf.url).value;
      FilterMapMembers(parsed.items, EntryItemFn(FeedSourceName(rf, parsed, env), env));
    }
  }

  /** The entry loop of `fetchSingleFeed`. */
  method FeedEntries(entries: seq<FeedEntry>, sourceName: string, env: Env) returns (out: seq<RawItem>)
    ensures out == FilterMap(entries, EntryItemFn(sourceName, env))
  {
    out := [];
    var j := 0;
    while j < |entries|
      invariant 0 <= j <= |entries|
      invariant out == FilterMap(entries[..j], EntryItemFn(sourceName, env))
    {
      assert entries[..j + 1][..j] == entries[..j];
      var entry := entries[j];
      var title := Trim(OrText(entry.title, ""));
      var url := Trim(OrText(entry.link, ""));
      if title != [] && url != [] {
        var publishedAt := OrElse(Dates.ParseDate(entry.pubDate, env.now, env.offset, env.general),
                                  Dates.ParseDate(entry.isoDate, env.now, env.offset, env.general));
        if publishedAt.Some? {
          out := out + [RawItem(OPMLRSS, SITE_NAME, sourceName, title, url, publishedAt)];
        }
      }
      j := j + 1;
    }
    assert entries[..j] == entries;
  }

  /** `fetchSingleFeed(feed)` */
  method FetchSingleFeed(rf: ResolvedFeed, env: Env) returns (items: seq<RawItem>, status: FeedStatus)
    ensures (items, status) == SingleFeedSpec(rf, env)
  {
    var original := if rf.original != [] then rf.original else rf.url;
    var error: Option<string> := None;
    items := [];
    match env.read(rf.url) {
      case Err(msg) =>
        error := Some(msg);
      case Ok(parsed) =>
        var sourceName := FirstNonEmpty([Some(rf.feed.title), parsed.title, Some(Urls.GetHost(rf.url, env.parse))]);
        items := FeedEntries(parsed.items, sourceName, env);
    }
    status := FeedStatus(FetchStatus(FeedSiteId(rf.url, env.sha1), SITE_NAME, error.None?, |items|, env.elapsed(rf), error),
                         Some(rf.feed.title), Some(original), Some(rf.url), false, None, original != rf.url);
  }

  // ----- fetchOpmlRss -----

  /** The status of a feed that resolution skips. */
  function SkippedStatus(feed: OpmlFeed, reason: Option<string>, sha1: Hash.Digest): FeedStatus {
    FeedStatus(FetchStatus(FeedSiteId(feed.xmlUrl, sha1), SITE_NAME, true, 0, 0, None),
               Some(feed.title), Some(feed.xmlUrl), None, true, Some(OrText(reason, SKIPPED)), false)
  }

  function SkipOf(cfg: RssConfig, sha1: Hash.Digest): OpmlFeed -> Option<FeedStatus> {
    (feed: OpmlFeed) => var r := ResolveOfficialRssUrl(feed.xmlUrl, cfg);
      if r.url.None? then Some(SkippedStatus(feed, r.skipReason, sha1)) else None
  }

  function ResolvedOf(cfg: RssConfig): OpmlFeed -> Option<ResolvedFeed> {
    (feed: OpmlFeed) => var r := ResolveOfficialRssUrl(feed.xmlUrl, cfg);
      if r.url.Some? then Some(ResolvedFeed(feed, feed.xmlUrl, r.url.value)) else None
  }

  /** `feeds.slice(0, maxFeeds)` when `maxFeeds > 0`. */
  function Considered(feeds: seq<OpmlFeed>, maxFeeds: int): (r: seq<OpmlFeed>)
    ensures maxFeeds > 0 ==> |r| == if maxFeeds < |feeds| then maxFeeds else |feeds|
    ensures maxFeeds <= 0 ==> r == feeds
    ensures forall i | 0 <= i < |r| :: r[i] == feeds[i]
  {
    if maxFeeds > 0 then feeds[..if maxFeeds < |feeds| then maxFeeds else |feeds|] else feeds
  }

  /** `(s.feed_title || s.feed_url || '')`, the key statuses are sorted by. */
  function StatusKey(s: FeedStatus): string {
    if Present(s.feedTitle) then s.feedTitle.value else OrText(s.feedUrl, "")
  }

  function ByStatusKey(): (FeedStatus, FeedStatus) -> bool {
    (a: FeedStatus, b: FeedStatus) => LexLess(StatusKey(a), StatusKey(b))
  }

  /** The candidates of the fetched feeds, feed by feed. */
  function AllFeedItems(results: seq<(seq<RawItem>, FeedStatus)>): (r: seq<RawItem>)
    decreases |results|
  {
    if results == [] then []
    else AllFeedItems(results[..|results| - 1]) + results[|results| - 1].0
  }

  /** `feedStatuses.reduce((sum, s) => sum + (s.duration_ms || 0), 0)` */
  function TotalDuration(statuses: seq<FeedStatus>): int
    decreases |statuses|
  {
    if statuses == [] then 0
    else TotalDuration(statuses[..|statuses| - 1]) + statuses[|statuses| - 1].status.durationMs
  }

  function OkNotSkipped(): FeedStatus -> bool { (s: FeedStatus) => s.status.ok && !s.skipped }
  function Failed(): FeedStatus -> bool { (s: FeedStatus) => !s.status.ok }

  /** What `fetchOpmlRss` returns. */
  datatype OpmlRun = OpmlRun(items: seq<RawItem>, summary: FetchStatus, feedStatuses: seq<FeedStatus>)

  /** The summary status over the sorted feed statuses. */
  function Summary(items: seq<RawItem>, statuses: seq<FeedStatus>): FetchStatus {
    var failed := Count(statuses, Failed());
    FetchStatus(OPMLRSS, SITE_NAME, Count(statuses, OkNotSkipped()) > 0, |items|, TotalDuration(statuses),
                if failed == 0 then None else Some(NatToString(failed) + " feeds failed"))
  }

  function Fetched(env: Env): ResolvedFeed -> (seq<RawItem>, FeedStatus) {
    (rf: ResolvedFeed) => SingleFeedSpec(rf, env)
  }

  function StatusOf(): ((seq<RawItem>, FeedStatus)) -> FeedStatus {
    (x: (seq<RawItem>, FeedStatus)) => x.1
  }

  /** The run over the considered feeds. */
  function RunOver(feeds: seq<OpmlFeed>, cfg: RssConfig, env: Env): OpmlRun {
    var results := MapSeq(FilterMap(feeds, ResolvedOf(cfg)), Fetched(env));
    var items := AllFeedItems(results);
    var statuses := SortBy(FilterMap(feeds, SkipOf(cfg, env.sha1)) + MapSeq(results, StatusOf()), ByStatusKey());
    OpmlRun(items, Summary(items, statuses), statuses)
  }

  /** `fetchOpmlRss(now, opmlPath, maxFeeds)` on the parsed OPML body. */
  function FetchOpmlRssSpec(body: seq<Outline>, maxFeeds: int, cfg: RssConfig, env: Env): OpmlRun {
    RunOver(Considered(ParseOpmlSubscriptions(body, env.parse), maxFeeds), cfg, env)
  }

  // ----- properties of the run -----

  lemma ByStatusKeyIsStrictOrder()
    ensures StrictOrder(ByStatusKey())
  {
    var before := ByStatusKey();
    forall a: FeedStatus, b: FeedStatus | before(a, b) ensures !before(b, a) {
      LexLessAsymmetric(StatusKey(a), StatusKey(b));
    }
    forall a: FeedStatus, b: FeedStatus, c: FeedStatus | before(a, b) && before(b, c) ensures before(a, c) {
      LexLessTransitive(StatusKey(a), StatusKey(b), StatusKey(c));
    }
  }

  /** Every considered feed is either skipped or resolved, never both. */
  lemma {:induction false} SkipOrResolve(feeds: seq<OpmlFeed>, cfg: RssConfig, sha1: Hash.Digest)
    ensures |FilterMap(feeds, SkipOf(cfg, sha1))| + |FilterMap(feeds, ResolvedOf(cfg))| == |feeds|
    decreases |feeds|
  {
    if feeds != [] {
      SkipOrResolve(feeds[..|feeds| - 1], cfg, sha1);
    }
  }

  /** A skipped feed's status is ok, has no items and no time, is marked skipped with a
      reason, and has no effective address; a resolved feed keeps its subscription and
      original address and fetches the resolved one. */
  lemma SkipAndResolveShapes(feed: OpmlFeed, cfg: RssConfig, sha1: Hash.Digest)
    ensures var s := SkipOf(cfg, sha1)(feed);
      s.Some? ==> (s.value.status.ok && s.value.status.itemCount == 0 && s.value.status.durationMs == 0
        && s.value.status.error.None? && s.value.skipped && s.value.skipReason.Some?
        && s.value.effectiveFeedUrl.None? && !s.value.replaced && s.value.feedUrl == Some(feed.xmlUrl))
    ensures var r := ResolvedOf(cfg)(feed);
      r.Some? ==> (r.value.feed == feed && r.value.original == feed.xmlUrl
        && r.value.url == ResolveOfficialRssUrl(feed.xmlUrl, cfg).url.value)
    ensures SkipOf(cfg, sha1)(feed).Some? <==> ResolvedOf(cfg)(feed).None?
  {
  }

  /** The summary is ok iff some feed that was not skipped is ok, counts every candidate,
      adds up the durations, and reports an error iff some feed failed. */
  lemma SummaryMeaning(items: seq<RawItem>, statuses: seq<FeedStatus>)
    ensures var sum := Summary(items, statuses);
      sum.siteId == OPMLRSS && sum.itemCount == |items| && sum.durationMs == TotalDuration(statuses)
      && (sum.ok <==> exists i | 0 <= i < |statuses| :: statuses[i].status.ok && !statuses[i].skipped)
      && (sum.error.None? <==> forall i | 0 <= i < |statuses| :: statuses[i].status.ok)
  {
    CountPositive(statuses, OkNotSkipped());
    CountPositive(statuses, Failed());
  }

  /** One status per considered feed, sorted by title (or address): the skipped feeds' and
      the fetched feeds' statuses, rearranged. */
  lemma RunOverStatuses(feeds: seq<OpmlFeed>, cfg: RssConfig, env: Env)
    ensures var run := RunOver(feeds, cfg, env);
      var resolved := FilterMap(feeds, ResolvedOf(cfg));
      |run.feedStatuses| == |feeds|
      && SortedBy(run.feedStatuses, ByStatusKey())
      && multiset(run.feedStatuses) == multiset(FilterMap(feeds, SkipOf(cfg, env.sha1)))
           + multiset(MapSeq(resolved, (rf: ResolvedFeed) => Fetched(env)(rf).1))
  {
    SkipOrResolve(feeds, cfg, env.sha1);
    ByStatusKeyIsStrictOrder();
    var resolved := FilterMap(feeds, ResolvedOf(cfg));
    var results := MapSeq(resolved, Fetched(env));
    var unsorted := FilterMap(feeds, SkipOf(cfg, env.sha1)) + MapSeq(results, StatusOf());
    SortBySorted(unsorted, ByStatusKey());
    assert MapSeq(results, StatusOf()) == MapSeq(resolved, (rf: ResolvedFeed) => Fetched(env)(rf).1);
  }

  /** The whole run: one status per considered feed, sorted, with the summary over them. */
  lemma OpmlRunSummary(body: seq<Outline>, maxFeeds: int, cfg: RssConfig, env: Env)
    ensures var run := FetchOpmlRssSpec(body, maxFeeds, cfg, env);
      var feeds := Considered(ParseOpmlSubscriptions(body, env.parse), maxFeeds);
      |run.feedStatuses| == |feeds|
      && SortedBy(run.feedStatuses, ByStatusKey())
      && (run.summary.ok <==> exists i | 0 <= i < |run.feedStatuses| ::
            run.feedStatuses[i].status.ok && !run.feedStatuses[i].skipped)
      && run.summary.itemCount == |run.items|
      && (run.summary.error.None? <==> forall i | 0 <= i < |run.feedStatuses| :: run.feedStatuses[i].status.ok)
  {
    var feeds := Considered(ParseOpmlSubscriptions(body, env.parse), maxFeeds);
    var run := RunOver(feeds, cfg, env);
    RunOverStatuses(feeds, cfg, env);
    SummaryMeaning(run.items, run.feedStatuses);
  }

  /** A count is positive iff some element satisfies the predicate. */
  lemma {:induction false} CountPositive<T>(s: seq<T>, p: T -> bool)
    ensures Count(s, p) > 0 <==> exists i | 0 <= i < |s| :: p(s[i])
    decreases |s|
  {
    if s != [] {
      var n := |s| - 1;
      CountPositive(s[..n], p);
      if exists i | 0 <= i < n :: p(s[..n][i]) {
        var i :| 0 <= i < n && p(s[..n][i]);
        assert s[i] == s[..n][i];
      }
      if exists i | 0 <= i < |s| :: p(s[i]) {
        var i :| 0 <= i < |s| && p(s[i]);
        if i < n { assert s[..n][i] == s[i]; }
      }
    }
  }

  // ----- the loops of fetchOpmlRss -----

  /** The loop that splits the feeds into skipped statuses and feeds to fetch. */
  method ResolveFeeds(feeds: seq<OpmlFeed>, cfg: RssConfig, sha1: Hash.Digest)
    returns (statuses: seq<FeedStatus>, resolved: seq<ResolvedFeed>)
    ensures statuses == FilterMap(feeds, SkipOf(cfg, sha1))
    ensures resolved == FilterMap(feeds, ResolvedOf(cfg))
  {
    statuses, resolved := [], [];
    var i := 0;
    while i < |feeds|
      invariant 0 <= i <= |feeds|
      invariant statuses == FilterMap(feeds[..i], SkipOf(cfg, sha1))
      invariant resolved == FilterMap(feeds[..i], ResolvedOf(cfg))
    {
      assert feeds[..i + 1][..i] == feeds[..i];
      var feed := feeds[i];
      var r := ResolveOfficialRssUrl(feed.xmlUrl, cfg);
      if r.url.None? {
        statuses := statuses + [SkippedStatus(feed, r.skipReason, sha1)];
      } else {
        resolved := resolved + [ResolvedFeed(feed, feed.xmlUrl, r.url.value)];
      }
      i := i + 1;
    }
    assert feeds[..i] == feeds;
  }

  /** The loop over the fetch results. */
  method FetchAll(resolved: seq<ResolvedFeed>, env: Env) returns (items: seq<RawItem>, statuses: seq<FeedStatus>)
    ensures var results := MapSeq(resolved, Fetched(env));
      items == AllFeedItems(results) && statuses == MapSeq(results, StatusOf())
  {
    ghost var results := MapSeq(resolved, Fetched(env));
    items, statuses := [], [];
    var i := 0;
    while i < |resolved|
      invariant 0 <= i <= |resolved|
      invariant items == AllFeedItems(results[..i])
      invariant statuses == MapSeq(results[..i], StatusOf())
    {
      assert results[..i + 1][..i] == results[..i];
      assert AllFeedItems(results[..i + 1]) == AllFeedItems(results[..i]) + results[i].0;
      MapSeqSnoc(results, i, StatusOf());
      var feedItems, status := FetchSingleFeed(resolved[i], env);
      assert results[i] == (feedItems, status);
      items := items + feedItems;
      statuses := statuses + [status];
      i := i + 1;
    }
    assert results[..i] == results;
  }

  /** `fetchOpmlRss` on the parsed OPML body. */
  method FetchOpmlRss(body: seq<Outline>, maxFeeds: int, cfg: RssConfig, env: Env) returns (run: OpmlRun)
    ensures run == FetchOpmlRssSpec(body, maxFeeds, cfg, env)
  {
    var feeds, seen := ProcessOutline(body, [], {}, env.parse);
    if maxFeeds > 0 {
      feeds := feeds[..if maxFeeds < |feeds| then maxFeeds else |feeds|];
    }
    assert feeds == Considered(ParseOpmlSubscriptions(body, env.parse), maxFeeds);
    var statuses, resolved := ResolveFeeds(feeds, cfg, env.sha1);
    var items: seq<RawItem> := [];
    if |resolved| > 0 {
      var fetched;
      items, fetched := FetchAll(resolved, env);
      statuses := statuses + fetched;
    } else {
      assert MapSeq(MapSeq(resolved, Fetched(env)), StatusOf()) == [];
      assert statuses + [] == statuses;
    }
    statuses := SortBy(statuses, ByStatusKey());
    run := OpmlRun(items, Summary(items, statuses), statuses);
  }
}

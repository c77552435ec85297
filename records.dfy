/** The records the pipeline moves around (`src/types.ts`): scraped candidates and archive
    entries, with the event time both the window selection and the deduplicator use. */
module Records {
  import opened Wrappers
  import opened Strings
  import opened Dates
  import Urls
  import Sorting

  /** A scraped candidate (`RawItem`); the free-form `meta` object is not modelled. */
  datatype RawItem = RawItem(siteId: string, siteName: string, source: string, title: string, url: string,
                             publishedAt: Option<int>)

  /** The four fields the bilingual enricher adds. */
  datatype Bilingual = Bilingual(titleOriginal: string, titleEn: Option<string>, titleZh: Option<string>,
                                 titleBilingual: string)

  /** An archive entry (`ArchiveItem`). */
  datatype Record = Record(id: string, siteId: string, siteName: string, source: string, title: string, url: string,
                           publishedAt: Option<Stamp>, firstSeenAt: Stamp, lastSeenAt: Stamp,
                           bilingual: Option<Bilingual>)

  /** One adapter's run (`FetchStatus`); `duration_ms` is kept as whole milliseconds. */
  datatype FetchStatus = FetchStatus(siteId: string, siteName: string, ok: bool, itemCount: nat, durationMs: int,
                                     error: Option<string>)

  /** One OPML feed's run (`RssFeedStatus`): a fetch status with the feed's own fields; an
      absent optional field is `None` (or `false`). */
  datatype FeedStatus = FeedStatus(status: FetchStatus, feedTitle: Option<string>, feedUrl: Option<string>,
                                   effectiveFeedUrl: Option<string>, skipped: bool, skipReason: Option<string>,
                                   replaced: bool)

  const OPMLRSS: string := "opmlrss"

  /** `eventTime(record)`: the publication time, and for everything but OPML feeds the
      first-seen time when there is none. */
  function EventTime(r: Record): (t: Option<int>)
    ensures r.publishedAt.Some? && r.publishedAt.value.At? ==> t == Some(r.publishedAt.value.ms)
    ensures (r.publishedAt.None? || r.publishedAt.value.Unparsed?) ==>
      (if r.siteId == OPMLRSS || r.firstSeenAt.Unparsed? then t.None? else t == Some(r.firstSeenAt.ms))
  {
    if r.siteId == OPMLRSS then ParseIso(r.publishedAt)
    else OrElse(ParseIso(r.publishedAt), ParseIso(Some(r.firstSeenAt)))
  }

  /** `eventTime(x)?.getTime() ?? 0` */
  function TimeOrZero(r: Record): int {
    EventTime(r).GetOr(0)
  }

  /** The newest-first comparator `(a, b) => timeB - timeA`. */
  function NewestFirst(): (Record, Record) -> bool {
    Sorting.KeyDesc(TimeOrZero)
  }

  /** The host of a URL without a leading "www.". */
  function DisplayHost(url: string, parse: Urls.Parser): (r: string)
    ensures !StartsWith(Urls.GetHost(url, parse), "www.") ==> r == Urls.GetHost(url, parse)
    ensures StartsWith(Urls.GetHost(url, parse), "www.") ==> "www." + r == Urls.GetHost(url, parse)
  {
    var host := Urls.GetHost(url, parse);
    if StartsWith(host, "www.") then host[4..] else host
  }

  const UNSORTED_SOURCE: string := "未分区"

  /** `normalizeSourceForDisplay(siteId, source, url)`: a blank source becomes the URL's
      host (or "未分区"), buzzing's own name becomes the host, anything else stays. */
  function NormalizeSourceForDisplay(siteId: string, source: string, url: string, parse: Urls.Parser): (r: string)
    ensures r != []
    ensures Trim(source) == [] ==> r == (if DisplayHost(url, parse) == [] then UNSORTED_SOURCE else DisplayHost(url, parse))
    ensures (Trim(source) != [] && siteId == "buzzing" && Lower(Trim(source)) == "buzzing") ==>
      r == (if DisplayHost(url, parse) == [] then Trim(source) else DisplayHost(url, parse))
    ensures (Trim(source) != [] && !(siteId == "buzzing" && Lower(Trim(source)) == "buzzing")) ==> r == Trim(source)
  {
    var src := Trim(source);
    if src == [] then
      var host := DisplayHost(url, parse);
      if host == [] then UNSORTED_SOURCE else host
    else if siteId == "buzzing" && Lower(src) == "buzzing" then
      var host := DisplayHost(url, parse);
      if host == [] then src else host
    else src
  }
}

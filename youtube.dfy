/** The YouTube adapter (`src/fetchers/youtube.ts`): the Atom feed of each channel read with
    regular expressions, one video per complete `<entry>`, and the mapping of videos to
    candidates. Fetching a feed and the `Date` constructor are parameters. */
module YouTube {
  import opened Wrappers
  import opened Strings
  import opened Sorting
  import opened Markup
  import opened Records

  // ----- parseYouTubeRss -----

  const VIDEO_ID_OPEN: string := "<yt:videoId>"
  const VIDEO_ID_CLOSE: string := "</yt:videoId>"
  const LINK_OPEN: string := "<link rel=\"alternate\" href=\""
  const LINK_CLOSE: string := "\"/>"
  const PUBLISHED_OPEN: string := "<published>"
  const PUBLISHED_CLOSE: string := "</published>"
  const THUMBNAIL_OPEN: string := "<media:thumbnail url=\""
  const VIEWS_OPEN: string := "<media:statistics views=\""
  const DESCRIPTION_OPEN: string := "<media:description>"
  const DESCRIPTION_CLOSE: string := "</media:description>"
  const DESCRIPTION_LIMIT: nat := 200

  /** One video (`ParsedVideo`). */
  datatype Video = Video(videoId: string, title: string, url: string, publishedAt: Option<int>,
                         thumbnail: string, views: nat, description: string)

  /** `new Date(text)`: its time value, or `None` for an invalid date. */
  type DateCtor = string -> Option<int>

  /** The title's entities: `&amp;`, then `&quot;`, then `&#39;`. */
  function DecodeTitle(raw: string): string {
    ReplaceAll(ReplaceAll(ReplaceAll(raw, "&amp;", "&"), "&quot;", "\""), "&#39;", "'")
  }

  function VideoIdMatch(entry: string): Option<string> {
    ClassCapture(entry, VIDEO_ID_OPEN, VIDEO_ID_CLOSE, NotLt(), 1)
  }

  function TitleMatch(entry: string): Option<string> {
    ClassCapture(entry, "<title>", "</title>", NotLt(), 1)
  }

  function LinkMatch(entry: string): Option<string> {
    ClassCapture(entry, LINK_OPEN, LINK_CLOSE, NotQuote(), 1)
  }

  function PublishedMatch(entry: string): Option<string> {
    ClassCapture(entry, PUBLISHED_OPEN, PUBLISHED_CLOSE, NotLt(), 1)
  }

  /** `<media:thumbnail url="([^"]+)"` */
  function ThumbnailMatch(entry: string): Option<string> {
    ClassCapture(entry, THUMBNAIL_OPEN, "\"", NotQuote(), 1)
  }

  /** `<media:statistics views="(\d+)"/>` */
  function ViewsMatch(entry: string): Option<string> {
    ClassCapture(entry, VIEWS_OPEN, LINK_CLOSE, Digit(), 1)
  }

  /** `<media:description>([\s\S]*?)</media:description>` */
  function DescriptionMatch(entry: string): Option<string> {
    LazyCapture(entry, DESCRIPTION_OPEN, DESCRIPTION_CLOSE)
  }

  /** The video of one entry: kept only with an id, a title, an alternate link and a
      publication date; the thumbnail, the view count and the description default to "",
      0 and "". */
  function VideoOf(entry: string, newDate: DateCtor): Option<Video> {
    var id := VideoIdMatch(entry);
    var title := TitleMatch(entry);
    var link := LinkMatch(entry);
    var published := PublishedMatch(entry);
    if id.Some? && title.Some? && link.Some? && published.Some? then
      var thumb := ThumbnailMatch(entry);
      var views := ViewsMatch(entry);
      var desc := DescriptionMatch(entry);
      Some(Video(id.value, DecodeTitle(title.value), link.value, newDate(published.value),
                 if thumb.Some? then thumb.value else "",
                 if views.Some? then DigitsValue(views.value) else 0,
                 if desc.Some? then Prefix(desc.value, DESCRIPTION_LIMIT) else ""))
    else None
  }

  function VideoOfFn(newDate: DateCtor): string -> Option<Video> {
    entry => VideoOf(entry, newDate)
  }

  /** The text of every `<entry>…</entry>` block, in order. */
  function EntryBlocks(xml: string): seq<string> {
    Blocks(xml, "<entry>", "</entry>")
  }

  /** `parseYouTubeRss(xml)` */
  function ParseYouTubeRss(xml: string, newDate: DateCtor): seq<Video> {
    FilterMap(EntryBlocks(xml), VideoOfFn(newDate))
  }

  /** An entry yields a video iff all four required captures are present; the video's
      fields are those captures (the title decoded), and without the optional ones the
      defaults apply. */
  lemma VideoCases(entry: string, newDate: DateCtor)
    ensures VideoOf(entry, newDate).Some? <==>
      VideoIdMatch(entry).Some? && TitleMatch(entry).Some? && LinkMatch(entry).Some? && PublishedMatch(entry).Some?
    ensures var v := VideoOf(entry, newDate);
      v.Some? ==> (v.value.videoId == VideoIdMatch(entry).value && v.value.title == DecodeTitle(TitleMatch(entry).value)
        && v.value.url == LinkMatch(entry).value && v.value.publishedAt == newDate(PublishedMatch(entry).value)
        && |v.value.description| <= DESCRIPTION_LIMIT
        && (ThumbnailMatch(entry).None? ==> v.value.thumbnail == "")
        && (ViewsMatch(entry).None? ==> v.value.views == 0)
        && (DescriptionMatch(entry).None? ==> v.value.description == ""))
  {
  }

  /** Ids and links never hold the characters that end them, and a view count is read from
      digits only. */
  lemma VideoFieldsClean(entry: string, newDate: DateCtor)
    ensures var v := VideoOf(entry, newDate);
      v.Some? ==> (v.value.videoId != [] && (forall k | 0 <= k < |v.value.videoId| :: v.value.videoId[k] != '<')
        && v.value.url != [] && (forall k | 0 <= k < |v.value.url| :: v.value.url[k] != '"')
        && (forall k | 0 <= k < |v.value.thumbnail| :: v.value.thumbnail[k] != '"'))
    ensures ViewsMatch(entry).Some? ==> AllDigits(ViewsMatch(entry).value)
  {
  }

  /** The title decoding runs `&amp;` first: "&amp;quot;" becomes a quote. */
  lemma DecodeTitleTwice()
    ensures DecodeTitle("&amp;quot;") == "\""
  {
    assert "&amp;quot;"[..5] == "&amp;" && "&amp;quot;"[5..] == "quot;";
    assert ReplaceAll("quot;", "&amp;", "&") == "quot;" by {
      assert "quot;"[..5] != "&amp;" by { assert "quot;"[..5][0] != "&amp;"[0]; }
      assert "quot;"[1..] == "uot;";
    }
    assert ReplaceAll("&amp;quot;", "&amp;", "&") == "&quot;";
    assert "&quot;"[..6] == "&quot;" && "&quot;"[6..] == [];
    assert ReplaceAll("&quot;", "&quot;", "\"") == "\"";
  }

  /** The entry loop of `parseYouTubeRss`. */
  method ParseEntries(entries: seq<string>, newDate: DateCtor) returns (videos: seq<Video>)
    ensures videos == FilterMap(entries, VideoOfFn(newDate))
  {
    videos := [];
    var i := 0;
    while i < |entries|
      invariant 0 <= i <= |entries|
      invariant videos == FilterMap(entries[..i], VideoOfFn(newDate))
    {
      assert entries[..i + 1][..i] == entries[..i];
      var entry := entries[i];
      var video := VideoOf(entry, newDate);
      if video.Some? {
        videos := videos + [video.value];
      }
      i := i + 1;
    }
    assert entries[..i] == entries;
  }

  // ----- fetch -----

  const SITE_ID: string := "youtube"
  const SITE_NAME: string := "YouTube"
  const FEED_BASE: string := "https://www.youtube.com/feeds/videos.xml?channel_id="

  /** One followed channel. */
  datatype Channel = Channel(id: string, name: string, channelId: string)

  /** The channels the adapter reads. */
  const YOUTUBE_CHANNELS: seq<Channel> := [
    Channel("peter-yang", "Peter Yang", "UCnpBg7yqNauHtlNSpOl5-cg"),
    Channel("lenny-podcast", "Lenny's Podcast", "UC6t1O76G0jYXOAoYCm153dA"),
    Channel("20vc", "20VC", "UCf0PBRjhf0rF8fWBIxTuoWA")
  ]

  /** `fetchText(url)`: the body, or `None` when the request fails. */
  type TextFetcher = string -> Option<string>

  /** A candidate with the metadata this adapter attaches. */
  datatype VideoItem = VideoItem(item: RawItem, videoId: string, thumbnail: string, views: nat)

  function FeedUrl(c: Channel): string {
    FEED_BASE + c.channelId
  }

  /** A channel's videos: none when its feed cannot be fetched. */
  function ChannelVideos(c: Channel, fetchText: TextFetcher, newDate: DateCtor): seq<Video> {
    match fetchText(FeedUrl(c))
    case None => []
    case Some(xml) => ParseYouTubeRss(xml, newDate)
  }

  function ItemOf(c: Channel, v: Video): VideoItem {
    VideoItem(RawItem(SITE_ID, SITE_NAME, c.name, v.title, v.url, v.publishedAt), v.videoId, v.thumbnail, v.views)
  }

  /** The candidates of one channel. */
  function ChannelItems(c: Channel, fetchText: TextFetcher, newDate: DateCtor): seq<VideoItem> {
    MapSeq(ChannelVideos(c, fetchText, newDate), (v: Video) => ItemOf(c, v))
  }

  /** `fetch(now)` over a list of channels: their candidates, channel by channel. */
  function FetchSpec(channels: seq<Channel>, fetchText: TextFetcher, newDate: DateCtor): seq<VideoItem>
    decreases |channels|
  {
    if channels == [] then []
    else FetchSpec(channels[..|channels| - 1], fetchText, newDate) + ChannelItems(channels[|channels| - 1], fetchText, newDate)
  }

  /** A channel that cannot be fetched has no candidates; otherwise there is one per video,
      in order, with the channel's name as its source and the video's title, link, date,
      id, thumbnail and views. */
  lemma ChannelItemsShape(c: Channel, fetchText: TextFetcher, newDate: DateCtor)
    ensures fetchText(FeedUrl(c)).None? ==> ChannelItems(c, fetchText, newDate) == []
    ensures var vs := ChannelVideos(c, fetchText, newDate);
      var items := ChannelItems(c, fetchText, newDate);
      |items| == |vs|
      && forall k | 0 <= k < |items| ::
        items[k].item.siteId == SITE_ID && items[k].item.siteName == SITE_NAME && items[k].item.source == c.name
        && items[k].item.title == vs[k].title && items[k].item.url == vs[k].url
        && items[k].item.publishedAt == vs[k].publishedAt
        && items[k].videoId == vs[k].videoId && items[k].thumbnail == vs[k].thumbnail && items[k].views == vs[k].views
  {
  }

  /** Every candidate's source is the name of a channel of the list. */
  lemma {:induction false} SourcesAreChannelNames(channels: seq<Channel>, fetchText: TextFetcher, newDate: DateCtor)
    ensures forall x | x in FetchSpec(channels, fetchText, newDate) ::
      exists k | 0 <= k < |channels| :: x.item.source == channels[k].name && fetchText(FeedUrl(channels[k])).Some?
    decreases |channels|
  {
    if channels != [] {
      var n := |channels| - 1;
      var init := channels[..n];
      SourcesAreChannelNames(init, fetchText, newDate);
      forall x | x in FetchSpec(channels, fetchText, newDate)
        ensures exists k | 0 <= k < |channels| :: x.item.source == channels[k].name && fetchText(FeedUrl(channels[k])).Some?
      {
        if x in FetchSpec(init, fetchText, newDate) {
          var k :| 0 <= k < |init| && x.item.source == init[k].name && fetchText(FeedUrl(init[k])).Some?;
          assert channels[k] == init[k];
        } else {
          var items := ChannelItems(channels[n], fetchText, newDate);
          assert x in items;
          var j :| 0 <= j < |items| && items[j] == x;
          assert x.item.source == channels[n].name;
        }
      }
    }
  }

  /** The loop over one channel's videos. */
  method PushVideos(c: Channel, videos: seq<Video>) returns (out: seq<VideoItem>)
    ensures out == MapSeq(videos, (v: Video) => ItemOf(c, v))
  {
    out := [];
    var j := 0;
    while j < |videos|
      invariant 0 <= j <= |videos|
      invariant |out| == j
      invariant forall k | 0 <= k < j :: out[k] == ItemOf(c, videos[k])
    {
      var v := videos[j];
      out := out + [VideoItem(RawItem(SITE_ID, SITE_NAME, c.name, v.title, v.url, v.publishedAt),
                              v.videoId, v.thumbnail, v.views)];
      j := j + 1;
    }
  }

  /** `fetch(now)`: each channel read and parsed, then the loop over the results. */
  method Fetch(channels: seq<Channel>, fetchText: TextFetcher, newDate: DateCtor) returns (items: seq<VideoItem>)
    ensures items == FetchSpec(channels, fetchText, newDate)
  {
    items := [];
    var i := 0;
    while i < |channels|
      invariant 0 <= i <= |channels|
      invariant items == FetchSpec(channels[..i], fetchText, newDate)
    {
      assert channels[..i + 1][..i] == channels[..i];
      var c := channels[i];
      var videos: seq<Video> := [];
      var xml := fetchText(FEED_BASE + c.channelId);
      if xml.Some? {
        videos := ParseEntries(EntryBlocks(xml.value), newDate);
      }
      var channelItems := PushVideos(c, videos);
      items := items + channelItems;
      i := i + 1;
    }
    assert channels[..i] == channels;
  }
}

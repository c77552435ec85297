/** The WeChat official-account adapter (`src/fetchers/wechat-rss.ts`): the entity decoder,
    the RSS 2.0 reader written with regular expressions, and the mapping of every article
    of every feed to a candidate. Fetching a feed and the `Date` constructor are
    parameters. */
module WechatRss {
  import opened Wrappers
  import opened Strings
  import opened Sorting
  import opened Markup
  import opened Records

  // ----- decodeHtmlEntities -----

  /** `decodeHtmlEntities(text)`: `&amp;` first, then `&lt;`, `&gt;`, `&quot;`, `&#39;` and
      `&apos;`, each for every occurrence. */
  function DecodeHtmlEntities(text: string): string {
    var amp := ReplaceAll(text, "&amp;", "&");
    var lt := ReplaceAll(amp, "&lt;", "<");
    var gt := ReplaceAll(lt, "&gt;", ">");
    var quot := ReplaceAll(gt, "&quot;", "\"");
    var apos39 := ReplaceAll(quot, "&#39;", "'");
    ReplaceAll(apos39, "&apos;", "'")
  }

  /** A pattern that starts with a character occurs only where that character does. */
  lemma {:induction false} NoLeadNoPattern(s: string, pat: string)
    requires pat != [] && !Contains(s, [pat[0]])
    ensures !Contains(s, pat)
  {
    forall i | 0 <= i <= |s| - |pat| ensures !OccursAt(s, pat, i) {
      assert s[i..i + 1] == [s[i]];
      if OccursAt(s, pat, i) {
        assert s[i] == pat[0];
        assert OccursAt(s, [pat[0]], i);
      }
    }
  }

  /** Text without `&` decodes to itself. */
  lemma DecodePlain(text: string)
    requires !Contains(text, "&")
    ensures DecodeHtmlEntities(text) == text
  {
    NoLeadNoPattern(text, "&amp;");
    ReplaceAllAbsent(text, "&amp;", "&");
    NoLeadNoPattern(text, "&lt;");
    ReplaceAllAbsent(text, "&lt;", "<");
    NoLeadNoPattern(text, "&gt;");
    ReplaceAllAbsent(text, "&gt;", ">");
    NoLeadNoPattern(text, "&quot;");
    ReplaceAllAbsent(text, "&quot;", "\"");
    NoLeadNoPattern(text, "&#39;");
    ReplaceAllAbsent(text, "&#39;", "'");
    NoLeadNoPattern(text, "&apos;");
    ReplaceAllAbsent(text, "&apos;", "'");
  }

  /** `&amp;` is decoded first, so an escaped entity is decoded twice: "&amp;lt;" becomes
      "<", not "&lt;". */
  lemma DecodeTwice()
    ensures DecodeHtmlEntities("&amp;lt;") == "<"
  {
    var amp := ReplaceAll("&amp;lt;", "&amp;", "&");
    assert "&amp;lt;"[..5] == "&amp;";
    assert "&amp;lt;"[5..] == "lt;";
    assert ReplaceAll("lt;", "&amp;", "&") == "lt;" by {
      assert "lt;"[..1] != "&amp;"[..1];
    }
    assert amp == "&lt;";
    assert "&lt;"[..4] == "&lt;";
    assert "&lt;"[4..] == [];
    assert ReplaceAll("&lt;", "&lt;", "<") == "<";
    DecodePlain("<");
  }

  // ----- parseWechatRss -----

  const CHANNEL_OPEN: string := "<channel>"

  /** One article. */
  datatype Article = Article(title: string, url: string, description: string)

  /** What `parseWechatRss` returns; an invalid build date is `None` too (see README). */
  datatype ParsedFeed = ParsedFeed(channelTitle: string, lastBuildDate: Option<int>, articles: seq<Article>)

  /** `new Date(text)`: its time value, or `None` for an invalid date. */
  type DateCtor = string -> Option<int>

  /** `<title>([^<]+)</title>` after index `p`. */
  function TitleFrom(s: string, p: nat): Option<string> {
    ClassCaptureFrom(s, "<title>", "</title>", NotLt(), 1, p)
  }

  /** A match of `<channel>[\s\S]*?<title>([^<]+)<\/title>` starting at `c`: the first
      title after that `<channel>`. */
  function ChannelAt(xml: string, c: nat): Option<string> {
    if OccursAt(xml, CHANNEL_OPEN, c) then TitleFrom(xml, c + |CHANNEL_OPEN|) else None
  }

  /** The leftmost start at or after `p` of a channel-title match. */
  function NextChannel(xml: string, p: nat): (r: Option<nat>)
    ensures r.Some? ==> p <= r.value && ChannelAt(xml, r.value).Some?
    ensures r.Some? ==> forall c | p <= c < r.value :: ChannelAt(xml, c).None?
    ensures r.None? ==> forall c | p <= c :: ChannelAt(xml, c).None?
    decreases |xml| - p
  {
    if p + |CHANNEL_OPEN| > |xml| then None
    else if ChannelAt(xml, p).Some? then Some(p)
    else NextChannel(xml, p + 1)
  }

  /** The raw channel title, when the pattern matches. */
  function ChannelMatch(xml: string): Option<string> {
    match NextChannel(xml, 0)
    case None => None
    case Some(c) => ChannelAt(xml, c)
  }

  /** The first `<channel>` decides: the channel title is the first title after it, and
      there is none without a `<channel>`. */
  lemma ChannelFirst(xml: string)
    ensures IndexOf(xml, CHANNEL_OPEN) < 0 ==> ChannelMatch(xml).None?
    ensures IndexOf(xml, CHANNEL_OPEN) >= 0 ==>
      ChannelMatch(xml) == TitleFrom(xml, IndexOf(xml, CHANNEL_OPEN) + |CHANNEL_OPEN|)
  {
    var c0 := IndexOf(xml, CHANNEL_OPEN);
    if c0 < 0 {
      assert forall c | 0 <= c :: ChannelAt(xml, c).None?;
    } else {
      assert forall c | 0 <= c < c0 :: ChannelAt(xml, c).None?;
      var at0 := TitleFrom(xml, c0 + |CHANNEL_OPEN|);
      if at0.None? {
        forall c | c0 < c ensures ChannelAt(xml, c).None? {
          if OccursAt(xml, CHANNEL_OPEN, c) {
            NextClassNone(xml, "<title>", "</title>", NotLt(), 1, c + |CHANNEL_OPEN|);
          }
        }
        assert NextChannel(xml, 0).None?;
      } else {
        assert ChannelAt(xml, c0).Some?;
        assert NextChannel(xml, 0) == Some(c0);
      }
    }
  }

  /** `<lastBuildDate>([^<]+)</lastBuildDate>` */
  function BuildDateMatch(xml: string): Option<string> {
    ClassCapture(xml, "<lastBuildDate>", "</lastBuildDate>", NotLt(), 1)
  }

  /** The text of every `<item>…</item>` block, in order. */
  function ItemBlocks(xml: string): seq<string> {
    Blocks(xml, "<item>", "</item>")
  }

  /** The article of one item block: kept only with both a title and a link. */
  function ArticleOf(item: string): Option<Article> {
    var title := ClassCapture(item, "<title>", "</title>", NotLt(), 1);
    var link := ClassCapture(item, "<link>", "</link>", NotLt(), 1);
    var desc := ClassCapture(item, "<description>", "</description>", NotLt(), 0);
    if title.Some? && link.Some? then
      Some(Article(DecodeHtmlEntities(title.value), DecodeHtmlEntities(link.value),
                   if desc.Some? then DecodeHtmlEntities(desc.value) else ""))
    else None
  }

  function ArticleOfFn(): string -> Option<Article> {
    item => ArticleOf(item)
  }

  /** `parseWechatRss(xml)` */
  function ParseWechatRss(xml: string, newDate: DateCtor): ParsedFeed {
    var title := ChannelMatch(xml);
    var built := BuildDateMatch(xml);
    ParsedFeed(if title.Some? then DecodeHtmlEntities(title.value) else "",
               if built.Some? then newDate(built.value) else None,
               FilterMap(ItemBlocks(xml), ArticleOfFn()))
  }

  /** An item yields an article iff it has a title and a link; a missing description is
      empty, and the fields are the decoded captures. */
  lemma ArticleCases(item: string)
    ensures ArticleOf(item).Some? <==>
      ClassCapture(item, "<title>", "</title>", NotLt(), 1).Some?
      && ClassCapture(item, "<link>", "</link>", NotLt(), 1).Some?
    ensures var a := ArticleOf(item);
      a.Some? ==> (a.value.title == DecodeHtmlEntities(ClassCapture(item, "<title>", "</title>", NotLt(), 1).value)
        && a.value.url == DecodeHtmlEntities(ClassCapture(item, "<link>", "</link>", NotLt(), 1).value))
    ensures var a := ArticleOf(item);
      a.Some? && ClassCapture(item, "<description>", "</description>", NotLt(), 0).None? ==> a.value.description == ""
  {
  }

  /** A feed without a channel title reads as "", one without a build date as `None`, and
      there is one article per item block with a title and a link. */
  lemma ParsedFeedShape(xml: string, newDate: DateCtor)
    ensures var f := ParseWechatRss(xml, newDate);
      (ChannelMatch(xml).None? ==> f.channelTitle == "")
      && (BuildDateMatch(xml).None? ==> f.lastBuildDate.None?)
      && (BuildDateMatch(xml).Some? ==> f.lastBuildDate == newDate(BuildDateMatch(xml).value))
      && |f.articles| == Count(ItemBlocks(xml), Yields(ArticleOfFn()))
      && forall k | 0 <= k < |f.articles| :: exists i | 0 <= i < |ItemBlocks(xml)| ::
           ArticleOf(ItemBlocks(xml)[i]) == Some(f.articles[k])
  {
    FilterMapMembers(ItemBlocks(xml), ArticleOfFn());
  }

  /** The loop of `parseWechatRss` over the item blocks. */
  method CollectArticles(items: seq<string>) returns (articles: seq<Article>)
    ensures articles == FilterMap(items, ArticleOfFn())
  {
    articles := [];
    var i := 0;
    while i < |items|
      invariant 0 <= i <= |items|
      invariant articles == FilterMap(items[..i], ArticleOfFn())
    {
      assert items[..i + 1][..i] == items[..i];
      var item := items[i];
      var titleMatch := ClassCapture(item, "<title>", "</title>", NotLt(), 1);
      var linkMatch := ClassCapture(item, "<link>", "</link>", NotLt(), 1);
      var descMatch := ClassCapture(item, "<description>", "</description>", NotLt(), 0);
      if titleMatch.Some? && linkMatch.Some? {
        articles := articles + [Article(DecodeHtmlEntities(titleMatch.value), DecodeHtmlEntities(linkMatch.value),
                                        if descMatch.Some? then DecodeHtmlEntities(descMatch.value) else "")];
      }
      i := i + 1;
    }
    assert items[..i] == items;
  }

  // ----- fetch -----

  const SITE_ID: string := "wechat-rss"
  const SITE_NAME: string := "微信公众号"
  const CHANNEL_PREFIX: string := "微信公众号-"
  const DESCRIPTION_LIMIT: nat := 200

  /** One subscribed account. */
  datatype WechatFeed = WechatFeed(name: string, url: string, category: string)

  /** The accounts the adapter reads. */
  const WECHAT_FEEDS: seq<WechatFeed> := [
    WechatFeed("机器之心", "https://decemberpei.cyou/rssbox/wechat-jiqizhixin.xml", "AI"),
    WechatFeed("量子位", "https://decemberpei.cyou/rssbox/wechat-liangziwei.xml", "AI"),
    WechatFeed("新智元", "https://decemberpei.cyou/rssbox/wechat-xinzhiyuan.xml", "AI"),
    WechatFeed("DeepTech深科技", "https://decemberpei.cyou/rssbox/wechat-shenkeji.xml", "AI"),
    WechatFeed("PaperWeekly", "https://decemberpei.cyou/rssbox/wechat-paperweekly.xml", "AI"),
    WechatFeed("计算机视觉life", "https://decemberpei.cyou/rssbox/wechat-jisuanjishijuelife.xml", "AI"),
    WechatFeed("AI前线", "https://decemberpei.cyou/rssbox/wechat-aiqianxian.xml", "AI"),
    WechatFeed("夕小瑶科技说", "https://decemberpei.cyou/rssbox/wechat-xixiaoyaokejishuo.xml", "AI"),
    WechatFeed("海外独角兽", "https://decemberpei.cyou/rssbox/wechat-haiwaidujiaoshou.xml", "AI"),
    WechatFeed("甲子光年", "https://decemberpei.cyou/rssbox/wechat-jiaziguangnian.xml", "AI"),
    WechatFeed("集智俱乐部", "https://decemberpei.cyou/rssbox/wechat-jizhijvlebu.xml", "AI"),
    WechatFeed("晚点LatePost", "https://decemberpei.cyou/rssbox/wechat-wandian.xml", "科技媒体"),
    WechatFeed("36氪", "https://decemberpei.cyou/rssbox/wechat-36ke.xml", "科技媒体"),
    WechatFeed("36氪Pro", "https://decemberpei.cyou/rssbox/wechat-sanliukepro.xml", "科技媒体"),
    WechatFeed("虎嗅App", "https://decemberpei.cyou/rssbox/wechat-huxiuapp.xml", "科技媒体"),
    WechatFeed("极客公园", "https://decemberpei.cyou/rssbox/wechat-jikegongyuan.xml", "科技媒体"),
    WechatFeed("少数派", "https://decemberpei.cyou/rssbox/wechat-shaoshupai.xml", "科技媒体"),
    WechatFeed("APPSO", "https://decemberpei.cyou/rssbox/wechat-appso.xml", "科技媒体"),
    WechatFeed("爱范儿", "https://decemberpei.cyou/rssbox/wechat-anfaner.xml", "科技媒体"),
    WechatFeed("差评", "https://decemberpei.cyou/rssbox/wechat-chaping.xml", "科技媒体"),
    WechatFeed("钛媒体", "https://decemberpei.cyou/rssbox/wechat-taimeiti.xml", "科技媒体"),
    WechatFeed("InfoQ", "https://decemberpei.cyou/rssbox/wechat-infoq.xml", "技术开发"),
    WechatFeed("阿里云开发者", "https://decemberpei.cyou/rssbox/wechat-aliyunkaifazhe.xml", "技术开发"),
    WechatFeed("腾讯技术工程", "https://decemberpei.cyou/rssbox/wechat-tengxunjishugongcheng.xml", "技术开发"),
    WechatFeed("前端之巅", "https://decemberpei.cyou/rssbox/wechat-qianduanzhidian.xml", "技术开发"),
    WechatFeed("架构师之路", "https://decemberpei.cyou/rssbox/wechat-jiagoushizhilu.xml", "技术开发"),
    WechatFeed("GitHubDaily", "https://decemberpei.cyou/rssbox/wechat-githubdaily.xml", "技术开发"),
    WechatFeed("华尔街见闻", "https://decemberpei.cyou/rssbox/wechat-huaerjiejianwen.xml", "财经投资"),
    WechatFeed("财经杂志", "https://decemberpei.cyou/rssbox/wechat-caijingzazhi.xml", "财经投资"),
    WechatFeed("第一财经YiMagazine", "https://decemberpei.cyou/rssbox/wechat-diyicaijing.xml", "财经投资"),
    WechatFeed("经纬创投", "https://decemberpei.cyou/rssbox/wechat-jingweichuangtou.xml", "财经投资"),
    WechatFeed("红杉汇", "https://decemberpei.cyou/rssbox/wechat-hongshanhui.xml", "财经投资"),
    WechatFeed("42章经", "https://decemberpei.cyou/rssbox/wechat-sierzhangjing.xml", "财经投资"),
    WechatFeed("远川投资评论", "https://decemberpei.cyou/rssbox/wechat-chuanyuanyouzipinglun.xml", "财经投资"),
    WechatFeed("泽平宏观展望", "https://decemberpei.cyou/rssbox/wechat-zepinghongguanzhanwang.xml", "财经投资"),
    WechatFeed("caoz的梦呓", "https://decemberpei.cyou/rssbox/wechat-caozdemengyi.xml", "个人博主"),
    WechatFeed("L先生说", "https://decemberpei.cyou/rssbox/wechat-lxianshengshuo.xml", "个人博主"),
    WechatFeed("槽边往事", "https://decemberpei.cyou/rssbox/wechat-caobianwangshi.xml", "个人博主"),
    WechatFeed("孟岩", "https://decemberpei.cyou/rssbox/wechat-mengyan.xml", "个人博主"),
    WechatFeed("刘润", "https://decemberpei.cyou/rssbox/wechat-liurun.xml", "个人博主"),
    WechatFeed("辉哥奇谭", "https://decemberpei.cyou/rssbox/wechat-huigeqitan.xml", "个人博主"),
    WechatFeed("warfalcon", "https://decemberpei.cyou/rssbox/wechat-warfalcon.xml", "个人博主"),
    WechatFeed("玉树芝兰", "https://decemberpei.cyou/rssbox/wechat-yushuzhilan.xml", "个人博主"),
    WechatFeed("九边", "https://decemberpei.cyou/rssbox/wechat-jiubian.xml", "个人博主"),
    WechatFeed("也谈钱", "https://decemberpei.cyou/rssbox/wechat-yetanqian.xml", "个人博主"),
    WechatFeed("keso怎么看", "https://decemberpei.cyou/rssbox/wechat-kesozenmekan.xml", "个人博主"),
    WechatFeed("阑夕", "https://decemberpei.cyou/rssbox/wechat-lanxi.xml", "个人博主"),
    WechatFeed("人人都是产品经理", "https://decemberpei.cyou/rssbox/wechat-renrendoushichanpinjingli.xml", "产品商业"),
    WechatFeed("互联网怪盗团", "https://decemberpei.cyou/rssbox/wechat-hulianwangguaidaotuan.xml", "产品商业"),
    WechatFeed("乱翻书", "https://decemberpei.cyou/rssbox/wechat-luanfanshu.xml", "产品商业"),
    WechatFeed("刘言飞语", "https://decemberpei.cyou/rssbox/wechat-liuyanfeiyu.xml", "产品商业"),
    WechatFeed("产品犬舍", "https://decemberpei.cyou/rssbox/wechat-chanpinquanshe.xml", "产品商业"),
    WechatFeed("FounderPark", "https://decemberpei.cyou/rssbox/wechat-founderpark.xml", "产品商业")
  ]

  /** `fetchText(url)`: the body, or `None` when the request fails. */
  type TextFetcher = string -> Option<string>

  /** A candidate with the metadata this adapter attaches. */
  datatype WechatItem = WechatItem(item: RawItem, category: string, description: string)

  /** The source name of a feed: its configured name, else the channel title without the
      account prefix. */
  function SourceName(feed: WechatFeed, parsed: ParsedFeed): string {
    if feed.name != [] then feed.name else ReplaceFirst(parsed.channelTitle, CHANNEL_PREFIX, "")
  }

  /** The candidate of one article of a parsed feed. */
  function ItemOf(feed: WechatFeed, parsed: ParsedFeed, a: Article): WechatItem {
    WechatItem(RawItem(SITE_ID, SITE_NAME, SourceName(feed, parsed), a.title, a.url, parsed.lastBuildDate),
               feed.category, Prefix(a.description, DESCRIPTION_LIMIT))
  }

  /** The candidates of one feed: none when it cannot be fetched. */
  function FeedItems(feed: WechatFeed, fetchText: TextFetcher, newDate: DateCtor): seq<WechatItem> {
    match fetchText(feed.url)
    case None => []
    case Some(xml) =>
      var parsed := ParseWechatRss(xml, newDate);
      MapSeq(parsed.articles, (a: Article) => ItemOf(feed, parsed, a))
  }

  /** `fetch(now)` over a list of accounts: their candidates, account by account. */
  function FetchSpec(feeds: seq<WechatFeed>, fetchText: TextFetcher, newDate: DateCtor): seq<WechatItem>
    decreases |feeds|
  {
    if feeds == [] then []
    else FetchSpec(feeds[..|feeds| - 1], fetchText, newDate) + FeedItems(feeds[|feeds| - 1], fetchText, newDate)
  }

  /** Every candidate of a fetched feed: one per article, in order, carrying the feed's
      build date, the article's title and link, the feed's category and at most 200
      characters of the description; the source is the configured name when there is one. */
  lemma FeedItemsShape(feed: WechatFeed, fetchText: TextFetcher, newDate: DateCtor)
    ensures fetchText(feed.url).None? ==> FeedItems(feed, fetchText, newDate) == []
    ensures fetchText(feed.url).Some? ==>
      var parsed := ParseWechatRss(fetchText(feed.url).value, newDate);
      var items := FeedItems(feed, fetchText, newDate);
      |items| == |parsed.articles|
      && forall k | 0 <= k < |items| ::
        items[k].item.siteId == SITE_ID && items[k].item.title == parsed.articles[k].title
        && items[k].item.url == parsed.articles[k].url
        && items[k].item.publishedAt == parsed.lastBuildDate
        && items[k].category == feed.category
        && |items[k].description| <= DESCRIPTION_LIMIT
        && parsed.articles[k].description[..|items[k].description|] == items[k].description
        && (feed.name != [] ==> items[k].item.source == feed.name)
  {
  }

  /** The candidates are the feeds' candidates concatenated in feed order; each comes
      from some feed that was fetched. */
  lemma {:induction false} FetchSpecFrom(feeds: seq<WechatFeed>, fetchText: TextFetcher, newDate: DateCtor)
    ensures forall x | x in FetchSpec(feeds, fetchText, newDate) ::
      exists k | 0 <= k < |feeds| :: fetchText(feeds[k].url).Some? && x in FeedItems(feeds[k], fetchText, newDate)
    decreases |feeds|
  {
    if feeds != [] {
      var init := feeds[..|feeds| - 1];
      FetchSpecFrom(init, fetchText, newDate);
      forall x | x in FetchSpec(feeds, fetchText, newDate)
        ensures exists k | 0 <= k < |feeds| :: fetchText(feeds[k].url).Some? && x in FeedItems(feeds[k], fetchText, newDate)
      {
        if x in FetchSpec(init, fetchText, newDate) {
          var k :| 0 <= k < |init| && fetchText(init[k].url).Some? && x in FeedItems(init[k], fetchText, newDate);
          assert feeds[k] == init[k];
        } else {
          assert x in FeedItems(feeds[|feeds| - 1], fetchText, newDate);
          assert fetchText(feeds[|feeds| - 1].url).Some?;
        }
      }
    }
  }

  /** The item loop of one parsed feed. */
  method PushFeedItems(feed: WechatFeed, parsed: ParsedFeed) returns (out: seq<WechatItem>)
    ensures out == MapSeq(parsed.articles, (a: Article) => ItemOf(feed, parsed, a))
  {
    var sourceName := if feed.name != [] then feed.name else ReplaceFirst(parsed.channelTitle, CHANNEL_PREFIX, "");
    out := [];
    var j := 0;
    while j < |parsed.articles|
      invariant 0 <= j <= |parsed.articles|
      invariant |out| == j
      invariant forall k | 0 <= k < j :: out[k] == ItemOf(feed, parsed, parsed.articles[k])
    {
      var a := parsed.articles[j];
      out := out + [WechatItem(RawItem(SITE_ID, SITE_NAME, sourceName, a.title, a.url, parsed.lastBuildDate),
                               feed.category, Prefix(a.description, DESCRIPTION_LIMIT))];
      j := j + 1;
    }
  }

  /** `fetch(now)`: each account read and parsed, then the loop over the results. */
  method Fetch(feeds: seq<WechatFeed>, fetchText: TextFetcher, newDate: DateCtor) returns (items: seq<WechatItem>)
    ensures items == FetchSpec(feeds, fetchText, newDate)
  {
    items := [];
    var i := 0;
    while i < |feeds|
      invariant 0 <= i <= |feeds|
      invariant items == FetchSpec(feeds[..i], fetchText, newDate)
    {
      assert feeds[..i + 1][..i] == feeds[..i];
      var feed := feeds[i];
      var xml := fetchText(feed.url);
      if xml.Some? {
        var articles := CollectArticles(ItemBlocks(xml.value));
        var title := ChannelMatch(xml.value);
        var built := BuildDateMatch(xml.value);
        var parsed := ParsedFeed(if title.Some? then DecodeHtmlEntities(title.value) else "",
                                 if built.Some? then newDate(built.value) else None, articles);
        var feedItems := PushFeedItems(feed, parsed);
        items := items + feedItems;
      }
      i := i + 1;
    }
    assert feeds[..i] == feeds;
  }
}

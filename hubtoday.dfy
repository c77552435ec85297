/** The AI HubToday adapter's acceptance rules (`src/fetchers/aihubtoday.ts`). The page's
    anchors reach the model as candidate lists, one per selector pass, in document order;
    the HTML scraping itself is not modelled. */
module Hubtoday {
  import opened Wrappers
  import opened Strings
  import opened Calendar
  import Urls
  import Records

  const SEE_OFFICIAL: string := "详情见官方介绍"
  const PLACEHOLDERS: seq<string> := ["原文链接", "查看详情", "点击查看", "详情"]
  const AI_NEWS_TAG: string := "(AI资讯)"

  /** `isPlaceholderTitle` (the same predicate as `isHubtodayPlaceholderTitle` in dedupe.ts). */
  predicate IsPlaceholderTitle(title: string) {
    var t := Trim(title);
    t == [] || Contains(t, SEE_OFFICIAL) || t in PLACEHOLDERS
  }

  /** `isGenericAnchorTitle`: a placeholder, or a title ending in "(AI资讯)". The source's
      `/\(AI资讯\)\s*$/` runs on a trimmed string, where the trailing `\s*` is empty. */
  predicate IsGenericAnchorTitle(title: string) {
    var t := Trim(title);
    t == [] || IsPlaceholderTitle(t) || EndsWith(t, AI_NEWS_TAG)
  }

  /** Every placeholder is generic, and so is anything tagged "(AI资讯)". */
  lemma PlaceholderIsGeneric(title: string)
    ensures IsPlaceholderTitle(title) ==> IsGenericAnchorTitle(title)
    ensures EndsWith(Trim(title), AI_NEWS_TAG) ==> IsGenericAnchorTitle(title)
  {
    TrimIdempotent(title);
  }

  /** One anchor as a selector pass offers it: its text, its href and the text of the
      `<strong>` of its paragraph (or "" when there is none). */
  datatype Candidate = Candidate(title: string, href: string, fallbackTitle: string)

  const SITE_ID: string := "aihubtoday"
  const SITE_NAME: string := "AI HubToday"
  const DAILY_DIGEST: string := "Daily Digest"
  const PAGE_FALLBACK: string := "Page Fallback"

  /** The title `addItem` settles on: a generic one is replaced by a non-empty fallback. */
  function ChosenTitle(c: Candidate): (t: string)
    ensures t == Trim(c.title) || t == Trim(c.fallbackTitle)
    ensures !IsGenericAnchorTitle(Trim(c.title)) ==> t == Trim(c.title)
    ensures IsGenericAnchorTitle(Trim(c.title)) && Trim(c.fallbackTitle) != [] ==> t == Trim(c.fallbackTitle)
    ensures IsGenericAnchorTitle(Trim(c.title)) && Trim(c.fallbackTitle) == [] ==> t == Trim(c.title)
  {
    var title := Trim(c.title);
    var fallback := Trim(c.fallbackTitle);
    if IsGenericAnchorTitle(title) && fallback != [] then fallback else title
  }

  /** The rejection rules of `addItem`, on the trimmed title and href. */
  predicate Acceptable(title: string, href: string) {
    Utf16Length(title) >= 5 && StartsWith(href, "http")
    && title != "自媒体账号" && !Contains(href, "source.hubtoday.app")
    && !IsGenericAnchorTitle(title)
  }

  /** What `addItem` has collected so far: the normalised URLs seen and the items. */
  datatype Collected = Collected(seen: set<string>, items: seq<Records.RawItem>)

  /** One call of `addItem`. */
  function AddStep(st: Collected, c: Candidate, source: string, issueDate: Option<int>, parse: Urls.Parser): Collected {
    var title := ChosenTitle(c);
    var href := Trim(c.href);
    if !Acceptable(title, href) then st
    else Push(st, Urls.NormalizeUrl(href, parse), Records.RawItem(SITE_ID, SITE_NAME, source, title, href, issueDate))
  }

  /** `if (seenUrls.has(keyUrl)) return; seenUrls.add(keyUrl); items.push(item)` */
  function Push(st: Collected, keyUrl: string, item: Records.RawItem): Collected {
    if keyUrl in st.seen then st else Collected(st.seen + {keyUrl}, st.items + [item])
  }

  /** The calls of one selector pass, in order. */
  function AddAll(st: Collected, cs: seq<Candidate>, source: string, issueDate: Option<int>, parse: Urls.Parser): Collected
    decreases |cs|
  {
    if cs == [] then st
    else AddStep(AddAll(st, cs[..|cs| - 1], source, issueDate, parse), cs[|cs| - 1], source, issueDate, parse)
  }

  /** The whole `fetch`: three passes, then the page-wide pass when they found nothing. */
  function CollectSpec(content: seq<Candidate>, targets: seq<Candidate>, articleLinks: seq<Candidate>,
                       pageLinks: seq<Candidate>, issueDate: Option<int>, parse: Urls.Parser): seq<Records.RawItem>
  {
    var st := AddAll(AddAll(AddAll(Collected({}, []), content, DAILY_DIGEST, issueDate, parse),
                            targets, DAILY_DIGEST, issueDate, parse),
                     articleLinks, DAILY_DIGEST, issueDate, parse);
    if |st.items| == 0 then AddAll(st, pageLinks, PAGE_FALLBACK, issueDate, parse).items else st.items
  }

  /** An item `addItem` may push: accepted title and link, the issue date, the site id. */
  predicate ItemOk(item: Records.RawItem, issueDate: Option<int>) {
    Acceptable(item.title, item.url) && item.publishedAt == issueDate && item.siteId == SITE_ID
  }

  function ItemOkFn(issueDate: Option<int>): Records.RawItem -> bool {
    (item: Records.RawItem) => ItemOk(item, issueDate)
  }

  function KeyFn(parse: Urls.Parser): Records.RawItem -> string {
    (item: Records.RawItem) => Urls.NormalizeUrl(item.url, parse)
  }

  /** Every collected item satisfies `ok`; the seen set is exactly the items' keys, and no
      two items share one. */
  ghost predicate Consistent(st: Collected, ok: Records.RawItem -> bool, key: Records.RawItem -> string) {
    (forall i | 0 <= i < |st.items| :: ok(st.items[i]) && key(st.items[i]) in st.seen)
    && (forall u | u in st.seen :: exists i | 0 <= i < |st.items| :: key(st.items[i]) == u)
    && (forall i, j | 0 <= i < j < |st.items| :: key(st.items[i]) != key(st.items[j]))
  }

  lemma PushConsistent(st: Collected, k: string, item: Records.RawItem,
                       ok: Records.RawItem -> bool, key: Records.RawItem -> string)
    requires Consistent(st, ok, key)
    requires ok(item) && key(item) == k
    ensures Consistent(Push(st, k, item), ok, key)
  {
    if k !in st.seen {
      var items := st.items + [item];
      var n := |st.items|;
      assert forall i | 0 <= i < n :: items[i] == st.items[i];
      assert items[n] == item;
      forall u | u in st.seen + {k} ensures exists i | 0 <= i < |items| :: key(items[i]) == u {
        if u == k {
          assert key(items[n]) == u;
        }
      }
    }
  }

  lemma ItemOkOf(title: string, href: string, source: string, issueDate: Option<int>)
    requires Acceptable(title, href)
    ensures ItemOkFn(issueDate)(Records.RawItem(SITE_ID, SITE_NAME, source, title, href, issueDate))
  {
  }

  lemma AddStepRejects(st: Collected, c: Candidate, source: string, issueDate: Option<int>, parse: Urls.Parser,
                       title: string, href: string)
    requires title == ChosenTitle(c) && href == Trim(c.href) && !Acceptable(title, href)
    ensures AddStep(st, c, source, issueDate, parse) == st
  {
  }

  lemma AddStepPushes(st: Collected, c: Candidate, source: string, issueDate: Option<int>, parse: Urls.Parser,
                      title: string, href: string)
    requires title == ChosenTitle(c) && href == Trim(c.href) && Acceptable(title, href)
    ensures AddStep(st, c, source, issueDate, parse)
         == Push(st, Urls.NormalizeUrl(href, parse), Records.RawItem(SITE_ID, SITE_NAME, source, title, href, issueDate))
  {
  }

  lemma AddStepConsistent(st: Collected, c: Candidate, source: string, issueDate: Option<int>, parse: Urls.Parser)
    requires Consistent(st, ItemOkFn(issueDate), KeyFn(parse))
    ensures Consistent(AddStep(st, c, source, issueDate, parse), ItemOkFn(issueDate), KeyFn(parse))
  {
    var title := ChosenTitle(c);
    var href := Trim(c.href);
    var item := Records.RawItem(SITE_ID, SITE_NAME, source, title, href, issueDate);
    if Acceptable(title, href) {
      ItemOkOf(title, href, source, issueDate);
      PushConsistent(st, Urls.NormalizeUrl(href, parse), item, ItemOkFn(issueDate), KeyFn(parse));
    }
  }

  lemma {:induction false} AddAllConsistent(st: Collected, cs: seq<Candidate>, source: string, issueDate: Option<int>, parse: Urls.Parser)
    requires Consistent(st, ItemOkFn(issueDate), KeyFn(parse))
    ensures Consistent(AddAll(st, cs, source, issueDate, parse), ItemOkFn(issueDate), KeyFn(parse))
    decreases |cs|
  {
    if cs != [] {
      AddAllConsistent(st, cs[..|cs| - 1], source, issueDate, parse);
      AddStepConsistent(AddAll(st, cs[..|cs| - 1], source, issueDate, parse), cs[|cs| - 1], source, issueDate, parse);
    }
  }

  /** What the adapter emits: accepted titles, http links, the issue date on every item, and
      at most one item per normalised URL. */
  lemma CollectSpecProperties(content: seq<Candidate>, targets: seq<Candidate>, articleLinks: seq<Candidate>,
                              pageLinks: seq<Candidate>, issueDate: Option<int>, parse: Urls.Parser)
    ensures var items := CollectSpec(content, targets, articleLinks, pageLinks, issueDate, parse);
      (forall i | 0 <= i < |items| ::
        Acceptable(items[i].title, items[i].url) && items[i].publishedAt == issueDate && items[i].siteId == SITE_ID)
      && (forall i, j | 0 <= i < j < |items| :: Urls.NormalizeUrl(items[i].url, parse) != Urls.NormalizeUrl(items[j].url, parse))
  {
    var s0 := Collected({}, []);
    EmptyConsistent(ItemOkFn(issueDate), KeyFn(parse));
    var s1 := AddAll(s0, content, DAILY_DIGEST, issueDate, parse);
    AddAllConsistent(s0, content, DAILY_DIGEST, issueDate, parse);
    var s2 := AddAll(s1, targets, DAILY_DIGEST, issueDate, parse);
    AddAllConsistent(s1, targets, DAILY_DIGEST, issueDate, parse);
    var s3 := AddAll(s2, articleLinks, DAILY_DIGEST, issueDate, parse);
    AddAllConsistent(s2, articleLinks, DAILY_DIGEST, issueDate, parse);
    if |s3.items| == 0 {
      AddAllConsistent(s3, pageLinks, PAGE_FALLBACK, issueDate, parse);
      ConsistentItems(AddAll(s3, pageLinks, PAGE_FALLBACK, issueDate, parse), issueDate, parse);
    } else {
      ConsistentItems(s3, issueDate, parse);
    }
  }

  lemma EmptyConsistent(ok: Records.RawItem -> bool, key: Records.RawItem -> string)
    ensures Consistent(Collected({}, []), ok, key)
  {
  }

  /** What consistency says of the items alone. */
  lemma ConsistentItems(st: Collected, issueDate: Option<int>, parse: Urls.Parser)
    requires Consistent(st, ItemOkFn(issueDate), KeyFn(parse))
    ensures forall i | 0 <= i < |st.items| :: ItemOk(st.items[i], issueDate)
    ensures forall i, j | 0 <= i < j < |st.items| ::
      Urls.NormalizeUrl(st.items[i].url, parse) != Urls.NormalizeUrl(st.items[j].url, parse)
  {
    assert forall i | 0 <= i < |st.items| :: ItemOkFn(issueDate)(st.items[i]);
    assert forall i | 0 <= i < |st.items| :: KeyFn(parse)(st.items[i]) == Urls.NormalizeUrl(st.items[i].url, parse);
  }

  /** The page-wide pass only matters when the first three passes found nothing. */
  lemma FallbackOnlyWhenEmpty(content: seq<Candidate>, targets: seq<Candidate>, articleLinks: seq<Candidate>,
                              pageLinks: seq<Candidate>, other: seq<Candidate>, issueDate: Option<int>, parse: Urls.Parser)
    requires |AddAll(AddAll(AddAll(Collected({}, []), content, DAILY_DIGEST, issueDate, parse),
                            targets, DAILY_DIGEST, issueDate, parse),
                     articleLinks, DAILY_DIGEST, issueDate, parse).items| > 0
    ensures CollectSpec(content, targets, articleLinks, pageLinks, issueDate, parse)
         == CollectSpec(content, targets, articleLinks, other, issueDate, parse)
  {
  }

  /** `addItem`'s closure state: the `seenUrls` set and the `items` list. */
  class Collector {
    var seenUrls: set<string>
    var items: seq<Records.RawItem>
    const issueDate: Option<int>

    constructor(issueDate: Option<int>)
      ensures seenUrls == {} && items == [] && this.issueDate == issueDate
    {
      seenUrls := {};
      items := [];
      this.issueDate := issueDate;
    }

    function State(): Collected
      reads this
    {
      Collected(seenUrls, items)
    }

    /** `addItem(title, href, source, fallbackTitle)` */
    method AddItem(c: Candidate, source: string, parse: Urls.Parser)
      modifies this
      ensures State() == AddStep(old(State()), c, source, issueDate, parse)
    {
      ghost var before := State();
      var title := Trim(c.title);
      var href := Trim(c.href);
      var fallbackTitle := Trim(c.fallbackTitle);
      if IsGenericAnchorTitle(title) && fallbackTitle != [] {
        title := fallbackTitle;
      }
      if !Acceptable(title, href) {
        AddStepRejects(before, c, source, issueDate, parse, title, href);
        return;
      }
      var keyUrl := Urls.NormalizeUrl(href, parse);
      var item := Records.RawItem(SITE_ID, SITE_NAME, source, title, href, issueDate);
      AddStepPushes(before, c, source, issueDate, parse, title, href);
      PushItem(keyUrl, item);
    }

    /** The tail of `addItem`: skip a URL already seen, else record it and keep the item. */
    method PushItem(keyUrl: string, item: Records.RawItem)
      modifies this
      ensures State() == Push(old(State()), keyUrl, item)
    {
      if keyUrl in seenUrls { return; }
      seenUrls := seenUrls + {keyUrl};
      items := items + [item];
    }

    /** One `$(selector).each(... addItem ...)` pass. */
    method AddPass(cs: seq<Candidate>, source: string, parse: Urls.Parser)
      modifies this
      ensures State() == AddAll(old(State()), cs, source, issueDate, parse)
    {
      var i := 0;
      while i < |cs|
        invariant 0 <= i <= |cs|
        invariant State() == AddAll(old(State()), cs[..i], source, issueDate, parse)
      {
        assert cs[..i + 1][..i] == cs[..i];
        AddItem(cs[i], source, parse);
        i := i + 1;
      }
      assert cs[..i] == cs;
    }
  }

  /** The adapter's `fetch` after scraping. */
  method Collect(content: seq<Candidate>, targets: seq<Candidate>, articleLinks: seq<Candidate>,
                 pageLinks: seq<Candidate>, issueDate: Option<int>, parse: Urls.Parser)
    returns (items: seq<Records.RawItem>)
    ensures items == CollectSpec(content, targets, articleLinks, pageLinks, issueDate, parse)
  {
    var collector := new Collector(issueDate);
    collector.AddPass(content, DAILY_DIGEST, parse);
    collector.AddPass(targets, DAILY_DIGEST, parse);
    collector.AddPass(articleLinks, DAILY_DIGEST, parse);
    if |collector.items| == 0 {
      collector.AddPass(pageLinks, PAGE_FALLBACK, parse);
    }
    items := collector.items;
  }

  // ----- the issue date -----

  const ISSUE_MARKER: string := "AI资讯日报"

  predicate IsDateSep(c: char) { c == '/' || c == '-' }

  /** The value of the digits `s[a..b]`. */
  function DigitField(s: string, a: nat, b: nat): nat
    requires a <= b <= |s| && forall k | a <= k < b :: IsDigit(s[k])
  {
    assert AllDigits(s[a..b]) by {
      assert forall k | 0 <= k < b - a :: s[a..b][k] == s[a + k];
    }
    DigitsValue(s[a..b])
  }

  /** `AI资讯日报\s*(\d{4})[\/\-](\d{1,2})[\/\-](\d{1,2})` matched at `p`: year, month, day. */
  function IssueDateAt(s: string, p: nat): Option<(nat, nat, nat)>
    requires p <= |s|
  {
    if !OccursAt(s, ISSUE_MARKER, p) then None
    else YearFrom(s, RunEnd(s, p + |ISSUE_MARKER|, IsSpace))
  }

  /** The rest of the pattern from the year digits at `y`. */
  function YearFrom(s: string, y: nat): Option<(nat, nat, nat)>
    requires y <= |s|
  {
    var yEnd := DigitsUpTo(s, y, 4);
    if yEnd != y + 4 || yEnd >= |s| || !IsDateSep(s[yEnd]) then None
    else
      match MonthFrom(s, yEnd + 1)
      case None => None
      case Some((month, day)) => Some((DigitField(s, y, yEnd), month, day))
  }

  /** The rest of the pattern from the month digits at `m`. */
  function MonthFrom(s: string, m: nat): Option<(nat, nat)>
    requires m <= |s|
  {
    var mEnd := DigitsUpTo(s, m, 2);
    if mEnd == m || mEnd >= |s| || !IsDateSep(s[mEnd]) then None
    else
      var d := mEnd + 1;
      var dEnd := DigitsUpTo(s, d, 2);
      if dEnd == d then None
      else Some((DigitField(s, m, mEnd), DigitField(s, d, dEnd)))
  }

  /** The leftmost match. */
  function FindIssueDate(s: string, p: nat): Option<(nat, nat, nat)>
    requires p <= |s|
    decreases |s| - p
  {
    if p == |s| then None
    else if IssueDateAt(s, p).Some? then IssueDateAt(s, p)
    else FindIssueDate(s, p + 1)
  }

  /** `issueDate`: local midnight of the date in the page text, or `null` without one. */
  function IssueDate(text: string, offset: int): Option<int> {
    match FindIssueDate(text, 0)
    case None => None
    case Some((y, m, d)) => Some(LocalDate(y, m - 1, d, offset))
  }

  /** The search passes over positions where the pattern does not match. */
  lemma {:induction false} FindIssueDateSkips(s: string, p: nat, k: nat)
    requires p <= k <= |s|
    requires forall q | p <= q < k :: IssueDateAt(s, q).None?
    ensures FindIssueDate(s, p) == FindIssueDate(s, k)
    decreases k - p
  {
    if p < k {
      FindIssueDateSkips(s, p + 1, k);
    }
  }

  /** A page whose text lacks the marker has no issue date. */
  lemma IssueDateAbsent(text: string, offset: int)
    requires !Contains(text, ISSUE_MARKER)
    ensures IssueDate(text, offset).None?
  {
    forall q | 0 <= q < |text| ensures IssueDateAt(text, q).None? {
    }
    FindIssueDateSkips(text, 0, |text|);
  }

  /** One or two month digits at `m`, a separator and one or two day digits at `d` that end
      their run: the month and day are read from those positions. */
  lemma MonthFromAt(s: string, m: nat, lm: nat, d: nat, ld: nat)
    requires 1 <= lm <= 2 && 1 <= ld <= 2 && d == m + lm + 1 && d + ld <= |s|
    requires forall k | m <= k < m + lm :: IsDigit(s[k])
    requires IsDateSep(s[m + lm])
    requires forall k | d <= k < d + ld :: IsDigit(s[k])
    requires ld == 2 || d + ld == |s| || !IsDigit(s[d + ld])
    ensures MonthFrom(s, m) == Some((DigitField(s, m, m + lm), DigitField(s, d, d + ld)))
  {
    DigitRunEnd(s, m, lm, 2);
    DigitRunEnd(s, d, ld, 2);
  }

  /** Four year digits at `y` and a separator, then a month and day. */
  lemma YearFromAt(s: string, y: nat, month: nat, day: nat)
    requires y + 5 <= |s| && (forall k | y <= k < y + 4 :: IsDigit(s[k])) && IsDateSep(s[y + 4])
    requires MonthFrom(s, y + 5) == Some((month, day))
    ensures YearFrom(s, y) == Some((DigitField(s, y, y + 4), month, day))
  {
    DigitRunEnd(s, y, 4, 4);
  }

  /** The marker at `p` and white space up to a non-space at `y`: the year is read from `y`. */
  lemma IssueDateAtYear(s: string, p: nat, y: nat)
    requires p + |ISSUE_MARKER| <= y < |s| && OccursAt(s, ISSUE_MARKER, p) && !IsSpace(s[y])
    requires forall k | p + |ISSUE_MARKER| <= k < y :: IsSpace(s[k])
    ensures IssueDateAt(s, p) == YearFrom(s, y)
  {
    SpaceRunEnd(s, p + |ISSUE_MARKER|, y);
  }

  /** The digits `ds` at `a` have their value. */
  lemma DigitFieldOf(s: string, a: nat, ds: string)
    requires a + |ds| <= |s| && s[a..a + |ds|] == ds && AllDigits(ds)
    ensures forall k | a <= k < a + |ds| :: IsDigit(s[k])
    ensures DigitField(s, a, a + |ds|) == DigitsValue(ds)
  {
    assert forall k | a <= k < a + |ds| :: s[k] == ds[k - a];
  }

  /** White space from `i` up to a non-space at `j` is one run. */
  lemma SpaceRunEnd(s: string, i: nat, j: nat)
    requires i <= j < |s| && !IsSpace(s[j])
    requires forall k | i <= k < j :: IsSpace(s[k])
    ensures RunEnd(s, i, IsSpace) == j
  {
  }

  /** `n` digits from `p` that end the greedy run of at most `max`. */
  lemma DigitRunEnd(s: string, p: nat, n: nat, max: nat)
    requires p + n <= |s| && n <= max
    requires forall k | p <= k < p + n :: IsDigit(s[k])
    requires n == max || p + n == |s| || !IsDigit(s[p + n])
    ensures DigitsUpTo(s, p, max) == p + n
  {
  }

  /** `b` sits right after `a` in `a + b + c`. */
  lemma Middle(a: string, b: string, c: string)
    ensures (a + b + c)[|a|..|a| + |b|] == b
  {
  }

  /** A slice inside the first part of a concatenation. */
  lemma PrefixSlice(x: string, y: string, i: nat, j: nat)
    requires i <= j <= |x|
    ensures (x + y)[i..j] == x[i..j]
  {
  }

  /** The second part of a concatenation. */
  lemma LastPart(x: string, y: string)
    ensures (x + y)[|x|..|x| + |y|] == y
  {
  }

  /** Where the marker, the white space, the year and the first separator of
      "<pre>AI资讯日报<ws><ys><sep1><ms><sep2><ds><rest>" sit. */
  lemma IssueTextHead(text: string, pre: string, ws: string, ys: string, sep1: char, ms: string,
                      sep2: char, ds: string, rest: string)
    requires text == pre + ISSUE_MARKER + ws + ys + [sep1] + ms + [sep2] + ds + rest
    requires AllSpace(ws) && |ys| == 4
    ensures var y := |pre| + |ISSUE_MARKER| + |ws|;
      OccursAt(text, ISSUE_MARKER, |pre|) && y + 6 + |ms| + |ds| + |rest| == |text|
      && (forall k | |pre| + |ISSUE_MARKER| <= k < y :: IsSpace(text[k]))
      && text[y..y + 4] == ys && text[y + 4] == sep1
  {
    var a := pre + ISSUE_MARKER;
    var b := a + ws;
    var c := b + ys;
    var d := c + [sep1];
    var e := d + ms;
    var f := e + [sep2];
    var g := f + ds;
    assert text == g + rest;
    // the marker
    PrefixSlice(g, rest, |pre|, |a|);
    PrefixSlice(f, ds, |pre|, |a|);
    PrefixSlice(e, [sep2], |pre|, |a|);
    PrefixSlice(d, ms, |pre|, |a|);
    PrefixSlice(c, [sep1], |pre|, |a|);
    PrefixSlice(b, ys, |pre|, |a|);
    PrefixSlice(a, ws, |pre|, |a|);
    LastPart(pre, ISSUE_MARKER);
    // the year
    PrefixSlice(g, rest, |b|, |c|);
    PrefixSlice(f, ds, |b|, |c|);
    PrefixSlice(e, [sep2], |b|, |c|);
    PrefixSlice(d, ms, |b|, |c|);
    PrefixSlice(c, [sep1], |b|, |c|);
    LastPart(b, ys);
    forall k | |a| <= k < |b| ensures IsSpace(text[k]) {
      assert text[k] == b[k] == ws[k - |a|];
    }
  }

  /** Where the month, the second separator and the day of the same text sit, and what
      follows the day. */
  lemma IssueTextTail(text: string, pre: string, ws: string, ys: string, sep1: char, ms: string,
                      sep2: char, ds: string, rest: string)
    requires text == pre + ISSUE_MARKER + ws + ys + [sep1] + ms + [sep2] + ds + rest
    requires |ys| == 4 && (|ds| == 2 || rest == [] || !IsDigit(rest[0]))
    ensures var m := |pre| + |ISSUE_MARKER| + |ws| + 5; var d := m + |ms| + 1;
      d + |ds| + |rest| == |text|
      && text[m..m + |ms|] == ms && text[m + |ms|] == sep2 && text[d..d + |ds|] == ds
      && (|ds| == 2 || d + |ds| == |text| || !IsDigit(text[d + |ds|]))
  {
    var d := pre + ISSUE_MARKER + ws + ys + [sep1];
    var e := d + ms;
    var f := e + [sep2];
    var g := f + ds;
    assert text == g + rest;
    PrefixSlice(g, rest, |d|, |e|);
    PrefixSlice(f, ds, |d|, |e|);
    PrefixSlice(e, [sep2], |d|, |e|);
    LastPart(d, ms);
    PrefixSlice(g, rest, |f|, |g|);
    LastPart(f, ds);
    assert text[|e|] == g[|e|] == f[|e|] == sep2;
    if rest != [] {
      assert text[|g|] == rest[0];
    }
  }

  /** The year digits `ys` at `y`, a separator, the month digits `ms`, a separator and the
      day digits `ds` that end their run: the date is read from `y`. */
  lemma YearFromDigits(text: string, y: nat, ys: string, ms: string, ds: string) returns (r: (nat, nat, nat))
    requires |ys| == 4 && AllDigits(ys) && 1 <= |ms| <= 2 && AllDigits(ms) && 1 <= |ds| <= 2 && AllDigits(ds)
    requires y + 6 + |ms| + |ds| <= |text|
    requires text[y..y + 4] == ys && IsDateSep(text[y + 4])
    requires text[y + 5..y + 5 + |ms|] == ms && IsDateSep(text[y + 5 + |ms|])
    requires text[y + 6 + |ms|..y + 6 + |ms| + |ds|] == ds
    requires |ds| == 2 || y + 6 + |ms| + |ds| == |text| || !IsDigit(text[y + 6 + |ms| + |ds|])
    ensures r == (DigitsValue(ys), DigitsValue(ms), DigitsValue(ds))
    ensures YearFrom(text, y) == Some(r)
  {
    DigitFieldsOf(text, y, ys, ms, ds);
    YearFromFields(text, y, |ms|, |ds|);
    r := (DigitField(text, y, y + 4), DigitField(text, y + 5, y + 5 + |ms|),
          DigitField(text, y + 6 + |ms|, y + 6 + |ms| + |ds|));
  }

  /** The digits at the year, month and day positions and their values. */
  lemma DigitFieldsOf(text: string, y: nat, ys: string, ms: string, ds: string)
    requires |ys| == 4 && AllDigits(ys) && AllDigits(ms) && AllDigits(ds)
    requires y + 6 + |ms| + |ds| <= |text|
    requires text[y..y + 4] == ys && text[y + 5..y + 5 + |ms|] == ms
    requires text[y + 6 + |ms|..y + 6 + |ms| + |ds|] == ds
    ensures forall k | y <= k < y + 4 :: IsDigit(text[k])
    ensures forall k | y + 5 <= k < y + 5 + |ms| :: IsDigit(text[k])
    ensures forall k | y + 6 + |ms| <= k < y + 6 + |ms| + |ds| :: IsDigit(text[k])
    ensures DigitField(text, y, y + 4) == DigitsValue(ys)
    ensures DigitField(text, y + 5, y + 5 + |ms|) == DigitsValue(ms)
    ensures DigitField(text, y + 6 + |ms|, y + 6 + |ms| + |ds|) == DigitsValue(ds)
  {
    DigitFieldOf(text, y, ys);
    DigitFieldOf(text, y + 5, ms);
    DigitFieldOf(text, y + 6 + |ms|, ds);
  }

  /** Four year digits at `y`, a separator, one or two month digits, a separator and one or
      two day digits that end their run: the date is read from those positions. */
  lemma YearFromFields(text: string, y: nat, lm: nat, ld: nat)
    requires 1 <= lm <= 2 && 1 <= ld <= 2 && y + 6 + lm + ld <= |text|
    requires forall k | y <= k < y + 4 :: IsDigit(text[k])
    requires forall k | y + 5 <= k < y + 5 + lm :: IsDigit(text[k])
    requires forall k | y + 6 + lm <= k < y + 6 + lm + ld :: IsDigit(text[k])
    requires IsDateSep(text[y + 4]) && IsDateSep(text[y + 5 + lm])
    requires ld == 2 || y + 6 + lm + ld == |text| || !IsDigit(text[y + 6 + lm + ld])
    ensures YearFrom(text, y) == Some((DigitField(text, y, y + 4), DigitField(text, y + 5, y + 5 + lm),
                                       DigitField(text, y + 6 + lm, y + 6 + lm + ld)))
  {
    MonthFromAt(text, y + 5, lm, y + 6 + lm, ld);
    YearFromAt(text, y, DigitField(text, y + 5, y + 5 + lm), DigitField(text, y + 6 + lm, y + 6 + lm + ld));
  }

  /** The first place where the pattern matches is what the search finds. */
  lemma FindIssueDateFirst(text: string, p: nat, r: (nat, nat, nat))
    requires p < |text| && IssueDateAt(text, p) == Some(r)
    requires forall q | 0 <= q < p :: IssueDateAt(text, q).None?
    ensures FindIssueDate(text, 0) == Some(r)
  {
    FindIssueDateSkips(text, 0, p);
  }

  /** The date found is read as local midnight, its month counted from 1. */
  lemma IssueDateOfFound(text: string, offset: int, y: nat, m: nat, d: nat)
    requires FindIssueDate(text, 0) == Some((y, m, d))
    ensures IssueDate(text, offset) == Some(LocalDate(y, m - 1, d, offset))
  {
  }

  /** The pattern at `p`, the first place where the marker occurs: the marker, white space
      up to the year digits `ys` at `y`, a separator, the month digits `ms`, a separator and
      the day digits `ds` that end their run, is what the search finds. */
  lemma IssueDateAtPositions(text: string, p: nat, y: nat, ys: string, ms: string, ds: string)
    requires |ys| == 4 && AllDigits(ys) && 1 <= |ms| <= 2 && AllDigits(ms) && 1 <= |ds| <= 2 && AllDigits(ds)
    requires p + |ISSUE_MARKER| <= y && y + 6 + |ms| + |ds| <= |text|
    requires OccursAt(text, ISSUE_MARKER, p) && forall q | 0 <= q < p :: !OccursAt(text, ISSUE_MARKER, q)
    requires forall k | p + |ISSUE_MARKER| <= k < y :: IsSpace(text[k])
    requires text[y..y + 4] == ys && IsDateSep(text[y + 4])
    requires text[y + 5..y + 5 + |ms|] == ms && IsDateSep(text[y + 5 + |ms|])
    requires text[y + 6 + |ms|..y + 6 + |ms| + |ds|] == ds
    requires |ds| == 2 || y + 6 + |ms| + |ds| == |text| || !IsDigit(text[y + 6 + |ms| + |ds|])
    ensures FindIssueDate(text, 0) == Some((DigitsValue(ys), DigitsValue(ms), DigitsValue(ds)))
  {
    var r := YearFromDigits(text, y, ys, ms, ds);
    assert IsDigit(text[y]) by { DigitFieldOf(text, y, ys); }
    IssueDateAtYear(text, p, y);
    forall q | 0 <= q < p ensures IssueDateAt(text, q).None? {
    }
    FindIssueDateFirst(text, p, r);
  }

  /** A page text whose first marker is followed by white space, a four-digit year, a
      separator, one or two month digits, a separator and one or two day digits (not
      followed by a further digit) gives local midnight of that date, returned as `y`,
      `m` and `d`; the month is counted from 1, as the source's `- 1` expects. */
  lemma IssueDateReadsBack(text: string, pre: string, ws: string, ys: string, sep1: char, ms: string,
                           sep2: char, ds: string, rest: string, offset: int)
    returns (y: nat, m: nat, d: nat)
    requires text == pre + ISSUE_MARKER + ws + ys + [sep1] + ms + [sep2] + ds + rest
    requires forall q | 0 <= q < |pre| :: !OccursAt(text, ISSUE_MARKER, q)
    requires AllSpace(ws) && |ys| == 4 && AllDigits(ys) && IsDateSep(sep1) && IsDateSep(sep2)
    requires 1 <= |ms| <= 2 && AllDigits(ms) && 1 <= |ds| <= 2 && AllDigits(ds)
    requires |ds| == 2 || rest == [] || !IsDigit(rest[0])
    ensures y == DigitsValue(ys) && m == DigitsValue(ms) && d == DigitsValue(ds)
    ensures IssueDate(text, offset) == Some(LocalDate(y, m - 1, d, offset))
  {
    IssueTextHead(text, pre, ws, ys, sep1, ms, sep2, ds, rest);
    IssueTextTail(text, pre, ws, ys, sep1, ms, sep2, ds, rest);
    IssueDateAtPositions(text, |pre|, |pre| + |ISSUE_MARKER| + |ws|, ys, ms, ds);
    y, m, d := DigitsValue(ys), DigitsValue(ms), DigitsValue(ds);
    IssueDateOfFound(text, offset, y, m, d);
  }
}

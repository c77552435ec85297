/** The NewsNow adapter (`src/fetchers/newsnow.ts`): the source ids read out of the site's
    script bundle, the Juejin snowflake-id clock, and the mapping of the API's blocks to
    candidates. Fetching the page, the bundle and the API is left to the caller, which
    hands over the bundle text and the decoded blocks. */
module Newsnow {
  import opened Wrappers
  import opened Strings
  import opened Records
  import Dates
  import Text
  import Calendar
  import Scanner

  // ----- extractSourceIds -----

  /** The start of the sources object in the bundle. */
  const MARKER: string := "{v2ex:vL"

  /** The ids used when the bundle cannot be read. */
  const DEFAULT_SOURCE_IDS: seq<string> := ["hackernews", "producthunt", "github", "sspai", "juejin", "36kr"]

  /** Property names of a source's settings, which are not source ids. */
  const IGNORED: set<string> := {"name", "column", "home", "https", "color", "interval", "title", "type", "redirect", "desc"}

  /** `[a-zA-Z0-9_-]` */
  predicate IsKeyChar(c: char) {
    IsAsciiLetter(c) || IsDigit(c) || c == '_' || c == '-'
  }

  predicate AllKeyChars(k: string) {
    forall i | 0 <= i < |k| :: IsKeyChar(k[i])
  }

  /** The pattern `(['"]?)([a-zA-Z0-9_-]+)\1\s*:` tried at index `p`: the key it captures
      and the index after the match. The key run is maximal because what follows it must be
      the same quote, white space or a colon, none of them key characters; when the opening
      quote is present the unquoted alternative cannot match at `p` either. */
  function KeyMatchAt(t: string, p: nat): (r: Option<(string, nat)>)
    requires p < |t|
    ensures r.Some? ==> p + 2 <= r.value.1 <= |t| && t[r.value.1 - 1] == ':'
    ensures r.Some? ==> r.value.0 != [] && AllKeyChars(r.value.0)
  {
    var quoted := t[p] == '\'' || t[p] == '"';
    var ks := if quoted then p + 1 else p;
    var ke := RunEnd(t, ks, IsKeyChar);
    if ke == ks then None
    else if quoted && !(ke < |t| && t[ke] == t[p]) then None
    else
      var w := RunEnd(t, if quoted then ke + 1 else ke, IsSpace);
      if w < |t| && t[w] == ':' then Some((t[ks..ke], w + 1)) else None
  }

  /** Every match of the pattern from index `p` on, as `matchAll` finds them: leftmost
      first, the search resuming after each match. */
  function KeysFrom(t: string, p: nat): (keys: seq<string>)
    ensures forall i | 0 <= i < |keys| :: keys[i] != [] && AllKeyChars(keys[i])
    decreases |t| - p
  {
    if p >= |t| then []
    else match KeyMatchAt(t, p)
      case Some(m) => [m.0] + KeysFrom(t, m.1)
      case None => KeysFrom(t, p + 1)
  }

  /** The index of the first occurrence of `x` in `s`, or `|s|`. */
  function FirstIndex<T(==)>(s: seq<T>, x: T): (r: nat)
    ensures r <= |s|
    ensures r < |s| <==> x in s
    ensures r < |s| ==> s[r] == x && x !in s[..r]
    decreases |s|
  {
    if s == [] then 0
    else
      var init := s[..|s| - 1];
      if x in init then FirstIndex(init, x)
      else if s[|s| - 1] == x then |s| - 1
      else |s|
  }

  /** The id loop: every key not ignored, once, in order of first occurrence. */
  function SourceIdsOf(keys: seq<string>): (r: seq<string>)
    decreases |keys|
  {
    if keys == [] then []
    else
      var prev := SourceIdsOf(keys[..|keys| - 1]);
      var k := keys[|keys| - 1];
      if k in IGNORED || k in prev then prev else prev + [k]
  }

  /** The ids are exactly the keys that are not ignored, each once. */
  lemma {:induction false} SourceIdsMembers(keys: seq<string>)
    ensures forall i | 0 <= i < |SourceIdsOf(keys)| :: SourceIdsOf(keys)[i] in keys && SourceIdsOf(keys)[i] !in IGNORED
    ensures forall k :: k in SourceIdsOf(keys) <==> k in keys && k !in IGNORED
    ensures Sorting.AllDistinct(SourceIdsOf(keys))
    decreases |keys|
  {
    if keys != [] {
      var init := keys[..|keys| - 1];
      SourceIdsMembers(init);
      assert keys == init + [keys[|keys| - 1]];
    }
  }

  /** The ids come in the order of their first occurrence among the keys. */
  lemma {:induction false} SourceIdsOrder(keys: seq<string>)
    ensures forall i, j | 0 <= i < j < |SourceIdsOf(keys)| ::
      FirstIndex(keys, SourceIdsOf(keys)[i]) < FirstIndex(keys, SourceIdsOf(keys)[j])
    decreases |keys|
  {
    if keys != [] {
      var init := keys[..|keys| - 1];
      var k := keys[|keys| - 1];
      var prev := SourceIdsOf(init);
      SourceIdsOrder(init);
      SourceIdsMembers(init);
      var r := SourceIdsOf(keys);
      forall i, j | 0 <= i < j < |r| ensures FirstIndex(keys, r[i]) < FirstIndex(keys, r[j]) {
        assert r[i] == prev[i] && r[i] in init;
        if j < |prev| {
          assert r[j] == prev[j] && r[j] in init;
        } else {
          assert r[j] == k && k !in init;
        }
      }
    }
  }

  /** What `extractSourceIds(js)` returns: the ids of the object that opens at the marker
      and closes at the brace taking the depth back to 0, or the defaults when the marker
      is missing or the object never closes. */
  function SourceIdsSpec(js: string): (r: seq<string>) {
    var start := IndexOf(js, MARKER);
    if start == -1 then DEFAULT_SOURCE_IDS
    else match Scanner.CloseFrom(js, start, Scanner.Start(0), '{', '}')
      case None => DEFAULT_SOURCE_IDS
      case Some(e) => SourceIdsOf(KeysFrom(js[start..e + 1], 0))
  }

  /** The defaults come back when the bundle has no marker, or when no brace after it
      brings the depth back to 0 outside strings. */
  lemma SourceIdsDefaults(js: string)
    ensures !Contains(js, MARKER) ==> SourceIdsSpec(js) == DEFAULT_SOURCE_IDS
    ensures (Contains(js, MARKER)
             && Scanner.CloseFrom(js, IndexOf(js, MARKER), Scanner.Start(0), '{', '}').None?) ==>
      (SourceIdsSpec(js) == DEFAULT_SOURCE_IDS
       && forall j | IndexOf(js, MARKER) <= j < |js| ::
         !Scanner.Closes(Scanner.Run(js[IndexOf(js, MARKER)..j], Scanner.Start(0), '{', '}'), js[j], '{', '}'))
  {
    if Contains(js, MARKER) {
      Scanner.CloseFromFirst(js, IndexOf(js, MARKER), Scanner.Start(0), '{', '}');
    }
  }

  /** When the object closes at `e`, that is the first brace bringing the depth back to 0
      outside strings, and the ids are distinct keys of the object, none of them ignored,
      in order of first occurrence. */
  lemma SourceIdsFound(js: string, e: nat)
    requires Contains(js, MARKER)
    requires Scanner.CloseFrom(js, IndexOf(js, MARKER), Scanner.Start(0), '{', '}') == Some(e)
    ensures var start := IndexOf(js, MARKER);
      js[e] == '}'
      && Scanner.Closes(Scanner.Run(js[start..e], Scanner.Start(0), '{', '}'), js[e], '{', '}')
      && forall j | start <= j < e ::
        !Scanner.Closes(Scanner.Run(js[start..j], Scanner.Start(0), '{', '}'), js[j], '{', '}')
    ensures var keys := KeysFrom(js[IndexOf(js, MARKER)..e + 1], 0);
      var ids := SourceIdsSpec(js);
      Sorting.AllDistinct(ids)
      && (forall k :: k in ids <==> k in keys && k !in IGNORED)
      && (forall i, j | 0 <= i < j < |ids| :: FirstIndex(keys, ids[i]) < FirstIndex(keys, ids[j]))
  {
    var start := IndexOf(js, MARKER);
    Scanner.CloseFromFirst(js, start, Scanner.Start(0), '{', '}');
    var keys := KeysFrom(js[start..e + 1], 0);
    assert SourceIdsSpec(js) == SourceIdsOf(keys);
    SourceIdsMembers(keys);
    SourceIdsOrder(keys);
  }

  /** `extractSourceIds(js)`: the scan, then the id loop over the keys the pattern finds. */
  method ExtractSourceIds(js: string) returns (ids: seq<string>)
    ensures ids == SourceIdsSpec(js)
  {
    var start := IndexOf(js, MARKER);
    if start == -1 {
      return DEFAULT_SOURCE_IDS;
    }
    var end := Scanner.ScanClose(js, start, 0, '{', '}');
    if end.None? {
      return DEFAULT_SOURCE_IDS;
    }
    var obj := js[start..end.value + 1];
    var allKeys := KeysFrom(obj, 0);
    ids := [];
    var i := 0;
    while i < |allKeys|
      invariant 0 <= i <= |allKeys|
      invariant ids == SourceIdsOf(allKeys[..i])
    {
      assert allKeys[..i + 1][..i] == allKeys[..i];
      var key := allKeys[i];
      if key !in IGNORED && key !in ids {
        ids := ids + [key];
      }
      i := i + 1;
    }
    assert allKeys[..i] == allKeys;
  }

  // ----- parseJuejinId -----

  /** The epoch offset of Juejin's snowflake ids, in milliseconds. */
  const JUEJIN_SNOWFLAKE_EPOCH: int := -42416499549

  /** `2^22`: the id's low 22 bits are not part of the time. */
  const SNOWFLAKE_SHIFT: nat := 4194304

  /** `/^\d{18,20}$/` */
  predicate IsSnowflakeText(id: string) {
    18 <= |id| <= 20 && AllDigits(id)
  }

  /** `parseJuejinId(id, now)`: the time in the id's high bits, when the id is 18 to 20
      digits and that time lies between 30 days before and one day after `now`. */
  function ParseJuejinId(id: Option<string>, now: int): (r: Option<int>)
    ensures r.Some? ==> id.Some? && IsSnowflakeText(id.value)
    ensures r.Some? ==> now - 30 * Calendar.DAY <= r.value <= now + Calendar.DAY
  {
    if id.None? || !IsSnowflakeText(id.value) then None
    else
      var t := DigitsValue(id.value) / SNOWFLAKE_SHIFT + JUEJIN_SNOWFLAKE_EPOCH;
      if t > now + Calendar.DAY then None
      else if t < now - 30 * Calendar.DAY then None
      else Some(t)
  }

  /** An id built from a time in the window and any low 22 bits decodes to that time. */
  lemma JuejinIdRoundTrip(t: int, low: nat, now: int)
    requires t >= JUEJIN_SNOWFLAKE_EPOCH && low < SNOWFLAKE_SHIFT
    requires var n := (t - JUEJIN_SNOWFLAKE_EPOCH) * SNOWFLAKE_SHIFT + low; 18 <= |NatToString(n)| <= 20
    requires now - 30 * Calendar.DAY <= t <= now + Calendar.DAY
    ensures ParseJuejinId(Some(NatToString((t - JUEJIN_SNOWFLAKE_EPOCH) * SNOWFLAKE_SHIFT + low)), now) == Some(t)
  {
    var n := (t - JUEJIN_SNOWFLAKE_EPOCH) * SNOWFLAKE_SHIFT + low;
    NatToStringValue(n);
    assert n / SNOWFLAKE_SHIFT == t - JUEJIN_SNOWFLAKE_EPOCH;
  }

  /** Ids outside the window are refused even when well formed. */
  lemma JuejinIdOutsideWindow(id: string, now: int)
    requires IsSnowflakeText(id)
    requires var t := DigitsValue(id) / SNOWFLAKE_SHIFT + JUEJIN_SNOWFLAKE_EPOCH;
      t > now + Calendar.DAY || t < now - 30 * Calendar.DAY
    ensures ParseJuejinId(Some(id), now).None?
  {
  }

  // ----- fetch: blocks to candidates -----

  const SITE_ID: string := "newsnow"
  const SITE_NAME: string := "NewsNow"

  /** One entry of a block (`NewsNowItem`); the dates are given as `parseDate` inputs, an
      absent one as `NoValue`. */
  datatype Item = Item(id: Option<string>, title: Option<string>, url: Option<string>,
                       pubDate: Dates.DateInput, extraDate: Dates.DateInput)

  /** One source's block of entries (`NewsNowBlock`). */
  datatype Block = Block(id: Option<string>, title: Option<string>, name: Option<string>,
                         desc: Option<string>, items: seq<Item>)

  /** `String(block.id || 'unknown')` */
  function SourceId(b: Block): string {
    if b.id.Some? && b.id.value != "" then b.id.value else "unknown"
  }

  /** `sourceTitle !== sid ? `${sourceTitle} (${sid})` : sid` */
  function SourceLabel(b: Block): (r: string) {
    var sid := SourceId(b);
    var sourceTitle := Text.FirstNonEmpty([b.title, b.name, b.desc, Some(sid)]);
    if sourceTitle != sid then sourceTitle + " (" + sid + ")" else sid
  }

  /** A block whose title, name and description are all blank is labelled by its id alone
      (when the id is already trimmed); a block with a title other than the id is labelled
      "<title> (<id>)". */
  lemma SourceLabelCases(b: Block)
    ensures Text.Blank(b.title) && Text.Blank(b.name) && Text.Blank(b.desc) && Trim(SourceId(b)) == SourceId(b)
      ==> SourceLabel(b) == SourceId(b)
    ensures !Text.Blank(b.title) && Trim(b.title.value) != SourceId(b)
      ==> SourceLabel(b) == Trim(b.title.value) + " (" + SourceId(b) + ")"
  {
    var vs := [b.title, b.name, b.desc, Some(SourceId(b))];
    if Text.Blank(b.title) && Text.Blank(b.name) && Text.Blank(b.desc) && Trim(SourceId(b)) == SourceId(b) {
      assert Text.FirstNonEmptyIndex(vs) == 3 by {
        assert Text.FirstNonEmptyIndex(vs[3..]) == 0 by {
          assert SourceId(b) != [];
        }
        assert vs[1..][1..][1..] == vs[3..];
      }
    }
    if !Text.Blank(b.title) {
      assert Text.FirstNonEmptyIndex(vs) == 0;
    }
  }

  /** A JavaScript value's truthiness, for the `entry.extra?.date` test. */
  predicate Truthy(v: Dates.DateInput) {
    match v
    case NoValue => false
    case DateObject(_) => true
    case Number(n) => n != Dates.NaN && n != Dates.Finite(0.0)
    case Text(s) => s != ""
  }

  /** The published time: `pubDate`, else `extra.date`, else (for Juejin entries with an
      id) the time in the id. */
  function PublishedAt(entry: Item, sid: string, now: int, offset: int, general: Dates.GeneralParser): Option<int> {
    var fromPub := Dates.ParseDate(entry.pubDate, now, offset, general);
    if fromPub.Some? then fromPub
    else
      var fromExtra := if Truthy(entry.extraDate) then Dates.ParseDate(entry.extraDate, now, offset, general) else None;
      if fromExtra.Some? then fromExtra
      else if sid == "juejin" && entry.id.Some? && entry.id.value != "" then ParseJuejinId(entry.id, now)
      else None
  }

  /** The chain in order: a parseable `pubDate` wins; only Juejin entries ever fall back to
      their id, and that time is always within the window. */
  lemma PublishedAtOrder(entry: Item, sid: string, now: int, offset: int, general: Dates.GeneralParser)
    ensures Dates.ParseDate(entry.pubDate, now, offset, general).Some?
      ==> PublishedAt(entry, sid, now, offset, general) == Dates.ParseDate(entry.pubDate, now, offset, general)
    ensures sid != "juejin" && PublishedAt(entry, sid, now, offset, general).Some? ==>
      PublishedAt(entry, sid, now, offset, general) == Dates.ParseDate(entry.pubDate, now, offset, general)
      || PublishedAt(entry, sid, now, offset, general) == Dates.ParseDate(entry.extraDate, now, offset, general)
    ensures var t := PublishedAt(entry, sid, now, offset, general);
      t.Some? && Dates.ParseDate(entry.pubDate, now, offset, general).None?
      && (!Truthy(entry.extraDate) || Dates.ParseDate(entry.extraDate, now, offset, general).None?)
      ==> now - 30 * Calendar.DAY <= t.value <= now + Calendar.DAY
  {
  }

  /** The candidate for one entry, when its trimmed title and URL are both non-empty. */
  function ItemOut(entry: Item, sourceLabel: string, sid: string, now: int, offset: int, general: Dates.GeneralParser): Option<RawItem> {
    var title := Trim(entry.title.GetOr(""));
    var url := Trim(entry.url.GetOr(""));
    if title == [] || url == [] then None
    else Some(RawItem(SITE_ID, SITE_NAME, sourceLabel, title, url, PublishedAt(entry, sid, now, offset, general)))
  }

  /** The candidate function of one block. */
  function ItemOutFn(sourceLabel: string, sid: string, now: int, offset: int, general: Dates.GeneralParser): Item -> Option<RawItem> {
    entry => ItemOut(entry, sourceLabel, sid, now, offset, general)
  }

  /** The candidates of a block's entries, in order. */
  function BlockItems(items: seq<Item>, sourceLabel: string, sid: string, now: int, offset: int,
                      general: Dates.GeneralParser): seq<RawItem> {
    Sorting.FilterMap(items, ItemOutFn(sourceLabel, sid, now, offset, general))
  }

  /** The candidates of all blocks, block by block. */
  function AllItems(blocks: seq<Block>, now: int, offset: int, general: Dates.GeneralParser): (r: seq<RawItem>)
    decreases |blocks|
  {
    if blocks == [] then []
    else
      var b := blocks[|blocks| - 1];
      AllItems(blocks[..|blocks| - 1], now, offset, general)
        + BlockItems(b.items, SourceLabel(b), SourceId(b), now, offset, general)
  }

  /** A block's candidates are its entries with a non-blank trimmed title and URL, one
      each, in order, carrying the trimmed title and URL, the block's label and the chain's
      time. */
  lemma BlockItemsComplete(items: seq<Item>, sourceLabel: string, sid: string, now: int,
                           offset: int, general: Dates.GeneralParser)
    ensures var r := BlockItems(items, sourceLabel, sid, now, offset, general);
      forall k | 0 <= k < |r| :: exists i | 0 <= i < |items| ::
        r[k] == RawItem(SITE_ID, SITE_NAME, sourceLabel, Trim(items[i].title.GetOr("")), Trim(items[i].url.GetOr("")),
                        PublishedAt(items[i], sid, now, offset, general))
        && r[k].title != [] && r[k].url != []
    ensures forall i | 0 <= i < |items| && Trim(items[i].title.GetOr("")) != [] && Trim(items[i].url.GetOr("")) != [] ::
      RawItem(SITE_ID, SITE_NAME, sourceLabel, Trim(items[i].title.GetOr("")), Trim(items[i].url.GetOr("")),
              PublishedAt(items[i], sid, now, offset, general)) in BlockItems(items, sourceLabel, sid, now, offset, general)
    ensures |BlockItems(items, sourceLabel, sid, now, offset, general)|
      == Sorting.Count(items, Sorting.Yields(ItemOutFn(sourceLabel, sid, now, offset, general)))
  {
    var f := ItemOutFn(sourceLabel, sid, now, offset, general);
    Sorting.FilterMapMembers(items, f);
    var r := BlockItems(items, sourceLabel, sid, now, offset, general);
    forall k | 0 <= k < |r| ensures exists i | 0 <= i < |items| ::
        r[k] == RawItem(SITE_ID, SITE_NAME, sourceLabel, Trim(items[i].title.GetOr("")), Trim(items[i].url.GetOr("")),
                        PublishedAt(items[i], sid, now, offset, general))
        && r[k].title != [] && r[k].url != []
    {
      var i :| 0 <= i < |items| && f(items[i]) == Some(r[k]);
    }
    forall i | 0 <= i < |items| && Trim(items[i].title.GetOr("")) != [] && Trim(items[i].url.GetOr("")) != []
      ensures RawItem(SITE_ID, SITE_NAME, sourceLabel, Trim(items[i].title.GetOr("")), Trim(items[i].url.GetOr("")),
              PublishedAt(items[i], sid, now, offset, general)) in r
    {
      assert f(items[i]).Some?;
    }
  }

  /** The inner loop of `fetch`: one block's entries. */
  method BlockEntries(items: seq<Item>, sourceLabel: string, sid: string, now: int, offset: int,
                      general: Dates.GeneralParser) returns (out: seq<RawItem>)
    ensures out == BlockItems(items, sourceLabel, sid, now, offset, general)
  {
    out := [];
    var j := 0;
    while j < |items|
      invariant 0 <= j <= |items|
      invariant out == BlockItems(items[..j], sourceLabel, sid, now, offset, general)
    {
      assert items[..j + 1][..j] == items[..j];
      var entry := items[j];
      assert BlockItems(items[..j + 1], sourceLabel, sid, now, offset, general)
        == Sorting.FilterMap(items[..j], ItemOutFn(sourceLabel, sid, now, offset, general))
           + (match ItemOut(entry, sourceLabel, sid, now, offset, general) case None => [] case Some(x) => [x]);
      var title := Trim(entry.title.GetOr(""));
      var url := Trim(entry.url.GetOr(""));
      if title != [] && url != [] {
        var publishedAt := PublishedAt(entry, sid, now, offset, general);
        out := out + [RawItem(SITE_ID, SITE_NAME, sourceLabel, title, url, publishedAt)];
      }
      j := j + 1;
    }
    assert items[..j] == items;
  }

  /** The loop of `fetch` over the blocks and their entries. */
  method FetchItems(blocks: seq<Block>, now: int, offset: int, general: Dates.GeneralParser)
    returns (items: seq<RawItem>)
    ensures items == AllItems(blocks, now, offset, general)
  {
    items := [];
    var b := 0;
    while b < |blocks|
      invariant 0 <= b <= |blocks|
      invariant items == AllItems(blocks[..b], now, offset, general)
    {
      var block := blocks[b];
      assert blocks[..b + 1][..b] == blocks[..b];
      var blockItems := BlockEntries(block.items, SourceLabel(block), SourceId(block), now, offset, general);
      items := items + blockItems;
      b := b + 1;
    }
    assert blocks[..b] == blocks;
  }
}

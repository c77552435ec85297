/** The AI今日热榜 adapter (`src/fetchers/aihot.ts`): the React Server Components flight
    chunks embedded in the page, the two JSON values cut out of them by a balanced-bracket
    scan, and the mapping of the hot lists to candidates. Fetching the page, `JSON.parse`
    and the `__NEXT_DATA__` fallback's own parsing are parameters. */
module Aihot {
  import opened Wrappers
  import opened Strings
  import opened Sorting
  import opened OrderedMaps
  import opened Scanner
  import opened Records
  import Text
  import Dates

  // ----- extractNextFMerged -----

  /** The text in front of a chunk's payload, `self.__next_f.push([1,"`. */
  const PUSH_OPEN: string := "self.__next_f.push([1,\""

  /** The text after it, `"])</script>`. */
  const PUSH_CLOSE: string := "\"])</script>"

  /** One match of the chunk pattern: where it starts, and where its closing text starts.
      The captured payload lies between the two. */
  datatype Match = Match(start: nat, close: nat)

  /** `m` is a match in `s`: the opening text at `start`, the closing text at `close`, and
      (the capture `.*?` being lazy) no closing text anywhere in between. */
  predicate IsMatch(s: string, m: Match) {
    OccursAt(s, PUSH_OPEN, m.start) && m.start + |PUSH_OPEN| <= m.close
    && OccursAt(s, PUSH_CLOSE, m.close)
    && forall j | m.start + |PUSH_OPEN| <= j < m.close :: !OccursAt(s, PUSH_CLOSE, j)
  }

  /** A match starting exactly at `i`. */
  function MatchAt(s: string, i: nat): (r: Option<Match>)
    ensures r.Some? ==> r.value.start == i && IsMatch(s, r.value)
    ensures r.None? ==> !OccursAt(s, PUSH_OPEN, i) || forall j | i + |PUSH_OPEN| <= j :: !OccursAt(s, PUSH_CLOSE, j)
  {
    if !OccursAt(s, PUSH_OPEN, i) then None
    else
      var e := IndexOfFrom(s, PUSH_CLOSE, i + |PUSH_OPEN|);
      if e < 0 then None else Some(Match(i, e))
  }

  /** The leftmost match starting at or after `p`. */
  function NextMatch(s: string, p: nat): (r: Option<Match>)
    ensures r.Some? ==> p <= r.value.start && IsMatch(s, r.value)
    ensures r.Some? ==> forall i | p <= i < r.value.start :: MatchAt(s, i).None?
    ensures r.None? ==> forall i | p <= i :: MatchAt(s, i).None?
    decreases |s| - p
  {
    if p + |PUSH_OPEN| > |s| then None
    else match MatchAt(s, p)
      case Some(m) => Some(m)
      case None => NextMatch(s, p + 1)
  }

  /** `s.match(pattern/g)` from index `p`: the matches left to right, each search going on
      after the end of the previous match. */
  function Matches(s: string, p: nat): (r: seq<Match>)
    ensures forall k | 0 <= k < |r| :: IsMatch(s, r[k]) && p <= r[k].start
    ensures forall k | 0 <= k < |r| - 1 :: r[k].close + |PUSH_CLOSE| <= r[k + 1].start
    decreases |s| - p
  {
    match NextMatch(s, p)
    case None => []
    case Some(m) => [m] + Matches(s, m.close + |PUSH_CLOSE|)
  }

  /** The text of a match (one element of `chunks`). */
  function ChunkOf(s: string, m: Match): string
    requires IsMatch(s, m)
  {
    s[m.start..m.close + |PUSH_CLOSE|]
  }

  /** The captured payload of a match. */
  function CaptureOf(s: string, m: Match): string
    requires IsMatch(s, m)
  {
    s[m.start + |PUSH_OPEN|..m.close]
  }

  /** `chunk.match(pattern)` re-run on one chunk: its first group, or "" without a match. */
  function Recapture(chunk: string): string {
    match NextMatch(chunk, 0)
    case None => ""
    case Some(m) => CaptureOf(chunk, m)
  }

  /** The chunks of the page, in page order. */
  function Chunks(html: string): (r: seq<string>)
    ensures |r| == |Matches(html, 0)|
  {
    var ms := Matches(html, 0);
    seq(|ms|, k requires 0 <= k < |ms| => ChunkOf(html, ms[k]))
  }

  /** The page's payloads joined, before the JSON string decoding. */
  function MergedChunks(html: string): string {
    Join(MapSeq(Chunks(html), Recapture), "")
  }

  /** `JSON.parse` of a JSON string literal: the decoded text, or `None` when it throws. */
  type JsonStringParser = string -> Option<string>

  /** The fallback when decoding throws: `\"` becomes `"`, then `\\` becomes `\`. */
  function Unescaped(merged: string): string {
    ReplaceAll(ReplaceAll(merged, "\\\"", "\""), "\\\\", "\\")
  }

  /** `extractNextFMerged(html)` */
  function ExtractNextFMerged(html: string, decode: JsonStringParser): string {
    if Chunks(html) == [] then ""
    else
      var merged := MergedChunks(html);
      match decode("\"" + merged + "\"")
      case Some(text) => text
      case None => Unescaped(merged)
  }

  /** Re-matching a chunk finds the same payload: the chunk starts with the opening text
      and its first closing text is the one that ended the match. */
  lemma {:induction false} RecaptureOfChunk(s: string, m: Match)
    requires IsMatch(s, m)
    ensures Recapture(ChunkOf(s, m)) == CaptureOf(s, m)
  {
    ChunkFirstMatch(s, m);
    SliceOfSlice(s, m.start, m.close + |PUSH_CLOSE|, |PUSH_OPEN|, m.close - m.start);
  }

  /** The first match in a chunk is the whole chunk. */
  lemma ChunkFirstMatch(s: string, m: Match)
    requires IsMatch(s, m)
    ensures NextMatch(ChunkOf(s, m), 0) == Some(Match(0, m.close - m.start))
  {
    var end := m.close + |PUSH_CLOSE|;
    var c := ChunkOf(s, m);
    var e := m.close - m.start;
    OccursInSlice(s, PUSH_OPEN, m.start, end, 0);
    OccursInSlice(s, PUSH_CLOSE, m.start, end, e);
    forall j | |PUSH_OPEN| <= j < e ensures !OccursAt(c, PUSH_CLOSE, j) {
      OccursInSlice(s, PUSH_CLOSE, m.start, end, j);
    }
    assert IndexOfFrom(c, PUSH_CLOSE, |PUSH_OPEN|) == e;
  }

  /** No chunk gives "", and otherwise the decoded text (or its fallback) of the payloads
      captured in page order, joined without a separator. */
  lemma {:induction false} NextFMergedIsCaptures(html: string, decode: JsonStringParser)
    ensures Matches(html, 0) == [] ==> ExtractNextFMerged(html, decode) == ""
    ensures var ms := Matches(html, 0);
      var merged := Join(seq(|ms|, k requires 0 <= k < |ms| => CaptureOf(html, ms[k])), "");
      ms != [] ==> (ExtractNextFMerged(html, decode)
        == if decode("\"" + merged + "\"").Some? then decode("\"" + merged + "\"").value else Unescaped(merged))
  {
    var ms := Matches(html, 0);
    var caps := seq(|ms|, k requires 0 <= k < |ms| => CaptureOf(html, ms[k]));
    var recaps := MapSeq(Chunks(html), Recapture);
    forall k | 0 <= k < |ms| ensures recaps[k] == caps[k] {
      RecaptureOfChunk(html, ms[k]);
    }
    assert recaps == caps;
  }

  /** A payload without backslashes survives the fallback unchanged. */
  lemma {:induction false} UnescapedPlain(merged: string)
    requires !Contains(merged, "\\")
    ensures Unescaped(merged) == merged
  {
    forall i | 0 <= i <= |merged| - 2 ensures !OccursAt(merged, "\\\"", i) && !OccursAt(merged, "\\\\", i) {
      assert merged[i..i + 1] == merged[i..i + 2][..1];
      assert !OccursAt(merged, "\\", i);
    }
    ReplaceAllAbsent(merged, "\\\"", "\"");
    ReplaceAllAbsent(merged, "\\\\", "\\");
  }

  // ----- extractBalancedJson -----

  const KEY_NOT_FOUND: string := "Key not found: "
  const NO_BALANCED_CLOSE: string := "Cannot parse JSON for key: "

  predicate NotColon(c: char) { c != ':' }
  predicate NotBracket(c: char) { c != '{' && c != '[' }

  /** `openCh === '{' ? '}' : ']'` */
  function CloserOf(open: char): char {
    if open == '{' then '}' else ']'
  }

  /** Where the snippet starts: the first `{` or `[` after the first `:` after the key's
      first occurrence at `idx`; `|s|` when there is none. */
  function SnippetStart(s: string, key: string, idx: nat): (start: nat)
    requires idx + |key| <= |s|
    ensures start <= |s|
  {
    var colon := RunEnd(s, idx + |key|, NotColon);
    if colon < |s| then RunEnd(s, colon + 1, NotBracket) else |s|
  }

  /** The snippet of `s` for `key` as `[start, end)`, or `None` when it has none. */
  function SnippetSpan(s: string, key: string): (r: Option<(nat, nat)>)
    ensures r.Some? ==> r.value.0 < r.value.1 <= |s|
  {
    var idx := IndexOf(s, key);
    if idx < 0 then None
    else
      var start := SnippetStart(s, key, idx);
      if start >= |s| then None
      else match CloseFrom(s, start, Start(0), s[start], CloserOf(s[start]))
        case None => None
        case Some(e) => Some((start, e + 1))
  }

  /** `$undefined` becomes `null`, then every `"$D…"` string becomes `"…"`. */
  function Cleaned(snippet: string): string {
    DateMarkersStripped(ReplaceAll(snippet, "$undefined", "null"))
  }

  predicate NotQuote(c: char) { c != '"' }

  /** `s.replace(/"\$D([^"]+)"/g, '"$1"')`: at each position, a quote, "$D", a non-empty run
      of non-quotes and a quote lose the "$D"; scanning goes on after the closing quote,
      and one position further when there is no match. */
  function DateMarkersStripped(s: string): (r: string)
    decreases |s|
  {
    if s == [] then []
    else if |s| >= 3 && s[..3] == "\"$D" then
      var k := RunEnd(s, 3, NotQuote);
      if 3 < k < |s| then "\"" + s[3..k] + "\"" + DateMarkersStripped(s[k + 1..])
      else [s[0]] + DateMarkersStripped(s[1..])
    else [s[0]] + DateMarkersStripped(s[1..])
  }

  /** `JSON.parse` of a snippet into the shape the caller expects, or the error it throws. */
  type JsonParser<J> = string -> Result<J>

  /** `extractBalancedJson(decoded, key)` */
  function BalancedJsonSpec<J>(s: string, key: string, parse: JsonParser<J>): (r: Result<J>)
    ensures !Contains(s, key) ==> r == Err(KEY_NOT_FOUND + key)
    ensures Contains(s, key) && SnippetSpan(s, key).None? ==> r == Err(NO_BALANCED_CLOSE + key)
    ensures SnippetSpan(s, key).Some? ==>
      r == parse(Cleaned(s[SnippetSpan(s, key).value.0..SnippetSpan(s, key).value.1]))
  {
    if !Contains(s, key) then Err(KEY_NOT_FOUND + key)
    else match SnippetSpan(s, key)
      case None => Err(NO_BALANCED_CLOSE + key)
      case Some((a, b)) => parse(Cleaned(s[a..b]))
  }

  /** The snippet starts at the first `{` or `[` after the first `:` after the key, ends
      at a closing bracket of the same kind, and is balanced in that kind: outside string
      literals the depth stays positive inside it and returns to 0 at its last character. */
  lemma {:induction false} SnippetShape(s: string, key: string)
    requires SnippetSpan(s, key).Some?
    ensures var (a, b) := SnippetSpan(s, key).value;
      var after := IndexOf(s, key) + |key|;
      Contains(s, key)
      && (exists colon | after <= colon < a ::
            s[colon] == ':'
            && (forall j | after <= j < colon :: s[j] != ':')
            && (forall j | colon < j < a :: s[j] != '{' && s[j] != '['))
      && (s[a] == '{' || s[a] == '[')
      && s[b - 1] == CloserOf(s[a])
      && (forall j | a < j < b :: Run(s[a..j], Start(0), s[a], CloserOf(s[a])).depth >= 1)
      && Run(s[a..b], Start(0), s[a], CloserOf(s[a])).depth == 0
  {
    var idx := IndexOf(s, key);
    var (a, b) := SnippetSpan(s, key).value;
    var open, close := s[a], CloserOf(s[a]);
    var colon := RunEnd(s, idx + |key|, NotColon);
    assert colon < |s| && s[colon] == ':' && colon < a;
    assert open != '"' && open != close;
    CloseFromOpen(s, a, open, close);
  }

  /** The key is missing, or the scan finds no `:`, no bracket, or no balanced close:
      exactly the two errors, and nothing else fails before `JSON.parse`. */
  lemma {:induction false} NoSnippetCases(s: string, key: string)
    requires IndexOf(s, key) >= 0 && SnippetSpan(s, key).None?
    ensures var after := IndexOf(s, key) + |key|;
      (forall j | after <= j < |s| :: s[j] != ':')
      || (exists colon | after <= colon < |s| ::
            s[colon] == ':' && forall j | colon < j < |s| :: s[j] != '{' && s[j] != '[')
      || (exists a | after < a < |s| :: (s[a] == '{' || s[a] == '[')
            && CloseFrom(s, a, Start(0), s[a], CloserOf(s[a])).None?)
  {
    var after := IndexOf(s, key) + |key|;
    var colon := RunEnd(s, after, NotColon);
    if colon < |s| {
      var a := RunEnd(s, colon + 1, NotBracket);
      if a < |s| {
        assert after < a && (s[a] == '{' || s[a] == '[') && CloseFrom(s, a, Start(0), s[a], CloserOf(s[a])).None?;
      } else {
        assert after <= colon < |s| && s[colon] == ':' && forall j | colon < j < |s| :: s[j] != '{' && s[j] != '[';
      }
    }
  }


  /** The text outside any date marker passes through: without "$D" nothing changes. */
  lemma {:induction false} DateMarkersAbsent(s: string)
    requires !Contains(s, "$D")
    ensures DateMarkersStripped(s) == s
    decreases |s|
  {
    if s != [] {
      if |s| >= 3 {
        assert !OccursAt(s, "$D", 1);
        assert s[1..3] == s[..3][1..];
      }
      forall i | 0 <= i <= |s| - 1 - 2 ensures !OccursAt(s[1..], "$D", i) {
        assert s[1..][i..i + 2] == s[i + 1..i + 3];
        assert !OccursAt(s, "$D", i + 1);
      }
      DateMarkersAbsent(s[1..]);
      assert [s[0]] + s[1..] == s;
    }
  }

  /** A date marker loses its "$D" and keeps its quotes; the rest is scanned after it. */
  lemma {:induction false} DateMarkerStripped(v: string, rest: string)
    requires v != [] && forall i | 0 <= i < |v| :: v[i] != '"'
    ensures DateMarkersStripped("\"$D" + v + "\"" + rest) == "\"" + v + "\"" + DateMarkersStripped(rest)
  {
    var s := "\"$D" + v + "\"" + rest;
    assert s[..3] == "\"$D";
    assert forall i | 3 <= i < 3 + |v| :: s[i] == v[i - 3];
    assert s[3 + |v|] == '"';
    RunEndStopsAt(s, 3, 3 + |v|);
    assert s[3..3 + |v|] == v;
    assert s[3 + |v| + 1..] == rest;
  }

  /** The run of non-quotes from `i` ends at the first quote. */
  lemma {:induction false} RunEndStopsAt(s: string, i: nat, k: nat)
    requires i <= k < |s| && s[k] == '"' && forall j | i <= j < k :: s[j] != '"'
    ensures RunEnd(s, i, NotQuote) == k
    decreases k - i
  {
    if i < k {
      RunEndStopsAt(s, i + 1, k);
    }
  }

  /** The two while loops of `extractBalancedJson` that move `start` from the end of the
      key to the opening bracket. */
  method FindSnippetStart(decoded: string, key: string, idx: nat) returns (start: nat)
    requires idx + |key| <= |decoded|
    ensures start == SnippetStart(decoded, key, idx)
  {
    start := idx + |key|;
    while start < |decoded| && decoded[start] != ':'
      invariant idx + |key| <= start <= |decoded|
      invariant RunEnd(decoded, idx + |key|, NotColon) == RunEnd(decoded, start, NotColon)
      decreases |decoded| - start
    {
      start := start + 1;
    }
    if start == |decoded| {
      return |decoded|;
    }
    start := start + 1;
    var from := start;
    while start < |decoded| && decoded[start] != '{' && decoded[start] != '['
      invariant from <= start <= |decoded|
      invariant RunEnd(decoded, from, NotBracket) == RunEnd(decoded, start, NotBracket)
      decreases |decoded| - start
    {
      start := start + 1;
    }
  }

  /** `extractBalancedJson(decoded, key)`: the key search, the start, the bracket scan and
      the clean-up before `JSON.parse`. */
  method ExtractBalancedJson<J>(decoded: string, key: string, parse: JsonParser<J>) returns (r: Result<J>)
    ensures r == BalancedJsonSpec(decoded, key, parse)
  {
    var idx := IndexOf(decoded, key);
    if idx == -1 {
      return Err(KEY_NOT_FOUND + key);
    }
    var start := FindSnippetStart(decoded, key, idx);
    if start >= |decoded| {
      return Err(NO_BALANCED_CLOSE + key);
    }
    var openCh := decoded[start];
    var closeCh := CloserOf(openCh);
    var end := ScanClose(decoded, start, 0, openCh, closeCh);
    if end.None? {
      return Err(NO_BALANCED_CLOSE + key);
    }
    var snippet := decoded[start..end.value + 1];
    snippet := ReplaceAll(snippet, "$undefined", "null");
    snippet := DateMarkersStripped(snippet);
    r := parse(snippet);
  }

  // ----- fetch: the hot lists to candidates -----

  const SITE_ID: string := "aihot"
  const SITE_NAME: string := "AI今日热榜"
  const INITIAL_DATA_KEY: string := "initialDataMap"
  const DATA_SOURCES_KEY: string := "dataSources"

  /** One entry of a hot list (`AiHotItem`); the publish time is given as a `parseDate`
      input, an absent one as `NoValue`. */
  datatype HotItem = HotItem(title: Option<string>, titleTrans: Option<string>, link: Option<string>,
                             publishTime: Dates.DateInput)

  /** One entry of `dataSources` (`AiHotSource`). */
  datatype HotSource = HotSource(id: Option<string>, title: Option<string>)

  /** `initialDataMap` in `Object.entries` order: each source id with its list, or `None`
      when the value is not an array. */
  type DataMap = seq<(string, Option<seq<HotItem>>)>

  /** The `pageProps` of the `__NEXT_DATA__` script: `initialDataMap` when it is an object,
      `dataSources` when it is an array. */
  datatype PageProps = PageProps(initialDataMap: Option<DataMap>, dataSources: Option<seq<HotSource>>)

  /** What `sourceMap.set` records for one source: its id and its title, else its id. */
  function SourceEntry(): HotSource -> Option<(string, string)> {
    (src: HotSource) => if src.id.Some? && src.id.value != "" then Some((src.id.value, Text.OrText(src.title, src.id.value))) else None
  }

  /** `sourceMap` after its loop. */
  function SourceMapOf(sources: seq<HotSource>): map<string, string> {
    Tabulate(sources, SourceEntry())
  }

  /** The source name of a list: `maybeFixMojibake(sourceMap.get(sourceId) || sourceId)`. */
  function SourceName(m: map<string, string>, sourceId: string, reinterpret: Text.Latin1ToUtf8): string {
    Text.MaybeFixMojibake(if sourceId in m && m[sourceId] != "" then m[sourceId] else sourceId, reinterpret)
  }

  /** The title of an entry before the mojibake repair: `title_trans`, else `title`, trimmed. */
  function RawTitle(item: HotItem): string {
    Trim(Text.OrText(item.titleTrans, Text.OrText(item.title, "")))
  }

  /** The candidate for one entry, when its title and link are both non-empty; the time
      defaults to `now`. */
  function ItemOut(item: HotItem, sourceName: string, now: int, offset: int, general: Dates.GeneralParser,
                   reinterpret: Text.Latin1ToUtf8): Option<RawItem> {
    var title := Text.MaybeFixMojibake(RawTitle(item), reinterpret);
    var link := Trim(Text.OrText(item.link, ""));
    if title == [] || link == [] then None
    else Some(RawItem(SITE_ID, SITE_NAME, sourceName, title, link,
                      Some(Dates.ParseDate(item.publishTime, now, offset, general).GetOr(now))))
  }

  function ItemOutFn(sourceName: string, now: int, offset: int, general: Dates.GeneralParser,
                     reinterpret: Text.Latin1ToUtf8): HotItem -> Option<RawItem> {
    item => ItemOut(item, sourceName, now, offset, general, reinterpret)
  }

  /** The candidates of one list, in order; a value that is not an array gives none. */
  function ListItems(m: map<string, string>, entry: (string, Option<seq<HotItem>>), now: int, offset: int,
                     general: Dates.GeneralParser, reinterpret: Text.Latin1ToUtf8): seq<RawItem> {
    match entry.1
    case None => []
    case Some(list) => FilterMap(list, ItemOutFn(SourceName(m, entry.0, reinterpret), now, offset, general, reinterpret))
  }

  /** The candidates of all lists, list by list. */
  function AllItems(data: DataMap, m: map<string, string>, now: int, offset: int, general: Dates.GeneralParser,
                    reinterpret: Text.Latin1ToUtf8): seq<RawItem>
    decreases |data|
  {
    if data == [] then []
    else
      AllItems(data[..|data| - 1], m, now, offset, general, reinterpret)
        + ListItems(m, data[|data| - 1], now, offset, general, reinterpret)
  }

  /** The two values as the flight chunks give them: both when both keys parse, else
      neither. */
  function FromFlight(html: string, decode: JsonStringParser, parseData: JsonParser<DataMap>,
                      parseSources: JsonParser<seq<HotSource>>): (Option<DataMap>, Option<seq<HotSource>>)
  {
    var decoded := ExtractNextFMerged(html, decode);
    if decoded == "" then (None, None)
    else
      var d := BalancedJsonSpec(decoded, INITIAL_DATA_KEY, parseData);
      var srcs := BalancedJsonSpec(decoded, DATA_SOURCES_KEY, parseSources);
      if d.Ok? && srcs.Ok? then (Some(d.value), Some(srcs.value)) else (None, None)
  }

  /** The two values `fetch` works from: from the flight chunks when both keys parse,
      otherwise from `__NEXT_DATA__`; `None` when either is still missing. */
  function FetchInputs(html: string, decode: JsonStringParser, parseData: JsonParser<DataMap>,
                       parseSources: JsonParser<seq<HotSource>>, nextData: Option<PageProps>)
    : Option<(DataMap, seq<HotSource>)>
  {
    var fromFlight := FromFlight(html, decode, parseData, parseSources);
    var (initial, sources) :=
      if fromFlight.0.Some? && fromFlight.1.Some? then fromFlight
      else if nextData.None? then fromFlight
      else (OrElse(nextData.value.initialDataMap, fromFlight.0), OrElse(nextData.value.dataSources, fromFlight.1));
    if initial.Some? && sources.Some? then Some((initial.value, sources.value)) else None
  }

  /** `fetch(now)` on a fetched page. */
  function FetchSpec(html: string, decode: JsonStringParser, parseData: JsonParser<DataMap>,
                     parseSources: JsonParser<seq<HotSource>>, nextData: Option<PageProps>, now: int, offset: int,
                     general: Dates.GeneralParser, reinterpret: Text.Latin1ToUtf8): seq<RawItem> {
    match FetchInputs(html, decode, parseData, parseSources, nextData)
    case None => []
    case Some((data, sources)) => AllItems(data, SourceMapOf(sources), now, offset, general, reinterpret)
  }

  // ----- properties of the mapping -----

  /** A source with an id is named by its last entry in `dataSources`: its title, else its
      id; ids that no source carries are not in the map. */
  lemma {:induction false} SourceMapEntries(sources: seq<HotSource>)
    ensures forall k :: k in SourceMapOf(sources) <==>
      exists i | 0 <= i < |sources| :: sources[i].id == Some(k) && k != ""
    ensures forall i | 0 <= i < |sources| && sources[i].id.Some? && sources[i].id.value != ""
        && (forall j | i < j < |sources| :: sources[j].id != sources[i].id) ::
      SourceMapOf(sources)[sources[i].id.value] == Text.OrText(sources[i].title, sources[i].id.value)
    ensures forall k | k in SourceMapOf(sources) :: SourceMapOf(sources)[k] != ""
  {
    var f := SourceEntry();
    TabulateMembers(sources, f);
    forall i | 0 <= i < |sources| && sources[i].id.Some? && sources[i].id.value != ""
        && (forall j | i < j < |sources| :: sources[j].id != sources[i].id)
      ensures LastSetAt(sources, f, i)
    {
    }
    forall k | k in SourceMapOf(sources) ensures SourceMapOf(sources)[k] != "" {
      TabulateValueFrom(sources, f, k);
      var i :| 0 <= i < |sources| && f(sources[i]) == Some((k, SourceMapOf(sources)[k]));
    }
  }

  /** Every value of `Tabulate` is one an element sets. */
  lemma {:induction false} TabulateValueFrom<A, K, V>(s: seq<A>, f: A -> Option<(K, V)>, k: K)
    requires k in Tabulate(s, f)
    ensures exists i | 0 <= i < |s| :: f(s[i]) == Some((k, Tabulate(s, f)[k]))
    decreases |s|
  {
    var n := |s| - 1;
    var init := s[..n];
    if f(s[n]).Some? && f(s[n]).value.0 == k {
      assert f(s[n]) == Some((k, Tabulate(s, f)[k]));
    } else {
      TabulateValueFrom(init, f, k);
      var i :| 0 <= i < |init| && f(init[i]) == Some((k, Tabulate(init, f)[k]));
      assert s[i] == init[i];
    }
  }

  /** An entry yields a candidate iff its chosen title and its link are non-blank; the
      candidate carries the site, the list's source name, the link trimmed, and the parsed
      publish time or `now`. */
  lemma ItemOutCases(item: HotItem, sourceName: string, now: int, offset: int, general: Dates.GeneralParser,
                     reinterpret: Text.Latin1ToUtf8)
    ensures ItemOut(item, sourceName, now, offset, general, reinterpret).Some?
      <==> RawTitle(item) != [] && Trim(Text.OrText(item.link, "")) != []
    ensures var r := ItemOut(item, sourceName, now, offset, general, reinterpret);
      r.Some? ==>
        r.value.siteId == SITE_ID && r.value.siteName == SITE_NAME && r.value.source == sourceName
        && r.value.title != [] && r.value.url == Trim(Text.OrText(item.link, ""))
        && (r.value.title == RawTitle(item) || reinterpret(RawTitle(item)) == Some(r.value.title))
        && r.value.publishedAt
          == Some(if Dates.ParseDate(item.publishTime, now, offset, general).Some?
                  then Dates.ParseDate(item.publishTime, now, offset, general).value else now)
  {
    TrimOfTrimmed(RawTitle(item));
  }

  /** `title_trans` wins over `title` whenever it is non-empty, even when it is only
      spaces, in which case the entry is dropped. */
  lemma TitleTransFirst(item: HotItem)
    requires item.titleTrans.Some? && item.titleTrans.value != ""
    ensures RawTitle(item) == Trim(item.titleTrans.value)
  {
  }

  /** A list's candidates are its entries that yield one, in order, one each, named after
      the list's source. */
  lemma {:induction false} ListItemsComplete(m: map<string, string>, entry: (string, Option<seq<HotItem>>), now: int, offset: int,
                          general: Dates.GeneralParser, reinterpret: Text.Latin1ToUtf8)
    requires entry.1.Some?
    ensures var f := ItemOutFn(SourceName(m, entry.0, reinterpret), now, offset, general, reinterpret);
      var r := ListItems(m, entry, now, offset, general, reinterpret);
      (forall k | 0 <= k < |r| :: exists i | 0 <= i < |entry.1.value| :: f(entry.1.value[i]) == Some(r[k]))
      && (forall i | 0 <= i < |entry.1.value| && f(entry.1.value[i]).Some? :: f(entry.1.value[i]).value in r)
      && |r| == Count(entry.1.value, Yields(f))
  {
    FilterMapMembers(entry.1.value, ItemOutFn(SourceName(m, entry.0, reinterpret), now, offset, general, reinterpret));
  }

  /** A candidate of this adapter: the site, a non-empty title, a trimmed non-empty link,
      a time, and the source name `name`. */
  predicate Shaped(r: RawItem, name: string) {
    r.siteId == SITE_ID && r.siteName == SITE_NAME && r.title != [] && r.url != [] && IsTrimmed(r.url)
    && r.publishedAt.Some? && r.source == name
  }

  lemma ItemOutShaped(item: HotItem, name: string, now: int, offset: int, general: Dates.GeneralParser,
                      reinterpret: Text.Latin1ToUtf8)
    ensures var r := ItemOut(item, name, now, offset, general, reinterpret);
      r.Some? ==> Shaped(r.value, name)
  {
    ItemOutCases(item, name, now, offset, general, reinterpret);
  }

  /** The candidates of one list are shaped and carry the list's source name. */
  lemma {:induction false} ListItemsShape(m: map<string, string>, entry: (string, Option<seq<HotItem>>), now: int, offset: int,
                       general: Dates.GeneralParser, reinterpret: Text.Latin1ToUtf8)
    ensures forall r | r in ListItems(m, entry, now, offset, general, reinterpret) ::
      Shaped(r, SourceName(m, entry.0, reinterpret))
  {
    if entry.1.Some? {
      var list := entry.1.value;
      var name := SourceName(m, entry.0, reinterpret);
      var f := ItemOutFn(name, now, offset, general, reinterpret);
      var out := FilterMap(list, f);
      FilterMapMembers(list, f);
      forall r | r in out ensures Shaped(r, name) {
        var k :| 0 <= k < |out| && out[k] == r;
        var i :| 0 <= i < |list| && f(list[i]) == Some(r);
        ItemOutShaped(list[i], name, now, offset, general, reinterpret);
      }
    }
  }

  /** Every candidate comes from an entry of some list and carries the site, a non-empty
      title, a trimmed non-empty link and a time. */
  lemma {:induction false} AllItemsShape(data: DataMap, m: map<string, string>, now: int, offset: int,
                                         general: Dates.GeneralParser, reinterpret: Text.Latin1ToUtf8)
    ensures forall r | r in AllItems(data, m, now, offset, general, reinterpret) ::
      exists j | 0 <= j < |data| :: Shaped(r, SourceName(m, data[j].0, reinterpret))
    decreases |data|
  {
    if data != [] {
      var n := |data| - 1;
      var init := data[..n];
      AllItemsShape(init, m, now, offset, general, reinterpret);
      ListItemsShape(m, data[n], now, offset, general, reinterpret);
      forall r | r in AllItems(init, m, now, offset, general, reinterpret)
        ensures exists j | 0 <= j < |data| :: Shaped(r, SourceName(m, data[j].0, reinterpret))
      {
        var j :| 0 <= j < n && Shaped(r, SourceName(m, init[j].0, reinterpret));
        assert data[j] == init[j];
      }
    }
  }

  /** Whenever both keys parse out of the flight chunks, `__NEXT_DATA__` is not consulted;
      when neither source supplies both values there are no candidates. */
  lemma FetchInputsPrecedence(html: string, decode: JsonStringParser, parseData: JsonParser<DataMap>,
                              parseSources: JsonParser<seq<HotSource>>, nextData: Option<PageProps>)
    ensures var decoded := ExtractNextFMerged(html, decode);
      decoded != "" && BalancedJsonSpec(decoded, INITIAL_DATA_KEY, parseData).Ok?
      && BalancedJsonSpec(decoded, DATA_SOURCES_KEY, parseSources).Ok? ==>
        FetchInputs(html, decode, parseData, parseSources, nextData)
          == Some((BalancedJsonSpec(decoded, INITIAL_DATA_KEY, parseData).value,
                   BalancedJsonSpec(decoded, DATA_SOURCES_KEY, parseSources).value))
    ensures var decoded := ExtractNextFMerged(html, decode);
      !(decoded != "" && BalancedJsonSpec(decoded, INITIAL_DATA_KEY, parseData).Ok?
        && BalancedJsonSpec(decoded, DATA_SOURCES_KEY, parseSources).Ok?) ==>
        FetchInputs(html, decode, parseData, parseSources, nextData)
          == (if nextData.Some? && nextData.value.initialDataMap.Some? && nextData.value.dataSources.Some?
              then Some((nextData.value.initialDataMap.value, nextData.value.dataSources.value)) else None)
  {
  }

  // ----- the loops of fetch -----

  /** The loop that fills `sourceMap`. */
  method BuildSourceMap(sources: seq<HotSource>) returns (m: map<string, string>)
    ensures m == SourceMapOf(sources)
  {
    m := map[];
    var i := 0;
    while i < |sources|
      invariant 0 <= i <= |sources|
      invariant m == Tabulate(sources[..i], SourceEntry())
    {
      assert sources[..i + 1][..i] == sources[..i];
      var src := sources[i];
      if src.id.Some? && src.id.value != "" {
        m := m[src.id.value := Text.OrText(src.title, src.id.value)];
      }
      i := i + 1;
    }
    assert sources[..i] == sources;
  }

  /** The inner loop of `fetch`: one list's entries. */
  method ListEntries(list: seq<HotItem>, sourceName: string, now: int, offset: int, general: Dates.GeneralParser,
                     reinterpret: Text.Latin1ToUtf8) returns (out: seq<RawItem>)
    ensures out == FilterMap(list, ItemOutFn(sourceName, now, offset, general, reinterpret))
  {
    out := [];
    var j := 0;
    while j < |list|
      invariant 0 <= j <= |list|
      invariant out == FilterMap(list[..j], ItemOutFn(sourceName, now, offset, general, reinterpret))
    {
      assert list[..j + 1][..j] == list[..j];
      var item := list[j];
      var title := Text.MaybeFixMojibake(Trim(Text.OrText(item.titleTrans, Text.OrText(item.title, ""))), reinterpret);
      var link := Trim(Text.OrText(item.link, ""));
      if title != [] && link != [] {
        var publishedAt := Dates.ParseDate(item.publishTime, now, offset, general).GetOr(now);
        out := out + [RawItem(SITE_ID, SITE_NAME, sourceName, title, link, Some(publishedAt))];
      }
      j := j + 1;
    }
    assert list[..j] == list;
  }

  /** The outer loop of `fetch` over `Object.entries(initialData)`. */
  method CollectItems(data: DataMap, m: map<string, string>, now: int, offset: int, general: Dates.GeneralParser,
                      reinterpret: Text.Latin1ToUtf8) returns (items: seq<RawItem>)
    ensures items == AllItems(data, m, now, offset, general, reinterpret)
  {
    items := [];
    var b := 0;
    while b < |data|
      invariant 0 <= b <= |data|
      invariant items == AllItems(data[..b], m, now, offset, general, reinterpret)
    {
      AllItemsStep(data, b, m, now, offset, general, reinterpret);
      var listItems := EntryItems(data[b], m, now, offset, general, reinterpret);
      items := items + listItems;
      b := b + 1;
    }
    assert data[..b] == data;
  }

  /** One entry of `initialData`: its list's candidates, or none when it is not an array. */
  method EntryItems(entry: (string, Option<seq<HotItem>>), m: map<string, string>, now: int, offset: int,
                    general: Dates.GeneralParser, reinterpret: Text.Latin1ToUtf8) returns (listItems: seq<RawItem>)
    ensures listItems == ListItems(m, entry, now, offset, general, reinterpret)
  {
    listItems := [];
    if entry.1.Some? {
      listItems := ListEntries(entry.1.value, SourceName(m, entry.0, reinterpret), now, offset, general, reinterpret);
    }
  }

  /** `AllItems` of one more entry. */
  lemma AllItemsStep(data: DataMap, b: nat, m: map<string, string>, now: int, offset: int,
                     general: Dates.GeneralParser, reinterpret: Text.Latin1ToUtf8)
    requires b < |data|
    ensures AllItems(data[..b + 1], m, now, offset, general, reinterpret)
      == AllItems(data[..b], m, now, offset, general, reinterpret) + ListItems(m, data[b], now, offset, general, reinterpret)
  {
    assert data[..b + 1][..b] == data[..b];
  }

  /** `fetch(now)` after the page has been fetched. */
  method Fetch(html: string, decode: JsonStringParser, parseData: JsonParser<DataMap>,
               parseSources: JsonParser<seq<HotSource>>, nextData: Option<PageProps>, now: int, offset: int,
               general: Dates.GeneralParser, reinterpret: Text.Latin1ToUtf8) returns (items: seq<RawItem>)
    ensures items == FetchSpec(html, decode, parseData, parseSources, nextData, now, offset, general, reinterpret)
  {
    var initialData, sourceList := FindInputs(html, decode, parseData, parseSources, nextData);
    if initialData.None? || sourceList.None? {
      return [];
    }
    var m := BuildSourceMap(sourceList.value);
    items := CollectItems(initialData.value, m, now, offset, general, reinterpret);
  }

  /** The first half of `fetch`: `initialData` and `sourceList` from the flight chunks,
      completed from `__NEXT_DATA__` when either is missing. */
  method FindInputs(html: string, decode: JsonStringParser, parseData: JsonParser<DataMap>,
                    parseSources: JsonParser<seq<HotSource>>, nextData: Option<PageProps>)
    returns (initialData: Option<DataMap>, sourceList: Option<seq<HotSource>>)
    ensures FetchInputs(html, decode, parseData, parseSources, nextData)
      == if initialData.Some? && sourceList.Some? then Some((initialData.value, sourceList.value)) else None
  {
    initialData, sourceList := None, None;
    var decoded := ExtractNextFMerged(html, decode);
    if decoded != "" {
      var d := ExtractBalancedJson(decoded, INITIAL_DATA_KEY, parseData);
      if d.Ok? {
        var srcs := ExtractBalancedJson(decoded, DATA_SOURCES_KEY, parseSources);
        if srcs.Ok? {
          initialData, sourceList := Some(d.value), Some(srcs.value);
        }
      }
    }
    assert (initialData, sourceList) == FromFlight(html, decode, parseData, parseSources);
    if (initialData.None? || sourceList.None?) && nextData.Some? {
      if nextData.value.initialDataMap.Some? {
        initialData := nextData.value.initialDataMap;
      }
      if nextData.value.dataSources.Some? {
        sourceList := nextData.value.dataSources;
      }
    }
  }
}

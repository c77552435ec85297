# AI news aggregator — a verified model of its core

The aggregator scrapes AI-related news from a few dozen sites. It folds the candidates into an
archive keyed by a digest of each item's identity. It prunes records older than the
retention period and selects those published inside a time window. It drops duplicates and
off-topic items, adds Chinese and bilingual titles, and writes a JSON payload of items and
per-site statistics. A React client then shows the payload page by page. The client filters
by site, source and search text, and keeps favourites and visited links in `localStorage`.

This project models that core in Dafny and proves what the code promises about it.

- **Pipeline.** The archive (`Archive`, a class over an insertion-ordered map) loads, upserts,
  prunes and selects the window. `Payload` computes the per-site statistics and the archive and
  status summaries.
- **Filters.** `Dedupe` handles grouping by key, the "latest" and random representatives, and
  the HubToday URL pass. `Relevance` is the rule chain of the relevance filter.
- **Translation.** `Bilingual` is the bilingual enricher, with its title cache and its bounded
  count of live translations.
- **Utilities.** `Text`, `Urls`, `Hash` and `Dates` model the text predicates, URL
  normalisation, item identity and time parsing.
- **Source adapters.**
  - `Scanner` is the quote- and escape-aware balanced-delimiter scan. `Newsnow`, `Waytoagi` and
    `Aihot` each instantiate it.
  - `Newsnow` also decodes Juejin snowflake ids. `Waytoagi` resolves its heading-tree dates and
    builds the 7-day update list.
  - `OpmlRss` covers OPML feed collection, URL resolution and status summaries. `Hubtoday`
    covers the HubToday acceptance rules.
  - `WechatRss`, `YouTube` and `Markup` cover RSS and Atom item extraction and entity decoding.
- **Client.** `NewsData`, `Favorites` and `VisitedLinks` model the three hooks of the web
  client. `Persisted` holds the capacity trimming they share.

Shared support modules:
- `Wrappers` holds `Option` and `Result`.
- `Strings` models the JavaScript string operations used: trim, ASCII lower-casing, `includes`,
  `replace` and code-point order.
- `Sorting` holds filter and stable sort, the latter modelling `Array.prototype.sort`, which is
  stable.
- `OrderedMaps` models `Map` and plain objects, which list keys in insertion order.
- `Grouping` groups values by key.
- `Records` holds the record types.
- `Calendar` holds ECMAScript date arithmetic for a fixed time-zone offset.

Mutable state is modelled with classes whose methods are proved against specification
functions:
- the archive map;
- the translation cache and counter;
- the hooks' state, together with what they last wrote to storage.

Loops of the source become methods with loop invariants, proved equal to those functions.
Programs the core calls but does not contain become function parameters:
- JSON and XML parsing;
- the WHATWG URL parser;
- SHA-1;
- the translation service;
- general date parsing;
- the clock.

## Model

| member | source | states |
|---|---|---|
| Hash.CanonIgnoresCaseAndPadding | src/utils/hash.ts:6-8 | surrounding white space and upper case never change a key field |
| Hash.MakeItemIdStable | src/utils/hash.ts:4-13 | candidates differing only in case and padding of site, source and title, and only in tracking parameters or fragment of the URL, get the same id |
| Hash.ItemKeySeparatesSources | src/utils/hash.ts:5-10 | with the same site, title and URL, two keys are equal exactly when the canonical sources are equal |
| Hash.MakeItemIdSeparatesSources | src/utils/hash.ts:4-13 | with a collision-free digest and the same site, title and URL, two ids are equal exactly when the trimmed, lower-cased sources are equal |
| Urls.KeptParams | src/utils/url.ts:27-33 | every surviving parameter is one of the input's and is not a tracking parameter |
| Urls.KeptParamsComplete | src/utils/url.ts:27-33 | every non-tracking parameter survives |
| Urls.AppendKeptParams | src/utils/url.ts:27-33 | the `forEach` loop appends exactly the surviving parameters, in order |
| Urls.KeptParamsIdempotent | src/utils/url.ts:27-33 | filtering twice is filtering once |
| Urls.TrackingParamIgnored | src/utils/url.ts:1-18 | inserting a tracking parameter (a `utm_` prefix or one of the 16 names, any case) anywhere changes nothing |
| Urls.Utf8 | src/utils/url.ts:35 | the UTF-8 encoding the form serializer percent-encodes has one to four bytes, each below 256 |
| Urls.NormalizeRecord | src/utils/url.ts:35-43 | the cleaned href, with one trailing "/" removed exactly when the path is not the root |
| Urls.NormalizeUrl | src/utils/url.ts:20-47 | blank input gives "", input that does not parse gives the trimmed input, otherwise the normalised record |
| Urls.NormalizeRecordIgnoresTrackingAndFragment | src/utils/url.ts:27-36 | URLs that agree except for tracking parameters and fragment have the same normal form |
| Urls.NormalizeUrlIgnoresTrackingAndFragment | src/utils/url.ts:20-47 | the same, stated on the raw strings |
| Urls.NormalizeRecordWithoutQuery | src/utils/url.ts:38-41 | with no surviving parameter the normal form is head and path, one trailing "/" dropped unless the path is "/" |
| Urls.GetHost | src/utils/url.ts:49-55 | the lower-cased hostname, or "" when parsing fails |
| Text.HasCjk | src/utils/text.ts:25-27 | holds exactly when some character lies in U+4E00 to U+9FFF |
| Text.LetterCount | src/utils/text.ts:34 | the number of ASCII letters is at most the length |
| Text.IsMostlyEnglish | src/utils/text.ts:29-36 | holds exactly when the trimmed text is non-empty, has no CJK character, and has at least six ASCII letters and at least a quarter of its UTF-16 length (rounded down) |
| Text.MostlyEnglishIgnoresPadding | src/utils/text.ts:30 | surrounding white space never changes the verdict |
| Text.LetterCountOfInfix | src/utils/text.ts:34 | a slice has no more letters than the whole text |
| Text.TrimLetterCount | src/utils/text.ts:30-34 | trimming never adds letters |
| Text.FewLettersNotEnglish | src/utils/text.ts:35 | a text with fewer than six ASCII letters is never mostly English |
| Text.FirstNonEmptyIndex | src/utils/text.ts:38-45 | the index of the first present value whose trim is non-empty: every earlier one is blank |
| Text.FirstNonEmpty | src/utils/text.ts:38-45 | "" exactly when every value is missing or blank, otherwise the trim of the first present value with a non-empty trim |
| Text.CollapseSpace | src/utils/text.ts:49 | empty exactly for empty input; every white-space character left in the result is a plain space and no two spaces are adjacent; the first character is kept or becomes a space |
| Text.CollapseSpaceKeepsText | src/utils/text.ts:49 | the characters that are not white space are kept, all of them and in order |
| Text.CollapseSpaceRun | src/utils/text.ts:49 | each maximal run of white space becomes exactly one space: a run between text that neither ends nor starts in white space collapses to one " " between the collapsed parts |
| Text.CollapseSpaceOfWord | src/utils/text.ts:49 | a text without white space is left unchanged |
| Text.InfixSingleSpaced | src/utils/text.ts:49 | a slice of a single-spaced text is single-spaced |
| Text.CleanUpdateTitle | src/utils/text.ts:47-50 | the result is trimmed and single-spaced |
| Text.CleanUpdateTitleKeepsText | src/utils/text.ts:47-50 | the result's non-space characters are, in order, those of the text once "《 》" and then "《》" are removed |
| Text.TrimKeepsText | src/utils/text.ts:50 | trimming removes white space only |
| Text.CleanUpdateTitleKeepsTabBrackets | src/utils/text.ts:48-49 | "《\t》" comes out as "《 》": the bracket removal happens before white space is collapsed |
| Text.NoiseFrom | src/utils/text.ts:54 | holds exactly when a marker starts at some position from `i` on |
| Text.HasMojibakeNoise | src/utils/text.ts:52-55 | false for "", otherwise holds exactly when the text contains "Ã", "Â", "â€", "æ·" or U+FFFD |
| Text.NoiseIffContains | src/utils/text.ts:54 | the scan for a marker agrees with the five substring tests |
| Text.HasMojibakeHint | src/utils/text.ts:5 | holds exactly when some character is one of the hint letters or a C1 control |
| Text.MaybeFixMojibake | src/utils/text.ts:1-23 | without a hint the trimmed text comes back; otherwise the result is the trimmed text or the reinterpretation when that is non-empty and free of U+FFFD |
| Relevance.IsAiRelated | src/filters/ai-related.ts:10-57 | aibase, aihot and aihubtoday records are relevant; a tophub record failing its checks is not; outside zeli, a relevant record of another site has an AI signal or a tech keyword; an AI signal makes a record of any site but zeli and tophub relevant |
| Relevance.ContainsAnyKeyword | src/filters/ai-related.ts:5-8 | holds exactly when some keyword is a substring of the lower-cased haystack |
| Relevance.AnyIn | src/filters/ai-related.ts:7 | holds exactly when some keyword is a substring |
| Relevance.ZeliRule | src/filters/ai-related.ts:18-20 | a zeli record is relevant exactly when its lower-cased source contains "24h" |
| Relevance.TophubRejected | src/filters/ai-related.ts:22-33 | a tophub record with mojibake noise in source or title, a block keyword, or no allow keyword in its source is rejected |
| Relevance.TophubFallsThrough | src/filters/ai-related.ts:22-46 | a tophub record passing its checks is judged by the general rule, exactly as a record of an unlisted site |
| Relevance.TrustedAlwaysRelevant | src/filters/ai-related.ts:35-37 | aibase, aihot and aihubtoday records are always relevant |
| Relevance.GeneralRule | src/filters/ai-related.ts:39-56 | any other record is relevant exactly when it has an AI signal, or a tech keyword and neither commerce-noise nor noise keywords |
| Relevance.AiSignalWins | src/filters/ai-related.ts:48-56 | an AI keyword keeps a record relevant whatever noise keywords it has (outside zeli and failed tophub checks) |
| Relevance.SiteIdCaseInsensitive | src/filters/ai-related.ts:11 | the site id is compared ignoring case |
| Dates.ParseIso | src/utils/date.ts:13-21 | a stored stamp reads back as its time exactly when it holds one; missing or unreadable text gives none |
| Dates.ToIsoTextForm | src/utils/date.ts:8-11 | a whole-second time is written without milliseconds ("…Z"), any other keeps its three digits |
| Dates.ReplaceMillis | src/utils/date.ts:10 | replacing ".000Z" by "Z" removes exactly a zero millisecond part and never touches other text |
| Dates.ToIsoString | src/utils/date.ts:8-11 | none exactly for none; otherwise a stamp that reads back as the same time |
| Dates.DateFromNumber | src/utils/date.ts:40-45 | a number gives a date exactly when it is finite and within the JavaScript time range |
| Dates.ParseUnixTimestamp | src/utils/date.ts:23-46 | null and other types give none, text that is not a number gives none; a value above 10,000,000,000 is taken as milliseconds, any other as seconds |
| Dates.FindUnit | src/utils/date.ts:52-62 | a match of "digits, spaces, unit" is found at or after the start position |
| Dates.FindUnitLeftmost | src/utils/date.ts:52-62 | the match found is the leftmost one, and none is reported only when there is none |
| Dates.FindClock | src/utils/date.ts:74 | a clock time found is one read at some position |
| Dates.UnitsAgo | src/utils/date.ts:52-65 | minutes are tried before hours before days; the result is `now` less the number of units, never later than now |
| Dates.ParseRelativeTimeZh | src/utils/date.ts:48-104 | blank text gives none; then the unit phrases, "刚刚" (exactly now), "昨天", and the clock and month-day forms, in that order |
| Dates.MinutesAgoReadsBack | src/utils/date.ts:52-55 | "N分钟前" gives now less N minutes, for a valid `now` and a result inside the time range of a `Date` |
| Dates.MonthDayDateMeaning | src/utils/date.ts:91-101 | for a month and day that exist this year and last, "M月D日" is local midnight of that month and day, at most two days after now; it is last year's exactly when this year's lies more than two days ahead, so it is the later of the two dates that is not |
| Dates.MonthDayDateAtYearEnd | src/utils/date.ts:95-100 | only this year and last are tried: on December 31, "1月1日" means January 1 of the same year although the next January 1 is less than a day ahead |
| Dates.ClockCandidateBound | src/utils/date.ts:81-89 | for a valid clock time (hour ≤ 23, minute ≤ 59) the result is at most five minutes after now |
| Dates.ClockCandidateOutOfRange | src/utils/date.ts:81-89 | "今天 99:00" is accepted by the pattern and lands more than two days after now |
| Dates.ParseDate | src/utils/date.ts:106-150 | the dispatch order: null, a date as it is, a number to the unix parser, blank text none, "$D" stripped, long digit runs to the unix parser, then relative phrases, then general parsing |
| Dates.DollarStripped | src/utils/date.ts:120-123 | a leading "$D" is removed, anything else is kept |
| Dates.LongDigitsAsUnixTime | src/utils/date.ts:125-131 | a digit run of nine or more digits is read as a unix time, in seconds or milliseconds by the threshold |
| Records.EventTime | src/index.ts:27-32 | the parsed `published_at` when it parses; otherwise none for opmlrss and the parsed `first_seen_at` for every other site |
| Records.DisplayHost | src/index.ts:37-38 | the host with one leading "www." removed |
| Records.NormalizeSourceForDisplay | src/index.ts:34-47 | never empty: a blank source becomes the host without "www." or "未分区", buzzing's own "buzzing" source becomes the host (or stays), any other source is trimmed |
| Grouping.GroupBy | src/filters/dedupe.ts:16-29 | the groups form a valid key-ordered map |
| Grouping.GroupByMembers | src/filters/dedupe.ts:16-29 | each group holds exactly the items with its key, in input order; every item's key has a group; no group is empty |
| Grouping.GroupCountBound | src/filters/dedupe.ts:16-29 | there are no more groups than items |
| Grouping.GroupChoice | src/filters/dedupe.ts:33-54 | one pick per group gives members of the input with distinct keys, covering every key |
| Grouping.GroupInto | src/filters/dedupe.ts:16-29 | the grouping loop builds exactly `GroupBy` |
| Dedupe.HubtodayKeysFollowUrls | src/filters/dedupe.ts:19-23 | two aihubtoday records share a key exactly when their normalised URLs agree |
| Dedupe.TitleKeysSameUrl | src/filters/dedupe.ts:19-23 | two other records with the same normalised URL share a key exactly when their lower-cased titles (`title_original` first) agree |
| Dedupe.TitleKeysSameTitle | src/filters/dedupe.ts:19-23 | two other records with the same lower-cased title share a key exactly when their normalised URLs agree |
| Dedupe.Choose | src/filters/dedupe.ts:40-51 | one reduce step keeps the best so far unless the current record beats it |
| Dedupe.BeatsIrreflexive | src/filters/dedupe.ts:40-51 | no record beats itself |
| Dedupe.BeatsAsymmetric | src/filters/dedupe.ts:40-51 | two records never beat each other |
| Dedupe.NotBeatsTransitive | src/filters/dedupe.ts:40-51 | "does not beat" is transitive, so the reduce finds a maximum |
| Dedupe.Representative | src/filters/dedupe.ts:40-51 | the pick is a member of its group |
| Dedupe.RepresentativeMaximal | src/filters/dedupe.ts:40-51 | no member of the group beats the pick |
| Dedupe.RepresentativeIsLatest | src/filters/dedupe.ts:40-51 | a timed member is never later than the pick, which is then timed; among equal times (or none) the pick has the greatest id |
| Dedupe.LatestPicks | src/filters/dedupe.ts:33-54 | one pick from each group |
| Dedupe.LatestPicksAreRepresentatives | src/filters/dedupe.ts:39-52 | each pick is its group's representative |
| Dedupe.DedupeItemsByTitleUrl | src/filters/dedupe.ts:12-63 | the loop picks one record per group (any member in random mode, the representative in latest mode) and sorts the picks newest first |
| Dedupe.DedupeOnePerKey | src/filters/dedupe.ts:25-60 | the output is sorted newest first, holds input records only, one per key, and every key of the input is represented |
| Dedupe.DedupeLatestIsMaximal | src/filters/dedupe.ts:40-51 | in latest mode no input record beats the output record with its key |
| Dedupe.LatestPickMaximal | src/filters/dedupe.ts:40-51 | the same for one pick and one record of its group |
| Dedupe.Pool | src/filters/dedupe.ts:99-100 | the pool of a non-empty group is non-empty |
| Dedupe.HubPicksChoose | src/filters/dedupe.ts:96-116 | one pick from each non-empty URL group, a member of it, in group order |
| Dedupe.HubPicksAreRepresentatives | src/filters/dedupe.ts:96-116 | each pick is the representative of its group's non-generic titles, or of the whole group when all are generic |
| Dedupe.NormalizeAihubTodayRecords | src/filters/dedupe.ts:79-125 | the two loops and the sort compute exactly the specification function |
| Dedupe.SplitHubRecords | src/filters/dedupe.ts:83-94 | the first loop keeps the other sites' records and groups aihubtoday records with a non-empty normalised URL by that URL |
| Dedupe.AppendHubPicks | src/filters/dedupe.ts:96-116 | the second loop appends one pick per group |
| Dedupe.NormalizeKeepsOthers | src/filters/dedupe.ts:84-87 | a record of another site occurs in the output exactly as often as in the input |
| Dedupe.NormalizeOutputsAreInputs | src/filters/dedupe.ts:79-125 | every output record is an input record |
| Dedupe.HubPicksAreHub | src/filters/dedupe.ts:88-116 | the picks are aihubtoday input records with a URL, with distinct normalised URLs |
| Dedupe.HubOutputIsPick | src/filters/dedupe.ts:96-116 | an aihubtoday output record is one of the picks |
| Dedupe.NormalizeHubInputs | src/filters/dedupe.ts:88-89 | aihubtoday records with an empty normalised URL are dropped |
| Dedupe.HubOutputsDistinctUrls | src/filters/dedupe.ts:90-116 | at most one aihubtoday record per normalised URL is kept |
| Dedupe.HubPickPreferred | src/filters/dedupe.ts:99-113 | a pick has a non-generic title whenever a member of its group has one, and no member of the same kind beats it |
| Dedupe.NormalizeSorted | src/filters/dedupe.ts:118-122 | the output is sorted newest first |
| Dedupe.NormalizeHubPreferred | src/filters/dedupe.ts:99-113 | the same preference stated on the output |
| Dedupe.MemberOfPool | src/filters/dedupe.ts:99-100 | the pool holds the non-generic titles when there are any |
| Hubtoday.PlaceholderIsGeneric | src/fetchers/aihubtoday.ts:5-17 | a placeholder title is generic, and so is a title whose trim ends in "(AI资讯)" |
| Hubtoday.ChosenTitle | src/fetchers/aihubtoday.ts:45-51 | a non-generic trimmed title is kept; a generic one is replaced by the trimmed fallback whenever that is non-empty, and kept when the fallback is empty |
| Hubtoday.PushConsistent | src/fetchers/aihubtoday.ts:57-69 | pushing an acceptable item under its normalised URL keeps the collector consistent: every item acceptable, one item per recorded URL |
| Hubtoday.ItemOkOf | src/fetchers/aihubtoday.ts:53-69 | an item built from an acceptable title and link carries the issue date and the site id |
| Hubtoday.AddStepRejects | src/fetchers/aihubtoday.ts:53-55 | a candidate that is too short, not an http link, "自媒体账号", a source.hubtoday.app link, or still generic changes nothing |
| Hubtoday.AddStepPushes | src/fetchers/aihubtoday.ts:53-69 | an acceptable candidate is pushed under its normalised URL (unless that URL was seen) |
| Hubtoday.AddStepConsistent | src/fetchers/aihubtoday.ts:39-70 | one `addItem` call keeps the collector consistent |
| Hubtoday.AddAllConsistent | src/fetchers/aihubtoday.ts:72-102 | a whole pass of `addItem` calls keeps the collector consistent |
| Hubtoday.CollectSpecProperties | src/fetchers/aihubtoday.ts:23-118 | every collected item is acceptable, carries the issue date and the site id, and no two items share a normalised URL |
| Hubtoday.FallbackOnlyWhenEmpty | src/fetchers/aihubtoday.ts:104-115 | when the first three passes produced an item, the page-wide links make no difference |
| Hubtoday.Collector.constructor | src/fetchers/aihubtoday.ts:25-26 | the collector starts with no items and no seen URLs |
| Hubtoday.Collector.AddItem | src/fetchers/aihubtoday.ts:39-70 | the `addItem` closure updates the seen set and the items as one `AddStep` |
| Hubtoday.Collector.PushItem | src/fetchers/aihubtoday.ts:57-69 | records the URL and appends the item |
| Hubtoday.Collector.AddPass | src/fetchers/aihubtoday.ts:72-102 | one `each` loop over the candidates of a pass |
| Hubtoday.Collect | src/fetchers/aihubtoday.ts:23-118 | the four passes, the last only when nothing was found, compute exactly `CollectSpec` |
| Strings.DigitsUpTo | src/fetchers/aihubtoday.ts:30 | a run of at most `max` digits from `p` |
| Hubtoday.IssueDateAbsent | src/fetchers/aihubtoday.ts:28-37 | a page text without "AI资讯日报" has no issue date |
| Hubtoday.IssueDateReadsBack | src/fetchers/aihubtoday.ts:28-37 | a text whose first "AI资讯日报" is followed by white space, four year digits, "/" or "-", one or two month digits, "/" or "-" and one or two day digits gives local midnight of that year, month and day |
| Archive.ListStep | src/index.ts:59-61 | an object with a non-empty id is stored under that id; the store stays keyed by id |
| Archive.LoadEntries | src/index.ts:58-61 | the list loop yields a store in which every record sits under its own id |
| Archive.FirstNull | src/index.ts:59-60 | the index of the first `null` element (where reading `it.id` throws), or the length when there is none |
| Archive.MemberStep | src/index.ts:63-67 | an object member is stored under its key with its id set to the key; non-objects are skipped |
| Archive.LoadMembers | src/index.ts:62-68 | the object loop yields a store in which every record sits under its own id |
| Archive.LoadSpec | src/index.ts:49-75 | a missing or unreadable snapshot gives an empty store; a list is loaded up to its first `null`; an object is loaded member by member; the result is keyed by id |
| Archive.LoadEntriesKeys | src/index.ts:58-61 | a loaded list holds exactly the non-empty ids carried by its objects |
| Archive.LoadEntriesLatest | src/index.ts:58-61 | an id maps to the last object in the list carrying it |
| Archive.NullStopsLoading | src/index.ts:53-72 | a `null` element makes the load equal to the load of the elements before it: the thrown error is caught after those were stored |
| Archive.FirstNullOfPrefix | src/index.ts:59-60 | cutting the list at or after its first `null` does not move that `null` |
| Archive.LoadMembersKeys | src/index.ts:62-68 | a loaded object holds exactly the keys of its object-valued members |
| Archive.LoadMembersLatest | src/index.ts:62-68 | a key maps to its last object member, with the id replaced by the key |
| Archive.LoadArchive | src/index.ts:49-75 | the loading loops build a fresh store equal to `LoadSpec` of the snapshot |
| Archive.UpsertSpec | src/index.ts:179-210 | one iteration of the merge loop keeps the store keyed by id |
| Archive.UpsertAllSpec | src/index.ts:179-210 | the whole merge loop keeps the store keyed by id |
| Archive.UpsertRejects | src/index.ts:180-182 | a candidate with a blank trimmed title, an empty normalised URL or one not starting with "http" leaves the store unchanged |
| Archive.UpsertInserts | src/index.ts:184-198 | a new id is appended with the trimmed title, the normalised URL, first and last seen now and the candidate's publication time; nothing else changes |
| Archive.UpsertRefreshes | src/index.ts:199-209 | a known id keeps its place, its first-seen time and its bilingual fields, takes the candidate's fields and "last seen now", and gets a publication time only when it had none and the candidate has one; nothing else changes |
| Archive.UpsertKeepsKey | src/index.ts:179-210 | no record is removed by the merge, and one seen now stays seen now |
| Archive.UpsertSeesCandidate | src/index.ts:184-208 | an admissible candidate's id is present afterwards and marked seen now |
| Archive.UpsertAllSeen | src/index.ts:179-210 | after the whole loop every admissible candidate's id is present and seen now |
| Archive.UpsertAllKeeps | src/index.ts:179-210 | after the whole loop every record of the loaded archive is still present |
| Archive.PrunedAfter | src/index.ts:213-222 | the prune loop after visiting some keys leaves a valid ordered map |
| Archive.PruneSpec | src/index.ts:212-222 | the prune loop leaves a valid ordered map |
| Archive.PrunedEntries | src/index.ts:213-222 | after visiting some keys, exactly the records not visited while stale remain, with their values |
| Archive.PrunedKeys | src/index.ts:213-222 | after visiting some keys, the key order is the original order with the deleted keys filtered out |
| Archive.PrunedKeysStep | src/index.ts:219-221 | one more visited key extends the filtered-order fact by one step |
| Archive.DeletedStep | src/index.ts:219-221 | deleting a stale key from the filtered order gives the order filtered by the longer visit |
| Archive.DeletedKeys | src/index.ts:219-221 | filtering out a stale key after the earlier visits is filtering by the longer visit |
| Archive.KeptKeys | src/index.ts:219-221 | a key that is not deleted leaves the filtered order as it was |
| Archive.PruneMembers | src/index.ts:212-222 | pruning keeps exactly the records whose reference time (last seen, else published, else first seen, else now) is not before now minus the archive days, unchanged and in their original order, still keyed by id |
| Archive.SeenNowSurvives | src/index.ts:208-219 | a record seen in this run survives the prune for any non-negative number of days |
| Archive.PruneNext | src/index.ts:213-222 | the key the loop visits next is still present, and the visit deletes it exactly when it is stale |
| Archive.PrunedKeyed | src/index.ts:213-222 | pruning keeps every record under its own id |
| Archive.ArchiveStore.constructor | src/index.ts:50 | the store starts empty |
| Archive.ArchiveStore.Put | src/index.ts:60 | `archive.set(id, record)` on a record carrying that id |
| Archive.ArchiveStore.Upsert | src/index.ts:179-210 | one iteration of the merge loop changes the store as `UpsertSpec` says |
| Archive.ArchiveStore.UpsertAll | src/index.ts:179-210 | the merge loop changes the store as `UpsertAllSpec` says |
| Archive.ArchiveStore.Prune | src/index.ts:212-222 | the prune loop, deleting while it iterates, changes the store as `PruneSpec` says |
| Archive.CandidateOf | src/index.ts:228-245 | every record in the window whose normalised copy is not an AI HubToday placeholder contributes that copy |
| Archive.CandidateFrom | src/index.ts:228-245 | every collected record is the normalised copy of an input record in the window and not a placeholder |
| Archive.NormalizedSameTime | src/index.ts:229-236 | repairing the title and the display source leaves the event time unchanged |
| Archive.CandidateSource | src/index.ts:228-245 | every collected record is in the window, not a placeholder, and the copy of some archive record |
| Archive.WindowOutputs | src/index.ts:224-256 | every record of the window selection is in the window, not a placeholder, and the normalised copy of an archive record |
| Archive.WindowKeepsOthers | src/index.ts:224-256 | every archive record of a site other than aihubtoday that is in the window is shown |
| Archive.WindowSorted | src/index.ts:248-253 | the window is sorted newest first, and the final sort changes nothing after the AI HubToday normalisation |
| Archive.Window | src/index.ts:224-256 | the loop over the archive values, the normalisation and the sort produce `WindowSpec` |
| Archive.Recent | src/index.ts:343-351 | a record is selected exactly when it is in the input and its event time is at or after the window start |
| Archive.RecentSorted | src/index.ts:343-351 | the 24-hour selection of a newest-first list is newest first |
| Archive.RecentNarrows | src/index.ts:327-351 | selecting a narrower window from a wider one equals selecting it from the start |
| Payload.RawCounts | src/index.ts:269-272 | the raw-count loop yields a valid ordered map |
| Payload.RawCountsAt | src/index.ts:269-272 | each site's raw count is the number of its records, and a site is counted exactly when it has a record |
| Payload.NamesFrom | src/index.ts:274-277 | the name loop over the records yields a valid ordered map |
| Payload.NamesFromAt | src/index.ts:274-277 | a site is named exactly when it has a record, and its name is that of its last record |
| Payload.WithStatusNames | src/index.ts:278-282 | adding the statuses' names keeps a valid ordered map |
| Payload.WithStatusNamesAt | src/index.ts:278-282 | a status adds a site only when none of its records named it, with the name of the first such status; existing names are kept |
| Payload.CountStats | src/index.ts:284-295 | the count loop yields a map in which every row sits under its own site id |
| Payload.CountStep | src/index.ts:285-294 | one step keeps every row under its own site id |
| Payload.CountStatsAt | src/index.ts:284-295 | a site has a row exactly when it has a deduplicated record; the row carries the name of its first such record, its number of deduplicated records and its raw count |
| Payload.AddNamed | src/index.ts:297-306 | adding the named sites keeps every row under its own site id |
| Payload.NamedStep | src/index.ts:298-305 | one step keeps every row under its own site id |
| Payload.AddNamedAt | src/index.ts:297-306 | existing rows are kept; a named site without a row gets one with count 0, its name and its raw count |
| Payload.StatsMap | src/index.ts:266-306 | the statistics map keeps every row under its own site id |
| Payload.NamesAt | src/index.ts:274-282 | `siteNameById` names exactly the sites of the records and the statuses: by the last record when there is one, else by the first status |
| Payload.StatsMapHas | src/index.ts:266-306 | a site has a row exactly when it has a deduplicated record, a record or a status |
| Payload.StatsMapRow | src/index.ts:266-306 | each row counts its site's deduplicated records and all its records, and is named by its first deduplicated record, else its last record, else its first status |
| Payload.SiteStatsRows | src/index.ts:319 | every row of `site_stats` is as the above says |
| Payload.SiteStatsDistinct | src/index.ts:319 | no site has two rows |
| Payload.SiteStatsSorted | src/index.ts:319 | the rows are sorted by descending count |
| Payload.RowOfSite | src/index.ts:319 | every site of the map has a row in `site_stats` |
| Payload.SiteOfRow | src/index.ts:319 | every row of `site_stats` belongs to a site of the map |
| Payload.SiteStatsCover | src/index.ts:266-319 | a site has a row exactly when it has a deduplicated record, a record or a status |
| Payload.CountRaw | src/index.ts:269-272 | the raw-count loop computes `RawCounts` |
| Payload.CollectNames | src/index.ts:274-282 | the two name loops compute the names of the records, then of the statuses |
| Payload.CountSites | src/index.ts:284-295 | the count loop computes `CountStats` |
| Payload.AddNamedSites | src/index.ts:297-306 | the loop over the named sites computes `AddNamed` |
| Payload.SiteStats | src/index.ts:266-319 | the four loops and the sort compute `site_stats` |
| Payload.SourceCountBound | src/index.ts:318 | there are no more distinct `site::source` keys than records, and at least one when there is a record |
| Payload.BuildPayload | src/index.ts:258-325 | the relevant records deduplicated keeping each group's latest, all records deduplicated by some member of each group, the statistics over them, every count field equal to the length it reports, the deduplicated counts no larger than the raw ones and the source count no larger than the item count |
| Payload.ArchivePayloadProperties | src/index.ts:357-365 | the archive payload lists every archive record exactly once, most recently seen first, and its total is the number listed |
| Payload.StatusSitesPartition | src/index.ts:367-374 | successful and failed sites make up all sites, and sites without items are among the successful ones |
| Payload.ListedSites | src/index.ts:371-374 | every failed site id belongs to a failed status, and every zero-item site id to a successful status with no items |
| Payload.RssSummaryCounts | src/index.ts:378-397 | effective and skipped feeds make up all feeds, ok feeds are effective, zero-item feeds are ok ones, failed and ok feeds make up all feeds, and the path is given exactly when the OPML file exists |
| Bilingual.ZhByUrlEntries | src/translate/google.ts:56-63 | every URL cross-reference entry is a non-empty Chinese title, the trimmed title of some record whose normalised URL is that URL |
| Bilingual.EnrichFields | src/translate/google.ts:67-107 | the copy differs from the record only in its bilingual fields; the original title is the trimmed title; a Chinese title keeps itself as Chinese and bilingual title; a title neither Chinese nor mostly English gets neither; a mostly English title is its own English title, and the bilingual title is "zh / title" exactly when a Chinese title was found |
| Bilingual.EnrichLookupOrder | src/translate/google.ts:88-100 | for a mostly English title the URL cross-reference wins, then the cache, and only then the service, which is asked only when translation is allowed and under the per-run limit; its answer is used, cached and counted only when it contains CJK characters; otherwise nothing changes |
| Bilingual.Enrich | src/translate/google.ts:67-108 | `enrich` computes the modelled copy, cache and counter |
| Bilingual.Lookup | src/translate/google.ts:88-100 | the lookup computes the modelled Chinese title, cache and counter |
| Bilingual.EnrichAll | src/translate/google.ts:110-118 | a pass yields one record per input record |
| Bilingual.EnrichAllAt | src/translate/google.ts:110-118 | the i-th output is the enrichment of the i-th input in the state the earlier ones left |
| Bilingual.EnrichAllSnoc | src/translate/google.ts:110-118 | a pass over one more record appends that record's enrichment and takes its state |
| Bilingual.EnrichAllValid | src/translate/google.ts:97 | the cache stays a valid ordered map |
| Bilingual.CounterBound | src/translate/google.ts:93-98 | the number of new translations never decreases and never exceeds the per-run limit |
| Bilingual.NoTranslateKeepsState | src/translate/google.ts:115-118 | the pass over all records, which may not translate, changes neither the cache nor the counter |
| Bilingual.EnrichState1 | src/translate/google.ts:88-100 | one enrichment either leaves the state alone or caches the service's CJK answer for a title without a non-empty cache entry and counts one translation |
| Bilingual.CacheKeeps | src/translate/google.ts:90-97 | no cache key is lost, and a non-empty cached title is never replaced |
| Bilingual.CacheAdditions | src/translate/google.ts:93-98 | every new or changed cache entry is the service's CJK answer for the trimmed title of some relevant record |
| Bilingual.AddBilingualShape | src/translate/google.ts:47-121 | each list keeps its length, the returned cache is the one the relevant pass left, and at most the limit of translations was made |
| Bilingual.BuildZhByUrl | src/translate/google.ts:56-63 | the cross-reference loop computes `ZhByUrl` |
| Bilingual.EnrichPass | src/translate/google.ts:110-118 | a loop of `enrich` calls computes `EnrichAll` |
| Bilingual.AddBilingualFields | src/translate/google.ts:47-121 | the cross-reference, the relevant pass and the all-records pass compute `AddBilingualSpec` |
| Bilingual.LoadSpec | src/translate/google.ts:123-131 | loading the cache file yields a valid ordered map |
| Bilingual.LoadKeeps | src/translate/google.ts:123-131 | a key is loaded exactly when some member has it with a non-blank key and a non-blank value |
| Bilingual.LoadNonBlank | src/translate/google.ts:123-131 | every loaded key and value is non-blank |
| Bilingual.LoadTitleZhCache | src/translate/google.ts:123-131 | the loop computes `LoadSpec` of the object's members |
| Bilingual.CopySpec | src/translate/google.ts:133-139 | copying into an object yields a valid ordered map |
| Bilingual.CopyPrefix | src/translate/google.ts:133-139 | copying a prefix of the cache gives its keys in order, each with its value |
| Bilingual.CacheToPojo | src/translate/google.ts:133-139 | the loop computes `CopySpec` of the cache's entries |
| Bilingual.PojoIsCache | src/translate/google.ts:133-139 | the written object is the cache itself, order included |
| Bilingual.LoadOfPojo | src/translate/google.ts:123-139 | for a cache of non-blank entries, loading each prefix of the written object equals copying it |
| Bilingual.RoundTrip | src/translate/google.ts:123-139 | writing a cache of non-blank entries and loading it back gives the same cache |
| Scanner.RunAppend | src/fetchers/newsnow.ts:22-47 | scanning two texts one after the other is scanning their concatenation |
| Scanner.CloseFrom | src/fetchers/newsnow.ts:22-47 | when the scan closes, it does so at an index at or after its start holding the closing character |
| Scanner.CloseFromFirst | src/fetchers/newsnow.ts:22-47 | the scan stops at the first character that closes the outermost delimiter outside strings, and reports none exactly when no character does |
| Scanner.CloseFromBalanced | src/fetchers/newsnow.ts:38-45 | from depth one or more, the depth stays at least one until the closing index and is zero just after it |
| Scanner.QuotedBodyKeepsState | src/fetchers/newsnow.ts:24-32 | inside a string, a body of ordinary and escaped characters changes nothing, whatever delimiters it holds |
| Scanner.QuotedLiteralKeepsState | src/fetchers/newsnow.ts:24-37 | a whole double-quoted literal leaves the depth and the rest of the state as they were |
| Scanner.ScanClose | src/fetchers/waytoagi.ts:18-43 | the character loop (shared with newsnow.ts:22-47 and aihot.ts:41-64) computes `CloseFrom` |
| Markup.LazyAt | src/fetchers/wechat-rss.ts:102 | a lazy block starting at an index closes at the first closing text after the opening text; there is none exactly when the opening text is not there or no closing text follows |
| Markup.NextLazy | src/fetchers/wechat-rss.ts:102 | the search finds the leftmost lazy block at or after its start, or none when there is none |
| Markup.LazyMatches | src/fetchers/wechat-rss.ts:102-104 | the `g` search yields lazy blocks in order, each starting after the previous one ends |
| Markup.Blocks | src/fetchers/youtube.ts:30-33 | there is one block text per match |
| Markup.BlockShape | src/fetchers/youtube.ts:30-33 | each block starts with the opening text, ends with the closing text, and holds the closing text nowhere else after the opening text |
| Markup.IndexOfFromFinds | src/fetchers/wechat-rss.ts:102 | a search from an index finds the first occurrence at or after it |
| Markup.ClassAt | src/fetchers/wechat-rss.ts:107-109 | a capture at an index is a run of the class at least as long as required |
| Markup.ClassAtMeaning | src/fetchers/wechat-rss.ts:107-109 | the capture at an index is `c` exactly when the opening text is there, followed by `c`, all of the class and long enough, followed by the closing text |
| Markup.RunEndAt | src/fetchers/wechat-rss.ts:107-109 | a run of the class ends at the first character outside it |
| Markup.NextClass | src/fetchers/youtube.ts:35-40 | the search finds the leftmost index with a capture, or none when no index has one |
| Markup.NextClassNone | src/fetchers/youtube.ts:35-40 | when no index from a position has a capture, the search finds none |
| Markup.ClassCaptureFrom | src/fetchers/wechat-rss.ts:91 | a capture found from a position is a run of the class at least as long as required |
| Markup.ClassCapture | src/fetchers/wechat-rss.ts:92 | a capture is a run of the class at least as long as required |
| Markup.TagCaptureReadsBack | src/fetchers/wechat-rss.ts:107-108 | a non-empty text without `<` between an opening and a closing tag is captured exactly |
| WechatRss.NoLeadNoPattern | src/fetchers/wechat-rss.ts:81-87 | a text without the first character of a pattern does not contain the pattern |
| WechatRss.DecodePlain | src/fetchers/wechat-rss.ts:80-88 | a text without `&` is decoded to itself |
| WechatRss.DecodeTwice | src/fetchers/wechat-rss.ts:81-83 | the replacements run one after another, so "&amp;lt;" decodes to "<" |
| WechatRss.NextChannel | src/fetchers/wechat-rss.ts:91 | the search finds the leftmost `<channel>` from which a title capture follows, or none when there is none |
| WechatRss.ChannelFirst | src/fetchers/wechat-rss.ts:91 | without `<channel>` there is no channel title; otherwise the channel title is the first title capture after the first `<channel>` |
| WechatRss.ArticleCases | src/fetchers/wechat-rss.ts:107-117 | an item block gives an article exactly when it has a title and a link capture; the article holds the decoded title and link, and an empty description when it has none |
| WechatRss.ParsedFeedShape | src/fetchers/wechat-rss.ts:90-121 | no channel title match gives "", the build date is the `Date` of its capture or none, and the articles are, in order, those of the item blocks that give one |
| WechatRss.CollectArticles | src/fetchers/wechat-rss.ts:104-118 | the item loop keeps the articles of the blocks that give one, in order |
| WechatRss.FeedItemsShape | src/fetchers/wechat-rss.ts:145-164 | a feed that fails to load gives nothing; otherwise one candidate per article with its title and URL, the feed's build date, the feed's category, a description of the article's first 200 characters, and the feed's name as source when it has one |
| WechatRss.FetchSpecFrom | src/fetchers/wechat-rss.ts:127-167 | every candidate comes from a feed that loaded |
| WechatRss.PushFeedItems | src/fetchers/wechat-rss.ts:150-163 | the article loop maps each article to its candidate |
| WechatRss.Fetch | src/fetchers/wechat-rss.ts:127-167 | the feed loop computes the modelled candidates of all feeds, in feed order |
| YouTube.VideoCases | src/fetchers/youtube.ts:35-53 | an entry gives a video exactly when it has a video id, a title, an alternate link and a published capture; the video holds them (title decoded), a description of at most 200 characters, and "" or 0 for a missing thumbnail, view count or description |
| YouTube.VideoFieldsClean | src/fetchers/youtube.ts:35-40 | the video id is non-empty without `<`, the URL is non-empty without `"`, the thumbnail has no `"`, and the view count capture is all digits |
| YouTube.DecodeTitleTwice | src/fetchers/youtube.ts:46 | the replacements run one after another, so "&amp;quot;" decodes to `"` |
| YouTube.ParseEntries | src/fetchers/youtube.ts:32-54 | the entry loop keeps the videos of the complete entries, in order |
| YouTube.ChannelItemsShape | src/fetchers/youtube.ts:67-97 | a channel that fails to load gives nothing; every other gives one candidate per video, with the channel's name as source and the video's title, URL, time, id, thumbnail and views |
| YouTube.SourcesAreChannelNames | src/fetchers/youtube.ts:82-98 | every candidate's source is the name of a channel whose feed loaded |
| YouTube.PushVideos | src/fetchers/youtube.ts:83-97 | the video loop maps each video to its candidate |
| YouTube.Fetch | src/fetchers/youtube.ts:63-101 | the channel loop computes the modelled candidates of all channels, in channel order |
| Newsnow.KeyMatchAt | src/fetchers/newsnow.ts:54 | a key match at an index is a non-empty run of `[a-zA-Z0-9_-]` and ends just after a `:` |
| Newsnow.KeysFrom | src/fetchers/newsnow.ts:54 | every key read out of the object is a non-empty run of key characters |
| Newsnow.FirstIndex | src/fetchers/newsnow.ts:72 | the index of the first occurrence, and the length exactly when there is none |
| Newsnow.SourceIdsMembers | src/fetchers/newsnow.ts:69-75 | the ids are exactly the keys that are not settings names, each once |
| Newsnow.SourceIdsOrder | src/fetchers/newsnow.ts:69-75 | the ids come in the order of their first occurrence among the keys |
| Newsnow.SourceIdsDefaults | src/fetchers/newsnow.ts:9-51 | without the marker, or with a marker whose object never closes, the six default ids are returned |
| Newsnow.SourceIdsFound | src/fetchers/newsnow.ts:9-78 | with a closed object from the marker, the scan ends at its first closing brace and the ids are the distinct non-settings keys of that object, in first-occurrence order |
| Newsnow.ExtractSourceIds | src/fetchers/newsnow.ts:9-78 | the scanning loop and the key loop compute `SourceIdsSpec` |
| Newsnow.ParseJuejinId | src/fetchers/newsnow.ts:90-101 | a time is given only for an id of 18 to 20 digits, and only within 30 days before to one day after now |
| Newsnow.JuejinIdRoundTrip | src/fetchers/newsnow.ts:88-97 | an id built from a time in the window and any low 22 bits reads back as that time |
| Newsnow.JuejinIdOutsideWindow | src/fetchers/newsnow.ts:95-96 | an id whose time is more than a day ahead or more than 30 days back gives none |
| Newsnow.SourceLabelCases | src/fetchers/newsnow.ts:168-170 | a block without title, name or description is labelled by its id; a block whose trimmed title differs from its id is labelled "title (id)" |
| Newsnow.PublishedAtOrder | src/fetchers/newsnow.ts:177-183 | a parseable `pubDate` wins; outside Juejin the time is the `pubDate` or the extra date; a time from the Juejin id lies within 30 days before to one day after now |
| Newsnow.BlockItemsComplete | src/fetchers/newsnow.ts:172-194 | every candidate of a block comes from one of its items with a non-empty trimmed title and URL, every such item gives its candidate, and there is one candidate per such item |
| Newsnow.BlockEntries | src/fetchers/newsnow.ts:172-194 | the item loop computes `BlockItems` |
| Newsnow.FetchItems | src/fetchers/newsnow.ts:165-197 | the block loop computes the candidates of all blocks, in block order |
| Waytoagi.ClientVarsResult | src/fetchers/waytoagi.ts:7-48 | a page without the `clientVars` marker fails with the marker error; otherwise the payload is the text from after the marker to the first `)` that closes the call outside strings, ending at depth one outside a string, or the unbalanced error when none does |
| Waytoagi.ExtractFeishuClientVars | src/fetchers/waytoagi.ts:7-48 | the scanning loop computes `ClientVarsSpec` |
| Waytoagi.ParseIntOfIndex | src/fetchers/waytoagi.ts:56 | `parseInt` of a decimal index gives that index back |
| Waytoagi.SegmentBeforeIsStrictOrder | src/fetchers/waytoagi.ts:56 | ordering the text segments by their numeric index is a strict order |
| Waytoagi.BlockTextOrder | src/fetchers/waytoagi.ts:50-58 | the segments are put in index order without losing or adding any, and segments already in order are joined and trimmed as they are |
| Waytoagi.NumberThenAt | src/fetchers/waytoagi.ts:61-67 | one or two digits followed by the unit character are read as a number ending just before the unit |
| Waytoagi.MdHeadingRoundTrip | src/fetchers/waytoagi.ts:66-70 | a heading "M月D日…" with a month and day of at most two digits reads back as that month and day |
| Waytoagi.TwentiethCenturyYear | src/fetchers/waytoagi.ts:61 | a year from 2000 to 2099 is written as four digits starting "20" |
| Waytoagi.YmHeadingRoundTrip | src/fetchers/waytoagi.ts:60-64 | a heading "YYYY年M月…" with a year from 2000 to 2099 reads back as that year and month |
| Waytoagi.InferYearMeaning | src/fetchers/waytoagi.ts:72-85 | for a month and day that exist this year and last, the inferred year's date reads back as that month and day, lies at most two days after now, and is last year's exactly when this year's lies more than two days ahead; it agrees with the month-day rule of `parseRelativeTimeZh` |
| Waytoagi.GatherMembers | src/fetchers/waytoagi.ts:97-106 | a value is gathered exactly when some block yields it |
| Waytoagi.NearLogParentsMembers | src/fetchers/waytoagi.ts:97-106 | every near-log parent id is non-empty, trimmed, and the parent of a heading whose text names the seven-day update log |
| Waytoagi.NearLogParentsComplete | src/fetchers/waytoagi.ts:97-106 | the non-empty trimmed parent of every such heading is a near-log parent |
| Waytoagi.CollectNearLogParents | src/fetchers/waytoagi.ts:97-106 | the loop computes `NearLogParents` |
| Waytoagi.BuildMap | src/fetchers/waytoagi.ts:117-141 | a loop over the blocks that sets the entries the step yields computes `Tabulate` |
| Waytoagi.TabulateByIds | src/fetchers/waytoagi.ts:117-141 | for blocks with distinct ids, a block's id is a key exactly when the block yields an entry, with the value it yields, and every key is a block id |
| Waytoagi.SameIdSameBlock | src/fetchers/waytoagi.ts:97 | distinct ids identify blocks |
| Waytoagi.Heading3DatesFiltered | src/fetchers/waytoagi.ts:117-134 | a block is dated exactly when it is a third-level heading with a month and day whose parent is a near-log parent (when there are any); its date is the inferred year with the zero-padded month and day |
| Waytoagi.ParentMapEntries | src/fetchers/waytoagi.ts:136-141 | a block is mapped exactly when its trimmed parent id is non-empty, to that id |
| Waytoagi.WalkFinds | src/fetchers/waytoagi.ts:143-152 | the walk returns the date of the first dated ancestor within the hop limit, and returns it whenever there is one |
| Waytoagi.FirstDatedUnique | src/fetchers/waytoagi.ts:143-152 | there is only one first dated ancestor |
| Waytoagi.NearestIsClosest | src/fetchers/waytoagi.ts:143-152 | the nearest heading date is a date exactly when it is that of the closest dated ancestor fewer than 20 hops up |
| Waytoagi.NearestHeadingDate | src/fetchers/waytoagi.ts:143-152 | the walking loop computes `NearestSpec` |
| Waytoagi.FirstUpdatesAreFirst | src/fetchers/waytoagi.ts:154-169 | no two updates share a date and title, and the first update with each key is kept |
| Waytoagi.FirstUpdatesFrom | src/fetchers/waytoagi.ts:154-169 | every update comes from a block |
| Waytoagi.FirstUpdatesComplete | src/fetchers/waytoagi.ts:154-169 | every key some block yields has an update |
| Waytoagi.FirstWithKey | src/fetchers/waytoagi.ts:166-167 | every element has an earliest element with its key |
| Waytoagi.RecentUpdatesProperties | src/fetchers/waytoagi.ts:87-172 | the updates have distinct date-and-title keys, carry the page URL, a date and a non-empty, trimmed, single-spaced title |
| Waytoagi.RecentUpdatesSources | src/fetchers/waytoagi.ts:154-169 | every update is an entry block's cleaned text with its nearest heading date, and every entry block that yields an update has its key among them |
| Waytoagi.CollectUpdates | src/fetchers/waytoagi.ts:154-169 | the loop with the `seen` set computes `FirstUpdates` |
| Waytoagi.ExtractRecentUpdates | src/fetchers/waytoagi.ts:87-172 | the five loops compute `RecentUpdatesSpec` |
| Waytoagi.UpdateBeforeIsStrictOrder | src/fetchers/waytoagi.ts:236-239 | newest date first, then title, is a strict order |
| Waytoagi.DedupUpdates | src/fetchers/waytoagi.ts:220-226 | the loop keeps the first update per key, in order |
| Waytoagi.ReadPage | src/fetchers/waytoagi.ts:204-205 | reading a page's blocks computes `PageBlocks` |
| Waytoagi.GatherUpdates | src/fetchers/waytoagi.ts:200-218 | the root page and the history page are read as `GatheredUpdates` says |
| Waytoagi.FetchRecent7d | src/fetchers/waytoagi.ts:196-275 | the whole fetch computes `Recent7dSpec` |
| Waytoagi.Recent7dOnError | src/fetchers/waytoagi.ts:259-274 | a failure on the root page gives the error payload: error flag and message, the failure warning, no history URL or latest date, empty lists and zero counts |
| Waytoagi.HistoryErrorsIgnored | src/fetchers/waytoagi.ts:207-218 | once the root page is read, the result starts with its updates and never fails, and without a distinct history URL it is just those |
| Waytoagi.Recent7dList | src/fetchers/waytoagi.ts:220-239 | the seven-day list holds exactly the first update per key dated between six days ago and today, each once, newest date first then by title |
| Waytoagi.WindowSortedProperties | src/fetchers/waytoagi.ts:233-239 | the filtered list holds exactly the updates in the date window, keeps distinct keys and is sorted |
| Waytoagi.FilterKeysDistinct | src/fetchers/waytoagi.ts:233-235 | filtering keeps keys distinct |
| Waytoagi.SortedHead | src/fetchers/waytoagi.ts:241-242 | the latest date is absent exactly when the list is empty and no date is later; today's updates are the listed ones with the latest date, all of them |
| Waytoagi.Recent7dOnSuccess | src/fetchers/waytoagi.ts:228-258 | a successful run reports no error, the history URL, the sorted seven-day list, its latest date and that date's updates, their counts, and the empty-list warning exactly when the list is empty |
| Aihot.MatchAt | src/fetchers/aihot.ts:8 | a chunk match starting at an index ends at the first closing text after the opening text; there is none exactly when the opening text is not there or no closing text follows |
| Aihot.NextMatch | src/fetchers/aihot.ts:8 | the search finds the leftmost chunk match at or after its start, or none when there is none |
| Aihot.Matches | src/fetchers/aihot.ts:8 | the `g` search yields matches in order, each starting after the previous one ends |
| Aihot.Chunks | src/fetchers/aihot.ts:8 | there is one chunk text per match |
| Aihot.RecaptureOfChunk | src/fetchers/aihot.ts:12-15 | matching a chunk again captures the same payload as the first search |
| Aihot.NextFMergedIsCaptures | src/fetchers/aihot.ts:7-23 | no chunk gives ""; otherwise the payloads are joined and decoded as a JSON string, or unescaped when that throws |
| Aihot.UnescapedPlain | src/fetchers/aihot.ts:21 | a text without backslashes is unescaped to itself |
| Aihot.SnippetStart | src/fetchers/aihot.ts:29-32 | the two skipping loops stop within the text |
| Aihot.SnippetSpan | src/fetchers/aihot.ts:25-66 | a snippet found is a non-empty range of the text |
| Aihot.BalancedJsonSpec | src/fetchers/aihot.ts:25-73 | a missing key fails with "Key not found", a snippet that never closes with "Cannot parse JSON for key", and otherwise the result is the parse of the cleaned snippet |
| Aihot.SnippetShape | src/fetchers/aihot.ts:26-66 | the snippet starts at the first `{` or `[` after the first `:` after the key, ends with the matching closer, and stays at depth one or more until its last character |
| Aihot.NoSnippetCases | src/fetchers/aihot.ts:29-66 | no snippet means no `:` after the key, no opening bracket after it, or an opening bracket that never closes |
| Aihot.DateMarkersAbsent | src/fetchers/aihot.ts:70 | a text without "$D" is left as it is |
| Aihot.DateMarkerStripped | src/fetchers/aihot.ts:70 | a quoted "$D" value loses its marker and the rest is cleaned on |
| Aihot.RunEndStopsAt | src/fetchers/aihot.ts:70 | a run of non-quote characters ends at the first quote |
| Aihot.FindSnippetStart | src/fetchers/aihot.ts:29-32 | the two skipping loops compute `SnippetStart` |
| Aihot.ExtractBalancedJson | src/fetchers/aihot.ts:25-73 | the skipping loops and the scanning loop compute `BalancedJsonSpec` |
| Aihot.SourceMapEntries | src/fetchers/aihot.ts:137-140 | a key is in the source map exactly when a source carries it as a non-empty id; it maps to its last source's title, else the id; no name is empty |
| Aihot.TabulateValueFrom | src/fetchers/aihot.ts:137-140 | every entry of the map comes from some source |
| Aihot.ItemOutCases | src/fetchers/aihot.ts:146-161 | an item gives a candidate exactly when its trimmed title (the translated one first) and its trimmed link are non-empty; the candidate has the site, the source name, the repaired title, the link, and the parsed publish time or else now |
| Aihot.TitleTransFirst | src/fetchers/aihot.ts:147 | a non-empty translated title is preferred to the title |
| Aihot.ListItemsComplete | src/fetchers/aihot.ts:142-163 | the candidates of a list come from its items, every item that gives one is there, and there is one per such item |
| Aihot.ItemOutShaped | src/fetchers/aihot.ts:146-161 | every candidate has the shape stated above |
| Aihot.ListItemsShape | src/fetchers/aihot.ts:142-163 | every candidate of a list carries that list's source name |
| Aihot.AllItemsShape | src/fetchers/aihot.ts:142-163 | every candidate carries the source name of one of the lists |
| Aihot.FetchInputsPrecedence | src/fetchers/aihot.ts:107-135 | when the flight data decode and both values are cut out of it, those are used; otherwise the `__NEXT_DATA__` values are used when both are there, and else nothing |
| Aihot.BuildSourceMap | src/fetchers/aihot.ts:137-140 | the loop computes `SourceMapOf` |
| Aihot.ListEntries | src/fetchers/aihot.ts:146-162 | the item loop keeps the candidates of the items that give one, in order |
| Aihot.CollectItems | src/fetchers/aihot.ts:142-163 | the list loop computes `AllItems` |
| Aihot.Fetch | src/fetchers/aihot.ts:103-166 | the whole fetch computes `FetchSpec` |
| Aihot.FindInputs | src/fetchers/aihot.ts:107-135 | the two values the method finds are the pair `FetchInputs` chooses, and either missing means no inputs |
| OpmlRss.AdmitDescribes | src/fetchers/opml-rss.ts:27-42 | one outline's own step keeps `feeds` and `seen` equal to the first feed per address of everything visited, with its own feed added |
| OpmlRss.Regroup | src/fetchers/opml-rss.ts:26-47 | regrouping the visited parts leaves their concatenation unchanged |
| OpmlRss.VisitDescribes | src/fetchers/opml-rss.ts:22-48 | the recursive walk keeps `feeds` and `seen` equal to the first feed per address of the outlines visited so far, in depth-first document order |
| OpmlRss.OpmlIsFirstPerAddress | src/fetchers/opml-rss.ts:12-56 | the subscriptions are the first feed per trimmed address in depth-first document order: distinct addresses, every first occurrence kept, nothing else |
| OpmlRss.CandidatesShape | src/fetchers/opml-rss.ts:28-41 | every feed has a non-empty trimmed address and a non-empty title |
| OpmlRss.ProcessOutline | src/fetchers/opml-rss.ts:22-48 | the recursive method with its loop computes `Visit` |
| OpmlRss.ResolveOfficialRssUrl | src/fetchers/opml-rss.ts:58-78 | an address is resolved exactly when no skip reason is given, and a resolved address is non-empty |
| OpmlRss.ResolvePrecedence | src/fetchers/opml-rss.ts:58-78 | a blank address is "empty_url"; an exact skip entry "no_official_rss_or_unreachable"; a skip prefix "no_official_rss_for_source_type"; otherwise the replacement when one is configured, else the trimmed address |
| OpmlRss.EntryItemCases | src/fetchers/opml-rss.ts:107-131 | an entry gives a candidate exactly when its trimmed title and link are non-empty and its `pubDate` or `isoDate` parses; the candidate carries the source name, the trimmed title and link and that time |
| OpmlRss.SingleFeedStatus | src/fetchers/opml-rss.ts:80-165 | the status counts the candidates, is never skipped, names the original and the effective address and is "replaced" exactly when they differ; a failed read gives no candidates and its error; a successful one is ok, without error, with one candidate per usable entry |
| OpmlRss.FeedEntries | src/fetchers/opml-rss.ts:107-131 | the entry loop keeps the candidates of the usable entries, in order |
| OpmlRss.FetchSingleFeed | src/fetchers/opml-rss.ts:80-165 | the method computes `SingleFeedSpec` |
| OpmlRss.Considered | src/fetchers/opml-rss.ts:180-182 | a positive limit keeps the first that many feeds, and a zero or negative one keeps them all |
| OpmlRss.ByStatusKeyIsStrictOrder | src/fetchers/opml-rss.ts:242-244 | ordering statuses by feed title, else feed address, is a strict order |
| OpmlRss.SkipOrResolve | src/fetchers/opml-rss.ts:192-223 | every feed is either skipped or resolved |
| OpmlRss.SkipAndResolveShapes | src/fetchers/opml-rss.ts:192-223 | a skipped feed's status is ok, counts nothing, takes no time, has no error or effective address, is not replaced and carries its reason; a resolved feed keeps its original address and takes the resolved one; a feed is skipped exactly when it is not resolved |
| OpmlRss.SummaryMeaning | src/fetchers/opml-rss.ts:246-257 | the summary counts all candidates and sums the durations, is ok exactly when some feed is ok and not skipped, and has no error exactly when every feed is ok |
| OpmlRss.RunOverStatuses | src/fetchers/opml-rss.ts:188-244 | there is one status per considered feed, sorted by title, namely the skipped feeds' statuses and the fetched feeds' statuses |
| OpmlRss.OpmlRunSummary | src/fetchers/opml-rss.ts:167-260 | the run has one sorted status per considered subscription, and its summary is as stated above |
| OpmlRss.CountPositive | src/fetchers/opml-rss.ts:247-253 | a count is positive exactly when some element satisfies the test |
| OpmlRss.ResolveFeeds | src/fetchers/opml-rss.ts:192-223 | the loop computes the skipped statuses and the resolved feeds, each in feed order |
| OpmlRss.FetchAll | src/fetchers/opml-rss.ts:229-240 | the result loop concatenates the feeds' candidates and collects their statuses, in feed order |
| OpmlRss.FetchOpmlRss | src/fetchers/opml-rss.ts:167-260 | the whole run computes `FetchOpmlRssSpec` |
| NewsData.FilterWhen | web/src/hooks/useNewsData.ts:95-110 | a filter applied only when its selection is not "all" (or the query not blank) is one filter by a test that holds everywhere when switched off |
| NewsData.NarrowedIsFilter | web/src/hooks/useNewsData.ts:93-110 | the chain of site, source and search filters keeps, in loaded order, exactly the items from the site and the source (unless "all") that mention the lower-cased query (unless it is blank) |
| NewsData.PageOfSelection | web/src/hooks/useNewsData.ts:90-144 | the page is the first `displayCount` selected items in loaded order (all of them when fewer), every item on it is selected, there are no items before data has loaded, and `hasMore` holds exactly when the page is shorter than the total |
| NewsData.LoadMoreExtends | web/src/hooks/useNewsData.ts:112-142 | loading more keeps the page shown as a prefix and grows it by up to one page size, capped by the total |
| NewsData.TallySources | web/src/hooks/useNewsData.ts:78-83 | the counting map has one key per source that occurs among the site's items |
| NewsData.TallyExact | web/src/hooks/useNewsData.ts:78-83 | each source's count is the number of the site's items with that source |
| NewsData.TallyTotal | web/src/hooks/useNewsData.ts:78-86 | the counts add up to the number of the site's items |
| NewsData.TallyMeaning | web/src/hooks/useNewsData.ts:78-83 | the counting map holds exactly the sources that occur, each with the number of its items |
| NewsData.TallyPrefix | web/src/hooks/useNewsData.ts:81-83 | counting one more item bumps that item's source by one |
| NewsData.StatsOfEntries | web/src/hooks/useNewsData.ts:85-86 | the `{ source, count }` list of a map has one entry per key, with that key's count |
| NewsData.SortedStats | web/src/hooks/useNewsData.ts:85-87 | sorted by count, largest first, the list keeps one entry per key with its count and the same sum |
| NewsData.SortedTally | web/src/hooks/useNewsData.ts:78-87 | the sorted counts of a list: largest first, one entry per distinct source, each the number of its items, adding up to the number of items |
| NewsData.SourceStatsMeaning | web/src/hooks/useNewsData.ts:75-88 | for a site other than "all", `sourceStats` lists each distinct source of the site's items once with its item count, largest first, the counts adding up to the site's item count |
| NewsData.CountSources | web/src/hooks/useNewsData.ts:78-83 | the counting loop computes the per-source counts in first-seen order |
| NewsData.ComputeSourceStats | web/src/hooks/useNewsData.ts:75-88 | `sourceStats` is empty before data has loaded or for the site "all", and otherwise the sorted counts of the site's items |
| NewsData.NewsDataHook.constructor | web/src/hooks/useNewsData.ts:35-42 | no data, empty query, site "opmlrss", source "all", one page of 50, the last 24 hours |
| NewsData.NewsDataHook.Receive | web/src/hooks/useNewsData.ts:54-55 | a loaded payload replaces the data and leaves every selection as it was |
| NewsData.NewsDataHook.LoadMore | web/src/hooks/useNewsData.ts:140-142 | the display count grows by one page and nothing else changes |
| NewsData.NewsDataHook.SetSearchQuery | web/src/hooks/useNewsData.ts:151-153 | the query is set and a changed query resets the display count to one page |
| NewsData.NewsDataHook.SetSelectedSite | web/src/hooks/useNewsData.ts:151-157 | the site is set and a changed site resets the display count and the source to "all" |
| NewsData.NewsDataHook.SetSelectedSource | web/src/hooks/useNewsData.ts:151-153 | the source is set and a changed source resets the display count |
| NewsData.NewsDataHook.SetTimeRange | web/src/hooks/useNewsData.ts:67-73 | changing the time range puts the page, site, source and query back to their defaults and keeps the data |
| NewsData.NewsDataHook.Refresh | web/src/hooks/useNewsData.ts:146-149 | refreshing goes back to one page and keeps every selection |
| Persisted.OldestIsStrictOrder | web/src/hooks/useFavorites.ts:30 | comparing by timestamp is a strict order, so the sort is a stable sort by it |
| Persisted.FromPairsDistinct | web/src/hooks/useFavorites.ts:32 | `Object.fromEntries` of pairs with distinct urls has exactly those urls in the order of the pairs |
| Persisted.SuffixPairs | web/src/hooks/useFavorites.ts:31-32 | the object made from the kept suffix holds exactly the pairs of the suffix, in order |
| Persisted.SortedEntries | web/src/hooks/useFavorites.ts:28-30 | the sorted entries are the map's entries, one per url, oldest first |
| Persisted.NewestSuffix | web/src/hooks/useFavorites.ts:30-32 | the suffix kept holds entries of the map, oldest first, and no entry left out is newer than one kept |
| Persisted.TrimmedKeepsNewest | web/src/hooks/useVisitedLinks.ts:34-46 | a save writes at most the capacity, each written entry unchanged from the map, none left out newer than one written, and a map within capacity as it is |
| Persisted.TrimmedOverKeepsNewest | web/src/hooks/useFavorites.ts:29-32 | over capacity, the entries written are the `cap` newest, each unchanged, listed oldest first |
| Persisted.KeepsAll | web/src/hooks/useFavorites.ts:29-34 | a map within capacity is written as it is |
| Favorites.GetStoredFavorites | web/src/hooks/useFavorites.ts:11-24 | the stored favourites when the text parses and holds some, otherwise (nothing stored, empty text, a parse error, no member) an empty map |
| Favorites.CountIsFavorites | web/src/hooks/useFavorites.ts:77-93 | the count is the number of urls that are favourites |
| Favorites.AddedOthersUnchanged | web/src/hooks/useFavorites.ts:47-52 | adding maps the url to the new timestamp and title, leaves every other url as it was, and grows the count exactly when the url was new |
| Favorites.RemovedOnlyThat | web/src/hooks/useFavorites.ts:54-60 | removing drops that url only and shrinks the count exactly when it was a favourite |
| Favorites.ToggledFlips | web/src/hooks/useFavorites.ts:62-75 | toggling flips the url's membership, records the new timestamp and title when added, and touches no other url |
| Favorites.ToggleTwice | web/src/hooks/useFavorites.ts:62-75 | toggling a url that is not a favourite twice gives back the same map, key order included |
| Favorites.SavedKeepsNewest | web/src/hooks/useFavorites.ts:4-38 | with more than 500 favourites exactly the 500 newest are written, each unchanged; up to 500 the map is written as it is |
| Favorites.FavoritesHook.constructor | web/src/hooks/useFavorites.ts:41-45 | the state starts from storage and the effect writes it back, trimmed |
| Favorites.FavoritesHook.AddFavorite | web/src/hooks/useFavorites.ts:43-52 | the state becomes the map with the url added and its trimmed form is written |
| Favorites.FavoritesHook.RemoveFavorite | web/src/hooks/useFavorites.ts:43-60 | the state becomes the map without the url and its trimmed form is written |
| Favorites.FavoritesHook.ToggleFavorite | web/src/hooks/useFavorites.ts:43-75 | the state becomes the toggled map and its trimmed form is written |
| Favorites.FavoritesHook.ClearAll | web/src/hooks/useFavorites.ts:43-84 | the state becomes empty and, after the key is removed, the effect writes the empty map back |
| VisitedLinks.Migrated | web/src/hooks/useVisitedLinks.ts:19-23 | the migrated map has the same urls in the same order, each with its stored timestamp and an empty title |
| VisitedLinks.Migrate | web/src/hooks/useVisitedLinks.ts:19-23 | the migration loop builds that map |
| VisitedLinks.StoredLinksCases | web/src/hooks/useVisitedLinks.ts:11-32 | nothing stored, empty text, a parse error or no member give no links; the older format is migrated with its urls and timestamps; the current format is returned as it is |
| VisitedLinks.MarkedOthersUnchanged | web/src/hooks/useVisitedLinks.ts:55-64 | marking records the url with the new timestamp and its title (empty when missing), leaves every other url as it was, and grows the count exactly when the url was new |
| VisitedLinks.MarkedAgainKeepsOrder | web/src/hooks/useVisitedLinks.ts:55-60 | marking an already visited url moves no url in the key order |
| VisitedLinks.CountIsVisited | web/src/hooks/useVisitedLinks.ts:62-76 | the count is the number of visited urls |
| VisitedLinks.SavedKeepsNewest | web/src/hooks/useVisitedLinks.ts:4-46 | with more than 1000 links exactly the 1000 newest are written, each unchanged; up to 1000 the map is written as it is |
| VisitedLinks.VisitedLinksHook.constructor | web/src/hooks/useVisitedLinks.ts:11-53 | the state starts from storage, migrating the older format with the loop, and the effect writes it back, trimmed |
| VisitedLinks.VisitedLinksHook.MarkAsVisited | web/src/hooks/useVisitedLinks.ts:51-60 | the state becomes the marked map and its trimmed form is written |
| VisitedLinks.VisitedLinksHook.ClearAll | web/src/hooks/useVisitedLinks.ts:51-69 | the state becomes empty and, after the key is removed, the effect writes the empty map back |

## Left out

- Network, retries and timeouts (`src/utils/http.ts`, `fetch`, `rss-parser`), the cheerio scrapers and the `runFetcher` timing wrapper are not modelled. Fetched text and failures are inputs of the fetch-result functions.
- `pLimit` fan-outs and `Promise.all` are not modelled. Their results are taken as lists in input order, which is the order `Promise.all` returns.
- SHA-1, the WHATWG URL parser and serializer, `JSON.parse`/`JSON.stringify`, `fast-xml-parser`, `xml2js`, dayjs, `TextDecoder` and the `Buffer` latin1 reinterpretation are foreign code. They are function parameters, and only the properties the core relies on are taken as given.
- Regular expressions are written out as explicit scanning functions for the specific patterns the core uses. No general regex engine is modelled.
- Local-time calendar arithmetic uses a fixed offset from UTC, because the host time zone and its daylight-saving rules are not part of the program. A number that `new Date` rejects (`isNaN(d.getTime())`) is modelled as `None`.
- The clock (`Date.now()`, `new Date()`) and `performance.now()` durations are parameters.
- `Math.random` in the random dedupe mode is a nondeterministic choice. The proved property is that each pick belongs to its group, and it is stated over all such choices.
- Floating-point input, such as `parseFloat` on timestamps, is not modelled: timestamps are integer milliseconds, and `parseInt` reads decimal digits exactly.
- `toLowerCase` is modelled on ASCII letters only, and `localeCompare` is modelled as code-point order.
- String lengths, including the 200-character description cut, count code points rather than UTF-16 code units.
- `Object.entries` on plain objects lists integer-like keys first in JavaScript. The model keeps plain insertion order for every key.
- File I/O is not modelled: the archive, cache and output JSON files, `writeJson`, and the command-line options (commander). Their contents are parameters or results.
- `localStorage`: reading is a parameter. Writing is modelled as the map written, not its serialized text. The `catch` blocks around quota errors and the console warnings are left out.
- `Favorites.IsFavorite`: JavaScript's `in` also finds keys inherited from `Object.prototype` (such as `"toString"`). The model sees only the map's own keys.
- `Favorites.Toggled` (and so `Favorites.FavoritesHook.ToggleFavorite`): `toggleFavorite` tests `url in prev` with the same `in`, so in the program toggling an inherited key such as `"toString"` takes the removal branch and adds nothing. The model tests only the map's own keys, so it adds that url.
- `WechatRss.ParseWechatRss`: `new Date(text)` on an unreadable `<lastBuildDate>` gives an Invalid Date, which is truthy. Every article of the feed carries it as `publishedAt` (src/fetchers/wechat-rss.ts:156), and `toISOString` in the archive upsert (src/index.ts:195, src/utils/date.ts:8-10) then throws a RangeError that nothing catches, so the run stops. The model's date-constructor parameter turns that text into `None` instead, and the articles are archived without a publication time.
- `YouTube.VideoOf`: `new Date(text)` on an unreadable `<published>` gives an Invalid Date. It becomes the item's `publishedAt`, and `toISOString` in the archive upsert (src/index.ts:195, src/utils/date.ts:8-10) then throws a RangeError that nothing catches, so the run stops. The model gives the video no time (`None`) and archives the item without a publication time.
- `VisitedLinks.IsVisited`: the same applies to keys inherited from `Object.prototype`.
- `VisitedLinks.GetStoredLinks`: a stored map is either wholly in the older format or wholly in the current one. The source decides by the first value only and casts the rest.
- `useNewsData`'s loading and error flags and the fetch itself are not modelled. `Receive` is the arrival of a payload.
- The outline tree of an OPML document is modelled as well formed: an `outline` member that is not an object or a list of objects is not represented.
- `joinUrl` and the history-URL extraction helpers of the scrapers are outside the modelled core.
- UI components, analytics, export, formatting helpers, the fetcher registry and the test and ad-hoc scripts are not part of this model.
- JavaScript truthiness of non-string values and `NaN` comparator results are not modelled: fields are typed, and comparators compare integers.
- `Dates.UnitsAgo`: the time range of a `Date` is not applied. For a phrase such as "200000000天前" the source builds an Invalid Date, which `parseDate` returns as it is and which later makes `toISOString` throw; the model returns `now` less the units. Within the range (about 273,790 years either side of 1970) the two agree.
- `Dates.ParseRelativeTimeZh`: inherits the missing Invalid Date outcome of `Dates.UnitsAgo`, and so does `Dates.ParseDate`.
- `Dates.ClockCandidateBound`: the five-minute bound is proved only for hours ≤ 23 and minutes ≤ 59. The pattern also admits hours and minutes up to 99; for these `setHours` rolls over, and `Dates.ClockCandidateOutOfRange` shows "今天 99:00" landing more than two days after now.

Where the code and its comments or documentation differ, the model follows the code:
- `isMostlyEnglish` requires both at least six ASCII letters and a quarter of the trimmed length.
- Pruning uses the first parseable of the last-seen, published and first-seen times, not the latest of them.
- When the list form of the archive holds `null` part-way, the `TypeError` is caught after the earlier entries were stored, so loading returns that partial map.
- The WaytoAGI year taken from a second-level heading is never used: the month/day year inference always returns a year.

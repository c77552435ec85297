/** The three payloads the pipeline writes (`src/index.ts`): the window payload with its
    per-site statistics (`buildPayload`), the archive payload and the status payload. */
module Payload {
  import opened Wrappers
  import opened Text
  import opened Sorting
  import opened OrderedMaps
  import opened Grouping
  import opened Dates
  import opened Records
  import Urls
  import Dedupe
  import Archive

  // ----- per-site statistics -----

  /** One row of `site_stats`. */
  datatype SiteStat = SiteStat(siteId: string, siteName: string, count: nat, rawCount: nat)

  function SiteIs(sid: string): Record -> bool {
    (r: Record) => r.siteId == sid
  }

  function StatusIs(sid: string): FetchStatus -> bool {
    (s: FetchStatus) => s.siteId == sid
  }

  /** `m.get(k) || 0` */
  function Lookup(m: OrderedMap<string, nat>, k: string): nat {
    if k in m.entries then m.entries[k] else 0
  }

  /** The loop that fills `rawCountBySite`. */
  function RawCounts(s: seq<Record>): (m: OrderedMap<string, nat>)
    ensures m.Valid()
    decreases |s|
  {
    if s == [] then Empty()
    else
      var prev := RawCounts(s[..|s| - 1]);
      var sid := s[|s| - 1].siteId;
      prev.Set(sid, Lookup(prev, sid) + 1)
  }

  /** `rawCountBySite` counts the records of every site, and holds just the sites present. */
  lemma {:induction false} RawCountsAt(s: seq<Record>, sid: string)
    ensures Lookup(RawCounts(s), sid) == Count(s, SiteIs(sid))
    ensures sid in RawCounts(s).entries <==> Count(s, SiteIs(sid)) > 0
    decreases |s|
  {
    if s != [] {
      RawCountsAt(s[..|s| - 1], sid);
    }
  }

  /** The first loop over the records into `siteNameById`: the name of a site's last record. */
  function NamesFrom(s: seq<Record>): (m: OrderedMap<string, string>)
    ensures m.Valid()
    decreases |s|
  {
    if s == [] then Empty()
    else NamesFrom(s[..|s| - 1]).Set(s[|s| - 1].siteId, s[|s| - 1].siteName)
  }

  lemma {:induction false} NamesFromAt(s: seq<Record>, sid: string)
    ensures sid in NamesFrom(s).entries <==> Count(s, SiteIs(sid)) > 0
    ensures sid in NamesFrom(s).entries ==>
      var f := Filter(s, SiteIs(sid)); |f| > 0 && NamesFrom(s).entries[sid] == f[|f| - 1].siteName
    decreases |s|
  {
    if s != [] {
      NamesFromAt(s[..|s| - 1], sid);
    }
  }

  /** The loop over the statuses: a site without records gets its first status's name. */
  function WithStatusNames(m: OrderedMap<string, string>, st: seq<FetchStatus>): (r: OrderedMap<string, string>)
    requires m.Valid()
    ensures r.Valid()
    decreases |st|
  {
    if st == [] then m
    else
      var prev := WithStatusNames(m, st[..|st| - 1]);
      var s := st[|st| - 1];
      if s.siteId in prev.entries then prev else prev.Set(s.siteId, s.siteName)
  }

  lemma {:induction false} WithStatusNamesAt(m: OrderedMap<string, string>, st: seq<FetchStatus>, sid: string)
    requires m.Valid()
    ensures var r := WithStatusNames(m, st);
      (sid in r.entries <==> sid in m.entries || Count(st, StatusIs(sid)) > 0)
      && (sid in m.entries ==> r.entries[sid] == m.entries[sid])
      && (sid !in m.entries && sid in r.entries ==>
            |Filter(st, StatusIs(sid))| > 0 && r.entries[sid] == Filter(st, StatusIs(sid))[0].siteName)
    decreases |st|
  {
    if st != [] {
      WithStatusNamesAt(m, st[..|st| - 1], sid);
    }
  }

  /** Every stored statistic is filed under its own site. */
  predicate KeyedBySite(m: OrderedMap<string, SiteStat>) {
    m.Valid() && forall k | k in m.entries :: m.entries[k].siteId == k
  }

  /** The loop over the deduplicated records: a site's row is created by its first record
      (with that record's name and the raw count) and counted once per record. */
  function CountStats(ai: seq<Record>, raw: OrderedMap<string, nat>): (m: OrderedMap<string, SiteStat>)
    ensures KeyedBySite(m)
    decreases |ai|
  {
    if ai == [] then Empty()
    else
      CountStep(CountStats(ai[..|ai| - 1], raw), ai[|ai| - 1], raw)
  }

  /** The step sets the record's site to its row with one more count. */
  lemma CountStepIs(prev: OrderedMap<string, SiteStat>, r: Record, raw: OrderedMap<string, nat>, row: SiteStat)
    requires KeyedBySite(prev)
    requires row == if r.siteId in prev.entries then prev.entries[r.siteId] else SiteStat(r.siteId, r.siteName, 0, Lookup(raw, r.siteId))
    ensures CountStep(prev, r, raw) == prev.Set(r.siteId, row.(count := row.count + 1))
  {
  }

  lemma CountStatsStep(ai: seq<Record>, raw: OrderedMap<string, nat>, i: nat)
    requires i < |ai|
    ensures CountStats(ai[..i + 1], raw) == CountStep(CountStats(ai[..i], raw), ai[i], raw)
  {
    assert ai[..i + 1][..i] == ai[..i];
  }

  /** One record of the loop over the deduplicated records. */
  function CountStep(prev: OrderedMap<string, SiteStat>, r: Record, raw: OrderedMap<string, nat>)
    : (m: OrderedMap<string, SiteStat>)
    requires KeyedBySite(prev)
    ensures KeyedBySite(m)
  {
    var sid := r.siteId;
    var row := if sid in prev.entries then prev.entries[sid] else SiteStat(sid, r.siteName, 0, Lookup(raw, sid));
    prev.Set(sid, row.(count := row.count + 1))
  }

  lemma {:induction false} CountStatsAt(ai: seq<Record>, raw: OrderedMap<string, nat>, sid: string)
    ensures var m := CountStats(ai, raw);
      (sid in m.entries <==> Count(ai, SiteIs(sid)) > 0)
      && (sid in m.entries ==>
            |Filter(ai, SiteIs(sid))| > 0
            && m.entries[sid] == SiteStat(sid, Filter(ai, SiteIs(sid))[0].siteName, Count(ai, SiteIs(sid)), Lookup(raw, sid)))
    decreases |ai|
  {
    if ai != [] {
      CountStatsAt(ai[..|ai| - 1], raw, sid);
    }
  }

  /** The loop over `siteNameById`: every named site still without a row gets an empty one. */
  function AddNamed(stats: OrderedMap<string, SiteStat>, ps: seq<(string, string)>, raw: OrderedMap<string, nat>)
    : (m: OrderedMap<string, SiteStat>)
    requires KeyedBySite(stats)
    ensures KeyedBySite(m)
    decreases |ps|
  {
    if ps == [] then stats
    else
      var prev := AddNamed(stats, ps[..|ps| - 1], raw);
      var (sid, name) := ps[|ps| - 1];
      NamedStep(prev, sid, name, raw)
  }

  /** One name of the loop over the collected names. */
  function NamedStep(prev: OrderedMap<string, SiteStat>, sid: string, name: string, raw: OrderedMap<string, nat>)
    : (m: OrderedMap<string, SiteStat>)
    requires KeyedBySite(prev)
    ensures KeyedBySite(m)
  {
    if sid in prev.entries then prev else prev.Set(sid, SiteStat(sid, name, 0, Lookup(raw, sid)))
  }

  lemma AddNamedStep(stats: OrderedMap<string, SiteStat>, ps: seq<(string, string)>, raw: OrderedMap<string, nat>, i: nat)
    requires KeyedBySite(stats) && i < |ps|
    ensures AddNamed(stats, ps[..i + 1], raw) == NamedStep(AddNamed(stats, ps[..i], raw), ps[i].0, ps[i].1, raw)
  {
    assert ps[..i + 1][..i] == ps[..i];
  }

  lemma {:induction false} AddNamedAt(stats: OrderedMap<string, SiteStat>, ps: seq<(string, string)>,
                                      raw: OrderedMap<string, nat>, sid: string)
    requires KeyedBySite(stats)
    ensures var m := AddNamed(stats, ps, raw);
      (sid in m.entries <==> sid in stats.entries || exists i | 0 <= i < |ps| :: ps[i].0 == sid)
      && (sid in stats.entries ==> m.entries[sid] == stats.entries[sid])
      && (sid !in stats.entries && sid in m.entries ==>
            exists i | 0 <= i < |ps| :: ps[i].0 == sid && m.entries[sid] == SiteStat(sid, ps[i].1, 0, Lookup(raw, sid)))
    decreases |ps|
  {
    if ps != [] {
      var init := ps[..|ps| - 1];
      AddNamedAt(stats, init, raw, sid);
      var prev := AddNamed(stats, init, raw);
      assert AddNamed(stats, ps, raw) == if ps[|ps| - 1].0 in prev.entries then prev
        else prev.Set(ps[|ps| - 1].0, SiteStat(ps[|ps| - 1].0, ps[|ps| - 1].1, 0, Lookup(raw, ps[|ps| - 1].0)));
      assert forall i | 0 <= i < |init| :: init[i] == ps[i];
    }
  }

  /** `count` descending, ties in insertion order. */
  function ByCount(): (SiteStat, SiteStat) -> bool {
    KeyDesc(SiteCount())
  }

  function SiteCount(): SiteStat -> int {
    (s: SiteStat) => s.count
  }

  /** A row's site. */
  function SiteOfStat(): SiteStat -> string {
    (s: SiteStat) => s.siteId
  }

  /** The statistics map before sorting. */
  function StatsMap(ai: seq<Record>, all: seq<Record>, st: seq<FetchStatus>): (m: OrderedMap<string, SiteStat>)
    ensures KeyedBySite(m)
  {
    var raw := RawCounts(all);
    var names := WithStatusNames(NamesFrom(all), st);
    AddNamed(CountStats(ai, raw), names.Items(), raw)
  }

  /** `site_stats` */
  function SiteStatsSpec(ai: seq<Record>, all: seq<Record>, st: seq<FetchStatus>): seq<SiteStat> {
    SortBy(StatsMap(ai, all, st).Values(), ByCount())
  }

  /** Whether a site has a row, and what the row says: its counts among the deduplicated
      and among all records; its name from its first deduplicated record, else from its
      last record, else from its first status. */
  predicate RowFor(ai: seq<Record>, all: seq<Record>, st: seq<FetchStatus>, sid: string, row: SiteStat) {
    row.siteId == sid
    && row.count == Count(ai, SiteIs(sid))
    && row.rawCount == Count(all, SiteIs(sid))
    && (Count(ai, SiteIs(sid)) > 0 ==> row.siteName == Filter(ai, SiteIs(sid))[0].siteName)
    && (Count(ai, SiteIs(sid)) == 0 && Count(all, SiteIs(sid)) > 0 ==>
          row.siteName == Filter(all, SiteIs(sid))[Count(all, SiteIs(sid)) - 1].siteName)
    && (Count(ai, SiteIs(sid)) == 0 && Count(all, SiteIs(sid)) == 0 ==>
          Count(st, StatusIs(sid)) > 0 && row.siteName == Filter(st, StatusIs(sid))[0].siteName)
  }

  /** `siteNameById` names exactly the sites of the records and of the statuses: by the
      last record of the site, or else by its first status. */
  lemma NamesAt(all: seq<Record>, st: seq<FetchStatus>, sid: string)
    ensures var names := WithStatusNames(NamesFrom(all), st);
      (sid in names.entries <==> Count(all, SiteIs(sid)) > 0 || Count(st, StatusIs(sid)) > 0)
      && (Count(all, SiteIs(sid)) > 0 ==> names.entries[sid] == Filter(all, SiteIs(sid))[Count(all, SiteIs(sid)) - 1].siteName)
      && (Count(all, SiteIs(sid)) == 0 && Count(st, StatusIs(sid)) > 0 ==>
            names.entries[sid] == Filter(st, StatusIs(sid))[0].siteName)
  {
    NamesFromAt(all, sid);
    WithStatusNamesAt(NamesFrom(all), st, sid);
  }

  /** The rows of the statistics map: one for exactly the sites of the deduplicated
      records, of all records and of the statuses... */
  lemma StatsMapHas(ai: seq<Record>, all: seq<Record>, st: seq<FetchStatus>, sid: string)
    ensures sid in StatsMap(ai, all, st).entries
        <==> Count(ai, SiteIs(sid)) > 0 || Count(all, SiteIs(sid)) > 0 || Count(st, StatusIs(sid)) > 0
  {
    var raw := RawCounts(all);
    var names := WithStatusNames(NamesFrom(all), st);
    NamesAt(all, st, sid);
    CountStatsAt(ai, raw, sid);
    AddNamedAt(CountStats(ai, raw), names.Items(), raw, sid);
    ItemsAt(names, sid);
  }

  /** ... each as `RowFor` says. */
  lemma StatsMapRow(ai: seq<Record>, all: seq<Record>, st: seq<FetchStatus>, sid: string)
    requires sid in StatsMap(ai, all, st).entries
    ensures RowFor(ai, all, st, sid, StatsMap(ai, all, st).entries[sid])
  {
    var raw := RawCounts(all);
    var names := WithStatusNames(NamesFrom(all), st);
    var stats := CountStats(ai, raw);
    RawCountsAt(all, sid);
    CountStatsAt(ai, raw, sid);
    AddNamedAt(stats, names.Items(), raw, sid);
    if sid !in stats.entries {
      NamesAt(all, st, sid);
      ItemsAt(names, sid);
      CountNone(ai, SiteIs(sid));
      if Count(ai, SiteIs(sid)) > 0 {
        assert false;
      }
    }
  }

  /** Every row of `site_stats` is as `RowFor` says. */
  lemma SiteStatsRows(ai: seq<Record>, all: seq<Record>, st: seq<FetchStatus>, j: int)
    requires 0 <= j < |SiteStatsSpec(ai, all, st)|
    ensures var row := SiteStatsSpec(ai, all, st)[j]; RowFor(ai, all, st, row.siteId, row)
  {
    var m := StatsMap(ai, all, st);
    var vs := m.Values();
    var row := SiteStatsSpec(ai, all, st)[j];
    SortByMembers(vs, ByCount(), row);
    var i :| 0 <= i < |vs| && vs[i] == row;
    StatsMapRow(ai, all, st, m.keys[i]);
  }

  /** No two rows share a site. */
  lemma SiteStatsDistinct(ai: seq<Record>, all: seq<Record>, st: seq<FetchStatus>)
    ensures KeysDistinct(SiteStatsSpec(ai, all, st), SiteOfStat())
  {
    var m := StatsMap(ai, all, st);
    var vs := m.Values();
    assert KeysDistinct(vs, SiteOfStat()) by {
      forall i, j | 0 <= i < j < |vs| ensures SiteOfStat()(vs[i]) != SiteOfStat()(vs[j]) {
        assert m.keys[i] != m.keys[j];
      }
    }
    PermutationKeysDistinct(vs, SiteStatsSpec(ai, all, st), SiteOfStat());
  }

  /** The rows are sorted by count, descending. */
  lemma SiteStatsSorted(ai: seq<Record>, all: seq<Record>, st: seq<FetchStatus>)
    ensures SortedBy(SiteStatsSpec(ai, all, st), ByCount())
  {
    KeyDescIsStrictOrder(SiteCount());
    SortBySorted(StatsMap(ai, all, st).Values(), ByCount());
  }

  /** A site with a row in the map has one in `site_stats`... */
  lemma RowOfSite(ai: seq<Record>, all: seq<Record>, st: seq<FetchStatus>, sid: string)
    requires sid in StatsMap(ai, all, st).entries
    ensures exists j | 0 <= j < |SiteStatsSpec(ai, all, st)| :: SiteStatsSpec(ai, all, st)[j].siteId == sid
  {
    var m := StatsMap(ai, all, st);
    var vs := m.Values();
    var out := SiteStatsSpec(ai, all, st);
    var i :| 0 <= i < |m.keys| && m.keys[i] == sid;
    SortByMembers(vs, ByCount(), vs[i]);
    var j :| 0 <= j < |out| && out[j] == vs[i];
  }

  /** ... and every row of `site_stats` is a row of the map. */
  lemma SiteOfRow(ai: seq<Record>, all: seq<Record>, st: seq<FetchStatus>, j: int)
    requires 0 <= j < |SiteStatsSpec(ai, all, st)|
    ensures SiteStatsSpec(ai, all, st)[j].siteId in StatsMap(ai, all, st).entries
  {
    var m := StatsMap(ai, all, st);
    var vs := m.Values();
    var out := SiteStatsSpec(ai, all, st);
    SortByMembers(vs, ByCount(), out[j]);
    var i :| 0 <= i < |vs| && vs[i] == out[j];
    assert m.keys[i] == out[j].siteId;
  }

  /** A site has a row exactly when it has a deduplicated record, a record or a status. */
  lemma SiteStatsCover(ai: seq<Record>, all: seq<Record>, st: seq<FetchStatus>, sid: string)
    ensures (exists j | 0 <= j < |SiteStatsSpec(ai, all, st)| :: SiteStatsSpec(ai, all, st)[j].siteId == sid)
        <==> Count(ai, SiteIs(sid)) > 0 || Count(all, SiteIs(sid)) > 0 || Count(st, StatusIs(sid)) > 0
  {
    StatsMapHas(ai, all, st, sid);
    if sid in StatsMap(ai, all, st).entries {
      RowOfSite(ai, all, st, sid);
    }
    if exists j | 0 <= j < |SiteStatsSpec(ai, all, st)| :: SiteStatsSpec(ai, all, st)[j].siteId == sid {
      var j :| 0 <= j < |SiteStatsSpec(ai, all, st)| && SiteStatsSpec(ai, all, st)[j].siteId == sid;
      SiteOfRow(ai, all, st, j);
    }
  }

  // ----- the loops of `buildPayload` -----

  method CountRaw(all: seq<Record>) returns (m: OrderedMap<string, nat>)
    ensures m == RawCounts(all)
  {
    m := Empty();
    var i := 0;
    while i < |all|
      invariant 0 <= i <= |all|
      invariant m == RawCounts(all[..i])
    {
      assert all[..i + 1][..i] == all[..i];
      var sid := all[i].siteId;
      m := m.Set(sid, Lookup(m, sid) + 1);
      i := i + 1;
    }
    assert all[..i] == all;
  }

  /** Naming one more record. */
  lemma NamesFromStep(s: seq<Record>, i: nat)
    requires i < |s|
    ensures NamesFrom(s[..i + 1]) == NamesFrom(s[..i]).Set(s[i].siteId, s[i].siteName)
  {
    assert s[..i + 1][..i] == s[..i];
  }

  /** Naming from one more status, only when its site has no name yet. */
  lemma WithStatusNamesStep(m: OrderedMap<string, string>, st: seq<FetchStatus>, j: nat)
    requires m.Valid() && j < |st|
    ensures var prev := WithStatusNames(m, st[..j]);
      WithStatusNames(m, st[..j + 1])
        == if st[j].siteId in prev.entries then prev else prev.Set(st[j].siteId, st[j].siteName)
  {
    assert st[..j + 1][..j] == st[..j];
  }

  method CollectNames(all: seq<Record>, st: seq<FetchStatus>) returns (m: OrderedMap<string, string>)
    ensures m == WithStatusNames(NamesFrom(all), st)
  {
    m := Empty();
    var i := 0;
    while i < |all|
      invariant 0 <= i <= |all|
      invariant m == NamesFrom(all[..i])
    {
      NamesFromStep(all, i);
      m := m.Set(all[i].siteId, all[i].siteName);
      assert m == NamesFrom(all[..i + 1]);
      i := i + 1;
    }
    assert all[..i] == all;
    ghost var named := m;
    var j := 0;
    while j < |st|
      invariant 0 <= j <= |st|
      invariant m == WithStatusNames(named, st[..j])
    {
      WithStatusNamesStep(named, st, j);
      if st[j].siteId !in m.entries {
        m := m.Set(st[j].siteId, st[j].siteName);
      }
      assert m == WithStatusNames(named, st[..j + 1]);
      j := j + 1;
    }
    assert st[..j] == st;
  }

  method CountSites(ai: seq<Record>, raw: OrderedMap<string, nat>) returns (m: OrderedMap<string, SiteStat>)
    ensures m == CountStats(ai, raw)
  {
    m := Empty();
    var i := 0;
    while i < |ai|
      invariant 0 <= i <= |ai|
      invariant m == CountStats(ai[..i], raw)
    {
      CountStatsStep(ai, raw, i);
      var sid := ai[i].siteId;
      var row := if sid in m.entries then m.entries[sid] else SiteStat(sid, ai[i].siteName, 0, Lookup(raw, sid));
      CountStepIs(m, ai[i], raw, row);
      m := m.Set(sid, row.(count := row.count + 1));
      i := i + 1;
    }
    assert ai[..i] == ai;
  }

  method AddNamedSites(stats: OrderedMap<string, SiteStat>, names: OrderedMap<string, string>, raw: OrderedMap<string, nat>)
    returns (m: OrderedMap<string, SiteStat>)
    requires KeyedBySite(stats) && names.Valid()
    ensures m == AddNamed(stats, names.Items(), raw)
  {
    var ps := names.Items();
    m := stats;
    var i := 0;
    while i < |ps|
      invariant 0 <= i <= |ps|
      invariant m == AddNamed(stats, ps[..i], raw)
    {
      AddNamedStep(stats, ps, raw, i);
      var (sid, siteName) := ps[i];
      if sid !in m.entries {
        m := m.Set(sid, SiteStat(sid, siteName, 0, Lookup(raw, sid)));
      }
      i := i + 1;
    }
    assert ps[..i] == ps;
  }

  /** The statistics part of `buildPayload`. */
  method SiteStats(ai: seq<Record>, all: seq<Record>, st: seq<FetchStatus>) returns (rows: seq<SiteStat>)
    ensures rows == SiteStatsSpec(ai, all, st)
  {
    var raw := CountRaw(all);
    var names := CollectNames(all, st);
    var stats := CountSites(ai, raw);
    stats := AddNamedSites(stats, names, raw);
    rows := SortBy(stats.Values(), ByCount());
  }

  // ----- buildPayload -----

  /** `${site_id}::${source}` */
  function SourceKey(r: Record): string {
    r.siteId + "::" + r.source
  }

  function SourceKeys(items: seq<Record>): set<string> {
    set i | 0 <= i < |items| :: SourceKey(items[i])
  }

  /** There are no more sources than records, and at least one when there is a record. */
  lemma {:induction false} SourceCountBound(items: seq<Record>)
    ensures |SourceKeys(items)| <= |items|
    ensures items != [] ==> |SourceKeys(items)| >= 1
    decreases |items|
  {
    if items != [] {
      var init := items[..|items| - 1];
      SourceCountBound(init);
      assert SourceKeys(items) == SourceKeys(init) + {SourceKey(items[|items| - 1])} by {
        forall k ensures k in SourceKeys(items) <==> k in SourceKeys(init) + {SourceKey(items[|items| - 1])} {
          if k in SourceKeys(items) {
            var i :| 0 <= i < |items| && SourceKey(items[i]) == k;
            if i < |init| { assert init[i] == items[i]; }
          }
          if k in SourceKeys(init) {
            var i :| 0 <= i < |init| && SourceKey(init[i]) == k;
            assert items[i] == init[i];
          }
        }
      }
    }
  }

  const TOPIC_FILTER: string := "ai_tech_robotics"

  datatype LatestPayload = LatestPayload(
    generatedAt: Stamp, windowHours: int, totalItems: nat, totalItemsAiRaw: nat, totalItemsRaw: nat,
    totalItemsAllMode: nat, topicFilter: string, archiveTotal: nat, siteCount: nat, sourceCount: nat,
    siteStats: seq<SiteStat>, items: seq<Record>, itemsAi: seq<Record>, itemsAllRaw: seq<Record>, itemsAll: seq<Record>)

  /** `buildPayload(itemsAll, itemsAi, hours)`: the relevant records deduplicated by their
      latest member, all records deduplicated by a random member, the statistics over both,
      and the counts, each no larger than the list it summarises. */
  method BuildPayload(itemsAll: seq<Record>, itemsAi: seq<Record>, hours: int, statuses: seq<FetchStatus>,
                      archiveTotal: nat, now: int, parse: Urls.Parser)
    returns (p: LatestPayload, ghost allPicks: seq<Record>)
    ensures p.items == SortBy(Dedupe.LatestPicks(GroupBy(itemsAi, Dedupe.KeyOf(parse)).Values()), NewestFirst())
    ensures ChoiceOf(allPicks, GroupBy(itemsAll, Dedupe.KeyOf(parse)).Values())
    ensures p.itemsAll == SortBy(allPicks, NewestFirst())
    ensures p.itemsAi == p.items && p.itemsAllRaw == itemsAll
    ensures p.totalItems == |p.items| && p.totalItemsAiRaw == |itemsAi|
    ensures p.totalItemsRaw == |itemsAll| && p.totalItemsAllMode == |p.itemsAll|
    ensures p.siteStats == SiteStatsSpec(p.items, itemsAll, statuses) && p.siteCount == |p.siteStats|
    ensures p.sourceCount == |SourceKeys(p.items)|
    ensures p.generatedAt == At(now) && p.windowHours == hours && p.topicFilter == TOPIC_FILTER
    ensures p.archiveTotal == archiveTotal
    ensures p.totalItems <= p.totalItemsAiRaw && p.totalItemsAllMode <= p.totalItemsRaw
    ensures p.sourceCount <= p.totalItems
  {
    var aiDedup, aiPicks := Dedupe.DedupeItemsByTitleUrl(itemsAi, false, parse);
    var allDedup, picks := Dedupe.DedupeItemsByTitleUrl(itemsAll, true, parse);
    allPicks := picks;
    var rows := SiteStats(aiDedup, itemsAll, statuses);
    GroupValuesNonEmpty(itemsAi, Dedupe.KeyOf(parse));
    ChoicePerGroup(aiPicks, GroupBy(itemsAi, Dedupe.KeyOf(parse)).Values());
    GroupCountBound(itemsAi, Dedupe.KeyOf(parse));
    GroupValuesNonEmpty(itemsAll, Dedupe.KeyOf(parse));
    ChoicePerGroup(picks, GroupBy(itemsAll, Dedupe.KeyOf(parse)).Values());
    GroupCountBound(itemsAll, Dedupe.KeyOf(parse));
    SourceCountBound(aiDedup);
    p := LatestPayload(At(now), hours, |aiDedup|, |itemsAi|, |itemsAll|, |allDedup|, TOPIC_FILTER, archiveTotal,
                       |rows|, |SourceKeys(aiDedup)|, rows, aiDedup, aiDedup, itemsAll, allDedup);
  }

  // ----- the archive payload -----

  datatype ArchivePayload = ArchivePayload(generatedAt: Stamp, totalItems: nat, items: seq<Record>)

  /** `parseISO(x.last_seen_at)?.getTime() ?? 0` */
  function LastSeenTime(r: Record): int {
    ParseIso(Some(r.lastSeenAt)).GetOr(0)
  }

  /** The whole archive, most recently seen first. */
  function ArchivePayloadSpec(m: Archive.Store, now: int): ArchivePayload
    requires m.Valid()
  {
    ArchivePayload(At(now), m.Size(), SortBy(m.Values(), KeyDesc(LastSeenTime)))
  }

  /** A record's id. */
  function RecordId(): Record -> string {
    (r: Record) => r.id
  }

  /** The archive payload lists every archive record once, most recently seen first, and
      its total is the number listed. */
  lemma ArchivePayloadProperties(m: Archive.Store, now: int)
    requires Archive.KeyedById(m)
    ensures var p := ArchivePayloadSpec(m, now);
      p.totalItems == |p.items|
      && SortedBy(p.items, KeyDesc(LastSeenTime))
      && (forall k | k in m.entries :: m.entries[k] in p.items)
      && (forall x | x in p.items :: x.id in m.entries && m.entries[x.id] == x)
      && KeysDistinct(p.items, RecordId())
  {
    var vs := m.Values();
    var items := SortBy(vs, KeyDesc(LastSeenTime));
    assert |items| == |vs| == |m.keys| by {
      SortBySorted(vs, KeyDesc(LastSeenTime));
    }
    KeyDescIsStrictOrder(LastSeenTime);
    SortBySorted(vs, KeyDesc(LastSeenTime));
    ArchiveItemsMembers(m, vs, items);
    ArchiveItemsDistinct(m, vs, items);
  }

  /** The sorted records are exactly the archive's records. */
  lemma ArchiveItemsMembers(m: Archive.Store, vs: seq<Record>, items: seq<Record>)
    requires Archive.KeyedById(m) && vs == m.Values() && items == SortBy(vs, KeyDesc(LastSeenTime))
    ensures forall k | k in m.entries :: m.entries[k] in items
    ensures forall x | x in items :: x.id in m.entries && m.entries[x.id] == x
  {
    forall k | k in m.entries ensures m.entries[k] in items {
      var i :| 0 <= i < |m.keys| && m.keys[i] == k;
      SortByMembers(vs, KeyDesc(LastSeenTime), vs[i]);
    }
    forall x | x in items ensures x.id in m.entries && m.entries[x.id] == x {
      SortByMembers(vs, KeyDesc(LastSeenTime), x);
      var i :| 0 <= i < |vs| && vs[i] == x;
    }
  }

  /** No record is listed twice. */
  lemma ArchiveItemsDistinct(m: Archive.Store, vs: seq<Record>, items: seq<Record>)
    requires Archive.KeyedById(m) && vs == m.Values() && items == SortBy(vs, KeyDesc(LastSeenTime))
    ensures KeysDistinct(items, RecordId())
  {
    assert KeysDistinct(vs, RecordId()) by {
      forall i, j | 0 <= i < j < |vs| ensures RecordId()(vs[i]) != RecordId()(vs[j]) {
        assert m.keys[i] != m.keys[j];
      }
    }
    PermutationKeysDistinct(vs, items, RecordId());
  }

  // ----- the status payload -----

  datatype SkippedFeed = SkippedFeed(feedUrl: string, reason: Option<string>)
  datatype ReplacedFeed = ReplacedFeed(from: string, to: string)

  datatype RssSummary = RssSummary(
    enabled: bool, path: Option<string>, feedTotal: nat, effectiveFeedTotal: nat, okFeeds: nat,
    failedFeeds: seq<string>, zeroItemFeeds: seq<string>, skippedFeeds: seq<SkippedFeed>,
    replacedFeeds: seq<ReplacedFeed>, feeds: seq<FeedStatus>)

  datatype StatusPayload = StatusPayload(
    generatedAt: Stamp, sites: seq<FetchStatus>, successfulSites: nat, failedSites: seq<string>,
    zeroItemSites: seq<string>, fetchedRawItems: nat, itemsBeforeTopicFilter: nat, itemsIn24h: nat,
    rssOpml: RssSummary)

  /** `s.effective_feed_url || s.feed_url || ''` */
  function FeedUrlOf(f: FeedStatus): string {
    if Present(f.effectiveFeedUrl) then f.effectiveFeedUrl.value else OrText(f.feedUrl, "")
  }

  function IsOk(): FetchStatus -> bool { (s: FetchStatus) => s.ok }
  function IsZero(): FetchStatus -> bool { (s: FetchStatus) => s.ok && s.itemCount == 0 }
  function SiteIdOf(): FetchStatus -> string { (s: FetchStatus) => s.siteId }

  function FeedOk(): FeedStatus -> bool { (f: FeedStatus) => f.status.ok }
  function FeedSkipped(): FeedStatus -> bool { (f: FeedStatus) => f.skipped }
  function FeedEffective(): FeedStatus -> bool { (f: FeedStatus) => !f.skipped }
  function FeedOkEffective(): FeedStatus -> bool { (f: FeedStatus) => f.status.ok && !f.skipped }
  function FeedZero(): FeedStatus -> bool { (f: FeedStatus) => f.status.ok && !f.skipped && f.status.itemCount == 0 }
  function FeedReplaced(): FeedStatus -> bool { (f: FeedStatus) => f.replaced && Present(f.effectiveFeedUrl) }

  /** `s.skip_reason || null` etc. */
  function Skipped(f: FeedStatus): SkippedFeed {
    SkippedFeed(OrText(f.feedUrl, ""), if Present(f.skipReason) then f.skipReason else None)
  }

  function Replaced(f: FeedStatus): ReplacedFeed {
    ReplacedFeed(OrText(f.feedUrl, ""), OrText(f.effectiveFeedUrl, ""))
  }

  /** The `rss_opml` block. */
  function RssSummarySpec(exists_: bool, opmlPath: string, feeds: seq<FeedStatus>): RssSummary {
    RssSummary(exists_, if exists_ then Some(opmlPath) else None, |feeds|,
               Count(feeds, FeedEffective()), Count(feeds, FeedOkEffective()),
               MapSeq(Filter(feeds, Not(FeedOk())), FeedUrlOf),
               MapSeq(Filter(feeds, FeedZero()), FeedUrlOf),
               MapSeq(Filter(feeds, FeedSkipped()), Skipped),
               MapSeq(Filter(feeds, FeedReplaced()), Replaced),
               feeds)
  }

  /** `sites.filter((s) => !s.ok).map((s) => s.site_id)` */
  function FailedSites(statuses: seq<FetchStatus>): seq<string> {
    MapSeq(Filter(statuses, Not(IsOk())), SiteIdOf())
  }

  /** `sites.filter((s) => s.ok && s.item_count === 0).map((s) => s.site_id)` */
  function ZeroItemSites(statuses: seq<FetchStatus>): seq<string> {
    MapSeq(Filter(statuses, IsZero()), SiteIdOf())
  }

  /** The status payload. */
  function StatusPayloadSpec(now: int, statuses: seq<FetchStatus>, fetched: nat, before: nat, in24h: nat,
                             opmlExists: bool, opmlPath: string, feeds: seq<FeedStatus>): StatusPayload {
    StatusPayload(At(now), statuses, Count(statuses, IsOk()), FailedSites(statuses), ZeroItemSites(statuses),
                  fetched, before, in24h, RssSummarySpec(opmlExists, opmlPath, feeds))
  }

  /** Every site either succeeded or is listed as failed, and sites without items are
      successful ones. */
  lemma StatusSitesPartition(now: int, statuses: seq<FetchStatus>, fetched: nat, before: nat, in24h: nat,
                             opmlExists: bool, opmlPath: string, feeds: seq<FeedStatus>)
    ensures var p := StatusPayloadSpec(now, statuses, fetched, before, in24h, opmlExists, opmlPath, feeds);
      p.successfulSites + |p.failedSites| == |p.sites|
      && |p.zeroItemSites| <= p.successfulSites
  {
    CountSplit(statuses, IsOk());
    CountBoth(statuses, IsOk(), (s: FetchStatus) => s.itemCount == 0);
    FilterCongruent(statuses, IsZero(), Both(IsOk(), (s: FetchStatus) => s.itemCount == 0));
  }

  /** Each site listed as failed has a failed status, and each listed as empty an ok status
      reporting no items. */
  lemma ListedSites(statuses: seq<FetchStatus>)
    ensures forall x | x in FailedSites(statuses) ::
      exists i | 0 <= i < |statuses| :: !statuses[i].ok && statuses[i].siteId == x
    ensures forall x | x in ZeroItemSites(statuses) ::
      exists i | 0 <= i < |statuses| :: statuses[i].ok && statuses[i].itemCount == 0 && statuses[i].siteId == x
  {
    var fs := Filter(statuses, Not(IsOk()));
    forall x | x in FailedSites(statuses)
      ensures exists i | 0 <= i < |statuses| :: !statuses[i].ok && statuses[i].siteId == x
    {
      var j :| 0 <= j < |fs| && FailedSites(statuses)[j] == x;
      assert Not(IsOk())(fs[j]);
      var i :| 0 <= i < |statuses| && statuses[i] == fs[j];
    }
    var zs := Filter(statuses, IsZero());
    forall x | x in ZeroItemSites(statuses)
      ensures exists i | 0 <= i < |statuses| :: statuses[i].ok && statuses[i].itemCount == 0 && statuses[i].siteId == x
    {
      var j :| 0 <= j < |zs| && ZeroItemSites(statuses)[j] == x;
      assert IsZero()(zs[j]);
      var i :| 0 <= i < |statuses| && statuses[i] == zs[j];
    }
  }

  /** The feed counts nest: effective and skipped feeds make up all feeds, ok effective
      feeds are effective, zero-item feeds are ok effective ones, and the failed feeds and
      the ok feeds make up all feeds; the path is given exactly when the file exists. */
  lemma RssSummaryCounts(opmlExists: bool, opmlPath: string, feeds: seq<FeedStatus>)
    ensures var r := RssSummarySpec(opmlExists, opmlPath, feeds);
      r.effectiveFeedTotal + |r.skippedFeeds| == r.feedTotal
      && r.okFeeds <= r.effectiveFeedTotal
      && |r.zeroItemFeeds| <= r.okFeeds
      && |r.failedFeeds| + Count(feeds, FeedOk()) == r.feedTotal
      && (r.enabled <==> r.path.Some?) && (r.path.Some? ==> r.path.value == opmlPath)
  {
    CountSplit(feeds, FeedSkipped());
    FilterCongruent(feeds, Not(FeedSkipped()), FeedEffective());
    CountBoth(feeds, FeedEffective(), FeedOk());
    FilterCongruent(feeds, Both(FeedEffective(), FeedOk()), FeedOkEffective());
    CountBoth(feeds, FeedOkEffective(), (f: FeedStatus) => f.status.itemCount == 0);
    FilterCongruent(feeds, Both(FeedOkEffective(), (f: FeedStatus) => f.status.itemCount == 0), FeedZero());
    CountSplit(feeds, FeedOk());
  }
}

/** The archive store of the pipeline (`src/index.ts`): the id-keyed `Map` read from the
    snapshot, merged with this run's candidates, pruned by age and read out as the window
    selection. */
module Archive {
  import opened Wrappers
  import opened Strings
  import opened Sorting
  import opened OrderedMaps
  import opened Calendar
  import opened Dates
  import opened Records
  import Urls
  import Hash
  import Text
  import Hubtoday
  import Dedupe

  /** The archive: records by id, in insertion order. */
  type Store = OrderedMap<string, Record>

  /** Every record is stored under its own id. */
  predicate KeyedById(m: Store) {
    m.Valid() && forall k | k in m.entries :: m.entries[k].id == k
  }

  // ----- loadArchive -----

  /** One element of the snapshot's `items` as `JSON.parse` left it: `null`, a non-object
      value, or an object (whose `id` is "" when it has none). */
  datatype Entry = NullEntry | Scalar | Object(record: Record)

  /** `payload.items || []`: a list, an id-keyed object (its members in the object's own
      order), or anything else (missing, falsy or a scalar). */
  datatype Items = List(entries: seq<Entry>) | Members(members: seq<(string, Entry)>) | NoCollection

  /** The snapshot file: missing, unreadable (read error, malformed JSON, a `null`
      payload), or parsed. */
  datatype Snapshot = Missing | Unreadable | Parsed(items: Items)

  /** One step of the list loop: `if (it.id) archive.set(it.id, it)`. */
  function ListStep(m: Store, e: Entry): (r: Store)
    requires KeyedById(m)
    ensures KeyedById(r)
  {
    if e.Object? && e.record.id != [] then m.Set(e.record.id, e.record) else m
  }

  /** The list loop over entries that are not `null`. */
  function LoadEntries(es: seq<Entry>): (r: Store)
    ensures KeyedById(r)
    decreases |es|
  {
    if es == [] then Empty() else ListStep(LoadEntries(es[..|es| - 1]), es[|es| - 1])
  }

  /** Where the list loop stops: reading `id` of a `null` element throws. */
  function FirstNull(es: seq<Entry>): (n: nat)
    ensures n <= |es|
    ensures forall i | 0 <= i < n :: es[i] != NullEntry
    ensures n < |es| ==> es[n] == NullEntry
    decreases |es|
  {
    if es == [] then 0
    else if es[0] == NullEntry then 0
    else
      var n := FirstNull(es[1..]);
      assert forall i | 1 <= i < n + 1 :: es[i] == es[1..][i - 1];
      n + 1
  }

  /** One step of the object loop: an object member gets the key as its id. */
  function MemberStep(m: Store, member: (string, Entry)): (r: Store)
    requires KeyedById(m)
    ensures KeyedById(r)
  {
    if member.1.Object? then m.Set(member.0, member.1.record.(id := member.0)) else m
  }

  function LoadMembers(ms: seq<(string, Entry)>): (r: Store)
    ensures KeyedById(r)
    decreases |ms|
  {
    if ms == [] then Empty() else MemberStep(LoadMembers(ms[..|ms| - 1]), ms[|ms| - 1])
  }

  /** `loadArchive(path)`: the thrown error of a `null` list element is caught after the
      entries before it were stored, so those stay; any other failure leaves the map empty. */
  function LoadSpec(snap: Snapshot): (r: Store)
    ensures KeyedById(r)
  {
    match snap
    case Missing => Empty()
    case Unreadable => Empty()
    case Parsed(List(es)) => LoadEntries(es[..FirstNull(es)])
    case Parsed(Members(ms)) => LoadMembers(ms)
    case Parsed(NoCollection) => Empty()
  }

  /** The entry is an object whose `id` is `k`. */
  predicate Carries(e: Entry, k: string) {
    e.Object? && e.record.id == k
  }

  /** A loaded list holds exactly the non-empty ids its objects carry. */
  lemma {:induction false} LoadEntriesKeys(es: seq<Entry>)
    ensures forall k :: k in LoadEntries(es).entries <==> k != [] && exists i | 0 <= i < |es| :: Carries(es[i], k)
    decreases |es|
  {
    if es != [] {
      var init := es[..|es| - 1];
      LoadEntriesKeys(init);
      forall k ensures k in LoadEntries(es).entries <==> k != [] && exists i | 0 <= i < |es| :: Carries(es[i], k) {
        if k != [] && exists i | 0 <= i < |es| :: Carries(es[i], k) {
          var i :| 0 <= i < |es| && Carries(es[i], k);
          if i < |init| { assert Carries(init[i], k); }
        }
        if k in LoadEntries(init).entries {
          var i :| 0 <= i < |init| && Carries(init[i], k);
          assert Carries(es[i], k);
        }
      }
    }
  }

  /** The record stored under an id is the last object carrying it: a later duplicate
      overwrites an earlier one. */
  lemma {:induction false} LoadEntriesLatest(es: seq<Entry>, i: int)
    requires 0 <= i < |es| && es[i].Object? && es[i].record.id != []
    requires forall j | i < j < |es| :: !Carries(es[j], es[i].record.id)
    ensures es[i].record.id in LoadEntries(es).entries
    ensures LoadEntries(es).entries[es[i].record.id] == es[i].record
    decreases |es|
  {
    if i < |es| - 1 {
      var init := es[..|es| - 1];
      assert init[i] == es[i];
      forall j | i < j < |init| ensures !Carries(init[j], init[i].record.id) {
        assert init[j] == es[j];
      }
      LoadEntriesLatest(init, i);
      assert !Carries(es[|es| - 1], es[i].record.id);
    }
  }

  /** Nothing after the first `null` element is loaded. */
  lemma NullStopsLoading(es: seq<Entry>, i: int)
    requires 0 <= i < |es| && es[i] == NullEntry
    ensures LoadSpec(Parsed(List(es))) == LoadSpec(Parsed(List(es[..i])))
  {
    var n := FirstNull(es);
    assert n <= i;
    var pre := es[..i];
    assert forall j | 0 <= j < n :: pre[j] == es[j];
    assert FirstNull(pre) == n by {
      FirstNullOfPrefix(es, i);
    }
    assert pre[..n] == es[..n];
  }

  lemma {:induction false} FirstNullOfPrefix(es: seq<Entry>, i: int)
    requires 0 <= FirstNull(es) <= i <= |es|
    ensures FirstNull(es[..i]) == FirstNull(es)
    decreases |es|
  {
    if es != [] && es[0] != NullEntry {
      assert es[..i][1..] == es[1..][..i - 1];
      FirstNullOfPrefix(es[1..], i - 1);
    }
  }

  /** A loaded object holds exactly the keys of its object members. */
  lemma {:induction false} LoadMembersKeys(ms: seq<(string, Entry)>)
    ensures forall k :: k in LoadMembers(ms).entries <==> exists i | 0 <= i < |ms| :: ms[i].0 == k && ms[i].1.Object?
    decreases |ms|
  {
    if ms != [] {
      var init := ms[..|ms| - 1];
      LoadMembersKeys(init);
      forall k ensures k in LoadMembers(ms).entries <==> exists i | 0 <= i < |ms| :: ms[i].0 == k && ms[i].1.Object? {
        if exists i | 0 <= i < |ms| :: ms[i].0 == k && ms[i].1.Object? {
          var i :| 0 <= i < |ms| && ms[i].0 == k && ms[i].1.Object?;
          if i < |init| { assert init[i] == ms[i]; }
        }
        if k in LoadMembers(init).entries {
          var i :| 0 <= i < |init| && init[i].0 == k && init[i].1.Object?;
          assert ms[i] == init[i];
        }
      }
    }
  }

  /** The record stored under a key is its member's object with the key written into `id`. */
  lemma {:induction false} LoadMembersLatest(ms: seq<(string, Entry)>, i: int)
    requires 0 <= i < |ms| && ms[i].1.Object?
    requires forall j | i < j < |ms| :: !(ms[j].0 == ms[i].0 && ms[j].1.Object?)
    ensures ms[i].0 in LoadMembers(ms).entries
    ensures LoadMembers(ms).entries[ms[i].0] == ms[i].1.record.(id := ms[i].0)
    decreases |ms|
  {
    if i < |ms| - 1 {
      var init := ms[..|ms| - 1];
      assert init[i] == ms[i];
      forall j | i < j < |init| ensures !(init[j].0 == init[i].0 && init[j].1.Object?) {
        assert init[j] == ms[j];
      }
      LoadMembersLatest(init, i);
    }
  }

  // ----- the upsert loop -----

  /** `title && url && url.startsWith('http')` on the trimmed title and normalised URL. */
  predicate Admissible(raw: RawItem, parse: Urls.Parser) {
    var url := Urls.NormalizeUrl(raw.url, parse);
    Trim(raw.title) != [] && url != [] && StartsWith(url, "http")
  }

  /** The id a candidate is stored under. */
  function CandidateId(raw: RawItem, parse: Urls.Parser, sha1: Hash.Digest): string {
    Hash.MakeItemId(raw.siteId, raw.source, Trim(raw.title), Urls.NormalizeUrl(raw.url, parse), parse, sha1)
  }

  /** A first sighting: first and last seen now, published as the candidate says. */
  function Inserted(id: string, raw: RawItem, now: int, parse: Urls.Parser): Record {
    Record(id, raw.siteId, raw.siteName, raw.source, Trim(raw.title), Urls.NormalizeUrl(raw.url, parse),
           ToIsoString(raw.publishedAt), At(now), At(now), None)
  }

  /** A repeated sighting: the candidate's fields and "last seen now" overwrite the record;
      a publication time is filled in only when the record has none. */
  function Refreshed(existing: Record, raw: RawItem, now: int, parse: Urls.Parser): Record {
    existing.(siteId := raw.siteId, siteName := raw.siteName, source := raw.source, title := Trim(raw.title),
              url := Urls.NormalizeUrl(raw.url, parse),
              publishedAt := if raw.publishedAt.Some? && !Truthy(existing.publishedAt) then ToIsoString(raw.publishedAt)
                             else existing.publishedAt,
              lastSeenAt := At(now))
  }

  /** One iteration of the upsert loop. */
  function UpsertSpec(m: Store, raw: RawItem, now: int, parse: Urls.Parser, sha1: Hash.Digest): (r: Store)
    requires KeyedById(m)
    ensures KeyedById(r)
  {
    if !Admissible(raw, parse) then m
    else
      var id := CandidateId(raw, parse, sha1);
      if id in m.entries then m.Set(id, Refreshed(m.entries[id], raw, now, parse))
      else m.Set(id, Inserted(id, raw, now, parse))
  }

  /** The whole loop. */
  function UpsertAllSpec(m: Store, raws: seq<RawItem>, now: int, parse: Urls.Parser, sha1: Hash.Digest): (r: Store)
    requires KeyedById(m)
    ensures KeyedById(r)
    decreases |raws|
  {
    if raws == [] then m
    else UpsertSpec(UpsertAllSpec(m, raws[..|raws| - 1], now, parse, sha1), raws[|raws| - 1], now, parse, sha1)
  }

  /** A candidate without a title, without a normalised URL or with a URL that does not
      start with "http" is skipped. */
  lemma UpsertRejects(m: Store, raw: RawItem, now: int, parse: Urls.Parser, sha1: Hash.Digest)
    requires KeyedById(m) && !Admissible(raw, parse)
    ensures UpsertSpec(m, raw, now, parse, sha1) == m
  {
  }

  /** A first sighting is appended under its id, first and last seen now, with the
      candidate's publication time; nothing else changes. */
  lemma UpsertInserts(m: Store, raw: RawItem, now: int, parse: Urls.Parser, sha1: Hash.Digest)
    requires KeyedById(m) && Admissible(raw, parse) && CandidateId(raw, parse, sha1) !in m.entries
    ensures var r := UpsertSpec(m, raw, now, parse, sha1);
      var id := CandidateId(raw, parse, sha1);
      r.keys == m.keys + [id]
      && r.entries == m.entries[id := r.entries[id]]
      && r.entries[id].title == Trim(raw.title) && r.entries[id].url == Urls.NormalizeUrl(raw.url, parse)
      && r.entries[id].firstSeenAt == At(now) && r.entries[id].lastSeenAt == At(now)
      && ParseIso(r.entries[id].publishedAt) == raw.publishedAt
  {
  }

  /** A repeated sighting keeps its place and its first-seen time, is last seen now, and
      keeps any publication time it already had; nothing else changes. */
  lemma UpsertRefreshes(m: Store, raw: RawItem, now: int, parse: Urls.Parser, sha1: Hash.Digest)
    requires KeyedById(m) && Admissible(raw, parse) && CandidateId(raw, parse, sha1) in m.entries
    ensures var r := UpsertSpec(m, raw, now, parse, sha1);
      var id := CandidateId(raw, parse, sha1);
      var old_ := m.entries[id];
      r.keys == m.keys
      && r.entries == m.entries[id := r.entries[id]]
      && r.entries[id].title == Trim(raw.title) && r.entries[id].url == Urls.NormalizeUrl(raw.url, parse)
      && r.entries[id].firstSeenAt == old_.firstSeenAt && r.entries[id].lastSeenAt == At(now)
      && r.entries[id].bilingual == old_.bilingual
      && (Truthy(old_.publishedAt) || raw.publishedAt.None? ==> r.entries[id].publishedAt == old_.publishedAt)
      && (!Truthy(old_.publishedAt) && raw.publishedAt.Some? ==> ParseIso(r.entries[id].publishedAt) == raw.publishedAt)
  {
  }

  /** The archive holds `id`, last seen now. */
  predicate SeenNow(m: Store, id: string, now: int) {
    id in m.entries && m.entries[id].lastSeenAt == At(now)
  }

  /** One upsert keeps every id, and a record last seen now stays so. */
  lemma UpsertKeepsKey(m: Store, raw: RawItem, now: int, parse: Urls.Parser, sha1: Hash.Digest, k: string)
    requires KeyedById(m) && k in m.entries
    ensures var r := UpsertSpec(m, raw, now, parse, sha1);
      k in r.entries && (SeenNow(m, k, now) ==> SeenNow(r, k, now))
  {
  }

  /** An admissible candidate ends up last seen now. */
  lemma UpsertSeesCandidate(m: Store, raw: RawItem, now: int, parse: Urls.Parser, sha1: Hash.Digest)
    requires KeyedById(m) && Admissible(raw, parse)
    ensures SeenNow(UpsertSpec(m, raw, now, parse, sha1), CandidateId(raw, parse, sha1), now)
  {
  }

  /** Every candidate of the run that passes the admission test is in the archive
      afterwards, last seen now. */
  lemma {:induction false} UpsertAllSeen(m: Store, raws: seq<RawItem>, now: int, parse: Urls.Parser, sha1: Hash.Digest, i: int)
    requires KeyedById(m) && 0 <= i < |raws| && Admissible(raws[i], parse)
    ensures SeenNow(UpsertAllSpec(m, raws, now, parse, sha1), CandidateId(raws[i], parse, sha1), now)
    decreases |raws|
  {
    var init := raws[..|raws| - 1];
    var prev := UpsertAllSpec(m, init, now, parse, sha1);
    if i < |init| {
      assert init[i] == raws[i];
      UpsertAllSeen(m, init, now, parse, sha1, i);
    }
    SeenNowStep(prev, raws[|raws| - 1], now, parse, sha1, CandidateId(raws[i], parse, sha1), i == |init|);
  }

  /** After one upsert a record is last seen now if it was before or if it is the
      admissible candidate itself. */
  lemma SeenNowStep(prev: Store, raw: RawItem, now: int, parse: Urls.Parser, sha1: Hash.Digest, id: string, isLast: bool)
    requires KeyedById(prev)
    requires if isLast then Admissible(raw, parse) && id == CandidateId(raw, parse, sha1) else SeenNow(prev, id, now)
    ensures SeenNow(UpsertSpec(prev, raw, now, parse, sha1), id, now)
  {
    if isLast {
      UpsertSeesCandidate(prev, raw, now, parse, sha1);
    } else {
      UpsertKeepsKey(prev, raw, now, parse, sha1, id);
    }
  }

  /** No record is lost by the loop. */
  lemma {:induction false} UpsertAllKeeps(m: Store, raws: seq<RawItem>, now: int, parse: Urls.Parser, sha1: Hash.Digest)
    requires KeyedById(m)
    ensures forall k | k in m.entries :: k in UpsertAllSpec(m, raws, now, parse, sha1).entries
    decreases |raws|
  {
    if raws != [] {
      var init := raws[..|raws| - 1];
      UpsertAllKeeps(m, init, now, parse, sha1);
      var prev := UpsertAllSpec(m, init, now, parse, sha1);
      forall k | k in m.entries ensures k in UpsertAllSpec(m, raws, now, parse, sha1).entries {
        UpsertKeepsKey(prev, raws[|raws| - 1], now, parse, sha1, k);
      }
    }
  }

  // ----- the prune loop -----

  /** `parseISO(last_seen_at) || parseISO(published_at) || parseISO(first_seen_at) || now` */
  function RefTime(r: Record, now: int): int {
    OrElse(ParseIso(Some(r.lastSeenAt)), OrElse(ParseIso(r.publishedAt), ParseIso(Some(r.firstSeenAt)))).GetOr(now)
  }

  /** `ts < keepAfter` with `keepAfter = now - archiveDays days`. */
  predicate Stale(r: Record, now: int, days: int) {
    RefTime(r, now) < now - days * DAY
  }

  /** The archive after the loop has visited `visited`: each visited key still present
      is deleted when its record is stale. */
  function PrunedAfter(m: Store, visited: seq<string>, now: int, days: int): (r: Store)
    requires m.Valid()
    ensures r.Valid()
    decreases |visited|
  {
    if visited == [] then m
    else
      var prev := PrunedAfter(m, visited[..|visited| - 1], now, days);
      var k := visited[|visited| - 1];
      if k in prev.entries && Stale(prev.entries[k], now, days) then prev.Delete(k) else prev
  }

  /** The archive after the prune loop. */
  function PruneSpec(m: Store, now: int, days: int): (r: Store)
    requires m.Valid()
    ensures r.Valid()
  {
    PrunedAfter(m, m.keys, now, days)
  }

  /** `k` survives a visit of `visited`. */
  predicate Kept(m: Store, visited: seq<string>, now: int, days: int, k: string) {
    !(k in visited && k in m.entries && Stale(m.entries[k], now, days))
  }

  function KeptTest(m: Store, visited: seq<string>, now: int, days: int): string -> bool {
    k => Kept(m, visited, now, days, k)
  }

  /** After visiting `visited`, exactly the records that were not visited while stale
      remain, unchanged. */
  lemma {:induction false} PrunedEntries(m: Store, visited: seq<string>, now: int, days: int)
    requires m.Valid()
    ensures var r := PrunedAfter(m, visited, now, days);
      (forall k :: k in r.entries <==> k in m.entries && Kept(m, visited, now, days, k))
      && (forall k | k in r.entries :: r.entries[k] == m.entries[k])
    decreases |visited|
  {
    if visited != [] {
      PrunedEntries(m, visited[..|visited| - 1], now, days);
      assert visited == visited[..|visited| - 1] + [visited[|visited| - 1]];
    }
  }

  /** ... and they keep their original order. */
  lemma {:induction false} PrunedKeys(m: Store, visited: seq<string>, now: int, days: int)
    requires m.Valid()
    ensures PrunedAfter(m, visited, now, days).keys == Filter(m.keys, KeptTest(m, visited, now, days))
    decreases |visited|
  {
    if visited == [] {
      FilterCongruent(m.keys, KeptTest(m, visited, now, days), x => true);
      FilterAll(m.keys);
    } else {
      var init := visited[..|visited| - 1];
      PrunedKeys(m, init, now, days);
      PrunedKeysStep(m, init, visited[|visited| - 1], now, days);
      assert visited == init + [visited[|visited| - 1]];
    }
  }

  /** One more visit keeps the keys a filter of the original order. */
  lemma PrunedKeysStep(m: Store, init: seq<string>, k: string, now: int, days: int)
    requires m.Valid()
    requires PrunedAfter(m, init, now, days).keys == Filter(m.keys, KeptTest(m, init, now, days))
    ensures PrunedAfter(m, init + [k], now, days).keys == Filter(m.keys, KeptTest(m, init + [k], now, days))
  {
    var prev := PrunedAfter(m, init, now, days);
    PrunedAfterSnoc(m, init, k, now, days);
    PrunedEntries(m, init, now, days);
    if k in prev.entries && Stale(prev.entries[k], now, days) {
      DeletedStep(m, prev, init, k, now, days);
    } else {
      KeptKeys(m.keys, m, init, k, now, days);
    }
  }

  /** One more visit deletes the key when it is still there and stale. */
  lemma PrunedAfterSnoc(m: Store, init: seq<string>, k: string, now: int, days: int)
    requires m.Valid()
    ensures var prev := PrunedAfter(m, init, now, days);
      PrunedAfter(m, init + [k], now, days) == if k in prev.entries && Stale(prev.entries[k], now, days) then prev.Delete(k) else prev
  {
    assert (init + [k])[..|init + [k]| - 1] == init;
  }

  lemma DeletedStep(m: Store, prev: Store, init: seq<string>, k: string, now: int, days: int)
    requires m.Valid() && prev.Valid() && k in prev.entries && k in m.entries && Stale(m.entries[k], now, days)
    requires prev.keys == Filter(m.keys, KeptTest(m, init, now, days))
    ensures prev.Delete(k).keys == Filter(m.keys, KeptTest(m, init + [k], now, days))
  {
    RemoveKeyIsFilter(prev.keys, k);
    DeletedKeys(m.keys, m, init, k, now, days);
  }

  /** Deleting a visited stale key is filtering it out. */
  lemma DeletedKeys(keys: seq<string>, m: Store, init: seq<string>, k: string, now: int, days: int)
    requires k in m.entries && Stale(m.entries[k], now, days)
    ensures Filter(Filter(keys, KeptTest(m, init, now, days)), Except(k)) == Filter(keys, KeptTest(m, init + [k], now, days))
  {
    var p := KeptTest(m, init, now, days);
    var q := KeptTest(m, init + [k], now, days);
    FilterFilter(keys, p, Except(k));
    forall i | 0 <= i < |keys| ensures Both(p, Except(k))(keys[i]) == q(keys[i]) {
      assert keys[i] in init + [k] <==> keys[i] in init || keys[i] == k;
    }
    FilterCongruent(keys, Both(p, Except(k)), q);
  }

  /** Visiting a key that is gone or fresh changes nothing. */
  lemma KeptKeys(keys: seq<string>, m: Store, init: seq<string>, k: string, now: int, days: int)
    requires forall i | 0 <= i < |keys| :: keys[i] in m.entries
    requires !(k in m.entries && Kept(m, init, now, days, k) && Stale(m.entries[k], now, days))
    ensures Filter(keys, KeptTest(m, init, now, days)) == Filter(keys, KeptTest(m, init + [k], now, days))
  {
    var p := KeptTest(m, init, now, days);
    var q := KeptTest(m, init + [k], now, days);
    forall i | 0 <= i < |keys| ensures p(keys[i]) == q(keys[i]) {
      assert keys[i] in init + [k] <==> keys[i] in init || keys[i] == k;
    }
    FilterCongruent(keys, p, q);
  }

  /** `record` is not stale. */
  function FreshTest(m: Store, now: int, days: int): string -> bool {
    k => k in m.entries && !Stale(m.entries[k], now, days)
  }

  /** Pruning removes exactly the stale records and leaves the rest, unchanged and in their
      order. */
  lemma PruneMembers(m: Store, now: int, days: int)
    requires KeyedById(m)
    ensures var r := PruneSpec(m, now, days);
      KeyedById(r)
      && (forall k :: k in r.entries <==> k in m.entries && !Stale(m.entries[k], now, days))
      && (forall k | k in r.entries :: r.entries[k] == m.entries[k])
      && r.keys == Filter(m.keys, FreshTest(m, now, days))
  {
    PrunedEntries(m, m.keys, now, days);
    PrunedKeys(m, m.keys, now, days);
    FilterCongruent(m.keys, KeptTest(m, m.keys, now, days), FreshTest(m, now, days));
  }

  /** A record seen in this run (last seen now) survives whenever the retention is not negative. */
  lemma SeenNowSurvives(r: Record, now: int, days: int)
    requires r.lastSeenAt == At(now) && days >= 0
    ensures !Stale(r, now, days)
  {
  }

  // ----- the store -----

  class ArchiveStore {
    var items: Store

    predicate Valid()
      reads this
    {
      KeyedById(items)
    }

    constructor ()
      ensures Valid() && items == Empty()
    {
      items := Empty();
    }

    /** `archive.set(id, record)` */
    method Put(id: string, r: Record)
      requires Valid() && r.id == id
      modifies this
      ensures Valid() && items == old(items).Set(id, r)
    {
      items := items.Set(id, r);
    }

    /** One pass of the upsert loop body. */
    method Upsert(raw: RawItem, now: int, parse: Urls.Parser, sha1: Hash.Digest)
      requires Valid()
      modifies this
      ensures Valid() && items == UpsertSpec(old(items), raw, now, parse, sha1)
    {
      var title := Trim(raw.title);
      var url := Urls.NormalizeUrl(raw.url, parse);
      if title == [] || url == [] || !StartsWith(url, "http") {
        return;
      }
      var itemId := Hash.MakeItemId(raw.siteId, raw.source, title, url, parse, sha1);
      if itemId !in items.entries {
        Put(itemId, Inserted(itemId, raw, now, parse));
      } else {
        Put(itemId, Refreshed(items.entries[itemId], raw, now, parse));
      }
    }

    /** `for (const raw of rawItems) { ... }` */
    method UpsertAll(raws: seq<RawItem>, now: int, parse: Urls.Parser, sha1: Hash.Digest)
      requires Valid()
      modifies this
      ensures Valid() && items == UpsertAllSpec(old(items), raws, now, parse, sha1)
    {
      var i := 0;
      while i < |raws|
        invariant 0 <= i <= |raws|
        invariant Valid() && items == UpsertAllSpec(old(items), raws[..i], now, parse, sha1)
      {
        assert raws[..i + 1][..i] == raws[..i];
        Upsert(raws[i], now, parse, sha1);
        i := i + 1;
      }
      assert raws[..i] == raws;
    }

    /** `for (const [id, record] of archive) if (ts < keepAfter) archive.delete(id)`: a
        `Map` iterator visits the keys present at the start in order, and deleting the
        current key does not disturb it. */
    method Prune(now: int, days: int)
      requires Valid()
      modifies this
      ensures Valid() && items == PruneSpec(old(items), now, days)
    {
      ghost var m := items;
      var ks := items.keys;
      var keepAfter := now - days * DAY;
      var i := 0;
      while i < |ks|
        invariant 0 <= i <= |ks|
        invariant Valid() && items == PrunedAfter(m, ks[..i], now, days)
      {
        var id := ks[i];
        PruneNext(m, i, now, days);
        var record := items.entries[id];
        var ts := RefTime(record, now);
        if ts < keepAfter {
          items := items.Delete(id);
        }
        PrunedKeyed(m, ks[..i + 1], now, days);
        i := i + 1;
      }
      assert ks[..i] == ks;
    }
  }

  /** `loadArchive(path)`: a missing or unreadable file gives an empty archive; a list is
      loaded up to its first `null` element, whose `it.id` throws into the `catch`. */
  method LoadArchive(snap: Snapshot) returns (store: ArchiveStore)
    ensures fresh(store) && store.Valid() && store.items == LoadSpec(snap)
  {
    store := new ArchiveStore();
    match snap
    case Parsed(List(es)) =>
      var i := 0;
      while i < |es| && es[i] != NullEntry
        invariant 0 <= i <= |es|
        invariant forall j | 0 <= j < i :: es[j] != NullEntry
        invariant store.Valid() && store.items == LoadEntries(es[..i])
        modifies store
      {
        assert es[..i + 1][..i] == es[..i];
        var it := es[i];
        if it.Object? && it.record.id != [] {
          store.Put(it.record.id, it.record);
        }
        i := i + 1;
      }
      assert i == FirstNull(es);
    case Parsed(Members(ms)) =>
      var i := 0;
      while i < |ms|
        invariant 0 <= i <= |ms|
        invariant store.Valid() && store.items == LoadMembers(ms[..i])
        modifies store
      {
        assert ms[..i + 1][..i] == ms[..i];
        var (id, it) := ms[i];
        if it.Object? {
          store.Put(id, it.record.(id := id));
        }
        i := i + 1;
      }
      assert ms[..i] == ms;
    case _ =>
  }

  /** The key the loop visits next is still there (only visited keys are deleted, and no
      key is visited twice), and visiting it deletes it exactly when it is stale. */
  lemma PruneNext(m: Store, i: int, now: int, days: int)
    requires m.Valid() && 0 <= i < |m.keys|
    ensures var cur := PrunedAfter(m, m.keys[..i], now, days);
      m.keys[i] in cur.entries
      && PrunedAfter(m, m.keys[..i + 1], now, days)
         == if Stale(cur.entries[m.keys[i]], now, days) then cur.Delete(m.keys[i]) else cur
  {
    PrunedEntries(m, m.keys[..i], now, days);
    forall j | 0 <= j < i ensures m.keys[..i][j] != m.keys[i] {
      assert m.keys[j] != m.keys[i];
    }
    assert m.keys[..i + 1][..i] == m.keys[..i];
  }

  /** Pruning keeps every record under its own id. */
  lemma PrunedKeyed(m: Store, visited: seq<string>, now: int, days: int)
    requires KeyedById(m)
    ensures KeyedById(PrunedAfter(m, visited, now, days))
  {
    PrunedEntries(m, visited, now, days);
  }

  // ----- filterItemsByWindow -----

  /** `now - hours` */
  function WindowStart(now: int, hours: int): int {
    now - hours * HOUR
  }

  /** `ts && ts >= windowStart` on the event time. */
  predicate InWindow(r: Record, start: int) {
    EventTime(r).Some? && EventTime(r).value >= start
  }

  function InWindowTest(start: int): Record -> bool {
    r => InWindow(r, start)
  }

  /** The copy the window shows: mojibake repaired in the title and in the display source. */
  function Normalized(r: Record, parse: Urls.Parser, fix: Text.Latin1ToUtf8): Record {
    r.(title := Text.MaybeFixMojibake(r.title, fix),
       source := Text.MaybeFixMojibake(NormalizeSourceForDisplay(r.siteId, r.source, r.url, parse), fix))
  }

  /** AI HubToday placeholders ("详情", "查看详情", ...) are dropped. */
  predicate Placeholder(r: Record) {
    r.siteId == Hubtoday.SITE_ID && Hubtoday.IsPlaceholderTitle(r.title)
  }

  /** What the loop over the archive adds for one record. */
  function Candidate(r: Record, start: int, parse: Urls.Parser, fix: Text.Latin1ToUtf8): seq<Record> {
    if InWindow(r, start) && !Placeholder(Normalized(r, parse, fix)) then [Normalized(r, parse, fix)] else []
  }

  /** The loop over `archive.values()`. */
  function Candidates(rs: seq<Record>, start: int, parse: Urls.Parser, fix: Text.Latin1ToUtf8): seq<Record>
    decreases |rs|
  {
    if rs == [] then []
    else Candidates(rs[..|rs| - 1], start, parse, fix) + Candidate(rs[|rs| - 1], start, parse, fix)
  }

  /** One more record of the loop adds its candidate, if any. */
  lemma CandidatesStep(rs: seq<Record>, start: int, parse: Urls.Parser, fix: Text.Latin1ToUtf8, i: nat)
    requires i < |rs|
    ensures Candidates(rs[..i + 1], start, parse, fix) == Candidates(rs[..i], start, parse, fix)
      + (if EventTime(rs[i]).Some? && EventTime(rs[i]).value >= start && !Placeholder(Normalized(rs[i], parse, fix))
         then [Normalized(rs[i], parse, fix)] else [])
  {
    assert rs[..i + 1][..i] == rs[..i];
  }

  /** Every record in the window that is not a placeholder has its normalised copy among
      the candidates... */
  lemma {:induction false} CandidateOf(rs: seq<Record>, start: int, parse: Urls.Parser, fix: Text.Latin1ToUtf8, i: int)
    requires 0 <= i < |rs| && InWindow(rs[i], start) && !Placeholder(Normalized(rs[i], parse, fix))
    ensures Normalized(rs[i], parse, fix) in Candidates(rs, start, parse, fix)
    decreases |rs|
  {
    if i < |rs| - 1 {
      var init := rs[..|rs| - 1];
      assert init[i] == rs[i];
      CandidateOf(init, start, parse, fix, i);
    }
  }

  /** ... and every candidate is one. */
  lemma {:induction false} CandidateFrom(rs: seq<Record>, start: int, parse: Urls.Parser, fix: Text.Latin1ToUtf8, x: Record)
    requires x in Candidates(rs, start, parse, fix)
    ensures exists i | 0 <= i < |rs| :: InWindow(rs[i], start) && x == Normalized(rs[i], parse, fix) && !Placeholder(x)
    decreases |rs|
  {
    var init := rs[..|rs| - 1];
    if x in Candidates(init, start, parse, fix) {
      CandidateFrom(init, start, parse, fix, x);
      var i :| 0 <= i < |init| && InWindow(init[i], start) && x == Normalized(init[i], parse, fix) && !Placeholder(x);
      assert rs[i] == init[i];
    } else {
      assert x == Normalized(rs[|rs| - 1], parse, fix);
    }
  }

  /** `filterItemsByWindow(hours)` */
  function WindowSpec(m: Store, now: int, hours: int, parse: Urls.Parser, fix: Text.Latin1ToUtf8): seq<Record>
    requires m.Valid()
  {
    SortBy(Dedupe.NormalizeSpec(Candidates(m.Values(), WindowStart(now, hours), parse, fix), parse), NewestFirst())
  }

  /** Normalisation leaves the event time alone. */
  lemma NormalizedSameTime(r: Record, parse: Urls.Parser, fix: Text.Latin1ToUtf8)
    ensures EventTime(Normalized(r, parse, fix)) == EventTime(r)
  {
  }

  /** A candidate is the normalised copy of an archive record in the window. */
  lemma CandidateSource(m: Store, start: int, parse: Urls.Parser, fix: Text.Latin1ToUtf8, x: Record)
    requires m.Valid() && x in Candidates(m.Values(), start, parse, fix)
    ensures InWindow(x, start) && !Placeholder(x)
    ensures exists k | k in m.entries :: x == Normalized(m.entries[k], parse, fix)
  {
    var vs := m.Values();
    CandidateFrom(vs, start, parse, fix, x);
    var i :| 0 <= i < |vs| && InWindow(vs[i], start) && x == Normalized(vs[i], parse, fix) && !Placeholder(x);
    NormalizedSameTime(vs[i], parse, fix);
    assert vs[i] == m.entries[m.keys[i]];
  }

  /** The window's records are in the window, none is a placeholder, and each is the
      normalised copy of an archive record. */
  lemma WindowOutputs(m: Store, now: int, hours: int, parse: Urls.Parser, fix: Text.Latin1ToUtf8, x: Record)
    requires m.Valid() && x in WindowSpec(m, now, hours, parse, fix)
    ensures InWindow(x, WindowStart(now, hours)) && !Placeholder(x)
    ensures exists k | k in m.entries :: x == Normalized(m.entries[k], parse, fix)
  {
    var cands := Candidates(m.Values(), WindowStart(now, hours), parse, fix);
    SortByMembers(Dedupe.NormalizeSpec(cands, parse), NewestFirst(), x);
    Dedupe.NormalizeOutputsAreInputs(cands, parse, x);
    CandidateSource(m, WindowStart(now, hours), parse, fix, x);
  }

  /** A record of any other site that is in the window is shown. */
  lemma WindowKeepsOthers(m: Store, now: int, hours: int, parse: Urls.Parser, fix: Text.Latin1ToUtf8, k: string)
    requires m.Valid() && k in m.entries && m.entries[k].siteId != Hubtoday.SITE_ID
    requires InWindow(m.entries[k], WindowStart(now, hours))
    ensures Normalized(m.entries[k], parse, fix) in WindowSpec(m, now, hours, parse, fix)
  {
    var x := Normalized(m.entries[k], parse, fix);
    var cands := Candidates(m.Values(), WindowStart(now, hours), parse, fix);
    var i :| 0 <= i < |m.keys| && m.keys[i] == k;
    assert m.Values()[i] == m.entries[k];
    CandidateOf(m.Values(), WindowStart(now, hours), parse, fix, i);
    Dedupe.NormalizeKeepsOthers(cands, parse, x);
    assert x in Dedupe.NormalizeSpec(cands, parse);
    SortByMembers(Dedupe.NormalizeSpec(cands, parse), NewestFirst(), x);
  }

  /** The window is sorted newest first, and the sort after normalisation changes nothing:
      normalisation already sorted it the same way. */
  lemma WindowSorted(m: Store, now: int, hours: int, parse: Urls.Parser, fix: Text.Latin1ToUtf8)
    requires m.Valid()
    ensures SortedBy(WindowSpec(m, now, hours, parse, fix), NewestFirst())
    ensures WindowSpec(m, now, hours, parse, fix)
         == Dedupe.NormalizeSpec(Candidates(m.Values(), WindowStart(now, hours), parse, fix), parse)
  {
    var cands := Candidates(m.Values(), WindowStart(now, hours), parse, fix);
    Dedupe.NormalizeSorted(cands, parse);
    SortBySortedUnchanged(Dedupe.NormalizeSpec(cands, parse), NewestFirst());
  }

  /** The window method of the store. */
  method Window(store: ArchiveStore, now: int, hours: int, parse: Urls.Parser, fix: Text.Latin1ToUtf8)
    returns (items: seq<Record>)
    requires store.Valid()
    ensures items == WindowSpec(store.items, now, hours, parse, fix)
  {
    var windowStart := WindowStart(now, hours);
    var values := store.items.Values();
    items := [];
    var i := 0;
    while i < |values|
      invariant 0 <= i <= |values|
      invariant items == Candidates(values[..i], windowStart, parse, fix)
    {
      CandidatesStep(values, windowStart, parse, fix, i);
      var record := values[i];
      var ts := EventTime(record);
      if ts.Some? && ts.value >= windowStart {
        var normalized := Normalized(record, parse, fix);
        if !Placeholder(normalized) {
          items := items + [normalized];
        }
      }
      i := i + 1;
    }
    assert values[..i] == values;
    items := Dedupe.NormalizeAihubTodayRecords(items, parse);
    items := SortBy(items, NewestFirst());
  }

  // ----- the 24-hour selection -----

  /** `items.filter(item => eventTime(item) >= windowStart24h)` */
  function Recent(items: seq<Record>, start: int): (r: seq<Record>)
    ensures forall x :: x in r <==> x in items && InWindow(x, start)
  {
    FilterComplete(items, InWindowTest(start));
    Filter(items, InWindowTest(start))
  }

  /** The selection keeps the newest-first order. */
  lemma RecentSorted(items: seq<Record>, start: int)
    requires SortedBy(items, NewestFirst())
    ensures SortedBy(Recent(items, start), NewestFirst())
  {
    FilterSorted(items, InWindowTest(start), NewestFirst());
  }

  /** A narrower window selects from a wider one what it would select from the start. */
  lemma RecentNarrows(items: seq<Record>, wide: int, narrow: int)
    requires wide <= narrow
    ensures Recent(Recent(items, wide), narrow) == Recent(items, narrow)
  {
    FilterFilter(items, InWindowTest(wide), InWindowTest(narrow));
    FilterCongruent(items, Both(InWindowTest(wide), InWindowTest(narrow)), InWindowTest(narrow));
  }
}

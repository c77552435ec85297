/** The visited-links hook of the web client (web/src/hooks/useVisitedLinks.ts): a map
    from url to when it was opened and its title, loaded from `localStorage` on mount (an
    older format stored bare timestamps, migrated on load) and written back, trimmed to the
    newest 1000, after every change. */
module VisitedLinks {
  import opened Wrappers
  import opened OrderedMaps
  import opened Text
  import opened Persisted

  const STORAGE_KEY := "ai-news-visited-links"
  const MAX_LINKS: nat := 1000

  /** The older format: url to a bare timestamp. */
  type Stamps = m: OrderedMap<string, int> | m.Valid() witness OrderedMap([], map[])

  /** The `links` member of the stored document, in the older or the current format. */
  datatype StoredLinks = Legacy(stamps: Stamps) | Current(links: Links)

  /** `JSON.parse(stored).links`: `Err` when parsing throws, `None` when the member is
      missing or falsy. */
  type LinksParser = string -> Result<Option<StoredLinks>>

  /** The migration's result: the same urls in the same order, each with its timestamp and
      an empty title. */
  function Migrated(stamps: Stamps): (r: Links)
    ensures r.keys == stamps.keys
    ensures forall u | u in stamps.entries :: u in r.entries && r.entries[u] == Info(stamps.entries[u], "")
  {
    OrderedMap(stamps.keys, map u | u in stamps.entries :: Info(stamps.entries[u], ""))
  }

  /** The migration loop: `for (const [url, timestamp] of Object.entries(links))
      migrated[url] = { timestamp, title: '' }`. */
  method Migrate(stamps: Stamps) returns (migrated: Links)
    ensures migrated == Migrated(stamps)
  {
    migrated := Empty();
    var i := 0;
    while i < |stamps.keys|
      invariant 0 <= i <= |stamps.keys|
      invariant migrated.keys == stamps.keys[..i]
      invariant migrated.entries == map u | u in stamps.keys[..i] :: Info(stamps.entries[u], "")
    {
      var url := stamps.keys[i];
      assert url !in stamps.keys[..i];
      migrated := migrated.Set(url, Info(stamps.entries[url], ""));
      assert stamps.keys[..i + 1] == stamps.keys[..i] + [url];
      i := i + 1;
    }
    assert stamps.keys[..i] == stamps.keys;
  }

  /** `getStoredLinks`: a stored map whose first value is a number is migrated; a map in
      the current format is returned as it is; anything else gives an empty map. */
  function GetStoredLinks(stored: Option<string>, parse: LinksParser): (r: Links) {
    if stored.None? || stored.value == [] then Empty()
    else match parse(stored.value)
      case Err(_) => Empty()
      case Ok(None) => Empty()
      case Ok(Some(Legacy(stamps))) =>
        // an empty object has no first value and is returned as it is
        if stamps.keys != [] then Migrated(stamps) else Empty()
      case Ok(Some(Current(links))) => links
  }

  /** Loading keeps exactly the stored urls. Stored timestamps come through unchanged (with
      an empty title when migrated), and missing or unreadable storage gives no links. */
  lemma StoredLinksCases(stored: Option<string>, parse: LinksParser)
    ensures var r := GetStoredLinks(stored, parse);
      ((stored.None? || stored == Some("")) ==> r == Empty())
      && (stored.Some? && stored.value != [] ==> match parse(stored.value)
            case Err(_) => r == Empty()
            case Ok(None) => r == Empty()
            case Ok(Some(Legacy(stamps))) =>
              r.keys == stamps.keys
              && forall u | u in stamps.entries :: r.entries[u].timestamp == stamps.entries[u] && r.entries[u].title == ""
            case Ok(Some(Current(links))) => r == links)
  {
  }

  /** What `saveLinks` writes under the key (serialised as `{ links }`). */
  function Saved(links: Links): Links {
    Trimmed(links, MAX_LINKS)
  }

  /** `markAsVisited`'s updater: `{ ...prev, [url]: { timestamp: now, title: title || '' } }`. */
  function Marked(prev: Links, url: string, title: Option<string>, now: int): Links {
    prev.Set(url, Info(now, OrText(title, "")))
  }

  /** `isVisited(url)`: `url in visitedLinks`. */
  predicate IsVisited(links: Links, url: string) {
    url in links.entries
  }

  /** `visitedCount`: `Object.keys(visitedLinks).length`. */
  function VisitedCount(links: Links): nat {
    |links.keys|
  }

  /** Marking records the url with the new timestamp and its title (empty when missing)
      and leaves every other entry as it was. */
  lemma MarkedOthersUnchanged(prev: Links, url: string, title: Option<string>, now: int)
    ensures var next := Marked(prev, url, title, now);
      IsVisited(next, url) && next.entries[url].timestamp == now
      && next.entries[url].title == (if title.Some? then title.value else "")
      && (forall u | u != url :: IsVisited(next, u) == IsVisited(prev, u))
      && (forall u | u != url && IsVisited(prev, u) :: next.entries[u] == prev.entries[u])
      && VisitedCount(next) == VisitedCount(prev) + (if IsVisited(prev, url) then 0 else 1)
  {
  }

  /** Marking a url again moves neither it nor any other url in the key order. */
  lemma MarkedAgainKeepsOrder(prev: Links, url: string, title: Option<string>, now: int)
    requires IsVisited(prev, url)
    ensures Marked(prev, url, title, now).keys == prev.keys
  {
  }

  /** The count is the number of visited urls. */
  lemma CountIsVisited(links: Links)
    ensures VisitedCount(links) == |links.entries.Keys|
  {
    SizeIsCount(links);
  }

  /** With more than 1000 links, exactly the 1000 newest are written, each with its own
      value; up to 1000, the map is written as it is. */
  lemma SavedKeepsNewest(links: Links)
    ensures var w := Saved(links);
      |w.keys| == (if VisitedCount(links) > MAX_LINKS then MAX_LINKS else VisitedCount(links))
      && (forall u | IsVisited(w, u) :: IsVisited(links, u) && w.entries[u] == links.entries[u])
      && (forall u, d | IsVisited(w, u) && IsVisited(links, d) && !IsVisited(w, d) ::
            links.entries[d].timestamp <= links.entries[u].timestamp)
      && (VisitedCount(links) <= MAX_LINKS ==> w == links)
  {
    TrimmedKeepsNewest(links, MAX_LINKS);
  }

  /** The hook's state together with what it last wrote to `localStorage`. */
  class VisitedLinksHook {
    /** The `visitedLinks` state. */
    var visitedLinks: Links
    /** The map last written under `STORAGE_KEY`, or `None` after `removeItem`. */
    var written: Option<Links>

    /** Mounting: the state starts from storage (migrating the older format with the
        loop), then the effect writes it back. */
    constructor (stored: Option<string>, parse: LinksParser)
      ensures visitedLinks == GetStoredLinks(stored, parse)
      ensures written == Some(Saved(visitedLinks))
    {
      var loaded: Links := Empty();
      if stored.Some? && stored.value != [] {
        match parse(stored.value)
        case Err(_) =>
        case Ok(None) =>
        case Ok(Some(Legacy(stamps))) =>
          if stamps.keys != [] {
            loaded := Migrate(stamps);
          }
        case Ok(Some(Current(links))) =>
          loaded := links;
      }
      visitedLinks := loaded;
      written := Some(Saved(loaded));
    }

    /** A new state and the effect that follows it (`saveLinks(visitedLinks)`). */
    method Commit(next: Links)
      modifies this
      ensures visitedLinks == next && written == Some(Saved(next))
    {
      visitedLinks := next;
      written := Some(Saved(next));
    }

    method MarkAsVisited(url: string, title: Option<string>, now: int)
      modifies this
      ensures visitedLinks == Marked(old(visitedLinks), url, title, now)
      ensures written == Some(Saved(visitedLinks))
    {
      Commit(Marked(visitedLinks, url, title, now));
    }

    /** `clearAll`: the state becomes `{}` and the key is removed, but the new (empty)
        state triggers the effect, which writes the empty map back. */
    method ClearAll()
      modifies this
      ensures visitedLinks == Empty() && VisitedCount(visitedLinks) == 0
      ensures written.Some? && written.value == Empty()
    {
      written := None;
      Commit(Empty());
    }
  }
}

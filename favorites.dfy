/** The favourites hook of the web client (web/src/hooks/useFavorites.ts): a map from url
    to when it was saved and its title, loaded from `localStorage` on mount and written
    back, trimmed to the newest 500, after every change. */
module Favorites {
  import opened Wrappers
  import opened OrderedMaps
  import opened Persisted

  const STORAGE_KEY := "ai-news-favorites"
  const MAX_FAVORITES: nat := 500

  /** `JSON.parse(stored).favorites`: `Err` when parsing throws (text that is not JSON, or
      the value `null`), `None` when the `favorites` member is missing or falsy. */
  type FavoritesParser = string -> Result<Option<Links>>

  /** `getStoredFavorites`: the favourites stored under the key, or an empty map when
      nothing is stored, the text does not parse or holds no favourites. */
  function GetStoredFavorites(stored: Option<string>, parse: FavoritesParser): (r: Links)
    ensures r == Empty() || (stored.Some? && parse(stored.value) == Ok(Some(r)))
    ensures (stored.None? || stored == Some("")) ==> r == Empty()
    ensures stored.Some? && stored.value != [] && parse(stored.value).Ok? && parse(stored.value).value.Some?
      ==> r == parse(stored.value).value.value
  {
    if stored.None? || stored.value == [] then Empty()
    else match parse(stored.value)
      case Err(_) => Empty()
      case Ok(None) => Empty()
      case Ok(Some(favorites)) => favorites
  }

  /** What `saveFavorites` writes under the key (serialised as `{ favorites }`). */
  function Saved(favorites: Links): Links {
    Trimmed(favorites, MAX_FAVORITES)
  }

  /** `addFavorite`'s updater: `{ ...prev, [url]: { timestamp: now, title } }`. */
  function Added(prev: Links, url: string, title: string, now: int): Links {
    prev.Set(url, Info(now, title))
  }

  /** `removeFavorite`'s updater: a copy without `url`. */
  function Removed(prev: Links, url: string): Links {
    prev.Delete(url)
  }

  /** `toggleFavorite`'s updater. */
  function Toggled(prev: Links, url: string, title: string, now: int): Links {
    if url in prev.entries then Removed(prev, url) else Added(prev, url, title, now)
  }

  /** `isFavorite(url)`: `url in favorites`. */
  predicate IsFavorite(favorites: Links, url: string) {
    url in favorites.entries
  }

  /** `favoriteCount`: `Object.keys(favorites).length`. */
  function FavoriteCount(favorites: Links): nat {
    |favorites.keys|
  }

  /** The count is the number of urls that are favourites: every key is counted once. */
  lemma CountIsFavorites(favorites: Links)
    ensures FavoriteCount(favorites) == |favorites.entries.Keys|
  {
    SizeIsCount(favorites);
  }

  /** Adding maps the url to the new timestamp and title and leaves every other entry
      as it was; the count grows by one exactly when the url was not a favourite. */
  lemma AddedOthersUnchanged(prev: Links, url: string, title: string, now: int)
    ensures var next := Added(prev, url, title, now);
      IsFavorite(next, url) && next.entries[url] == Info(now, title)
      && (forall u | u != url :: IsFavorite(next, u) == IsFavorite(prev, u))
      && (forall u | u != url && IsFavorite(prev, u) :: next.entries[u] == prev.entries[u])
      && FavoriteCount(next) == FavoriteCount(prev) + (if IsFavorite(prev, url) then 0 else 1)
  {
  }

  /** Removing drops that url only; the count shrinks by one exactly when it was a
      favourite. */
  lemma RemovedOnlyThat(prev: Links, url: string)
    ensures var next := Removed(prev, url);
      !IsFavorite(next, url)
      && (forall u | u != url :: IsFavorite(next, u) == IsFavorite(prev, u))
      && (forall u | u != url && IsFavorite(prev, u) :: next.entries[u] == prev.entries[u])
      && FavoriteCount(next) == FavoriteCount(prev) - (if IsFavorite(prev, url) then 1 else 0)
  {
    DeleteSize(prev, url);
  }

  /** Toggling flips the url's membership and touches no other entry. */
  lemma ToggledFlips(prev: Links, url: string, title: string, now: int)
    ensures var next := Toggled(prev, url, title, now);
      (IsFavorite(next, url) <==> !IsFavorite(prev, url))
      && (IsFavorite(next, url) ==> next.entries[url] == Info(now, title))
      && (forall u | u != url :: IsFavorite(next, u) == IsFavorite(prev, u))
      && (forall u | u != url && IsFavorite(prev, u) :: next.entries[u] == prev.entries[u])
  {
  }

  /** Toggling a url that is not a favourite twice gives back the same map, order
      included. */
  lemma {:induction false} ToggleTwice(prev: Links, url: string, title: string, now: int, title2: string, now2: int)
    requires !IsFavorite(prev, url)
    ensures Toggled(Toggled(prev, url, title, now), url, title2, now2) == prev
  {
    DeleteUndoesSet(prev, url, Info(now, title));
  }

  /** With more than 500 favourites, exactly the 500 newest are written, each with its own
      value; up to 500, the map is written as it is. */
  lemma SavedKeepsNewest(favorites: Links)
    ensures var w := Saved(favorites);
      |w.keys| == (if FavoriteCount(favorites) > MAX_FAVORITES then MAX_FAVORITES else FavoriteCount(favorites))
      && (forall u | IsFavorite(w, u) :: IsFavorite(favorites, u) && w.entries[u] == favorites.entries[u])
      && (forall u, d | IsFavorite(w, u) && IsFavorite(favorites, d) && !IsFavorite(w, d) ::
            favorites.entries[d].timestamp <= favorites.entries[u].timestamp)
      && (FavoriteCount(favorites) <= MAX_FAVORITES ==> w == favorites)
  {
    TrimmedKeepsNewest(favorites, MAX_FAVORITES);
  }

  /** The hook's state together with what it last wrote to `localStorage`. */
  class FavoritesHook {
    /** The `favorites` state. */
    var favorites: Links
    /** The map last written under `STORAGE_KEY`, or `None` after `removeItem`. */
    var written: Option<Links>

    /** Mounting: the state starts from storage, then the effect writes it back. */
    constructor (stored: Option<string>, parse: FavoritesParser)
      ensures favorites == GetStoredFavorites(stored, parse)
      ensures written == Some(Saved(favorites))
    {
      favorites := GetStoredFavorites(stored, parse);
      written := Some(Saved(GetStoredFavorites(stored, parse)));
    }

    /** A new state and the effect that follows it (`saveFavorites(favorites)`). */
    method Commit(next: Links)
      modifies this
      ensures favorites == next && written == Some(Saved(next))
    {
      favorites := next;
      written := Some(Saved(next));
    }

    method AddFavorite(url: string, title: string, now: int)
      modifies this
      ensures favorites == Added(old(favorites), url, title, now)
      ensures written == Some(Saved(favorites))
    {
      Commit(Added(favorites, url, title, now));
    }

    method RemoveFavorite(url: string)
      modifies this
      ensures favorites == Removed(old(favorites), url)
      ensures written == Some(Saved(favorites))
    {
      Commit(Removed(favorites, url));
    }

    method ToggleFavorite(url: string, title: string, now: int)
      modifies this
      ensures favorites == Toggled(old(favorites), url, title, now)
      ensures written == Some(Saved(favorites))
    {
      Commit(Toggled(favorites, url, title, now));
    }

    /** `clearAll`: the state becomes `{}` and the key is removed, but the new (empty)
        state triggers the effect, which writes the empty map back. */
    method ClearAll()
      modifies this
      ensures favorites == Empty() && FavoriteCount(favorites) == 0
      ensures written.Some? && written.value == Empty()
    {
      written := None;
      Commit(Empty());
    }
  }
}

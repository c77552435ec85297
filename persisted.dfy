/** The url-keyed maps the web client keeps in `localStorage` (favourites and visited
    links): each url maps to when it was recorded and the item's title. Saving a map that
    has grown past its capacity writes only the newest entries
    (web/src/hooks/useFavorites.ts, lines 26-38; web/src/hooks/useVisitedLinks.ts,
    lines 34-46). */
module Persisted {
  import opened Sorting
  import opened OrderedMaps

  /** `{ timestamp, title }`, the timestamp in epoch milliseconds. */
  datatype Info = Info(timestamp: int, title: string)

  /** A plain object from url to `Info`, in key order. */
  type Links = m: OrderedMap<string, Info> | m.Valid() witness OrderedMap([], map[])

  /** One `[url, info]` pair of `Object.entries`. */
  type Entry = (string, Info)

  /** The url of a pair. */
  function Url(): Entry -> string {
    (e: Entry) => e.0
  }

  /** `(a, b) => a[1].timestamp - b[1].timestamp`: oldest first. */
  function Oldest(): (Entry, Entry) -> bool {
    (a: Entry, b: Entry) => a.1.timestamp < b.1.timestamp
  }

  lemma OldestIsStrictOrder()
    ensures StrictOrder(Oldest())
  {
  }

  /** What a save writes: the map itself when it has at most `cap` entries, otherwise its
      entries sorted oldest first, the last `cap` of them, made back into an object. */
  function Trimmed(m: Links, cap: nat): Links {
    if |m.keys| > cap then FromPairs(SortBy(m.Items(), Oldest())[|m.keys| - cap..]) else m
  }

  /** Setting pairs whose urls are all different gives a map with exactly those urls, in
      the order of the pairs, each with the value of its pair. */
  lemma {:induction false} FromPairsDistinct(pairs: seq<Entry>)
    requires KeysDistinct(pairs, Url())
    ensures |FromPairs(pairs).keys| == |pairs|
    ensures forall i | 0 <= i < |pairs| :: FromPairs(pairs).keys[i] == pairs[i].0
    decreases |pairs|
  {
    if pairs != [] {
      var n := |pairs| - 1;
      var init := pairs[..n];
      assert KeysDistinct(init, Url()) by {
        forall i, j | 0 <= i < j < |init| ensures Url()(init[i]) != Url()(init[j]) {
          assert init[i] == pairs[i] && init[j] == pairs[j];
        }
      }
      FromPairsDistinct(init);
      var prev := FromPairs(init);
      forall i | 0 <= i < |prev.keys| ensures prev.keys[i] != pairs[n].0 {
        assert init[i] == pairs[i];
        assert Url()(pairs[i]) != Url()(pairs[n]);
      }
      assert pairs[n].0 !in prev.keys;
      var r := FromPairs(pairs);
      assert r.keys == prev.keys + [pairs[n].0];
      forall i | 0 <= i < |pairs| ensures r.keys[i] == pairs[i].0 {
        if i < n {
          assert r.keys[i] == prev.keys[i] && init[i] == pairs[i];
        }
      }
    }
  }

  /** A suffix of a list of pairs with distinct urls, made into an object, holds exactly
      the pairs of the suffix. */
  lemma SuffixPairs(sorted: seq<Entry>, off: nat)
    requires off <= |sorted| && KeysDistinct(sorted, Url())
    ensures var kept := sorted[off..];
      var r := FromPairs(kept);
      |r.keys| == |kept|
      && (forall i | 0 <= i < |kept| :: r.keys[i] == sorted[off + i].0 && r.entries[r.keys[i]] == sorted[off + i].1)
  {
    var kept := sorted[off..];
    assert forall i | 0 <= i < |kept| :: kept[i] == sorted[off + i];
    assert KeysDistinct(kept, Url()) by {
      forall i, j | 0 <= i < j < |kept| ensures Url()(kept[i]) != Url()(kept[j]) {
        assert kept[i] == sorted[i + off] && kept[j] == sorted[j + off];
      }
    }
    FromPairsDistinct(kept);
    FromPairsLast(kept);
    forall i | 0 <= i < |kept| ensures LastKeyAt(kept, i) {
      assert forall j | i < j < |kept| :: Url()(kept[i]) != Url()(kept[j]);
    }
  }

  /** The entries of a valid map, sorted oldest first, with what sorting keeps. */
  lemma SortedEntries(m: Links)
    ensures var items := m.Items();
      var sorted := SortBy(items, Oldest());
      |sorted| == |m.keys|
      && SortedBy(sorted, Oldest())
      && KeysDistinct(sorted, Url())
      && (forall q | 0 <= q < |sorted| :: sorted[q].0 in m.entries && sorted[q].1 == m.entries[sorted[q].0])
      && (forall d | d in m.entries :: exists p | 0 <= p < |sorted| :: sorted[p].0 == d)
  {
    var items := m.Items();
    var sorted := SortBy(items, Oldest());
    OldestIsStrictOrder();
    SortBySorted(items, Oldest());
    assert KeysDistinct(items, Url()) by {
      forall i, j | 0 <= i < j < |items| ensures Url()(items[i]) != Url()(items[j]) {
        assert items[i].0 == m.keys[i] && items[j].0 == m.keys[j];
      }
    }
    PermutationKeysDistinct(items, sorted, Url());
    forall q | 0 <= q < |sorted| ensures sorted[q].0 in m.entries && sorted[q].1 == m.entries[sorted[q].0] {
      assert sorted[q] in multiset(items);
      var j :| 0 <= j < |items| && items[j] == sorted[q];
    }
    forall d | d in m.entries ensures exists p | 0 <= p < |sorted| :: sorted[p].0 == d {
      assert d in m.keys;
      var j :| 0 <= j < |m.keys| && m.keys[j] == d;
      assert items[j] in multiset(sorted);
      var p :| 0 <= p < |sorted| && sorted[p] == items[j];
    }
  }

  /** What a save of `m` with capacity `cap` promises of the map `r` it writes: at most
      `cap` entries, every entry written is an entry of `m` with its value, no entry left
      out is newer than one written, and a map within capacity is written as it is; when
      trimmed, the map written lists its urls oldest first. */
  predicate KeepsNewest(m: Links, r: Links, cap: nat) {
    |r.keys| == (if |m.keys| > cap then cap else |m.keys|)
    && (forall u | u in r.entries :: u in m.entries && r.entries[u] == m.entries[u])
    && (forall u, d | u in r.entries && d in m.entries && d !in r.entries ::
          m.entries[d].timestamp <= m.entries[u].timestamp)
    && (|m.keys| <= cap ==> r == m)
    && (|m.keys| > cap ==> forall i, j | 0 <= i < j < |r.keys| ::
          r.entries[r.keys[i]].timestamp <= r.entries[r.keys[j]].timestamp)
  }

  /** A map holding the last `cap` pairs of a sorted permutation of a larger map's entries
      keeps the newest entries of that map. */
  lemma {:induction false} NewestSuffix(m: Links, sorted: seq<Entry>, off: nat, r: Links, cap: nat)
    requires |sorted| == |m.keys| > cap && off == |sorted| - cap && SortedBy(sorted, Oldest())
    requires forall q | 0 <= q < |sorted| :: sorted[q].0 in m.entries && sorted[q].1 == m.entries[sorted[q].0]
    requires forall d | d in m.entries :: exists p | 0 <= p < |sorted| :: sorted[p].0 == d
    requires |r.keys| == |sorted| - off
    requires forall i | 0 <= i < |r.keys| :: r.keys[i] == sorted[off + i].0 && r.entries[r.keys[i]] == sorted[off + i].1
    ensures KeepsNewest(m, r, cap)
  {
    forall u | u in r.entries ensures u in m.entries && r.entries[u] == m.entries[u] {
      assert u in r.keys;
    }
    forall k | off <= k < |sorted| ensures sorted[k].0 in r.entries {
      assert r.keys[k - off] == sorted[k].0;
    }
    forall u, d | u in r.entries && d in m.entries && d !in r.entries
      ensures m.entries[d].timestamp <= m.entries[u].timestamp
    {
      assert u in r.keys;
      var i :| 0 <= i < |r.keys| && r.keys[i] == u;
      var p :| 0 <= p < |sorted| && sorted[p].0 == d;
      assert p < off;
      assert !Oldest()(sorted[off + i], sorted[p]);
    }
    forall i, j | 0 <= i < j < |r.keys|
      ensures r.entries[r.keys[i]].timestamp <= r.entries[r.keys[j]].timestamp
    {
      assert !Oldest()(sorted[off + j], sorted[off + i]);
    }
  }

  /** Saving keeps the newest entries. */
  lemma TrimmedKeepsNewest(m: Links, cap: nat)
    ensures KeepsNewest(m, Trimmed(m, cap), cap)
  {
    if |m.keys| > cap {
      TrimmedOverKeepsNewest(m, cap);
    } else {
      KeepsAll(m, cap);
    }
  }

  /** Over capacity, the last `cap` entries in timestamp order are the newest. */
  lemma TrimmedOverKeepsNewest(m: Links, cap: nat)
    requires |m.keys| > cap
    ensures KeepsNewest(m, Trimmed(m, cap), cap)
  {
    var items := m.Items();
    var sorted := SortBy(items, Oldest());
    assert |sorted| == |items| == |m.keys|;
    var off := |sorted| - cap;
    var r := Trimmed(m, cap);
    assert r == FromPairs(sorted[off..]);
    SortedEntries(m);
    SuffixPairs(sorted, off);
    NewestSuffix(m, sorted, off, r, cap);
  }

  /** A map within capacity, written as it is, keeps everything. */
  lemma KeepsAll(m: Links, cap: nat)
    requires |m.keys| <= cap
    ensures KeepsNewest(m, m, cap)
  {
  }
}

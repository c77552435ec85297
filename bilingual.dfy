/** The bilingual enricher (`src/translate/google.ts`): every record gets its original,
    English and Chinese titles; a Chinese title for an English one is looked up by URL among
    the Chinese-titled records, then in the title cache, and only then asked of the
    translation service, at most a fixed number of times per run. The service is the
    parameter `Translator`; what it answers is not modelled. */
module Bilingual {
  import opened Wrappers
  import opened Strings
  import opened OrderedMaps
  import opened Sorting
  import opened Records
  import Urls
  import Text

  /** `translateToZhCN(title)`: a translation, or none. */
  type Translator = string -> Option<string>

  /** The title cache, a `Map<string, string>` from English title to Chinese title. */
  type Cache = OrderedMap<string, string>

  /** What one call of `enrich` changes besides its result: the cache and `translatedNow`. */
  datatype EnrichState = EnrichState(cache: Cache, translatedNow: nat)

  /** A Chinese title known for an item: the URL cross-reference entry, else the cache entry,
      where an empty string counts as none (`|| null`). */
  function Known(zhByUrl: map<string, string>, cache: Cache, title: string, url: string): Option<string> {
    if url in zhByUrl && zhByUrl[url] != [] then Some(zhByUrl[url])
    else if title in cache.entries && cache.entries[title] != [] then Some(cache.entries[title])
    else None
  }

  // ----- the URL cross-reference -----

  /** `zhByUrl`: for every record with a non-blank Chinese title and a non-empty normalised
      URL, the URL maps to the trimmed title; a later record overwrites an earlier one. */
  function ZhByUrl(items: seq<Record>, parse: Urls.Parser): map<string, string>
    decreases |items|
  {
    if items == [] then map[]
    else
      var prev := ZhByUrl(items[..|items| - 1], parse);
      var it := items[|items| - 1];
      var title := Trim(it.title);
      var url := Urls.NormalizeUrl(it.url, parse);
      if title != [] && url != [] && Text.HasCjk(title) then prev[url := title] else prev
  }

  /** A cross-reference entry is the Chinese title of the last record with that URL. */
  lemma {:induction false} ZhByUrlEntries(items: seq<Record>, parse: Urls.Parser, url: string)
    requires url in ZhByUrl(items, parse)
    ensures var z := ZhByUrl(items, parse)[url];
      z != [] && Text.HasCjk(z)
      && exists i | 0 <= i < |items| :: Trim(items[i].title) == z && Urls.NormalizeUrl(items[i].url, parse) == url
    decreases |items|
  {
    var init := items[..|items| - 1];
    var it := items[|items| - 1];
    if url in ZhByUrl(init, parse) && ZhByUrl(items, parse)[url] == ZhByUrl(init, parse)[url] {
      ZhByUrlEntries(init, parse, url);
      var i :| 0 <= i < |init| && Trim(init[i].title) == ZhByUrl(init, parse)[url]
               && Urls.NormalizeUrl(init[i].url, parse) == url;
      assert items[i] == init[i];
    } else {
      assert Trim(items[|items| - 1].title) == ZhByUrl(items, parse)[url];
    }
  }

  // ----- enrich -----

  /** `enrich(item, allowTranslate)` as a function of the cross-reference and the state. */
  function EnrichSpec(item: Record, allow: bool, zhByUrl: map<string, string>, st: EnrichState, max: nat,
                      parse: Urls.Parser, tr: Translator): (Record, EnrichState)
  {
    EnrichWith(item, Trim(item.title), Urls.NormalizeUrl(item.url, parse), allow, zhByUrl, st, max, tr)
  }

  /** `enrich` once the title has been trimmed and the URL normalised. */
  function EnrichWith(item: Record, title: string, url: string, allow: bool, zhByUrl: map<string, string>,
                      st: EnrichState, max: nat, tr: Translator): (Record, EnrichState)
  {
    if Text.HasCjk(title) then (item.(bilingual := Some(Bilingual(title, None, Some(title), title))), st)
    else if !Text.IsMostlyEnglish(title) then (item.(bilingual := Some(Bilingual(title, None, None, title))), st)
    else
      var found := LookupZh(title, url, allow, zhByUrl, st, max, tr);
      if found.0.Some? then
        (item.(bilingual := Some(Bilingual(title, Some(title), found.0, found.0.value + " / " + title))), found.1)
      else (item.(bilingual := Some(Bilingual(title, Some(title), None, title))), found.1)
  }

  /** The Chinese title for an English one: a known one, else (when allowed and under the
      limit) the service's answer if it is Chinese, which is then cached and counted. */
  function LookupZh(title: string, url: string, allow: bool, zhByUrl: map<string, string>, st: EnrichState,
                    max: nat, tr: Translator): (Option<string>, EnrichState)
  {
    var known := Known(zhByUrl, st.cache, title, url);
    if known.None? && allow && st.translatedNow < max && tr(title).Some? && Text.HasCjk(tr(title).value) then
      (tr(title), EnrichState(st.cache.Set(title, tr(title).value), st.translatedNow + 1))
    else (known, st)
  }

  /** The fields `enrich` sets: every other field is copied, the original title is the
      trimmed title, and the bilingual title is that title unless a Chinese title was found,
      in which case it is "<zh> / <title>". A Chinese title is its own Chinese title with no
      English one; a title neither Chinese nor mostly English gets neither. */
  lemma EnrichFields(item: Record, allow: bool, zhByUrl: map<string, string>, st: EnrichState, max: nat,
                     parse: Urls.Parser, tr: Translator)
    ensures var (out, _) := EnrichSpec(item, allow, zhByUrl, st, max, parse, tr);
      var title := Trim(item.title);
      out.bilingual.Some?
      && out == item.(bilingual := out.bilingual)
      && out.bilingual.value.titleOriginal == title
      && (out.bilingual.value.titleZh.None? ==> out.bilingual.value.titleBilingual == title)
      && (out.bilingual.value.titleZh.Some? && out.bilingual.value.titleEn.Some? ==>
            out.bilingual.value.titleBilingual == out.bilingual.value.titleZh.value + " / " + title)
      && (Text.HasCjk(title) ==>
            out.bilingual.value.titleZh == Some(title) && out.bilingual.value.titleEn.None?
            && out.bilingual.value.titleBilingual == title)
      && (!Text.HasCjk(title) && !Text.IsMostlyEnglish(title) ==>
            out.bilingual.value.titleZh.None? && out.bilingual.value.titleEn.None?)
      && (!Text.HasCjk(title) && Text.IsMostlyEnglish(title) ==> out.bilingual.value.titleEn == Some(title))
  {
  }

  /** The lookup order for an English title: the URL cross-reference, then the cache, then
      (only when allowed and under the limit) the service, whose answer counts only when it
      is Chinese; then the translation is cached and counted. Nothing else changes the
      state. */
  lemma EnrichLookupOrder(item: Record, allow: bool, zhByUrl: map<string, string>, st: EnrichState, max: nat,
                          parse: Urls.Parser, tr: Translator)
    requires !Text.HasCjk(Trim(item.title)) && Text.IsMostlyEnglish(Trim(item.title))
    ensures var (out, st') := EnrichSpec(item, allow, zhByUrl, st, max, parse, tr);
      var title := Trim(item.title);
      var url := Urls.NormalizeUrl(item.url, parse);
      var zh := out.bilingual.value.titleZh;
      (url in zhByUrl && zhByUrl[url] != [] ==> zh == Some(zhByUrl[url]) && st' == st)
      && (!(url in zhByUrl && zhByUrl[url] != []) && title in st.cache.entries && st.cache.entries[title] != [] ==>
            zh == Some(st.cache.entries[title]) && st' == st)
      && (Known(zhByUrl, st.cache, title, url).None? ==>
            if allow && st.translatedNow < max && tr(title).Some? && Text.HasCjk(tr(title).value) then
              zh == tr(title) && st'.cache == st.cache.Set(title, tr(title).value)
              && st'.translatedNow == st.translatedNow + 1
            else zh.None? && st' == st)
  {
  }

  /** `enrich` as the source writes it: straight-line code over the cache and the counter. */
  method Enrich(item: Record, allow: bool, zhByUrl: map<string, string>, cache: Cache, translatedNow: nat, max: nat,
                parse: Urls.Parser, tr: Translator)
    returns (out: Record, cache': Cache, translatedNow': nat)
    ensures (out, EnrichState(cache', translatedNow')) ==
      EnrichSpec(item, allow, zhByUrl, EnrichState(cache, translatedNow), max, parse, tr)
  {
    cache', translatedNow' := cache, translatedNow;
    var title := Trim(item.title);
    var url := Urls.NormalizeUrl(item.url, parse);
    assert EnrichSpec(item, allow, zhByUrl, EnrichState(cache, translatedNow), max, parse, tr)
      == EnrichWith(item, title, url, allow, zhByUrl, EnrichState(cache, translatedNow), max, tr);
    if Text.HasCjk(title) {
      out := item.(bilingual := Some(Bilingual(title, None, Some(title), title)));
      return;
    }
    if !Text.IsMostlyEnglish(title) {
      out := item.(bilingual := Some(Bilingual(title, None, None, title)));
      return;
    }
    var zhTitle;
    zhTitle, cache', translatedNow' := Lookup(title, url, allow, zhByUrl, cache, translatedNow, max, tr);
    if zhTitle.Some? {
      out := item.(bilingual := Some(Bilingual(title, Some(title), zhTitle, zhTitle.value + " / " + title)));
    } else {
      out := item.(bilingual := Some(Bilingual(title, Some(title), None, title)));
    }
  }

  /** The lookup part of `enrich`: the cross-reference, then the cache, then the service. */
  method Lookup(title: string, url: string, allow: bool, zhByUrl: map<string, string>, cache: Cache,
                translatedNow: nat, max: nat, tr: Translator)
    returns (zhTitle: Option<string>, cache': Cache, translatedNow': nat)
    ensures (zhTitle, EnrichState(cache', translatedNow')) ==
      LookupZh(title, url, allow, zhByUrl, EnrichState(cache, translatedNow), max, tr)
  {
    cache', translatedNow' := cache, translatedNow;
    zhTitle := if url in zhByUrl && zhByUrl[url] != [] then Some(zhByUrl[url]) else None;
    if zhTitle.None? {
      zhTitle := if title in cache.entries && cache.entries[title] != [] then Some(cache.entries[title]) else None;
    }
    if zhTitle.None? && allow && translatedNow < max {
      var translated := tr(title);
      if translated.Some? && Text.HasCjk(translated.value) {
        zhTitle := translated;
        cache' := cache.Set(title, translated.value);
        translatedNow' := translatedNow + 1;
      }
    }
  }

  // ----- the two passes -----

  /** `enrich` with its fixed arguments, as a step of a pass. */
  function EnrichStep(allow: bool, zhByUrl: map<string, string>, max: nat, parse: Urls.Parser, tr: Translator)
    : (Record, EnrichState) -> (Record, EnrichState)
  {
    (item: Record, st: EnrichState) => EnrichSpec(item, allow, zhByUrl, st, max, parse, tr)
  }

  /** One pass of `enrich` over a list, in order, threading the state. */
  function EnrichAll(items: seq<Record>, allow: bool, zhByUrl: map<string, string>, st: EnrichState, max: nat,
                     parse: Urls.Parser, tr: Translator): (r: (seq<Record>, EnrichState))
    ensures |r.0| == |items|
  {
    Thread(items, EnrichStep(allow, zhByUrl, max, parse, tr), st)
  }

  /** The `i`-th output is the enrichment of the `i`-th input in the state the pass had
      reached by then. */
  lemma EnrichAllAt(items: seq<Record>, allow: bool, zhByUrl: map<string, string>, st: EnrichState,
                    max: nat, parse: Urls.Parser, tr: Translator, i: nat)
    requires i < |items|
    ensures EnrichAll(items, allow, zhByUrl, st, max, parse, tr).0[i] ==
      EnrichSpec(items[i], allow, zhByUrl, EnrichAll(items[..i], allow, zhByUrl, st, max, parse, tr).1, max, parse, tr).0
  {
    ThreadAt(items, EnrichStep(allow, zhByUrl, max, parse, tr), st, i);
  }

  /** A pass over one more item is one more step. */
  lemma EnrichAllSnoc(items: seq<Record>, allow: bool, zhByUrl: map<string, string>, st: EnrichState,
                      max: nat, parse: Urls.Parser, tr: Translator)
    requires items != []
    ensures var prev := EnrichAll(items[..|items| - 1], allow, zhByUrl, st, max, parse, tr);
      var step := EnrichSpec(items[|items| - 1], allow, zhByUrl, prev.1, max, parse, tr);
      EnrichAll(items, allow, zhByUrl, st, max, parse, tr) == (prev.0 + [step.0], step.1)
  {
  }

  /** Every state a pass reaches from a well-formed cache holds a well-formed cache. */
  lemma {:induction false} EnrichAllValid(items: seq<Record>, allow: bool, zhByUrl: map<string, string>, st: EnrichState,
                                          max: nat, parse: Urls.Parser, tr: Translator)
    requires st.cache.Valid()
    ensures EnrichAll(items, allow, zhByUrl, st, max, parse, tr).1.cache.Valid()
    decreases |items|
  {
    if items != [] {
      EnrichAllValid(items[..|items| - 1], allow, zhByUrl, st, max, parse, tr);
      EnrichAllSnoc(items, allow, zhByUrl, st, max, parse, tr);
      EnrichState1(items[|items| - 1], allow, zhByUrl,
                   EnrichAll(items[..|items| - 1], allow, zhByUrl, st, max, parse, tr).1, max, parse, tr);
    }
  }

  /** The counter never passes the limit, and it grows by one per translation cached. */
  lemma {:induction false} CounterBound(items: seq<Record>, allow: bool, zhByUrl: map<string, string>, st: EnrichState,
                                        max: nat, parse: Urls.Parser, tr: Translator)
    requires st.translatedNow <= max
    ensures st.translatedNow <= EnrichAll(items, allow, zhByUrl, st, max, parse, tr).1.translatedNow <= max
    decreases |items|
  {
    if items != [] {
      CounterBound(items[..|items| - 1], allow, zhByUrl, st, max, parse, tr);
      EnrichAllSnoc(items, allow, zhByUrl, st, max, parse, tr);
      EnrichState1(items[|items| - 1], allow, zhByUrl, EnrichAll(items[..|items| - 1], allow, zhByUrl, st, max, parse, tr).1,
                   max, parse, tr);
    }
  }

  /** A pass that may not translate changes neither the cache nor the counter. */
  lemma {:induction false} NoTranslateKeepsState(items: seq<Record>, zhByUrl: map<string, string>, st: EnrichState,
                                                 max: nat, parse: Urls.Parser, tr: Translator)
    ensures EnrichAll(items, false, zhByUrl, st, max, parse, tr).1 == st
    decreases |items|
  {
    if items != [] {
      NoTranslateKeepsState(items[..|items| - 1], zhByUrl, st, max, parse, tr);
      EnrichAllSnoc(items, false, zhByUrl, st, max, parse, tr);
      EnrichState1(items[|items| - 1], false, zhByUrl, st, max, parse, tr);
    }
  }

  /** One `enrich` either leaves the state alone or, when allowed and under the limit, caches
      a Chinese answer of the service for a title with no cached Chinese title and counts it. */
  lemma EnrichState1(item: Record, allow: bool, zhByUrl: map<string, string>, st: EnrichState, max: nat,
                     parse: Urls.Parser, tr: Translator)
    ensures var st' := EnrichSpec(item, allow, zhByUrl, st, max, parse, tr).1;
      var title := Trim(item.title);
      st' == st
      || (allow && st.translatedNow < max && tr(title).Some? && Text.HasCjk(tr(title).value)
          && !(title in st.cache.entries && st.cache.entries[title] != [])
          && st'.cache == st.cache.Set(title, tr(title).value) && st'.translatedNow == st.translatedNow + 1)
  {
  }

  /** The cache only grows: every key stays, and an entry holding a title keeps it. */
  lemma {:induction false} CacheKeeps(items: seq<Record>, allow: bool, zhByUrl: map<string, string>, st: EnrichState,
                                      max: nat, parse: Urls.Parser, tr: Translator, k: string)
    requires k in st.cache.entries
    ensures var c := EnrichAll(items, allow, zhByUrl, st, max, parse, tr).1.cache;
      k in c.entries && (st.cache.entries[k] != [] ==> c.entries[k] == st.cache.entries[k])
    decreases |items|
  {
    if items != [] {
      var init := items[..|items| - 1];
      CacheKeeps(init, allow, zhByUrl, st, max, parse, tr, k);
      EnrichAllSnoc(items, allow, zhByUrl, st, max, parse, tr);
      var mid := EnrichAll(init, allow, zhByUrl, st, max, parse, tr).1;
      EnrichState1(items[|items| - 1], allow, zhByUrl, mid, max, parse, tr);
    }
  }

  /** Every key added or filled is the trimmed title of some item, mapped to the Chinese
      answer of the service for it. */
  lemma {:induction false} CacheAdditions(items: seq<Record>, allow: bool, zhByUrl: map<string, string>, st: EnrichState,
                                          max: nat, parse: Urls.Parser, tr: Translator, k: string)
    requires var c := EnrichAll(items, allow, zhByUrl, st, max, parse, tr).1.cache;
      k in c.entries && !(k in st.cache.entries && c.entries[k] == st.cache.entries[k])
    ensures var c := EnrichAll(items, allow, zhByUrl, st, max, parse, tr).1.cache;
      tr(k) == Some(c.entries[k]) && Text.HasCjk(c.entries[k])
      && exists i | 0 <= i < |items| :: Trim(items[i].title) == k
    decreases |items|
  {
    var init := items[..|items| - 1];
    var last := items[|items| - 1];
    var mid := EnrichAll(init, allow, zhByUrl, st, max, parse, tr).1;
    var c := EnrichAll(items, allow, zhByUrl, st, max, parse, tr).1.cache;
    EnrichAllSnoc(items, allow, zhByUrl, st, max, parse, tr);
    EnrichState1(last, allow, zhByUrl, mid, max, parse, tr);
    if k in mid.cache.entries && c.entries[k] == mid.cache.entries[k] {
      CacheAdditions(init, allow, zhByUrl, st, max, parse, tr, k);
      var i :| 0 <= i < |init| && Trim(init[i].title) == k;
      assert items[i] == init[i];
    } else {
      assert Trim(items[|items| - 1].title) == k;
    }
  }

  /** `addBilingualFields(itemsAi, itemsAll, cache, max)`: the relevant records may be
      translated, all records only looked up; the cache is returned with the additions. */
  function AddBilingualSpec(itemsAi: seq<Record>, itemsAll: seq<Record>, cache: Cache, max: nat,
                            parse: Urls.Parser, tr: Translator): (seq<Record>, seq<Record>, Cache)
  {
    var zh := ZhByUrl(itemsAll, parse);
    var (ai, st) := EnrichAll(itemsAi, true, zh, EnrichState(cache, 0), max, parse, tr);
    var (all, st') := EnrichAll(itemsAll, false, zh, st, max, parse, tr);
    (ai, all, st'.cache)
  }

  /** The outputs keep the length of their inputs, the second pass leaves the cache as the
      first left it, and no more than `max` translations were made. */
  lemma AddBilingualShape(itemsAi: seq<Record>, itemsAll: seq<Record>, cache: Cache, max: nat,
                          parse: Urls.Parser, tr: Translator)
    ensures var (ai, all, c) := AddBilingualSpec(itemsAi, itemsAll, cache, max, parse, tr);
      var zh := ZhByUrl(itemsAll, parse);
      var st := EnrichAll(itemsAi, true, zh, EnrichState(cache, 0), max, parse, tr).1;
      |ai| == |itemsAi| && |all| == |itemsAll| && c == st.cache && st.translatedNow <= max
      && (cache.Valid() ==> c.Valid())
  {
    var zh := ZhByUrl(itemsAll, parse);
    var st := EnrichAll(itemsAi, true, zh, EnrichState(cache, 0), max, parse, tr).1;
    NoTranslateKeepsState(itemsAll, zh, st, max, parse, tr);
    CounterBound(itemsAi, true, zh, EnrichState(cache, 0), max, parse, tr);
    if cache.Valid() {
      EnrichAllValid(itemsAi, true, zh, EnrichState(cache, 0), max, parse, tr);
    }
  }

  /** The cross-reference loop. */
  method BuildZhByUrl(itemsAll: seq<Record>, parse: Urls.Parser) returns (zhByUrl: map<string, string>)
    ensures zhByUrl == ZhByUrl(itemsAll, parse)
  {
    zhByUrl := map[];
    var i := 0;
    while i < |itemsAll|
      invariant 0 <= i <= |itemsAll|
      invariant zhByUrl == ZhByUrl(itemsAll[..i], parse)
    {
      assert itemsAll[..i + 1][..i] == itemsAll[..i];
      var title := Trim(itemsAll[i].title);
      var url := Urls.NormalizeUrl(itemsAll[i].url, parse);
      if title != [] && url != [] && Text.HasCjk(title) {
        zhByUrl := zhByUrl[url := title];
      }
      i := i + 1;
    }
    assert itemsAll[..i] == itemsAll;
  }

  /** One `enrich` loop, pushing the results in order. */
  method EnrichPass(items: seq<Record>, allow: bool, zhByUrl: map<string, string>, cache: Cache, translatedNow: nat,
                    max: nat, parse: Urls.Parser, tr: Translator)
    returns (outs: seq<Record>, cache': Cache, translatedNow': nat)
    ensures (outs, EnrichState(cache', translatedNow')) ==
      EnrichAll(items, allow, zhByUrl, EnrichState(cache, translatedNow), max, parse, tr)
  {
    outs, cache', translatedNow' := [], cache, translatedNow;
    var i := 0;
    while i < |items|
      invariant 0 <= i <= |items|
      invariant (outs, EnrichState(cache', translatedNow')) ==
        EnrichAll(items[..i], allow, zhByUrl, EnrichState(cache, translatedNow), max, parse, tr)
    {
      assert items[..i + 1][..i] == items[..i];
      ghost var mid := EnrichState(cache', translatedNow');
      EnrichAllSnoc(items[..i + 1], allow, zhByUrl, EnrichState(cache, translatedNow), max, parse, tr);
      var out;
      out, cache', translatedNow' := Enrich(items[i], allow, zhByUrl, cache', translatedNow', max, parse, tr);
      outs := outs + [out];
      i := i + 1;
    }
    assert items[..i] == items;
  }

  /** `addBilingualFields`: the cross-reference loop, then the two `enrich` loops sharing one
      counter, which ends within the limit. */
  method AddBilingualFields(itemsAi: seq<Record>, itemsAll: seq<Record>, cache: Cache, max: nat,
                            parse: Urls.Parser, tr: Translator)
    returns (aiOut: seq<Record>, allOut: seq<Record>, cacheOut: Cache)
    ensures (aiOut, allOut, cacheOut) == AddBilingualSpec(itemsAi, itemsAll, cache, max, parse, tr)
  {
    var zhByUrl := BuildZhByUrl(itemsAll, parse);
    var translatedNow;
    aiOut, cacheOut, translatedNow := EnrichPass(itemsAi, true, zhByUrl, cache, 0, max, parse, tr);
    allOut, cacheOut, translatedNow := EnrichPass(itemsAll, false, zhByUrl, cacheOut, translatedNow, max, parse, tr);
  }

  // ----- the cache file -----

  /** `loadTitleZhCache(data)`: the entries with a non-blank key and a non-blank value, in
      the object's order. */
  function LoadSpec(pairs: seq<(string, string)>): (c: Cache)
    ensures c.Valid()
    decreases |pairs|
  {
    if pairs == [] then Empty()
    else
      var prev := LoadSpec(pairs[..|pairs| - 1]);
      var (k, v) := pairs[|pairs| - 1];
      if !IsBlank(k) && !IsBlank(v) then prev.Set(k, v) else prev
  }

  /** Loading keeps exactly the keys of the pairs with non-blank key and value ... */
  lemma {:induction false} LoadKeeps(pairs: seq<(string, string)>, k: string)
    ensures k in LoadSpec(pairs).entries <==>
      exists i | 0 <= i < |pairs| :: pairs[i].0 == k && !IsBlank(k) && !IsBlank(pairs[i].1)
    decreases |pairs|
  {
    if pairs != [] {
      var n := |pairs| - 1;
      var init := pairs[..n];
      LoadKeeps(init, k);
      var prev := LoadSpec(init);
      LoadStep(pairs, |pairs|);
      assert pairs[..|pairs|] == pairs;
      if k in LoadSpec(pairs).entries {
        if k in prev.entries {
          var i :| 0 <= i < |init| && init[i].0 == k && !IsBlank(k) && !IsBlank(init[i].1);
          assert pairs[i] == init[i];
        } else {
          assert pairs[n].0 == k && !IsBlank(k) && !IsBlank(pairs[n].1);
        }
      } else {
        forall i | 0 <= i < |pairs| ensures !(pairs[i].0 == k && !IsBlank(k) && !IsBlank(pairs[i].1)) {
          if i < n {
            assert pairs[i] == init[i];
          }
        }
      }
    }
  }

  /** ... and every value it keeps is non-blank, as is its key. */
  lemma {:induction false} LoadNonBlank(pairs: seq<(string, string)>, k: string)
    requires k in LoadSpec(pairs).entries
    ensures !IsBlank(k) && !IsBlank(LoadSpec(pairs).entries[k])
    decreases |pairs|
  {
    var init := pairs[..|pairs| - 1];
    if k in LoadSpec(init).entries {
      LoadNonBlank(init, k);
    }
  }

  method LoadTitleZhCache(data: OrderedMap<string, string>) returns (cache: Cache)
    requires data.Valid()
    ensures cache == LoadSpec(data.Items())
  {
    var pairs := data.Items();
    cache := Empty();
    var i := 0;
    while i < |pairs|
      invariant 0 <= i <= |pairs|
      invariant cache == LoadSpec(pairs[..i])
    {
      assert pairs[..i + 1][..i] == pairs[..i];
      var (k, v) := pairs[i];
      if !IsBlank(k) && !IsBlank(v) {
        cache := cache.Set(k, v);
      }
      i := i + 1;
    }
    assert pairs[..i] == pairs;
  }

  /** Copying the pairs of a map into a fresh object, in order. */
  function CopySpec(pairs: seq<(string, string)>): (obj: OrderedMap<string, string>)
    ensures obj.Valid()
    decreases |pairs|
  {
    if pairs == [] then Empty()
    else
      var prev := CopySpec(pairs[..|pairs| - 1]);
      prev.Set(pairs[|pairs| - 1].0, pairs[|pairs| - 1].1)
  }

  /** Copying the items of a map rebuilds the map: same keys in the same order, same values. */
  lemma {:induction false} CopyPrefix(m: OrderedMap<string, string>, n: nat)
    requires m.Valid() && n <= |m.keys|
    ensures CopySpec(m.Items()[..n]).keys == m.keys[..n]
    ensures forall k | k in CopySpec(m.Items()[..n]).entries :: k in m.entries && CopySpec(m.Items()[..n]).entries[k] == m.entries[k]
    decreases n
  {
    if n > 0 {
      CopyPrefix(m, n - 1);
      var items := m.Items();
      var k := m.keys[n - 1];
      assert items[n - 1] == (k, m.entries[k]);
      CopyStep(items, n);
      FreshKey(m.keys, n);
      CopyNewKey(CopySpec(items[..n - 1]), m.keys[..n - 1], k, m.entries[k]);
      assert m.keys[..n] == m.keys[..n - 1] + [k];
    }
  }

  /** One more pair copied. */
  lemma CopyStep(pairs: seq<(string, string)>, n: nat)
    requires 0 < n <= |pairs|
    ensures CopySpec(pairs[..n]) == CopySpec(pairs[..n - 1]).Set(pairs[n - 1].0, pairs[n - 1].1)
  {
    assert pairs[..n][..n - 1] == pairs[..n - 1];
  }

  /** Setting a key that is not among a valid map's keys appends it. */
  lemma CopyNewKey(prev: OrderedMap<string, string>, keys: seq<string>, k: string, v: string)
    requires prev.Valid() && prev.keys == keys && k !in keys
    ensures prev.Set(k, v).keys == keys + [k] && prev.Set(k, v).entries == prev.entries[k := v]
  {
  }

  /** The `n`-th key of a map does not occur before it. */
  lemma FreshKey<K>(keys: seq<K>, n: nat)
    requires Sorting.AllDistinct(keys) && 0 < n <= |keys|
    ensures keys[n - 1] !in keys[..n - 1]
  {
    var before := keys[..n - 1];
    forall j | 0 <= j < |before| ensures before[j] != keys[n - 1] {
      assert before[j] == keys[j];
    }
  }

  /** `cacheToPojo(cache)` */
  method CacheToPojo(cache: Cache) returns (obj: OrderedMap<string, string>)
    requires cache.Valid()
    ensures obj == CopySpec(cache.Items())
  {
    var pairs := cache.Items();
    obj := Empty();
    var i := 0;
    while i < |pairs|
      invariant 0 <= i <= |pairs|
      invariant obj == CopySpec(pairs[..i])
    {
      assert pairs[..i + 1][..i] == pairs[..i];
      obj := obj.Set(pairs[i].0, pairs[i].1);
      i := i + 1;
    }
    assert pairs[..i] == pairs;
  }

  /** `cacheToPojo` preserves every pair and the order. */
  lemma PojoIsCache(cache: Cache)
    requires cache.Valid()
    ensures CopySpec(cache.Items()) == cache
  {
    CopyPrefix(cache, |cache.keys|);
    assert cache.Items()[..|cache.keys|] == cache.Items();
    assert cache.keys[..|cache.keys|] == cache.keys;
    var c := CopySpec(cache.Items());
    assert c.entries.Keys == cache.entries.Keys;
  }

  /** A cache whose keys and values are all non-blank (such as a loaded one) survives being
      written out and loaded again. */
  lemma {:induction false} LoadOfPojo(cache: Cache, n: nat)
    requires cache.Valid() && n <= |cache.keys|
    requires forall k | k in cache.entries :: !IsBlank(k) && !IsBlank(cache.entries[k])
    ensures LoadSpec(cache.Items()[..n]) == CopySpec(cache.Items()[..n])
    decreases n
  {
    if n > 0 {
      var items := cache.Items();
      LoadOfPojo(cache, n - 1);
      var k := cache.keys[n - 1];
      assert items[n - 1] == (k, cache.entries[k]);
      assert !IsBlank(k) && !IsBlank(cache.entries[k]);
      LoadStep(items, n);
      CopyStep(items, n);
    }
  }

  /** One more pair loaded: set when neither its key nor its value is blank. */
  lemma LoadStep(pairs: seq<(string, string)>, n: nat)
    requires 0 < n <= |pairs|
    ensures var (k, v) := pairs[n - 1];
      LoadSpec(pairs[..n]) == if !IsBlank(k) && !IsBlank(v) then LoadSpec(pairs[..n - 1]).Set(k, v) else LoadSpec(pairs[..n - 1])
  {
    assert pairs[..n][..n - 1] == pairs[..n - 1];
  }

  lemma RoundTrip(cache: Cache)
    requires cache.Valid()
    requires forall k | k in cache.entries :: !IsBlank(k) && !IsBlank(cache.entries[k])
    ensures LoadSpec(CopySpec(cache.Items()).Items()) == cache
  {
    var items := cache.Items();
    assert items[..|cache.keys|] == items;
    LoadOfPojo(cache, |cache.keys|);
    PojoIsCache(cache);
    assert CopySpec(items).Items() == items;
  }
}
